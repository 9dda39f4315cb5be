/** src/app/login/page.tsx: `handleLogin`. */
module LoginPage {
  import opened Wrappers
  import opened Types
  import opened Auth

  const MsgInvalido := "Email ou senha inválidos."
  const MsgSucesso := "Login realizado com sucesso!"
  const MsgInesperado := "Ocorreu um erro inesperado."

  /** How `signIn` settles: a result with `error`, a result without one (with
      the session read back afterwards), or a thrown error. */
  datatype Outcome = SignInError | SignedIn(session: Option<Session>) | Thrown

  datatype Toast = ErrorToast(text: string) | SuccessToast(text: string)

  /** The landing route after a successful sign-in. */
  function LandingRoute(session: Option<Session>): (r: string)
    ensures r == "/dashboard" <==> session.Some? && session.value.user.Some? && session.value.user.value.role == Some(Admin)
    ensures r == "/dashboard" || r == "/pedidos"
  {
    if session.Some? && session.value.user.Some? && session.value.user.value.role == Some(Admin) then "/dashboard"
    else "/pedidos"
  }

  /** Since the callbacks never put a role into the session, a successful
      sign-in always lands on `/pedidos`. */
  lemma CallbackSessionsLandOnPedidos(s: Session)
    requires RoleFree(s)
    ensures LandingRoute(Some(s)) == "/pedidos"
  {
  }

  class Login {
    var email: string
    var password: string
    var isLoading: bool

    constructor ()
      ensures email == "" && password == "" && !isLoading
    {
      email := "";
      password := "";
      isLoading := false;
    }

    /** The button handler: `isLoading` is raised before the outcome is
        consulted and lowered on every path; only a successful sign-in
        navigates. */
    method HandleLogin(outcome: Outcome) returns (nav: Option<string>, toast: Toast)
      modifies this`isLoading
      ensures !isLoading
      ensures outcome.SignInError? ==> nav.None? && toast == ErrorToast(MsgInvalido)
      ensures outcome.Thrown? ==> nav.None? && toast == ErrorToast(MsgInesperado)
      ensures outcome.SignedIn? ==> nav == Some(LandingRoute(outcome.session)) && toast == SuccessToast(MsgSucesso)
    {
      isLoading := true;
      match outcome {
        case SignInError =>
          nav, toast := None, ErrorToast(MsgInvalido);
        case SignedIn(session) =>
          nav, toast := Some(LandingRoute(session)), SuccessToast(MsgSucesso);
        case Thrown =>
          nav, toast := None, ErrorToast(MsgInesperado);
      }
      isLoading := false;
    }
  }
}
