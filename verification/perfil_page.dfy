/** src/app/perfil/page.tsx: the change-password form. */
module PerfilPage {
  import opened Wrappers
  import ChangePasswordRoute

  const MsgNaoCorrespondem := "A nova senha e a confirmação não correspondem."
  const MsgAlgoDeuErrado := "Algo deu errado"
  const MsgDesconhecido := "Ocorreu um erro desconhecido"
  const AvisoDesconexao := " Você será desconectado em 3 segundos..."

  /** How the request settles: a reply (its `ok` flag and the `message` of its
      JSON body, if any), an `Error` thrown by `fetch` or by the JSON parse, or
      a thrown value that is not an `Error`. */
  datatype Outcome = Replied(ok: bool, message: Option<string>) | Failed(errorMessage: string) | ThrownValue

  /** `data.message || 'Algo deu errado'`: an absent or empty message falls back. */
  function ReplyError(message: Option<string>): (r: string)
    ensures r != ""
    ensures message.Some? && message.value != "" ==> r == message.value
  {
    if message.Some? && message.value != "" then message.value else MsgAlgoDeuErrado
  }

  /** `data.message + ' Você será ...'`: JavaScript renders an absent message as `undefined`. */
  function SuccessText(message: Option<string>): (r: string)
    ensures |r| >= |AvisoDesconexao|
    ensures r[|r| - |AvisoDesconexao|..] == AvisoDesconexao
    ensures message.Some? ==> |r| == |message.value| + |AvisoDesconexao| && r[..|message.value|] == message.value
  {
    (if message.Some? then message.value else "undefined") + AvisoDesconexao
  }

  class Perfil {
    var currentPassword: string
    var newPassword: string
    var confirmPassword: string
    var message: string
    var error: string

    constructor ()
      ensures currentPassword == "" && newPassword == "" && confirmPassword == ""
      ensures message == "" && error == ""
    {
      currentPassword, newPassword, confirmPassword := "", "", "";
      message, error := "", "";
    }

    /** `handleSubmit`: the body sent (`None` when nothing is sent) and the new
        `message` / `error`.  `outcome` is how the request would settle; it is
        ignored when no request goes out.  The three fields are left alone. */
    method HandleSubmit(outcome: Outcome) returns (request: Option<ChangePasswordRoute.ChangePasswordBody>)
      modifies this`message, this`error
      ensures newPassword != confirmPassword ==> request.None? && message == "" && error == MsgNaoCorrespondem
      ensures newPassword == confirmPassword ==> request == Some(ChangePasswordRoute.ChangePasswordBody(currentPassword, newPassword))
      ensures request.Some? && outcome.Replied? && outcome.ok ==> message == SuccessText(outcome.message) && error == ""
      ensures request.Some? && outcome.Replied? && !outcome.ok ==> message == "" && error == ReplyError(outcome.message)
      ensures request.Some? && outcome.Failed? ==> message == "" && error == outcome.errorMessage
      ensures request.Some? && outcome.ThrownValue? ==> message == "" && error == MsgDesconhecido
      ensures message == "" || error == ""
    {
      error := "";
      message := "";
      if newPassword != confirmPassword {
        error := MsgNaoCorrespondem;
        return None;
      }
      request := Some(ChangePasswordRoute.ChangePasswordBody(currentPassword, newPassword));
      match outcome {
        case Replied(ok, msg) =>
          if !ok {
            error := ReplyError(msg);
          } else {
            message := SuccessText(msg);
          }
        case Failed(m) =>
          error := m;
        case ThrownValue =>
          error := MsgDesconhecido;
      }
    }
  }

  /** The success notice carries the route's own confirmation. */
  lemma RouteSuccessIsShown()
    ensures SuccessText(Some(ChangePasswordRoute.MsgAlterada)) == ChangePasswordRoute.MsgAlterada + AvisoDesconexao
  {
  }

  /** Every refusal of the route reaches the user with the route's own text. */
  lemma RouteRefusalsAreShown(m: string)
    requires m in {ChangePasswordRoute.MsgNaoAutorizado, ChangePasswordRoute.MsgObrigatorias,
                   ChangePasswordRoute.MsgNaoEncontrado, ChangePasswordRoute.MsgSenhaIncorreta,
                   ChangePasswordRoute.MsgErroInterno}
    ensures ReplyError(Some(m)) == m
  {
  }
}
