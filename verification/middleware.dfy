/** middleware.ts: the route gate.  Whether a session exists is decided by the
    session provider's cookies; here it is the boolean `hasSession`. */
module Middleware {

  datatype Decision = Next | Redirect(target: string)

  /** The two rules, in the order the gate tests them. */
  function Decide(hasSession: bool, path: string): (d: Decision)
    ensures d == Redirect("/login") <==> !hasSession && "/pedidos" <= path
    ensures d == Redirect("/pedidos") <==> hasSession && path == "/login"
    ensures d.Redirect? ==> d.target == "/login" || d.target == "/pedidos"
  {
    if !hasSession && "/pedidos" <= path then Redirect("/login")
    else if hasSession && path == "/login" then Redirect("/pedidos")
    else Next
  }

  /** The matcher `['/pedidos/:path*', '/login']`: `/pedidos` itself, any path
      below it, and `/login`. */
  predicate Matches(path: string) {
    path == "/pedidos" || "/pedidos/" <= path || path == "/login"
  }

  /** What a request meets: the gate only runs on matched paths. */
  function Gate(hasSession: bool, path: string): (d: Decision)
    ensures !Matches(path) ==> d == Next
    ensures Matches(path) ==> d == Decide(hasSession, path)
  {
    if Matches(path) then Decide(hasSession, path) else Next
  }

  /** The two redirect conditions never hold together, and when neither holds
      the request passes through. */
  lemma RulesAreExclusive(hasSession: bool, path: string)
    ensures !(!hasSession && "/pedidos" <= path && hasSession && path == "/login")
    ensures !(!hasSession && "/pedidos" <= path) && !(hasSession && path == "/login") ==> Decide(hasSession, path) == Next
  {
  }

  /** No redirect loop: with the session unchanged, the target of a redirect
      passes the gate on the next request. */
  lemma NoRedirectLoop(hasSession: bool, path: string)
    requires Gate(hasSession, path).Redirect?
    ensures Gate(hasSession, Gate(hasSession, path).target) == Next
  {
    var t := Gate(hasSession, path).target;
    if hasSession {
      assert t == "/pedidos";
      assert t != "/login";
    } else {
      assert t == "/login";
      assert !("/pedidos" <= t) by {
        assert t[1] != "/pedidos"[1];
      }
    }
  }

  /** Pages outside the matcher are never redirected, session or not. */
  lemma OtherPagesPass(hasSession: bool)
    ensures Gate(hasSession, "/produtos") == Next
    ensures Gate(hasSession, "/clientes") == Next
    ensures Gate(hasSession, "/usuarios") == Next
    ensures Gate(hasSession, "/dashboard") == Next
    ensures Gate(hasSession, "/perfil") == Next
  {
    assert "/produtos"[2] != "/pedidos/"[2];
    assert "/clientes"[1] != "/pedidos/"[1];
    assert "/usuarios"[1] != "/pedidos/"[1];
    assert "/dashboard"[1] != "/pedidos/"[1];
    assert "/perfil"[3] != "/pedidos/"[3];
  }

  /** Every path below `/pedidos` is gated: without a session it leads to `/login`. */
  lemma OrdersNeedSession(path: string)
    requires path == "/pedidos" || "/pedidos/" <= path
    ensures Gate(false, path) == Redirect("/login")
  {
    if path != "/pedidos" {
      assert path[..8] == "/pedidos/"[..8];
    }
  }
}
