/** src/app/api/perfil/change-password/route.ts: replace the signed-in user's
    password.  Statements: 0 is the `SELECT` by id, 1 the `UPDATE`. */
module ChangePasswordRoute {
  import opened Wrappers
  import opened Types
  import opened Database
  import opened Auth

  datatype ChangePasswordBody = ChangePasswordBody(currentPassword: string, newPassword: string)

  const MsgNaoAutorizado := "Não autorizado"
  const MsgObrigatorias := "A senha atual e a nova senha são obrigatórias"
  const MsgNaoEncontrado := "Usuário não encontrado"
  const MsgSenhaIncorreta := "Senha atual incorreta"
  const MsgAlterada := "Senha alterada com sucesso"
  const MsgErroInterno := "Erro interno do servidor"

  /** `!session || !session.user || !session.user.id` is false. */
  predicate SignedIn(session: Option<Session>) {
    session.Some? && session.value.user.Some? && session.value.user.value.id.Some?
    && session.value.user.value.id.value != ""
  }

  /** `rows[0]` of `SELECT * FROM usuarios WHERE id = $1`. */
  function FindById(us: seq<Usuario>, id: string): (r: Option<Usuario>)
    ensures r.None? <==> FreshUserId(us, id)
    ensures r.Some? ==> r.value in us && r.value.id == id
  {
    if us == [] then None
    else if us[0].id == id then Some(us[0])
    else
      var r := FindById(us[1..], id);
      assert forall u :: u in us[1..] ==> u in us;
      r
  }

  /** `UPDATE usuarios SET hashed_password = $1 WHERE id = $2`. */
  function SetPassword(us: seq<Usuario>, id: string, d: Digest): (r: seq<Usuario>)
    ensures |r| == |us|
    ensures forall i :: 0 <= i < |us| ==> r[i] == if us[i].id == id then us[i].(hashedPassword := d) else us[i]
  {
    seq(|us|, i requires 0 <= i < |us| => if us[i].id == id then us[i].(hashedPassword := d) else us[i])
  }

  method Post(db: Db, session: Option<Session>, body: ChangePasswordBody, hash: Hasher, failAt: Option<nat>)
    returns (resp: Response)
    requires db.Valid()
    modifies db
    ensures db.Valid()
    ensures db.produtos == old(db.produtos) && db.clientes == old(db.clientes)
    ensures !SignedIn(session) ==> resp == Response(401, MsgNaoAutorizado) && db.connects == old(db.connects)
    ensures SignedIn(session) && (body.currentPassword == "" || body.newPassword == "") ==>
              resp == Response(400, MsgObrigatorias) && db.connects == old(db.connects)
    ensures SignedIn(session) && body.currentPassword != "" && body.newPassword != "" ==>
              db.connects == old(db.connects) + 1
    ensures SignedIn(session) && body.currentPassword != "" && body.newPassword != "" && !Fails(failAt, 0) ==>
              var id := session.value.user.value.id.value;
              var row := FindById(old(db.usuarios), id);
              && (row.None? ==> resp == Response(404, MsgNaoEncontrado))
              && (row.Some? && !Verify(hash, body.currentPassword, row.value.hashedPassword) ==>
                    resp == Response(401, MsgSenhaIncorreta))
              && (row.Some? && Verify(hash, body.currentPassword, row.value.hashedPassword) ==>
                    resp == (if Fails(failAt, 1) then Response(500, MsgErroInterno) else Response(200, MsgAlterada)))
    ensures SignedIn(session) && body.currentPassword != "" && body.newPassword != "" && Fails(failAt, 0) ==>
              resp == Response(500, MsgErroInterno)
    ensures resp.status == 200 ==>
              db.usuarios == SetPassword(old(db.usuarios), session.value.user.value.id.value, hash(body.newPassword))
    ensures resp.status != 200 ==> db.usuarios == old(db.usuarios)
  {
    if !SignedIn(session) {
      return Response(401, MsgNaoAutorizado);
    }
    if body.currentPassword == "" || body.newPassword == "" {
      return Response(400, MsgObrigatorias);
    }
    db.Connect();
    var userId := session.value.user.value.id.value;
    if Fails(failAt, 0) {
      resp := Response(500, MsgErroInterno);
    } else {
      var row := FindById(db.usuarios, userId);
      if row.None? {
        resp := Response(404, MsgNaoEncontrado);
      } else if !Verify(hash, body.currentPassword, row.value.hashedPassword) {
        resp := Response(401, MsgSenhaIncorreta);
      } else if Fails(failAt, 1) {
        resp := Response(500, MsgErroInterno);
      } else {
        var updated := SetPassword(db.usuarios, userId, hash(body.newPassword));
        SetPasswordKeepsKeys(db.usuarios, userId, hash(body.newPassword));
        db.usuarios := updated;
        resp := Response(200, MsgAlterada);
      }
    }
    db.Release();
  }

  /** The update leaves ids and emails as they were, so the keys stay unique. */
  lemma SetPasswordKeepsKeys(us: seq<Usuario>, id: string, d: Digest)
    requires UniqueUserIds(us) && UniqueEmails(us)
    ensures UniqueUserIds(SetPassword(us, id, d)) && UniqueEmails(SetPassword(us, id, d))
  {
  }

  /** With unique ids, the update changes exactly one row: the one found by
      the lookup, and only its hash. */
  lemma {:induction false} ExactlyOneRowChanges(us: seq<Usuario>, id: string, d: Digest)
    requires UniqueUserIds(us) && !FreshUserId(us, id)
    ensures exists k :: 0 <= k < |us| && us[k].id == id
              && SetPassword(us, id, d)[k] == us[k].(hashedPassword := d)
              && forall i :: 0 <= i < |us| && i != k ==> SetPassword(us, id, d)[i] == us[i]
  {
    var k :| 0 <= k < |us| && us[k].id == id;
    forall i | 0 <= i < |us| && i != k ensures SetPassword(us, id, d)[i] == us[i] {
      if i < k { assert us[i].id != us[k].id; } else { assert us[k].id != us[i].id; }
    }
  }

  /** After a successful change the new password signs in, and an old
      password whose hash differs no longer does. */
  lemma {:induction false} NewPasswordSignsIn(us: seq<Usuario>, u: Usuario, oldPw: string, newPw: string, hash: Hasher)
    requires UniqueUserIds(us) && UniqueEmails(us) && u in us && newPw != "" && oldPw != "" && u.email != ""
    requires hash(oldPw) != hash(newPw)
    ensures Authorize(Some(Credentials(u.email, newPw)), SetPassword(us, u.id, hash(newPw)), hash, false)
            == Some(AuthUser(u.id, u.nome, u.email))
    ensures Authorize(Some(Credentials(u.email, oldPw)), SetPassword(us, u.id, hash(newPw)), hash, false).None?
  {
    var us' := SetPassword(us, u.id, hash(newPw));
    var k :| 0 <= k < |us| && us[k] == u;
    var u' := u.(hashedPassword := hash(newPw));
    assert us'[k] == u';
    assert u' in us';
    SetPasswordKeepsKeys(us, u.id, hash(newPw));
    var found := FindByEmail(us', u.email);
    assert found.Some?;
    assert found.value == u';
  }
}
