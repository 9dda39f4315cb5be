/** src/app/api/register/route.ts: create an account.  Statements are numbered
    for fault injection: 0 is the duplicate-email `SELECT`, 1 the `INSERT`. */
module RegisterRoute {
  import opened Wrappers
  import opened Types
  import opened Database
  import Auth

  /** The JSON body; an absent field is the empty string.  Any `role` in the
      body is never read, so it has no place here. */
  datatype RegisterBody = RegisterBody(nome: string, email: string, password: string)

  const MsgCamposObrigatorios := "Nome, email e senha são obrigatórios"
  const MsgEmailCadastrado := "Email já cadastrado"
  const MsgCriado := "Usuário criado com sucesso"
  const MsgErro := "Erro ao criar usuário"

  predicate Complete(b: RegisterBody) {
    b.nome != "" && b.email != "" && b.password != ""
  }

  /** The row the route inserts: the hash of the password, never the password,
      and no role (the column default applies). */
  function NewUser(id: string, b: RegisterBody, hash: Hasher): (u: Usuario)
    ensures Verify(hash, b.password, u.hashedPassword)
    ensures u.role.None? && u.id == id && u.nome == b.nome && u.email == b.email
  {
    Usuario(id, b.nome, b.email, hash(b.password), None)
  }

  method Post(db: Db, body: RegisterBody, hash: Hasher, newId: string, failAt: Option<nat>) returns (resp: Response)
    requires db.Valid()
    requires FreshUserId(db.usuarios, newId)
    modifies db
    ensures db.Valid()
    ensures db.produtos == old(db.produtos) && db.clientes == old(db.clientes)
    ensures !Complete(body) ==> resp == Response(400, MsgCamposObrigatorios) && db.connects == old(db.connects)
    ensures Complete(body) ==> db.connects == old(db.connects) + 1
    ensures resp.status == 409 <==> Complete(body) && !Fails(failAt, 0) && EmailTaken(old(db.usuarios), body.email)
    ensures resp.status == 201 <==> Complete(body) && !Fails(failAt, 0) && !EmailTaken(old(db.usuarios), body.email) && !Fails(failAt, 1)
    ensures resp.status == 500 <==> Complete(body) && (Fails(failAt, 0) || (!EmailTaken(old(db.usuarios), body.email) && Fails(failAt, 1)))
    ensures resp.status == 201 ==> db.usuarios == old(db.usuarios) + [NewUser(newId, body, hash)]
    ensures resp.status != 201 ==> db.usuarios == old(db.usuarios)
  {
    if !Complete(body) {
      return Response(400, MsgCamposObrigatorios);
    }
    db.Connect();
    if Fails(failAt, 0) {
      resp := Response(500, MsgErro);
    } else if EmailTaken(db.usuarios, body.email) {
      resp := Response(409, MsgEmailCadastrado);
    } else if Fails(failAt, 1) {
      resp := Response(500, MsgErro);
    } else {
      var u := NewUser(newId, body, hash);
      forall i | 0 <= i < |db.usuarios| ensures db.usuarios[i].email != u.email && db.usuarios[i].id != u.id {
        assert db.usuarios[i] in db.usuarios;
      }
      db.usuarios := db.usuarios + [u];
      resp := Response(201, MsgCriado);
    }
    db.Release();
  }

  /** A freshly registered account signs in with the password it was
      registered with. */
  lemma {:induction false} RegisteredUserCanSignIn(us: seq<Usuario>, id: string, b: RegisterBody, hash: Hasher)
    requires Complete(b) && !EmailTaken(us, b.email) && UniqueEmails(us)
    ensures UniqueEmails(us + [NewUser(id, b, hash)])
    ensures Auth.Authorize(Some(Auth.Credentials(b.email, b.password)), us + [NewUser(id, b, hash)], hash, false)
            == Some(Auth.AuthUser(id, b.nome, b.email))
  {
    var u := NewUser(id, b, hash);
    var us' := us + [u];
    forall i | 0 <= i < |us| ensures us[i].email != b.email {
      assert us[i] in us;
    }
    assert UniqueEmails(us');
    assert u in us';
    var found := Auth.FindByEmail(us', b.email);
    assert found == Some(u);
  }
}
