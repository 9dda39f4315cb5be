/** The relational store behind the simple route handlers: the `usuarios`,
    `produtos` and `clientes` tables and the connection pool, reduced to two
    counters.  Between requests every connection taken from the pool has been
    given back (`connects == releases`), so a handler that keeps `Valid()`
    releases what it takes on every path. */
module Database {
  import opened Wrappers
  import opened Types

  /** The statement numbered `k` (in the order the handler issues them) throws. */
  predicate Fails(failAt: Option<nat>, k: nat) {
    failAt == Some(k)
  }

  /** The primary key of `usuarios`. */
  predicate UniqueUserIds(us: seq<Usuario>) {
    forall i, j :: 0 <= i < j < |us| ==> us[i].id != us[j].id
  }

  /** Registration refuses a second account with the same email. */
  predicate UniqueEmails(us: seq<Usuario>) {
    forall i, j :: 0 <= i < j < |us| ==> us[i].email != us[j].email
  }

  predicate EmailTaken(us: seq<Usuario>, email: string) {
    exists u :: u in us && u.email == email
  }

  /** The id is not used by any row: what the store's identity default yields. */
  predicate FreshUserId(us: seq<Usuario>, id: string) {
    forall u :: u in us ==> u.id != id
  }

  /** The response of a route: HTTP status and the JSON `message`. */
  datatype Response = Response(status: int, message: string)

  class Db {
    var usuarios: seq<Usuario>
    var produtos: seq<Produto>
    var clientes: seq<Cliente>
    var connects: nat
    var releases: nat

    ghost predicate Valid()
      reads this
    {
      && connects == releases
      && UniqueUserIds(usuarios)
      && UniqueEmails(usuarios)
    }

    constructor ()
      ensures Valid()
      ensures usuarios == [] && produtos == [] && clientes == []
    {
      usuarios, produtos, clientes := [], [], [];
      connects, releases := 0, 0;
    }

    /** `pool.connect()`. */
    method Connect()
      modifies this`connects
      ensures connects == old(connects) + 1
    {
      connects := connects + 1;
    }

    /** `client.release()`. */
    method Release()
      modifies this`releases
      ensures releases == old(releases) + 1
    {
      releases := releases + 1;
    }
  }
}
