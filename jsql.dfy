/**
 * The authenticated RPC endpoint of the jsql server: `JSQL.Select` in jsql.go.
 *
 * The package-level `secret` (the `-password` flag, a `*string`) is the
 * parameter `secret`, `None` standing for nil; `reply` is the cell the RPC
 * layer passes by reference.
 */
module Jsql {
  import opened Base
  import opened Sql

  /** The error returned when the credential does not match. */
  const IncorrectPassword := Error("incorrect password")

  /** `flag.String("password", "", …)`: never nil, and "" unless the flag is given. */
  const DefaultSecret: Option<string> := Some("")

  /** The authentication check: a configured secret must equal `Auth` exactly. */
  predicate Rejects(secret: Option<string>, auth: string)
    ensures secret.None? ==> !Rejects(secret, auth)
    ensures secret == Some(auth) ==> !Rejects(secret, auth)
    ensures secret.Some? && secret.value != auth ==> Rejects(secret, auth)
  {
    secret.Some? && secret.value != auth
  }

  /** The `*jsql.Rowset` out-parameter. */
  class ReplyCell {
    var value: Rowset

    constructor (value: Rowset)
      ensures this.value == value
    {
      this.value := value;
    }
  }

  /** The reply and error `JSQL.Select` leaves, given the reply it started with. */
  function Response(secret: Option<string>, arg: Option<SelectArgs>, reply: Rowset, o: Oracle): (r: (Rowset, Option<Error>))
    ensures arg.None? ==> r == (reply, None)
    ensures arg.Some? && Rejects(secret, arg.value.auth) ==> r == (reply, Some(IncorrectPassword))
    ensures arg.Some? && !Rejects(secret, arg.value.auth) ==>
              r == SelectOutcome(arg.value, o) && (r.1.Some? ==> r.0 == NilRowset)
  {
    match arg
    case None => (reply, None)
    case Some(a) => if Rejects(secret, a.auth) then (reply, Some(IncorrectPassword)) else SelectOutcome(a, o)
  }

  /** The calls `JSQL.Select` makes into the database layer. */
  function Interactions(secret: Option<string>, arg: Option<SelectArgs>, o: Oracle): (t: seq<Event>)
    ensures t != [] <==> arg.Some? && !Rejects(secret, arg.value.auth)
    ensures t != [] ==> t == SelectTrace(arg.value, o)
  {
    match arg
    case None => []
    case Some(a) => if Rejects(secret, a.auth) then [] else SelectTrace(a, o)
  }

  /**
   * `JSQL.Select`: a nil request is a silent no-op; a request whose `Auth`
   * differs from the configured secret fails before the backend is touched;
   * otherwise the executor's rowset overwrites `*reply` (with nil when it
   * failed) and its error is returned.
   */
  method Select(secret: Option<string>, arg: Option<SelectArgs>, reply: ReplyCell, db: Backend) returns (err: Option<Error>)
    requires db.oracle.WellFormed()
    modifies reply, db
    ensures (reply.value, err) == Response(secret, arg, old(reply.value), db.oracle)
    ensures db.log == old(db.log) + Interactions(secret, arg, db.oracle)
    ensures arg.None? ==> err.None? && reply.value == old(reply.value) && db.log == old(db.log)
    ensures arg.Some? && Rejects(secret, arg.value.auth) ==>
              err == Some(IncorrectPassword) && reply.value == old(reply.value) && db.log == old(db.log)
    ensures arg.Some? && !Rejects(secret, arg.value.auth) ==>
              (reply.value, err) == SelectOutcome(arg.value, db.oracle) &&
              db.log == old(db.log) + SelectTrace(arg.value, db.oracle)
  {
    if arg.None? {
      return None;
    }
    if secret.Some? && secret.value != arg.value.auth {
      return Some(IncorrectPassword);
    }
    ghost var conn;
    reply.value, err, conn := Sql.Select(arg.value, db);
  }

  /** With the flag's default, a request carrying any credential but "" is refused. */
  lemma DefaultSecretRejectsAnyCredential(auth: string)
    requires auth != ""
    ensures Rejects(DefaultSecret, auth)
  {
  }

  /** The endpoint opens no connection unless the request is present and authenticated. */
  lemma BackendOnlyAfterAuthentication(secret: Option<string>, arg: Option<SelectArgs>, o: Oracle)
    ensures Interactions(secret, arg, o) != [] ==>
              arg.Some? && (secret.None? || secret.value == arg.value.auth) &&
              Interactions(secret, arg, o)[0] == Opened(arg.value.driver, arg.value.dataSourceName)
  {
  }
}
