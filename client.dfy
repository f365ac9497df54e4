/**
 * The Python client of jsql (jsql.py): request framing, the request-id
 * counter, the end-of-response test and the receive loop.
 *
 * The socket is a sequence of the chunks successive `recv(4096)` calls
 * return; once they are used up it returns the empty chunk, as a closed
 * peer does. `json.dumps` is not modelled (the socket records the message
 * object) and `json.loads` is a parameter: `None` for input it rejects.
 */
module PyClient {
  import opened Base

  /** A JSON document as `json.loads` returns it (numbers: ints; floats opaque). */
  datatype Json =
    | JNull
    | JBool(flag: bool)
    | JInt(number: int)
    | JFloat(bits: bv64)
    | JString(text: string)
    | JArray(items: seq<Json>)
    | JObject(members: map<string, Json>)

  /** The exceptions the client code raises. */
  datatype ClientError =
    | IndexError               // end_marker indexing past the start of the data
    | ValueError               // json.loads rejecting the response
    | KeyError(key: string)    // a response object lacking a member
    | TypeError                // indexing a response that is not an object
    | IdMismatch               // "Response id doesn't match request id"
    | ServerError(error: Json) // the response's non-null `error`

  const Newline: uint8 := 10
  const CloseBrace: uint8 := 125  // '}'

  // ---------------------------------------------------------------------
  // end_marker
  // ---------------------------------------------------------------------

  /**
   * `end_marker(data)`: true when the data ends in "}\n". `data[-2]` is only
   * evaluated when the last byte is a line feed, so the call raises exactly
   * for empty data and for a lone line feed.
   */
  function EndMarker(data: seq<uint8>): (r: Result<bool, ClientError>)
    ensures r == Ok(true) <==> |data| >= 2 && data[|data| - 1] == Newline && data[|data| - 2] == CloseBrace
    ensures r.Err? <==> |data| == 0 || (|data| == 1 && data[0] == Newline)
    ensures r.Err? ==> r.error == IndexError
  {
    if |data| == 0 then Err(IndexError)
    else if data[|data| - 1] != Newline then Ok(false)
    else if |data| < 2 then Err(IndexError)
    else Ok(data[|data| - 2] == CloseBrace)
  }

  // ---------------------------------------------------------------------
  // recv
  // ---------------------------------------------------------------------

  /** The chunk the k-th `recv` returns. */
  function ChunkAt(incoming: seq<seq<uint8>>, k: nat): seq<uint8>
  {
    if k < |incoming| then incoming[k] else []
  }

  /** Chunks `lo` up to (excluding) `hi`, concatenated in order. */
  function Taken(incoming: seq<seq<uint8>>, lo: nat, hi: nat): seq<uint8>
    requires lo <= hi
    decreases hi
  {
    if lo == hi then [] else Taken(incoming, lo, hi - 1) + ChunkAt(incoming, hi - 1)
  }

  /** end_marker does not hold after chunks `lo` to `hi` are read. */
  predicate Unterminated(incoming: seq<seq<uint8>>, lo: nat, hi: nat)
    requires lo <= hi
  {
    EndMarker(Taken(incoming, lo, hi)) == Ok(false)
  }

  /** What `recv` returns and how many chunks the socket has then delivered. */
  datatype Received = Received(data: Result<seq<uint8>, ClientError>, consumed: nat)

  /** The `while True` loop of `recv`, entered with `data` and chunk `k` next. */
  function RecvLoop(data: seq<uint8>, incoming: seq<seq<uint8>>, k: nat): Received
    decreases if k <= |incoming| then |incoming| - k else 0
  {
    var d := ChunkAt(incoming, k);
    if |d| == 0 then Received(Ok(data), k + 1)
    else
      match EndMarker(data + d)
      case Err(e) => Received(Err(e), k + 1)
      case Ok(done) => if done then Received(Ok(data + d), k + 1) else RecvLoop(data + d, incoming, k + 1)
  }

  /** `recv` started with chunk `k` next. */
  function RecvFrom(incoming: seq<seq<uint8>>, k: nat): Received
  {
    var d := ChunkAt(incoming, k);
    match EndMarker(d)
    case Err(e) => Received(Err(e), k + 1)
    case Ok(done) => if done then Received(Ok(d), k + 1) else RecvLoop(d, incoming, k + 1)
  }

  /**
   * Inside the loop the data is never empty, so end_marker cannot raise, and
   * the loop returns the chunks read so far, concatenated.
   */
  lemma {:induction false} RecvLoopConcatenates(incoming: seq<seq<uint8>>, k0: nat, k: nat, data: seq<uint8>)
    requires k0 < k && data == Taken(incoming, k0, k) && |data| >= 1
    ensures var r := RecvLoop(data, incoming, k);
            r.data.Ok? && k < r.consumed && r.data.value == Taken(incoming, k0, r.consumed)
    decreases if k <= |incoming| then |incoming| - k else 0
  {
    var d := ChunkAt(incoming, k);
    assert Taken(incoming, k0, k + 1) == data + d;
    if |d| == 0 {
      assert data + d == data;
    } else if EndMarker(data + d) == Ok(false) {
      RecvLoopConcatenates(incoming, k0, k + 1, data + d);
    }
  }

  /**
   * The loop ends with the data ending in "}\n", or on the first empty chunk:
   * every chunk it read before the last one was non-empty.
   */
  lemma {:induction false} RecvLoopEndsAtMarker(incoming: seq<seq<uint8>>, k: nat, data: seq<uint8>)
    requires |data| >= 1
    ensures var r := RecvLoop(data, incoming, k);
            r.data.Ok? && k < r.consumed &&
            (EndMarker(r.data.value) == Ok(true) || |ChunkAt(incoming, r.consumed - 1)| == 0) &&
            (forall j :: k <= j < r.consumed - 1 ==> ChunkAt(incoming, j) != [])
    decreases if k <= |incoming| then |incoming| - k else 0
  {
    var d := ChunkAt(incoming, k);
    if |d| > 0 && EndMarker(data + d) == Ok(false) {
      RecvLoopEndsAtMarker(incoming, k + 1, data + d);
    }
  }

  /** Before the loop ends, no boundary it passed had end_marker hold. */
  lemma {:induction false} RecvLoopPassesUnterminated(incoming: seq<seq<uint8>>, k0: nat, k: nat, data: seq<uint8>)
    requires k0 < k && data == Taken(incoming, k0, k) && |data| >= 1
    requires forall j :: k0 < j <= k ==> Unterminated(incoming, k0, j)
    ensures var r := RecvLoop(data, incoming, k);
            forall j :: k0 < j < r.consumed ==> Unterminated(incoming, k0, j)
    decreases if k <= |incoming| then |incoming| - k else 0
  {
    var d := ChunkAt(incoming, k);
    if |d| > 0 && EndMarker(data + d) == Ok(false) {
      assert Taken(incoming, k0, k + 1) == data + d;
      assert Unterminated(incoming, k0, k + 1);
      RecvLoopPassesUnterminated(incoming, k0, k + 1, data + d);
      var n := RecvLoop(data + d, incoming, k + 1).consumed;
      assert RecvLoop(data, incoming, k).consumed == n;
      forall j | k0 < j < n ensures Unterminated(incoming, k0, j) { }
    } else {
      assert RecvLoop(data, incoming, k).consumed == k + 1;
    }
  }

  /** `recv` raises only when the first chunk is empty or a lone line feed, and then IndexError. */
  lemma RecvFailsOnlyOnFirstChunk(incoming: seq<seq<uint8>>, k: nat)
    ensures var r := RecvFrom(incoming, k);
            (r.data.Err? <==> ChunkAt(incoming, k) == [] || ChunkAt(incoming, k) == [Newline]) &&
            (r.data.Err? ==> r.data.error == IndexError && r.consumed == k + 1)
  {
    var d := ChunkAt(incoming, k);
    if EndMarker(d) == Ok(false) {
      assert Taken(incoming, k, k + 1) == d;
      RecvLoopConcatenates(incoming, k, k + 1, d);
    }
  }

  /** What `recv` returns is the in-order concatenation of the chunks it read. */
  lemma RecvReturnsConcatenation(incoming: seq<seq<uint8>>, k: nat)
    ensures var r := RecvFrom(incoming, k);
            k < r.consumed && (r.data.Ok? ==> r.data.value == Taken(incoming, k, r.consumed))
  {
    var d := ChunkAt(incoming, k);
    assert Taken(incoming, k, k + 1) == d;
    if EndMarker(d) == Ok(false) {
      RecvLoopConcatenates(incoming, k, k + 1, d);
    }
  }

  /**
   * `recv` stops at the first chunk boundary where end_marker holds, or at the
   * first empty chunk: no shorter prefix it saw ended in "}\n", and every
   * chunk it read before the last one was non-empty.
   */
  lemma RecvStopsAtFirstEndMarker(incoming: seq<seq<uint8>>, k: nat)
    ensures var r := RecvFrom(incoming, k);
            k < r.consumed &&
            (r.data.Ok? ==>
               (forall j :: k < j < r.consumed ==> Unterminated(incoming, k, j)) &&
               (EndMarker(r.data.value) == Ok(true) || ChunkAt(incoming, r.consumed - 1) == []) &&
               (forall j :: k <= j < r.consumed - 1 ==> ChunkAt(incoming, j) != []))
  {
    var d := ChunkAt(incoming, k);
    assert Taken(incoming, k, k + 1) == d;
    if EndMarker(d) == Ok(false) {
      assert d != [];
      var r := RecvLoop(d, incoming, k + 1);
      assert RecvFrom(incoming, k) == r;
      RecvLoopEndsAtMarker(incoming, k + 1, d);
      RecvLoopPassesUnterminated(incoming, k, k + 1, d);
      assert forall j :: k <= j < r.consumed - 1 ==> ChunkAt(incoming, j) != [] by {
        forall j | k <= j < r.consumed - 1 ensures ChunkAt(incoming, j) != [] {
          if j > k { }
        }
      }
    } else {
      assert RecvFrom(incoming, k).consumed == k + 1;
    }
  }

  /** The connected socket: chunks still to come and messages sent so far. */
  class Socket {
    const incoming: seq<seq<uint8>>
    var consumed: nat
    var sent: seq<Json>

    constructor (incoming: seq<seq<uint8>>)
      ensures this.incoming == incoming && consumed == 0 && sent == []
    {
      this.incoming := incoming;
      consumed := 0;
      sent := [];
    }

    /** `sendall(json.dumps(msg))`. */
    method SendAll(msg: Json)
      modifies this`sent
      ensures sent == old(sent) + [msg]
    {
      sent := sent + [msg];
    }

    /** `recv(4096)`. */
    method Recv() returns (chunk: seq<uint8>)
      modifies this`consumed
      ensures chunk == ChunkAt(incoming, old(consumed)) && consumed == old(consumed) + 1
    {
      chunk := ChunkAt(incoming, consumed);
      consumed := consumed + 1;
    }
  }

  // ---------------------------------------------------------------------
  // Responses
  // ---------------------------------------------------------------------

  /** `resp[key]` on a parsed response. */
  function Member(resp: Json, key: string): (r: Result<Json, ClientError>)
    ensures r.Ok? <==> resp.JObject? && key in resp.members
    ensures r.Ok? ==> r.value == resp.members[key]
    ensures r.Err? ==> r.error == (if resp.JObject? then KeyError(key) else TypeError)
  {
    match resp
    case JObject(m) => if key in m then Ok(m[key]) else Err(KeyError(key))
    case _ => Err(TypeError)
  }

  /** Python's `j == n` for a parsed value and an int (True equals 1, False 0). */
  predicate SameId(j: Json, n: int)
    ensures SameId(j, n) ==> j.JInt? || (j.JBool? && 0 <= n <= 1)
    ensures j.JInt? ==> (SameId(j, n) <==> j.number == n)
    ensures j.JBool? ==> (SameId(j, n) <==> n == (if j.flag then 1 else 0))
  {
    match j
    case JInt(i) => i == n
    case JBool(b) => (if b then 1 else 0) == n
    case _ => false
  }

  /**
   * The checks `sql` makes on a parsed response: the id must equal the request
   * id, `error` must be null, and then `result` is returned.
   */
  function CheckResponse(resp: Json, requestId: int): (r: Result<Json, ClientError>)
    ensures r.Ok? <==> resp.JObject? && "id" in resp.members && SameId(resp.members["id"], requestId) &&
                       "error" in resp.members && resp.members["error"] == JNull && "result" in resp.members
    ensures r.Ok? ==> r.value == resp.members["result"]
    ensures r == Err(IdMismatch) <==> resp.JObject? && "id" in resp.members && !SameId(resp.members["id"], requestId)
    ensures r.Err? && r.error.ServerError? ==>
              resp.JObject? && "id" in resp.members && SameId(resp.members["id"], requestId) &&
              "error" in resp.members && resp.members["error"] == r.error.error != JNull
    ensures resp.JObject? && "id" in resp.members && SameId(resp.members["id"], requestId) &&
            "error" in resp.members && resp.members["error"] != JNull ==>
              r == Err(ServerError(resp.members["error"]))
    ensures !resp.JObject? ==> r == Err(TypeError)
    ensures resp.JObject? && "id" !in resp.members ==> r == Err(KeyError("id"))
    ensures resp.JObject? && "id" in resp.members && SameId(resp.members["id"], requestId) &&
            "error" !in resp.members ==>
              r == Err(KeyError("error"))
    ensures resp.JObject? && "id" in resp.members && SameId(resp.members["id"], requestId) &&
            "error" in resp.members && resp.members["error"] == JNull && "result" !in resp.members ==>
              r == Err(KeyError("result"))
  {
    match Member(resp, "id")
    case Err(e) => Err(e)
    case Ok(id) =>
      if !SameId(id, requestId) then Err(IdMismatch)
      else
        match Member(resp, "error")
        case Err(e) => Err(e)
        case Ok(error) =>
          if error != JNull then Err(ServerError(error))
          else Member(resp, "result")
  }

  /** What `sql` returns once `recv` has returned. */
  function SqlOutcome(received: Result<seq<uint8>, ClientError>, loads: seq<uint8> -> Option<Json>, requestId: int): (r: Result<Json, ClientError>)
    ensures received.Err? ==> r == Err(received.error)
    ensures received.Ok? && loads(received.value).None? ==> r == Err(ValueError)
    ensures received.Ok? && loads(received.value).Some? ==>
              r == CheckResponse(loads(received.value).value, requestId)
    ensures r.Ok? ==> received.Ok? && loads(received.value).Some?
  {
    match received
    case Err(e) => Err(e)
    case Ok(bytes) =>
      match loads(bytes)
      case None => Err(ValueError)
      case Some(resp) => CheckResponse(resp, requestId)
  }

  // ---------------------------------------------------------------------
  // Database
  // ---------------------------------------------------------------------

  /** The JSON-RPC method every request names. */
  const MethodName := "JSQL.Select"

  /** A `Database` client over a connected socket. */
  class Database {
    const socket: Socket
    const password: string
    const driver: string
    const connectionString: string
    var id: int

    /** `Database(host, port, driver, connection_string, password)` once the socket is open. */
    constructor (socket: Socket, driver: string, connectionString: string, password: string)
      ensures this.socket == socket && this.driver == driver
      ensures this.connectionString == connectionString && this.password == password
      ensures id == 1
    {
      this.socket := socket;
      this.driver := driver;
      this.connectionString := connectionString;
      this.password := password;
      id := 1;
    }

    /** The `select_args` dictionary for a statement and its parameters. */
    function SelectArgs(statement: string, params: seq<Json>): (r: Json)
      ensures r.JObject? && r.members.Keys == {"auth", "driver", "datasource_name", "statement", "params"}
      ensures r.members["auth"] == JString(password) && r.members["driver"] == JString(driver)
      ensures r.members["datasource_name"] == JString(connectionString)
      ensures r.members["statement"] == JString(statement) && r.members["params"] == JArray(params)
    {
      JObject(map[
        "auth" := JString(password),
        "driver" := JString(driver),
        "datasource_name" := JString(connectionString),
        "statement" := JString(statement),
        "params" := JArray(params)])
    }

    /** `_make_request`: the JSON-RPC call object carrying the current id. */
    function MakeRequest(inner: Json): (r: Json)
      reads this
      ensures r.JObject? && r.members.Keys == {"id", "params", "method"}
      ensures r.members["id"] == JInt(id)
      ensures r.members["params"] == JArray([inner])
      ensures r.members["method"] == JString(MethodName)
    {
      JObject(map["id" := JInt(id), "params" := JArray([inner]), "method" := JString(MethodName)])
    }

    /** `recv`: the first chunk, then the loop until end_marker holds or an empty chunk. */
    method Recv() returns (r: Result<seq<uint8>, ClientError>)
      modifies socket`consumed
      ensures Received(r, socket.consumed) == RecvFrom(socket.incoming, old(socket.consumed))
    {
      ghost var start := socket.consumed;
      var data := socket.Recv();
      var m := EndMarker(data);
      if m.Err? {
        return Err(m.error);
      }
      if m.value {
        return Ok(data);
      }
      while true
        invariant socket.consumed <= |socket.incoming|
        invariant RecvLoop(data, socket.incoming, socket.consumed) == RecvFrom(socket.incoming, start)
        decreases |socket.incoming| - socket.consumed
      {
        var d := socket.Recv();
        if |d| == 0 {
          break;
        }
        data := data + d;
        m := EndMarker(data);
        if m.Err? {
          return Err(m.error);
        }
        if m.value {
          break;
        }
      }
      return Ok(data);
    }

    /**
     * `sql`: sends the request carrying the current id, advances the id by
     * one, reads the response and checks it against the id that was sent.
     */
    method Sql(statement: string, params: seq<Json>, loads: seq<uint8> -> Option<Json>) returns (r: Result<Json, ClientError>)
      modifies this, socket
      ensures id == old(id) + 1
      ensures socket.sent == old(socket.sent) + [old(MakeRequest(SelectArgs(statement, params)))]
      ensures var rcv := RecvFrom(socket.incoming, old(socket.consumed));
              socket.consumed == rcv.consumed && r == SqlOutcome(rcv.data, loads, old(id))
    {
      var selectArgs := SelectArgs(statement, params);
      var msg := MakeRequest(selectArgs);
      socket.SendAll(msg);
      var mId := id;
      id := id + 1;
      var resp := Recv();
      if resp.Err? {
        return Err(resp.error);
      }
      var jsonResp := loads(resp.value);
      if jsonResp.None? {
        return Err(ValueError);
      }
      r := CheckResponse(jsonResp.value, mId);
    }
  }

  /**
   * A server reply that echoes the id `_make_request` put into the request
   * (the id `sql` checks against) with a null error is accepted and yields
   * its result; one carrying any other integer id is refused.
   */
  lemma MatchingReplyAccepted(db: Database, inner: Json, result: Json, other: int)
    requires other != db.id
    ensures var sent := db.MakeRequest(inner).members["id"];
            CheckResponse(JObject(map["id" := sent, "result" := result, "error" := JNull]), db.id) == Ok(result) &&
            CheckResponse(JObject(map["id" := JInt(other), "result" := result, "error" := JNull]), db.id) == Err(IdMismatch)
  {
  }
}
