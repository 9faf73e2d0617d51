/**
 * `RedisentHelper` of src/redisent/helpers.py: each operation opens a
 * connection with `wrapped_redis`, checks existence or type first where it
 * says so, and issues one command. The connection pool is the `RedisStore`
 * it talks to, plus two ways of failing: building the client may raise, and
 * the server may be unreachable, which makes every command raise.
 */
module Helper {
  import opened Wrappers
  import opened PyValues
  import opened RedisErrors
  import opened RedisServer

  /** What redis-py raises for a command when no server answers. */
  const Unreachable := Exc(ConnectionError, "Error connecting to Redis")

  /** `f'"{s}"'`. */
  function Quoted(s: string): string {
    "\"" + s + "\""
  }

  /** The `op_name` `wrapped_redis` uses: the given one, else `N/A`. */
  function OpLabel(op: Option<string>): (s: string)
    ensures Given(op) ==> s == op.value
    ensures !Given(op) ==> s == "N/A"
  {
    if Given(op) then op.value else "N/A"
  }

  /** The error `wrapped_redis` raises when the client cannot be built. */
  function ConnectError(op: string, ex: Exc): (e: Exc)
    ensures e.Redis? && e.err.cls == CurrentErrors
    ensures e.err.baseException == Some(ex) && e.err.relatedCommand.None? && e.err.extraAttrs == []
    ensures StartsWith(e.err.message, "Unable to build new Redis connection for " + Quoted(op))
  {
    var head := "Unable to build new Redis connection for " + Quoted(op);
    var msg := head + (": " + ExcText(ex));
    assert msg[..|head|] == head;
    Redis(NewError(CurrentErrors, msg, Some(ex), None, None))
  }

  /** The error `wrapped_redis` raises when a command inside the block fails. */
  function CommandError(op: string, ex: Exc): (e: Exc)
    ensures e.Redis? && e.err.cls == CurrentErrors
    ensures e.err.baseException == Some(ex) && e.err.relatedCommand == Some(op) && e.err.extraAttrs == []
    ensures StartsWith(e.err.message, "Error executing Redis command " + Quoted(op))
  {
    var head := "Error executing Redis command " + Quoted(op);
    var msg := head + (": " + ExcText(ex));
    assert msg[..|head|] == head;
    Redis(NewError(CurrentErrors, msg, Some(ex), Some(op), None))
  }

  /** A command that fails because the server does not answer is reported as a connection error. */
  lemma UnreachableIsConnectionError(op: string)
    ensures IsConnectionError(CommandError(op, Unreachable).err)
    ensures Given(CommandError(op, Unreachable).err.relatedCommand) <==> op != ""
  {
  }

  /** A failed client construction is not tied to any command. */
  lemma ConnectErrorNamesNoCommand(op: string, ex: Exc)
    ensures !Given(ConnectError(op, ex).err.relatedCommand)
    ensures StartsWith(Str(ConnectError(op, ex).err), "Redis Error ")
  {
  }

  /** `build_pool`'s URI rule: prefix `redis://` unless the URI is a socket path or already has it. */
  function NormalizeUri(uri: string): (r: string)
    ensures StartsWith(uri, "/") || StartsWith(uri, "redis://") ==> r == uri
    ensures !(StartsWith(uri, "/") || StartsWith(uri, "redis://")) ==> r == "redis://" + uri
  {
    if !StartsWith(uri, "/") && !StartsWith(uri, "redis://") then "redis://" + uri else uri
  }

  /** Every normalised URI is a socket path or a `redis://` URL, and normalising twice changes nothing. */
  lemma NormalizeUriIdempotent(uri: string)
    ensures StartsWith(NormalizeUri(uri), "/") || StartsWith(NormalizeUri(uri), "redis://")
    ensures NormalizeUri(NormalizeUri(uri)) == NormalizeUri(uri)
  {
    if !StartsWith(uri, "/") && !StartsWith(uri, "redis://") {
      var r := "redis://" + uri;
      assert r[..|"redis://"|] == "redis://";
    }
  }

  // ---------------------------------------------------------- op names

  function KeysOp(pattern: string): string { "keys(" + Quoted(pattern) + ")" }
  function HKeysOp(id: string): string { "hkeys(" + Quoted(id) + ")" }
  function ExistsOp(id: string, name: Option<string>): string {
    if Given(name) then "hexists(" + Quoted(id) + ", " + Quoted(name.value) + ")" else "exists(" + Quoted(id) + ")"
  }
  function TypeOp(id: string): string { "type(" + Quoted(id) + ")" }
  function GetOp(id: string, name: Option<string>, isHash: bool): string {
    if !isHash then "get(" + Quoted(id) + ")"
    else if !Given(name) then "hgetall(" + Quoted(id) + ")"
    else "hget(" + Quoted(id) + ", " + Quoted(name.value) + ")"
  }
  function SetOp(id: string, name: Option<string>, value: Value): string {
    if Given(name) then "hset(" + Quoted(id) + ", " + Quoted(name.value) + ", " + Quoted(PyStr(value)) + ")"
    else "set(" + Quoted(id) + ", " + Quoted(PyStr(value)) + ")"
  }

  /** The texts Redis answers to TYPE, as the server stores them. */
  function TypeText(d: Data, key: string): string {
    if key !in d then "none" else if d[key].Flat? then "string" else "hash"
  }

  /** Whether the entry a helper call names is there: the hash field when a name is given, else the key. */
  predicate Present(d: Data, id: string, name: Option<string>) {
    if Given(name) then id in d && d[id].Hash? && name.value in d[id].fields else id in d
  }

  /** `hexists` against a key holding a string is a WRONGTYPE error. */
  predicate ProbeFails(d: Data, id: string, name: Option<string>) {
    Given(name) && id in d && d[id].Flat?
  }

  /** The hash at `id` as the dict `hgetall` returns: field bytes to value bytes. */
  ghost predicate ListsHash(items: Dict, m: map<string, Blob>) {
    && DistinctKeys(items)
    && (forall i | 0 <= i < |items| :: items[i].0.VBytes? && items[i].0.blob.Text? && items[i].1.VBytes?)
    && (forall i | 0 <= i < |items| :: items[i].0.blob.chars in m && items[i].1.blob == m[items[i].0.blob.chars])
    && (forall f | f in m :: exists i | 0 <= i < |items| :: items[i].0 == VBytes(Text(f)))
  }

  class RedisentHelper {
    /** The server behind `redis_pool`. */
    const server: RedisStore
    /** What `get_connection` raises, if anything. */
    const clientFailure: Option<Exc>
    /** Whether the server answers commands. */
    const reachable: bool

    /** `RedisentHelper(redis_pool)`: the helper keeps the pool it is given. */
    constructor (server: RedisStore, clientFailure: Option<Exc>, reachable: bool)
      ensures this.server == server && this.clientFailure == clientFailure && this.reachable == reachable
    {
      this.server := server;
      this.clientFailure := clientFailure;
      this.reachable := reachable;
    }

    predicate Healthy() {
      clientFailure.None? && reachable
    }

    /** The error the first `wrapped_redis` block of a call raises when the helper is not healthy. */
    function Failure(op: string): (e: Exc)
      requires !Healthy()
      ensures e.Redis? && e.err.baseException.Some?
    {
      if clientFailure.Some? then ConnectError(op, clientFailure.value) else CommandError(op, Unreachable)
    }

    /** `keys(use_pattern, redis_id)`: the fields of hash `redis_id` when it is given, else the keys matching the pattern. */
    method Keys(pattern: Option<string>, id: Option<string>) returns (r: Result<seq<string>, Exc>)
      ensures var op := if Given(id) then HKeysOp(id.value) else KeysOp(if Given(pattern) then pattern.value else "*");
        && (!Healthy() ==> r == Err(Failure(op)))
        && (Healthy() && Given(id) && id.value in server.data && server.data[id.value].Flat? ==> r == Err(CommandError(op, WrongType)))
        && (Healthy() && Given(id) && !(id.value in server.data && server.data[id.value].Flat?) ==>
              r.Ok? && NoDups(r.value) && forall f :: f in r.value <==> f in FieldsOf(server.data, id.value))
        && (Healthy() && !Given(id) ==>
              r.Ok? && NoDups(r.value)
              && forall k :: k in r.value <==> k in server.data && Matches(if Given(pattern) then pattern.value else "*", k))
    {
      var op := if Given(id) then HKeysOp(id.value) else KeysOp(if Given(pattern) then pattern.value else "*");
      if !Healthy() {
        return Err(Failure(op));
      }
      if Given(id) {
        var found := server.HKeys(id.value);
        if found.Err? {
          return Err(CommandError(op, found.error));
        }
        r := Ok(found.value);
      } else {
        var found := server.Keys(if Given(pattern) then pattern.value else "*");
        r := Ok(found);
      }
    }

    /** `exists(redis_id, redis_name)`: HEXISTS when a name is given, else EXISTS, as a bool. */
    method Exists(id: string, name: Option<string>) returns (r: Result<bool, Exc>)
      ensures !Healthy() ==> r == Err(Failure(ExistsOp(id, name)))
      ensures Healthy() && ProbeFails(server.data, id, name) ==> r == Err(CommandError(ExistsOp(id, name), WrongType))
      ensures Healthy() && !ProbeFails(server.data, id, name) ==> r == Ok(Present(server.data, id, name))
    {
      var op := ExistsOp(id, name);
      if !Healthy() {
        return Err(Failure(op));
      }
      if Given(name) {
        var res := server.HExists(id, name.value);
        if res.Err? {
          return Err(CommandError(op, res.error));
        }
        r := Ok(res.value);
      } else {
        var n := server.Exists(id);
        r := Ok(n != 0);
      }
    }

    /** `entry_type(redis_id, check_exists)`: nothing for an absent key when asked to check, else the TYPE reply. */
    method EntryType(id: string, checkExists: bool) returns (r: Result<Option<string>, Exc>)
      ensures !Healthy() ==> r == Err(Failure(if checkExists then ExistsOp(id, None) else TypeOp(id)))
      ensures Healthy() && checkExists && id !in server.data ==> r == Ok(None)
      ensures Healthy() && !(checkExists && id !in server.data) ==> r == Ok(Some(TypeText(server.data, id)))
    {
      if checkExists {
        var present := Exists(id, None);
        if present.Err? {
          return Err(present.error);
        }
        if !present.value {
          return Ok(None);
        }
      }
      if !Healthy() {
        return Err(Failure(TypeOp(id)));
      }
      var t := server.Type(id);
      r := Ok(Some(t));
    }

    /**
     * `get(redis_id, redis_name, throw_error)`: an absent entry raises (with
     * both names as extra attributes) or gives `None`; a hash gives the field,
     * or every field without a name; anything else gives the string.
     */
    method Get(id: string, name: Option<string>, throwError: bool) returns (r: Result<Value, Exc>)
      ensures !Healthy() ==> r == Err(Failure(ExistsOp(id, name)))
      ensures Healthy() && ProbeFails(server.data, id, name) ==> r == Err(CommandError(ExistsOp(id, name), WrongType))
      ensures Healthy() && !ProbeFails(server.data, id, name) && !Present(server.data, id, name) ==>
        r == (if throwError then Err(Redis(NewError(CurrentErrors, MissingMessage(id, name), None, None,
                                                    Some([("redis_id", VStr(id)), ("redis_name", OptStr(name))]))))
              else Ok(VNone))
      ensures Healthy() && Present(server.data, id, name) && server.data[id].Flat? ==>
        r == Ok(VBytes(server.data[id].blob))
      ensures Healthy() && Present(server.data, id, name) && server.data[id].Hash? && Given(name) ==>
        r == Ok(VBytes(server.data[id].fields[name.value]))
      ensures Healthy() && Present(server.data, id, name) && server.data[id].Hash? && !Given(name) ==>
        r.Ok? && r.value.VDict? && ListsHash(r.value.items, server.data[id].fields)
    {
      var present := Exists(id, name);
      if present.Err? {
        return Err(present.error);
      }
      if !present.value {
        if throwError {
          var extra := [("redis_id", VStr(id)), ("redis_name", OptStr(name))];
          return Err(Redis(NewError(CurrentErrors, MissingMessage(id, name), None, None, Some(extra))));
        }
        return Ok(VNone);
      }
      var entryType := EntryType(id, true);
      var isHash := entryType == Ok(Some("hash"));
      var op := GetOp(id, name, isHash);
      match entryType {
        case Err(ex) =>
          return Err(ex);
        case Ok(_) =>
      }
      if isHash {
        if Given(name) {
          var v := server.HGet(id, name.value);
          r := match v
            case Err(ex) => Err(CommandError(op, ex))
            case Ok(reply) => Ok(if reply.Some? then VBytes(reply.value) else VNone);
        } else {
          var all := server.HGetAll(id);
          match all {
            case Err(ex) =>
              return Err(CommandError(op, ex));
            case Ok(items) =>
              r := Ok(VDict(ReplyDict(items)));
              ReplyDictLists(items, server.data[id].fields);
          }
        }
      } else {
        var v := server.Get(id);
        r := match v
          case Err(ex) => Err(CommandError(op, ex))
          case Ok(reply) => Ok(if reply.Some? then VBytes(reply.value) else VNone);
      }
    }

    /**
     * `set(redis_id, value, redis_name, check_exists_type)`: with the check,
     * writing a string over a hash raises before anything is written; then
     * HSET or SET, and the reply's truth.
     */
    method Set(id: string, value: Value, name: Option<string>, checkExistsType: bool) returns (r: Result<bool, Exc>)
      modifies server
      ensures !Healthy() ==>
        && r == Err(Failure(if checkExistsType then ExistsOp(id, name) else SetOp(id, name, value)))
        && server.data == old(server.data)
      ensures Healthy() && checkExistsType && ProbeFails(old(server.data), id, name) ==>
        r == Err(CommandError(ExistsOp(id, name), WrongType)) && server.data == old(server.data)
      ensures Healthy() && checkExistsType && !Given(name) && id in old(server.data) && old(server.data)[id].Hash? ==>
        r == Err(Redis(NewError(CurrentErrors, HashMismatch(id), None, None, None))) && server.data == old(server.data)
      ensures Healthy() && WriteGoesAhead(old(server.data), id, name, checkExistsType) ==>
        match WireEncode(value)
        case Err(ex) => r == Err(CommandError(SetOp(id, name, value), ex)) && server.data == old(server.data)
        case Ok(b) =>
          if !Given(name) then r == Ok(true) && server.data == old(server.data)[id := Flat(b)]
          else if id in old(server.data) && old(server.data)[id].Flat? then
            r == Err(CommandError(SetOp(id, name, value), WrongType)) && server.data == old(server.data)
          else
            && r == Ok(name.value !in FieldsOf(old(server.data), id))
            && server.data == old(server.data)[id := Hash(FieldsOf(old(server.data), id)[name.value := b])]
      ensures old(server.Valid()) ==> server.Valid()
    {
      if checkExistsType {
        var failure := CheckSetType(id, name);
        if failure.Some? {
          return Err(failure.value);
        }
      }
      r := Write(id, name, value);
    }

    /** The `check_exists_type` part of `set`: the error it raises, if any, before anything is written. */
    method CheckSetType(id: string, name: Option<string>) returns (failure: Option<Exc>)
      ensures !Healthy() ==> failure == Some(Failure(ExistsOp(id, name)))
      ensures Healthy() ==> (failure.None? <==> WriteGoesAhead(server.data, id, name, true))
      ensures Healthy() && ProbeFails(server.data, id, name) ==> failure == Some(CommandError(ExistsOp(id, name), WrongType))
      ensures Healthy() && !Given(name) && id in server.data && server.data[id].Hash? ==>
        failure == Some(Redis(NewError(CurrentErrors, HashMismatch(id), None, None, None)))
    {
      var present := Exists(id, name);
      if present.Err? {
        return Some(present.error);
      }
      if present.value {
        var entryType := EntryType(id, true);
        match entryType {
          case Err(ex) =>
            return Some(ex);
          case Ok(t) =>
            if Given(name) && t != Some("hash") {
              return Some(Redis(NewError(CurrentErrors, NotHashMismatch(id, t), None, None, None)));
            }
            if !Given(name) && t == Some("hash") {
              return Some(Redis(NewError(CurrentErrors, HashMismatch(id), None, None, None)));
            }
        }
      }
      failure := None;
    }

    /** The write of `set`: HSET or SET of the encoded value, and the reply's truth. */
    method Write(id: string, name: Option<string>, value: Value) returns (r: Result<bool, Exc>)
      modifies server
      ensures !Healthy() ==> r == Err(Failure(SetOp(id, name, value))) && server.data == old(server.data)
      ensures Healthy() ==>
        match WireEncode(value)
        case Err(ex) => r == Err(CommandError(SetOp(id, name, value), ex)) && server.data == old(server.data)
        case Ok(b) =>
          if !Given(name) then r == Ok(true) && server.data == old(server.data)[id := Flat(b)]
          else if id in old(server.data) && old(server.data)[id].Flat? then
            r == Err(CommandError(SetOp(id, name, value), WrongType)) && server.data == old(server.data)
          else
            && r == Ok(name.value !in FieldsOf(old(server.data), id))
            && server.data == old(server.data)[id := Hash(FieldsOf(old(server.data), id)[name.value := b])]
      ensures old(server.Valid()) ==> server.Valid()
    {
      var op := SetOp(id, name, value);
      if !Healthy() {
        return Err(Failure(op));
      }
      var encoded := WireEncode(value);
      if encoded.Err? {
        return Err(CommandError(op, encoded.error));
      }
      if Given(name) {
        var res := server.HSet(id, name.value, encoded.value);
        r := match res
          case Err(ex) => Err(CommandError(op, ex))
          case Ok(n) => Ok(n != 0);
      } else {
        var ok := server.Set(id, encoded.value);
        r := Ok(ok);
      }
    }

    /**
     * `delete(redis_id, redis_name, check_exists)`: nothing (`None`) for an
     * absent entry when asked to check; else HDEL or DEL, and whether
     * anything went.
     */
    method Delete(id: string, name: Option<string>, checkExists: bool) returns (r: Result<Option<bool>, Exc>)
      modifies server
      ensures !Healthy() ==>
        r == Err(Failure(if checkExists then ExistsOp(id, name) else DeleteOp(id, name))) && server.data == old(server.data)
      ensures Healthy() && checkExists && ProbeFails(old(server.data), id, name) ==>
        r == Err(CommandError(ExistsOp(id, name), WrongType)) && server.data == old(server.data)
      ensures Healthy() && checkExists && !ProbeFails(old(server.data), id, name) && !Present(old(server.data), id, name) ==>
        r == Ok(None) && server.data == old(server.data)
      ensures Healthy() && (!checkExists || Present(old(server.data), id, name)) && !Given(name) ==>
        r == Ok(Some(id in old(server.data))) && server.data == old(server.data) - {id}
      ensures Healthy() && (!checkExists || Present(old(server.data), id, name)) && Given(name) ==>
        if id in old(server.data) && old(server.data)[id].Flat? then
          r == Err(CommandError(DeleteOp(id, name), WrongType)) && server.data == old(server.data)
        else
          && r == Ok(Some(name.value in FieldsOf(old(server.data), id)))
          && server.data == HDelResult(old(server.data), id, name.value)
      ensures old(server.Valid()) ==> server.Valid()
    {
      var op := DeleteOp(id, name);
      if checkExists {
        var present := Exists(id, name);
        if present.Err? {
          return Err(present.error);
        }
        if !present.value {
          return Ok(None);
        }
      }
      if !Healthy() {
        return Err(Failure(op));
      }
      if Given(name) {
        var res := server.HDel(id, name.value);
        r := match res
          case Err(ex) => Err(CommandError(op, ex))
          case Ok(n) => Ok(Some(n != 0));
      } else {
        var n := server.Delete(id);
        r := Ok(Some(n != 0));
      }
    }
  }

  /** Whether `set` reaches its write: no check, or the check found nothing or nothing that clashes. */
  predicate WriteGoesAhead(d: Data, id: string, name: Option<string>, checkExistsType: bool) {
    !checkExistsType || (!ProbeFails(d, id, name) && !(!Given(name) && id in d && d[id].Hash?))
  }

  /** The store after HDEL of `field` from the hash at `key`. */
  function HDelResult(d: Data, key: string, field: string): Data
    requires key in d ==> d[key].Hash?
  {
    var rest := FieldsOf(d, key) - {field};
    if rest == map[] then d - {key} else d[key := Hash(rest)]
  }

  /** `None` or the text of an optional argument. */
  function OptStr(o: Option<string>): Value {
    if o.Some? then VStr(o.value) else VNone
  }

  function MissingMessage(id: string, name: Option<string>): string {
    var what := if !Given(name) then Quoted(id) else "entry " + Quoted(name.value) + " in hashmap " + Quoted(id);
    "Fetch for " + what + " failed: No such entry / key"
  }

  /** The mismatch message for a hash write over a key of type `t` (`None` prints as `None`). */
  function NotHashMismatch(id: string, t: Option<string>): string {
    var shown := match t case Some(x) => x case None => "None";
    "Type mismatch when attempting to overwrite Redis entry for " + Quoted(id) + ": Entry is a " + Quoted(shown) + ", not hash map"
  }

  function HashMismatch(id: string): string {
    "Type mismatch when attempting to overwrite Redis entry for " + Quoted(id) + ": Entry is a hash map"
  }

  /** The op name `delete` passes to `wrapped_redis`, naming the command it issues. */
  function DeleteOp(id: string, name: Option<string>): string {
    if Given(name) then "hdel(" + Quoted(id) + ", " + Quoted(name.value) + ")" else "delete(" + Quoted(id) + ")"
  }

  /** The op name `delete` builds, as written: a malformed `hdel` label and a `set` label for DEL. */
  function DeleteOpAsWritten(id: string, name: Option<string>): string {
    if Given(name) then "hdel" + Quoted(id) + ", " + Quoted(name.value) + ")" else "set(" + Quoted(id) + ")"
  }

  /** As written, deleting a plain entry reports its failures under the name of a command it never sends. */
  lemma DeleteOpAsWrittenMislabels()
    ensures DeleteOpAsWritten("k", None) == "set(\"k\")"
    ensures !StartsWith(DeleteOpAsWritten("k", None), "delete(")
    ensures !StartsWith(DeleteOpAsWritten("k", Some("n")), "hdel(")
  {
    assert DeleteOpAsWritten("k", Some("n"))[..5] == "hdel\"";
    assert DeleteOpAsWritten("k", None)[0] == 's';
  }

  /** The corrected op name starts with the command `delete` issues, and names the key (and field). */
  lemma DeleteOpNamesCommand(id: string, name: Option<string>)
    ensures Given(name) ==> DeleteOp(id, name) == "hdel(" + Quoted(id) + ", " + Quoted(name.value) + ")"
    ensures Given(name) ==> StartsWith(DeleteOp(id, name), "hdel(")
    ensures !Given(name) ==> StartsWith(DeleteOp(id, name), "delete(")
    ensures DeleteOp(id, name) != DeleteOpAsWritten(id, name)
  {
    var op := DeleteOp(id, name);
    if Given(name) {
      assert op[..5] == "hdel(";
      assert DeleteOpAsWritten(id, name)[4] == '"';
      assert op[4] != DeleteOpAsWritten(id, name)[4];
    } else {
      assert op[..7] == "delete(";
      assert op[0] != DeleteOpAsWritten(id, name)[0];
    }
  }

  /** HGETALL's listing as the dict redis-py returns. */
  function ReplyDict(items: seq<(string, Blob)>): (d: Dict)
    ensures |d| == |items|
  {
    seq(|items|, i requires 0 <= i < |items| => (VBytes(Text(items[i].0)), VBytes(items[i].1)))
  }

  lemma ReplyDictLists(items: seq<(string, Blob)>, m: map<string, Blob>)
    requires IsListing(items, m)
    ensures ListsHash(ReplyDict(items), m)
  {
    var d := ReplyDict(items);
    forall f | f in m ensures exists i | 0 <= i < |d| :: d[i].0 == VBytes(Text(f)) {
      assert f in Names(items);
      var i :| 0 <= i < |items| && Names(items)[i] == f;
      assert d[i].0 == VBytes(Text(f));
    }
    forall i, j | 0 <= i < j < |d| ensures d[i].0 != d[j].0 {
      assert Names(items)[i] != Names(items)[j];
    }
  }
}
