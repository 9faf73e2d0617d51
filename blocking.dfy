/**
 * `BlockingRedisentHelper` of redisent/helpers/blocking.py: the same
 * "check, then one command" shape as the older helper, with the `RedisError`
 * of redisent/helpers/__init__.py, whose command defaults to `Unknown`.
 * Keys and values are sent as they are; only UTF-8 decoding is modelled.
 */
module Blocking {
  import opened Wrappers
  import opened PyValues
  import opened RedisErrors
  import opened RedisServer
  import Helper
  import LegacyHelper

  function Quoted(s: string): string {
    Helper.Quoted(s)
  }

  /** A `RedisError` of redisent/helpers/__init__.py. */
  function PackageError(message: string, base: Option<Exc>): (e: Exc)
    ensures e.Redis? && e.err.cls == PackageErrors && e.err.message == message && e.err.baseException == base
    ensures e.err.relatedCommand == Some("Unknown") && e.err.extraAttrs == []
  {
    Redis(NewError(PackageErrors, message, base, None, None))
  }

  /** The error `wrapped_redis` raises when the client cannot be built. */
  function ConnectError(op: string, ex: Exc): (e: Exc)
    ensures e.Redis? && e.err.cls == PackageErrors && e.err.baseException == Some(ex)
    ensures e.err.message == "Unable to build new Redis connection for " + Quoted(op) + ": " + ExcText(ex)
  {
    PackageError("Unable to build new Redis connection for " + Quoted(op) + ": " + ExcText(ex), Some(ex))
  }

  /** The error `wrapped_redis` raises when the block raises `ex`; the op is named only in the message. */
  function CommandError(op: string, ex: Exc): (e: Exc)
    ensures e.Redis? && e.err.cls == PackageErrors && e.err.baseException == Some(ex)
    ensures e.err.message == "Error executing Redis command " + Quoted(op) + ": " + ExcText(ex)
  {
    PackageError("Error executing Redis command " + Quoted(op) + ": " + ExcText(ex), Some(ex))
  }

  /** Neither wrapper error records the op as its command, and `str()` shows the double space. */
  lemma WrapperErrorsNameNoCommand(op: string, ex: Exc)
    ensures CommandError(op, ex).err.relatedCommand == Some("Unknown")
    ensures ConnectError(op, ex).err.relatedCommand == Some("Unknown")
    ensures Str(CommandError(op, ex).err) == "Redis Error  with command \"Unknown\": " + CommandError(op, ex).err.message
  {
    var e := CommandError(op, ex).err;
    UnknownHead(e.message);
  }

  lemma UnknownHead(message: string)
    ensures NamedHead(PackageErrors, "Unknown") + (": " + message) == "Redis Error  with command \"Unknown\": " + message
  {
  }

  // -------------------------------------------------------------- labels

  function KeysLabel(pattern: string): string { "keys(pattern=" + Quoted(pattern) + ")" }
  function ExistsLabel(key: string): string { "exists(key=" + Quoted(key) + ")" }
  function SetLabel(key: string): string { "set(key=" + Quoted(key) + ", value=\"...\")" }
  function GetLabel(key: string): string { "get(key=" + Quoted(key) + ")" }
  function DeleteLabel(key: string): string { "delete(key=" + Quoted(key) + ")" }
  function HKeysLabel(key: string): string { "hkeys(key=" + Quoted(key) + ")" }
  function HExistsLabel(key: string, name: string): string { "hexists(" + Quoted(key) + ", " + Quoted(name) + ")" }
  function HSetLabel(key: string, name: string): string {
    "hset(key=" + Quoted(key) + ", name=" + Quoted(name) + ", value=\"...\")"
  }
  function HGetLabel(key: string, name: string): string { "hget(key=" + Quoted(key) + ", name=" + Quoted(name) + ")" }

  function Absent(missingOkay: bool, message: string): (r: Result<Value, Exc>)
    ensures missingOkay <==> r.Ok?
    ensures r.Ok? ==> r.value == VNone
    ensures r.Err? ==> r.error == PackageError(message, None)
  {
    if missingOkay then Ok(VNone) else Err(PackageError(message, None))
  }

  /** A GET or HGET reply as returned: nothing as `None`, else bytes, decoded to text when asked. */
  function Reply(b: Option<Blob>, decode: bool): (r: Result<Value, Exc>)
    ensures b.None? ==> r == Ok(VNone)
    ensures b.Some? && !decode ==> r == Ok(VBytes(b.value))
    ensures b.Some? && decode ==> (r.Ok? <==> b.value.Text?)
    ensures b.Some? && decode && b.value.Text? ==> r == Ok(VStr(b.value.chars))
  {
    match b
    case None => Ok(VNone)
    case Some(x) =>
      if !decode then Ok(VBytes(x))
      else
        match DecodeUtf8(x)
        case Ok(s) => Ok(VStr(s))
        case Err(ex) => Err(ex)
  }

  /** What redis-py raises for a command method called with an `encoding` keyword it does not take. */
  function EncodingKeyword(command: string): Exc {
    Exc(TypeError, command + "() got an unexpected keyword argument 'encoding'")
  }

  /**
   * `get`'s command as written: it passes `encoding=` to redis-py's `get`,
   * so every call raises. redis-py is not part of this model: the TypeError
   * its signature produces is taken as given here, not derived.
   */
  function GetCommandAsWritten(key: string): (r: Result<Value, Exc>) {
    Err(CommandError(GetLabel(key), EncodingKeyword("get")))
  }

  /** `get`'s command as intended: GET, then the reply decoded when an encoding is given. */
  function GetCommand(d: Data, key: string, decode: bool): (r: Result<Value, Exc>) {
    if key in d && d[key].Hash? then Err(CommandError(GetLabel(key), WrongType))
    else
      match Reply(if key in d then Some(d[key].blob) else None, decode)
      case Ok(v) => Ok(v)
      case Err(ex) => Err(CommandError(GetLabel(key), ex))
  }

  /** `hget`'s command as written: the same `encoding=` keyword, and the same TypeError taken as given. */
  function HGetCommandAsWritten(key: string, name: string): (r: Result<Value, Exc>) {
    Err(CommandError(HGetLabel(key, name), EncodingKeyword("hget")))
  }

  /** `hkeys` as written: the same `encoding=` keyword, and the same TypeError taken as given. */
  function HKeysCommandAsWritten(key: string): (r: Result<seq<Value>, Exc>) {
    Err(CommandError(HKeysLabel(key), EncodingKeyword("hkeys")))
  }

  /**
   * As written, `get`, `hget` and `hkeys` never return a stored value; as
   * intended, a stored string comes back as its bytes, or its text.
   */
  lemma EncodingKeywordBreaksReads(d: Data, key: string, name: string, decode: bool)
    ensures GetCommandAsWritten(key).Err? && HGetCommandAsWritten(key, name).Err?
    ensures HKeysCommandAsWritten(key).Err?
    ensures key in d && d[key].Flat? && d[key].blob.Text? ==>
      GetCommand(d, key, decode) == Ok(if decode then VStr(d[key].blob.chars) else VBytes(d[key].blob))
    ensures key in d && d[key].Flat? && !decode ==> GetCommand(d, key, decode) == Ok(VBytes(d[key].blob))
  {
  }

  /** `hset` as written: the write happens, then a reply of 0 (an overwritten field) raises. */
  function HSetAsWritten(d: Data, key: string, name: string, b: Blob): (res: (Result<bool, Exc>, Data))
    requires !(key in d && d[key].Flat?)
    ensures res.1 == d[key := Hash(FieldsOf(d, key)[name := b])]
    ensures res.0.Ok? <==> name !in FieldsOf(d, key)
    ensures res.0.Ok? ==> res.0.value
  {
    var after := d[key := Hash(FieldsOf(d, key)[name := b])];
    if name in FieldsOf(d, key) then
      (Err(CommandError(HSetLabel(key, name), PackageError("Error setting hash key " + Quoted(key) + " in Redis: No response", None))), after)
    else (Ok(true), after)
  }

  /** As written, overwriting a field changes the store and still reports failure. */
  lemma HSetAsWrittenFailsOnOverwrite()
    ensures var d: Data := map["k" := Hash(map["n" := Text("old")])];
      var (r, after) := HSetAsWritten(d, "k", "n", Text("new"));
      r.Err? && after["k"] == Hash(map["n" := Text("new")]) && after != d
  {
    var d: Data := map["k" := Hash(map["n" := Text("old")])];
    assert HSetAsWritten(d, "k", "n", Text("new")).1["k"].fields["n"] == Text("new");
  }

  class BlockingRedisentHelper {
    /** The server behind `redis_pool`. */
    const server: RedisStore
    /** What `redis.Redis(connection_pool=pool)` raises, if anything. */
    const clientFailure: Option<Exc>
    /** Whether the server answers commands. */
    const reachable: bool

    /** `BlockingRedisentHelper(redis_pool)`. */
    constructor (server: RedisStore, clientFailure: Option<Exc>, reachable: bool)
      ensures this.server == server && this.clientFailure == clientFailure && this.reachable == reachable
    {
      this.server := server;
      this.clientFailure := clientFailure;
      this.reachable := reachable;
    }

    predicate Healthy() {
      clientFailure.None? && reachable
    }

    function Failure(op: string): (e: Exc)
      requires !Healthy()
      ensures e.Redis? && e.err.cls == PackageErrors && e.err.baseException.Some?
    {
      if clientFailure.Some? then ConnectError(op, clientFailure.value) else CommandError(op, Helper.Unreachable)
    }

    /** `keys(pattern, decode_keys)`: the keys matching the pattern (default `*`), decoded when asked. */
    method Keys(pattern: Option<string>, decode: bool) returns (r: Result<seq<Value>, Exc>)
      ensures var p := if Given(pattern) then pattern.value else "*";
        && (!Healthy() ==> r == Err(Failure(KeysLabel(p))))
        && (Healthy() ==> r.Ok? && LegacyHelper.ListsNames(r.value, decode, set k | k in server.data && Matches(p, k)))
    {
      var p := if Given(pattern) then pattern.value else "*";
      if !Healthy() {
        return Err(Failure(KeysLabel(p)));
      }
      var ks := server.Keys(p);
      LegacyHelper.KeyValuesList(ks, decode, set k | k in server.data && Matches(p, k));
      r := Ok(LegacyHelper.KeyValues(ks, decode));
    }

    /** `exists(key)`: whether EXISTS replied 1. */
    method Exists(key: string) returns (r: Result<bool, Exc>)
      ensures !Healthy() ==> r == Err(Failure(ExistsLabel(key)))
      ensures Healthy() ==> r == Ok(key in server.data)
    {
      if !Healthy() {
        return Err(Failure(ExistsLabel(key)));
      }
      var n := server.Exists(key);
      r := Ok(n == 1);
    }

    /** `set(key, value)`: SET; its reply is always true, so the check never raises. */
    method Set(key: string, value: Value) returns (r: Result<bool, Exc>)
      modifies server
      ensures !Healthy() ==> r == Err(Failure(SetLabel(key))) && server.data == old(server.data)
      ensures Healthy() ==>
        match WireEncode(value)
        case Err(ex) => r == Err(CommandError(SetLabel(key), ex)) && server.data == old(server.data)
        case Ok(b) => r == Ok(true) && server.data == old(server.data)[key := Flat(b)]
      ensures old(server.Valid()) ==> server.Valid()
    {
      if !Healthy() {
        return Err(Failure(SetLabel(key)));
      }
      var wire := WireEncode(value);
      if wire.Err? {
        return Err(CommandError(SetLabel(key), wire.error));
      }
      var ok := server.Set(key, wire.value);
      if !ok {
        return Err(CommandError(SetLabel(key), PackageError("Error setting key " + Quoted(key) + " in Redis: No response", None)));
      }
      r := Ok(true);
    }

    /** `get(key, missing_okay, encoding)`: the existence check, then one GET. */
    method Get(key: string, missingOkay: bool, decode: bool) returns (r: Result<Value, Exc>)
      ensures !Healthy() ==> r == Err(Failure(ExistsLabel(key)))
      ensures Healthy() && key !in server.data ==> r == Absent(missingOkay, "Unable to fetch Redis entry " + Quoted(key) + ": Does not exist")
      ensures Healthy() && key in server.data ==> r == GetCommand(server.data, key, decode)
    {
      var present := Exists(key);
      if present.Err? {
        return Err(present.error);
      }
      if !present.value {
        return Absent(missingOkay, "Unable to fetch Redis entry " + Quoted(key) + ": Does not exist");
      }
      var reply := server.Get(key);
      match reply {
        case Err(ex) =>
          r := Err(CommandError(GetLabel(key), ex));
        case Ok(b) =>
          r := match Reply(b, decode)
            case Ok(v) => Ok(v)
            case Err(ex) => Err(CommandError(GetLabel(key), ex));
      }
    }

    /** `delete(key, missing_okay)`: `None` or an error for an absent key, else `res and res > 0`. */
    method Delete(key: string, missingOkay: bool) returns (r: Result<Value, Exc>)
      modifies server
      ensures !Healthy() ==> r == Err(Failure(ExistsLabel(key))) && server.data == old(server.data)
      ensures Healthy() && key !in old(server.data) ==>
        r == Absent(missingOkay, "Unable to delete Redis entry " + Quoted(key) + ": Does not exist") && server.data == old(server.data)
      ensures Healthy() && key in old(server.data) ==> r == Ok(VBool(true)) && server.data == old(server.data) - {key}
      ensures old(server.Valid()) ==> server.Valid()
    {
      var present := Exists(key);
      if present.Err? {
        return Err(present.error);
      }
      if !present.value {
        return Absent(missingOkay, "Unable to delete Redis entry " + Quoted(key) + ": Does not exist");
      }
      var n := server.Delete(key);
      r := Ok(if n == 0 then VInt(0) else VBool(n > 0));
    }

    /** `hkeys(key, decode_keys)`: the fields of the hash at `key`, decoded when asked. */
    method HKeys(key: string, decode: bool) returns (r: Result<seq<Value>, Exc>)
      ensures !Healthy() ==> r == Err(Failure(HKeysLabel(key)))
      ensures Healthy() && key in server.data && server.data[key].Flat? ==> r == Err(CommandError(HKeysLabel(key), WrongType))
      ensures Healthy() && !(key in server.data && server.data[key].Flat?) ==>
        r.Ok? && LegacyHelper.ListsNames(r.value, decode, FieldsOf(server.data, key).Keys)
    {
      if !Healthy() {
        return Err(Failure(HKeysLabel(key)));
      }
      var fs := server.HKeys(key);
      match fs {
        case Err(ex) =>
          r := Err(CommandError(HKeysLabel(key), ex));
        case Ok(names) =>
          LegacyHelper.KeyValuesList(names, decode, FieldsOf(server.data, key).Keys);
          r := Ok(LegacyHelper.KeyValues(names, decode));
      }
    }

    /** `hexists(key, name)`. */
    method HExists(key: string, name: string) returns (r: Result<bool, Exc>)
      ensures !Healthy() ==> r == Err(Failure(HExistsLabel(key, name)))
      ensures Healthy() && key in server.data && server.data[key].Flat? ==> r == Err(CommandError(HExistsLabel(key, name), WrongType))
      ensures Healthy() && !(key in server.data && server.data[key].Flat?) ==> r == Ok(name in FieldsOf(server.data, key))
    {
      if !Healthy() {
        return Err(Failure(HExistsLabel(key, name)));
      }
      var res := server.HExists(key, name);
      r := match res
        case Err(ex) => Err(CommandError(HExistsLabel(key, name), ex))
        case Ok(b) => Ok(b);
    }

    /** `hset(key, name, value)`, with a successful HSET reported as `True` whether the field was new or not. */
    method HSet(key: string, name: string, value: Value) returns (r: Result<bool, Exc>)
      modifies server
      ensures !Healthy() ==> r == Err(Failure(HSetLabel(key, name))) && server.data == old(server.data)
      ensures Healthy() ==>
        match WireEncode(value)
        case Err(ex) => r == Err(CommandError(HSetLabel(key, name), ex)) && server.data == old(server.data)
        case Ok(b) =>
          if key in old(server.data) && old(server.data)[key].Flat? then
            r == Err(CommandError(HSetLabel(key, name), WrongType)) && server.data == old(server.data)
          else
            r == Ok(true) && server.data == HSetAsWritten(old(server.data), key, name, b).1
      ensures old(server.Valid()) ==> server.Valid()
    {
      if !Healthy() {
        return Err(Failure(HSetLabel(key, name)));
      }
      var wire := WireEncode(value);
      if wire.Err? {
        return Err(CommandError(HSetLabel(key, name), wire.error));
      }
      var res := server.HSet(key, name, wire.value);
      r := match res
        case Err(ex) => Err(CommandError(HSetLabel(key, name), ex))
        case Ok(_) => Ok(true);
    }

    /** `hget(key, name, missing_okay, encoding)`: the key is checked, then the field, then one HGET. */
    method HGet(key: string, name: string, missingOkay: bool, decode: bool) returns (r: Result<Value, Exc>)
      ensures !Healthy() ==> r == Err(Failure(ExistsLabel(key)))
      ensures Healthy() && key !in server.data ==> r == Absent(missingOkay, "Unable to fetch Redis entry " + Quoted(key) + ": Does not exist")
      ensures Healthy() && key in server.data && server.data[key].Flat? ==> r == Err(CommandError(HExistsLabel(key, name), WrongType))
      ensures Healthy() && key in server.data && server.data[key].Hash? && name !in server.data[key].fields ==>
        r == Absent(missingOkay, LegacyHelper.MissingFieldMessage(key, name))
      ensures Healthy() && key in server.data && server.data[key].Hash? && name in server.data[key].fields ==>
        match Reply(Some(server.data[key].fields[name]), decode)
        case Ok(v) => r == Ok(v)
        case Err(ex) => r == Err(CommandError(HGetLabel(key, name), ex))
    {
      var present := Exists(key);
      if present.Err? {
        return Err(present.error);
      }
      if !present.value {
        return Absent(missingOkay, "Unable to fetch Redis entry " + Quoted(key) + ": Does not exist");
      }
      var has := HExists(key, name);
      if has.Err? {
        return Err(has.error);
      }
      if !has.value {
        return Absent(missingOkay, LegacyHelper.MissingFieldMessage(key, name));
      }
      var reply := server.HGet(key, name);
      match reply {
        case Err(ex) =>
          r := Err(CommandError(HGetLabel(key, name), ex));
        case Ok(b) =>
          r := match Reply(b, decode)
            case Ok(v) => Ok(v)
            case Err(ex) => Err(CommandError(HGetLabel(key, name), ex));
      }
    }
  }
}
