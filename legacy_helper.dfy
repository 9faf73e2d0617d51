/**
 * `RedisHelper` of redisent/redishelper.py: the blocking helper over a
 * connection pool. Every command runs inside `wrapped_redis`, which turns a
 * failure to build the client, and any exception raised inside the block
 * (including the helper's own `RedisError`s), into a `RedisError` of
 * redisent/errors.py. Reads check EXISTS (and HEXISTS) in a block of their
 * own first.
 */
module LegacyHelper {
  import opened Wrappers
  import opened PyValues
  import opened RedisErrors
  import opened RedisServer
  import opened LegacyCodec
  import Helper

  function Quoted(s: string): string {
    Helper.Quoted(s)
  }

  /** The label `wrapped_redis` uses: the given one, else `Unknown`. */
  function OpName(op: string): (s: string)
    ensures s != ""
    ensures op != "" ==> s == op
  {
    if op == "" then "Unknown" else op
  }

  /** The error `wrapped_redis` raises when the client cannot be built. */
  function ConnectError(ex: Exc): (e: Exc)
    ensures e.Redis? && e.err.cls == LegacyErrors && e.err.baseException == Some(ex)
    ensures e.err.relatedCommand == Some("Unknown") && e.err.extraAttrs == []
    ensures e.err.message == "Failed to create new Redis connection: " + ExcText(ex)
  {
    LegacyError("Failed to create new Redis connection: " + ExcText(ex), Some(ex), None)
  }

  /** The error `wrapped_redis` raises when the block raises `ex`. */
  function CommandError(op: string, ex: Exc): (e: Exc)
    ensures e.Redis? && e.err.cls == LegacyErrors && e.err.baseException == Some(ex)
    ensures e.err.relatedCommand == Some(OpName(op)) && e.err.extraAttrs == []
    ensures StartsWith(e.err.message, "Redis Error executing " + Quoted(OpName(op)) + ": ")
  {
    var head := "Redis Error executing " + Quoted(OpName(op)) + ": ";
    var msg := head + ExcText(ex);
    assert msg[..|head|] == head;
    Redis(NewError(LegacyErrors, msg, Some(ex), Some(OpName(op)), None))
  }

  /** Errors from inside a block keep the op label, and `str()` of them always names it. */
  lemma CommandErrorNamesOp(op: string, ex: Exc)
    ensures Str(CommandError(op, ex).err) == "Redis Error with command " + Quoted(OpName(op)) + ": " + CommandError(op, ex).err.message
  {
    var e := CommandError(op, ex).err;
    NamedHeadQuotes(OpName(op), e.message);
  }

  /** The head `str()` writes for a class of redisent/errors.py, spelled with the quoted command. */
  lemma NamedHeadQuotes(cmd: string, message: string)
    ensures NamedHead(LegacyErrors, cmd) + (": " + message) == "Redis Error with command " + Quoted(cmd) + ": " + message
  {
  }

  // --------------------------------------------------------------- pools

  /** `RedisHelper.build_pool`'s host: the URL with a leading `redis://` cut off. */
  function HostOf(url: string): (host: string)
    ensures StartsWith(url, "redis://") ==> host == url[8..]
    ensures !StartsWith(url, "redis://") ==> host == url
  {
    if StartsWith(url, "redis://") then url[8..] else url
  }

  /** Cutting the scheme off a `redis://` URL gives back the host it was built from. */
  lemma HostOfPrefixed(host: string)
    ensures HostOf("redis://" + host) == host
  {
    assert ("redis://" + host)[..8] == "redis://";
  }

  /** The two classes whose `build` reaches `build_pool`. */
  datatype HelperClass = BaseHelper | BlockingHelper

  /**
   * `build(redis_pool, redis_url)`: a given pool is kept; otherwise the base
   * class raises `NotImplementedError` and `RedisHelper` builds a pool for
   * the URL's host. A pool is named by its host.
   */
  function Build(cls: HelperClass, pool: Option<string>, url: string): (r: Result<string, Exc>)
    ensures Given(pool) ==> r == Ok(pool.value)
    ensures !Given(pool) && cls == BaseHelper ==> r.Err? && r.error.Exc? && r.error.kind == NotImplementedError
    ensures !Given(pool) && cls == BlockingHelper ==> r == Ok(HostOf(url))
  {
    if Given(pool) then Ok(pool.value)
    else if cls == BaseHelper then
      Err(Exc(NotImplementedError, "Subclasses of BaseRedisHelper must implement the class method \"build_pool\""))
    else Ok(HostOf(url))
  }

  // -------------------------------------------------------------- labels

  function KeysLabel(pattern: string): string { "keys(" + Quoted(pattern) + ")" }
  function HKeysLabel(key: string): string { "hkeys(" + Quoted(key) + ")" }
  function ExistsLabel(key: string): string { "exists(" + Quoted(key) + ")" }
  function HExistsLabel(key: string, name: string): string { "hexists(" + Quoted(key) + ", " + Quoted(name) + ")" }
  function HLenLabel(key: string): string { "hlen(" + Quoted(key) + ")" }
  function LLenLabel(key: string): string { "llen(key=" + Quoted(key) + ")" }
  function SetLabel(key: string): string { "set(key=" + Quoted(key) + ", value=\"...\")" }
  function HSetLabel(key: string, name: string): string {
    "hset(key=" + Quoted(key) + ", name=" + Quoted(name) + ", value=\"...\")"
  }
  function GetLabel(key: string): string { "get(key=" + Quoted(key) + ")" }

  /** The label `hget` reports its HGET under, naming the command it sends. */
  function HGetLabel(key: string, name: string): string { "hget(key=" + Quoted(key) + ", name=" + Quoted(name) + ")" }

  /** `hget`'s label as written: it names HSET. */
  function HGetLabelAsWritten(key: string, name: string): string { "hset(key=" + Quoted(key) + ", name=" + Quoted(name) + ")" }

  /** As written, a failed HGET is reported as a failed HSET. */
  lemma HGetLabelAsWrittenNamesHSet(key: string, name: string)
    ensures StartsWith(HGetLabelAsWritten(key, name), "hset(")
    ensures StartsWith(HGetLabel(key, name), "hget(")
    ensures HGetLabel(key, name) != HGetLabelAsWritten(key, name)
  {
    assert HGetLabelAsWritten(key, name)[..5] == "hset(";
    assert HGetLabel(key, name)[..5] == "hget(";
    assert HGetLabel(key, name)[1] != HGetLabelAsWritten(key, name)[1];
  }

  /** The labels `delete`, `hdelete` and `hgetall` build for their command. */
  function DeleteLabel(key: string): string { "delete(" + Quoted(key) + ")" }
  function HDeleteLabel(key: string, name: string): string { "hdel(" + Quoted(key) + ", " + Quoted(name) + ")" }
  function HGetAllLabel(key: string): string { "hgetall(" + Quoted(key) + ")" }

  /** The same labels as written: plain strings, not f-strings, so the braces stay in. */
  function DeleteLabelAsWritten(key: string): string { "delete(\"{key}\")" }
  function HDeleteLabelAsWritten(key: string, name: string): string { "hdel(\"{key}\", \"{name}\")" }
  function HGetAllLabelAsWritten(key: string): string { "hgetall(\"{key}\")" }

  /** As written, the labels do not depend on the key; the corrected ones tell every key apart. */
  lemma UnformattedLabelsIgnoreKey(k1: string, k2: string, n1: string, n2: string)
    ensures DeleteLabelAsWritten(k1) == DeleteLabelAsWritten(k2)
    ensures HDeleteLabelAsWritten(k1, n1) == HDeleteLabelAsWritten(k2, n2)
    ensures HGetAllLabelAsWritten(k1) == HGetAllLabelAsWritten(k2)
    ensures DeleteLabel(k1) == DeleteLabel(k2) ==> k1 == k2
    ensures HGetAllLabel(k1) == HGetAllLabel(k2) ==> k1 == k2
  {
    if DeleteLabel(k1) == DeleteLabel(k2) {
      assert k1 == DeleteLabel(k1)[8..|DeleteLabel(k1)| - 2];
    }
    if HGetAllLabel(k1) == HGetAllLabel(k2) {
      assert k1 == HGetAllLabel(k1)[9..|HGetAllLabel(k1)| - 2];
    }
  }

  // ------------------------------------------------------------ messages

  function MissingKeyMessage(key: string): string {
    "Unable to fetch Redis entry " + Quoted(key) + ": Does not exist"
  }
  /** The message for a missing hash field; the quote after the field name is never closed. */
  function MissingFieldMessage(key: string, name: string): string {
    "Unable to fetch entry \"" + name + " in Redis has key " + Quoted(key) + ": No such entry"
  }
  function MissingDeleteMessage(key: string): string {
    "Unable to delete Redis entry " + Quoted(key) + ": Does not exist"
  }
  function MissingHDeleteMessage(key: string, name: string): string {
    "Unable to delete Redis entry for " + Quoted(name) + " in key " + Quoted(key) + ": No such entry in " + Quoted(key)
  }
  function MissingHashMessage(key: string): string {
    "Unable to fetch Redis hash entries from non-existent key " + Quoted(key)
  }
  function NoResponse(key: string): Exc {
    LegacyError("Error setting hash key " + Quoted(key) + " in Redis: No response", None, None)
  }

  /** What a read with `missing_okay` gives for an absent key or field: `None`, or the error. */
  function Absent(missingOkay: bool, message: string): (r: Result<Value, Exc>)
    ensures missingOkay <==> r.Ok?
    ensures r.Ok? ==> r.value == VNone
    ensures r.Err? ==> r.error.Redis? && r.error.err.message == message && r.error.err.baseException.None?
  {
    if missingOkay then Ok(VNone) else Err(LegacyError(message, None, None))
  }

  // ------------------------------------------------------- replies, decoded

  /** A key or field as `keys`/`hkeys` return it: text when decoding, else bytes. */
  function KeyValue(k: string, decode: bool): Value {
    if decode then VStr(k) else VBytes(Text(k))
  }

  function KeyValues(ks: seq<string>, decode: bool): (vs: seq<Value>)
    ensures |vs| == |ks|
    ensures forall i | 0 <= i < |ks| :: vs[i] == KeyValue(ks[i], decode)
  {
    seq(|ks|, i requires 0 <= i < |ks| => KeyValue(ks[i], decode))
  }

  /** The name a listed key stands for. */
  function KeyName(v: Value): string {
    match v
    case VStr(s) => s
    case VBytes(Text(s)) => s
    case _ => ""
  }

  function KeyNames(vs: seq<Value>): (ns: seq<string>)
    ensures |ns| == |vs|
    ensures forall i | 0 <= i < |vs| :: ns[i] == KeyName(vs[i])
  {
    seq(|vs|, i requires 0 <= i < |vs| => KeyName(vs[i]))
  }

  /** `vs` lists the names in `names` once each, as text when decoding and as bytes otherwise. */
  ghost predicate ListsNames(vs: seq<Value>, decode: bool, names: set<string>) {
    && (forall i | 0 <= i < |vs| :: vs[i] == KeyValue(KeyName(vs[i]), decode))
    && NoDups(KeyNames(vs))
    && (forall k :: k in KeyNames(vs) <==> k in names)
  }

  lemma KeyValuesList(ks: seq<string>, decode: bool, names: set<string>)
    requires NoDups(ks) && forall k :: k in ks <==> k in names
    ensures ListsNames(KeyValues(ks, decode), decode, names)
  {
    assert KeyNames(KeyValues(ks, decode)) == ks;
  }

  /**
   * What `get`/`hget` return for the reply `ent`: unpickled with
   * `decode_value`, else decoded to text with `decode_response`, else raw.
   */
  function Respond(ent: Value, key: string, name: Option<string>, decodeValue: bool, decodeResponse: bool): (r: Result<Value, Exc>)
    ensures decodeValue ==> r == DecodeEntry(ent, key, name)
    ensures !decodeValue && decodeResponse && ent.VBytes? && ent.blob.Text? ==> r == Ok(VStr(ent.blob.chars))
    ensures !decodeValue && !decodeResponse ==> r == Ok(ent)
  {
    if decodeValue then DecodeEntry(ent, key, name)
    else if decodeResponse then
      match ent
      case VBytes(b) =>
        (match DecodeUtf8(b)
         case Ok(s) => Ok(VStr(s))
         case Err(ex) => Err(ex))
      case _ => Err(Exc(AttributeError, "'" + TypeName(ent) + "' object has no attribute 'decode'"))
    else Ok(ent)
  }

  /** A value stored by `set` comes back from `get` with `decode_value` as the mapping it encoded. */
  lemma RespondAfterSet(v: Value, key: string)
    requires Encodable(v) && EncodeEntry(v).Ok?
    ensures MappingOf(v).Ok?
    ensures Respond(VBytes(EncodeEntry(v).value), key, None, true, true) == Ok(VDict(MappingOf(v).value))
  {
  }

  /** Unpickling every value, then converting the keys: the two steps one `try` of `hgetall` covers. */
  function LoadAndConvert(entries: Dict): Result<Dict, Exc> {
    match LoadsAll(entries)
    case Err(ex) => Err(ex)
    case Ok(objs) => ConvertKeys(objs)
  }

  /** The `RedisError` that `hgetall` raises for a failure inside its `try`. */
  function HashDecodeError(key: string, entries: Dict, ex: Exc): Exc {
    LegacyError("Error while decoding Redis hash entry " + Quoted(key) + " using Pickle: " + ExcText(ex),
                Some(ex), Some([("entries", VDict(entries))]))
  }

  /** What `hgetall` returns for the dict redis-py built from HGETALL. */
  function HGetAllReply(key: string, entries: Dict, decodeValue: bool, decodeResponse: bool): (r: Result<Value, Exc>)
    ensures !decodeValue && !decodeResponse ==> r == Ok(VDict(entries))
    ensures !decodeValue && decodeResponse ==> (r.Ok? <==> ConvertKeys(entries).Ok?)
    ensures !decodeValue && decodeResponse && r.Ok? ==> r.value == VDict(ConvertKeys(entries).value)
    ensures !decodeValue && decodeResponse && r.Err? ==>
      r.error == CommandError(HGetAllLabel(key), ConvertKeys(entries).error)
    ensures decodeValue ==> (r.Ok? <==> LoadsAll(entries).Ok? && ConvertKeys(LoadsAll(entries).value).Ok?)
    ensures decodeValue && r.Err? ==>
      && r.error.Redis? && r.error.err.relatedCommand == Some(HGetAllLabel(key))
      && r.error.err.baseException.Some? && r.error.err.baseException.value.Redis?
      && r.error.err.baseException.value.err.extraAttrs == [("entries", VDict(entries))]
  {
    if !decodeValue then
      if !decodeResponse then Ok(VDict(entries))
      else
        match ConvertKeys(entries)
        case Ok(d) => Ok(VDict(d))
        case Err(ex) => Err(CommandError(HGetAllLabel(key), ex))
    else
      match LoadAndConvert(entries)
      case Ok(d) => Ok(VDict(d))
      case Err(ex) => Err(CommandError(HGetAllLabel(key), HashDecodeError(key, entries, ex)))
  }

  /** The hash as `hgetall` hands it back when every value is a pickle: field text to unpickled value. */
  function Unpickled(items: seq<(string, Blob)>): (d: Dict)
    requires forall i | 0 <= i < |items| :: items[i].1.Pickled?
    ensures |d| == |items|
  {
    seq(|items|, i requires 0 <= i < |items| => (VStr(items[i].0), items[i].1.payload))
  }

  /**
   * A hash whose values are all pickles comes back from `hgetall` with
   * `decode_value` as one item per field, keyed by the field's text and
   * holding the unpickled value.
   */
  lemma HGetAllDecodes(key: string, items: seq<(string, Blob)>, m: map<string, Blob>, decodeResponse: bool)
    requires IsListing(items, m)
    requires forall i | 0 <= i < |items| :: items[i].1.Pickled?
    ensures HGetAllReply(key, Helper.ReplyDict(items), true, decodeResponse) == Ok(VDict(Unpickled(items)))
  {
    ReplyLoads(items, m);
    ReplyConverts(items, m);
  }

  lemma ReplyLoads(items: seq<(string, Blob)>, m: map<string, Blob>)
    requires IsListing(items, m)
    requires forall i | 0 <= i < |items| :: items[i].1.Pickled?
    ensures AllPickled(Helper.ReplyDict(items))
    ensures LoadsAll(Helper.ReplyDict(items)) == Ok(LegacyCodec.Unpickled(Helper.ReplyDict(items)))
  {
    Helper.ReplyDictLists(items, m);
    LoadsAllInPlace(Helper.ReplyDict(items));
  }

  /** After unpickling, the reply's keys are the field names as bytes of text. */
  lemma UnpickledKeys(items: seq<(string, Blob)>)
    requires forall i | 0 <= i < |items| :: items[i].1.Pickled?
    ensures AllPickled(Helper.ReplyDict(items))
    ensures forall i | 0 <= i < |items| ::
      LegacyCodec.Unpickled(Helper.ReplyDict(items))[i] == (VBytes(Text(items[i].0)), items[i].1.payload)
  {
    var d := Helper.ReplyDict(items);
    assert AllPickled(d);
    var objs := LegacyCodec.Unpickled(d);
    forall i | 0 <= i < |items| ensures objs[i] == (VBytes(Text(items[i].0)), items[i].1.payload) {
      assert d[i] == (VBytes(Text(items[i].0)), VBytes(items[i].1));
    }
  }

  lemma ReplyConverts(items: seq<(string, Blob)>, m: map<string, Blob>)
    requires IsListing(items, m)
    requires forall i | 0 <= i < |items| :: items[i].1.Pickled?
    ensures AllPickled(Helper.ReplyDict(items))
    ensures ConvertKeys(LegacyCodec.Unpickled(Helper.ReplyDict(items))) == Ok(Unpickled(items))
  {
    UnpickledKeys(items);
    var objs := LegacyCodec.Unpickled(Helper.ReplyDict(items));
    forall i | 0 <= i < |objs| ensures Converted(objs[i].0) == VStr(items[i].0) && ConvertKey(objs[i].0).Ok? { }
    forall i, j | 0 <= i < j < |objs| ensures Converted(objs[i].0) != Converted(objs[j].0) {
      assert Names(items)[i] != Names(items)[j];
    }
    ConvertKeysRelabels(objs);
    assert Relabelled(objs) == Unpickled(items);
  }

  /** A single value of the hash that is not a pickle fails the whole `hgetall` with `decode_value`. */
  lemma HGetAllFailsOnText(key: string, items: seq<(string, Blob)>, decodeResponse: bool, i: nat)
    requires i < |items| && items[i].1.Text?
    ensures HGetAllReply(key, Helper.ReplyDict(items), true, decodeResponse).Err?
  {
    LoadsAllSucceeds(Helper.ReplyDict(items));
    assert !Helper.ReplyDict(items)[i].1.blob.Pickled?;
  }

  /** `hset` as written: the write happens, then a reply of 0 (an overwritten field) raises. */
  function HSetAsWritten(d: Data, key: string, name: string, b: Blob): (res: (Result<bool, Exc>, Data))
    requires !(key in d && d[key].Flat?)
    ensures res.1 == d[key := Hash(FieldsOf(d, key)[name := b])]
    ensures res.0.Ok? <==> name !in FieldsOf(d, key)
    ensures res.0.Ok? ==> res.0.value
  {
    var after := d[key := Hash(FieldsOf(d, key)[name := b])];
    if name in FieldsOf(d, key) then (Err(CommandError(HSetLabel(key, name), NoResponse(key))), after)
    else (Ok(true), after)
  }

  /** As written, overwriting a field changes the store and still reports failure. */
  lemma HSetAsWrittenFailsOnOverwrite()
    ensures var d: Data := map["k" := Hash(map["n" := Text("old")])];
      var (r, after) := HSetAsWritten(d, "k", "n", Text("new"));
      r.Err? && after["k"] == Hash(map["n" := Text("new")]) && after != d
  {
    var d: Data := map["k" := Hash(map["n" := Text("old")])];
    assert HSetAsWritten(d, "k", "n", Text("new")).1["k"].fields["n"] == Text("new");
  }

  class LegacyRedisHelper {
    /** The server behind `redis_pool`. */
    const server: RedisStore
    /** What building a client on the pool raises, if anything. */
    const clientFailure: Option<Exc>
    /** Whether the server answers commands. */
    const reachable: bool

    /** `RedisHelper(redis_pool)`: the helper keeps the pool it is given. */
    constructor (server: RedisStore, clientFailure: Option<Exc>, reachable: bool)
      ensures this.server == server && this.clientFailure == clientFailure && this.reachable == reachable
    {
      this.server := server;
      this.clientFailure := clientFailure;
      this.reachable := reachable;
    }

    predicate Healthy() {
      clientFailure.None? && reachable
    }

    /** The error a `wrapped_redis` block labelled `op` raises when the helper is not healthy. */
    function Failure(op: string): (e: Exc)
      requires !Healthy()
      ensures e.Redis? && e.err.cls == LegacyErrors && e.err.baseException.Some?
    {
      if clientFailure.Some? then ConnectError(clientFailure.value) else CommandError(op, Helper.Unreachable)
    }

    /** `keys(pattern, encoding)`: the keys matching the pattern (default `*`), decoded when an encoding is given. */
    method Keys(pattern: Option<string>, decode: bool) returns (r: Result<seq<Value>, Exc>)
      ensures var p := if Given(pattern) then pattern.value else "*";
        && (!Healthy() ==> r == Err(Failure(KeysLabel(p))))
        && (Healthy() ==> r.Ok? && ListsNames(r.value, decode, set k | k in server.data && Matches(p, k)))
    {
      var p := if Given(pattern) then pattern.value else "*";
      if !Healthy() {
        return Err(Failure(KeysLabel(p)));
      }
      var ks := server.Keys(p);
      KeyValuesList(ks, decode, set k | k in server.data && Matches(p, k));
      r := Ok(KeyValues(ks, decode));
    }

    /** `hkeys(key, encoding)`: the fields of the hash at `key`, decoded when an encoding is given. */
    method HKeys(key: string, decode: bool) returns (r: Result<seq<Value>, Exc>)
      ensures !Healthy() ==> r == Err(Failure(HKeysLabel(key)))
      ensures Healthy() && key in server.data && server.data[key].Flat? ==> r == Err(CommandError(HKeysLabel(key), WrongType))
      ensures Healthy() && !(key in server.data && server.data[key].Flat?) ==>
        r.Ok? && ListsNames(r.value, decode, FieldsOf(server.data, key).Keys)
    {
      if !Healthy() {
        return Err(Failure(HKeysLabel(key)));
      }
      var fs := server.HKeys(key);
      match fs {
        case Err(ex) =>
          r := Err(CommandError(HKeysLabel(key), ex));
        case Ok(names) =>
          KeyValuesList(names, decode, FieldsOf(server.data, key).Keys);
          r := Ok(KeyValues(names, decode));
      }
    }

    /** `exists(key)`: the EXISTS reply, 1 for a present key and 0 otherwise. */
    method Exists(key: string) returns (r: Result<nat, Exc>)
      ensures !Healthy() ==> r == Err(Failure(ExistsLabel(key)))
      ensures Healthy() ==> r == Ok(if key in server.data then 1 else 0)
    {
      if !Healthy() {
        return Err(Failure(ExistsLabel(key)));
      }
      var n := server.Exists(key);
      r := Ok(n);
    }

    /** `hexists(key, name)`. */
    method HExists(key: string, name: string) returns (r: Result<bool, Exc>)
      ensures !Healthy() ==> r == Err(Failure(HExistsLabel(key, name)))
      ensures Healthy() && key in server.data && server.data[key].Flat? ==> r == Err(CommandError(HExistsLabel(key, name), WrongType))
      ensures Healthy() && !(key in server.data && server.data[key].Flat?) ==> r == Ok(name in FieldsOf(server.data, key))
    {
      if !Healthy() {
        return Err(Failure(HExistsLabel(key, name)));
      }
      var res := server.HExists(key, name);
      r := match res
        case Err(ex) => Err(CommandError(HExistsLabel(key, name), ex))
        case Ok(b) => Ok(b);
    }

    /** `hlen(key)`: `None` for an absent key, else the HLEN reply. */
    method HLen(key: string) returns (r: Result<Option<nat>, Exc>)
      ensures !Healthy() ==> r == Err(Failure(ExistsLabel(key)))
      ensures Healthy() && key !in server.data ==> r == Ok(None)
      ensures Healthy() && key in server.data && server.data[key].Flat? ==> r == Err(CommandError(HLenLabel(key), WrongType))
      ensures Healthy() && key in server.data && server.data[key].Hash? ==> r == Ok(Some(|server.data[key].fields|))
    {
      var n := Exists(key);
      if n.Err? {
        return Err(n.error);
      }
      if n.value == 0 {
        return Ok(None);
      }
      var res := server.HLen(key);
      r := match res
        case Err(ex) => Err(CommandError(HLenLabel(key), ex))
        case Ok(len) => Ok(Some(len));
    }

    /** `llen(key)`: `None` for an absent key; every present key here holds a string or a hash, which LLEN rejects. */
    method LLen(key: string) returns (r: Result<Option<nat>, Exc>)
      ensures !Healthy() ==> r == Err(Failure(ExistsLabel(key)))
      ensures Healthy() && key !in server.data ==> r == Ok(None)
      ensures Healthy() && key in server.data ==> r == Err(CommandError(LLenLabel(key), WrongType))
    {
      var n := Exists(key);
      if n.Err? {
        return Err(n.error);
      }
      if n.value == 0 {
        return Ok(None);
      }
      var res := server.LLen(key);
      r := match res
        case Err(ex) => Err(CommandError(LLenLabel(key), ex))
        case Ok(len) => Ok(Some(len));
    }

    /**
     * `set(key, value)`: entries and mappings are pickled first (outside the
     * block, so their errors are not wrapped); SET always succeeds, so the
     * reply check never raises.
     */
    method Set(key: string, value: Value) returns (r: Result<bool, Exc>)
      modifies server
      ensures EncodeRedisValue(value).Err? ==> r == Err(EncodeRedisValue(value).error) && server.data == old(server.data)
      ensures EncodeRedisValue(value).Ok? && !Healthy() ==> r == Err(Failure(SetLabel(key))) && server.data == old(server.data)
      ensures EncodeRedisValue(value).Ok? && Healthy() ==>
        match WireEncode(EncodeRedisValue(value).value)
        case Err(ex) => r == Err(CommandError(SetLabel(key), ex)) && server.data == old(server.data)
        case Ok(b) => r == Ok(true) && server.data == old(server.data)[key := Flat(b)]
      ensures old(server.Valid()) ==> server.Valid()
    {
      var outgoing := EncodeRedisValue(value);
      if outgoing.Err? {
        return Err(outgoing.error);
      }
      if !Healthy() {
        return Err(Failure(SetLabel(key)));
      }
      var wire := WireEncode(outgoing.value);
      if wire.Err? {
        return Err(CommandError(SetLabel(key), wire.error));
      }
      var ok := server.Set(key, wire.value);
      if !ok {
        return Err(CommandError(SetLabel(key), LegacyError("Error setting key " + Quoted(key) + " in Redis: No response", None, None)));
      }
      r := Ok(true);
    }

    /**
     * `hset(key, name, value)`, with a successful HSET reported as `True`
     * whether the field was new or overwritten.
     */
    method HSet(key: string, name: string, value: Value) returns (r: Result<bool, Exc>)
      modifies server
      ensures EncodeRedisValue(value).Err? ==> r == Err(EncodeRedisValue(value).error) && server.data == old(server.data)
      ensures EncodeRedisValue(value).Ok? && !Healthy() ==> r == Err(Failure(HSetLabel(key, name))) && server.data == old(server.data)
      ensures EncodeRedisValue(value).Ok? && Healthy() ==>
        match WireEncode(EncodeRedisValue(value).value)
        case Err(ex) => r == Err(CommandError(HSetLabel(key, name), ex)) && server.data == old(server.data)
        case Ok(b) =>
          if key in old(server.data) && old(server.data)[key].Flat? then
            r == Err(CommandError(HSetLabel(key, name), WrongType)) && server.data == old(server.data)
          else
            r == Ok(true) && server.data == HSetAsWritten(old(server.data), key, name, b).1
      ensures old(server.Valid()) ==> server.Valid()
    {
      var outgoing := EncodeRedisValue(value);
      if outgoing.Err? {
        return Err(outgoing.error);
      }
      if !Healthy() {
        return Err(Failure(HSetLabel(key, name)));
      }
      var wire := WireEncode(outgoing.value);
      if wire.Err? {
        return Err(CommandError(HSetLabel(key, name), wire.error));
      }
      var res := server.HSet(key, name, wire.value);
      r := match res
        case Err(ex) => Err(CommandError(HSetLabel(key, name), ex))
        case Ok(_) => Ok(true);
    }

    /** `get(key, missing_okay, decode_value, decode_response)`, as the coroutine runs when awaited. */
    method Get(key: string, missingOkay: bool, decodeValue: bool, decodeResponse: bool) returns (r: Result<Value, Exc>)
      ensures !Healthy() ==> r == Err(Failure(ExistsLabel(key)))
      ensures Healthy() && key !in server.data ==> r == Absent(missingOkay, MissingKeyMessage(key))
      ensures Healthy() && key in server.data && server.data[key].Hash? ==> r == Err(CommandError(GetLabel(key), WrongType))
      ensures Healthy() && key in server.data && server.data[key].Flat? ==>
        r == Respond(VBytes(server.data[key].blob), key, None, decodeValue, decodeResponse)
    {
      var n := Exists(key);
      if n.Err? {
        return Err(n.error);
      }
      if n.value == 0 {
        return Absent(missingOkay, MissingKeyMessage(key));
      }
      var reply := server.Get(key);
      match reply {
        case Err(ex) =>
          r := Err(CommandError(GetLabel(key), ex));
        case Ok(b) =>
          var ent := if b.Some? then VBytes(b.value) else VNone;
          r := Respond(ent, key, None, decodeValue, decodeResponse);
      }
    }

    /** `hget(key, name, missing_okay, decode_value, decode_response)`: the key is checked, then the field. */
    method HGet(key: string, name: string, missingOkay: bool, decodeValue: bool, decodeResponse: bool) returns (r: Result<Value, Exc>)
      ensures !Healthy() ==> r == Err(Failure(ExistsLabel(key)))
      ensures Healthy() && key !in server.data ==> r == Absent(missingOkay, MissingKeyMessage(key))
      ensures Healthy() && key in server.data && server.data[key].Flat? ==> r == Err(CommandError(HExistsLabel(key, name), WrongType))
      ensures Healthy() && key in server.data && server.data[key].Hash? && name !in server.data[key].fields ==>
        r == Absent(missingOkay, MissingFieldMessage(key, name))
      ensures Healthy() && key in server.data && server.data[key].Hash? && name in server.data[key].fields ==>
        r == Respond(VBytes(server.data[key].fields[name]), key, Some(name), decodeValue, decodeResponse)
    {
      var n := Exists(key);
      if n.Err? {
        return Err(n.error);
      }
      if n.value == 0 {
        return Absent(missingOkay, MissingKeyMessage(key));
      }
      var has := HExists(key, name);
      if has.Err? {
        return Err(has.error);
      }
      if !has.value {
        return Absent(missingOkay, MissingFieldMessage(key, name));
      }
      var reply := server.HGet(key, name);
      match reply {
        case Err(ex) =>
          r := Err(CommandError(HGetLabel(key, name), ex));
        case Ok(b) =>
          var ent := if b.Some? then VBytes(b.value) else VNone;
          r := Respond(ent, key, Some(name), decodeValue, decodeResponse);
      }
    }

    /** `delete(key, missing_okay)`: `None` or an error for an absent key, else whether DEL removed it. */
    method Delete(key: string, missingOkay: bool) returns (r: Result<Option<bool>, Exc>)
      modifies server
      ensures !Healthy() ==> r == Err(Failure(ExistsLabel(key))) && server.data == old(server.data)
      ensures Healthy() && key !in old(server.data) ==>
        r == (if missingOkay then Ok(None) else Err(LegacyError(MissingDeleteMessage(key), None, None)))
        && server.data == old(server.data)
      ensures Healthy() && key in old(server.data) ==> r == Ok(Some(true)) && server.data == old(server.data) - {key}
      ensures old(server.Valid()) ==> server.Valid()
    {
      var n := Exists(key);
      if n.Err? {
        return Err(n.error);
      }
      if n.value == 0 {
        if missingOkay {
          return Ok(None);
        }
        return Err(LegacyError(MissingDeleteMessage(key), None, None));
      }
      var gone := server.Delete(key);
      r := Ok(Some(gone > 0));
    }

    /** `hdelete(key, name, missing_okay)`: checks only the field, then HDEL. */
    method HDelete(key: string, name: string, missingOkay: bool) returns (r: Result<Option<bool>, Exc>)
      modifies server
      ensures !Healthy() ==> r == Err(Failure(HExistsLabel(key, name))) && server.data == old(server.data)
      ensures Healthy() && key in old(server.data) && old(server.data)[key].Flat? ==>
        r == Err(CommandError(HExistsLabel(key, name), WrongType)) && server.data == old(server.data)
      ensures Healthy() && !(key in old(server.data) && old(server.data)[key].Flat?) && name !in FieldsOf(old(server.data), key) ==>
        r == (if missingOkay then Ok(None) else Err(LegacyError(MissingHDeleteMessage(key, name), None, None)))
        && server.data == old(server.data)
      ensures Healthy() && !(key in old(server.data) && old(server.data)[key].Flat?) && name in FieldsOf(old(server.data), key) ==>
        r == Ok(Some(true)) && server.data == Helper.HDelResult(old(server.data), key, name)
      ensures old(server.Valid()) ==> server.Valid()
    {
      var has := HExists(key, name);
      if has.Err? {
        return Err(has.error);
      }
      if !has.value {
        if missingOkay {
          return Ok(None);
        }
        return Err(LegacyError(MissingHDeleteMessage(key, name), None, None));
      }
      var res := server.HDel(key, name);
      r := match res
        case Err(ex) => Err(CommandError(HDeleteLabel(key, name), ex))
        case Ok(n) => Ok(Some(n > 0));
    }

    /** `hgetall(key, missing_okay, decode_value, decode_response)`. */
    method HGetAll(key: string, missingOkay: bool, decodeValue: bool, decodeResponse: bool) returns (r: Result<Value, Exc>)
      ensures !Healthy() ==> r == Err(Failure(ExistsLabel(key)))
      ensures Healthy() && key !in server.data ==> r == Absent(missingOkay, MissingHashMessage(key))
      ensures Healthy() && key in server.data && server.data[key].Flat? ==> r == Err(CommandError(HGetAllLabel(key), WrongType))
      ensures Healthy() && key in server.data && server.data[key].Hash? ==>
        exists items :: IsListing(items, server.data[key].fields)
          && r == HGetAllReply(key, Helper.ReplyDict(items), decodeValue, decodeResponse)
    {
      var n := Exists(key);
      if n.Err? {
        return Err(n.error);
      }
      if n.value == 0 {
        return Absent(missingOkay, MissingHashMessage(key));
      }
      var all := server.HGetAll(key);
      match all {
        case Err(ex) =>
          r := Err(CommandError(HGetAllLabel(key), ex));
        case Ok(items) =>
          r := HGetAllReply(key, Helper.ReplyDict(items), decodeValue, decodeResponse);
      }
    }
  }
}
