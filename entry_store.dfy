/**
 * `RedisEntry.store`, `fetch` and `delete` (src/redisent/models.py): an
 * entry with a non-empty `redis_name` lives in field `redis_name` of the hash
 * at `redis_id` (HSET, HGET, HDEL); any other entry is the string at
 * `redis_id` (SET, GET, DEL).
 */
module EntryStore {
  import opened Wrappers
  import opened PyValues
  import opened RedisErrors
  import opened RedisServer
  import opened Entries
  import opened Helper

  /**
   * The declared types of the identity fields: `redis_id: str` and
   * `redis_name: Optional[str]` (src/redisent/models.py:63-64).
   */
  predicate TextIdentity(e: Entry) {
    && HasIdentity(e)
    && e.attrs["redis_id"].VStr?
    && (e.attrs["redis_name"].VStr? || e.attrs["redis_name"].VNone?)
  }

  function IdOf(e: Entry): string
    requires TextIdentity(e)
  {
    e.attrs["redis_id"].s
  }

  /** The hash field of a hash entry; `None` and `''` are not truthy, so a hash entry's name is text. */
  function NameOf(e: Entry): string
    requires TextIdentity(e) && IsHashmap(e)
  {
    e.attrs["redis_name"].s
  }

  /**
   * The hash field the entry's commands use: its `redis_name` when truthy,
   * else none at all (`if not self.redis_name`), whether it is `None` or `''`.
   */
  function NameArg(e: Entry): (o: Option<string>)
    requires TextIdentity(e)
    ensures Given(o) <==> IsHashmap(e)
    ensures o.Some? <==> IsHashmap(e)
    ensures o.Some? ==> e.attrs["redis_name"] == VStr(o.value)
  {
    if IsHashmap(e) then Some(NameOf(e)) else None
  }

  function StoreOp(id: string, name: Option<string>): string {
    if !Given(name) then "set(key=" + Quoted(id) + ")"
    else "hset(key=" + Quoted(id) + ", name=" + Quoted(name.value) + ")"
  }

  function FetchOp(id: string, name: Option<string>): string {
    if !Given(name) then "get(key=" + Quoted(id) + ")"
    else "hget(key=" + Quoted(id) + ", name=" + Quoted(name.value) + ")"
  }

  function EntryDeleteOp(id: string, name: Option<string>): string {
    if Given(name) then "hdel(" + Quoted(id) + ", " + Quoted(name.value) + ")" else "delete(" + Quoted(id) + ")"
  }

  /** The store after writing `b` where an entry with these names lives. */
  function Written(d: Data, id: string, name: Option<string>, b: Blob): Data
    requires Given(name) && id in d ==> d[id].Hash?
  {
    if Given(name) then d[id := Hash(FieldsOf(d, id)[name.value := b])] else d[id := Flat(b)]
  }

  /** What GET or HGET answers for the entry with these names. */
  function Reply(d: Data, id: string, name: Option<string>): Result<Value, Exc> {
    if !Given(name) then
      if id !in d then Ok(VNone) else if d[id].Flat? then Ok(VBytes(d[id].blob)) else Err(WrongType)
    else
      if id in d && d[id].Flat? then Err(WrongType)
      else if name.value in FieldsOf(d, id) then Ok(VBytes(FieldsOf(d, id)[name.value]))
      else Ok(VNone)
  }

  function NoDataMessage(id: string, name: Option<string>): string {
    "Failure during fetch of key " + Quoted(id) + (if Given(name) then " of entry " + Quoted(name.value) else "") +
    ": No data returned"
  }

  /** What `fetch` gives on a healthy connection to a store holding `d`. */
  function FetchFrom(c: EntryClass, d: Data, id: string, name: Option<string>): (r: Result<Entry, Exc>)
    ensures r.Err? ==> r.error.Redis?
    ensures Reply(d, id, name).Ok? && !Truthy(Reply(d, id, name).value) ==>
      r == Err(Redis(NewError(CurrentErrors, NoDataMessage(id, name), None, None, None)))
  {
    match Reply(d, id, name)
    case Err(ex) => Err(CommandError(FetchOp(id, name), ex))
    case Ok(v) =>
      if !Truthy(v) then Err(Redis(NewError(CurrentErrors, NoDataMessage(id, name), None, None, None)))
      else DecodeEntry(c, v, VNone, VNone)
  }

  /** Fetching what was just written reads back the written bytes. */
  lemma ReplyAfterWrite(d: Data, id: string, name: Option<string>, b: Blob)
    requires Given(name) && id in d ==> d[id].Hash?
    ensures Reply(Written(d, id, name, b), id, name) == Ok(VBytes(b))
  {
  }

  /**
   * `store` then `fetch` with the same names gives the entry back, for a
   * flat entry whatever it holds, for a hash entry when its values survive
   * `asdict` (the round trip `encode_entry` and `decode_entry` make).
   */
  lemma StoreThenFetch(e: Entry, d: Data)
    requires TextIdentity(e) && Picklable(VEntry(e))
    requires IsHashmap(e) ==> HashRoundTrippable(e)
    requires IsHashmap(e) && IdOf(e) in d ==> d[IdOf(e)].Hash?
    ensures EncodeEntry(e, None).Ok?
    ensures FetchFrom(e.cls, Written(d, IdOf(e), NameArg(e), EncodeEntry(e, None).value), IdOf(e), NameArg(e)) == Ok(e)
  {
    var name := NameArg(e);
    if IsHashmap(e) {
      HashEntryRoundTrip(e);
    } else {
      FlatEntryRoundTrip(e.cls, e);
    }
    var b := EncodeEntry(e, None).value;
    ReplyAfterWrite(d, IdOf(e), name, b);
    assert b.Pickled?;
  }

  /**
   * `entry.store(helper)`: encodes the entry, then HSET into the hash at
   * `redis_id` when it has a `redis_name`, else SET; answers the reply's truth.
   */
  method Store(e: Entry, helper: RedisentHelper) returns (r: Result<bool, Exc>)
    requires TextIdentity(e)
    modifies helper.server
    ensures EncodeEntry(e, None).Err? ==> r == Err(EncodeEntry(e, None).error) && helper.server.data == old(helper.server.data)
    ensures EncodeEntry(e, None).Ok? && !helper.Healthy() ==>
      r == Err(helper.Failure(StoreOp(IdOf(e), NameArg(e)))) && helper.server.data == old(helper.server.data)
    ensures EncodeEntry(e, None).Ok? && helper.Healthy() ==>
      if IsHashmap(e) && IdOf(e) in old(helper.server.data) && old(helper.server.data)[IdOf(e)].Flat? then
        && r == Err(CommandError(StoreOp(IdOf(e), NameArg(e)), WrongType))
        && helper.server.data == old(helper.server.data)
      else
        && helper.server.data == Written(old(helper.server.data), IdOf(e), NameArg(e), EncodeEntry(e, None).value)
        && r == Ok(!IsHashmap(e) || NameOf(e) !in FieldsOf(old(helper.server.data), IdOf(e)))
    ensures old(helper.server.Valid()) ==> helper.server.Valid()
  {
    var encoded := EncodeEntry(e, None);
    if encoded.Err? {
      return Err(encoded.error);
    }
    var id, name := IdOf(e), NameArg(e);
    var op := StoreOp(id, name);
    if !helper.Healthy() {
      return Err(helper.Failure(op));
    }
    if !Given(name) {
      var ok := helper.server.Set(id, encoded.value);
      r := Ok(ok);
    } else {
      var res := helper.server.HSet(id, name.value, encoded.value);
      r := match res
        case Err(ex) => Err(CommandError(op, ex))
        case Ok(n) => Ok(n != 0);
    }
  }

  /**
   * `cls.fetch(helper, redis_id, redis_name)`: GET or HGET, a `RedisError`
   * when nothing comes back, else the decoded entry.
   */
  method Fetch(c: EntryClass, helper: RedisentHelper, id: string, name: Option<string>) returns (r: Result<Entry, Exc>)
    ensures !helper.Healthy() ==> r == Err(helper.Failure(FetchOp(id, name)))
    ensures helper.Healthy() ==> r == FetchFrom(c, helper.server.data, id, name)
  {
    var op := FetchOp(id, name);
    if !helper.Healthy() {
      return Err(helper.Failure(op));
    }
    var reply: Result<Value, Exc>;
    if !Given(name) {
      var v := helper.server.Get(id);
      reply := match v
        case Err(ex) => Err(ex)
        case Ok(x) => Ok(if x.Some? then VBytes(x.value) else VNone);
    } else {
      var v := helper.server.HGet(id, name.value);
      reply := match v
        case Err(ex) => Err(ex)
        case Ok(x) => Ok(if x.Some? then VBytes(x.value) else VNone);
    }
    match reply {
      case Err(ex) =>
        return Err(CommandError(op, ex));
      case Ok(entryBytes) =>
        if !Truthy(entryBytes) {
          return Err(Redis(NewError(CurrentErrors, NoDataMessage(id, name), None, None, None)));
        }
        r := DecodeEntry(c, entryBytes, VNone, VNone);
    }
  }

  /**
   * `entry.delete(helper, check_exists)`: `False` without any delete when
   * the check finds nothing; else HDEL or DEL, and whether anything went.
   */
  method Delete(e: Entry, helper: RedisentHelper, checkExists: bool) returns (r: Result<bool, Exc>)
    requires TextIdentity(e)
    modifies helper.server
    ensures !helper.Healthy() ==>
      && r == Err(helper.Failure(if checkExists then ExistsOp(IdOf(e), NameArg(e)) else EntryDeleteOp(IdOf(e), NameArg(e))))
      && helper.server.data == old(helper.server.data)
    ensures helper.Healthy() && checkExists && ProbeFails(old(helper.server.data), IdOf(e), NameArg(e)) ==>
      r == Err(CommandError(ExistsOp(IdOf(e), NameArg(e)), WrongType)) && helper.server.data == old(helper.server.data)
    ensures helper.Healthy() && checkExists && !ProbeFails(old(helper.server.data), IdOf(e), NameArg(e))
            && !Present(old(helper.server.data), IdOf(e), NameArg(e)) ==>
      r == Ok(false) && helper.server.data == old(helper.server.data)
    ensures helper.Healthy() && (!checkExists || Present(old(helper.server.data), IdOf(e), NameArg(e))) && !IsHashmap(e) ==>
      r == Ok(IdOf(e) in old(helper.server.data)) && helper.server.data == old(helper.server.data) - {IdOf(e)}
    ensures helper.Healthy() && (!checkExists || Present(old(helper.server.data), IdOf(e), NameArg(e))) && IsHashmap(e) ==>
      if IdOf(e) in old(helper.server.data) && old(helper.server.data)[IdOf(e)].Flat? then
        r == Err(CommandError(EntryDeleteOp(IdOf(e), NameArg(e)), WrongType)) && helper.server.data == old(helper.server.data)
      else
        && r == Ok(NameOf(e) in FieldsOf(old(helper.server.data), IdOf(e)))
        && helper.server.data == HDelResult(old(helper.server.data), IdOf(e), NameOf(e))
    ensures old(helper.server.Valid()) ==> helper.server.Valid()
  {
    var id, name := IdOf(e), NameArg(e);
    if checkExists {
      var present := helper.Exists(id, name);
      match present {
        case Err(ex) =>
          return Err(ex);
        case Ok(there) =>
          if !there {
            return Ok(false);
          }
      }
    }
    var op := EntryDeleteOp(id, name);
    if !helper.Healthy() {
      return Err(helper.Failure(op));
    }
    if Given(name) {
      var res := helper.server.HDel(id, name.value);
      r := match res
        case Err(ex) => Err(CommandError(op, ex))
        case Ok(n) => Ok(n != 0);
    } else {
      var n := helper.server.Delete(id);
      r := Ok(n != 0);
    }
  }
}
