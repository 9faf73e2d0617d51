/**
 * The class-level codec of `BaseRedisHelper` (redisent/redishelper.py):
 * key conversion, pickling of entries and mappings with `RedisError`s that
 * name the key, and the value codec the `RedisHelper` commands use.
 */
module LegacyCodec {
  import opened Wrappers
  import opened PyValues
  import opened RedisErrors
  import opened LegacyModels
  import Entries

  /** A `RedisError` of redisent/errors.py. */
  function LegacyError(message: string, base: Option<Exc>, extra: Option<seq<(string, Value)>>): (e: Exc)
    ensures e.Redis? && e.err.cls == LegacyErrors && e.err.message == message && e.err.baseException == base
    ensures e.err.relatedCommand == Some("Unknown")
  {
    Redis(NewError(LegacyErrors, message, base, None, extra))
  }

  // ---------------------------------------------------------- key conversion

  /** What a key becomes: text for bytes holding text, anything else as it is. */
  function Converted(k: Value): Value {
    if k.VBytes? && k.blob.Text? then VStr(k.blob.chars) else k
  }

  /** `k.decode('utf-8') if isinstance(k, bytes) else k`. */
  function ConvertKey(k: Value): (r: Result<Value, Exc>)
    ensures r.Ok? <==> !(k.VBytes? && k.blob.Pickled?)
    ensures r.Ok? ==> r.value == Converted(k)
    ensures r.Err? ==> r.error.Exc? && r.error.kind == UnicodeDecodeError
  {
    match k
    case VBytes(b) =>
      (match DecodeUtf8(b)
       case Ok(s) => Ok(VStr(s))
       case Err(ex) => Err(ex))
    case _ => Ok(k)
  }

  predicate KeysDecode(d: Dict) {
    forall i | 0 <= i < |d| :: ConvertKey(d[i].0).Ok?
  }

  /** Distinct keys stay distinct once converted. */
  predicate ConvertedDistinct(d: Dict) {
    forall i, j | 0 <= i < j < |d| :: Converted(d[i].0) != Converted(d[j].0)
  }

  /** `convert_keys_to_unicode(entry)`: the dict comprehension, item by item. */
  function ConvertKeys(d: Dict): (r: Result<Dict, Exc>)
    ensures r.Ok? <==> KeysDecode(d)
  {
    if d == [] then Ok([])
    else
      var last := d[|d| - 1];
      match ConvertKeys(d[..|d| - 1])
      case Err(ex) => Err(ex)
      case Ok(acc) =>
        match ConvertKey(last.0)
        case Err(ex) => Err(ex)
        case Ok(k) => Ok(Insert(acc, k, last.1))
  }

  function Relabelled(d: Dict): (r: Dict)
    ensures |r| == |d|
    ensures forall i | 0 <= i < |d| :: r[i] == (Converted(d[i].0), d[i].1)
  {
    seq(|d|, i requires 0 <= i < |d| => (Converted(d[i].0), d[i].1))
  }

  /**
   * When no two keys convert to the same text, `convert_keys_to_unicode`
   * renames the keys in place and keeps every value and the order.
   */
  lemma {:induction false} ConvertKeysRelabels(d: Dict)
    requires KeysDecode(d) && ConvertedDistinct(d)
    ensures ConvertKeys(d) == Ok(Relabelled(d))
  {
    if d != [] {
      var n := |d| - 1;
      var front := d[..n];
      ConvertKeysRelabels(front);
      var acc := Relabelled(front);
      var k := Converted(d[n].0);
      forall i | 0 <= i < n ensures acc[i].0 != k {
        assert front[i] == d[i];
      }
      InsertFresh(acc, k, d[n].1);
      assert Relabelled(d) == acc + [(k, d[n].1)];
    }
  }

  /** A dict already keyed by text comes back unchanged. */
  lemma TextKeysUnchanged(d: Dict)
    requires DistinctKeys(d) && forall i | 0 <= i < |d| :: d[i].0.VStr?
    ensures ConvertKeys(d) == Ok(d)
  {
    ConvertKeysRelabels(d);
    assert Relabelled(d) == d;
  }

  // ----------------------------------------------------------- pickle codec

  /** Every value is a pickle stream, which is what `pickle.loads` accepts. */
  predicate AllPickled(d: Dict) {
    forall i | 0 <= i < |d| :: d[i].1.VBytes? && d[i].1.blob.Pickled?
  }

  /** `pickle.loads` of every value, keys kept: the comprehension in `hgetall`. */
  function LoadsAll(d: Dict): (r: Result<Dict, Exc>)
    ensures r.Err? ==> r.error.Exc?
  {
    if d == [] then Ok([])
    else
      var last := d[|d| - 1];
      match LoadsAll(d[..|d| - 1])
      case Err(ex) => Err(ex)
      case Ok(acc) =>
        match Loads(last.1)
        case Err(ex) => Err(ex)
        case Ok(v) => Ok(Insert(acc, last.0, v))
  }

  /** The comprehension succeeds exactly when every value is a pickle stream. */
  lemma {:induction false} LoadsAllSucceeds(d: Dict)
    ensures LoadsAll(d).Ok? <==> AllPickled(d)
  {
    if d != [] {
      var n := |d| - 1;
      var front := d[..n];
      LoadsAllSucceeds(front);
      var lastPickled := d[n].1.VBytes? && d[n].1.blob.Pickled?;
      if AllPickled(d) {
        forall i | 0 <= i < n ensures front[i].1.VBytes? && front[i].1.blob.Pickled? {
          assert front[i] == d[i];
        }
      } else if AllPickled(front) && lastPickled {
        forall i | 0 <= i < |d| ensures d[i].1.VBytes? && d[i].1.blob.Pickled? {
          if i < n { assert front[i] == d[i]; }
        }
      }
    }
  }

  function Unpickled(d: Dict): (r: Dict)
    requires AllPickled(d)
    ensures |r| == |d|
    ensures forall i | 0 <= i < |d| :: r[i].0 == d[i].0 && Loads(d[i].1) == Ok(r[i].1)
  {
    seq(|d|, i requires 0 <= i < |d| => (d[i].0, d[i].1.blob.payload))
  }

  /** With distinct keys, `hgetall`'s comprehension unpickles every value in place. */
  lemma {:induction false} LoadsAllInPlace(d: Dict)
    requires DistinctKeys(d) && AllPickled(d)
    ensures LoadsAll(d) == Ok(Unpickled(d))
  {
    if d != [] {
      var n := |d| - 1;
      var front := d[..n];
      assert AllPickled(front) by {
        forall i | 0 <= i < n ensures front[i] == d[i] { }
      }
      assert DistinctKeys(front) by {
        forall i, j | 0 <= i < j < n ensures front[i].0 != front[j].0 {
          assert front[i] == d[i] && front[j] == d[j];
        }
      }
      LoadsAllInPlace(front);
      var acc := Unpickled(front);
      assert d[n].0 !in KeySet(acc) by {
        forall i | 0 <= i < n ensures acc[i].0 != d[n].0 {
          assert acc[i].0 == front[i].0 == d[i].0;
        }
      }
      var v := d[n].1.blob.payload;
      assert Loads(d[n].1) == Ok(v);
      InsertFresh(acc, d[n].0, v);
      assert LoadsAll(d) == Ok(Insert(acc, d[n].0, v));
      var whole := Unpickled(d);
      assert whole == acc + [(d[n].0, v)] by {
        forall i | 0 <= i < |d| ensures whole[i] == (acc + [(d[n].0, v)])[i] {
          if i < n { assert front[i] == d[i]; }
        }
      }
    }
  }

  /** The text `f'{x}'` gives for an identity value that may be missing. */
  function Shown(v: Value): string {
    PyStr(v)
  }

  /** The message `encode_entry` raises with when pickling fails. */
  function EncodeFailure(mapping: Dict, ex: Exc): string {
    var id := Lookup(mapping, VStr("redis_id")).GetOr(VNone);
    var name := Lookup(mapping, VStr("redis_name")).GetOr(VNone);
    "Error while encoding entry for key \"" + Shown(Or(id, VStr("Unknown"))) +
    (if Truthy(name) then " (entry: " + Shown(name) + ")" else "") + " using Pickle: " + ExcText(ex)
  }

  /** Pickling a mapping, as the second half of `encode_entry` does it. */
  function EncodeMapping(mapping: Dict): (r: Result<Blob, Exc>)
    ensures r.Ok? <==> Picklable(VDict(mapping))
    ensures r.Ok? ==> Loads(VBytes(r.value)) == Ok(VDict(mapping))
    ensures r.Err? ==> r.error.Redis? && r.error.err.cls == LegacyErrors
    ensures r.Err? ==> r.error.err.extraAttrs == [("entry", VDict(mapping))]
    ensures r.Err? ==> StartsWith(r.error.err.message, "Error while encoding entry for key \"")
  {
    match Dumps(VDict(mapping))
    case Ok(b) => Ok(b)
    case Err(ex) =>
      var msg := EncodeFailure(mapping, ex);
      var head := "Error while encoding entry for key \"";
      assert msg[..|head|] == head;
      Err(LegacyError(msg, Some(ex), Some([("entry", VDict(mapping))])))
  }

  /** An entry or a mapping, the two things `encode_entry` accepts. */
  predicate Encodable(v: Value) {
    v.VEntry? || v.VDict?
  }

  /**
   * `encode_entry` as written: it asks `as_dict` for keyword arguments the
   * older `RedisEntry.as_dict` does not take, so every entry fails.
   */
  function EncodeEntryAsWritten(v: Value): (r: Result<Blob, Exc>)
    requires Encodable(v)
  {
    match v
    case VEntry(_) => Err(Exc(TypeError, "as_dict() got an unexpected keyword argument 'include_redis_attrs'"))
    case VDict(d) => EncodeMapping(d)
  }

  lemma EncodeEntryAsWrittenRejectsEntries(e: Entry)
    ensures EncodeEntryAsWritten(VEntry(e)).Err?
    ensures EncodeEntryAsWritten(VEntry(e)).error.Exc? && EncodeEntryAsWritten(VEntry(e)).error.kind == TypeError
  {
  }

  /** The mapping `encode_entry` pickles: the entry's `as_dict()`, or the mapping itself. */
  function MappingOf(v: Value): (r: Result<Dict, Exc>)
    requires Encodable(v)
    ensures v.VDict? ==> r == Ok(v.items)
    ensures v.VEntry? ==> r == AsDict(v.entry)
  {
    match v
    case VEntry(e) => AsDict(e)
    case VDict(d) => Ok(d)
  }

  /** `encode_entry`, with the entry converted by `as_dict()`. */
  function EncodeEntry(v: Value): (r: Result<Blob, Exc>)
    requires Encodable(v)
    ensures MappingOf(v).Err? ==> r == Err(MappingOf(v).error)
    ensures MappingOf(v).Ok? ==> r == EncodeMapping(MappingOf(v).value)
  {
    match MappingOf(v)
    case Err(ex) => Err(ex)
    case Ok(d) => EncodeMapping(d)
  }

  /** `decode_entry(entry_bytes, key, name)`: unpickle, or a `RedisError` naming the key (and entry). */
  function DecodeEntry(entryBytes: Value, key: string, name: Option<string>): (r: Result<Value, Exc>)
    ensures r.Ok? <==> entryBytes.VBytes? && entryBytes.blob.Pickled?
    ensures r.Ok? ==> r.value == entryBytes.blob.payload
    ensures r.Err? ==> r.error.Redis? && r.error.err.cls == LegacyErrors && r.error.err.baseException.Some?
  {
    match Loads(entryBytes)
    case Ok(x) => Ok(x)
    case Err(ex) =>
      var nameText := if Given(name) then " (entry: " + name.value + ")" else "";
      Err(LegacyError("Error while decoding entry for key \"" + key + "\"" + nameText + " using Pickle: " + ExcText(ex),
                      Some(ex), None))
  }

  /** What `encode_entry` writes, `decode_entry` reads back as the mapping. */
  lemma DecodeInvertsEncode(v: Value, key: string, name: Option<string>)
    requires Encodable(v) && EncodeEntry(v).Ok?
    ensures MappingOf(v).Ok?
    ensures DecodeEntry(VBytes(EncodeEntry(v).value), key, name) == Ok(VDict(MappingOf(v).value))
  {
  }

  /** A reminder written by `encode_entry` comes back from `decode_entry` and `from_dict` as itself. */
  lemma ReminderRoundTrip(r: Entry, key: string)
    requires IsReminder(r) && PlainAttrs(r) && Picklable(VEntry(r))
    ensures EncodeEntry(VEntry(r)).Ok?
    ensures var back := DecodeEntry(VBytes(EncodeEntry(VEntry(r)).value), key, None);
      back.Ok? && back.value.VDict? && ReminderFromDict(back.value.items) == Ok(r)
  {
    FromDictInvertsAsDict(r);
    AsDictItems(r);
    var d := AsDict(r).value;
    assert Picklable(VDict(d)) by {
      forall i | 0 <= i < |d| ensures Picklable(d[i].0) && Picklable(d[i].1) {
        var n := KeptNames(r.cls.fields)[i];
        assert d[i] == (VStr(n), Entries.Deep(r.attrs[n]));
        assert Entries.Deep(r.attrs[n]) == r.attrs[n];
        assert Picklable(r.attrs[n]);
      }
    }
  }

  /** The values redis-py sends as they are. */
  predicate Native(v: Value) {
    v.VBytes? || v.VStr? || v.VInt? || v.VFloat?
  }

  /** `encode_redis_value` as written: the entry branch passes a keyword `as_dict` does not take. */
  function EncodeRedisValueAsWritten(v: Value): (r: Result<Value, Exc>)
    ensures v.VEntry? ==> r.Err? && r.error.Exc? && r.error.kind == TypeError
    ensures !v.VEntry? ==> r == EncodeRedisValue(v)
  {
    match v
    case VEntry(_) => Err(Exc(TypeError, "as_dict() got an unexpected keyword argument 'include_redis_attrs'"))
    case VDict(d) =>
      (match EncodeMapping(d)
       case Ok(b) => Ok(VBytes(b))
       case Err(ex) => Err(ex))
    case _ => Ok(v)
  }

  /** `encode_redis_value`: entries and mappings become pickled bytes, everything else passes through. */
  function EncodeRedisValue(v: Value): (r: Result<Value, Exc>)
    ensures !Encodable(v) ==> r == Ok(v)
    ensures Encodable(v) && EncodeEntry(v).Ok? ==> r == Ok(VBytes(EncodeEntry(v).value))
    ensures Encodable(v) && EncodeEntry(v).Err? ==> r == Err(EncodeEntry(v).error)
  {
    if Encodable(v) then
      match EncodeEntry(v)
      case Ok(b) => Ok(VBytes(b))
      case Err(ex) => Err(ex)
    else Ok(v)
  }

  /**
   * `decode_redis_value`: bytes go through `decode_entry`; anything else is
   * returned as it is (the text branch after it can never be reached).
   */
  function DecodeRedisValue(v: Value, key: string, name: Option<string>): (r: Result<Value, Exc>)
    ensures !v.VBytes? ==> r == Ok(v)
    ensures v.VBytes? ==> r == DecodeEntry(v, key, name)
  {
    if v.VBytes? then DecodeEntry(v, key, name) else Ok(v)
  }

  /** Decoding what `encode_redis_value` produced gives the mapping back, or the native value unchanged. */
  lemma DecodeRedisValueInvertsEncode(v: Value, key: string, name: Option<string>)
    requires EncodeRedisValue(v).Ok? && !v.VBytes?
    ensures Encodable(v) ==> DecodeRedisValue(EncodeRedisValue(v).value, key, name) == Ok(VDict(MappingOf(v).value))
    ensures !Encodable(v) ==> DecodeRedisValue(EncodeRedisValue(v).value, key, name) == Ok(v)
  {
  }

  /**
   * `parse_response(value, key, name, entry_cls, decode_value)`: a truthy
   * unpickled value is returned (with `entry_cls` it goes to `from_dict`
   * with the helper as the dict and the mapping as keywords, which no call
   * accepts); otherwise the bytes themselves, as text when asked. Only
   * `UnpicklingError` is caught.
   */
  function ParseResponse(value: Value, withEntryClass: bool, decodeValue: bool): (r: Result<Value, Exc>)
    ensures value.VBytes? && value.blob.Pickled? && Truthy(value.blob.payload) ==>
      r == (if withEntryClass then Err(Exc(TypeError, "from_dict() got an unexpected keyword argument")) else Ok(value.blob.payload))
    ensures value.VBytes? && value.blob.Text? && value.blob.chars != "" ==>
      r == Ok(if decodeValue then VStr(value.blob.chars) else value)
    ensures value.VBytes? && value.blob.Text? && value.blob.chars == "" ==> r.Err? && r.error.Exc? && r.error.kind == EOFError
    ensures !value.VBytes? ==> r.Err? && r.error.Exc? && r.error.kind == TypeError
  {
    var loaded: Result<Value, Exc> := match Loads(value)
      case Ok(x) => Ok(x)
      case Err(ex) => if ex.kind == UnpicklingError then Ok(VNone) else Err(ex);
    match loaded
    case Err(ex) => Err(ex)
    case Ok(valMapping) =>
      if Truthy(valMapping) then
        if withEntryClass then Err(Exc(TypeError, "from_dict() got an unexpected keyword argument")) else Ok(valMapping)
      else if decodeValue then
        (match DecodeUtf8(value.blob)
         case Ok(s) => Ok(VStr(s))
         case Err(ex) => Err(ex))
      else Ok(value)
  }

  /** A pickle of a falsy value is not taken for a pickle: its bytes are decoded as text, which fails. */
  lemma ParseResponseFalsyPickle(x: Value)
    requires !Truthy(x)
    ensures ParseResponse(VBytes(Pickled(x)), false, true).Err?
    ensures ParseResponse(VBytes(Pickled(x)), false, false) == Ok(VBytes(Pickled(x)))
  {
  }
}
