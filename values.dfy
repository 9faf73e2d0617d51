/**
 * The Python values the entry layer handles: the results of Redis commands,
 * the attribute values of entries, the objects pickle turns into bytes and
 * back, and the exceptions raised along the way.
 */
module PyValues {
  import opened Wrappers

  /** The exception classes the source raises or catches. */
  datatype ExcKind =
    | ConnectionError      // redis.exceptions.ConnectionError
    | ResponseError        // redis.exceptions.ResponseError, e.g. a WRONGTYPE reply
    | DataError            // redis.exceptions.DataError: a value the client cannot send
    | PicklingError
    | UnpicklingError
    | EOFError
    | TypeError
    | AttributeError
    | UnicodeDecodeError
    | ValueError
    | NotImplementedError
    | PlainException       // a bare `Exception(...)` raised by the source itself

  /** Which of the repository's three `RedisError` classes built an error. */
  datatype ErrorClass =
    | CurrentErrors        // src/redisent/errors.py
    | LegacyErrors         // redisent/errors.py
    | PackageErrors        // redisent/helpers/__init__.py

  /** A raised exception: a foreign one (kind and text) or one of the source's `RedisError`s. */
  datatype Exc =
    | Exc(kind: ExcKind, text: string)
    | Redis(err: RedisError)

  /** The fields of a `RedisError` after its constructor ran. */
  datatype RedisError = RedisError(
    cls: ErrorClass,
    message: string,
    baseException: Option<Exc>,
    relatedCommand: Option<string>,
    extraAttrs: seq<(string, Value)>)

  /**
   * A `bytes` value. Its byte format is not modelled: it is either a pickle
   * stream of some value or the UTF-8 encoding of a text.
   */
  datatype Blob = Pickled(payload: Value) | Text(chars: string)

  /** A Python value. A float is identified by its `repr`; a dict is its items in insertion order. */
  datatype Value =
    | VNone
    | VBool(b: bool)
    | VInt(i: int)
    | VFloat(repr: string)
    | VStr(s: string)
    | VBytes(blob: Blob)
    | VList(elems: seq<Value>)
    | VDict(items: seq<(Value, Value)>)
    | VEntry(entry: Entry)
    | VObject(typeName: string, picklable: bool)

  /** One declared dataclass field and its metadata flags. */
  datatype FieldDesc = FieldDesc(
    name: string,
    redisField: bool,      // metadata `redis_field`
    internal: bool,        // metadata `internal_field`
    init: bool,            // `field(init=...)`
    default: Option<Value>)

  /** A dataclass deriving from `RedisEntry`: its name and fields in declaration order. */
  datatype EntryClass = EntryClass(name: string, fields: seq<FieldDesc>)

  /** An instance of an entry class: its class and the attributes it holds. */
  datatype Entry = Entry(cls: EntryClass, attrs: map<string, Value>)

  type Dict = seq<(Value, Value)>

  // ---------------------------------------------------------------- strings

  predicate StartsWith(s: string, prefix: string) {
    |prefix| <= |s| && s[..|prefix|] == prefix
  }

  predicate EndsWith(s: string, suffix: string) {
    |suffix| <= |s| && s[|s| - |suffix|..] == suffix
  }

  /** A Python `Optional[str]` argument is given when it is neither `None` nor empty. */
  predicate Given(o: Option<string>) {
    o.Some? && o.value != ""
  }

  function DigitChar(d: nat): char
    requires d < 10
  {
    "0123456789"[d]
  }

  function NatText(n: nat): (s: string)
    ensures |s| >= 1
    decreases n
  {
    if n < 10 then [DigitChar(n)] else NatText(n / 10) + [DigitChar(n % 10)]
  }

  /** `str(i)` for an int. */
  function IntText(i: int): string {
    if i < 0 then "-" + NatText(-i) else NatText(i)
  }

  // ------------------------------------------------------------ truthiness

  /** Python's `bool(v)`. */
  predicate Truthy(v: Value) {
    match v
    case VNone => false
    case VBool(b) => b
    case VInt(i) => i != 0
    case VFloat(r) => r != "0.0" && r != "-0.0"
    case VStr(s) => s != ""
    case VBytes(b) => !(b.Text? && b.chars == "")
    case VList(xs) => xs != []
    case VDict(d) => d != []
    case VEntry(_) => true
    case VObject(_, _) => true
  }

  /** Python's `a or b`: `a` when it is truthy, else `b`. */
  function Or(a: Value, b: Value): (r: Value)
    ensures Truthy(r) <==> Truthy(a) || Truthy(b)
  {
    if Truthy(a) then a else b
  }

  /** `type(v).__name__`. */
  function TypeName(v: Value): string {
    match v
    case VNone => "NoneType"
    case VBool(_) => "bool"
    case VInt(_) => "int"
    case VFloat(_) => "float"
    case VStr(_) => "str"
    case VBytes(_) => "bytes"
    case VList(_) => "list"
    case VDict(_) => "dict"
    case VEntry(e) => e.cls.name
    case VObject(t, _) => t
  }

  /**
   * `str(v)`: exact for None, bools, ints, floats and strings; for other
   * values a placeholder naming the type.
   */
  function PyStr(v: Value): string {
    match v
    case VNone => "None"
    case VBool(b) => if b then "True" else "False"
    case VInt(i) => IntText(i)
    case VFloat(r) => r
    case VStr(s) => s
    case _ => "<" + TypeName(v) + ">"
  }

  // ------------------------------------------------------------------ dicts

  function KeySet(d: Dict): set<Value> {
    set i | 0 <= i < |d| :: d[i].0
  }

  lemma KeySetCons(x: (Value, Value), rest: Dict)
    ensures KeySet([x] + rest) == {x.0} + KeySet(rest)
  {
    var d := [x] + rest;
    forall k | k in KeySet(rest) ensures k in KeySet(d) {
      var i :| 0 <= i < |rest| && rest[i].0 == k;
      assert d[i + 1].0 == k;
    }
    assert d[0].0 == x.0;
  }

  predicate DistinctKeys(d: Dict) {
    forall i, j :: 0 <= i < j < |d| ==> d[i].0 != d[j].0
  }

  /** `d.get(k)`. */
  function Lookup(d: Dict, k: Value): (r: Option<Value>)
    ensures r.Some? <==> k in KeySet(d)
  {
    if d == [] then None
    else if d[0].0 == k then Some(d[0].1)
    else
      KeySetCons(d[0], d[1..]);
      assert d == [d[0]] + d[1..];
      Lookup(d[1..], k)
  }

  /** `d[k] = v`: replaces the value in place when `k` is present, else appends. */
  function Insert(d: Dict, k: Value, v: Value): (r: Dict)
    ensures Lookup(r, k) == Some(v)
    ensures forall k' :: k' != k ==> Lookup(r, k') == Lookup(d, k')
    ensures KeySet(r) == KeySet(d) + {k}
    ensures |r| <= |d| + 1
  {
    if d == [] then [(k, v)]
    else if d[0].0 == k then
      KeySetCons(d[0], d[1..]);
      KeySetCons((k, v), d[1..]);
      assert d == [d[0]] + d[1..];
      [(k, v)] + d[1..]
    else
      var rest := Insert(d[1..], k, v);
      KeySetCons(d[0], d[1..]);
      KeySetCons(d[0], rest);
      assert d == [d[0]] + d[1..];
      [d[0]] + rest
  }

  /** Setting a key the dict does not have appends it at the end. */
  lemma {:induction false} InsertFresh(d: Dict, k: Value, v: Value)
    requires k !in KeySet(d)
    ensures Insert(d, k, v) == d + [(k, v)]
  {
    if d != [] {
      KeySetCons(d[0], d[1..]);
      assert d == [d[0]] + d[1..];
      InsertFresh(d[1..], k, v);
    }
  }

  /** `d.pop(k, None)` without its value: every item whose key is `k` goes. */
  function Remove(d: Dict, k: Value): (r: Dict)
    ensures Lookup(r, k) == None
    ensures forall k' :: k' != k ==> Lookup(r, k') == Lookup(d, k')
    ensures KeySet(r) == KeySet(d) - {k}
  {
    if d == [] then []
    else
      var rest := Remove(d[1..], k);
      KeySetCons(d[0], d[1..]);
      assert d == [d[0]] + d[1..];
      if d[0].0 == k then rest
      else
        KeySetCons(d[0], rest);
        [d[0]] + rest
  }

  // ----------------------------------------------------------------- pickle

  /** Whether `pickle.dumps` accepts `v`: every object inside must be picklable. */
  predicate Picklable(v: Value) {
    match v
    case VList(xs) => forall i | 0 <= i < |xs| :: Picklable(xs[i])
    case VDict(d) => forall i | 0 <= i < |d| :: Picklable(d[i].0) && Picklable(d[i].1)
    case VEntry(e) => forall n | n in e.attrs :: Picklable(e.attrs[n])
    case VObject(_, p) => p
    case _ => true
  }

  /** `pickle.dumps(v)`. */
  function Dumps(v: Value): (r: Result<Blob, Exc>)
    ensures r.Ok? <==> Picklable(v)
    ensures r.Ok? ==> Loads(VBytes(r.value)) == Ok(v)
    ensures r.Err? ==> r.error.Exc? && r.error.kind == PicklingError
  {
    if Picklable(v) then Ok(Pickled(v))
    else Err(Exc(PicklingError, "Can't pickle object of type " + TypeName(v)))
  }

  /** `pickle.loads(x)`. Bytes that hold a text are never a pickle stream here. */
  function Loads(x: Value): (r: Result<Value, Exc>)
    ensures r.Ok? <==> x.VBytes? && x.blob.Pickled?
    ensures r.Err? ==> r.error.Exc?
  {
    match x
    case VBytes(Pickled(v)) => Ok(v)
    case VBytes(Text(s)) =>
      if s == "" then Err(Exc(EOFError, "Ran out of input"))
      else Err(Exc(UnpicklingError, "invalid load key, '" + [s[0]] + "'."))
    case _ => Err(Exc(TypeError, "a bytes-like object is required, not '" + TypeName(x) + "'"))
  }

  /** The exceptions `pickle.PickleError` covers. */
  predicate IsPickleError(ex: Exc) {
    ex.Exc? && (ex.kind == PicklingError || ex.kind == UnpicklingError)
  }

  // ------------------------------------------------------------------ bytes

  /** `b.decode('utf-8')`: a pickle stream starts with byte 0x80, which is not UTF-8. */
  function DecodeUtf8(b: Blob): (r: Result<string, Exc>)
    ensures r.Ok? <==> b.Text?
    ensures b.Text? ==> r == Ok(b.chars)
  {
    match b
    case Text(s) => Ok(s)
    case Pickled(_) =>
      Err(Exc(UnicodeDecodeError, "'utf-8' codec can't decode byte 0x80 in position 0: invalid start byte"))
  }

  /** What redis-py's encoder sends for a key or value: bytes as they are, str/int/float as text. */
  function WireEncode(v: Value): (r: Result<Blob, Exc>)
    ensures r.Ok? <==> (v.VBytes? || v.VStr? || v.VInt? || v.VFloat?)
    ensures v.VStr? ==> r == Ok(Text(v.s))
    ensures v.VBytes? ==> r == Ok(v.blob)
  {
    match v
    case VBytes(b) => Ok(b)
    case VStr(s) => Ok(Text(s))
    case VInt(i) => Ok(Text(IntText(i)))
    case VFloat(r) => Ok(Text(r))
    case _ =>
      Err(Exc(DataError, "Invalid input of type: '" + TypeName(v) + "'. Convert to a bytes, string, int or float first."))
  }
}
