/**
 * The entry classes of the older package (redisent/models.py): a base
 * `RedisEntry` whose `redis_id` is set by subclasses, its `as_dict`, and the
 * `Reminder` entry with its key and its `from_dict` builder. Entries are
 * values here; `__post_init__` returns the updated entry.
 */
module LegacyModels {
  import opened Wrappers
  import opened PyValues
  import opened Entries

  /** A field of the older schema, which carries no metadata. */
  function Declared(name: string, init: bool, default: Option<Value>): FieldDesc {
    FieldDesc(name, false, false, init, default)
  }

  /** `redis_id: str = field(init=False)`, without a default, and `store_encoded: bool = True`. */
  const BaseFields: seq<FieldDesc> := [Declared("redis_id", false, None), Declared("store_encoded", true, Some(VBool(true)))]

  const RedisEntryClass := EntryClass("RedisEntry", BaseFields)

  /** `Reminder`: the base fields, then its own, each defaulting to `str()`, `float()` or False. */
  const ReminderClass := EntryClass("Reminder", BaseFields + [
    Declared("member_id", true, Some(VStr(""))),
    Declared("trigger_ts", true, Some(VFloat("0.0"))),
    Declared("created_ts", true, Some(VFloat("0.0"))),
    Declared("member_name", true, Some(VStr(""))),
    Declared("channel_id", true, Some(VStr(""))),
    Declared("channel_name", true, Some(VStr(""))),
    Declared("provided_when", true, Some(VStr(""))),
    Declared("content", true, Some(VStr(""))),
    Declared("is_complete", true, Some(VBool(false)))])

  lemma NameSetSnoc(fs: seq<FieldDesc>, f: FieldDesc)
    ensures NameSet(fs + [f]) == NameSet(fs) + {f.name}
  {
    assert forall g :: g in fs + [f] <==> g in fs || g == f;
  }

  lemma KeySetSnoc(d: Dict, x: (Value, Value))
    ensures KeySet(d + [x]) == KeySet(d) + {x.0}
  {
    var e := d + [x];
    forall k | k in KeySet(d) ensures k in KeySet(e) {
      var i :| 0 <= i < |d| && d[i].0 == k;
      assert e[i].0 == k;
    }
    assert e[|d|].0 == x.0;
  }

  // ---------------------------------------------------------------- as_dict

  /** The names `as_dict` keeps: not private, not `redis_id`, not `store_encoded`. */
  predicate LegacyKeep(name: string) {
    !StartsWith(name, "_") && name != "redis_id" && name != "store_encoded"
  }

  /** `{attr: val for attr, val in items if <attr is kept>}`. */
  function KeepItems(d: Dict): (r: Dict)
    ensures |r| <= |d|
  {
    if d == [] then []
    else
      var it := d[|d| - 1];
      KeepItems(d[..|d| - 1]) + (if it.0.VStr? && LegacyKeep(it.0.s) then [it] else [])
  }

  /** The declared names `as_dict` keeps, in declaration order. */
  function KeptNames(fs: seq<FieldDesc>): (ns: seq<string>)
    ensures forall n :: n in ns <==> n in NameSet(fs) && LegacyKeep(n)
  {
    if fs == [] then []
    else
      var f := fs[|fs| - 1];
      assert fs == fs[..|fs| - 1] + [f];
      NameSetSnoc(fs[..|fs| - 1], f);
      KeptNames(fs[..|fs| - 1]) + (if LegacyKeep(f.name) then [f.name] else [])
  }

  /** Every declared field holds a value; `asdict` reads each of them. */
  predicate AllSet(e: Entry) {
    forall f | f in e.cls.fields :: f.name in e.attrs
  }

  /** `RedisEntry.as_dict()`: `asdict` fails on a field that was never set. */
  function AsDict(e: Entry): (r: Result<Dict, Exc>)
    ensures r.Ok? <==> AllSet(e)
    ensures r.Err? ==> r.error.Exc? && r.error.kind == AttributeError
  {
    if AllSet(e) then Ok(KeepItems(DictOf(e, e.cls.fields)))
    else Err(Exc(AttributeError, "'" + e.cls.name + "' object has no attribute"))
  }

  lemma {:induction false} KeepDictOf(e: Entry, fs: seq<FieldDesc>)
    requires forall f | f in fs :: f.name in e.attrs
    ensures forall n | n in KeptNames(fs) :: n in e.attrs
    ensures KeepItems(DictOf(e, fs)) == ItemsFor(e, KeptNames(fs))
  {
    if fs != [] {
      var n := |fs| - 1;
      var f := fs[n];
      KeepDictOf(e, fs[..n]);
      var d := DictOf(e, fs);
      assert d == DictOf(e, fs[..n]) + [(VStr(f.name), Deep(e.attrs[f.name]))];
      assert d[..|d| - 1] == DictOf(e, fs[..n]);
      if LegacyKeep(f.name) {
        ItemsForSnoc(e, KeptNames(fs[..n]), f.name);
      }
    }
  }

  /**
   * `as_dict` holds, in declaration order, every field but `redis_id`,
   * `store_encoded` and the private ones, each with its `asdict` value.
   */
  lemma AsDictItems(e: Entry)
    requires AllSet(e)
    ensures forall n | n in KeptNames(e.cls.fields) :: n in e.attrs
    ensures AsDict(e) == Ok(ItemsFor(e, KeptNames(e.cls.fields)))
  {
    KeepDictOf(e, e.cls.fields);
  }

  // ----------------------------------------------------------- construction

  /** With unique names, `cls(**kwargs)` sets exactly the fields that get a keyword or a default. */
  lemma ConstructAttrs(c: EntryClass, kwargs: map<string, Value>)
    requires DistinctNames(c.fields) && Construct(c, kwargs).Ok?
    ensures forall f | f in c.fields ::
      (f.name in Construct(c, kwargs).value.attrs <==> InitValue(f, kwargs).Some?)
    ensures forall f | f in c.fields && InitValue(f, kwargs).Some? ::
      Construct(c, kwargs).value.attrs[f.name] == InitValue(f, kwargs).value
    ensures Construct(c, kwargs).value.attrs.Keys <= NameSet(c.fields)
  {
    forall f | f in c.fields ensures FindField(c.fields, f.name) == Some(f) {
      FindDeclaredField(c.fields, f);
    }
  }

  /** A bare `RedisEntry()` never sets `redis_id`, so its `as_dict` fails. */
  lemma BaseEntryHasNoDict(kwargs: map<string, Value>)
    requires Construct(RedisEntryClass, kwargs).Ok?
    ensures AsDict(Construct(RedisEntryClass, kwargs).value).Err?
  {
    ConstructAttrs(RedisEntryClass, kwargs);
    assert BaseFields[0] in RedisEntryClass.fields;
  }

  // --------------------------------------------------------------- Reminder

  /**
   * The shape of `Reminder`: unique names, every field but `redis_id` set by
   * `__init__` and defaulted, and no private name.
   */
  predicate ReminderShape(c: EntryClass) {
    && DistinctNames(c.fields)
    && (forall f | f in c.fields :: f.init <==> f.name != "redis_id")
    && (forall f | f in c.fields :: f.init ==> f.default.Some?)
    && (forall f | f in c.fields :: !LegacyKeep(f.name) ==> f.name == "redis_id" || f.name == "store_encoded")
    && "redis_id" in NameSet(c.fields) && "store_encoded" in NameSet(c.fields)
  }

  /** No declared name of `Reminder` is private. */
  lemma NoPrivateNames()
    ensures forall f | f in ReminderClass.fields :: f.name != "" && f.name[0] != '_'
  {
    var fs := ReminderClass.fields;
    forall i | 0 <= i < |fs| ensures fs[i].name != "" && fs[i].name[0] != '_' { }
  }

  lemma ReminderNamesDistinct()
    ensures DistinctNames(ReminderClass.fields)
  {
  }

  lemma ReminderFlags()
    ensures forall f | f in ReminderClass.fields :: f.init <==> f.name != "redis_id"
    ensures forall f | f in ReminderClass.fields :: f.init ==> f.default.Some?
  {
  }

  lemma ReminderSchema()
    ensures ReminderShape(ReminderClass)
  {
    ReminderNamesDistinct();
    ReminderFlags();
    ReminderKeeps();
    ReminderBaseNames();
  }

  /** Only the two base fields are left out of a reminder's `as_dict`. */
  lemma ReminderKeeps()
    ensures forall f | f in ReminderClass.fields :: !LegacyKeep(f.name) ==> f.name == "redis_id" || f.name == "store_encoded"
  {
    NoPrivateNames();
    forall f | f in ReminderClass.fields ensures !StartsWith(f.name, "_") {
      assert f.name[..1][0] == f.name[0];
    }
  }

  lemma ReminderBaseNames()
    ensures "redis_id" in NameSet(ReminderClass.fields) && "store_encoded" in NameSet(ReminderClass.fields)
  {
    var fs := ReminderClass.fields;
    assert fs[0] in fs && fs[0].name == "redis_id";
    assert fs[1] in fs && fs[1].name == "store_encoded";
  }

  lemma ShapeInitFields(c: EntryClass)
    requires ReminderShape(c)
    ensures forall k :: InitField(c, k) <==> k in NameSet(c.fields) && k != "redis_id"
  {
    forall k ensures InitField(c, k) <==> k in NameSet(c.fields) && k != "redis_id" {
      if k in NameSet(c.fields) {
        var f :| f in c.fields && f.name == k;
        FindDeclaredField(c.fields, f);
      }
    }
  }

  /** An instance as `__post_init__` leaves it: every field set, id "reminders", `store_encoded` True. */
  predicate IsBuilt(c: EntryClass, e: Entry) {
    && e.cls == c
    && e.attrs.Keys == NameSet(c.fields)
    && "redis_id" in e.attrs && e.attrs["redis_id"] == VStr("reminders")
    && "store_encoded" in e.attrs && e.attrs["store_encoded"] == VBool(true)
  }

  predicate IsReminder(e: Entry) {
    IsBuilt(ReminderClass, e)
  }

  /** `Reminder.__post_init__`: whatever was passed, the id is "reminders" and `store_encoded` is True. */
  function PostInit(e: Entry): (r: Entry)
    ensures r.cls == e.cls
    ensures r.attrs.Keys == e.attrs.Keys + {"redis_id", "store_encoded"}
    ensures r.attrs["redis_id"] == VStr("reminders") && r.attrs["store_encoded"] == VBool(true)
    ensures forall n | n in e.attrs && n != "redis_id" && n != "store_encoded" :: r.attrs[n] == e.attrs[n]
  {
    e.(attrs := e.attrs["redis_id" := VStr("reminders")]["store_encoded" := VBool(true)])
  }

  /** The generated `__init__` of `c`, then `Reminder.__post_init__`. */
  function Instantiate(c: EntryClass, kwargs: map<string, Value>): (r: Result<Entry, Exc>)
    ensures r.Err? ==> r.error.Exc? && r.error.kind == TypeError
    ensures r.Ok? ==> r.value.cls == c
  {
    match Construct(c, kwargs)
    case Err(ex) => Err(ex)
    case Ok(e) => Ok(PostInit(e))
  }

  lemma InstantiateOk(c: EntryClass, kwargs: map<string, Value>)
    requires ReminderShape(c)
    ensures Instantiate(c, kwargs).Ok? <==> forall k | k in kwargs :: k in NameSet(c.fields) && k != "redis_id"
    ensures Instantiate(c, kwargs).Err? ==> Instantiate(c, kwargs).error == Exc(TypeError, "__init__() got an unexpected keyword argument")
  {
    ShapeInitFields(c);
  }

  lemma InstantiateFields(c: EntryClass, kwargs: map<string, Value>)
    requires ReminderShape(c) && Instantiate(c, kwargs).Ok?
    ensures IsBuilt(c, Instantiate(c, kwargs).value)
    ensures forall f | f in c.fields && LegacyKeep(f.name) ::
      Instantiate(c, kwargs).value.attrs[f.name] == (if f.name in kwargs then kwargs[f.name] else f.default.value)
  {
    ConstructedNames(c, kwargs);
    ConstructedValues(c, kwargs);
    assert Instantiate(c, kwargs).value == PostInit(Construct(c, kwargs).value);
  }

  /** Under the `Reminder` shape, `__init__` sets every field but `redis_id`. */
  lemma ConstructedNames(c: EntryClass, kwargs: map<string, Value>)
    requires ReminderShape(c) && Construct(c, kwargs).Ok?
    ensures Construct(c, kwargs).value.attrs.Keys + {"redis_id", "store_encoded"} == NameSet(c.fields)
  {
    ConstructAttrs(c, kwargs);
    var e := Construct(c, kwargs).value;
    forall n | n in NameSet(c.fields) && n != "redis_id" ensures n in e.attrs {
      var f :| f in c.fields && f.name == n;
    }
  }

  /** Each kept field holds its keyword argument or its default. */
  lemma ConstructedValues(c: EntryClass, kwargs: map<string, Value>)
    requires ReminderShape(c) && Construct(c, kwargs).Ok?
    ensures forall f | f in c.fields && LegacyKeep(f.name) ::
      && f.name in Construct(c, kwargs).value.attrs
      && Construct(c, kwargs).value.attrs[f.name] == (if f.name in kwargs then kwargs[f.name] else f.default.value)
  {
    ConstructAttrs(c, kwargs);
  }

  /** `Reminder(**kwargs)`. */
  function NewReminder(kwargs: map<string, Value>): (r: Result<Entry, Exc>)
    ensures r.Ok? <==> forall k | k in kwargs :: k in NameSet(ReminderClass.fields) && k != "redis_id"
    ensures r.Err? ==> r.error == Exc(TypeError, "__init__() got an unexpected keyword argument")
  {
    ReminderSchema();
    InstantiateOk(ReminderClass, kwargs);
    Instantiate(ReminderClass, kwargs)
  }

  /**
   * A new reminder has every declared field, the id "reminders", `store_encoded`
   * True whatever was passed, and each other field from its keyword argument
   * or its default.
   */
  lemma NewReminderFields(kwargs: map<string, Value>)
    requires NewReminder(kwargs).Ok?
    ensures IsReminder(NewReminder(kwargs).value)
    ensures forall f | f in ReminderClass.fields && LegacyKeep(f.name) :: f.default.Some?
    ensures forall f | f in ReminderClass.fields && LegacyKeep(f.name) ::
      NewReminder(kwargs).value.attrs[f.name] == (if f.name in kwargs then kwargs[f.name] else f.default.value)
  {
    ReminderSchema();
    InstantiateFields(ReminderClass, kwargs);
  }

  /** `reminder_key`: the member id, a colon, then the trigger time. */
  function ReminderKey(e: Entry): (k: string)
    requires "member_id" in e.attrs && "trigger_ts" in e.attrs
    ensures |k| == |PyStr(e.attrs["member_id"])| + 1 + |PyStr(e.attrs["trigger_ts"])|
  {
    PyStr(e.attrs["member_id"]) + ":" + PyStr(e.attrs["trigger_ts"])
  }

  lemma ColonAt(m: string, t: string)
    ensures (m + ":" + t)[|m|] == ':'
  {
  }

  lemma TextAt(m: string, t: string, i: nat)
    requires i < |m|
    ensures (m + ":" + t)[i] == m[i] && m[i] in m
  {
  }

  /** When member ids hold no colon, the key tells both the member id and the trigger time apart. */
  lemma ReminderKeyInjective(a: Entry, b: Entry)
    requires "member_id" in a.attrs && "trigger_ts" in a.attrs
    requires "member_id" in b.attrs && "trigger_ts" in b.attrs
    requires ':' !in PyStr(a.attrs["member_id"]) && ':' !in PyStr(b.attrs["member_id"])
    requires ReminderKey(a) == ReminderKey(b)
    ensures PyStr(a.attrs["member_id"]) == PyStr(b.attrs["member_id"])
    ensures PyStr(a.attrs["trigger_ts"]) == PyStr(b.attrs["trigger_ts"])
  {
    var ma, mb := PyStr(a.attrs["member_id"]), PyStr(b.attrs["member_id"]);
    var ka, kb := ReminderKey(a), ReminderKey(b);
    if |ma| < |mb| {
      ColonAt(ma, PyStr(a.attrs["trigger_ts"]));
      assert false;
    } else if |mb| < |ma| {
      ColonAt(mb, PyStr(b.attrs["trigger_ts"]));
      assert false;
    }
    assert ma == ka[..|ma|] && mb == kb[..|mb|];
    assert PyStr(a.attrs["trigger_ts"]) == ka[|ma| + 1..];
    assert PyStr(b.attrs["trigger_ts"]) == kb[|mb| + 1..];
  }

  // -------------------------------------------------------------- from_dict

  /** The keyword arguments `from_dict` collects: every item whose key names a declared field of `c`. */
  function FromDictKwargs(c: EntryClass, d: Dict): (m: map<string, Value>)
    ensures forall n :: n in m <==> VStr(n) in KeySet(d) && n in NameSet(c.fields)
  {
    if d == [] then map[]
    else
      var it := d[|d| - 1];
      assert d == d[..|d| - 1] + [it];
      KeySetSnoc(d[..|d| - 1], it);
      var m := FromDictKwargs(c, d[..|d| - 1]);
      if it.0.VStr? && it.0.s in NameSet(c.fields) then m[it.0.s := it.1] else m
  }

  /** `Reminder.from_dict(entry_dict)`. */
  function ReminderFromDict(d: Dict): (r: Result<Entry, Exc>) {
    NewReminder(FromDictKwargs(ReminderClass, d))
  }

  /**
   * `from_dict` drops keys naming no field, but passes `redis_id` on to
   * `__init__`, which does not accept it: it fails exactly on those dicts,
   * and otherwise builds a reminder.
   */
  lemma FromDictFailsOnlyOnRedisId(d: Dict)
    ensures ReminderFromDict(d).Err? <==> VStr("redis_id") in KeySet(d)
    ensures ReminderFromDict(d).Err? ==> ReminderFromDict(d).error == Exc(TypeError, "__init__() got an unexpected keyword argument")
    ensures ReminderFromDict(d).Ok? ==> IsReminder(ReminderFromDict(d).value)
  {
    ReminderSchema();
    if ReminderFromDict(d).Ok? {
      NewReminderFields(FromDictKwargs(ReminderClass, d));
    }
  }

  /** The loop of `from_dict` over the items of `entry_dict`. */
  method FromDict(entryDict: Dict) returns (r: Result<Entry, Exc>)
    ensures r == ReminderFromDict(entryDict)
  {
    var kwargs: map<string, Value> := map[];
    var flds := NameSet(ReminderClass.fields);
    for i := 0 to |entryDict|
      invariant kwargs == FromDictKwargs(ReminderClass, entryDict[..i])
    {
      var (fld, val) := entryDict[i];
      assert entryDict[..i + 1][..i] == entryDict[..i];
      if !(fld.VStr? && fld.s in flds) {
        continue;
      }
      kwargs := kwargs[fld.s := val];
    }
    assert entryDict[..|entryDict|] == entryDict;
    r := NewReminder(kwargs);
  }

  /** Attribute values `asdict` passes through unchanged. */
  predicate PlainAttrs(e: Entry) {
    forall n | n in e.attrs :: !(e.attrs[n].VEntry? || e.attrs[n].VList? || e.attrs[n].VDict?)
  }

  lemma {:induction false} KwargsOfItems(c: EntryClass, e: Entry, ns: seq<string>)
    requires forall n | n in ns :: n in e.attrs && n in NameSet(c.fields)
    ensures forall n :: n in FromDictKwargs(c, ItemsFor(e, ns)) <==> n in ns
    ensures forall n | n in ns :: FromDictKwargs(c, ItemsFor(e, ns))[n] == Deep(e.attrs[n])
  {
    ItemsForKeys(e, ns);
    if ns != [] {
      var k := |ns| - 1;
      var front := ns[..k];
      assert ns == front + [ns[k]];
      KwargsOfItems(c, e, front);
      ItemsForSnoc(e, front, ns[k]);
      var d := ItemsFor(e, ns);
      assert d[..|d| - 1] == ItemsFor(e, front);
    }
  }

  lemma ItemsForKeys(e: Entry, ns: seq<string>)
    requires forall n | n in ns :: n in e.attrs
    ensures forall n :: VStr(n) in KeySet(ItemsFor(e, ns)) <==> n in ns
  {
    var d := ItemsFor(e, ns);
    forall n | n in ns ensures VStr(n) in KeySet(d) {
      var i :| 0 <= i < |ns| && ns[i] == n;
      assert d[i].0 == VStr(n);
    }
  }

  /** The keyword arguments `from_dict` collects from `as_dict`: the kept fields, with their values. */
  lemma KwargsOfAsDict(c: EntryClass, r: Entry)
    requires IsBuilt(c, r) && PlainAttrs(r)
    ensures AsDict(r).Ok?
    ensures forall n :: n in FromDictKwargs(c, AsDict(r).value) <==> n in NameSet(c.fields) && LegacyKeep(n)
    ensures forall n | n in FromDictKwargs(c, AsDict(r).value) :: FromDictKwargs(c, AsDict(r).value)[n] == r.attrs[n]
  {
    assert AllSet(r);
    AsDictItems(r);
    KwargsOfItems(c, r, KeptNames(c.fields));
  }

  lemma AttrsAgree(c: EntryClass, r: Entry, kw: map<string, Value>, b: Entry)
    requires ReminderShape(c) && IsBuilt(c, r) && IsBuilt(c, b)
    requires forall n :: n in kw <==> n in NameSet(c.fields) && LegacyKeep(n)
    requires forall n | n in kw :: kw[n] == r.attrs[n]
    requires forall f | f in c.fields && LegacyKeep(f.name) ::
      b.attrs[f.name] == (if f.name in kw then kw[f.name] else f.default.value)
    ensures b == r
  {
    forall n | n in r.attrs ensures b.attrs[n] == r.attrs[n] {
      var f :| f in c.fields && f.name == n;
    }
    assert b.attrs == r.attrs;
  }

  lemma RebuildFromAsDict(c: EntryClass, r: Entry)
    requires ReminderShape(c) && IsBuilt(c, r) && PlainAttrs(r)
    ensures AsDict(r).Ok?
    ensures Instantiate(c, FromDictKwargs(c, AsDict(r).value)) == Ok(r)
  {
    KwargsOfAsDict(c, r);
    var kw := FromDictKwargs(c, AsDict(r).value);
    InstantiateOk(c, kw);
    InstantiateFields(c, kw);
    AttrsAgree(c, r, kw, Instantiate(c, kw).value);
  }

  /** A reminder rebuilt by `from_dict` from its own `as_dict` is the same reminder. */
  lemma FromDictInvertsAsDict(r: Entry)
    requires IsReminder(r) && PlainAttrs(r)
    ensures AsDict(r).Ok?
    ensures ReminderFromDict(AsDict(r).value) == Ok(r)
  {
    ReminderSchema();
    RebuildFromAsDict(ReminderClass, r);
  }
}
