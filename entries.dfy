/**
 * `RedisEntry` (src/redisent/models.py): the dataclass schema of an entry
 * class, the filters over its fields, the projections to and from a mapping,
 * and the pickle encoding of an entry.
 */
module Entries {
  import opened Wrappers
  import opened PyValues
  import opened RedisErrors

  // ----------------------------------------------------------------- schema

  function FieldNames(fs: seq<FieldDesc>): (ns: seq<string>)
    ensures |ns| == |fs|
    ensures forall i :: 0 <= i < |fs| ==> ns[i] == fs[i].name
  {
    seq(|fs|, i requires 0 <= i < |fs| => fs[i].name)
  }

  /** The first declared field called `name`. */
  function FindField(fs: seq<FieldDesc>, name: string): (r: Option<FieldDesc>)
    ensures r.Some? <==> name in NameSet(fs)
    ensures r.Some? ==> r.value in fs && r.value.name == name
  {
    if fs == [] then None
    else if fs[0].name == name then Some(fs[0])
    else
      NameSetCons(fs);
      FindField(fs[1..], name)
  }

  lemma NameSetCons(fs: seq<FieldDesc>)
    requires fs != []
    ensures NameSet(fs) == {fs[0].name} + NameSet(fs[1..])
  {
    assert fs == [fs[0]] + fs[1..];
    assert forall f :: f in fs <==> f == fs[0] || f in fs[1..];
  }

  /** With unique names, looking a declared field up by its name finds that field. */
  lemma FindDeclaredField(fs: seq<FieldDesc>, f: FieldDesc)
    requires DistinctNames(fs) && f in fs
    ensures FindField(fs, f.name) == Some(f)
  {
    var g := FindField(fs, f.name).value;
    var i :| 0 <= i < |fs| && fs[i] == f;
    var j :| 0 <= j < |fs| && fs[j] == g;
    assert i == j;
  }

  function NameSet(fs: seq<FieldDesc>): set<string> {
    set f | f in fs :: f.name
  }

  predicate DistinctNames(fs: seq<FieldDesc>) {
    forall i, j :: 0 <= i < j < |fs| ==> fs[i].name != fs[j].name
  }

  /** A field `RedisEntry` declares: flagged `redis_field`, not internal, set by `__init__`. */
  predicate IsRedisField(c: EntryClass, name: string) {
    var f := FindField(c.fields, name);
    f.Some? && f.value.redisField && !f.value.internal && f.value.init
  }

  /**
   * What a dataclass deriving from `RedisEntry` looks like: field names are
   * unique, `redis_id` and `redis_name` are inherited (a subclass may give
   * `redis_id` a default), and a field `__init__` does not set has a default.
   */
  predicate ValidClass(c: EntryClass) {
    && DistinctNames(c.fields)
    && IsRedisField(c, "redis_id")
    && IsRedisField(c, "redis_name")
    && (forall f | f in c.fields :: !f.init ==> f.default.Some?)
  }

  /** An instance holds exactly one attribute per declared field. */
  predicate Conforms(e: Entry) {
    && ValidClass(e.cls)
    && e.attrs.Keys == NameSet(e.cls.fields)
  }

  // -------------------------------------------------------------- filtering

  /** Whether `get_entry_fields(include_redis_fields, include_internal_fields)` keeps `f`. */
  predicate Keep(f: FieldDesc, includeRedis: bool, includeInternal: bool) {
    && (!f.redisField || includeRedis)
    && (!f.internal || includeInternal)
    && f.init
  }

  /** The names of the fields `Keep` accepts, in declaration order. */
  function FilterFields(fs: seq<FieldDesc>, includeRedis: bool, includeInternal: bool): (ns: seq<string>)
    ensures |ns| <= |fs|
    ensures forall n :: n in ns <==> exists f :: f in fs && f.name == n && Keep(f, includeRedis, includeInternal)
  {
    if fs == [] then []
    else
      var f := fs[|fs| - 1];
      var front := FilterFields(fs[..|fs| - 1], includeRedis, includeInternal);
      assert fs == fs[..|fs| - 1] + [f];
      front + (if Keep(f, includeRedis, includeInternal) then [f.name] else [])
  }

  /** `RedisEntry.get_entry_fields`. */
  method GetEntryFields(cls: EntryClass, includeRedis: bool, includeInternal: bool) returns (flds: seq<string>)
    ensures flds == FilterFields(cls.fields, includeRedis, includeInternal)
  {
    flds := [];
    for i := 0 to |cls.fields|
      invariant flds == FilterFields(cls.fields[..i], includeRedis, includeInternal)
    {
      var fld := cls.fields[i];
      assert cls.fields[..i + 1][..i] == cls.fields[..i];
      if fld.redisField && !includeRedis {
        continue;
      }
      if fld.internal && !includeInternal {
        continue;
      }
      if !fld.init {
        continue;
      }
      flds := flds + [fld.name];
    }
    assert cls.fields[..|cls.fields|] == cls.fields;
  }

  /**
   * The filter keeps declaration order: its result picks the fields at
   * strictly increasing positions, each one a field `Keep` accepts.
   */
  lemma {:induction false} FilterFieldsInOrder(fs: seq<FieldDesc>, includeRedis: bool, includeInternal: bool)
    returns (pos: seq<nat>)
    ensures |pos| == |FilterFields(fs, includeRedis, includeInternal)|
    ensures forall j :: 0 <= j < |pos| ==>
      pos[j] < |fs| && fs[pos[j]].name == FilterFields(fs, includeRedis, includeInternal)[j]
      && Keep(fs[pos[j]], includeRedis, includeInternal)
    ensures forall j, k :: 0 <= j < k < |pos| ==> pos[j] < pos[k]
  {
    if fs == [] {
      pos := [];
    } else {
      var n := |fs| - 1;
      var front := fs[..n];
      var p := FilterFieldsInOrder(front, includeRedis, includeInternal);
      assert forall j :: 0 <= j < |p| ==> fs[p[j]] == front[p[j]];
      if Keep(fs[n], includeRedis, includeInternal) {
        pos := p + [n];
      } else {
        pos := p;
      }
    }
  }

  /** `entry_fields`: the fields the entry class itself declares for its data. */
  function EntryFields(cls: EntryClass): (ns: seq<string>)
    ensures forall n :: n in ns <==>
      exists f :: f in cls.fields && f.name == n && !f.redisField && !f.internal && f.init
  {
    FilterFields(cls.fields, false, false)
  }

  /** Under `ValidClass`, `redis_id` and `redis_name` are never entry fields. */
  lemma RedisFieldsAreNotEntryFields(c: EntryClass)
    requires ValidClass(c)
    ensures "redis_id" !in EntryFields(c) && "redis_name" !in EntryFields(c)
  {
    forall f | f in c.fields && (f.name == "redis_id" || f.name == "redis_name")
      ensures f.redisField
    {
      var i :| 0 <= i < |c.fields| && c.fields[i] == f;
      var g := FindField(c.fields, f.name).value;
      var j :| 0 <= j < |c.fields| && c.fields[j] == g;
      assert i == j;
    }
  }

  // ---------------------------------------------------------- construction

  /** Whether `name` is a keyword argument the generated `__init__` accepts. */
  predicate InitField(c: EntryClass, name: string) {
    var f := FindField(c.fields, name);
    f.Some? && f.value.init
  }

  /** The value `__init__` gives field `f`: its keyword argument, else its default. */
  function InitValue(f: FieldDesc, kwargs: map<string, Value>): Option<Value> {
    if f.init && f.name in kwargs then Some(kwargs[f.name]) else f.default
  }

  /**
   * `cls(**kwargs)` for a dataclass: an unexpected keyword comes first as a
   * TypeError, then a required argument that is missing.
   */
  function Construct(c: EntryClass, kwargs: map<string, Value>): (r: Result<Entry, Exc>)
    ensures r.Ok? <==>
      && (forall k | k in kwargs :: InitField(c, k))
      && (forall f | f in c.fields && f.init && f.default.None? :: f.name in kwargs)
    ensures r.Err? ==> r.error.Exc? && r.error.kind == TypeError
    ensures r.Ok? ==> r.value.cls == c
    ensures r.Ok? && ValidClass(c) ==> Conforms(r.value)
    ensures r.Ok? && ValidClass(c) ==> forall f | f in c.fields ::
      r.value.attrs[f.name] == (if f.init && f.name in kwargs then kwargs[f.name] else f.default.value)
  {
    if exists k | k in kwargs :: !InitField(c, k) then
      Err(Exc(TypeError, "__init__() got an unexpected keyword argument"))
    else if exists f | f in c.fields :: f.init && f.default.None? && f.name !in kwargs then
      Err(Exc(TypeError, "__init__() missing a required argument"))
    else if ValidClass(c) then
      InitAttrsOfValidClass(c, kwargs);
      Ok(Entry(c, InitAttrs(c, kwargs)))
    else
      Ok(Entry(c, InitAttrs(c, kwargs)))
  }

  /** The attributes `__init__` sets: each declared field that gets a keyword or has a default. */
  function InitAttrs(c: EntryClass, kwargs: map<string, Value>): map<string, Value> {
    map n | n in NameSet(c.fields) && InitValue(FindField(c.fields, n).value, kwargs).Some?
      :: InitValue(FindField(c.fields, n).value, kwargs).value
  }

  /** In a valid class with every required argument given, `__init__` sets every field. */
  lemma InitAttrsOfValidClass(c: EntryClass, kwargs: map<string, Value>)
    requires ValidClass(c)
    requires forall f | f in c.fields && f.init && f.default.None? :: f.name in kwargs
    ensures InitAttrs(c, kwargs).Keys == NameSet(c.fields)
    ensures forall f | f in c.fields ::
      InitAttrs(c, kwargs)[f.name] == (if f.init && f.name in kwargs then kwargs[f.name] else f.default.value)
  {
    var attrs := InitAttrs(c, kwargs);
    forall f | f in c.fields
      ensures f.name in attrs && attrs[f.name] == (if f.init && f.name in kwargs then kwargs[f.name] else f.default.value)
    {
      FindDeclaredField(c.fields, f);
    }
    forall n | n in NameSet(c.fields) ensures n in attrs {
      var f :| f in c.fields && f.name == n;
    }
  }

  /** `is_hashmap`: whether the entry is stored as one field of a Redis hash. */
  function IsHashmap(e: Entry): (hash: bool)
    requires "redis_name" in e.attrs
    ensures e.attrs["redis_name"].VNone? ==> !hash
    ensures e.attrs["redis_name"].VStr? ==> (hash <==> e.attrs["redis_name"].s != "")
  {
    Truthy(e.attrs["redis_name"])
  }

  /** The declared default of `redis_name`, the empty string. */
  predicate NameDefaultsToEmpty(c: EntryClass) {
    var f := FindField(c.fields, "redis_name");
    f.Some? && f.value.default == Some(VStr(""))
  }

  /** An entry built without a `redis_name` is flat. */
  lemma ConstructedWithoutNameIsFlat(c: EntryClass, kwargs: map<string, Value>)
    requires ValidClass(c) && NameDefaultsToEmpty(c)
    requires "redis_name" !in kwargs && Construct(c, kwargs).Ok?
    ensures "redis_name" in Construct(c, kwargs).value.attrs
    ensures !IsHashmap(Construct(c, kwargs).value)
  {
    var f := FindField(c.fields, "redis_name").value;
    assert Construct(c, kwargs).value.attrs[f.name] == f.default.value;
  }

  /**
   * The `redis_name` `load_dict` goes on with: the argument, or the keyword
   * when the argument is empty (src/redisent/models.py:145-147). Python binds
   * a `redis_name=` keyword to the named parameter, never to `**ent_kwargs`,
   * so every call Python can make takes the argument (`ArgumentNameWins`);
   * the keyword branch is kept as the code is written.
   */
  function ChosenName(redisName: Value, kwargs: map<string, Value>): Value {
    if !Truthy(redisName) && "redis_name" in kwargs then kwargs["redis_name"] else redisName
  }

  /** With no `redis_name` among the collected keywords, as Python guarantees, the argument is the name. */
  lemma ArgumentNameWins(redisName: Value, kwargs: map<string, Value>)
    requires "redis_name" !in kwargs
    ensures ChosenName(redisName, kwargs) == redisName
  {
  }

  /** The keyword arguments `load_dict` passes to the class. */
  function LoadKwargs(c: EntryClass, redisId: Value, redisName: Value, kwargs: map<string, Value>): (m: map<string, Value>)
    ensures "redis_id" in m && m["redis_id"] == redisId
    ensures ValidClass(c) ==> ("redis_name" in m <==> Truthy(ChosenName(redisName, kwargs)))
    ensures ValidClass(c) && "redis_name" in m ==> m["redis_name"] == ChosenName(redisName, kwargs)
    ensures forall k | k in m :: k == "redis_id" || k == "redis_name" || k in EntryFields(c)
    ensures ValidClass(c) ==> forall a | a in EntryFields(c) :: (a in m <==> a in kwargs) && (a in m ==> m[a] == kwargs[a])
  {
    var name := ChosenName(redisName, kwargs);
    var clsKwargs := FieldKwargs(EntryFields(c), RestKwargs(redisName, kwargs))["redis_id" := redisId];
    var m := if Truthy(name) then clsKwargs["redis_name" := name] else clsKwargs;
    if ValidClass(c) then
      RedisFieldsAreNotEntryFields(c);
      m
    else
      m
  }

  /** The keywords `load_dict` goes on with: without `redis_name` when it took the name from them. */
  function RestKwargs(redisName: Value, kwargs: map<string, Value>): (rest: map<string, Value>)
    ensures forall a | a != "redis_name" :: (a in rest <==> a in kwargs) && (a in rest ==> rest[a] == kwargs[a])
  {
    if !Truthy(redisName) && "redis_name" in kwargs then kwargs - {"redis_name"} else kwargs
  }

  /** `{a: kwargs[a] for a in flds if a in kwargs}`. */
  function FieldKwargs(flds: seq<string>, kwargs: map<string, Value>): (m: map<string, Value>)
    ensures forall a :: (a in m <==> a in flds && a in kwargs) && (a in m ==> m[a] == kwargs[a])
  {
    map a | a in flds && a in kwargs :: kwargs[a]
  }

  /** Every keyword `load_dict` passes is one the class accepts. */
  lemma LoadKwargsAccepted(c: EntryClass, m: map<string, Value>)
    requires ValidClass(c)
    requires forall k | k in m :: k == "redis_id" || k == "redis_name" || k in EntryFields(c)
    ensures forall k | k in m :: InitField(c, k)
  {
    forall k | k in m && k in EntryFields(c) ensures InitField(c, k) {
      var f :| f in c.fields && f.name == k && !f.redisField && !f.internal && f.init;
      FindDeclaredField(c.fields, f);
    }
  }

  /** `RedisEntry.load_dict(redis_id, redis_name, **kwargs)`; `redisName` is `VNone` when left out. */
  function LoadDict(c: EntryClass, redisId: Value, redisName: Value, kwargs: map<string, Value>): (r: Result<Entry, Exc>)
    ensures r.Ok? ==> r.value.cls == c
    ensures r.Ok? && ValidClass(c) ==> Conforms(r.value)
    ensures r.Err? ==> r.error.Exc? && r.error.kind == TypeError
  {
    Construct(c, LoadKwargs(c, redisId, redisName, kwargs))
  }

  /** `load_dict` succeeds exactly when every required field is supplied. */
  lemma LoadDictSucceeds(c: EntryClass, redisId: Value, redisName: Value, kwargs: map<string, Value>)
    requires ValidClass(c)
    ensures LoadDict(c, redisId, redisName, kwargs).Ok? <==>
      forall f | f in c.fields && f.init && f.default.None? ::
        || f.name == "redis_id"
        || (f.name in EntryFields(c) && f.name in kwargs)
        || (f.name == "redis_name" && Truthy(ChosenName(redisName, kwargs)))
  {
    var m := LoadKwargs(c, redisId, redisName, kwargs);
    LoadKwargsAccepted(c, m);
    AcceptedConstructs(c, m);
    LoadKwargsKeys(c, redisId, redisName, kwargs);
  }

  /** When every keyword is accepted, `cls(**kwargs)` succeeds exactly when the required ones are there. */
  lemma AcceptedConstructs(c: EntryClass, kwargs: map<string, Value>)
    requires forall k | k in kwargs :: InitField(c, k)
    ensures Construct(c, kwargs).Ok? <==> forall f | f in c.fields && f.init && f.default.None? :: f.name in kwargs
  {
  }

  /** The keywords `load_dict` passes: `redis_id`, `redis_name` when chosen non-empty, and the given entry fields. */
  lemma LoadKwargsKeys(c: EntryClass, redisId: Value, redisName: Value, kwargs: map<string, Value>)
    requires ValidClass(c)
    ensures forall n :: n in LoadKwargs(c, redisId, redisName, kwargs) <==>
      || n == "redis_id"
      || (n == "redis_name" && Truthy(ChosenName(redisName, kwargs)))
      || (n in EntryFields(c) && n in kwargs)
  {
    RedisFieldsAreNotEntryFields(c);
  }

  /**
   * `load_dict` always sets `redis_id`, sets `redis_name` when the chosen
   * one is non-empty, and fills each entry field from its keyword or its
   * default.
   */
  lemma LoadDictAttrs(c: EntryClass, redisId: Value, redisName: Value, kwargs: map<string, Value>)
    requires ValidClass(c) && LoadDict(c, redisId, redisName, kwargs).Ok?
    ensures LoadDict(c, redisId, redisName, kwargs).value.attrs["redis_id"] == redisId
    ensures Truthy(ChosenName(redisName, kwargs)) ==>
      LoadDict(c, redisId, redisName, kwargs).value.attrs["redis_name"] == ChosenName(redisName, kwargs)
    ensures forall f | f in c.fields && f.name in EntryFields(c) ::
      LoadDict(c, redisId, redisName, kwargs).value.attrs[f.name] ==
        (if f.name in kwargs then kwargs[f.name] else f.default.value)
  {
    var m := LoadKwargs(c, redisId, redisName, kwargs);
    var e := Construct(c, m).value;
    forall f | f in c.fields && f.name in EntryFields(c)
      ensures e.attrs[f.name] == (if f.name in kwargs then kwargs[f.name] else f.default.value)
    {
      var g :| g in c.fields && g.name == f.name && !g.redisField && !g.internal && g.init;
      FindDeclaredField(c.fields, f);
      FindDeclaredField(c.fields, g);
    }
    var f1 := FindField(c.fields, "redis_id").value;
    var f2 := FindField(c.fields, "redis_name").value;
    assert e.attrs[f1.name] == redisId;
  }

  /** `load_dict` drops keywords that name no entry field. */
  lemma LoadDictIgnoresUnknownKeys(c: EntryClass, redisId: Value, redisName: Value, kwargs: map<string, Value>,
                                   k: string, v: Value)
    requires k !in EntryFields(c) && k != "redis_name"
    ensures LoadDict(c, redisId, redisName, kwargs[k := v]) == LoadDict(c, redisId, redisName, kwargs)
  {
    var kw := kwargs[k := v];
    assert ChosenName(redisName, kw) == ChosenName(redisName, kwargs);
    LoadKwargsFieldsOnly(c, redisId, redisName, kwargs, kw);
  }

  /** The keywords `load_dict` passes depend on the given ones only through the entry fields and `redis_name`. */
  lemma LoadKwargsFieldsOnly(c: EntryClass, redisId: Value, redisName: Value, kwargs: map<string, Value>,
                             kw: map<string, Value>)
    requires "redis_name" in kwargs <==> "redis_name" in kw
    requires "redis_name" in kwargs ==> kwargs["redis_name"] == kw["redis_name"]
    requires forall a | a in EntryFields(c) :: (a in kwargs <==> a in kw) && (a in kw ==> kwargs[a] == kw[a])
    ensures LoadKwargs(c, redisId, redisName, kw) == LoadKwargs(c, redisId, redisName, kwargs)
  {
    FieldKwargsAgree(EntryFields(c), redisName, kwargs, kw);
  }

  lemma FieldKwargsAgree(flds: seq<string>, redisName: Value, k1: map<string, Value>, k2: map<string, Value>)
    requires "redis_name" in k1 <==> "redis_name" in k2
    requires "redis_name" in k1 ==> k1["redis_name"] == k2["redis_name"]
    requires forall a | a in flds :: (a in k1 <==> a in k2) && (a in k1 ==> k1[a] == k2[a])
    ensures FieldKwargs(flds, RestKwargs(redisName, k1)) == FieldKwargs(flds, RestKwargs(redisName, k2))
  {
  }

  // ---------------------------------------------------------------- as_dict

  /**
   * `dataclasses.asdict` applied to one value: entries become dicts of their
   * fields, lists and dicts are rebuilt around their converted elements.
   */
  function Deep(v: Value): Value
    decreases v, 1
  {
    match v
    case VEntry(e) => VDict(DictOf(e, e.cls.fields))
    case VList(xs) => VList(seq(|xs|, i requires 0 <= i < |xs| => Deep(xs[i])))
    case VDict(items) => VDict(seq(|items|, i requires 0 <= i < |items| => (items[i].0, Deep(items[i].1))))
    case _ => v
  }

  /** `asdict(e)` over the fields `fs`: one item per field, in declaration order. */
  function DictOf(e: Entry, fs: seq<FieldDesc>): (d: Dict)
    decreases VEntry(e), 0, |fs|
    ensures |d| <= |fs|
    ensures (forall f | f in fs :: f.name in e.attrs) ==> |d| == |fs|
    ensures forall i | 0 <= i < |d| :: d[i].0.VStr? && d[i].0.s in FieldNames(fs)
  {
    if fs == [] then []
    else
      var f := fs[|fs| - 1];
      DictOf(e, fs[..|fs| - 1]) + (if f.name in e.attrs then [(VStr(f.name), Deep(e.attrs[f.name]))] else [])
  }

  /** The items whose key is one of `names`, in their order: `{a: v for a, v in d.items() if a in names}`. */
  function FilterItems(items: Dict, names: seq<string>): (r: Dict)
    ensures |r| <= |items|
    ensures forall i | 0 <= i < |r| :: r[i] in items && r[i].0.VStr? && r[i].0.s in names
  {
    if items == [] then []
    else
      var it := items[|items| - 1];
      FilterItems(items[..|items| - 1], names) + (if it.0.VStr? && it.0.s in names then [it] else [])
  }

  /** `RedisEntry.as_dict(include_redis_fields, include_internal_fields)`. */
  function AsDict(e: Entry, includeRedis: bool, includeInternal: bool): (r: Dict)
    ensures |r| <= |DictOf(e, e.cls.fields)|
    ensures forall i | 0 <= i < |r| :: r[i] in DictOf(e, e.cls.fields)
    ensures !(includeRedis && includeInternal) ==>
      forall i | 0 <= i < |r| :: r[i].0.VStr? && r[i].0.s in FilterFields(e.cls.fields, includeRedis, includeInternal)
  {
    var all := DictOf(e, e.cls.fields);
    if includeRedis && includeInternal then all
    else FilterItems(all, FilterFields(e.cls.fields, includeRedis, includeInternal))
  }

  /** The items `(name, asdict value)` for the attributes `ns`, in the order of `ns`. */
  function ItemsFor(e: Entry, ns: seq<string>): (d: Dict)
    requires forall n | n in ns :: n in e.attrs
    ensures |d| == |ns|
  {
    seq(|ns|, i requires 0 <= i < |ns| => (VStr(ns[i]), Deep(e.attrs[ns[i]])))
  }

  lemma ItemsForSnoc(e: Entry, ns: seq<string>, n: string)
    requires forall m | m in ns + [n] :: m in e.attrs
    ensures ItemsFor(e, ns + [n]) == ItemsFor(e, ns) + [(VStr(n), Deep(e.attrs[n]))]
  {
  }

  lemma {:induction false} DictOfEveryField(e: Entry, fs: seq<FieldDesc>)
    requires forall f | f in fs :: f.name in e.attrs
    ensures forall n | n in FieldNames(fs) :: n in e.attrs
    ensures DictOf(e, fs) == ItemsFor(e, FieldNames(fs))
  {
    if fs != [] {
      var n := |fs| - 1;
      DictOfEveryField(e, fs[..n]);
      assert FieldNames(fs) == FieldNames(fs[..n]) + [fs[n].name];
      ItemsForSnoc(e, FieldNames(fs[..n]), fs[n].name);
    }
  }

  lemma {:induction false} DictOfFiltered(e: Entry, fs: seq<FieldDesc>, all: seq<FieldDesc>,
                                          includeRedis: bool, includeInternal: bool)
    requires DistinctNames(all) && (forall f | f in fs :: f in all && f.name in e.attrs)
    ensures forall n | n in FilterFields(fs, includeRedis, includeInternal) :: n in e.attrs
    ensures FilterItems(DictOf(e, fs), FilterFields(all, includeRedis, includeInternal))
         == ItemsFor(e, FilterFields(fs, includeRedis, includeInternal))
  {
    if fs != [] {
      var n := |fs| - 1;
      var f := fs[n];
      DictOfFiltered(e, fs[..n], all, includeRedis, includeInternal);
      KeptIffListed(f, all, includeRedis, includeInternal);
      var front := DictOf(e, fs[..n]);
      var d := DictOf(e, fs);
      assert d == front + [(VStr(f.name), Deep(e.attrs[f.name]))];
      assert d[..|d| - 1] == front;
      if Keep(f, includeRedis, includeInternal) {
        ItemsForSnoc(e, FilterFields(fs[..n], includeRedis, includeInternal), f.name);
      }
    }
  }

  /** With unique names, a field's name is listed by `get_entry_fields` exactly when the field passes its flags. */
  lemma KeptIffListed(f: FieldDesc, all: seq<FieldDesc>, includeRedis: bool, includeInternal: bool)
    requires DistinctNames(all) && f in all
    ensures f.name in FilterFields(all, includeRedis, includeInternal) <==> Keep(f, includeRedis, includeInternal)
  {
    if f.name in FilterFields(all, includeRedis, includeInternal) {
      var g :| g in all && g.name == f.name && Keep(g, includeRedis, includeInternal);
      FindDeclaredField(all, f);
      FindDeclaredField(all, g);
    }
  }

  /**
   * `as_dict` with both flags set holds every field; otherwise it holds
   * exactly the fields `get_entry_fields` lists with the same flags, in
   * that order. Each value is the field's `asdict` conversion.
   */
  lemma AsDictKeys(e: Entry, includeRedis: bool, includeInternal: bool)
    requires Conforms(e)
    ensures forall n | n in FieldNames(e.cls.fields) :: n in e.attrs
    ensures forall n | n in FilterFields(e.cls.fields, includeRedis, includeInternal) :: n in e.attrs
    ensures includeRedis && includeInternal ==>
      AsDict(e, includeRedis, includeInternal) == ItemsFor(e, FieldNames(e.cls.fields))
    ensures !(includeRedis && includeInternal) ==>
      AsDict(e, includeRedis, includeInternal) == ItemsFor(e, FilterFields(e.cls.fields, includeRedis, includeInternal))
  {
    DictOfEveryField(e, e.cls.fields);
    DictOfFiltered(e, e.cls.fields, e.cls.fields, includeRedis, includeInternal);
  }

  // ------------------------------------------------------- decode / encode

  /** `**d` as keyword arguments: every key must be a `str`. */
  function DictToKwargs(items: Dict): (r: Result<map<string, Value>, Exc>)
    ensures r.Ok? <==> forall k | k in KeySet(items) :: k.VStr?
    ensures r.Err? ==> r.error == Exc(TypeError, "keywords must be strings")
    ensures r.Ok? ==> forall s :: s in r.value <==> VStr(s) in KeySet(items)
    ensures r.Ok? ==> forall s | s in r.value :: Lookup(items, VStr(s)) == Some(r.value[s])
  {
    if items == [] then Ok(map[])
    else
      KeySetCons(items[0], items[1..]);
      assert items == [items[0]] + items[1..];
      var rest := DictToKwargs(items[1..]);
      if !items[0].0.VStr? then Err(Exc(TypeError, "keywords must be strings"))
      else if rest.Err? then rest
      else Ok(rest.value[items[0].0.s := items[0].1])
  }

  const NoIdMessage := "Unable to convert dictionary from Redis into RedisEntry (no value for \"redis_id\" found)"
  const NotMappingMessage := "Decoded entry is neither a dictionary nor a Mapping"
  const PickleMessage := "Error decoding entry using pickle: "
  const GeneralMessage := "General error while attempting to decode possible RedisEntry"

  /** A `RedisError(message, base_exception=base)` of src/redisent/errors.py. */
  function Raised(message: string, base: Option<Exc>): Exc {
    Redis(NewError(CurrentErrors, message, base, None, None))
  }

  /** The `try` body of `decode_entry` applied to the unpickled dict `items`. */
  function DecodeMapping(c: EntryClass, items: Dict, useId: Value, useName: Value): (r: Result<Entry, Exc>)
    ensures r.Err? && r.error.Redis? ==> r == Err(Raised(NoIdMessage, None))
  {
    var redisId := Or(useId, Lookup(items, VStr("redis_id")).GetOr(VNone));
    if !Truthy(redisId) then Err(Raised(NoIdMessage, None))
    else
      var rest := Remove(items, VStr("redis_id"));
      var redisName := Or(useName, Lookup(rest, VStr("redis_name")).GetOr(VNone));
      var kwargs := DictToKwargs(Remove(rest, VStr("redis_name")));
      if kwargs.Err? then Err(kwargs.error)
      else LoadDict(c, redisId, redisName, kwargs.value)
  }

  /**
   * `RedisEntry.decode_entry(entry_bytes, use_redis_id, use_redis_name)` on
   * class `c`; the two identity arguments are `VNone` when left out. Every
   * failure comes out as a `RedisError`.
   */
  function DecodeEntry(c: EntryClass, bytes: Value, useId: Value, useName: Value): (r: Result<Entry, Exc>)
    ensures r.Err? ==> r.error.Redis? && r.error.err.cls == CurrentErrors && r.error.err.relatedCommand.None?
    ensures Loads(bytes).Ok? && Loads(bytes).value.VEntry? ==> r == Ok(Loads(bytes).value.entry)
    ensures Loads(bytes).Ok? && !Loads(bytes).value.VEntry? && !Loads(bytes).value.VDict? ==>
      r == Err(Raised(NotMappingMessage, None))
    ensures Loads(bytes).Err? && IsPickleError(Loads(bytes).error) ==>
      r == Err(Raised(PickleMessage + ExcText(Loads(bytes).error), Some(Loads(bytes).error)))
    ensures Loads(bytes).Err? && !IsPickleError(Loads(bytes).error) ==>
      r == Err(Raised(GeneralMessage, Some(Loads(bytes).error)))
  {
    match Loads(bytes)
    case Err(ex) =>
      if IsPickleError(ex) then Err(Raised(PickleMessage + ExcText(ex), Some(ex)))
      else Err(Raised(GeneralMessage, Some(ex)))
    case Ok(VDict(items)) =>
      var r := DecodeMapping(c, items, useId, useName);
      if r.Err? && !r.error.Redis? then Err(Raised(GeneralMessage, Some(r.error))) else r
    case Ok(VEntry(e)) => Ok(e)
    case Ok(_) => Err(Raised(NotMappingMessage, None))
  }

  /** `redis_id` given to `decode_entry` wins over the stored one; without either there is no entry. */
  lemma DecodeMappingIdentity(c: EntryClass, items: Dict, useId: Value, useName: Value)
    requires ValidClass(c)
    ensures var stored := Lookup(items, VStr("redis_id")).GetOr(VNone);
      && (!Truthy(useId) && !Truthy(stored) ==> DecodeMapping(c, items, useId, useName) == Err(Raised(NoIdMessage, None)))
      && (DecodeMapping(c, items, useId, useName).Ok? ==>
            DecodeMapping(c, items, useId, useName).value.attrs["redis_id"] == (if Truthy(useId) then useId else stored))
    ensures DecodeMapping(c, items, useId, useName).Ok? && Truthy(useName) ==>
      DecodeMapping(c, items, useId, useName).value.attrs["redis_name"] == useName
  {
    var r := DecodeMapping(c, items, useId, useName);
    if r.Ok? {
      var redisId := Or(useId, Lookup(items, VStr("redis_id")).GetOr(VNone));
      var rest := Remove(items, VStr("redis_id"));
      var redisName := Or(useName, Lookup(rest, VStr("redis_name")).GetOr(VNone));
      var kwargs := DictToKwargs(Remove(rest, VStr("redis_name"))).value;
      LoadDictAttrs(c, redisId, redisName, kwargs);
    }
  }

  /** Every `RedisEntry` instance has the two attributes the base class declares. */
  predicate HasIdentity(e: Entry) {
    "redis_id" in e.attrs && "redis_name" in e.attrs
  }

  /** What `encode_entry` pickles: `as_dict(True, False)` in mapping mode, else the entry itself. */
  function EncodedPayload(e: Entry, asMapping: Option<bool>): (p: Value)
    requires "redis_name" in e.attrs
    ensures p.VDict? <==> (if asMapping.None? then IsHashmap(e) else asMapping == Some(true))
    ensures !p.VDict? ==> p == VEntry(e)
  {
    var mapping := if asMapping.None? then IsHashmap(e) else asMapping == Some(true);
    if mapping then VDict(AsDict(e, true, false)) else VEntry(e)
  }

  /** `RedisEntry.encode_entry(entry, as_mapping)`; `asMapping` is `None` when left out. */
  function EncodeEntry(e: Entry, asMapping: Option<bool>): (r: Result<Blob, Exc>)
    requires HasIdentity(e)
    ensures r.Ok? <==> Picklable(EncodedPayload(e, asMapping))
    ensures r.Ok? ==> Loads(VBytes(r.value)) == Ok(EncodedPayload(e, asMapping))
    ensures r.Err? ==>
      && r.error.Exc? && r.error.kind == PlainException
      && StartsWith(r.error.text, "Error encoding entry for \"" + PyStr(e.attrs["redis_id"]) + "\"")
  {
    match Dumps(EncodedPayload(e, asMapping))
    case Ok(b) => Ok(b)
    case Err(ex) =>
      var head := "Error encoding entry for \"" + PyStr(e.attrs["redis_id"]) + "\"";
      var named := if IsHashmap(e) then " (entry name: \"" + PyStr(e.attrs["redis_name"]) + "\")" else "";
      var text := head + (named + " using pickle: " + ExcText(ex));
      assert text[..|head|] == head;
      Err(Exc(PlainException, text))
  }

  /** A flat entry comes back from its own encoding unchanged, whatever class decodes it. */
  lemma FlatEntryRoundTrip(c: EntryClass, e: Entry)
    requires HasIdentity(e) && !IsHashmap(e) && Picklable(VEntry(e))
    ensures EncodeEntry(e, None).Ok?
    ensures DecodeEntry(c, VBytes(EncodeEntry(e, None).value), VNone, VNone) == Ok(e)
  {
  }

  /** `asdict` leaves every attribute value as it is: none is or holds an entry. */
  predicate AsDictStable(e: Entry) {
    forall n | n in e.attrs :: Deep(e.attrs[n]) == e.attrs[n]
  }

  /** The fields a stored mapping does not bring back hold their defaults. */
  predicate UnstoredAtDefault(e: Entry) {
    forall f | f in e.cls.fields && f.name !in EntryFields(e.cls) && f.name != "redis_id" && f.name != "redis_name" ::
      f.name in e.attrs && f.default == Some(e.attrs[f.name])
  }

  /** The fields mapping mode stores: `get_entry_fields(True, False)`. */
  function StoredFields(c: EntryClass): seq<string> {
    FilterFields(c.fields, true, false)
  }

  lemma {:induction false} LookupItemsFor(e: Entry, ns: seq<string>, n: string)
    requires forall m | m in ns :: m in e.attrs
    ensures Lookup(ItemsFor(e, ns), VStr(n)) == (if n in ns then Some(Deep(e.attrs[n])) else None)
    ensures forall k | k in KeySet(ItemsFor(e, ns)) :: k.VStr?
  {
    var d := ItemsFor(e, ns);
    if ns != [] {
      LookupItemsFor(e, ns[1..], n);
      assert d[1..] == ItemsFor(e, ns[1..]);
      KeySetCons(d[0], d[1..]);
      assert d == [d[0]] + d[1..];
    }
  }

  /** A conforming entry's class declares `redis_id` and `redis_name` among the stored fields. */
  lemma IdentityIsStored(e: Entry)
    requires Conforms(e)
    ensures "redis_id" in StoredFields(e.cls) && "redis_name" in StoredFields(e.cls)
    ensures forall n | n in StoredFields(e.cls) :: n in e.attrs
  {
    var fi := FindField(e.cls.fields, "redis_id").value;
    var fn := FindField(e.cls.fields, "redis_name").value;
    assert Keep(fi, true, false) && Keep(fn, true, false);
  }

  /** Mapping mode pickles the stored fields with their values. */
  lemma EncodeHashEntry(e: Entry)
    requires Conforms(e) && IsHashmap(e) && Picklable(VEntry(e)) && AsDictStable(e)
    ensures forall n | n in StoredFields(e.cls) :: n in e.attrs
    ensures EncodeEntry(e, None) == Ok(Pickled(VDict(ItemsFor(e, StoredFields(e.cls)))))
  {
    AsDictKeys(e, true, false);
    var items := ItemsFor(e, StoredFields(e.cls));
    assert Picklable(VDict(items)) by {
      forall i | 0 <= i < |items| ensures Picklable(items[i].0) && Picklable(items[i].1) {
        assert items[i].1 == e.attrs[StoredFields(e.cls)[i]];
      }
    }
  }

  /** The stored mapping without its two identity items. */
  function StoredRest(e: Entry): Dict
    requires forall n | n in StoredFields(e.cls) :: n in e.attrs
  {
    Remove(Remove(ItemsFor(e, StoredFields(e.cls)), VStr("redis_id")), VStr("redis_name"))
  }

  lemma StoredRestLookup(e: Entry, s: string)
    requires forall n | n in StoredFields(e.cls) :: n in e.attrs
    ensures Lookup(StoredRest(e), VStr(s)) ==
      (if s in StoredFields(e.cls) && s != "redis_id" && s != "redis_name" then Some(Deep(e.attrs[s])) else None)
  {
    LookupItemsFor(e, StoredFields(e.cls), s);
  }

  lemma StoredRestKeysAreText(e: Entry)
    requires forall n | n in StoredFields(e.cls) :: n in e.attrs
    ensures forall k | k in KeySet(StoredRest(e)) :: k.VStr?
  {
    LookupItemsFor(e, StoredFields(e.cls), "");
  }

  /** The keyword arguments `decode_entry` rebuilds from the stored mapping. */
  lemma DecodeStoredKwargs(e: Entry)
    requires Conforms(e) && AsDictStable(e)
    ensures forall n | n in StoredFields(e.cls) :: n in e.attrs
    ensures var kw := DictToKwargs(StoredRest(e));
      && kw.Ok?
      && (forall s :: s in kw.value <==> s in StoredFields(e.cls) && s != "redis_id" && s != "redis_name")
      && (forall s | s in kw.value :: kw.value[s] == e.attrs[s])
  {
    IdentityIsStored(e);
    StoredRestKeysAreText(e);
    var kw := DictToKwargs(StoredRest(e));
    forall s ensures s in kw.value <==> s in StoredFields(e.cls) && s != "redis_id" && s != "redis_name" {
      StoredRestLookup(e, s);
    }
    forall s | s in kw.value ensures kw.value[s] == e.attrs[s] {
      StoredRestLookup(e, s);
    }
  }

  /** `load_dict` on a conforming entry's identity and stored keywords rebuilds the entry. */
  lemma LoadStoredKwargs(e: Entry, kw: map<string, Value>)
    requires Conforms(e) && HasIdentity(e) && IsHashmap(e) && UnstoredAtDefault(e)
    requires forall s :: s in kw <==> s in StoredFields(e.cls) && s != "redis_id" && s != "redis_name"
    requires forall s | s in kw :: s in e.attrs && kw[s] == e.attrs[s]
    ensures LoadDict(e.cls, e.attrs["redis_id"], e.attrs["redis_name"], kw) == Ok(e)
  {
    var c := e.cls;
    var m := LoadKwargs(c, e.attrs["redis_id"], e.attrs["redis_name"], kw);
    EntryFieldsAreStored(c, kw);
    LoadStoredSucceeds(e, kw);
    LoadedAttrs(e, kw, m);
    SameAttrsSameEntry(e, Construct(c, m).value);
  }

  lemma SameAttrsSameEntry(e: Entry, r: Entry)
    requires r.cls == e.cls && r.attrs == e.attrs
    ensures r == e
  {
  }

  lemma LoadedAttrs(e: Entry, kw: map<string, Value>, m: map<string, Value>)
    requires Conforms(e) && HasIdentity(e) && IsHashmap(e) && UnstoredAtDefault(e)
    requires forall a | a in EntryFields(e.cls) :: a in kw
    requires forall s | s in kw :: s in e.attrs && kw[s] == e.attrs[s]
    requires m == LoadKwargs(e.cls, e.attrs["redis_id"], e.attrs["redis_name"], kw)
    requires Construct(e.cls, m).Ok?
    ensures Construct(e.cls, m).value.cls == e.cls
    ensures Construct(e.cls, m).value.attrs == e.attrs
  {
    var r := Construct(e.cls, m).value;
    assert r.attrs.Keys == NameSet(e.cls.fields);
    forall n | n in e.attrs ensures n in r.attrs && r.attrs[n] == e.attrs[n] {
      var f :| f in e.cls.fields && f.name == n;
      LoadedField(e, kw, m, f);
    }
    SameAttrs(r.attrs, e.attrs);
  }

  lemma SameAttrs(a: map<string, Value>, b: map<string, Value>)
    requires a.Keys == b.Keys && forall n | n in b :: a[n] == b[n]
    ensures a == b
  {
  }

  lemma LoadStoredSucceeds(e: Entry, kw: map<string, Value>)
    requires Conforms(e) && HasIdentity(e) && IsHashmap(e) && UnstoredAtDefault(e)
    requires forall a | a in EntryFields(e.cls) :: a in kw
    ensures LoadDict(e.cls, e.attrs["redis_id"], e.attrs["redis_name"], kw).Ok?
  {
    var c := e.cls;
    var id := e.attrs["redis_id"];
    var name := e.attrs["redis_name"];
    assert ChosenName(name, kw) == name;
    LoadDictSucceeds(c, id, name, kw);
  }

  lemma EntryFieldsAreStored(c: EntryClass, kw: map<string, Value>)
    requires ValidClass(c)
    requires forall s :: s in kw <==> s in StoredFields(c) && s != "redis_id" && s != "redis_name"
    ensures forall a | a in EntryFields(c) :: a in kw
  {
    RedisFieldsAreNotEntryFields(c);
    forall a | a in EntryFields(c) ensures a in kw {
      var g :| g in c.fields && g.name == a && !g.redisField && !g.internal && g.init;
      assert Keep(g, true, false);
    }
  }

  lemma LoadedField(e: Entry, kw: map<string, Value>, m: map<string, Value>, f: FieldDesc)
    requires Conforms(e) && HasIdentity(e) && IsHashmap(e) && UnstoredAtDefault(e)
    requires forall a | a in EntryFields(e.cls) :: a in kw
    requires forall s | s in kw :: s in e.attrs && kw[s] == e.attrs[s]
    requires m == LoadKwargs(e.cls, e.attrs["redis_id"], e.attrs["redis_name"], kw)
    requires f in e.cls.fields && Construct(e.cls, m).Ok?
    ensures Construct(e.cls, m).value.attrs[f.name] == e.attrs[f.name]
  {
    var c := e.cls;
    FindDeclaredField(c.fields, f);
    if f.name in EntryFields(c) {
      var g :| g in c.fields && g.name == f.name && !g.redisField && !g.internal && g.init;
      FindDeclaredField(c.fields, g);
    }
  }

  /** A hash entry with a non-empty `redis_id` whose values `asdict` and pickle both keep. */
  predicate HashRoundTrippable(e: Entry) {
    && Conforms(e) && HasIdentity(e) && IsHashmap(e) && Truthy(e.attrs["redis_id"])
    && Picklable(VEntry(e)) && AsDictStable(e) && UnstoredAtDefault(e)
  }

  /**
   * A hash entry comes back from its own encoding unchanged, provided its
   * values survive `asdict` and the fields mapping mode does not bring back
   * hold their defaults.
   */
  lemma HashEntryRoundTrip(e: Entry)
    requires HashRoundTrippable(e)
    ensures EncodeEntry(e, None).Ok?
    ensures DecodeEntry(e.cls, VBytes(EncodeEntry(e, None).value), VNone, VNone) == Ok(e)
  {
    EncodeHashEntry(e);
    var items := ItemsFor(e, StoredFields(e.cls));
    assert DecodeMapping(e.cls, items, VNone, VNone) == Ok(e) by {
      DecodeStoredMapping(e);
    }
  }

  lemma DecodeStoredMapping(e: Entry)
    requires HashRoundTrippable(e)
    ensures forall n | n in StoredFields(e.cls) :: n in e.attrs
    ensures DecodeMapping(e.cls, ItemsFor(e, StoredFields(e.cls)), VNone, VNone) == Ok(e)
  {
    IdentityIsStored(e);
    DecodeStoredKwargs(e);
    var ns := StoredFields(e.cls);
    var items := ItemsFor(e, ns);
    var id, name := e.attrs["redis_id"], e.attrs["redis_name"];
    assert Lookup(items, VStr("redis_id")) == Some(id) by {
      LookupItemsFor(e, ns, "redis_id");
    }
    var rest := Remove(items, VStr("redis_id"));
    assert Lookup(rest, VStr("redis_name")) == Some(name) by {
      LookupItemsFor(e, ns, "redis_name");
    }
    assert Remove(rest, VStr("redis_name")) == StoredRest(e);
    var kw := DictToKwargs(StoredRest(e)).value;
    LoadStoredKwargs(e, kw);
    DecodeMappingStored(e.cls, items, id, name, kw);
  }

  /** Without identity arguments, `decode_entry` takes both from the mapping and passes the rest on. */
  lemma DecodeMappingStored(c: EntryClass, items: Dict, id: Value, name: Value, kw: map<string, Value>)
    requires Truthy(id) && Lookup(items, VStr("redis_id")) == Some(id)
    requires Lookup(Remove(items, VStr("redis_id")), VStr("redis_name")) == Some(name)
    requires DictToKwargs(Remove(Remove(items, VStr("redis_id")), VStr("redis_name"))) == Ok(kw)
    ensures DecodeMapping(c, items, VNone, VNone) == LoadDict(c, id, name, kw)
  {
  }
}
