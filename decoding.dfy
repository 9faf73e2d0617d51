/**
 * The decode-fallback chain applied to Redis replies: unpickle, else the
 * caller's handler, else text-decode, else the raw value. The repository has
 * two copies of it, `RedisentHelper.handle_decode_attempt` in
 * src/redisent/helpers.py and `RedisentHelper._handle_decode_attempt` in
 * redisent/helpers.py; they differ in which failures of `pickle.loads` they
 * catch and in whether they ask `hasattr(value, 'decode')` first.
 * Every encoding name is taken to be UTF-8.
 */
module Decoding {
  import opened Wrappers
  import opened PyValues

  /** Which copy of the chain: src/redisent/helpers.py or redisent/helpers.py. */
  datatype Variant = Current | Legacy

  /** A caller-supplied `decode_handler`, `first_handler` or `final_handler`. */
  type Handler = Value -> Value

  /** `value.decode(encoding)`; the current copy leaves a value without `decode` as it is. */
  function TextDecode(variant: Variant, v: Value): (r: Result<Value, Exc>)
    ensures v.VBytes? && v.blob.Text? ==> r == Ok(VStr(v.blob.chars))
    ensures v.VBytes? && v.blob.Pickled? ==> r.Err?
    ensures !v.VBytes? && variant == Current ==> r == Ok(v)
    ensures !v.VBytes? && variant == Legacy ==> r.Err? && r.error.Exc? && r.error.kind == AttributeError
  {
    match v
    case VBytes(b) =>
      (match DecodeUtf8(b)
       case Ok(s) => Ok(VStr(s))
       case Err(ex) => Err(ex))
    case _ =>
      if variant == Current then Ok(v)
      else Err(Exc(AttributeError, "'" + TypeName(v) + "' object has no attribute 'decode'"))
  }

  /**
   * The failures of `pickle.loads` that `decode_value` catches: `PickleError`
   * in both copies, and `TypeError` as well in the current one.
   */
  predicate Caught(variant: Variant, ex: Exc) {
    IsPickleError(ex) || (variant == Current && ex.Exc? && ex.kind == TypeError)
  }

  /** `decode_value`: the unpickled value, else the handler's result, else the text, else the raw value. */
  function DecodeValue(variant: Variant, v: Value, encoding: Option<string>, handler: Option<Handler>): Result<Value, Exc> {
    match Loads(v)
    case Ok(x) => Ok(x)
    case Err(ex) =>
      if !Caught(variant, ex) then Err(ex)
      else if handler.Some? then Ok(handler.value(v))
      else if Given(encoding) then TextDecode(variant, v)
      else Ok(v)
  }

  /** A pickle stream always decodes to the value it holds: unpickling wins over every fallback. */
  lemma UnpickleWins(variant: Variant, v: Value, encoding: Option<string>, handler: Option<Handler>)
    requires v.VBytes? && v.blob.Pickled?
    ensures DecodeValue(variant, v, encoding, handler) == Ok(v.blob.payload)
  {
  }

  /** What `pickle.dumps` produced, `decode_value` gives back. */
  lemma DecodeValueInvertsDumps(variant: Variant, x: Value, encoding: Option<string>, handler: Option<Handler>)
    requires Picklable(x)
    ensures DecodeValue(variant, VBytes(Dumps(x).value), encoding, handler) == Ok(x)
  {
  }

  /** Bytes that are not a pickle stream go to the handler, else become text, else stay as they are. */
  lemma FallbackChain(variant: Variant, s: string, encoding: Option<string>, handler: Option<Handler>)
    requires s != ""
    ensures handler.Some? ==>
      DecodeValue(variant, VBytes(Text(s)), encoding, handler) == Ok(handler.value(VBytes(Text(s))))
    ensures handler.None? && Given(encoding) ==>
      DecodeValue(variant, VBytes(Text(s)), encoding, handler) == Ok(VStr(s))
    ensures handler.None? && !Given(encoding) ==>
      DecodeValue(variant, VBytes(Text(s)), encoding, handler) == Ok(VBytes(Text(s)))
  {
  }

  /** An empty bytes value makes `pickle.loads` raise `EOFError`, which neither copy catches. */
  lemma EmptyBytesEscape(variant: Variant, encoding: Option<string>, handler: Option<Handler>)
    ensures DecodeValue(variant, VBytes(Text("")), encoding, handler) == Err(Exc(EOFError, "Ran out of input"))
  {
  }

  /** A value that is not bytes: the current copy passes it on, the legacy copy lets the `TypeError` out. */
  lemma NonBytesValues(v: Value, encoding: Option<string>, handler: Option<Handler>)
    requires !v.VBytes?
    ensures handler.None? ==> DecodeValue(Current, v, encoding, handler) == Ok(v)
    ensures handler.Some? ==> DecodeValue(Current, v, encoding, handler) == Ok(handler.value(v))
    ensures DecodeValue(Legacy, v, encoding, handler).Err?
    ensures DecodeValue(Legacy, v, encoding, handler).error.kind == TypeError
  {
  }

  /** The list comprehension over `decode_value`: the first failure, in list order, is raised. */
  function DecodeList(variant: Variant, xs: seq<Value>, encoding: Option<string>, handler: Option<Handler>)
    : (r: Result<seq<Value>, Exc>)
    ensures r.Ok? <==> forall i :: 0 <= i < |xs| ==> DecodeValue(variant, xs[i], encoding, handler).Ok?
    ensures r.Ok? ==> |r.value| == |xs|
    ensures r.Ok? ==> forall i :: 0 <= i < |xs| ==> DecodeValue(variant, xs[i], encoding, handler) == Ok(r.value[i])
    ensures r.Err? ==> exists i :: 0 <= i < |xs| && DecodeValue(variant, xs[i], encoding, handler) == Err(r.error)
                                   && forall j :: 0 <= j < i ==> DecodeValue(variant, xs[j], encoding, handler).Ok?
    decreases |xs|
  {
    if xs == [] then Ok([])
    else
      var n := |xs| - 1;
      var prefix := xs[..n];
      assert forall i :: 0 <= i < n ==> prefix[i] == xs[i];
      match DecodeList(variant, prefix, encoding, handler)
      case Err(ex) => Err(ex)
      case Ok(done) =>
        match DecodeValue(variant, xs[n], encoding, handler)
        case Err(ex) => Err(ex)
        case Ok(x) => Ok(done + [x])
  }

  /** How a dict key is rewritten: text-decoded when an encoding is given, else kept. */
  function DecodeKey(variant: Variant, k: Value, encoding: Option<string>): (r: Result<Value, Exc>)
    ensures !Given(encoding) ==> r == Ok(k)
  {
    if Given(encoding) then TextDecode(variant, k) else Ok(k)
  }

  /** The keys the items are rewritten to, leaving out those whose rewriting fails. */
  function DecodedKeySet(variant: Variant, items: Dict, encoding: Option<string>): set<Value>
    decreases |items|
  {
    if items == [] then {}
    else
      var n := |items| - 1;
      var k := DecodeKey(variant, items[n].0, encoding);
      DecodedKeySet(variant, items[..n], encoding) + (if k.Ok? then {k.value} else {})
  }

  lemma {:induction false} DecodedKeySetMember(variant: Variant, items: Dict, encoding: Option<string>, k: Value)
    requires k in DecodedKeySet(variant, items, encoding)
    ensures exists i :: 0 <= i < |items| && DecodeKey(variant, items[i].0, encoding) == Ok(k)
    decreases |items|
  {
    var n := |items| - 1;
    var last := DecodeKey(variant, items[n].0, encoding);
    if !(last.Ok? && last.value == k) {
      DecodedKeySetMember(variant, items[..n], encoding, k);
      var i :| 0 <= i < n && DecodeKey(variant, items[..n][i].0, encoding) == Ok(k);
      assert items[..n][i] == items[i];
    }
  }

  /**
   * The dict branch: every item in order has its key rewritten and its value
   * decoded into a new dict; the first failure is raised. The new dict has
   * exactly the rewritten keys, and no more items than the input.
   */
  function DecodeItems(variant: Variant, items: Dict, encoding: Option<string>, handler: Option<Handler>)
    : (r: Result<Dict, Exc>)
    ensures r.Ok? ==> |r.value| <= |items|
    decreases |items|
  {
    if items == [] then Ok([])
    else
      var n := |items| - 1;
      var prefix := items[..n];
      match DecodeItems(variant, prefix, encoding, handler)
      case Err(ex) => Err(ex)
      case Ok(done) =>
        match DecodeKey(variant, items[n].0, encoding)
        case Err(ex) => Err(ex)
        case Ok(k) =>
          match DecodeValue(variant, items[n].1, encoding, handler)
          case Err(ex) => Err(ex)
          case Ok(v) => Ok(Insert(done, k, v))
  }

  /** No two items have their keys rewritten to the same key. */
  predicate DistinctDecodedKeys(variant: Variant, items: Dict, encoding: Option<string>) {
    forall i, j :: 0 <= i < j < |items| ==>
      DecodeKey(variant, items[i].0, encoding) != DecodeKey(variant, items[j].0, encoding)
  }

  /** Every key and every value of the items decodes. */
  predicate AllDecode(variant: Variant, items: Dict, encoding: Option<string>, handler: Option<Handler>) {
    forall i :: 0 <= i < |items| ==>
      DecodeKey(variant, items[i].0, encoding).Ok? && DecodeValue(variant, items[i].1, encoding, handler).Ok?
  }

  /** A dict that decodes has every key and value decoded, and exactly the rewritten keys. */
  lemma {:induction false} DecodeItemsKeys(variant: Variant, items: Dict, encoding: Option<string>, handler: Option<Handler>)
    requires DecodeItems(variant, items, encoding, handler).Ok?
    ensures AllDecode(variant, items, encoding, handler)
    ensures KeySet(DecodeItems(variant, items, encoding, handler).value) == DecodedKeySet(variant, items, encoding)
    decreases |items|
  {
    if items != [] {
      var n := |items| - 1;
      DecodeItemsKeys(variant, items[..n], encoding, handler);
      AllDecodeSnoc(variant, items, encoding, handler);
    }
  }

  lemma AllDecodeSnoc(variant: Variant, items: Dict, encoding: Option<string>, handler: Option<Handler>)
    requires items != [] && AllDecode(variant, items[..|items| - 1], encoding, handler)
    requires DecodeKey(variant, items[|items| - 1].0, encoding).Ok?
    requires DecodeValue(variant, items[|items| - 1].1, encoding, handler).Ok?
    ensures AllDecode(variant, items, encoding, handler)
  {
    var n := |items| - 1;
    forall i | 0 <= i < n
      ensures DecodeKey(variant, items[i].0, encoding).Ok? && DecodeValue(variant, items[i].1, encoding, handler).Ok?
    {
      assert items[..n][i] == items[i];
    }
  }

  /** Each item with its key rewritten and its value decoded, position by position. */
  function DecodedPairs(variant: Variant, items: Dict, encoding: Option<string>, handler: Option<Handler>): (ps: Dict)
    requires AllDecode(variant, items, encoding, handler)
    ensures |ps| == |items|
  {
    seq(|items|, i requires 0 <= i < |items| =>
      (DecodeKey(variant, items[i].0, encoding).value, DecodeValue(variant, items[i].1, encoding, handler).value))
  }

  lemma DecodedPairsSnoc(variant: Variant, items: Dict, encoding: Option<string>, handler: Option<Handler>)
    requires items != []
    requires AllDecode(variant, items, encoding, handler)
    ensures AllDecode(variant, items[..|items| - 1], encoding, handler)
    ensures DecodedPairs(variant, items, encoding, handler) ==
      DecodedPairs(variant, items[..|items| - 1], encoding, handler)
        + [(DecodeKey(variant, items[|items| - 1].0, encoding).value,
            DecodeValue(variant, items[|items| - 1].1, encoding, handler).value)]
  {
    var n := |items| - 1;
    var prefix := items[..n];
    assert forall i :: 0 <= i < n ==> prefix[i] == items[i];
    var whole := DecodedPairs(variant, items, encoding, handler);
    var front := DecodedPairs(variant, prefix, encoding, handler);
    assert forall i :: 0 <= i < n ==> whole[i] == front[i];
  }

  /**
   * When every key and value decodes and no two keys are rewritten to the same
   * key, the dict branch keeps one item per input item, in the same order.
   */
  lemma {:induction false} DecodeItemsKeepsEveryItem(variant: Variant, items: Dict, encoding: Option<string>, handler: Option<Handler>)
    requires AllDecode(variant, items, encoding, handler)
    requires DistinctDecodedKeys(variant, items, encoding)
    ensures DecodeItems(variant, items, encoding, handler) == Ok(DecodedPairs(variant, items, encoding, handler))
    decreases |items|
  {
    if items != [] {
      var n := |items| - 1;
      var prefix := items[..n];
      assert forall i :: 0 <= i < n ==> prefix[i] == items[i];
      assert AllDecode(variant, prefix, encoding, handler);
      assert DistinctDecodedKeys(variant, prefix, encoding);
      DecodeItemsKeepsEveryItem(variant, prefix, encoding, handler);
      var done := DecodedPairs(variant, prefix, encoding, handler);
      var k := DecodeKey(variant, items[n].0, encoding).value;
      var v := DecodeValue(variant, items[n].1, encoding, handler).value;
      assert k !in KeySet(done);
      InsertFresh(done, k, v);
      DecodedPairsSnoc(variant, items, encoding, handler);
    }
  }

  /** `handle_decode_attempt` / `_handle_decode_attempt` on a whole reply. */
  function DecodeAttempt(variant: Variant, res: Value, encoding: Option<string>, handler: Option<Handler>)
    : (r: Result<Value, Exc>)
    ensures !Truthy(res) ==> r == Ok(res)
    ensures Truthy(res) && res.VList? && r.Ok? ==>
      && r.value.VList? && |r.value.elems| == |res.elems|
      && forall i :: 0 <= i < |res.elems| ==> DecodeValue(variant, res.elems[i], encoding, handler) == Ok(r.value.elems[i])
    ensures Truthy(res) && res.VDict? && r.Ok? ==> r.value.VDict?
    ensures Truthy(res) && !res.VList? && !res.VDict? && !Given(encoding) ==> r == Ok(res)
  {
    if !Truthy(res) then Ok(res)
    else
      match res
      case VList(xs) =>
        (match DecodeList(variant, xs, encoding, handler)
         case Ok(ys) => Ok(VList(ys))
         case Err(ex) => Err(ex))
      case VDict(items) =>
        (match DecodeItems(variant, items, encoding, handler)
         case Ok(d) => Ok(VDict(d))
         case Err(ex) => Err(ex))
      case _ => if Given(encoding) then TextDecode(variant, res) else Ok(res)
  }

  /**
   * `RedisentHelper.handle_decode_attempt` of src/redisent/helpers.py, which
   * fills the decoded dict in a loop.
   */
  method HandleDecodeAttempt(res: Value, encoding: Option<string>, handler: Option<Handler>)
    returns (r: Result<Value, Exc>)
    ensures r == DecodeAttempt(Current, res, encoding, handler)
  {
    if !Truthy(res) {
      return Ok(res);
    }
    if res.VList? {
      var ys := DecodeList(Current, res.elems, encoding, handler);
      return if ys.Ok? then Ok(VList(ys.value)) else Err(ys.error);
    }
    if res.VDict? {
      var d := DecodeItemsLoop(res.items, encoding, handler);
      return if d.Ok? then Ok(VDict(d.value)) else Err(d.error);
    }
    r := if Given(encoding) then TextDecode(Current, res) else Ok(res);
  }

  /** The loop of `handle_decode_attempt` that fills the decoded dict. */
  method DecodeItemsLoop(items: Dict, encoding: Option<string>, handler: Option<Handler>)
    returns (r: Result<Dict, Exc>)
    ensures r == DecodeItems(Current, items, encoding, handler)
  {
    var results: Dict := [];
    var i := 0;
    while i < |items|
      invariant 0 <= i <= |items|
      invariant DecodeItems(Current, items[..i], encoding, handler) == Ok(results)
    {
      var step := DecodeInto(results, items, i, encoding, handler);
      if step.Err? {
        return step;
      }
      results := step.value;
      i := i + 1;
    }
    assert items[..i] == items;
    r := Ok(results);
  }

  /** One pass of that loop: the item's key rewritten and its value decoded into `results`. */
  method DecodeInto(results: Dict, items: Dict, i: nat, encoding: Option<string>, handler: Option<Handler>)
    returns (step: Result<Dict, Exc>)
    requires i < |items| && DecodeItems(Current, items[..i], encoding, handler) == Ok(results)
    ensures step == DecodeItems(Current, items[..i + 1], encoding, handler)
    ensures step.Err? ==> step == DecodeItems(Current, items, encoding, handler)
  {
    DecodeItemsUnfold(Current, items, i, encoding, handler);
    if DecodeItems(Current, items[..i + 1], encoding, handler).Err? {
      DecodeItemsErrPropagates(Current, items, i + 1, encoding, handler);
    }
    var name := DecodeKey(Current, items[i].0, encoding);
    if name.Err? {
      return Err(name.error);
    }
    var value := DecodeValue(Current, items[i].1, encoding, handler);
    if value.Err? {
      return Err(value.error);
    }
    step := Ok(Insert(results, name.value, value.value));
  }

  /** One more item: the prefix's result, then the item's key and value, the first failure winning. */
  lemma DecodeItemsUnfold(variant: Variant, items: Dict, i: nat, encoding: Option<string>, handler: Option<Handler>)
    requires i < |items|
    ensures DecodeItems(variant, items[..i + 1], encoding, handler) ==
      match DecodeItems(variant, items[..i], encoding, handler)
      case Err(ex) => Err(ex)
      case Ok(done) =>
        match DecodeKey(variant, items[i].0, encoding)
        case Err(ex) => Err(ex)
        case Ok(k) =>
          match DecodeValue(variant, items[i].1, encoding, handler)
          case Err(ex) => Err(ex)
          case Ok(v) => Ok(Insert(done, k, v))
  {
    assert items[..i + 1][..i] == items[..i];
  }

  /** Once a prefix of the items fails, so does every longer prefix, with the same exception. */
  lemma {:induction false} DecodeItemsErrPropagates(variant: Variant, items: Dict, n: nat, encoding: Option<string>, handler: Option<Handler>)
    requires n <= |items|
    requires DecodeItems(variant, items[..n], encoding, handler).Err?
    ensures DecodeItems(variant, items, encoding, handler) == DecodeItems(variant, items[..n], encoding, handler)
    decreases |items| - n
  {
    if n < |items| {
      assert items[..n + 1][..n] == items[..n];
      DecodeItemsErrPropagates(variant, items, n + 1, encoding, handler);
    } else {
      assert items[..n] == items;
    }
  }

  /**
   * `decode_entries`: a `first_handler` gets the raw reply and nothing is
   * decoded; otherwise the reply goes through the chain with `final_handler`.
   */
  function DecodeEntries(variant: Variant, res: Value, encoding: Option<string>,
                         firstHandler: Option<Handler>, finalHandler: Option<Handler>): (r: Result<Value, Exc>)
    ensures firstHandler.Some? ==> r == Ok(firstHandler.value(res))
    ensures firstHandler.None? ==> r == DecodeAttempt(variant, res, encoding, finalHandler)
  {
    if firstHandler.Some? then Ok(firstHandler.value(res))
    else DecodeAttempt(variant, res, encoding, finalHandler)
  }
}
