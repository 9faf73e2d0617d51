/**
 * The three `RedisError` exception classes of the repository. They share
 * their `repr`; they differ in the default of `related_command` and in the
 * text of `str(err)`.
 */
module RedisErrors {
  import opened Wrappers
  import opened PyValues

  /**
   * `RedisError(message, base_exception, related_command, extra_attrs)`.
   * `extra_attrs` is `None` when the caller leaves it out.
   */
  function NewError(cls: ErrorClass, message: string, base: Option<Exc>, related: Option<string>,
                    extra: Option<seq<(string, Value)>>): (e: RedisError)
    ensures e.cls == cls && e.message == message && e.baseException == base
    ensures e.extraAttrs == extra.GetOr([])
    ensures cls == CurrentErrors ==> e.relatedCommand == related
    ensures cls != CurrentErrors && Given(related) ==> e.relatedCommand == related
    ensures cls != CurrentErrors && !Given(related) ==> e.relatedCommand == Some("Unknown")
  {
    var cmd := if cls == CurrentErrors || Given(related) then related else Some("Unknown");
    RedisError(cls, message, base, cmd, extra.GetOr([]))
  }

  /** The older two classes always have a command to name. */
  lemma OlderErrorsAlwaysNameCommand(cls: ErrorClass, message: string, base: Option<Exc>,
                                     related: Option<string>, extra: Option<seq<(string, Value)>>)
    requires cls != CurrentErrors
    ensures Given(NewError(cls, message, base, related, extra).relatedCommand)
  {
  }

  /**
   * What `str(err)` writes before the message when a command is named; the
   * class in redisent/helpers/__init__.py puts two spaces after "Error".
   */
  function NamedHead(cls: ErrorClass, cmd: string): string {
    "Redis Error " + (if cls == PackageErrors then " " else "") + "with command \"" + cmd + "\""
  }

  /**
   * `str(err)`: "Redis Error ", then `with command "<cmd>"` when a truthy
   * command is named (after one more space in the package class), then
   * ": " and the message.
   */
  function Str(e: RedisError): (s: string)
    ensures !Given(e.relatedCommand) ==> s == "Redis Error : " + e.message
    ensures Given(e.relatedCommand) && e.cls != PackageErrors ==>
      s == "Redis Error with command \"" + e.relatedCommand.value + "\": " + e.message
    ensures Given(e.relatedCommand) && e.cls == PackageErrors ==>
      s == "Redis Error  with command \"" + e.relatedCommand.value + "\": " + e.message
    ensures StartsWith(s, "Redis Error ")
    ensures EndsWith(s, ": " + e.message)
  {
    var tail := ": " + e.message;
    var head := if Given(e.relatedCommand) then NamedHead(e.cls, e.relatedCommand.value) else "Redis Error ";
    HeadThenTail(head, tail);
    NamedHeadText(e.cls, e.relatedCommand.GetOr(""), e.message);
    head + tail
  }

  /** The head naming a command, followed by the message, spelled out. */
  lemma NamedHeadText(cls: ErrorClass, cmd: string, message: string)
    ensures NamedHead(cls, cmd) + (": " + message) ==
      (if cls == PackageErrors then "Redis Error  with command \"" else "Redis Error with command \"") + cmd + "\": " + message
  {
    var lead := if cls == PackageErrors then "Redis Error  with command \"" else "Redis Error with command \"";
    assert NamedHead(cls, cmd) == lead + cmd + "\"";
    calc {
      NamedHead(cls, cmd) + (": " + message);
      (lead + cmd) + ("\"" + (": " + message));
      { assert "\"" + (": " + message) == "\": " + message; }
      lead + cmd + "\": " + message;
    }
  }

  /** A text made of a head that starts with "Redis Error " and a tail starts with that and ends with the tail. */
  lemma HeadThenTail(head: string, tail: string)
    requires StartsWith(head, "Redis Error ")
    ensures StartsWith(head + tail, "Redis Error ") && EndsWith(head + tail, tail)
  {
    assert (head + tail)[..|"Redis Error "|] == head[..|"Redis Error "|];
    assert (head + tail)[|head + tail| - |tail|..] == tail;
  }

  /** `str(ex)` for any raised exception. */
  function ExcText(ex: Exc): string {
    match ex
    case Exc(_, t) => t
    case Redis(err) => Str(err)
  }

  /** `sep.join(parts)`. */
  function Join(parts: seq<string>, sep: string): (s: string)
    ensures parts == [] ==> s == ""
    ensures |parts| == 1 ==> s == parts[0]
  {
    if parts == [] then ""
    else if |parts| == 1 then parts[0]
    else Join(parts[..|parts| - 1], sep) + sep + parts[|parts| - 1]
  }

  /** `f'{attr} -> {val}'` for each extra attribute, in order. */
  function AttrTexts(attrs: seq<(string, Value)>): (ts: seq<string>)
    ensures |ts| == |attrs|
    ensures forall i :: 0 <= i < |attrs| ==> ts[i] == attrs[i].0 + " -> " + PyStr(attrs[i].1)
  {
    seq(|attrs|, i requires 0 <= i < |attrs| => attrs[i].0 + " -> " + PyStr(attrs[i].1))
  }

  const ReprTail := ")>"

  function ReprHead(e: RedisError): string {
    "<RedisError(message=\"" + e.message + "\""
  }

  /** The `base_exception` part of `repr(err)`: empty exactly when there is no base exception. */
  function BaseSegment(e: RedisError): (s: string)
    ensures s == "" <==> e.baseException.None?
    ensures e.baseException.Some? ==> StartsWith(s, ", base_exception=\"")
  {
    if e.baseException.Some? then
      var s := ", base_exception=\"" + ExcText(e.baseException.value) + "\"";
      assert s[..|", base_exception=\""|] == ", base_exception=\"";
      s
    else ""
  }

  /** The `extra_attrs` part of `repr(err)`: empty exactly when there are no extra attributes. */
  function AttrsSegment(e: RedisError): (s: string)
    ensures s == "" <==> e.extraAttrs == []
    ensures e.extraAttrs != [] ==> StartsWith(s, ", extra_attrs=\"")
  {
    if e.extraAttrs != [] then
      var s := ", extra_attrs=\"" + Join(AttrTexts(e.extraAttrs), "\", \"") + "\"";
      assert s[..|", extra_attrs=\""|] == ", extra_attrs=\"";
      s
    else ""
  }

  /** `repr(err)`, the same for all three classes. */
  function Repr(e: RedisError): (s: string)
    ensures StartsWith(s, ReprHead(e))
    ensures EndsWith(s, "\")>")
    ensures s == ReprHead(e) + BaseSegment(e) + AttrsSegment(e) + ReprTail
  {
    var s := ReprHead(e) + BaseSegment(e) + AttrsSegment(e) + ReprTail;
    assert s[..|ReprHead(e)|] == ReprHead(e);
    assert s[|s| - 3..] == "\")>";
    s
  }

  /** `repr(err)` mentions the base exception exactly when there is one. */
  lemma ReprBaseOnlyWhenSet(e: RedisError)
    ensures e.baseException.None? ==> Repr(e) == ReprHead(e) + AttrsSegment(e) + ReprTail
    ensures e.baseException.Some? ==> StartsWith(Repr(e), ReprHead(e) + ", base_exception=\"")
  {
    if e.baseException.Some? {
      var h := ReprHead(e) + ", base_exception=\"";
      assert Repr(e)[..|h|] == h;
    }
  }

  /** A `repr(err)` without base exception and extra attributes is only the message. */
  lemma ReprOfBareError(e: RedisError)
    requires e.baseException.None? && e.extraAttrs == []
    ensures Repr(e) == "<RedisError(message=\"" + e.message + "\")>"
  {
  }

  // ------------------------------------------------------------------ dump

  /** The context line `dump()` writes for one extra attribute. */
  function AttrLine(attr: (string, Value)): string {
    "= \"" + attr.0 + "\"\t-> \"" + PyStr(attr.1) + "\""
  }

  /** The context lines of `dump()`, one per extra attribute, in order. */
  function AttrLines(attrs: seq<(string, Value)>): (ls: seq<string>)
    ensures |ls| == |attrs|
    ensures forall i :: 0 <= i < |attrs| ==> ls[i] == AttrLine(attrs[i])
  {
    seq(|attrs|, i requires 0 <= i < |attrs| => AttrLine(attrs[i]))
  }

  /** The texts of `parts` written one after another, without separator. */
  function Concat(parts: seq<string>): string {
    if parts == [] then "" else Concat(parts[..|parts| - 1]) + parts[|parts| - 1]
  }

  function BaseLine(e: RedisError): string {
    if e.baseException.Some? then "-> Base Error:\t\"" + ExcText(e.baseException.value) + "\n\"" else ""
  }

  function ContextBlock(e: RedisError): string {
    if e.extraAttrs != [] then "Extra Context:\n" + Concat(AttrLines(e.extraAttrs)) else ""
  }

  /** What `err.dump()` returns. */
  function DumpText(e: RedisError): string {
    Str(e) + "\n" + BaseLine(e) + ContextBlock(e)
  }

  /** `RedisError.dump`, accumulating the text one attribute at a time. */
  method Dump(e: RedisError) returns (out: string)
    ensures out == DumpText(e)
  {
    var first := Str(e) + "\n";
    out := first;
    if e.baseException.Some? {
      out := out + BaseLine(e);
    } else {
      assert out == first + BaseLine(e);
    }
    if e.extraAttrs != [] {
      var context := AppendAttrLines("Extra Context:\n", e.extraAttrs);
      out := out + context;
    } else {
      assert out == first + BaseLine(e) + ContextBlock(e);
    }
  }

  /** The loop of `dump` over the extra attributes. */
  method AppendAttrLines(head: string, attrs: seq<(string, Value)>) returns (out: string)
    ensures out == head + Concat(AttrLines(attrs))
  {
    out := head;
    ghost var lines := AttrLines(attrs);
    var i := 0;
    while i < |attrs|
      invariant 0 <= i <= |attrs|
      invariant out == head + Concat(lines[..i])
    {
      AppendStep(head, lines, i);
      out := out + AttrLine(attrs[i]);
      i := i + 1;
    }
    assert lines[..i] == lines;
  }

  lemma AppendStep(head: string, lines: seq<string>, i: nat)
    requires i < |lines|
    ensures head + Concat(lines[..i]) + lines[i] == head + Concat(lines[..i + 1])
  {
    ConcatSnoc(lines, i);
  }

  lemma ConcatSnoc(lines: seq<string>, i: nat)
    requires i < |lines|
    ensures Concat(lines[..i + 1]) == Concat(lines[..i]) + lines[i]
  {
    assert lines[..i + 1][..i] == lines[..i];
  }

  /** Concatenating two runs of texts is concatenating their concatenations. */
  lemma {:induction false} ConcatAppend(a: seq<string>, b: seq<string>)
    ensures Concat(a + b) == Concat(a) + Concat(b)
    decreases |b|
  {
    if b == [] {
      assert a + b == a;
    } else {
      var b' := b[..|b| - 1];
      var ab := a + b;
      assert ab[..|ab| - 1] == a + b';
      ConcatAppend(a, b');
    }
  }

  /** `dump()` starts with `str(err)` and a newline, and is no more than that when there is no context. */
  lemma DumpStartsWithStr(e: RedisError)
    ensures StartsWith(DumpText(e), Str(e) + "\n")
    ensures e.baseException.None? && e.extraAttrs == [] ==> DumpText(e) == Str(e) + "\n"
  {
    var d := DumpText(e);
    var h := Str(e) + "\n";
    assert d == h + (BaseLine(e) + ContextBlock(e));
    assert d[..|h|] == h;
  }

  /**
   * The context block of `dump()` holds one line per extra attribute, each
   * after the lines of the attributes before it.
   */
  lemma {:induction false} ContextListsEveryAttr(attrs: seq<(string, Value)>, i: nat)
    requires i < |attrs|
    ensures exists post :: Concat(AttrLines(attrs)) == Concat(AttrLines(attrs[..i])) + AttrLine(attrs[i]) + post
  {
    var lines := AttrLines(attrs);
    var rest := lines[i + 1..];
    assert lines == lines[..i + 1] + rest;
    ConcatAppend(lines[..i + 1], rest);
    ConcatSnoc(lines, i);
    assert AttrLines(attrs[..i]) == lines[..i];
    var post := Concat(rest);
    assert Concat(lines) == Concat(lines[..i]) + lines[i] + post;
  }

  /** `err.is_connection_error`. */
  function IsConnectionError(e: RedisError): (conn: bool)
    ensures conn <==> exists t :: e.baseException == Some(Exc(ConnectionError, t))
    ensures conn ==> e.baseException.Some?
    ensures e.baseException.Some? && e.baseException.value.Redis? ==> !conn
  {
    e.baseException.Some? && e.baseException.value.Exc? && e.baseException.value.kind == ConnectionError
  }
}
