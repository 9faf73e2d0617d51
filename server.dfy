/**
 * The Redis server behind the connection pools, reduced to the commands the
 * helpers issue: strings (SET, GET), hashes (HSET, HGET, HEXISTS, HDEL,
 * HKEYS, HGETALL, HLEN) and the keyspace (EXISTS, DEL, TYPE, KEYS, LLEN).
 * Keys and hash fields are text; values are bytes.
 */
module RedisServer {
  import opened Wrappers
  import opened PyValues

  /** What a key holds: a string value or a hash of fields. */
  datatype StoreValue = Flat(blob: Blob) | Hash(fields: map<string, Blob>)

  type Data = map<string, StoreValue>

  /** Redis never keeps an empty hash: the last HDEL removes the key. */
  predicate WellFormed(d: Data) {
    forall k | k in d :: d[k].Hash? ==> d[k].fields != map[]
  }

  /** The error reply to a command of one type sent to a key of another. */
  const WrongType := Exc(ResponseError, "WRONGTYPE Operation against a key holding the wrong kind of value")

  /** The fields of the hash at `key`, empty when the key is absent. */
  function FieldsOf(d: Data, key: string): map<string, Blob>
    requires key in d ==> d[key].Hash?
  {
    if key in d then d[key].fields else map[]
  }

  predicate NoDups<T(==)>(xs: seq<T>) {
    forall i, j :: 0 <= i < j < |xs| ==> xs[i] != xs[j]
  }

  // ------------------------------------------------------------------- glob

  /** KEYS pattern matching with `*` (any run) and `?` (any one character). */
  predicate Matches(pattern: string, s: string)
    decreases |pattern| + |s|
  {
    if pattern == [] then s == []
    else if pattern[0] == '*' then Matches(pattern[1..], s) || (s != [] && Matches(pattern, s[1..]))
    else s != [] && (pattern[0] == '?' || pattern[0] == s[0]) && Matches(pattern[1..], s[1..])
  }

  /** `KEYS *` lists every key. */
  lemma {:induction false} StarMatchesEverything(s: string)
    ensures Matches("*", s)
  {
    assert "*"[1..] == [];
    if s != [] {
      StarMatchesEverything(s[1..]);
    }
  }

  predicate Literal(pattern: string) {
    forall i :: 0 <= i < |pattern| ==> pattern[i] != '*' && pattern[i] != '?'
  }

  /** A pattern without wildcards matches only itself. */
  lemma {:induction false} LiteralMatchesOnlyItself(pattern: string, s: string)
    requires Literal(pattern)
    ensures Matches(pattern, s) <==> pattern == s
    decreases |pattern|
  {
    if pattern != [] && s != [] {
      assert Literal(pattern[1..]) by {
        forall i | 0 <= i < |pattern[1..]| ensures pattern[1..][i] != '*' && pattern[1..][i] != '?' {
          assert pattern[1..][i] == pattern[i + 1];
        }
      }
      LiteralMatchesOnlyItself(pattern[1..], s[1..]);
      assert pattern == [pattern[0]] + pattern[1..];
      assert s == [s[0]] + s[1..];
    }
  }

  // ------------------------------------------------------------ the server

  class RedisStore {
    var data: Data

    ghost predicate Valid()
      reads this
    {
      WellFormed(data)
    }

    /** An empty database. */
    constructor ()
      ensures data == map[] && Valid()
    {
      data := map[];
    }

    /** SET: the key now holds `value`, whatever it held before. */
    method Set(key: string, value: Blob) returns (ok: bool)
      modifies this
      ensures data == old(data)[key := Flat(value)]
      ensures ok
      ensures old(Valid()) ==> Valid()
    {
      data := data[key := Flat(value)];
      ok := true;
    }

    /** GET: the string at `key`, nothing for an absent key, WRONGTYPE for a hash. */
    method Get(key: string) returns (r: Result<Option<Blob>, Exc>)
      ensures key !in data ==> r == Ok(None)
      ensures key in data && data[key].Flat? ==> r == Ok(Some(data[key].blob))
      ensures key in data && data[key].Hash? ==> r == Err(WrongType)
    {
      if key !in data {
        r := Ok(None);
      } else if data[key].Flat? {
        r := Ok(Some(data[key].blob));
      } else {
        r := Err(WrongType);
      }
    }

    /** EXISTS with one key: the number of given keys that exist. */
    method Exists(key: string) returns (n: nat)
      ensures n == 1 <==> key in data
      ensures n <= 1
    {
      n := if key in data then 1 else 0;
    }

    /** DEL with one key: removes it and replies how many keys went. */
    method Delete(key: string) returns (n: nat)
      modifies this
      ensures data == old(data) - {key}
      ensures n == (if key in old(data) then 1 else 0)
      ensures old(Valid()) ==> Valid()
    {
      n := if key in data then 1 else 0;
      data := data - {key};
    }

    /** TYPE: "string", "hash" or "none". */
    method Type(key: string) returns (t: string)
      ensures key !in data ==> t == "none"
      ensures key in data && data[key].Flat? ==> t == "string"
      ensures key in data && data[key].Hash? ==> t == "hash"
    {
      if key !in data {
        t := "none";
      } else if data[key].Flat? {
        t := "string";
      } else {
        t := "hash";
      }
    }

    /** HSET with one field: replies 1 when the field is new and 0 when it was overwritten. */
    method HSet(key: string, field: string, value: Blob) returns (r: Result<nat, Exc>)
      modifies this
      ensures key in old(data) && old(data)[key].Flat? ==> r == Err(WrongType) && data == old(data)
      ensures !(key in old(data) && old(data)[key].Flat?) ==>
        && data == old(data)[key := Hash(FieldsOf(old(data), key)[field := value])]
        && r == Ok(if field in FieldsOf(old(data), key) then 0 else 1)
      ensures old(Valid()) ==> Valid()
    {
      if key in data && data[key].Flat? {
        r := Err(WrongType);
      } else {
        var fields := FieldsOf(data, key);
        r := Ok(if field in fields then 0 else 1);
        data := data[key := Hash(fields[field := value])];
      }
    }

    /** HGET: the field's value, nothing for an absent key or field, WRONGTYPE for a string. */
    method HGet(key: string, field: string) returns (r: Result<Option<Blob>, Exc>)
      ensures key in data && data[key].Flat? ==> r == Err(WrongType)
      ensures !(key in data && data[key].Flat?) ==>
        r == Ok(if field in FieldsOf(data, key) then Some(FieldsOf(data, key)[field]) else None)
    {
      if key in data && data[key].Flat? {
        r := Err(WrongType);
      } else {
        var fields := FieldsOf(data, key);
        r := Ok(if field in fields then Some(fields[field]) else None);
      }
    }

    /** HEXISTS: whether the hash at `key` has `field`. */
    method HExists(key: string, field: string) returns (r: Result<bool, Exc>)
      ensures key in data && data[key].Flat? ==> r == Err(WrongType)
      ensures !(key in data && data[key].Flat?) ==> r == Ok(field in FieldsOf(data, key))
    {
      if key in data && data[key].Flat? {
        r := Err(WrongType);
      } else {
        r := Ok(field in FieldsOf(data, key));
      }
    }

    /** HDEL with one field: removes it, and the key with its last field; replies how many fields went. */
    method HDel(key: string, field: string) returns (r: Result<nat, Exc>)
      modifies this
      ensures key in old(data) && old(data)[key].Flat? ==> r == Err(WrongType) && data == old(data)
      ensures !(key in old(data) && old(data)[key].Flat?) ==>
        && r == Ok(if field in FieldsOf(old(data), key) then 1 else 0)
        && (FieldsOf(old(data), key) - {field} == map[] ==> data == old(data) - {key})
        && (FieldsOf(old(data), key) - {field} != map[] ==>
              data == old(data)[key := Hash(FieldsOf(old(data), key) - {field})])
      ensures old(Valid()) ==> Valid()
    {
      if key in data && data[key].Flat? {
        r := Err(WrongType);
      } else {
        var fields := FieldsOf(data, key);
        r := Ok(if field in fields then 1 else 0);
        var rest := fields - {field};
        if rest == map[] {
          data := data - {key};
        } else {
          data := data[key := Hash(rest)];
        }
      }
    }

    /** HLEN: the number of fields, 0 for an absent key. */
    method HLen(key: string) returns (r: Result<nat, Exc>)
      ensures key in data && data[key].Flat? ==> r == Err(WrongType)
      ensures !(key in data && data[key].Flat?) ==> r == Ok(|FieldsOf(data, key)|)
    {
      if key in data && data[key].Flat? {
        r := Err(WrongType);
      } else {
        r := Ok(|FieldsOf(data, key)|);
      }
    }

    /** LLEN: 0 for an absent key; every key that exists here holds a string or a hash, not a list. */
    method LLen(key: string) returns (r: Result<nat, Exc>)
      ensures key !in data ==> r == Ok(0)
      ensures key in data ==> r == Err(WrongType)
    {
      r := if key in data then Err(WrongType) else Ok(0);
    }

    /** KEYS: every key matching `pattern`, once each, in no particular order. */
    method Keys(pattern: string) returns (ks: seq<string>)
      ensures forall k :: k in ks <==> k in data && Matches(pattern, k)
      ensures NoDups(ks)
    {
      ks := [];
      var rest := data.Keys;
      while rest != {}
        invariant rest <= data.Keys
        invariant forall k :: k in ks <==> k in data && k !in rest && Matches(pattern, k)
        invariant NoDups(ks)
        decreases |rest|
      {
        var k :| k in rest;
        if Matches(pattern, k) {
          ks := ks + [k];
        }
        rest := rest - {k};
      }
    }

    /** HKEYS: every field of the hash at `key`, once each, in no particular order. */
    method HKeys(key: string) returns (r: Result<seq<string>, Exc>)
      ensures key in data && data[key].Flat? ==> r == Err(WrongType)
      ensures !(key in data && data[key].Flat?) ==>
        && r.Ok? && NoDups(r.value)
        && forall f :: f in r.value <==> f in FieldsOf(data, key)
    {
      if key in data && data[key].Flat? {
        return Err(WrongType);
      }
      var fields := FieldsOf(data, key);
      var names := [];
      var rest := fields.Keys;
      while rest != {}
        invariant rest <= fields.Keys
        invariant forall f :: f in names <==> f in fields && f !in rest
        invariant NoDups(names)
        decreases |rest|
      {
        var f :| f in rest;
        names := names + [f];
        rest := rest - {f};
      }
      r := Ok(names);
    }

    /** HGETALL: every field of the hash at `key` with its value, once each, in no particular order. */
    method HGetAll(key: string) returns (r: Result<seq<(string, Blob)>, Exc>)
      ensures key in data && data[key].Flat? ==> r == Err(WrongType)
      ensures !(key in data && data[key].Flat?) ==> r.Ok? && IsListing(r.value, FieldsOf(data, key))
    {
      if key in data && data[key].Flat? {
        return Err(WrongType);
      }
      var fields := FieldsOf(data, key);
      var items := [];
      var rest := fields.Keys;
      while rest != {}
        invariant rest <= fields.Keys
        invariant forall f :: f in Names(items) <==> f in fields && f !in rest
        invariant forall i :: 0 <= i < |items| ==> items[i].0 in fields && items[i].1 == fields[items[i].0]
        invariant NoDups(Names(items))
        decreases |rest|
      {
        var f :| f in rest;
        assert Names(items + [(f, fields[f])]) == Names(items) + [f];
        items := items + [(f, fields[f])];
        rest := rest - {f};
      }
      r := Ok(items);
    }
  }

  function Names(items: seq<(string, Blob)>): (ns: seq<string>)
    ensures |ns| == |items|
    ensures forall i :: 0 <= i < |items| ==> ns[i] == items[i].0
  {
    seq(|items|, i requires 0 <= i < |items| => items[i].0)
  }

  /** `items` lists the map `m`: each entry once, with its value. */
  ghost predicate IsListing(items: seq<(string, Blob)>, m: map<string, Blob>) {
    && NoDups(Names(items))
    && (forall f :: f in Names(items) <==> f in m)
    && (forall i :: 0 <= i < |items| ==> items[i].0 in m && items[i].1 == m[items[i].0])
  }
}
