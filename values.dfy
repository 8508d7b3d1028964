/** JSON values as the reconciler sees them, and Python's truthiness and
    number tests over them. */
module Values {

  datatype Option<T> = None | Some(value: T)

  /** A JSON value held in a record field. Python's bool is a subclass of int,
      so `Bool` passes every `isinstance(x, (int, float))` test. Lists and
      nested objects are opaque: only whether they are empty matters. */
  datatype Value =
    | Int(i: int)
    | Num(x: real)
    | Bool(b: bool)
    | Str(s: string)
    | Null
    | Other(nonEmpty: bool)

  /** One entry of `rates`: normally an object (a record), but a template may
      hold anything there. */
  datatype Entry = Object(fields: map<string, Value>) | NonObject(v: Value)

  /** Python truthiness of a JSON value. */
  predicate Truthy(v: Value)
  {
    match v
    case Int(i) => i != 0
    case Num(x) => x != 0.0
    case Bool(b) => b
    case Str(s) => s != ""
    case Null => false
    case Other(n) => n
  }

  /** `isinstance(v, (int, float))`. */
  predicate IsNumber(v: Value)
  {
    v.Int? || v.Num? || v.Bool?
  }

  /** `float(v)` for a number. */
  function ToReal(v: Value): (r: real)
    requires IsNumber(v)
    ensures Truthy(v) <==> r != 0.0
  {
    match v
    case Int(i) => i as real
    case Num(x) => x
    case Bool(b) => if b then 1.0 else 0.0
  }

  /** A record's `kind` field is the string `k`. `str(r.get("kind"))` of a
      value that is not a string never spells an allowed kind. */
  predicate HasKind(e: Entry, k: string)
  {
    e.Object? && "kind" in e.fields && e.fields["kind"] == Str(k)
  }

  /** Every entry of the rate set is an object; the source's `.get` calls
      raise on anything else. */
  predicate AllObjects(rates: map<string, Entry>)
  {
    forall k :: k in rates ==> rates[k].Object?
  }

  /** `r[f] = v` on a record. */
  function SetField(e: Entry, f: string, v: Value): (r: Entry)
    requires e.Object?
    ensures r.Object? && r.fields.Keys == e.fields.Keys + {f} && r.fields[f] == v
    ensures forall g :: g in e.fields && g != f ==> r.fields[g] == e.fields[g]
  {
    Object(e.fields[f := v])
  }

  /** A second write of the same field replaces the first. */
  lemma SetFieldTwice(e: Entry, f: string, a: Value, b: Value)
    requires e.Object?
    ensures SetField(SetField(e, f, a), f, b) == SetField(e, f, b)
  {
    assert e.fields[f := a][f := b] == e.fields[f := b];
  }

  /** The rate set's order lists each key of the map exactly once. */
  predicate Distinct<T(==)>(s: seq<T>)
  {
    forall i, j :: 0 <= i < j < |s| ==> s[i] != s[j]
  }

  ghost predicate OrderMatches(order: seq<string>, rates: map<string, Entry>)
  {
    Distinct(order) && (forall k :: k in rates <==> k in order)
  }

  /** Every key of the rate order is a key of the rate map. */
  predicate Covers(order: seq<string>, rates: map<string, Entry>)
  {
    forall i :: 0 <= i < |order| ==> order[i] in rates
  }

  lemma OrderCovers(order: seq<string>, rates: map<string, Entry>)
    requires OrderMatches(order, rates)
    ensures Covers(order, rates)
  {
    forall i | 0 <= i < |order| ensures order[i] in rates {
      assert order[i] in order;
    }
  }
}

/** Python dicts keyed by strings, with their insertion order: a sequence of
    pairs whose keys are distinct. Writing an existing key replaces its value
    where it stands; writing a new key appends it. */
module Dicts {
  import opened Values

  function Keys<V>(d: seq<(string, V)>): (ks: seq<string>)
    ensures |ks| == |d|
    ensures forall i :: 0 <= i < |d| ==> ks[i] == d[i].0
  {
    if d == [] then [] else [d[0].0] + Keys(d[1..])
  }

  /** `d.get(k)`. */
  function Get<V>(d: seq<(string, V)>, k: string): Option<V>
  {
    if d == [] then None
    else if d[0].0 == k then Some(d[0].1)
    else Get(d[1..], k)
  }

  /** `d[k] = v`. */
  function Put<V>(d: seq<(string, V)>, k: string, v: V): (r: seq<(string, V)>)
  {
    if d == [] then [(k, v)]
    else if d[0].0 == k then [(k, v)] + d[1..]
    else [d[0]] + Put(d[1..], k, v)
  }

  /** A write is seen by the next read of the same key and by no other. */
  lemma {:induction false} GetPut<V>(d: seq<(string, V)>, k: string, v: V, k': string)
    ensures Get(Put(d, k, v), k') == if k' == k then Some(v) else Get(d, k')
  {
    if d != [] && d[0].0 != k {
      GetPut(d[1..], k, v, k');
    }
  }

  /** The key order after a write: unchanged when the key was there,
      extended by the key at the end otherwise. */
  lemma {:induction false} KeysPut<V>(d: seq<(string, V)>, k: string, v: V)
    ensures Keys(Put(d, k, v)) == if k in Keys(d) then Keys(d) else Keys(d) + [k]
  {
    if d == [] {
    } else if d[0].0 == k {
      assert Keys(Put(d, k, v)) == [k] + Keys(d[1..]);
    } else {
      KeysPut(d[1..], k, v);
      assert Keys(d) == [d[0].0] + Keys(d[1..]);
      assert k in Keys(d) <==> k in Keys(d[1..]);
    }
  }

  lemma DistinctPut<V>(d: seq<(string, V)>, k: string, v: V)
    requires Distinct(Keys(d))
    ensures Distinct(Keys(Put(d, k, v)))
  {
    KeysPut(d, k, v);
  }

  /** Writes `entries` into `d` one after another. */
  function PutAll<V>(d: seq<(string, V)>, entries: seq<(string, V)>): seq<(string, V)>
  {
    if entries == [] then d
    else var n := |entries| - 1; Put(PutAll(d, entries[..n]), entries[n].0, entries[n].1)
  }

  /** The value of the last entry with key `k`. */
  function Last<V>(entries: seq<(string, V)>, k: string): Option<V>
  {
    if entries == [] then None
    else
      var n := |entries| - 1;
      if entries[n].0 == k then Some(entries[n].1) else Last(entries[..n], k)
  }

  /** Last write wins: after writing a sequence of entries, each key holds the
      value of the last entry that named it, and the keys are still distinct. */
  lemma {:induction false} GetPutAll<V>(d: seq<(string, V)>, entries: seq<(string, V)>, k: string)
    requires Distinct(Keys(d))
    ensures Distinct(Keys(PutAll(d, entries)))
    ensures Get(PutAll(d, entries), k) == if Last(entries, k).Some? then Last(entries, k) else Get(d, k)
  {
    if entries != [] {
      var n := |entries| - 1;
      GetPutAll(d, entries[..n], k);
      GetPut(PutAll(d, entries[..n]), entries[n].0, entries[n].1, k);
      DistinctPut(PutAll(d, entries[..n]), entries[n].0, entries[n].1);
    }
  }
}
