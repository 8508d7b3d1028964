/** Mapping scraped display names onto template keys: the fixed name tables,
    `build_title_index`, and the lookup chain `update_from_bonbast` uses. */
module Resolution {
  import opened Values
  import opened Text

  /** `COIN_NAME_TO_KEY`: the canonical coin names and their keys. */
  const CoinNameToKey: map<string, string> := map[
    "Emami" := "coin_emami",
    "Azadi" := "coin_azadi",
    "\U{BD} Azadi" := "coin_half_azadi",
    "\U{BC} Azadi" := "coin_quarter_azadi",
    "Gerami" := "coin_gerami"
  ]

  /** `TOP_NAME_TO_KEY`: the top-of-page display names and their keys. */
  const TopNameToKey: map<string, string> := map[
    "Gold Gram 18k" := "gold_gram_18k",
    "Gold Mithqal" := "gold_mithqal",
    "Gold Ounce" := "gold_ounce"
  ]

  /** A record the `kind` index lists under its `field`: its kind is `kind`
      and the field holds a non-empty string. */
  predicate Indexed(e: Entry, kind: string, field: string)
  {
    HasKind(e, kind) && field in e.fields && e.fields[field].Str? && e.fields[field].s != ""
  }

  /** The record is listed, and `norm` maps its `field` to `t`. */
  predicate IndexedBy(e: Entry, kind: string, field: string, norm: string -> string, t: string)
  {
    Indexed(e, kind, field) && norm(e.fields[field].s) == t
  }

  /** The record is listed, and its `field` normalises to `t`. */
  predicate IndexedAs(e: Entry, kind: string, field: string, t: string)
  {
    IndexedBy(e, kind, field, NormKey, t)
  }

  /** The index of the records of one kind by a text field mapped through
      `norm`, built in rate order, so that a later record with the same
      mapped text replaces an earlier one. Its properties hold whatever the
      normaliser. */
  function IndexBy(order: seq<string>, rates: map<string, Entry>, kind: string, field: string, norm: string -> string): map<string, string>
    requires Covers(order, rates)
  {
    if order == [] then map[]
    else
      var n := |order| - 1;
      var idx := IndexBy(order[..n], rates, kind, field, norm);
      var e := rates[order[n]];
      if Indexed(e, kind, field) then idx[norm(e.fields[field].s) := order[n]] else idx
  }

  /** The index by normalised text that `build_title_index` builds. */
  function TitleIndex(order: seq<string>, rates: map<string, Entry>, kind: string, field: string): map<string, string>
    requires Covers(order, rates)
  {
    IndexBy(order, rates, kind, field, NormKey)
  }

  /** `build_title_index(rates, kind)`. */
  method BuildTitleIndex(order: seq<string>, rates: map<string, Entry>, kind: string) returns (idx: map<string, string>)
    requires Covers(order, rates)
    ensures idx == TitleIndex(order, rates, kind, "title")
  {
    idx := map[];
    for i := 0 to |order|
      invariant idx == TitleIndex(order[..i], rates, kind, "title")
    {
      assert order[..i + 1][..i] == order[..i];
      var e := rates[order[i]];
      if Indexed(e, kind, "title") {
        idx := idx[NormKey(e.fields["title"].s) := order[i]];
      }
    }
    assert order[..|order|] == order;
  }

  /** `idx.get(k)`, with an empty key read as no key, as `or` and `not key`
      do. */
  function Lookup(idx: map<string, string>, k: string): Option<string>
  {
    if k in idx && idx[k] != "" then Some(idx[k]) else None
  }

  /** The key a crypto name resolves to: its normalised form in the crypto
      title index. */
  function ResolveCrypto(name: string, idx: map<string, string>): Option<string>
  {
    Lookup(idx, NormKey(name))
  }

  /** The key a bonbast name resolves to: the coin table, then the top-item
      table, then the title index, then the `fa` index, the last two looked
      up by the normalised name. */
  function Resolve(name: string, titleIdx: map<string, string>, faIdx: map<string, string>): Option<string>
  {
    if name in CoinNameToKey then Some(CoinNameToKey[name])
    else if name in TopNameToKey then Some(TopNameToKey[name])
    else
      var nk := NormKey(name);
      var t := Lookup(titleIdx, nk);
      if t.Some? then t else Lookup(faIdx, nk)
  }

  // ---------------------------------------------------------------------
  // Properties
  // ---------------------------------------------------------------------

  /** The last record a text was listed under: after the step for
      `order[n]`, the index keeps earlier entries unless that record is
      listed under the same text. */
  lemma IndexByStep(order: seq<string>, rates: map<string, Entry>, kind: string, field: string, norm: string -> string, t: string)
    requires Covers(order, rates) && order != []
    ensures var n := |order| - 1;
      var idx := IndexBy(order, rates, kind, field, norm);
      var pre := IndexBy(order[..n], rates, kind, field, norm);
      (IndexedBy(rates[order[n]], kind, field, norm, t) ==> t in idx && idx[t] == order[n])
      && (!IndexedBy(rates[order[n]], kind, field, norm, t) ==> ((t in idx <==> t in pre) && (t in idx ==> idx[t] == pre[t])))
  {
  }

  /** The index holds exactly the normalised texts of the listed records. */
  lemma {:induction false} IndexByHas(order: seq<string>, rates: map<string, Entry>, kind: string, field: string, norm: string -> string, t: string)
    requires Covers(order, rates)
    ensures t in IndexBy(order, rates, kind, field, norm) <==>
      exists j :: 0 <= j < |order| && IndexedBy(rates[order[j]], kind, field, norm, t)
  {
    if order != [] {
      var n := |order| - 1;
      var pre := order[..n];
      assert Covers(pre, rates);
      IndexByHas(pre, rates, kind, field, norm, t);
      IndexByStep(order, rates, kind, field, norm, t);
      if exists j :: 0 <= j < |order| && IndexedBy(rates[order[j]], kind, field, norm, t) {
        var j :| 0 <= j < |order| && IndexedBy(rates[order[j]], kind, field, norm, t);
        if j < n {
          assert pre[j] == order[j];
        }
      }
      if exists j :: 0 <= j < |pre| && IndexedBy(rates[pre[j]], kind, field, norm, t) {
        var j :| 0 <= j < |pre| && IndexedBy(rates[pre[j]], kind, field, norm, t);
        assert order[j] == pre[j];
      }
    }
  }

  /** Each text in the index maps to the last listed record with that text,
      in rate order. */
  lemma {:induction false} IndexByLastWins(order: seq<string>, rates: map<string, Entry>, kind: string, field: string, norm: string -> string, t: string)
    requires Covers(order, rates)
    requires t in IndexBy(order, rates, kind, field, norm)
    ensures exists j ::
      && 0 <= j < |order| && order[j] == IndexBy(order, rates, kind, field, norm)[t]
      && IndexedBy(rates[order[j]], kind, field, norm, t)
      && (forall j' :: j < j' < |order| ==> !IndexedBy(rates[order[j']], kind, field, norm, t))
  {
    var n := |order| - 1;
    var pre := order[..n];
    assert Covers(pre, rates);
    IndexByStep(order, rates, kind, field, norm, t);
    if !IndexedBy(rates[order[n]], kind, field, norm, t) {
      IndexByLastWins(pre, rates, kind, field, norm, t);
      var j :| 0 <= j < |pre| && pre[j] == IndexBy(pre, rates, kind, field, norm)[t]
        && IndexedBy(rates[pre[j]], kind, field, norm, t)
        && forall j' :: j < j' < |pre| ==> !IndexedBy(rates[pre[j']], kind, field, norm, t);
      assert order[j] == pre[j];
      forall j' | j < j' < |order|
        ensures !IndexedBy(rates[order[j']], kind, field, norm, t)
      {
        if j' < n {
          assert order[j'] == pre[j'];
        }
      }
    }
  }

  /** The index holds exactly the normalised texts of the listed records,
      each mapped to the last such record in rate order. */
  lemma TitleIndexLastWins(order: seq<string>, rates: map<string, Entry>, kind: string, field: string, t: string)
    requires Covers(order, rates)
    ensures t in TitleIndex(order, rates, kind, field) <==>
      exists j :: 0 <= j < |order| && IndexedAs(rates[order[j]], kind, field, t)
    ensures t in TitleIndex(order, rates, kind, field) ==>
      exists j :: 0 <= j < |order| && order[j] == TitleIndex(order, rates, kind, field)[t]
        && IndexedAs(rates[order[j]], kind, field, t)
        && (forall j' :: j < j' < |order| ==> !IndexedAs(rates[order[j']], kind, field, t))
  {
    IndexByHas(order, rates, kind, field, NormKey, t);
    if t in TitleIndex(order, rates, kind, field) {
      IndexByLastWins(order, rates, kind, field, NormKey, t);
    }
  }

  /** Every key the index yields is a record of the requested kind whose
      field is a non-empty string normalising to the looked-up text. */
  lemma TitleIndexSound(order: seq<string>, rates: map<string, Entry>, kind: string, field: string, t: string)
    requires Covers(order, rates)
    requires t in TitleIndex(order, rates, kind, field)
    ensures TitleIndex(order, rates, kind, field)[t] in rates
    ensures IndexedAs(rates[TitleIndex(order, rates, kind, field)[t]], kind, field, t)
  {
    IndexByLastWins(order, rates, kind, field, NormKey, t);
    var j :| 0 <= j < |order| && order[j] == TitleIndex(order, rates, kind, field)[t]
      && IndexedAs(rates[order[j]], kind, field, t);
  }

  /** No name is in both tables, so the order of the two table lookups does
      not matter. */
  lemma TablesDisjoint()
    ensures CoinNameToKey.Keys !! TopNameToKey.Keys
  {
  }

  /** A table name resolves through its table, whatever the indexes hold. */
  lemma ResolveTablesFirst(name: string, titleIdx: map<string, string>, faIdx: map<string, string>)
    ensures name in CoinNameToKey ==> Resolve(name, titleIdx, faIdx) == Some(CoinNameToKey[name])
    ensures name in TopNameToKey ==> Resolve(name, titleIdx, faIdx) == Some(TopNameToKey[name])
    ensures name in CoinNameToKey || name in TopNameToKey ==>
      Resolve(name, titleIdx, faIdx) == Resolve(name, map[], map[])
  {
    TablesDisjoint();
  }

  /** A title match shadows an `fa` match. */
  lemma ResolveTitleBeforeFa(name: string, titleIdx: map<string, string>, faIdx: map<string, string>, faIdx': map<string, string>)
    requires name !in CoinNameToKey && name !in TopNameToKey
    requires Lookup(titleIdx, NormKey(name)).Some?
    ensures Resolve(name, titleIdx, faIdx) == Resolve(name, titleIdx, faIdx') == Lookup(titleIdx, NormKey(name))
  {
  }

  /** Resolution against the currency indexes of a rate set: a name outside
      the tables resolves only to a currency record whose title or `fa`
      normalises to the same text as the name; a name nothing matches is
      unresolved. */
  lemma ResolveSound(name: string, order: seq<string>, rates: map<string, Entry>)
    requires Covers(order, rates)
    requires name !in CoinNameToKey && name !in TopNameToKey
    ensures var r := Resolve(name, TitleIndex(order, rates, "currency", "title"), TitleIndex(order, rates, "currency", "fa"));
      r.Some? ==> (r.value in rates
        && (IndexedAs(rates[r.value], "currency", "title", NormKey(name))
            || IndexedAs(rates[r.value], "currency", "fa", NormKey(name))))
    ensures (forall k :: k in rates ==>
        !IndexedAs(rates[k], "currency", "title", NormKey(name)) && !IndexedAs(rates[k], "currency", "fa", NormKey(name)))
      ==> Resolve(name, TitleIndex(order, rates, "currency", "title"), TitleIndex(order, rates, "currency", "fa")) == None
  {
    var nk := NormKey(name);
    var ti := TitleIndex(order, rates, "currency", "title");
    var fi := TitleIndex(order, rates, "currency", "fa");
    TitleIndexLastWins(order, rates, "currency", "title", nk);
    TitleIndexLastWins(order, rates, "currency", "fa", nk);
    if nk in ti {
      TitleIndexSound(order, rates, "currency", "title", nk);
    }
    if nk in fi {
      TitleIndexSound(order, rates, "currency", "fa", nk);
    }
  }
}
