/** The in-place reconciler: the payload loaded from the template, and the
    three passes that write scraped prices into its rate records
    (`update_from_bonbast`, `update_from_crypto_csv`,
    `recompute_usd_relations`). Each pass is a method on the payload, proved
    equal to a function of the rate set it started from; the properties the
    passes promise are lemmas about those functions. */
module Reconcile {
  import opened Values
  import opened Text
  import opened Resolution

  /** Only the fields in `allowed` may differ between the two records, and
      no other field appears. */
  predicate OnlyFieldsChanged(before: Entry, after: Entry, allowed: set<string>)
  {
    && before.Object? && after.Object?
    && after.fields.Keys <= before.fields.Keys + allowed
    && forall f :: f in before.fields && f !in allowed ==> f in after.fields && after.fields[f] == before.fields[f]
  }

  // ---------------------------------------------------------------------
  // update_from_bonbast
  // ---------------------------------------------------------------------

  /** The name-to-key lookup of the bonbast pass: `Resolve` against the
      currency title and `fa` indexes of the rate set. */
  function BonbastResolver(order: seq<string>, rates: map<string, Entry>): string -> Option<string>
    requires Covers(order, rates)
  {
    var titleIdx := TitleIndex(order, rates, "currency", "title");
    var faIdx := TitleIndex(order, rates, "currency", "fa");
    name => Resolve(name, titleIdx, faIdx)
  }

  /** The rates after writing each bonbast price, in order, into the record
      its name resolves to, when that record exists. */
  function ApplyBonbast(rates: map<string, Entry>, resolve: string -> Option<string>, bonbast: seq<(string, nat)>): (r: map<string, Entry>)
    requires AllObjects(rates)
    ensures r.Keys == rates.Keys && AllObjects(r)
  {
    if bonbast == [] then rates
    else
      var n := |bonbast| - 1;
      var r := ApplyBonbast(rates, resolve, bonbast[..n]);
      var key := resolve(bonbast[n].0);
      if key.Some? && key.value in r then r[key.value := SetField(r[key.value], "price", Int(bonbast[n].1))] else r
  }

  /** The price of the last bonbast entry whose name resolves to `k`. */
  function LastPriceFor(k: string, resolve: string -> Option<string>, bonbast: seq<(string, nat)>): Option<nat>
  {
    if bonbast == [] then None
    else
      var n := |bonbast| - 1;
      if resolve(bonbast[n].0) == Some(k) then Some(bonbast[n].1)
      else LastPriceFor(k, resolve, bonbast[..n])
  }

  /** How many bonbast entries resolve to an existing record. */
  function CountResolved(rates: map<string, Entry>, resolve: string -> Option<string>, bonbast: seq<(string, nat)>): (n: nat)
    ensures n <= |bonbast|
  {
    if bonbast == [] then 0
    else
      var n := |bonbast| - 1;
      var key := resolve(bonbast[n].0);
      CountResolved(rates, resolve, bonbast[..n]) + if key.Some? && key.value in rates then 1 else 0
  }

  /** One step of the bonbast pass. */
  lemma ApplyBonbastStep(rates: map<string, Entry>, resolve: string -> Option<string>, bonbast: seq<(string, nat)>, i: nat)
    requires AllObjects(rates) && i < |bonbast|
    ensures var r := ApplyBonbast(rates, resolve, bonbast[..i]);
      var key := resolve(bonbast[i].0);
      var found := key.Some? && key.value in r;
      && ApplyBonbast(rates, resolve, bonbast[..i + 1]) ==
           (if found then r[key.value := SetField(r[key.value], "price", Int(bonbast[i].1))] else r)
      && CountResolved(rates, resolve, bonbast[..i + 1]) == CountResolved(rates, resolve, bonbast[..i]) + (if found then 1 else 0)
  {
    assert bonbast[..i + 1][..i] == bonbast[..i];
  }

  /** Last write wins, and only `price` is written: each record holds the
      price of the last entry resolving to it, and is untouched when none
      does. */
  lemma {:induction false} ApplyBonbastPerKey(rates: map<string, Entry>, resolve: string -> Option<string>, bonbast: seq<(string, nat)>, k: string)
    requires AllObjects(rates) && k in rates
    ensures ApplyBonbast(rates, resolve, bonbast)[k] ==
      match LastPriceFor(k, resolve, bonbast)
      case None => rates[k]
      case Some(p) => SetField(rates[k], "price", Int(p))
  {
    if bonbast != [] {
      var n := |bonbast| - 1;
      ApplyBonbastPerKey(rates, resolve, bonbast[..n], k);
      if resolve(bonbast[n].0) == Some(k) {
        match LastPriceFor(k, resolve, bonbast[..n])
        case None =>
        case Some(p) => SetFieldTwice(rates[k], "price", Int(p), Int(bonbast[n].1));
      }
    }
  }

  lemma {:induction false} LastPriceResolved(k: string, resolve: string -> Option<string>, bonbast: seq<(string, nat)>)
    requires LastPriceFor(k, resolve, bonbast).Some?
    ensures exists i :: 0 <= i < |bonbast| && resolve(bonbast[i].0) == Some(k)
  {
    var n := |bonbast| - 1;
    if resolve(bonbast[n].0) != Some(k) {
      LastPriceResolved(k, resolve, bonbast[..n]);
      var i :| 0 <= i < n && resolve(bonbast[..n][i].0) == Some(k);
      assert bonbast[..n][i] == bonbast[i];
    }
  }

  /** The bonbast pass keeps the key set and changes at most the `price` of
      each record, to an integer; a record it changes is a table key or a
      currency record whose title or `fa` normalises like some bonbast
      name. */
  lemma BonbastOnlyPrice(order: seq<string>, rates: map<string, Entry>, bonbast: seq<(string, nat)>, k: string)
    requires AllObjects(rates) && Covers(order, rates) && k in rates
    ensures var r := ApplyBonbast(rates, BonbastResolver(order, rates), bonbast);
      && r.Keys == rates.Keys
      && OnlyFieldsChanged(rates[k], r[k], {"price"})
      && (r[k] != rates[k] ==>
            && "price" in r[k].fields && r[k].fields["price"].Int?
            && (|| k in CoinNameToKey.Values || k in TopNameToKey.Values
                || exists i :: 0 <= i < |bonbast| && (IndexedAs(rates[k], "currency", "title", NormKey(bonbast[i].0))
                                                      || IndexedAs(rates[k], "currency", "fa", NormKey(bonbast[i].0)))))
  {
    var resolve := BonbastResolver(order, rates);
    ApplyBonbastPerKey(rates, resolve, bonbast, k);
    if LastPriceFor(k, resolve, bonbast).Some? {
      LastPriceResolved(k, resolve, bonbast);
      var i :| 0 <= i < |bonbast| && resolve(bonbast[i].0) == Some(k);
      var name := bonbast[i].0;
      if name in CoinNameToKey {
        assert k == CoinNameToKey[name];
      } else if name in TopNameToKey {
        assert k == TopNameToKey[name];
      } else {
        ResolveSound(name, order, rates);
      }
    }
  }

  // ---------------------------------------------------------------------
  // update_from_crypto_csv
  // ---------------------------------------------------------------------

  /** `usd and usd.get("price")`: the `usd` record has a truthy price. */
  predicate UsdPriceSet(rates: map<string, Entry>)
  {
    "usd" in rates && rates["usd"].Object? && "price" in rates["usd"].fields && Truthy(rates["usd"].fields["price"])
  }

  /** The `usd` record's price can be read as a number wherever the source
      converts it with `float`. */
  predicate UsdReadable(rates: map<string, Entry>)
  {
    UsdPriceSet(rates) ==> IsNumber(rates["usd"].fields["price"])
  }

  /** The local price of one dollar the crypto pass multiplies by: the `usd`
      record's price when it is set and non-zero, 1.0 otherwise. */
  function UsdLocal(rates: map<string, Entry>): (l: real)
    requires UsdReadable(rates)
    ensures l != 0.0
    ensures UsdPriceSet(rates) ==> l == ToReal(rates["usd"].fields["price"])
    ensures !UsdPriceSet(rates) ==> l == 1.0
  {
    if UsdPriceSet(rates) then ToReal(rates["usd"].fields["price"]) else 1.0
  }

  /** One crypto quote written into its record. */
  function CryptoWrite(e: Entry, u: real, c: real, l: real): (r: Entry)
    requires e.Object?
    ensures OnlyFieldsChanged(e, r, {"usdPrice", "change24h", "price"})
    ensures "usdPrice" in r.fields && "change24h" in r.fields && "price" in r.fields
    ensures r.fields["usdPrice"] == Num(u) && r.fields["change24h"] == Num(c)
    ensures r.fields["price"] == Num(u * l)
  {
    SetField(SetField(SetField(e, "usdPrice", Num(u)), "change24h", Num(c)), "price", Num(u * l))
  }

  /** The name-to-key lookup of the crypto pass: the normalised name in the
      crypto title index of the rate set. */
  function CryptoResolver(order: seq<string>, rates: map<string, Entry>): string -> Option<string>
    requires Covers(order, rates)
  {
    var idx := TitleIndex(order, rates, "crypto", "title");
    name => ResolveCrypto(name, idx)
  }

  /** The rates after writing each crypto quote, in order, into the
      non-empty record its name finds. */
  function ApplyCrypto(rates: map<string, Entry>, resolve: string -> Option<string>, l: real, crypto: seq<(string, (real, real))>): (r: map<string, Entry>)
    requires AllObjects(rates)
    ensures r.Keys == rates.Keys && AllObjects(r)
    ensures forall k :: k in rates ==> (r[k].fields == map[] <==> rates[k].fields == map[])
  {
    if crypto == [] then rates
    else
      var n := |crypto| - 1;
      var r := ApplyCrypto(rates, resolve, l, crypto[..n]);
      var key := resolve(crypto[n].0);
      if key.Some? && key.value in r && r[key.value].fields != map[] then
        r[key.value := CryptoWrite(r[key.value], crypto[n].1.0, crypto[n].1.1, l)]
      else r
  }

  /** The quote of the last crypto entry whose name finds `k`. */
  function LastQuoteFor(k: string, resolve: string -> Option<string>, crypto: seq<(string, (real, real))>): Option<(real, real)>
  {
    if crypto == [] then None
    else
      var n := |crypto| - 1;
      if resolve(crypto[n].0) == Some(k) then Some(crypto[n].1)
      else LastQuoteFor(k, resolve, crypto[..n])
  }

  /** How many crypto entries find a non-empty record. */
  function CountFound(rates: map<string, Entry>, resolve: string -> Option<string>, crypto: seq<(string, (real, real))>): (n: nat)
    requires AllObjects(rates)
    ensures n <= |crypto|
  {
    if crypto == [] then 0
    else
      var n := |crypto| - 1;
      var key := resolve(crypto[n].0);
      CountFound(rates, resolve, crypto[..n]) + if key.Some? && key.value in rates && rates[key.value].fields != map[] then 1 else 0
  }

  /** One step of the crypto pass. */
  lemma ApplyCryptoStep(rates: map<string, Entry>, resolve: string -> Option<string>, l: real, crypto: seq<(string, (real, real))>, i: nat)
    requires AllObjects(rates) && i < |crypto|
    ensures var r := ApplyCrypto(rates, resolve, l, crypto[..i]);
      var key := resolve(crypto[i].0);
      var found := key.Some? && key.value in r && r[key.value].fields != map[];
      && ApplyCrypto(rates, resolve, l, crypto[..i + 1]) ==
           (if found then r[key.value := CryptoWrite(r[key.value], crypto[i].1.0, crypto[i].1.1, l)] else r)
      && CountFound(rates, resolve, crypto[..i + 1]) == CountFound(rates, resolve, crypto[..i]) + (if found then 1 else 0)
  {
    assert crypto[..i + 1][..i] == crypto[..i];
  }

  lemma CryptoWriteTwice(e: Entry, u: real, c: real, u': real, c': real, l: real)
    requires e.Object?
    ensures CryptoWrite(CryptoWrite(e, u, c, l), u', c', l) == CryptoWrite(e, u', c', l)
  {
    UpdateThreeTwice(e.fields, "usdPrice", "change24h", "price", Num(u), Num(c), Num(u * l), Num(u'), Num(c'), Num(u' * l));
  }

  /** Writing the same three keys twice leaves the second writes. */
  lemma UpdateThreeTwice<K, V>(f: map<K, V>, k1: K, k2: K, k3: K, a: V, b: V, c: V, a': V, b': V, c': V)
    ensures f[k1 := a][k2 := b][k3 := c][k1 := a'][k2 := b'][k3 := c'] == f[k1 := a'][k2 := b'][k3 := c']
  {
  }

  /** Last write wins: a non-empty record holds the last quote whose name
      finds it; an empty record, or one no name finds, is untouched. */
  lemma {:induction false} ApplyCryptoPerKey(rates: map<string, Entry>, resolve: string -> Option<string>, l: real, crypto: seq<(string, (real, real))>, k: string)
    requires AllObjects(rates) && k in rates
    ensures ApplyCrypto(rates, resolve, l, crypto)[k] ==
      match LastQuoteFor(k, resolve, crypto)
      case None => rates[k]
      case Some(q) => if rates[k].fields == map[] then rates[k] else CryptoWrite(rates[k], q.0, q.1, l)
  {
    if crypto != [] {
      var n := |crypto| - 1;
      ApplyCryptoPerKey(rates, resolve, l, crypto[..n], k);
      if resolve(crypto[n].0) == Some(k) && rates[k].fields != map[] {
        match LastQuoteFor(k, resolve, crypto[..n])
        case None =>
        case Some(q) =>
          CryptoWriteTwice(rates[k], q.0, q.1, crypto[n].1.0, crypto[n].1.1, l);
      }
    }
  }

  lemma {:induction false} LastQuoteFound(k: string, resolve: string -> Option<string>, crypto: seq<(string, (real, real))>)
    requires LastQuoteFor(k, resolve, crypto).Some?
    ensures exists i ::
      && 0 <= i < |crypto| && resolve(crypto[i].0) == Some(k)
      && LastQuoteFor(k, resolve, crypto).value == crypto[i].1
  {
    var n := |crypto| - 1;
    if resolve(crypto[n].0) != Some(k) {
      LastQuoteFound(k, resolve, crypto[..n]);
      var i :| 0 <= i < n && resolve(crypto[..n][i].0) == Some(k)
        && LastQuoteFor(k, resolve, crypto[..n]).value == crypto[..n][i].1;
      assert crypto[..n][i] == crypto[i];
    }
  }

  /** What the crypto pass does to one record, whatever the lookup: at most
      `usdPrice`, `change24h` and `price` change; a changed record carries
      the dollar price and change of a quote whose name finds it, and that
      dollar price times `l` as its local price. */
  lemma ApplyCryptoTouched(rates: map<string, Entry>, resolve: string -> Option<string>, l: real, crypto: seq<(string, (real, real))>, k: string)
    requires AllObjects(rates) && k in rates
    ensures var r := ApplyCrypto(rates, resolve, l, crypto);
      && OnlyFieldsChanged(rates[k], r[k], {"usdPrice", "change24h", "price"})
      && (r[k] != rates[k] ==>
            exists i :: 0 <= i < |crypto| && resolve(crypto[i].0) == Some(k)
              && r[k] == CryptoWrite(rates[k], crypto[i].1.0, crypto[i].1.1, l))
  {
    ApplyCryptoPerKey(rates, resolve, l, crypto, k);
    if LastQuoteFor(k, resolve, crypto).Some? {
      LastQuoteFound(k, resolve, crypto);
    } else {
      assert ApplyCrypto(rates, resolve, l, crypto)[k] == rates[k];
    }
  }

  /** The crypto pass against the crypto title index: only crypto records
      are touched, and no key is added. */
  lemma CryptoTouchesOnlyCrypto(order: seq<string>, rates: map<string, Entry>, l: real, crypto: seq<(string, (real, real))>, k: string)
    requires AllObjects(rates) && Covers(order, rates) && k in rates
    ensures ApplyCrypto(rates, CryptoResolver(order, rates), l, crypto).Keys == rates.Keys
    ensures ApplyCrypto(rates, CryptoResolver(order, rates), l, crypto)[k] != rates[k] ==> HasKind(rates[k], "crypto")
  {
    var resolve := CryptoResolver(order, rates);
    ApplyCryptoTouched(rates, resolve, l, crypto, k);
    if ApplyCrypto(rates, resolve, l, crypto)[k] != rates[k] {
      var i :| 0 <= i < |crypto| && resolve(crypto[i].0) == Some(k);
      TitleIndexSound(order, rates, "crypto", "title", NormKey(crypto[i].0));
    }
  }

  // ---------------------------------------------------------------------
  // recompute_usd_relations
  // ---------------------------------------------------------------------

  /** The anchor: the `usd` record's price, when it is a non-zero number. */
  function AnchorPrice(rates: map<string, Entry>): (a: Option<real>)
    ensures a.Some? ==> a.value != 0.0
    ensures a.Some? <==> UsdPriceSet(rates) && IsNumber(rates["usd"].fields["price"])
    ensures a.Some? ==> a.value == ToReal(rates["usd"].fields["price"])
  {
    if UsdPriceSet(rates) && IsNumber(rates["usd"].fields["price"])
    then Some(ToReal(rates["usd"].fields["price"]))
    else None
  }

  /** `usd and ... usd.get("price")`: a truthy `usd` entry is read with
      `.get`, so it must be an object. */
  predicate UsdGettable(rates: map<string, Entry>)
  {
    "usd" in rates && rates["usd"].NonObject? ==> !Truthy(rates["usd"].v)
  }

  /** What `recompute_usd_relations` reads without raising: the `usd` entry
      always, and every record only when there is an anchor. */
  predicate Recomputable(rates: map<string, Entry>)
  {
    UsdGettable(rates) && (AnchorPrice(rates).Some? ==> AllObjects(rates) && Convertible(rates))
  }

  /** Where the recompute divides a currency's price by the anchor, that
      price is absent or a number (`float` raises otherwise). */
  predicate ConvertibleRecord(k: string, e: Entry)
  {
    (e.Object? && HasKind(e, "currency") && k != "usd" && "usdPrice" in e.fields && "price" in e.fields) ==>
      IsNumber(e.fields["price"])
  }

  predicate Convertible(rates: map<string, Entry>)
  {
    forall k :: k in rates ==> ConvertibleRecord(k, rates[k])
  }

  /** `float(r.get("price", 0.0))`. */
  function PriceOrZero(e: Entry): real
    requires e.Object? && ("price" in e.fields ==> IsNumber(e.fields["price"]))
  {
    if "price" in e.fields then ToReal(e.fields["price"]) else 0.0
  }

  /** One record after the loop of the recompute, the anchor being `u`. */
  function RecomputeRecord(k: string, e: Entry, u: real): Entry
    requires e.Object? && ConvertibleRecord(k, e) && u != 0.0
  {
    if HasKind(e, "currency") then
      if k == "usd" then SetField(e, "usdPrice", Int(1))
      else if "usdPrice" in e.fields then SetField(e, "usdPrice", Num(PriceOrZero(e) / u))
      else e
    else if HasKind(e, "crypto") && "usdPrice" in e.fields && IsNumber(e.fields["usdPrice"]) then
      SetField(e, "price", Num(ToReal(e.fields["usdPrice"]) * u))
    else e
  }

  /** The `gold_ounce` fix applies to a non-empty record with a numeric
      price and a `usdPrice` field. */
  predicate GoldFixApplies(e: Entry)
  {
    e.Object? && e.fields != map[] && "price" in e.fields && IsNumber(e.fields["price"]) && "usdPrice" in e.fields
  }

  /** The fix itself: `usdPrice` becomes the price in dollars. */
  function GoldFixRecord(e: Entry, u: real): (r: Entry)
    requires GoldFixApplies(e) && u != 0.0
    ensures OnlyFieldsChanged(e, r, {"usdPrice"}) && "usdPrice" in r.fields && "price" in r.fields
    ensures r.fields["price"] == e.fields["price"]
    ensures r.fields["usdPrice"].Num? && r.fields["usdPrice"].x * u == ToReal(r.fields["price"])
  {
    SetField(e, "usdPrice", Num(ToReal(e.fields["price"]) / u))
  }

  /** The `gold_ounce` fix applied to the rates after the loop. */
  function GoldFix(rates: map<string, Entry>, u: real): (r: map<string, Entry>)
    requires AllObjects(rates) && u != 0.0
    ensures r.Keys == rates.Keys && AllObjects(r)
  {
    if "gold_ounce" in rates && GoldFixApplies(rates["gold_ounce"])
    then rates["gold_ounce" := GoldFixRecord(rates["gold_ounce"], u)]
    else rates
  }

  function RecomputeAll(rates: map<string, Entry>, u: real): (r: map<string, Entry>)
    requires AllObjects(rates) && Convertible(rates) && u != 0.0
    ensures r.Keys == rates.Keys && AllObjects(r)
  {
    map k | k in rates :: RecomputeRecord(k, rates[k], u)
  }

  /** The rates after `recompute_usd_relations`: unchanged without an
      anchor; otherwise every record recomputed, then the `gold_ounce` fix. */
  function Recomputed(rates: map<string, Entry>): (r: map<string, Entry>)
    requires Recomputable(rates)
    ensures r.Keys == rates.Keys
    ensures AllObjects(r) <==> AllObjects(rates)
  {
    match AnchorPrice(rates)
    case None => rates
    case Some(u) => GoldFix(RecomputeAll(rates, u), u)
  }

  /** Each record after the recompute, with an anchor `u`: the record
      recomputed by the loop, then fixed when it is `gold_ounce`. */
  lemma RecomputedAt(rates: map<string, Entry>, k: string)
    requires AllObjects(rates) && Convertible(rates) && k in rates
    requires AnchorPrice(rates).Some?
    ensures var u := AnchorPrice(rates).value; var e := RecomputeRecord(k, rates[k], u);
      Recomputed(rates)[k] == if k == "gold_ounce" && GoldFixApplies(e) then GoldFixRecord(e, u) else e
  {
  }

  /** No anchor, no change; with one, each record changes at most its
      `price` and `usdPrice`, a currency without `usdPrice` (other than
      `usd`) gains none, and a record of any other kind than currency or
      crypto is untouched, `gold_ounce` aside. */
  lemma RecomputeFrame(rates: map<string, Entry>, k: string)
    requires Recomputable(rates) && k in rates
    ensures Recomputed(rates).Keys == rates.Keys
    ensures AnchorPrice(rates).None? ==> Recomputed(rates) == rates
    ensures rates[k].Object? ==> OnlyFieldsChanged(rates[k], Recomputed(rates)[k], {"price", "usdPrice"})
    ensures (HasKind(rates[k], "currency") && k != "usd" && "usdPrice" !in rates[k].fields) ==>
      "usdPrice" !in Recomputed(rates)[k].fields
    ensures (!HasKind(rates[k], "currency") && !HasKind(rates[k], "crypto") && k != "gold_ounce") ==>
      Recomputed(rates)[k] == rates[k]
  {
    if AnchorPrice(rates).Some? {
      RecomputedAt(rates, k);
    }
  }

  /** With an anchor, the `usd` currency record is worth exactly one
      dollar. */
  lemma RecomputeUsdIsOne(rates: map<string, Entry>)
    requires AllObjects(rates) && Convertible(rates) && "usd" in rates
    requires AnchorPrice(rates).Some? && HasKind(rates["usd"], "currency")
    ensures "usdPrice" in Recomputed(rates)["usd"].fields
    ensures Recomputed(rates)["usd"].fields["usdPrice"] == Int(1)
  {
    RecomputedAt(rates, "usd");
  }

  /** With an anchor `u`, every other currency that has a `usdPrice` holds
      its (unchanged) price in dollars: `usdPrice * u == price`, a missing
      price counting as 0. */
  lemma RecomputeCurrencyInDollars(rates: map<string, Entry>, k: string)
    requires AllObjects(rates) && Convertible(rates) && k in rates
    requires AnchorPrice(rates).Some?
    requires k != "usd" && HasKind(rates[k], "currency") && "usdPrice" in rates[k].fields
    ensures var r := Recomputed(rates)[k];
      && OnlyFieldsChanged(rates[k], r, {"usdPrice"}) && "usdPrice" in r.fields
      && r.fields["usdPrice"].Num? && r.fields["usdPrice"].x * AnchorPrice(rates).value == PriceOrZero(rates[k])
  {
    var u := AnchorPrice(rates).value;
    var e := RecomputeRecord(k, rates[k], u);
    RecomputedAt(rates, k);
    assert e == SetField(rates[k], "usdPrice", Num(PriceOrZero(rates[k]) / u));
    if k == "gold_ounce" && GoldFixApplies(e) {
      assert Recomputed(rates)[k] == GoldFixRecord(e, u);
    } else {
      assert Recomputed(rates)[k] == e;
      DivMul(PriceOrZero(rates[k]), u);
    }
  }

  /** Dividing by a non-zero anchor and multiplying back gives the price. */
  lemma DivMul(p: real, u: real)
    requires u != 0.0
    ensures (p / u) * u == p
  {
  }

  /** With an anchor `u`, a crypto record with a numeric `usdPrice` holds that
      dollar price in local money: `price == usdPrice * u`. */
  lemma RecomputeCryptoLocal(rates: map<string, Entry>, k: string)
    requires AllObjects(rates) && Convertible(rates) && k in rates
    requires AnchorPrice(rates).Some? && k != "gold_ounce"
    requires HasKind(rates[k], "crypto") && "usdPrice" in rates[k].fields && IsNumber(rates[k].fields["usdPrice"])
    ensures var r := Recomputed(rates)[k];
      && OnlyFieldsChanged(rates[k], r, {"price"}) && "price" in r.fields
      && r.fields["usdPrice"] == rates[k].fields["usdPrice"]
      && r.fields["price"] == Num(ToReal(rates[k].fields["usdPrice"]) * AnchorPrice(rates).value)
  {
    RecomputedAt(rates, k);
  }

  /** `gold_ounce`: when, after the loop, it has a numeric price and a
      `usdPrice` field, it ends with that price in dollars. */
  lemma RecomputeGoldOunce(rates: map<string, Entry>)
    requires AllObjects(rates) && Convertible(rates) && "gold_ounce" in rates
    requires AnchorPrice(rates).Some?
    ensures var u := AnchorPrice(rates).value;
      var g := RecomputeRecord("gold_ounce", rates["gold_ounce"], u);
      var r := Recomputed(rates)["gold_ounce"];
      GoldFixApplies(g) ==>
        (r.fields["price"] == g.fields["price"] && r.fields["usdPrice"].Num?
          && r.fields["usdPrice"].x * u == ToReal(r.fields["price"]))
  {
    var u := AnchorPrice(rates).value;
    var g := RecomputeRecord("gold_ounce", rates["gold_ounce"], u);
    RecomputedAt(rates, "gold_ounce");
    if GoldFixApplies(g) {
      var r := GoldFixRecord(g, u);
      assert Recomputed(rates)["gold_ounce"] == r;
    }
  }

  // ---------------------------------------------------------------------
  // What each pass leaves for the next
  // ---------------------------------------------------------------------

  /** The bonbast pass writes only integer prices, so a rate set whose `usd`
      price and currency prices read as numbers still has them readable. */
  lemma BonbastKeepsReadable(rates: map<string, Entry>, resolve: string -> Option<string>, bonbast: seq<(string, nat)>)
    requires AllObjects(rates) && UsdReadable(rates) && Convertible(rates)
    ensures UsdReadable(ApplyBonbast(rates, resolve, bonbast))
    ensures Convertible(ApplyBonbast(rates, resolve, bonbast))
  {
    var r := ApplyBonbast(rates, resolve, bonbast);
    if "usd" in rates {
      ApplyBonbastPerKey(rates, resolve, bonbast, "usd");
    }
    forall k | k in r ensures ConvertibleRecord(k, r[k]) {
      ApplyBonbastPerKey(rates, resolve, bonbast, k);
    }
  }

  /** The crypto pass writes only numeric prices, so currency prices that
      read as numbers still do. */
  lemma CryptoKeepsConvertible(rates: map<string, Entry>, resolve: string -> Option<string>, l: real, crypto: seq<(string, (real, real))>)
    requires AllObjects(rates) && Convertible(rates)
    ensures Convertible(ApplyCrypto(rates, resolve, l, crypto))
  {
    var r := ApplyCrypto(rates, resolve, l, crypto);
    forall k | k in r ensures ConvertibleRecord(k, r[k]) {
      ApplyCryptoPerKey(rates, resolve, l, crypto, k);
    }
  }

  // ---------------------------------------------------------------------
  // The passes' loops, on the rate set
  // ---------------------------------------------------------------------

  /** The loop of `update_from_bonbast` over a rate set. */
  method BonbastPass(order: seq<string>, rates: map<string, Entry>, bonbast: seq<(string, nat)>)
    returns (r: map<string, Entry>, updated: nat, skipped: nat)
    requires Covers(order, rates) && AllObjects(rates)
    ensures r == ApplyBonbast(rates, BonbastResolver(order, rates), bonbast)
    ensures updated == CountResolved(rates, BonbastResolver(order, rates), bonbast)
    ensures updated + skipped == |bonbast|
  {
    r := rates;
    var titleIdx := BuildTitleIndex(order, rates, "currency");
    var faIdx := TitleIndex(order, rates, "currency", "fa");
    ghost var resolve := BonbastResolver(order, rates);
    updated, skipped := 0, 0;
    for i := 0 to |bonbast|
      invariant r == ApplyBonbast(rates, resolve, bonbast[..i])
      invariant updated == CountResolved(rates, resolve, bonbast[..i])
      invariant updated + skipped == i
    {
      ApplyBonbastStep(rates, resolve, bonbast, i);
      var (name, price) := bonbast[i];
      var key := Resolve(name, titleIdx, faIdx);
      assert key == resolve(name);
      if key.None? || key.value !in r {
        skipped := skipped + 1;
      } else {
        r := r[key.value := SetField(r[key.value], "price", Int(price))];
        updated := updated + 1;
      }
    }
    assert bonbast[..|bonbast|] == bonbast;
  }

  /** The loop of `update_from_crypto_csv` over a rate set. */
  method CryptoPass(order: seq<string>, rates: map<string, Entry>, crypto: seq<(string, (real, real))>)
    returns (r: map<string, Entry>, updated: nat, skipped: nat)
    requires Covers(order, rates) && AllObjects(rates) && UsdReadable(rates)
    ensures r == ApplyCrypto(rates, CryptoResolver(order, rates), UsdLocal(rates), crypto)
    ensures updated == CountFound(rates, CryptoResolver(order, rates), crypto)
    ensures updated + skipped == |crypto|
  {
    r := rates;
    var l := UsdLocal(rates);
    var idx := BuildTitleIndex(order, rates, "crypto");
    ghost var resolve := CryptoResolver(order, rates);
    updated, skipped := 0, 0;
    for i := 0 to |crypto|
      invariant r == ApplyCrypto(rates, resolve, l, crypto[..i])
      invariant updated == CountFound(rates, resolve, crypto[..i])
      invariant updated + skipped == i
    {
      ApplyCryptoStep(rates, resolve, l, crypto, i);
      var (name, quote) := crypto[i];
      var key := ResolveCrypto(name, idx);
      assert key == resolve(name);
      if key.None? {
        skipped := skipped + 1;
      } else if key.value !in r || r[key.value].fields == map[] {
        skipped := skipped + 1;
      } else {
        r := r[key.value := CryptoWrite(r[key.value], quote.0, quote.1, l)];
        updated := updated + 1;
      }
    }
    assert crypto[..|crypto|] == crypto;
  }

  /** The loop of `recompute_usd_relations` over the records, against the
      anchor `u`. */
  method RecomputeLoop(order: seq<string>, rates: map<string, Entry>, u: real) returns (r: map<string, Entry>)
    requires OrderMatches(order, rates) && AllObjects(rates) && Convertible(rates) && u != 0.0
    ensures r == RecomputeAll(rates, u)
  {
    r := rates;
    for i := 0 to |order|
      invariant r.Keys == rates.Keys
      invariant forall k :: k in r ==>
        r[k] == if k in order[..i] then RecomputeRecord(k, rates[k], u) else rates[k]
    {
      var key := order[i];
      assert key in order;
      assert key !in order[..i];
      assert order[..i + 1] == order[..i] + [key];
      r := r[key := RecomputeRecord(key, r[key], u)];
    }
    assert order[..|order|] == order;
    assert r == RecomputeAll(rates, u) by {
      forall k | k in r ensures r[k] == RecomputeAll(rates, u)[k] {
        assert k in order;
      }
    }
  }

  /** The loop of `recompute_usd_relations` over a rate set, then the gold
      ounce fix. */
  method RecomputePass(order: seq<string>, rates: map<string, Entry>) returns (r: map<string, Entry>)
    requires OrderMatches(order, rates) && Recomputable(rates)
    ensures r == Recomputed(rates)
  {
    r := rates;
    var anchor := AnchorPrice(rates);
    if anchor.None? {
      return;
    }
    var u := anchor.value;
    r := RecomputeLoop(order, rates, u);
    if "gold_ounce" in r && GoldFixApplies(r["gold_ounce"]) {
      var go := r["gold_ounce"];
      r := r["gold_ounce" := SetField(go, "usdPrice", Num(ToReal(go.fields["price"]) / u))];
    }
  }

  // ---------------------------------------------------------------------
  // The payload
  // ---------------------------------------------------------------------

  /** `Payload`: the metadata and the rate set, whose records the passes
      update in place. `order` is the rate set's key order. */
  class Payload {
    var fetchedAtMs: int
    var source: string
    var order: seq<string>
    var rates: map<string, Entry>

    ghost predicate Valid()
      reads this
    {
      OrderMatches(order, rates)
    }

    constructor (fetchedAtMs: int, source: string, order: seq<string>, rates: map<string, Entry>)
      requires OrderMatches(order, rates)
      ensures Valid()
      ensures this.fetchedAtMs == fetchedAtMs && this.source == source
      ensures this.order == order && this.rates == rates
    {
      this.fetchedAtMs := fetchedAtMs;
      this.source := source;
      this.order := order;
      this.rates := rates;
    }

    /** `update_from_bonbast`: writes each resolved price; returns how many
        entries were written and how many skipped. */
    method UpdateFromBonbast(bonbast: seq<(string, nat)>) returns (updated: nat, skipped: nat)
      requires Valid() && AllObjects(rates)
      modifies this
      ensures Valid() && order == old(order)
      ensures fetchedAtMs == old(fetchedAtMs) && source == old(source)
      ensures Covers(order, old(rates))
      ensures rates == ApplyBonbast(old(rates), BonbastResolver(order, old(rates)), bonbast)
      ensures updated == CountResolved(old(rates), BonbastResolver(order, old(rates)), bonbast)
      ensures updated + skipped == |bonbast|
    {
      OrderCovers(order, rates);
      var r;
      r, updated, skipped := BonbastPass(order, rates, bonbast);
      rates := r;
    }

    /** `update_from_crypto_csv`: writes each quote whose name finds a crypto
        record; returns how many were written and how many skipped. */
    method UpdateFromCrypto(crypto: seq<(string, (real, real))>) returns (updated: nat, skipped: nat)
      requires Valid() && AllObjects(rates) && UsdReadable(rates)
      modifies this
      ensures Valid() && order == old(order)
      ensures fetchedAtMs == old(fetchedAtMs) && source == old(source)
      ensures Covers(order, old(rates))
      ensures rates == ApplyCrypto(old(rates), CryptoResolver(order, old(rates)), UsdLocal(old(rates)), crypto)
      ensures updated == CountFound(old(rates), CryptoResolver(order, old(rates)), crypto)
      ensures updated + skipped == |crypto|
    {
      OrderCovers(order, rates);
      var r;
      r, updated, skipped := CryptoPass(order, rates, crypto);
      rates := r;
    }

    /** `recompute_usd_relations`. */
    method RecomputeUsdRelations()
      requires Valid() && Recomputable(rates)
      modifies this
      ensures Valid() && order == old(order)
      ensures fetchedAtMs == old(fetchedAtMs) && source == old(source)
      ensures rates == Recomputed(old(rates))
    {
      rates := RecomputePass(order, rates);
    }
  }
}
