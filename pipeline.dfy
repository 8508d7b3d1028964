/** `main` and `scrape_bonbast`: load the template, run the bonbast pass, the
    crypto pass and the recomputation when their data arrived, stamp the
    payload, validate it and build the object that is written. The scrapers'
    results and the clock come in as parameters. */
module Generator {
  import opened Values
  import opened Dicts
  import opened Reconcile
  import opened Validation

  /** `BONBAST_URL`. */
  const BonbastUrl: string := "https://bonbast.com/"

  /** `CRYPTO_CSV_URL`. */
  const CryptoCsvUrl: string :=
    "https://raw.githubusercontent.com/michaelvincentsebastian/Automated-Crypto-Market-Insights/refs/heads/main/latest-data/latest_data.csv"

  /** `USE_SELENIUM_FALLBACK`. */
  const UseBrowserFallback: bool := true

  /** The fewest names the plain HTTP scrape must return to be trusted. */
  const FastPathMinItems: nat := 15

  /** The `source` stamped on every written payload. */
  const Source: string := BonbastUrl + " + " + CryptoCsvUrl

  /** The top-level keys the generator writes itself. */
  const Reserved: set<string> := {"fetchedAtMs", "source", "rates"}

  /** `scrape_bonbast`: `fast` and `fallback` are what the HTTP scrape and
      the browser scrape returned, `None` when they raised. */
  function ScrapeBonbast(fast: Option<seq<(string, nat)>>, fallback: Option<seq<(string, nat)>>): seq<(string, nat)>
  {
    if fast.Some? && |fast.value| >= FastPathMinItems then fast.value
    else if !UseBrowserFallback then []
    else if fallback.Some? then fallback.value
    else []
  }

  /** The template as `load_template` reads it: the old stamp, the rate set
      with its key order, and every top-level entry in file order. */
  datatype Template = Template(
    fetchedAtMs: int,
    source: string,
    order: seq<string>,
    rates: map<string, Entry>,
    top: seq<(string, Value)>)

  /** What any template loaded from a JSON file satisfies: the key order
      lists each record once, and the top-level keys are distinct. */
  ghost predicate WellFormed(t: Template)
  {
    OrderMatches(t.order, t.rates) && Distinct(Keys(t.top))
  }

  /** The object written: the three stamped entries, then the template's
      other top-level entries. */
  datatype Output = Output(
    fetchedAtMs: int,
    source: string,
    order: seq<string>,
    rates: map<string, Entry>,
    extra: seq<(string, Value)>)

  /** How a run ends. */
  datatype Outcome = TemplateMissing | ValidationFailed(reason: Reason) | Written(output: Output)

  /** The process exit status of each outcome. */
  function ExitCode(o: Outcome): int
  {
    match o
    case TemplateMissing => 2
    case ValidationFailed(_) => 3
    case Written(_) => 0
  }

  /** The template's top-level entries the writer has not already set, in
      file order. */
  function Extras(top: seq<(string, Value)>): seq<(string, Value)>
  {
    if top == [] then []
    else
      var n := |top| - 1;
      Extras(top[..n]) + (if top[n].0 in Reserved then [] else [top[n]])
  }

  /** The rate set after the bonbast pass, when bonbast returned names.
      The pass reads every record with `.get`, so it needs objects. */
  function AfterBonbast(t: Template, bonbast: seq<(string, nat)>): (r: map<string, Entry>)
    requires WellFormed(t) && (bonbast != [] ==> AllObjects(t.rates))
    ensures r.Keys == t.rates.Keys
    ensures bonbast == [] ==> r == t.rates
    ensures AllObjects(r) <==> AllObjects(t.rates)
    ensures AllObjects(t.rates) && UsdReadable(t.rates) && Convertible(t.rates) ==>
      UsdReadable(r) && Convertible(r)
  {
    OrderCovers(t.order, t.rates);
    if bonbast == [] then t.rates
    else
      var r := ApplyBonbast(t.rates, BonbastResolver(t.order, t.rates), bonbast);
      if UsdReadable(t.rates) && Convertible(t.rates) then
        BonbastKeepsReadable(t.rates, BonbastResolver(t.order, t.rates), bonbast);
        r
      else r
  }

  /** The bonbast and crypto passes finish: each one that runs finds every
      record an object, and the crypto pass finds a `usd` price it can
      convert. */
  ghost predicate PassesSucceed(t: Template, bonbast: seq<(string, nat)>, crypto: seq<(string, (real, real))>)
    requires WellFormed(t)
  {
    && (bonbast != [] || crypto != [] ==> AllObjects(t.rates))
    && (crypto != [] ==> UsdReadable(AfterBonbast(t, bonbast)))
  }

  /** The rate set after the crypto pass, which indexes and converts against
      the rate set the bonbast pass left. */
  function AfterCrypto(t: Template, bonbast: seq<(string, nat)>, crypto: seq<(string, (real, real))>): (r: map<string, Entry>)
    requires WellFormed(t) && PassesSucceed(t, bonbast, crypto)
    ensures r.Keys == t.rates.Keys
    ensures crypto == [] ==> r == AfterBonbast(t, bonbast)
    ensures AllObjects(r) <==> AllObjects(t.rates)
    ensures AllObjects(t.rates) && Convertible(AfterBonbast(t, bonbast)) ==> Convertible(r)
  {
    var r1 := AfterBonbast(t, bonbast);
    OrderCovers(t.order, t.rates);
    assert Covers(t.order, r1);
    if crypto == [] then r1
    else
      var r := ApplyCrypto(r1, CryptoResolver(t.order, r1), UsdLocal(r1), crypto);
      if Convertible(r1) then
        CryptoKeepsConvertible(r1, CryptoResolver(t.order, r1), UsdLocal(r1), crypto);
        r
      else r
  }

  /** `main` runs to its validation: the two passes finish, and so does the
      recomputation on what they leave. */
  ghost predicate Completes(t: Template, bonbast: seq<(string, nat)>, crypto: seq<(string, (real, real))>)
    requires WellFormed(t)
  {
    PassesSucceed(t, bonbast, crypto) && Recomputable(AfterCrypto(t, bonbast, crypto))
  }

  /** The rate set after all three passes. */
  function Reconciled(t: Template, bonbast: seq<(string, nat)>, crypto: seq<(string, (real, real))>): (r: map<string, Entry>)
    requires WellFormed(t) && Completes(t, bonbast, crypto)
    ensures r.Keys == t.rates.Keys
    ensures AllObjects(r) <==> AllObjects(t.rates)
  {
    Recomputed(AfterCrypto(t, bonbast, crypto))
  }

  /** What `main` does with a template (`None` when the file is missing), the
      scraped bonbast prices, the crypto quotes and the clock. */
  function Run(template: Option<Template>, bonbast: seq<(string, nat)>, crypto: seq<(string, (real, real))>, nowMs: int): Outcome
    requires template.Some? ==> WellFormed(template.value) && Completes(template.value, bonbast, crypto)
  {
    match template
    case None => TemplateMissing
    case Some(t) =>
      var rates := Reconciled(t, bonbast, crypto);
      OrderCovers(t.order, t.rates);
      assert Covers(t.order, rates);
      match Validate(t.order, rates)
      case Failed(reason) => ValidationFailed(reason)
      case Ok => Written(Output(nowMs, Source, t.order, rates, Extras(t.top)))
  }

  /** The three passes `main` runs on a freshly loaded payload, returning
      the stamped payload's rate set. */
  method RunPasses(t: Template, bonbast: seq<(string, nat)>, crypto: seq<(string, (real, real))>, nowMs: int)
    returns (payload: Payload)
    requires WellFormed(t) && Completes(t, bonbast, crypto)
    ensures fresh(payload) && payload.Valid()
    ensures payload.order == t.order && payload.rates == Reconciled(t, bonbast, crypto)
    ensures payload.fetchedAtMs == nowMs && payload.source == Source
  {
    payload := new Payload(t.fetchedAtMs, t.source, t.order, t.rates);
    if bonbast != [] {
      var updated, skipped := payload.UpdateFromBonbast(bonbast);
    }
    assert payload.rates == AfterBonbast(t, bonbast);
    if crypto != [] {
      var updated, skipped := payload.UpdateFromCrypto(crypto);
    }
    assert payload.rates == AfterCrypto(t, bonbast, crypto);
    payload.RecomputeUsdRelations();
    payload.fetchedAtMs := nowMs;
    payload.source := Source;
  }

  /** The merge of the template's other top-level entries into the written
      object. */
  method MergeExtras(top: seq<(string, Value)>) returns (extra: seq<(string, Value)>)
    ensures extra == Extras(top)
  {
    extra := [];
    for i := 0 to |top|
      invariant extra == Extras(top[..i])
    {
      assert top[..i + 1][..i] == top[..i];
      if top[i].0 !in Reserved {
        extra := extra + [top[i]];
      }
    }
    assert top[..|top|] == top;
  }

  /** `main`. */
  method Generate(template: Option<Template>, bonbast: seq<(string, nat)>, crypto: seq<(string, (real, real))>, nowMs: int)
    returns (outcome: Outcome)
    requires template.Some? ==> WellFormed(template.value) && Completes(template.value, bonbast, crypto)
    ensures outcome == Run(template, bonbast, crypto, nowMs)
  {
    if template.None? {
      return TemplateMissing;
    }
    var t := template.value;
    var payload := RunPasses(t, bonbast, crypto, nowMs);
    OrderCovers(payload.order, payload.rates);
    var v := ValidatePayload(payload.order, payload.rates);
    if v.Failed? {
      return ValidationFailed(v.reason);
    }
    var extra := MergeExtras(t.top);
    outcome := Written(Output(payload.fetchedAtMs, payload.source, payload.order, payload.rates, extra));
  }

  // ---------------------------------------------------------------------
  // Properties
  // ---------------------------------------------------------------------

  /** The HTTP scrape is trusted from `FastPathMinItems` names on, whatever
      the browser would return; below that, or when it raised, the browser's
      result is used, and nothing when that raised too. */
  lemma ScrapeBonbastChoice(fast: Option<seq<(string, nat)>>, fallback: Option<seq<(string, nat)>>)
    ensures fast.Some? && |fast.value| >= FastPathMinItems ==>
      forall other :: ScrapeBonbast(fast, other) == fast.value
    ensures !(fast.Some? && |fast.value| >= FastPathMinItems) ==>
      ScrapeBonbast(fast, fallback) == if fallback.Some? then fallback.value else []
    ensures fast.Some? && |fast.value| == 14 && fallback.None? ==> ScrapeBonbast(fast, fallback) == []
  {
  }

  /** Changes confined to `s1` and then to `s2` are confined to both. */
  lemma OnlyFieldsChangedTrans(a: Entry, b: Entry, c: Entry, s1: set<string>, s2: set<string>)
    requires OnlyFieldsChanged(a, b, s1) && OnlyFieldsChanged(b, c, s2)
    ensures OnlyFieldsChanged(a, c, s1 + s2)
  {
  }

  /** A record that changed only in its prices keeps its kind. */
  lemma KindKept(a: Entry, b: Entry, kind: string)
    requires OnlyFieldsChanged(a, b, {"price", "usdPrice", "change24h"})
    ensures HasKind(a, kind) ==> HasKind(b, kind)
  {
  }

  /** The two passes change no record's fields but `price`, `usdPrice` and
      `change24h`. */
  lemma PassesKeepMetadata(t: Template, bonbast: seq<(string, nat)>, crypto: seq<(string, (real, real))>, k: string)
    requires WellFormed(t) && PassesSucceed(t, bonbast, crypto) && k in t.rates && t.rates[k].Object?
    ensures OnlyFieldsChanged(t.rates[k], AfterCrypto(t, bonbast, crypto)[k], {"price", "usdPrice", "change24h"})
  {
    OrderCovers(t.order, t.rates);
    var r1 := AfterBonbast(t, bonbast);
    if bonbast != [] {
      ApplyBonbastPerKey(t.rates, BonbastResolver(t.order, t.rates), bonbast, k);
    }
    assert OnlyFieldsChanged(t.rates[k], r1[k], {"price"});
    assert Covers(t.order, r1);
    if crypto != [] {
      ApplyCryptoTouched(r1, CryptoResolver(t.order, r1), UsdLocal(r1), crypto, k);
    }
    assert OnlyFieldsChanged(r1[k], AfterCrypto(t, bonbast, crypto)[k], {"usdPrice", "change24h", "price"});
    OnlyFieldsChangedTrans(t.rates[k], r1[k], AfterCrypto(t, bonbast, crypto)[k], {"price"}, {"usdPrice", "change24h", "price"});
  }

  /** Changes in the prices and then in `price` and `usdPrice` stay in the
      prices. */
  lemma PricesThenRecompute(a: Entry, b: Entry, c: Entry)
    requires OnlyFieldsChanged(a, b, {"price", "usdPrice", "change24h"})
    requires OnlyFieldsChanged(b, c, {"price", "usdPrice"})
    ensures OnlyFieldsChanged(a, c, {"price", "usdPrice", "change24h"})
  {
  }

  /** All three passes change no record's fields but `price`, `usdPrice`
      and `change24h`. */
  lemma ReconciledKeepsMetadata(t: Template, bonbast: seq<(string, nat)>, crypto: seq<(string, (real, real))>, k: string)
    requires WellFormed(t) && Completes(t, bonbast, crypto) && k in t.rates
    ensures t.rates[k].Object? ==>
      OnlyFieldsChanged(t.rates[k], Reconciled(t, bonbast, crypto)[k], {"price", "usdPrice", "change24h"})
    ensures !t.rates[k].Object? ==> Reconciled(t, bonbast, crypto)[k] == t.rates[k]
  {
    var r2 := AfterCrypto(t, bonbast, crypto);
    if !AllObjects(t.rates) {
      PassesNeedObjects(t, bonbast, crypto);
    } else {
      PassesKeepMetadata(t, bonbast, crypto, k);
      RecomputeFrame(r2, k);
      PricesThenRecompute(t.rates[k], r2[k], Recomputed(r2)[k]);
    }
  }

  /** The passes read every record with `.get`: a template with a record
      that is not an object gets through them only when neither source
      returned data and there is no anchor, and then nothing changes. */
  lemma PassesNeedObjects(t: Template, bonbast: seq<(string, nat)>, crypto: seq<(string, (real, real))>)
    requires WellFormed(t) && Completes(t, bonbast, crypto) && !AllObjects(t.rates)
    ensures bonbast == [] && crypto == []
    ensures AnchorPrice(t.rates).None?
    ensures Reconciled(t, bonbast, crypto) == t.rates
  {
  }

  /** A template whose records are all objects, whose `usd` price and
      currency prices read as numbers, goes through all three passes
      whatever the sources return. */
  lemma NumericTemplatesComplete(t: Template, bonbast: seq<(string, nat)>, crypto: seq<(string, (real, real))>)
    requires WellFormed(t) && AllObjects(t.rates) && UsdReadable(t.rates) && Convertible(t.rates)
    ensures PassesSucceed(t, bonbast, crypto) && Completes(t, bonbast, crypto)
  {
  }

  /** A template with a record that is not an object is never written: the
      passes leave that record as it is, and validation refuses it. */
  lemma RunRejectsNonObjects(t: Template, bonbast: seq<(string, nat)>, crypto: seq<(string, (real, real))>, nowMs: int)
    requires WellFormed(t) && Completes(t, bonbast, crypto) && !AllObjects(t.rates)
    ensures Run(Some(t), bonbast, crypto, nowMs).ValidationFailed?
    ensures ExitCode(Run(Some(t), bonbast, crypto, nowMs)) == 3
  {
    var k :| k in t.rates && !t.rates[k].Object?;
    PassesNeedObjects(t, bonbast, crypto);
    RunExitCode(Some(t), bonbast, crypto, nowMs);
    assert !RecordValid(Reconciled(t, bonbast, crypto)[k]);
  }

  /** The exit status: 2 exactly when the template is missing, and otherwise
      0 exactly when the reconciled rate set holds at least `MinRates`
      records, each of which passes the record checks. */
  lemma RunExitCode(template: Option<Template>, bonbast: seq<(string, nat)>, crypto: seq<(string, (real, real))>, nowMs: int)
    requires template.Some? ==> WellFormed(template.value) && Completes(template.value, bonbast, crypto)
    ensures ExitCode(Run(template, bonbast, crypto, nowMs)) == 2 <==> template.None?
    ensures template.Some? ==>
      var rates := Reconciled(template.value, bonbast, crypto);
      (ExitCode(Run(template, bonbast, crypto, nowMs)) == 0 <==>
         |rates| >= MinRates && forall k :: k in rates ==> RecordValid(rates[k]))
    ensures ExitCode(Run(template, bonbast, crypto, nowMs)) in {0, 2, 3}
  {
    if template.Some? {
      var t := template.value;
      var rates := Reconciled(t, bonbast, crypto);
      assert OrderMatches(t.order, rates);
      ValidateOk(t.order, rates);
    }
  }

  /** The object a successful run writes, and the verdict that let it
      through. */
  lemma RunWrittenShape(t: Template, bonbast: seq<(string, nat)>, crypto: seq<(string, (real, real))>, nowMs: int)
    requires WellFormed(t) && Completes(t, bonbast, crypto)
    requires Run(Some(t), bonbast, crypto, nowMs).Written?
    ensures var rates := Reconciled(t, bonbast, crypto);
      && Covers(t.order, rates) && Validate(t.order, rates) == Ok
      && Run(Some(t), bonbast, crypto, nowMs).output == Output(nowMs, Source, t.order, rates, Extras(t.top))
  {
    OrderCovers(t.order, t.rates);
  }

  /** A written payload carries the clock's time and the fixed source, the
      template's keys in the template's order, only valid records, and the
      template's other top-level entries; the template's records were all
      objects, and each differs from the written one only in `price`,
      `usdPrice` and `change24h`. */
  lemma RunWritten(t: Template, bonbast: seq<(string, nat)>, crypto: seq<(string, (real, real))>, nowMs: int)
    requires WellFormed(t) && Completes(t, bonbast, crypto)
    requires Run(Some(t), bonbast, crypto, nowMs).Written?
    ensures AllObjects(t.rates)
    ensures var o := Run(Some(t), bonbast, crypto, nowMs).output;
      && o.fetchedAtMs == nowMs && o.source == Source
      && o.order == t.order && o.rates.Keys == t.rates.Keys
      && |o.rates| >= MinRates
      && (forall k :: k in o.rates ==> RecordValid(o.rates[k]))
      && (forall k :: k in t.rates ==> OnlyFieldsChanged(t.rates[k], o.rates[k], {"price", "usdPrice", "change24h"}))
      && o.extra == Extras(t.top)
  {
    var rates := Reconciled(t, bonbast, crypto);
    RunWrittenShape(t, bonbast, crypto, nowMs);
    var o := Run(Some(t), bonbast, crypto, nowMs).output;
    assert o.rates == rates;
    assert OrderMatches(t.order, rates);
    ValidateOk(t.order, rates);
    assert AllObjects(rates);
    forall k | k in t.rates
      ensures OnlyFieldsChanged(t.rates[k], o.rates[k], {"price", "usdPrice", "change24h"})
    {
      ReconciledKeepsMetadata(t, bonbast, crypto, k);
    }
  }

  /** With no bonbast names and no crypto quotes, the rate set written is the
      template's, recomputed. */
  lemma RunWithoutData(t: Template, nowMs: int)
    requires WellFormed(t) && Completes(t, [], [])
    ensures var out := Run(Some(t), [], [], nowMs);
      out.Written? ==> out.output.rates == Recomputed(t.rates)
  {
  }

  /** When the `usd` currency has a usable price after the two passes, the
      reconciled `usd` record is worth exactly one dollar. */
  lemma UsdIsOne(t: Template, bonbast: seq<(string, nat)>, crypto: seq<(string, (real, real))>)
    requires WellFormed(t) && Completes(t, bonbast, crypto)
    requires "usd" in t.rates && HasKind(t.rates["usd"], "currency")
    requires AnchorPrice(AfterCrypto(t, bonbast, crypto)).Some?
    ensures "usdPrice" in Reconciled(t, bonbast, crypto)["usd"].fields
    ensures Reconciled(t, bonbast, crypto)["usd"].fields["usdPrice"] == Int(1)
  {
    var r2 := AfterCrypto(t, bonbast, crypto);
    PassesKeepMetadata(t, bonbast, crypto, "usd");
    KindKept(t.rates["usd"], r2["usd"], "currency");
    RecomputeUsdIsOne(r2);
  }

  /** The extra entries are the template's entries whose key the writer does
      not set, in file order, so the written keys stay distinct. */
  lemma {:induction false} ExtrasSpec(top: seq<(string, Value)>)
    ensures forall e :: e in Extras(top) <==> e in top && e.0 !in Reserved
  {
    if top != [] {
      var n := |top| - 1;
      ExtrasSpec(top[..n]);
      assert top == top[..n] + [top[n]];
    }
  }

  /** Extracting the extras keeps file order: it distributes over
      concatenation. */
  lemma {:induction false} ExtrasAppend(a: seq<(string, Value)>, b: seq<(string, Value)>)
    ensures Extras(a + b) == Extras(a) + Extras(b)
  {
    if b != [] {
      var n := |b| - 1;
      assert (a + b)[..|a + b| - 1] == a + b[..n];
      ExtrasAppend(a, b[..n]);
    } else {
      assert a + b == a;
    }
  }

  /** The extras keep the template's keys distinct. */
  lemma {:induction false} ExtrasKeysDistinct(top: seq<(string, Value)>)
    requires Distinct(Keys(top))
    ensures Distinct(Keys(Extras(top)))
  {
    if top != [] {
      var n := |top| - 1;
      var pre := top[..n];
      assert Keys(pre) == Keys(top)[..n];
      ExtrasKeysDistinct(pre);
      ExtrasSpec(pre);
      var xs := Extras(top);
      var ps := Extras(pre);
      if top[n].0 !in Reserved {
        forall i, j | 0 <= i < j < |xs| ensures xs[i].0 != xs[j].0 {
          if j == |ps| {
            assert xs[i] == ps[i] && ps[i] in pre;
            var m :| 0 <= m < n && pre[m] == ps[i];
            assert Keys(top)[m] == pre[m].0 && Keys(top)[n] == top[n].0;
          } else {
            assert xs[i] == ps[i] && xs[j] == ps[j];
            assert Keys(ps)[i] == ps[i].0 && Keys(ps)[j] == ps[j].0;
          }
        }
      }
    }
  }

  /** Two lists without repeats and without a shared element join into a
      list without repeats. */
  lemma DistinctJoin(ps: seq<string>, xs: seq<string>)
    requires Distinct(ps) && Distinct(xs)
    requires forall j :: 0 <= j < |xs| ==> xs[j] !in ps
    ensures Distinct(ps + xs)
  {
    var ks := ps + xs;
    forall i, j | 0 <= i < j < |ks| ensures ks[i] != ks[j] {
      if j >= |ps| {
        assert ks[j] == xs[j - |ps|];
        if i >= |ps| {
          assert ks[i] == xs[i - |ps|];
        }
      }
    }
  }

  /** No extra has a reserved key. */
  lemma ExtrasKeysFree(top: seq<(string, Value)>)
    ensures forall j :: 0 <= j < |Keys(Extras(top))| ==> Keys(Extras(top))[j] !in Reserved
  {
    ExtrasSpec(top);
    forall j | 0 <= j < |Keys(Extras(top))| ensures Keys(Extras(top))[j] !in Reserved {
      assert Extras(top)[j] in Extras(top);
    }
  }

  /** The written object's keys are distinct: the three stamped ones, then
      the extras' keys. */
  lemma ExtrasDistinct(top: seq<(string, Value)>)
    requires Distinct(Keys(top))
    ensures Distinct(["fetchedAtMs", "source", "rates"] + Keys(Extras(top)))
  {
    var stamped := ["fetchedAtMs", "source", "rates"];
    ExtrasKeysDistinct(top);
    ExtrasKeysFree(top);
    assert forall k :: k in stamped ==> k in Reserved;
    DistinctJoin(stamped, Keys(Extras(top)));
  }
}
