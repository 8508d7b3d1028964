/** The price board parser `parse_bonbast_html`, over an abstract page: the
    text of each element found by id, and the cell texts of every table row
    in document order. */
module BonbastParse {
  import opened Values
  import opened Dicts
  import opened Text

  /** `sub in s`. */
  predicate Contains(s: string, sub: string)
    decreases |s|
  {
    sub <= s || (s != [] && Contains(s[1..], sub))
  }

  /** The top-of-page items: element id and the display name its price is
      recorded under, in lookup order. */
  const TopItems: seq<(string, string)> :=
    [("gol18", "Gold Gram 18k"), ("mithqal", "Gold Mithqal"), ("ounce", "Gold Ounce")]

  /** One coin-naming rule: a name holding every `need` marker and no `avoid`
      marker is renamed to `alias`. */
  datatype Rule = Rule(need: seq<string>, avoid: seq<string>, alias: string)

  /** The coin-naming chain, in the order it is tried. */
  const CoinRules: seq<Rule> := [
    Rule(["Emami"], [], "Emami"),
    Rule(["Azadi"], ["Gera", "\U{BD}", "\U{BC}"], "Azadi"),
    Rule(["Half"], [], "\U{BD} Azadi"),
    Rule(["Quarter"], [], "\U{BC} Azadi"),
    Rule(["Gram", "Coin"], [], "Gerami")
  ]

  predicate ContainsAll(name: string, markers: seq<string>)
  {
    forall i :: 0 <= i < |markers| ==> Contains(name, markers[i])
  }

  predicate ContainsNone(name: string, markers: seq<string>)
  {
    forall i :: 0 <= i < |markers| ==> !Contains(name, markers[i])
  }

  predicate Matches(r: Rule, name: string)
  {
    ContainsAll(name, r.need) && ContainsNone(name, r.avoid)
  }

  /** The alias of the first rule that matches, or the name itself. */
  function FirstMatch(rules: seq<Rule>, name: string): string
  {
    if rules == [] then name
    else if Matches(rules[0], name) then rules[0].alias
    else FirstMatch(rules[1..], name)
  }

  /** The coin-name normalisation applied to every table row's name. */
  function CanonicalCoinName(name: string): string
  {
    FirstMatch(CoinRules, name)
  }

  /** The (name, price text) a row offers: cells 1 and 2 of a 4-cell row,
      cells 0 and 1 of a 3-cell row, two empty texts otherwise. */
  function RowTexts(cells: seq<string>): (string, string)
  {
    if |cells| == 4 then (cells[1], cells[2])
    else if |cells| == 3 then (cells[0], cells[1])
    else ("", "")
  }

  /** The entry one table row yields, if any. */
  function RowEntry(cells: seq<string>): Option<(string, nat)>
  {
    var (name, price) := RowTexts(cells);
    var p := ToIntPrice(price);
    if name == "" || p.None? then None else Some((CanonicalCoinName(name), p.value))
  }

  /** The entry one top-of-page item yields, if its element is on the page
      and its text holds a price. */
  function TopEntry(top: map<string, string>, item: (string, string)): Option<(string, nat)>
  {
    if item.0 !in top then None
    else match ToIntPrice(top[item.0])
      case None => None
      case Some(p) => Some((item.1, p))
  }

  function Present(os: seq<Option<(string, nat)>>): seq<(string, nat)>
  {
    if os == [] then []
    else var n := |os| - 1; Present(os[..n]) + (if os[n].Some? then [os[n].value] else [])
  }

  function TopEntries(top: map<string, string>, items: seq<(string, string)>): seq<Option<(string, nat)>>
  {
    seq(|items|, i requires 0 <= i < |items| => TopEntry(top, items[i]))
  }

  function RowEntries(rows: seq<seq<string>>): seq<Option<(string, nat)>>
  {
    seq(|rows|, i requires 0 <= i < |rows| => RowEntry(rows[i]))
  }

  /** What the parser returns: the top items written first, then every row
      entry, into one dict. */
  function Parsed(top: map<string, string>, rows: seq<seq<string>>): seq<(string, nat)>
  {
    PutAll(PutAll([], Present(TopEntries(top, TopItems))), Present(RowEntries(rows)))
  }

  lemma PresentSnoc(os: seq<Option<(string, nat)>>, o: Option<(string, nat)>)
    ensures Present(os + [o]) == Present(os) + (if o.Some? then [o.value] else [])
  {
    assert (os + [o])[..|os|] == os;
  }

  lemma PutAllSnoc<V>(d: seq<(string, V)>, es: seq<(string, V)>, e: (string, V))
    ensures PutAll(d, es + [e]) == Put(PutAll(d, es), e.0, e.1)
  {
    assert (es + [e])[..|es|] == es;
  }

  /** Writing the present entries of `os + [o]` is writing those of `os`,
      then `o` if it is there. */
  lemma WriteStep(d: seq<(string, nat)>, os: seq<Option<(string, nat)>>, o: Option<(string, nat)>)
    ensures PutAll(d, Present(os + [o])) ==
      if o.Some? then Put(PutAll(d, Present(os)), o.value.0, o.value.1) else PutAll(d, Present(os))
  {
    PresentSnoc(os, o);
    if o.Some? {
      PutAllSnoc(d, Present(os), o.value);
    } else {
      assert Present(os) + [] == Present(os);
    }
  }

  lemma TopEntriesStep(top: map<string, string>, items: seq<(string, string)>, i: nat)
    requires i < |items|
    ensures TopEntries(top, items[..i + 1]) == TopEntries(top, items[..i]) + [TopEntry(top, items[i])]
  {
  }

  lemma RowEntriesStep(rows: seq<seq<string>>, i: nat)
    requires i < |rows|
    ensures RowEntries(rows[..i + 1]) == RowEntries(rows[..i]) + [RowEntry(rows[i])]
  {
  }

  /** `parse_bonbast_html`. */
  method ParseBonbastHtml(top: map<string, string>, rows: seq<seq<string>>) returns (out: seq<(string, nat)>)
    ensures out == Parsed(top, rows)
  {
    out := [];
    var items := TopItems;
    for i := 0 to |items|
      invariant out == PutAll([], Present(TopEntries(top, items[..i])))
    {
      var e := TopEntry(top, items[i]);
      TopEntriesStep(top, items, i);
      WriteStep([], TopEntries(top, items[..i]), e);
      if e.Some? {
        out := Put(out, e.value.0, e.value.1);
      }
    }
    assert items[..|items|] == items;
    ghost var topOut := out;
    for i := 0 to |rows|
      invariant out == PutAll(topOut, Present(RowEntries(rows[..i])))
    {
      var e := RowEntry(rows[i]);
      RowEntriesStep(rows, i);
      WriteStep(topOut, RowEntries(rows[..i]), e);
      if e.Some? {
        out := Put(out, e.value.0, e.value.1);
      }
    }
    assert rows[..|rows|] == rows;
  }

  // ---------------------------------------------------------------------
  // Properties
  // ---------------------------------------------------------------------

  /** Last write wins: each name the parser returns holds the price of the
      last row that produced it, or of its top item when no row did, and no
      name appears twice. */
  lemma ParsedLookup(top: map<string, string>, rows: seq<seq<string>>, name: string)
    ensures Distinct(Keys(Parsed(top, rows)))
    ensures var fromRows := Last(Present(RowEntries(rows)), name);
      Get(Parsed(top, rows), name) ==
        if fromRows.Some? then fromRows else Last(Present(TopEntries(top, TopItems)), name)
  {
    var tops := Present(TopEntries(top, TopItems));
    GetPutAll([], tops, name);
    GetPutAll(PutAll([], tops), Present(RowEntries(rows)), name);
    if Last(tops, name).None? {
      assert Get<nat>([], name) == None;
    }
  }

  /** Only 3- and 4-cell rows with a non-empty name and a price yield an
      entry, and it carries that row's name (coin-normalised) and price. */
  lemma RowEntryCases(cells: seq<string>)
    ensures |cells| != 3 && |cells| != 4 ==> RowEntry(cells) == None
    ensures |cells| == 4 ==> (RowEntry(cells) ==
      if cells[1] == "" || ToIntPrice(cells[2]).None? then None
      else Some((CanonicalCoinName(cells[1]), ToIntPrice(cells[2]).value)))
    ensures |cells| == 3 ==> (RowEntry(cells) ==
      if cells[0] == "" || ToIntPrice(cells[1]).None? then None
      else Some((CanonicalCoinName(cells[0]), ToIntPrice(cells[1]).value)))
  {
  }

  /** A top item is recorded exactly when its element is on the page and its
      text parses, under its fixed display name. */
  lemma TopEntryCases(top: map<string, string>, i: nat)
    requires i < |TopItems|
    ensures TopEntry(top, TopItems[i]).Some? <==>
      TopItems[i].0 in top && ToIntPrice(top[TopItems[i].0]).Some?
    ensures TopEntry(top, TopItems[i]).Some? ==>
      TopEntry(top, TopItems[i]).value == (TopItems[i].1, ToIntPrice(top[TopItems[i].0]).value)
  {
  }

  /** The chain of rules picks the alias of the first rule that matches; when
      none does, the name is kept. */
  lemma {:induction false} FirstMatchWins(rules: seq<Rule>, name: string, j: nat)
    requires j < |rules| && Matches(rules[j], name)
    requires forall i :: 0 <= i < j ==> !Matches(rules[i], name)
    ensures FirstMatch(rules, name) == rules[j].alias
  {
    if j > 0 {
      FirstMatchWins(rules[1..], name, j - 1);
    }
  }

  lemma {:induction false} FirstMatchNone(rules: seq<Rule>, name: string)
    requires forall i :: 0 <= i < |rules| ==> !Matches(rules[i], name)
    ensures FirstMatch(rules, name) == name
  {
    if rules != [] {
      FirstMatchNone(rules[1..], name);
    }
  }

  lemma {:induction false} FirstMatchResult(rules: seq<Rule>, name: string)
    ensures FirstMatch(rules, name) == name
      || exists i :: 0 <= i < |rules| && Matches(rules[i], name) && FirstMatch(rules, name) == rules[i].alias
  {
    if rules != [] && !Matches(rules[0], name) {
      FirstMatchResult(rules[1..], name);
      if FirstMatch(rules, name) != name {
        var i :| 0 <= i < |rules[1..]| && Matches(rules[1..][i], name) && FirstMatch(rules[1..], name) == rules[1..][i].alias;
        assert rules[i + 1] == rules[1..][i];
      }
    }
  }

  /** A name mentioning "Emami" is always the Emami coin. */
  lemma EmamiFirst(name: string)
    requires Contains(name, "Emami")
    ensures CanonicalCoinName(name) == "Emami"
  {
    assert Matches(CoinRules[0], name);
  }

  /** A string holding `sub` holds its first character. */
  lemma {:induction false} ContainsFirst(s: string, sub: string)
    requires sub != [] && Contains(s, sub)
    ensures sub[0] in s
  {
    if !(sub <= s) {
      ContainsFirst(s[1..], sub);
    }
  }

  lemma AzadiLacksMarkers()
    ensures !Contains("Azadi", "Gera") && !Contains("Azadi", "\U{BD}") && !Contains("Azadi", "\U{BC}")
  {
    if Contains("Azadi", "Gera") { ContainsFirst("Azadi", "Gera"); }
    if Contains("Azadi", "\U{BD}") { ContainsFirst("Azadi", "\U{BD}"); }
    if Contains("Azadi", "\U{BC}") { ContainsFirst("Azadi", "\U{BC}"); }
  }

  /** A name mentioning "Azadi" together with a Gerami marker or a half or
      quarter glyph never becomes the full Azadi coin. */
  lemma AzadiExcludesFractions(name: string)
    requires Contains(name, "Azadi")
    requires Contains(name, "Gera") || Contains(name, "\U{BD}") || Contains(name, "\U{BC}")
    ensures CanonicalCoinName(name) != "Azadi"
  {
    FirstMatchResult(CoinRules, name);
    if CanonicalCoinName(name) == name {
      AzadiLacksMarkers();
    } else {
      var i :| 0 <= i < |CoinRules| && Matches(CoinRules[i], name) && CanonicalCoinName(name) == CoinRules[i].alias;
      var avoid := CoinRules[1].avoid;
      assert avoid[0] == "Gera" && avoid[1] == "\U{BD}" && avoid[2] == "\U{BC}";
      assert !ContainsNone(name, avoid);
      assert i != 1;
      assert CoinRules[1].alias == "Azadi";
    }
  }

  /** A name no rule matches is kept unchanged. */
  lemma UnmatchedKept(name: string)
    requires forall i :: 0 <= i < |CoinRules| ==> !Matches(CoinRules[i], name)
    ensures CanonicalCoinName(name) == name
  {
    FirstMatchNone(CoinRules, name);
  }

  /** A name mentioning "Half", without "Emami" and not caught by the Azadi
      rule (no "Azadi", or one of "Gera", `½`, `¼` beside it), is the half
      coin. */
  lemma HalfCoin(name: string)
    requires !Contains(name, "Emami") && Contains(name, "Half")
    requires !Matches(CoinRules[1], name)
    ensures CanonicalCoinName(name) == "\U{BD} Azadi"
  {
    assert CoinRules[0].need[0] == "Emami";
    assert !Matches(CoinRules[0], name);
    assert CoinRules[1].need[0] == "Azadi" && CoinRules[1].avoid[0] == "Gera";
    assert !Matches(CoinRules[1], name);
    assert CoinRules[2].need[0] == "Half";
    assert Matches(CoinRules[2], name);
    FirstMatchWins(CoinRules, name, 2);
  }
}
