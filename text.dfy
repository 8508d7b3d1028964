/** Text normalisers: integer prices out of scraped text (`to_int_price`) and
    the fuzzy-matching form of a display name (`norm_key`). */
module Text {
  import opened Values

  // ---------------------------------------------------------------------
  // Digits and integer prices
  // ---------------------------------------------------------------------

  predicate IsAsciiDigit(c: char) { '0' <= c <= '9' }

  /** Extended Arabic-Indic (Persian) digits U+06F0..U+06F9. */
  predicate IsPersianDigit(c: char) { '\U{6F0}' <= c <= '\U{6F9}' }

  /** Arabic-Indic digits U+0660..U+0669. */
  predicate IsArabicDigit(c: char) { '\U{660}' <= c <= '\U{669}' }

  predicate IsAnyDigit(c: char) { IsAsciiDigit(c) || IsPersianDigit(c) || IsArabicDigit(c) }

  /** The translation table: a Persian or Arabic digit becomes the ASCII digit
      of the same value; every other character is kept. */
  function TranslateDigit(c: char): (d: char)
    ensures IsAsciiDigit(d) <==> IsAnyDigit(c)
    ensures !IsPersianDigit(c) && !IsArabicDigit(c) ==> d == c
  {
    if IsPersianDigit(c) then (c as int - 0x06F0 + '0' as int) as char
    else if IsArabicDigit(c) then (c as int - 0x0660 + '0' as int) as char
    else c
  }

  /** `text.translate(_PERSIAN_ARABIC_DIGITS)`. */
  function Translate(s: string): string
  {
    seq(|s|, i requires 0 <= i < |s| => TranslateDigit(s[i]))
  }

  /** Length of the run of ASCII digits that starts `s`. */
  function LeadingDigits(s: string): (n: nat)
    ensures n <= |s|
    ensures forall i :: 0 <= i < n ==> IsAsciiDigit(s[i])
    ensures n < |s| ==> !IsAsciiDigit(s[n])
  {
    if s == [] || !IsAsciiDigit(s[0]) then 0 else 1 + LeadingDigits(s[1..])
  }

  /** `re.findall(r"[0-9]+", s)`: the maximal runs of ASCII digits, left to right. */
  function DigitRuns(s: string): seq<string>
    decreases |s|
  {
    if s == [] then []
    else if !IsAsciiDigit(s[0]) then DigitRuns(s[1..])
    else var n := LeadingDigits(s); [s[..n]] + DigitRuns(s[n..])
  }

  /** `"".join(runs)`. */
  function Concat(runs: seq<string>): string
  {
    if runs == [] then [] else runs[0] + Concat(runs[1..])
  }

  /** The ASCII digits of `s`, in order. */
  function DigitsOf(s: string): (ds: string)
    ensures forall i :: 0 <= i < |ds| ==> IsAsciiDigit(ds[i])
  {
    if s == [] then []
    else if IsAsciiDigit(s[0]) then [s[0]] + DigitsOf(s[1..])
    else DigitsOf(s[1..])
  }

  /** `int(ds)` for a string of ASCII digits (leading zeros allowed). */
  function DecimalValue(ds: string): nat
    requires forall i :: 0 <= i < |ds| ==> IsAsciiDigit(ds[i])
  {
    if ds == [] then 0
    else
      var n := |ds| - 1;
      assert IsAsciiDigit(ds[n]);
      DecimalValue(ds[..n]) * 10 + (ds[n] as int - '0' as int)
  }

  /** Python's default limit on `int()` of a decimal string
      (`sys.int_info.default_max_str_digits`, since 3.11): a longer string
      raises a ValueError, which `to_int_price` turns into None. */
  const MaxStrDigits: nat := 4300

  /** `to_int_price`. */
  function ToIntPrice(text: string): Option<nat>
  {
    if text == "" then None
    else
      var m := DigitRuns(Translate(text));
      if m == [] then None
      else
        var joined := Concat(m);
        RunsJoinToDigits(Translate(text));
        if |joined| > MaxStrDigits then None else Some(DecimalValue(joined))
  }

  lemma {:induction false} DigitsOfAppend(a: string, b: string)
    ensures DigitsOf(a + b) == DigitsOf(a) + DigitsOf(b)
  {
    if a == [] {
      assert a + b == b;
    } else {
      assert (a + b)[0] == a[0];
      assert (a + b)[1..] == a[1..] + b;
      DigitsOfAppend(a[1..], b);
    }
  }

  lemma DigitsOfAllDigits(s: string)
    requires forall i :: 0 <= i < |s| ==> IsAsciiDigit(s[i])
    ensures DigitsOf(s) == s
  {
  }

  /** Joining the runs `findall` returns gives exactly the digits of the
      text, and there is no run exactly when there is no digit. */
  lemma {:induction false} RunsJoinToDigits(s: string)
    ensures Concat(DigitRuns(s)) == DigitsOf(s)
    ensures DigitRuns(s) == [] <==> DigitsOf(s) == []
    decreases |s|
  {
    if s == [] {
    } else if !IsAsciiDigit(s[0]) {
      RunsJoinToDigits(s[1..]);
    } else {
      var n := LeadingDigits(s);
      RunsJoinToDigits(s[n..]);
      assert s == s[..n] + s[n..];
      DigitsOfAppend(s[..n], s[n..]);
      DigitsOfAllDigits(s[..n]);
      var runs := DigitRuns(s);
      assert runs == [s[..n]] + DigitRuns(s[n..]);
      assert runs[1..] == DigitRuns(s[n..]);
      assert DigitsOf(s)[0] == s[0];
    }
  }

  /** The price is the integer spelled by every digit of the text, in order,
      once Persian and Arabic digits are read as ASCII ones; there is none
      when the text has no digit at all (or more than Python will convert). */
  lemma ToIntPriceDigits(text: string)
    ensures var ds := DigitsOf(Translate(text));
      ToIntPrice(text) == if ds == [] || |ds| > MaxStrDigits then None else Some(DecimalValue(ds))
  {
    RunsJoinToDigits(Translate(text));
    if text == "" {
      assert Translate(text) == [];
    }
  }

  lemma TranslateAppend(a: string, b: string)
    ensures Translate(a + b) == Translate(a) + Translate(b)
  {
  }

  lemma TranslateTwice(s: string)
    ensures Translate(Translate(s)) == Translate(s)
  {
  }

  /** Which script the digits are written in does not matter. */
  lemma ToIntPriceScriptInsensitive(text: string)
    ensures ToIntPrice(Translate(text)) == ToIntPrice(text)
  {
    ToIntPriceDigits(text);
    ToIntPriceDigits(Translate(text));
    TranslateTwice(text);
  }

  /** Separators do not matter: dropping a character that is no digit in any
      of the three scripts leaves the price unchanged. */
  lemma ToIntPriceSeparatorInsensitive(a: string, c: char, b: string)
    requires !IsAnyDigit(c)
    ensures ToIntPrice(a + [c] + b) == ToIntPrice(a + b)
  {
    ToIntPriceDigits(a + [c] + b);
    ToIntPriceDigits(a + b);
    TranslateAppend(a + [c], b);
    TranslateAppend(a, [c]);
    TranslateAppend(a, b);
    var ta, tc, tb := Translate(a), Translate([c]), Translate(b);
    assert tc == [TranslateDigit(c)];
    assert DigitsOf(tc) == [];
    assert Translate(a + [c] + b) == ta + tc + tb;
    DigitsOfAppend(ta + tc, tb);
    DigitsOfAppend(ta, tc);
    DigitsOfAppend(ta, tb);
    assert DigitsOf(Translate(a + [c] + b)) == DigitsOf(Translate(a + b));
  }

  /** The number of digits, in any of the three scripts, in `s`. */
  function DigitCount(s: string): nat
  {
    if s == [] then 0 else (if IsAnyDigit(s[0]) then 1 else 0) + DigitCount(s[1..])
  }

  lemma {:induction false} DigitCountTranslate(s: string)
    ensures |DigitsOf(Translate(s))| == DigitCount(s)
  {
    if s != [] {
      assert Translate(s) == [TranslateDigit(s[0])] + Translate(s[1..]);
      DigitCountTranslate(s[1..]);
    }
  }

  /** `to_int_price` gives None exactly for text with no digit, or with more
      digits than Python converts. */
  lemma ToIntPriceNone(text: string)
    ensures ToIntPrice(text).None? <==> DigitCount(text) == 0 || DigitCount(text) > MaxStrDigits
  {
    ToIntPriceDigits(text);
    DigitCountTranslate(text);
  }

  lemma DecimalValueExample()
    ensures DecimalValue("12345") == 12345
  {
    assert "12345"[..4] == "1234";
    assert "1234"[..3] == "123";
    assert "123"[..2] == "12";
    assert "12"[..1] == "1";
    assert "1"[..0] == "";
  }

  lemma TranslateExample()
    ensures Translate("\U{6F1}\U{6F2},\U{6F3}\U{6F4}\U{6F5}") == "12,345"
  {
    var t := Translate("\U{6F1}\U{6F2},\U{6F3}\U{6F4}\U{6F5}");
    assert t[0] == '1' && t[1] == '2' && t[2] == ',' && t[3] == '3' && t[4] == '4' && t[5] == '5';
  }

  /** A non-digit between two runs of digits is dropped. */
  lemma DigitsOfAcross(a: string, sep: char, b: string)
    requires forall i :: 0 <= i < |a| ==> IsAsciiDigit(a[i])
    requires forall i :: 0 <= i < |b| ==> IsAsciiDigit(b[i])
    requires !IsAnyDigit(sep)
    ensures DigitsOf(a + [sep] + b) == a + b
  {
    DigitsOfAppend(a + [sep], b);
    DigitsOfAppend(a, [sep]);
    assert !IsAsciiDigit(sep) && [sep][1..] == [];
    assert DigitsOf([sep]) == [];
    DigitsOfAllDigits(a);
    DigitsOfAllDigits(b);
    assert a + [] == a;
  }

  lemma DigitsOfSeparated(sep: char)
    requires !IsAnyDigit(sep)
    ensures DigitsOf("12" + [sep] + "345") == "12345"
  {
    DigitsOfAcross("12", sep, "345");
    assert "12" + "345" == "12345";
  }

  lemma TranslateSeparated(sep: char)
    requires !IsAnyDigit(sep)
    ensures Translate("12" + [sep] + "345") == "12" + [sep] + "345"
  {
    var t := "12" + [sep] + "345";
    assert forall i :: 0 <= i < |t| ==> TranslateDigit(t[i]) == t[i];
  }

  /** Reading "12" + sep + "345" gives 12345 whatever the separator. */
  lemma ToIntPriceSeparated(sep: char)
    requires !IsAnyDigit(sep)
    ensures ToIntPrice("12" + [sep] + "345") == Some(12345)
  {
    var t := "12" + [sep] + "345";
    ToIntPriceDigits(t);
    TranslateSeparated(sep);
    DigitsOfSeparated(sep);
    DecimalValueExample();
  }

  /** "12,345" is the price 12345. */
  lemma ToIntPriceCommaExample()
    ensures ToIntPrice("12,345") == Some(12345)
  {
    ToIntPriceSeparated(',');
    assert "12" + [','] + "345" == "12,345";
  }

  /** "۱۲,۳۴۵", in Persian digits, is the price 12345 too. */
  lemma ToIntPricePersianExample()
    ensures ToIntPrice("\U{6F1}\U{6F2},\U{6F3}\U{6F4}\U{6F5}") == Some(12345)
  {
    TranslateExample();
    ToIntPriceScriptInsensitive("\U{6F1}\U{6F2},\U{6F3}\U{6F4}\U{6F5}");
    ToIntPriceCommaExample();
  }

  /** Text without a digit has no price. */
  lemma ToIntPriceNoDigits()
    ensures ToIntPrice("") == None && ToIntPrice("n/a") == None
  {
    ToIntPriceNone("n/a");
    assert DigitCount("n/a") == 0 by {
      assert "n/a"[1..] == "/a" && "/a"[1..] == "a" && "a"[1..] == "";
    }
  }

  // ---------------------------------------------------------------------
  // Name normalisation
  // ---------------------------------------------------------------------

  /** `str.isspace()`, which is also what `\s` matches in a str pattern. */
  predicate IsPyWhitespace(c: char)
  {
    || '\t' <= c <= '\r' || '\U{1C}' <= c <= ' ' || c == '\U{85}' || c == '\U{A0}'
    || c == '\U{1680}' || '\U{2000}' <= c <= '\U{200A}' || c == '\U{2028}' || c == '\U{2029}'
    || c == '\U{202F}' || c == '\U{205F}' || c == '\U{3000}'
  }

  predicate IsLowerAlnum(c: char) { 'a' <= c <= 'z' || '0' <= c <= '9' }

  /** `c.lower()`. The only characters whose lower case holds a letter or digit
      of `[a-z0-9]` are A-Z, the Kelvin sign and capital I with dot above; every
      other character is kept, which can change the final key only where the
      real mapping would produce one of those, and it never does. */
  function LowerChar(c: char): string
  {
    if 'A' <= c <= 'Z' then [(c as int + 32) as char]
    else if c == '\U{212A}' then "k"
    else if c == '\U{130}' then "i\U{307}"
    else [c]
  }

  /** `s.lower()`. */
  function Lower(s: string): string
  {
    if s == [] then [] else LowerChar(s[0]) + Lower(s[1..])
  }

  /** `s.replace(c, r)` for a one-character pattern. */
  function ReplaceChar(s: string, c: char, r: string): string
  {
    if s == [] then [] else (if s[0] == c then r else [s[0]]) + ReplaceChar(s[1..], c, r)
  }

  function StripStart(s: string): (r: string)
    ensures |r| <= |s|
    ensures r != [] ==> !IsPyWhitespace(r[0])
  {
    if s != [] && IsPyWhitespace(s[0]) then StripStart(s[1..]) else s
  }

  function StripEnd(s: string): (r: string)
    ensures |r| <= |s|
    ensures r != [] ==> !IsPyWhitespace(r[|r| - 1])
  {
    if s != [] && IsPyWhitespace(s[|s| - 1]) then StripEnd(s[..|s| - 1]) else s
  }

  lemma {:induction false} StripStartSuffix(s: string)
    ensures StripStart(s) == s[|s| - |StripStart(s)|..]
  {
    if s != [] && IsPyWhitespace(s[0]) {
      StripStartSuffix(s[1..]);
    }
  }

  lemma {:induction false} StripEndPrefix(s: string)
    ensures StripEnd(s) == s[..|StripEnd(s)|]
  {
    if s != [] && IsPyWhitespace(s[|s| - 1]) {
      StripEndPrefix(s[..|s| - 1]);
    }
  }

  /** `s.strip()`. */
  function Strip(s: string): string
  {
    StripEnd(StripStart(s))
  }

  /** The two character classes `norm_key` replaces runs of. */
  datatype CharClass = NotLowerAlnum | Whitespace

  predicate InClass(cls: CharClass, c: char)
  {
    match cls
    case NotLowerAlnum => !IsLowerAlnum(c)
    case Whitespace => IsPyWhitespace(c)
  }

  function SkipRun(s: string, cls: CharClass): (r: string)
    ensures |r| <= |s|
    ensures r != [] ==> !InClass(cls, r[0])
  {
    if s != [] && InClass(cls, s[0]) then SkipRun(s[1..], cls) else s
  }

  /** `re.sub(r"[...]+", " ", s)`: every maximal run of characters of the class
      `cls` becomes one space. */
  function ReplaceRuns(s: string, cls: CharClass): string
    decreases |s|
  {
    if s == [] then []
    else if !InClass(cls, s[0]) then [s[0]] + ReplaceRuns(s[1..], cls)
    else " " + ReplaceRuns(SkipRun(s[1..], cls), cls)
  }

  const Zwnj: char := '\U{200C}'

  /** ZWNJ becomes a space, `½` becomes "half " and `¼` "quarter ". */
  function ExpandGlyphs(s: string): string
  {
    ReplaceChar(ReplaceChar(ReplaceChar(s, Zwnj, " "), '\U{BD}', "half "), '\U{BC}', "quarter ")
  }

  /** `norm_key`. */
  function NormKey(s: string): string
  {
    Strip(ReplaceRuns(ReplaceRuns(ExpandGlyphs(Lower(Strip(s))), NotLowerAlnum), Whitespace))
  }

  /** What a normalised key looks like: letters `a-z`, digits and single
      spaces between them. */
  predicate IsNormal(t: string)
  {
    && (forall i :: 0 <= i < |t| ==> IsLowerAlnum(t[i]) || t[i] == ' ')
    && (forall i :: 0 <= i < |t| - 1 ==> t[i] == ' ' ==> t[i + 1] != ' ')
    && (t != [] ==> t[0] != ' ' && t[|t| - 1] != ' ')
  }

  /** Letters, digits and spaces, never two spaces in a row. */
  predicate SpacedAlnum(t: string)
  {
    && (forall i :: 0 <= i < |t| ==> IsLowerAlnum(t[i]) || t[i] == ' ')
    && (forall i :: 0 <= i < |t| - 1 ==> t[i] == ' ' ==> t[i + 1] != ' ')
  }

  /** After replacing the runs of a class that holds the space, a space is
      never followed by another space, and every other character is outside
      the class. */
  predicate RunsReplaced(r: string, cls: CharClass)
  {
    && (forall i :: 0 <= i < |r| ==> r[i] == ' ' || !InClass(cls, r[i]))
    && (forall i :: 0 <= i < |r| - 1 ==> r[i] == ' ' ==> !InClass(cls, r[i + 1]))
  }

  lemma {:induction false} ReplaceRunsShape(s: string, cls: CharClass)
    requires InClass(cls, ' ')
    ensures RunsReplaced(ReplaceRuns(s, cls), cls)
    decreases |s|
  {
    if s != [] {
      var rest := if !InClass(cls, s[0]) then s[1..] else SkipRun(s[1..], cls);
      var head := if !InClass(cls, s[0]) then s[0] else ' ';
      ReplaceRunsShape(rest, cls);
      var tail := ReplaceRuns(rest, cls);
      assert RunsReplaced(tail, cls);
      var r := ReplaceRuns(s, cls);
      assert r == [head] + tail;
      assert head == ' ' || !InClass(cls, head);
      if InClass(cls, s[0]) && tail != [] {
        assert rest != [] && !InClass(cls, rest[0]);
        assert tail[0] == rest[0];
      }
      forall i | 0 <= i < |r| ensures r[i] == ' ' || !InClass(cls, r[i]) {
        if i > 0 { assert r[i] == tail[i - 1]; } else { assert r[0] == head; }
      }
      forall i | 0 <= i < |r| - 1 ensures r[i] == ' ' ==> !InClass(cls, r[i + 1]) {
        if i > 0 { assert r[i] == tail[i - 1] && r[i + 1] == tail[i]; }
        else { assert r[0] == head && r[1] == tail[0]; }
      }
    }
  }

  /** Replacing the runs of a class leaves alone a text whose only characters
      in the class are single spaces. */
  lemma {:induction false} ReplaceRunsIdentity(t: string, cls: CharClass)
    requires InClass(cls, ' ')
    requires forall i :: 0 <= i < |t| ==> t[i] == ' ' || !InClass(cls, t[i])
    requires forall i :: 0 <= i < |t| - 1 ==> t[i] == ' ' ==> t[i + 1] != ' '
    ensures ReplaceRuns(t, cls) == t
    decreases |t|
  {
    if t != [] {
      if InClass(cls, t[0]) {
        assert t[0] == ' ';
        assert SkipRun(t[1..], cls) == t[1..] by {
          if |t| > 1 { assert t[1] != ' '; }
        }
      }
      ReplaceRunsIdentity(t[1..], cls);
    }
  }

  lemma SpacedAlnumSlice(t: string, lo: nat, hi: nat)
    requires SpacedAlnum(t) && lo <= hi <= |t|
    ensures SpacedAlnum(t[lo..hi])
  {
    var b := t[lo..hi];
    forall i | 0 <= i < |b| ensures IsLowerAlnum(b[i]) || b[i] == ' ' {
      assert b[i] == t[lo + i];
    }
    forall i | 0 <= i < |b| - 1 ensures b[i] == ' ' ==> b[i + 1] != ' ' {
      assert b[i] == t[lo + i] && b[i + 1] == t[lo + i + 1];
    }
  }

  /** `s.strip()` is a slice of `s` that starts and ends outside whitespace. */
  lemma StripSlice(t: string) returns (lo: nat)
    ensures lo + |Strip(t)| <= |t| && Strip(t) == t[lo..lo + |Strip(t)|]
    ensures Strip(t) != [] ==> !IsPyWhitespace(Strip(t)[0]) && !IsPyWhitespace(Strip(t)[|Strip(t)| - 1])
  {
    var a := StripStart(t);
    var b := StripEnd(a);
    lo := |t| - |a|;
    StripStartSuffix(t);
    StripEndPrefix(a);
    assert b == t[lo..lo + |b|];
    if b != [] {
      assert b[0] == a[0];
    }
  }

  lemma StripNormal(t: string)
    requires SpacedAlnum(t)
    ensures IsNormal(Strip(t))
  {
    var lo := StripSlice(t);
    SpacedAlnumSlice(t, lo, lo + |Strip(t)|);
    SpacedTrimmedNormal(Strip(t));
  }

  lemma SpacedTrimmedNormal(b: string)
    requires SpacedAlnum(b)
    requires b != [] ==> !IsPyWhitespace(b[0]) && !IsPyWhitespace(b[|b| - 1])
    ensures IsNormal(b)
  {
  }

  /** Every key `norm_key` produces is in normal form. */
  lemma NormKeyIsNormal(s: string)
    ensures IsNormal(NormKey(s))
  {
    var glyphs := ExpandGlyphs(Lower(Strip(s)));
    var c := ReplaceRuns(glyphs, NotLowerAlnum);
    ReplaceRunsShape(glyphs, NotLowerAlnum);
    forall i | 0 <= i < |c| ensures IsLowerAlnum(c[i]) || c[i] == ' ' {
      assert c[i] == ' ' || !InClass(NotLowerAlnum, c[i]);
    }
    forall i | 0 <= i < |c| - 1 ensures c[i] == ' ' ==> c[i + 1] != ' ' {
      assert c[i] == ' ' ==> !InClass(NotLowerAlnum, c[i + 1]);
    }
    assert SpacedAlnum(c);
    ReplaceRunsIdentity(c, Whitespace);
    assert NormKey(s) == Strip(c);
    StripNormal(c);
  }

  lemma StripIdentity(t: string)
    requires t == [] || (!IsPyWhitespace(t[0]) && !IsPyWhitespace(t[|t| - 1]))
    ensures Strip(t) == t
  {
    assert StripStart(t) == t;
    assert StripEnd(t) == t;
  }

  lemma {:induction false} LowerIdentity(t: string)
    requires forall i :: 0 <= i < |t| ==> IsLowerAlnum(t[i]) || IsPyWhitespace(t[i])
    ensures Lower(t) == t
  {
    if t != [] {
      LowerIdentity(t[1..]);
    }
  }

  lemma {:induction false} ReplaceCharIdentity(t: string, c: char, r: string)
    requires forall i :: 0 <= i < |t| ==> t[i] != c
    ensures ReplaceChar(t, c, r) == t
  {
    if t != [] {
      ReplaceCharIdentity(t[1..], c, r);
    }
  }

  lemma ExpandGlyphsIdentity(t: string)
    requires forall i :: 0 <= i < |t| ==> IsLowerAlnum(t[i]) || IsPyWhitespace(t[i])
    ensures ExpandGlyphs(t) == t
  {
    ReplaceCharIdentity(t, Zwnj, " ");
    ReplaceCharIdentity(t, '\U{BD}', "half ");
    ReplaceCharIdentity(t, '\U{BC}', "quarter ");
  }

  /** A key already in normal form is its own normalisation. */
  lemma NormKeyFixesNormal(t: string)
    requires IsNormal(t)
    ensures NormKey(t) == t
  {
    StripIdentity(t);
    LowerIdentity(t);
    ExpandGlyphsIdentity(t);
    ReplaceRunsIdentity(t, NotLowerAlnum);
    ReplaceRunsIdentity(t, Whitespace);
  }

  /** `norm_key` is idempotent. */
  lemma NormKeyIdempotent(s: string)
    ensures NormKey(NormKey(s)) == NormKey(s)
  {
    NormKeyIsNormal(s);
    NormKeyFixesNormal(NormKey(s));
  }

  /** Lower-casing maps each character to one character, except capital I
      with dot above. */
  lemma {:induction false} LowerPointwise(s: string)
    requires forall i :: 0 <= i < |s| ==> s[i] != '\U{130}'
    ensures |Lower(s)| == |s|
    ensures forall i :: 0 <= i < |s| ==> |LowerChar(s[i])| == 1 && Lower(s)[i] == LowerChar(s[i])[0]
  {
    if s != [] {
      LowerPointwise(s[1..]);
      assert |LowerChar(s[0])| == 1;
      forall i | 0 <= i < |s| ensures |LowerChar(s[i])| == 1 && Lower(s)[i] == LowerChar(s[i])[0] {
        if i > 0 {
          assert s[1..][i - 1] == s[i];
          assert Lower(s)[i] == Lower(s[1..])[i - 1];
        }
      }
    }
  }

  /** A stripped text whose lower-case form is normal has that form as its
      key. */
  lemma NormKeyOfCased(s: string, t: string)
    requires Strip(s) == s && Lower(s) == t && IsNormal(t)
    ensures NormKey(s) == t
  {
    NormKeyFixesNormal(t);
    StripIdentity(t);
    LowerIdentity(t);
  }

  /** A text that strips to letters, digits and spaces, whose runs of spaces
      collapse to the normal text `t`, has the key `t`. */
  lemma NormKeyOfSpaced(s: string, w: string, t: string)
    requires Strip(s) == w
    requires forall i :: 0 <= i < |w| ==> IsLowerAlnum(w[i]) || IsPyWhitespace(w[i])
    requires ReplaceRuns(w, NotLowerAlnum) == t && IsNormal(t)
    ensures NormKey(s) == t
  {
    LowerIdentity(w);
    ExpandGlyphsIdentity(w);
    ReplaceRunsIdentity(t, Whitespace);
    StripIdentity(t);
  }

  /** Skipping a run of class characters reaches the first character outside
      the class. */
  lemma {:induction false} SkipRunPrefix(g: string, b: string, cls: CharClass)
    requires forall i :: 0 <= i < |g| ==> InClass(cls, g[i])
    requires b == [] || !InClass(cls, b[0])
    ensures SkipRun(g + b, cls) == b
  {
    if g != [] {
      assert (g + b)[1..] == g[1..] + b;
      SkipRunPrefix(g[1..], b, cls);
    } else {
      assert g + b == b;
    }
  }

  /** A gap of class characters between two words without any becomes one
      space. */
  lemma {:induction false} CollapseGap(a: string, g: string, b: string, cls: CharClass)
    requires InClass(cls, ' ')
    requires forall i :: 0 <= i < |a| ==> !InClass(cls, a[i])
    requires g != [] && forall i :: 0 <= i < |g| ==> InClass(cls, g[i])
    requires forall i :: 0 <= i < |b| ==> !InClass(cls, b[i])
    ensures ReplaceRuns(a + g + b, cls) == a + " " + b
  {
    if a == [] {
      assert a + g + b == g + b && a + " " + b == " " + b;
      assert (g + b)[1..] == g[1..] + b;
      SkipRunPrefix(g[1..], b, cls);
      ReplaceRunsIdentity(b, cls);
    } else {
      assert (a + g + b)[1..] == a[1..] + g + b;
      CollapseGap(a[1..], g, b, cls);
      assert a + " " + b == [a[0]] + (a[1..] + " " + b);
    }
  }

  lemma NormalExample()
    ensures IsNormal("us dollar")
  {
    var t := "us dollar";
    assert forall i :: 0 <= i < |t| ==> IsLowerAlnum(t[i]) || t[i] == ' ';
    assert forall i :: 0 <= i < |t| - 1 ==> t[i] == ' ' ==> t[i + 1] != ' ';
  }

  /** A text whose characters each lower-case to the matching character of
      `t` lower-cases to `t`. */
  lemma LowerEach(s: string, t: string)
    requires |s| == |t|
    requires forall i :: 0 <= i < |s| ==> LowerChar(s[i]) == [t[i]]
    ensures Lower(s) == t
  {
    LowerPointwise(s);
  }

  lemma LowerExample()
    ensures Lower("US Dollar") == "us dollar"
  {
    LowerEach("US Dollar", "us dollar");
  }

  /** Case does not matter: "US Dollar" normalises to "us dollar". */
  lemma NormKeyCaseExample()
    ensures NormKey("US Dollar") == "us dollar"
  {
    StripIdentity("US Dollar");
    LowerExample();
    NormalExample();
    NormKeyOfCased("US Dollar", "us dollar");
  }

  lemma {:induction false} StripStartAfter(p: string, w: string)
    requires forall i :: 0 <= i < |p| ==> IsPyWhitespace(p[i])
    requires w != [] && !IsPyWhitespace(w[0])
    ensures StripStart(p + w) == w
  {
    if p == [] {
      assert p + w == w;
    } else {
      assert (p + w)[1..] == p[1..] + w;
      StripStartAfter(p[1..], w);
    }
  }

  lemma {:induction false} StripEndBefore(w: string, q: string)
    requires forall i :: 0 <= i < |q| ==> IsPyWhitespace(q[i])
    requires w != [] && !IsPyWhitespace(w[|w| - 1])
    ensures StripEnd(w + q) == w
  {
    if q == [] {
      assert w + q == w;
    } else {
      var n := |q| - 1;
      assert (w + q)[..|w + q| - 1] == w + q[..n];
      StripEndBefore(w, q[..n]);
    }
  }

  /** Leading and trailing whitespace around a word is stripped off. */
  lemma StripAround(p: string, w: string, q: string)
    requires forall i :: 0 <= i < |p| ==> IsPyWhitespace(p[i])
    requires forall i :: 0 <= i < |q| ==> IsPyWhitespace(q[i])
    requires w != [] && !IsPyWhitespace(w[0]) && !IsPyWhitespace(w[|w| - 1])
    ensures Strip(p + w + q) == w
  {
    assert (w + q)[0] == w[0];
    StripStartAfter(p, w + q);
    assert p + w + q == p + (w + q);
    StripEndBefore(w, q);
  }

  /** A word of letters and digits. */
  predicate Word(s: string)
  {
    s != [] && forall i :: 0 <= i < |s| ==> IsLowerAlnum(s[i])
  }

  /** A run of whitespace. */
  predicate Blank(s: string)
  {
    forall i :: 0 <= i < |s| ==> IsPyWhitespace(s[i])
  }

  lemma JoinedChars(a: string, g: string, b: string)
    requires Word(a) && Blank(g) && Word(b)
    ensures forall i :: 0 <= i < |a + g + b| ==> IsLowerAlnum((a + g + b)[i]) || IsPyWhitespace((a + g + b)[i])
  {
    var w := a + g + b;
    forall i | 0 <= i < |w| ensures IsLowerAlnum(w[i]) || IsPyWhitespace(w[i]) {
      if i < |a| {
        assert w[i] == a[i];
      } else if i < |a| + |g| {
        assert w[i] == g[i - |a|];
      } else {
        assert w[i] == b[i - |a| - |g|];
      }
    }
  }

  lemma JoinedNormal(a: string, b: string)
    requires Word(a) && Word(b)
    ensures IsNormal(a + " " + b)
  {
    var t := a + " " + b;
    forall i | 0 <= i < |t| ensures IsLowerAlnum(t[i]) || t[i] == ' ' {
      if i < |a| {
        assert t[i] == a[i];
      } else if i > |a| {
        assert t[i] == b[i - |a| - 1];
      }
    }
    forall i | 0 <= i < |t| - 1 ensures t[i] == ' ' ==> t[i + 1] != ' ' {
      if i < |a| {
        assert t[i] == a[i];
      } else {
        assert t[i + 1] == b[i - |a|];
      }
    }
    assert t[0] == a[0] && t[|t| - 1] == b[|b| - 1];
  }

  /** Surrounding whitespace is dropped and the whitespace between two words
      becomes one space: `norm_key("  us   dollar ")` is `"us dollar"`. */
  lemma NormKeyJoinsWords(p: string, a: string, g: string, b: string, q: string)
    requires Blank(p) && Word(a) && Blank(g) && g != [] && Word(b) && Blank(q)
    ensures NormKey(p + a + g + b + q) == a + " " + b
  {
    var w := a + g + b;
    var s := p + w + q;
    assert p + a + g + b + q == s;
    assert w[0] == a[0] && w[|w| - 1] == b[|b| - 1];
    StripAround(p, w, q);
    JoinedChars(a, g, b);
    CollapseGap(a, g, b, NotLowerAlnum);
    JoinedNormal(a, b);
    NormKeyOfSpaced(s, w, a + " " + b);
  }
}
