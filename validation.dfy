/** `validate_payload`: the checks a rate set must pass before the payload is
    written, and the reason reported for the first one it fails. */
module Validation {
  import opened Values

  /** `_ALLOWED_KINDS`. */
  const AllowedKinds: set<string> := {"currency", "crypto", "gold"}

  /** The fewest records a publishable rate set holds. */
  const MinRates: nat := 80

  /** Why a rate set is refused; the message text is not modelled. A missing
      price is reported as `Null`, as Python prints `None`. */
  datatype Reason =
    | RatesMissing
    | TooSmall(count: nat)
    | NotAnObject(key: string)
    | InvalidKind(key: string, kind: Value)
    | InvalidUnit(key: string, unit: Value)
    | InvalidPrice(key: string, price: Value)

  datatype Verdict = Ok | Failed(reason: Reason)

  /** `str(r.get("kind") or "")` is empty or an allowed kind. A truthy value
      that is not a string never prints as an allowed kind. */
  predicate KindValid(fields: map<string, Value>)
  {
    "kind" !in fields || !Truthy(fields["kind"])
    || (fields["kind"].Str? && fields["kind"].s in AllowedKinds)
  }

  /** `r.get("unit", 1)` is an `int` of at least 1; `True` is such an int. */
  predicate UnitValid(fields: map<string, Value>)
  {
    "unit" !in fields || (fields["unit"].Int? && fields["unit"].i >= 1) || fields["unit"] == Bool(true)
  }

  /** `r.get("price")` is present and a number. */
  predicate PriceValid(fields: map<string, Value>)
  {
    "price" in fields && IsNumber(fields["price"])
  }

  /** The checks one record passes. */
  predicate RecordValid(e: Entry)
  {
    e.Object? && KindValid(e.fields) && UnitValid(e.fields) && PriceValid(e.fields)
  }

  /** The first check the record `k` fails, in the order they are made. */
  function RecordProblem(k: string, e: Entry): (p: Option<Reason>)
    ensures p.None? <==> RecordValid(e)
  {
    if e.NonObject? then Some(NotAnObject(k))
    else if !KindValid(e.fields) then Some(InvalidKind(k, e.fields["kind"]))
    else if !UnitValid(e.fields) then Some(InvalidUnit(k, e.fields["unit"]))
    else if !PriceValid(e.fields) then Some(InvalidPrice(k, if "price" in e.fields then e.fields["price"] else Null))
    else None
  }

  /** The problem of the first record, in rate order, that has one. */
  function FirstProblem(order: seq<string>, rates: map<string, Entry>): Option<Reason>
    requires Covers(order, rates)
  {
    if order == [] then None
    else
      match RecordProblem(order[0], rates[order[0]])
      case Some(p) => Some(p)
      case None => FirstProblem(order[1..], rates)
  }

  /** The verdict on a rate set: empty, too small, or the first record
      problem. */
  function Validate(order: seq<string>, rates: map<string, Entry>): Verdict
    requires Covers(order, rates)
  {
    if |rates| == 0 then Failed(RatesMissing)
    else if |rates| < MinRates then Failed(TooSmall(|rates|))
    else match FirstProblem(order, rates)
      case Some(p) => Failed(p)
      case None => Ok
  }

  /** `validate_payload`. */
  method ValidatePayload(order: seq<string>, rates: map<string, Entry>) returns (v: Verdict)
    requires Covers(order, rates)
    ensures v == Validate(order, rates)
  {
    if |rates| == 0 {
      return Failed(RatesMissing);
    }
    if |rates| < MinRates {
      return Failed(TooSmall(|rates|));
    }
    for i := 0 to |order|
      invariant FirstProblem(order, rates) == FirstProblem(order[i..], rates)
    {
      assert order[i..][1..] == order[i + 1..];
      var p := RecordProblem(order[i], rates[order[i]]);
      if p.Some? {
        return Failed(p.value);
      }
    }
    assert order[|order|..] == [];
    return Ok;
  }

  // ---------------------------------------------------------------------
  // Properties
  // ---------------------------------------------------------------------

  lemma {:induction false} FirstProblemNone(order: seq<string>, rates: map<string, Entry>)
    requires Covers(order, rates)
    ensures FirstProblem(order, rates).None? <==> forall i :: 0 <= i < |order| ==> RecordValid(rates[order[i]])
  {
    if order != [] {
      FirstProblemNone(order[1..], rates);
      if RecordValid(rates[order[0]]) {
        forall i | 0 <= i < |order| && (forall j :: 0 <= j < |order[1..]| ==> RecordValid(rates[order[1..][j]]))
          ensures RecordValid(rates[order[i]])
        {
          if i > 0 {
            assert order[i] == order[1..][i - 1];
          }
        }
      }
    }
  }

  /** A rate set passes exactly when it has at least `MinRates` records and
      every record is an object with an allowed or empty kind, a unit that is
      an integer of at least 1 (or absent), and a numeric price. */
  lemma ValidateOk(order: seq<string>, rates: map<string, Entry>)
    requires OrderMatches(order, rates)
    ensures Validate(order, rates) == Ok <==>
      |rates| >= MinRates && forall k :: k in rates ==> RecordValid(rates[k])
  {
    OrderCovers(order, rates);
    FirstProblemNone(order, rates);
    if forall i :: 0 <= i < |order| ==> RecordValid(rates[order[i]]) {
      forall k | k in rates ensures RecordValid(rates[k]) {
        assert k in order;
        var i :| 0 <= i < |order| && order[i] == k;
      }
    }
  }

  /** The size checks: an empty rate set is missing, one below `MinRates` is
      too small, and from `MinRates` on only the records decide. */
  lemma ValidateSize(order: seq<string>, rates: map<string, Entry>)
    requires Covers(order, rates)
    ensures |rates| == 0 ==> Validate(order, rates) == Failed(RatesMissing)
    ensures 0 < |rates| < MinRates ==> Validate(order, rates) == Failed(TooSmall(|rates|))
    ensures |rates| >= MinRates ==>
      (Validate(order, rates) == Ok <==> FirstProblem(order, rates).None?)
  {
  }

  /** The boundary: 79 records fail the size check, 80 pass it. */
  lemma SizeBoundary(order: seq<string>, rates: map<string, Entry>)
    requires Covers(order, rates)
    ensures |rates| == 79 ==> Validate(order, rates) == Failed(TooSmall(79))
    ensures |rates| == 80 && FirstProblem(order, rates).None? ==> Validate(order, rates) == Ok
  {
  }

  /** A record problem reported is that of the first failing record: every
      record before it is valid. */
  lemma {:induction false} FirstProblemIsFirst(order: seq<string>, rates: map<string, Entry>)
    requires Covers(order, rates)
    requires FirstProblem(order, rates).Some?
    ensures exists i ::
      && 0 <= i < |order| && RecordProblem(order[i], rates[order[i]]) == FirstProblem(order, rates)
      && forall j :: 0 <= j < i ==> RecordValid(rates[order[j]])
  {
    if RecordProblem(order[0], rates[order[0]]).None? {
      FirstProblemIsFirst(order[1..], rates);
      var i :| 0 <= i < |order[1..]| && RecordProblem(order[1..][i], rates[order[1..][i]]) == FirstProblem(order[1..], rates)
        && forall j :: 0 <= j < i ==> RecordValid(rates[order[1..][j]]);
      assert order[i + 1] == order[1..][i];
      forall j | 0 <= j < i + 1 ensures RecordValid(rates[order[j]]) {
        if j > 0 {
          assert order[j] == order[1..][j - 1];
        }
      }
    }
  }

  /** Each check on its own: the reason names the record and carries the
      offending value. */
  lemma RecordProblemCases(k: string, e: Entry)
    ensures e.NonObject? ==> RecordProblem(k, e) == Some(NotAnObject(k))
    ensures e.Object? && "kind" in e.fields && e.fields["kind"] == Str("fiat")
      ==> RecordProblem(k, e) == Some(InvalidKind(k, Str("fiat")))
    ensures e.Object? && KindValid(e.fields) && "unit" in e.fields && e.fields["unit"] == Int(0)
      ==> RecordProblem(k, e) == Some(InvalidUnit(k, Int(0)))
    ensures e.Object? && KindValid(e.fields) && UnitValid(e.fields) && "price" !in e.fields
      ==> RecordProblem(k, e) == Some(InvalidPrice(k, Null))
  {
    assert "fiat" !in AllowedKinds;
  }
}
