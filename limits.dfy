/** The page-size normalisers: three versions of `getLimitFromSearchParams`
    (lib/http/params.ts, lib/utils/http.ts, backend/utils/http.ts) and the
    inline clamp of the consensus-bets service. Each turns an optional
    `limit` query value into a page size and never fails. The `raw` argument
    is `searchParams.get("limit")`: None when the key is absent. */
module Limits {
  import opened Wrappers
  import opened Js

  /** `raw ? Number(raw) : NaN`: a missing or empty value is NaN. */
  function NumberParam(raw: Option<string>): (n: JsNum)
    ensures raw.None? || raw == Some("") ==> n == NaN
  {
    if raw.Some? && raw.value != "" then ParseNumber(raw.value) else NaN
  }

  /** A usable positive page size was supplied. */
  predicate PositiveFinite(n: JsNum) {
    n.Finite? && n.v > 0.0
  }

  // ---------------------------------------------------------------------------
  // lib/http/params.ts

  /** `getLimitFromSearchParams(sp, fallback, max)` of lib/http/params.ts.
      Anything but a positive finite number gives `fallback`, which is never
      clamped; a positive finite number is capped at `max`. */
  function ParamsLimit(raw: Option<string>, fallback: int, max: int): (r: real)
    ensures !PositiveFinite(NumberParam(raw)) ==> r == fallback as real
    ensures PositiveFinite(NumberParam(raw)) && NumberParam(raw).v <= max as real ==> r == NumberParam(raw).v
    ensures PositiveFinite(NumberParam(raw)) && NumberParam(raw).v > max as real ==> r == max as real
    ensures r == fallback as real || r <= max as real
  {
    var n := NumberParam(raw);
    if !n.Finite? || n.v <= 0.0 then fallback as real else MinReal(n.v, max as real)
  }

  /** Feeding the result back in, written as a decimal, changes nothing when
      the fallback is itself a valid page size. */
  lemma ParamsLimitIdempotent(raw: Option<string>, fallback: int, max: int, k: nat)
    requires 0 < fallback <= max
    requires ParamsLimit(raw, fallback, max) == k as real
    ensures ParamsLimit(Some(NatText(k)), fallback, max) == k as real
  {
    ParseNumberNatText(k);
  }

  // ---------------------------------------------------------------------------
  // lib/utils/http.ts

  /** `clamp(n, min, max) = Math.max(min, Math.min(max, n))`. When the bounds
      are crossed the lower one wins. */
  function Clamp(n: int, min: int, max: int): (r: int)
    ensures min <= max ==> min <= r <= max
    ensures min <= n <= max ==> r == n
    ensures n < min ==> r == min
    ensures min <= max < n ==> r == max
    ensures max < min ==> r == min
  {
    MaxInt(min, MinInt(max, n))
  }

  lemma ClampIdempotent(n: int, min: int, max: int)
    ensures Clamp(Clamp(n, min, max), min, max) == Clamp(n, min, max)
  {
  }

  /** `getLimitFromSearchParams(sp, min, max)` of lib/utils/http.ts: a finite
      number is floored and clamped; anything else gives `min`. */
  function UtilsLimit(raw: Option<string>, min: int, max: int): (r: int)
    ensures !NumberParam(raw).Finite? ==> r == min
    ensures NumberParam(raw).Finite? ==> r == Clamp(NumberParam(raw).v.Floor, min, max)
    ensures min <= max ==> min <= r <= max
  {
    var n := NumberParam(raw);
    var parsed := if n.Finite? then n.v.Floor else min;
    Clamp(parsed, min, max)
  }

  // ---------------------------------------------------------------------------
  // backend/utils/http.ts

  /** `Number(searchParams.get("limit") ?? def)`: an absent value is `def`
      itself, an empty one is `Number("") == 0`. */
  function BackendNumber(raw: Option<string>, def: int): (n: JsNum)
    ensures raw.None? ==> n == Finite(def as real)
    ensures raw == Some("") ==> n == Finite(0.0)
  {
    match raw
    case None => Finite(def as real)
    case Some(s) => ParseNumber(s)
  }

  /** `getLimitFromSearchParams(sp, def, max)` of backend/utils/http.ts: NaN,
      zero and negatives give `def`; everything else goes through
      `Math.min(v, max)`, so `Infinity` gives `max` and fractions survive. */
  function BackendLimit(raw: Option<string>, def: int, max: int): (r: real)
    ensures raw.None? ==> r == (if def > 0 then MinReal(def as real, max as real) else def as real)
    ensures raw == Some("") ==> r == def as real
    ensures BackendNumber(raw, def) == NaN || BackendNumber(raw, def) == NegInf ==> r == def as real
    ensures BackendNumber(raw, def) == PosInf ==> r == max as real
    ensures PositiveFinite(BackendNumber(raw, def)) ==> r == MinReal(BackendNumber(raw, def).v, max as real)
    ensures r == def as real || r <= max as real
  {
    var v := BackendNumber(raw, def);
    match v
    case NaN => def as real
    case NegInf => def as real
    case PosInf => max as real
    case Finite(x) => if x <= 0.0 then def as real else MinReal(x, max as real)
  }

  // ---------------------------------------------------------------------------
  // lib/services/consensusBets.ts

  /** `Math.max(1, Math.min(opts.limit ?? 50, 200))`. NaN is the one input
      that escapes the bounds. */
  function ConsensusLimit(limit: Option<JsNum>): (r: JsNum)
    ensures limit.None? ==> r == Finite(50.0)
    ensures r == NaN <==> limit == Some(NaN)
    ensures r != NaN ==> r.Finite? && 1.0 <= r.v <= 200.0
    ensures limit.Some? && limit.value.Finite? && 1.0 <= limit.value.v <= 200.0 ==> r == limit.value
  {
    MaxNum(Finite(1.0), MinNum(limit.GetOr(Finite(50.0)), Finite(200.0)))
  }

  // ---------------------------------------------------------------------------
  // How the variants compare

  /** On a positive integer inside every range all three readers agree. */
  lemma {:induction false} LimitsAgreeOnInRangeIntegers(k: nat, fallback: int, min: int, def: int, max: int)
    requires 0 < k <= max && min <= k
    ensures ParamsLimit(Some(NatText(k)), fallback, max) == k as real
    ensures UtilsLimit(Some(NatText(k)), min, max) == k
    ensures BackendLimit(Some(NatText(k)), def, max) == k as real
  {
    ParseNumberNatText(k);
  }

  /** With no `limit` the three readers fall back three different ways. */
  lemma LimitsDisagreeWhenAbsent(fallback: int, min: int, def: int, max: int)
    requires def > 0
    ensures ParamsLimit(None, fallback, max) == fallback as real
    ensures UtilsLimit(None, min, max) == min
    ensures BackendLimit(None, def, max) == MinReal(def as real, max as real)
  {
  }

  /** `limit=7.9`: lib/utils/http.ts floors, the other two keep the fraction. */
  lemma LimitsDisagreeOnFraction()
    ensures ParamsLimit(Some("7.9"), 50, 200) == 7.9
    ensures UtilsLimit(Some("7.9"), 1, 200) == 7
    ensures BackendLimit(Some("7.9"), 20, 200) == 7.9
  {
    SevenPointNine();
    assert (7.9).Floor == 7;
  }

  lemma SevenPointNine()
    ensures ParseNumber("7.9") == Finite(7.9)
  {
    SevenPointNineText();
    ParseNumberDecimalText("7", "9");
    SevenPointNineValue();
  }

  lemma SevenPointNineText()
    ensures "7.9" == "7" + "." + "9"
    ensures forall i :: 0 <= i < |"7"| ==> IsDigit("7"[i])
    ensures forall i :: 0 <= i < |"9"| ==> IsDigit("9"[i])
  {
  }

  lemma SevenPointNineValue()
    ensures DecimalValue("7", "9") == 7.9
  {
    assert RadixValue("7", 10) == 7 by { assert "7"[..0] == ""; }
    assert RadixValue("9", 10) == 9 by { assert "9"[..0] == ""; }
    assert Pow10(1) == 10;
  }

  /** A fallback above `max` is returned as it is by lib/http/params.ts, but
      capped by backend/utils/http.ts. */
  lemma FallbackAboveMax()
    ensures ParamsLimit(None, 300, 200) == 300.0
    ensures BackendLimit(None, 300, 200) == 200.0
    ensures UtilsLimit(None, 300, 200) == 300
  {
  }

  /** `limit=Infinity` is the fallback for lib/http/params.ts and the cap for
      backend/utils/http.ts. */
  lemma LimitsDisagreeOnInfinity()
    ensures ParamsLimit(Some("Infinity"), 50, 200) == 50.0
    ensures BackendLimit(Some("Infinity"), 20, 200) == 200.0
  {
    assert TrimStart("Infinity") == "Infinity";
    assert TrimEnd("Infinity") == "Infinity";
  }

  /** The consensus-bets route passes `ParamsLimit(sp, 50, 200)` to the
      service, so the service's page size is that value raised to at least 1,
      and never NaN. */
  lemma ConsensusRouteLimit(raw: Option<string>)
    ensures ConsensusLimit(Some(Finite(ParamsLimit(raw, 50, 200)))) == Finite(if ParamsLimit(raw, 50, 200) < 1.0 then 1.0 else ParamsLimit(raw, 50, 200))
  {
  }
}
