/**
 A number printer that meets what the theorems assume of the C++ library, so that none of them speaks
 about an empty class: whole units in decimal, which costs less than one unit.
 */
module Decimals {
  import opened Results
  import opened Trees
  import opened Fields
  import opened Metrics
  import opened Statistics
  import opened Comparator
  import opened Gate

  function Digits(n: nat): (w: string)
    ensures w != "" && forall k :: 0 <= k < |w| ==> '0' <= w[k] <= '9'
  {
    (if n < 10 then "" else Digits(n / 10)) + ['0' + (n % 10) as char]
  }

  function Value(w: string): int {
    if w == "" then 0 else Value(w[..|w| - 1]) * 10 + (w[|w| - 1] as int - '0' as int)
  }

  lemma {:induction false} DigitsValue(n: nat)
    ensures Value(Digits(n)) == n
  {
    var last := ['0' + (n % 10) as char];
    if n < 10 {
      assert Digits(n) == last && last[..0] == "";
    } else {
      DigitsValue(n / 10);
      assert Digits(n)[..|Digits(n)| - 1] == Digits(n / 10);
    }
  }

  function Spelled(z: int): string {
    if z < 0 then "-" + Digits(-z) else Digits(z)
  }

  function Number(w: string): Option<real> {
    Some((if w != "" && w[0] == '-' then -Value(w[1..]) else Value(w)) as real)
  }

  const WHOLE := Numerics((x: real) => Spelled(x.Floor), (k: Size) => Spelled(k), Number)

  lemma SpelledNumeral(z: int)
    ensures IsNumeral(Spelled(z))
  {
    hide Digits;
    var w := Spelled(z);
    forall k | 0 <= k < |w|
      ensures IsTokenChar(w[k])
    {
    }
  }

  lemma SpelledNumber(z: int)
    ensures Number(Spelled(z)) == Some(z as real)
  {
    hide Digits, Value;
    if z < 0 {
      DigitsValue(-z);
      assert Spelled(z)[1..] == Digits(-z);
    } else {
      DigitsValue(z);
    }
  }

  /** The assumptions on the library can be met. */
  lemma WholePrecise()
    ensures ReadsBack(WHOLE) && forall x :: Precise(WHOLE, x, 1.0)
  {
    hide Number, Spelled, IsNumeral;
    forall z: int
      ensures IsNumeral(Spelled(z)) && Number(Spelled(z)) == Some(z as real)
    {
      SpelledNumeral(z);
      SpelledNumber(z);
    }
    TwoReads();
  }

  /** The comparator's default settings are met: with this printer a run passes against itself. */
  lemma DefaultsMet(r: Run, m: Metric, x: Samples, root: real -> real)
    requires r.stats.runtime.deviceName != "" && MeasuredFrom(r, Scope.EndToEnd, x, root)
    requires Summary(x, root).min >= 41.0
    ensures ReadsBack(WHOLE)
    ensures var doc := DocumentOf(WHOLE, r);
      Compare(WHOLE, doc, doc, ScopeArgument(Scope.EndToEnd), Name(MetricField(m)), DEFAULTS) == 0
  {
    hide ReadsBack, DocumentOf, Compare, Name, MetricField, ScopeArgument, MeasuredFrom, Summary, MetricOf, Precise;
    WholePrecise();
    DefaultsPass(WHOLE, 1.0, r, r, Scope.EndToEnd, m, x, x, x, root);
  }

  lemma TwoReads()
    ensures Number("2") == Some(2.0)
  {
    assert Digits(2) == "2";
    SpelledNumber(2);
  }
}
