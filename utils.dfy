/** The display helpers: amounts in billions scaled to a readable unit, percentages, and
    the colour of a trend. Numbers are kept as the real printed (to two or one decimals
    in the source) with the suffix after it; NaN is `None`. */
module Utils {
  import opened Common

  /** A formatted number: the value printed and the suffix that follows it. */
  datatype Shown = Shown(printed: Option<real>, suffix: string)

  /** The factor the printed number carries for each suffix. */
  function Scale(suffix: string): real {
    if suffix == "M" then 1000.0 else if suffix == "K" then 1000000.0 else 1.0
  }

  /** format_currency: an amount of at least one (billion) unscaled, an amount from a
      thousandth up to one in millions ("M"), anything smaller, NaN included, in
      thousands ("K"). The currency is accepted and not shown. */
  function FormatCurrency(value: Option<real>, currency: string): (s: Shown)
    ensures s.suffix == "" <==> value.Some? && Abs(value.value) >= 1.0
    ensures s.suffix == "M" <==> value.Some? && 0.001 <= Abs(value.value) < 1.0
    ensures s.suffix == "K" <==> value.None? || Abs(value.value) < 0.001
    ensures s.printed.Some? <==> value.Some?
  {
    if value.Some? && Abs(value.value) >= 1.0 then Shown(value, "")
    else if value.Some? && Abs(value.value) >= 0.001 then Shown(Some(value.value * 1000.0), "M")
    else Shown(if value.Some? then Some(value.value * 1000000.0) else None, "K")
  }

  /** Dividing the printed number by its suffix's factor gives the amount back; a scaled
      number is printed with a magnitude below 1000, and "M" ones with at least 1. */
  lemma FormatCurrencyRestores(v: real, currency: string)
    ensures var s := FormatCurrency(Some(v), currency);
      && s.printed.value / Scale(s.suffix) == v
      && (s.suffix == "M" ==> 1.0 <= Abs(s.printed.value) < 1000.0)
      && (s.suffix == "K" ==> Abs(s.printed.value) < 1000.0)
  {
    var s := FormatCurrency(Some(v), currency);
    if s.suffix == "M" {
      assert s.printed.value == v * 1000.0;
      if v < 0.0 {
        assert Abs(s.printed.value) == -v * 1000.0;
      }
    } else if s.suffix == "K" {
      assert s.printed.value == v * 1000000.0;
      if v < 0.0 {
        assert Abs(s.printed.value) == -v * 1000000.0;
      }
    }
  }

  /** The currency argument never changes the result. */
  lemma FormatCurrencyIgnoresCurrency(value: Option<real>, c1: string, c2: string)
    ensures FormatCurrency(value, c1) == FormatCurrency(value, c2)
  {
  }

  /** format_percentage: the value followed by "%". */
  function FormatPercentage(value: Option<real>): (s: Shown)
    ensures s.suffix == "%" && s.printed == value
  {
    Shown(value, "%")
  }

  const Green: string := "#10B981"
  const Red: string := "#EF4444"
  const Gray: string := "#6B7280"

  /** get_color_for_trend: green above zero, red below, gray at zero and for NaN. */
  function ColorForTrend(value: Option<real>): (c: string)
    ensures c == Green <==> value.Some? && value.value > 0.0
    ensures c == Red <==> value.Some? && value.value < 0.0
    ensures c == Gray <==> value.None? || value.value == 0.0
  {
    if value.Some? && value.value > 0.0 then Green
    else if value.Some? && value.value < 0.0 then Red
    else Gray
  }
}
