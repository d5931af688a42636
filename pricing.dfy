/**
  The tariff of routes/alugueis.js (`calcularPreco`) and the elapsed-time computation used when
  a rental is finished.
 */
module Pricing {
  import opened Wrappers

  /** Milliseconds in a minute (`1000 * 60`). */
  const MinuteMs: int := 60000

  /** `calcularPreco`: only 30, 60 and 120 minutes have a price; anything else is `null`. */
  function Price(minutes: int): (p: Option<int>)
    ensures p.Some? <==> minutes in {30, 60, 120}
    ensures minutes == 30 ==> p == Some(15)
    ensures minutes == 60 ==> p == Some(25)
    ensures minutes == 120 ==> p == Some(35)
  {
    if minutes == 30 then Some(15)
    else if minutes == 60 then Some(25)
    else if minutes == 120 then Some(35)
    else None
  }

  /** `Math.ceil((dataFim - dataInicio) / (1000 * 60))`: the elapsed time rounded up to whole
      minutes. The division in the source is a floating-point one; for whole milliseconds its
      ceiling is the integer ceiling computed here. */
  function ElapsedMinutes(startMs: int, endMs: int): (m: int)
    ensures (m - 1) * MinuteMs < endMs - startMs <= m * MinuteMs
  {
    -((startMs - endMs) / MinuteMs)
  }

  /** Finishing exactly `minutes` whole minutes after the start reports exactly `minutes`,
      so the final price is the tariff of the requested duration. */
  lemma ExactReturnKeepsPrice(startMs: int, minutes: int)
    ensures ElapsedMinutes(startMs, startMs + minutes * MinuteMs) == minutes
    ensures Price(ElapsedMinutes(startMs, startMs + minutes * MinuteMs)) == Price(minutes)
  {
    var m := ElapsedMinutes(startMs, startMs + minutes * MinuteMs);
    assert (m - 1) * MinuteMs < minutes * MinuteMs <= m * MinuteMs;
  }

  /** The tariff is keyed on exact minute values: a 30-minute rental returned one millisecond
      late is charged `null`. */
  lemma LateReturnHasNoPrice(startMs: int)
    ensures ElapsedMinutes(startMs, startMs + 30 * MinuteMs + 1) == 31
    ensures Price(ElapsedMinutes(startMs, startMs + 30 * MinuteMs + 1)).None?
  {
    var m := ElapsedMinutes(startMs, startMs + 30 * MinuteMs + 1);
    assert (m - 1) * MinuteMs < 30 * MinuteMs + 1 <= m * MinuteMs;
  }
}
