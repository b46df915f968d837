/** The PWM backlight driver pwm_backlight.c: the 32-bit duty cycle arithmetic and the on/off state. */
module Backlight {
  import opened Bytes

  const WRAP := 0x1_0000_0000

  // ----- the duty cycle -----

  /** The unsigned value of duty_cycle * (period - lth) / scale + lth. */
  function DutyWord(level: u32, period: u32, lth: u32, scale: u32): u32
    requires scale > 0
  {
    U32(U32(level * U32(period - lth)) / scale + lth)
  }

  /** An unsigned word returned as an int. */
  function Signed(x: u32): int {
    if x < 0x8000_0000 then x else x - WRAP
  }

  /** level / scale of the span, rounding down. */
  function Share(level: int, span: int, scale: int): int
    requires scale > 0
  {
    level * span / scale
  }

  /** The duty cycle meant: the levels 0..scale laid out evenly over lth..period. */
  function Ideal(level: int, period: int, lth: int, scale: int): int
    requires scale > 0
  {
    Share(level, period - lth, scale) + lth
  }

  lemma QuotientMono(a: nat, b: nat, m: nat)
    requires m > 0 && a <= b
    ensures a / m <= b / m
  {
    if a / m > b / m {
      MulMono(m, b / m + 1, a / m);
    }
  }

  /** A number at least m below another has a smaller quotient. */
  lemma QuotientDrops(a: nat, b: nat, m: nat)
    requires m > 0 && a + m <= b
    ensures a / m < b / m
  {
    QuotientMono(a + m, b, m);
    if (a + m) / m <= a / m {
      MulMono(m, (a + m) / m, a / m);
    }
  }

  lemma QuotientExact(m: nat, k: nat)
    requires m > 0
    ensures m * k / m == k
  {
    var q := m * k / m;
    if q < k {
      MulMono(m, q + 1, k);
    } else if q > k {
      MulMono(m, k + 1, q);
    }
  }

  lemma Nonnegative(a: nat, b: nat)
    ensures 0 <= a * b
  {
    MulMono(a, 0, b);
  }

  lemma ShareShape(a: nat, b: nat, span: nat, scale: nat)
    requires scale > 0 && a <= b <= scale
    ensures 0 <= a * span <= b * span <= scale * span
    ensures 0 <= Share(a, span, scale) <= Share(b, span, scale) <= span
    ensures Share(0, span, scale) == 0 && Share(scale, span, scale) == span
  {
    Nonnegative(span, a);
    MulMono(span, a, b);
    MulMono(span, b, scale);
    ShareOrder(a * span, b * span, scale * span, scale);
    QuotientExact(scale, span);
  }

  lemma ShareOrder(p: nat, q: nat, r: nat, scale: nat)
    requires scale > 0 && p <= q <= r
    ensures 0 <= p / scale <= q / scale <= r / scale
  {
    QuotientMono(p, q, scale);
    QuotientMono(q, r, scale);
  }

  /** The ideal duty rises with the level from lth at level 0 to the whole period at the top level. */
  lemma IdealShape(a: nat, b: nat, period: nat, lth: nat, scale: nat)
    requires scale > 0 && lth <= period && a <= b <= scale
    ensures lth <= Ideal(a, period, lth, scale) <= Ideal(b, period, lth, scale) <= period
    ensures Ideal(0, period, lth, scale) == lth && Ideal(scale, period, lth, scale) == period
  {
    hide Share;
    ShareShape(a, b, period - lth, scale);
  }

  /** Dropping a multiple of 2^32 from a product lowers its quotient, and only then. */
  lemma WrappedQuotient(product: nat, scale: u32)
    requires scale > 0
    ensures 0 <= U32(product) / scale <= product / scale
    ensures U32(product) / scale == product / scale <==> product < WRAP
  {
    hide U32;
    Unwrapped(product);
    WrapBelow(product);
    QuotientMono(U32(product), product, scale);
    if product >= WRAP {
      QuotientDrops(U32(product), product, scale);
    }
  }

  /** Every legal level gives a duty between lth and the period, even when the product wraps. */
  lemma DutyBounded(level: u32, period: u32, lth: u32, scale: u32)
    requires 0 < scale && level <= scale && lth <= period
    ensures DutyWord(level, period, lth, scale) == U32(level * (period - lth)) / scale + lth
    ensures lth <= DutyWord(level, period, lth, scale) <= period
  {
    var span := period - lth;
    hide U32;
    Unwrapped(span);
    ShareShape(level, level, span, scale);
    WrappedQuotient(level * span, scale);
    Unwrapped(U32(level * span) / scale + lth);
  }

  lemma Unwrapped(x: nat)
    ensures U32(x) == x <==> x < WRAP
  {
  }

  lemma WrapBelow(x: nat)
    ensures U32(x) <= x && (x >= WRAP ==> U32(x) <= x - WRAP)
  {
  }

  /** The arithmetic gives the ideal duty exactly when the product fits 32 bits. */
  lemma DutyExactIff(level: u32, period: u32, lth: u32, scale: u32)
    requires 0 < scale && level <= scale && lth <= period
    ensures DutyWord(level, period, lth, scale) == Ideal(level, period, lth, scale) <==> level * (period - lth) < WRAP
  {
    hide U32, DutyWord;
    DutyBounded(level, period, lth, scale);
    ShareShape(level, level, period - lth, scale);
    WrappedQuotient(level * (period - lth), scale);
  }

  /** What compute_duty_cycle returns is the ideal duty exactly when, besides, the result fits an int. */
  lemma ReturnExactIff(level: u32, period: u32, lth: u32, scale: u32)
    requires 0 < scale && level <= scale && lth <= period
    ensures Signed(DutyWord(level, period, lth, scale)) == Ideal(level, period, lth, scale)
       <==> level * (period - lth) < WRAP && Ideal(level, period, lth, scale) < 0x8000_0000
  {
    hide DutyWord, Ideal;
    DutyExactIff(level, period, lth, scale);
    IdealShape(level, level, period, lth, scale);
  }

  /** A brighter level never gives a smaller duty. */
  ghost predicate Monotone(period: u32, lth: u32, scale: u32)
    requires 0 < scale
  {
    forall a: u32, b: u32 :: a <= b <= scale ==> DutyWord(a, period, lth, scale) <= DutyWord(b, period, lth, scale)
  }

  /** Over all levels up to scale the duty is monotone exactly when the largest product fits 32 bits. A wrap lowers the
      product by 2^32 - span, which is sure to lower the quotient if it is at least scale; that holds for every period
      and scale that fit an int, and without it a wrap can go unnoticed (WrapUnnoticed). */
  lemma MonotoneIff(period: u32, lth: u32, scale: u32)
    requires 0 < scale && lth <= period && period - lth + scale <= WRAP
    ensures Monotone(period, lth, scale) <==> scale * (period - lth) < WRAP
  {
    hide DutyWord, Ideal;
    if scale * (period - lth) < WRAP {
      forall a: u32, b: u32 | a <= b <= scale
        ensures DutyWord(a, period, lth, scale) <= DutyWord(b, period, lth, scale)
      {
        IdealShape(a, b, period, lth, scale);
        ShareShape(a, b, period - lth, scale);
        DutyExactIff(a, period, lth, scale);
        DutyExactIff(b, period, lth, scale);
      }
    } else {
      var k := FirstWrap(period, lth, scale);
    }
  }

  /** The first multiple of `span` that does not fit 32 bits. */
  lemma FirstMultiple(span: nat, scale: nat) returns (k: nat)
    requires span < WRAP && scale * span >= WRAP
    ensures 1 < k <= scale && (k - 1) * span < WRAP <= k * span && k * span == (k - 1) * span + span
  {
    var q := (WRAP - 1) / span;
    k := q + 1;
    assert q * span == span * q <= WRAP - 1;
    assert k * span == q * span + span;
    if k > scale {
      MulMono(span, scale, q);
    }
  }

  /** The first level whose product wraps is darker than the level before it. */
  lemma FirstWrap(period: u32, lth: u32, scale: u32) returns (k: u32)
    requires 0 < scale && lth <= period && period - lth + scale <= WRAP
    requires scale * (period - lth) >= WRAP
    ensures 0 < k <= scale && DutyWord(k, period, lth, scale) < DutyWord(k - 1, period, lth, scale)
  {
    hide U32, DutyWord;
    var span := period - lth;
    k := FirstMultiple(span, scale);
    DutyBounded(k, period, lth, scale);
    DutyBounded(k - 1, period, lth, scale);
    Unwrapped((k - 1) * span);
    WrapBelow(k * span);
    QuotientDrops(U32(k * span), (k - 1) * span, scale);
  }

  /** One more than the bound of MonotoneIff, with period 2^32 - 1, no threshold and two levels: the product wraps, but
      the duty is still monotone. */
  lemma WrapUnnoticed(period: u32)
    requires period == WRAP - 1
    ensures period - 0 + 2 == WRAP + 1 && 2 * (period - 0) >= WRAP && Monotone(period, 0, 2)
  {
    hide U32, DutyWord;
    forall level: u32 | level <= 2
      ensures DutyWord(level, period, 0, 2) == if level == 0 then 0 else 0x7FFF_FFFF
    {
      DutyBounded(level, period, 0, 2);
      assert level == 0 || level == 1 || level == 2;
      Unwrapped(level * period);
      WrappedOnce(2 * period);
    }
  }

  lemma WrappedOnce(x: nat)
    requires WRAP <= x < 2 * WRAP
    ensures U32(x) == x - WRAP
  {
    ModUnique(x, WRAP, 1, x - WRAP);
  }

  // ----- probe -----

  function LthOf(lthBrightness: u32, period: u32, scale: u32): u32
    requires scale > 0
  {
    U32(lthBrightness * (period / scale))
  }

  /** A lowest brightness of at most scale gives a threshold inside the period, with no wrap. */
  lemma LthFits(lthBrightness: u32, period: u32, scale: u32)
    requires 0 < scale && lthBrightness <= scale
    ensures LthOf(lthBrightness, period, scale) == lthBrightness * (period / scale) <= period
  {
    MulMono(period / scale, lthBrightness, scale);
    assert scale * (period / scale) <= period;
  }

  /** The probe loop over the brightness levels. */
  method FindScale(levels: array<u32>) returns (scale: u32)
    ensures forall k :: 0 <= k < levels.Length ==> levels[k] <= scale
    ensures scale == 0 || scale in levels[..]
    ensures scale > 0 <==> exists k :: 0 <= k < levels.Length && levels[k] > 0
  {
    scale := 0;
    for i := 0 to levels.Length
      invariant forall k :: 0 <= k < i ==> levels[k] <= scale
      invariant scale == 0 || exists k :: 0 <= k < i && levels[k] == scale
    {
      if levels[i] > scale {
        scale := levels[i];
      }
    }
  }

  /** What probe fixes: the levels (None when brightness is used directly), the scale, and how the panel is wired. */
  datatype Config = Config(levels: Option<seq<u32>>, scale: u32, period: u32, lthBrightness: u32,
                           gpio: bool, activeLow: bool)

  /** Probe divides by the scale; the configurations it survives, with the lowest brightness within the scale. */
  predicate Sound(c: Config) {
    && 0 < c.scale && c.lthBrightness <= c.scale
    && (c.levels.Some? ==> forall k :: 0 <= k < |c.levels.value| ==> c.levels.value[k] <= c.scale)
  }

  /** Brightness values the backlight class lets through: up to max_brightness. */
  predicate Legal(c: Config, brightness: int) {
    0 <= brightness && if c.levels.Some? then brightness < |c.levels.value| else brightness <= c.scale
  }

  function Level(c: Config, brightness: int): u32
    requires Legal(c, brightness)
  {
    if c.levels.Some? then c.levels.value[brightness] else brightness
  }

  /** compute_duty_cycle */
  function Duty(c: Config, brightness: int): int
    requires Sound(c) && Legal(c, brightness)
  {
    Signed(DutyWord(Level(c, brightness), c.period, LthOf(c.lthBrightness, c.period, c.scale), c.scale))
  }

  /** For every period an int can hold, the duty handed to the PWM is between the threshold and the period. */
  lemma DutyInRange(c: Config, brightness: int)
    requires Sound(c) && Legal(c, brightness) && c.period < 0x8000_0000
    ensures c.lthBrightness * (c.period / c.scale) <= Duty(c, brightness) <= c.period
  {
    hide DutyWord, LthOf;
    LthFits(c.lthBrightness, c.period, c.scale);
    DutyBounded(Level(c, brightness), c.period, LthOf(c.lthBrightness, c.period, c.scale), c.scale);
  }

  /** The duty is the ideal one of the level the table has for this brightness (of the brightness itself without a
      table) exactly when the product fits 32 bits and the duty an int. */
  lemma DutyIdealIff(c: Config, brightness: int)
    requires Sound(c) && Legal(c, brightness)
    ensures var level: int := if c.levels.Some? then c.levels.value[brightness] else brightness;
            var lth := c.lthBrightness * (c.period / c.scale);
            && 0 <= level <= c.scale && 0 <= lth <= c.period
            && (Duty(c, brightness) == Ideal(level, c.period, lth, c.scale)
                <==> level * (c.period - lth) < WRAP && Ideal(level, c.period, lth, c.scale) < 0x8000_0000)
  {
    var level: int := if c.levels.Some? then c.levels.value[brightness] else brightness;
    hide DutyWord, LthOf, Ideal;
    LthFits(c.lthBrightness, c.period, c.scale);
    Nonnegative(c.lthBrightness, c.period / c.scale);
    ReturnExactIff(level, c.period, LthOf(c.lthBrightness, c.period, c.scale), c.scale);
  }

  // ----- switching -----

  /** The calls the driver makes on the PWM and on the enable pin. */
  datatype Call = Configure(duty: int) | Enable | Disable | Pin(high: bool)

  /** What the calls do to the panel. */
  datatype Panel = Panel(duty: int, on: bool, pin: bool)

  function Apply(p: Panel, c: Call): Panel {
    match c
    case Configure(d) => p.(duty := d)
    case Enable => p.(on := true)
    case Disable => p.(on := false)
    case Pin(h) => p.(pin := h)
  }

  function Effect(start: Panel, calls: seq<Call>): Panel {
    if calls == [] then start else Apply(Effect(start, calls[..|calls| - 1]), calls[|calls| - 1])
  }

  /** Enable comes when the PWM is off and Disable when it is on. */
  predicate InTurn(p: Panel, c: Call) {
    (c.Enable? ==> !p.on) && (c.Disable? ==> p.on)
  }

  predicate Alternates(start: Panel, calls: seq<Call>) {
    calls != [] ==>
      var before := calls[..|calls| - 1];
      Alternates(start, before) && InTurn(Effect(start, before), calls[|calls| - 1])
  }

  /** The pin calls for switching the panel on or off; none when there is no pin. */
  function PinCalls(c: Config, on: bool): seq<Call> {
    if c.gpio then [Pin(on != c.activeLow)] else []
  }

  /** The calls of one pwm_backlight_update_status. */
  function UpdateCalls(c: Config, enabled: bool, brightness: int): seq<Call>
    requires Sound(c) && Legal(c, brightness)
  {
    if brightness > 0 then
      [Configure(Duty(c, brightness))] + (if enabled then [] else PinCalls(c, true) + [Enable])
    else if enabled then
      [Configure(0), Disable] + PinCalls(c, false)
    else
      []
  }

  /** The calls of a sequence of updates after probe, which leaves the panel off. */
  function RunCalls(c: Config, requests: seq<int>): seq<Call>
    requires Sound(c) && forall k :: 0 <= k < |requests| ==> Legal(c, requests[k])
  {
    if requests == [] then []
    else
      var before := requests[..|requests| - 1];
      RunCalls(c, before) + UpdateCalls(c, before != [] && before[|before| - 1] > 0, requests[|requests| - 1])
  }

  /** The panel as the last request wants it. */
  function Wanted(c: Config, start: Panel, requests: seq<int>): Panel
    requires Sound(c) && forall k :: 0 <= k < |requests| ==> Legal(c, requests[k])
  {
    if forall k :: 0 <= k < |requests| ==> requests[k] <= 0 then start
    else
      var last := requests[|requests| - 1];
      Panel(if last > 0 then Duty(c, last) else 0, last > 0, if c.gpio then (last > 0) != c.activeLow else start.pin)
  }

  lemma EffectOne(start: Panel, calls: seq<Call>, c: Call)
    ensures Effect(start, calls + [c]) == Apply(Effect(start, calls), c)
    ensures Alternates(start, calls + [c]) <==> Alternates(start, calls) && InTurn(Effect(start, calls), c)
  {
    assert (calls + [c])[..|calls|] == calls;
  }

  /** Running more calls after `calls` is running them on what `calls` left. */
  lemma {:induction false} EffectMore(start: Panel, calls: seq<Call>, more: seq<Call>)
    ensures Effect(start, calls + more) == Effect(Effect(start, calls), more)
    ensures Alternates(start, calls + more) <==> Alternates(start, calls) && Alternates(Effect(start, calls), more)
  {
    if more == [] {
      assert calls + more == calls;
    } else {
      var before, c := more[..|more| - 1], more[|more| - 1];
      EffectMore(start, calls, before);
      assert calls + more == calls + before + [c];
      assert more == before + [c];
      EffectOne(start, calls + before, c);
      EffectOne(Effect(start, calls), before, c);
    }
  }

  /** Up to three calls, one by one. */
  lemma EffectShort(p: Panel, a: Call, b: Call, c: Call)
    ensures Effect(p, []) == p && Effect(p, [a]) == Apply(p, a)
    ensures Effect(p, [a, b]) == Apply(Apply(p, a), b) && Effect(p, [a, b, c]) == Apply(Apply(Apply(p, a), b), c)
    ensures Alternates(p, []) && (Alternates(p, [a]) <==> InTurn(p, a))
    ensures Alternates(p, [a, b]) <==> InTurn(p, a) && InTurn(Apply(p, a), b)
    ensures Alternates(p, [a, b, c]) <==> InTurn(p, a) && InTurn(Apply(p, a), b) && InTurn(Apply(Apply(p, a), b), c)
  {
    EffectOne(p, [], a);
    EffectOne(p, [a], b);
    EffectOne(p, [a, b], c);
    assert [] + [a] == [a] && [a] + [b] == [a, b] && [a, b] + [c] == [a, b, c];
  }

  /** One update on a panel that agrees with the driver's flag. */
  lemma UpdateShows(c: Config, p: Panel, brightness: int)
    requires Sound(c) && Legal(c, brightness) && (c.gpio ==> p.pin == (p.on != c.activeLow))
    ensures var calls := UpdateCalls(c, p.on, brightness);
            && Alternates(p, calls)
            && Effect(p, calls) == if brightness <= 0 && !p.on then p
                 else Panel(if brightness > 0 then Duty(c, brightness) else 0, brightness > 0,
                            if c.gpio then (brightness > 0) != c.activeLow else p.pin)
  {
    hide Duty, Effect, Alternates;
    if brightness > 0 {
      var d := Configure(Duty(c, brightness));
      EffectShort(p, d, if c.gpio then Pin(!c.activeLow) else Enable, Enable);
      assert UpdateCalls(c, p.on, brightness)
          == if p.on then [d] else if c.gpio then [d, Pin(!c.activeLow), Enable] else [d, Enable];
    } else {
      EffectShort(p, Configure(0), Disable, Pin(c.activeLow));
      assert [Configure(0), Disable] + PinCalls(c, false)
          == if c.gpio then [Configure(0), Disable, Pin(c.activeLow)] else [Configure(0), Disable];
    }
  }

  /** After every sequence of brightness requests the panel is as the last one wants it, and the PWM was switched
      on and off strictly in turn. */
  lemma {:induction false} RunShows(c: Config, start: Panel, requests: seq<int>)
    requires Sound(c) && forall k :: 0 <= k < |requests| ==> Legal(c, requests[k])
    requires !start.on && (c.gpio ==> start.pin == c.activeLow)
    ensures Effect(start, RunCalls(c, requests)) == Wanted(c, start, requests)
    ensures Alternates(start, RunCalls(c, requests))
  {
    hide UpdateCalls, Duty, Sound, Legal;
    if requests != [] {
      var before, last := requests[..|requests| - 1], requests[|requests| - 1];
      RunShows(c, start, before);
      var p := Wanted(c, start, before);
      UpdateShows(c, p, last);
      EffectMore(start, RunCalls(c, before), UpdateCalls(c, p.on, last));
    }
  }

  /** The panel after every sequence of requests, in terms of the configuration alone. If the last request is positive
      it is on, with the ideal duty of its level if the product fits 32 bits and the duty an int; if the last is 0 and
      an earlier one was not, it is off with duty 0; the pin, if there is one, is active exactly while it is on. */
  lemma RunIdeal(c: Config, start: Panel, requests: seq<int>)
    requires Sound(c) && forall k :: 0 <= k < |requests| ==> Legal(c, requests[k])
    requires requests != [] && !start.on && (c.gpio ==> start.pin == c.activeLow)
    ensures var p, last := Effect(start, RunCalls(c, requests)), requests[|requests| - 1];
            var level := if c.levels.Some? then c.levels.value[last] else last;
            var lth := c.lthBrightness * (c.period / c.scale);
            && p.on == (last > 0) && (c.gpio ==> p.pin == (p.on != c.activeLow))
            && (last > 0 && level * (c.period - lth) < WRAP && Ideal(level, c.period, lth, c.scale) < 0x8000_0000 ==>
                  p.duty == Ideal(level, c.period, lth, c.scale))
            && (last == 0 && (exists k :: 0 <= k < |requests| && requests[k] > 0) ==> p.duty == 0)
  {
    hide Duty, Ideal;
    RunShows(c, start, requests);
    DutyIdealIff(c, requests[|requests| - 1]);
  }

  predicate Ascending(levels: seq<u32>) {
    forall i, j :: 0 <= i <= j < |levels| ==> levels[i] <= levels[j]
  }

  /** With ascending levels, and if the largest product fits 32 bits, a brighter request never ends with a smaller duty,
      whatever was requested before. */
  lemma RunMonotone(c: Config, start: Panel, before: seq<int>, a: int, before': seq<int>, b: int)
    requires Sound(c) && Legal(c, a) && Legal(c, b) && 0 < a <= b && c.period < 0x8000_0000
    requires forall k :: 0 <= k < |before| ==> Legal(c, before[k])
    requires forall k :: 0 <= k < |before'| ==> Legal(c, before'[k])
    requires !start.on && (c.gpio ==> start.pin == c.activeLow) && (c.levels.Some? ==> Ascending(c.levels.value))
    requires c.scale * (c.period - c.lthBrightness * (c.period / c.scale)) < WRAP
    ensures Effect(start, RunCalls(c, before + [a])).duty <= Effect(start, RunCalls(c, before' + [b])).duty
  {
    hide Ideal, Effect, RunCalls;
    EndsIdeal(c, start, before, a);
    EndsIdeal(c, start, before', b);
    var x: int := if c.levels.Some? then c.levels.value[a] else a;
    var y: int := if c.levels.Some? then c.levels.value[b] else b;
    IdealShape(x, y, c.period, c.lthBrightness * (c.period / c.scale), c.scale);
  }

  lemma EndsIdeal(c: Config, start: Panel, before: seq<int>, a: int)
    requires Sound(c) && Legal(c, a) && 0 < a && c.period < 0x8000_0000
    requires forall k :: 0 <= k < |before| ==> Legal(c, before[k])
    requires !start.on && (c.gpio ==> start.pin == c.activeLow)
    requires c.scale * (c.period - c.lthBrightness * (c.period / c.scale)) < WRAP
    ensures forall k :: 0 <= k < |before + [a]| ==> Legal(c, (before + [a])[k])
    ensures var level: int := if c.levels.Some? then c.levels.value[a] else a;
            var lth := c.lthBrightness * (c.period / c.scale);
            && 0 <= level <= c.scale && 0 <= lth <= c.period
            && Effect(start, RunCalls(c, before + [a])).duty == Ideal(level, c.period, lth, c.scale)
  {
    hide Ideal, Effect, RunCalls, Sound;
    IdealOf(c, a);
    var requests := before + [a];
    assert requests[|requests| - 1] == a;
    RunIdeal(c, start, requests);
  }

  /** If the largest product fits, that of every legal brightness does, and the duty fits an int. */
  lemma IdealOf(c: Config, brightness: int)
    requires Sound(c) && Legal(c, brightness) && c.period < 0x8000_0000
    requires c.scale * (c.period - c.lthBrightness * (c.period / c.scale)) < WRAP
    ensures var level: int := if c.levels.Some? then c.levels.value[brightness] else brightness;
            var lth := c.lthBrightness * (c.period / c.scale);
            && 0 <= level <= c.scale && 0 <= lth <= c.period
            && level * (c.period - lth) < WRAP && Ideal(level, c.period, lth, c.scale) < 0x8000_0000
  {
    hide Ideal;
    DutyIdealIff(c, brightness);
    var level: int := if c.levels.Some? then c.levels.value[brightness] else brightness;
    var lth := c.lthBrightness * (c.period / c.scale);
    MulMono(c.period - lth, level, c.scale);
    IdealShape(level, level, c.period, lth, c.scale);
  }

  lemma RunOne(c: Config, before: seq<int>, brightness: int)
    requires Sound(c) && Legal(c, brightness) && forall k :: 0 <= k < |before| ==> Legal(c, before[k])
    ensures RunCalls(c, before + [brightness])
         == RunCalls(c, before) + UpdateCalls(c, before != [] && before[|before| - 1] > 0, brightness)
  {
    hide UpdateCalls, Sound, Legal;
    assert (before + [brightness])[..|before|] == before;
  }

  class PwmBacklight {
    const c: Config
    var enabled: bool
    /** The calls made so far, and the requests they answer. */
    ghost var calls: seq<Call>
    ghost var requests: seq<int>

    ghost predicate Valid()
      reads this
    {
      && Sound(c) && (forall k :: 0 <= k < |requests| ==> Legal(c, requests[k]))
      && calls == RunCalls(c, requests)
      && enabled == (requests != [] && requests[|requests| - 1] > 0)
    }

    /** The end of probe. */
    constructor (config: Config)
      requires Sound(config)
      ensures Valid() && c == config && requests == []
    {
      c := config;
      enabled := false;
      calls := [];
      requests := [];
    }

    method PowerOn()
      modifies this
      ensures enabled && requests == old(requests)
      ensures calls == old(calls) + if old(enabled) then [] else PinCalls(c, true) + [Enable]
    {
      if enabled {
        return;
      }
      if c.gpio {
        if c.activeLow {
          calls := calls + [Pin(false)];
        } else {
          calls := calls + [Pin(true)];
        }
      }
      calls := calls + [Enable];
      enabled := true;
    }

    method PowerOff()
      modifies this
      ensures !enabled && requests == old(requests)
      ensures calls == old(calls) + if old(enabled) then [Configure(0), Disable] + PinCalls(c, false) else []
    {
      if !enabled {
        return;
      }
      calls := calls + [Configure(0)];
      calls := calls + [Disable];
      if c.gpio {
        if c.activeLow {
          calls := calls + [Pin(true)];
        } else {
          calls := calls + [Pin(false)];
        }
      }
      enabled := false;
    }

    method UpdateStatus(brightness: int)
      requires Valid() && Legal(c, brightness)
      modifies this
      ensures Valid() && requests == old(requests) + [brightness]
      ensures var off := [Configure(0), Disable];
              brightness == 0 ==>
                calls == old(calls) + if !old(enabled) then [] else if c.gpio then off + [Pin(c.activeLow)] else off
      ensures brightness > 0 ==>
                calls == old(calls) + [Configure(Duty(c, brightness))]
                         + (if old(enabled) then [] else if c.gpio then [Pin(!c.activeLow), Enable] else [Enable])
    {
      hide Duty, Sound, RunCalls;
      RunOne(c, requests, brightness);
      if brightness > 0 {
        var duty := Duty(c, brightness);
        calls := calls + [Configure(duty)];
        PowerOn();
      } else {
        PowerOff();
      }
      requests := requests + [brightness];
      assert calls == old(calls) + UpdateCalls(c, old(enabled), brightness);
    }
  }
}
