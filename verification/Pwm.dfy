/** The arithmetic of the hardware PWM, src/evok/modbus/pwm.py, in exact rationals.
    Duties are in tenths of a percent. */
module Pwm {
  import opened Arithmetic
  import opened Common

  const BASE_FREQ := 48000000.0
  const MAX_FREQ := 50000.0
  const MAX_REGISTER := 65536

  /** ceil() */
  function Ceil(x: real): int {
    -(-x).Floor
  }

  /** round() of Python: the nearest integer, of two the even one. */
  function Round(x: real): int {
    var low := x.Floor;
    var rest := x - low as real;
    if rest < 0.5 || (rest == 0.5 && low % 2 == 0) then low else low + 1
  }

  lemma RoundIsNear(x: real)
    ensures -0.5 <= Round(x) as real - x <= 0.5
  {
  }

  /** A half is rounded to the even neighbour. */
  lemma HalfIsEven(n: int)
    ensures Round(n as real + 0.5) == if n % 2 == 0 then n else n + 1
  {
  }

  lemma NearIsRound(x: real, n: int)
    requires -0.5 < x - n as real < 0.5
    ensures Round(x) == n
  {
  }

  lemma RoundIsMonotone(x: real, y: real)
    requires x <= y
    ensures Round(x) <= Round(y)
  {
  }

  // ---- the divider ----

  datatype Divider = Divider(cycle: int, prescale: int)

  predicate Accepted(freq: real) {
    BASE_FREQ / (MAX_REGISTER as real * MAX_REGISTER as real) <= freq <= MAX_FREQ
  }

  lemma DelayRange(freq: real)
    requires Accepted(freq)
    ensures 960.0 <= BASE_FREQ / freq <= 65536.0 * 65536.0
  {
    assert BASE_FREQ / freq * freq == BASE_FREQ;
  }

  /** divide(): None is ValueError. */
  function Divide(freq: real): Option<Divider> {
    if !Accepted(freq) then None
    else
      DelayRange(freq);
      var delay := BASE_FREQ / freq;
      var prescale := Ceil(delay / MAX_REGISTER as real);
      var cycle := Round(delay / prescale as real);
      Some(Divider(if cycle < MAX_REGISTER then cycle else MAX_REGISTER, prescale))
  }

  function Abs(x: real): real {
    if x < 0.0 then -x else x
  }

  /** The longest cycle with the prescale is not shorter than the period. */
  predicate Reaches(prescale: int, delay: real) {
    prescale as real * 65536.0 >= delay
  }

  lemma PrescaleIsSmallest(freq: real, q: int)
    requires Accepted(freq)
    ensures var p := Divide(freq).value.prescale;
            1 <= p <= MAX_REGISTER && Reaches(p, BASE_FREQ / freq) && !Reaches(p - 1, BASE_FREQ / freq)
    ensures Reaches(q, BASE_FREQ / freq) <==> q >= Divide(freq).value.prescale
  {
    DelayRange(freq);
  }

  lemma IsWithin(y: real, p: real)
    requires -0.5 * p <= y <= 0.5 * p
    ensures Abs(y) <= p / 2.0
  {
  }

  /** The product of a rounded quotient and its divisor p. */
  lemma RoundedError(c: real, q: real, p: real, x: real, cp: real)
    requires p >= 0.0 && -0.5 <= c - q <= 0.5 && q * p == x && cp == c * p
    ensures Abs(cp - x) <= p / 2.0
  {
    HalfMore(c, q, p, cp, x);
    HalfMore(q, c, p, x, cp);
    IsWithin(cp - x, p);
  }

  lemma CycleError(delay: real, p: real, q: real, cp: real)
    requires p >= 1.0 && q == delay / p && cp == Round(q) as real * p
    ensures Abs(cp - delay) <= p / 2.0
  {
    RoundIsNear(q);
    QuotientTimes(delay, p, q);
    RoundedError(Round(q) as real, q, p, delay, cp);
  }

  lemma QuotientRange(q: real, p: real, delay: real)
    requires q * p == delay && p >= 1.0 && p * 65536.0 >= delay >= 960.0
    requires p > 1.0 ==> p >= 2.0 && (p - 1.0) * 65536.0 < delay
    ensures 960.0 <= q <= 65536.0
  {
    var low, high := 960.0 - q, q - 65536.0;
    assert low * p == 960.0 * p - q * p && high * p == q * p - 65536.0 * p;
    SignOfProduct(low, p);
    SignOfProduct(high, p);
  }

  /** The quotient fits the register, so the upper bound of the cycle never cuts it. */
  lemma CycleRange(delay: real, p: real, q: real)
    requires p >= 1.0 && q == delay / p && p * 65536.0 >= delay >= 960.0
    requires p > 1.0 ==> p >= 2.0 && (p - 1.0) * 65536.0 < delay
    ensures 960 <= Round(q) <= MAX_REGISTER
    ensures p / 2.0 <= delay / 1920.0
  {
    QuotientTimes(delay, p, q);
    QuotientRange(q, p, delay);
    RoundIsMonotone(960.0, q);
    RoundIsMonotone(q, 65536.0);
  }

  lemma DividerIs(freq: real, p: int, q: real)
    requires Accepted(freq) && p == Divide(freq).value.prescale && p >= 1
    requires q == (BASE_FREQ / freq) / p as real && Round(q) <= MAX_REGISTER
    ensures Divide(freq).value.cycle == Round(q)
  {
  }

  /** The cycle is the rounded quotient, and its error. */
  lemma CycleIsRounded(freq: real, delay: real, x: Divider, product: real)
    requires Accepted(freq) && delay == BASE_FREQ / freq && x == Divide(freq).value
    requires product == x.cycle as real * x.prescale as real
    ensures 960 <= x.cycle <= MAX_REGISTER && x.prescale >= 1
    ensures Abs(product - delay) <= x.prescale as real / 2.0 <= delay / 1920.0
  {
    DelayRange(freq);
    PrescaleIsSmallest(freq, 1);
    var p := x.prescale as real;
    var q := delay / p;
    CycleRange(delay, p, q);
    DividerIs(freq, x.prescale, q);
    CycleError(delay, p, q, product);
  }

  /** The registers of a timer keep cycle - 1 and prescale - 1 of every accepted frequency; the prescale is the
      smallest which reaches the period, and the period differs from the exact one by at most a half of the prescale
      and 1/1920. */
  lemma DividerBounds(freq: real)
    requires Accepted(freq)
    ensures
      var x, delay := Divide(freq).value, BASE_FREQ / freq;
      && 1 <= x.prescale <= MAX_REGISTER && 960 <= x.cycle <= MAX_REGISTER
      && Abs(x.cycle as real * x.prescale as real - delay) <= x.prescale as real / 2.0
      && Abs(x.cycle as real * x.prescale as real - delay) <= delay / 1920.0
      && (forall q :: Reaches(q, delay) <==> q >= x.prescale)
  {
    var x, delay := Divide(freq).value, BASE_FREQ / freq;
    CycleIsRounded(freq, delay, x, x.cycle as real * x.prescale as real);
    PrescaleIsSmallest(freq, 1);
    forall q
      ensures Reaches(q, delay) <==> q >= x.prescale
    {
      PrescaleIsSmallest(freq, q);
    }
  }

  lemma FartherAway(x: real, c: real, delay: real, p: real)
    requires Abs(x - delay) <= p / 2.0 && (c - x >= p || x - c >= p)
    ensures Abs(x - delay) <= Abs(c - delay)
  {
  }

  lemma NearestMultiple(delay: real, p: real, x: real, c: real, xp: real, cp: real)
    requires p > 0.0 && (c - x >= 1.0 || x - c >= 1.0) && xp == x * p && cp == c * p
    requires Abs(xp - delay) <= p / 2.0
    ensures Abs(xp - delay) <= Abs(cp - delay)
  {
    if c - x >= 1.0 {
      OneMore(c, x, p, cp, xp);
    } else {
      OneMore(x, c, p, xp, cp);
    }
    FartherAway(xp, cp, delay, p);
  }

  /** No other cycle with this prescale is nearer to the period. */
  lemma CycleIsNearest(freq: real, c: int, delay: real, x: Divider, product: real, other: real)
    requires Accepted(freq) && delay == BASE_FREQ / freq && x == Divide(freq).value
    requires product == x.cycle as real * x.prescale as real && other == c as real * x.prescale as real
    ensures Abs(product - delay) <= Abs(other - delay)
  {
    CycleIsRounded(freq, delay, x, product);
    if c != x.cycle {
      NearestMultiple(delay, x.prescale as real, x.cycle as real, c as real, product, other);
    }
  }

  // ---- the duty ----

  /** duty_raw() of a duty in percent. */
  function PercentRaw(cycle: int, percent: real): int {
    Round(cycle as real * percent / 100.0)
  }

  /** The register value of a duty in tenths of a percent. */
  function DutyRaw(cycle: int, tenths: int): int {
    PercentRaw(cycle, tenths as real / 10.0)
  }

  /** duty() in tenths of a percent, round() by one decimal. */
  function Duty(cycle: int, raw: int): int
    requires cycle > 0
  {
    Round((raw * 1000) as real / cycle as real)
  }

  predicate Keeps(cycle: int, tenths: int)
    requires cycle > 0
  {
    0 <= DutyRaw(cycle, tenths) <= 65535 && Duty(cycle, DutyRaw(cycle, tenths)) == tenths
  }

  /** A quotient of c is near t, if its dividend is near the product. */
  lemma QuotientNear(a: real, c: real, t: real, q: real, tc: real)
    requires c > 1000.0 && q * c == a && tc == t * c && -500.0 <= a - tc <= 500.0
    ensures -0.5 < q - t < 0.5
  {
    HalfMore(q, t, c, a, tc);
    HalfMore(t, q, c, tc, a);
  }

  lemma TenthsTimes(c: real, t: real, x: real, tc: real)
    requires x == c * (t / 10.0) / 100.0 && tc == t * c
    ensures x * 1000.0 == tc
  {
  }

  lemma NearThousandth(x: real, tc: real, cycle: int)
    requires x * 1000.0 == tc && 0.0 <= tc <= 1000.0 * cycle as real
    ensures 0 <= Round(x) <= cycle && -500.0 <= Round(x) as real * 1000.0 - tc <= 500.0
  {
    RoundIsNear(x);
    RoundIsMonotone(0.0, x);
    RoundIsMonotone(x, cycle as real);
    NearIsRound(cycle as real, cycle);
    NearIsRound(0.0, 0);
  }

  lemma RawIs(cycle: int, tenths: int, c: real, t: real, x: real)
    requires c == cycle as real && t == tenths as real && x == c * (t / 10.0) / 100.0
    ensures DutyRaw(cycle, tenths) == Round(x)
  {
  }

  lemma ThousandthRange(x: real, cycle: int, c: real, t: real, tc: real)
    requires c == cycle as real && c >= 0.0 && 0.0 <= t <= 1000.0 && x * 1000.0 == tc && tc == t * c
    ensures 0 <= Round(x) <= cycle && -500.0 <= Round(x) as real * 1000.0 - tc <= 500.0
  {
    UpToThousand(t, c, tc);
    NearThousandth(x, tc, cycle);
  }

  lemma RawRange(cycle: int, tenths: int, c: real, t: real, tc: real, raw: int)
    requires cycle > 0 && 0 <= tenths <= 1000 && c == cycle as real && t == tenths as real && tc == t * c
    requires raw == DutyRaw(cycle, tenths)
    ensures 0 <= raw <= cycle && -500.0 <= raw as real * 1000.0 - tc <= 500.0
  {
    var x := c * (t / 10.0) / 100.0;
    TenthsTimes(c, t, x, tc);
    ThousandthRange(x, cycle, c, t, tc);
    RawIs(cycle, tenths, c, t, x);
  }

  lemma DutyIs(cycle: int, raw: int, a: real, c: real, q: real)
    requires cycle > 0 && c == cycle as real && a == raw as real * 1000.0 && q == a / c
    ensures Duty(cycle, raw) == Round(q)
  {
  }

  /** A cycle of 1000 counts the tenths themselves. */
  lemma ThousandIsKept(tenths: int)
    requires 0 <= tenths <= 1000
    ensures DutyRaw(1000, tenths) == tenths && Duty(1000, tenths) == tenths
  {
    NearIsRound(tenths as real, tenths);
    assert (1000 as real) * (tenths as real / 10.0) / 100.0 == tenths as real;
    assert (tenths * 1000) as real / 1000 as real == tenths as real;
  }

  lemma LongerIsKept(cycle: int, tenths: int, raw: int)
    requires 1000 < cycle && 0 <= tenths <= 1000 && raw == DutyRaw(cycle, tenths)
    ensures 0 <= raw <= cycle && Duty(cycle, raw) == tenths
  {
    var c, t, a := cycle as real, tenths as real, raw as real * 1000.0;
    var tc, q := t * c, a / c;
    RawRange(cycle, tenths, c, t, tc, raw);
    QuotientTimes(a, c, q);
    QuotientNear(a, c, t, q, tc);
    NearIsRound(q, tenths);
    DutyIs(cycle, raw, a, c, q);
  }

  lemma DutyIsKept(cycle: int, tenths: int)
    requires 1000 <= cycle <= 65535 && 0 <= tenths <= 1000
    ensures Keeps(cycle, tenths)
  {
    if cycle == 1000 {
      ThousandIsKept(tenths);
    } else {
      LongerIsKept(cycle, tenths, DutyRaw(cycle, tenths));
    }
  }

  lemma RoundOfThousandth(x: real, y: real, product: real, greater: real)
    requires x * 1000.0 == product && y * 1000.0 == greater && product <= greater
    ensures Round(x) <= Round(y)
  {
    RoundIsMonotone(x, y);
  }

  lemma RawIsMonotone(cycle: int, t: int, u: int)
    requires cycle > 0 && t <= u
    ensures DutyRaw(cycle, t) <= DutyRaw(cycle, u)
  {
    var c, a, b := cycle as real, t as real, u as real;
    var x, y := c * (a / 10.0) / 100.0, c * (b / 10.0) / 100.0;
    var ac, bc := a * c, b * c;
    TenthsTimes(c, a, x, ac);
    TenthsTimes(c, b, y, bc);
    ProductGrows(a, b, c, ac, bc);
    RoundOfThousandth(x, y, ac, bc);
    RawIs(cycle, t, c, a, x);
    RawIs(cycle, u, c, b, y);
  }

  lemma WholeDuty(cycle: int)
    ensures DutyRaw(cycle, 1000) == cycle
  {
    NearIsRound(cycle as real, cycle);
    assert cycle as real * (1000 as real / 10.0) / 100.0 == cycle as real;
  }

  /** Two kept duties have different raw values. */
  lemma KeptAreDifferent(cycle: int, t: int, u: int)
    requires cycle > 0 && t < u && Keeps(cycle, t) && Keeps(cycle, u)
    ensures DutyRaw(cycle, t) < DutyRaw(cycle, u)
  {
    RawIsMonotone(cycle, t, u);
  }

  /** If all duties are kept, the raw values grow at least as the duties. */
  lemma {:induction false} RawGrows(cycle: int, t: int)
    requires cycle > 0 && 0 <= t <= 1000 && forall s :: 0 <= s <= 1000 ==> Keeps(cycle, s)
    ensures DutyRaw(cycle, t) >= t
    decreases t
  {
    assert Keeps(cycle, t);
    if t > 0 {
      RawGrows(cycle, t - 1);
      KeptAreDifferent(cycle, t - 1, t);
    }
  }

  /** Every duty by 0.1 % fits the register and is read back exactly if the cycle has 1000 to 65535 timer cycles. */
  lemma DutyIsKeptExactly(cycle: int)
    requires cycle > 0
    ensures (forall t :: 0 <= t <= 1000 ==> Keeps(cycle, t)) <==> 1000 <= cycle <= 65535
  {
    if forall t :: 0 <= t <= 1000 ==> Keeps(cycle, t) {
      RawGrows(cycle, 1000);
      WholeDuty(cycle);
      assert Keeps(cycle, 1000);
    }
    if 1000 <= cycle <= 65535 {
      forall t | 0 <= t <= 1000
        ensures Keeps(cycle, t)
      {
        DutyIsKept(cycle, t);
      }
    }
  }
}
