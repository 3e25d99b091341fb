/** The outputs which share a hardware PWM, src/evok/modbus/digital.py and pwm.py: their duties over changes of the
    frequency. */
module PwmGroups {
  import opened Common
  import opened Arithmetic
  import opened Pwm

  /** The registers of the unit: the divider and the duty of each output. */
  datatype State = State(divider: Divider, raws: seq<int>)

  /** What set() of an output does beside the frequency. */
  datatype What = KeepDuty | BinaryValue | NewDuty(percent: real)

  /** Invalid is ValueError before a write; Overflow the error of a value which does not fit its register, with the
      registers written before it. */
  datatype Outcome = Done(state: State) | Invalid | Overflow(state: State)

  predicate Usable(s: State) {
    s.divider.cycle > 0
  }

  /** pwm_duty of an output by its last check, in tenths of a percent. */
  function Shown(s: State, i: nat): int
    requires Usable(s) && i < |s.raws|
  {
    Duty(s.divider.cycle, s.raws[i])
  }

  predicate FitsRegister(raw: int) {
    0 <= raw <= 65535
  }

  predicate AllFit(raws: seq<int>) {
    forall i :: 0 <= i < |raws| ==> FitsRegister(raws[i])
  }

  /** The duty register of an output after set_pwm_freq() with the new cycle. */
  function Retuned(s: State, cycle: int, output: nat, keep: bool, i: nat): int
    requires Usable(s) && i < |s.raws|
  {
    if (i == output && !keep) || Shown(s, i) == 0 then s.raws[i] else DutyRaw(cycle, Shown(s, i))
  }

  /** The place of the first output from the k-th one whose duty does not fit its register, or the number of all. */
  function FirstUnfit(s: State, cycle: int, output: nat, keep: bool, k: nat): (n: nat)
    requires Usable(s) && k <= |s.raws|
    ensures k <= n <= |s.raws|
    ensures forall i :: k <= i < n ==> FitsRegister(Retuned(s, cycle, output, keep, i))
    ensures n < |s.raws| ==> !FitsRegister(Retuned(s, cycle, output, keep, n))
    decreases |s.raws| - k
  {
    if k == |s.raws| || !FitsRegister(Retuned(s, cycle, output, keep, k)) then k
    else FirstUnfit(s, cycle, output, keep, k + 1)
  }

  /** The duty registers when the ones of the first n outputs are set for the new cycle. */
  function RetunedUpTo(s: State, cycle: int, output: nat, keep: bool, n: nat): (raws: seq<int>)
    requires Usable(s)
    ensures |raws| == |s.raws|
    ensures forall i :: 0 <= i < |raws| ==> raws[i] == if i < n then Retuned(s, cycle, output, keep, i) else s.raws[i]
  {
    seq(|s.raws|, i requires 0 <= i < |s.raws| => if i < n then Retuned(s, cycle, output, keep, i) else s.raws[i])
  }

  /** The outputs of the group for the new divider, up to the first duty which does not fit. */
  function Retune(s: State, x: Divider, output: nat, keep: bool): (o: Outcome)
    requires Usable(s) && x.cycle > 0
    ensures !o.Invalid? && Usable(o.state) && |o.state.raws| == |s.raws|
  {
    var n := FirstUnfit(s, x.cycle, output, keep, 0);
    var z := State(x, RetunedUpTo(s, x.cycle, output, keep, n));
    if n == |s.raws| then Done(z) else Overflow(z)
  }

  /** set_pwm_freq() */
  function SetFreq(s: State, freq: real, output: nat, keep: bool): (o: Outcome)
    requires Usable(s)
    ensures !o.Invalid? ==> Usable(o.state) && |o.state.raws| == |s.raws|
  {
    if !Accepted(freq) then Invalid
    else
      DividerBounds(freq);
      Retune(s, Divide(freq).value, output, keep)
  }

  /** The value or the duty of the output after the frequency; shown is its pwm_duty before the change. */
  function SetOutput(s: State, output: nat, what: What, shown: int): (o: Outcome)
    requires Usable(s) && output < |s.raws|
    ensures !o.Invalid? && o.state.divider == s.divider && |o.state.raws| == |s.raws|
  {
    match what
    case KeepDuty => Done(s)
    case BinaryValue => Done(if shown != 0 then s.(raws := s.raws[output := 0]) else s)
    case NewDuty(d) =>
      var raw := PercentRaw(s.divider.cycle, d);
      if FitsRegister(raw) then Done(s.(raws := s.raws[output := raw])) else Overflow(s)
  }

  /** set() of an output with pwm_freq, if given, and its value or duty. */
  function Assign(s: State, freq: Option<real>, output: nat, what: What): (o: Outcome)
    requires Usable(s) && output < |s.raws|
    ensures !o.Invalid? ==> Usable(o.state) && |o.state.raws| == |s.raws|
  {
    if what.NewDuty? && !(0.0 <= what.percent <= 100.0) then Invalid
    else
      var o := if freq.Some? then SetFreq(s, freq.value, output, what == KeepDuty) else Done(s);
      if o.Done? then SetOutput(o.state, output, what, Shown(s, output)) else o
  }

  function StateAfter(s: State, o: Outcome): State {
    if o.Invalid? then s else o.state
  }

  /** An assignment is invalid exactly if its duty is no percentage or its frequency is out of range; it changes
      nothing. */
  lemma InvalidExactly(s: State, freq: Option<real>, output: nat, what: What)
    requires Usable(s) && output < |s.raws|
    ensures Assign(s, freq, output, what).Invalid? <==>
            (what.NewDuty? && (what.percent < 0.0 || what.percent > 100.0)) ||
            (freq.Some? && !Accepted(freq.value))
    ensures Assign(s, freq, output, what).Invalid? ==> StateAfter(s, Assign(s, freq, output, what)) == s
  {
  }

  lemma FreqFits(s: State, freq: real, output: nat, keep: bool)
    requires Usable(s) && AllFit(s.raws) && !SetFreq(s, freq, output, keep).Invalid?
    ensures AllFit(SetFreq(s, freq, output, keep).state.raws)
  {
  }

  /** No assignment writes a value which does not fit its register: a duty which does not fit is an error, and leaves
      the register of its output. */
  lemma RegistersStayInRange(s: State, freq: Option<real>, output: nat, what: What)
    requires Usable(s) && output < |s.raws| && AllFit(s.raws)
    ensures AllFit(StateAfter(s, Assign(s, freq, output, what)).raws)
    ensures Assign(s, freq, output, what).Done? && what.NewDuty? ==>
              var z := Assign(s, freq, output, what).state;
              z.raws[output] == PercentRaw(z.divider.cycle, what.percent)
    ensures what.NewDuty? && 0.0 <= what.percent <= 100.0 && freq.None? ==>
              (Assign(s, freq, output, what).Overflow? <==>
               PercentRaw(s.divider.cycle, what.percent) < 0 || PercentRaw(s.divider.cycle, what.percent) > 65535)
  {
    if freq.Some? && Accepted(freq.value) {
      FreqFits(s, freq.value, output, what == KeepDuty);
    }
  }

  /** A new frequency leaves the register of the output which gets a new duty with it, so only the new duty has to fit;
      and the registers of the outputs which show no duty. */
  lemma LeftByFreq(s: State, freq: real, output: nat, keep: bool, i: nat)
    requires Usable(s) && i < |s.raws| && !SetFreq(s, freq, output, keep).Invalid?
    requires (i == output && !keep) || Shown(s, i) == 0
    ensures SetFreq(s, freq, output, keep).state.raws[i] == s.raws[i]
  {
  }

  // ---- the duties do not drift ----

  predicate Fine(cycle: int) {
    1000 <= cycle <= 65535
  }

  /** The registers have exactly the duties set, by 0.1 %. */
  predicate Holds(s: State, duties: seq<int>) {
    Fine(s.divider.cycle) && |duties| == |s.raws| &&
    forall i :: 0 <= i < |duties| ==> 0 <= duties[i] <= 1000 && s.raws[i] == DutyRaw(s.divider.cycle, duties[i])
  }

  lemma HoldsShows(s: State, duties: seq<int>, i: nat)
    requires Holds(s, duties) && i < |duties|
    ensures Shown(s, i) == duties[i] && 0 <= s.raws[i] <= 65535
  {
    DutyIsKept(s.divider.cycle, duties[i]);
  }

  lemma ZeroIsZero(cycle: int)
    ensures DutyRaw(cycle, 0) == 0
  {
    NearIsRound(0.0, 0);
  }

  lemma HoldsFits(s: State, duties: seq<int>, cycle: int, output: nat, keep: bool, i: nat)
    requires Holds(s, duties) && Fine(cycle) && i < |duties|
    ensures FitsRegister(Retuned(s, cycle, output, keep, i))
    ensures i != output || keep ==> Retuned(s, cycle, output, keep, i) == DutyRaw(cycle, duties[i])
  {
    HoldsShows(s, duties, i);
    DutyIsKept(cycle, duties[i]);
    ZeroIsZero(cycle);
    ZeroIsZero(s.divider.cycle);
  }

  /** All duties are set for the new cycle. */
  lemma RetuneHolds(s: State, duties: seq<int>, x: Divider, output: nat, keep: bool)
    requires Holds(s, duties) && Fine(x.cycle)
    ensures Retune(s, x, output, keep).Done? && Retune(s, x, output, keep).state.divider == x
    ensures keep ==> Holds(Retune(s, x, output, keep).state, duties)
    ensures forall i :: 0 <= i < |duties| && (i != output || keep) ==>
              Retune(s, x, output, keep).state.raws[i] == DutyRaw(x.cycle, duties[i])
  {
    forall i | 0 <= i < |duties|
      ensures FitsRegister(Retuned(s, x.cycle, output, keep, i))
      ensures i != output || keep ==> Retuned(s, x.cycle, output, keep, i) == DutyRaw(x.cycle, duties[i])
    {
      HoldsFits(s, duties, x.cycle, output, keep, i);
    }
  }

  /** All registers but the one of the output have exactly the duties set; the one of a zero duty is zero. */
  predicate HoldsExcept(s: State, duties: seq<int>, output: nat) {
    Fine(s.divider.cycle) && |duties| == |s.raws| &&
    forall i :: 0 <= i < |duties| ==>
      0 <= duties[i] <= 1000 && (i != output ==> s.raws[i] == DutyRaw(s.divider.cycle, duties[i])) &&
      (duties[i] == 0 ==> s.raws[i] == 0)
  }

  lemma ExceptNone(s: State, duties: seq<int>, output: nat)
    requires Holds(s, duties)
    ensures HoldsExcept(s, duties, output)
  {
    ZeroIsZero(s.divider.cycle);
  }

  lemma SetFreqHolds(s: State, duties: seq<int>, freq: real, output: nat, keep: bool)
    requires Holds(s, duties) && Accepted(freq) && Fine(Divide(freq).value.cycle)
    ensures SetFreq(s, freq, output, keep).Done?
    ensures HoldsExcept(SetFreq(s, freq, output, keep).state, duties, output)
    ensures keep ==> Holds(SetFreq(s, freq, output, keep).state, duties)
  {
    var x := Divide(freq).value;
    RetuneHolds(s, duties, x, output, keep);
    ZeroIsZero(x.cycle);
    ZeroIsZero(s.divider.cycle);
    forall i | 0 <= i < |duties|
      ensures duties[i] == 0 ==> Retuned(s, x.cycle, output, keep, i) == 0
    {
      HoldsShows(s, duties, i);
    }
  }

  /** The duties which the assignments have set. */
  function Wanted(duties: seq<int>, output: nat, what: What): (r: seq<int>)
    requires output < |duties|
    ensures |r| == |duties|
  {
    match what
    case KeepDuty => duties
    case BinaryValue => duties[output := 0]
    case NewDuty(d) => duties[output := (d * 10.0).Floor]
  }

  /** A duty of a request by 0.1 %. */
  predicate ByTenths(what: What) {
    what.NewDuty? ==> 0.0 <= what.percent <= 100.0 && what.percent * 10.0 == (what.percent * 10.0).Floor as real
  }

  lemma PercentOfTenths(cycle: int, percent: real, t: int)
    requires percent * 10.0 == t as real
    ensures PercentRaw(cycle, percent) == DutyRaw(cycle, t)
  {
    assert percent == t as real / 10.0;
  }

  lemma SetOutputHolds(s: State, duties: seq<int>, output: nat, what: What)
    requires HoldsExcept(s, duties, output) && output < |duties| && ByTenths(what)
    requires what == KeepDuty ==> Holds(s, duties)
    ensures SetOutput(s, output, what, duties[output]).Done?
    ensures Holds(SetOutput(s, output, what, duties[output]).state, Wanted(duties, output, what))
  {
    ZeroIsZero(s.divider.cycle);
    if what.NewDuty? {
      var t := (what.percent * 10.0).Floor;
      PercentOfTenths(s.divider.cycle, what.percent, t);
      DutyIsKept(s.divider.cycle, t);
    }
  }

  datatype Event = Event(freq: Option<real>, output: nat, what: What)

  /** The assignments of a run: outputs of the group, duties by 0.1 %, and frequencies with a fine cycle or refused
      ones. */
  predicate Allowed(e: Event, n: nat) {
    e.output < n && ByTenths(e.what) &&
    (e.freq.Some? && Accepted(e.freq.value) ==> Fine(Divide(e.freq.value).value.cycle))
  }

  predicate RefusesFreq(e: Event) {
    e.freq.Some? && !Accepted(e.freq.value)
  }

  /** The unit after an assignment. */
  function Next(s: State, e: Event): (z: State)
    requires Usable(s) && e.output < |s.raws|
    ensures Usable(z) && |z.raws| == |s.raws|
  {
    StateAfter(s, Assign(s, e.freq, e.output, e.what))
  }

  function WantedNext(duties: seq<int>, e: Event): (r: seq<int>)
    requires e.output < |duties|
    ensures |r| == |duties|
  {
    if RefusesFreq(e) then duties else Wanted(duties, e.output, e.what)
  }

  /** An assignment does not overflow, it is refused only by its frequency. */
  lemma NextHolds(s: State, duties: seq<int>, e: Event)
    requires Holds(s, duties) && Allowed(e, |duties|)
    ensures Assign(s, e.freq, e.output, e.what).Done? <==> !RefusesFreq(e)
    ensures Holds(Next(s, e), WantedNext(duties, e))
  {
    HoldsShows(s, duties, e.output);
    if e.freq.None? {
      ExceptNone(s, duties, e.output);
      SetOutputHolds(s, duties, e.output, e.what);
    } else if Accepted(e.freq.value) {
      SetFreqHolds(s, duties, e.freq.value, e.output, e.what == KeepDuty);
      SetOutputHolds(SetFreq(s, e.freq.value, e.output, e.what == KeepDuty).state, duties, e.output, e.what);
    }
  }

  predicate AllAllowed(es: seq<Event>, n: nat) {
    forall i :: 0 <= i < |es| ==> Allowed(es[i], n)
  }

  /** The unit after the assignments, each followed by the check of the outputs. */
  function Run(s: State, es: seq<Event>): (z: State)
    requires Usable(s) && AllAllowed(es, |s.raws|)
    ensures Usable(z) && |z.raws| == |s.raws|
    decreases |es|
  {
    if es == [] then s else Run(Next(s, es[0]), es[1..])
  }

  /** The duties last set by the accepted assignments. */
  function WantedAfter(duties: seq<int>, es: seq<Event>): (r: seq<int>)
    requires AllAllowed(es, |duties|)
    ensures |r| == |duties|
    decreases |es|
  {
    if es == [] then duties else WantedAfter(WantedNext(duties, es[0]), es[1..])
  }

  lemma {:induction false} RunHolds(s: State, duties: seq<int>, es: seq<Event>)
    requires Holds(s, duties) && AllAllowed(es, |duties|)
    ensures Holds(Run(s, es), WantedAfter(duties, es))
    decreases |es|
  {
    if es != [] {
      NextHolds(s, duties, es[0]);
      RunHolds(Next(s, es[0]), WantedNext(duties, es[0]), es[1..]);
    }
  }

  /** Over any run of assignments every output shows the duty last set for it, whatever frequencies were set. */
  lemma DutiesDoNotDrift(s: State, duties: seq<int>, es: seq<Event>, i: nat)
    requires Holds(s, duties) && AllAllowed(es, |duties|) && i < |duties|
    ensures Shown(Run(s, es), i) == WantedAfter(duties, es)[i]
  {
    RunHolds(s, duties, es);
    HoldsShows(Run(s, es), WantedAfter(duties, es), i);
  }

  ghost predicate KeepsDuties(x: Divider, s: State, duties: seq<int>) {
    Holds(s, duties) && x.cycle > 0 ==>
      var o := Retune(s, x, 0, true);
      o.Done? && forall i :: 0 <= i < |duties| ==> Shown(o.state, i) == duties[i]
  }

  /** A frequency keeps the duties of every group exactly if its cycle has 1000 to 65535 timer cycles. */
  lemma FrequencyKeepsExactly(freq: real)
    requires Accepted(freq)
    ensures (forall s, duties :: KeepsDuties(Divide(freq).value, s, duties)) <==> Fine(Divide(freq).value.cycle)
  {
    DividerBounds(freq);
    DividerKeepsExactly(Divide(freq).value);
  }

  lemma DividerKeepsExactly(x: Divider)
    requires x.cycle > 0
    ensures (forall s, duties :: KeepsDuties(x, s, duties)) <==> Fine(x.cycle)
  {
    DutyIsKeptExactly(x.cycle);
    if Fine(x.cycle) {
      forall s, duties
        ensures KeepsDuties(x, s, duties)
      {
        if Holds(s, duties) {
          FineKeeps(x, s, duties);
        }
      }
    } else {
      var t :| 0 <= t <= 1000 && !Keeps(x.cycle, t);
      DutyIsLost(x, t);
    }
  }

  lemma FineKeeps(x: Divider, s: State, duties: seq<int>)
    requires Fine(x.cycle) && Holds(s, duties)
    ensures KeepsDuties(x, s, duties)
  {
    RetuneHolds(s, duties, x, 0, true);
    forall i | 0 <= i < |duties|
      ensures Shown(Retune(s, x, 0, true).state, i) == duties[i]
    {
      HoldsShows(Retune(s, x, 0, true).state, duties, i);
    }
  }

  lemma DutyIsLost(x: Divider, t: int)
    requires 0 <= t <= 1000 && x.cycle > 0 && !Keeps(x.cycle, t)
    ensures !KeepsDuties(x, State(Divider(1000, 1), [DutyRaw(1000, t)]), [t])
  {
    var s := State(Divider(1000, 1), [DutyRaw(1000, t)]);
    HoldsShows(s, [t], 0);
    ZeroIsKept(x.cycle);
    assert Retuned(s, x.cycle, 0, true, 0) == DutyRaw(x.cycle, t);
    assert Retune(s, x, 0, true).Done? ==> Retune(s, x, 0, true).state.raws[0] == DutyRaw(x.cycle, t);
  }

  lemma ZeroIsKept(cycle: int)
    requires cycle > 0
    ensures Keeps(cycle, 0)
  {
    ZeroIsZero(cycle);
    DutyIs(cycle, 0, 0.0, cycle as real, 0.0);
    NearIsRound(0.0, 0);
  }

  /** A raw duty of an output, also one not set by 0.1 %, is kept over all such frequencies exactly if it does not
      show as 0, or is 0: a frequency change skips the outputs which show no duty. */
  lemma ShownIsKeptExactly(cycle: int, raw: int)
    requires Fine(cycle) && 0 <= raw <= cycle
    ensures
      (forall c :: Fine(c) ==>
         Duty(c, Retuned(State(Divider(cycle, 1), [raw]), c, 0, true, 0)) == Duty(cycle, raw)) <==>
      Duty(cycle, raw) != 0 || raw == 0
  {
    var s, t := State(Divider(cycle, 1), [raw]), Duty(cycle, raw);
    ShownRange(cycle, raw);
    forall c | Fine(c)
      ensures t != 0 ==> Duty(c, Retuned(s, c, 0, true, 0)) == t
      ensures raw == 0 ==> Duty(c, Retuned(s, c, 0, true, 0)) == t
    {
      DutyIsKept(c, t);
    }
    if t == 0 && raw != 0 {
      NearIsRound(raw as real, raw);
      assert Fine(1000) && Duty(1000, Retuned(s, 1000, 0, true, 0)) == raw;
    }
  }

  lemma ShownRange(cycle: int, raw: int)
    requires cycle > 0 && 0 <= raw <= cycle
    ensures 0 <= Duty(cycle, raw) <= 1000
  {
    var c, a := cycle as real, raw as real * 1000.0;
    var q := a / c;
    QuotientTimes(a, c, q);
    UpToThousandTimes(q, c, a);
    RoundIsMonotone(0.0, q);
    RoundIsMonotone(q, 1000.0);
    DutyIs(cycle, raw, a, c, q);
  }

  lemma UpToThousandTimes(q: real, c: real, a: real)
    requires c > 0.0 && q * c == a && 0.0 <= a <= 1000.0 * c
    ensures 0.0 <= q <= 1000.0
  {
    var less, more := 0.0 - q, q - 1000.0;
    assert less * c == 0.0 - q * c && more * c == q * c - 1000.0 * c;
    SignOfProduct(less, c);
    SignOfProduct(more, c);
  }

  /** A duty of 0.04 % shows as 0, and as 2.6 % after the frequency is set to 48 kHz. */
  lemma SmallDutyDrifts()
    ensures
      var s := SetOutput(State(Divider(65535, 1), [0]), 0, NewDuty(0.04), 0).state;
      s == State(Divider(65535, 1), [26]) && Shown(s, 0) == 0 && Divide(48000.0) == Some(Divider(1000, 1)) &&
      Retune(s, Divider(1000, 1), 0, true) == Done(State(Divider(1000, 1), [26])) && Duty(1000, 26) == 26
  {
    NearIsRound(26.214, 26);
    assert PercentRaw(65535, 0.04) == 26;
    DutyIs(65535, 26, 26000.0, 65535.0, 26000.0 / 65535.0);
    NearIsRound(26000.0 / 65535.0, 0);
    ThousandIsKept(26);
    DividerOf48kHz();
  }

  lemma DividerOf48kHz()
    ensures Divide(48000.0) == Some(Divider(1000, 1))
  {
    assert BASE_FREQ / 48000.0 == 1000.0;
    NearIsRound(1000.0, 1000);
  }

  // ---- the requests of _write() ----

  datatype Register = Register(index: int, value: int)

  /** A request writes the values to adjacent registers. */
  datatype Request = Request(index: int, values: seq<int>)

  function Written(q: Request): (r: seq<Register>)
    ensures |r| == |q.values| && forall k :: 0 <= k < |r| ==> r[k] == Register(q.index + k, q.values[k])
  {
    seq(|q.values|, k requires 0 <= k < |q.values| => Register(q.index + k, q.values[k]))
  }

  function AllWritten(requests: seq<Request>): seq<Register> {
    if requests == [] then [] else AllWritten(requests[..|requests| - 1]) + Written(requests[|requests| - 1])
  }

  function End(q: Request): int {
    q.index + |q.values|
  }

  lemma AppendRequest(requests: seq<Request>, q: Request)
    ensures AllWritten(requests + [q]) == AllWritten(requests) + Written(q)
  {
    assert (requests + [q])[..|requests|] == requests;
  }

  lemma ExtendRequest(requests: seq<Request>, value: int)
    requires requests != []
    ensures
      var n := |requests| - 1;
      var longer := requests[n].(values := requests[n].values + [value]);
      AllWritten(requests[n := longer]) == AllWritten(requests) + [Register(End(requests[n]), value)]
  {
    var n := |requests| - 1;
    var longer := requests[n].(values := requests[n].values + [value]);
    assert requests[n := longer] == requests[..n] + [longer] && requests == requests[..n] + [requests[n]];
    AppendRequest(requests[..n], longer);
    AppendRequest(requests[..n], requests[n]);
    assert Written(longer) == Written(requests[n]) + [Register(End(requests[n]), value)];
  }

  /** The adjacent registers are written by one request. */
  method Requests(registers: seq<Register>) returns (runs: seq<Request>)
    ensures AllWritten(runs) == registers
    ensures forall k :: 0 <= k < |runs| ==> runs[k].values != []
    ensures forall k :: 0 <= k < |runs| - 1 ==> End(runs[k]) != runs[k + 1].index
  {
    runs := [];
    for i := 0 to |registers|
      invariant AllWritten(runs) == registers[..i]
      invariant forall k :: 0 <= k < |runs| ==> runs[k].values != []
      invariant forall k :: 0 <= k < |runs| - 1 ==> End(runs[k]) != runs[k + 1].index
    {
      var index, value := registers[i].index, registers[i].value;
      var n := |runs| - 1;
      assert registers[..i + 1] == registers[..i] + [Register(index, value)];
      if runs != [] && End(runs[n]) == index {
        ExtendRequest(runs, value);
        runs := runs[n := runs[n].(values := runs[n].values + [value])];
      } else {
        AppendRequest(runs, Request(index, [value]));
        assert Written(Request(index, [value])) == [Register(index, value)];
        runs := runs + [Request(index, [value])];
      }
    }
    assert registers[..|registers|] == registers;
  }

  predicate Ascending(registers: seq<Register>) {
    forall i, j :: 0 <= i < j < |registers| ==> registers[i].index < registers[j].index
  }

  /** The items of a dictionary: no index twice. */
  predicate Distinct(registers: seq<Register>) {
    forall i, j :: 0 <= i < j < |registers| ==> registers[i].index != registers[j].index
  }

  function Insert(registers: seq<Register>, x: Register): seq<Register> {
    if registers == [] || x.index < registers[0].index then [x] + registers
    else [registers[0]] + Insert(registers[1..], x)
  }

  lemma {:induction false} InsertAdds(registers: seq<Register>, x: Register)
    ensures multiset(Insert(registers, x)) == multiset(registers) + multiset{x}
  {
    if registers != [] && x.index >= registers[0].index {
      InsertAdds(registers[1..], x);
      assert registers == [registers[0]] + registers[1..];
    }
  }

  lemma FirstIsLeast(first: Register, rest: seq<Register>)
    requires Ascending(rest) && forall y :: y in rest ==> first.index < y.index
    ensures Ascending([first] + rest)
  {
  }

  lemma {:induction false} InsertAscends(registers: seq<Register>, x: Register)
    requires Ascending(registers) && forall y :: y in registers ==> y.index != x.index
    ensures Ascending(Insert(registers, x))
  {
    if registers != [] && x.index > registers[0].index {
      InsertAscends(registers[1..], x);
      InsertAdds(registers[1..], x);
      forall y | y in Insert(registers[1..], x)
        ensures registers[0].index < y.index
      {
        assert y in multiset(registers[1..]) + multiset{x};
      }
      FirstIsLeast(registers[0], Insert(registers[1..], x));
    }
  }

  /** sorted() of the registers by their indices. */
  method Sorted(items: seq<Register>) returns (registers: seq<Register>)
    requires Distinct(items)
    ensures Ascending(registers) && multiset(registers) == multiset(items)
  {
    registers := [];
    for i := 0 to |items|
      invariant Ascending(registers) && multiset(registers) == multiset(items[..i])
    {
      forall y | y in registers
        ensures y.index != items[i].index
      {
        assert y in multiset(items[..i]);
      }
      InsertAscends(registers, items[i]);
      InsertAdds(registers, items[i]);
      assert items[..i + 1] == items[..i] + [items[i]];
      registers := Insert(registers, items[i]);
    }
    assert items[..|items|] == items;
  }

  /** _write(): the requests write exactly the registers, in the order of their indices, and none could be joined to the
      next one. */
  method Write(items: seq<Register>) returns (requests: seq<Request>)
    requires Distinct(items)
    ensures Ascending(AllWritten(requests)) && multiset(AllWritten(requests)) == multiset(items)
    ensures forall k :: 0 <= k < |requests| ==> requests[k].values != []
    ensures forall k :: 0 <= k < |requests| - 1 ==> End(requests[k]) != requests[k + 1].index
  {
    var registers := Sorted(items);
    requests := Requests(registers);
  }

  // ---- the outputs of a group ----

  lemma UnfitIsFirst(s: State, raws: seq<int>, cycle: int, output: nat, keep: bool, n: nat)
    requires Usable(s) && n < |raws| == |s.raws| && AllFit(raws) && !FitsRegister(Retuned(s, cycle, output, keep, n))
    requires forall i :: 0 <= i < |raws| ==> raws[i] == if i < n then Retuned(s, cycle, output, keep, i) else s.raws[i]
    ensures FirstUnfit(s, cycle, output, keep, 0) == n && raws == RetunedUpTo(s, cycle, output, keep, n)
  {
    assert forall i :: 0 <= i < n ==> FitsRegister(raws[i]);
  }

  lemma NoneIsUnfit(s: State, raws: seq<int>, cycle: int, output: nat, keep: bool)
    requires Usable(s) && |raws| == |s.raws| && AllFit(raws)
    requires forall i :: 0 <= i < |raws| ==> raws[i] == Retuned(s, cycle, output, keep, i)
    ensures FirstUnfit(s, cycle, output, keep, 0) == |raws| && raws == RetunedUpTo(s, cycle, output, keep, |raws|)
  {
    assert forall i :: 0 <= i < |raws| ==> FitsRegister(raws[i]);
  }

  class OutputGroup {
    var divider: Divider
    const registers: array<int>  // the duty registers of the unit
    const duty: array<int>       // pwm_duty of the outputs by the last check, in tenths of a percent
    const dutyVal: array<int>    // pwm_duty_val, the raw duty

    ghost predicate Valid()
      reads this, registers
    {
      && registers.Length == duty.Length == dutyVal.Length
      && registers != duty && registers != dutyVal && duty != dutyVal
      && divider.cycle > 0 && AllFit(registers[..])
    }

    ghost function View(): (s: State)
      requires Valid()
      reads this, registers
      ensures Usable(s)
    {
      State(divider, registers[..])
    }

    /** The outputs show the registers of the unit. */
    ghost predicate Checked()
      requires Valid()
      reads this, registers, duty, dutyVal
    {
      forall i :: 0 <= i < registers.Length ==>
        dutyVal[i] == registers[i] && duty[i] == Duty(divider.cycle, registers[i])
    }

    constructor (divider: Divider, raws: seq<int>)
      requires divider.cycle > 0 && AllFit(raws)
      ensures Valid() && View() == State(divider, raws)
    {
      this.divider := divider;
      registers := new int[|raws|](i requires 0 <= i < |raws| => raws[i]);
      duty := new int[|raws|](_ => 0);
      dutyVal := new int[|raws|](_ => 0);
      new;
      assert registers[..] == raws;
    }

    /** check_new_data() of all outputs. */
    method CheckNewData()
      requires Valid()
      modifies duty, dutyVal
      ensures Valid() && View() == old(View()) && Checked()
    {
      for i := 0 to registers.Length
        invariant forall k :: 0 <= k < i ==> dutyVal[k] == registers[k] && duty[k] == Duty(divider.cycle, registers[k])
      {
        dutyVal[i] := registers[i];
        duty[i] := Duty(divider.cycle, registers[i]);
      }
    }

    /** The duties of the outputs for the new cycle, up to the first one which does not fit its register. */
    method RetuneOutputs(output: nat, keep: bool, ghost s: State) returns (ok: bool)
      requires Valid() && Usable(s) && registers[..] == s.raws
      requires forall i :: 0 <= i < registers.Length ==> dutyVal[i] == s.raws[i] && duty[i] == Shown(s, i)
      modifies registers, dutyVal
      ensures Valid()
      ensures ok == Retune(s, divider, output, keep).Done?
      ensures View() == Retune(s, divider, output, keep).state
    {
      for i := 0 to registers.Length
        invariant AllFit(registers[..])
        invariant forall k :: 0 <= k < i ==> registers[k] == Retuned(s, divider.cycle, output, keep, k)
        invariant forall k :: i <= k < registers.Length ==> registers[k] == s.raws[k] && dutyVal[k] == s.raws[k]
      {
        if (i == output && !keep) || duty[i] == 0 {
          continue;
        }
        var raw := DutyRaw(divider.cycle, duty[i]);
        assert raw == Retuned(s, divider.cycle, output, keep, i);
        if raw != dutyVal[i] {
          if raw < 0 || raw > 65535 {
            UnfitIsFirst(s, registers[..], divider.cycle, output, keep, i);
            return false;
          }
          registers[i] := raw;
          dutyVal[i] := raw;
        }
      }
      NoneIsUnfit(s, registers[..], divider.cycle, output, keep);
      ok := true;
    }

    method SetPwmFreq(freq: real, output: nat, keep: bool) returns (ok: bool)
      requires Valid() && Checked()
      modifies this`divider, registers, dutyVal
      ensures Valid()
      ensures ok == SetFreq(old(View()), freq, output, keep).Done?
      ensures View() == StateAfter(old(View()), SetFreq(old(View()), freq, output, keep))
    {
      ghost var s := View();
      if !Accepted(freq) {
        return false;
      }
      DividerBounds(freq);
      divider := Divide(freq).value;
      ok := RetuneOutputs(output, keep, s);
    }

    method SetRegister(output: nat, raw: int) returns (ok: bool)
      requires Valid() && output < registers.Length
      modifies registers
      ensures Valid() && ok == FitsRegister(raw)
      ensures View() == if ok then old(View()).(raws := old(View()).raws[output := raw]) else old(View())
    {
      ok := 0 <= raw <= 65535;
      if ok {
        registers[output] := raw;
      }
    }

    /** set() of an output with its PWM. */
    method SetDuty(freq: Option<real>, output: nat, what: What) returns (ok: bool)
      requires Valid() && Checked() && output < registers.Length
      modifies this`divider, registers, dutyVal
      ensures Valid()
      ensures ok == Assign(old(View()), freq, output, what).Done?
      ensures View() == StateAfter(old(View()), Assign(old(View()), freq, output, what))
    {
      if what.NewDuty? && !(0.0 <= what.percent <= 100.0) {
        return false;
      }
      ok := true;
      if freq.Some? {
        ok := SetPwmFreq(freq.value, output, what == KeepDuty);
      }
      if !ok {
        return;
      }
      match what
      case KeepDuty =>
      case BinaryValue =>
        if duty[output] != 0 {
          ok := SetRegister(output, 0);
        }
      case NewDuty(d) =>
        ok := SetRegister(output, PercentRaw(divider.cycle, d));
    }
  }
}
