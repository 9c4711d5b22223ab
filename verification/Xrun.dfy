/** Accounting of lost audio: turning counter readings of several kinds into event counts. */
module Xrun {
  import opened Prelude

  const MODULUS_32: nat := 0x1_0000_0000

  datatype Unit = Events | Frames | Bytes

  datatype Update = Delta | Snapshot | Wrapping(modulus: nat) | ResettingTotal

  /** One reading. `counter` tells native sources within a unit apart. */
  datatype Observation = Observation(counter: nat, value: u64, unit: Unit, update: Update)

  datatype Baseline = Baseline(counter: nat, value: u64, modulus: Option<nat>)

  datatype XrunDelta = XrunDelta(events: u32, lostFrames: Option<u64>, lostBytes: Option<u64>)

  /** The last cumulative reading per unit. */
  type Memory = s: seq<Option<Baseline>> | |s| == 3 witness [None, None, None]

  const FORGOTTEN: Memory := [None, None, None]

  function Index(u: Unit): (i: nat)
    ensures i < 3
  {
    match u
    case Events => 0
    case Frames => 1
    case Bytes => 2
  }

  function Mod(x: u64, m: nat): (r: u64)
    requires m > 0
    ensures r < m
  {
    ModShrinks(x, m);
    x % m
  }

  lemma ModShrinks(x: nat, m: nat)
    requires m > 0
    ensures x % m <= x
  {
    if x < m {
      assert x % m == x;
    }
  }

  /** What a cumulative counter gained since its baseline. */
  function CumulativeDelta(current: u64, previous: Option<Baseline>): u64 {
    match previous
    case None => current
    case Some(p) =>
      if p.modulus.Some? && p.modulus.value > 0 then
        var c, v := Mod(current, p.modulus.value), Mod(p.value, p.modulus.value);
        if c >= v then c - v else WrappedDelta(c, v, p.modulus.value, current)
      else if current >= p.value then current - p.value
      else current
  }

  /** Past the wrap; a modulus beyond 64 bits cannot occur in the code's own type. */
  function WrappedDelta(c: u64, v: u64, modulus: nat, current: u64): u64
    requires c < v < modulus
  {
    Min(modulus - v + c, U64_MAX)
  }

  function Matching(m: Memory, o: Observation): Option<Baseline> {
    var p := m[Index(o.unit)];
    if p.Some? && p.value.counter == o.counter then p else None
  }

  /** The gain a reading reports, and the memory after it. */
  function Gain(m: Memory, o: Observation): u64 {
    var p := Matching(m, o);
    match o.update
    case Delta => o.value
    case ResettingTotal => CumulativeDelta(o.value, p)
    case Snapshot => CumulativeDelta(o.value, p)
    case Wrapping(modulus) =>
      CumulativeDelta(o.value, if p.Some? then Some(p.value.(modulus := Some(modulus))) else None)
  }

  function Remember(m: Memory, o: Observation): Memory {
    var i := Index(o.unit);
    match o.update
    case Delta => m
    case ResettingTotal => m[i := None]
    case Snapshot => m[i := Some(Baseline(o.counter, o.value, None))]
    case Wrapping(modulus) => m[i := Some(Baseline(o.counter, o.value, Some(modulus)))]
  }

  function Report(unit: Unit, gain: u64): XrunDelta {
    match unit
    case Events => XrunDelta(Min(gain, U32_MAX), None, None)
    case Frames => XrunDelta(if gain != 0 then 1 else 0, Some(gain), None)
    case Bytes => XrunDelta(if gain != 0 then 1 else 0, None, Some(gain))
  }

  /** The modulus a reading is compared under, if any. */
  function Modulus(m: Memory, o: Observation): nat {
    match o.update
    case Wrapping(modulus) => modulus
    case _ =>
      var p := m[Index(o.unit)];
      if p.Some? && p.value.modulus.Some? then p.value.modulus.value else 0
  }

  /** A delta, and a first reading of a counter, count as they stand. Later readings count what came since
      the baseline: under a modulus the one number below it that leads from the baseline to the reading,
      without one the difference, or the whole reading if the counter restarted. */
  lemma GainIsSinceTheBaseline(m: Memory, o: Observation)
    requires Modulus(m, o) <= U64_MAX
    ensures var p, n, gain := m[Index(o.unit)], Modulus(m, o), Gain(m, o);
            if o.update.Delta? || p.None? || p.value.counter != o.counter then gain == o.value
            else if n > 0 then gain < n && (p.value.value + gain) % n == o.value % n
            else gain == o.value - (if o.value >= p.value.value then p.value.value else 0)
  {
    var p, n := m[Index(o.unit)], Modulus(m, o);
    if p.Some? && n > 0 {
      StepsToReading(p.value.value, o.value, n);
    }
  }

  lemma StepsToReading(from: u64, to: u64, n: nat)
    requires n > 0
    ensures var v, c := from % n, to % n;
            var gain := if c >= v then c - v else n - v + c;
            gain < n && (from + gain) % n == c
  {
    var q, v, c := from / n, from % n, to % n;
    var gain := if c >= v then c - v else n - v + c;
    assert from + gain == if c >= v then q * n + c else (q + 1) * n + c;
    Remainder(from + gain, n, if c >= v then q else q + 1, c);
  }

  lemma Remainder(x: nat, n: nat, q: nat, c: nat)
    requires c < n && x == q * n + c
    ensures x % n == c
  {
    var d := x / n - q;
    assert x == (x / n) * n + x % n;
    assert d * n == c - x % n;
    Apart(d, n);
  }

  lemma Apart(d: int, n: nat)
    ensures d >= 1 ==> d * n >= n
    ensures d <= -1 ==> d * n + n <= 0
  {}

  class XrunTracker {
    var previous: Memory

    constructor ()
      ensures previous == FORGOTTEN
    {
      previous := FORGOTTEN;
    }

    method Observe(o: Observation) returns (d: XrunDelta)
      modifies this
      ensures d == Report(o.unit, Gain(old(previous), o)) && previous == Remember(old(previous), o)
      ensures match o.unit
              case Events => d == XrunDelta(Min(Gain(old(previous), o), U32_MAX), None, None)
              case Frames => d.lostFrames == Some(Gain(old(previous), o)) && d.lostBytes == None
              case Bytes => d.lostBytes == Some(Gain(old(previous), o)) && d.lostFrames == None
      ensures o.unit != Events ==> d.events == if Gain(old(previous), o) == 0 then 0 else 1
      ensures var now := previous[Index(o.unit)];
              match o.update
              case Delta => previous == old(previous)
              case ResettingTotal => now == None
              case Snapshot => now == Some(Baseline(o.counter, o.value, None))
              case Wrapping(modulus) => now == Some(Baseline(o.counter, o.value, Some(modulus)))
      ensures forall u :: u != o.unit ==> previous[Index(u)] == old(previous)[Index(u)]
      ensures var p := old(previous)[Index(o.unit)];
              p.None? || p.value.counter != o.counter ==> d == Report(o.unit, o.value)
    {
      var i := Index(o.unit);
      var p := Matching(previous, o);
      var gain: u64;
      match o.update {
        case Delta =>
          gain := o.value;
        case ResettingTotal =>
          gain := CumulativeDelta(o.value, p);
          previous := previous[i := None];
        case Snapshot =>
          gain := CumulativeDelta(o.value, p);
          previous := previous[i := Some(Baseline(o.counter, o.value, None))];
        case Wrapping(modulus) =>
          var prior := if p.Some? then Some(p.value.(modulus := Some(modulus))) else None;
          gain := CumulativeDelta(o.value, prior);
          previous := previous[i := Some(Baseline(o.counter, o.value, Some(modulus)))];
      }
      d := Report(o.unit, gain);
    }

    method Reset()
      modifies this
      ensures previous == FORGOTTEN
    {
      previous := FORGOTTEN;
    }
  }

  // ---------------------------------------------------------------- one 32-bit native counter

  /** What happens to a stream: `gained` events occur, then its counter is read by a wake or by a
      poll that clears it, or some other unit is observed, or the stream starts a new epoch. */
  datatype Step =
    | WakeRead(gained: nat)
    | Poll(gained: nat)
    | Other(gained: nat, reading: Observation)
    | NewEpoch

  datatype Stream = Stream(memory: Memory, native: nat, unread: nat)

  function Gained(s: Step): nat { if s.NewEpoch? then 0 else s.gained }

  /** The kernel's counter after the step's events. */
  function Counted(s: Stream, step: Step): u32 { (s.native + Gained(step)) % MODULUS_32 }

  function Reading(s: Stream, step: Step): Observation {
    match step
    case WakeRead(_) => Observation(0, Counted(s, step), Events, Wrapping(MODULUS_32))
    case Poll(_) => Observation(0, Counted(s, step), Events, ResettingTotal)
    case Other(_, reading) => reading
    case NewEpoch => Observation(0, 0, Events, Delta)
  }

  function Next(s: Stream, step: Step): Stream {
    match step
    case WakeRead(_) => Stream(Remember(s.memory, Reading(s, step)), Counted(s, step), 0)
    case Poll(_) => Stream(Remember(s.memory, Reading(s, step)), 0, 0)
    case Other(_, reading) => Stream(Remember(s.memory, reading), Counted(s, step), s.unread + step.gained)
    case NewEpoch => Stream(FORGOTTEN, 0, 0)
  }

  /** Events reported over a run. */
  function Reported(s: Stream, steps: seq<Step>): nat
    decreases steps
  {
    if steps == [] then 0
    else
      (if steps[0].WakeRead? || steps[0].Poll? then Report(Events, Gain(s.memory, Reading(s, steps[0]))).events
       else 0)
      + Reported(Next(s, steps[0]), steps[1..])
  }

  /** Events that happened and whose counter was read before the epoch ended. */
  function Happened(s: Stream, steps: seq<Step>): nat
    decreases steps
  {
    if steps == [] then 0
    else
      (if steps[0].WakeRead? || steps[0].Poll? then s.unread + steps[0].gained else 0)
      + Happened(Next(s, steps[0]), steps[1..])
  }

  /** Fewer than 2^32 events pass unread, and other readings concern other units. */
  predicate Watched(s: Stream, steps: seq<Step>)
    decreases steps
  {
    steps == [] ||
    (&& s.unread + Gained(steps[0]) < MODULUS_32
     && (steps[0].Other? ==> steps[0].reading.unit != Events)
     && Watched(Next(s, steps[0]), steps[1..]))
  }

  /** The remembered reading is what the counter was when it was last read. */
  predicate InStep(s: Stream) {
    var base := if s.memory[0].Some? then s.memory[0].value.value else 0;
    && (s.memory[0].Some? ==> s.memory[0].value.counter == 0 && s.memory[0].value.modulus == Some(MODULUS_32))
    && base < MODULUS_32 && s.native == (base + s.unread) % MODULUS_32
  }

  lemma WrapOnce(a: nat, e: nat)
    requires a < MODULUS_32 && e < MODULUS_32
    ensures var c := (a + e) % MODULUS_32; e == if c >= a then c - a else MODULUS_32 - a + c
  {}

  lemma AddUnread(base: nat, unread: nat, gained: nat)
    ensures ((base + unread) % MODULUS_32 + gained) % MODULUS_32 == (base + (unread + gained)) % MODULUS_32
  {}

  lemma StepInStep(s: Stream, step: Step)
    requires InStep(s) && (step.Other? ==> step.reading.unit != Events)
    ensures InStep(Next(s, step))
  {
    var base := if s.memory[0].Some? then s.memory[0].value.value else 0;
    AddUnread(base, s.unread, Gained(step));
  }

  /** A reading reports exactly the events since the last one, as long as there are fewer than 2^32,
      across wraps and clears; beyond that it reports them modulo 2^32. */
  lemma ReadingIsExactIff(s: Stream, step: Step)
    requires InStep(s) && (step.WakeRead? || step.Poll?)
    ensures var events := Report(Events, Gain(s.memory, Reading(s, step))).events;
            && events == (s.unread + step.gained) % MODULUS_32
            && (events == s.unread + step.gained <==> s.unread + step.gained < MODULUS_32)
  {
    ReadingGain(s, step);
    CountedGain(s, step);
    SmallMod(s.unread + step.gained);
  }

  lemma CountedGain(s: Stream, step: Step)
    requires InStep(s) && (step.WakeRead? || step.Poll?)
    ensures var base := if s.memory[0].Some? then s.memory[0].value.value else 0;
            var c := Counted(s, step);
            (if c >= base then c - base else MODULUS_32 - base + c) == (s.unread + step.gained) % MODULUS_32
  {
    var base := if s.memory[0].Some? then s.memory[0].value.value else 0;
    AddUnread(base, s.unread, step.gained);
    ModGain(base, s.unread + step.gained);
  }

  lemma SmallMod(e: nat)
    ensures e % MODULUS_32 == e <==> e < MODULUS_32
  {}

  lemma ReadingGain(s: Stream, step: Step)
    requires InStep(s) && (step.WakeRead? || step.Poll?)
    ensures var base := if s.memory[0].Some? then s.memory[0].value.value else 0;
            var c := Counted(s, step);
            Report(Events, Gain(s.memory, Reading(s, step))).events
            == if c >= base then c - base else MODULUS_32 - base + c
  {
    assert Matching(s.memory, Reading(s, step)) == s.memory[0];
    ReadAgainst(Counted(s, step), s.memory[0]);
  }

  lemma ModGain(base: nat, e: nat)
    requires base < MODULUS_32
    ensures var c := (base + e) % MODULUS_32;
            e % MODULUS_32 == if c >= base then c - base else MODULUS_32 - base + c
  {
    assert (base + e) % MODULUS_32 == (base + e % MODULUS_32) % MODULUS_32;
    WrapOnce(base, e % MODULUS_32);
  }

  lemma ReadAgainst(c: u32, p: Option<Baseline>)
    requires p.Some? ==> p.value.value < MODULUS_32 && p.value.modulus == Some(MODULUS_32)
    ensures CumulativeDelta(c, p) ==
              if p.None? then c else if c >= p.value.value then c - p.value.value
              else MODULUS_32 - p.value.value + c
  {}

  /** Nothing is lost and nothing is counted twice, however wakes, polls, readings of other units and
      new epochs interleave. */
  lemma {:induction false} EventsAreConserved(s: Stream, steps: seq<Step>)
    requires InStep(s) && Watched(s, steps)
    ensures Reported(s, steps) == Happened(s, steps)
    decreases steps
  {
    if steps != [] {
      var step := steps[0];
      StepInStep(s, step);
      if step.WakeRead? || step.Poll? {
        ReadingIsExactIff(s, step);
      }
      EventsAreConserved(Next(s, step), steps[1..]);
    }
  }

  /** A non-wrapping counter that was cleared unobserved: of the `lost` events before the clear and the
      `since` after it a snapshot never reports too many, and all of them exactly when nothing was lost
      and the clear shows, or there was nothing to clear. */
  lemma SnapshotAcrossClear(m: Memory, counter: nat, lost: nat, since: u64, unit: Unit)
    requires var p := m[Index(unit)];
             p.Some? && p.value.counter == counter && p.value.modulus == None
    ensures var base := m[Index(unit)].value.value;
            var gain := Gain(m, Observation(counter, since, unit, Snapshot));
            && gain <= lost + since
            && (gain == lost + since <==> lost == 0 && (since < base || base == 0))
  {}
}
