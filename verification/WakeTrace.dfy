/** The driver's wake state as a value: when its one-shot timer is armed, which wakes start a graph
    cycle, and how the deadline advances. Times are nanoseconds. */
module WakeTrace {
  import opened Prelude

  const SECOND: nat := 1_000_000_000
  const RETRY: nat := SECOND / 100

  /** A clock correction; the servo answers within [0.5, 2]. */
  type Corr = x: real | 0.5 <= x <= 2.0 witness 1.0

  datatype Timer = Parked | At(deadline: nat) | In(delay: nat)

  /** The host's position area; zero fields are malformed. */
  datatype Position = Position(driver: nat, duration: nat, rate: nat)

  datatype Node = Node(
    started: bool,
    following: bool,
    position: Option<Position>,
    clock: Option<nat>,
    nextTime: nat,
    timer: Timer,
    deviceArmed: bool
  )

  /** Another node's clock drives the graph. */
  predicate IsFollower(n: Node) {
    n.position.Some? && n.clock.Some? && n.position.value.driver != n.clock.value
  }

  predicate Driving(n: Node) { n.started && !n.following && n.position.Some? && n.clock.Some? }

  function Duration(n: Node): nat { if n.position.Some? then n.position.value.duration else 0 }

  function Rate(n: Node): nat { if n.position.Some? then n.position.value.rate else 0 }

  function SetTimeout(t: nat): Timer { if t == 0 then Parked else At(t) }

  /** An eighth of a graph period. */
  function Grace(duration: nat, rate: nat): nat {
    if duration == 0 || rate == 0 then 0 else Min(Max(duration * SECOND / rate / 8, 1), U64_MAX)
  }

  function WatchdogDeadline(deadline: nat, deviceArmed: bool, duration: nat, rate: nat): nat {
    if deadline == 0 || !deviceArmed then deadline
    else Min(deadline + Grace(duration, rate), U64_MAX)
  }

  /** A wake more than a grace early belongs to the cycle that already ran. */
  predicate FromPreviousCycle(now: nat, deadline: nat, duration: nat, rate: nat) {
    deadline != 0 && duration != 0 && rate != 0 && Min(now + Grace(duration, rate), U64_MAX) < deadline
  }

  function Period(duration: nat, rate: nat, corr: Corr): nat
    requires rate > 0
  {
    PositiveQuotient(duration as real * SECOND as real, rate as real * corr);
    ((duration as real * SECOND as real) / (rate as real * corr)).Floor
  }

  /** `p` is the nominal period divided by the correction, cut to whole nanoseconds. */
  predicate Corrected(p: int, duration: nat, rate: nat, corr: Corr) {
    var slowed := rate as real * corr;
    p >= 0 && p as real * slowed <= duration as real * 1_000_000_000.0 < (p as real + 1.0) * slowed
  }

  lemma PeriodIsCorrected(duration: nat, rate: nat, corr: Corr)
    requires rate > 0
    ensures Corrected(Period(duration, rate, corr), duration, rate, corr)
  {
    FloorOfQuotient(duration as real * SECOND as real, rate as real * corr);
  }

  lemma FloorOfQuotient(a: real, b: real)
    requires a >= 0.0 && b > 0.0
    ensures var q := (a / b).Floor as real; q * b <= a < (q + 1.0) * b
  {
    assert a / b * b == a;
    FloorAt(a / b);
    Between(a / b, (a / b).Floor as real, a, b);
  }

  lemma FloorAt(x: real)
    ensures x.Floor as real <= x < x.Floor as real + 1.0
  {}

  lemma Between(x: real, q: real, a: real, b: real)
    requires x * b == a && q <= x < q + 1.0 && b > 0.0
    ensures q * b <= a < (q + 1.0) * b
  {
    var y := q + 1.0;
    OrderKept(q, x, b);
    OrderKept(x, y, b);
    assert x < y;
    assert a < y * b;
  }

  lemma OrderKept(x: real, y: real, b: real)
    requires b > 0.0 && x <= y
    ensures x * b <= y * b && (x < y ==> x * b < y * b)
  {
    if x < y {
      assert (y - x) * b > 0.0;
    }
  }

  lemma PositiveQuotient(a: real, b: real)
    requires a >= 0.0 && b > 0.0
    ensures a / b >= 0.0
  {}

  function Advance(deadline: nat, duration: nat, rate: nat, corr: Corr): nat
    requires rate > 0
  {
    Min(deadline + Period(duration, rate, corr), U64_MAX)
  }

  // ---------------------------------------------------------------- transitions

  /** Device and deadline armed together. `device` says whether a running stream's registration
      succeeds. */
  function Select(n: Node, device: bool): Node {
    var armed := device && Driving(n);
    var deadline := if Driving(n) then n.nextTime else 0;
    n.(deviceArmed := armed, timer := SetTimeout(WatchdogDeadline(deadline, armed, Duration(n), Rate(n))))
  }

  /** After a start, stop, role or io change: fire at once from a fresh anchor, or park. */
  function Update(n: Node, now: Option<nat>, device: bool): Node {
    var m := n.(deviceArmed := device && Driving(n));
    if !(n.started && !n.following && n.position.Some?) then m.(timer := Parked)
    else
      match now
      case Some(t) => m.(nextTime := t, timer := SetTimeout(t))
      case None => m.(timer := In(RETRY))
  }

  datatype Io = ClockIo(clock: Option<nat>) | PositionIo(position: Option<Position>)

  function SetIo(n: Node, io: Io, now: Option<nat>, device: bool): Node {
    var wasArmed := n.clock.Some? && n.position.Some?;
    var m := match io
      case ClockIo(c) => n.(clock := c)
      case PositionIo(p) => n.(position := p);
    if !m.started then m
    else
      var armed := m.clock.Some? && m.position.Some?;
      var flipped := m.following != IsFollower(m);
      var f := m.(following := IsFollower(m));
      if flipped || wasArmed != armed then Update(f, now, device) else f
  }

  function Start(n: Node, negotiated: bool, now: Option<nat>, device: bool): Node {
    if !negotiated then n
    else
      var m := n.(started := true);
      Update(m.(following := IsFollower(m)), now, device)
  }

  /** Pause and Suspend. */
  function Stop(n: Node, now: Option<nat>, device: bool): Node { Update(n.(started := false), now, device) }

  /** A device takes the port's place, or none does: an install, a release, or a rebuild that has
      finished. `invalidate` drops the old stream's registration first. */
  function Replace(n: Node, invalidate: bool, now: Option<nat>, device: bool): Node {
    var m := if invalidate then n.(deviceArmed := false) else n;
    if m.started then Update(m, now, device) else m
  }

  /** What process() finds in the rebuild mailbox. */
  datatype Completion = NoSwap | Swap(invalidate: bool, now: Option<nat>, device: bool)

  /** The host's process() call, which may take a finished rebuild over; inside ready() the wake
      itself selects afterwards. */
  function Process(n: Node, swap: Completion, inReady: bool, device: bool): Node {
    if !(n.started && n.position.Some?) then n
    else
      var m := if swap.Swap? then Replace(n, swap.invalidate, swap.now, swap.device) else n;
      if inReady then m else Select(m, device)
  }

  /** What drained from the wake descriptor. */
  datatype Wake = Nothing | Late | TimerWake | StreamWake(observed: Option<nat>)

  /** Wake reads that fail or find a stale stream do not consume the timer; a timer expiry does. */
  function Fired(n: Node, w: Wake): Node { if w == TimerWake then n.(timer := Parked) else n }

  /** The wake body up to ready(). `true` says a graph cycle starts; `corr` is what the servo
      answers for it. */
  function Cycle(n: Node, w: Wake, now: Option<nat>, device: bool, corr: Corr): (Node, bool)
  {
    if w == Nothing || w == Late || !n.started || n.following || n.position.None? || n.clock.None? then
      (Select(n, device), false)
    else if now.None? then (n.(deviceArmed := false, timer := In(RETRY)), false)
    else if FromPreviousCycle(now.value, n.nextTime, Duration(n), Rate(n)) then (Select(n, device), false)
    else
      var anchor := if SatSub(now.value, n.nextTime) > SECOND then now.value else n.nextTime;
      if Duration(n) == 0 || Rate(n) == 0 then
        var nsec := if w.StreamWake? && w.observed.Some? then w.observed.value else anchor;
        (n.(nextTime := nsec + RETRY, deviceArmed := false, timer := At(nsec + RETRY)), false)
      else (n.(nextTime := Advance(anchor, Duration(n), Rate(n), corr)), true)
  }

  /** What may happen to a node; everything between and inside wakes. */
  datatype Op =
    | IoOp(io: Io, now: Option<nat>, device: bool)
    | StartOp(negotiated: bool, now: Option<nat>, device: bool)
    | StopOp(now: Option<nat>, device: bool)
    | ProcessOp(swap: Completion, device: bool)
    | ReplaceOp(invalidate: bool, now: Option<nat>, device: bool)
    | HostWrites(position: Position)

  function Apply(n: Node, op: Op, inReady: bool): Node {
    match op
    case IoOp(io, now, device) => SetIo(n, io, now, device)
    case StartOp(negotiated, now, device) => Start(n, negotiated, now, device)
    case StopOp(now, device) => Stop(n, now, device)
    case ProcessOp(swap, device) => Process(n, swap, inReady, device)
    case ReplaceOp(invalidate, now, device) => Replace(n, invalidate, now, device)
    case HostWrites(p) => if n.position.Some? then n.(position := Some(p)) else n
  }

  function ApplyAll(n: Node, ops: seq<Op>, inReady: bool): Node
    decreases ops
  {
    if ops == [] then n else ApplyAll(Apply(n, ops[0], inReady), ops[1..], inReady)
  }

  /** A whole wake: the body, then ready() with whatever re-enters from it, then the next wake. */
  function OnWake(n: Node, w: Wake, now: Option<nat>, device: bool, corr: Corr, ready: seq<Op>,
                  device': bool): Node
  {
    var (m, run) := Cycle(Fired(n, w), w, now, device, corr);
    if run then Select(ApplyAll(m, ready, true), device') else m
  }

  datatype Step =
    | Outside(op: Op)
    | Woken(w: Wake, now: Option<nat>, device: bool, corr: Corr, ready: seq<Op>, device': bool)

  function Next(n: Node, s: Step): Node
  {
    match s
    case Outside(op) => Apply(n, op, false)
    case Woken(w, now, device, corr, ready, device') => OnWake(n, w, now, device, corr, ready, device')
  }

  function Run(n: Node, steps: seq<Step>): Node
    decreases steps
  {
    if steps == [] then n else Run(Next(n, steps[0]), steps[1..])
  }

  // ---------------------------------------------------------------- no lost wakeup

  predicate Armed(n: Node) { n.timer != Parked }

  /** An eighth of a graph period, in nanoseconds and never nothing: how long after a deadline the device may
      still announce itself. */
  function Eighth(n: Node): nat {
    if Duration(n) == 0 || Rate(n) == 0 then 0
    else if Duration(n) * 1_000_000_000 / Rate(n) / 8 == 0 then 1
    else Duration(n) * 1_000_000_000 / Rate(n) / 8
  }

  predicate Covers(n: Node, slack: nat) { Eighth(n) <= slack }

  /** Once any clock read has succeeded, a driving node will be woken: in ten milliseconds, or at a time
      between its deadline and `slack` later. */
  predicate Awake(n: Node, slack: nat) {
    Driving(n) && n.nextTime != 0 ==>
      n.timer == In(10_000_000)
      || (n.timer.At? && Min(n.nextTime, U64_MAX) <= n.timer.deadline <= n.nextTime + slack)
  }

  lemma AwakeIsArmed(n: Node, slack: nat)
    requires Awake(n, slack) && Driving(n) && n.nextTime != 0
    ensures Armed(n)
  {}

  /** `m` is `n` with its next wake selected: the timer is set to the deadline itself without a device
      registration, and to an eighth of a period after it with one. */
  predicate Selected(m: Node, n: Node, device: bool) {
    && (m.deviceArmed <==> device && Driving(n)) && m == n.(deviceArmed := m.deviceArmed, timer := m.timer)
    && m.timer == if !Driving(n) || n.nextTime == 0 then Parked
                  else if !device then At(n.nextTime)
                  else At(if n.nextTime + Eighth(n) > U64_MAX then U64_MAX else n.nextTime + Eighth(n))
  }

  lemma SelectIsPrompt(n: Node, device: bool)
    ensures Selected(Select(n, device), n, device) && Awake(Select(n, device), Eighth(n))
  {}

  lemma UpdateIsPrompt(n: Node, now: Option<nat>, device: bool)
    ensures var m := Update(n, now, device);
            && m == n.(deviceArmed := m.deviceArmed, nextTime := m.nextTime, timer := m.timer)
            && (m.deviceArmed <==> device && Driving(n))
            && (if !n.started || n.following || n.position.None? then m.timer == Parked && m.nextTime == n.nextTime
                else if now.None? then m.timer == In(10_000_000) && m.nextTime == n.nextTime
                else m.nextTime == now.value && m.timer == if now.value == 0 then Parked else At(now.value))
            && Awake(m, 0)
  {}

  /** A node that drives fires at once from a fresh anchor, or retries if the clock cannot be read; any other
      is parked. */
  predicate Fires(n: Node, now: Option<nat>) {
    if !n.started || n.following || n.position.None? then n.timer == Parked
    else if now.None? then n.timer == In(10_000_000)
    else n.nextTime == now.value && n.timer == if now.value == 0 then Parked else At(now.value)
  }

  /** A started node's role follows the two areas, and the timer is touched on a real transition only. */
  lemma SetIoMeans(n: Node, io: Io, now: Option<nat>, device: bool)
    ensures var m := SetIo(n, io, now, device);
            var turned := m.following != n.following
                          || (m.position.Some? && m.clock.Some?) != (n.position.Some? && n.clock.Some?);
            && m.started == n.started
            && (match io
                case ClockIo(c) => m.clock == c && m.position == n.position
                case PositionIo(p) => m.position == p && m.clock == n.clock)
            && m.following == (if n.started then m.position.Some? && m.clock.Some?
                                                 && m.position.value.driver != m.clock.value
                               else n.following)
            && (if n.started && turned then Fires(m, now) else m.timer == n.timer && m.nextTime == n.nextTime)
  {}

  /** When a wake starts a graph cycle, and where the deadline goes. */
  lemma CycleMeans(n: Node, w: Wake, now: Option<nat>, device: bool, corr: Corr)
    ensures var (m, run) := Cycle(n, w, now, device, corr);
            && m.started == n.started && m.following == n.following && m.position == n.position && m.clock == n.clock
            && (run <==> && w != Nothing && w != Late && Driving(n) && now.Some? && Duration(n) > 0 && Rate(n) > 0
                         && (n.nextTime == 0 || Min(now.value + Eighth(n), U64_MAX) >= n.nextTime))
            && (!run ==> Awake(m, Eighth(m)))
            && (run && m.nextTime < U64_MAX ==>
                  var anchor := if now.value > n.nextTime + 1_000_000_000 then now.value else n.nextTime;
                  Corrected(m.nextTime - anchor, Duration(n), Rate(n), corr))
  {
    if Cycle(n, w, now, device, corr).1 {
      PeriodIsCorrected(Duration(n), Rate(n), corr);
    } else {
      IdleCycleIsPrompt(n, w, now, device, corr);
    }
  }

  /** What a wake leaves behind that starts no cycle: the next wake selected, if it was not drained, was not
      for a driving node or came early; a retry 10 ms on, if the clock failed or there is no cycle to run. */
  lemma SkippedCycleMeans(n: Node, w: Wake, now: Option<nat>, device: bool, corr: Corr)
    ensures var (m, run) := Cycle(n, w, now, device, corr);
            var drained := w != Nothing && w != Late && Driving(n);
            && (run ==> m == n.(nextTime := m.nextTime))
            && (!drained ==> Selected(m, n, device))
            && (drained && now.None? ==> m == n.(deviceArmed := false, timer := In(10_000_000)))
            && (drained && now.Some? && !run && Duration(n) > 0 && Rate(n) > 0 ==> Selected(m, n, device))
            && (drained && now.Some? && (Duration(n) == 0 || Rate(n) == 0) ==>
                  var from := if w.StreamWake? && w.observed.Some? then w.observed.value
                              else if now.value > n.nextTime + 1_000_000_000 then now.value else n.nextTime;
                  m == n.(deviceArmed := false, nextTime := from + 10_000_000, timer := At(from + 10_000_000)))
  {
    SelectIsPrompt(n, device);
  }

  /** process() on a started node with a position takes a finished rebuild over first, which fires at once, and
      outside ready selects the next wake; on any other it does nothing. */
  lemma ProcessMeans(n: Node, swap: Completion, inReady: bool, device: bool)
    ensures var m := Process(n, swap, inReady, device);
            if !n.started || n.position.None? then m == n
            else
              && (swap.NoSwap? && inReady ==> m == n)
              && (swap.NoSwap? && !inReady ==> Selected(m, n, device))
              && (swap.Swap? && inReady ==>
                    && m == n.(deviceArmed := m.deviceArmed, nextTime := m.nextTime, timer := m.timer)
                    && Fires(m, swap.now) && (m.deviceArmed <==> swap.device && Driving(n)))
              && (swap.Swap? && !inReady ==>
                    && m.nextTime == (if !n.following && swap.now.Some? then swap.now.value else n.nextTime)
                    && Selected(m, n.(nextTime := m.nextTime), device))
  {
    var m := if swap.Swap? then Replace(n, swap.invalidate, swap.now, swap.device) else n;
    SelectIsPrompt(m, device);
  }

  lemma OpKeepsAwake(n: Node, op: Op, slack: nat)
    requires Awake(n, slack) && Covers(Apply(n, op, false), slack)
    ensures Awake(Apply(n, op, false), slack)
  {
    match op
    case IoOp(io, now, device) => IoKeepsAwake(n, io, now, device, slack);
    case ProcessOp(swap, device) => ProcessKeepsAwake(n, swap, device, slack);
    case _ =>
  }

  lemma IoKeepsAwake(n: Node, io: Io, now: Option<nat>, device: bool, slack: nat)
    requires Awake(n, slack) && Covers(SetIo(n, io, now, device), slack)
    ensures Awake(SetIo(n, io, now, device), slack)
  {}

  lemma ProcessKeepsAwake(n: Node, swap: Completion, device: bool, slack: nat)
    requires Awake(n, slack) && Covers(Process(n, swap, false, device), slack)
    ensures Awake(Process(n, swap, false, device), slack)
  {
    var m := if swap.Swap? then Replace(n, swap.invalidate, swap.now, swap.device) else n;
    SelectIsPrompt(m, device);
  }

  lemma WakeStaysAwake(n: Node, w: Wake, now: Option<nat>, device: bool, corr: Corr, ready: seq<Op>, device': bool)
    ensures var m := OnWake(n, w, now, device, corr, ready, device'); Awake(m, Eighth(m))
  {
    var (m, run) := Cycle(Fired(n, w), w, now, device, corr);
    if run {
      SelectIsPrompt(ApplyAll(m, ready, true), device');
    } else {
      IdleCycleIsPrompt(Fired(n, w), w, now, device, corr);
    }
  }

  /** Every early exit of the wake body arms the timer itself. */
  lemma IdleCycleIsPrompt(n: Node, w: Wake, now: Option<nat>, device: bool, corr: Corr)
    requires !Cycle(n, w, now, device, corr).1
    ensures var m := Cycle(n, w, now, device, corr).0; Awake(m, Eighth(m))
  {
    SelectIsPrompt(n, device);
  }

  /** Between steps the host asks for no period whose eighth exceeds `slack`. */
  predicate Within(n: Node, steps: seq<Step>, slack: nat)
    decreases steps
  {
    Covers(n, slack) && (steps == [] || Within(Next(n, steps[0]), steps[1..], slack))
  }

  /** In every run, whatever re-enters, and on every early exit of the wake: a driving node is woken no later
      than the longest eighth of a period asked for after its deadline. */
  lemma {:induction false} NoLostWakeup(n: Node, steps: seq<Step>, slack: nat)
    requires Awake(n, slack) && Within(n, steps, slack)
    ensures Awake(Run(n, steps), slack)
    decreases steps
  {
    if steps != [] {
      var m := Next(n, steps[0]);
      assert Covers(m, slack);
      match steps[0] {
        case Outside(op) => OpKeepsAwake(n, op, slack);
        case Woken(w, now, device, corr, ready, device') => WakeStaysAwake(n, w, now, device, corr, ready, device');
      }
      NoLostWakeup(m, steps[1..], slack);
    }
  }

  /** Selecting the next wake arms a driving node exactly when a deadline is known. */
  lemma SelectArmsIff(n: Node, device: bool)
    requires Driving(n)
    ensures Armed(Select(n, device)) <==> n.nextTime != 0
  {}

  /** Before the first successful clock read the retry timer is all there is, and a process() call
      parks it: the node drives and will never be woken. */
  lemma RetryIsLostBeforeFirstRead()
    ensures var n := Node(false, false, Some(Position(1, 1024, 48000)), Some(1), 0, Parked, false);
            var retrying := Run(n, [Outside(StartOp(true, None, false))]);
            var parked := Run(n, [Outside(StartOp(true, None, false)), Outside(ProcessOp(NoSwap, false))]);
            Armed(retrying) && Driving(parked) && !Armed(parked)
  {
    var n := Node(false, false, Some(Position(1, 1024, 48000)), Some(1), 0, Parked, false);
    var s := [Outside(StartOp(true, None, false)), Outside(ProcessOp(NoSwap, false))];
    assert s[1..] == [Outside(ProcessOp(NoSwap, false))];
    assert [Outside(ProcessOp(NoSwap, false))][1..] == [];
    assert [Outside(StartOp(true, None, false))][1..] == [];
  }

  // ---------------------------------------------------------------- bounded cycle rate

  /** Half a graph period: what one cycle advances at least. */
  function HalfPeriod(duration: nat, rate: nat): nat
    requires rate > 0
  {
    Period(duration, rate, 2.0)
  }

  lemma QuotientShrinks(a: real, b: real, c: real)
    requires a >= 0.0 && 0.0 < b <= c
    ensures a / b >= a / c
  {
    var x, y := a / b, a / c;
    assert x * b == a && y * c == a;
    PositiveQuotient(a, c);
    assert y * b <= y * c;
    SameSign(x - y, b);
  }

  lemma SameSign(d: real, b: real)
    requires b > 0.0 && d * b >= 0.0
    ensures d >= 0.0
  {}

  lemma StepIsHalfAtLeast(deadline: nat, duration: nat, rate: nat, corr: Corr)
    requires rate > 0
    ensures Min(deadline + HalfPeriod(duration, rate), U64_MAX) <= Advance(deadline, duration, rate, corr)
  {
    var b, c := rate as real * corr, rate as real * 2.0;
    assert b <= c;
    QuotientShrinks(duration as real * SECOND as real, b, c);
  }

  /** A step that is no driver transition: no start, stop, io change or device replacement, and the
      host keeps the position's duration and rate. */
  predicate Steady(s: Step, duration: nat, rate: nat) {
    match s
    case Outside(op) => SteadyOp(op, duration, rate)
    case Woken(_, _, _, _, ready, _) =>
      forall i :: 0 <= i < |ready| ==> SteadyOp(ready[i], duration, rate)
  }

  predicate SteadyOp(op: Op, duration: nat, rate: nat) {
    (op.ProcessOp? && op.swap.NoSwap?) || (op.HostWrites? && op.position.duration == duration && op.position.rate == rate)
  }

  /** Whether this step starts a graph cycle. */
  predicate Starts(n: Node, s: Step)
  {
    s.Woken? && Cycle(Fired(n, s.w), s.w, s.now, s.device, s.corr).1
  }

  function Cycles(n: Node, steps: seq<Step>): nat
    decreases steps
  {
    if steps == [] then 0
    else (if Starts(n, steps[0]) then 1 else 0) + Cycles(Next(n, steps[0]), steps[1..])
  }

  predicate Timed(n: Node, duration: nat, rate: nat) {
    duration > 0 && rate > 0 && n.position.Some? && Duration(n) == duration && Rate(n) == rate
  }

  lemma {:induction false} ReadyKeepsDeadline(n: Node, ops: seq<Op>, duration: nat, rate: nat)
    requires Timed(n, duration, rate) && forall i :: 0 <= i < |ops| ==> SteadyOp(ops[i], duration, rate)
    ensures var m := ApplyAll(n, ops, true); Timed(m, duration, rate) && m.nextTime == n.nextTime
    decreases ops
  {
    if ops != [] {
      ReadyKeepsDeadline(Apply(n, ops[0], true), ops[1..], duration, rate);
    }
  }

  /** A started cycle moves the deadline by at least half a period, from no earlier than before and from
      no more than a second ago. */
  lemma StartedStep(n: Node, s: Step, duration: nat, rate: nat)
    requires Timed(n, duration, rate) && Steady(s, duration, rate) && Starts(n, s)
    ensures s.now.Some? && Min(s.now.value + Grace(duration, rate), U64_MAX) >= n.nextTime
    ensures Timed(Next(n, s), duration, rate)
    ensures Next(n, s).nextTime >= Min(n.nextTime + HalfPeriod(duration, rate), U64_MAX)
    ensures Next(n, s).nextTime + SECOND >= Min(s.now.value + HalfPeriod(duration, rate), U64_MAX)
  {
    var f := Fired(n, s.w);
    var (m, _) := Cycle(f, s.w, s.now, s.device, s.corr);
    var anchor := if SatSub(s.now.value, f.nextTime) > SECOND then s.now.value else f.nextTime;
    StepIsHalfAtLeast(anchor, duration, rate, s.corr);
    ReadyKeepsDeadline(m, s.ready, duration, rate);
  }

  /** Any other steady step leaves the deadline, or moves it forward. */
  lemma IdleStep(n: Node, s: Step, duration: nat, rate: nat)
    requires Timed(n, duration, rate) && Steady(s, duration, rate) && !Starts(n, s)
    ensures Timed(Next(n, s), duration, rate) && Next(n, s).nextTime >= n.nextTime
  {}

  lemma SteadyStep(n: Node, s: Step, duration: nat, rate: nat)
    requires Timed(n, duration, rate) && Steady(s, duration, rate)
    ensures Timed(Next(n, s), duration, rate)
    ensures Next(n, s).nextTime >=
              if Starts(n, s) then Min(n.nextTime + HalfPeriod(duration, rate), U64_MAX) else n.nextTime
    ensures Starts(n, s) ==> s.now.Some? && Min(s.now.value + Grace(duration, rate), U64_MAX) >= n.nextTime
  {
    if Starts(n, s) {
      StartedStep(n, s, duration, rate);
    } else {
      IdleStep(n, s, duration, rate);
    }
  }

  lemma {:induction false} DeadlineAdvances(n: Node, steps: seq<Step>, duration: nat, rate: nat)
    requires Timed(n, duration, rate) && forall s :: s in steps ==> Steady(s, duration, rate)
    ensures Timed(Run(n, steps), duration, rate)
    ensures Run(n, steps).nextTime >= Min(n.nextTime + Cycles(n, steps) * HalfPeriod(duration, rate), U64_MAX)
    decreases |steps|
  {
    if steps != [] {
      var m := Next(n, steps[0]);
      assert steps[0] in steps;
      SteadyStep(n, steps[0], duration, rate);
      DeadlineAdvances(m, steps[1..], duration, rate);
      Chain(n.nextTime, m.nextTime, Run(n, steps).nextTime, HalfPeriod(duration, rate), Cycles(m, steps[1..]));
    }
  }

  lemma Chain(start: nat, next: nat, end: nat, h: nat, k: nat)
    requires end >= Min(next + k * h, U64_MAX)
    ensures next >= Min(start + h, U64_MAX) ==> end >= Min(start + (k + 1) * h, U64_MAX)
    ensures next >= start ==> end >= Min(start + k * h, U64_MAX)
  {
    assert (k + 1) * h == k * h + h;
  }

  /** A graph cycle that follows k others of a steady run starts no earlier than k half periods, less
      one grace, after the deadline at the run's beginning: duplicate and early wakes never add
      cycles. */
  lemma CyclesAreSpaced(n: Node, steps: seq<Step>, last: Step, duration: nat, rate: nat)
    requires Timed(n, duration, rate) && forall s :: s in steps ==> Steady(s, duration, rate)
    requires Steady(last, duration, rate) && Starts(Run(n, steps), last)
    ensures last.now.Some?
    ensures Min(last.now.value + Grace(duration, rate), U64_MAX)
              >= Min(n.nextTime + Cycles(n, steps) * HalfPeriod(duration, rate), U64_MAX)
  {
    DeadlineAdvances(n, steps, duration, rate);
    SteadyStep(Run(n, steps), last, duration, rate);
  }

  /** Cycles in wall time: a cycle that follows one started at `t` and k others since starts at
      t + (k + 1) half periods, less one grace and the second a driver may lag, at the earliest. */
  lemma CyclesAreSpacedInTime(n: Node, first: Step, steps: seq<Step>, last: Step, duration: nat, rate: nat)
    requires Timed(n, duration, rate) && Steady(first, duration, rate) && Starts(n, first)
    requires forall s :: s in steps ==> Steady(s, duration, rate)
    requires Steady(last, duration, rate) && Starts(Run(Next(n, first), steps), last)
    ensures first.now.Some? && last.now.Some?
    ensures var k := Cycles(Next(n, first), steps);
            Min(last.now.value + Grace(duration, rate), U64_MAX) + SECOND
              >= Min(first.now.value + (k + 1) * HalfPeriod(duration, rate), U64_MAX)
  {
    var m := Next(n, first);
    StartedStep(n, first, duration, rate);
    CyclesAreSpaced(m, steps, last, duration, rate);
    Catch(first.now.value, m.nextTime, Min(last.now.value + Grace(duration, rate), U64_MAX),
          HalfPeriod(duration, rate), Cycles(m, steps));
  }

  lemma Catch(start: nat, next: nat, end: nat, h: nat, k: nat)
    requires next + SECOND >= Min(start + h, U64_MAX) && end >= Min(next + k * h, U64_MAX)
    ensures end + SECOND >= Min(start + (k + 1) * h, U64_MAX)
  {
    assert (k + 1) * h == k * h + h;
  }

  // ---------------------------------------------------------------- timer and device together

  /** The second of two wakes starts another cycle exactly when it is no more than a grace ahead of
      the deadline that the first one set. */
  lemma SecondWakeIff(n: Node, first: Step, second: Step, duration: nat, rate: nat)
    requires Timed(n, duration, rate) && Steady(first, duration, rate) && Starts(n, first)
    requires second.Woken? && second.w != Nothing && second.w != Late && second.now.Some?
    requires Driving(Next(n, first))
    ensures var deadline := Next(n, first).nextTime;
            Starts(Next(n, first), second) <==>
              deadline == 0 || Min(second.now.value + Grace(duration, rate), U64_MAX) >= deadline
  {
    SteadyStep(n, first, duration, rate);
  }

  /** A timer and a device wake that belong together start one cycle as long as the second comes
      within half a period, less a grace, of the deadline they both announce. */
  lemma PairStartsOneCycle(n: Node, first: Step, second: Step, duration: nat, rate: nat)
    requires Timed(n, duration, rate) && Steady(first, duration, rate) && Starts(n, first)
    requires second.Woken? && second.now.Some?
    requires second.now.value + Grace(duration, rate) < Min(n.nextTime + HalfPeriod(duration, rate), U64_MAX)
    ensures !Starts(Next(n, first), second)
  {
    SteadyStep(n, first, duration, rate);
  }

  /** A replacement starts the timeline afresh: the next wake that reads the clock starts a cycle
      exactly when it is no more than a grace ahead of the moment of the replacement, whatever cycle
      ran just before. */
  lemma ReplacementReanchors(n: Node, invalidate: bool, now: nat, device: bool, wake: Step)
    requires Driving(n) && wake.Woken? && wake.w != Nothing && wake.w != Late && wake.now.Some?
    requires Duration(n) > 0 && Rate(n) > 0
    ensures var m := Replace(n, invalidate, Some(now), device);
            && m.nextTime == now && Awake(m, 0)
            && (Starts(m, wake) <==>
                  now == 0 || Min(wake.now.value + Grace(Duration(n), Rate(n)), U64_MAX) >= now)
  {}

  /** A driver that runs late, but by less than the stall limit, takes both wakes of a pair as
      cycles: the deadline after the first is still in the past. */
  lemma LateDriverTakesBoth()
    ensures var n := Node(true, false, Some(Position(1, 48, 48000)), Some(1), 1_000_000_000, At(1_000_000_000), true);
            var device := Woken(StreamWake(None), Some(1_500_000_000), true, 1.0, [], true);
            var timer := Woken(TimerWake, Some(1_500_001_000), true, 1.0, [], true);
            Starts(n, device) && Starts(Next(n, device), timer)
  {
    var n := Node(true, false, Some(Position(1, 48, 48000)), Some(1), 1_000_000_000, At(1_000_000_000), true);
    var device := Woken(StreamWake(None), Some(1_500_000_000), true, 1.0, [], true);
    assert Period(48, 48000, 1.0) == 1_000_000;
    assert Next(n, device).nextTime == 1_001_000_000;
  }
}
