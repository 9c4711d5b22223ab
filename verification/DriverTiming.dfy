/** The data loop's timing code: one object updated by wakes, commands and io changes. Every method
    does exactly what `WakeTrace` says. */
module DriverTiming {
  import opened Prelude
  import opened WakeTrace

  class DriverTiming {
    var started: bool
    var following: bool
    var position: Option<Position>
    var clock: Option<nat>
    var nextTime: nat
    var timer: Timer
    var deviceArmed: bool

    function View(): Node
      reads this
    {
      Node(started, following, position, clock, nextTime, timer, deviceArmed)
    }

    constructor ()
      ensures View() == Node(false, false, None, None, 0, Parked, false) && Awake(View(), 0)
    {
      started, following, position, clock, nextTime, timer, deviceArmed :=
        false, false, None, None, 0, Parked, false;
    }

    /** Aligns the device registration with the running stream. `device` says whether there is one
        and the backend accepts it. */
    method RefreshDeviceWake(device: bool) returns (armed: bool)
      modifies this`deviceArmed
      ensures deviceArmed == armed == (device && Driving(View()))
    {
      armed := false;
      if started && !following && position.Some? && clock.Some? {
        armed := device;
      }
      deviceArmed := armed;
    }

    method SelectNextWake(device: bool)
      modifies this
      ensures View() == Select(old(View()), device) && Awake(View(), Eighth(View()))
      ensures deviceArmed == (device && started && !following && position.Some? && clock.Some?)
      ensures timer == if !started || following || position.None? || clock.None? || nextTime == 0 then Parked
                       else if !deviceArmed then At(nextTime)
                       else At(if nextTime + Eighth(View()) > U64_MAX then U64_MAX else nextTime + Eighth(View()))
    {
      SelectIsPrompt(View(), device);
      var deadline := if started && !following && position.Some? && clock.Some? then nextTime else 0;
      var armed := RefreshDeviceWake(device);
      var duration, rate := 0, 0;
      if position.Some? {
        duration, rate := position.value.duration, position.value.rate;
      }
      timer := SetTimeout(WatchdogDeadline(deadline, armed, duration, rate));
    }

    method UpdateDriverWake(now: Option<nat>, device: bool)
      modifies this
      ensures View() == Update(old(View()), now, device) && Awake(View(), 0) && Fires(View(), now)
      ensures deviceArmed == (device && Driving(View()))
    {
      var _ := RefreshDeviceWake(device);
      if !(started && !following && position.Some?) {
        timer := Parked;
        return;
      }
      match now {
        case Some(t) =>
          nextTime := t;
          timer := SetTimeout(t);
        case None =>
          timer := In(RETRY);
      }
    }

    /** A started node's role follows the two areas, and it re-arms on a real transition only. */
    method SetIo(io: Io, now: Option<nat>, device: bool)
      modifies this
      ensures View() == WakeTrace.SetIo(old(View()), io, now, device)
      ensures following == if started then position.Some? && clock.Some? && position.value.driver != clock.value
                           else old(following)
      ensures if started && (following != old(following)
                             || (position.Some? && clock.Some?) != old(position.Some? && clock.Some?)) then
                Fires(View(), now)
              else timer == old(timer) && nextTime == old(nextTime)
      ensures forall slack :: old(Awake(View(), slack)) && Covers(View(), slack) ==> Awake(View(), slack)
    {
      ghost var was := View();
      AssignIo(io, now, device);
      SetIoMeans(was, io, now, device);
      forall slack | Awake(was, slack) && Covers(View(), slack) ensures Awake(View(), slack) {
        OpKeepsAwake(was, IoOp(io, now, device), slack);
      }
    }

    method AssignIo(io: Io, now: Option<nat>, device: bool)
      modifies this
      ensures View() == WakeTrace.SetIo(old(View()), io, now, device)
    {
      var wasArmed := clock.Some? && position.Some?;
      match io {
        case ClockIo(c) => clock := c;
        case PositionIo(p) => position := p;
      }
      if started {
        var armed := clock.Some? && position.Some?;
        var follower := position.Some? && clock.Some? && position.value.driver != clock.value;
        var flipped := following != follower;
        following := follower;
        if flipped || wasArmed != armed {
          UpdateDriverWake(now, device);
        }
      }
    }

    method Start(negotiated: bool, now: Option<nat>, device: bool) returns (ok: bool)
      modifies this
      ensures ok == negotiated && View() == WakeTrace.Start(old(View()), negotiated, now, device)
      ensures if ok then started && Fires(View(), now)
                         && following == (position.Some? && clock.Some? && position.value.driver != clock.value)
              else View() == old(View())
      ensures forall slack :: old(Awake(View(), slack)) && Covers(View(), slack) ==> Awake(View(), slack)
    {
      ok := negotiated;
      if ok {
        started := true;
        following := position.Some? && clock.Some? && position.value.driver != clock.value;
        UpdateDriverWake(now, device);
      }
    }

    method Stop(now: Option<nat>, device: bool)
      modifies this
      ensures View() == WakeTrace.Stop(old(View()), now, device)
      ensures !started && !deviceArmed && timer == Parked && nextTime == old(nextTime)
      ensures forall slack :: old(Awake(View(), slack)) && Covers(View(), slack) ==> Awake(View(), slack)
    {
      started := false;
      UpdateDriverWake(now, device);
    }

    /** A device takes the port's place, or none does. */
    method ReplaceDevice(invalidate: bool, now: Option<nat>, device: bool)
      modifies this
      ensures View() == Replace(old(View()), invalidate, now, device)
      ensures started == old(started)
      ensures if started then Fires(View(), now) && deviceArmed == (device && Driving(View()))
              else timer == old(timer) && nextTime == old(nextTime) && deviceArmed == (old(deviceArmed) && !invalidate)
      ensures forall slack :: old(Awake(View(), slack)) && Covers(View(), slack) ==> Awake(View(), slack)
    {
      if invalidate {
        deviceArmed := false;
      }
      if started {
        UpdateDriverWake(now, device);
      }
    }

    /** process(), with a rebuild taken over by it if one has finished. */
    method ProcessDataCycle(swap: Completion, inReady: bool, device: bool)
      modifies this
      ensures View() == Process(old(View()), swap, inReady, device)
      ensures if !started || position.None? || (inReady && swap.NoSwap?) then View() == old(View())
              else if inReady then Fires(View(), swap.now)
              else Selected(View(), View(), device)
      ensures forall slack :: old(Awake(View(), slack)) && Covers(View(), slack) ==> Awake(View(), slack)
    {
      ProcessMeans(View(), swap, inReady, device);
      if !started || position.None? {
        return;
      }
      if swap.Swap? {
        ReplaceDevice(swap.invalidate, swap.now, swap.device);
      }
      if !inReady {
        SelectNextWake(device);
      }
    }

    /** The wake body. `run` says that a graph cycle starts and ready() is to be called: on a drained event of
        a driving node that is no more than an eighth of a period early. The deadline then moves by the
        corrected period from where it was, or from now after a stall. */
    method WakeCycle(w: Wake, now: Option<nat>, device: bool, corr: Corr) returns (run: bool)
      modifies this
      ensures (View(), run) == Cycle(old(View()), w, now, device, corr)
      ensures run <==> && w != Nothing && w != Late && Driving(View()) && now.Some?
                       && Duration(View()) > 0 && Rate(View()) > 0
                       && (old(nextTime) == 0 || Min(now.value + Eighth(View()), U64_MAX) >= old(nextTime))
      ensures !run ==> Awake(View(), Eighth(View()))
      ensures run && nextTime < U64_MAX ==>
        var anchor := if now.value > old(nextTime) + 1_000_000_000 then now.value else old(nextTime);
        Corrected(nextTime - anchor, Duration(View()), Rate(View()), corr)
      ensures run ==> nextTime >= Min(old(nextTime) + HalfPeriod(Duration(View()), Rate(View())), U64_MAX)
    {
      ghost var was := View();
      run := DriveCycle(w, now, device, corr);
      CycleMeans(was, w, now, device, corr);
    }

    method DriveCycle(w: Wake, now: Option<nat>, device: bool, corr: Corr) returns (run: bool)
      modifies this
      ensures (View(), run) == Cycle(old(View()), w, now, device, corr)
      ensures run ==> Rate(View()) > 0
                      && nextTime >= Min(old(nextTime) + HalfPeriod(Duration(View()), Rate(View())), U64_MAX)
    {
      run := false;
      if w == Nothing || w == Late {
        SelectNextWake(device);
        return;
      }
      if !started || following {
        SelectNextWake(device);
        return;
      }
      if position.None? || clock.None? {
        SelectNextWake(device);
        return;
      }
      if now.None? {
        deviceArmed := false;
        timer := In(RETRY);
        return;
      }
      var duration, rate := position.value.duration, position.value.rate;
      if FromPreviousCycle(now.value, nextTime, duration, rate) {
        SelectNextWake(device);
        return;
      }
      if SatSub(now.value, nextTime) > SECOND {
        nextTime := now.value;
      }
      var nsec := if w.StreamWake? && w.observed.Some? then w.observed.value else nextTime;
      if duration == 0 || rate == 0 {
        nextTime := nsec + RETRY;
        deviceArmed := false;
        timer := At(nextTime);
        return;
      }
      StepIsHalfAtLeast(nextTime, duration, rate, corr);
      nextTime := Advance(nextTime, duration, rate, corr);
      run := true;
    }

    /** on_wake: the body, ready() with whatever re-enters from it, then the next wake. */
    method OnWake(w: Wake, now: Option<nat>, device: bool, corr: Corr, ready: seq<Op>, device': bool)
      modifies this
      ensures View() == WakeTrace.OnWake(old(View()), w, now, device, corr, ready, device')
      ensures Awake(View(), Eighth(View()))
    {
      WakeStaysAwake(View(), w, now, device, corr, ready, device');
      if w == TimerWake {
        timer := Parked;
      }
      var run := WakeCycle(w, now, device, corr);
      if !run {
        return;
      }
      ghost var m := View();
      var i := 0;
      while i < |ready|
        invariant 0 <= i <= |ready| && ApplyAll(View(), ready[i..], true) == ApplyAll(m, ready, true)
      {
        assert ready[i..][1..] == ready[i + 1..];
        Reenter(ready[i]);
        i := i + 1;
      }
      SelectNextWake(device');
    }

    /** A method called from inside ready(). The timer may be momentarily parked here. */
    method Reenter(op: Op)
      modifies this
      ensures View() == Apply(old(View()), op, true)
    {
      match op
      case IoOp(io, now, device) =>
        SetIo(io, now, device);
      case StartOp(negotiated, now, device) =>
        var _ := Start(negotiated, now, device);
      case StopOp(now, device) =>
        Stop(now, device);
      case ProcessOp(swap, device) =>
        ProcessDataCycle(swap, true, device);
      case ReplaceOp(invalidate, now, device) =>
        ReplaceDevice(invalidate, now, device);
      case HostWrites(p) =>
        if position.Some? {
          position := Some(p);
        }
    }
  }
}
