/** The capture byte stream of one OSS channel. The kernel may stop a read inside a frame; the
    reader hands out whole frames only and drops the torn one. */
module DspReader {
  import opened Prelude
  import opened Silence
  import opened DspWriter
  import opened BufferPolicy

  const PINNED_CYCLE_LIMIT := 3
  const SCRATCH_BYTES := 64

  datatype CaptureRetune = Same | Waiting | Taken(geometry: CaptureGeometry) | Restart | Replace

  datatype ReadAnswer = Got(bytes: seq<byte>) | Eof | Failed(error: Errno)

  function StatusAfter(a: ReadAnswer): IoStatus {
    match a
    case Got(_) => Progress
    case Eof => Disconnected
    case Failed(e) => StatusOf(e)
  }

  /** The bytes of frame `f`. */
  function Frame(native: seq<byte>, f: nat, stride: nat): seq<byte> {
    if (f + 1) * stride <= |native| then FrameBounds(f, stride); native[f * stride..(f + 1) * stride] else []
  }

  /** The first `frames` frames of the native stream without the torn ones. */
  function Kept(native: seq<byte>, frames: nat, torn: set<nat>, stride: nat): seq<byte> {
    if frames == 0 then []
    else Kept(native, frames - 1, torn, stride)
         + (if frames - 1 in torn then [] else Frame(native, frames - 1, stride))
  }

  /** `bytes` are whole frames of the native stream, from the boundary of frame `start` on. */
  ghost predicate WholeFrom(native: seq<byte>, start: nat, bytes: seq<byte>, stride: nat)
    requires stride > 0
  {
    && |bytes| % stride == 0 && start * stride + |bytes| <= |native|
    && bytes == native[start * stride..][..|bytes|]
  }

  /** `begun` frames were begun; the last one lacks `skip` bytes, and then it is torn. The output is
      the native stream with exactly the torn frames removed. */
  ghost predicate Framed(native: seq<byte>, begun: nat, skip: nat, torn: set<nat>, output: seq<byte>, stride: nat) {
    && skip < stride && |native| + skip == begun * stride
    && (forall f :: f in torn ==> f < begun)
    && (skip != 0 ==> begun > 0 && begun - 1 in torn)
    && output == Kept(native, begun, torn, stride)
  }

  class DspReader {
    var state: DspState
    var needsTrigger: bool
    var stride: nat
    var skip: nat
    var period: u32
    var quantum: u32
    var capacity: u32
    var mismatches: u32
    var pinnedCycles: u32
    const deliveryNs: u64

    /** Since the ring was last reset: every byte taken from the kernel, the frames begun, what was
        handed out, the frames lost, and the reads that stopped inside a frame. */
    ghost var native: seq<byte>
    ghost var begun: nat
    ghost var output: seq<byte>
    ghost var torn: set<nat>
    ghost var tornReads: nat

    /** The kernel's last answer. */
    ghost var answer: ReadAnswer

    /** At each overrun since recovery was last considered anew, whether the ring was full. */
    ghost var pinnedLog: seq<bool>

    ghost predicate Valid()
      reads this
    {
      && Framed(native, begun, skip, torn, output, stride)
      && tornReads == |torn|
      && (state != Running ==> native == [] && begun == 0)
      && Streak(pinnedLog) == pinnedCycles < PINNED_CYCLE_LIMIT
    }

    constructor (deliveryNs: u64)
      ensures Valid() && state == Closed
    {
      this.deliveryNs := deliveryNs;
      state, needsTrigger, stride, skip := Closed, false, 1, 0;
      period, quantum, capacity, mismatches, pinnedCycles := 0, 0, 0, 0, 0;
      native, begun, output, torn, tornReads, pinnedLog, answer := [], 0, [], {}, 0, [], Eof;
    }

    method Open()
      requires Valid() && state == Closed
      modifies this`state
      ensures Valid() && state == Setup
    {
      state := Setup;
    }

    method Configure(stride: nat)
      requires Valid() && state == Setup && stride > 0
      modifies this`stride, this`skip, this`output, this`torn, this`tornReads
      ensures Valid() && this.stride == stride
    {
      this.stride, skip, output, torn, tornReads := stride, 0, [], {}, 0;
    }

    method Close()
      requires Valid() && state != Closed
      modifies this
      ensures Valid() && state == Closed && stride == old(stride)
    {
      state, needsTrigger := Closed, false;
      ForgetStream();
      ForgetBuffer();
    }

    method ForgetBuffer()
      modifies this`period, this`quantum, this`capacity, this`mismatches, this`pinnedCycles, this`pinnedLog
      ensures period == 0 && capacity == 0 && quantum == 0 && mismatches == 0
      ensures pinnedCycles == 0 && pinnedLog == []
    {
      period, quantum, capacity, mismatches, pinnedCycles, pinnedLog := 0, 0, 0, 0, 0, [];
    }

    method ForgetStream()
      requires 0 < stride
      modifies this`skip, this`native, this`begun, this`output, this`torn, this`tornReads
      ensures Framed(native, begun, skip, torn, output, stride) && tornReads == |torn|
      ensures skip == 0 && native == [] && begun == 0 && output == []
    {
      skip, native, begun, output, torn, tornReads := 0, [], 0, [], {}, 0;
    }

    /** Stops the channel and resets its ring, torn frame and all. */
    method Suspend(accepted: bool) returns (ok: bool)
      requires Valid()
      modifies this`state, this`needsTrigger, this`skip
      modifies this`native, this`begun, this`output, this`torn, this`tornReads
      ensures Valid() && ok == (old(state) != Running || accepted)
      ensures if old(state) == Running && accepted then state == Setup && native == [] && skip == 0
              else state == old(state) && native == old(native) && skip == old(skip) && output == old(output)
    {
      if state != Running {
        return true;
      }
      if !accepted {
        return false;
      }
      state, needsTrigger := Setup, true;
      ForgetStream();
      return true;
    }

    /** read(2): end of file, an error, or at least one byte. */
    method NativeRead(max: nat) returns (r: ReadAnswer)
      modifies this`native, this`answer
      ensures answer == r
      ensures r.Got? ==> 0 < |r.bytes| <= max && native == old(native) + r.bytes
      ensures !r.Got? ==> native == old(native)
    {
      var bytes: seq<byte>, eof: bool, e: Errno := *, *, *;
      if 0 < |bytes| <= max {
        native := native + bytes;
        r := Got(bytes);
      } else {
        r := if eof then Eof else Failed(e);
      }
      answer := r;
    }

    /** Discards the rest of a torn frame before the next read. */
    method SkipTail() returns (status: IoStatus)
      requires Valid() && state == Running
      modifies this`native, this`skip, this`answer
      ensures Valid() && state == Running && old(native) <= native
      ensures status == Progress <==> skip == 0
      ensures status != Progress ==> !answer.Got? && status == StatusAfter(answer)
    {
      while skip != 0
        invariant Valid() && state == Running && old(native) <= native
        decreases skip
      {
        ghost var was := native;
        var r := NativeRead(Min(skip, SCRATCH_BYTES));
        match r {
          case Got(bytes) =>
            TailSkipped(was, bytes, begun, torn, stride);
            skip := skip - |bytes|;
          case Eof =>
            return Disconnected;
          case Failed(e) =>
            return StatusOf(e);
        }
      }
      return Progress;
    }

    /** Hands out whole frames that follow each other in the native stream, starting on a frame
        boundary. A read that stops inside a frame costs exactly that frame. */
    method Read(max: nat) returns (bytes: seq<byte>, status: IoStatus, ghost start: nat)
      requires Valid() && state != Closed
      modifies this
      ensures Valid() && state == Running && stride == old(stride) && old(native) <= native
      ensures output == old(output) + bytes && |bytes| <= max
      ensures status == match answer
                        case Got(_) => Progress
                        case Eof => Disconnected
                        case Failed(Again) => WouldBlock
                        case Failed(Interrupted) => WouldBlock
                        case Failed(Gone) => Disconnected
                        case Failed(Other(code)) => Fatal(code)
      ensures if status == Progress then WholeFrom(native, start, bytes, stride) else bytes == []
      ensures tornReads == old(tornReads) + (if skip != 0 && status == Progress then 1 else 0)
    {
      if state == Setup {
        state := Running;
      }
      status := SkipTail();
      if status == Progress {
        bytes, status, start := ReadFrames(max);
      } else {
        bytes, start := [], 0;
        assert output + [] == output;
      }
    }

    method ReadFrames(max: nat) returns (bytes: seq<byte>, status: IoStatus, ghost start: nat)
      requires Valid() && state == Running && skip == 0
      modifies this`native, this`skip, this`begun, this`output, this`torn, this`tornReads, this`answer
      ensures Valid() && state == Running && old(native) <= native
      ensures output == old(output) + bytes && |bytes| <= max
      ensures status == StatusAfter(answer)
      ensures if status == Progress then WholeFrom(native, start, bytes, stride) else bytes == []
      ensures tornReads == old(tornReads) + (if skip != 0 && status == Progress then 1 else 0)
    {
      ghost var was := native;
      var r := NativeRead(max);
      if r.Got? {
        bytes, start := Accept(r.bytes, was);
        status := Progress;
      } else {
        bytes, start := [], 0;
        assert output + [] == output;
        status := if r.Eof? then Disconnected else StatusOf(r.error);
      }
    }

    method Accept(got: seq<byte>, ghost was: seq<byte>) returns (bytes: seq<byte>, ghost start: nat)
      requires state == Running && skip == 0 && tornReads == |torn| && got != []
      requires Framed(was, begun, 0, torn, output, stride) && native == was + got
      requires Streak(pinnedLog) == pinnedCycles < PINNED_CYCLE_LIMIT
      modifies this`skip, this`begun, this`output, this`torn, this`tornReads
      ensures Valid()
      ensures output == old(output) + bytes && |bytes| <= |got| && WholeFrom(native, start, bytes, stride)
      ensures tornReads == old(tornReads) + (if skip != 0 then 1 else 0)
    {
      ghost var begun', torn' := AcceptFrames(was, got, begun, torn, output, stride);
      bytes := got[..WholeBytes(|got|, stride)];
      start := begun;
      skip := TailOf(|got|, stride);
      tornReads := tornReads + (if skip != 0 then 1 else 0);
      begun, torn, output := begun', torn', output + bytes;
    }

    /** Brings a started channel level with its period: the backlog is read away in whole frames,
        then the granted ring is recorded. */
    method PrimeBuffer(request: CaptureRequest, ready: bool, queued: nat, scratch: nat,
                       grantedCapacity: u32, grantedQuantum: u32)
      returns (geometry: CaptureGeometry, lost: bool)
      requires Valid() && state != Closed
      modifies this
      ensures Valid() && state == Running
      ensures geometry == CaptureApplied(request, grantedCapacity, grantedQuantum, deliveryNs)
      ensures period == request.period && capacity == geometry.capacity && quantum == geometry.quantum
    {
      state, needsTrigger, lost := Running, false, false;
      if ready {
        lost := ReadAway(Max(request.stride, 1), queued, scratch);
      }
      geometry := CaptureApplied(request, grantedCapacity, grantedQuantum, deliveryNs);
      RecordGrant(request.period, geometry);
    }

    method ReadAway(frame: nat, queued: nat, scratch: nat) returns (lost: bool)
      requires Valid() && state == Running && frame > 0
      modifies this
      ensures Valid() && state == Running
    {
      lost := false;
      var backlog: nat := queued;
      while backlog > 0
        invariant Valid() && state == Running
      {
        var chunk := WholeChunk(Min(backlog, scratch), frame);
        if chunk == 0 {
          break;
        }
        var bytes, status, _ := Read(chunk);
        lost := lost || status.Disconnected? || status.Fatal?;
        if bytes == [] {
          break;
        }
        backlog := SatSub(backlog, |bytes|);
      }
    }

    method RecordGrant(period: u32, geometry: CaptureGeometry)
      modifies this`period, this`quantum, this`capacity, this`mismatches, this`pinnedCycles, this`pinnedLog
      ensures this.period == period && quantum == geometry.quantum && capacity == geometry.capacity
      ensures mismatches == 0 && pinnedCycles == 0 && pinnedLog == []
    {
      this.period, quantum, capacity := period, geometry.quantum, geometry.capacity;
      mismatches, pinnedCycles, pinnedLog := 0, 0, [];
    }

    /** A cycle without an overrun ends the streak: recovery takes three more full rings. */
    method ClearOverrunObservation()
      requires Valid()
      modifies this`pinnedCycles, this`pinnedLog
      ensures Valid() && pinnedLog == []
    {
      pinnedCycles, pinnedLog := 0, [];
    }

    /** An overrun count alone is no damage. The ring is reset only when it was full at three
        consecutive overruns; `Some(accepted)` says that recovery was chosen. */
    method RecoverOverrun(fill: Option<u32>, accepted: bool) returns (r: Option<bool>)
      requires Valid()
      modifies this
      ensures Valid()
      ensures var pinned := fill.Some? && (old(capacity) == 0 || fill.value > SatSub(old(capacity), old(quantum)));
              var log := old(pinnedLog) + [pinned];
              && (r.Some? <==> |log| >= 3 && log[|log| - 3] && log[|log| - 2] && log[|log| - 1])
              && pinnedLog == if r.Some? then [] else log
      ensures r.None? ==> native == old(native) && skip == old(skip) && state == old(state)
      ensures r.Some? ==> r.value == (old(state) != Running || accepted)
      ensures r == Some(true) ==> native == [] && state != Running
    {
      var pinned := fill.Some? && (capacity == 0 || fill.value > SatSub(capacity, quantum));
      StreakPush(pinnedLog, pinned);
      pinnedLog := pinnedLog + [pinned];
      pinnedCycles := if pinned then SatAdd(pinnedCycles, 1) else 0;
      if pinnedCycles < PINNED_CYCLE_LIMIT {
        return None;
      }
      pinnedCycles, pinnedLog := 0, [];
      var ok := Suspend(accepted);
      r := Some(ok);
    }

    /** A changed period is taken in place, on its second sighting, exactly when the ring admits it. */
    method RetuneBuffer(request: CaptureRequest, primed: bool, accepted: bool) returns (r: CaptureRetune)
      requires Valid()
      modifies this
      ensures Valid() && stride == old(stride)
      ensures var same := !primed || old(period) == 0 || request.period == 0 || request.period == old(period);
              var g := CaptureApplied(request, old(capacity), old(quantum), deliveryNs);
              if same then r == Same
              else if old(mismatches) == 0 then r == Waiting
              else if g.required <= g.capacity then r == Taken(g) && period == request.period
              else r == if old(state) != Running || accepted then Restart else Replace
      ensures r != Restart ==> state == old(state) && native == old(native) && skip == old(skip)
      ensures r == Restart ==> state != Running && native == []
      ensures mismatches == if r == Waiting || r == Replace then SatAdd(old(mismatches), 1) else 0
      ensures period == if r.Taken? then request.period else old(period)
      ensures capacity == old(capacity) && quantum == old(quantum)
    {
      if !primed || period == 0 || request.period == 0 || request.period == period {
        mismatches := 0;
        return Same;
      }
      mismatches := SatAdd(mismatches, 1);
      if mismatches < 2 {
        return Waiting;
      }
      var g := CaptureApplied(request, capacity, quantum, deliveryNs);
      r := Settle(request.period, g, accepted);
    }

    /** Takes the new period over in place if the ring admits it, else stops the channel. */
    method Settle(newPeriod: u32, g: CaptureGeometry, accepted: bool) returns (r: CaptureRetune)
      requires Valid()
      modifies this`period, this`mismatches, this`state, this`needsTrigger, this`skip
      modifies this`native, this`begun, this`output, this`torn, this`tornReads
      ensures Valid()
      ensures r == if g.required <= g.capacity then Taken(g)
                   else if old(state) != Running || accepted then Restart else Replace
      ensures period == if r.Taken? then newPeriod else old(period)
      ensures if r == Restart then state != Running && native == []
              else state == old(state) && native == old(native) && skip == old(skip)
      ensures mismatches == if r == Replace then old(mismatches) else 0
    {
      if g.capacity >= g.required {
        period, mismatches := newPeriod, 0;
        return Taken(g);
      }
      var stopped := Suspend(accepted);
      if stopped {
        mismatches := 0;
        return Restart;
      }
      return Replace;
    }

    /** On a ring granted as planned a retune never restarts the stream, and the ring stays one that
        was granted as planned. */
    method RetuneWithinPlan(ghost scaled: bool, ghost first: CaptureRequest, request: CaptureRequest, primed: bool,
                            accepted: bool)
      returns (r: CaptureRetune)
      requires Valid() && FullCaptureGrant(scaled, first, capacity, quantum)
      requires request.period <= MaxPeriod(scaled, first.stride, first.deviceRate, first.graphRate)
      requires DeliveryQuantum(deliveryNs, request.deviceRate, request.stride) <= quantum
      modifies this
      ensures Valid() && FullCaptureGrant(scaled, first, capacity, quantum) && quantum == old(quantum)
      ensures !r.Restart? && !r.Replace? && state == old(state) && native == old(native) && skip == old(skip)
      ensures primed && old(period) != 0 && request.period != 0 && old(mismatches) > 0 ==> period == request.period
    {
      CaptureRetunesStayInPlace(scaled, first, capacity, quantum, request.period);
      r := RetuneBuffer(request, primed, accepted);
    }
  }

  function WholeChunk(n: nat, frame: nat): (chunk: nat)
    requires frame > 0
    ensures chunk <= n
  {
    n / frame * frame
  }

  /** How many observations in a row, up to the last, were pinned. */
  function Streak(log: seq<bool>): nat {
    if log == [] || !log[|log| - 1] then 0 else Streak(log[..|log| - 1]) + 1
  }

  lemma StreakPush(log: seq<bool>, pinned: bool)
    ensures Streak(log + [pinned]) == if pinned then Streak(log) + 1 else 0
    ensures var l := log + [pinned];
            Streak(l) >= 3 <==> |l| >= 3 && l[|l| - 3] && l[|l| - 2] && l[|l| - 1]
  {
    var l := log + [pinned];
    assert l[..|l| - 1] == log;
    if log != [] {
      var a := log[..|log| - 1];
      assert l[|l| - 2] == log[|log| - 1];
      if a != [] {
        assert l[|l| - 3] == a[|a| - 1];
      }
    }
  }

  // ---------------------------------------------------------------- frames

  lemma FrameBounds(f: nat, stride: nat)
    ensures f * stride <= (f + 1) * stride
  {
    assert (f + 1) * stride == f * stride + stride;
  }

  lemma Less(a: nat, b: nat, m: nat)
    requires a <= b
    ensures a * m <= b * m
  {}

  lemma Sum(a: nat, b: nat, m: nat)
    ensures (a + b) * m == a * m + b * m
  {}

  lemma WholePart(q: nat, m: nat)
    requires m > 0
    ensures (q * m) % m == 0
  {
    ModPlusMultiple(0, q, m);
  }

  /** Frames that were complete stay as they are when more arrives. */
  lemma {:induction false} KeptStable(native: seq<byte>, more: seq<byte>, frames: nat, torn: set<nat>,
                                      torn': set<nat>, stride: nat)
    requires forall f :: 0 <= f < frames ==> (f in torn <==> f in torn')
    requires forall f :: 0 <= f < frames && f !in torn ==> (f + 1) * stride <= |native|
    ensures Kept(native + more, frames, torn', stride) == Kept(native, frames, torn, stride)
  {
    if frames > 0 {
      var f := frames - 1;
      KeptStable(native, more, f, torn, torn', stride);
      if f !in torn {
        FrameBounds(f, stride);
        assert (native + more)[f * stride..(f + 1) * stride] == native[f * stride..(f + 1) * stride];
      }
    }
  }

  /** A run of whole frames is handed out as it came. */
  lemma {:induction false} KeptRun(native: seq<byte>, from: nat, count: nat, torn: set<nat>, stride: nat)
    requires (from + count) * stride <= |native|
    requires forall f :: from <= f < from + count ==> f !in torn
    ensures from * stride <= (from + count) * stride
    ensures Kept(native, from + count, torn, stride)
         == Kept(native, from, torn, stride) + native[from * stride..(from + count) * stride]
    decreases count
  {
    Less(from, from + count, stride);
    if count > 0 {
      var last := from + count - 1;
      FrameBounds(last, stride);
      Less(from, last, stride);
      KeptRun(native, from, count - 1, torn, stride);
      TwoSlices(native, from * stride, last * stride, (last + 1) * stride, Kept(native, from, torn, stride));
    }
  }

  lemma TwoSlices(s: seq<byte>, i: nat, j: nat, k: nat, front: seq<byte>)
    requires i <= j <= k <= |s|
    ensures front + s[i..j] + s[j..k] == front + s[i..k]
  {
    assert s[i..j] + s[j..k] == s[i..k];
  }

  lemma AllComplete(len: nat, begun: nat, skip: nat, torn: set<nat>, stride: nat)
    requires len + skip == begun * stride && skip < stride && (skip != 0 ==> begun > 0 && begun - 1 in torn)
    ensures forall f :: 0 <= f < begun && f !in torn ==> (f + 1) * stride <= len
  {
    forall f | 0 <= f < begun && f !in torn ensures (f + 1) * stride <= len {
      if skip == 0 {
        Less(f + 1, begun, stride);
      } else {
        Less(f + 1, begun - 1, stride);
        FrameBounds(begun - 1, stride);
        assert begun * stride == (begun - 1) * stride + stride;
      }
    }
  }

  /** Discarding a torn frame's tail changes nothing that was handed out. */
  lemma TailSkipped(native: seq<byte>, more: seq<byte>, begun: nat, torn: set<nat>, stride: nat)
    requires |native| <= begun * stride && begun * stride - |native| < stride
    requires |native| + |more| <= begun * stride && more != [] && begun > 0 && begun - 1 in torn
    ensures Kept(native + more, begun, torn, stride) == Kept(native, begun, torn, stride)
  {
    AllComplete(|native|, begun, begun * stride - |native|, torn, stride);
    KeptStable(native, more, begun, torn, torn, stride);
  }

  /** A read of `whole` frames and `rem` bytes of the next. */
  lemma ReadAppends(native: seq<byte>, got: seq<byte>, begun: nat, whole: nat, rem: nat, torn: set<nat>, stride: nat)
    requires |native| == begun * stride && rem < stride && |got| == whole * stride + rem
    requires forall f :: f in torn ==> f < begun
    ensures (begun + whole) * stride + rem == |native| + |got|
    ensures Kept(native + got, begun + whole, torn, stride)
         == Kept(native, begun, torn, stride) + got[..|got| - rem]
    ensures Kept(native + got, begun + whole + 1, torn + {begun + whole}, stride)
         == Kept(native, begun, torn, stride) + got[..|got| - rem]
    ensures (begun + whole + 1) * stride == (begun + whole) * stride + stride
  {
    var all, n := native + got, begun + whole;
    Sum(begun, whole, stride);
    Sum(n, 1, stride);
    AllComplete(|native|, begun, 0, torn, stride);
    KeptStable(native, got, begun, torn, torn, stride);
    KeptRun(all, begun, whole, torn, stride);
    assert all[begun * stride..n * stride] == got[..whole * stride];
    TornLast(all, n, torn, stride);
  }

  lemma SplitBytes(n: nat, stride: nat)
    requires stride > 0
    ensures n == n / stride * stride + n % stride && (n - n % stride) % stride == 0
  {
    WholePart(n / stride, stride);
  }

  /** Of `len` bytes: those in whole frames, and what the last frame lacks. */
  function WholeBytes(len: nat, stride: nat): (n: nat)
    requires stride > 0
    ensures n <= len
  {
    len - len % stride
  }

  function TailOf(len: nat, stride: nat): (n: nat)
    requires stride > 0
    ensures n < stride
  {
    if len % stride == 0 then 0 else stride - len % stride
  }

  lemma Shares(len: nat, stride: nat) returns (whole: nat, rem: nat)
    requires stride > 0
    ensures rem < stride && len == whole * stride + rem
    ensures WholeBytes(len, stride) == len - rem && WholeBytes(len, stride) % stride == 0
    ensures TailOf(len, stride) == if rem == 0 then 0 else stride - rem
  {
    whole, rem := len / stride, len % stride;
    SplitBytes(len, stride);
  }

  /** What one read does to the frames, and which bytes it hands out. */
  lemma AcceptFrames(native: seq<byte>, got: seq<byte>, begun: nat, torn: set<nat>, output: seq<byte>, stride: nat)
    returns (begun': nat, torn': set<nat>)
    requires Framed(native, begun, 0, torn, output, stride)
    ensures stride > 0
    ensures var bytes := got[..WholeBytes(|got|, stride)];
            && WholeFrom(native + got, begun, bytes, stride)
            && |torn'| == |torn| + (if TailOf(|got|, stride) != 0 then 1 else 0)
            && Framed(native + got, begun', TailOf(|got|, stride), torn', output + bytes, stride)
  {
    var whole, rem := Shares(|got|, stride);
    HandedOut(native, got, begun, WholeBytes(|got|, stride), stride);
    if rem == 0 {
      AcceptWhole(native, got, begun, whole, torn, output, stride);
      begun', torn' := begun + whole, torn;
    } else {
      AcceptTorn(native, got, begun, whole, rem, torn, output, stride);
      begun', torn' := begun + whole + 1, torn + {begun + whole};
    }
  }

  lemma AcceptWhole(native: seq<byte>, got: seq<byte>, begun: nat, whole: nat, torn: set<nat>, output: seq<byte>,
                    stride: nat)
    requires Framed(native, begun, 0, torn, output, stride) && |got| == whole * stride
    ensures Framed(native + got, begun + whole, 0, torn, output + got[..|got|], stride)
  {
    ReadAppends(native, got, begun, whole, 0, torn, stride);
  }

  lemma AcceptTorn(native: seq<byte>, got: seq<byte>, begun: nat, whole: nat, rem: nat, torn: set<nat>,
                   output: seq<byte>, stride: nat)
    requires Framed(native, begun, 0, torn, output, stride) && |got| == whole * stride + rem && 0 < rem < stride
    ensures begun + whole !in torn
    ensures Framed(native + got, begun + whole + 1, stride - rem, torn + {begun + whole}, output + got[..|got| - rem],
                   stride)
  {
    ReadAppends(native, got, begun, whole, rem, torn, stride);
  }

  lemma HandedOut(native: seq<byte>, got: seq<byte>, begun: nat, n: nat, stride: nat)
    requires stride > 0 && |native| == begun * stride && n <= |got| && n % stride == 0
    ensures WholeFrom(native + got, begun, got[..n], stride)
  {
    assert (native + got)[begun * stride..] == got;
  }

  lemma {:induction false} TornBeyond(native: seq<byte>, frames: nat, torn: set<nat>, f: nat, stride: nat)
    requires frames <= f
    ensures Kept(native, frames, torn + {f}, stride) == Kept(native, frames, torn, stride)
  {
    if frames > 0 {
      TornBeyond(native, frames - 1, torn, f, stride);
    }
  }

  lemma TornLast(native: seq<byte>, n: nat, torn: set<nat>, stride: nat)
    ensures Kept(native, n + 1, torn + {n}, stride) == Kept(native, n, torn, stride)
  {
    TornBeyond(native, n, torn, n, stride);
  }

  function Below(torn: set<nat>, n: nat): set<nat> { set f | f in torn && f < n }

  lemma BelowNext(torn: set<nat>, f: nat)
    ensures |Below(torn, f + 1)| == |Below(torn, f)| + (if f in torn then 1 else 0)
  {
    if f in torn {
      assert Below(torn, f + 1) == Below(torn, f) + {f};
    } else {
      assert Below(torn, f + 1) == Below(torn, f);
    }
  }

  lemma {:induction false} KeptLength(native: seq<byte>, n: nat, torn: set<nat>, stride: nat)
    requires forall f :: 0 <= f < n && f !in torn ==> (f + 1) * stride <= |native|
    ensures |Kept(native, n, torn, stride)| + |Below(torn, n)| * stride == n * stride
    decreases n
  {
    if n > 0 {
      var f := n - 1;
      KeptLength(native, f, torn, stride);
      BelowNext(torn, f);
      KeptGrows(native, f, torn, stride);
      Tally(|Kept(native, f, torn, stride)|, |Below(torn, f)|, f, stride);
    } else {
      assert Below(torn, n) == {};
    }
  }

  lemma KeptGrows(native: seq<byte>, f: nat, torn: set<nat>, stride: nat)
    requires f !in torn ==> (f + 1) * stride <= |native|
    ensures |Kept(native, f + 1, torn, stride)|
         == |Kept(native, f, torn, stride)| + (if f in torn then 0 else stride)
  {
    FrameBounds(f, stride);
    Sum(f, 1, stride);
  }

  /** One more frame, lost or kept. */
  lemma Tally(kept: nat, lost: nat, frames: nat, stride: nat)
    requires kept + lost * stride == frames * stride
    ensures kept + (lost + 1) * stride == (frames + 1) * stride
    ensures kept + stride + lost * stride == (frames + 1) * stride
  {
    Sum(lost, 1, stride);
    Sum(frames, 1, stride);
  }

  /** Every byte of every begun frame is accounted for: handed out, or lost with its torn frame. */
  lemma NothingElseIsLost(native: seq<byte>, begun: nat, skip: nat, torn: set<nat>, output: seq<byte>, stride: nat)
    requires stride > 0 && Framed(native, begun, skip, torn, output, stride)
    ensures |output| + |torn| * stride == |native| + skip
    ensures (|native| + skip) % stride == 0 && |output| % stride == 0
  {
    AllComplete(|native|, begun, skip, torn, stride);
    KeptLength(native, begun, torn, stride);
    assert Below(torn, begun) == torn;
    WholePart(begun, stride);
    Distribute(begun, |torn|, stride);
    BelowCount(torn, begun);
    WholePart(begun - |torn|, stride);
  }

  lemma {:induction false} BelowCount(torn: set<nat>, n: nat)
    ensures |Below(torn, n)| <= n
    decreases n
  {
    if n == 0 {
      assert Below(torn, n) == {};
    } else {
      BelowCount(torn, n - 1);
      BelowNext(torn, n - 1);
    }
  }
}
