/** The playback byte stream of one OSS channel. The kernel accepts any prefix of any write; the
    writer keeps the stream's frames intact whatever it accepts. */
module DspWriter {
  import opened Prelude
  import opened Silence
  import opened BufferPolicy

  const BULK_SILENCE_BYTES := 131_072
  const SILENCE_CHUNK_BYTES := 4096
  const MAX_TRIES := 100

  datatype DspState = Closed | Setup | Running

  /** Again: the ring is full. Gone: the descriptor or device is dead. */
  datatype Errno = Again | Interrupted | Gone | Other(code: int)

  datatype IoStatus = Progress | WouldBlock | Disconnected | Fatal(code: int)

  datatype Retune = Unchanged | Pending | Applied(geometry: PlaybackGeometry) | Reprime | Rebuild

  function StatusOf(e: Errno): IoStatus {
    match e
    case Again => WouldBlock
    case Interrupted => WouldBlock
    case Gone => Disconnected
    case Other(code) => Fatal(code)
  }

  /** `after` continues `before` with silence in the right phase of the frame. */
  ghost predicate Silenced(pattern: SilencePattern, before: seq<byte>, after: seq<byte>)
    requires pattern.Valid()
  {
    before <= after && forall p :: |before| <= p < |after| ==> after[p] == pattern.At(p)
  }

  class DspWriter {
    var state: DspState
    var needsTrigger: bool
    var pauseShadowed: bool
    var stride: nat
    var pattern: SilencePattern
    var cache: Option<seq<byte>>
    var frameOff: nat
    var period: u32
    var quantum: u32
    var capacity: u32
    var mismatches: u32
    var eighths: u32
    const deliveryNs: u64

    /** Every byte the kernel accepted since the ring was last reset. */
    ghost var stream: seq<byte>

    /** How often the kernel took nothing, and the error of its last answer. */
    ghost var refusals: nat
    ghost var lastError: Option<Errno>

    ghost predicate Valid()
      reads this
    {
      && Configured()
      && frameOff == |stream| % stride
      && (state != Running ==> stream == [])
    }

    /** The nonuniform pattern, and only that, is cached. */
    ghost predicate Configured()
      reads this`stride, this`pattern, this`cache
    {
      && 0 < stride
      && pattern.Valid() && pattern.frameMultiple == stride
      && pattern.UniformByte() in {-1, 0, 0x80, 0xff, 0x55}
      && (cache.Some? <==> pattern.UniformByte() < 0)
      && (cache.Some? ==> |cache.value| == Max(BULK_SILENCE_BYTES, stride)
                          && forall i :: 0 <= i < |cache.value| ==> cache.value[i] == pattern.At(i))
    }

    constructor (deliveryNs: u64)
      ensures Valid() && state == Closed && stream == []
    {
      this.deliveryNs := deliveryNs;
      state, needsTrigger, pauseShadowed := Closed, false, false;
      stride, pattern, cache := 1, SilencePattern([0], 1), None;
      frameOff, stream, refusals, lastError := 0, [], 0, None;
      period, quantum, capacity, mismatches, eighths := 0, 0, 0, 0, 10;
    }

    method Open()
      requires Valid() && state == Closed
      modifies this`state
      ensures Valid() && state == Setup
    {
      state := Setup;
    }

    method Close()
      requires Valid() && state != Closed
      modifies this
      ensures Valid() && state == Closed && stream == [] && frameOff == 0
      ensures pattern == old(pattern) && stride == old(stride)
    {
      EmptyFrame(stride);
      state, needsTrigger, pauseShadowed, frameOff, stream := Closed, false, false, 0, [];
      ForgetBuffer();
    }

    method ForgetBuffer()
      modifies this`period, this`quantum, this`capacity, this`mismatches
      ensures period == 0 && quantum == 0 && capacity == 0 && mismatches == 0
    {
      period, quantum, capacity, mismatches := 0, 0, 0, 0;
    }

    /** The negotiated frame size and format. Nonuniform silence is cached up front. */
    method Configure(stride: nat, format: Format)
      requires Valid() && state == Setup && 0 < stride
      modifies this
      ensures Valid() && state == Setup && stream == old(stream)
      ensures this.stride == stride && pattern == ForConfig(format, stride)
    {
      this.stride, pattern, frameOff := stride, ForConfig(format, stride), 0;
      UniformFormats(format, stride);
      EmptyFrame(stride);
      var uniform := pattern.UniformByte();
      if uniform >= 0 {
        cache := None;
      } else {
        var bytes := FillCache(pattern, Max(BULK_SILENCE_BYTES, stride));
        cache := Some(bytes);
      }
    }

    static method FillCache(pattern: SilencePattern, len: nat) returns (bytes: seq<byte>)
      requires pattern.Valid()
      ensures |bytes| == len && forall i :: 0 <= i < len ==> bytes[i] == pattern.At(i)
    {
      var cache := new byte[len];
      pattern.FillAt(0, cache, 0, len);
      bytes := cache[..];
    }

    /** Stops the channel and resets its ring. `accepted` is the driver's answer. */
    method Suspend(accepted: bool) returns (ok: bool)
      requires Valid()
      modifies this`state, this`needsTrigger, this`pauseShadowed, this`frameOff, this`stream
      ensures Valid() && ok == (old(state) != Running || accepted)
      ensures if old(state) == Running && accepted then state == Setup && stream == [] && frameOff == 0
              else state == old(state) && stream == old(stream)
    {
      if state != Running {
        return true;
      }
      if !accepted {
        return false;
      }
      state, needsTrigger, pauseShadowed, frameOff, stream := Setup, true, false, 0, [];
      return true;
    }

    /** write(2): the kernel takes any prefix or fails. */
    method NativeWrite(buf: seq<byte>) returns (n: int, error: Option<Errno>)
      modifies this`stream, this`refusals, this`lastError
      ensures -1 <= n <= |buf| && (n == -1 <==> error.Some?)
      ensures stream == old(stream) + (if n > 0 then buf[..n] else [])
      ensures refusals == old(refusals) + (if n > 0 then 0 else 1) && lastError == error
    {
      var k: int, e: Errno := *, *;
      if 0 <= k <= |buf| {
        n, error := k, None;
        stream := stream + buf[..k];
      } else {
        n, error := -1, Some(e);
      }
      lastError := error;
      if n <= 0 {
        refusals := refusals + 1;
      }
      assert stream == old(stream) + (if n > 0 then buf[..n] else []);
    }

    /** The one place bytes reach the kernel; every accepted byte moves the frame phase. */
    method WriteBuffered(buf: seq<byte>) returns (n: int, error: Option<Errno>)
      requires Valid() && state != Closed
      modifies this`state, this`frameOff, this`stream, this`refusals, this`lastError
      ensures Valid() && state == Running
      ensures -1 <= n <= |buf| && (n == -1 <==> error.Some?)
      ensures stream == old(stream) + (if n > 0 then buf[..n] else [])
      ensures refusals == old(refusals) + (if n > 0 then 0 else 1) && lastError == error
    {
      if state == Setup {
        state := Running;
      }
      n, error := NativeWrite(buf);
      if n > 0 {
        ModPush(|old(stream)|, n, stride);
        frameOff := (frameOff + n) % stride;
      }
    }

    /** Pushes a frame's tail, retrying while the ring is full and draining. */
    method WriteExact(buf: seq<byte>) returns (done: nat, error: Option<Errno>)
      requires Valid() && state != Closed
      modifies this`state, this`frameOff, this`stream, this`refusals, this`lastError
      ensures Valid() && state != Closed && (old(state) == Running || buf != [] ==> state == Running)
      ensures done <= |buf| && stream == old(stream) + buf[..done]
      ensures done == |buf| ==> error == None
      ensures refusals >= old(refusals) && (done < |buf| ==> refusals > old(refusals))
      ensures buf != [] ==> error == lastError
    {
      done, error := 0, None;
      var tries := 0;
      while done < |buf|
        invariant Valid() && state != Closed && 0 <= done <= |buf| && tries <= MAX_TRIES
        invariant stream == old(stream) + buf[..done] && refusals >= old(refusals)
        invariant old(state) == Running || done > 0 || tries > 0 ==> state == Running
        invariant done > 0 || tries > 0 ==> error == lastError
        invariant done == |buf| > 0 ==> error == None
        decreases |buf| - done, MAX_TRIES - tries
      {
        var n, e := WriteBuffered(buf[done..]);
        if n > 0 {
          AppendPart(old(stream), buf, done, n);
          done, error := done + n, None;
        } else {
          error := e;
          assert stream == old(stream) + buf[..done];
          if (n < 0 && error != Some(Again)) || needsTrigger {
            break;
          }
          tries := tries + 1;
          if tries > MAX_TRIES {
            break;
          }
        }
      }
      if done == |buf| {
        error := None;
      }
    }

    /** Starts a trigger-suspended channel. */
    method Arm()
      modifies this`needsTrigger
      ensures !needsTrigger
    {
      needsTrigger := false;
    }

    /** Appends exactly a prefix of `buf`, `bytes` long. The caller keeps the rest and passes it
        again; a frame the kernel split is completed from it first. */
    method Write(buf: seq<byte>) returns (bytes: nat, status: IoStatus)
      requires Valid() && state != Closed
      modifies this`state, this`frameOff, this`stream, this`refusals, this`lastError, this`needsTrigger
      ensures Valid() && state == Running && !needsTrigger
      ensures bytes <= |buf| && stream == old(stream) + buf[..bytes]
      ensures refusals >= old(refusals)
      ensures refusals == old(refusals) && buf != [] ==> bytes > 0 && (bytes == |buf| || frameOff == 0)
      ensures bytes == |buf| || lastError.None? ==> status == if bytes > 0 then Progress else WouldBlock
      ensures bytes < |buf| && lastError.Some? ==>
                status == match lastError.value
                          case Again => WouldBlock
                          case Interrupted => WouldBlock
                          case Gone => Disconnected
                          case Other(code) => Fatal(code)
    {
      var error: Option<Errno> := None;
      var complete := true;
      bytes := 0;
      if state == Setup {
        state := Running;
      }
      if frameOff != 0 && buf != [] {
        var need := Min(stride - frameOff, |buf|);
        var done, e := WriteExact(buf[..need]);
        assert buf[..need][..done] == buf[..done];
        bytes := done;
        if done < need {
          error, complete := e, false;
        }
      }
      assert stream == old(stream) + buf[..bytes];
      if complete && bytes < |buf| {
        bytes, error := WriteBulk(old(stream), buf, bytes);
      }
      Arm();
      status := if bytes == 0 && error.None? then WouldBlock
                else if bytes < |buf| && error.Some? then StatusOf(error.value)
                else Progress;
    }

    /** One bulk write from `from` on; if the kernel splits a frame, only that frame is completed. */
    method WriteBulk(ghost before: seq<byte>, buf: seq<byte>, from: nat)
      returns (bytes: nat, error: Option<Errno>)
      requires Valid() && state == Running && from < |buf| && stream == before + buf[..from]
      modifies this`state, this`frameOff, this`stream, this`refusals, this`lastError
      ensures Valid() && state == Running
      ensures from <= bytes <= |buf| && stream == before + buf[..bytes]
      ensures refusals >= old(refusals)
      ensures refusals == old(refusals) ==> from < bytes && (bytes == |buf| || frameOff == 0)
      ensures error == lastError
    {
      bytes := from;
      var n, e := WriteBuffered(buf[from..]);
      error := e;
      if n > 0 {
        AppendPart(before, buf, from, n);
        bytes, error := from + n, None;
        if frameOff != 0 && bytes < |buf| {
          bytes, error := CompleteFrame(before, buf, bytes);
        }
      } else {
        assert stream == before + buf[..from];
      }
    }

    /** Completes the frame that a bulk write left open. */
    method CompleteFrame(ghost before: seq<byte>, buf: seq<byte>, from: nat)
      returns (bytes: nat, error: Option<Errno>)
      requires Valid() && state == Running && frameOff != 0 && from < |buf| && stream == before + buf[..from]
      modifies this`state, this`frameOff, this`stream, this`refusals, this`lastError
      ensures Valid() && state == Running
      ensures from <= bytes <= |buf| && stream == before + buf[..bytes]
      ensures refusals >= old(refusals)
      ensures refusals == old(refusals) ==> bytes == |buf| || frameOff == 0
      ensures error == lastError
    {
      var need := Min(stride - frameOff, |buf| - from);
      var done, e := WriteExact(buf[from..from + need]);
      PartOfPart(buf, from, need, done);
      FrameClosed(|before| + from, stride);
      AppendPart(before, buf, from, done);
      bytes, error := from + done, e;
    }

    /** A caller that retains what was not accepted reproduces its input, however often it is
        turned away. */
    method WriteRetained(input: seq<byte>, attempts: nat) returns (done: nat)
      requires Valid() && state != Closed
      modifies this`state, this`frameOff, this`stream, this`refusals, this`lastError, this`needsTrigger
      ensures Valid() && done <= |input| && stream == old(stream) + input[..done]
    {
      done := 0;
      for i := 0 to attempts
        invariant Valid() && state != Closed && done <= |input| && stream == old(stream) + input[..done]
      {
        var bytes, _ := Write(input[done..]);
        AppendPart(old(stream), input, done, bytes);
        done := done + bytes;
      }
    }

    /** The repair buffer holds what an open frame lacks; the program panics on wider gaps. */
    predicate Repairable()
      reads this
    {
      frameOff == 0 || stride <= frameOff + SILENCE_CHUNK_BYTES
    }

    /** Closes an open frame with format silence. */
    method RealignWithSilence() returns (ok: bool)
      requires Valid() && state == Running && Repairable()
      modifies this`state, this`frameOff, this`stream, this`refusals, this`lastError
      ensures Valid() && state == Running && ok == (frameOff == 0)
      ensures Silenced(pattern, old(stream), stream)
      ensures |stream| < |old(stream)| + stride
      ensures refusals >= old(refusals) && (refusals == old(refusals) ==> ok)
      ensures if ok then |stream| == |old(stream)| + OpenBytes(old(frameOff))
              else |stream| < |old(stream)| + OpenBytes(old(frameOff))
    {
      if frameOff != 0 {
        var need := stride - frameOff;
        var silence := new byte[SILENCE_CHUNK_BYTES];
        pattern.FillAt(frameOff, silence, 0, need);
        ghost var off := frameOff;
        var done, _ := WriteExact(silence[..need]);
        PhaseExact(pattern, old(stream), silence[..need][..done], off);
        FrameClosed(|old(stream)|, stride);
        if done < need {
          FrameOpen(|old(stream)|, done, stride);
        }
      }
      return frameOff == 0;
    }

    /** What an open frame lacks. */
    function OpenBytes(off: nat): nat
      requires off < stride
      reads this`stride
    {
      if off == 0 then 0 else stride - off
    }

    function AlignedSilenceChunk(count: nat, bufferLen: nat): (chunk: nat)
      requires frameOff < stride && (frameOff == 0 || stride <= frameOff + bufferLen)
      reads this`frameOff, this`stride
      ensures chunk <= count && chunk <= bufferLen
      ensures chunk == count || (frameOff + chunk) % stride == 0
      ensures stride <= frameOff + bufferLen && count > 0 ==> chunk > 0
      ensures frameOff == 0 && bufferLen < stride && count % stride == 0 ==> chunk == 0
    {
      var chunk := Min(count, bufferLen);
      if chunk < count then
        AlignDown(frameOff, chunk, stride);
        chunk - (frameOff + chunk) % stride
      else
        WholeOrNothing(count, stride);
        chunk
    }

    method WriteUniformSilence(count: nat, value: byte, bufferLen: nat)
      requires Valid() && state == Running && (frameOff == 0 || stride <= bufferLen)
      requires pattern.UniformByte() == value && (frameOff + count) % stride == 0
      modifies this`state, this`frameOff, this`stream, this`refusals, this`lastError
      ensures Valid() && state == Running && Silenced(pattern, old(stream), stream)
      ensures |stream| <= |old(stream)| + count && refusals >= old(refusals)
      ensures refusals == old(refusals) && stride <= bufferLen ==> |stream| == |old(stream)| + count
      ensures frameOff == 0 || stride <= bufferLen
    {
      var left: nat := count;
      while left > 0
        invariant Valid() && state == Running && Silenced(pattern, old(stream), stream)
        invariant left <= count && |stream| + left == |old(stream)| + count
        invariant refusals == old(refusals)
        invariant stride <= bufferLen || (frameOff == 0 && left == count)
      {
        var chunk := AlignedSilenceChunk(left, bufferLen);
        if chunk == 0 {
          break;
        }
        ghost var was := stream;
        var part := seq(chunk, i => value);
        UniformExact(pattern, stream, part, value);
        var n := PushSilence(part);
        SilencedStep(pattern, old(stream), was, stream);
        if n == 0 {
          break;
        }
        left := left - n;
      }
    }

    /** One write of silence. */
    method PushSilence(part: seq<byte>) returns (n: nat)
      requires Valid() && state == Running && Silenced(pattern, stream, stream + part)
      modifies this`state, this`frameOff, this`stream, this`refusals, this`lastError
      ensures Valid() && state == Running && Silenced(pattern, old(stream), stream)
      ensures n <= |part| && stream == old(stream) + part[..n]
      ensures refusals == old(refusals) + (if n > 0 then 0 else 1)
    {
      var k, _ := WriteBuffered(part);
      if k <= 0 {
        return 0;
      }
      SilencedPrefix(pattern, old(stream), part, k);
      return k;
    }

    /** Nonuniform silence comes from the cache, from the byte the open frame is at. */
    method WritePatternSilence(count: nat)
      requires Valid() && state == Running && cache.Some?
      modifies this`state, this`frameOff, this`stream, this`refusals, this`lastError
      ensures Valid() && state == Running && Silenced(pattern, old(stream), stream)
      ensures |stream| <= |old(stream)| + count && refusals >= old(refusals)
      ensures refusals == old(refusals) ==> |stream| == |old(stream)| + count
    {
      var left: nat := count;
      while left > 0
        invariant Valid() && state == Running && Silenced(pattern, old(stream), stream)
        invariant left <= count && |stream| + left == |old(stream)| + count
        invariant refusals == old(refusals)
      {
        var chunk := AlignedSilenceChunk(left, |cache.value| - frameOff);
        if chunk == 0 {
          break;
        }
        ghost var was := stream;
        CachedExact(pattern, cache.value, stream, frameOff, chunk);
        var n := PushSilence(cache.value[frameOff..frameOff + chunk]);
        SilencedStep(pattern, old(stream), was, stream);
        if n == 0 {
          break;
        }
        left := left - n;
      }
    }

    /** Fills with whole frames of silence as far as the ring takes it. */
    method WriteSilence(count: nat)
      requires Valid() && state != Closed && Repairable()
      modifies this`state, this`frameOff, this`stream, this`refusals, this`lastError
      ensures Valid() && state == Running && Silenced(pattern, old(stream), stream)
      ensures |stream| < |old(stream)| + stride + count
      ensures refusals == old(refusals) && stride <= SILENCE_CHUNK_BYTES ==>
                |stream| == |old(stream)| + OpenBytes(old(frameOff)) + (count - count % stride)
    {
      if state == Setup {
        state := Running;
      }
      if frameOff != 0 {
        var ok := RealignWithSilence();
        if !ok {
          return;
        }
      }
      ghost var aligned := stream;
      FillFrames(count);
      SilencedStep(pattern, old(stream), aligned, stream);
    }

    /** Whole frames of silence from a frame boundary on. */
    method FillFrames(count: nat)
      requires Valid() && state == Running && frameOff == 0
      modifies this`state, this`frameOff, this`stream, this`refusals, this`lastError
      ensures Valid() && state == Running && Silenced(pattern, old(stream), stream)
      ensures |stream| <= |old(stream)| + count && refusals >= old(refusals)
      ensures refusals == old(refusals) && stride <= SILENCE_CHUNK_BYTES ==>
                |stream| == |old(stream)| + (count - count % stride)
    {
      var whole := count - count % stride;
      WholeFrames(count, stride);
      var uniform := pattern.UniformByte();
      if uniform == 0 || uniform == 0x80 {
        WriteUniformSilence(whole, uniform, BULK_SILENCE_BYTES);
      } else if uniform == 0xff || uniform == 0x55 {
        WriteUniformSilence(whole, uniform, SILENCE_CHUNK_BYTES);
      } else {
        WritePatternSilence(whole);
      }
    }

    /** As `Valid`, but a stopped writer may still remember a frame offset. */
    ghost predicate Stale()
      reads this
    {
      && Configured()
      && if state == Running then frameOff == |stream| % stride else stream == []
    }

    /** Ends a retained input sequence. `reset` tells the caller that the ring was reset. The next
        sequence starts on a frame boundary unless the driver refuses to stop the channel. */
    method EndBufferSequence(accepted: bool) returns (reset: bool)
      requires Stale() && (state == Running && !pauseShadowed ==> Repairable())
      modifies this`state, this`needsTrigger, this`pauseShadowed, this`frameOff, this`stream, this`refusals, this`lastError
      ensures Valid()
      ensures reset ==> old(state) == Running && state == Setup && stream == [] && accepted
      ensures !reset ==> state == old(state) && Silenced(pattern, old(stream), stream)
      ensures frameOff != 0 <==>
                old(state) == Running && old(frameOff) != 0 && !accepted
                && (old(pauseShadowed) || |stream| < |old(stream)| + OpenBytes(old(frameOff)))
      ensures old(pauseShadowed) ==>
                reset == (old(state) == Running && old(frameOff) != 0 && accepted)
                && (!reset ==> stream == old(stream))
      ensures frameOff != 0 ==> !reset
      ensures old(frameOff) == 0 ==> !reset && stream == old(stream)
      ensures refusals == old(refusals) && !old(pauseShadowed) ==> frameOff == 0 && !reset
    {
      EmptyFrame(stride);
      if frameOff == 0 {
        return false;
      }
      if state != Running {
        frameOff := 0;
        return false;
      }
      reset := CloseFrame(accepted);
    }

    method CloseFrame(accepted: bool) returns (reset: bool)
      requires Valid() && state == Running && frameOff != 0 && (pauseShadowed || Repairable())
      modifies this`state, this`needsTrigger, this`pauseShadowed, this`frameOff, this`stream, this`refusals, this`lastError
      ensures Valid()
      ensures reset ==> state == Setup && stream == [] && frameOff == 0 && accepted
      ensures !reset ==> state == Running && Silenced(pattern, old(stream), stream)
      ensures frameOff != 0 <==>
                !accepted && (old(pauseShadowed) || |stream| < |old(stream)| + OpenBytes(old(frameOff)))
      ensures old(pauseShadowed) ==> reset == accepted && (!reset ==> stream == old(stream))
      ensures frameOff != 0 ==> !reset
      ensures refusals == old(refusals) && !old(pauseShadowed) ==> frameOff == 0 && !reset
    {
      if !pauseShadowed {
        var ok := RealignWithSilence();
        if ok {
          return false;
        }
      }
      reset := Suspend(accepted);
    }

    // ---------------------------------------------------------------- ring geometry

    /** Primes a stopped channel: records the granted ring and fills it to the target. */
    method PrimeBuffer(request: PlaybackRequest, delayEighths: u32, grantedCapacity: u32, grantedQuantum: u32)
      returns (geometry: PlaybackGeometry)
      requires Valid() && state == Setup
      modifies this
      ensures Valid() && state == Running && eighths == delayEighths && pattern == old(pattern)
      ensures geometry == PlaybackApplied(request, grantedCapacity, grantedQuantum, deliveryNs, delayEighths)
      ensures period == request.period && capacity == geometry.capacity && quantum == geometry.quantum
      ensures mismatches == 0
      ensures Silenced(pattern, [], stream) && |stream| < geometry.targetFill + stride
      ensures refusals == old(refusals) && stride <= SILENCE_CHUNK_BYTES ==>
                |stream| == geometry.targetFill - geometry.targetFill % stride
    {
      geometry := PlaybackApplied(request, grantedCapacity, grantedQuantum, deliveryNs, delayEighths);
      RecordGrant(request.period, geometry, delayEighths);
      EmptyFrame(stride);
      FillFresh(geometry.targetFill);
    }

    method RecordGrant(period: u32, geometry: PlaybackGeometry, delayEighths: u32)
      modifies this`period, this`quantum, this`capacity, this`mismatches, this`eighths
      ensures this.period == period && quantum == geometry.quantum && capacity == geometry.capacity
      ensures mismatches == 0 && eighths == delayEighths
    {
      this.period, quantum, capacity := period, geometry.quantum, geometry.capacity;
      mismatches, eighths := 0, delayEighths;
    }

    method FillFresh(count: nat)
      requires Valid() && stream == [] && frameOff == 0 && state == Setup
      modifies this`state, this`frameOff, this`stream, this`refusals, this`lastError
      ensures Valid() && state == Running
      ensures Silenced(pattern, [], stream) && |stream| < count + stride
      ensures refusals == old(refusals) && stride <= SILENCE_CHUNK_BYTES ==> |stream| == count - count % stride
    {
      WriteSilence(count);
    }

    /** A changed period is applied in place, on its second sighting, exactly when the granted ring
        still admits it. */
    method RetuneBuffer(request: PlaybackRequest, fill: u32, accepted: bool) returns (r: Retune)
      requires Valid()
      modifies this
      ensures Valid() && pattern == old(pattern) && stride == old(stride)
      ensures var same := old(state) != Running || old(period) == 0 || request.period == 0
                          || request.period == old(period);
              var g := PlaybackRetuned(request, old(capacity), old(quantum), deliveryNs, fill, eighths);
              if same then r == Unchanged
              else if old(mismatches) == 0 then r == Pending
              else if g.required <= g.capacity then r == Applied(g) && period == request.period
              else r == if accepted then Reprime else Rebuild
      ensures r != Reprime ==> state == old(state) && stream == old(stream)
      ensures r == Reprime ==> state == Setup && stream == []
      ensures mismatches == if r == Pending || r == Rebuild then SatAdd(old(mismatches), 1) else 0
      ensures period == if r.Applied? then request.period else old(period)
      ensures capacity == old(capacity) && quantum == old(quantum) && eighths == old(eighths)
    {
      if state != Running || period == 0 || request.period == 0 || request.period == period {
        mismatches := 0;
        return Unchanged;
      }
      mismatches := SatAdd(mismatches, 1);
      if mismatches < 2 {
        return Pending;
      }
      var g := PlaybackRetuned(request, capacity, quantum, deliveryNs, fill, eighths);
      r := Settle(request.period, g, accepted);
    }

    /** On a ring granted as planned a retune never stops the channel, and the ring stays one that was
        granted as planned: so it is over every run of period changes. */
    method RetuneWithinPlan(ghost plan: RingPlan, request: PlaybackRequest, fill: u32, accepted: bool)
      returns (r: Retune)
      requires Valid() && FullGrant(plan, deliveryNs, eighths, capacity, quantum) && Covers(plan, request)
      modifies this
      ensures Valid() && FullGrant(plan, deliveryNs, eighths, capacity, quantum)
      ensures !r.Reprime? && !r.Rebuild? && state == old(state) && stream == old(stream)
      ensures old(state) == Running && old(period) != 0 && request.period != 0 && old(mismatches) > 0 ==>
                period == request.period
    {
      PlanCovers(plan, deliveryNs, eighths, capacity, quantum, request, fill);
      r := RetuneBuffer(request, fill, accepted);
    }

    /** Takes the new period over in place if the ring admits it, else stops the channel. */
    method Settle(newPeriod: u32, g: PlaybackGeometry, accepted: bool) returns (r: Retune)
      requires Valid() && state == Running
      modifies this`period, this`mismatches, this`state, this`needsTrigger, this`pauseShadowed
      modifies this`frameOff, this`stream
      ensures Valid()
      ensures r == if g.required <= g.capacity then Applied(g) else if accepted then Reprime else Rebuild
      ensures period == if r.Applied? then newPeriod else old(period)
      ensures if r == Reprime then state == Setup && stream == []
              else state == Running && stream == old(stream)
      ensures mismatches == if r == Rebuild then old(mismatches) else 0
    {
      if g.capacity >= g.required {
        period, mismatches := newPeriod, 0;
        return Applied(g);
      }
      var stopped := Suspend(accepted);
      if stopped {
        mismatches := 0;
        return Reprime;
      }
      return Rebuild;
    }
  }

  // ---------------------------------------------------------------- bytes and phases

  lemma AppendPart(before: seq<byte>, buf: seq<byte>, done: nat, n: nat)
    requires done + n <= |buf|
    ensures (before + buf[..done]) + buf[done..][..n] == before + buf[..done + n]
  {}

  lemma PartOfPart(buf: seq<byte>, from: nat, need: nat, n: nat)
    requires from + need <= |buf| && n <= need
    ensures buf[from..from + need][..n] == buf[from..][..n]
  {}

  lemma ModPush(len: nat, n: nat, m: nat)
    requires m > 0
    ensures (len % m + n) % m == (len + n) % m
  {
    var q := len / m;
    assert len == q * m + len % m;
    ModPlusMultiple(len % m + n, q, m);
  }

  lemma {:induction false} ModPlusMultiple(x: nat, q: nat, m: nat)
    requires m > 0
    ensures (x + q * m) % m == x % m
    decreases q
  {
    if q > 0 {
      ModPlusMultiple(x, q - 1, m);
      assert (x + q * m) == (x + (q - 1) * m) + m;
      ModPlusOne(x + (q - 1) * m, m);
    }
  }

  lemma ModPlusOne(y: nat, m: nat)
    requires m > 0
    ensures (y + m) % m == y % m
  {
    DivUnique(y / m + 1, y % m, (y + m) / m, (y + m) % m, m);
  }

  lemma DivUnique(q: int, r: nat, q': int, r': nat, m: nat)
    requires r < m && r' < m && q * m + r == q' * m + r'
    ensures r == r'
  {
    Distribute(q, q', m);
    if q > q' {
      AtLeastOnce(q - q', m);
    } else if q < q' {
      Distribute(q', q, m);
      AtLeastOnce(q' - q, m);
    }
  }

  lemma Distribute(a: int, b: int, m: int)
    ensures (a - b) * m == a * m - b * m
  {}

  lemma AtLeastOnce(d: nat, m: nat)
    requires d >= 1
    ensures d * m >= m
  {}

  /** Silence taken from the byte the frame is at continues the stream in phase. */
  lemma PhaseExact(pattern: SilencePattern, stream: seq<byte>, part: seq<byte>, off: nat)
    requires pattern.Valid() && off == |stream| % pattern.frameMultiple
    requires forall i :: 0 <= i < |part| ==> part[i] == pattern.At(off + i)
    ensures Silenced(pattern, stream, stream + part)
  {
    var after := stream + part;
    forall p | |stream| <= p < |after| ensures after[p] == pattern.At(p) {
      ModPush(|stream|, p - |stream|, pattern.frameMultiple);
    }
  }

  lemma CachedExact(pattern: SilencePattern, cache: seq<byte>, stream: seq<byte>, off: nat, chunk: nat)
    requires pattern.Valid() && off == |stream| % pattern.frameMultiple && off + chunk <= |cache|
    requires forall i :: 0 <= i < |cache| ==> cache[i] == pattern.At(i)
    ensures Silenced(pattern, stream, stream + cache[off..off + chunk])
  {
    PhaseExact(pattern, stream, cache[off..off + chunk], off);
  }

  lemma SilencedPrefix(pattern: SilencePattern, stream: seq<byte>, part: seq<byte>, n: nat)
    requires pattern.Valid() && Silenced(pattern, stream, stream + part) && n <= |part|
    ensures Silenced(pattern, stream, stream + part[..n])
  {
    assert forall p :: |stream| <= p < |stream| + n ==> (stream + part[..n])[p] == (stream + part)[p];
  }

  lemma SilencedStep(pattern: SilencePattern, a: seq<byte>, b: seq<byte>, c: seq<byte>)
    requires pattern.Valid() && Silenced(pattern, a, b) && Silenced(pattern, b, c)
    ensures Silenced(pattern, a, c)
  {
    assert forall p :: |a| <= p < |b| ==> c[p] == b[p];
  }

  lemma UniformExact(pattern: SilencePattern, stream: seq<byte>, part: seq<byte>, value: byte)
    requires pattern.Valid() && pattern.UniformByte() == value
    requires forall i :: 0 <= i < |part| ==> part[i] == value
    ensures Silenced(pattern, stream, stream + part)
  {}

  /** An open frame is closed by the bytes it lacks, and by no fewer. */
  lemma FrameClosed(len: nat, m: nat)
    requires m > 0
    ensures (len + (m - len % m)) % m == 0
  {
    assert len - len % m == (len / m) * m;
    ModPlusMultiple(m, len / m, m);
  }

  lemma EmptyFrame(m: nat)
    requires m > 0
    ensures 0 % m == 0
  {}

  lemma FrameOpen(len: nat, n: nat, m: nat)
    requires m > 0 && len % m != 0 && n < m - len % m
    ensures (len + n) % m != 0
  {
    ModPush(len, n, m);
  }

  lemma AlignDown(off: nat, chunk: nat, m: nat)
    requires off < m && (off == 0 || m <= off + chunk)
    ensures (off + chunk) % m <= chunk && (off + (chunk - (off + chunk) % m)) % m == 0
    ensures m <= off + chunk ==> (off + chunk) % m < chunk
    ensures off == 0 && chunk < m ==> (off + chunk) % m == chunk
  {
    var r := Remainder(off + chunk, m);
    assert off + (chunk - r) == off + chunk - r;
  }

  lemma Remainder(x: nat, m: nat) returns (r: nat)
    requires m > 0
    ensures r == x % m && r < m && r <= x && (x - r) % m == 0
    ensures if m <= x then r <= x - m else r == x
  {
    r := x % m;
    WholeFrames(x, m);
    if m <= x {
      ModPlusOne(x - m, m);
      RemainderWithin(x - m, m);
    }
  }

  lemma RemainderWithin(x: nat, m: nat)
    requires m > 0
    ensures x % m <= x
  {
    assert x / m * m >= 0;
  }

  lemma WholeOrNothing(count: nat, m: nat)
    requires m > 0
    ensures count % m == 0 ==> count == 0 || m <= count
  {}

  lemma WholeFrames(count: nat, m: nat)
    requires m > 0
    ensures count % m <= count && (count - count % m) % m == 0
  {
    assert count - count % m == (count / m) * m;
    ModPlusMultiple(0, count / m, m);
  }
}
