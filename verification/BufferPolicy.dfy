/** Ring geometry: how large a kernel ring is asked for, when a granted ring admits a period, and
    which fill it is driven at. Byte counts are saturating 32-bit numbers. */
module BufferPolicy {
  import opened Prelude

  const MIN_BUFFER_BYTES: u32 := 65_536
  const CAPACITY_MIN: u32 := 131_072
  const CAPACITY_MAX: u32 := 4 * 1024 * 1024

  datatype PlaybackRequest = PlaybackRequest(
    period: u32, write: u32, maximumWrite: u32, stride: u32, deviceRate: u32, graphRate: u32)

  datatype PlaybackGeometry = PlaybackGeometry(
    capacity: u32, quantum: u32, targetFill: u32, targetGoal: u32, minimumFill: u32, required: u32,
    delayCapped: bool)

  datatype CaptureRequest = CaptureRequest(period: u32, stride: u32, deviceRate: u32, graphRate: u32)

  datatype CaptureGeometry = CaptureGeometry(
    capacity: u32, quantum: u32, targetFill: u32, peakFill: u32, required: u32)

  function Clamp(x: int, lo: int, hi: int): int { if x < lo then lo else if x > hi then hi else x }

  /** The kernel's byte budget per channel; `scaled` selects the newer kernels' policy. */
  function CapacityLimit(scaled: bool, stride: u32, rate: u32): (limit: u32)
    ensures CAPACITY_MIN <= limit <= CAPACITY_MAX
  {
    if scaled then Clamp(Mul64(Mul64(stride, rate), 200) / 1000, CAPACITY_MIN, CAPACITY_MAX)
    else CAPACITY_MIN
  }

  function Mul64(a: u64, b: u32): u64 { Min(a * b, U64_MAX) }

  function Div64(a: u64, b: u32): (q: u64)
    requires b > 0
    ensures q <= a
  {
    assert a / b <= a;
    a / b
  }

  function GraphFramesInDeviceBytes(frames: u64, deviceRate: u32, graphRate: u32, stride: u32): u32 {
    if graphRate == 0 then Min(Mul64(frames, stride), U32_MAX)
    else Min(Mul64(Div64(Mul64(frames, deviceRate), graphRate), stride), U32_MAX)
  }

  /** One graph cycle of the largest quantum that is still planned for. */
  function MaxPeriod(scaled: bool, stride: u32, deviceRate: u32, graphRate: u32): u32 {
    var s := Max(stride, 1);
    Min(GraphFramesInDeviceBytes(2048, deviceRate, graphRate, s),
        SatMul(Div64(Div64(CapacityLimit(scaled, s, deviceRate), s), 4), s))
  }

  function DesiredDelay(period: u32, eighths: u32): u32 { SatMul(period / 8, eighths) }

  function FillFloor(period: u32, blocksize: u32): u32 { SatAdd(period, Max(period / 4, blocksize)) }

  function PlaybackRequired(period: u32, desired: u32, blocksize: u32, writeMax: u32): u32 {
    Max(SatAdd(SatMul(period, 2), desired),
        SatAdd(SatAdd(FillFloor(period, blocksize), writeMax), blocksize))
  }

  function PlaybackStable(maxPeriod: u32, transfer: u32, eighths: u32): u32 {
    PlaybackRequired(maxPeriod, DesiredDelay(maxPeriod, eighths), transfer, maxPeriod)
  }

  function Transfer(fragment: u32, hardwareChunk: u32): u32 {
    Max(if fragment == 0 then 1024 else fragment, hardwareChunk)
  }

  function PlaybackCapacityRequest(scaled: bool, period: u32, maxPeriod: u32, stride: u32, rate: u32,
                                   fragment: u32, hardwareChunk: u32, writeMax: u32, eighths: u32): u32 {
    var transfer := Transfer(fragment, hardwareChunk);
    Min(Max(Max(PlaybackRequired(period, DesiredDelay(period, eighths), transfer, writeMax),
                PlaybackStable(maxPeriod, transfer, eighths)),
            MIN_BUFFER_BYTES),
        CapacityLimit(scaled, stride, rate))
  }

  function TargetDelay(granted: u32, period: u32, blocksize: u32, writeMax: u32, desired: u32): (u32, bool) {
    if granted >= SatMul(period, 2) then
      var floor := FillFloor(period, blocksize);
      var ceiling := Max(SatSub(granted, SatAdd(writeMax, blocksize)), period);
      var wanted := Max(desired, floor);
      (Max(Min(wanted, ceiling), period), wanted > ceiling)
    else (granted / 2, false)
  }

  function CaptureTargets(period: u32, blocksize: u32, ring: u32): (u32, u32) {
    var target := SatAdd(period, blocksize / 2);
    var peak := SatAdd(SatAdd(target, blocksize / 2), period / 2);
    if ring > 0 then
      var ringPeak := SatSub(ring, blocksize);
      var minPeak := Min(SatAdd(target, blocksize), ringPeak);
      (target, Max(Min(peak, ringPeak), minPeak))
    else (target, peak)
  }

  function CaptureCapacityRequest(scaled: bool, period: u32, maxPeriod: u32, stride: u32, rate: u32): u32 {
    Min(Max(Max(SatMul(period, 4), SatMul(maxPeriod, 4)), MIN_BUFFER_BYTES), CapacityLimit(scaled, stride, rate))
  }

  function CaptureRequired(period: u32, blocksize: u32): u32 {
    Max(SatAdd(CaptureTargets(period, blocksize, 0).0, SatMul(blocksize, 2)), SatMul(period, 2))
  }

  /** The device's delivery quantum, a duration, in bytes of whole frames. */
  function DeliveryQuantum(ns: u64, rate: u32, stride: u32): u32 {
    var s := Max(stride, 1);
    var bytes := Min(ns * rate * s / 1_000_000_000, U32_MAX);
    var whole := (bytes + s - 1) / s * s;
    if whole <= U32_MAX then whole else U32_MAX - U32_MAX % s
  }

  function PlaybackPlan(scaled: bool, r: PlaybackRequest, deliveryNs: u64, fragment: u32, eighths: u32): u32 {
    PlaybackCapacityRequest(scaled, r.period, MaxPeriod(scaled, r.stride, r.deviceRate, r.graphRate),
                            r.stride, r.deviceRate, fragment,
                            DeliveryQuantum(deliveryNs, r.deviceRate, r.stride),
                            Max(r.period, r.maximumWrite), eighths)
  }

  function PlaybackApplied(r: PlaybackRequest, capacity: u32, grantedQuantum: u32, deliveryNs: u64,
                           eighths: u32): PlaybackGeometry {
    var quantum := Max(grantedQuantum, DeliveryQuantum(deliveryNs, r.deviceRate, r.stride));
    var writeMax := Max(r.period, r.maximumWrite);
    var desired := DesiredDelay(r.period, eighths);
    var (target, capped) := TargetDelay(capacity, r.period, quantum, writeMax, desired);
    PlaybackGeometry(capacity, quantum, target, target, FillFloor(r.period, quantum),
                     PlaybackRequired(r.period, desired, quantum, writeMax), capped)
  }

  function PlaybackRetuned(r: PlaybackRequest, capacity: u32, grantedQuantum: u32, deliveryNs: u64,
                           currentFill: u32, eighths: u32): PlaybackGeometry {
    var g := PlaybackApplied(r, capacity, grantedQuantum, deliveryNs, eighths);
    g.(targetFill := Min(g.targetGoal, SatSub(SatAdd(currentFill, r.write), r.period)))
  }

  function CaptureApplied(r: CaptureRequest, capacity: u32, grantedQuantum: u32, deliveryNs: u64): CaptureGeometry {
    var quantum := Max(grantedQuantum, DeliveryQuantum(deliveryNs, r.deviceRate, r.stride));
    var (target, peak) := CaptureTargets(r.period, quantum, capacity);
    CaptureGeometry(capacity, quantum, target, peak, CaptureRequired(r.period, quantum))
  }

  /** The fill below which a counted underrun is believed. */
  function UnderrunLow(targetFill: u32, quantum: u32, period: u32, drained: u32): u32 {
    var low := Max(Min(period, SatSub(targetFill, quantum)), period / 4);
    var wander := Max(period / 4, quantum);
    Max(Min(low, SatSub(SatSub(targetFill, drained), wander)), period / 16)
  }

  // ---------------------------------------------------------------- planning

  lemma DivTwice(a: nat, b: nat, c: nat)
    requires b > 0 && c > 0
    ensures a / b / c * b * c <= a
  {
    var q := a / b;
    var r := q / c;
    assert r * c <= q;
    assert q * b <= a;
    assert (r * c) * b <= q * b;
  }

  /** Four of the largest planned periods always fit the kernel's budget. */
  lemma FourPeriodsFit(scaled: bool, stride: u32, deviceRate: u32, graphRate: u32)
    ensures 4 * MaxPeriod(scaled, stride, deviceRate, graphRate) <= CapacityLimit(scaled, Max(stride, 1), deviceRate)
  {
    var s := Max(stride, 1);
    DivTwice(CapacityLimit(scaled, s, deviceRate), s, 4);
  }

  /** What a ring must hold grows with each of period, delay, transfer and write. */
  lemma RequiredMonotone(p: u32, d: u32, b: u32, w: u32, p': u32, d': u32, b': u32, w': u32)
    requires p <= p' && d <= d' && b <= b' && w <= w'
    ensures PlaybackRequired(p, d, b, w) <= PlaybackRequired(p', d', b', w')
  {
    assert p / 4 <= p' / 4;
  }

  lemma DelayMonotone(p: u32, p': u32, eighths: u32)
    requires p <= p'
    ensures DesiredDelay(p, eighths) <= DesiredDelay(p', eighths)
  {
    assert p / 8 <= p' / 8;
    assert (p / 8) * eighths <= (p' / 8) * eighths;
  }

  lemma TwoPeriods(m: u32, eighths: u32)
    requires eighths <= 16
    ensures DesiredDelay(m, eighths) <= 2 * m
  {
    assert (m / 8) * eighths <= (m / 8) * 16;
  }

  lemma StableFits(m: u32, t: u32, delay: u32)
    requires t <= m && delay <= 2 * m
    ensures PlaybackRequired(m, delay, t, m) <= 4 * m
  {}

  lemma RequestUncut(scaled: bool, period: u32, m: u32, stride: u32, rate: u32, fragment: u32,
                     chunk: u32, writeMax: u32, eighths: u32)
    requires 4 * m <= CapacityLimit(scaled, stride, rate) && eighths <= 16
    requires period <= m && writeMax <= m && Transfer(fragment, chunk) <= m
    ensures PlaybackCapacityRequest(scaled, period, m, stride, rate, fragment, chunk, writeMax, eighths)
         == Max(PlaybackStable(m, Transfer(fragment, chunk), eighths), MIN_BUFFER_BYTES)
    ensures PlaybackStable(m, Transfer(fragment, chunk), eighths) <= 4 * m
  {
    var t := Transfer(fragment, chunk);
    DelayMonotone(period, m, eighths);
    RequiredMonotone(period, DesiredDelay(period, eighths), t, writeMax, m, DesiredDelay(m, eighths), t, m);
    TwoPeriods(m, eighths);
    StableFits(m, t, DesiredDelay(m, eighths));
  }

  /** For delays up to two periods and transfers up to the largest period the request is the true
      requirement of the largest period: the kernel's budget does not cut it. */
  lemma RequestIsNotTruncated(scaled: bool, r: PlaybackRequest, deliveryNs: u64, fragment: u32, eighths: u32)
    requires var m := MaxPeriod(scaled, r.stride, r.deviceRate, r.graphRate);
             && r.stride > 0 && eighths <= 16 && r.period <= m && r.maximumWrite <= m
             && Transfer(fragment, DeliveryQuantum(deliveryNs, r.deviceRate, r.stride)) <= m
    ensures var m := MaxPeriod(scaled, r.stride, r.deviceRate, r.graphRate);
            var t := Transfer(fragment, DeliveryQuantum(deliveryNs, r.deviceRate, r.stride));
            && PlaybackPlan(scaled, r, deliveryNs, fragment, eighths)
               == Max(PlaybackStable(m, t, eighths), MIN_BUFFER_BYTES)
            && PlaybackStable(m, t, eighths) <= 4 * m
  {
    FourPeriodsFit(scaled, r.stride, r.deviceRate, r.graphRate);
    RequestUncut(scaled, r.period, MaxPeriod(scaled, r.stride, r.deviceRate, r.graphRate), r.stride,
                 r.deviceRate, fragment, DeliveryQuantum(deliveryNs, r.deviceRate, r.stride),
                 Max(r.period, r.maximumWrite), eighths);
  }

  /** A granted ring retunes in place to every period up to `m` exactly when it holds the
      requirement of `m` itself. */
  lemma RetunesStayInPlaceIff(capacity: u32, quantum: u32, m: u32, eighths: u32)
    ensures PlaybackStable(m, quantum, eighths) <= capacity <==>
            forall p: u32, w: u32 :: p <= m && w <= m ==>
              PlaybackRequired(p, DesiredDelay(p, eighths), quantum, Max(p, w)) <= capacity
  {
    if PlaybackStable(m, quantum, eighths) <= capacity {
      forall p: u32, w: u32 | p <= m && w <= m
        ensures PlaybackRequired(p, DesiredDelay(p, eighths), quantum, Max(p, w)) <= capacity
      {
        DelayMonotone(p, m, eighths);
        RequiredMonotone(p, DesiredDelay(p, eighths), quantum, Max(p, w), m, DesiredDelay(m, eighths), quantum, m);
      }
    } else {
      assert PlaybackRequired(m, DesiredDelay(m, eighths), quantum, Max(m, m)) > capacity;
    }
  }

  lemma InPlace(capacity: u32, q: u32, t: u32, m: u32, period: u32, writeMax: u32, eighths: u32)
    requires q <= t && period <= m && writeMax <= m && PlaybackStable(m, t, eighths) <= capacity
    ensures PlaybackRequired(period, DesiredDelay(period, eighths), q, writeMax) <= capacity
  {
    DelayMonotone(period, m, eighths);
    RequiredMonotone(period, DesiredDelay(period, eighths), q, writeMax, m, DesiredDelay(m, eighths), t, m);
  }

  /** A ring that was planned, granted in full and delivers in the planned transfers never needs to
      be rebuilt for another period. */
  lemma RetunesStayInPlace(scaled: bool, first: PlaybackRequest, deliveryNs: u64, fragment: u32,
                           eighths: u32, capacity: u32, grantedQuantum: u32, later: PlaybackRequest, fill: u32)
    requires var m := MaxPeriod(scaled, first.stride, first.deviceRate, first.graphRate);
             var t := Transfer(fragment, DeliveryQuantum(deliveryNs, first.deviceRate, first.stride));
             && first.stride > 0 && eighths <= 16 && first.period <= m && first.maximumWrite <= m && t <= m
             && grantedQuantum <= t && later.period <= m && later.maximumWrite <= m
    requires later.stride == first.stride && later.deviceRate == first.deviceRate
    requires PlaybackPlan(scaled, first, deliveryNs, fragment, eighths) <= capacity
    ensures var applied := PlaybackApplied(first, capacity, grantedQuantum, deliveryNs, eighths);
            var g := PlaybackRetuned(later, capacity, applied.quantum, deliveryNs, fill, eighths);
            applied.required <= applied.capacity && g.required <= g.capacity
  {
    var m := MaxPeriod(scaled, first.stride, first.deviceRate, first.graphRate);
    var t := Transfer(fragment, DeliveryQuantum(deliveryNs, first.deviceRate, first.stride));
    RequestIsNotTruncated(scaled, first, deliveryNs, fragment, eighths);
    var q := Max(grantedQuantum, DeliveryQuantum(deliveryNs, first.deviceRate, first.stride));
    InPlace(capacity, q, t, m, first.period, Max(first.period, first.maximumWrite), eighths);
    InPlace(capacity, q, t, m, later.period, Max(later.period, later.maximumWrite), eighths);
  }

  /** What a playback ring was planned for, and the transfer size it was granted. */
  datatype RingPlan = RingPlan(scaled: bool, first: PlaybackRequest, fragment: u32, grantedQuantum: u32)

  /** The largest period of the plan. */
  function Largest(p: RingPlan): u32 { MaxPeriod(p.scaled, p.first.stride, p.first.deviceRate, p.first.graphRate) }

  /** The ring was planned for such periods, granted in full, and delivers in the planned transfers. */
  predicate FullGrant(p: RingPlan, deliveryNs: u64, eighths: u32, capacity: u32, quantum: u32) {
    var t := Transfer(p.fragment, DeliveryQuantum(deliveryNs, p.first.deviceRate, p.first.stride));
    && p.first.stride > 0 && eighths <= 16
    && Covers(p, p.first) && p.grantedQuantum <= t <= Largest(p)
    && PlaybackPlan(p.scaled, p.first, deliveryNs, p.fragment, eighths) <= capacity
    && quantum == PlaybackApplied(p.first, capacity, p.grantedQuantum, deliveryNs, eighths).quantum
  }

  predicate Covers(p: RingPlan, later: PlaybackRequest) {
    && later.period <= Largest(p) && later.maximumWrite <= Largest(p)
    && later.stride == p.first.stride && later.deviceRate == p.first.deviceRate
  }

  lemma PlanCovers(p: RingPlan, deliveryNs: u64, eighths: u32, capacity: u32, quantum: u32, later: PlaybackRequest,
                   fill: u32)
    requires FullGrant(p, deliveryNs, eighths, capacity, quantum) && Covers(p, later)
    ensures var g := PlaybackRetuned(later, capacity, quantum, deliveryNs, fill, eighths);
            g.required <= g.capacity
  {
    RetunesStayInPlace(p.scaled, p.first, deliveryNs, p.fragment, eighths, capacity, p.grantedQuantum, later, fill);
  }

  /** The same for capture, whose plan is for four of the largest periods. */
  predicate FullCaptureGrant(scaled: bool, first: CaptureRequest, capacity: u32, quantum: u32) {
    var m := MaxPeriod(scaled, first.stride, first.deviceRate, first.graphRate);
    && first.stride > 0 && quantum <= m
    && CaptureCapacityRequest(scaled, first.period, m, first.stride, first.deviceRate) <= capacity
  }

  // ---------------------------------------------------------------- what the numbers are

  /** `q` is the quotient of `n` by `d`, rounded down. */
  ghost predicate Quotient(n: nat, d: nat, q: nat) { q * d <= n < q * d + d }

  lemma DivIsQuotient(n: nat, d: nat)
    requires d > 0
    ensures Quotient(n, d, n / d)
  {}

  /** Graph frames take the whole device frames that pass in the same time, in bytes. */
  lemma GraphFramesAreWholeDeviceFrames(frames: u64, deviceRate: u32, graphRate: u32, stride: u32)
    requires frames * deviceRate <= U64_MAX
    ensures var bytes := GraphFramesInDeviceBytes(frames, deviceRate, graphRate, stride);
            if graphRate == 0 then bytes == Min(frames * stride, U32_MAX)
            else exists q: nat :: Quotient(frames * deviceRate, graphRate, q) && bytes == Min(q * stride, U32_MAX)
  {
    if graphRate != 0 {
      DivIsQuotient(frames * deviceRate, graphRate);
    }
  }

  /** The scaled budget is a fifth of a second of audio between its two limits. */
  lemma LimitIsAFifthOfASecond(stride: u32, rate: u32)
    ensures var limit, second := CapacityLimit(true, stride, rate), stride * rate;
            if second < 5 * 131_072 then limit == 131_072
            else if second >= 5 * 4_194_304 then limit == 4_194_304
            else 5 * limit <= second < 5 * limit + 5
  {
    var second: int := stride * rate;
    SecondFits(stride, rate);
    assert Mul64(stride, rate) == second;
  }

  lemma SecondFits(stride: u32, rate: u32)
    ensures stride * rate <= U64_MAX
  {
    ScaleUp(stride, U32_MAX, rate);
  }

  /** The largest planned period: a 2048-frame graph cycle, or if four of that would not fit the budget, as
      many whole frames as fit four times. */
  lemma LargestPeriod(scaled: bool, stride: u32, deviceRate: u32, graphRate: u32)
    requires stride > 0
    ensures var cycle := GraphFramesInDeviceBytes(2048, deviceRate, graphRate, stride);
            var limit, m := CapacityLimit(scaled, stride, deviceRate), MaxPeriod(scaled, stride, deviceRate, graphRate);
            exists frames: nat :: FitsFourTimes(frames, stride, limit) && m == Min(cycle, frames * stride)
  {
    var limit := CapacityLimit(scaled, stride, deviceRate);
    var all := limit / stride;
    DivIsQuotient(limit, stride);
    var frames := all / 4;
    FourTimes(limit, stride, all, frames);
    assert FitsFourTimes(frames, stride, limit);
    assert SatMul(frames, stride) == frames * stride;
  }

  /** `frames` frames are the most that fit `limit` four times. */
  ghost predicate FitsFourTimes(frames: nat, stride: nat, limit: nat) {
    4 * (frames * stride) <= limit < 4 * (frames * stride + stride)
  }

  lemma FourTimes(limit: nat, stride: nat, all: nat, frames: nat)
    requires Quotient(limit, stride, all) && 4 * frames <= all < 4 * frames + 4
    ensures FitsFourTimes(frames, stride, limit)
  {
    ScaleUp(4 * frames, all, stride);
    ScaleUp(all + 1, 4 * frames + 4, stride);
    Regroup(frames, stride);
    assert (all + 1) * stride == all * stride + stride;
  }

  lemma ScaleUp(a: nat, b: nat, c: nat)
    requires a <= b
    ensures a * c <= b * c
  {}

  lemma Regroup(frames: nat, stride: nat)
    ensures (4 * frames) * stride == 4 * (frames * stride)
    ensures (4 * frames + 4) * stride == 4 * (frames * stride + stride)
  {}

  /** Two periods and the delay fit, and so does the floor with a write and a delivery on top. */
  predicate Admits(granted: int, period: int, quantum: int, writeMax: int, desired: int) {
    && 2 * period + desired <= granted
    && period + Max(period / 4, quantum) + writeMax + quantum <= granted
  }

  lemma AdmittedIff(granted: u32, period: u32, quantum: u32, writeMax: u32, desired: u32)
    requires granted < U32_MAX
    ensures PlaybackRequired(period, desired, quantum, writeMax) <= granted <==>
              Admits(granted, period, quantum, writeMax, desired)
  {}

  /** A playback ring is asked for with the smallest size of 64 KiB or more that admits both this period and
      the largest one with the wanted transfer, 1024 bytes if none is wanted, but within the budget. */
  lemma RequestIff(scaled: bool, period: u32, m: u32, stride: u32, rate: u32, fragment: u32, chunk: u32,
                   writeMax: u32, eighths: u32, granted: u32)
    requires granted < U32_MAX
    ensures var t := Max(if fragment > 0 then fragment else 1024, chunk);
            PlaybackCapacityRequest(scaled, period, m, stride, rate, fragment, chunk, writeMax, eighths) <= granted <==>
              CapacityLimit(scaled, stride, rate) <= granted
              || (65_536 <= granted
                  && Admits(granted, period, t, writeMax, Min((period / 8) * eighths, U32_MAX))
                  && Admits(granted, m, t, m, Min((m / 8) * eighths, U32_MAX)))
  {
    var t := Transfer(fragment, chunk);
    AdmittedIff(granted, period, t, writeMax, DesiredDelay(period, eighths));
    AdmittedIff(granted, m, t, m, DesiredDelay(m, eighths));
  }

  /** A capture ring: four of this period and four of the largest, 64 KiB at least, within the budget. */
  lemma CaptureRequestIff(scaled: bool, period: u32, m: u32, stride: u32, rate: u32, granted: u32)
    requires granted < U32_MAX
    ensures CaptureCapacityRequest(scaled, period, m, stride, rate) <= granted <==>
              CapacityLimit(scaled, stride, rate) <= granted
              || (65_536 <= granted && 4 * period <= granted && 4 * m <= granted)
  {}

  /** The target of a ring of two periods or more is the wanted delay, or the floor if that is more, but it
      leaves room for a write and a delivery and is a period at least. A smaller ring is driven half full. */
  predicate OnTarget(target: int, capped: bool, granted: int, period: int, quantum: int, writeMax: int, desired: int) {
    if granted < Min(2 * period, U32_MAX) then target == granted / 2 && !capped
    else
      var wanted := Min(Max(desired, period + Max(period / 4, quantum)), U32_MAX);
      var room := Max(granted - writeMax - quantum, period);
      target == (if wanted <= room then wanted else room) && (capped <==> wanted > room)
  }

  /** A retuned ring keeps its size. Its goal is the delay of the new period; for now it aims at what is in
      it once this write is in and a period is out, if that is less. */
  lemma RetunedGeometry(r: PlaybackRequest, capacity: u32, grantedQuantum: u32, deliveryNs: u64, fill: u32,
                        eighths: u32)
    ensures var g := PlaybackRetuned(r, capacity, grantedQuantum, deliveryNs, fill, eighths);
            var q := Max(grantedQuantum, DeliveryQuantum(deliveryNs, r.deviceRate, r.stride));
            var w := Max(r.period, r.maximumWrite);
            var desired, there := Min((r.period / 8) * eighths, U32_MAX), Min(fill + r.write, U32_MAX);
            && g.capacity == capacity && g.quantum == q
            && g.minimumFill == Min(r.period + Max(r.period / 4, q), U32_MAX)
            && (capacity < U32_MAX ==>
                 (g.required <= capacity <==> Admits(capacity, r.period, q, w, desired)))
            && OnTarget(g.targetGoal, g.delayCapped, capacity, r.period, q, w, desired)
            && PlaybackApplied(r, capacity, grantedQuantum, deliveryNs, eighths) == g.(targetFill := g.targetGoal)
            && (there <= r.period ==> g.targetFill == 0)
            && (there > r.period ==> g.targetFill == Min(g.targetGoal, there - r.period))
  {
    var q, w := Max(grantedQuantum, DeliveryQuantum(deliveryNs, r.deviceRate, r.stride)), Max(r.period, r.maximumWrite);
    TargetIsOn(capacity, r.period, q, w, DesiredDelay(r.period, eighths));
    if capacity < U32_MAX {
      AdmittedIff(capacity, r.period, q, w, DesiredDelay(r.period, eighths));
    }
  }

  lemma TargetIsOn(granted: u32, period: u32, quantum: u32, writeMax: u32, desired: u32)
    ensures var (target, capped) := TargetDelay(granted, period, quantum, writeMax, desired);
            OnTarget(target, capped, granted, period, quantum, writeMax, desired)
  {}

  /** A delivery is rounded up to whole frames: the fewest that hold it. */
  lemma DeliveryIsWholeFrames(ns: u64, rate: u32, stride: u32)
    requires stride > 0
    ensures var quantum, bytes := DeliveryQuantum(ns, rate, stride), Min(ns * rate * stride / 1_000_000_000, U32_MAX);
            exists frames: nat :: quantum == frames * stride
                               && (bytes + stride <= U32_MAX ==> bytes <= quantum < bytes + stride)
  {
    var bytes := Min(ns * rate * stride / 1_000_000_000, U32_MAX);
    var up := (bytes + stride - 1) / stride;
    DivIsQuotient(bytes + stride - 1, stride);
    var down := U32_MAX / stride;
    DivIsQuotient(U32_MAX, stride);
    assert U32_MAX - U32_MAX % stride == down * stride;
  }

  /** A capture channel aims at a period and half a delivery, and drains from half a period and half a
      delivery above that, or a whole delivery if that is more, but from one delivery below the ring's end
      at the latest. It admits a ring exactly when that holds two periods, and the target with two
      deliveries on top. */
  lemma CaptureGeometryIs(r: CaptureRequest, ring: u32, grantedQuantum: u32, deliveryNs: u64)
    requires 0 < ring < U32_MAX
    ensures var g := CaptureApplied(r, ring, grantedQuantum, deliveryNs);
            var q := Max(grantedQuantum, DeliveryQuantum(deliveryNs, r.deviceRate, r.stride));
            var target := Min(r.period + q / 2, U32_MAX);
            && g.capacity == ring && g.quantum == q && g.targetFill == target
            && g.peakFill == Min(Max(target + q / 2 + r.period / 2, target + q), Max(ring - q, 0))
            && (g.required <= ring <==> 2 * r.period <= ring && r.period + q / 2 + 2 * q <= ring)
  {
    var q := Max(grantedQuantum, DeliveryQuantum(deliveryNs, r.deviceRate, r.stride));
    PeakIs(r.period, q, ring);
    CaptureAdmittedIff(r.period, q, ring);
  }

  lemma PeakIs(period: u32, q: u32, ring: u32)
    requires 0 < ring
    ensures var (target, peak) := CaptureTargets(period, q, ring);
            && target == Min(period + q / 2, U32_MAX)
            && peak == Min(Max(target + q / 2 + period / 2, target + q), Max(ring - q, 0))
  {}

  lemma CaptureAdmittedIff(period: u32, q: u32, ring: u32)
    requires ring < U32_MAX
    ensures CaptureRequired(period, q) <= ring <==> 2 * period <= ring && period + q / 2 + 2 * q <= ring
  {}

  /** Underruns are believed below a period, or a delivery below the target if that is less, but not less
      than a quarter; all of it what was drained and the usual wander below the target at most, and a
      sixteenth of a period at least. */
  lemma UnderrunBand(targetFill: u32, quantum: u32, period: u32, drained: u32, x: nat)
    requires x > 0
    ensures x <= UnderrunLow(targetFill, quantum, period, drained) <==>
              || x <= period / 16
              || (x + drained + Max(period / 4, quantum) <= targetFill
                  && (x <= period / 4 || (x <= period && x + quantum <= targetFill)))
  {}

  // ---------------------------------------------------------------- headroom

  /** The playback target leaves a healthy floor below and room for a write and a delivery above
      exactly when the grant holds all three. */
  lemma HeadroomIff(granted: u32, period: u32, quantum: u32, writeMax: u32, desired: u32)
    requires 2 * period <= granted
    ensures var floor := period + Max(period / 4, quantum);
            var target := TargetDelay(granted, period, quantum, writeMax, desired).0;
            floor + writeMax + quantum <= granted <==>
              floor <= target && target + writeMax + quantum <= granted
  {}

  /** Every admitted ring has that headroom, and an underrun is believed exactly one period above
      empty. A ring size is read back as a signed number, so it is never the 32-bit maximum. */
  lemma AdmissionGivesHeadroom(granted: u32, period: u32, quantum: u32, writeMax: u32, desired: u32)
    requires PlaybackRequired(period, desired, quantum, writeMax) <= granted < U32_MAX
    requires period <= writeMax
    ensures var target := TargetDelay(granted, period, quantum, writeMax, desired).0;
            && FillFloor(period, quantum) <= target && target + writeMax + quantum <= granted
            && UnderrunLow(target, quantum, period, 0) == period <= target - quantum
  {
    HeadroomIff(granted, period, quantum, writeMax, desired);
  }

  /** A geometry whose needs overflow 32 bits is refused on every ring below the 32-bit maximum. */
  lemma OverflowIsRefused(granted: u32, period: u32, quantum: u32, writeMax: u32, desired: u32)
    requires period + Max(period / 4, quantum) + writeMax + quantum > U32_MAX
    ensures PlaybackRequired(period, desired, quantum, writeMax) <= granted <==> granted == U32_MAX
  {}

  /** Capture never aims above one arrival below the ring's end, and keeps a full arrival between
      target and peak exactly when the ring holds target, arrival and headroom. */
  lemma CaptureHeadroom(period: u32, quantum: u32, ring: u32)
    requires ring > 0
    ensures var (target, peak) := CaptureTargets(period, quantum, ring);
            && peak <= SatSub(ring, quantum)
            && (target < U32_MAX ==> (target + 2 * quantum <= ring <==> target + quantum <= peak))
  {}

  /** An admitted capture ring has both. */
  lemma CaptureAdmission(period: u32, quantum: u32, ring: u32)
    requires 0 < ring < U32_MAX && CaptureRequired(period, quantum) <= ring
    ensures var (target, peak) := CaptureTargets(period, quantum, ring);
            target + quantum <= peak <= ring - quantum
  {
    CaptureHeadroom(period, quantum, ring);
  }

  /** A capture ring granted as requested takes every later period up to the largest in place. */
  lemma CaptureRetunesStayInPlace(scaled: bool, r: CaptureRequest, capacity: u32, quantum: u32, later: u32)
    requires var m := MaxPeriod(scaled, r.stride, r.deviceRate, r.graphRate);
             && r.stride > 0 && later <= m && quantum <= m
             && CaptureCapacityRequest(scaled, r.period, m, r.stride, r.deviceRate) <= capacity
    ensures CaptureRequired(later, quantum) <= capacity
  {
    FourPeriodsFit(scaled, r.stride, r.deviceRate, r.graphRate);
  }
}
