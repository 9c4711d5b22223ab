/** Snapping a requested raw format to the nearest one a backend advertises. */
module Negotiation {
  import opened Prelude
  import opened ChannelMap

  const MAX_CHANNELS := 64

  datatype Layout = Layout(channels: u32, positions: Option<seq<Position>>)

  datatype ChannelSet = Discrete(layouts: seq<Layout>) | Range(min: u32, max: u32)

  datatype RateSet = Rates(rates: seq<u32>) | RateRange(min: u32, max: u32)

  datatype Configuration = Configuration(formats: seq<nat>, channels: ChannelSet, rates: RateSet, tolerance: u32)

  datatype Caps = Caps(configurations: seq<Configuration>, preferred: nat)

  datatype Raw = Raw(format: nat, channels: u32, rate: u32, position: seq<Position>)

  function Layouts(cs: ChannelSet): seq<Layout> {
    match cs
    case Discrete(layouts) => layouts
    case Range(lo, hi) => if lo > hi then [] else CountOnly(lo, hi)
  }

  function CountOnly(lo: u32, hi: u32): (ls: seq<Layout>)
    requires lo <= hi
    ensures |ls| == hi - lo + 1 && forall i :: 0 <= i < |ls| ==> ls[i] == Layout(lo + i, None)
    decreases hi - lo
  {
    if lo == hi then [Layout(lo, None)] else [Layout(lo, None)] + CountOnly(lo + 1, hi)
  }

  predicate RateAdmitted(rs: RateSet, rate: u32, tolerance: u32) {
    match rs
    case Rates(rates) => rate in rates
    case RateRange(lo, hi) => SatAdd(rate, tolerance) >= lo && rate <= SatAdd(hi, tolerance)
  }

  predicate ChannelsAdmitted(cs: ChannelSet, channels: u32) {
    match cs
    case Range(lo, hi) => lo <= channels <= hi
    case Discrete(layouts) => exists l :: l in layouts && l.channels == channels
  }

  /** StreamCaps::admits without positions. */
  predicate Admits(caps: Caps, format: nat, channels: u32, rate: u32) {
    exists c :: c in caps.configurations && format in c.formats
                && ChannelsAdmitted(c.channels, channels) && RateAdmitted(c.rates, rate, c.tolerance)
  }

  /** `x` is a rate of the range, and `rate` is within the tolerance of it. */
  predicate Reaches(x: int, lo: int, hi: int, rate: int, tolerance: int) {
    lo <= x <= hi && x - tolerance <= rate <= x + tolerance
  }

  /** A rate is admitted by a range exactly when some rate of the range is within the tolerance. */
  lemma RateAdmittedIff(lo: u32, hi: u32, rate: u32, tolerance: u32)
    requires lo <= hi
    ensures RateAdmitted(RateRange(lo, hi), rate, tolerance) <==>
              exists x :: Reaches(x, lo, hi, rate, tolerance)
  {
    var x := if rate < lo then lo else if rate > hi then hi else rate;
    assert RateAdmitted(RateRange(lo, hi), rate, tolerance) ==> Reaches(x, lo, hi, rate, tolerance);
  }

  /** The layouts offer exactly the admitted channel counts. */
  lemma LayoutsOffered(cs: ChannelSet, channels: u32)
    ensures ChannelsAdmitted(cs, channels) <==> exists l :: l in Layouts(cs) && l.channels == channels
  {
    match cs
    case Discrete(layouts) =>
    case Range(lo, hi) =>
      if lo <= channels <= hi {
        assert Layouts(cs)[channels - lo] == Layout(channels, None);
      }
  }

  // ---------------------------------------------------------------- distances

  /** The first of the smallest. */
  function ArgMin(ds: seq<nat>): (i: nat)
    requires ds != []
    ensures i < |ds| && forall j :: 0 <= j < |ds| ==> ds[i] <= ds[j]
    ensures forall j :: 0 <= j < i ==> ds[i] < ds[j]
  {
    var last := |ds| - 1;
    if last == 0 then 0
    else
      var i := ArgMin(ds[..last]);
      if ds[last] < ds[i] then last else i
  }

  function ChannelDistances(ls: seq<Layout>, channels: u32): (ds: seq<nat>)
    ensures |ds| == |ls| && forall i :: 0 <= i < |ls| ==> ds[i] == AbsDiff(ls[i].channels, channels)
  {
    seq(|ls|, i requires 0 <= i < |ls| => AbsDiff(ls[i].channels, channels))
  }

  function RateDistances(rates: seq<u32>, rate: u32): (ds: seq<nat>)
    ensures |ds| == |rates| && forall i :: 0 <= i < |rates| ==> ds[i] == AbsDiff(rates[i], rate)
  {
    seq(|rates|, i requires 0 <= i < |rates| => AbsDiff(rates[i], rate))
  }

  function ClampRate(rate: u32, lo: u32, hi: u32): u32 { if rate < lo then lo else if rate > hi then hi else rate }

  function MinOr(ds: seq<nat>): nat { if ds == [] then U32_MAX else ds[ArgMin(ds)] }

  function ChannelDistance(c: Configuration, channels: u32): nat {
    MinOr(ChannelDistances(Layouts(c.channels), channels))
  }

  function RateDistance(c: Configuration, rate: u32): nat {
    match c.rates
    case Rates(rates) => MinOr(RateDistances(rates, rate))
    case RateRange(lo, hi) => AbsDiff(rate, ClampRate(rate, lo, hi))
  }

  datatype Key = Key(missing: bool, channels: nat, rate: nat, unpreferred: bool)

  function KeyOf(caps: Caps, raw: Raw, i: nat): Key
    requires i < |caps.configurations|
  {
    var c := caps.configurations[i];
    Key(raw.format !in c.formats, ChannelDistance(c, raw.channels), RateDistance(c, raw.rate), i != caps.preferred)
  }

  /** Lexicographic order. */
  predicate Nearer(a: Key, b: Key) {
    if a.missing != b.missing then b.missing
    else if a.channels != b.channels then a.channels < b.channels
    else if a.rate != b.rate then a.rate < b.rate
    else !a.unpreferred && b.unpreferred
  }

  predicate Candidate(caps: Caps, i: nat) { i < |caps.configurations| && caps.configurations[i].formats != [] }

  function Keys(caps: Caps, raw: Raw): (ks: seq<Option<Key>>)
    ensures |ks| == |caps.configurations|
    ensures forall i :: 0 <= i < |ks| ==>
              ks[i] == if Candidate(caps, i) then Some(KeyOf(caps, raw, i)) else None
  {
    seq(|caps.configurations|, i requires 0 <= i < |caps.configurations| =>
      if Candidate(caps, i) then Some(KeyOf(caps, raw, i)) else None)
  }

  /** The first of the nearest keys. */
  function FirstNearest(ks: seq<Option<Key>>): (best: Option<nat>)
    ensures best.None? ==> forall i :: 0 <= i < |ks| ==> ks[i].None?
    ensures best.Some? ==> best.value < |ks| && ks[best.value].Some?
    ensures best.Some? ==> forall i :: 0 <= i < |ks| && ks[i].Some? ==>
              !Nearer(ks[i].value, ks[best.value].value)
              && (i < best.value ==> Nearer(ks[best.value].value, ks[i].value))
  {
    if ks == [] then None
    else
      var last := |ks| - 1;
      var front := ks[..last];
      var best := FirstNearest(front);
      assert forall i :: 0 <= i < last ==> front[i] == ks[i];
      if ks[last].None? then best
      else if best.None? then Some(last)
      else if Nearer(ks[last].value, ks[best.value].value) then Some(last)
      else best
  }

  function Choose(caps: Caps, raw: Raw): (best: Option<nat>)
    ensures best.None? ==> forall i: nat :: !Candidate(caps, i)
    ensures best.Some? ==> Candidate(caps, best.value)
    ensures best.Some? ==> forall i: nat :: Candidate(caps, i) ==>
              !Nearer(KeyOf(caps, raw, i), KeyOf(caps, raw, best.value))
              && (i < best.value ==> Nearer(KeyOf(caps, raw, best.value), KeyOf(caps, raw, i)))
  {
    FirstNearest(Keys(caps, raw))
  }

  // ---------------------------------------------------------------- the snapped format

  function SnapFormat(c: Configuration, format: nat): nat
    requires c.formats != []
  {
    if format in c.formats then format else c.formats[0]
  }

  function SnapRate(c: Configuration, rate: u32): u32 {
    match c.rates
    case Rates(rates) => if rates == [] then rate else rates[ArgMin(RateDistances(rates, rate))]
    case RateRange(lo, hi) => ClampRate(rate, lo, hi)
  }

  function AuxPositions(n: nat): (ps: seq<Position>)
    ensures |ps| == n && forall i :: 0 <= i < n ==> ps[i] == Aux(i)
  {
    if n == 0 then [] else AuxPositions(n - 1) + [Aux(n - 1)]
  }

  /** `news` laid over the beginning of `was`, as far as it reaches. */
  function Overlay(was: seq<Position>, news: seq<Position>): (ps: seq<Position>)
    ensures |ps| == |was|
  {
    var k := Min(|was|, |news|);
    news[..k] + was[k..]
  }

  function SnapChannels(c: Configuration, raw: Raw): Raw {
    var layouts := Layouts(c.channels);
    if layouts == [] then raw
    else
      var layout := layouts[ArgMin(ChannelDistances(layouts, raw.channels))];
      var channels := Min(layout.channels, MAX_CHANNELS);
      if channels == raw.channels then raw
      else
        raw.(channels := channels,
             position := Overlay(raw.position,
                                 if layout.positions.Some? then layout.positions.value else AuxPositions(channels)))
  }

  function SnapTo(c: Configuration, raw: Raw): Raw
    requires c.formats != []
  {
    var r := raw.(format := SnapFormat(c, raw.format));
    if Layouts(c.channels) == [] then r
    else
      var s := SnapChannels(c, r);
      s.(rate := SnapRate(c, s.rate))
  }

  function Snap(caps: Caps, raw: Raw): Raw {
    var best := Choose(caps, raw);
    if best.None? then raw else SnapTo(caps.configurations[best.value], raw)
  }

  // ---------------------------------------------------------------- what nearest means

  /** `x` is at least as close to `want` as `y`. */
  predicate Closer(x: int, y: int, want: int) {
    (if x >= want then x - want else want - x) <= (if y >= want then y - want else want - y)
  }

  /** `i` is the first of the rates closest to `want`. */
  predicate NearestRate(rates: seq<u32>, i: nat, want: u32) {
    && i < |rates|
    && (forall j :: 0 <= j < |rates| ==> Closer(rates[i], rates[j], want))
    && (forall j :: 0 <= j < i ==> !Closer(rates[j], rates[i], want))
  }

  predicate NearestLayout(ls: seq<Layout>, i: nat, want: u32) {
    && i < |ls|
    && (forall j :: 0 <= j < |ls| ==> Closer(ls[i].channels, ls[j].channels, want))
    && (forall j :: 0 <= j < i ==> !Closer(ls[j].channels, ls[i].channels, want))
  }

  /** `s` is the closest to `raw` that configuration `c` offers: a format it has, the count of the first
      closest layout with that layout's own positions, and the first closest rate. */
  ghost predicate NearestIn(c: Configuration, raw: Raw, s: Raw)
    requires c.formats != []
  {
    && s.format == (if raw.format in c.formats then raw.format else c.formats[0])
    && |s.position| == |raw.position|
    && if Layouts(c.channels) == [] then s.channels == raw.channels && s.rate == raw.rate && s.position == raw.position
       else NearestChannels(c, raw, s) && NearestRateIn(c, raw.rate, s.rate)
  }

  ghost predicate NearestChannels(c: Configuration, raw: Raw, s: Raw) {
    && |s.position| == |raw.position|
    && exists i: nat :: NearestLayout(Layouts(c.channels), i, raw.channels) && Placed(Layouts(c.channels)[i], raw, s)
  }

  /** The count is the layout's; the positions change only with it, to the layout's own or to AUX 0, 1, ... */
  ghost predicate Placed(l: Layout, raw: Raw, s: Raw)
    requires |s.position| == |raw.position|
  {
    && s.channels == (if l.channels <= 64 then l.channels else 64)
    && forall k :: 0 <= k < |raw.position| ==>
         s.position[k] == if s.channels == raw.channels then raw.position[k]
                          else if l.positions.Some? then
                            if k < |l.positions.value| then l.positions.value[k] else raw.position[k]
                          else if k < s.channels then Aux(k) else raw.position[k]
  }

  ghost predicate NearestRateIn(c: Configuration, want: u32, got: u32) {
    match c.rates
    case Rates(rates) =>
      if rates == [] then got == want else exists i: nat :: NearestRate(rates, i, want) && got == rates[i]
    case RateRange(lo, hi) => lo <= hi ==> got == if want < lo then lo else if want > hi then hi else want
  }

  /** The snapped format is the closest in its configuration, spelled out. */
  lemma SnapToIsNearest(c: Configuration, raw: Raw)
    requires c.formats != []
    ensures NearestIn(c, raw, SnapTo(c, raw))
  {
    if Layouts(c.channels) != [] {
      var r, t := raw.(format := SnapFormat(c, raw.format)), SnapTo(c, raw);
      var i := ChannelsAreNearest(c, r);
      PlacedLike(Layouts(c.channels)[i], r, SnapChannels(c, r), raw, t);
      assert NearestChannels(c, raw, t);
      RateIsNearest(c, raw.rate);
    }
  }

  lemma PlacedLike(l: Layout, raw: Raw, s: Raw, raw': Raw, s': Raw)
    requires |s.position| == |raw.position| && Placed(l, raw, s)
    requires raw'.channels == raw.channels && raw'.position == raw.position
    requires s'.channels == s.channels && s'.position == s.position
    ensures Placed(l, raw', s')
  {}

  lemma ChannelsAreNearest(c: Configuration, raw: Raw) returns (i: nat)
    requires Layouts(c.channels) != []
    ensures NearestLayout(Layouts(c.channels), i, raw.channels)
    ensures var s := SnapChannels(c, raw);
            |s.position| == |raw.position| && s.rate == raw.rate && Placed(Layouts(c.channels)[i], raw, s)
  {
    i := ClosestLayout(Layouts(c.channels), raw.channels);
    var layout := Layouts(c.channels)[i];
    var channels := Min(layout.channels, MAX_CHANNELS);
    if channels != raw.channels {
      OverlaidAt(raw.position, if layout.positions.Some? then layout.positions.value else AuxPositions(channels));
    }
  }

  lemma ClosestLayout(ls: seq<Layout>, want: u32) returns (i: nat)
    requires ls != []
    ensures NearestLayout(ls, i, want) && i == ArgMin(ChannelDistances(ls, want))
  {
    i := ArgMin(ChannelDistances(ls, want));
  }

  lemma OverlaidAt(was: seq<Position>, news: seq<Position>)
    ensures forall k :: 0 <= k < |was| ==> Overlay(was, news)[k] == if k < |news| then news[k] else was[k]
  {}

  lemma RateIsNearest(c: Configuration, want: u32)
    ensures NearestRateIn(c, want, SnapRate(c, want))
  {
    if c.rates.Rates? && c.rates.rates != [] {
      assert NearestRate(c.rates.rates, ArgMin(RateDistances(c.rates.rates, want)), want);
    }
  }

  /** How far a configuration is from a request, spelled out: the distance of its closest layout, and of
      its closest rate. */
  lemma DistancesAreAttained(c: Configuration, channels: u32, rate: u32)
    ensures forall l :: l in Layouts(c.channels) ==> ChannelDistance(c, channels) <= AbsDiff(l.channels, channels)
    ensures if Layouts(c.channels) == [] then ChannelDistance(c, channels) == 0xffff_ffff
            else exists l :: l in Layouts(c.channels) && ChannelDistance(c, channels) == AbsDiff(l.channels, channels)
    ensures c.rates.Rates? ==> forall r :: r in c.rates.rates ==> RateDistance(c, rate) <= AbsDiff(r, rate)
    ensures c.rates.Rates? ==>
              if c.rates.rates == [] then RateDistance(c, rate) == 0xffff_ffff
              else exists r :: r in c.rates.rates && RateDistance(c, rate) == AbsDiff(r, rate)
    ensures c.rates.RateRange? && c.rates.min <= c.rates.max ==>
              && (forall r :: c.rates.min <= r <= c.rates.max ==> RateDistance(c, rate) <= AbsDiff(r, rate))
              && exists r :: c.rates.min <= r <= c.rates.max && RateDistance(c, rate) == AbsDiff(r, rate)
  {
    var layouts := Layouts(c.channels);
    if layouts != [] {
      var i := ArgMin(ChannelDistances(layouts, channels));
      assert layouts[i] in layouts && ChannelDistance(c, channels) == AbsDiff(layouts[i].channels, channels);
    }
    match c.rates
    case Rates(rates) =>
      if rates != [] {
        var i := ArgMin(RateDistances(rates, rate));
        assert rates[i] in rates && RateDistance(c, rate) == AbsDiff(rates[i], rate);
      }
    case RateRange(lo, hi) =>
      if lo <= hi {
        var r := ClampRate(rate, lo, hi);
        assert lo <= r <= hi && RateDistance(c, rate) == AbsDiff(r, rate);
      }
  }

  /** Whether a configuration that offers a format comes before another: one that has the requested format,
      then the one with the closer count, then the closer rate, then the preferred one. */
  ghost predicate ComesFirst(caps: Caps, raw: Raw, b: nat, k: nat)
    requires b < |caps.configurations| && k < |caps.configurations|
  {
    var x, y := caps.configurations[b], caps.configurations[k];
    if (raw.format in x.formats) != (raw.format in y.formats) then raw.format in x.formats
    else if ChannelDistance(x, raw.channels) != ChannelDistance(y, raw.channels) then
      ChannelDistance(x, raw.channels) < ChannelDistance(y, raw.channels)
    else if RateDistance(x, raw.rate) != RateDistance(y, raw.rate) then
      RateDistance(x, raw.rate) < RateDistance(y, raw.rate)
    else if (b == caps.preferred) != (k == caps.preferred) then b == caps.preferred
    else b < k
  }

  /** The configuration a request is snapped to. */
  ghost predicate Nearest(caps: Caps, raw: Raw, b: nat) {
    Candidate(caps, b) && forall k: nat :: Candidate(caps, k) && k != b ==> ComesFirst(caps, raw, b, k)
  }

  lemma ChosenIsNearest(caps: Caps, raw: Raw)
    ensures var best := Choose(caps, raw);
            if best.None? then forall k: nat :: !Candidate(caps, k) else Nearest(caps, raw, best.value)
  {
    var best := Choose(caps, raw);
    if best.Some? {
      forall k: nat | Candidate(caps, k) && k != best.value ensures ComesFirst(caps, raw, best.value, k) {
        assert !Nearer(KeyOf(caps, raw, k), KeyOf(caps, raw, best.value));
        assert k < best.value ==> Nearer(KeyOf(caps, raw, best.value), KeyOf(caps, raw, k));
      }
    }
  }

  lemma SnapMeans(caps: Caps, raw: Raw)
    ensures if forall k: nat :: !Candidate(caps, k) then Snap(caps, raw) == raw
            else exists b: nat :: Nearest(caps, raw, b) && NearestIn(caps.configurations[b], raw, Snap(caps, raw))
  {
    ChosenIsNearest(caps, raw);
    var best := Choose(caps, raw);
    if best.Some? {
      SnapToIsNearest(caps.configurations[best.value], raw);
      assert Nearest(caps, raw, best.value) && Candidate(caps, best.value);
    }
  }

  /** The host's negotiation buffer. */
  class RawAudio {
    var format: nat
    var channels: u32
    var rate: u32
    const position: array<Position>

    function View(): Raw
      reads this, position
    {
      Raw(format, channels, rate, position[..])
    }

    constructor (raw: Raw)
      requires |raw.position| == MAX_CHANNELS
      ensures View() == raw && fresh(position)
    {
      format, channels, rate := raw.format, raw.channels, raw.rate;
      position := new Position[MAX_CHANNELS](i requires 0 <= i < MAX_CHANNELS => raw.position[i]);
      new;
      assert position[..] == raw.position;
    }

    /** Rewrites the request in place; the answer says whether anything differs. */
    method SnapToCaps(caps: Caps) returns (changed: bool)
      modifies this, position
      ensures View() == Snap(caps, old(View()))
      ensures if forall k: nat :: !Candidate(caps, k) then View() == old(View())
              else exists b: nat :: Nearest(caps, old(View()), b)
                                    && NearestIn(caps.configurations[b], old(View()), View())
      ensures changed <==> View().(position := old(View()).position) != old(View())
      ensures !changed ==> View() == old(View())
    {
      SnapMeans(caps, View());
      var best := Choose(caps, View());
      if best.None? {
        return false;
      }
      changed := SnapInto(caps.configurations[best.value]);
    }

    method SnapInto(c: Configuration) returns (changed: bool)
      requires c.formats != []
      modifies this, position
      ensures View() == SnapTo(c, old(View()))
      ensures changed <==> View().(position := old(View()).position) != old(View())
      ensures !changed ==> View() == old(View())
    {
      changed := false;
      if format !in c.formats {
        format, changed := c.formats[0], true;
      }
      var layouts := Layouts(c.channels);
      if layouts == [] {
        return;
      }
      var layout := layouts[ArgMin(ChannelDistances(layouts, channels))];
      var count := Min(layout.channels, MAX_CHANNELS);
      if count != channels {
        channels := count;
        WritePositions(if layout.positions.Some? then layout.positions.value else AuxPositions(count));
        changed := true;
      }
      var snapped := SnapRate(c, rate);
      if snapped != rate {
        rate, changed := snapped, true;
      }
    }

    method WritePositions(news: seq<Position>)
      modifies position
      ensures position[..] == Overlay(old(position[..]), news)
    {
      var k := Min(position.Length, |news|);
      for i := 0 to k
        invariant forall j :: 0 <= j < i ==> position[j] == news[j]
        invariant forall j :: i <= j < position.Length ==> position[j] == old(position[j])
      {
        position[i] := news[i];
      }
      assert position[..k] == news[..k];
      assert position[k..] == old(position[..])[k..];
      assert position[..] == position[..k] + position[k..];
    }
  }

  // ---------------------------------------------------------------- main results

  predicate WellFormed(c: Configuration) {
    && c.formats != [] && Layouts(c.channels) != []
    && (forall l :: l in Layouts(c.channels) ==> l.channels <= MAX_CHANNELS)
    && match c.rates
       case Rates(rates) => rates != []
       case RateRange(lo, hi) => lo <= hi
  }

  /** A configuration admits what is snapped to it, at distance zero. */
  lemma SnappedFits(c: Configuration, raw: Raw)
    requires WellFormed(c)
    ensures var s := SnapTo(c, raw);
            && s.format in c.formats && ChannelDistance(c, s.channels) == 0 && RateDistance(c, s.rate) == 0
            && ChannelsAdmitted(c.channels, s.channels) && RateAdmitted(c.rates, s.rate, c.tolerance)
  {
    var s := SnapTo(c, raw);
    var layouts := Layouts(c.channels);
    var i := ArgMin(ChannelDistances(layouts, raw.channels));
    assert layouts[i] in layouts;
    assert s.channels == layouts[i].channels;
    ZeroDistance(ChannelDistances(layouts, s.channels), i);
    if c.rates.Rates? {
      var k := ArgMin(RateDistances(c.rates.rates, raw.rate));
      ZeroDistance(RateDistances(c.rates.rates, s.rate), k);
    }
  }

  lemma ZeroDistance(ds: seq<nat>, i: nat)
    requires i < |ds| && ds[i] == 0
    ensures MinOr(ds) == 0
  {}

  /** The snapped format is one the backend admits. */
  lemma SnapIsAdmitted(caps: Caps, raw: Raw, i: nat)
    requires forall c :: c in caps.configurations && c.formats != [] ==> WellFormed(c)
    requires Candidate(caps, i)
    ensures var s := Snap(caps, raw); Admits(caps, s.format, s.channels, s.rate)
  {
    var best := Choose(caps, raw);
    var c := caps.configurations[best.value];
    assert c in caps.configurations;
    SnappedFits(c, raw);
  }

  /** Among all configurations that offer a format none is nearer to the request than the one
      snapped to: formats first, then channels, then rate, then preference. */
  lemma SnapIsNearest(caps: Caps, raw: Raw, i: nat)
    requires Candidate(caps, i)
    ensures exists b: nat :: Candidate(caps, b) && Snap(caps, raw) == SnapTo(caps.configurations[b], raw)
              && forall k: nat :: Candidate(caps, k) ==> !Nearer(KeyOf(caps, raw, k), KeyOf(caps, raw, b))
  {
    var best := Choose(caps, raw);
    assert Candidate(caps, best.value);
  }

  /** A configuration that fits the request exactly leaves it alone. */
  lemma ExactFitStays(c: Configuration, raw: Raw)
    requires WellFormed(c) && raw.format in c.formats
    requires ChannelDistance(c, raw.channels) == 0 && RateDistance(c, raw.rate) == 0
    ensures SnapTo(c, raw) == raw
  {
    var layouts := Layouts(c.channels);
    var i := ArgMin(ChannelDistances(layouts, raw.channels));
    assert layouts[i] in layouts;
  }

  /** Snapping again changes nothing, whichever configuration the second pass chooses. */
  lemma SnapIsIdempotent(caps: Caps, raw: Raw)
    requires forall c :: c in caps.configurations && c.formats != [] ==> WellFormed(c)
    ensures Snap(caps, Snap(caps, raw)) == Snap(caps, raw)
  {
    var best := Choose(caps, raw);
    if best.Some? {
      var c, s := caps.configurations[best.value], Snap(caps, raw);
      assert c in caps.configurations;
      SnappedFits(c, raw);
      var again := Choose(caps, s);
      assert Candidate(caps, best.value);
      var d := caps.configurations[again.value];
      assert d in caps.configurations;
      assert !Nearer(KeyOf(caps, s, best.value), KeyOf(caps, s, again.value));
      ExactFitStays(d, s);
    }
  }
}
