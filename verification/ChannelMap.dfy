/** Channel maps: which reorderings of an advertised layout are admitted, and the native order word
    that a reordering is translated to. */
module ChannelMap {
  import opened Prelude

  datatype Position = Unknown | Na | Mono | FL | FR | FC | LFE | SL | SR | RL | RR | Aux(i: nat) | Elsewhere(code: nat)

  datatype MapResult = Ok(order: Option<nat>) | Unsupported

  // ---------------------------------------------------------------- admission

  /** An entry that names no place in the room. */
  predicate Opaque(p: Position) { p.Unknown? || p.Na? || p.Aux? }

  /** The reorder rule: as many entries, none repeated, all advertised. */
  method AdmitsReorder(requested: seq<Position>, advertised: seq<Position>) returns (ok: bool)
    ensures ok <==> Distinct(requested) && multiset(requested) == multiset(advertised)
  {
    ok := |requested| == |advertised|;
    if !ok {
      DifferentLengths(requested, advertised);
    }
    var i := 0;
    while ok && i < |requested|
      invariant 0 <= i <= |requested|
      invariant ok ==> |requested| == |advertised| && Distinct(requested[..i])
                       && forall k :: 0 <= k < i ==> requested[k] in advertised
      invariant !ok ==> !(Distinct(requested) && multiset(requested) == multiset(advertised))
    {
      var fine := requested[i] !in requested[..i] && requested[i] in advertised;
      if fine {
        assert requested[..i + 1] == requested[..i] + [requested[i]];
      } else {
        RuledOut(requested, advertised, i);
        ok := false;
      }
      i := i + 1;
    }
    if ok {
      assert requested[..i] == requested;
      Pigeonhole(requested, advertised);
    }
  }

  predicate Distinct<T(==)>(s: seq<T>) {
    forall i, j :: 0 <= i < j < |s| ==> s[i] != s[j]
  }

  lemma DifferentLengths<T>(a: seq<T>, b: seq<T>)
    requires |a| != |b|
    ensures multiset(a) != multiset(b)
  {
    assert |multiset(a)| == |a| && |multiset(b)| == |b|;
  }

  lemma RuledOut<T>(r: seq<T>, a: seq<T>, i: nat)
    requires i < |r| && (r[i] in r[..i] || r[i] !in a)
    ensures !(Distinct(r) && multiset(r) == multiset(a))
  {
    if multiset(r) == multiset(a) {
      assert r[i] in multiset(r);
      assert r[i] in multiset(a);
      assert r[i] in a;
      var k :| 0 <= k < i && r[k] == r[i];
    }
  }

  function Elements<T>(s: seq<T>): set<T> { set x | x in s }

  lemma {:induction false} DistinctCount<T>(s: seq<T>)
    ensures |Elements(s)| <= |s|
    ensures Distinct(s) ==> |Elements(s)| == |s|
    ensures |Elements(s)| == |s| ==> Distinct(s)
  {
    if s == [] {
      assert Elements(s) == {};
    } else {
      var t := s[1..];
      DistinctCount(t);
      assert Elements(s) == Elements(t) + {s[0]};
      if s[0] in t {
        assert Elements(s) == Elements(t);
        var k :| 0 <= k < |t| && t[k] == s[0];
        assert s[k + 1] == s[0];
      } else {
        assert |Elements(s)| == |Elements(t)| + 1;
        if Distinct(s) {
          assert forall i :: 0 <= i < |t| ==> t[i] == s[i + 1];
        }
        if Distinct(t) {
          assert forall i :: 1 <= i < |s| ==> s[i] == t[i - 1] && s[i] in t;
        }
      }
    }
  }

  lemma {:induction false} DistinctOnce<T>(s: seq<T>, x: T)
    requires Distinct(s)
    ensures multiset(s)[x] == if x in s then 1 else 0
  {
    if s != [] {
      var t := s[1..];
      assert s == [s[0]] + t;
      assert forall i :: 0 <= i < |t| ==> t[i] == s[i + 1];
      assert s[0] !in t;
      DistinctOnce(t, x);
      assert multiset(s) == multiset([s[0]]) + multiset(t);
    }
  }

  lemma SubsetOfSameSize<T>(a: set<T>, b: set<T>)
    requires a <= b && |a| >= |b|
    ensures a == b
  {
    if x :| x in b && x !in a {
      assert a <= b - {x};
      SubsetSmaller(a, b - {x});
    }
  }

  lemma SubsetSmaller<T>(a: set<T>, b: set<T>)
    requires a <= b
    ensures |a| <= |b|
    decreases a
  {
    if a != {} {
      var x :| x in a;
      SubsetSmaller(a - {x}, b - {x});
    }
  }

  /** As many distinct entries as advertised places, all of them advertised, use every place once. */
  lemma Pigeonhole<T>(requested: seq<T>, advertised: seq<T>)
    requires |requested| == |advertised| && Distinct(requested)
    requires forall k :: 0 <= k < |requested| ==> requested[k] in advertised
    ensures multiset(requested) == multiset(advertised) && Distinct(advertised)
  {
    DistinctCount(requested);
    DistinctCount(advertised);
    assert Elements(requested) <= Elements(advertised);
    SubsetOfSameSize(Elements(requested), Elements(advertised));
    forall x ensures multiset(requested)[x] == multiset(advertised)[x] {
      DistinctOnce(requested, x);
      DistinctOnce(advertised, x);
      assert x in requested <==> x in Elements(requested);
      assert x in advertised <==> x in Elements(advertised);
    }
  }

  // ---------------------------------------------------------------- the native order word

  /** The native channel number of a position, zero if it has none. */
  function ChannelId(p: Position): (id: nat)
    ensures id < 16
  {
    match p
    case Mono => 1
    case FL => 1
    case FR => 2
    case FC => 3
    case LFE => 4
    case SL => 5
    case SR => 6
    case RL => 7
    case RR => 8
    case _ => 0
  }

  function Ids(positions: seq<Position>): seq<nat> {
    if positions == [] then [] else [ChannelId(positions[0])] + Ids(positions[1..])
  }

  /** One hexadecimal digit per channel, the first channel lowest. */
  function Encode(ids: seq<nat>): nat {
    if ids == [] then 0 else ids[0] + 16 * Encode(ids[1..])
  }

  function Digit(order: nat, i: nat): nat {
    if i == 0 then order % 16 else Digit(order / 16, i - 1)
  }

  function Place(i: nat): nat { if i == 0 then 1 else 16 * Place(i - 1) }

  function DefaultOrder(channels: nat): Option<nat> {
    match channels
    case 1 => Some(0x1)
    case 2 => Some(0x21)
    case 4 => Some(0x8721)
    case 5 => Some(0x3_8721)
    case 6 => Some(0x43_8721)
    case 8 => Some(0x6543_8721)
    case _ => None
  }

  function DefaultIds(channels: nat): seq<nat> {
    match channels
    case 1 => [1]
    case 2 => [1, 2]
    case 4 => [1, 2, 7, 8]
    case 5 => [1, 2, 7, 8, 3]
    case 6 => [1, 2, 7, 8, 3, 4]
    case 8 => [1, 2, 7, 8, 3, 4, 5, 6]
    case _ => []
  }

  lemma {:induction false} EncodeSnoc(ids: seq<nat>, id: nat)
    ensures Encode(ids + [id]) == Encode(ids) + id * Place(|ids|)
  {
    if ids == [] {
      assert ids + [id] == [id] && [id][1..] == [];
    } else {
      assert (ids + [id])[1..] == ids[1..] + [id];
      EncodeSnoc(ids[1..], id);
      assert 16 * (id * Place(|ids| - 1)) == id * Place(|ids|);
    }
  }

  /** The order word decodes back to the ids. */
  lemma {:induction false} EncodeDecodes(ids: seq<nat>, i: nat)
    requires (forall k :: 0 <= k < |ids| ==> ids[k] < 16) && i < |ids|
    ensures Digit(Encode(ids), i) == ids[i]
    decreases i
  {
    assert (ids[0] + 16 * Encode(ids[1..])) % 16 == ids[0];
    assert (ids[0] + 16 * Encode(ids[1..])) / 16 == Encode(ids[1..]);
    if i > 0 {
      EncodeDecodes(ids[1..], i - 1);
    }
  }

  lemma {:induction false} EncodeInjective(a: seq<nat>, b: seq<nat>)
    requires |a| == |b| && Encode(a) == Encode(b)
    requires forall k :: 0 <= k < |a| ==> a[k] < 16 && b[k] < 16
    ensures a == b
  {
    forall i | 0 <= i < |a| ensures a[i] == b[i] {
      EncodeDecodes(a, i);
      EncodeDecodes(b, i);
    }
  }

  /** One more digit on top of an order word. */
  lemma AddDigit(ids: seq<nat>, order: nat, place: nat, id: nat)
    requires Encode(ids) == order && Place(|ids|) == place
    ensures Encode(ids + [id]) == order + id * place && Place(|ids + [id]|) == 16 * place
  {
    EncodeSnoc(ids, id);
  }

  lemma Order1()
    ensures Encode([1]) == 0x1 && Place(1) == 0x10
  {
    assert Place(0) == 1;
  }

  lemma Order2()
    ensures Encode([1, 2]) == 0x21 && Place(2) == 0x100
  {
    Order1();
    AddDigit([1], 0x1, 0x10, 2);
    assert [1] + [2] == [1, 2];
  }

  lemma Order3()
    ensures Encode([1, 2, 7]) == 0x721 && Place(3) == 0x1000
  {
    Order2();
    AddDigit([1, 2], 0x21, 0x100, 7);
    assert [1, 2] + [7] == [1, 2, 7];
  }

  lemma Order4()
    ensures Encode([1, 2, 7, 8]) == 0x8721 && Place(4) == 0x1_0000
  {
    Order3();
    AddDigit([1, 2, 7], 0x721, 0x1000, 8);
    assert [1, 2, 7] + [8] == [1, 2, 7, 8];
  }

  lemma Order5()
    ensures Encode([1, 2, 7, 8, 3]) == 0x3_8721 && Place(5) == 0x10_0000
  {
    Order4();
    AddDigit([1, 2, 7, 8], 0x8721, 0x1_0000, 3);
    assert [1, 2, 7, 8] + [3] == [1, 2, 7, 8, 3];
  }

  lemma Order6()
    ensures Encode([1, 2, 7, 8, 3, 4]) == 0x43_8721 && Place(6) == 0x100_0000
  {
    Order5();
    AddDigit([1, 2, 7, 8, 3], 0x3_8721, 0x10_0000, 4);
    assert [1, 2, 7, 8, 3] + [4] == [1, 2, 7, 8, 3, 4];
  }

  lemma Order7()
    ensures Encode([1, 2, 7, 8, 3, 4, 5]) == 0x543_8721 && Place(7) == 0x1000_0000
  {
    Order6();
    AddDigit([1, 2, 7, 8, 3, 4], 0x43_8721, 0x100_0000, 5);
    assert [1, 2, 7, 8, 3, 4] + [5] == [1, 2, 7, 8, 3, 4, 5];
  }

  lemma Order8()
    ensures Encode([1, 2, 7, 8, 3, 4, 5, 6]) == 0x6543_8721 && Place(8) == 0x10000_0000
  {
    Order7();
    AddDigit([1, 2, 7, 8, 3, 4, 5], 0x543_8721, 0x1000_0000, 6);
    assert [1, 2, 7, 8, 3, 4, 5] + [6] == [1, 2, 7, 8, 3, 4, 5, 6];
  }

  /** The default order words encode the default channels. */
  lemma DefaultsDecode(n: nat)
    ensures DefaultOrder(n).Some? <==> DefaultIds(n) != []
    ensures DefaultOrder(n).Some? ==> |DefaultIds(n)| == n && Encode(DefaultIds(n)) == DefaultOrder(n).value
  {
    if n == 1 {
      Order1();
    } else if n == 2 {
      Order2();
    } else if n == 4 {
      Order4();
    } else if n == 5 {
      Order5();
    } else if n == 6 {
      Order6();
    } else if n == 8 {
      Order8();
    }
  }

  lemma DefaultsDistinct(n: nat)
    ensures Distinct(DefaultIds(n)) && forall k :: 0 <= k < |DefaultIds(n)| ==> 0 < DefaultIds(n)[k] < 16
  {}

  /** The requested ids are a reordering of the default ones. */
  predicate Reorders(positions: seq<Position>) {
    DefaultIds(|positions|) != [] && multiset(Ids(positions)) == multiset(DefaultIds(|positions|))
  }

  lemma {:induction false} IdsAt(positions: seq<Position>)
    ensures |Ids(positions)| == |positions|
    ensures forall i :: 0 <= i < |positions| ==> Ids(positions)[i] == ChannelId(positions[i])
  {
    if positions != [] {
      IdsAt(positions[1..]);
    }
  }

  lemma {:induction false} IdsSnoc(positions: seq<Position>, p: Position)
    ensures Ids(positions + [p]) == Ids(positions) + [ChannelId(p)]
  {
    if positions == [] {
      assert positions + [p] == [p];
      assert [p][1..] == [];
    } else {
      assert (positions + [p])[1..] == positions[1..] + [p];
      IdsSnoc(positions[1..], p);
    }
  }

  /** The order word to set: none for an unpositioned or opaque map, and none exactly when a
      positioned map is the default one; a map that is no reordering of the default is refused. */
  method NativeChannelOrder(unpositioned: bool, positions: seq<Position>) returns (r: MapResult)
    ensures var placed := exists p :: p in positions && ChannelId(p) != 0;
            if unpositioned then r == Ok(None)
            else if !placed then r == if forall p :: p in positions ==> Opaque(p) then Ok(None) else Unsupported
            else if !Reorders(positions) then r == Unsupported
            else r == if Ids(positions) == DefaultIds(|positions|) then Ok(None) else Ok(Some(Encode(Ids(positions))))
  {
    if unpositioned {
      return Ok(None);
    }
    if !exists p :: p in positions && ChannelId(p) != 0 {
      return if forall p :: p in positions ==> Opaque(p) then Ok(None) else Unsupported;
    }
    if |positions| > 8 {
      return Unsupported;
    }
    var scanned := ScanIds(positions);
    if scanned.None? {
      return Unsupported;
    }
    var (order, seen) := scanned.value;
    r := CompareWithDefault(positions, order, seen);
  }

  method CompareWithDefault(positions: seq<Position>, order: nat, seen: set<nat>) returns (r: MapResult)
    requires order == Encode(Ids(positions)) && seen == Elements(Ids(positions)) && Distinct(Ids(positions))
    ensures r == if !Reorders(positions) then Unsupported
                 else if Ids(positions) == DefaultIds(|positions|) then Ok(None) else Ok(Some(order))
  {
    var default := DefaultOrder(|positions|);
    DefaultsDecode(|positions|);
    if default.None? {
      return Unsupported;
    }
    DefaultsDistinct(|positions|);
    SameElements(Ids(positions), DefaultIds(|positions|));
    if seen != Elements(DefaultIds(|positions|)) {
      return Unsupported;
    }
    IdsAt(positions);
    if order == default.value {
      EncodeInjective(Ids(positions), DefaultIds(|positions|));
      return Ok(None);
    }
    return Ok(Some(order));
  }

  /** Collects the order word and the channels seen; an unknown or repeated channel ends it. */
  method ScanIds(positions: seq<Position>) returns (r: Option<(nat, set<nat>)>)
    ensures r.None? ==> !Reorders(positions)
    ensures r.Some? ==> r.value.0 == Encode(Ids(positions)) && r.value.1 == Elements(Ids(positions))
    ensures r.Some? ==> Distinct(Ids(positions))
  {
    var order, seen: set<nat> := 0, {};
    var i := 0;
    while i < |positions|
      invariant 0 <= i <= |positions| && order == Encode(Ids(positions[..i]))
      invariant Distinct(Ids(positions[..i])) && seen == Elements(Ids(positions[..i]))
    {
      var id := ChannelId(positions[i]);
      assert positions[..i + 1] == positions[..i] + [positions[i]];
      IdsSnoc(positions[..i], positions[i]);
      IdsAt(positions[..i]);
      if id == 0 || id in seen {
        Refused(positions, i);
        return None;
      }
      EncodeSnoc(Ids(positions[..i]), id);
      seen := seen + {id};
      order := order + id * Place(i);
      i := i + 1;
    }
    assert positions[..i] == positions;
    return Some((order, seen));
  }

  lemma Refused(positions: seq<Position>, i: nat)
    requires i < |positions|
    requires ChannelId(positions[i]) == 0 || ChannelId(positions[i]) in Ids(positions[..i])
    ensures !Reorders(positions)
  {
    IdsAt(positions);
    IdsAt(positions[..i]);
    DefaultsDistinct(|positions|);
    if Reorders(positions) {
      var ids, d := Ids(positions), DefaultIds(|positions|);
      var id := ids[i];
      assert id in multiset(ids);
      assert id in multiset(d);
      assert id in d;
      DistinctOnce(d, id);
      var k :| 0 <= k < i && Ids(positions[..i])[k] == id;
      assert ids[k] == ids[i];
      TwiceMeansTwo(ids, k, i);
    }
  }

  lemma TwiceMeansTwo<T>(s: seq<T>, k: nat, i: nat)
    requires k < i < |s| && s[k] == s[i]
    ensures multiset(s)[s[i]] >= 2
  {
    assert s == s[..i] + [s[i]] + s[i + 1..];
    assert s[k] in s[..i];
    assert multiset(s[..i])[s[i]] >= 1;
    assert multiset(s) == multiset(s[..i]) + multiset([s[i]]) + multiset(s[i + 1..]);
  }

  lemma SameElements<T>(a: seq<T>, b: seq<T>)
    requires Distinct(a) && Distinct(b)
    ensures Elements(a) == Elements(b) <==> multiset(a) == multiset(b)
  {
    forall x ensures multiset(a)[x] == (if x in Elements(a) then 1 else 0)
                  && multiset(b)[x] == (if x in Elements(b) then 1 else 0) {
      DistinctOnce(a, x);
      DistinctOnce(b, x);
    }
    if multiset(a) == multiset(b) {
      forall x ensures x in Elements(a) <==> x in Elements(b) {
        assert multiset(a)[x] == multiset(b)[x];
      }
    }
  }

  /** The positions FreeBSD's own matrix lists for a channel count. */
  function StandardMap(channels: nat): seq<Position> {
    match channels
    case 1 => [Mono]
    case 2 => [FL, FR]
    case 4 => [FL, FR, RL, RR]
    case 6 => [FL, FR, RL, RR, FC, LFE]
    case 8 => [FL, FR, RL, RR, FC, LFE, SL, SR]
    case _ => []
  }

  lemma StandardIds(channels: nat)
    ensures Ids(StandardMap(channels)) == if channels == 5 then [] else DefaultIds(channels)
  {
    IdsAt(StandardMap(channels));
  }

  lemma StandardChannel(channels: nat, p: Position) returns (j: nat)
    requires p in StandardMap(channels)
    ensures j < |StandardMap(channels)| == |DefaultIds(channels)|
    ensures StandardMap(channels)[j] == p && DefaultIds(channels)[j] == ChannelId(p)
  {
    StandardIds(channels);
    IdsAt(StandardMap(channels));
    j :| 0 <= j < |StandardMap(channels)| && StandardMap(channels)[j] == p;
  }

  /** Distinct places of a standard map are distinct native channels. */
  lemma DistinctChannels(channels: nat, requested: seq<Position>)
    requires Distinct(requested) && forall p :: p in requested ==> p in StandardMap(channels)
    ensures Distinct(Ids(requested))
    ensures forall k :: 0 <= k < |Ids(requested)| ==> Ids(requested)[k] in DefaultIds(channels)
  {
    IdsAt(requested);
    DefaultsDistinct(channels);
    forall k | 0 <= k < |requested| ensures Ids(requested)[k] in DefaultIds(channels) {
      var j := StandardChannel(channels, requested[k]);
    }
    forall i, k | 0 <= i < k < |requested| ensures Ids(requested)[i] != Ids(requested)[k] {
      var a := StandardChannel(channels, requested[i]);
      var b := StandardChannel(channels, requested[k]);
      assert a != b;
    }
  }

  lemma SameMembers(a: seq<Position>, b: seq<Position>)
    requires multiset(a) == multiset(b)
    ensures forall p :: p in a ==> p in b
  {
    forall p | p in a ensures p in b {
      assert p in multiset(a);
      assert p in multiset(b);
    }
  }

  /** Every admitted reordering of a standard map has a native order, and the order word's digits
      are the requested channels. */
  lemma StandardReorderingsAreNative(channels: nat, requested: seq<Position>)
    requires StandardMap(channels) != [] && Distinct(requested)
    requires multiset(requested) == multiset(StandardMap(channels))
    ensures |requested| == channels && Reorders(requested)
    ensures forall i :: 0 <= i < |requested| ==> Digit(Encode(Ids(requested)), i) == ChannelId(requested[i]) > 0
    ensures DefaultOrder(channels).Some?
    ensures Encode(Ids(requested)) == DefaultOrder(channels).value <==> Ids(requested) == DefaultIds(channels)
  {
    StandardReorders(channels, requested);
    ReorderingIsNative(requested);
  }

  lemma StandardReorders(channels: nat, requested: seq<Position>)
    requires StandardMap(channels) != [] && Distinct(requested)
    requires multiset(requested) == multiset(StandardMap(channels))
    ensures |requested| == channels && Reorders(requested)
  {
    SameLength(requested, StandardMap(channels));
    SameMembers(requested, StandardMap(channels));
    DistinctChannels(channels, requested);
    IdsAt(requested);
    Pigeonhole(Ids(requested), DefaultIds(channels));
  }

  lemma SameLength<T>(a: seq<T>, b: seq<T>)
    requires multiset(a) == multiset(b)
    ensures |a| == |b|
  {
    assert |multiset(a)| == |a|;
  }

  lemma ReorderingIsNative(requested: seq<Position>)
    requires Reorders(requested)
    ensures DefaultOrder(|requested|).Some?
    ensures forall i :: 0 <= i < |requested| ==> Digit(Encode(Ids(requested)), i) == ChannelId(requested[i]) > 0
    ensures Encode(Ids(requested)) == DefaultOrder(|requested|).value
            <==> Ids(requested) == DefaultIds(|requested|)
  {
    var ids, d := Ids(requested), DefaultIds(|requested|);
    IdsAt(requested);
    DefaultsDecode(|requested|);
    DefaultsDistinct(|requested|);
    SmallIds(requested);
    forall i | 0 <= i < |requested|
      ensures Digit(Encode(ids), i) == ChannelId(requested[i]) > 0
    {
      EncodeDecodes(ids, i);
    }
    if Encode(ids) == DefaultOrder(|requested|).value {
      EncodeInjective(ids, d);
    }
  }

  lemma SmallIds(requested: seq<Position>)
    requires Reorders(requested)
    ensures |Ids(requested)| == |requested|
    ensures forall i :: 0 <= i < |requested| ==> 0 < Ids(requested)[i] < 16
  {
    IdsAt(requested);
    DefaultsDistinct(|requested|);
    forall i | 0 <= i < |requested| ensures 0 < Ids(requested)[i] < 16 {
      assert Ids(requested)[i] in multiset(Ids(requested));
      assert Ids(requested)[i] in multiset(DefaultIds(|requested|));
      assert Ids(requested)[i] in DefaultIds(|requested|);
    }
  }
}
