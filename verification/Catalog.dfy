/** The hotplug catalog: PCM units grouped by parent device, and the changes a re-scan reports. */
module Catalog {
  import opened Prelude
  import opened EventTrace

  /** A parent device and its units. Names stand for their rank in string order; an ordered map
      from names to unit lists is the sequence of its entries. */
  datatype Group = Group(name: nat, units: seq<nat>)

  datatype Change = Added(group: Group) | Removed(id: nat)

  /** A detach event names a PCM unit or a parent device. */
  datatype Subject = Pcm(unit: nat) | Parent(name: nat)

  datatype ReadResult = Ok(groups: seq<Group>) | Failed(errno: int)

  predicate Sorted(gs: seq<Group>) {
    forall i, j :: 0 <= i < j < |gs| ==> gs[i].name < gs[j].name
  }

  /** A group without units is no object. */
  function Present(gs: seq<Group>): seq<Group> {
    if gs == [] then [] else (if gs[0].units != [] then [gs[0]] else []) + Present(gs[1..])
  }

  /** The object id of a group is its first unit. */
  predicate IdsDistinct(gs: seq<Group>) {
    forall i, j :: 0 <= i < j < |gs| && gs[i].units != [] && gs[j].units != []
      ==> gs[i].units[0] != gs[j].units[0]
  }

  predicate WellFormed(gs: seq<Group>) { Sorted(gs) && IdsDistinct(gs) }

  // ---------------------------------------------------------------- what a consumer does

  function Retract(gs: seq<Group>, id: nat): seq<Group> {
    if gs == [] then []
    else (if gs[0].units != [] && gs[0].units[0] == id then [] else [gs[0]]) + Retract(gs[1..], id)
  }

  function Insert(gs: seq<Group>, g: Group): seq<Group> {
    if gs == [] || g.name <= gs[0].name then [g] + gs else [gs[0]] + Insert(gs[1..], g)
  }

  /** A consumer's objects, in name order, after one change. */
  function Apply(gs: seq<Group>, c: Change): seq<Group> {
    match c
    case Removed(id) => Retract(gs, id)
    case Added(g) => if g.units == [] then gs else Insert(Retract(gs, g.units[0]), g)
  }

  function Replay(gs: seq<Group>, cs: seq<Change>): seq<Group> { Fold(Apply, gs, cs) }

  function Adds(gs: seq<Group>): seq<Change> {
    if gs == [] then [] else [Added(gs[0])] + Adds(gs[1..])
  }

  predicate Objects(gs: seq<Group>) { WellFormed(gs) && forall g :: g in gs ==> g.units != [] }

  /** After every single change the consumer holds a proper set of objects. */
  predicate Steady(gs: seq<Group>, cs: seq<Change>)
    decreases cs
  {
    Objects(gs) && (cs == [] || Steady(Apply(gs, cs[0]), cs[1..]))
  }

  // ---------------------------------------------------------------- the catalog

  class DeviceCatalog {
    var groups: seq<Group>

    ghost predicate Valid()
      reads this
    {
      WellFormed(groups)
    }

    constructor (scanned: seq<Group>)
      requires WellFormed(scanned)
      ensures Valid() && groups == scanned
    {
      groups := scanned;
    }

    /** What a new listener is told. */
    method Snapshots() returns (cs: seq<Change>)
      ensures cs == Adds(Present(groups))
    {
      cs := [];
      var i := 0;
      while i < |groups|
        invariant 0 <= i <= |groups| && cs == Adds(Present(groups[..i]))
      {
        SnapshotSnoc(groups[..i], groups[i]);
        assert groups[..i + 1] == groups[..i] + [groups[i]];
        if groups[i].units != [] {
          cs := cs + [Added(groups[i])];
        }
        i := i + 1;
      }
      assert groups[..i] == groups;
    }

    /** Reports what changed since the last scan. Groups named by a detach event are retracted
        before the read, so a replacement under the same name and units is a new object. */
    method Rescan(detached: seq<Subject>, read: ReadResult) returns (cs: seq<Change>)
      requires Valid() && (read.Ok? ==> WellFormed(read.groups))
      modifies this
      ensures Valid() && groups == if read.Ok? then read.groups else Detached(old(groups), detached)
      ensures Replay(Present(old(groups)), cs) == Present(groups) && Steady(Present(old(groups)), cs)
      ensures Retractions(old(groups), detached) <= cs
      ensures read.Failed? ==> cs == Retractions(old(groups), detached)
      ensures read.Ok? ==>
        var rest := cs[|Retractions(old(groups), detached)|..];
        forall c :: c in rest ==> Needed(Detached(old(groups), detached), groups, c)
    {
      cs := Force(detached);
      if read.Ok? {
        var more := Diff(groups, read.groups);
        FoldConcat(Apply, Present(old(groups)), cs, more);
        SteadyConcat(Present(old(groups)), cs, more);
        assert (cs + more)[|cs|..] == more;
        cs := cs + more;
        groups := read.groups;
      }
    }

    method Force(detached: seq<Subject>) returns (cs: seq<Change>)
      requires Valid()
      modifies this
      ensures Valid() && groups == Detached(old(groups), detached)
      ensures cs == Retractions(old(groups), detached)
      ensures Replay(Present(old(groups)), cs) == Present(groups) && Steady(Present(old(groups)), cs)
    {
      cs := [];
      PresentMembers(groups);
      var i := 0;
      while i < |detached|
        invariant 0 <= i <= |detached| && Valid()
        invariant Detached(groups, detached[i..]) == Detached(old(groups), detached)
        invariant cs + Retractions(groups, detached[i..]) == Retractions(old(groups), detached)
        invariant Replay(Present(old(groups)), cs) == Present(groups) && Steady(Present(old(groups)), cs)
      {
        assert detached[i..][1..] == detached[i + 1..];
        var more := ForceOne(detached[i]);
        FoldConcat(Apply, Present(old(groups)), cs, more);
        SteadyConcat(Present(old(groups)), cs, more);
        Assoc(cs, more, Retractions(groups, detached[i + 1..]));
        cs := cs + more;
        i := i + 1;
      }
    }

    method ForceOne(subject: Subject) returns (cs: seq<Change>)
      requires Valid()
      modifies this
      ensures Valid() && groups == DetachOne(old(groups), subject)
      ensures cs == RetractOne(old(groups), subject)
      ensures match Find(old(groups), subject)
              case None => groups == old(groups) && cs == []
              case Some(i) =>
                && groups == old(groups)[..i] + old(groups)[i + 1..]
                && cs == if old(groups)[i].units == [] then [] else [Removed(old(groups)[i].units[0])]
      ensures Replay(Present(old(groups)), cs) == Present(groups) && Steady(Present(old(groups)), cs)
    {
      cs := [];
      PresentMembers(groups);
      var at := Find(groups, subject);
      if at.Some? {
        var g := groups[at.value];
        CutReplays(groups, at.value);
        if g.units != [] {
          cs := [Removed(g.units[0])];
        }
        groups := groups[..at.value] + groups[at.value + 1..];
      }
    }
  }

  /** The group a detach event is about: for a unit, the first group that lists it. */
  function Find(gs: seq<Group>, s: Subject): (at: Option<nat>)
    ensures at.Some? ==> at.value < |gs|
    ensures s.Pcm? && at.Some? ==> s.unit in gs[at.value].units
    ensures s.Parent? && at.Some? ==> gs[at.value].name == s.name
    ensures s.Pcm? ==> forall j :: 0 <= j < (if at.Some? then at.value else |gs|) ==> s.unit !in gs[j].units
    ensures s.Parent? ==> forall j :: 0 <= j < (if at.Some? then at.value else |gs|) ==> gs[j].name != s.name
  {
    if gs == [] then None
    else if Names(s, gs[0]) then Some(0)
    else match Find(gs[1..], s)
      case None => None
      case Some(i) => Some(i + 1)
  }

  predicate Names(s: Subject, g: Group) {
    match s
    case Pcm(unit) => unit in g.units
    case Parent(name) => g.name == name
  }

  function DetachOne(gs: seq<Group>, s: Subject): seq<Group> {
    match Find(gs, s)
    case None => gs
    case Some(i) => gs[..i] + gs[i + 1..]
  }

  function RetractOne(gs: seq<Group>, s: Subject): seq<Change> {
    match Find(gs, s)
    case None => []
    case Some(i) => if gs[i].units == [] then [] else [Removed(gs[i].units[0])]
  }

  function Detached(gs: seq<Group>, subjects: seq<Subject>): seq<Group>
    decreases subjects
  {
    if subjects == [] then gs else Detached(DetachOne(gs, subjects[0]), subjects[1..])
  }

  /** Detach events take away the named parents and nobody they do not concern, and invent nothing. */
  lemma {:induction false} DetachedKeepsTheRest(gs: seq<Group>, subjects: seq<Subject>)
    requires Sorted(gs)
    ensures forall g :: g in Detached(gs, subjects) ==> g in gs && Parent(g.name) !in subjects
    ensures forall g :: g in gs && Parent(g.name) !in subjects && (forall u :: u in g.units ==> Pcm(u) !in subjects)
              ==> g in Detached(gs, subjects)
    decreases subjects
  {
    if subjects != [] {
      var s, rest := subjects[0], subjects[1..];
      DetachOneKeepsTheRest(gs, s);
      DetachedKeepsTheRest(DetachOne(gs, s), rest);
      assert forall x :: x in subjects <==> x == s || x in rest;
    }
  }

  lemma DetachOneKeepsTheRest(gs: seq<Group>, s: Subject)
    requires Sorted(gs)
    ensures Sorted(DetachOne(gs, s))
    ensures forall g :: g in DetachOne(gs, s) ==> g in gs && Parent(g.name) != s
    ensures forall g :: g in gs && Parent(g.name) != s && (s.Pcm? ==> s.unit !in g.units) ==> g in DetachOne(gs, s)
  {
    match Find(gs, s)
    case None =>
    case Some(i) => CutKeepsTheRest(gs, i);
  }

  lemma CutKeepsTheRest(gs: seq<Group>, i: nat)
    requires Sorted(gs) && i < |gs|
    ensures var now := gs[..i] + gs[i + 1..];
            && Sorted(now) && (forall g :: g in now ==> g in gs && g.name != gs[i].name)
            && forall g :: g in gs && g != gs[i] ==> g in now
  {
    var now := gs[..i] + gs[i + 1..];
    assert forall j :: 0 <= j < i ==> now[j] == gs[j];
    assert forall j :: i <= j < |now| ==> now[j] == gs[j + 1];
    forall g | g in gs && g != gs[i] ensures g in now {
      var j :| 0 <= j < |gs| && gs[j] == g;
      assert if j < i then now[j] == g else now[j - 1] == g;
    }
  }

  function Retractions(gs: seq<Group>, subjects: seq<Subject>): seq<Change>
    decreases subjects
  {
    if subjects == [] then []
    else RetractOne(gs, subjects[0]) + Retractions(DetachOne(gs, subjects[0]), subjects[1..])
  }

  /** A change is called for: the group left, came or differs. */
  ghost predicate Needed(was: seq<Group>, now: seq<Group>, c: Change) {
    match c
    case Added(g) => g in now && g !in was && g.units != []
    case Removed(id) => exists g :: g in was && g !in now && g.units != [] && g.units[0] == id
  }

  /** Retracts every old group that is not in the new scan unchanged, then announces every new
      one that was not there before. */
  method Diff(was: seq<Group>, now: seq<Group>) returns (cs: seq<Change>)
    requires WellFormed(was) && WellFormed(now)
    ensures Replay(Present(was), cs) == Present(now) && Steady(Present(was), cs)
    ensures forall c :: c in cs ==> Needed(was, now, c)
  {
    ghost var state;
    cs, state := RetractGone(was, now);
    cs, state := AnnounceNew(was, now, cs, state);
    PresentMembers(now);
    assert now[..|now|] == now;
    SortedUnique(state, Present(now));
  }

  method RetractGone(was: seq<Group>, now: seq<Group>) returns (cs: seq<Change>, ghost state: seq<Group>)
    requires WellFormed(was) && WellFormed(now)
    ensures state == Replay(Present(was), cs) && Steady(Present(was), cs)
    ensures forall c :: c in cs ==> Needed(was, now, c)
    ensures Retracted(state, was, now, |was|)
  {
    cs, state := [], Present(was);
    PresentMembers(was);
    var i := 0;
    while i < |was|
      invariant 0 <= i <= |was| && state == Replay(Present(was), cs) && Steady(Present(was), cs)
      invariant forall c :: c in cs ==> Needed(was, now, c)
      invariant Retracted(state, was, now, i)
    {
      var g := was[i];
      RetractStep(state, was, now, i);
      if g !in now && g.units != [] {
        assert Needed(was, now, Removed(g.units[0]));
        ReplaySnoc(Present(was), cs, Removed(g.units[0]));
        SteadySnoc(Present(was), cs, Removed(g.units[0]));
        cs, state := cs + [Removed(g.units[0])], Retract(state, g.units[0]);
      }
      i := i + 1;
    }
  }

  /** The consumer while the first `i` old groups have been compared. */
  ghost predicate Retracted(state: seq<Group>, was: seq<Group>, now: seq<Group>, i: nat)
    requires i <= |was|
  {
    && Objects(state)
    && (forall g :: g in state ==> g in was && (g in now || g in was[i..]))
    && (forall g :: g in was && g.units != [] && (g in now || g in was[i..]) ==> g in state)
  }

  lemma RetractStep(state: seq<Group>, was: seq<Group>, now: seq<Group>, i: nat)
    requires WellFormed(was) && i < |was| && Retracted(state, was, now, i)
    ensures var g := was[i];
            if g !in now && g.units != [] then Retracted(Retract(state, g.units[0]), was, now, i + 1)
            else Retracted(state, was, now, i + 1)
  {
    var g := was[i];
    HeadTail(was[i..]);
    assert was[i..][1..] == was[i + 1..];
    if g !in now && g.units != [] {
      RetractMembers(state, g.units[0]);
      RetractOther(was, i);
      NotAgain(was, i);
    }
  }

  lemma HeadTail(s: seq<Group>)
    requires s != []
    ensures forall g :: g in s <==> g == s[0] || g in s[1..]
  {}

  method AnnounceNew(was: seq<Group>, now: seq<Group>, before: seq<Change>, ghost start: seq<Group>)
    returns (cs: seq<Change>, ghost state: seq<Group>)
    requires WellFormed(now) && start == Replay(Present(was), before) && Steady(Present(was), before)
    requires Retracted(start, was, now, |was|)
    requires forall c :: c in before ==> Needed(was, now, c)
    ensures state == Replay(Present(was), cs) && Steady(Present(was), cs)
    ensures forall c :: c in cs ==> Needed(was, now, c)
    ensures Announced(state, was, now, |now|)
  {
    cs, state := before, start;
    var i := 0;
    while i < |now|
      invariant 0 <= i <= |now| && state == Replay(Present(was), cs) && Steady(Present(was), cs)
      invariant forall c :: c in cs ==> Needed(was, now, c)
      invariant Announced(state, was, now, i)
    {
      var g := now[i];
      AnnounceStep(state, was, now, i);
      if g !in was && g.units != [] {
        assert Needed(was, now, Added(g));
        ReplaySnoc(Present(was), cs, Added(g));
        SteadySnoc(Present(was), cs, Added(g));
        cs, state := cs + [Added(g)], Apply(state, Added(g));
      }
      i := i + 1;
    }
  }

  /** The consumer once the first `i` new groups have been compared. */
  ghost predicate Announced(state: seq<Group>, was: seq<Group>, now: seq<Group>, i: nat)
    requires i <= |now|
  {
    && Objects(state)
    && (forall g :: g in state ==> g in now)
    && (forall g :: g in now && g.units != [] && (g in was || g in now[..i]) ==> g in state)
  }

  lemma AnnounceStep(state: seq<Group>, was: seq<Group>, now: seq<Group>, i: nat)
    requires WellFormed(now) && i < |now| && Announced(state, was, now, i)
    ensures var g := now[i];
            if g !in was && g.units != [] then Announced(Apply(state, Added(g)), was, now, i + 1)
            else Announced(state, was, now, i + 1)
  {
    var g := now[i];
    LastOne(now, i);
    if g !in was && g.units != [] {
      AddMembers(state, now, g);
    }
  }

  lemma LastOne(s: seq<Group>, i: nat)
    requires i < |s|
    ensures forall g :: g in s[..i + 1] <==> g == s[i] || g in s[..i]
  {
    assert s[..i + 1] == s[..i] + [s[i]];
  }

  lemma NotAgain(gs: seq<Group>, i: nat)
    requires Sorted(gs) && i < |gs|
    ensures gs[i] !in gs[i + 1..]
  {}

  /** Groups the units whose parent could be read, in the order they are listed. */
  method GroupByParent(units: seq<nat>, parents: seq<Option<nat>>) returns (groups: seq<Group>)
    requires |units| == |parents|
    ensures Sorted(groups) && forall g :: g in groups ==> g.units != []
    ensures forall n :: Lookup(groups, n) == UnitsOf(units, parents, n)
  {
    groups := [];
    var i := 0;
    while i < |units|
      invariant 0 <= i <= |units| && Sorted(groups)
      invariant forall g :: g in groups ==> g.units != []
      invariant forall n :: Lookup(groups, n) == UnitsOf(units[..i], parents[..i], n)
    {
      assert units[..i + 1] == units[..i] + [units[i]] && parents[..i + 1] == parents[..i] + [parents[i]];
      ghost var was := groups;
      if parents[i].Some? {
        PushOrdered(groups, parents[i].value, units[i]);
        groups := Push(groups, parents[i].value, units[i]);
      }
      forall n ensures Lookup(groups, n) == UnitsOf(units[..i + 1], parents[..i + 1], n) {
        UnitsSnoc(units[..i], parents[..i], units[i], parents[i], n);
        if parents[i].Some? {
          PushLookup(was, parents[i].value, units[i], n);
        }
      }
      i := i + 1;
    }
    assert units[..i] == units && parents[..i] == parents;
  }

  /** The units entered under `name`, none if there is no entry. */
  function Lookup(gs: seq<Group>, name: nat): seq<nat> {
    if gs == [] then [] else if gs[0].name == name then gs[0].units else Lookup(gs[1..], name)
  }

  /** The entry of `name`, created if missing, gets one more unit. */
  function Push(gs: seq<Group>, name: nat, unit: nat): seq<Group> {
    if gs == [] || name < gs[0].name then [Group(name, [unit])] + gs
    else if gs[0].name == name then [Group(name, gs[0].units + [unit])] + gs[1..]
    else [gs[0]] + Push(gs[1..], name, unit)
  }

  function UnitsOf(units: seq<nat>, parents: seq<Option<nat>>, name: nat): seq<nat>
    requires |units| == |parents|
  {
    if units == [] then []
    else (if parents[0] == Some(name) then [units[0]] else []) + UnitsOf(units[1..], parents[1..], name)
  }

  // ---------------------------------------------------------------- ordered entries

  lemma {:induction false} PresentSnoc(gs: seq<Group>, g: Group)
    ensures Present(gs + [g]) == Present(gs) + (if g.units != [] then [g] else [])
  {
    if gs == [] {
      assert gs + [g] == [g];
    } else {
      assert (gs + [g])[1..] == gs[1..] + [g];
      PresentSnoc(gs[1..], g);
      Assoc(if gs[0].units != [] then [gs[0]] else [], Present(gs[1..]), if g.units != [] then [g] else []);
    }
  }

  lemma {:induction false} AddsConcat(a: seq<Group>, b: seq<Group>)
    ensures Adds(a + b) == Adds(a) + Adds(b)
  {
    if a == [] {
      assert a + b == b;
    } else {
      assert (a + b)[1..] == a[1..] + b;
      AddsConcat(a[1..], b);
    }
  }

  lemma SnapshotSnoc(gs: seq<Group>, g: Group)
    ensures Adds(Present(gs + [g])) == Adds(Present(gs)) + (if g.units != [] then [Added(g)] else [])
  {
    PresentSnoc(gs, g);
    if g.units != [] {
      AddsConcat(Present(gs), [g]);
      assert Adds([g]) == [Added(g)];
    } else {
      assert Present(gs) + [] == Present(gs);
      assert Adds(Present(gs)) + [] == Adds(Present(gs));
    }
  }

  lemma ReplaySnoc(gs: seq<Group>, cs: seq<Change>, c: Change)
    ensures Replay(gs, cs + [c]) == Apply(Replay(gs, cs), c)
  {
    FoldConcat(Apply, gs, cs, [c]);
    var end := Replay(gs, cs);
    assert Fold(Apply, end, [c]) == Fold(Apply, Apply(end, c), [c][1..]);
  }

  lemma {:induction false} SteadyConcat(gs: seq<Group>, a: seq<Change>, b: seq<Change>)
    ensures Steady(gs, a + b) <==> Steady(gs, a) && Steady(Replay(gs, a), b)
    decreases a
  {
    if a == [] {
      assert a + b == b;
    } else {
      assert (a + b)[1..] == a[1..] + b;
      SteadyConcat(Apply(gs, a[0]), a[1..], b);
    }
  }

  lemma SteadySnoc(gs: seq<Group>, cs: seq<Change>, c: Change)
    requires Steady(gs, cs) && Objects(Apply(Replay(gs, cs), c))
    ensures Steady(gs, cs + [c])
  {
    SteadyConcat(gs, cs, []);
    assert cs + [] == cs;
    SteadyConcat(gs, cs, [c]);
    assert [c][1..] == [];
  }

  lemma SubWellFormed(sub: seq<Group>, gs: seq<Group>)
    requires WellFormed(gs) && Sorted(sub) && forall g :: g in sub ==> g in gs
    ensures WellFormed(sub)
  {
    forall i, j | 0 <= i < j < |sub| && sub[i].units != [] && sub[j].units != []
      ensures sub[i].units[0] != sub[j].units[0]
    {
      assert sub[i] in gs && sub[j] in gs;
      var a :| 0 <= a < |gs| && gs[a] == sub[i];
      var b :| 0 <= b < |gs| && gs[b] == sub[j];
      assert gs[a].name < gs[b].name;
      assert a != b;
    }
  }

  lemma TailSorted(gs: seq<Group>)
    requires gs != [] && Sorted(gs)
    ensures Sorted(gs[1..]) && forall g :: g in gs[1..] ==> gs[0].name < g.name
  {
    var t := gs[1..];
    assert forall k :: 0 <= k < |t| ==> t[k] == gs[k + 1];
  }

  lemma ConsSorted(g: Group, t: seq<Group>)
    requires Sorted(t) && forall x :: x in t ==> g.name < x.name
    ensures Sorted([g] + t)
  {
    var s := [g] + t;
    assert forall k :: 0 < k < |s| ==> s[k] == t[k - 1];
  }

  lemma {:induction false} PresentOrdered(gs: seq<Group>)
    requires Sorted(gs)
    ensures Sorted(Present(gs))
    ensures forall g :: g in Present(gs) ==> g in gs && g.units != []
    ensures forall g :: g in gs && g.units != [] ==> g in Present(gs)
  {
    if gs != [] {
      TailSorted(gs);
      PresentOrdered(gs[1..]);
      if gs[0].units != [] {
        ConsSorted(gs[0], Present(gs[1..]));
      }
    }
  }

  lemma PresentMembers(gs: seq<Group>)
    requires WellFormed(gs)
    ensures WellFormed(Present(gs))
    ensures forall g :: g in Present(gs) ==> g in gs && g.units != []
    ensures forall g :: g in gs && g.units != [] ==> g in Present(gs)
  {
    PresentOrdered(gs);
    SubWellFormed(Present(gs), gs);
  }

  lemma {:induction false} RetractOrdered(gs: seq<Group>, id: nat)
    requires Sorted(gs)
    ensures Sorted(Retract(gs, id))
    ensures forall g :: g in Retract(gs, id) ==> g in gs && (g.units == [] || g.units[0] != id)
    ensures forall g :: g in gs && (g.units == [] || g.units[0] != id) ==> g in Retract(gs, id)
  {
    if gs != [] {
      TailSorted(gs);
      RetractOrdered(gs[1..], id);
      if gs[0].units == [] || gs[0].units[0] != id {
        ConsSorted(gs[0], Retract(gs[1..], id));
      }
    }
  }

  lemma RetractMembers(gs: seq<Group>, id: nat)
    requires WellFormed(gs)
    ensures WellFormed(Retract(gs, id))
    ensures forall g :: g in Retract(gs, id) ==> g in gs && (g.units == [] || g.units[0] != id)
    ensures forall g :: g in gs && (g.units == [] || g.units[0] != id) ==> g in Retract(gs, id)
  {
    RetractOrdered(gs, id);
    SubWellFormed(Retract(gs, id), gs);
  }

  /** Object ids identify groups. */
  lemma RetractOther(gs: seq<Group>, i: nat)
    requires WellFormed(gs) && i < |gs| && gs[i].units != []
    ensures forall g :: g in gs && g.units != [] && g.units[0] == gs[i].units[0] ==> g == gs[i]
    ensures forall g :: g in gs && g.name == gs[i].name ==> g == gs[i]
  {
    forall g | g in gs
      ensures g.units != [] && g.units[0] == gs[i].units[0] ==> g == gs[i]
      ensures g.name == gs[i].name ==> g == gs[i]
    {
      var j :| 0 <= j < |gs| && gs[j] == g;
    }
  }

  lemma {:induction false} InsertMembers(gs: seq<Group>, g: Group)
    requires Sorted(gs) && forall x :: x in gs ==> x.name != g.name
    ensures Sorted(Insert(gs, g))
    ensures forall x :: x in Insert(gs, g) <==> x in gs || x == g
  {
    if gs == [] {
    } else if g.name <= gs[0].name {
      TailSorted(gs);
      assert gs[0] in gs;
      assert forall x :: x in gs ==> x == gs[0] || x in gs[1..];
      ConsSorted(g, gs);
    } else {
      TailSorted(gs);
      InsertMembers(gs[1..], g);
      ConsSorted(gs[0], Insert(gs[1..], g));
    }
  }

  lemma AddMembers(state: seq<Group>, now: seq<Group>, g: Group)
    requires WellFormed(state) && WellFormed(now) && g in now && g.units != []
    requires forall x :: x in state ==> x in now && x.units != []
    ensures WellFormed(Apply(state, Added(g)))
    ensures forall x :: x in Apply(state, Added(g)) <==> x in state || x == g
  {
    var i :| 0 <= i < |now| && now[i] == g;
    RetractOther(now, i);
    RetractMembers(state, g.units[0]);
    InsertMembers(Retract(state, g.units[0]), g);
    SubWellFormed(Apply(state, Added(g)), now);
  }

  lemma HeadIsLeast(s: seq<Group>, g: Group)
    requires Sorted(s) && g in s
    ensures s[0].name <= g.name && (s[0].name == g.name ==> g == s[0])
  {
    var i :| 0 <= i < |s| && s[i] == g;
    assert 0 < i ==> s[0].name < s[i].name;
  }

  lemma FirstIsMember(s: seq<Group>)
    ensures s != [] ==> s[0] in s
  {}

  /** A sorted list is determined by its members. */
  lemma {:induction false} SortedUnique(a: seq<Group>, b: seq<Group>)
    requires Sorted(a) && Sorted(b)
    requires forall g :: g in a ==> g in b
    requires forall g :: g in b ==> g in a
    ensures a == b
  {
    FirstIsMember(b);
    if a != [] {
      assert a[0] in b;
      HeadIsLeast(a, b[0]);
      HeadIsLeast(b, a[0]);
      TailMembers(a, b);
      TailMembers(b, a);
      SortedUnique(a[1..], b[1..]);
      SameHeadAndTail(a, b);
    }
  }

  lemma TailMembers(a: seq<Group>, b: seq<Group>)
    requires Sorted(a) && a != [] && b != [] && a[0] == b[0] && forall g :: g in a ==> g in b
    ensures Sorted(a[1..]) && forall g :: g in a[1..] ==> g in b[1..]
  {
    TailSorted(a);
    forall g | g in a[1..] ensures g in b[1..] {
      InTail(b, g);
    }
  }

  lemma InTail(s: seq<Group>, g: Group)
    requires s != [] && g in s && g != s[0]
    ensures g in s[1..]
  {
    var i :| 0 <= i < |s| && s[i] == g;
    assert s[1..][i - 1] == g;
  }

  lemma SameHeadAndTail(a: seq<Group>, b: seq<Group>)
    requires a != [] && b != [] && a[0] == b[0] && a[1..] == b[1..]
    ensures a == b
  {
    assert a == [a[0]] + a[1..] && b == [b[0]] + b[1..];
  }

  lemma CutMembers(gs: seq<Group>, i: nat)
    requires Sorted(gs) && i < |gs|
    ensures Sorted(gs[..i] + gs[i + 1..])
    ensures forall g :: g in gs[..i] + gs[i + 1..] <==> g in gs && g != gs[i]
  {
    var t := gs[..i] + gs[i + 1..];
    assert forall k :: 0 <= k < |t| ==> t[k] == gs[if k < i then k else k + 1];
    forall g | g in gs && g != gs[i] ensures g in t {
      var k :| 0 <= k < |gs| && gs[k] == g;
      assert g == t[if k < i then k else k - 1];
    }
  }

  /** Removing an entry is what a consumer does on its retraction. */
  lemma Cut(gs: seq<Group>, i: nat)
    requires WellFormed(gs) && i < |gs|
    ensures WellFormed(gs[..i] + gs[i + 1..])
    ensures Present(gs[..i] + gs[i + 1..])
         == if gs[i].units == [] then Present(gs) else Retract(Present(gs), gs[i].units[0])
  {
    var t := gs[..i] + gs[i + 1..];
    CutMembers(gs, i);
    SubWellFormed(t, gs);
    PresentMembers(gs);
    PresentMembers(t);
    if gs[i].units == [] {
      SortedUnique(Present(t), Present(gs));
    } else {
      RetractOther(gs, i);
      RetractMembers(Present(gs), gs[i].units[0]);
      SortedUnique(Present(t), Retract(Present(gs), gs[i].units[0]));
    }
  }

  lemma CutReplays(gs: seq<Group>, i: nat)
    requires WellFormed(gs) && i < |gs|
    ensures var t := gs[..i] + gs[i + 1..];
            var cs := if gs[i].units == [] then [] else [Removed(gs[i].units[0])];
            WellFormed(t) && Replay(Present(gs), cs) == Present(t) && Steady(Present(gs), cs)
  {
    Cut(gs, i);
    PresentMembers(gs);
    PresentMembers(gs[..i] + gs[i + 1..]);
    if gs[i].units != [] {
      var c := Removed(gs[i].units[0]);
      ReplaySnoc(Present(gs), [], c);
      assert [] + [c] == [c] && [c][1..] == [];
    }
  }

  // ---------------------------------------------------------------- grouping

  lemma {:induction false} UnitsSnoc(units: seq<nat>, parents: seq<Option<nat>>, u: nat, p: Option<nat>, n: nat)
    requires |units| == |parents|
    ensures UnitsOf(units + [u], parents + [p], n)
         == UnitsOf(units, parents, n) + (if p == Some(n) then [u] else [])
  {
    if units == [] {
      assert units + [u] == [u] && parents + [p] == [p];
    } else {
      assert (units + [u])[1..] == units[1..] + [u] && (parents + [p])[1..] == parents[1..] + [p];
      UnitsSnoc(units[1..], parents[1..], u, p, n);
      JoinAssoc(if parents[0] == Some(n) then [units[0]] else [], UnitsOf(units[1..], parents[1..], n),
                if p == Some(n) then [u] else []);
    }
  }

  lemma JoinAssoc(a: seq<nat>, b: seq<nat>, c: seq<nat>)
    ensures a + (b + c) == a + b + c
  {}

  lemma {:induction false} PushOrdered(gs: seq<Group>, name: nat, unit: nat)
    requires Sorted(gs)
    ensures Sorted(Push(gs, name, unit))
    ensures forall g :: g in Push(gs, name, unit) ==> g in gs || (g.name == name && g.units != [])
  {
    if gs != [] {
      TailSorted(gs);
      var t := gs[1..];
      if name < gs[0].name {
        assert forall x :: x in gs ==> x == gs[0] || x in t;
        ConsSorted(Group(name, [unit]), gs);
      } else if gs[0].name == name {
        ConsSorted(Group(name, gs[0].units + [unit]), t);
      } else {
        PushOrdered(t, name, unit);
        ConsSorted(gs[0], Push(t, name, unit));
      }
    }
  }

  lemma {:induction false} LookupBelow(gs: seq<Group>, name: nat)
    requires forall g :: g in gs ==> name < g.name
    ensures Lookup(gs, name) == []
  {
    if gs != [] {
      assert gs[0] in gs;
      LookupBelow(gs[1..], name);
    }
  }

  lemma LookupCons(g: Group, gs: seq<Group>, n: nat)
    ensures Lookup([g] + gs, n) == if g.name == n then g.units else Lookup(gs, n)
  {
    assert ([g] + gs)[1..] == gs;
  }

  lemma {:induction false} PushLookup(gs: seq<Group>, name: nat, unit: nat, n: nat)
    requires Sorted(gs)
    ensures Lookup(Push(gs, name, unit), n) == Lookup(gs, n) + (if n == name then [unit] else [])
  {
    if gs != [] {
      TailSorted(gs);
      if name < gs[0].name {
        HeadTail(gs);
        LookupBelow(gs, name);
        LookupCons(Group(name, [unit]), gs, n);
      } else if gs[0].name == name {
        LookupCons(Group(name, gs[0].units + [unit]), gs[1..], n);
      } else {
        PushLookup(gs[1..], name, unit, n);
        LookupCons(gs[0], Push(gs[1..], name, unit), n);
      }
    } else {
      LookupCons(Group(name, [unit]), [], n);
    }
  }

  lemma {:induction false} LookupEntry(gs: seq<Group>, g: Group)
    requires Sorted(gs) && g in gs
    ensures Lookup(gs, g.name) == g.units
  {
    TailSorted(gs);
    if g != gs[0] {
      assert g in gs[1..];
      LookupEntry(gs[1..], g);
    }
  }

  /** Where a unit is found in its group: its own position in the list. */
  lemma {:induction false} UnitsOfMember(units: seq<nat>, parents: seq<Option<nat>>, n: nat, u: nat)
    requires |units| == |parents|
    ensures u in UnitsOf(units, parents, n) <==>
            exists i :: 0 <= i < |units| && units[i] == u && parents[i] == Some(n)
  {
    if units != [] {
      UnitsOfMember(units[1..], parents[1..], n, u);
      if u in UnitsOf(units[1..], parents[1..], n) {
        var i :| 0 <= i < |units[1..]| && units[1..][i] == u && parents[1..][i] == Some(n);
        assert units[i + 1] == u && parents[i + 1] == Some(n);
      }
      if i :| 0 <= i < |units| && units[i] == u && parents[i] == Some(n) {
        if i > 0 {
          assert units[1..][i - 1] == u && parents[1..][i - 1] == Some(n);
        }
      }
    }
  }

  /** Grouping partitions the listed units: each with a readable parent is in exactly the group of
      that parent, so object ids never clash. */
  lemma GroupingPartitions(units: seq<nat>, parents: seq<Option<nat>>, groups: seq<Group>)
    requires |units| == |parents| && forall i, j :: 0 <= i < j < |units| ==> units[i] != units[j]
    requires Sorted(groups) && forall g :: g in groups ==> g.units != []
    requires forall n :: Lookup(groups, n) == UnitsOf(units, parents, n)
    ensures WellFormed(groups)
    ensures forall i, g :: 0 <= i < |units| && g in groups ==>
              (units[i] in g.units <==> parents[i] == Some(g.name))
  {
    forall i, g | 0 <= i < |units| && g in groups
      ensures units[i] in g.units <==> parents[i] == Some(g.name)
    {
      LookupEntry(groups, g);
      UnitsOfMember(units, parents, g.name, units[i]);
    }
    forall i, j | 0 <= i < j < |groups|
      ensures groups[i].units[0] != groups[j].units[0]
    {
      var u := groups[i].units[0];
      LookupEntry(groups, groups[i]);
      UnitsOfMember(units, parents, groups[i].name, u);
      var k :| 0 <= k < |units| && units[k] == u && parents[k] == Some(groups[i].name);
      assert units[k] !in groups[j].units;
    }
  }

  // ---------------------------------------------------------------- consumers

  lemma {:induction false} InsertLast(gs: seq<Group>, g: Group)
    requires forall x :: x in gs ==> x.name < g.name
    ensures Insert(gs, g) == gs + [g]
  {
    if gs != [] {
      InsertLast(gs[1..], g);
      assert [gs[0]] + (gs[1..] + [g]) == gs + [g];
    }
  }

  lemma {:induction false} RetractAbsent(gs: seq<Group>, id: nat)
    requires forall g :: g in gs && g.units != [] ==> g.units[0] != id
    ensures Retract(gs, id) == gs
  {
    if gs != [] {
      RetractAbsent(gs[1..], id);
    }
  }

  /** A listing rebuilds what it lists. */
  lemma {:induction false} ListingRebuilds(gs: seq<Group>)
    requires WellFormed(gs) && forall g :: g in gs ==> g.units != []
    ensures Replay([], Adds(gs)) == gs
    decreases |gs|
  {
    if gs != [] {
      var last := |gs| - 1;
      var front, g := gs[..last], gs[last];
      assert gs == front + [g];
      assert forall k :: 0 <= k < last ==> front[k] == gs[k];
      SubWellFormed(front, gs);
      ListingRebuilds(front);
      AddsConcat(front, [g]);
      assert Adds([g]) == [Added(g)];
      ReplaySnoc([], Adds(front), Added(g));
      RetractAbsent(front, g.units[0]);
      InsertLast(front, g);
    }
  }

  /** A consumer that keeps its objects by id, as the session manager does. */
  function Register(m: map<nat, Group>, c: Change): map<nat, Group> {
    match c
    case Removed(id) => m - {id}
    case Added(g) => if g.units == [] then m else m[g.units[0] := g]
  }

  predicate Mirrors(m: map<nat, Group>, gs: seq<Group>) {
    && (forall g :: g in gs && g.units != [] ==> g.units[0] in m && m[g.units[0]] == g)
    && (forall id :: id in m ==> m[id] in gs && m[id].units != [] && m[id].units[0] == id)
  }

  lemma {:induction false} RetractElements(gs: seq<Group>, id: nat)
    ensures forall g :: g in Retract(gs, id) <==> g in gs && (g.units == [] || g.units[0] != id)
  {
    if gs != [] {
      RetractElements(gs[1..], id);
    }
  }

  lemma {:induction false} InsertElements(gs: seq<Group>, g: Group)
    ensures forall x :: x in Insert(gs, g) <==> x in gs || x == g
  {
    if gs != [] {
      InsertElements(gs[1..], g);
    }
  }

  /** Keeping objects by id comes to the same. */
  lemma {:induction false} RegistryFollows(m: map<nat, Group>, gs: seq<Group>, cs: seq<Change>)
    requires Mirrors(m, gs)
    ensures Mirrors(Fold(Register, m, cs), Replay(gs, cs))
    decreases cs
  {
    if cs != [] {
      match cs[0] {
        case Removed(id) =>
          RetractElements(gs, id);
        case Added(g) =>
          if g.units != [] {
            RetractElements(gs, g.units[0]);
            InsertElements(Retract(gs, g.units[0]), g);
          }
      }
      assert Mirrors(Register(m, cs[0]), Apply(gs, cs[0]));
      RegistryFollows(Register(m, cs[0]), Apply(gs, cs[0]), cs[1..]);
    }
  }

  /** A registry filled from a listing and kept up to date by a re-scan's changes holds exactly
      the groups of the new catalog. */
  lemma RegistryIsCurrent(was: seq<Group>, now: seq<Group>, cs: seq<Change>)
    requires WellFormed(was) && Replay(Present(was), cs) == Present(now)
    ensures Mirrors(Fold(Register, Fold(Register, map[], Adds(Present(was))), cs), Present(now))
  {
    PresentMembers(was);
    RegistryFollows(map[], [], Adds(Present(was)));
    ListingRebuilds(Present(was));
    RegistryFollows(Fold(Register, map[], Adds(Present(was))), Present(was), cs);
  }

  lemma {:induction false} OnlyAddsAdd(gs: seq<Group>, cs: seq<Change>, g: Group)
    requires g !in gs && Added(g) !in cs
    ensures g !in Replay(gs, cs)
    decreases cs
  {
    if cs != [] {
      match cs[0] {
        case Removed(id) =>
          RetractElements(gs, id);
        case Added(x) =>
          assert x != g;
          if x.units != [] {
            RetractElements(gs, x.units[0]);
            InsertElements(Retract(gs, x.units[0]), x);
          }
      }
      OnlyAddsAdd(Apply(gs, cs[0]), cs[1..], g);
    }
  }

  /** A detached group is retracted and announced anew even when the re-read finds the same name
      and units: the hardware behind it is another. */
  lemma ReplacementIsAnnounced(was: seq<Group>, subject: Subject, now: seq<Group>, cs: seq<Change>, g: Group)
    requires WellFormed(was) && Replay(Present(was), cs) == Present(now)
    requires Retractions(was, [subject]) <= cs
    requires Find(was, subject).Some? && g == was[Find(was, subject).value] && g.units != []
    requires g in now && WellFormed(now)
    ensures cs[0] == Removed(g.units[0]) && Added(g) in cs[1..]
  {
    var r := Removed(g.units[0]);
    assert RetractOne(was, subject) == [r];
    assert Retractions(was, [subject])[0] == r;
    RetractElements(Present(was), g.units[0]);
    PresentMembers(now);
    assert Replay(Present(was), cs) == Replay(Retract(Present(was), g.units[0]), cs[1..]);
    if Added(g) !in cs[1..] {
      OnlyAddsAdd(Retract(Present(was), g.units[0]), cs[1..], g);
      assert false;
    }
  }
}
