/** The notification queue of one endpoint as a value, and what every step keeps.

    Listeners are numbered in registration order. `sent` is everything ever published,
    `delivered` how much of it has left the queue. A listener that registers while older work
    is queued waits behind an activation barrier. */
module EventTrace {

  datatype Note<M> = Msg(m: M) | Activate(id: nat)

  /** The lists of linked listeners. `before` and `after` are the two sides of the cursor of the
      running traversal, `saved` the listeners set aside while a new one is greeted. */
  datatype Lists = Lists(before: seq<nat>, after: seq<nat>, saved: seq<nat>)

  /** Per listener: what it received, and how many messages were published when it registered. */
  datatype Member<M> = Member(linked: bool, greeting: bool, joined: nat, seen: seq<M>)

  datatype Hub<M> = Hub(
    queue: seq<Note<M>>,
    lists: Lists,
    members: seq<Member<M>>,
    sent: seq<M>,
    delivered: nat
  )

  function Msgs<M>(q: seq<Note<M>>): seq<M> {
    if q == [] then [] else (if q[0].Msg? then [q[0].m] else []) + Msgs(q[1..])
  }

  function Count(s: seq<nat>, l: nat): nat {
    if s == [] then 0 else (if s[0] == l then 1 else 0) + Count(s[1..], l)
  }

  function Listed(ls: Lists, l: nat): nat {
    Count(ls.before, l) + Count(ls.after, l) + Count(ls.saved, l)
  }

  /** Barriers of `l` in the queue. */
  function Waits<M>(q: seq<Note<M>>, l: nat): nat {
    if q == [] then 0 else (if q[0] == Activate(l) then 1 else 0) + Waits(q[1..], l)
  }

  /** Messages in front of the barrier of `l`. */
  function Ahead<M>(q: seq<Note<M>>, l: nat): nat {
    if q == [] || q[0] == Activate(l) then 0
    else (if q[0].Msg? then 1 else 0) + Ahead(q[1..], l)
  }

  /** What `l` has to have received once `upto` messages are through: its greeting, then what was
      published after it registered. */
  ghost function Due<M>(h: Hub<M>, greet: seq<M> -> seq<M>, l: nat, upto: nat): seq<M>
    requires l < |h.members| && h.members[l].joined <= upto <= |h.sent|
  {
    greet(h.sent[..h.members[l].joined]) + h.sent[h.members[l].joined..upto]
  }

  /** What is known of listener `l` between any two steps. */
  ghost predicate Fine<M>(h: Hub<M>, greet: seq<M> -> seq<M>, l: nat)
    requires h.delivered <= |h.sent|
  {
    if l >= |h.members| then Listed(h.lists, l) == 0 && Waits(h.queue, l) == 0
    else Served(h, greet, l)
  }

  ghost predicate Served<M>(h: Hub<M>, greet: seq<M> -> seq<M>, l: nat)
    requires l < |h.members| && h.delivered <= |h.sent|
  {
    var me := h.members[l];
    && me.joined <= |h.sent|
    && me.seen <= Due(h, greet, l, |h.sent|)
    && Listed(h.lists, l) + (if me.linked then Waits(h.queue, l) else 0) == (if me.linked then 1 else 0)
    && Waits(h.queue, l) <= 1
    && (Count(h.lists.after, l) > 0 ==>
          !me.greeting && 0 < h.delivered && me.joined < h.delivered
          && me.seen == Due(h, greet, l, h.delivered - 1))
    && (Count(h.lists.before, l) + Count(h.lists.saved, l) > 0 ==>
          me.joined <= h.delivered
          && if me.greeting then me.joined == h.delivered else me.seen == Due(h, greet, l, h.delivered))
    && (Waits(h.queue, l) > 0 ==>
          me.joined == h.delivered + Ahead(h.queue, l)
          && (me.linked && !me.greeting ==> me.seen == Due(h, greet, l, me.joined)))
  }

  ghost predicate Inv<M>(h: Hub<M>, greet: seq<M> -> seq<M>) {
    && h.delivered <= |h.sent|
    && Msgs(h.queue) == h.sent[h.delivered..]
    && (forall l: nat :: Fine(h, greet, l))
  }

  // ---------------------------------------------------------------- lists and queues

  lemma {:induction false} CountConcat(a: seq<nat>, b: seq<nat>, l: nat)
    ensures Count(a + b, l) == Count(a, l) + Count(b, l)
  {
    if a == [] {
      assert a + b == b;
    } else {
      assert (a + b)[1..] == a[1..] + b;
      CountConcat(a[1..], b, l);
    }
  }

  lemma {:induction false} MsgsConcat<M>(a: seq<Note<M>>, b: seq<Note<M>>)
    ensures Msgs(a + b) == Msgs(a) + Msgs(b)
  {
    if a == [] {
      assert a + b == b;
    } else {
      assert (a + b)[1..] == a[1..] + b;
      MsgsConcat(a[1..], b);
      Assoc(if a[0].Msg? then [a[0].m] else [], Msgs(a[1..]), Msgs(b));
    }
  }

  lemma Assoc<T>(a: seq<T>, b: seq<T>, c: seq<T>)
    ensures a + (b + c) == a + b + c
  {}

  /** A note at the end of the queue. */
  lemma {:induction false} QueueSnoc<M>(q: seq<Note<M>>, n: Note<M>, l: nat)
    ensures Waits(q + [n], l) == Waits(q, l) + (if n == Activate(l) then 1 else 0)
    ensures Waits(q, l) > 0 ==> Ahead(q + [n], l) == Ahead(q, l)
    ensures Waits(q, l) == 0 && n == Activate(l) ==> Ahead(q + [n], l) == |Msgs(q)|
    ensures Waits(q, l) == 0 ==> Ahead(q, l) == |Msgs(q)|
  {
    if q == [] {
      assert q + [n] == [n];
      assert [n][1..] == [];
    } else {
      assert (q + [n])[1..] == q[1..] + [n];
      QueueSnoc(q[1..], n, l);
    }
  }

  lemma {:induction false} WaitsConcat<M>(a: seq<Note<M>>, b: seq<Note<M>>, l: nat)
    ensures Waits(a + b, l) == Waits(a, l) + Waits(b, l)
  {
    if a == [] {
      assert a + b == b;
    } else {
      assert (a + b)[1..] == a[1..] + b;
      WaitsConcat(a[1..], b, l);
    }
  }

  // ---------------------------------------------------------------- steps

  function Enqueue<M>(h: Hub<M>, m: M): Hub<M> {
    h.(queue := h.queue + [Msg(m)], sent := h.sent + [m])
  }

  /** A listener registers behind everything that is queued. */
  function Defer<M>(h: Hub<M>): Hub<M> {
    h.(queue := h.queue + [Activate(|h.members|)],
       members := h.members + [Member(true, true, |h.sent|, [])])
  }

  /** A listener registers on the active list; the others are set aside. */
  function Isolate<M>(h: Hub<M>): Hub<M> {
    h.(lists := Lists([|h.members|], [], h.lists.before),
       members := h.members + [Member(true, true, |h.sent|, [])])
  }

  function Join<M>(h: Hub<M>): Hub<M> {
    h.(lists := Lists(h.lists.saved + h.lists.before, h.lists.after, []))
  }

  function Receive<M>(h: Hub<M>, l: nat, m: M): Hub<M>
    requires l < |h.members|
  {
    h.(members := h.members[l := h.members[l].(seen := h.members[l].seen + [m])])
  }

  function Greeted<M>(h: Hub<M>, l: nat): Hub<M>
    requires l < |h.members|
  {
    h.(members := h.members[l := h.members[l].(greeting := false)])
  }

  /** The next message leaves the queue and its traversal starts. */
  function PopMsg<M>(h: Hub<M>): Hub<M>
    requires h.queue != []
  {
    h.(queue := h.queue[1..], delivered := h.delivered + 1,
       lists := h.lists.(before := [], after := h.lists.before))
  }

  /** The traversal passes its next listener, which receives the message. */
  function Hop<M>(h: Hub<M>): Hub<M>
    requires h.lists.after != [] && h.lists.after[0] < |h.members| && 0 < h.delivered <= |h.sent|
  {
    var l := h.lists.after[0];
    Receive(h, l, h.sent[h.delivered - 1])
      .(lists := h.lists.(before := h.lists.before + [l], after := h.lists.after[1..]))
  }

  /** A barrier leaves the queue: its listener, if still linked, becomes active. */
  function PopBarrier<M>(h: Hub<M>): Hub<M>
    requires h.queue != [] && h.queue[0].Activate? && h.queue[0].id < |h.members|
  {
    var l := h.queue[0].id;
    h.(queue := h.queue[1..],
       lists := if h.members[l].linked then h.lists.(before := h.lists.before + [l]) else h.lists)
  }

  function Drop(s: seq<nat>, l: nat): (r: seq<nat>)
    ensures |r| <= |s|
  {
    if s == [] then [] else (if s[0] == l then [] else [s[0]]) + Drop(s[1..], l)
  }

  function Unlink<M>(h: Hub<M>, l: nat): Hub<M>
    requires l < |h.members|
  {
    h.(lists := Lists(Drop(h.lists.before, l), Drop(h.lists.after, l), Drop(h.lists.saved, l)),
       members := h.members[l := h.members[l].(linked := false)])
  }

  lemma {:induction false} DropCounts(s: seq<nat>, l: nat, k: nat)
    ensures Count(Drop(s, l), k) == if k == l then 0 else Count(s, k)
  {
    if s != [] {
      DropCounts(s[1..], l, k);
      CountConcat(if s[0] == l then [] else [s[0]], Drop(s[1..], l), k);
    }
  }

  // ---------------------------------------------------------------- what each step keeps

  /** Publishing more does not change what is due up to an earlier point. */
  lemma DueStable<M>(h: Hub<M>, t: Hub<M>, greet: seq<M> -> seq<M>, l: nat, upto: nat)
    requires l < |h.members| && l < |t.members| && h.members[l].joined == t.members[l].joined
    requires h.members[l].joined <= upto <= |h.sent| && h.sent <= t.sent
    ensures Due(t, greet, l, upto) == Due(h, greet, l, upto)
  {
    var j := h.members[l].joined;
    assert t.sent[..j] == h.sent[..j] && t.sent[j..upto] == h.sent[j..upto];
  }

  lemma DueGrows<M>(h: Hub<M>, greet: seq<M> -> seq<M>, l: nat, i: nat, j: nat)
    requires l < |h.members| && h.members[l].joined <= i <= j <= |h.sent|
    ensures Due(h, greet, l, i) <= Due(h, greet, l, j)
    ensures j == i + 1 ==> Due(h, greet, l, j) == Due(h, greet, l, i) + [h.sent[i]]
  {
    var k := h.members[l].joined;
    assert h.sent[k..j] == h.sent[k..i] + h.sent[i..j];
  }

  lemma EnqueueKeeps<M>(h: Hub<M>, greet: seq<M> -> seq<M>, m: M)
    requires Inv(h, greet)
    ensures Inv(Enqueue(h, m), greet)
  {
    var t := Enqueue(h, m);
    MsgsConcat(h.queue, [Msg(m)]);
    assert Msgs([Msg(m)]) == [m];
    assert t.sent[t.delivered..] == h.sent[h.delivered..] + [m];
    forall l: nat ensures Fine(t, greet, l) {
      EnqueueFine(h, greet, m, l);
    }
  }

  lemma EnqueueFine<M>(h: Hub<M>, greet: seq<M> -> seq<M>, m: M, l: nat)
    requires h.delivered <= |h.sent| && Fine(h, greet, l)
    ensures Fine(Enqueue(h, m), greet, l)
  {
    var t := Enqueue(h, m);
    QueueSnoc(h.queue, Msg(m), l);
    if l < |h.members| {
      DueStable(h, t, greet, l, |h.sent|);
      DueGrows(t, greet, l, |h.sent|, |t.sent|);
      if h.members[l].joined <= h.delivered {
        DueStable(h, t, greet, l, h.delivered);
        if h.members[l].joined < h.delivered {
          DueStable(h, t, greet, l, h.delivered - 1);
        }
      }
      DueStable(h, t, greet, l, h.members[l].joined);
    }
  }

  /** A step that changes neither `sent` nor the listeners, and only moves `l` about. */
  lemma SameDue<M>(h: Hub<M>, t: Hub<M>, greet: seq<M> -> seq<M>, l: nat)
    requires h.sent == t.sent && |h.members| == |t.members|
    requires l < |h.members| ==> h.members[l].joined == t.members[l].joined
    ensures l < |h.members| ==> forall upto :: h.members[l].joined <= upto <= |h.sent| ==>
              Due(t, greet, l, upto) == Due(h, greet, l, upto)
  {}

  lemma DeferKeeps<M>(h: Hub<M>, greet: seq<M> -> seq<M>)
    requires Inv(h, greet)
    ensures Inv(Defer(h), greet)
  {
    var t, new' := Defer(h), |h.members|;
    MsgsConcat(h.queue, [Activate(new')]);
    assert Msgs<M>([Activate(new')]) == [];
    forall l: nat ensures Fine(t, greet, l) {
      assert Fine(h, greet, l);
      QueueSnoc(h.queue, Activate(new'), l);
      SameDueNew(h, t, greet, l);
    }
  }

  lemma SameDueNew<M>(h: Hub<M>, t: Hub<M>, greet: seq<M> -> seq<M>, l: nat)
    requires h.sent == t.sent && h.members <= t.members
    ensures l < |h.members| ==> forall upto :: h.members[l].joined <= upto <= |h.sent| ==>
              Due(t, greet, l, upto) == Due(h, greet, l, upto)
  {}

  lemma IsolateKeeps<M>(h: Hub<M>, greet: seq<M> -> seq<M>)
    requires Inv(h, greet) && h.queue == [] && h.lists.after == [] && h.lists.saved == []
    ensures Inv(Isolate(h), greet)
  {
    var t, new' := Isolate(h), |h.members|;
    assert |h.sent[h.delivered..]| == 0;
    forall l: nat ensures Fine(t, greet, l) {
      assert Fine(h, greet, l);
      assert Count([new'], l) == if l == new' then 1 else 0;
      SameDueNew(h, t, greet, l);
    }
  }

  lemma JoinKeeps<M>(h: Hub<M>, greet: seq<M> -> seq<M>)
    requires Inv(h, greet)
    ensures Inv(Join(h), greet)
  {
    var t := Join(h);
    forall l: nat ensures Count(t.lists.before, l) == Count(h.lists.saved, l) + Count(h.lists.before, l) {
      CountConcat(h.lists.saved, h.lists.before, l);
    }
    forall l: nat ensures Fine(t, greet, l) {
      assert Fine(h, greet, l);
      SameDue(h, t, greet, l);
    }
  }

  /** One message of the greeting of `l`. */
  lemma GreetKeeps<M>(h: Hub<M>, greet: seq<M> -> seq<M>, l: nat, k: nat)
    requires Inv(h, greet) && l < |h.members| && h.members[l].greeting && h.members[l].joined <= |h.sent|
    requires var hello := greet(h.sent[..h.members[l].joined]);
             k < |hello| && h.members[l].seen == hello[..k]
    ensures var hello := greet(h.sent[..h.members[l].joined]);
            var t := Receive(h, l, hello[k]);
            Inv(t, greet) && t.members[l].seen == hello[..k + 1]
  {
    var hello := greet(h.sent[..h.members[l].joined]);
    var t := Receive(h, l, hello[k]);
    assert hello[..k + 1] == hello[..k] + [hello[k]];
    forall i: nat ensures Fine(t, greet, i) {
      assert Fine(h, greet, i);
      SameDue(h, t, greet, i);
      if i == l {
        assert t.members[l].seen <= hello;
      }
    }
  }

  /** The greeting of `l` is complete, or `l` left meanwhile. */
  lemma GreetedKeeps<M>(h: Hub<M>, greet: seq<M> -> seq<M>, l: nat)
    requires Inv(h, greet) && l < |h.members| && h.members[l].greeting && h.members[l].joined <= |h.sent|
    requires h.members[l].linked ==> h.members[l].seen == greet(h.sent[..h.members[l].joined])
    ensures Inv(Greeted(h, l), greet)
  {
    var t := Greeted(h, l);
    forall i: nat ensures Fine(t, greet, i) {
      assert Fine(h, greet, i);
      SameDue(h, t, greet, i);
      if i == l {
        var j := h.members[l].joined;
        assert h.sent[j..j] == [];
      }
    }
  }

  ghost predicate NoGreeting<M>(h: Hub<M>) {
    forall l :: 0 <= l < |h.members| ==> !h.members[l].greeting
  }

  lemma PopMsgKeeps<M>(h: Hub<M>, greet: seq<M> -> seq<M>)
    requires Inv(h, greet) && NoGreeting(h)
    requires h.queue != [] && h.queue[0].Msg? && h.lists.after == [] && h.lists.saved == []
    ensures Inv(PopMsg(h), greet) && h.sent[h.delivered] == h.queue[0].m
  {
    var t := PopMsg(h);
    assert h.sent[h.delivered..][1..] == h.sent[h.delivered + 1..];
    assert h.sent[h.delivered] == h.sent[h.delivered..][0];
    forall l: nat ensures Fine(t, greet, l) {
      assert Fine(h, greet, l);
      SameDue(h, t, greet, l);
    }
  }

  lemma HopKeeps<M>(h: Hub<M>, greet: seq<M> -> seq<M>)
    requires Inv(h, greet) && h.lists.after != []
    ensures h.lists.after[0] < |h.members| && h.members[h.lists.after[0]].linked && 0 < h.delivered
    ensures Inv(Hop(h), greet)
  {
    var l := h.lists.after[0];
    assert Count(h.lists.after, l) > 0 && Fine(h, greet, l);
    forall i: nat ensures Fine(Hop(h), greet, i) {
      assert Fine(h, greet, i);
      HopFine(h, greet, i);
    }
  }

  lemma HopFine<M>(h: Hub<M>, greet: seq<M> -> seq<M>, i: nat)
    requires h.delivered <= |h.sent| && Fine(h, greet, i)
    requires h.lists.after != [] && h.lists.after[0] < |h.members| && 0 < h.delivered
    ensures Fine(Hop(h), greet, i)
  {
    var l := h.lists.after[0];
    CountConcat(h.lists.before, [l], i);
    assert Count([l], i) == if i == l then 1 else 0;
    SameDue(h, Hop(h), greet, i);
    if i == l {
      DueGrows(h, greet, l, h.delivered - 1, h.delivered);
      DueGrows(h, greet, l, h.delivered, |h.sent|);
    }
  }

  lemma PopBarrierKeeps<M>(h: Hub<M>, greet: seq<M> -> seq<M>)
    requires Inv(h, greet) && NoGreeting(h) && h.queue != [] && h.queue[0].Activate?
    ensures h.queue[0].id < |h.members| && Inv(PopBarrier(h), greet)
  {
    var l := h.queue[0].id;
    assert Waits(h.queue, l) > 0 && Fine(h, greet, l);
    var t := PopBarrier(h);
    forall i: nat ensures Fine(t, greet, i) {
      assert Fine(h, greet, i);
      CountConcat(h.lists.before, [l], i);
      assert Count([l], i) == if i == l then 1 else 0;
      SameDue(h, t, greet, i);
    }
  }

  lemma UnlinkKeeps<M>(h: Hub<M>, greet: seq<M> -> seq<M>, l: nat)
    requires Inv(h, greet) && l < |h.members|
    ensures Inv(Unlink(h, l), greet)
  {
    var t := Unlink(h, l);
    forall i: nat ensures Listed(t.lists, i) == (if i == l then 0 else Listed(h.lists, i))
                       && Count(t.lists.before, i) <= Count(h.lists.before, i)
                       && Count(t.lists.after, i) <= Count(h.lists.after, i)
                       && Count(t.lists.saved, i) <= Count(h.lists.saved, i) {
      DropCounts(h.lists.before, l, i);
      DropCounts(h.lists.after, l, i);
      DropCounts(h.lists.saved, l, i);
    }
    forall i: nat ensures Fine(t, greet, i) {
      assert Fine(h, greet, i);
      SameDue(h, t, greet, i);
    }
  }

  /** `t` is `s` with its entry of `l`, if it has one, cut out. */
  ghost predicate CutOut(s: seq<nat>, t: seq<nat>, l: nat) {
    && l !in t
    && if l in s then exists i :: CutAt(s, t, l, i) else t == s
  }

  ghost predicate CutAt(s: seq<nat>, t: seq<nat>, l: nat, i: int) {
    0 <= i < |s| && s[i] == l && t == s[..i] + s[i + 1..]
  }

  /** `t` is `h` after listener `l` has left: it is in no list, and nothing else is different. */
  ghost predicate Left<M>(h: Hub<M>, t: Hub<M>, l: nat) {
    && l < |h.members| == |t.members| && !t.members[l].linked
    && t.members[l] == Member(false, h.members[l].greeting, h.members[l].joined, h.members[l].seen)
    && (forall k :: 0 <= k < |h.members| && k != l ==> t.members[k] == h.members[k])
    && CutOut(h.lists.before, t.lists.before, l) && CutOut(h.lists.after, t.lists.after, l)
    && CutOut(h.lists.saved, t.lists.saved, l)
    && t.queue == h.queue && t.sent == h.sent && t.delivered == h.delivered
  }

  lemma UnlinkLeaves<M>(h: Hub<M>, greet: seq<M> -> seq<M>, l: nat)
    requires Inv(h, greet) && l < |h.members|
    ensures Left(h, Unlink(h, l), l)
  {
    assert Fine(h, greet, l);
    DropCutsOut(h.lists.before, l);
    DropCutsOut(h.lists.after, l);
    DropCutsOut(h.lists.saved, l);
  }

  lemma {:induction false} DropCutsOut(s: seq<nat>, l: nat)
    requires Count(s, l) <= 1
    ensures CutOut(s, Drop(s, l), l)
  {
    if s != [] {
      var x, t := s[0], s[1..];
      assert s == [x] + t;
      DropCutsOut(t, l);
      if x == l {
        NotCounted(t, l);
        CutHead(t, l);
        assert Drop(s, l) == t;
      } else {
        CutBehind(x, t, Drop(t, l), l);
      }
    }
  }

  lemma CutHead(t: seq<nat>, l: nat)
    requires l !in t
    ensures CutOut([l] + t, t, l)
  {
    var s := [l] + t;
    assert CutAt(s, t, l, 0);
  }

  lemma CutBehind(x: nat, t: seq<nat>, r: seq<nat>, l: nat)
    requires x != l && CutOut(t, r, l)
    ensures CutOut([x] + t, [x] + r, l)
  {
    HeadOrTail([x] + t, l);
    HeadOrTail([x] + r, l);
    if l in t {
      var i :| CutAt(t, r, l, i);
      CutOneLater(x, t, r, l, i);
    }
  }

  lemma CutOneLater(x: nat, t: seq<nat>, r: seq<nat>, l: nat, i: int)
    requires CutAt(t, r, l, i)
    ensures CutAt([x] + t, [x] + r, l, i + 1)
  {
    var s := [x] + t;
    assert s[..i + 1] == [x] + t[..i] && s[i + 2..] == t[i + 1..];
    Assoc([x], t[..i], t[i + 1..]);
  }

  lemma HeadOrTail(s: seq<nat>, l: nat)
    requires s != []
    ensures l in s <==> s[0] == l || l in s[1..]
  {
    assert s == [s[0]] + s[1..];
  }

  lemma {:induction false} NotCounted(s: seq<nat>, l: nat)
    ensures Count(s, l) == 0 <==> l !in s
  {
    if s != [] {
      HeadOrTail(s, l);
      NotCounted(s[1..], l);
    }
  }

  // ---------------------------------------------------------------- between calls

  /** Nothing is being traversed, set aside or greeted. */
  ghost predicate Idle<M>(h: Hub<M>) {
    NoGreeting(h) && h.lists.after == [] && h.lists.saved == []
  }

  /** How a hub may change at all: history and audience only grow, who left receives nothing. */
  ghost predicate Grown<M>(h: Hub<M>, t: Hub<M>) {
    && h.sent <= t.sent && |h.members| <= |t.members|
    && (forall l :: 0 <= l < |h.members| ==> Later(h.members[l], t.members[l]))
  }

  ghost predicate Later<M>(a: Member<M>, b: Member<M>) {
    && a.joined == b.joined && a.seen <= b.seen && (b.linked ==> a.linked)
    && (!a.linked ==> b.seen == a.seen)
  }

  /** What a callback can do while a dispatch turn is claimed: register, leave and append work.
      Nobody who was there before receives anything. */
  ghost predicate Reentered<M>(h: Hub<M>, t: Hub<M>) {
    && h.sent <= t.sent && h.queue <= t.queue && |h.members| <= |t.members|
    && t.delivered == h.delivered
    && |t.lists.after| <= |h.lists.after| && |t.lists.saved| <= |h.lists.saved|
    && (forall l :: 0 <= l < |h.members| ==> Kept(h.members[l], t.members[l]))
    && (forall l :: |h.members| <= l < |t.members| ==> !t.members[l].greeting)
  }

  ghost predicate Kept<M>(a: Member<M>, b: Member<M>) {
    b == a.(linked := b.linked) && (b.linked ==> a.linked)
  }

  lemma ReenteredTransitive<M>(h: Hub<M>, t: Hub<M>, u: Hub<M>)
    requires Reentered(h, t) && Reentered(t, u)
    ensures Reentered(h, u)
  {
    forall l | 0 <= l < |h.members| ensures Kept(h.members[l], u.members[l]) {
      assert Kept(h.members[l], t.members[l]) && Kept(t.members[l], u.members[l]);
    }
    forall l | |h.members| <= l < |u.members| ensures !u.members[l].greeting {
      if l < |t.members| {
        assert Kept(t.members[l], u.members[l]);
      }
    }
  }

  lemma ReenteredGrows<M>(h: Hub<M>, t: Hub<M>)
    requires Reentered(h, t)
    ensures Grown(h, t)
    ensures Idle(h) ==> Idle(t)
    ensures NoGreeting(h) ==> NoGreeting(t)
  {
    forall l | 0 <= l < |h.members| ensures Later(h.members[l], t.members[l]) {
      assert Kept(h.members[l], t.members[l]);
    }
    if NoGreeting(h) {
      forall l | 0 <= l < |t.members| ensures !t.members[l].greeting {
        if l < |h.members| {
          assert Kept(h.members[l], t.members[l]) && !h.members[l].greeting;
        }
      }
    }
  }

  /** Once it has left, a listener hears nothing more and does not come back, however the hub goes on. */
  lemma {:induction false} LeftHearsNothing<M>(hubs: seq<Hub<M>>, i: nat, j: nat, l: nat)
    requires i <= j < |hubs| && forall k :: 0 <= k < |hubs| - 1 ==> Grown(hubs[k], hubs[k + 1])
    requires l < |hubs[i].members| && !hubs[i].members[l].linked
    ensures l < |hubs[j].members| && !hubs[j].members[l].linked
    ensures hubs[j].members[l].seen == hubs[i].members[l].seen
  {
    if i < j {
      LeftHearsNothing(hubs, i, j - 1, l);
      assert Grown(hubs[j - 1], hubs[j - 1 + 1]);
      assert Later(hubs[j - 1].members[l], hubs[j].members[l]);
    }
  }

  /** Who does not ask to leave stays: those who were linked, and those who came. */
  ghost predicate Remain<M>(h: Hub<M>, t: Hub<M>, leavers: set<nat>) {
    forall l :: 0 <= l < |t.members| && l !in leavers && (l < |h.members| ==> h.members[l].linked) ==>
      t.members[l].linked
  }

  lemma RemainTransitive<M>(h: Hub<M>, t: Hub<M>, u: Hub<M>, a: set<nat>, b: set<nat>, all: set<nat>)
    requires Remain(h, t, a) && Remain(t, u, b) && a <= all && b <= all && |h.members| <= |t.members| <= |u.members|
    ensures Remain(h, u, all)
  {}

  lemma GrownTransitive<M>(h: Hub<M>, t: Hub<M>, u: Hub<M>)
    requires Grown(h, t) && Grown(t, u)
    ensures Grown(h, u)
  {
    forall l | 0 <= l < |h.members| ensures Later(h.members[l], u.members[l]) {
      assert Later(h.members[l], t.members[l]) && Later(t.members[l], u.members[l]);
    }
  }

  /** Once the queue is drained every linked listener has received its greeting and then, in
      order and without gaps, exactly what was published after it registered. */
  lemma DrainedMeansComplete<M>(h: Hub<M>, greet: seq<M> -> seq<M>, l: nat)
    requires Inv(h, greet) && Idle(h) && h.queue == [] && l < |h.members| && h.members[l].linked
    ensures h.members[l].joined <= |h.sent|
    ensures h.members[l].seen == greet(h.sent[..h.members[l].joined]) + h.sent[h.members[l].joined..]
  {
    assert Fine(h, greet, l);
    assert |h.sent[h.delivered..]| == 0;
    assert h.delivered == |h.sent|;
  }

  /** At any moment, also after it left: a listener saw a part of that, from the start. */
  lemma NothingOutOfOrder<M>(h: Hub<M>, greet: seq<M> -> seq<M>, l: nat)
    requires Inv(h, greet) && l < |h.members|
    ensures h.members[l].joined <= |h.sent|
    ensures h.members[l].seen <= greet(h.sent[..h.members[l].joined]) + h.sent[h.members[l].joined..]
  {
    assert Fine(h, greet, l);
    assert h.sent[h.members[l].joined..|h.sent|] == h.sent[h.members[l].joined..];
  }

  /** Folding messages into a state. */
  function Fold<S, M>(step: (S, M) -> S, s: S, ms: seq<M>): S
    decreases ms
  {
    if ms == [] then s else Fold(step, step(s, ms[0]), ms[1..])
  }

  lemma {:induction false} FoldConcat<S, M>(step: (S, M) -> S, s: S, a: seq<M>, b: seq<M>)
    ensures Fold(step, s, a + b) == Fold(step, Fold(step, s, a), b)
    decreases a
  {
    if a == [] {
      assert a + b == b;
    } else {
      assert (a + b)[1..] == a[1..] + b;
      FoldConcat(step, step(s, a[0]), a[1..], b);
    }
  }

  /** A listener that keeps its own copy ends up with the publisher's state, whenever it
      registered, if greetings rebuild the state of their moment. */
  lemma ReplicaIsCurrent<S, M>(h: Hub<M>, greet: seq<M> -> seq<M>, step: (S, M) -> S, blank: S, base: S,
                               l: nat)
    requires Inv(h, greet) && Idle(h) && h.queue == [] && l < |h.members| && h.members[l].linked
    requires forall past :: past <= h.sent ==> Fold(step, blank, greet(past)) == Fold(step, base, past)
    ensures Fold(step, blank, h.members[l].seen) == Fold(step, base, h.sent)
  {
    DrainedMeansComplete(h, greet, l);
    var j := h.members[l].joined;
    FoldConcat(step, blank, greet(h.sent[..j]), h.sent[j..]);
    FoldConcat(step, base, h.sent[..j], h.sent[j..]);
    assert h.sent[..j] + h.sent[j..] == h.sent;
  }
}
