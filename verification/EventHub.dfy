/** The listener endpoint of a node, device or monitor: a FIFO of notifications drained by one
    owner at a time while listener callbacks re-enter the same methods. */
module EventHub {
  import opened EventTrace

  /** What a callback does, and what the callbacks that causes do in turn. */
  datatype Script<M> =
    | Stop
    | Post(ms: seq<M>, inner: Replies<M>, rest: Script<M>)
    | Queue(m: M, rest: Script<M>)
    | Flush(inner: Replies<M>, rest: Script<M>)
    | Listen(inner: Replies<M>, rest: Script<M>)
    | Leave(l: nat, rest: Script<M>)

  /** The answers of the coming callbacks in call order; later ones do nothing. */
  datatype Replies<M> = NoMore | Reply(script: Script<M>, rest: Replies<M>)

  /** Callbacks that publish nothing. */
  predicate Quiet<M>(r: Replies<M>) {
    r.NoMore? || (QuietScript(r.script) && Quiet(r.rest))
  }

  predicate QuietScript<M>(s: Script<M>) {
    match s
    case Stop => true
    case Post(_, _, _) => false
    case Queue(_, _) => false
    case Flush(inner, rest) => Quiet(inner) && QuietScript(rest)
    case Listen(inner, rest) => Quiet(inner) && QuietScript(rest)
    case Leave(_, rest) => QuietScript(rest)
  }

  /** Who leaves at some point of these callbacks. */
  function Leavers<M>(r: Replies<M>): set<nat> {
    if r.NoMore? then {} else ScriptLeavers(r.script) + Leavers(r.rest)
  }

  function ScriptLeavers<M>(s: Script<M>): set<nat> {
    match s
    case Stop => {}
    case Post(_, inner, rest) => Leavers(inner) + ScriptLeavers(rest)
    case Queue(_, rest) => ScriptLeavers(rest)
    case Flush(inner, rest) => Leavers(inner) + ScriptLeavers(rest)
    case Listen(inner, rest) => Leavers(inner) + ScriptLeavers(rest)
    case Leave(l, rest) => {l} + ScriptLeavers(rest)
  }

  /** What a script itself publishes, in order, and how many listeners it registers. */
  function Posts<M>(s: Script<M>): seq<M> {
    match s
    case Stop => []
    case Post(ms, _, rest) => ms + Posts(rest)
    case Queue(m, rest) => [m] + Posts(rest)
    case _ => Posts(s.rest)
  }

  function Listens<M>(s: Script<M>): nat {
    match s
    case Stop => 0
    case Listen(_, rest) => 1 + Listens(rest)
    case _ => Listens(s.rest)
  }

  /** What a script did to the hub: its listeners are there, who it made leave is gone, and, if no new
      listener's greeting came in between, its messages and no others are published. */
  ghost predicate Obeyed<M>(s: Script<M>, h: Hub<M>, t: Hub<M>) {
    && |t.members| >= |h.members| + Listens(s) && h.sent <= t.sent
    && (forall l :: 0 <= l < |h.members| && l in Gone(s) ==> !t.members[l].linked)
    && (Listens(s) == 0 ==> |t.members| == |h.members| && t.sent == h.sent + Posts(s))
  }

  /** The listeners a script itself removes. */
  function Gone<M>(s: Script<M>): set<nat> {
    match s
    case Stop => {}
    case Leave(l, rest) => {l} + Gone(rest)
    case _ => Gone(s.rest)
  }

  class EventHub<M> {
    const greet: seq<M> -> seq<M>
    var queue: seq<Note<M>>
    var dispatching: bool
    var lists: Lists
    var members: seq<Member<M>>
    var sent: seq<M>
    ghost var delivered: nat
    ghost var owners: nat

    ghost function View(): Hub<M>
      reads this
    {
      Hub(queue, lists, members, sent, delivered)
    }

    /** One owner at most drains, and without an owner nothing is under way. */
    ghost predicate Valid()
      reads this
    {
      Consistent() && (!dispatching ==> Idle(View()))
    }

    ghost predicate Consistent()
      reads this
    {
      Inv(View(), greet) && owners == (if dispatching then 1 else 0)
    }

    constructor (greet: seq<M> -> seq<M>)
      ensures Valid() && !dispatching && this.greet == greet
      ensures View() == Hub([], Lists([], [], []), [], [], 0)
    {
      this.greet := greet;
      queue, dispatching, lists, members := [], false, Lists([], [], []), [];
      sent, delivered, owners := [], 0, 0;
    }

    method BeginDispatch() returns (claimed: bool)
      requires Consistent()
      modifies this`dispatching, this`owners
      ensures Valid() && dispatching && claimed == !old(dispatching)
    {
      claimed := !dispatching;
      if claimed {
        dispatching, owners := true, owners + 1;
      }
    }

    /** A notification is queued without draining. */
    method Enqueue(m: M)
      requires Valid()
      modifies this`queue, this`sent
      ensures Valid() && View() == EventTrace.Enqueue(old(View()), m)
      ensures queue == old(queue) + [Msg(m)] && sent == old(sent) + [m]
    {
      EnqueueKeeps(View(), greet, m);
      queue, sent := queue + [Msg(m)], sent + [m];
    }

    /** A listener removes its hook, from whatever list it is on. */
    method Unlink(l: nat)
      requires Valid()
      modifies this`lists, this`members
      ensures Valid()
      ensures if l < |old(members)| then Left(old(View()), View(), l) else View() == old(View())
    {
      if l < |members| {
        UnlinkKeeps(View(), greet, l);
        UnlinkLeaves(View(), greet, l);
        lists := Lists(Drop(lists.before, l), Drop(lists.after, l), Drop(lists.saved, l));
        members := members[l := members[l].(linked := false)];
      }
    }

    /** Appends a transaction and drains, unless an outer owner will. */
    method DispatchAll(ms: seq<M>, replies: Replies<M>)
      requires Valid()
      modifies this
      ensures Valid() && dispatching == old(dispatching)
      ensures old(sent) + ms <= sent && (Quiet(replies) || dispatching ==> sent == old(sent) + ms)
      ensures if dispatching then Reentered(old(View()), View()) && members == old(members)
              else queue == [] && Grown(old(View()), View())
      ensures Remain(old(View()), View(), Leavers(replies))
      decreases replies, 6
    {
      var i := 0;
      while i < |ms|
        invariant 0 <= i <= |ms| && Valid() && sent == old(sent) + ms[..i] && members == old(members)
        invariant dispatching == old(dispatching) && Reentered(old(View()), View())
      {
        ghost var was := View();
        Enqueue(ms[i]);
        ReenteredTransitive(old(View()), was, View());
        assert ms[..i + 1] == ms[..i] + [ms[i]];
        i := i + 1;
      }
      ghost var was := View();
      FlushAll(replies);
      if dispatching {
      } else {
        ReenteredGrows(old(View()), was);
        GrownTransitive(old(View()), was, View());
      }
      assert ms[..i] == ms;
    }

    /** Drains what is queued, unless an outer owner will. */
    method FlushAll(replies: Replies<M>)
      requires Valid()
      modifies this
      ensures Valid() && dispatching == old(dispatching)
      ensures old(sent) <= sent && (Quiet(replies) ==> sent == old(sent))
      ensures if dispatching then View() == old(View())
              else queue == [] && Grown(old(View()), View())
      ensures Remain(old(View()), View(), Leavers(replies))
      decreases replies, 5
    {
      var claimed := BeginDispatch();
      if claimed {
        Drain(replies);
      }
    }

    /** The owner's loop: one notification at a time, with callbacks free to append. */
    method Drain(replies: Replies<M>)
      requires Valid() && dispatching && Idle(View())
      modifies this
      ensures Valid() && !dispatching && queue == []
      ensures Grown(old(View()), View()) && (Quiet(replies) ==> sent == old(sent))
      ensures Remain(old(View()), View(), Leavers(replies))
      decreases replies, 4
    {
      var left := replies;
      while queue != []
        invariant Valid() && dispatching && Idle(View())
        invariant Grown(old(View()), View())
        invariant left == replies || left < replies
        invariant Quiet(replies) ==> Quiet(left) && sent == old(sent)
        invariant Remain(old(View()), View(), Leavers(replies)) && Leavers(left) <= Leavers(replies)
        decreases left, |queue|
      {
        ghost var was, all := View(), Leavers(replies);
        ghost var some := Leavers(left);
        left := DispatchNext(left);
        GrownTransitive(old(View()), was, View());
        RemainTransitive(old(View()), was, View(), all, some, all);
      }
      dispatching, owners := false, owners - 1;
    }

    method DispatchNext(replies: Replies<M>) returns (left: Replies<M>)
      requires Valid() && dispatching && Idle(View()) && queue != []
      modifies this
      ensures Valid() && dispatching && Idle(View()) && Grown(old(View()), View())
      ensures left < replies || (left == replies && |queue| < |old(queue)|)
      ensures Quiet(replies) ==> Quiet(left) && sent == old(sent)
      ensures Remain(old(View()), View(), Leavers(replies)) && Leavers(left) <= Leavers(replies)
      decreases replies, 3
    {
      match queue[0]
      case Activate(l) =>
        PopBarrierKeeps(View(), greet);
        queue := queue[1..];
        if members[l].linked {
          lists := lists.(before := lists.before + [l]);
        }
        left := replies;
      case Msg(m) =>
        PopMsgKeeps(View(), greet);
        queue, delivered := queue[1..], delivered + 1;
        lists := lists.(before := [], after := lists.before);
        left := Traverse(m, replies);
    }

    /** Delivers one message to every listener; each may do anything in its callback. */
    method Traverse(m: M, replies: Replies<M>) returns (left: Replies<M>)
      requires Valid() && dispatching && NoGreeting(View()) && lists.saved == []
      requires 0 < delivered && sent[delivered - 1] == m
      modifies this
      ensures Valid() && dispatching && Idle(View()) && Grown(old(View()), View())
      ensures left < replies || (left == replies && queue == old(queue))
      ensures Quiet(replies) ==> Quiet(left) && sent == old(sent)
      ensures old(lists.after) != [] && replies.Reply? ==> left < replies
      ensures Remain(old(View()), View(), Leavers(replies)) && Leavers(left) <= Leavers(replies)
      decreases replies, 2
    {
      left := replies;
      while lists.after != []
        invariant Valid() && dispatching && NoGreeting(View()) && lists.saved == []
        invariant 0 < delivered && sent[delivered - 1] == m
        invariant Grown(old(View()), View())
        invariant left < replies || (left == replies && queue == old(queue))
        invariant left < replies || lists.after == old(lists.after) || replies.NoMore?
        invariant Quiet(replies) ==> Quiet(left) && sent == old(sent)
        invariant Remain(old(View()), View(), Leavers(replies)) && Leavers(left) <= Leavers(replies)
        decreases |lists.after|
      {
        ghost var was, all := View(), Leavers(replies);
        ghost var some := Leavers(left);
        left := Deliver(m, left);
        GrownTransitive(old(View()), was, View());
        RemainTransitive(old(View()), was, View(), all, some, all);
      }
    }

    /** The next listener in front of the cursor receives the message, and its callback runs. */
    method Deliver(m: M, replies: Replies<M>) returns (left: Replies<M>)
      requires Valid() && dispatching && NoGreeting(View()) && lists.saved == [] && lists.after != []
      requires 0 < delivered && sent[delivered - 1] == m
      modifies this
      ensures Valid() && dispatching && NoGreeting(View()) && lists.saved == []
      ensures |lists.after| < |old(lists.after)|
      ensures delivered == old(delivered) && old(sent) <= sent && Grown(old(View()), View())
      ensures old(lists.after[0]) < |old(members)| <= |members|
      ensures members[old(lists.after[0])].seen == old(members)[old(lists.after[0])].seen + [m]
      ensures if replies.Reply? then left == replies.rest else left == replies && queue == old(queue)
      ensures Quiet(replies) ==> Quiet(left) && sent == old(sent)
      ensures Remain(old(View()), View(), Leavers(replies)) && Leavers(left) <= Leavers(replies)
      decreases replies, 1
    {
      ghost var was := View();
      HopKeeps(was, greet);
      HopGrows(was);
      var l := lists.after[0];
      lists := lists.(before := lists.before + [l], after := lists.after[1..]);
      members := members[l := members[l].(seen := members[l].seen + [m])];
      ghost var hopped := View();
      assert hopped == Hop(was);
      left := NextCallback(replies);
      assert Kept(hopped.members[l], members[l]);
      ReenteredGrows(hopped, View());
      GrownTransitive(was, hopped, View());
      RemainTransitive(was, hopped, View(), {}, Leavers(replies), Leavers(replies));
    }

    /** The new listener's place: the active list if nothing older is pending, otherwise behind a
        barrier. */
    method Register() returns (id: nat, active: bool)
      requires Valid()
      modifies this`queue, this`lists, this`members
      ensures Consistent() && id == |old(members)| && active == !(dispatching || old(queue) != [])
      ensures View() == if active then Isolate(old(View())) else Defer(old(View()))
    {
      id, active := |members|, !(dispatching || queue != []);
      if active {
        IsolateKeeps(View(), greet);
        lists := Lists([id], [], lists.before);
      } else {
        DeferKeeps(View(), greet);
        queue := queue + [Activate(id)];
      }
      members := members + [Member(true, true, |sent|, [])];
    }

    /** add_listener: registers behind older work, greets the new listener alone while holding
        the dispatch turn, and drains if the turn was free. */
    method AddListener(replies: Replies<M>) returns (id: nat)
      requires Valid()
      modifies this
      ensures Valid() && dispatching == old(dispatching) && id == |old(members)| < |members|
      ensures members[id].joined == |old(sent)|
      ensures old(sent) <= sent && (Quiet(replies) ==> sent == old(sent))
      ensures if dispatching then Reentered(old(View()), View())
              else queue == [] && Grown(old(View()), View())
      ensures Remain(old(View()), View(), Leavers(replies))
      decreases replies, 6
    {
      var hello := greet(sent);
      var active;
      id, active := Register();
      ghost var registered := View();
      var claimed := BeginDispatch();
      assert sent[..|sent|] == sent;
      var left := Greet(id, hello, replies);
      ghost var greeted := View();
      if active {
        JoinKeeps(View(), greet);
        lists := Lists(lists.saved + lists.before, lists.after, []);
      }
      RegisteredReenters(old(View()), registered, greeted, View());
      RemainTransitive(old(View()), registered, View(), {}, Leavers(replies), Leavers(replies));
      if claimed {
        ghost var was := View();
        ReenteredGrows(old(View()), was);
        Drain(left);
        GrownTransitive(old(View()), was, View());
        RemainTransitive(old(View()), was, View(), Leavers(replies), Leavers(left), Leavers(replies));
      }
    }

    /** The initial events reach the new listener only. It may leave during its own greeting. */
    method Greet(id: nat, hello: seq<M>, replies: Replies<M>) returns (left: Replies<M>)
      requires Valid() && dispatching && id < |members| && members[id].linked && members[id].greeting
      requires members[id].seen == [] && members[id].joined <= |sent|
      requires hello == greet(sent[..members[id].joined])
      modifies this
      ensures Valid() && dispatching && id < |members| && !members[id].greeting
      ensures Addressed(old(View()), View(), id)
      ensures left == replies || left < replies
      ensures hello != [] && replies.Reply? ==> left < replies
      ensures Quiet(replies) ==> Quiet(left) && sent == old(sent)
      ensures Remain(old(View()), View(), Leavers(replies)) && Leavers(left) <= Leavers(replies)
      decreases replies, 3
    {
      left := replies;
      var k := 0;
      while k < |hello| && members[id].linked
        invariant Valid() && dispatching && id < |members| && members[id].greeting
        invariant 0 <= k <= |hello| && (members[id].linked ==> members[id].seen == hello[..k])
        invariant members[id].joined <= |sent| && hello == greet(sent[..members[id].joined])
        invariant Addressed(old(View()), View(), id)
        invariant left == replies || left < replies
        invariant left < replies || (k == 0 && members == old(members)) || replies.NoMore?
        invariant Quiet(replies) ==> Quiet(left) && sent == old(sent)
        invariant Remain(old(View()), View(), Leavers(replies)) && Leavers(left) <= Leavers(replies)
        decreases |hello| - k
      {
        ghost var was, all := View(), Leavers(replies);
        ghost var some := Leavers(left);
        left := Tell(id, hello, k, left);
        AddressedTransitive(old(View()), was, View(), id);
        RemainTransitive(old(View()), was, View(), all, some, all);
        k := k + 1;
      }
      assert hello[..|hello|] == hello;
      GreetedKeeps(View(), greet, id);
      members := members[id := members[id].(greeting := false)];
    }

    /** One message of the greeting and its callback. */
    method Tell(id: nat, hello: seq<M>, k: nat, replies: Replies<M>) returns (left: Replies<M>)
      requires Valid() && dispatching && id < |members| && members[id].linked && members[id].greeting
      requires k < |hello| && members[id].seen == hello[..k] && members[id].joined <= |sent|
      requires hello == greet(sent[..members[id].joined])
      modifies this
      ensures Valid() && dispatching && Addressed(old(View()), View(), id)
      ensures members[id].greeting && members[id].seen == hello[..k + 1]
      ensures members[id].joined <= |sent| && hello == greet(sent[..members[id].joined])
      ensures if replies.Reply? then left == replies.rest else left == replies
      ensures Quiet(replies) ==> Quiet(left) && sent == old(sent)
      ensures Remain(old(View()), View(), Leavers(replies)) && Leavers(left) <= Leavers(replies)
      decreases replies, 1
    {
      ghost var was := View();
      GreetKeeps(was, greet, id, k);
      members := members[id := members[id].(seen := members[id].seen + [hello[k]])];
      ghost var told := View();
      left := NextCallback(replies);
      assert Kept(told.members[id], members[id]);
      assert sent[..members[id].joined] == was.sent[..members[id].joined];
      ToldAddresses(was, told, View(), id, hello[k]);
      RemainTransitive(was, told, View(), {}, Leavers(replies), Leavers(replies));
    }

    method NextCallback(replies: Replies<M>) returns (left: Replies<M>)
      requires Valid() && dispatching
      modifies this
      ensures Valid() && dispatching && Reentered(old(View()), View())
      ensures if replies.Reply? then left == replies.rest else left == replies && View() == old(View())
      ensures Quiet(replies) ==> Quiet(left) && sent == old(sent)
      ensures Remain(old(View()), View(), Leavers(replies)) && Leavers(left) <= Leavers(replies)
      ensures replies.Reply? ==> Obeyed(replies.script, old(View()), View())
      decreases replies, 0
    {
      left := replies;
      if replies.Reply? {
        RunCallback(replies.script);
        left := replies.rest;
      }
    }

    /** A listener callback re-enters the endpoint. */
    method RunCallback(script: Script<M>)
      requires Valid() && dispatching
      modifies this
      ensures Valid() && dispatching && Reentered(old(View()), View())
      ensures QuietScript(script) ==> sent == old(sent)
      ensures Remain(old(View()), View(), ScriptLeavers(script)) && Obeyed(script, old(View()), View())
      decreases script, 1
    {
      if !script.Stop? {
        RunFirst(script);
        ghost var was := View();
        RunCallback(script.rest);
        ReenteredTransitive(old(View()), was, View());
        RemainBehind(script, old(View()), was, View());
        ObeyedBehind(script, old(View()), was, View());
      }
    }

    /** The first thing a callback does. */
    method RunFirst(script: Script<M>)
      requires Valid() && dispatching && !script.Stop?
      modifies this
      ensures Valid() && dispatching && Reentered(old(View()), View())
      ensures QuietScript(script) ==> sent == old(sent)
      ensures Remain(old(View()), View(), FirstLeavers(script)) && ObeyedFirst(script, old(View()), View())
      decreases script, 0
    {
      match script
      case Post(ms, inner, _) =>
        DispatchAll(ms, inner);
      case Queue(m, _) =>
        Enqueue(m);
      case Flush(inner, _) =>
        FlushAll(inner);
      case Listen(inner, _) =>
        var _ := AddListener(inner);
      case Leave(l, _) =>
        Unlink(l);
    }
  }

  // ---------------------------------------------------------------- how the parts fit

  /** Who leaves in the first part of a script, in the callbacks it causes included. */
  function FirstLeavers<M>(s: Script<M>): set<nat> {
    match s
    case Post(_, inner, _) => Leavers(inner)
    case Flush(inner, _) => Leavers(inner)
    case Listen(inner, _) => Leavers(inner)
    case Leave(l, _) => {l}
    case _ => {}
  }

  lemma RemainBehind<M>(s: Script<M>, h: Hub<M>, was: Hub<M>, t: Hub<M>)
    requires !s.Stop? && Remain(h, was, FirstLeavers(s)) && Remain(was, t, ScriptLeavers(s.rest))
    requires |h.members| <= |was.members| <= |t.members|
    ensures Remain(h, t, ScriptLeavers(s))
  {
    RemainTransitive(h, was, t, FirstLeavers(s), ScriptLeavers(s.rest), ScriptLeavers(s));
  }

  /** What the first part of a script has to have done. */
  ghost predicate ObeyedFirst<M>(s: Script<M>, h: Hub<M>, t: Hub<M>) {
    match s
    case Stop => h == t
    case Post(ms, _, _) => |t.members| == |h.members| && t.sent == h.sent + ms
    case Queue(m, _) => |t.members| == |h.members| && t.sent == h.sent + [m]
    case Flush(_, _) => h == t
    case Listen(_, _) => |t.members| > |h.members|
    case Leave(l, _) =>
      |t.members| == |h.members| && t.sent == h.sent && (l < |h.members| ==> !t.members[l].linked)
  }

  lemma ObeyedBehind<M>(s: Script<M>, h: Hub<M>, was: Hub<M>, t: Hub<M>)
    requires !s.Stop? && ObeyedFirst(s, h, was) && Obeyed(s.rest, was, t)
    requires Reentered(h, was) && Reentered(was, t)
    ensures Obeyed(s, h, t)
  {
    forall l | 0 <= l < |h.members| && l in Gone(s) ensures !t.members[l].linked {
      assert Kept(was.members[l], t.members[l]);
    }
    if Listens(s) == 0 {
      assert t.sent == was.sent + Posts(s.rest);
      assert t.sent == h.sent + Posts(s);
    }
  }

  lemma HopGrows<M>(h: Hub<M>)
    requires h.lists.after != [] && h.lists.after[0] < |h.members| && 0 < h.delivered <= |h.sent|
    requires h.members[h.lists.after[0]].linked
    ensures Grown(h, Hop(h)) && (NoGreeting(h) ==> NoGreeting(Hop(h)))
  {}

  /** As `Reentered`, while listener `id` is being greeted. */
  ghost predicate Addressed<M>(h: Hub<M>, t: Hub<M>, id: nat) {
    && id < |h.members| <= |t.members|
    && h.sent <= t.sent && h.queue <= t.queue && t.delivered == h.delivered
    && |t.lists.after| <= |h.lists.after| && |t.lists.saved| <= |h.lists.saved|
    && (forall l :: 0 <= l < |h.members| && l != id ==> Kept(h.members[l], t.members[l]))
    && (forall l :: |h.members| <= l < |t.members| ==> !t.members[l].greeting)
    && t.members[id].joined == h.members[id].joined && (t.members[id].linked ==> h.members[id].linked)
  }

  /** One greeting message and its callback. */
  lemma ToldAddresses<M>(was: Hub<M>, told: Hub<M>, now: Hub<M>, id: nat, m: M)
    requires id < |was.members| && told == Receive(was, id, m) && Reentered(told, now)
    ensures Addressed(was, now, id)
  {
    assert Kept(told.members[id], now.members[id]);
    forall l | 0 <= l < |was.members| && l != id ensures Kept(was.members[l], now.members[l]) {
      assert Kept(told.members[l], now.members[l]);
    }
  }

  lemma AddressedTransitive<M>(h: Hub<M>, was: Hub<M>, now: Hub<M>, id: nat)
    requires Addressed(h, was, id) && Addressed(was, now, id)
    ensures Addressed(h, now, id)
  {
    forall l | 0 <= l < |h.members| && l != id ensures Kept(h.members[l], now.members[l]) {
      assert Kept(h.members[l], was.members[l]) && Kept(was.members[l], now.members[l]);
    }
    forall l | |h.members| <= l < |now.members| ensures !now.members[l].greeting {
      if l < |was.members| {
        assert l != id && Kept(was.members[l], now.members[l]);
      }
    }
  }

  /** A whole registration, seen by those who were there before. */
  lemma RegisteredReenters<M>(h: Hub<M>, registered: Hub<M>, greeted: Hub<M>, t: Hub<M>)
    requires registered.members == h.members + [Member(true, true, |h.sent|, [])]
    requires registered.sent == h.sent && h.queue <= registered.queue && registered.delivered == h.delivered
    requires Addressed(registered, greeted, |h.members|)
    requires t == greeted.(lists := t.lists) && !greeted.members[|h.members|].greeting
    requires |t.lists.after| <= |h.lists.after| && |t.lists.saved| <= |h.lists.saved|
    ensures Reentered(h, t)
  {
    forall l | 0 <= l < |h.members| ensures Kept(h.members[l], t.members[l]) {
      assert Kept(registered.members[l], greeted.members[l]);
    }
  }
}
