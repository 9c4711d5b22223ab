/** What a traversal of a listener list means, without pointers or cursors.

    A callback may unlink any hook, append hooks, start nested traversals, and set the whole list
    aside while it greets a new hook alone. Its behaviour is a finite `Script`; the answers of all
    callbacks of one traversal, in call order, are `Replies`, and callbacks beyond the last reply
    do nothing. Every finite run of a re-entrant traversal is described this way. */
module HookTrace {

  /** A list link: the head, a traversal's cursor, or a hook. Only a hook has callbacks. */
  class Link {
    const isHook: bool
    var prev: Link
    var next: Link

    constructor (isHook: bool)
      ensures this.isHook == isHook && prev == this && next == this
    {
      this.isHook := isHook;
      prev, next := this, this;
    }
  }

  datatype Script =
    | Done
    | Unlink(hook: Link, rest: Script)
    | Append(hook: Link, rest: Script)
    | Emit(inner: Replies, rest: Script)
    | Greet(hook: Link, greeting: Script, rest: Script)

  datatype Replies = NoMore | Reply(script: Script, rest: Replies)

  /** Calls carry the nesting depth of the traversal that makes them. */
  datatype Event = Called(depth: nat, hook: Link) | Unlinked(hook: Link) | Appended(hook: Link)

  function Without(s: seq<Link>, h: Link): seq<Link> {
    if s == [] then []
    else (if s[0] == h then [] else [s[0]]) + Without(s[1..], h)
  }

  function Effect(s: seq<Link>, e: Event): seq<Link> {
    match e
    case Called(_, _) => s
    case Unlinked(h) => Without(s, h)
    case Appended(h) => s + [h]
  }

  /** The list after all of `es`. */
  function Effects(s: seq<Link>, es: seq<Event>): seq<Link>
    decreases es
  {
    if es == [] then s else Effects(Effect(s, es[0]), es[1..])
  }

  /** The part before a cursor: appended hooks never land there. */
  function Drops(s: seq<Link>, es: seq<Event>): seq<Link>
    decreases es
  {
    if es == [] then s
    else Drops(if es[0].Unlinked? then Without(s, es[0].hook) else s, es[1..])
  }

  /** A traversal that has passed `done` and still has `todo` in front of it. `saved` are the hooks
      set aside meanwhile; the whole list is `saved`, then `done`, then `todo`. */
  function Walk(saved: seq<Link>, done: seq<Link>, todo: seq<Link>, replies: Replies, depth: nat): seq<Event>
    decreases replies, |todo|
  {
    if todo == [] then []
    else
      var h := todo[0];
      var call := Called(depth, h);
      if replies.NoMore? then [call] + Walk(saved, done + [h], todo[1..], NoMore, depth)
      else
        var acts := Run(saved, done + todo, replies.script, depth + 1);
        [call] + acts
        + Walk(Drops(saved, acts), Drops(done + [h], acts), Effects(todo[1..], acts), replies.rest, depth)
  }

  /** A callback's actions, one after the other. */
  function Run(saved: seq<Link>, list: seq<Link>, s: Script, depth: nat): seq<Event>
    decreases s, 1
  {
    if s.Done? then []
    else
      var acts := Act(saved, list, s, depth);
      acts + Run(Drops(saved, acts), Effects(list, acts), s.rest, depth)
  }

  /** The first action of a callback. A greeting sets this list aside behind what is `saved`
      already, runs with the new hook alone, and joins the lists again. */
  function Act(saved: seq<Link>, list: seq<Link>, s: Script, depth: nat): seq<Event>
    decreases s, 0
  {
    match s
    case Done => []
    case Unlink(h, _) => if h in saved || h in list then [Unlinked(h)] else []
    case Append(h, _) => if Fresh(h, saved, list) then [Appended(h)] else []
    case Emit(inner, _) => Walk(saved, [], list, inner, depth)
    case Greet(h, greeting, _) =>
      if Fresh(h, saved, list) then [Appended(h)] + Run(saved + list, [h], greeting, depth) else []
  }

  /** A hook that is linked nowhere. */
  predicate Fresh(h: Link, saved: seq<Link>, list: seq<Link>) { h.isHook && h !in saved && h !in list }

  // ---------------------------------------------------------------- list algebra

  ghost predicate Distinct(s: seq<Link>) {
    forall i, j :: 0 <= i < j < |s| ==> s[i] != s[j]
  }

  ghost predicate AllHooks(s: seq<Link>) { forall h :: h in s ==> h.isHook }

  /** Each event meets the list it happens on: calls and unlinks hit a linked hook, an
      appended hook was not linked. */
  ghost predicate Sound(s: seq<Link>, es: seq<Event>)
    decreases es
  {
    es == [] ||
    (es[0].hook.isHook && (es[0].Appended? <==> es[0].hook !in s) && Sound(Effect(s, es[0]), es[1..]))
  }

  lemma Assoc<T>(a: seq<T>, b: seq<T>, c: seq<T>)
    ensures a + (b + c) == a + b + c
  {}

  lemma {:induction false} WithoutAbsent(s: seq<Link>, h: Link)
    requires h !in s
    ensures Without(s, h) == s
  {
    if s != [] {
      WithoutAbsent(s[1..], h);
    }
  }

  lemma {:induction false} WithoutConcat(a: seq<Link>, b: seq<Link>, h: Link)
    ensures Without(a + b, h) == Without(a, h) + Without(b, h)
  {
    if a == [] {
      assert a + b == b;
    } else {
      WithoutConcat(a[1..], b, h);
      assert (a + b)[1..] == a[1..] + b;
      Assoc(if a[0] == h then [] else [a[0]], Without(a[1..], h), Without(b, h));
    }
  }

  lemma {:induction false} WithoutMembers(s: seq<Link>, h: Link)
    ensures forall x :: x in Without(s, h) ==> x in s && x != h
    ensures forall x :: x in s && x != h ==> x in Without(s, h)
    ensures Distinct(s) ==> Distinct(Without(s, h))
  {
    if s != [] {
      var t := s[1..];
      WithoutMembers(t, h);
      if Distinct(s) {
        assert forall i :: 0 <= i < |t| ==> t[i] == s[i + 1];
        var w := Without(t, h);
        assert s[0] !in t;
        assert forall i :: 0 <= i < |w| ==> w[i] in w && w[i] != s[0];
      }
    }
  }

  /** In a list without duplicates one link leaves and the rest closes up. */
  lemma {:induction false} WithoutAt(s: seq<Link>, i: nat)
    requires Distinct(s) && i < |s|
    ensures Without(s, s[i]) == s[..i] + s[i + 1..]
  {
    var t := s[1..];
    assert forall k :: 0 <= k < |t| ==> t[k] == s[k + 1];
    if i == 0 {
      WithoutAbsent(t, s[0]);
    } else {
      WithoutAt(t, i - 1);
      assert [s[0]] + (t[..i - 1] + t[i..]) == s[..i] + s[i + 1..];
    }
  }

  lemma {:induction false} EffectsConcat(s: seq<Link>, e: seq<Event>, f: seq<Event>)
    ensures Effects(s, e + f) == Effects(Effects(s, e), f)
    ensures Sound(s, e + f) <==> Sound(s, e) && Sound(Effects(s, e), f)
    decreases e
  {
    if e == [] {
      assert e + f == f;
    } else {
      assert (e + f)[1..] == e[1..] + f;
      EffectsConcat(Effect(s, e[0]), e[1..], f);
    }
  }

  lemma EffectKeeps(s: seq<Link>, e: Event)
    requires Distinct(s) && (e.Appended? ==> e.hook !in s)
    ensures Distinct(Effect(s, e))
    ensures e.hook.isHook && AllHooks(s) ==> AllHooks(Effect(s, e))
  {
    match e
    case Called(_, _) =>
    case Unlinked(h) =>
      WithoutMembers(s, h);
      assert Effect(s, e) == Without(s, h);
    case Appended(h) => assert forall x :: x in s + [h] ==> x in s || x == h;
  }

  lemma {:induction false} EffectsKeep(s: seq<Link>, es: seq<Event>)
    requires Distinct(s) && Sound(s, es)
    ensures Distinct(Effects(s, es))
    ensures AllHooks(s) ==> AllHooks(Effects(s, es))
    decreases es
  {
    if es != [] {
      EffectKeeps(s, es[0]);
      EffectsKeep(Effect(s, es[0]), es[1..]);
    }
  }

  lemma SplitEffect(b: seq<Link>, mid: seq<Link>, a: seq<Link>, e: Event)
    requires e.hook !in mid
    ensures Effect(b + mid + a, e)
         == (if e.Unlinked? then Without(b, e.hook) else b) + mid + Effect(a, e)
  {
    WithoutConcat(b + mid, a, e.hook);
    WithoutConcat(b, mid, e.hook);
    WithoutAbsent(mid, e.hook);
  }

  /** A cursor `mid` splits the effects: the part before it only loses hooks. */
  lemma {:induction false} SplitEffects(b: seq<Link>, mid: seq<Link>, a: seq<Link>, es: seq<Event>)
    requires forall k :: 0 <= k < |es| ==> es[k].hook !in mid
    ensures Effects(b + mid + a, es) == Drops(b, es) + mid + Effects(a, es)
    decreases es
  {
    if es != [] {
      var e := es[0];
      SplitEffect(b, mid, a, e);
      SplitEffects(if e.Unlinked? then Without(b, e.hook) else b, mid, Effect(a, e), es[1..]);
    }
  }

  lemma SplitPlain(b: seq<Link>, a: seq<Link>, es: seq<Event>)
    ensures Effects(b + a, es) == Drops(b, es) + Effects(a, es)
  {
    SplitEffects(b, [], a, es);
    assert b + [] == b;
    assert Drops(b, es) + [] == Drops(b, es);
  }

  lemma {:induction false} DropsConcat(s: seq<Link>, e: seq<Event>, f: seq<Event>)
    ensures Drops(s, e + f) == Drops(Drops(s, e), f)
    decreases e
  {
    if e == [] {
      assert e + f == f;
    } else {
      assert (e + f)[1..] == e[1..] + f;
      DropsConcat(if e[0].Unlinked? then Without(s, e[0].hook) else s, e[1..], f);
    }
  }

  // ---------------------------------------------------------------- every event is sound

  /** A list in parts, well formed as a whole. */
  ghost predicate Whole(s: seq<Link>) { Distinct(s) && AllHooks(s) }

  /** What sound events leave of a list in two parts. */
  lemma Parts(saved: seq<Link>, list: seq<Link>, es: seq<Event>)
    requires Whole(saved + list) && Sound(saved + list, es)
    ensures Effects(saved + list, es) == Drops(saved, es) + Effects(list, es)
    ensures Whole(Drops(saved, es) + Effects(list, es))
  {
    EffectsKeep(saved + list, es);
    SplitPlain(saved, list, es);
  }

  lemma SoundCons(list: seq<Link>, e: Event, es: seq<Event>)
    requires e.hook.isHook && (e.Appended? <==> e.hook !in list) && Sound(Effect(list, e), es)
    ensures Sound(list, [e] + es)
  {
    assert ([e] + es)[1..] == es;
  }

  lemma {:induction false} RunSound(saved: seq<Link>, list: seq<Link>, s: Script, depth: nat)
    requires Whole(saved + list)
    ensures Sound(saved + list, Run(saved, list, s, depth))
    decreases s, 1
  {
    if !s.Done? {
      var acts := Act(saved, list, s, depth);
      ActSound(saved, list, s, depth);
      Parts(saved, list, acts);
      RunSound(Drops(saved, acts), Effects(list, acts), s.rest, depth);
      EffectsConcat(saved + list, acts, Run(Drops(saved, acts), Effects(list, acts), s.rest, depth));
    }
  }

  lemma {:induction false} ActSound(saved: seq<Link>, list: seq<Link>, s: Script, depth: nat)
    requires Whole(saved + list)
    ensures Sound(saved + list, Act(saved, list, s, depth))
    decreases s, 0
  {
    match s
    case Done =>
    case Unlink(h, _) =>
    case Append(h, _) =>
    case Emit(inner, _) =>
      assert saved + [] + list == saved + list;
      WalkSound(saved, [], list, inner, depth);
    case Greet(h, greeting, _) =>
      if Fresh(h, saved, list) {
        EffectKeeps(saved + list, Appended(h));
        RunSound(saved + list, [h], greeting, depth);
        SoundCons(saved + list, Appended(h), Run(saved + list, [h], greeting, depth));
      }
  }

  /** One callback: where the cursor stands afterwards, and what is left to do. */
  lemma ReplyStep(saved: seq<Link>, done: seq<Link>, todo: seq<Link>, script: Script, depth: nat)
    requires todo != [] && Whole(saved + done + todo)
    ensures var acts := Run(saved, done + todo, script, depth);
            var saved', done', todo' := Drops(saved, acts), Drops(done + [todo[0]], acts), Effects(todo[1..], acts);
            && Sound(saved + done + todo, acts)
            && Effects(saved + done + todo, acts) == saved' + done' + todo'
            && Whole(saved' + done' + todo')
    decreases script, 2
  {
    var acts := Run(saved, done + todo, script, depth);
    Assoc(saved, done, todo);
    RunSound(saved, done + todo, script, depth);
    Parts(saved, done + todo, acts);
    ReplySplit(done, todo, acts);
    Assoc(Drops(saved, acts), Drops(done + [todo[0]], acts), Effects(todo[1..], acts));
  }

  lemma ReplySplit(done: seq<Link>, todo: seq<Link>, acts: seq<Event>)
    requires todo != []
    ensures Effects(done + todo, acts) == Drops(done + [todo[0]], acts) + Effects(todo[1..], acts)
  {
    SplitPlain(done + [todo[0]], todo[1..], acts);
    HeadTail(todo);
    Assoc(done, [todo[0]], todo[1..]);
  }

  lemma HeadTail<T>(s: seq<T>)
    requires s != []
    ensures s == [s[0]] + s[1..]
  {}

  /** The cursor passes one hook. */
  lemma PassOne(saved: seq<Link>, done: seq<Link>, todo: seq<Link>)
    requires todo != []
    ensures saved + (done + [todo[0]]) + todo[1..] == saved + done + todo
  {
    HeadTail(todo);
  }

  lemma SoundCall(list: seq<Link>, call: Event, es: seq<Event>)
    requires call.Called? && call.hook in list && call.hook.isHook && Sound(list, es)
    ensures Sound(list, [call] + es)
  {
    assert ([call] + es)[1..] == es;
  }

  lemma {:induction false} WalkSound(saved: seq<Link>, done: seq<Link>, todo: seq<Link>, replies: Replies,
                                     depth: nat)
    requires Whole(saved + done + todo)
    ensures Sound(saved + done + todo, Walk(saved, done, todo, replies, depth))
    decreases replies, |todo|
  {
    if todo != [] {
      var list, h := saved + done + todo, todo[0];
      assert h in list;
      if replies.NoMore? {
        PassOne(saved, done, todo);
        WalkSound(saved, done + [h], todo[1..], NoMore, depth);
        SoundCall(list, Called(depth, h), Walk(saved, done + [h], todo[1..], NoMore, depth));
      } else {
        var acts := Run(saved, done + todo, replies.script, depth + 1);
        ReplyStep(saved, done, todo, replies.script, depth + 1);
        var saved', done', todo' := Drops(saved, acts), Drops(done + [h], acts), Effects(todo[1..], acts);
        WalkSound(saved', done', todo', replies.rest, depth);
        var rest := Walk(saved', done', todo', replies.rest, depth);
        EffectsConcat(list, acts, rest);
        SoundCall(list, Called(depth, h), acts + rest);
        Assoc([Called(depth, h)], acts, rest);
      }
    }
  }

  // ---------------------------------------------------------------- main results

  /** The hooks one traversal called, in call order. */
  function Calls(es: seq<Event>, depth: nat): seq<Link> {
    if es == [] then []
    else (if es[0].Called? && es[0].depth == depth then [es[0].hook] else []) + Calls(es[1..], depth)
  }

  function Pick(s: seq<Link>, keep: set<Link>): seq<Link> {
    if s == [] then [] else (if s[0] in keep then [s[0]] else []) + Pick(s[1..], keep)
  }

  /** No hook of `keep` is unlinked or appended by `es`. */
  predicate Leaves(es: seq<Event>, keep: set<Link>) {
    forall k :: 0 <= k < |es| && !es[k].Called? ==> es[k].hook !in keep
  }

  /** Every callback runs on a hook that is linked at that moment, at every nesting depth. */
  lemma {:induction false} CallsHitLinkedHooks(list: seq<Link>, es: seq<Event>, j: nat)
    requires Sound(list, es) && j < |es|
    ensures es[j].Called? ==> es[j].hook in Effects(list, es[..j])
    decreases es
  {
    if j > 0 {
      CallsHitLinkedHooks(Effect(list, es[0]), es[1..], j - 1);
      assert es[..j][1..] == es[1..][..j - 1];
      assert es[1..][j - 1] == es[j];
    }
  }

  lemma {:induction false} StaysUnlinked(list: seq<Link>, es: seq<Event>, h: Link)
    requires h !in list && forall k :: 0 <= k < |es| ==> es[k] != Appended(h)
    ensures h !in Effects(list, es)
    decreases es
  {
    if es != [] {
      WithoutMembers(list, es[0].hook);
      StaysUnlinked(Effect(list, es[0]), es[1..], h);
    }
  }

  /** A hook is never called after it was unlinked, unless it was registered again. */
  lemma NeverCalledAfterUnlink(list: seq<Link>, es: seq<Event>, i: nat, j: nat)
    requires Sound(list, es) && i < j < |es|
    requires es[i].Unlinked? && es[j].Called? && es[j].hook == es[i].hook
    ensures exists k :: i < k < j && es[k] == Appended(es[i].hook)
  {
    var h := es[i].hook;
    CallsHitLinkedHooks(list, es, j);
    if forall k :: i < k < j ==> es[k] != Appended(h) {
      GoneAfterUnlink(list, es, i);
      EffectsBetween(list, es, i + 1, j);
      var between := es[i + 1..j];
      assert forall k :: 0 <= k < |between| ==> between[k] == es[i + 1 + k];
      StaysUnlinked(Effects(list, es[..i + 1]), between, h);
      assert false;
    }
  }

  lemma GoneAfterUnlink(list: seq<Link>, es: seq<Event>, i: nat)
    requires i < |es| && es[i].Unlinked?
    ensures es[i].hook !in Effects(list, es[..i + 1])
  {
    EffectsBetween(list, es, i, i + 1);
    assert es[i..i + 1] == [es[i]];
    WithoutMembers(Effects(list, es[..i]), es[i].hook);
    assert [es[i]][1..] == [];
  }

  lemma EffectsBetween(list: seq<Link>, es: seq<Event>, i: nat, j: nat)
    requires i <= j <= |es|
    ensures Effects(list, es[..j]) == Effects(Effects(list, es[..i]), es[i..j])
  {
    assert es[..j] == es[..i] + es[i..j];
    EffectsConcat(list, es[..i], es[i..j]);
  }

  lemma {:induction false} CallsConcat(e: seq<Event>, f: seq<Event>, depth: nat)
    ensures Calls(e + f, depth) == Calls(e, depth) + Calls(f, depth)
  {
    if e == [] {
      assert e + f == f;
    } else {
      assert (e + f)[1..] == e[1..] + f;
      CallsConcat(e[1..], f, depth);
      Assoc(if e[0].Called? && e[0].depth == depth then [e[0].hook] else [], Calls(e[1..], depth), Calls(f, depth));
    }
  }

  lemma {:induction false} PickConcat(a: seq<Link>, b: seq<Link>, keep: set<Link>)
    ensures Pick(a + b, keep) == Pick(a, keep) + Pick(b, keep)
  {
    if a == [] {
      assert a + b == b;
    } else {
      assert (a + b)[1..] == a[1..] + b;
      PickConcat(a[1..], b, keep);
      Assoc(if a[0] in keep then [a[0]] else [], Pick(a[1..], keep), Pick(b, keep));
    }
  }

  lemma {:induction false} PickWithout(s: seq<Link>, h: Link, keep: set<Link>)
    requires h !in keep
    ensures Pick(Without(s, h), keep) == Pick(s, keep)
  {
    if s != [] {
      PickWithout(s[1..], h, keep);
      PickConcat(if s[0] == h then [] else [s[0]], Without(s[1..], h), keep);
    }
  }

  lemma {:induction false} PickEffects(s: seq<Link>, es: seq<Event>, keep: set<Link>)
    requires Leaves(es, keep)
    ensures Pick(Effects(s, es), keep) == Pick(s, keep)
    decreases es
  {
    if es != [] {
      var e := es[0];
      if e.Unlinked? {
        PickWithout(s, e.hook, keep);
      } else if e.Appended? {
        PickConcat(s, [e.hook], keep);
        assert Pick(s, keep) + [] == Pick(s, keep);
      }
      PickEffects(Effect(s, e), es[1..], keep);
    }
  }

  /** Nested traversals are told apart by their depth. */
  ghost predicate Deep(es: seq<Event>, depth: nat) {
    forall k :: 0 <= k < |es| && es[k].Called? ==> es[k].depth >= depth
  }

  lemma DeepConcat(e: seq<Event>, f: seq<Event>, depth: nat)
    requires Deep(e, depth) && Deep(f, depth)
    ensures Deep(e + f, depth)
  {}

  lemma {:induction false} RunIsDeep(saved: seq<Link>, list: seq<Link>, s: Script, depth: nat)
    ensures Deep(Run(saved, list, s, depth), depth)
    decreases s, 1
  {
    if !s.Done? {
      var acts := Act(saved, list, s, depth);
      ActIsDeep(saved, list, s, depth);
      RunIsDeep(Drops(saved, acts), Effects(list, acts), s.rest, depth);
      DeepConcat(acts, Run(Drops(saved, acts), Effects(list, acts), s.rest, depth), depth);
    }
  }

  lemma {:induction false} ActIsDeep(saved: seq<Link>, list: seq<Link>, s: Script, depth: nat)
    ensures Deep(Act(saved, list, s, depth), depth)
    decreases s, 0
  {
    match s
    case Done =>
    case Unlink(h, _) =>
    case Append(h, _) =>
    case Emit(inner, _) => WalkIsDeep(saved, [], list, inner, depth);
    case Greet(h, greeting, _) =>
      RunIsDeep(saved + list, [h], greeting, depth);
      DeepConcat([Appended(h)], Run(saved + list, [h], greeting, depth), depth);
  }

  lemma {:induction false} WalkIsDeep(saved: seq<Link>, done: seq<Link>, todo: seq<Link>, replies: Replies,
                                      depth: nat)
    ensures Deep(Walk(saved, done, todo, replies, depth), depth)
    decreases replies, |todo|
  {
    if todo != [] {
      var h := todo[0];
      var call := [Called(depth, h)];
      if replies.NoMore? {
        WalkIsDeep(saved, done + [h], todo[1..], NoMore, depth);
        DeepConcat(call, Walk(saved, done + [h], todo[1..], NoMore, depth), depth);
      } else {
        var acts := Run(saved, done + todo, replies.script, depth + 1);
        RunIsDeep(saved, done + todo, replies.script, depth + 1);
        var rest := Walk(Drops(saved, acts), Drops(done + [h], acts), Effects(todo[1..], acts), replies.rest, depth);
        WalkIsDeep(Drops(saved, acts), Drops(done + [h], acts), Effects(todo[1..], acts), replies.rest, depth);
        DeepConcat(call, acts, depth);
        DeepConcat(call + acts, rest, depth);
      }
    }
  }

  lemma {:induction false} NoCallsAt(es: seq<Event>, depth: nat)
    requires Deep(es, depth + 1)
    ensures Calls(es, depth) == []
  {
    if es != [] {
      assert forall k :: 0 <= k < |es[1..]| ==> es[1..][k] == es[k + 1];
      NoCallsAt(es[1..], depth);
    }
  }

  /** What one call and its callback add to a traversal's calls. */
  lemma CallsOfOne(saved: seq<Link>, done: seq<Link>, todo: seq<Link>, script: Script, rest: seq<Event>, depth: nat)
    requires todo != []
    ensures var acts := Run(saved, done + todo, script, depth + 1);
            Calls([Called(depth, todo[0])] + acts + rest, depth) == [todo[0]] + Calls(rest, depth)
  {
    var acts := Run(saved, done + todo, script, depth + 1);
    var call := [Called(depth, todo[0])];
    RunIsDeep(saved, done + todo, script, depth + 1);
    NoCallsAt(acts, depth);
    CallsConcat(call + acts, rest, depth);
    CallsConcat(call, acts, depth);
    assert Calls(call, depth) == [todo[0]];
  }

  lemma LeavesParts(call: Event, acts: seq<Event>, rest: seq<Event>, keep: set<Link>)
    requires Leaves([call] + acts + rest, keep)
    ensures Leaves(acts, keep) && Leaves(rest, keep)
  {
    var es := [call] + acts + rest;
    assert forall k :: 0 <= k < |acts| ==> acts[k] == es[k + 1];
    assert forall k :: 0 <= k < |rest| ==> rest[k] == es[k + 1 + |acts|];
  }

  /** Hooks that stay registered from start to end are called exactly once each, in list
      order, whatever the callbacks do to the others. */
  lemma {:induction false} SurvivorsCalledOnceInOrder(saved: seq<Link>, done: seq<Link>, todo: seq<Link>,
                                                      replies: Replies, depth: nat, keep: set<Link>)
    requires Leaves(Walk(saved, done, todo, replies, depth), keep)
    ensures Pick(Calls(Walk(saved, done, todo, replies, depth), depth), keep) == Pick(todo, keep)
    decreases replies, |todo|
  {
    if todo != [] {
      var h := todo[0];
      var call := Called(depth, h);
      if replies.NoMore? {
        var rest := Walk(saved, done + [h], todo[1..], NoMore, depth);
        assert [call] + [] + rest == [call] + rest;
        LeavesParts(call, [], rest, keep);
        SurvivorsCalledOnceInOrder(saved, done + [h], todo[1..], NoMore, depth, keep);
        CallsConcat([call], rest, depth);
        PickConcat([h], Calls(rest, depth), keep);
      } else {
        var acts := Run(saved, done + todo, replies.script, depth + 1);
        var saved', done', todo' := Drops(saved, acts), Drops(done + [h], acts), Effects(todo[1..], acts);
        var rest := Walk(saved', done', todo', replies.rest, depth);
        LeavesParts(call, acts, rest, keep);
        SurvivorsCalledOnceInOrder(saved', done', todo', replies.rest, depth, keep);
        PickEffects(todo[1..], acts, keep);
        CallsOfOne(saved, done, todo, replies.script, rest, depth);
        PickConcat([h], Calls(rest, depth), keep);
      }
    }
  }

  lemma {:induction false} DropsShrink(s: seq<Link>, es: seq<Event>)
    ensures forall x :: x in Drops(s, es) ==> x in s
    decreases es
  {
    if es != [] {
      WithoutMembers(s, es[0].hook);
      DropsShrink(if es[0].Unlinked? then Without(s, es[0].hook) else s, es[1..]);
    }
  }

  /** When a traversal returns, every hook still in the list has been called by it, also those
      appended or greeted while it ran. */
  lemma {:induction false} NobodyIsMissed(saved: seq<Link>, done: seq<Link>, todo: seq<Link>, replies: Replies,
                                          depth: nat, h: Link)
    requires Whole(saved + done + todo)
    requires h in Effects(saved + done + todo, Walk(saved, done, todo, replies, depth))
    requires h !in saved && h !in done
    ensures h in Calls(Walk(saved, done, todo, replies, depth), depth)
    decreases replies, |todo|
  {
    if todo != [] {
      var list, first := saved + done + todo, todo[0];
      var call := Called(depth, first);
      PassOne(saved, done, todo);
      if replies.NoMore? {
        var rest := Walk(saved, done + [first], todo[1..], NoMore, depth);
        CallsConcat([call], rest, depth);
        EffectsConcat(list, [call], rest);
        if h != first {
          NobodyIsMissed(saved, done + [first], todo[1..], NoMore, depth, h);
        }
      } else {
        var acts := Run(saved, done + todo, replies.script, depth + 1);
        ReplyStep(saved, done, todo, replies.script, depth + 1);
        var saved', done', todo' := Drops(saved, acts), Drops(done + [first], acts), Effects(todo[1..], acts);
        var rest := Walk(saved', done', todo', replies.rest, depth);
        DropsShrink(saved, acts);
        DropsShrink(done + [first], acts);
        CallsOfOne(saved, done, todo, replies.script, rest, depth);
        CallKeepsList(list, call, acts, rest);
        if h != first {
          NobodyIsMissed(saved', done', todo', replies.rest, depth, h);
        }
      }
    }
  }

  lemma CallKeepsList(list: seq<Link>, call: Event, acts: seq<Event>, rest: seq<Event>)
    requires call.Called?
    ensures Effects(list, [call] + acts + rest) == Effects(Effects(list, acts), rest)
  {
    EffectsConcat(list, [call] + acts, rest);
    EffectsConcat(list, [call], acts);
    assert Effects(list, [call]) == list;
  }

  // ---------------------------------------------------------------- callbacks are obeyed

  /** `es` does what the first action of `s` asks of the hooks `saved` and `list`. */
  ghost predicate TookEffect(saved: seq<Link>, list: seq<Link>, es: seq<Event>, s: Script, depth: nat)
    decreases s, 0
  {
    var was, now := saved + list, Effects(saved + list, es);
    match s
    case Done => es == []
    case Unlink(h, _) =>
      h !in now && CallsNobody(es) && (forall x :: x in now ==> x in was) && forall x :: x in was && x != h ==> x in now
    case Append(h, _) => CallsNobody(es) && now == if h.isHook && h !in was then was + [h] else was
    case Emit(_, _) => ReachesAll(saved, list, es, depth)
    case Greet(h, greeting, _) =>
      if h.isHook && h !in was then es != [] && es[0] == Appended(h) && Obeyed(was, [h], es[1..], greeting, depth)
      else es == []
  }

  /** `es` is what the actions of `s` ask, one after the other and all of them. */
  ghost predicate Obeyed(saved: seq<Link>, list: seq<Link>, es: seq<Event>, s: Script, depth: nat)
    decreases s, 1
  {
    if s.Done? then es == []
    else exists n :: 0 <= n <= |es| && TookEffect(saved, list, es[..n], s, depth)
                  && Obeyed(Drops(saved, es[..n]), Effects(list, es[..n]), es[n..], s.rest, depth)
  }

  ghost predicate CallsNobody(es: seq<Event>) { forall k :: 0 <= k < |es| ==> !es[k].Called? }

  /** Whoever is registered throughout is called once, and so is whoever is there at the end. */
  ghost predicate ReachesAll(saved: seq<Link>, list: seq<Link>, es: seq<Event>, depth: nat) {
    && (forall h :: h in list && Leaves(es, {h}) ==> Pick(Calls(es, depth), {h}) == [h])
    && (forall h :: h in Effects(saved + list, es) && h !in saved ==> h in Calls(es, depth))
  }

  lemma {:induction false} PickOne(s: seq<Link>, h: Link)
    requires Distinct(s)
    ensures Pick(s, {h}) == if h in s then [h] else []
  {
    if s != [] {
      var t := s[1..];
      assert forall i :: 0 <= i < |t| ==> t[i] == s[i + 1];
      PickOne(t, h);
    }
  }

  lemma EmitReachesAll(saved: seq<Link>, list: seq<Link>, replies: Replies, depth: nat)
    requires Whole(saved + list)
    ensures ReachesAll(saved, list, Walk(saved, [], list, replies, depth), depth)
  {
    var es := Walk(saved, [], list, replies, depth);
    assert saved + [] + list == saved + list;
    forall h | h in list && Leaves(es, {h}) ensures Pick(Calls(es, depth), {h}) == [h] {
      SurvivorsCalledOnceInOrder(saved, [], list, replies, depth, {h});
      assert forall i :: 0 <= i < |list| ==> list[i] == (saved + list)[|saved| + i];
      PickOne(list, h);
    }
    forall h | h in Effects(saved + list, es) && h !in saved ensures h in Calls(es, depth) {
      NobodyIsMissed(saved, [], list, replies, depth, h);
    }
  }

  lemma {:induction false} ActTakesEffect(saved: seq<Link>, list: seq<Link>, s: Script, depth: nat)
    requires Whole(saved + list)
    ensures TookEffect(saved, list, Act(saved, list, s, depth), s, depth)
    decreases s, 0
  {
    match s
    case Done =>
    case Unlink(h, _) =>
      WithoutMembers(saved + list, h);
      assert [Unlinked(h)][1..] == [];
    case Append(h, _) =>
      assert [Appended(h)][1..] == [];
    case Emit(inner, _) =>
      EmitReachesAll(saved, list, inner, depth);
    case Greet(h, greeting, _) =>
      if Fresh(h, saved, list) {
        EffectKeeps(saved + list, Appended(h));
        RunIsObeyed(saved + list, [h], greeting, depth);
        HeadTail([Appended(h)] + Run(saved + list, [h], greeting, depth));
      }
  }

  /** A callback that runs to its end does everything its script says, in order. */
  lemma {:induction false} RunIsObeyed(saved: seq<Link>, list: seq<Link>, s: Script, depth: nat)
    requires Whole(saved + list)
    ensures Obeyed(saved, list, Run(saved, list, s, depth), s, depth)
    decreases s, 1
  {
    if !s.Done? {
      var acts := Act(saved, list, s, depth);
      ActTakesEffect(saved, list, s, depth);
      ActSound(saved, list, s, depth);
      Parts(saved, list, acts);
      RunIsObeyed(Drops(saved, acts), Effects(list, acts), s.rest, depth);
      var es := Run(saved, list, s, depth);
      assert es[..|acts|] == acts;
      assert es[|acts|..] == Run(Drops(saved, acts), Effects(list, acts), s.rest, depth);
    }
  }

  /** The first listener in front of the cursor is called and its callback is obeyed before the next is
      reached, with the answers after this one. */
  lemma CallIsAnswered(saved: seq<Link>, done: seq<Link>, todo: seq<Link>, script: Script, rest: Replies, depth: nat)
    requires todo != [] && Whole(saved + done + todo)
    ensures var es := Walk(saved, done, todo, Reply(script, rest), depth);
            es != [] && es[0] == Called(depth, todo[0]) &&
            exists n :: 1 <= n <= |es| && Obeyed(saved, done + todo, es[1..n], script, depth + 1)
                     && es[n..] == Walk(Drops(saved, es[1..n]), Drops(done + [todo[0]], es[1..n]),
                                        Effects(todo[1..], es[1..n]), rest, depth)
  {
    var es := Walk(saved, done, todo, Reply(script, rest), depth);
    var acts := Run(saved, done + todo, script, depth + 1);
    Assoc(saved, done, todo);
    RunIsObeyed(saved, done + todo, script, depth + 1);
    var n := 1 + |acts|;
    assert es[1..n] == acts;
  }
}
