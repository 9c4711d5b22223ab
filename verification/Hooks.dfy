/** Intrusive listener lists: the linked form of spa_list, its splicing, and the woven-cursor
    traversal, proved to do what `HookTrace` says. */
module Hooks {
  import opened HookTrace

  /** A circular doubly linked list. `ring` lists its links from the head on; cursors of
      running traversals are woven into it. */
  class ListenerList {
    const head: Link
    ghost var ring: seq<Link>

    ghost predicate Valid()
      reads this, ring
    {
      && |ring| > 0 && ring[0] == head && !head.isHook
      && Distinct(ring)
      && Chained(ring)
    }

    constructor ()
      ensures Valid() && ring == [head] && fresh(head)
    {
      head := new Link(false);
      new;
      ring := [head];
    }

    /** The registered hooks in order, without head and cursors. */
    ghost function Contents(): seq<Link>
      reads this
    {
      HooksOf(ring)
    }

    // ---------------------------------------------------------------- links

    /** spa_list_insert: `link` enters right after `pos`. */
    method InsertAfter(pos: Link, link: Link, ghost i: nat)
      requires Valid() && i < |ring| && ring[i] == pos && link !in ring
      modifies this`ring, ring, link
      ensures Valid() && ring == old(ring)[..i + 1] + [link] + old(ring)[i + 1..]
    {
      ghost var was := ring;
      var after := pos.next;
      assert was[i].next == was[Succ(i, |was|)];
      link.prev := pos;
      link.next := after;
      after.prev := link;
      pos.next := link;
      ring := was[..i + 1] + [link] + was[i + 1..];
      forall k | 0 <= k < |was| && k != i ensures Joined(was[k], was[Succ(k, |was|)]) {
        assert was[Succ(k, |was|)] != was[Succ(i, |was|)];
      }
      ChainInserted(was, i, link);
      InsertDistinct(was, i + 1, link);
    }

    /** spa_list_remove. */
    method Remove(link: Link, ghost i: nat)
      requires Valid() && 0 < i < |ring| && ring[i] == link
      modifies this`ring, ring
      ensures Valid() && ring == old(ring)[..i] + old(ring)[i + 1..]
    {
      ghost var was := ring;
      assert Joined(was[i - 1], was[Succ(i - 1, |was|)]) && Joined(was[i], was[Succ(i, |was|)]);
      link.prev.next := link.next;
      link.next.prev := link.prev;
      ring := was[..i] + was[i + 1..];
      forall k | 0 <= k < |was| && k != i && k != i - 1 ensures Joined(was[k], was[Succ(k, |was|)]) {
        assert was[Succ(k, |was|)] != was[Succ(i, |was|)];
      }
      ChainRemoved(was, i);
      RemoveDistinct(was, i);
    }

    /** spa_list_insert_list: the links of `other` enter right after `pos`; `other` is emptied. */
    method Splice(pos: Link, other: ListenerList, ghost i: nat)
      requires Valid() && other.Valid() && other != this
      requires i < |ring| && ring[i] == pos && Apart(ring, other.ring)
      modifies this`ring, ring, other`ring, other.ring
      ensures Valid() && other.Valid() && other.ring == [other.head]
      ensures ring == old(ring)[..i + 1] + old(other.ring)[1..] + old(ring)[i + 1..]
    {
      ghost var a, b := ring, other.ring;
      if other.head.next == other.head {
        EmptyRing(b);
        assert a == a[..i + 1] + b[1..] + a[i + 1..];
        return;
      }
      SomeRing(b);
      InsertList(pos, other.head, a, b, i);
      other.ring := [other.head];
      ring := Spliced(a, b, i);
      SplicedDistinct(a, b, i);
    }

    /** The pointer writes of spa_list_insert_list and the reset of the emptied list. */
    static method InsertList(pos: Link, from: Link, ghost a: seq<Link>, ghost b: seq<Link>, ghost i: nat)
      requires Chained(a) && Chained(b) && Distinct(a) && Distinct(b) && Apart(a, b)
      requires i < |a| && a[i] == pos && |b| > 1 && b[0] == from && from.next == b[1] && from.prev == b[|b| - 1]
      modifies a, b
      ensures Chained(Spliced(a, b, i)) && Chained([from])
    {
      var first, last, after := from.next, from.prev, pos.next;
      assert Joined(a[i], a[Succ(i, |a|)]);
      assert first in b && last in b && pos in a && after in a;
      first.prev := pos;
      last.next := after;
      after.prev := last;
      pos.next := first;
      from.next, from.prev := from, from;
      forall k | 0 <= k < |a| && k != i ensures Joined(a[k], a[Succ(k, |a|)]) {
        assert a[k] in a && a[Succ(k, |a|)] in a && a[Succ(k, |a|)] != a[Succ(i, |a|)];
      }
      forall k | 1 <= k < |b| - 1 ensures Joined(b[k], b[k + 1]) {
        assert old(Joined(b[k], b[Succ(k, |b|)])) && b[k] in b && b[k + 1] in b;
      }
      ChainSpliced(a, b, i);
    }

    /** append_from: every hook of `other` moves to the tail, in registration order. */
    method AppendFrom(other: ListenerList)
      requires Valid() && other.Valid() && other != this && Apart(ring, other.ring)
      modifies this`ring, ring, other`ring, other.ring
      ensures Valid() && other.Valid() && other.ring == [other.head]
      ensures ring == old(ring) + old(other.ring)[1..]
      ensures Contents() == old(Contents()) + old(other.Contents()) && other.Contents() == []
    {
      ghost var a, b, last := ring, other.ring, |ring| - 1;
      assert Joined(a[last], a[Succ(last, |a|)]);
      Splice(head.prev, other, last);
      assert a[..last + 1] + b[1..] + a[last + 1..] == a + b[1..];
      HooksConcat(a, b[1..]);
      HeadOnly(other.head);
      HeadFirst(b);
    }

    /** spa_hook_list_isolate: everything linked moves to `save`, `listener` is alone. */
    method Isolate(listener: Link, save: ListenerList)
      requires Valid() && save.Valid() && save != this && save.ring == [save.head]
      requires Apart(ring, save.ring) && listener.isHook && listener !in ring && listener !in save.ring
      modifies this`ring, ring, save`ring, save.ring, listener
      ensures Valid() && save.Valid() && ring == [head, listener]
      ensures save.ring == [save.head] + old(ring)[1..]
    {
      MoveTo(save);
      assert head in ring && head !in save.ring;
      assert forall x :: x in save.ring ==> x == save.head || x in old(ring);
      InsertAfter(head, listener, 0);
      assert ring == [head, listener];
    }

    method MoveTo(save: ListenerList)
      requires Valid() && save.Valid() && save != this && save.ring == [save.head] && Apart(ring, save.ring)
      modifies this`ring, ring, save`ring, save.ring
      ensures Valid() && save.Valid() && ring == [head] && save.ring == [save.head] + old(ring)[1..]
      ensures Apart(ring, save.ring)
    {
      ghost var a, b := ring, save.ring;
      ApartSym(a, b);
      save.Splice(save.head, this, 0);
      assert b[..1] + a[1..] + b[1..] == [save.head] + a[1..];
      assert head in a && save.head in b;
    }

    /** spa_hook_list_join: the saved links come back in front. */
    method Join(save: ListenerList)
      requires Valid() && save.Valid() && save != this && Apart(ring, save.ring)
      modifies this`ring, ring, save`ring, save.ring
      ensures Valid() && save.Valid() && save.ring == [save.head]
      ensures ring == [head] + old(save.ring)[1..] + old(ring)[1..]
    {
      ghost var a, b := ring, save.ring;
      Splice(head, save, 0);
      assert a[..1] == [head];
    }

    // ---------------------------------------------------------------- the cursor

    /** Weaves a traversal's cursor in at the front. */
    method Weave() returns (cur: Link)
      requires Valid()
      modifies this`ring, ring
      ensures Valid() && fresh(cur) && !cur.isHook
      ensures ring == old(ring)[..1] + [cur] + old(ring)[1..]
      ensures cur.next == head <==> old(ring)[1..] == []
    {
      cur := new Link(false);
      InsertAfter(head, cur, 0);
      assert Joined(ring[1], ring[Succ(1, |ring|)]);
    }

    /** A traversal's cursor hops over the link behind it. */
    method Hop(cur: Link, ghost before: seq<Link>, ghost after: seq<Link>) returns (item: Link)
      requires Valid() && ring == before + [cur] + after && before != [] && after != []
      modifies this`ring, ring
      ensures Valid() && item == after[0] && ring == (before + [item]) + [cur] + after[1..]
    {
      ghost var was, c := ring, |before|;
      item := cur.next;
      assert Joined(was[c], was[Succ(c, |was|)]);
      AtCursor(before, cur, after);
      Remove(cur, c);
      RemoveDistinct(was, c);
      assert ring == before + after && ring[c] == item;
      HopParts(before, after);
      InsertAfter(item, cur, c);
    }

    method Unweave(cur: Link, ghost before: seq<Link>)
      requires Valid() && ring == before + [cur] && before != []
      modifies this`ring, ring
      ensures Valid() && ring == before && cur !in before
    {
      AtCursor(before, cur, []);
      RemoveDistinct(ring, |before|);
      assert before + [cur] + [] == before + [cur] && before + [] == before;
      Remove(cur, |before|);
    }

    lemma CursorNext(cur: Link, before: seq<Link>, after: seq<Link>)
      requires Valid() && ring == before + [cur] + after && before != []
      ensures cur.next == head <==> after == []
    {
      assert Joined(ring[|before|], ring[Succ(|before|, |ring|)]);
    }

    /** Walks the links; how a client finds out whether its hook is still registered. */
    method Contains(link: Link) returns (found: bool)
      requires Valid() && link != head
      ensures found <==> link in ring
    {
      var at := head.next;
      ghost var i := Succ(0, |ring|);
      assert Joined(ring[0], ring[i]);
      while at != head && at != link
        invariant i < |ring| && at == ring[i]
        invariant link !in (if i == 0 then ring else ring[..i])
        decreases if i == 0 then 0 else |ring| - i
      {
        assert Joined(ring[i], ring[Succ(i, |ring|)]);
        at := at.next;
        assert ring[..i + 1] == ring[..i] + [ring[i]];
        i := Succ(i, |ring|);
        assert i == 0 ==> ring[..|ring|] == ring;
      }
      found := at == link;
    }

    // ---------------------------------------------------------------- set-aside lists

    /** This list, and the lists its hooks are set aside in by the greetings now running: no
        common link, and all links inside `world`. */
    ghost predicate Within(saves: seq<ListenerList>, rings: seq<seq<Link>>, world: set<Link>)
      reads this, ring, saves, Links(rings)
    {
      && Valid() && Family(saves, rings) && this !in saves && Links(rings) <= world
      && (forall x :: x in ring ==> x in world && x !in Links(rings))
    }

    lemma HooksApart(rings: seq<seq<Link>>)
      requires Separate(rings) && Distinct(ring) && forall x :: x in ring ==> x !in Links(rings)
      ensures Whole(HooksOfAll(rings) + Contents())
      ensures forall h :: h in HooksOfAll(rings) <==> h.isHook && h in Links(rings)
      ensures forall h :: h in Contents() <==> h.isHook && h in ring
    {
      LinksAreInside(rings);
      HooksOfSeparate(rings);
      HooksMembers(ring);
      DistinctConcat(HooksOfAll(rings), Contents());
    }

    method Take(h: Link)
      requires Valid() && h in ring && h.isHook
      modifies this`ring, ring
      ensures Valid() && ring == Without(old(ring), h)
    {
      ghost var i :| 0 <= i < |ring| && ring[i] == h;
      WithoutAt(ring, i);
      Remove(h, i);
    }

    /** A client removes its hook, from whichever list it is in. */
    method Unregister(h: Link, saves: seq<ListenerList>, ghost rings: seq<seq<Link>>, ghost world: set<Link>)
      returns (ghost acts: seq<Event>)
      requires Within(saves, rings, world)
      modifies this`ring, saves, world
      ensures Within(saves, DropsAll(rings, acts), world)
      ensures acts == if h in HooksOfAll(rings) || h in old(Contents()) then [Unlinked(h)] else []
      ensures ring == Effects(old(ring), acts)
    {
      acts := [];
      HooksApart(rings);
      DropsAllNothing(rings);
      if h.isHook {
        var found := Contains(h);
        if found {
          DropsNowhere(rings, h);
          TakeHere(h, saves, rings, world);
          acts := [Unlinked(h)];
        } else {
          WithoutAbsent(ring, h);
          found := TakeSaved(h, saves, rings, world);
          acts := if found then [Unlinked(h)] else [];
        }
      }
    }

    method TakeHere(h: Link, ghost saves: seq<ListenerList>, ghost rings: seq<seq<Link>>, ghost world: set<Link>)
      requires Within(saves, rings, world) && h in ring && h.isHook
      modifies this`ring, ring
      ensures Within(saves, rings, world) && ring == Without(old(ring), h)
    {
      WithoutMembers(ring, h);
      Take(h);
    }

    method TakeSaved(h: Link, saves: seq<ListenerList>, ghost rings: seq<seq<Link>>, ghost world: set<Link>)
      returns (found: bool)
      requires Within(saves, rings, world) && h.isHook
      modifies saves, Links(rings)
      ensures found <==> h in Links(rings)
      ensures Within(saves, DropsAll(rings, if found then [Unlinked(h)] else []), world)
      ensures ring == old(ring)
    {
      found := TakeFromOne(h, saves, rings);
      LinksShrink(rings, if found then [Unlinked(h)] else []);
    }

    /** spa_hook_list_append of a hook that is linked nowhere. */
    method Register(h: Link, saves: seq<ListenerList>, ghost rings: seq<seq<Link>>, ghost world: set<Link>)
      returns (ghost acts: seq<Event>)
      requires Within(saves, rings, world) && h in world
      modifies this`ring, ring, h
      ensures Within(saves, DropsAll(rings, acts), world)
      ensures acts == if Fresh(h, HooksOfAll(rings), old(Contents())) then [Appended(h)] else []
      ensures ring == Effects(old(ring), acts)
    {
      acts := [];
      DropsAllNothing(rings);
      var linked := Linked(h, saves, rings);
      if h.isHook && !linked {
        AppendHere(h, saves, rings, world);
        acts := [Appended(h)];
        DropsAllKept(rings, Appended(h));
      }
    }

    method AppendHere(h: Link, ghost saves: seq<ListenerList>, ghost rings: seq<seq<Link>>, ghost world: set<Link>)
      requires Within(saves, rings, world) && h !in ring && h in world && h !in Links(rings)
      modifies this`ring, ring, h
      ensures Within(saves, rings, world) && ring == old(ring) + [h]
    {
      ghost var last := |ring| - 1;
      assert Joined(ring[last], ring[Succ(last, |ring|)]);
      InsertAfter(head.prev, h, last);
    }

    /** Whether a hook is in this list or set aside. */
    method Linked(h: Link, saves: seq<ListenerList>, ghost rings: seq<seq<Link>>) returns (linked: bool)
      requires Valid() && Family(saves, rings) && forall x :: x in ring ==> x !in Links(rings)
      ensures linked <==> h in HooksOfAll(rings) || h in Contents()
      ensures linked <==> h.isHook && (h in ring || h in Links(rings))
    {
      HooksApart(rings);
      linked := h.isHook;
      if linked {
        linked := Contains(h);
        if !linked {
          var at := Owner(h, saves, rings);
          linked := at < |saves|;
        }
      }
    }

    /** Sets every link aside behind the lists set aside already; `h` is alone. */
    method SetAside(h: Link, ghost saves: seq<ListenerList>, ghost rings: seq<seq<Link>>, ghost world: set<Link>)
      returns (save: ListenerList)
      requires Within(saves, rings, world) && h.isHook && h !in ring && h in world && h !in Links(rings)
      modifies this`ring, ring, h
      ensures fresh(save) && fresh(save.head) && save.head !in world && !save.head.isHook
      ensures ring == [head, h]
      ensures Within(saves + [save], rings + [[save.head] + old(ring)[1..]], world + {save.head})
    {
      save := new ListenerList();
      Isolate(h, save);
      WithinPush(save, saves, rings, world);
    }

    lemma WithinPush(save: ListenerList, saves: seq<ListenerList>, rings: seq<seq<Link>>, world: set<Link>)
      requires Family(saves, rings) && Links(rings) <= world && this !in saves && save !in saves && save != this
      requires Valid() && save.Valid() && Apart(ring, save.ring)
      requires forall x :: x in ring ==> x in world && x !in Links(rings)
      requires forall x :: x in save.ring ==> (x in world || x == save.head) && x !in Links(rings)
      ensures Within(saves + [save], rings + [save.ring], world + {save.head})
    {
      FamilyPush(saves, rings, save);
    }

    /** Brings the links last set aside back in front. */
    method JoinBack(save: ListenerList, ghost saves: seq<ListenerList>, ghost rings: seq<seq<Link>>,
                    ghost kept: seq<Link>, ghost world: set<Link>)
      requires Within(saves + [save], rings + [kept], world + {save.head}) && save.head !in world && kept != []
      modifies this`ring, save`ring, world, save.head
      ensures Within(saves, rings, world)
      ensures ring == [head] + kept[1..] + old(ring)[1..]
    {
      WithinPop(save, saves, rings, kept, world);
      JoinWithin(save, saves, rings, world);
    }

    lemma WithinPop(save: ListenerList, saves: seq<ListenerList>, rings: seq<seq<Link>>, kept: seq<Link>,
                    world: set<Link>)
      requires Within(saves + [save], rings + [kept], world + {save.head}) && save.head !in world
      ensures Within(saves, rings, world)
      ensures save.Valid() && save.ring == kept && save !in saves && save != this && Apart(ring, kept)
      ensures forall x :: x in kept ==> (x in world || x == save.head) && x !in Links(rings)
    {
      FamilyPop(saves, rings, save, kept);
      assert save in saves + [save];
      assert save.head in kept;
    }

    method JoinWithin(save: ListenerList, ghost saves: seq<ListenerList>, ghost rings: seq<seq<Link>>,
                      ghost world: set<Link>)
      requires Within(saves, rings, world) && save.Valid() && save !in saves && save != this
      requires Apart(ring, save.ring)
      requires forall x :: x in save.ring ==> (x in world || x == save.head) && x !in Links(rings)
      modifies this`ring, ring, save`ring, save.ring
      ensures Within(saves, rings, world)
      ensures ring == [head] + old(save.ring)[1..] + old(ring)[1..]
    {
      ghost var a, b := ring, save.ring;
      Join(save);
      forall x | x in ring ensures x in world && x !in Links(rings) {
        assert x == head || x in a[1..] || x in b[1..];
        assert head in a;
      }
    }

    // ---------------------------------------------------------------- the traversal

    /** Calls every hook once with a cursor woven into the list: the cursor hops past each link
        before its callback runs, so the callback may remove any link. `replies` is what the
        callbacks do. */
    method ForEachHook(replies: Replies, saves: seq<ListenerList>, ghost rings: seq<seq<Link>>, ghost depth: nat,
                       ghost world: set<Link>)
      returns (ghost log: seq<Event>)
      requires Within(saves, rings, world) && RepliesLinks(replies) <= world
      modifies this`ring, saves, world
      ensures Within(saves, DropsAll(rings, log), world)
      ensures log == Walk(HooksOfAll(rings), [], old(Contents()), replies, depth)
      ensures ring == Effects(old(ring), log)
      decreases replies, 2
    {
      ghost var job := Job(rings, ring, replies, depth);
      var cur := WeaveWithin(saves, rings, world);
      ghost var w := world + {cur};
      ghost var rs, before, after := rings, job.start[..1], job.start[1..];
      var left := replies;
      log := [];
      OwesStart(job);
      while cur.next != head
        invariant Within(saves, rs, w) && ring == before + [cur] + after && before != []
        invariant Owes(job, rs, before, after, left, log)
        invariant cur.next == head <==> after == []
        invariant left == replies || left < replies
        invariant RepliesLinks(left) <= world
        decreases left, |after|
      {
        left, rs, before, after, log := Advance(cur, left, saves, rs, w, before, after, job, log);
      }
      OwesNothing(job, rs, before, left, log);
      LinksShrink(rings, log);
      assert before + [cur] + [] == before + [cur];
      RemoveCursor(cur, before, saves, rs, world);
    }

    method WeaveWithin(ghost saves: seq<ListenerList>, ghost rings: seq<seq<Link>>, ghost world: set<Link>)
      returns (cur: Link)
      requires Within(saves, rings, world)
      modifies this`ring, ring
      ensures fresh(cur) && !cur.isHook && Within(saves, rings, world + {cur})
      ensures ring == old(ring)[..1] + [cur] + old(ring)[1..]
      ensures cur.next == head <==> old(ring)[1..] == []
    {
      cur := Weave();
    }

    method RemoveCursor(cur: Link, ghost before: seq<Link>, ghost saves: seq<ListenerList>,
                        ghost rings: seq<seq<Link>>, ghost world: set<Link>)
      requires Within(saves, rings, world + {cur}) && Links(rings) <= world && ring == before + [cur] && before != []
      modifies this`ring, ring
      ensures Within(saves, rings, world) && ring == before
    {
      Unweave(cur, before);
    }

    /** One turn of the traversal loop. A null-funcs link is another traversal's cursor and
        is skipped. */
    method Advance(cur: Link, left: Replies, saves: seq<ListenerList>, ghost rings: seq<seq<Link>>,
                   ghost world: set<Link>, ghost before: seq<Link>, ghost after: seq<Link>, ghost job: Job,
                   ghost log: seq<Event>)
      returns (left': Replies, ghost rings': seq<seq<Link>>, ghost before': seq<Link>, ghost after': seq<Link>,
               ghost log': seq<Event>)
      requires Within(saves, rings, world) && RepliesLinks(left) <= world
      requires ring == before + [cur] + after && before != [] && after != [] && !cur.isHook
      requires Owes(job, rings, before, after, left, log)
      modifies this`ring, saves, world
      ensures Within(saves, rings', world)
      ensures ring == before' + [cur] + after' && before' != []
      ensures cur.next == head <==> after' == []
      ensures Owes(job, rings', before', after', left', log')
      ensures RepliesLinks(left') <= RepliesLinks(left)
      ensures left' < left || (left' == left && |after'| < |after|)
      decreases left, 1
    {
      var item := HopWithin(cur, before, after, saves, rings, world);
      ghost var rest := after[1..];
      HeadTail(after);
      left' := left;
      if !item.isHook {
        OwesSkip(job, rings, before, item, rest, left, log);
        rings', before', after', log' := rings, before + [item], rest, log;
      } else {
        left', rings', before', after', log' := Call(item, cur, left, saves, rings, world, before, rest, job, log);
      }
      CursorNext(cur, before', after');
    }

    method HopWithin(cur: Link, ghost before: seq<Link>, ghost after: seq<Link>, ghost saves: seq<ListenerList>,
                     ghost rings: seq<seq<Link>>, ghost world: set<Link>)
      returns (item: Link)
      requires Within(saves, rings, world) && ring == before + [cur] + after && before != [] && after != []
      modifies this`ring, ring
      ensures Within(saves, rings, world) && item == after[0] && ring == (before + [item]) + [cur] + after[1..]
    {
      SameLinks(before, cur, after);
      item := Hop(cur, before, after);
    }

    /** The callback of `item`, which the cursor has just passed. */
    method Call(item: Link, cur: Link, left: Replies, saves: seq<ListenerList>, ghost rings: seq<seq<Link>>,
                ghost world: set<Link>, ghost before: seq<Link>, ghost rest: seq<Link>, ghost job: Job,
                ghost log: seq<Event>)
      returns (left': Replies, ghost rings': seq<seq<Link>>, ghost before': seq<Link>, ghost after': seq<Link>,
               ghost log': seq<Event>)
      requires Within(saves, rings, world) && RepliesLinks(left) <= world
      requires ring == (before + [item]) + [cur] + rest && before != [] && item.isHook && !cur.isHook
      requires Owes(job, rings, before, [item] + rest, left, log)
      modifies this`ring, saves, world
      ensures Within(saves, rings', world)
      ensures ring == before' + [cur] + after' && before' != []
      ensures Owes(job, rings', before', after', left', log')
      ensures if left.Reply? then left' == left.rest else left' == left && after' == rest
      decreases left, 0
    {
      ghost var script := if left.Reply? then left.script else Done;
      ghost var acts := [];
      left' := left;
      assert before[0] == head;
      CallbackOnHooks(rings, script, job.depth + 1);
      if left.Reply? {
        acts := RunCallback(left.script, saves, rings, job.depth + 1, world);
        left' := left.rest;
      }
      CallbackLinks(before, item, cur, rest, acts);
      CallbackDone(job, rings, before, item, cur, rest, left, script, left', acts, log);
      rings', before', after' := DropsAll(rings, acts), Drops(before + [item], acts), Effects(rest, acts);
      log' := log + [Called(job.depth, item)] + acts;
    }

    /** A callback's events concern hooks only. */
    lemma CallbackOnHooks(rings: seq<seq<Link>>, script: Script, depth: nat)
      requires Separate(rings) && Distinct(ring) && forall x :: x in ring ==> x !in Links(rings)
      ensures OnHooks(Run(HooksOfAll(rings), Contents(), script, depth))
      ensures OnHooks(Act(HooksOfAll(rings), Contents(), script, depth))
    {
      HooksApart(rings);
      RunSound(HooksOfAll(rings), Contents(), script, depth);
      SoundOnHooks(HooksOfAll(rings) + Contents(), Run(HooksOfAll(rings), Contents(), script, depth));
      ActSound(HooksOfAll(rings), Contents(), script, depth);
      SoundOnHooks(HooksOfAll(rings) + Contents(), Act(HooksOfAll(rings), Contents(), script, depth));
    }

    /** What a listener callback may do to the list it is called from. */
    method RunCallback(script: Script, saves: seq<ListenerList>, ghost rings: seq<seq<Link>>, ghost depth: nat,
                       ghost world: set<Link>)
      returns (ghost log: seq<Event>)
      requires Within(saves, rings, world) && ScriptLinks(script) <= world
      modifies this`ring, saves, world
      ensures Within(saves, DropsAll(rings, log), world)
      ensures log == Run(HooksOfAll(rings), old(Contents()), script, depth)
      ensures ring == Effects(old(ring), log)
      decreases script, 1
    {
      if script.Done? {
        log := [];
        DropsAllNothing(rings);
      } else {
        ghost var was := ring;
        CallbackOnHooks(rings, script, depth);
        ghost var acts := RunAction(script, saves, rings, depth, world);
        AfterAction(rings, was, acts);
        ghost var more := RunCallback(script.rest, saves, DropsAll(rings, acts), depth, world);
        DropsAllConcat(rings, acts, more);
        EffectsConcat(was, acts, more);
        log := acts + more;
      }
    }

    method RunAction(script: Script, saves: seq<ListenerList>, ghost rings: seq<seq<Link>>, ghost depth: nat,
                     ghost world: set<Link>)
      returns (ghost acts: seq<Event>)
      requires Within(saves, rings, world) && ScriptLinks(script) <= world
      modifies this`ring, saves, world
      ensures Within(saves, DropsAll(rings, acts), world)
      ensures acts == Act(HooksOfAll(rings), old(Contents()), script, depth)
      ensures ring == Effects(old(ring), acts)
      decreases script, 0
    {
      match script
      case Done =>
        acts := [];
        DropsAllNothing(rings);
      case Unlink(h, _) => acts := Unregister(h, saves, rings, world);
      case Append(h, _) => acts := Register(h, saves, rings, world);
      case Emit(inner, _) => acts := ForEachHook(inner, saves, rings, depth, world);
      case Greet(h, greeting, _) => acts := WithIsolated(h, greeting, saves, rings, depth, world);
    }

    /** Registers a hook in isolation while its greeting runs, then joins the lists. */
    method WithIsolated(h: Link, greeting: Script, saves: seq<ListenerList>, ghost rings: seq<seq<Link>>,
                        ghost depth: nat, ghost world: set<Link>)
      returns (ghost acts: seq<Event>)
      requires Within(saves, rings, world) && h in world && ScriptLinks(greeting) <= world
      modifies this`ring, saves, world
      ensures Within(saves, DropsAll(rings, acts), world)
      ensures acts == if Fresh(h, HooksOfAll(rings), old(Contents()))
                      then [Appended(h)] + Run(HooksOfAll(rings) + old(Contents()), [h], greeting, depth) else []
      ensures ring == Effects(old(ring), acts)
      decreases greeting, 4
    {
      acts := [];
      DropsAllNothing(rings);
      var linked := Linked(h, saves, rings);
      if h.isHook && !linked {
        acts := GreetAlone(h, greeting, saves, rings, depth, world);
      }
    }

    method GreetAlone(h: Link, greeting: Script, saves: seq<ListenerList>, ghost rings: seq<seq<Link>>,
                      ghost depth: nat, ghost world: set<Link>)
      returns (ghost acts: seq<Event>)
      requires Within(saves, rings, world) && h in world && ScriptLinks(greeting) <= world
      requires h.isHook && h !in ring && h !in Links(rings)
      modifies this`ring, saves, world
      ensures Within(saves, DropsAll(rings, acts), world)
      ensures acts == [Appended(h)] + Run(HooksOfAll(rings) + old(Contents()), [h], greeting, depth)
      ensures ring == Effects(old(ring), acts)
      decreases greeting, 3
    {
      ghost var was := ring;
      var save := SetAside(h, saves, rings, world);
      ghost var inner := GreetAside(h, greeting, saves, rings, depth, world, save, was);
      GreetLinks(rings, was, save.head, h, inner);
      JoinBack(save, saves, DropsAll(rings, inner), Drops([save.head] + was[1..], inner), world);
      acts := [Appended(h)] + inner;
    }

    /** The greeting itself, while the links of `was` are set aside. */
    method GreetAside(h: Link, greeting: Script, saves: seq<ListenerList>, ghost rings: seq<seq<Link>>,
                      ghost depth: nat, ghost world: set<Link>, save: ListenerList, ghost was: seq<Link>)
      returns (ghost inner: seq<Event>)
      requires was != [] && was[0] == head && !save.head.isHook && h.isHook && ring == [head, h]
      requires Within(saves + [save], rings + [[save.head] + was[1..]], world + {save.head})
      requires ScriptLinks(greeting) <= world
      modifies this`ring, saves, save, world, save.head
      ensures Within(saves + [save], DropsAll(rings, inner) + [Drops([save.head] + was[1..], inner)],
                     world + {save.head})
      ensures inner == Run(HooksOfAll(rings) + HooksOf(was), [h], greeting, depth) && OnHooks(inner)
      ensures ring == Effects([head, h], inner)
      decreases greeting, 2
    {
      ghost var aside := [save.head] + was[1..];
      CallbackOnHooks(rings + [aside], greeting, depth);
      GreetView(rings, was, save.head, h);
      inner := RunCallback(greeting, saves + [save], rings + [aside], depth, world + {save.head});
      DropsAllPush(rings, aside, inner);
    }
  }

  // ---------------------------------------------------------------- what a traversal owes

  /** A traversal that started on this ring, with these hooks set aside. */
  datatype Job = Job(rings: seq<seq<Link>>, start: seq<Link>, replies: Replies, depth: nat) {
    function Owed(): seq<Event> { Walk(HooksOfAll(rings), [], HooksOf(start), replies, depth) }
  }

  /** The traversal's loop invariant: the ring around the cursor is the start ring after the
      events so far, so are the rings set aside, and these events plus those still owed are what
      was asked for. */
  ghost predicate Owes(job: Job, rings: seq<seq<Link>>, before: seq<Link>, after: seq<Link>, left: Replies,
                       log: seq<Event>)
  {
    && before + after == Effects(job.start, log)
    && rings == DropsAll(job.rings, log)
    && log + Walk(HooksOfAll(rings), HooksOf(before), HooksOf(after), left, job.depth) == job.Owed()
  }

  function ScriptLinks(s: Script): set<Link> {
    match s
    case Done => {}
    case Unlink(h, rest) => {h} + ScriptLinks(rest)
    case Append(h, rest) => {h} + ScriptLinks(rest)
    case Emit(inner, rest) => RepliesLinks(inner) + ScriptLinks(rest)
    case Greet(h, greeting, rest) => {h} + ScriptLinks(greeting) + ScriptLinks(rest)
  }

  function RepliesLinks(r: Replies): set<Link> {
    if r.NoMore? then {} else ScriptLinks(r.script) + RepliesLinks(r.rest)
  }

  lemma OwesStart(job: Job)
    requires job.start != [] && !job.start[0].isHook
    ensures Owes(job, job.rings, job.start[..1], job.start[1..], job.replies, [])
  {
    var start := job.start;
    assert start[..1] + start[1..] == start;
    HooksConcat(start[..1], start[1..]);
    assert HooksOf(start[..1]) == [];
    HeadFirst(start);
    DropsAllNothing(job.rings);
    var owed := Walk(HooksOfAll(job.rings), [], HooksOf(start), job.replies, job.depth);
    assert [] + owed == owed;
  }

  lemma OwesNothing(job: Job, rings: seq<seq<Link>>, before: seq<Link>, left: Replies, log: seq<Event>)
    requires Owes(job, rings, before, [], left, log)
    ensures before == Effects(job.start, log) && rings == DropsAll(job.rings, log)
    ensures log == Walk(HooksOfAll(job.rings), [], HooksOf(job.start), job.replies, job.depth)
  {
    assert before + [] == before;
  }

  lemma SameLinks(before: seq<Link>, cur: Link, after: seq<Link>)
    requires after != []
    ensures forall x :: x in before + [after[0]] + [cur] + after[1..] ==> x in before + [cur] + after
  {}

  lemma OwesSkip(job: Job, rings: seq<seq<Link>>, before: seq<Link>, item: Link, rest: seq<Link>, left: Replies,
                 log: seq<Event>)
    requires !item.isHook && Owes(job, rings, before, [item] + rest, left, log)
    ensures Owes(job, rings, before + [item], rest, left, log)
  {
    Assoc(before, [item], rest);
    HooksSnoc(before, item);
    HooksConcat([item], rest);
    assert HooksOf([item]) == [];
    assert [] + HooksOf(rest) == HooksOf(rest);
  }

  /** The head stays in front of the cursor: only hooks are unlinked. */
  lemma {:induction false} DropsKeepsFirst(s: seq<Link>, es: seq<Event>)
    requires s != [] && !s[0].isHook && OnHooks(es)
    ensures Drops(s, es) == [s[0]] + Drops(s[1..], es)
    decreases es
  {
    HeadTail(s);
    if es != [] {
      var h := es[0].hook;
      assert h.isHook;
      DropsKeepsFirst(if es[0].Unlinked? then Without(s, h) else s, es[1..]);
    }
  }

  /** Around one callback: the hooks before and behind the cursor. */
  lemma CallbackView(before: seq<Link>, item: Link, cur: Link, rest: seq<Link>)
    requires item.isHook && !cur.isHook
    ensures HooksOf((before + [item]) + [cur] + rest) == HooksOf(before) + ([item] + HooksOf(rest))
    ensures HooksOf(before + [item]) == HooksOf(before) + [item]
  {
    var passed := before + [item];
    HooksSnoc(before, item);
    HooksSnoc(passed, cur);
    HooksConcat(passed + [cur], rest);
    Assoc(HooksOf(before), [item], HooksOf(rest));
  }

  /** One reply of the traversal, on the hooks alone. */
  lemma OneReply(saved: seq<Link>, x: seq<Link>, item: Link, y: seq<Link>, left: Replies, script: Script,
                 left': Replies, depth: nat)
    requires Answers(left, script, left')
    ensures var acts := Run(saved, x + ([item] + y), script, depth + 1);
            Walk(saved, x, [item] + y, left, depth) ==
              [Called(depth, item)] + acts
              + Walk(Drops(saved, acts), Drops(x + [item], acts), Effects(y, acts), left', depth)
  {
    assert ([item] + y)[1..] == y;
    if left.NoMore? {
      assert [Called(depth, item)] + [] == [Called(depth, item)];
    }
  }

  /** The links around the cursor after one callback. */
  lemma CallbackLinks(before: seq<Link>, item: Link, cur: Link, rest: seq<Link>, acts: seq<Event>)
    requires OnHooks(acts) && !cur.isHook && before != [] && !before[0].isHook
    ensures Drops(before + [item], acts) != []
    ensures Effects((before + [item]) + [cur] + rest, acts)
         == Drops(before + [item], acts) + [cur] + Effects(rest, acts)
  {
    DropsKeepsFirst(before + [item], acts);
    SplitEffects(before + [item], [cur], rest, acts);
  }

  /** The lists after one callback. */
  lemma CallbackList(job: Job, rings: seq<seq<Link>>, before: seq<Link>, item: Link, rest: seq<Link>,
                     acts: seq<Event>, log: seq<Event>)
    requires before + ([item] + rest) == Effects(job.start, log) && rings == DropsAll(job.rings, log)
    ensures Drops(before + [item], acts) + Effects(rest, acts)
         == Effects(job.start, log + [Called(job.depth, item)] + acts)
    ensures DropsAll(rings, acts) == DropsAll(job.rings, log + [Called(job.depth, item)] + acts)
  {
    var call := [Called(job.depth, item)];
    SplitPlain(before + [item], rest, acts);
    Assoc(before, [item], rest);
    EffectsConcat(job.start, log + call, acts);
    EffectsConcat(job.start, log, call);
    DropsAllConcat(job.rings, log + call, acts);
    DropsAllConcat(job.rings, log, call);
    DropsAllKept(rings, call[0]);
  }

  /** What the next callback does, and the replies left after it. */
  ghost predicate Answers(left: Replies, script: Script, left': Replies) {
    if left.Reply? then script == left.script && left' == left.rest else script == Done && left' == left
  }

  /** What the traversal owes after one callback. */
  lemma CallbackOwed(saved: seq<Link>, before: seq<Link>, item: Link, rest: seq<Link>, left: Replies,
                     script: Script, left': Replies, acts: seq<Event>, depth: nat)
    requires item.isHook && OnHooks(acts) && Answers(left, script, left')
    requires acts == Run(saved, HooksOf(before) + ([item] + HooksOf(rest)), script, depth + 1)
    ensures Walk(saved, HooksOf(before), HooksOf([item] + rest), left, depth)
         == [Called(depth, item)] + acts
            + Walk(Drops(saved, acts), HooksOf(Drops(before + [item], acts)), HooksOf(Effects(rest, acts)), left', depth)
  {
    HooksCons(item, rest);
    HooksSnoc(before, item);
    HooksEffects(before + [item], acts);
    HooksEffects(rest, acts);
    OneReply(saved, HooksOf(before), item, HooksOf(rest), left, script, left', depth);
  }

  /** The log after one callback, with what is still owed. */
  lemma CallbackLog(rings: seq<seq<Link>>, before: seq<Link>, item: Link, cur: Link, rest: seq<Link>, left: Replies,
                    script: Script, left': Replies, acts: seq<Event>, log: seq<Event>, owed: seq<Event>, depth: nat)
    requires item.isHook && !cur.isHook && OnHooks(acts) && Answers(left, script, left')
    requires acts == Run(HooksOfAll(rings), HooksOf((before + [item]) + [cur] + rest), script, depth + 1)
    requires log + Walk(HooksOfAll(rings), HooksOf(before), HooksOf([item] + rest), left, depth) == owed
    ensures log + [Called(depth, item)] + acts
            + Walk(HooksOfAll(DropsAll(rings, acts)), HooksOf(Drops(before + [item], acts)),
                   HooksOf(Effects(rest, acts)), left', depth) == owed
  {
    CallbackView(before, item, cur, rest);
    HooksOfAllDrops(rings, acts);
    CallbackOwed(HooksOfAll(rings), before, item, rest, left, script, left', acts, depth);
    LogAssoc(log, [Called(depth, item)], acts,
             Walk(Drops(HooksOfAll(rings), acts), HooksOf(Drops(before + [item], acts)), HooksOf(Effects(rest, acts)),
                  left', depth));
  }

  lemma OwesAfter(job: Job, rings: seq<seq<Link>>, before: seq<Link>, item: Link, rest: seq<Link>, left: Replies,
                  acts: seq<Event>, log: seq<Event>)
    requires rings == DropsAll(job.rings, log) && before + ([item] + rest) == Effects(job.start, log)
    requires log + [Called(job.depth, item)] + acts
             + Walk(HooksOfAll(DropsAll(rings, acts)), HooksOf(Drops(before + [item], acts)),
                    HooksOf(Effects(rest, acts)), left, job.depth) == job.Owed()
    ensures Owes(job, DropsAll(rings, acts), Drops(before + [item], acts), Effects(rest, acts), left,
                 log + [Called(job.depth, item)] + acts)
  {
    CallbackList(job, rings, before, item, rest, acts, log);
  }

  /** After one callback: the list around the cursor, and what the traversal still owes. */
  lemma CallbackDone(job: Job, rings: seq<seq<Link>>, before: seq<Link>, item: Link, cur: Link, rest: seq<Link>,
                     left: Replies, script: Script, left': Replies, acts: seq<Event>, log: seq<Event>)
    requires item.isHook && !cur.isHook && OnHooks(acts) && Answers(left, script, left')
    requires acts == Run(HooksOfAll(rings), HooksOf((before + [item]) + [cur] + rest), script, job.depth + 1)
    requires Owes(job, rings, before, [item] + rest, left, log)
    ensures Owes(job, DropsAll(rings, acts), Drops(before + [item], acts), Effects(rest, acts), left',
                 log + [Called(job.depth, item)] + acts)
  {
    CallbackLog(rings, before, item, cur, rest, left, script, left', acts, log, job.Owed(), job.depth);
    OwesAfter(job, rings, before, item, rest, left', acts, log);
  }

  lemma LogAssoc(a: seq<Event>, b: seq<Event>, c: seq<Event>, d: seq<Event>)
    ensures a + (b + c + d) == a + b + c + d
  {}

  /** What the next action of a callback finds. */
  lemma AfterAction(rings: seq<seq<Link>>, was: seq<Link>, acts: seq<Event>)
    requires OnHooks(acts)
    ensures HooksOf(Effects(was, acts)) == Effects(HooksOf(was), acts)
    ensures HooksOfAll(DropsAll(rings, acts)) == Drops(HooksOfAll(rings), acts)
  {
    HooksEffects(was, acts);
    HooksOfAllDrops(rings, acts);
  }

  /** What a greeting finds: everyone else is set aside. */
  lemma GreetView(rings: seq<seq<Link>>, was: seq<Link>, spare: Link, h: Link)
    requires was != [] && !was[0].isHook && !spare.isHook && h.isHook
    ensures HooksOfAll(rings + [[spare] + was[1..]]) == HooksOfAll(rings) + HooksOf(was)
    ensures HooksOf([was[0], h]) == [h]
  {
    HooksOfPushed(rings, [spare] + was[1..]);
    HeadFirst([spare] + was[1..]);
    HeadFirst(was);
    HeadFirst([was[0], h]);
    HeadOnly(h);
  }

  /** The head stays, the links behind it lose hooks, and `h` leads what was appended. */
  lemma HeadAndTail(was: seq<Link>, h: Link, es: seq<Event>)
    requires was != [] && !was[0].isHook && OnHooks(es)
    ensures Effects(was + [h], es) == [was[0]] + Drops(was[1..], es) + Effects([h], es)
  {
    SplitPlain(was, [h], es);
    DropsKeepsFirst(was, es);
  }

  lemma HeadAlone(head: Link, h: Link, es: seq<Event>)
    requires !head.isHook && OnHooks(es)
    ensures Effects([head, h], es) == [head] + Effects([h], es)
  {
    HeadAndTail([head], h, es);
    DropsNone(es);
    assert [head] + [h] == [head, h] && [head][1..] == [];
  }

  /** The links after the greeting and the join. */
  lemma GreetLinks(rings: seq<seq<Link>>, was: seq<Link>, spare: Link, h: Link, inner: seq<Event>)
    requires was != [] && !was[0].isHook && !spare.isHook && OnHooks(inner)
    ensures var aside := [spare] + was[1..];
            && Drops(aside, inner) != [] && Effects([was[0], h], inner) != []
            && DropsAll(rings, [Appended(h)] + inner) == DropsAll(rings, inner)
            && [was[0]] + Drops(aside, inner)[1..] + Effects([was[0], h], inner)[1..]
               == Effects(was, [Appended(h)] + inner)
  {
    var aside, act := [spare] + was[1..], [Appended(h)];
    DropsAllConcat(rings, act, inner);
    DropsAllKept(rings, act[0]);
    EffectsConcat(was, act, inner);
    assert Effects(was, act) == was + [h];
    HeadAndTail(was, h, inner);
    assert aside[1..] == was[1..];
    DropsKeepsFirst(aside, inner);
    HeadAlone(was[0], h, inner);
  }

  // ---------------------------------------------------------------- families of lists

  ghost function Links(rings: seq<seq<Link>>): (links: set<Link>)
    ensures forall k, x :: 0 <= k < |rings| && x in rings[k] ==> x in links
    ensures forall x :: x in links ==> !Outside(x, rings)
  {
    set k: int, x: Link | 0 <= k < |rings| && x in rings[k] :: x
  }

  /** Different lists with these rings, which share no link. */
  ghost predicate Family(lists: seq<ListenerList>, rings: seq<seq<Link>>)
    reads lists, Links(rings)
  {
    && |lists| == |rings| && Separate(rings)
    && (forall j, k :: 0 <= j < k < |lists| ==> lists[j] != lists[k])
    && (forall k :: 0 <= k < |lists| ==> lists[k].ring == rings[k] && lists[k].Valid())
  }

  lemma FamilyPush(lists: seq<ListenerList>, rings: seq<seq<Link>>, l: ListenerList)
    requires Family(lists, rings) && l.Valid() && l !in lists && forall x :: x in l.ring ==> x !in Links(rings)
    ensures Family(lists + [l], rings + [l.ring])
    ensures forall x :: x in Links(rings + [l.ring]) <==> x in Links(rings) || x in l.ring
  {
    SeparatePush(rings, l.ring);
    LinksPush(rings, l.ring);
  }

  lemma FamilyPop(lists: seq<ListenerList>, rings: seq<seq<Link>>, l: ListenerList, r: seq<Link>)
    requires Family(lists + [l], rings + [r])
    ensures Family(lists, rings) && l.Valid() && l.ring == r && l !in lists
    ensures forall x :: x in Links(rings + [r]) <==> x in Links(rings) || x in r
    ensures forall x :: x in r ==> x !in Links(rings)
  {
    var all, rs := lists + [l], rings + [r];
    assert all[|lists|] == l && rs[|rings|] == r;
    assert forall k :: 0 <= k < |lists| ==> all[k] == lists[k] && rs[k] == rings[k];
    SeparatePush(rings, r);
    LinksPush(rings, r);
  }

  lemma LinksPush(rings: seq<seq<Link>>, r: seq<Link>)
    ensures forall x :: x in Links(rings + [r]) <==> x in Links(rings) || x in r
  {
    OutsidePush(rings, r);
    LinksAreInside(rings);
    LinksAreInside(rings + [r]);
  }

  lemma LinksAreInside(rings: seq<seq<Link>>)
    ensures forall x :: x in Links(rings) <==> !Outside(x, rings)
  {}

  /** Which of the lists holds `h`; `|lists|` if none does. */
  method Owner(h: Link, lists: seq<ListenerList>, ghost rings: seq<seq<Link>>) returns (at: nat)
    requires h.isHook && Family(lists, rings)
    ensures at <= |lists| && (at < |lists| ==> h in rings[at])
    ensures at == |lists| <==> h !in Links(rings)
  {
    at := 0;
    while at < |lists|
      invariant at <= |lists| && forall k :: 0 <= k < at ==> h !in rings[k]
    {
      var found := lists[at].Contains(h);
      if found {
        return;
      }
      at := at + 1;
    }
  }

  /** Unlinks a hook that may be set aside. */
  method TakeFromOne(h: Link, lists: seq<ListenerList>, ghost rings: seq<seq<Link>>) returns (found: bool)
    requires Family(lists, rings) && h.isHook
    modifies lists, Links(rings)
    ensures found <==> h in Links(rings)
    ensures Family(lists, DropsAll(rings, if found then [Unlinked(h)] else []))
  {
    DropsAllNothing(rings);
    var at := Owner(h, lists, rings);
    found := at < |lists|;
    if found {
      lists[at].Take(h);
      forall k | 0 <= k < |lists| && k != at ensures lists[k].ring == rings[k] && lists[k].Valid() {
        var r := rings[k];
        assert Apart(r, rings[at]);
        forall i | 0 <= i < |r| ensures Joined(r[i], r[Succ(i, |r|)]) {
          assert r[i] in r && r[Succ(i, |r|)] in r && old(Joined(r[i], r[Succ(i, |r|)]));
        }
      }
      WithoutMembers(rings[at], h);
      SeparateUpdate(rings, at, Without(rings[at], h));
      TakenFromOne(rings, at, h);
    }
  }

  lemma SeparateUpdate(rings: seq<seq<Link>>, at: nat, r: seq<Link>)
    requires Separate(rings) && at < |rings| && Distinct(r)
    requires forall x :: x in r ==> x in rings[at]
    ensures Separate(rings[at := r])
  {
    var all := rings[at := r];
    forall j, k | 0 <= j < |all| && 0 <= k < |all| && j != k ensures Apart(all[j], all[k]) {
      assert Apart(rings[j], rings[k]);
    }
  }

  lemma TakenFromOne(rings: seq<seq<Link>>, at: nat, h: Link)
    requires Separate(rings) && at < |rings| && h in rings[at]
    ensures rings[at := Without(rings[at], h)] == DropsAll(rings, [Unlinked(h)])
  {
    forall k | 0 <= k < |rings| && k != at ensures Drops(rings[k], [Unlinked(h)]) == rings[k] {
      assert Apart(rings[at], rings[k]);
      DropAbsent(rings[k], h);
    }
    assert [Unlinked(h)][1..] == [];
    assert Drops(rings[at], [Unlinked(h)]) == Without(rings[at], h);
  }

  lemma DropAbsent(s: seq<Link>, h: Link)
    requires h !in s
    ensures Drops(s, [Unlinked(h)]) == s
  {
    assert [Unlinked(h)][1..] == [];
    WithoutAbsent(s, h);
  }

  lemma LinksShrink(rings: seq<seq<Link>>, es: seq<Event>)
    ensures Links(DropsAll(rings, es)) <= Links(rings)
  {
    forall x | x in Links(DropsAll(rings, es)) ensures x in Links(rings) {
      var k :| 0 <= k < |rings| && x in DropsAll(rings, es)[k];
      DropsShrink(rings[k], es);
    }
  }

  lemma DropsAllNothing(rings: seq<seq<Link>>)
    ensures DropsAll(rings, []) == rings
  {}

  lemma DropsAllPush(rings: seq<seq<Link>>, r: seq<Link>, es: seq<Event>)
    ensures DropsAll(rings + [r], es) == DropsAll(rings, es) + [Drops(r, es)]
  {}

  lemma DropsAllKept(rings: seq<seq<Link>>, e: Event)
    requires !e.Unlinked?
    ensures DropsAll(rings, [e]) == rings
  {
    forall k | 0 <= k < |rings| ensures Drops(rings[k], [e]) == rings[k] {
      assert [e][1..] == [];
    }
  }

  /** A hook that is not set aside leaves no gap there. */
  lemma DropsNowhere(rings: seq<seq<Link>>, h: Link)
    requires h !in Links(rings)
    ensures DropsAll(rings, [Unlinked(h)]) == rings
  {
    forall k | 0 <= k < |rings| ensures Drops(rings[k], [Unlinked(h)]) == rings[k] {
      DropAbsent(rings[k], h);
    }
  }

  // ---------------------------------------------------------------- one ring

  ghost predicate Joined(a: Link, b: Link)
    reads a, b
  {
    a.next == b && b.prev == a
  }

  /** Every link and its successor, around the end to the head, point at each other. */
  ghost predicate Chained(ring: seq<Link>)
    reads ring
  {
    forall i :: 0 <= i < |ring| ==> Joined(ring[i], ring[Succ(i, |ring|)])
  }

  function Succ(i: nat, n: nat): nat { if i + 1 < n then i + 1 else 0 }

  /** Lists that share no link. */
  ghost predicate Apart(a: seq<Link>, b: seq<Link>) { forall x :: x in a ==> x !in b }

  lemma ApartSym(a: seq<Link>, b: seq<Link>)
    requires Apart(a, b)
    ensures Apart(b, a)
  {}

  function HooksOf(s: seq<Link>): seq<Link> {
    if s == [] then [] else (if s[0].isHook then [s[0]] else []) + HooksOf(s[1..])
  }

  // ---------------------------------------------------------------- rings with one change

  lemma InsertedAt(s: seq<Link>, i: nat, x: Link, k: nat)
    requires i < |s| && k <= |s|
    ensures (s[..i + 1] + [x] + s[i + 1..])[k] == if k <= i then s[k] else if k == i + 1 then x else s[k - 1]
  {}

  lemma ChainInserted(was: seq<Link>, i: nat, x: Link)
    requires i < |was| && forall k :: 0 <= k < |was| && k != i ==> Joined(was[k], was[Succ(k, |was|)])
    requires Joined(was[i], x) && Joined(x, was[Succ(i, |was|)])
    ensures Chained(was[..i + 1] + [x] + was[i + 1..])
  {
    var t := was[..i + 1] + [x] + was[i + 1..];
    forall k | 0 <= k < |t| ensures Joined(t[k], t[Succ(k, |t|)]) {
      InsertedAt(was, i, x, k);
      InsertedAt(was, i, x, Succ(k, |t|));
      assert k < i ==> Joined(was[k], was[Succ(k, |was|)]);
      assert k > i + 1 ==> Joined(was[k - 1], was[Succ(k - 1, |was|)]);
    }
  }

  lemma RemovedAt(s: seq<Link>, i: nat, k: nat)
    requires i < |s| && k < |s| - 1
    ensures (s[..i] + s[i + 1..])[k] == if k < i then s[k] else s[k + 1]
  {}

  lemma ChainRemoved(was: seq<Link>, i: nat)
    requires 0 < i < |was|
    requires forall k :: 0 <= k < |was| && k != i && k != i - 1 ==> Joined(was[k], was[Succ(k, |was|)])
    requires Joined(was[i - 1], was[Succ(i, |was|)])
    ensures Chained(was[..i] + was[i + 1..])
  {
    var t := was[..i] + was[i + 1..];
    forall k | 0 <= k < |t| ensures Joined(t[k], t[Succ(k, |t|)]) {
      RemovedAt(was, i, k);
      RemovedAt(was, i, Succ(k, |t|));
      assert k < i - 1 ==> Joined(was[k], was[Succ(k, |was|)]);
      assert k >= i ==> Joined(was[k + 1], was[Succ(k + 1, |was|)]);
    }
  }

  ghost function Spliced(a: seq<Link>, b: seq<Link>, i: nat): seq<Link>
    requires i < |a| && b != []
  {
    a[..i + 1] + b[1..] + a[i + 1..]
  }

  lemma SplicedAt(a: seq<Link>, b: seq<Link>, i: nat, k: nat)
    requires i < |a| && b != [] && k < |a| + |b| - 1
    ensures |Spliced(a, b, i)| == |a| + |b| - 1
    ensures Spliced(a, b, i)[k] ==
              if k <= i then a[k] else if k < i + |b| then b[k - i] else a[k - |b| + 1]
  {}

  lemma ChainSpliced(a: seq<Link>, b: seq<Link>, i: nat)
    requires i < |a| && |b| > 1
    requires forall k :: 0 <= k < |a| && k != i ==> Joined(a[k], a[Succ(k, |a|)])
    requires forall k :: 1 <= k < |b| - 1 ==> Joined(b[k], b[k + 1])
    requires Joined(a[i], b[1]) && Joined(b[|b| - 1], a[Succ(i, |a|)])
    ensures Chained(Spliced(a, b, i))
  {
    var t := Spliced(a, b, i);
    forall k | 0 <= k < |t| ensures Joined(t[k], t[Succ(k, |t|)]) {
      SplicedAt(a, b, i, k);
      SplicedAt(a, b, i, Succ(k, |t|));
      assert k < i ==> Joined(a[k], a[Succ(k, |a|)]);
      assert i < k < i + |b| - 1 ==> Joined(b[k - i], b[k - i + 1]);
      assert k >= i + |b| ==> Joined(a[k - |b| + 1], a[Succ(k - |b| + 1, |a|)]);
    }
  }

  lemma SplicedDistinct(a: seq<Link>, b: seq<Link>, i: nat)
    requires i < |a| && b != [] && Distinct(a) && Distinct(b) && Apart(a, b)
    ensures Distinct(Spliced(a, b, i))
  {
    var s := Spliced(a, b, i);
    forall j, k | 0 <= j < k < |s| ensures s[j] != s[k] {
      SplicedAt(a, b, i, j);
      SplicedAt(a, b, i, k);
      assert s[j] in a || s[j] in b;
      assert s[j] in a && s[k] in b ==> s[j] != s[k];
    }
  }

  lemma EmptyRing(b: seq<Link>)
    requires b != [] && Distinct(b) && Chained(b) && b[0].next == b[0]
    ensures b == [b[0]]
  {
    assert Joined(b[0], b[Succ(0, |b|)]);
  }

  lemma SomeRing(b: seq<Link>)
    requires b != [] && Chained(b) && b[0].next != b[0]
    ensures |b| > 1 && b[0].next == b[1] && b[0].prev == b[|b| - 1]
  {
    assert Joined(b[0], b[Succ(0, |b|)]) && Joined(b[|b| - 1], b[Succ(|b| - 1, |b|)]);
  }

  lemma InsertDistinct(s: seq<Link>, i: nat, x: Link)
    requires Distinct(s) && i <= |s| && x !in s
    ensures Distinct(s[..i] + [x] + s[i..])
  {
    var t := s[..i] + [x] + s[i..];
    assert forall k :: 0 <= k < |t| ==> t[k] == if k < i then s[k] else if k == i then x else s[k - 1];
  }

  lemma RemoveDistinct(s: seq<Link>, i: nat)
    requires Distinct(s) && i < |s|
    ensures Distinct(s[..i] + s[i + 1..]) && s[i] !in s[..i] + s[i + 1..]
  {
    var t := s[..i] + s[i + 1..];
    assert forall k :: 0 <= k < |t| ==> t[k] == s[if k < i then k else k + 1];
  }

  lemma AtCursor(before: seq<Link>, cur: Link, after: seq<Link>)
    ensures var ring := before + [cur] + after;
            && ring[..|before|] == before && ring[|before|] == cur && ring[|before| + 1..] == after
            && ring[..|before|] + ring[|before| + 1..] == before + after
  {}

  lemma HopParts(before: seq<Link>, after: seq<Link>)
    requires after != []
    ensures (before + after)[..|before| + 1] == before + [after[0]]
    ensures (before + after)[|before| + 1..] == after[1..]
  {}

  // ---------------------------------------------------------------- lists with cursors in them

  lemma {:induction false} HooksConcat(a: seq<Link>, b: seq<Link>)
    ensures HooksOf(a + b) == HooksOf(a) + HooksOf(b)
  {
    if a == [] {
      assert a + b == b;
    } else {
      assert (a + b)[1..] == a[1..] + b;
      HooksConcat(a[1..], b);
      Assoc(if a[0].isHook then [a[0]] else [], HooksOf(a[1..]), HooksOf(b));
    }
  }

  lemma {:induction false} HooksMembers(s: seq<Link>)
    ensures AllHooks(HooksOf(s))
    ensures forall x :: x in s && x.isHook ==> x in HooksOf(s)
    ensures forall x :: x in HooksOf(s) ==> x in s
    ensures Distinct(s) ==> Distinct(HooksOf(s))
  {
    if s != [] {
      var t := s[1..];
      HooksMembers(t);
      assert forall i :: 0 <= i < |t| ==> t[i] == s[i + 1];
      if Distinct(s) {
        assert s[0] !in t;
      }
    }
  }

  lemma {:induction false} HooksWithout(s: seq<Link>, h: Link)
    ensures HooksOf(Without(s, h)) == Without(HooksOf(s), h)
  {
    if s != [] {
      HooksWithout(s[1..], h);
      HooksConcat(if s[0] == h then [] else [s[0]], Without(s[1..], h));
      WithoutConcat(if s[0].isHook then [s[0]] else [], HooksOf(s[1..]), h);
    }
  }

  /** Cursors do not disturb the effects on hooks. */
  lemma {:induction false} HooksEffects(s: seq<Link>, es: seq<Event>)
    requires forall k :: 0 <= k < |es| ==> es[k].hook.isHook
    ensures HooksOf(Effects(s, es)) == Effects(HooksOf(s), es)
    ensures HooksOf(Drops(s, es)) == Drops(HooksOf(s), es)
    decreases es
  {
    if es != [] {
      var e := es[0];
      assert e.hook.isHook;
      HooksWithout(s, e.hook);
      HooksConcat(s, [e.hook]);
      assert HooksOf(Effect(s, e)) == Effect(HooksOf(s), e);
      HooksEffects(Effect(s, e), es[1..]);
      HooksEffects(if e.Unlinked? then Without(s, e.hook) else s, es[1..]);
    }
  }

  lemma HeadOnly(x: Link)
    ensures HooksOf([x]) == if x.isHook then [x] else []
  {
    assert [x][1..] == [];
  }

  lemma HeadFirst(ring: seq<Link>)
    requires ring != [] && !ring[0].isHook
    ensures HooksOf(ring) == HooksOf(ring[1..])
  {}

  lemma HooksSnoc(s: seq<Link>, x: Link)
    ensures HooksOf(s + [x]) == if x.isHook then HooksOf(s) + [x] else HooksOf(s)
  {
    HooksConcat(s, [x]);
    HeadOnly(x);
  }

  lemma HooksCons(x: Link, s: seq<Link>)
    requires x.isHook
    ensures HooksOf([x] + s) == [x] + HooksOf(s)
  {
    assert ([x] + s)[1..] == s;
  }

  lemma {:induction false} SoundHooks(s: seq<Link>, es: seq<Event>, k: nat)
    requires Sound(s, es) && k < |es|
    ensures es[k].hook.isHook
    decreases es
  {
    if k > 0 {
      SoundHooks(Effect(s, es[0]), es[1..], k - 1);
    }
  }

  ghost predicate OnHooks(es: seq<Event>) { forall k :: 0 <= k < |es| ==> es[k].hook.isHook }

  lemma SoundOnHooks(s: seq<Link>, es: seq<Event>)
    requires Sound(s, es)
    ensures OnHooks(es)
  {
    forall k | 0 <= k < |es| ensures es[k].hook.isHook {
      SoundHooks(s, es, k);
    }
  }

  // ---------------------------------------------------------------- several rings

  /** Rings without a common link. */
  ghost predicate Separate(rings: seq<seq<Link>>) {
    && (forall k :: 0 <= k < |rings| ==> Distinct(rings[k]))
    && (forall j, k :: 0 <= j < |rings| && 0 <= k < |rings| && j != k ==> Apart(rings[j], rings[k]))
  }

  ghost predicate Outside(x: Link, rings: seq<seq<Link>>) {
    forall k :: 0 <= k < |rings| ==> x !in rings[k]
  }

  lemma SeparatePush(rings: seq<seq<Link>>, r: seq<Link>)
    ensures Separate(rings + [r]) <==>
      Separate(rings) && Distinct(r) && forall x :: x in r ==> Outside(x, rings)
  {
    var all, n := rings + [r], |rings|;
    assert all[n] == r && forall k :: 0 <= k < n ==> all[k] == rings[k];
    if Separate(all) {
      forall x | x in r ensures Outside(x, rings) {
        forall k | 0 <= k < n ensures x !in rings[k] {
          assert Apart(all[k], all[n]);
        }
      }
      forall j, k | 0 <= j < n && 0 <= k < n && j != k ensures Apart(rings[j], rings[k]) {
        assert Apart(all[j], all[k]);
      }
    }
    if Separate(rings) && Distinct(r) && forall x :: x in r ==> Outside(x, rings) {
      forall j, k | 0 <= j < |all| && 0 <= k < |all| && j != k ensures Apart(all[j], all[k]) {
        if j == n {
          assert forall x :: x in r ==> Outside(x, rings);
        } else if k == n {
          assert forall x :: x in r ==> Outside(x, rings);
        } else {
          assert Apart(rings[j], rings[k]);
        }
      }
    }
  }

  /** The hooks of all rings, first ring first. */
  function HooksOfAll(rings: seq<seq<Link>>): seq<Link> {
    if rings == [] then []
    else HooksOfAll(rings[..|rings| - 1]) + HooksOf(rings[|rings| - 1])
  }

  function DropsAll(rings: seq<seq<Link>>, es: seq<Event>): seq<seq<Link>> {
    seq(|rings|, k requires 0 <= k < |rings| => Drops(rings[k], es))
  }

  lemma HooksOfPushed(rings: seq<seq<Link>>, r: seq<Link>)
    ensures HooksOfAll(rings + [r]) == HooksOfAll(rings) + HooksOf(r)
  {
    assert (rings + [r])[..|rings|] == rings;
  }

  lemma {:induction false} HooksOfAllDrops(rings: seq<seq<Link>>, es: seq<Event>)
    requires OnHooks(es)
    ensures HooksOfAll(DropsAll(rings, es)) == Drops(HooksOfAll(rings), es)
  {
    if rings == [] {
      DropsNone(es);
    } else {
      var rest, last := rings[..|rings| - 1], rings[|rings| - 1];
      assert DropsAll(rings, es) == DropsAll(rest, es) + [Drops(last, es)];
      HooksOfPushed(DropsAll(rest, es), Drops(last, es));
      HooksOfAllDrops(rest, es);
      HooksEffects(last, es);
      DropsSplit(HooksOfAll(rest), HooksOf(last), es);
    }
  }

  lemma {:induction false} DropsNone(es: seq<Event>)
    ensures Drops([], es) == []
    decreases es
  {
    if es != [] {
      DropsNone(es[1..]);
    }
  }

  lemma {:induction false} DropsSplit(a: seq<Link>, b: seq<Link>, es: seq<Event>)
    ensures Drops(a + b, es) == Drops(a, es) + Drops(b, es)
    decreases es
  {
    if es != [] {
      var e := es[0];
      WithoutConcat(a, b, e.hook);
      DropsSplit(if e.Unlinked? then Without(a, e.hook) else a,
                 if e.Unlinked? then Without(b, e.hook) else b, es[1..]);
    }
  }

  lemma DropsAllConcat(rings: seq<seq<Link>>, e: seq<Event>, f: seq<Event>)
    ensures DropsAll(rings, e + f) == DropsAll(DropsAll(rings, e), f)
  {
    forall k | 0 <= k < |rings| ensures DropsAll(rings, e + f)[k] == DropsAll(DropsAll(rings, e), f)[k] {
      DropsConcat(rings[k], e, f);
    }
  }

  lemma {:induction false} HooksOfSeparate(rings: seq<seq<Link>>)
    requires Separate(rings)
    ensures Whole(HooksOfAll(rings))
    ensures forall x :: x in HooksOfAll(rings) <==> x.isHook && !Outside(x, rings)
  {
    if rings != [] {
      var rest, last := rings[..|rings| - 1], rings[|rings| - 1];
      assert rings == rest + [last];
      SeparatePush(rest, last);
      HooksOfSeparate(rest);
      HooksMembers(last);
      OutsidePush(rest, last);
      DistinctConcat(HooksOfAll(rest), HooksOf(last));
    }
  }

  lemma OutsidePush(rings: seq<seq<Link>>, r: seq<Link>)
    ensures forall x :: Outside(x, rings + [r]) <==> Outside(x, rings) && x !in r
  {
    var all, n := rings + [r], |rings|;
    assert all[n] == r && forall k :: 0 <= k < n ==> all[k] == rings[k];
    forall x ensures Outside(x, all) <==> Outside(x, rings) && x !in r {
      if Outside(x, all) {
        assert x !in all[n];
        forall k | 0 <= k < n ensures x !in rings[k] {
          assert x !in all[k];
        }
      }
    }
  }

  lemma DistinctConcat(a: seq<Link>, b: seq<Link>)
    requires Whole(a) && Whole(b) && Apart(a, b)
    ensures Whole(a + b)
  {
    forall i, j | 0 <= i < j < |a + b| ensures (a + b)[i] != (a + b)[j] {
      assert i < |a| <= j ==> (a + b)[i] in a && (a + b)[j] in b;
    }
  }
}
