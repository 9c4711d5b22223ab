/** The hotplug monitor: a catalog whose changes are published to listeners that may come, go and
    re-enter at any time. */
module Monitor {
  import opened Catalog
  import opened EventTrace
  import opened EventHub

  class Monitor {
    const catalog: DeviceCatalog
    const hub: EventHub<Change>
    ghost const base: seq<Group>

    /** What was published turns the first listing into the present one, and a new listener is
        told the present listing. */
    ghost predicate Valid()
      reads this, catalog, hub
    {
      && catalog.Valid() && hub.Valid()
      && Replay(base, hub.sent) == Present(catalog.groups) && Steady(base, hub.sent)
      && (forall past: seq<Change> :: hub.greet(past) == Adds(Replay(base, past)))
    }

    ghost predicate Quiescent()
      reads hub
    {
      !hub.dispatching && hub.queue == []
    }

    constructor (scanned: seq<Group>)
      requires WellFormed(scanned)
      ensures Valid() && Quiescent() && fresh(catalog) && fresh(hub)
      ensures catalog.groups == scanned && hub.members == []
    {
      var start := Present(scanned);
      catalog := new DeviceCatalog(scanned);
      hub := new EventHub<Change>(past => Adds(Replay(start, past)));
      base := start;
      new;
      PresentMembers(scanned);
    }

    /** on_hotplug_event: re-scan, then publish the changes. Listener callbacks may register and
        leave; only the monitor publishes. */
    method OnHotplug(detached: seq<Subject>, read: ReadResult, replies: Replies<Change>)
      requires Valid() && Quiescent() && Quiet(replies) && (read.Ok? ==> WellFormed(read.groups))
      modifies catalog, hub
      ensures Valid() && Quiescent()
      ensures catalog.groups == if read.Ok? then read.groups else Detached(old(catalog.groups), detached)
      ensures Grown(old(hub.View()), hub.View())
    {
      var changes := catalog.Rescan(detached, read);
      hub.DispatchAll(changes, replies);
      FoldConcat(Apply, base, old(hub.sent), changes);
      SteadyConcat(base, old(hub.sent), changes);
    }

    /** add_listener: the greeting is the catalog's own listing. */
    method AddListener(replies: Replies<Change>) returns (id: nat)
      requires Valid() && Quiescent() && Quiet(replies)
      modifies hub
      ensures Valid() && Quiescent() && id == |old(hub.members)| < |hub.members|
      ensures Grown(old(hub.View()), hub.View())
      ensures hub.members[id].joined == |hub.sent| && hub.greet(hub.sent) == Adds(Present(catalog.groups))
    {
      id := hub.AddListener(replies);
    }

    /** What any listener has been told rebuilds exactly the catalog's groups, whenever it
        registered and whatever happened meanwhile. */
    lemma ListenersMirrorTheCatalog(l: nat)
      requires Valid() && Quiescent() && l < |hub.members| && hub.members[l].linked
      ensures Replay([], hub.members[l].seen) == Present(catalog.groups)
      ensures Mirrors(Fold(Register, map[], hub.members[l].seen), Present(catalog.groups))
    {
      var greet, sent := hub.greet, hub.sent;
      forall past | past <= sent
        ensures Fold(Apply, [], greet(past)) == Fold(Apply, base, past)
      {
        GreetingRebuilds(base, sent, past);
      }
      ReplicaIsCurrent(hub.View(), hub.greet, Apply, [], base, l);
      RegistryFollows(map[], [], hub.members[l].seen);
    }
  }

  /** A greeting at any point of the history rebuilds the state of that point. */
  lemma GreetingRebuilds(base: seq<Group>, sent: seq<Change>, past: seq<Change>)
    requires Steady(base, sent) && past <= sent
    ensures Replay([], Adds(Replay(base, past))) == Replay(base, past)
  {
    assert past + sent[|past|..] == sent;
    SteadyConcat(base, past, sent[|past|..]);
    ListingRebuilds(Replay(base, past));
  }
}
