/** The device rebuild protocol: main thread, data loop and rebuild worker exchange open
    devices through a one-slot command mailbox and a one-slot completion mailbox. A
    generation number and a takeover lease fence asynchronous rebuilds from synchronous
    changes.

    The three actors are modelled as one transition system. Every step is one atomic
    action of the source: a compare-and-swap on a mailbox, a closure run on the data
    loop, one blocking device call. A device is the number of its open descriptor; a
    closed placeholder device owns nothing and is `None`. */
module Rebuild {
  import opened Prelude

  type Dev = nat

  /** `fences` and its copies in requests are history: the number of synchronous changes
      (installs, releases, pauses, suspends) the port had seen when the request was made.
      No branch of the protocol reads it. */
  datatype Request = Request(generation: nat, fences: nat, retried: bool, retireFirst: Option<Dev>)

  datatype Outcome =
    | Installed(dev: Dev)
    | Aborted
    | RetireAndRetry(request: Request)
    | Failed

  datatype Swap = Swap(generation: nat, fences: nat, outcome: Outcome)

  datatype Work = Rebuild(request: Request) | RetireDevice(dev: Option<Dev>) | RetireSwap(swap: Swap)

  datatype OpenResult = Opened(dev: Dev) | Busy | Refused

  datatype Worker =
    | Parked                                        // not active
    | Taken(work: Work)                             // active, command moved out of the slot
    | Checking(request: Request)                    // retire_first closed, before the first check
    | Opening(request: Request)                     // first check passed, inside the blocking open
    | Checking2(request: Request, result: OpenResult)
    | Depositing(swap: Swap)
    | Finishing                                     // command done, still active

  datatype Loop =
    | Quiet
    | Polling                                       // poll_rebuild: deferred work flushed
    | Submitting(work: Work)                        // owns a command on its way out
    | Ordering                                      // queue_rebuild: deferred work flushed

  datatype Op = Install | Release | Pause | Suspend

  datatype Main =
    | Idle
    | StopPublished(op: Op, was: bool)              // Pause/Suspend: shared.started already false
    | Dropping(op: Op, deferred: Option<Work>, retired: Option<Dev>)
    | Discard1(op: Op, retired: Option<Dev>)
    | WaitIdle(op: Op, retired: Option<Dev>)
    | Discard2(op: Op, retired: Option<Dev>)
    | Configure(last: bool)                         // install_device: open and configure
    | Evict                                         // EBUSY: take the port's own device out
    | EvictClose(retired: Option<Dev>)
    | Exchange(newDev: Option<Dev>)                 // final swap of install_device
    | CloseOld(replaced: Option<Dev>, ok: bool)
    | Unlease(op: Op, ok: bool)                     // release_rebuild_takeover
    | StartPublish                                  // Start: data loop started, mirror not yet

  /** State owned by the data loop. */
  datatype Data = Data(port: Option<Dev>, configured: bool, generation: nat, pending: bool,
                       takeover: bool, deferred: Option<Work>, started: bool, loop: Loop)

  /** Atomics and mailboxes visible to all three threads. */
  datatype Shared = Shared(started: bool, generation: nat, slot: Option<Work>, completion: Option<Swap>)

  /** History: `watched` is any one descriptor and `closes` how often it was closed;
      `stopped` says that the last command was a successful Pause, Suspend or release of a
      stopped node. */
  datatype History = History(fences: nat, nextDev: nat, watched: Dev, closes: nat, stopped: bool)

  datatype State = State(data: Data, shared: Shared, worker: Worker, main: Main, past: History)

  // ---------------------------------------------------------------- device ownership

  function Bit(b: bool): nat { if b then 1 else 0 }

  // How often a place holds descriptor `d`.

  function InOpt(o: Option<Dev>, d: Dev): nat { Bit(o == Some(d)) }

  function InSwap(s: Swap, d: Dev): nat {
    match s.outcome
    case Installed(dev) => Bit(dev == d)
    case RetireAndRetry(r) => InOpt(r.retireFirst, d)
    case _ => 0
  }

  function InWork(w: Work, d: Dev): nat {
    match w
    case Rebuild(r) => InOpt(r.retireFirst, d)
    case RetireDevice(dev) => InOpt(dev, d)
    case RetireSwap(s) => InSwap(s, d)
  }

  function InSlot(w: Option<Work>, d: Dev): nat { if w.Some? then InWork(w.value, d) else 0 }

  function InMailbox(s: Option<Swap>, d: Dev): nat { if s.Some? then InSwap(s.value, d) else 0 }

  function InWorker(w: Worker, d: Dev): nat {
    match w
    case Taken(work) => InWork(work, d)
    case Checking(r) => InOpt(r.retireFirst, d)
    case Opening(r) => InOpt(r.retireFirst, d)
    case Checking2(r, res) => InOpt(r.retireFirst, d) + Bit(res == Opened(d))
    case Depositing(s) => InSwap(s, d)
    case _ => 0
  }

  function InLoop(l: Loop, d: Dev): nat { if l.Submitting? then InWork(l.work, d) else 0 }

  function InMain(m: Main, d: Dev): nat {
    match m
    case Dropping(_, w, o) => InSlot(w, d) + InOpt(o, d)
    case Discard1(_, o) => InOpt(o, d)
    case WaitIdle(_, o) => InOpt(o, d)
    case Discard2(_, o) => InOpt(o, d)
    case EvictClose(o) => InOpt(o, d)
    case Exchange(o) => InOpt(o, d)
    case CloseOld(o, _) => InOpt(o, d)
    case _ => 0
  }

  /** Owners of the watched descriptor over the whole system. */
  function Owners(s: State): nat {
    var d := s.past.watched;
    InOpt(s.data.port, d) + InSlot(s.data.deferred, d) + InSlot(s.shared.slot, d) + InMailbox(s.shared.completion, d)
    + InWorker(s.worker, d) + InLoop(s.data.loop, d) + InMain(s.main, d)
  }

  // ---------------------------------------------------------------- data loop steps

  function Goto(s: State, l: Loop): State { s.(data := s.data.(loop := l)) }

  /** try_submit: an occupied slot hands the command back, and it is retained. */
  function SubmitOrDefer(s: State, w: Work): State {
    if s.shared.slot.None?
    then s.(shared := s.shared.(slot := Some(w)), data := s.data.(loop := Quiet))
    else s.(data := s.data.(deferred := Some(w), loop := Quiet))
  }

  /** flush_deferred_work: `after` is where a successful flush continues. */
  function Flush(s: State, after: Loop): State {
    if s.data.deferred.None? then Goto(s, after)
    else if s.shared.slot.None?
    then s.(shared := s.shared.(slot := s.data.deferred),
            data := s.data.(deferred := None, loop := after))
    else s
  }

  ghost predicate BeginPoll(s: State, t: State) {
    && s.data.loop.Quiet? && s.data.started
    && t == (if s.data.takeover then s else Flush(s, Polling))
  }

  /** take_swap found nothing, or lost its race with a writer. */
  ghost predicate PollMiss(s: State, t: State) {
    s.data.loop.Polling? && t == Goto(s, Quiet)
  }

  /** The port after a new device, or none, took the place of its old one. */
  function Swapped(d: Data, dev: Option<Dev>): Data {
    d.(port := dev, configured := dev.Some?, generation := d.generation + 1, pending := false,
       loop := Submitting(RetireDevice(d.port)))
  }

  function Consume(d: Data, swap: Swap): Data {
    if swap.generation != d.generation then
      d.(loop := Submitting(RetireSwap(swap)))
    else
      match swap.outcome
      case Installed(dev) => Swapped(d, Some(dev))
      case Aborted => d.(pending := false, loop := Quiet)
      case RetireAndRetry(request) =>
        d.(port := None, loop := Submitting(Rebuild(request.(retireFirst := d.port))))
      case Failed => Swapped(d, None)
  }

  ghost predicate PollTake(s: State, t: State) {
    && s.data.loop.Polling? && s.shared.completion.Some?
    && var d := Consume(s.data, s.shared.completion.value);
       t == s.(data := d, shared := s.shared.(completion := None, generation := d.generation))
  }

  /** queue_rebuild; its callers have checked that no rebuild is pending. */
  ghost predicate BeginOrder(s: State, t: State) {
    && s.data.loop.Quiet? && s.data.started && !s.data.pending
    && t == (if s.data.takeover then s else Flush(s, Ordering))
  }

  ghost predicate Order(s: State, t: State) {
    && s.data.loop.Ordering?
    && t == if !s.data.configured then Goto(s, Quiet)
            else s.(data := s.data.(pending := true, loop := Submitting(Rebuild(
                      Request(s.data.generation, s.past.fences, false, None)))))
  }

  ghost predicate Submit(s: State, t: State) {
    s.data.loop.Submitting? && t == SubmitOrDefer(s, s.data.loop.work)
  }

  ghost predicate LoopStep(s: State, t: State) {
    || BeginPoll(s, t) || PollMiss(s, t) || PollTake(s, t)
    || BeginOrder(s, t) || Order(s, t) || Submit(s, t)
  }

  // ---------------------------------------------------------------- worker steps

  /** `n` of the values dropped here hold the watched descriptor. */
  function Close(s: State, n: nat): State { s.(past := s.past.(closes := s.past.closes + n)) }

  predicate IsCurrent(s: State, generation: nat) {
    s.shared.started && s.shared.generation == generation
  }

  ghost predicate Take(s: State, t: State) {
    && s.worker.Parked? && s.shared.slot.Some?
    && t == s.(shared := s.shared.(slot := None), worker := Taken(s.shared.slot.value))
  }

  /** Retirements close their device; a rebuild closes its retire_first device. */
  ghost predicate RunTaken(s: State, t: State) {
    && s.worker.Taken?
    && t == Close(s, InWork(s.worker.work, s.past.watched))
            .(worker := if s.worker.work.Rebuild?
                        then Checking(s.worker.work.request.(retireFirst := None))
                        else Finishing)
  }

  function Abort(r: Request): Worker { Depositing(Swap(r.generation, r.fences, Aborted)) }

  ghost predicate FirstCheck(s: State, t: State) {
    && s.worker.Checking?
    && var r := s.worker.request;
       t == s.(worker := if IsCurrent(s, r.generation) then Opening(r) else Abort(r))
  }

  /** try_open_configure: any of its three kinds of answer. */
  ghost predicate OpenDevice(s: State, t: State) {
    && s.worker.Opening?
    && var r := s.worker.request;
       || t == s.(worker := Checking2(r, Opened(s.past.nextDev)),
                  past := s.past.(nextDev := s.past.nextDev + 1))
       || t == s.(worker := Checking2(r, Busy))
       || t == s.(worker := Checking2(r, Refused))
  }

  function Answer(r: Request, result: OpenResult): Outcome {
    match result
    case Opened(d) => Installed(d)
    case Busy => if !r.retried then RetireAndRetry(r.(retried := true)) else Failed
    case Refused => Failed
  }

  ghost predicate SecondCheck(s: State, t: State) {
    && s.worker.Checking2?
    && var r := s.worker.request;
       t == if IsCurrent(s, r.generation)
            then s.(worker := Depositing(Swap(r.generation, r.fences, Answer(r, s.worker.result))))
            else Close(s, InWorker(s.worker, s.past.watched)).(worker := Abort(r))
  }

  /** DepositOnUnwind: a dying task drops what it owns and still deposits. */
  ghost predicate Panic(s: State, t: State) {
    && ((s.worker.Taken? && s.worker.work.Rebuild?)
        || s.worker.Checking? || s.worker.Opening? || s.worker.Checking2?)
    && var r := if s.worker.Taken? then s.worker.work.request else s.worker.request;
       t == Close(s, InWorker(s.worker, s.past.watched)).(worker := Abort(r))
  }

  /** The predecessor of a deposit, if any, is closed here on the worker. */
  ghost predicate Deposit(s: State, t: State) {
    && s.worker.Depositing?
    && t == Close(s, InMailbox(s.shared.completion, s.past.watched))
            .(shared := s.shared.(completion := Some(s.worker.swap)), worker := Finishing)
  }

  ghost predicate Finish(s: State, t: State) {
    s.worker.Finishing? && t == s.(worker := Parked)
  }

  ghost predicate WorkerStep(s: State, t: State) {
    || Take(s, t) || RunTaken(s, t) || FirstCheck(s, t) || OpenDevice(s, t)
    || SecondCheck(s, t) || Panic(s, t) || Deposit(s, t) || Finish(s, t)
  }

  // ---------------------------------------------------------------- main-thread steps

  /** What every fence does on the data loop before the main thread waits. */
  function Fence(s: State, d: Data, m: Main): State {
    s.(data := d.(takeover := true, deferred := None, pending := true,
                  generation := s.data.generation + 1),
       shared := s.shared.(generation := s.data.generation + 1),
       past := s.past.(fences := s.past.fences + 1, stopped := false),
       main := m)
  }

  ghost predicate BeginInstall(s: State, t: State) {
    && s.main.Idle? && s.data.loop.Quiet?
    && t == Fence(s, s.data, Dropping(Install, s.data.deferred, None))
  }

  ghost predicate BeginRelease(s: State, t: State) {
    && s.main.Idle? && s.data.loop.Quiet?
    && t == Fence(s, s.data.(port := None, configured := false),
                  Dropping(Release, s.data.deferred, s.data.port))
  }

  ghost predicate PublishStop(s: State, t: State) {
    && s.main.Idle?
    && exists op :: op in {Pause, Suspend} &&
         t == s.(shared := s.shared.(started := false), main := StopPublished(op, s.shared.started))
  }

  ghost predicate StopFence(s: State, t: State) {
    && s.main.StopPublished? && s.data.loop.Quiet?
    && t == if s.main.op.Suspend?
            then Fence(s, s.data.(started := false, port := None, configured := false),
                       Dropping(Suspend, s.data.deferred, s.data.port))
            else Fence(s, s.data.(started := false), Dropping(s.main.op, s.data.deferred, None))
  }

  /** The data loop never ran the stop: restore the mirror. */
  ghost predicate StopLost(s: State, t: State) {
    && s.main.StopPublished?
    && t == s.(shared := s.shared.(started := s.main.was), main := Idle)
  }

  ghost predicate DropDeferred(s: State, t: State) {
    && s.main.Dropping?
    && var m, d := s.main, s.past.watched;
       t == if m.op.Release?
            then Close(s, InSlot(m.deferred, d) + InOpt(m.retired, d)).(main := Discard1(m.op, None))
            else Close(s, InSlot(m.deferred, d)).(main := Discard1(m.op, m.retired))
  }

  function Discard(s: State, n: nat, m: Main): State {
    Close(s, InMailbox(s.shared.completion, s.past.watched) + n)
    .(shared := s.shared.(completion := None), main := m)
  }

  ghost predicate DiscardFirst(s: State, t: State) {
    s.main.Discard1? && t == Discard(s, 0, WaitIdle(s.main.op, s.main.retired))
  }

  /** wait_idle: the slot is empty and no command is active. */
  ghost predicate WorkerIdle(s: State, t: State) {
    && s.main.WaitIdle? && s.shared.slot.None? && s.worker.Parked?
    && t == s.(main := Discard2(s.main.op, s.main.retired))
  }

  ghost predicate DiscardSecond(s: State, t: State) {
    && s.main.Discard2?
    && t == Discard(s, InOpt(s.main.retired, s.past.watched),
                    if s.main.op.Install? then Configure(false) else Unlease(s.main.op, true))
  }

  ghost predicate OpenSync(s: State, t: State) {
    && s.main.Configure?
    && (|| t == s.(main := Exchange(Some(s.past.nextDev)),
                   past := s.past.(nextDev := s.past.nextDev + 1))
        || t == s.(main := if s.main.last then Exchange(None) else Evict)
        || t == s.(main := Exchange(None)))
  }

  ghost predicate EvictPort(s: State, t: State) {
    && s.main.Evict? && s.data.loop.Quiet?
    && t == s.(data := s.data.(port := None), main := EvictClose(s.data.port))
  }

  ghost predicate CloseEvicted(s: State, t: State) {
    && s.main.EvictClose?
    && t == Close(s, InOpt(s.main.retired, s.past.watched)).(main := Configure(true))
  }

  ghost predicate FinalSwap(s: State, t: State) {
    && s.main.Exchange? && s.data.loop.Quiet?
    && t == s.(data := s.data.(port := s.main.newDev, configured := s.main.newDev.Some?,
                               generation := s.data.generation + 1, pending := false,
                               takeover := false),
               shared := s.shared.(generation := s.data.generation + 1),
               past := s.past.(fences := s.past.fences + 1),
               main := CloseOld(s.data.port, true))
  }

  ghost predicate CloseRetired(s: State, t: State) {
    && s.main.CloseOld?
    && t == Close(s, InOpt(s.main.replaced, s.past.watched))
            .(main := if s.main.ok then Idle else Unlease(Install, false))
  }

  /** The data loop refused a closure in the middle of an install: the device the main
      thread holds is closed there and the lease is handed back. */
  ghost predicate InstallLost(s: State, t: State) {
    || (s.main.Evict? && t == s.(main := Unlease(Install, false)))
    || (s.main.Exchange? && t == s.(main := CloseOld(s.main.newDev, false)))
  }

  /** release_rebuild_takeover; a stop that gets here successfully returns zero. */
  ghost predicate ReturnLease(s: State, t: State) {
    && s.main.Unlease? && s.data.loop.Quiet?
    && t == s.(data := s.data.(takeover := false, pending := false), main := Idle,
               past := s.past.(stopped := s.main.ok && !s.data.started))
  }

  /** A dead loop cannot observe the release, and the lease is retained. */
  ghost predicate LeaseLost(s: State, t: State) {
    s.main.Unlease? && t == s.(main := Idle)
  }

  ghost predicate StartLoop(s: State, t: State) {
    && s.main.Idle? && s.data.loop.Quiet? && s.data.configured
    && t == s.(data := s.data.(started := true), past := s.past.(stopped := false),
               main := StartPublish)
  }

  ghost predicate PublishStart(s: State, t: State) {
    s.main.StartPublish? && t == s.(shared := s.shared.(started := true), main := Idle)
  }

  ghost predicate MainStep(s: State, t: State) {
    || BeginInstall(s, t) || BeginRelease(s, t) || PublishStop(s, t) || StopFence(s, t)
    || StopLost(s, t) || DropDeferred(s, t) || DiscardFirst(s, t) || WorkerIdle(s, t)
    || DiscardSecond(s, t) || OpenSync(s, t) || EvictPort(s, t) || CloseEvicted(s, t)
    || FinalSwap(s, t) || CloseRetired(s, t) || InstallLost(s, t) || ReturnLease(s, t)
    || LeaseLost(s, t) || StartLoop(s, t) || PublishStart(s, t)
  }

  ghost predicate Step(s: State, t: State) {
    (LoopStep(s, t) || WorkerStep(s, t) || MainStep(s, t)) && t.past.watched == s.past.watched
  }

  function Initial(watched: Dev): State {
    State(Data(None, false, 0, false, false, None, false, Quiet), Shared(false, 0, None, None),
          Parked, Idle, History(0, 0, watched, 0, false))
  }

  ghost predicate Run(states: seq<State>) {
    && |states| > 0 && states[0] == Initial(states[0].past.watched)
    && forall i :: 0 <= i < |states| - 1 ==> Step(states[i], states[i + 1])
  }

  // ---------------------------------------------------------------- the invariant

  /** Generation and fence count of the rebuild order or completion at one place. */
  type Token = Option<(nat, nat)>

  function WorkToken(w: Option<Work>): Token {
    if w.Some? && w.value.Rebuild?
    then Some((w.value.request.generation, w.value.request.fences)) else None
  }

  function WorkerToken(w: Worker): Token {
    match w
    case Taken(work) => WorkToken(Some(work))
    case Checking(r) => Some((r.generation, r.fences))
    case Opening(r) => Some((r.generation, r.fences))
    case Checking2(r, _) => Some((r.generation, r.fences))
    case Depositing(s) => Some((s.generation, s.fences))
    case _ => None
  }

  function SwapToken(c: Option<Swap>): Token {
    if c.Some? then Some((c.value.generation, c.value.fences)) else None
  }

  function LoopToken(l: Loop): Token {
    if l.Submitting? then WorkToken(Some(l.work)) else None
  }

  /** Rebuild orders and completions in flight. */
  function InFlight(s: State): nat {
    Bit(WorkToken(s.data.deferred).Some?) + Bit(WorkToken(s.shared.slot).Some?) + Bit(SwapToken(s.shared.completion).Some?)
    + Bit(WorkerToken(s.worker).Some?) + Bit(LoopToken(s.data.loop).Some?)
  }

  /** A token is never from the future; without a lease it is current. */
  predicate TokenOk(s: State, k: Token) {
    k.Some? ==>
      && k.value.0 <= s.data.generation && k.value.1 <= s.past.fences
      && (!s.data.takeover ==> k.value == (s.data.generation, s.past.fences))
  }

  /** A retry carries the generation of the completion that asks for it. */
  predicate SwapOk(s: Swap) {
    s.outcome.RetireAndRetry? ==>
      && s.outcome.request.generation == s.generation && s.outcome.request.fences == s.fences
      && s.outcome.request.retireFirst.None?
  }

  predicate Fencing(m: Main) { m.Dropping? || m.Discard1? || m.WaitIdle? }

  /** The tail of a Pause or Suspend, after its fence. */
  predicate Stopping(m: Main) {
    (m.Dropping? || m.Discard1? || m.WaitIdle? || m.Discard2? || m.Unlease?)
    && (m.op.Pause? || m.op.Suspend?)
  }

  predicate Leasing(m: Main) {
    || Fencing(m) || m.Discard2? || m.Configure? || m.Evict? || m.EvictClose? || m.Exchange?
    || (m.CloseOld? && !m.ok) || m.Unlease?
  }

  /** Nothing is in either mailbox, in the worker, or retained by the data loop. */
  predicate Drained(s: State) {
    s.shared.slot.None? && s.worker.Parked? && s.data.deferred.None? && s.shared.completion.None? && s.data.loop.Quiet?
  }

  /** Once opened, the watched descriptor has one owner until it is closed, once. */
  predicate OwnedOnce(s: State) { Owners(s) + s.past.closes == Bit(s.past.watched < s.past.nextDev) }

  predicate Control(s: State) {
    && s.shared.generation == s.data.generation
    && (s.data.takeover ==> s.data.pending && s.data.loop.Quiet? && s.data.deferred.None?)
    && (!s.data.loop.Quiet? ==> s.data.started && s.data.deferred.None?)
    && (s.data.loop.Ordering? ==> !s.data.pending)
    && (Leasing(s.main) ==> s.data.takeover)
    && (s.main.StartPublish? ==> s.data.started)
    && (s.main.StopPublished? ==> s.main.op.Pause? || s.main.op.Suspend?)
    && (Stopping(s.main) ==> !s.data.started)
    && (s.data.takeover && !Fencing(s.main) ==>
          s.shared.slot.None? && s.worker.Parked? && (s.shared.completion.None? || s.main.Discard2?))
    && (s.past.stopped ==>
          Drained(s) && !s.data.started && !s.data.takeover && (s.main.Idle? || s.main.StopPublished?))
    && (s.shared.completion.Some? ==> SwapOk(s.shared.completion.value))
    && (s.worker.Depositing? ==> SwapOk(s.worker.swap))
    && (s.worker.Checking? || s.worker.Opening? || s.worker.Checking2? ==>
          s.worker.request.retireFirst.None?)
  }

  predicate Fenced1(s: State) {
    && TokenOk(s, WorkToken(s.data.deferred)) && TokenOk(s, WorkToken(s.shared.slot))
    && TokenOk(s, SwapToken(s.shared.completion)) && TokenOk(s, WorkerToken(s.worker))
    && TokenOk(s, LoopToken(s.data.loop))
    && InFlight(s) <= 1
    && (!s.data.takeover ==> (s.data.pending <==> InFlight(s) == 1))
  }

  predicate Inv(s: State) { Control(s) && Fenced1(s) && OwnedOnce(s) }

  lemma FlushKeeps(s: State, after: Loop)
    requires Inv(s) && s.data.loop.Quiet? && s.data.started && !s.data.takeover
    requires after == Polling || (after == Ordering && !s.data.pending)
    ensures Inv(Flush(s, after))
  {
    if s.data.deferred.None? {
      ContinueKeeps(s, after);
    } else if s.shared.slot.None? {
      HandOverKeeps(s, after);
    }
  }

  lemma ContinueKeeps(s: State, after: Loop)
    requires Inv(s) && s.data.loop.Quiet? && s.data.started && !s.data.takeover && s.data.deferred.None?
    requires after == Polling || (after == Ordering && !s.data.pending)
    ensures Inv(Goto(s, after))
  {}

  lemma HandOverKeeps(s: State, after: Loop)
    requires Inv(s) && s.data.loop.Quiet? && s.data.started && !s.data.takeover
    requires s.data.deferred.Some? && s.shared.slot.None?
    requires after == Polling || (after == Ordering && !s.data.pending)
    ensures Inv(Flush(s, after))
  {}

  lemma PollKeeps(s: State, t: State)
    requires Inv(s) && (PollMiss(s, t) || PollTake(s, t))
    ensures Inv(t)
  {}

  lemma OrderKeeps(s: State, t: State)
    requires Inv(s) && Order(s, t)
    ensures Inv(t)
  {}

  lemma SubmitKeeps(s: State, t: State)
    requires Inv(s) && Submit(s, t) && s.shared.slot.None?
    ensures Inv(t)
  {}

  lemma DeferKeeps(s: State, t: State)
    requires Inv(s) && Submit(s, t) && s.shared.slot.Some?
    ensures Inv(t)
  {}

  lemma TakeKeeps(s: State, t: State)
    requires Inv(s) && Take(s, t)
    ensures Inv(t)
  {}

  lemma FinishKeeps(s: State, t: State)
    requires Inv(s) && Finish(s, t)
    ensures Inv(t)
  {}

  lemma FirstCheckKeeps(s: State, t: State)
    requires Inv(s) && FirstCheck(s, t)
    ensures Inv(t)
  {}

  lemma DepositKeeps(s: State, t: State)
    requires Inv(s) && Deposit(s, t)
    ensures Inv(t)
  {}

  lemma OpenKeeps(s: State, t: State)
    requires Inv(s) && OpenDevice(s, t)
    ensures Inv(t)
  {}

  lemma CheckKeeps(s: State, t: State)
    requires Inv(s) && SecondCheck(s, t)
    ensures Inv(t)
  {}

  lemma DropKeeps(s: State, t: State)
    requires Inv(s) && (RunTaken(s, t) || Panic(s, t))
    ensures Inv(t)
  {}

  lemma BeginKeeps(s: State, t: State)
    requires Inv(s) && (BeginInstall(s, t) || BeginRelease(s, t))
    ensures Inv(t)
  {}

  lemma PublishKeeps(s: State, t: State)
    requires Inv(s) && (PublishStop(s, t) || StopLost(s, t))
    ensures Inv(t)
  {}

  lemma StopKeeps(s: State, t: State)
    requires Inv(s) && StopFence(s, t)
    ensures Inv(t)
  {}

  lemma DropDeferredKeeps(s: State, t: State)
    requires Inv(s) && DropDeferred(s, t)
    ensures Inv(t)
  {}

  lemma DiscardFirstKeeps(s: State, t: State)
    requires Inv(s) && DiscardFirst(s, t)
    ensures Inv(t)
  {}

  lemma DrainedKeeps(s: State, t: State)
    requires Inv(s) && (WorkerIdle(s, t) || DiscardSecond(s, t))
    ensures Inv(t)
  {}

  lemma InstallKeeps(s: State, t: State)
    requires Inv(s) && (EvictPort(s, t) || CloseEvicted(s, t) || FinalSwap(s, t))
    ensures Inv(t)
  {}

  lemma ConfigureKeeps(s: State, t: State)
    requires Inv(s) && OpenSync(s, t)
    ensures Inv(t)
  {}

  lemma CloseRetiredKeeps(s: State, t: State)
    requires Inv(s) && CloseRetired(s, t)
    ensures Inv(t)
  {}

  lemma LostKeeps(s: State, t: State)
    requires Inv(s) && InstallLost(s, t)
    ensures Inv(t)
  {}

  lemma EndKeeps(s: State, t: State)
    requires Inv(s) && (ReturnLease(s, t) || LeaseLost(s, t))
    ensures Inv(t)
  {}

  lemma StartKeeps(s: State, t: State)
    requires Inv(s) && (StartLoop(s, t) || PublishStart(s, t))
    ensures Inv(t)
  {}

  lemma LoopKeeps(s: State, t: State)
    requires Inv(s) && LoopStep(s, t)
    ensures Inv(t)
  {
    if BeginPoll(s, t) {
      if !s.data.takeover {
        FlushKeeps(s, Polling);
      }
    } else if BeginOrder(s, t) {
      if !s.data.takeover {
        FlushKeeps(s, Ordering);
      }
    } else if PollMiss(s, t) || PollTake(s, t) {
      PollKeeps(s, t);
    } else if Order(s, t) {
      OrderKeeps(s, t);
    } else if s.shared.slot.None? {
      SubmitKeeps(s, t);
    } else {
      DeferKeeps(s, t);
    }
  }

  lemma WorkerKeeps(s: State, t: State)
    requires Inv(s) && WorkerStep(s, t)
    ensures Inv(t)
  {
    if Take(s, t) {
      TakeKeeps(s, t);
    } else if Finish(s, t) {
      FinishKeeps(s, t);
    } else if FirstCheck(s, t) {
      FirstCheckKeeps(s, t);
    } else if Deposit(s, t) {
      DepositKeeps(s, t);
    } else if OpenDevice(s, t) {
      OpenKeeps(s, t);
    } else if SecondCheck(s, t) {
      CheckKeeps(s, t);
    } else {
      DropKeeps(s, t);
    }
  }

  lemma MainKeeps(s: State, t: State)
    requires Inv(s) && MainStep(s, t)
    ensures Inv(t)
  {
    if BeginInstall(s, t) || BeginRelease(s, t) {
      BeginKeeps(s, t);
    } else if PublishStop(s, t) || StopLost(s, t) {
      PublishKeeps(s, t);
    } else if StopFence(s, t) {
      StopKeeps(s, t);
    } else if DropDeferred(s, t) {
      DropDeferredKeeps(s, t);
    } else if DiscardFirst(s, t) {
      DiscardFirstKeeps(s, t);
    } else if WorkerIdle(s, t) || DiscardSecond(s, t) {
      DrainedKeeps(s, t);
    } else if EvictPort(s, t) || CloseEvicted(s, t) || FinalSwap(s, t) {
      InstallKeeps(s, t);
    } else if OpenSync(s, t) {
      ConfigureKeeps(s, t);
    } else if CloseRetired(s, t) {
      CloseRetiredKeeps(s, t);
    } else if InstallLost(s, t) {
      LostKeeps(s, t);
    } else if ReturnLease(s, t) || LeaseLost(s, t) {
      EndKeeps(s, t);
    } else {
      StartKeeps(s, t);
    }
  }

  lemma StepKeeps(s: State, t: State)
    requires Inv(s) && Step(s, t)
    ensures Inv(t)
  {
    if LoopStep(s, t) {
      LoopKeeps(s, t);
    } else if WorkerStep(s, t) {
      WorkerKeeps(s, t);
    } else {
      MainKeeps(s, t);
    }
  }

  /** The invariant holds in every state of every interleaving. */
  lemma {:induction false} RunKeepsInv(states: seq<State>, i: nat)
    requires Run(states) && i < |states|
    ensures Inv(states[i]) && states[i].past.watched == states[0].past.watched
  {
    if i > 0 {
      RunKeepsInv(states, i - 1);
      assert Step(states[i - 1], states[i]);
      StepKeeps(states[i - 1], states[i]);
    }
  }

  lemma LoopClosesNothing(s: State, t: State)
    requires LoopStep(s, t)
    ensures t.past.closes == s.past.closes && t.past.nextDev == s.past.nextDev
  {
    if BeginPoll(s, t) {
    } else if PollMiss(s, t) {
    } else if PollTake(s, t) {
    } else if BeginOrder(s, t) {
    } else if Order(s, t) {
    }
  }

  // ---------------------------------------------------------------- main results

  /** Every opened descriptor has exactly one owner until it is closed, it is closed at most
      once, and the data loop never closes one. */
  lemma EveryDeviceHasOneOwner(states: seq<State>, i: nat)
    requires Run(states) && i < |states|
    ensures var s := states[i];
            if s.past.watched < s.past.nextDev && s.past.closes == 0 then Owners(s) == 1
            else Owners(s) == 0 && s.past.closes == Bit(s.past.watched < s.past.nextDev)
    ensures i + 1 < |states| && LoopStep(states[i], states[i + 1]) ==>
              states[i + 1].past.closes == states[i].past.closes && Owners(states[i + 1]) == Owners(states[i])
  {
    RunKeepsInv(states, i);
    OwnedMeansOne(states[i]);
    if i + 1 < |states| && LoopStep(states[i], states[i + 1]) {
      RunKeepsInv(states, i + 1);
      LoopClosesNothing(states[i], states[i + 1]);
      OwnersConserved(states[i], states[i + 1]);
    }
  }

  lemma OwnedMeansOne(s: State)
    requires OwnedOnce(s)
    ensures if s.past.watched < s.past.nextDev && s.past.closes == 0 then Owners(s) == 1
            else Owners(s) == 0 && s.past.closes == Bit(s.past.watched < s.past.nextDev)
  {}

  lemma OwnersConserved(s: State, t: State)
    requires OwnedOnce(s) && OwnedOnce(t) && t.past.closes == s.past.closes
    requires t.past.nextDev == s.past.nextDev && t.past.watched == s.past.watched
    ensures Owners(t) == Owners(s)
  {}

  /** While a lease is held a cycle is a no-op: it consumes no completion and queues nothing. */
  lemma LeaseStopsTheCycle(states: seq<State>, i: nat)
    requires Run(states) && i + 1 < |states|
    requires states[i].data.takeover && LoopStep(states[i], states[i + 1])
    ensures states[i].data.pending && states[i + 1] == states[i]
  {
    RunKeepsInv(states, i);
  }

  /** A pending port always has exactly one order or completion of its current generation in
      flight, so the flag is never stranded and no order is ever duplicated; the single
      deferred cell is free whenever a command is submitted. */
  lemma PendingIsNeverStranded(states: seq<State>, i: nat)
    requires Run(states) && i < |states|
    ensures var s := states[i];
            && InFlight(s) <= 1
            && (!s.data.takeover ==> (s.data.pending <==> InFlight(s) == 1))
            && (s.data.loop.Submitting? || s.data.loop.Ordering? ==> s.data.deferred.None?)
    ensures var s := states[i];
            !s.data.takeover ==>
              (forall k | k in {WorkToken(s.data.deferred), WorkToken(s.shared.slot), SwapToken(s.shared.completion),
                                WorkerToken(s.worker), LoopToken(s.data.loop)} && k.Some? ::
                 k.value.0 == s.data.generation)
  {
    RunKeepsInv(states, i);
  }

  lemma LoopPending(s: State, t: State)
    requires LoopStep(s, t) && t.data.pending && !t.data.takeover
    ensures (s.data.loop.Ordering? || s.data.pending) && !s.data.takeover && s.past.fences == t.past.fences
  {
    if BeginPoll(s, t) {
    } else if PollMiss(s, t) {
    } else if PollTake(s, t) {
    } else if BeginOrder(s, t) {
    } else if Order(s, t) {
    }
  }

  lemma WorkerPending(s: State, t: State)
    requires WorkerStep(s, t)
    ensures t.data.pending == s.data.pending && t.data.takeover == s.data.takeover && t.past.fences == s.past.fences
  {
    if Take(s, t) {
    } else if RunTaken(s, t) {
    } else if FirstCheck(s, t) {
    } else if OpenDevice(s, t) {
    } else if SecondCheck(s, t) {
    } else if Panic(s, t) {
    } else if Deposit(s, t) {
    }
  }

  lemma MainPending(s: State, t: State)
    requires Control(s) && MainStep(s, t) && t.data.pending && !t.data.takeover
    ensures s.data.pending && !s.data.takeover && s.past.fences == t.past.fences
  {
    if BeginInstall(s, t) {
    } else if BeginRelease(s, t) {
    } else if PublishStop(s, t) {
    } else if StopFence(s, t) {
    } else if StopLost(s, t) {
    } else if DropDeferred(s, t) {
    } else if DiscardFirst(s, t) {
    } else if WorkerIdle(s, t) {
    } else if DiscardSecond(s, t) {
    } else if OpenSync(s, t) {
    } else if EvictPort(s, t) {
    } else if CloseEvicted(s, t) {
    } else if FinalSwap(s, t) {
    } else if CloseRetired(s, t) {
    } else if InstallLost(s, t) {
    } else if ReturnLease(s, t) {
    } else if LeaseLost(s, t) {
    } else if StartLoop(s, t) {
    }
  }

  lemma StepPending(s: State, t: State)
    requires Inv(s) && Step(s, t) && t.data.pending && !t.data.takeover
    ensures !s.data.takeover && s.past.fences == t.past.fences && (s.data.pending || s.data.loop.Ordering?)
  {
    if LoopStep(s, t) {
      LoopPending(s, t);
    } else if WorkerStep(s, t) {
      WorkerPending(s, t);
    } else {
      MainPending(s, t);
    }
  }

  lemma PendingBefore(states: seq<State>, i: nat)
    requires Run(states) && 0 < i < |states|
    requires states[i].data.pending && !states[i].data.takeover
    ensures var s := states[i - 1];
            && !s.data.takeover && s.past.fences == states[i].past.fences
            && (s.data.pending || s.data.loop.Ordering?)
  {
    RunKeepsInv(states, i - 1);
    assert Step(states[i - 1], states[i]);
    StepPending(states[i - 1], states[i]);
  }

  ghost predicate PendingHistory(states: seq<State>) {
    && |states| > 0 && !states[0].data.pending
    && forall i :: 0 < i < |states| && states[i].data.pending && !states[i].data.takeover ==>
         var s := states[i - 1];
         && !s.data.takeover && s.past.fences == states[i].past.fences
         && (s.data.pending || (s.data.loop.Ordering? && !s.data.pending))
  }

  lemma {:induction false} LastOrder(states: seq<State>, i: nat) returns (j: nat)
    requires PendingHistory(states) && i < |states|
    requires states[i].data.pending && !states[i].data.takeover
    ensures j < i && states[j].data.loop.Ordering? && !states[j].data.pending
    ensures forall k :: j < k <= i ==> states[k].data.pending && !states[k].data.takeover
    ensures forall k :: j <= k <= i ==> states[k].past.fences == states[i].past.fences
  {
    if states[i - 1].data.pending {
      j := LastOrder(states, i - 1);
    } else {
      j := i - 1;
    }
  }

  /** Only an order makes a port pending without a lease. */
  lemma OrderMakesPending(s: State, t: State)
    requires Inv(s) && Step(s, t) && !s.data.pending && t.data.pending && !t.data.takeover
    ensures Order(s, t)
  {
    if LoopStep(s, t) {
      if BeginPoll(s, t) {
      } else if PollMiss(s, t) {
      } else if PollTake(s, t) {
      } else if BeginOrder(s, t) {
      } else if Submit(s, t) {
      }
    } else if WorkerStep(s, t) {
      WorkerPending(s, t);
    } else {
      MainPending(s, t);
    }
  }

  /** Generation fence: the completion the data loop consumes at `i` answers the order placed at
      `j`, the only one since, and from `j` to `i` no install, release, pause or suspend took
      effect and no lease was held, in any interleaving of the three threads. */
  lemma NoStaleCompletion(states: seq<State>, i: nat) returns (j: nat)
    requires Run(states) && i + 1 < |states| && PollTake(states[i], states[i + 1])
    ensures states[i].shared.completion.value.generation == states[i].data.generation
    ensures j < i && states[i].shared.completion.value.fences == states[j].past.fences
    ensures Order(states[j], states[j + 1]) && forall k :: j < k <= i ==> !states[k].data.loop.Ordering?
    ensures forall k :: j < k <= i ==> states[k].data.pending && !states[k].data.takeover
    ensures forall k :: j <= k <= i ==> states[k].past.fences == states[i].past.fences
  {
    RunKeepsInv(states, i);
    assert PendingHistory(states) by {
      forall k | 0 < k < |states| && states[k].data.pending && !states[k].data.takeover
        ensures var s := states[k - 1];
                && !s.data.takeover && s.past.fences == states[k].past.fences
                && (s.data.pending || (s.data.loop.Ordering? && !s.data.pending))
      {
        PendingBefore(states, k);
      }
    }
    j := LastOrder(states, i);
    OrderedAt(states, j);
    forall k | j < k <= i ensures !states[k].data.loop.Ordering? {
      RunKeepsInv(states, k);
    }
  }

  lemma OrderedAt(states: seq<State>, j: nat)
    requires Run(states) && j + 1 < |states|
    requires !states[j].data.pending && states[j + 1].data.pending && !states[j + 1].data.takeover
    ensures Order(states[j], states[j + 1])
  {
    RunKeepsInv(states, j);
    assert Step(states[j], states[j + 1]);
    OrderMakesPending(states[j], states[j + 1]);
  }

  /** What the data loop makes of a completion it consumes: a new device takes the port's place and the
      old one is on its way to the worker to be closed; a failure leaves the port empty, with the old
      device on its way out; an aborted order changes the port in nothing but that it is free again; a
      device that was busy takes the old one out and tries once more, the port still pending. */
  lemma ConsumedTakesEffect(states: seq<State>, i: nat)
    requires Run(states) && i + 1 < |states| && PollTake(states[i], states[i + 1])
    ensures var s, t := states[i], states[i + 1];
            && t.shared.completion.None? && t.shared.slot == s.shared.slot && t.worker == s.worker && t.main == s.main
            && t.shared.generation == t.data.generation && t.shared.started == s.shared.started
            && t.data.started == s.data.started && t.data.deferred == s.data.deferred && t.past == s.past
            && !t.data.takeover
            && match s.shared.completion.value.outcome
               case Installed(d) =>
                 && t.data.port == Some(d) && t.data.configured && !t.data.pending
                 && t.data.generation == s.data.generation + 1
                 && t.data.loop == Submitting(RetireDevice(s.data.port))
               case Failed =>
                 && t.data.port == None && !t.data.configured && !t.data.pending
                 && t.data.generation == s.data.generation + 1
                 && t.data.loop == Submitting(RetireDevice(s.data.port))
               case Aborted =>
                 && t.data.port == s.data.port && t.data.configured == s.data.configured && !t.data.pending
                 && t.data.generation == s.data.generation && t.data.loop == Quiet
               case RetireAndRetry(r) =>
                 && t.data.port == None && t.data.configured == s.data.configured && t.data.pending
                 && t.data.generation == s.data.generation
                 && t.data.loop == Submitting(Rebuild(Request(r.generation, r.fences, r.retried, s.data.port)))
  {
    RunKeepsInv(states, i);
  }

  /** Under takeover, and behind a retained command that still does not fit the worker's slot, a turn changes
      nothing; otherwise the retained command goes to the worker first and the turn goes on. */
  predicate Begun(s: State, t: State, turn: Loop) {
    if s.data.takeover || (s.data.deferred.Some? && s.shared.slot.Some?) then t == s
    else
      && t == s.(data := t.data, shared := t.shared) && t.data == s.data.(deferred := None, loop := turn)
      && t.shared == s.shared.(slot := if s.data.deferred.Some? then s.data.deferred else s.shared.slot)
  }

  lemma TurnsBegin(s: State, t: State)
    ensures BeginPoll(s, t) ==> Begun(s, t, Polling)
    ensures BeginOrder(s, t) ==> Begun(s, t, Ordering)
  {}

  /** A command the data loop submits is in the worker's slot or retained, and nothing is overwritten. */
  lemma SubmittedIsKept(states: seq<State>, i: nat)
    requires Run(states) && i + 1 < |states| && Submit(states[i], states[i + 1])
    ensures var s, t := states[i], states[i + 1];
            && t.data.loop == Quiet && t.data.port == s.data.port && t.data.pending == s.data.pending
            && s.data.deferred.None?
            && if s.shared.slot.None? then t.shared.slot == Some(s.data.loop.work) && t.data.deferred.None?
               else t.shared.slot == s.shared.slot && t.data.deferred == Some(s.data.loop.work)
  {
    RunKeepsInv(states, i);
  }

  /** What the worker answers once its open has returned: only a request that is still current keeps the
      device it opened; a busy device is tried once more, and only once. */
  lemma WorkerAnswers(s: State, t: State)
    requires SecondCheck(s, t)
    ensures var r, current := s.worker.request, s.shared.started && s.shared.generation == s.worker.request.generation;
            && t.worker.Depositing? && t.worker.swap.generation == r.generation && t.worker.swap.fences == r.fences
            && t.worker.swap.outcome ==
                 (if !current then Aborted
                  else match s.worker.result
                       case Opened(d) => Installed(d)
                       case Busy => if r.retried then Failed
                                    else RetireAndRetry(Request(r.generation, r.fences, true, r.retireFirst))
                       case Refused => Failed)
            && t.data == s.data && t.shared == s.shared && t.main == s.main
  {}

  /** A synchronous install that reaches its swap puts exactly what it opened into the port, hands the
      lease back, and holds the device it replaced. */
  lemma InstallTakesEffect(s: State, t: State)
    requires FinalSwap(s, t)
    ensures t.data.port == s.main.newDev && (t.data.configured <==> s.main.newDev.Some?)
    ensures t.data.generation == t.shared.generation == s.data.generation + 1
    ensures !t.data.pending && !t.data.takeover && t.main == CloseOld(s.data.port, true)
    ensures t.worker == s.worker && t.shared.slot == s.shared.slot && t.shared.completion == s.shared.completion
  {}

  /** A release takes the device out, with the port unconfigured and fenced off. */
  lemma ReleaseTakesEffect(s: State, t: State)
    requires BeginRelease(s, t)
    ensures t.data.port == None && !t.data.configured && t.data.takeover && t.data.pending && t.data.deferred.None?
    ensures t.data.generation == t.shared.generation == s.data.generation + 1
    ensures t.main == Dropping(Release, s.data.deferred, s.data.port)
  {}

  /** A stop reaches the data loop: it stops cycling, and a suspend takes the device and its configuration. */
  lemma StopTakesEffect(s: State, t: State)
    requires StopFence(s, t)
    ensures !t.data.started && t.data.takeover && t.data.pending && t.data.deferred.None?
    ensures t.data.generation == t.shared.generation == s.data.generation + 1
    ensures if s.main.op.Suspend? then t.data.port == None && !t.data.configured && t.main.retired == s.data.port
            else t.data.port == s.data.port && t.data.configured == s.data.configured && t.main.retired == None
    ensures t.main.Dropping? && t.main.op == s.main.op && t.main.deferred == s.data.deferred
  {}

  /** How a synchronous change goes on: an install tries to open, evicts the port's device if that was busy,
      once at most, and is the only one to fail by itself; a stop or a release is done when the mailboxes are. */
  lemma CommandProceeds(s: State, t: State)
    ensures DiscardSecond(s, t) ==>
              t.main == if s.main.op == Install then Configure(false) else Unlease(s.main.op, true)
    ensures OpenSync(s, t) ==> t.main.Exchange? || (t.main.Evict? && !s.main.last)
    ensures OpenSync(s, t) && t.main.Exchange? && t.main.newDev.Some? ==>
              t.main.newDev.value == s.past.nextDev < t.past.nextDev
    ensures CloseEvicted(s, t) ==> t.main == Configure(true)
    ensures InstallLost(s, t) && s.main.Evict? ==> t.main == Unlease(Install, false)
    ensures InstallLost(s, t) && s.main.Exchange? ==> t.main == CloseOld(s.main.newDev, false)
    ensures CloseRetired(s, t) ==> t.main == if s.main.ok then Idle else Unlease(Install, false)
    ensures StopLost(s, t) || PublishStart(s, t) || ReturnLease(s, t) || LeaseLost(s, t) ==> t.main == Idle
  {}

  /** An order goes out for a configured port only, with its generation, untried and without a device; it
      makes the port pending. */
  lemma OrderTakesEffect(s: State, t: State)
    requires Order(s, t)
    ensures if s.data.configured then
              && t.data.pending
              && t.data.loop == Submitting(Rebuild(Request(s.data.generation, s.past.fences, false, None)))
            else t.data.pending == s.data.pending && t.data.loop == Quiet
    ensures t.data.port == s.data.port && t.shared == s.shared && t.worker == s.worker
  {}

  /** The worker opens a device only while the node is started and the request's generation is current. */
  lemma OpensOnlyIfCurrent(s: State, t: State)
    requires FirstCheck(s, t)
    ensures if s.shared.started && s.shared.generation == s.worker.request.generation then
              t.worker == Opening(s.worker.request)
            else t.worker == Depositing(Swap(s.worker.request.generation, s.worker.request.fences, Aborted))
    ensures t.past == s.past && t.data == s.data && t.shared == s.shared
  {}

  /** What the worker is told of the data loop's state. */
  ghost predicate Mirrored(s: State) {
    if s.main.StopPublished? then !s.shared.started && s.main.was == s.data.started
    else if s.main.StartPublish? then s.data.started
    else s.shared.started == s.data.started
  }

  lemma StepMirrors(s: State, t: State)
    requires Mirrored(s) && Step(s, t)
    ensures Mirrored(t)
  {
    if LoopStep(s, t) {
      LoopLeavesWorker(s, t);
    } else if WorkerStep(s, t) {
      WorkerLeavesStarted(s, t);
    } else {
      MainMirrors(s, t);
    }
  }

  lemma WorkerLeavesStarted(s: State, t: State)
    requires WorkerStep(s, t)
    ensures t.data == s.data && t.main == s.main && t.shared.started == s.shared.started
  {}

  lemma MainMirrors(s: State, t: State)
    requires Mirrored(s) && MainStep(s, t)
    ensures Mirrored(t)
  {}

  /** The flag that tells the worker whether the node runs is right in every state in which no start or stop
      is under way, also after a stop that the data loop never ran. */
  lemma {:induction false} WorkerKnowsIfStarted(states: seq<State>, i: nat)
    requires Run(states) && i < |states|
    ensures Mirrored(states[i])
    ensures states[i].main.Idle? ==> states[i].shared.started == states[i].data.started
  {
    if i > 0 {
      WorkerKnowsIfStarted(states, i - 1);
      assert Step(states[i - 1], states[i]);
      StepMirrors(states[i - 1], states[i]);
    }
  }

  /** For an order with this generation and fence count the worker opened device `d`, before `i`. */
  ghost predicate OpenedFor(states: seq<State>, i: nat, generation: nat, fences: nat, d: Dev) {
    exists k :: 0 <= k < i < |states| && OpenedAt(states[k], states[k + 1], generation, fences, d)
  }

  ghost predicate OpenedAt(s: State, t: State, generation: nat, fences: nat, d: Dev) {
    && s.worker.Opening? && s.worker.request.generation == generation && s.worker.request.fences == fences
    && t.worker == Checking2(s.worker.request, Opened(d)) && d == s.past.nextDev && t.past.nextDev == d + 1
  }

  lemma OpenedEarlier(states: seq<State>, i: nat, generation: nat, fences: nat, d: Dev)
    requires i + 1 < |states| && OpenedFor(states, i, generation, fences, d)
    ensures OpenedFor(states, i + 1, generation, fences, d)
  {
    var k :| 0 <= k < i < |states| && OpenedAt(states[k], states[k + 1], generation, fences, d);
  }

  /** Where a device on its way to the port can have come from in one step. */
  ghost predicate HandedOn(s: State, t: State) {
    && (t.worker.Checking2? && t.worker.result.Opened? ==>
          t.worker == s.worker
          || OpenedAt(s, t, t.worker.request.generation, t.worker.request.fences, t.worker.result.dev))
    && (t.worker.Depositing? && t.worker.swap.outcome.Installed? ==>
          t.worker == s.worker
          || (s.worker.Checking2? && s.worker.result == Opened(t.worker.swap.outcome.dev)
              && s.worker.request.generation == t.worker.swap.generation
              && s.worker.request.fences == t.worker.swap.fences))
    && (t.shared.completion.Some? ==>
          t.shared.completion == s.shared.completion || s.worker == Depositing(t.shared.completion.value))
  }

  lemma StepProvenance(s: State, t: State)
    requires Step(s, t)
    ensures HandedOn(s, t)
  {
    if LoopStep(s, t) {
      LoopLeavesWorker(s, t);
    } else if WorkerStep(s, t) {
      WorkerProvenance(s, t);
    } else {
      MainLeavesWorker(s, t);
    }
  }

  lemma LoopLeavesWorker(s: State, t: State)
    requires LoopStep(s, t)
    ensures t.worker == s.worker && (t.shared.completion.Some? ==> t.shared.completion == s.shared.completion)
  {
    if BeginPoll(s, t) {
    } else if PollMiss(s, t) {
    } else if PollTake(s, t) {
    } else if BeginOrder(s, t) {
    } else if Order(s, t) {
    }
  }

  lemma WorkerProvenance(s: State, t: State)
    requires WorkerStep(s, t)
    ensures t.worker.Checking2? ==>
              t.worker.result.Opened? ==>
                OpenedAt(s, t, t.worker.request.generation, t.worker.request.fences, t.worker.result.dev)
    ensures t.worker.Depositing? && t.worker.swap.outcome.Installed? ==>
              s.worker.Checking2? && s.worker.result == Opened(t.worker.swap.outcome.dev)
              && s.worker.request.generation == t.worker.swap.generation
              && s.worker.request.fences == t.worker.swap.fences
    ensures t.shared.completion.Some? ==>
              t.shared.completion == s.shared.completion || s.worker == Depositing(t.shared.completion.value)
  {
    if Take(s, t) {
    } else if RunTaken(s, t) {
    } else if FirstCheck(s, t) {
    } else if OpenDevice(s, t) {
    } else if SecondCheck(s, t) {
    } else if Panic(s, t) {
    } else if Deposit(s, t) {
    }
  }

  lemma MainLeavesWorker(s: State, t: State)
    requires MainStep(s, t)
    ensures t.worker == s.worker && (t.shared.completion.Some? ==> t.shared.completion == s.shared.completion)
  {
    if BeginInstall(s, t) {
    } else if BeginRelease(s, t) {
    } else if PublishStop(s, t) {
    } else if StopFence(s, t) {
    } else if StopLost(s, t) {
    } else if DropDeferred(s, t) {
    } else if DiscardFirst(s, t) {
    } else if WorkerIdle(s, t) {
    } else if DiscardSecond(s, t) {
    } else if OpenSync(s, t) {
    } else if EvictPort(s, t) {
    } else if CloseEvicted(s, t) {
    } else if FinalSwap(s, t) {
    } else if CloseRetired(s, t) {
    } else if InstallLost(s, t) {
    } else if ReturnLease(s, t) {
    } else if LeaseLost(s, t) {
    } else if StartLoop(s, t) {
    }
  }

  /** A device in the worker's hands or in the completion mailbox was opened for its own order. */
  ghost predicate AllOpenedFor(states: seq<State>, i: nat)
    requires i < |states|
  {
    var w, c := states[i].worker, states[i].shared.completion;
    && (w.Checking2? && w.result.Opened? ==>
          OpenedFor(states, i, w.request.generation, w.request.fences, w.result.dev))
    && (w.Depositing? && w.swap.outcome.Installed? ==>
          OpenedFor(states, i, w.swap.generation, w.swap.fences, w.swap.outcome.dev))
    && (c.Some? && c.value.outcome.Installed? ==>
          OpenedFor(states, i, c.value.generation, c.value.fences, c.value.outcome.dev))
  }

  lemma {:induction false} Provenance(states: seq<State>, i: nat)
    requires Run(states) && i < |states|
    ensures AllOpenedFor(states, i)
  {
    if i > 0 {
      Provenance(states, i - 1);
      StepProvenance(states[i - 1], states[i]);
      ProvenanceStep(states, i);
    }
  }

  lemma ProvenanceStep(states: seq<State>, i: nat)
    requires 0 < i < |states| && AllOpenedFor(states, i - 1) && HandedOn(states[i - 1], states[i])
    ensures AllOpenedFor(states, i)
  {
    CarryProvenance(states, i - 1);
  }

  lemma CarryProvenance(states: seq<State>, i: nat)
    requires i + 1 < |states|
    ensures forall g, f, d :: OpenedFor(states, i, g, f, d) ==> OpenedFor(states, i + 1, g, f, d)
    ensures forall g, f, d {:trigger OpenedFor(states, i + 1, g, f, d)} ::
      OpenedAt(states[i], states[i + 1], g, f, d) ==> OpenedFor(states, i + 1, g, f, d)
  {
    forall g, f, d | OpenedFor(states, i, g, f, d) ensures OpenedFor(states, i + 1, g, f, d) {
      OpenedEarlier(states, i, g, f, d);
    }
  }

  /** The device that a consumed completion puts into the port is one the worker opened for that very
      order: with its generation, which is the port's, and its fence count, which is the current one. */
  lemma InstalledWasOpenedForItsOrder(states: seq<State>, i: nat) returns (k: nat)
    requires Run(states) && i + 1 < |states| && PollTake(states[i], states[i + 1])
    requires states[i].shared.completion.value.outcome.Installed?
    ensures k < i && states[k].worker.Opening? && states[k].worker.request.generation == states[i].data.generation
    ensures states[k].worker.request.fences == states[i].past.fences
    ensures states[k + 1].worker.Checking2? && states[k + 1].worker.result.Opened?
    ensures states[i + 1].data.port == Some(states[k + 1].worker.result.dev)
    ensures states[k].past.nextDev == states[k + 1].worker.result.dev < states[k + 1].past.nextDev
  {
    Provenance(states, i);
    ConsumedTakesEffect(states, i);
    RunKeepsInv(states, i);
    var c := states[i].shared.completion.value;
    k :| 0 <= k < i && OpenedAt(states[k], states[k + 1], c.generation, c.fences, c.outcome.dev);
  }

  /** `fences` moves exactly when a synchronous change takes effect on the data loop. */
  lemma FencesCountChanges(s: State, t: State)
    requires MainStep(s, t)
    ensures t.past.fences == s.past.fences
              + Bit(BeginInstall(s, t) || BeginRelease(s, t) || StopFence(s, t) || FinalSwap(s, t))
  {
    if s.main.Idle? || s.main.StopPublished? {
    } else if s.main.Exchange? {
    } else {
    }
  }

  /** A Pause or Suspend that returns zero leaves both mailboxes, the worker, the deferred
      cell and the lease empty. */
  lemma StopReturnsQuiet(states: seq<State>, i: nat)
    requires Run(states) && i + 1 < |states| && ReturnLease(states[i], states[i + 1])
    requires states[i].main.ok && Stopping(states[i].main)
    ensures states[i + 1].past.stopped && Drained(states[i + 1])
    ensures !states[i + 1].data.takeover && !states[i + 1].data.pending && !states[i + 1].data.started
  {
    RunKeepsInv(states, i);
  }

  lemma StoppedStep(s: State, t: State)
    requires Inv(s) && s.past.stopped && Step(s, t)
    requires t.past.fences == s.past.fences && !t.data.started
    ensures t.past.stopped && t.data.port == s.data.port
  {}

  ghost predicate StoppedHistory(states: seq<State>) {
    forall i :: 0 < i < |states| && states[i - 1].past.stopped
                && states[i].past.fences == states[i - 1].past.fences && !states[i].data.started ==>
      states[i].past.stopped && states[i].data.port == states[i - 1].data.port
  }

  lemma RunStops(states: seq<State>)
    requires Run(states)
    ensures StoppedHistory(states)
  {
    forall i | 0 < i < |states| && states[i - 1].past.stopped
               && states[i].past.fences == states[i - 1].past.fences && !states[i].data.started
      ensures states[i].past.stopped && states[i].data.port == states[i - 1].data.port
    {
      var s, t := states[i - 1], states[i];
      assert Inv(s) && Step(s, t) by {
        RunKeepsInv(states, i - 1);
      }
      StoppedStep(s, t);
    }
  }

  lemma {:induction false} StaysStopped(states: seq<State>, i: nat, j: nat)
    requires StoppedHistory(states) && i <= j < |states| && states[i].past.stopped
    requires forall k :: i <= k <= j ==>
               states[k].past.fences == states[i].past.fences && !states[k].data.started
    ensures states[j].past.stopped && states[j].data.port == states[i].data.port
  {
    if i < j {
      StaysStopped(states, i, j - 1);
    }
  }

  /** ... and they stay empty, with the port unchanged, until the node is started again or
      another install, release or stop takes effect. */
  lemma StoppedNodeStaysQuiet(states: seq<State>, i: nat, j: nat)
    requires Run(states) && i <= j < |states| && states[i].past.stopped
    requires forall k :: i <= k <= j ==>
               states[k].past.fences == states[i].past.fences && !states[k].data.started
    ensures states[j].past.stopped && Drained(states[j])
    ensures !states[j].data.takeover && !states[j].data.pending
    ensures states[j].data.port == states[i].data.port
  {
    RunStops(states);
    StaysStopped(states, i, j);
    RunKeepsInv(states, j);
  }

  /** Commands the worker still has to finish before wait_idle can return. */
  function WorkLeft(s: State): nat {
    (if s.shared.slot.Some? then 7 else 0)
    + match s.worker
      case Parked => 0
      case Finishing => 1
      case Depositing(_) => 2
      case Checking2(_, _) => 3
      case Opening(_) => 4
      case Checking(_) => 5
      case Taken(_) => 6
  }

  /** wait_idle terminates: while the main thread waits, no other thread can add work, every
      worker step leaves less of it, and a worker step exists until the wait can return. */
  lemma WaitIdleTerminates(s: State, t: State)
    requires Inv(s) && s.main.WaitIdle?
    ensures LoopStep(s, t) ==> t == s
    ensures WorkerStep(s, t) ==> t.main == s.main && WorkLeft(t) < WorkLeft(s)
    ensures WorkLeft(s) == 0 <==> exists u :: WorkerIdle(s, u)
    ensures WorkLeft(s) > 0 ==> exists u :: WorkerStep(s, u)
  {
    if WorkLeft(s) == 0 {
      assert WorkerIdle(s, s.(main := Discard2(s.main.op, s.main.retired)));
    } else {
      WorkerCanMove(s);
    }
  }

  lemma WorkerCanMove(s: State)
    requires WorkLeft(s) > 0
    ensures exists u :: WorkerStep(s, u)
  {
    var closed := Close(s, InWorker(s.worker, s.past.watched));
    var u := match s.worker
      case Parked => s.(shared := s.shared.(slot := None), worker := Taken(s.shared.slot.value))
      case Finishing => s.(worker := Parked)
      case Depositing(swap) =>
        Close(s, InMailbox(s.shared.completion, s.past.watched))
        .(shared := s.shared.(completion := Some(swap)), worker := Finishing)
      case Checking2(r, _) => closed.(worker := Abort(r))
      case Opening(r) => closed.(worker := Abort(r))
      case Checking(r) => closed.(worker := Abort(r))
      case Taken(Rebuild(r)) => closed.(worker := Checking(r.(retireFirst := None)))
      case Taken(_) => closed.(worker := Finishing);
    assert WorkerStep(s, u);
  }
}
