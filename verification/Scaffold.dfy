/** The standard spawn scaffolding of one actor: init, start hook, run loop, stop
    hook, watcher notification and the drop guard, with a task abort possible at
    every await and watchers coming and going at any time. One step per operation
    on the shared state. */
module Scaffold {

  import opened Options

  type ActorId = nat

  datatype Reason = Finished | Failed(error: nat) | Panicked(panic: nat) | Aborted

  datatype TerminationKind = KindFinished | KindFailed | KindPanicked | KindAborted

  function KindOf(reason: Reason): TerminationKind {
    match reason
    case Finished => KindFinished
    case Failed(_) => KindFailed
    case Panicked(_) => KindPanicked
    case Aborted => KindAborted
  }

  /** `OnceCell::set`: the first value stays. */
  function SetOnce(cell: Option<Reason>, reason: Reason): Option<Reason> {
    if cell.Some? then cell else Some(reason)
  }

  /** `is_compromised`: a failure or captured panic is recorded. */
  predicate Compromised(reason: Option<Reason>) {
    reason.Some? && (reason.value.Failed? || reason.value.Panicked?)
  }

  datatype Policy = Always | WaitNonblockingOnly | NoWait

  /** A watch; `serial` tells apart otherwise equal registrations. */
  datatype Subscription = Subscription(serial: nat, watcher: ActorId, tag: nat, policy: Policy)

  datatype Terminated = Terminated(watched: ActorId, kind: TerminationKind, tag: nat)

  /** How a delivery treats a full mailbox. */
  datatype Manner = AwaitRoom | BlockThread | TryOnce

  /** One call of `deliver` or `deliver_now`. */
  datatype Attempt = Attempt(to: Subscription, signal: Terminated, manner: Manner)

  /** `deliver`. */
  function AsyncManner(policy: Policy): Manner {
    if policy == NoWait then TryOnce else AwaitRoom
  }

  /** `deliver_now`. */
  function DropManner(policy: Policy): Manner {
    if policy == Always then BlockThread else TryOnce
  }

  datatype LifecycleState = Starting | Running | Draining | Stopping | Dead

  /** Where the actor task stands. The stages down to `Notifying` except the four
      before it are awaits; the guard stages run inside the guard's drop. */
  datatype Stage =
    | Initializing
    | StartHook
    | Looping
    | StopHook
    | MarkFinished
    | RecordDied
    | TakeSubscriptions
    | Notifying(rest: seq<Subscription>)
    | GuardMark
    | GuardDied
    | GuardTake
    | GuardNotifying(rest: seq<Subscription>)
    | GuardDead
    | Over

  /** The shared state and the task, followed by histories: every subscription ever
      added, those removed by unwatch, those dropped undelivered by an abort, those
      added after the guard's drain, the delivery attempts and Died events made, and
      whether a failure or panic happened and the stop hook ended. */
  datatype World = World(
    id: ActorId,
    reason: Option<Reason>,
    lifecycle: LifecycleState,
    subscriptions: seq<Subscription>,
    stage: Stage,
    added: set<Subscription>,
    removed: seq<Subscription>,
    lost: seq<Subscription>,
    late: set<Subscription>,
    attempts: seq<Attempt>,
    died: seq<TerminationKind>,
    troubled: bool,
    hookEnded: bool)

  function Fresh(id: ActorId): World {
    World(id, None, Starting, [], Initializing, {}, [], [], {}, [], [], false, false)
  }

  datatype Action =
    | InitOk
    | InitErr(error: nat)
    | Fail(error: nat)
    | RequestStop
    | StartHookEnds(panic: Option<nat>)
    | LoopPanics(payload: nat)
    | LoopEnds
    | StopHookEnds(panic: Option<nat>)
    | Proceed
    | Abort
    | Watch(subscription: Subscription)
    | Unwatch(watcher: ActorId)

  predicate Awaiting(stage: Stage) {
    stage.Initializing? || stage.StartHook? || stage.Looping? || stage.StopHook? || stage.Notifying?
  }

  /** User code that holds the actor's context is running. */
  predicate InUserCode(stage: Stage) {
    stage.StartHook? || stage.Looping? || stage.StopHook?
  }

  predicate Enabled(w: World, a: Action) {
    match a
    case InitOk => w.stage == Initializing
    case InitErr(_) => w.stage == Initializing
    case Fail(_) => InUserCode(w.stage)
    case RequestStop => InUserCode(w.stage)
    case StartHookEnds(_) => w.stage == StartHook
    case LoopPanics(_) => w.stage == Looping
    case LoopEnds => w.stage == Looping
    case StopHookEnds(_) => w.stage == StopHook
    case Proceed => w.stage != Over && (w.stage.Notifying? || !Awaiting(w.stage))
    case Abort => Awaiting(w.stage)
    case Watch(s) => forall other :: other in w.added ==> other.serial != s.serial
    case Unwatch(_) => true
  }

  function RecordPanic(w: World, panic: Option<nat>): World {
    if panic.None? then w else w.(reason := SetOnce(w.reason, Panicked(panic.value)), troubled := true)
  }

  function Kept(subscriptions: seq<Subscription>, watcher: ActorId): seq<Subscription> {
    if subscriptions == [] then []
    else (if subscriptions[0].watcher != watcher then [subscriptions[0]] else []) + Kept(subscriptions[1..], watcher)
  }

  function Gone(subscriptions: seq<Subscription>, watcher: ActorId): seq<Subscription> {
    if subscriptions == [] then []
    else (if subscriptions[0].watcher == watcher then [subscriptions[0]] else []) + Gone(subscriptions[1..], watcher)
  }

  function AttemptTo(w: World, s: Subscription, manner: Manner): Attempt
    requires w.reason.Some?
  {
    Attempt(s, Terminated(w.id, KindOf(w.reason.value), s.tag), manner)
  }

  /** The task's own next operation. */
  function ProceedFrom(w: World): World {
    match w.stage
    case MarkFinished => w.(reason := SetOnce(w.reason, Finished), stage := RecordDied)
    case RecordDied =>
      // `record_died` falls back to Aborted when no reason is recorded.
      w.(died := w.died + [if w.reason.Some? then KindOf(w.reason.value) else KindAborted],
         stage := TakeSubscriptions)
    case TakeSubscriptions =>
      if w.reason.None? then w.(stage := GuardMark)
      else w.(subscriptions := [], stage := Notifying(w.subscriptions))
    case Notifying(rest) =>
      if rest == [] || w.reason.None? then w.(stage := GuardMark)
      else w.(attempts := w.attempts + [AttemptTo(w, rest[0], AsyncManner(rest[0].policy))],
          stage := Notifying(rest[1..]))
    case GuardMark => w.(reason := SetOnce(w.reason, Aborted), stage := GuardDied)
    case GuardDied =>
      if w.reason == Some(Aborted) then w.(died := w.died + [KindAborted], stage := GuardTake)
      else w.(stage := GuardTake)
    case GuardTake =>
      if w.reason.None? then w.(stage := GuardDead)
      else w.(subscriptions := [], stage := GuardNotifying(w.subscriptions))
    case GuardNotifying(rest) =>
      if rest == [] || w.reason.None? then w.(stage := GuardDead)
      else w.(attempts := w.attempts + [AttemptTo(w, rest[0], DropManner(rest[0].policy))],
          stage := GuardNotifying(rest[1..]))
    case GuardDead => w.(lifecycle := Dead, stage := Over)
    case _ => w
  }

  predicate AfterDrain(stage: Stage) {
    stage.GuardNotifying? || stage.GuardDead? || stage.Over?
  }

  function Next(w: World, a: Action): World
    requires Enabled(w, a)
  {
    match a
    case InitOk => w.(stage := StartHook)
    case InitErr(error) => w.(reason := SetOnce(w.reason, Failed(error)), troubled := true, stage := GuardMark)
    case Fail(error) => w.(reason := SetOnce(w.reason, Failed(error)), troubled := true)
    case RequestStop => if w.lifecycle == Starting || w.lifecycle == Running then w.(lifecycle := Draining) else w
    case StartHookEnds(panic) =>
      var ended := RecordPanic(w, panic);
      if Compromised(ended.reason) then ended.(stage := GuardMark)
      else ended.(lifecycle := if w.lifecycle == Starting then Running else w.lifecycle, stage := Looping)
    case LoopPanics(panic) => RecordPanic(w, Some(panic))
    case LoopEnds =>
      w.(lifecycle := if w.lifecycle == Running || w.lifecycle == Draining then Stopping else w.lifecycle,
          stage := StopHook)
    case StopHookEnds(panic) => RecordPanic(w, panic).(stage := MarkFinished, hookEnded := true)
    case Proceed => ProceedFrom(w)
    case Abort =>
      if w.stage.Notifying? then w.(lost := w.lost + w.stage.rest, stage := GuardMark)
      else w.(stage := GuardMark)
    case Watch(s) =>
      w.(subscriptions := w.subscriptions + [s], added := w.added + {s},
         late := if AfterDrain(w.stage) then w.late + {s} else w.late)
    case Unwatch(watcher) =>
      w.(subscriptions := Kept(w.subscriptions, watcher), removed := w.removed + Gone(w.subscriptions, watcher))
  }

  ghost predicate IsRun(run: seq<World>, actions: seq<Action>) {
    && |run| == |actions| + 1 && run[0] == Fresh(run[0].id)
    && forall i :: 0 <= i < |actions| ==> Enabled(run[i], actions[i]) && run[i + 1] == Next(run[i], actions[i])
  }

  // ---------------------------------------------------------------- the invariant

  function InFlight(stage: Stage): seq<Subscription> {
    if stage.Notifying? || stage.GuardNotifying? then stage.rest else []
  }

  function Targets(attempts: seq<Attempt>): (targets: seq<Subscription>)
    ensures |targets| == |attempts|
    ensures forall i :: 0 <= i < |attempts| ==> targets[i] == attempts[i].to
  {
    if attempts == [] then [] else Targets(attempts[..|attempts| - 1]) + [attempts[|attempts| - 1].to]
  }

  /** Every subscription ever added is in exactly one place: registered, taken for
      delivery, attempted, removed or lost. */
  ghost predicate Census(w: World) {
    Places(multiset(w.added), w.subscriptions, InFlight(w.stage), Targets(w.attempts), w.removed, w.lost)
  }

  ghost predicate Places(all: multiset<Subscription>, registered: seq<Subscription>, taken: seq<Subscription>,
                         attempted: seq<Subscription>, removed: seq<Subscription>, lost: seq<Subscription>)
  {
    all == multiset(registered) + multiset(taken) + multiset(attempted) + multiset(removed) + multiset(lost)
  }

  predicate Guarded(stage: Stage) {
    stage.GuardDied? || stage.GuardTake? || AfterDrain(stage)
  }

  ghost predicate OutcomeOk(w: World) {
    && (w.stage.RecordDied? || w.stage.TakeSubscriptions? || w.stage.Notifying? || Guarded(w.stage) ==> w.reason.Some?)
    && (w.troubled <==> Compromised(w.reason))
    && (w.reason == Some(Aborted) ==> Guarded(w.stage) && !w.hookEnded)
    && (w.reason == Some(Finished) ==> w.hookEnded)
    && (w.hookEnded ==> w.stage == MarkFinished || w.reason.Some?)
    && (w.hookEnded ==> w.stage != Initializing && !InUserCode(w.stage))
    && (w.stage.MarkFinished? || w.stage.RecordDied? ==> w.hookEnded)
    && (w.stage.TakeSubscriptions? || w.stage.Notifying? ==> w.hookEnded)
    && (w.lifecycle == Dead <==> w.stage == Over)
  }

  /** How many Died events there must be by now. */
  function DiedDue(w: World): nat {
    if w.hookEnded then (if w.stage.MarkFinished? || w.stage.RecordDied? then 0 else 1)
    else if w.reason == Some(Aborted) && !w.stage.GuardDied? then 1 else 0
  }

  ghost predicate DiedOk(w: World) {
    && |w.died| == DiedDue(w)
    && (w.died != [] ==> w.reason.Some? && w.died[0] == KindOf(w.reason.value))
  }

  predicate AttemptOk(w: World, attempt: Attempt) {
    && w.reason.Some?
    && attempt.signal == Terminated(w.id, KindOf(w.reason.value), attempt.to.tag)
    && (attempt.manner == AsyncManner(attempt.to.policy) || attempt.manner == DropManner(attempt.to.policy))
  }

  /** After the guard's drain exactly the late subscriptions are registered, or removed again. */
  ghost predicate LateOk(w: World) {
    && (AfterDrain(w.stage) ==> forall s :: s in w.subscriptions ==> s in w.late)
    && (w.late != {} ==> AfterDrain(w.stage))
    && (forall s :: s in w.late ==> s in w.subscriptions || s in w.removed)
  }

  ghost predicate AttemptsOk(w: World) {
    && (forall i :: 0 <= i < |w.attempts| ==> AttemptOk(w, w.attempts[i]))
    && LateOk(w)
  }

  ghost predicate Inv(w: World) {
    Census(w) && OutcomeOk(w) && DiedOk(w) && AttemptsOk(w)
  }

  // ----------------------------------------------------------------- preservation

  lemma TargetsSnoc(attempts: seq<Attempt>, attempt: Attempt)
    ensures Targets(attempts + [attempt]) == Targets(attempts) + [attempt.to]
  {
    assert (attempts + [attempt])[..|attempts|] == attempts;
  }

  lemma {:induction false} RetainSplits(subscriptions: seq<Subscription>, watcher: ActorId)
    ensures multiset(Kept(subscriptions, watcher)) + multiset(Gone(subscriptions, watcher)) == multiset(subscriptions)
  {
    if subscriptions != [] {
      RetainSplits(subscriptions[1..], watcher);
      assert subscriptions == [subscriptions[0]] + subscriptions[1..];
    }
  }

  lemma StepKeepsCensus(w: World, a: Action)
    requires Census(w) && OutcomeOk(w) && Enabled(w, a)
    ensures Census(Next(w, a))
  {
    hide Places, OutcomeOk, AttemptTo, Kept, Gone, Targets;
    match a
    case Proceed => ProceedKeepsCensus(w);
    case Watch(s) =>
      assert s !in w.added;
      assert multiset(w.added + {s}) == multiset(w.added) + multiset{s};
      PlaceRegister(multiset(w.added), w.subscriptions, InFlight(w.stage), Targets(w.attempts), w.removed, w.lost, s);
    case Unwatch(watcher) =>
      PlaceRemove(multiset(w.added), w.subscriptions, InFlight(w.stage), Targets(w.attempts), w.removed, w.lost,
          watcher);
    case Abort =>
      PlaceLose(multiset(w.added), w.subscriptions, InFlight(w.stage), Targets(w.attempts), w.removed, w.lost);
    case _ =>
  }

  lemma PlaceRegister(all: multiset<Subscription>, registered: seq<Subscription>, taken: seq<Subscription>,
                      attempted: seq<Subscription>, removed: seq<Subscription>, lost: seq<Subscription>,
                      s: Subscription)
    requires Places(all, registered, taken, attempted, removed, lost)
    ensures Places(all + multiset{s}, registered + [s], taken, attempted, removed, lost)
  {
  }

  lemma PlaceRemove(all: multiset<Subscription>, registered: seq<Subscription>, taken: seq<Subscription>,
                    attempted: seq<Subscription>, removed: seq<Subscription>, lost: seq<Subscription>, watcher: ActorId)
    requires Places(all, registered, taken, attempted, removed, lost)
    ensures Places(all, Kept(registered, watcher), taken, attempted, removed + Gone(registered, watcher), lost)
  {
    hide Kept, Gone;
    RetainSplits(registered, watcher);
  }

  lemma PlaceLose(all: multiset<Subscription>, registered: seq<Subscription>, taken: seq<Subscription>,
                  attempted: seq<Subscription>, removed: seq<Subscription>, lost: seq<Subscription>)
    requires Places(all, registered, taken, attempted, removed, lost)
    ensures Places(all, registered, [], attempted, removed, lost + taken)
  {
  }

  lemma PlaceTake(all: multiset<Subscription>, registered: seq<Subscription>,
                  attempted: seq<Subscription>, removed: seq<Subscription>, lost: seq<Subscription>)
    requires Places(all, registered, [], attempted, removed, lost)
    ensures Places(all, [], registered, attempted, removed, lost)
  {
  }

  lemma PlaceDeliver(all: multiset<Subscription>, registered: seq<Subscription>, taken: seq<Subscription>,
                     attempted: seq<Subscription>, removed: seq<Subscription>, lost: seq<Subscription>)
    requires taken != [] && Places(all, registered, taken, attempted, removed, lost)
    ensures Places(all, registered, taken[1..], attempted + [taken[0]], removed, lost)
  {
    assert taken == [taken[0]] + taken[1..];
  }

  lemma ProceedKeepsCensus(w: World)
    requires Census(w) && OutcomeOk(w) && Enabled(w, Proceed)
    ensures Census(ProceedFrom(w))
  {
    hide Places, KindOf, AsyncManner, DropManner, Targets;
    var w' := ProceedFrom(w);
    if w.stage.TakeSubscriptions? || w.stage.GuardTake? {
      PlaceTake(multiset(w.added), w.subscriptions, Targets(w.attempts), w.removed, w.lost);
    } else if (w.stage.Notifying? || w.stage.GuardNotifying?) && w.stage.rest != [] {
      var attempt := w'.attempts[|w.attempts|];
      assert w'.attempts == w.attempts + [attempt];
      TargetsSnoc(w.attempts, attempt);
      PlaceDeliver(multiset(w.added), w.subscriptions, w.stage.rest, Targets(w.attempts), w.removed, w.lost);
    }
  }

  lemma StepKeepsOutcome(w: World, a: Action)
    requires OutcomeOk(w) && Enabled(w, a)
    ensures OutcomeOk(Next(w, a))
  {
    hide Kept, Gone, ProceedFrom;
    if a == Proceed {
      ProceedKeepsOutcome(w);
    }
  }

  lemma ProceedKeepsOutcome(w: World)
    requires OutcomeOk(w) && Enabled(w, Proceed)
    ensures OutcomeOk(ProceedFrom(w))
  {
    hide AttemptTo, KindOf;
  }

  lemma StepKeepsDied(w: World, a: Action)
    requires OutcomeOk(w) && DiedOk(w) && Enabled(w, a)
    ensures DiedOk(Next(w, a))
  {
    hide Kept, Gone, AttemptTo;
  }

  lemma {:induction false} GoneMembers(subscriptions: seq<Subscription>, watcher: ActorId, s: Subscription)
    ensures s in Gone(subscriptions, watcher) <==> s in subscriptions && s.watcher == watcher
    ensures s in Kept(subscriptions, watcher) <==> s in subscriptions && s.watcher != watcher
  {
    if subscriptions != [] {
      GoneMembers(subscriptions[1..], watcher, s);
    }
  }

  lemma StepKeepsLate(w: World, a: Action)
    requires OutcomeOk(w) && LateOk(w) && Enabled(w, a)
    ensures LateOk(Next(w, a))
  {
    hide AttemptTo, KindOf, Kept, Gone;
    if a.Unwatch? {
      forall s ensures s in w.subscriptions <==>
        s in Kept(w.subscriptions, a.watcher) || s in Gone(w.subscriptions, a.watcher) {
        GoneMembers(w.subscriptions, a.watcher, s);
      }
    }
  }

  lemma StepKeepsAttempts(w: World, a: Action)
    requires OutcomeOk(w) && AttemptsOk(w) && Enabled(w, a)
    ensures AttemptsOk(Next(w, a))
  {
    hide Gone, KindOf, Kept, ProceedFrom, LateOk;
    StepKeepsLate(w, a);
    if a == Proceed {
      ProceedKeepsAttempts(w);
    }
  }

  lemma ProceedKeepsAttempts(w: World)
    requires OutcomeOk(w) && AttemptsOk(w) && Enabled(w, Proceed)
    ensures forall i :: 0 <= i < |ProceedFrom(w).attempts| ==> AttemptOk(ProceedFrom(w), ProceedFrom(w).attempts[i])
  {
    hide AttemptTo, AttemptOk, KindOf, LateOk;
    var w' := ProceedFrom(w);
    forall i | 0 <= i < |w'.attempts| ensures AttemptOk(w', w'.attempts[i]) {
      if i < |w.attempts| {
        assert AttemptOk(w, w.attempts[i]);
        StillOk(w, w', w.attempts[i]);
      } else {
        NewAttemptOk(w, w');
      }
    }
  }

  lemma StillOk(w: World, w': World, attempt: Attempt)
    requires AttemptOk(w, attempt) && w'.id == w.id && (w.reason.Some? ==> w'.reason == w.reason)
    ensures AttemptOk(w', attempt)
  {
  }

  lemma NewAttemptOk(w: World, w': World)
    requires w' == ProceedFrom(w) && w'.attempts != w.attempts
    ensures |w'.attempts| == |w.attempts| + 1 && AttemptOk(w', w'.attempts[|w.attempts|])
  {
    hide KindOf;
  }

  lemma StepKeepsInv(w: World, a: Action)
    requires Inv(w) && Enabled(w, a)
    ensures Inv(Next(w, a))
  {
    hide Census, DiedOk, AttemptsOk, Next;
    StepKeepsCensus(w, a);
    StepKeepsOutcome(w, a);
    StepKeepsDied(w, a);
    StepKeepsAttempts(w, a);
  }

  lemma FreshOk(id: ActorId)
    ensures Inv(Fresh(id))
  {
  }

  lemma {:induction false} InvInRuns(run: seq<World>, actions: seq<Action>, i: nat)
    requires IsRun(run, actions) && i < |run|
    ensures Inv(run[i])
  {
    hide Inv, Next, Enabled, Fresh;
    if i == 0 {
      FreshOk(run[0].id);
    } else {
      InvInRuns(run, actions, i - 1);
      StepKeepsInv(run[i - 1], actions[i - 1]);
    }
  }

  // --------------------------------------------------------------------- theorems

  lemma ReasonStays(w: World, a: Action)
    requires Enabled(w, a) && w.reason.Some?
    ensures Next(w, a).reason == w.reason
  {
    hide Kept, Gone, AttemptTo;
  }

  /** The first recorded outcome never changes. */
  lemma {:induction false} FirstOutcomeWins(run: seq<World>, actions: seq<Action>, i: nat, j: nat)
    requires IsRun(run, actions) && i <= j < |run| && run[i].reason.Some?
    ensures run[j].reason == run[i].reason
  {
    hide Next, Enabled, Fresh;
    if i < j {
      FirstOutcomeWins(run, actions, i, j - 1);
      ReasonStays(run[j - 1], actions[j - 1]);
    }
  }

  /** An outcome is recorded before Dead is stored, abort or not; a clean finish is
      recorded exactly when the stop hook ended and nothing failed or panicked; and
      at most one Died event is emitted, with that outcome's kind - exactly one if
      the stop hook ended or the outcome is an abort. */
  lemma OneFinalOutcome(run: seq<World>, actions: seq<Action>, i: nat)
    requires IsRun(run, actions) && i < |run|
    ensures var w := run[i];
      && (w.lifecycle == Dead ==> w.reason.Some?)
      && (w.reason == Some(Finished) ==> w.hookEnded && !w.troubled)
      && (w.lifecycle == Dead && w.hookEnded && !w.troubled ==> w.reason == Some(Finished))
      && |w.died| <= 1
      && (w.died != [] ==> w.reason.Some? && w.died == [KindOf(w.reason.value)])
      && (w.lifecycle == Dead ==> (|w.died| == 1 <==> w.hookEnded || w.reason == Some(Aborted)))
  {
    InvInRuns(run, actions, i);
  }

  /** Each subscription gets at most one delivery attempt, with its own tag and the
      recorded outcome's kind. */
  lemma AtMostOneAttempt(run: seq<World>, actions: seq<Action>, i: nat, j: nat, k: nat)
    requires IsRun(run, actions) && i < |run| && j <= k < |run[i].attempts|
    ensures run[i].reason.Some?
    ensures run[i].attempts[k].signal == Terminated(run[i].id, KindOf(run[i].reason.value), run[i].attempts[k].to.tag)
    ensures run[i].attempts[k].to in run[i].added
    ensures run[i].attempts[j].to == run[i].attempts[k].to ==> j == k
  {
    hide Next, Enabled, Fresh;
    InvInRuns(run, actions, i);
    var w := run[i];
    assert AttemptOk(w, w.attempts[k]);
    var targets := Targets(w.attempts);
    assert targets[k] in multiset(targets);
    assert multiset(w.added)[targets[k]] <= 1;
    if j < k && targets[j] == targets[k] {
      TwiceInside(targets, j, k);
    }
  }

  lemma TwiceInside(s: seq<Subscription>, j: nat, k: nat)
    requires j < k < |s| && s[j] == s[k]
    ensures multiset(s)[s[k]] >= 2
  {
    assert s == s[..k] + s[k..];
    assert s[j] in s[..k];
    assert s[k] == s[k..][0];
    assert multiset(s) == multiset(s[..k]) + multiset(s[k..]);
  }

  /** No attempt is made once Dead is stored. */
  lemma AttemptsBeforeDead(run: seq<World>, actions: seq<Action>, i: nat)
    requires IsRun(run, actions) && i < |actions| && run[i + 1].attempts != run[i].attempts
    ensures run[i].lifecycle != Dead && run[i + 1].lifecycle != Dead
  {
    hide Next, Fresh;
    InvInRuns(run, actions, i);
    AttemptStage(run[i], actions[i]);
  }

  lemma AttemptStage(w: World, a: Action)
    requires OutcomeOk(w) && Enabled(w, a) && Next(w, a).attempts != w.attempts
    ensures w.lifecycle != Dead && Next(w, a).lifecycle != Dead
  {
    hide Kept, Gone, AttemptTo;
  }

  /** What keeps a watcher from ever being told: the watch came after the guard's drain,
      unwatch removed it while it was registered, or an abort inside the notification
      dropped it with those not told yet. */
  predicate Misses(w: World, a: Action, s: Subscription) {
    || (a == Watch(s) && AfterDrain(w.stage))
    || (a == Unwatch(s.watcher) && s in w.subscriptions)
    || (a == Abort && w.stage.Notifying? && s in w.stage.rest)
  }

  predicate Missed(w: World, s: Subscription) {
    s in w.late || s in w.removed || s in w.lost
  }

  lemma HistoriesKept(w: World, a: Action)
    requires Enabled(w, a) && !a.Watch? && !a.Unwatch? && !a.Abort?
    ensures Next(w, a).late == w.late && Next(w, a).removed == w.removed && Next(w, a).lost == w.lost
  {
    hide AttemptTo, KindOf;
  }

  lemma MissedByStep(w: World, a: Action, s: Subscription)
    requires Enabled(w, a)
    ensures Missed(Next(w, a), s) <==> Missed(w, s) || Misses(w, a, s)
  {
    if a.Unwatch? {
      hide Kept, Gone;
      GoneMembers(w.subscriptions, a.watcher, s);
    } else if !a.Watch? && !a.Abort? {
      hide Next;
      HistoriesKept(w, a);
    }
  }

  lemma {:induction false} MissedExactly(run: seq<World>, actions: seq<Action>, i: nat, s: Subscription)
    requires IsRun(run, actions) && i < |run|
    ensures Missed(run[i], s) <==> exists k :: 0 <= k < i && Misses(run[k], actions[k], s)
  {
    hide Next, Enabled, Misses;
    if i > 0 {
      MissedExactly(run, actions, i - 1, s);
      MissedByStep(run[i - 1], actions[i - 1], s);
    }
  }

  /** When the actor is dead every subscription ever added was attempted exactly once, or
      never, and never exactly if one of the three things happened to it: a watcher told
      before an abort stays told, and one not told then is never told. */
  lemma ExactlyOneAttempt(run: seq<World>, actions: seq<Action>, i: nat, s: Subscription)
    requires IsRun(run, actions) && i < |run| && run[i].lifecycle == Dead && s in run[i].added
    ensures multiset(Targets(run[i].attempts))[s]
      == if exists k :: 0 <= k < i && Misses(run[k], actions[k], s) then 0 else 1
  {
    hide Next, Enabled, Fresh, Misses;
    MissedExactly(run, actions, i, s);
    InvInRuns(run, actions, i);
    OncePlaced(run[i], s);
  }

  lemma OncePlaced(w: World, s: Subscription)
    requires Census(w) && LateOk(w) && w.stage == Over && s in w.added
    ensures multiset(Targets(w.attempts))[s] == if Missed(w, s) then 0 else 1
  {
    var registered, attempted, removed, lost :=
      multiset(w.subscriptions), multiset(Targets(w.attempts)), multiset(w.removed), multiset(w.lost);
    assert multiset(w.added)[s] == 1;
    assert registered[s] + attempted[s] + removed[s] + lost[s] == 1;
    assert s in w.removed <==> removed[s] > 0;
    assert s in w.lost <==> lost[s] > 0;
    assert s in w.subscriptions <==> registered[s] > 0;
  }

  ghost predicate Reachable(w: World) {
    exists run: seq<World>, actions: seq<Action> :: IsRun(run, actions) && run[|run| - 1] == w
  }

  lemma ReachStep(w: World, a: Action)
    requires Reachable(w) && Enabled(w, a)
    ensures Reachable(Next(w, a))
  {
    hide Next, Enabled, Fresh;
    var run: seq<World>, actions: seq<Action> :| IsRun(run, actions) && run[|run| - 1] == w;
    assert IsRun(run + [Next(w, a)], actions + [a]);
  }

  lemma ReachFresh(id: ActorId)
    ensures Reachable(Fresh(id))
  {
    assert IsRun([Fresh(id)], []);
  }

  /** The exception is real: an abort while notifying drops the watchers already
      taken, and they are never told. */
  lemma AbortWhileNotifyingLosesWatchers()
    ensures exists w :: Reachable(w) && w.lifecycle == Dead && w.added != {} && w.removed == [] && w.attempts == []
  {
    hide Reachable;
    var s := Subscription(0, 7, 1, Always);
    var w0 := Fresh(3);
    ReachFresh(3);
    ReachStep(w0, InitOk);
    var w1 := w0.(stage := StartHook);
    ReachStep(w1, Watch(s));
    var w2 := w1.(subscriptions := [s], added := {s});
    assert Next(w1, Watch(s)) == w2;
    ReachStep(w2, StartHookEnds(None));
    var w3 := w2.(lifecycle := Running, stage := Looping);
    StopRuns(w3);
    var w8 := StoppedWith(w3);
    ReachStep(w8, Abort);
    GuardRuns(w8.(lost := [s], stage := GuardMark));
    assert s in w8.added;
  }

  function StoppedWith(w: World): World {
    w.(lifecycle := Stopping, reason := Some(Finished), died := [KindFinished], subscriptions := [],
       stage := Notifying(w.subscriptions), hookEnded := true)
  }

  /** From a running loop, a clean stop reaches the notification of its watchers. */
  lemma StopRuns(w: World)
    requires Reachable(w) && w.stage == Looping && w.lifecycle == Running && w.reason == None && w.died == []
    ensures Reachable(StoppedWith(w))
  {
    hide Reachable;
    ReachStep(w, LoopEnds);
    var w4 := w.(lifecycle := Stopping, stage := StopHook);
    ReachStep(w4, StopHookEnds(None));
    var w5 := w4.(stage := MarkFinished, hookEnded := true);
    ReachStep(w5, Proceed);
    var w6 := w5.(reason := Some(Finished), stage := RecordDied);
    ReachStep(w6, Proceed);
    var w7 := w6.(died := [KindFinished], stage := TakeSubscriptions);
    assert w6.died + [KindFinished] == [KindFinished];
    ReachStep(w7, Proceed);
  }

  /** From a recorded outcome and no registered watcher, the guard runs to Dead
      without telling anyone. */
  lemma GuardRuns(w: World)
    requires Reachable(w) && w.stage == GuardMark && w.subscriptions == [] && w.reason == Some(Finished)
    ensures Reachable(w.(lifecycle := Dead, stage := Over))
  {
    hide Reachable;
    ReachStep(w, Proceed);
    var w1 := w.(stage := GuardDied);
    ReachStep(w1, Proceed);
    var w2 := w1.(stage := GuardTake);
    ReachStep(w2, Proceed);
    var w3 := w2.(stage := GuardNotifying([]));
    ReachStep(w3, Proceed);
    var w4 := w3.(stage := GuardDead);
    ReachStep(w4, Proceed);
  }
}
