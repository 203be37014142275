/** The multilane mailbox: bounded or unbounded FIFO lanes polled in priority
    order, with senders and closers interleaving between the polls of one scan. */
module Mailbox {

  import opened Options

  type Message = nat

  /** One lane: an mpsc channel with an optional bound. */
  datatype Lane = Lane(queue: seq<Message>, capacity: Option<nat>, closed: bool)

  datatype SendResult = Sent | NotSendable | Unroutable | MailboxFull | ActorDead

  predicate HasRoom(lane: Lane) {
    lane.capacity.Some? ==> |lane.queue| < lane.capacity.value
  }

  /** What one lane answers when polled. */
  datatype LanePoll = LaneMessage(message: Message) | LaneExhausted | LanePending

  function PollLane(lane: Lane): (Lane, LanePoll) {
    if lane.queue != [] then (lane.(queue := lane.queue[1..]), LaneMessage(lane.queue[0]))
    else (lane, if lane.closed then LaneExhausted else LanePending)
  }

  /** The lane of a prepared send, if the router's choice exists. */
  function SendTo(lanes: seq<Lane>, lane: nat, message: Message, sendable: bool): (seq<Lane>, SendResult) {
    if !sendable then (lanes, NotSendable)
    else if lane >= |lanes| then (lanes, Unroutable)
    else if lanes[lane].closed then (lanes, ActorDead)
    else if !HasRoom(lanes[lane]) then (lanes, MailboxFull)
    else (lanes[lane := lanes[lane].(queue := lanes[lane].queue + [message])], Sent)
  }

  /** The outcome of polling `receive` once. */
  datatype Polled = Ready(lane: nat, message: Message) | Ended | Pending

  predicate Drained(lane: Lane) {
    lane.closed && lane.queue == []
  }

  /** What polling the lanes in order means: the head of the first non-empty lane is
      taken; with none, the end if all lanes are drained, and pending if not. */
  ghost predicate PollMeans(before: seq<Lane>, polled: Polled, after: seq<Lane>) {
    && (polled.Ready? ==>
          && polled.lane < |before|
          && before[polled.lane].queue != [] && polled.message == before[polled.lane].queue[0]
          && (forall k :: 0 <= k < polled.lane ==> before[k].queue == [])
          && after == before[polled.lane := before[polled.lane].(queue := before[polled.lane].queue[1..])])
    && (!polled.Ready? ==> after == before && forall k :: 0 <= k < |before| ==> before[k].queue == [])
    && (polled.Ended? <==> forall k :: 0 <= k < |before| ==> Drained(before[k]))
  }

  class MultilaneMailbox {
    var lanes: seq<Lane>

    constructor (lanes: seq<Lane>)
      ensures this.lanes == lanes
    {
      this.lanes := lanes;
    }

    /** `try_send`. */
    method TrySend(lane: nat, message: Message, sendable: bool) returns (result: SendResult)
      modifies this
      ensures (lanes, result) == SendTo(old(lanes), lane, message, sendable)
      ensures result == NotSendable <==> !sendable
      ensures result == Unroutable <==> sendable && lane >= |old(lanes)|
      ensures result == ActorDead <==> sendable && lane < |old(lanes)| && old(lanes)[lane].closed
      ensures result == Sent <==>
        sendable && lane < |old(lanes)| && !old(lanes)[lane].closed && HasRoom(old(lanes)[lane])
      ensures sendable && lane < |old(lanes)| && !old(lanes)[lane].closed ==>
        var capacity, length := old(lanes)[lane].capacity, |old(lanes)[lane].queue|;
        && (result == Sent <==> capacity.None? || length < capacity.value)
        && (result == MailboxFull <==> capacity.Some? && length >= capacity.value)
      ensures result != Sent ==> lanes == old(lanes)
      ensures result == Sent ==>
        |lanes| == |old(lanes)| && lanes[lane].queue == old(lanes)[lane].queue + [message]
        && forall k :: 0 <= k < |lanes| && k != lane ==> lanes[k] == old(lanes)[k]
    {
      if !sendable {
        return NotSendable;
      }
      if lane >= |lanes| {
        return Unroutable;
      }
      if lanes[lane].closed {
        return ActorDead;
      }
      if lanes[lane].capacity.Some? && |lanes[lane].queue| >= lanes[lane].capacity.value {
        return MailboxFull;
      }
      lanes := lanes[lane := lanes[lane].(queue := lanes[lane].queue + [message])];
      return Sent;
    }

    /** One poll of `receive`: the head of the first non-empty lane; otherwise the
        end if every lane is exhausted, and pending if not. */
    method PollReceive() returns (polled: Polled)
      modifies this
      ensures PollMeans(old(lanes), polled, lanes)
    {
      var exhausted := 0;
      var i := 0;
      while i < |lanes|
        invariant 0 <= exhausted <= i <= |lanes| && lanes == old(lanes)
        invariant forall k :: 0 <= k < i ==> lanes[k].queue == []
        invariant exhausted == i <==> forall k :: 0 <= k < i ==> Drained(lanes[k])
      {
        var (lane, answer) := PollLane(lanes[i]);
        match answer {
          case LaneMessage(message) =>
            lanes := lanes[i := lane];
            return Ready(i, message);
          case LaneExhausted =>
            exhausted := exhausted + 1;
          case LanePending =>
        }
        i := i + 1;
      }
      return if exhausted == |lanes| then Ended else Pending;
    }

    /** `close`: every lane refuses further sends and keeps its backlog. */
    method Close()
      modifies this
      ensures |lanes| == |old(lanes)|
      ensures forall k :: 0 <= k < |lanes| ==> lanes[k] == old(lanes)[k].(closed := true)
    {
      var i := 0;
      while i < |lanes|
        invariant 0 <= i <= |lanes| == |old(lanes)|
        invariant forall k :: 0 <= k < i ==> lanes[k] == old(lanes)[k].(closed := true)
        invariant forall k :: i <= k < |lanes| ==> lanes[k] == old(lanes)[k]
      {
        lanes := lanes[i := lanes[i].(closed := true)];
        i := i + 1;
      }
    }
  }

  // ------------------------------------------------------------ interleaved scans

  /** A scan in progress; `seen` is a history of the queue each lane had when this
      scan polled it. */
  datatype Scan = Scan(at: nat, exhausted: nat, seen: seq<seq<Message>>)

  /** A finished poll, with the history of what its scan saw. */
  datatype Outcome = Outcome(polled: Polled, seen: seq<seq<Message>>)

  /** The mailbox, the receiver's scan, and histories: what each lane accepted, what
      was received from it, and the outcomes of all polls. */
  datatype World = World(
    lanes: seq<Lane>,
    scan: Option<Scan>,
    accepted: seq<seq<Message>>,
    received: seq<seq<Message>>,
    outcomes: seq<Outcome>)

  datatype Action =
    | TrySend(lane: nat, message: Message, sendable: bool)
    | AwaitedSend(lane: nat, message: Message)
    | CloseLane(lane: nat)
    | StartPoll
    | PollNext

  predicate Enabled(w: World, a: Action) {
    match a
    case TrySend(_, _, _) => |w.accepted| == |w.lanes|
    case AwaitedSend(lane, _) => lane < |w.lanes| == |w.accepted| && (w.lanes[lane].closed || HasRoom(w.lanes[lane]))
    case CloseLane(lane) => lane < |w.lanes|
    case StartPoll => w.scan.None?
    case PollNext => w.scan.Some? && w.scan.value.at <= |w.lanes| == |w.received|
  }

  function Sending(w: World, lane: nat, message: Message, sendable: bool): World
    requires |w.accepted| == |w.lanes|
  {
    var (lanes, result) := SendTo(w.lanes, lane, message, sendable);
    if result == Sent then w.(lanes := lanes, accepted := w.accepted[lane := w.accepted[lane] + [message]]) else w
  }

  function Finish(w: World, polled: Polled): World
    requires w.scan.Some?
  {
    w.(scan := None, outcomes := w.outcomes + [Outcome(polled, w.scan.value.seen)])
  }

  /** One turn of the scan's loop, or its end. */
  function Advance(w: World): World
    requires Enabled(w, PollNext)
  {
    var Scan(at, exhausted, seen) := w.scan.value;
    if at == |w.lanes| then Finish(w, if exhausted == |w.lanes| then Ended else Pending)
    else
      var (lane, answer) := PollLane(w.lanes[at]);
      match answer
      case LaneMessage(message) =>
        Finish(w.(lanes := w.lanes[at := lane], received := w.received[at := w.received[at] + [message]]),
               Ready(at, message))
      case LaneExhausted => w.(scan := Some(Scan(at + 1, exhausted + 1, seen + [w.lanes[at].queue])))
      case LanePending => w.(scan := Some(Scan(at + 1, exhausted, seen + [w.lanes[at].queue])))
  }

  function Next(w: World, a: Action): World
    requires Enabled(w, a)
  {
    match a
    case TrySend(lane, message, sendable) => Sending(w, lane, message, sendable)
    case AwaitedSend(lane, message) => Sending(w, lane, message, true)
    case CloseLane(lane) => w.(lanes := w.lanes[lane := w.lanes[lane].(closed := true)])
    case StartPoll => w.(scan := Some(Scan(0, 0, [])))
    case PollNext => Advance(w)
  }

  ghost predicate Initial(w: World) {
    && w.scan.None? && w.outcomes == [] && |w.accepted| == |w.received| == |w.lanes|
    && forall k :: 0 <= k < |w.lanes| ==>
         w.lanes[k].queue == [] && !w.lanes[k].closed && w.accepted[k] == [] && w.received[k] == []
  }

  ghost predicate IsRun(run: seq<World>, actions: seq<Action>) {
    && |run| == |actions| + 1 && Initial(run[0])
    && forall i :: 0 <= i < |actions| ==> Enabled(run[i], actions[i]) && run[i + 1] == Next(run[i], actions[i])
  }

  predicate LaneOk(lane: Lane, accepted: seq<Message>, received: seq<Message>) {
    && accepted == received + lane.queue
    && (lane.capacity.Some? ==> |lane.queue| <= lane.capacity.value)
  }

  ghost predicate LanesOk(w: World) {
    && |w.accepted| == |w.received| == |w.lanes|
    && forall k :: 0 <= k < |w.lanes| ==> LaneOk(w.lanes[k], w.accepted[k], w.received[k])
  }

  predicate AllEmpty(seen: seq<seq<Message>>) {
    forall k :: 0 <= k < |seen| ==> seen[k] == []
  }

  ghost predicate ScanOk(w: World) {
    w.scan.Some? ==>
      var Scan(at, exhausted, seen) := w.scan.value;
      && exhausted <= at <= |w.lanes| && |seen| == at && AllEmpty(seen)
      && (exhausted == at ==> forall k :: 0 <= k < at ==> Drained(w.lanes[k]))
  }

  predicate OutcomeOk(w: World, outcome: Outcome) {
    && AllEmpty(outcome.seen)
    && (outcome.polled.Ready? ==> outcome.polled.lane == |outcome.seen|)
    && (!outcome.polled.Ready? ==> |outcome.seen| == |w.lanes|)
    && (outcome.polled.Ended? ==> forall k :: 0 <= k < |w.lanes| ==> Drained(w.lanes[k]))
  }

  ghost predicate OutcomesOk(w: World) {
    forall i :: 0 <= i < |w.outcomes| ==> OutcomeOk(w, w.outcomes[i])
  }

  ghost predicate Inv(w: World) {
    LanesOk(w) && ScanOk(w) && OutcomesOk(w)
  }

  lemma StepKeepsLanes(w: World, a: Action)
    requires LanesOk(w) && Enabled(w, a)
    ensures LanesOk(Next(w, a))
  {
    var w' := Next(w, a);
    forall k | 0 <= k < |w'.lanes| ensures LaneOk(w'.lanes[k], w'.accepted[k], w'.received[k]) {
      assert LaneOk(w.lanes[k], w.accepted[k], w.received[k]);
      if a == PollNext && w.scan.value.at == k && w.lanes[k].queue != [] {
        assert w.lanes[k].queue == [w.lanes[k].queue[0]] + w.lanes[k].queue[1..];
      }
    }
  }

  /** A lane that is closed and empty stays so. */
  lemma DrainedStays(w: World, a: Action, k: nat)
    requires Enabled(w, a) && k < |w.lanes| && Drained(w.lanes[k])
    ensures |Next(w, a).lanes| == |w.lanes| && Drained(Next(w, a).lanes[k])
  {
  }

  lemma LaneCount(w: World, a: Action)
    requires Enabled(w, a)
    ensures |Next(w, a).lanes| == |w.lanes|
  {
  }

  lemma StepKeepsScan(w: World, a: Action)
    requires ScanOk(w) && Enabled(w, a)
    ensures ScanOk(Next(w, a))
  {
    hide SendTo, HasRoom;
    LaneCount(w, a);
    var w' := Next(w, a);
    if w.scan.Some? && a != PollNext {
      assert w'.scan == w.scan;
      var at := w.scan.value.at;
      if w.scan.value.exhausted == at {
        forall k | 0 <= k < at ensures Drained(w'.lanes[k]) {
          DrainedStays(w, a, k);
        }
      }
    }
  }

  lemma OutcomesGrow(w: World, a: Action)
    requires Enabled(w, a)
    ensures Next(w, a).outcomes == w.outcomes
      || (a == PollNext && |Next(w, a).outcomes| == |w.outcomes| + 1 && w.outcomes <= Next(w, a).outcomes)
  {
    hide SendTo;
  }

  lemma StepKeepsOutcomes(w: World, a: Action)
    requires OutcomesOk(w) && ScanOk(w) && Enabled(w, a)
    ensures OutcomesOk(Next(w, a))
  {
    hide OutcomeOk, Next, Enabled, ScanOk;
    var w' := Next(w, a);
    OutcomesGrow(w, a);
    forall i | 0 <= i < |w'.outcomes| ensures OutcomeOk(w', w'.outcomes[i]) {
      if i < |w.outcomes| {
        OldOutcome(w, a, w.outcomes[i]);
      } else {
        NewOutcome(w);
      }
    }
  }

  lemma OldOutcome(w: World, a: Action, outcome: Outcome)
    requires OutcomeOk(w, outcome) && Enabled(w, a)
    ensures OutcomeOk(Next(w, a), outcome)
  {
    hide Next, Enabled;
    LaneCount(w, a);
    if outcome.polled.Ended? {
      forall k | 0 <= k < |w.lanes| ensures Drained(Next(w, a).lanes[k]) {
        DrainedStays(w, a, k);
      }
    }
  }

  lemma NewOutcome(w: World)
    requires ScanOk(w) && Enabled(w, PollNext) && Next(w, PollNext).outcomes != w.outcomes
    ensures var w' := Next(w, PollNext);
      |w'.outcomes| == |w.outcomes| + 1 && OutcomeOk(w', w'.outcomes[|w.outcomes|])
  {
  }

  lemma StepKeepsInv(w: World, a: Action)
    requires Inv(w) && Enabled(w, a)
    ensures Inv(Next(w, a))
  {
    hide LanesOk, ScanOk, OutcomesOk, Next, Enabled;
    StepKeepsLanes(w, a);
    StepKeepsScan(w, a);
    StepKeepsOutcomes(w, a);
  }

  lemma {:induction false} InvInRuns(run: seq<World>, actions: seq<Action>, i: nat)
    requires IsRun(run, actions) && i < |run|
    ensures Inv(run[i])
  {
    hide Next, Enabled;
    if i > 0 {
      hide Inv, Initial;
      InvInRuns(run, actions, i - 1);
      StepKeepsInv(run[i - 1], actions[i - 1]);
    }
  }

  /** Over every run: what a lane delivered is a prefix of what it accepted, in
      order, and a bounded lane never exceeds its capacity. */
  lemma LaneIsFifo(run: seq<World>, actions: seq<Action>, i: nat, k: nat)
    requires IsRun(run, actions) && i < |run| && k < |run[i].lanes|
    ensures k < |run[i].accepted| && k < |run[i].received|
    ensures run[i].received[k] <= run[i].accepted[k]
    ensures run[i].accepted[k] == run[i].received[k] + run[i].lanes[k].queue
    ensures run[i].lanes[k].capacity.Some? ==> |run[i].lanes[k].queue| <= run[i].lanes[k].capacity.value
  {
    hide Next, Enabled, ScanOk, OutcomesOk;
    InvInRuns(run, actions, i);
    assert LaneOk(run[i].lanes[k], run[i].accepted[k], run[i].received[k]);
  }

  /** A message from lane j is returned only by a scan that found every lower lane
      empty when it polled it. */
  lemma PriorityRespected(run: seq<World>, actions: seq<Action>, i: nat, n: nat)
    requires IsRun(run, actions) && i < |run| && n < |run[i].outcomes| && run[i].outcomes[n].polled.Ready?
    ensures var outcome := run[i].outcomes[n];
      |outcome.seen| == outcome.polled.lane && forall k :: 0 <= k < |outcome.seen| ==> outcome.seen[k] == []
  {
    hide Next, Enabled, ScanOk, LanesOk;
    InvInRuns(run, actions, i);
    assert OutcomeOk(run[i], run[i].outcomes[n]);
  }

  /** Once a poll has ended the mailbox, every lane is closed and drained, then and
      ever after. */
  lemma EndMeansDrained(run: seq<World>, actions: seq<Action>, i: nat, n: nat)
    requires IsRun(run, actions) && i < |run| && n < |run[i].outcomes| && run[i].outcomes[n].polled.Ended?
    ensures forall k :: 0 <= k < |run[i].lanes| ==> run[i].lanes[k].closed && run[i].lanes[k].queue == []
  {
    hide Next, Enabled, ScanOk, LanesOk;
    InvInRuns(run, actions, i);
    assert OutcomeOk(run[i], run[i].outcomes[n]);
    forall k | 0 <= k < |run[i].lanes| ensures run[i].lanes[k].closed && run[i].lanes[k].queue == [] {
      assert Drained(run[i].lanes[k]);
    }
  }

  /** A poll that returns no message found every lane empty when it polled it. */
  lemma EmptyHanded(run: seq<World>, actions: seq<Action>, i: nat, n: nat)
    requires IsRun(run, actions) && i < |run| && n < |run[i].outcomes| && !run[i].outcomes[n].polled.Ready?
    ensures |run[i].outcomes[n].seen| == |run[i].lanes|
    ensures forall k :: 0 <= k < |run[i].lanes| ==> run[i].outcomes[n].seen[k] == []
  {
    hide Next, Enabled, ScanOk, LanesOk;
    InvInRuns(run, actions, i);
    assert OutcomeOk(run[i], run[i].outcomes[n]);
  }

  predicate SendsTo(a: Action, k: nat) {
    (a.TrySend? && a.lane == k && a.sendable) || (a.AwaitedSend? && a.lane == k)
  }

  lemma StepAccepts(w: World, a: Action, k: nat)
    requires LanesOk(w) && Enabled(w, a) && k < |w.lanes|
    ensures k < |Next(w, a).accepted| && k < |Next(w, a).lanes|
    ensures SendsTo(a, k) ==>
      Next(w, a).accepted[k] == w.accepted[k] + if w.lanes[k].closed || !HasRoom(w.lanes[k]) then [] else [a.message]
    ensures !SendsTo(a, k) ==> Next(w, a).accepted[k] == w.accepted[k]
    ensures Next(w, a).lanes[k].closed <==> w.lanes[k].closed || a == CloseLane(k)
    ensures Next(w, a).lanes[k].capacity == w.lanes[k].capacity
  {
  }

  /** A lane accepts exactly the sendable messages sent to it while it is open and has room,
      each at the tail, and is closed exactly by a close. */
  lemma LaneAcceptsExactly(run: seq<World>, actions: seq<Action>, i: nat, k: nat)
    requires IsRun(run, actions) && i < |actions| && k < |run[i].lanes|
    ensures k < |run[i].accepted| && k < |run[i + 1].accepted| && k < |run[i + 1].lanes|
    ensures var a, lane := actions[i], run[i].lanes[k];
      var room := lane.capacity.None? || |lane.queue| < lane.capacity.value;
      && (SendsTo(a, k) && !lane.closed && room ==> run[i + 1].accepted[k] == run[i].accepted[k] + [a.message])
      && (!(SendsTo(a, k) && !lane.closed && room) ==> run[i + 1].accepted[k] == run[i].accepted[k])
      && (run[i + 1].lanes[k].closed <==> lane.closed || a == CloseLane(k))
  {
    hide Next, Enabled, ScanOk, OutcomesOk;
    InvInRuns(run, actions, i);
    StepAccepts(run[i], actions[i], k);
  }

  lemma ClosedStaysClosed(w: World, a: Action, k: nat)
    requires Enabled(w, a) && k < |w.lanes| && k < |w.accepted| && w.lanes[k].closed
    ensures k < |Next(w, a).lanes| && Next(w, a).lanes[k].closed
    ensures k < |Next(w, a).accepted| && Next(w, a).accepted[k] == w.accepted[k]
  {
  }

  /** After a lane is closed it accepts nothing more: its history of accepted
      messages is frozen, whatever is sent. */
  lemma {:induction false} ClosedAcceptsNothing(run: seq<World>, actions: seq<Action>, i: nat, j: nat, k: nat)
    requires IsRun(run, actions) && i <= j < |run| && k < |run[i].lanes| && run[i].lanes[k].closed
    ensures k < |run[i].accepted| && k < |run[j].lanes| && k < |run[j].accepted|
    ensures run[j].lanes[k].closed && run[j].accepted[k] == run[i].accepted[k]
  {
    hide Next, Enabled, ScanOk, OutcomesOk;
    InvInRuns(run, actions, i);
    if i < j {
      ClosedAcceptsNothing(run, actions, i, j - 1, k);
      ClosedStaysClosed(run[j - 1], actions[j - 1], k);
    }
  }

  /** The rest of a scan that nothing interrupts. */
  function RestOfScan(w: World): World
    requires w.scan.Some? ==> w.scan.value.at <= |w.lanes| == |w.received|
    decreases if w.scan.Some? then 1 + |w.lanes| - w.scan.value.at else 0
  {
    if w.scan.None? then w else RestOfScan(Advance(w))
  }

  /** An uninterrupted scan is one poll of the mailbox as a whole. */
  lemma {:induction false} UninterruptedScan(w: World)
    requires w.scan.Some? && w.scan.value.at <= |w.lanes| == |w.received|
    requires w.scan.value.exhausted <= w.scan.value.at
    requires forall k :: 0 <= k < w.scan.value.at ==> w.lanes[k].queue == []
    requires w.scan.value.exhausted == w.scan.value.at <==> forall k :: 0 <= k < w.scan.value.at ==> Drained(w.lanes[k])
    ensures var end := RestOfScan(w);
      |end.outcomes| == |w.outcomes| + 1 && PollMeans(w.lanes, end.outcomes[|w.outcomes|].polled, end.lanes)
    decreases |w.lanes| - w.scan.value.at
  {
    var at := w.scan.value.at;
    if at < |w.lanes| && w.lanes[at].queue == [] {
      UninterruptedScan(Advance(w));
    } else if at < |w.lanes| {
      assert w.lanes[at].queue == [w.lanes[at].queue[0]] + w.lanes[at].queue[1..];
      assert !Drained(w.lanes[at]);
    }
  }

  /** A whole poll: started when none is under way and interrupted by nothing, it answers and
      changes the lanes exactly as polling them in order does. */
  lemma WholePoll(w: World)
    requires Enabled(w, StartPoll) && |w.lanes| == |w.received|
    ensures var begun := Next(w, StartPoll);
      begun.scan.Some? && begun.scan.value.at <= |begun.lanes| == |begun.received|
    ensures var end := RestOfScan(Next(w, StartPoll));
      && |end.outcomes| == |w.outcomes| + 1 && end.scan.None?
      && PollMeans(w.lanes, end.outcomes[|w.outcomes|].polled, end.lanes)
  {
    UninterruptedScan(Next(w, StartPoll));
    ScanEnds(Next(w, StartPoll));
  }

  lemma {:induction false} ScanEnds(w: World)
    requires w.scan.Some? ==> w.scan.value.at <= |w.lanes| == |w.received|
    ensures RestOfScan(w).scan.None?
    decreases if w.scan.Some? then 1 + |w.lanes| - w.scan.value.at else 0
  {
    if w.scan.Some? {
      ScanEnds(Advance(w));
    }
  }
}
