/** The write-once cell under concurrency: any number of `get`, `set` and
    `get_or_init` calls, one step per atomic load or store, per lock acquisition or
    release, and per access to the value's memory. */
module Once {

  import opened Options

  type CallId = nat
  type Value = nat

  /** An initializer may panic instead of returning its value. */
  datatype Kind = Get | Set(value: Value) | GetOrInit(value: Value, panics: bool)

  datatype Outcome = Got(value: Value) | Nothing | Stored | Refused | InitPanicked | ExpectFailed

  datatype At =
    | Start
    | Reading
    | WantLock
    | Checking
    | Computing
    | Writing
    | Storing
    | Unlocking(won: bool)
    | Unwinding
    | Reloading
    | Finished(outcome: Outcome)

  datatype Call = Call(kind: Kind, at: At)

  /** `memory` is the value's memory, absent while uninitialized; `written` is the
      history of writes to it and `computed` of initializers that returned. */
  datatype World = World(
    full: bool,
    memory: Option<Value>,
    lock: Option<CallId>,
    calls: map<CallId, Call>,
    written: seq<(CallId, Value)>,
    computed: seq<CallId>)

  const Empty := World(false, None, None, map[], [], [])

  datatype Action = Begin(call: CallId, kind: Kind) | Step(call: CallId)

  predicate Enabled(w: World, a: Action) {
    match a
    case Begin(c, _) => c !in w.calls
    case Step(c) => c in w.calls && !w.calls[c].at.Finished? && (w.calls[c].at == WantLock ==> w.lock.None?)
  }

  function Move(w: World, c: CallId, at: At): World
    requires c in w.calls
  {
    w.(calls := w.calls[c := w.calls[c].(at := at)])
  }

  function ValueOf(kind: Kind): Value {
    if kind.Get? then 0 else kind.value
  }

  function Stepped(w: World, c: CallId): World
    requires c in w.calls
  {
    var kind := w.calls[c].kind;
    match w.calls[c].at
    case Start =>
      if kind.Set? then Move(w, c, WantLock)
      else if w.full then Move(w, c, Reading)
      else Move(w, c, if kind.Get? then Finished(Nothing) else WantLock)
    case Reading => Move(w, c, if w.memory.Some? then Finished(Got(w.memory.value)) else Finished(ExpectFailed))
    case WantLock => Move(w, c, Checking).(lock := Some(c))
    case Checking => Move(w, c, if w.full then Unlocking(false) else if kind.Set? then Writing else Computing)
    case Computing =>
      if kind.GetOrInit? && kind.panics then Move(w, c, Unwinding)
      else Move(w, c, Writing).(computed := w.computed + [c])
    case Writing => Move(w, c, Storing).(memory := Some(ValueOf(kind)), written := w.written + [(c, ValueOf(kind))])
    case Storing => Move(w, c, Unlocking(true)).(full := true)
    case Unlocking(won) =>
      Move(w, c, if kind.GetOrInit? then Reloading else Finished(if won then Stored else Refused)).(lock := None)
    case Unwinding => Move(w, c, Finished(InitPanicked)).(lock := None)
    case Reloading => Move(w, c, if w.full then Reading else Finished(ExpectFailed))
    case Finished(_) => w
  }

  function Next(w: World, a: Action): World
    requires Enabled(w, a)
  {
    match a
    case Begin(c, kind) => w.(calls := w.calls[c := Call(kind, Start)])
    case Step(c) => Stepped(w, c)
  }

  ghost predicate IsRun(run: seq<World>, actions: seq<Action>) {
    && |run| == |actions| + 1 && run[0] == Empty
    && forall i :: 0 <= i < |actions| ==> Enabled(run[i], actions[i]) && run[i + 1] == Next(run[i], actions[i])
  }

  // ------------------------------------------------------------------- invariant

  /** One write at most; a write not yet announced belongs to the lock's holder. */
  ghost predicate CellOk(w: World) {
    && |w.written| <= 1
    && (w.written == [] ==> w.memory == None && !w.full)
    && (w.written != [] ==> w.memory == Some(w.written[0].1) && WrittenByCaller(w, w.written[0].0, w.written[0].1))
    && (w.written != [] && !w.full ==> w.lock.Some? && w.lock.value in w.calls && w.calls[w.lock.value].at == Storing)
    && |w.computed| <= 1
    && (w.written != [] ==> w.computed == if Initialized(w) then [w.written[0].0] else [])
    && (w.computed != [] ==>
        w.written != [] || (w.lock.Some? && w.lock.value in w.calls && w.calls[w.lock.value].at == Writing))
  }

  /** What is held was written by an initializing call. */
  predicate Initialized(w: World) {
    w.written != [] && w.written[0].0 in w.calls && w.calls[w.written[0].0].kind.GetOrInit?
  }

  /** The value is the one its writer was called with: a `set`, or an initializer that
      did not panic. */
  predicate WrittenByCaller(w: World, c: CallId, v: Value) {
    && c in w.calls && !w.calls[c].kind.Get? && v == w.calls[c].kind.value
    && (w.calls[c].kind.GetOrInit? ==> !w.calls[c].kind.panics)
  }

  predicate HoldsLock(at: At) {
    at.Checking? || at.Computing? || at.Writing? || at.Storing? || at.Unlocking? || at.Unwinding?
  }

  ghost predicate CallOk(w: World, c: CallId, call: Call) {
    && (HoldsLock(call.at) ==> w.lock == Some(c))
    && (call.at.WantLock? || call.at.Checking? ==> !call.kind.Get?)
    && (call.at.Computing? || call.at.Writing? ==> !w.full && w.written == [])
    && (call.at.Computing? ==> w.computed == [] && call.kind.GetOrInit?)
    && (call.at.Writing? ==> !call.kind.Get? && w.computed == if call.kind.GetOrInit? then [c] else [])
    && (call.at.Storing? ==> w.written == [(c, ValueOf(call.kind))])
    && (call.at.Reading? || call.at.Reloading? || call.at.Unlocking? ==> w.full)
    && (call.at == Unlocking(true) || call.at == Finished(Stored) ==> w.full && w.written == [(c, ValueOf(call.kind))])
    && (call.at.Finished? && call.at.outcome.Got? ==>
        w.full && w.written != [] && w.written[0].1 == call.at.outcome.value)
    && (call.at == Finished(Refused) ==> w.full)
    && call.at != Finished(ExpectFailed)
  }

  predicate Wrote(w: World, c: CallId) {
    w.written != [] && w.written[0].0 == c
  }

  /** Which points and outcomes each kind of call can reach, and which after writing. */
  predicate FitsKind(w: World, c: CallId, call: Call) {
    match call.at
    case Start => !Wrote(w, c)
    case Reading => !call.kind.Set?
    case WantLock => !Wrote(w, c)
    case Checking => !Wrote(w, c)
    case Computing => call.kind.GetOrInit?
    case Writing => call.kind.GetOrInit? ==> !call.kind.panics
    case Storing => call.kind.GetOrInit? ==> !call.kind.panics
    case Unlocking(won) => !call.kind.Get? && (won <==> Wrote(w, c))
    case Unwinding => call.kind.GetOrInit? && call.kind.panics && !Wrote(w, c)
    case Reloading => call.kind.GetOrInit?
    case Finished(Got(_)) => !call.kind.Set?
    case Finished(Nothing) => call.kind.Get?
    case Finished(Stored) => call.kind.Set? && Wrote(w, c)
    case Finished(Refused) => call.kind.Set? && !Wrote(w, c)
    case Finished(InitPanicked) => call.kind.GetOrInit? && call.kind.panics && !Wrote(w, c)
    case Finished(ExpectFailed) => false
  }

  ghost predicate CallsOk(w: World) {
    && (w.lock.Some? ==> w.lock.value in w.calls && HoldsLock(w.calls[w.lock.value].at))
    && forall c :: c in w.calls ==> CallOk(w, c, w.calls[c]) && FitsKind(w, c, w.calls[c])
  }

  ghost predicate Inv(w: World) {
    CellOk(w) && CallsOk(w)
  }

  lemma OwnStepKeepsCell(w: World, c: CallId)
    requires CellOk(w) && c in w.calls && CallOk(w, c, w.calls[c]) && FitsKind(w, c, w.calls[c])
    requires w.calls[c].at == WantLock ==> w.lock.None?
    ensures CellOk(Stepped(w, c))
  {
  }

  lemma OwnStepKeepsCall(w: World, c: CallId)
    requires CellOk(w) && c in w.calls && CallOk(w, c, w.calls[c])
    requires w.calls[c].at == WantLock ==> w.lock.None?
    ensures CallOk(Stepped(w, c), c, Stepped(w, c).calls[c])
  {
  }

  lemma OwnStepFits(w: World, c: CallId)
    requires CellOk(w) && c in w.calls && CallOk(w, c, w.calls[c]) && FitsKind(w, c, w.calls[c])
    requires w.calls[c].at == WantLock ==> w.lock.None?
    ensures FitsKind(Stepped(w, c), c, Stepped(w, c).calls[c])
  {
  }

  lemma OtherCallKeeps(w: World, c: CallId, d: CallId)
    requires CellOk(w) && c in w.calls && d in w.calls && c != d && CallOk(w, c, w.calls[c]) && CallOk(w, d, w.calls[d])
    requires w.calls[c].at == WantLock ==> w.lock.None?
    ensures d in Stepped(w, c).calls && CallOk(Stepped(w, c), d, Stepped(w, c).calls[d])
  {
  }

  lemma OtherCallFits(w: World, c: CallId, d: CallId)
    requires CellOk(w) && c in w.calls && d in w.calls && c != d && CallOk(w, c, w.calls[c])
      && FitsKind(w, d, w.calls[d])
    ensures d in Stepped(w, c).calls && FitsKind(Stepped(w, c), d, Stepped(w, c).calls[d])
  {
  }

  lemma LockStays(w: World, c: CallId)
    requires CallsOk(w) && c in w.calls && (w.calls[c].at == WantLock ==> w.lock.None?)
    ensures var w' := Stepped(w, c);
      w'.lock.Some? ==> w'.lock.value in w'.calls && HoldsLock(w'.calls[w'.lock.value].at)
  {
    assert CallOk(w, c, w.calls[c]);
  }

  lemma BeginKeeps(w: World, c: CallId, kind: Kind)
    requires Inv(w) && c !in w.calls
    ensures Inv(Next(w, Begin(c, kind)))
  {
    hide Stepped;
    var w' := Next(w, Begin(c, kind));
    forall d | d in w'.calls ensures CallOk(w', d, w'.calls[d]) && FitsKind(w', d, w'.calls[d]) {
      if d != c {
        assert CallOk(w, d, w.calls[d]) && FitsKind(w, d, w.calls[d]);
      }
    }
  }

  lemma StepKeepsInv(w: World, a: Action)
    requires Inv(w) && Enabled(w, a)
    ensures Inv(Next(w, a))
  {
    var w' := Next(w, a);
    if a.Begin? {
      BeginKeeps(w, a.call, a.kind);
    } else {
      hide CallOk, CellOk, FitsKind, Stepped;
      assert CallOk(w, a.call, w.calls[a.call]) && FitsKind(w, a.call, w.calls[a.call]);
      OwnStepKeepsCell(w, a.call);
      OwnStepKeepsCall(w, a.call);
      OwnStepFits(w, a.call);
      LockStays(w, a.call);
      SameCalls(w, a.call);
      forall d | d in w'.calls ensures CallOk(w', d, w'.calls[d]) && FitsKind(w', d, w'.calls[d]) {
        if d != a.call {
          OtherCallKeeps(w, a.call, d);
          OtherCallFits(w, a.call, d);
        }
      }
    }
  }

  lemma OnlyOwnCall(w: World, c: CallId)
    requires c in w.calls
    ensures c in Stepped(w, c).calls && Stepped(w, c).calls[c].kind == w.calls[c].kind
    ensures Stepped(w, c).calls == w.calls[c := Stepped(w, c).calls[c]]
  {
  }

  lemma SameCalls(w: World, c: CallId)
    requires c in w.calls
    ensures Stepped(w, c).calls.Keys == w.calls.Keys
  {
    hide Stepped;
    OnlyOwnCall(w, c);
  }

  lemma {:induction false} InvInRuns(run: seq<World>, actions: seq<Action>, i: nat)
    requires IsRun(run, actions) && i < |run|
    ensures Inv(run[i])
  {
    hide Next, Enabled;
    if i > 0 {
      hide CellOk, CallsOk;
      InvInRuns(run, actions, i - 1);
      StepKeepsInv(run[i - 1], actions[i - 1]);
    }
  }

  // --------------------------------------------------------------- main theorems

  lemma StepOnlyAppends(w: World, a: Action)
    requires Enabled(w, a)
    ensures w.written <= Next(w, a).written && (w.full ==> Next(w, a).full)
  {
  }

  lemma {:induction false} WrittenGrows(run: seq<World>, actions: seq<Action>, i: nat, j: nat)
    requires IsRun(run, actions) && i <= j < |run|
    ensures run[i].written <= run[j].written && (run[i].full ==> run[j].full)
  {
    hide Next, Enabled;
    if i < j {
      WrittenGrows(run, actions, i, j - 1);
      StepOnlyAppends(run[j - 1], actions[j - 1]);
    }
  }

  /** What a call that ended says the value is: what it read, or what it stored. */
  function Claim(call: Call): Option<Value> {
    match call.at
    case Finished(Got(v)) => Some(v)
    case Finished(Stored) => if call.kind.Set? then Some(call.kind.value) else None
    case _ => None
  }

  /** All reads and the one successful `set` agree, whenever they happened. */
  lemma EveryoneAgrees(run: seq<World>, actions: seq<Action>, i: nat, j: nat, c: CallId, d: CallId)
    requires IsRun(run, actions) && i <= j < |run| && c in run[i].calls && d in run[j].calls
    requires Claim(run[i].calls[c]).Some? && Claim(run[j].calls[d]).Some?
    ensures Claim(run[i].calls[c]) == Claim(run[j].calls[d])
    ensures run[i].calls[c].at == Finished(Stored) && run[j].calls[d].at == Finished(Stored) ==> c == d
  {
    hide Next, Enabled;
    InvInRuns(run, actions, i);
    InvInRuns(run, actions, j);
    WrittenGrows(run, actions, i, j);
    assert CallOk(run[i], c, run[i].calls[c]);
    assert CallOk(run[j], d, run[j].calls[d]);
  }

  /** At most one initializer ever returns, the memory is written at most once and
      never read uninitialized, the lock is held by one call at a time, and the
      expectation at the end of `get_or_init` never fails. */
  lemma InitializedOnce(run: seq<World>, actions: seq<Action>, i: nat, c: CallId, d: CallId)
    requires IsRun(run, actions) && i < |run| && c in run[i].calls && d in run[i].calls
    ensures var w := run[i];
      && |w.computed| <= 1 && |w.written| <= 1
      && (w.calls[c].at.Reading? ==> w.memory.Some?)
      && w.calls[c].at != Finished(ExpectFailed)
      && (HoldsLock(w.calls[c].at) && HoldsLock(w.calls[d].at) ==> c == d)
      && (w.calls[c].at == Finished(Refused) ==> w.full)
  {
    hide Next, Enabled;
    InvInRuns(run, actions, i);
    assert CallOk(run[i], c, run[i].calls[c]);
    assert CallOk(run[i], d, run[i].calls[d]);
  }

  /** What a call that ended answers: a `set` is stored exactly if the memory holds its own
      write and refused otherwise; an initializing call gets the value, its own exactly if
      it wrote it, unless its initializer ran and panicked; what is held was written by a
      `set` or by an initializer that returned. */
  lemma OutcomesExactly(run: seq<World>, actions: seq<Action>, i: nat, c: CallId)
    requires IsRun(run, actions) && i < |run| && c in run[i].calls && run[i].calls[c].at.Finished?
    ensures var w, kind, outcome := run[i], run[i].calls[c].kind, run[i].calls[c].at.outcome;
      && (kind.Set? ==> outcome == if Wrote(w, c) then Stored else Refused)
      && (kind.Set? ==> w.full)
      && (kind.Get? ==> outcome == Nothing || (outcome.Got? && w.full))
      && (kind.GetOrInit? ==> if outcome.Got? then w.full else outcome == InitPanicked && kind.panics)
      && (outcome.Got? ==> w.written != [] && outcome.value == w.written[0].1)
      && (w.written != [] ==> WrittenByCaller(w, w.written[0].0, w.written[0].1))
      && (w.written != [] ==> w.computed == if Initialized(w) then [w.written[0].0] else [])
  {
    hide Next, Enabled;
    InvInRuns(run, actions, i);
    assert CallOk(run[i], c, run[i].calls[c]) && FitsKind(run[i], c, run[i].calls[c]);
  }

  lemma StepAnswersNothing(w: World, a: Action, c: CallId)
    requires Enabled(w, a) && c in Next(w, a).calls && Next(w, a).calls[c].at == Finished(Nothing)
    ensures c in w.calls && (w.calls[c].at == Finished(Nothing) || (a == Step(c) && !w.full))
  {
  }

  /** A `get` answers nothing only if the cell was empty when it looked. */
  lemma {:induction false} NothingMeansEmpty(run: seq<World>, actions: seq<Action>, i: nat, c: CallId)
    requires IsRun(run, actions) && i < |run| && c in run[i].calls && run[i].calls[c].at == Finished(Nothing)
    ensures exists k :: 0 <= k < i && actions[k] == Step(c) && !run[k].full
  {
    hide Next, Enabled;
    if i > 0 {
      StepAnswersNothing(run[i - 1], actions[i - 1], c);
      if run[i - 1].calls[c].at == Finished(Nothing) {
        NothingMeansEmpty(run, actions, i - 1, c);
      }
    }
  }

  function Phase(at: At): nat {
    match at
    case Start => 9
    case WantLock => 8
    case Checking => 7
    case Computing => 6
    case Writing => 5
    case Storing => 4
    case Unlocking(_) => 3
    case Unwinding => 3
    case Reloading => 2
    case Reading => 1
    case Finished(_) => 0
  }

  /** Every step brings its call closer to the end: none takes more than nine, waiting for
      the lock aside, and the lock's holder can always go on. */
  lemma StepGoesOn(w: World, c: CallId)
    requires c in w.calls && !w.calls[c].at.Finished?
    ensures Phase(Stepped(w, c).calls[c].at) < Phase(w.calls[c].at)
    ensures HoldsLock(w.calls[c].at) ==> Enabled(w, Step(c))
  {
  }

  lemma StepStands(w: World, a: Action, c: CallId)
    requires Enabled(w, a)
    ensures c in w.calls ==> c in Next(w, a).calls && Next(w, a).calls[c].kind == w.calls[c].kind
    ensures c !in w.calls && c in Next(w, a).calls ==> a.Begin? && a == Begin(c, Next(w, a).calls[c].kind)
    ensures a.Begin? && a.call == c ==> c in Next(w, a).calls && Next(w, a).calls[c] == Call(a.kind, Start)
  {
  }

  /** The calls under way or ended are exactly those that were made, as they were made. */
  lemma {:induction false} CallsAsMade(run: seq<World>, actions: seq<Action>, i: nat, c: CallId)
    requires IsRun(run, actions) && i < |run|
    ensures c in run[i].calls ==> exists k :: 0 <= k < i && actions[k] == Begin(c, run[i].calls[c].kind)
    ensures forall k :: 0 <= k < i && actions[k].Begin? && actions[k].call == c ==>
      c in run[i].calls && run[i].calls[c].kind == actions[k].kind
  {
    hide Next;
    if i > 0 {
      CallsAsMade(run, actions, i - 1, c);
      StepStands(run[i - 1], actions[i - 1], c);
    }
  }
}
