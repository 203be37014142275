/** The lock-free global collection: an intrusive list whose head is moved by a
    compare-exchange loop, with any number of `register` calls (repeated ones too)
    and iterators interleaving atomic operation by atomic operation. */
module Collect {

  import opened Options

  type Entry = nat
  type CallId = nat
  type ReaderId = nat
  type Link = Option<Entry>

  /** Where a `register` call stands, between two atomic operations. */
  datatype Call =
    | AtSwap(entry: Entry)
    | AtLoad(entry: Entry)
    | AtWrite(entry: Entry, seen: Link)
    | AtCas(entry: Entry, seen: Link)
    | Returned(entry: Entry, won: bool)

  /** The call that won the `initialized` swap and has not published the entry yet. */
  predicate Owns(c: Call) {
    c.AtLoad? || c.AtWrite? || c.AtCas?
  }

  datatype IterState = Uninitialized | Iterating(entry: Entry) | Done

  /** `yielded` is what the iterator has produced; `snapshot` is the history of the
      list at its load of the head. */
  datatype Reader = Reader(state: IterState, yielded: seq<Entry>, snapshot: seq<Entry>)

  /** The list itself plus the calls in progress. `published` is the history of
      successful exchanges, newest first. */
  datatype World = World(
    head: Link,
    next: map<Entry, Link>,
    initialized: set<Entry>,
    calls: map<CallId, Call>,
    readers: map<ReaderId, Reader>,
    published: seq<Entry>)

  const Empty := World(None, map[], {}, map[], map[], [])

  datatype Action =
    | Call(call: CallId, entry: Entry)
    | SwapInitialized(call: CallId)
    | LoadHead(call: CallId)
    | WriteNext(call: CallId)
    | ExchangeHead(call: CallId)
    | Iterate(reader: ReaderId)
    | LoadFirst(reader: ReaderId)
    | Advance(reader: ReaderId)

  predicate Enabled(w: World, a: Action) {
    match a
    case Call(c, _) => c !in w.calls
    case SwapInitialized(c) => c in w.calls && w.calls[c].AtSwap?
    case LoadHead(c) => c in w.calls && w.calls[c].AtLoad?
    case WriteNext(c) => c in w.calls && w.calls[c].AtWrite?
    case ExchangeHead(c) => c in w.calls && w.calls[c].AtCas?
    case Iterate(r) => r !in w.readers
    case LoadFirst(r) => r in w.readers && w.readers[r].state.Uninitialized?
    case Advance(r) => r in w.readers && w.readers[r].state.Iterating?
  }

  function NextOf(w: World, e: Entry): Link {
    if e in w.next then w.next[e] else None
  }

  function ToState(l: Link): IterState {
    if l.Some? then Iterating(l.value) else Done
  }

  function SetCall(w: World, c: CallId, call: Call): World {
    w.(calls := w.calls[c := call])
  }

  function Exchanged(w: World, c: CallId): World
    requires c in w.calls && w.calls[c].AtCas?
  {
    var call := w.calls[c];
    if w.head == call.seen then
      SetCall(w, c, Returned(call.entry, true)).(head := Some(call.entry), published := [call.entry] + w.published)
    else SetCall(w, c, AtWrite(call.entry, w.head))
  }

  function Advanced(w: World, r: ReaderId): World
    requires r in w.readers && w.readers[r].state.Iterating?
  {
    var reader := w.readers[r];
    var e := reader.state.entry;
    w.(readers := w.readers[r := Reader(ToState(NextOf(w, e)), reader.yielded + [e], reader.snapshot)])
  }

  function Next(w: World, a: Action): World
    requires Enabled(w, a)
  {
    match a
    case Call(c, e) => SetCall(w, c, AtSwap(e))
    case SwapInitialized(c) =>
      var e := w.calls[c].entry;
      if e in w.initialized then SetCall(w, c, Returned(e, false))
      else SetCall(w, c, AtLoad(e)).(initialized := w.initialized + {e})
    case LoadHead(c) => SetCall(w, c, AtWrite(w.calls[c].entry, w.head))
    case WriteNext(c) =>
      var call := w.calls[c];
      SetCall(w, c, AtCas(call.entry, call.seen)).(next := w.next[call.entry := call.seen])
    case ExchangeHead(c) => Exchanged(w, c)
    case Iterate(r) => w.(readers := w.readers[r := Reader(Uninitialized, [], [])])
    case LoadFirst(r) => w.(readers := w.readers[r := Reader(ToState(w.head), [], w.published)])
    case Advance(r) => Advanced(w, r)
  }

  ghost predicate IsRun(run: seq<World>, actions: seq<Action>) {
    && |run| == |actions| + 1 && run[0] == Empty
    && forall i :: 0 <= i < |actions| ==> Enabled(run[i], actions[i]) && run[i + 1] == Next(run[i], actions[i])
  }

  // ------------------------------------------------------------------ invariants

  function LinkAt(published: seq<Entry>, i: nat): Link {
    if i < |published| then Some(published[i]) else None
  }

  /** The list is exactly the published sequence: no entry twice, no cycle. */
  ghost predicate IsList(w: World) {
    && w.head == LinkAt(w.published, 0)
    && (forall i {:trigger NextOf(w, w.published[i])} :: 0 <= i < |w.published| ==>
        NextOf(w, w.published[i]) == LinkAt(w.published, i + 1))
    && (forall i, j :: 0 <= i < j < |w.published| ==> w.published[i] != w.published[j])
  }

  ghost predicate CallOk(w: World, c: Call) {
    && (Owns(c) ==> c.entry in w.initialized && c.entry !in w.published)
    && (c.AtCas? ==> NextOf(w, c.entry) == c.seen)
    && (c.Returned? ==> c.entry in w.initialized && (c.won ==> c.entry in w.published))
  }

  ghost predicate HasOwner(w: World, e: Entry) {
    exists c :: c in w.calls && Owns(w.calls[c]) && w.calls[c].entry == e
  }

  ghost predicate EachCallOk(w: World) {
    forall c :: c in w.calls ==> CallOk(w, w.calls[c])
  }

  ghost predicate Rivals(w: World, c: CallId, d: CallId) {
    c in w.calls && d in w.calls && Owns(w.calls[c]) && Owns(w.calls[d]) && w.calls[c].entry == w.calls[d].entry
  }

  ghost predicate OneOwner(w: World) {
    forall c, d :: Rivals(w, c, d) ==> c == d
  }

  ghost predicate EntriesOk(w: World) {
    && (forall e :: e in w.published ==> e in w.initialized)
    && (forall e :: e in w.initialized ==> e in w.published || HasOwner(w, e))
  }

  /** Every initialized entry is published, or owned by exactly one call. */
  ghost predicate CallsOk(w: World) {
    EachCallOk(w) && OneOwner(w) && EntriesOk(w)
  }

  ghost predicate IsSuffix(a: seq<Entry>, b: seq<Entry>) {
    |a| <= |b| && b[|b| - |a|..] == a
  }

  /** An iterator walks its snapshot, which is a suffix of the list from then on. */
  ghost predicate ReaderOk(w: World, r: Reader) {
    && IsSuffix(r.snapshot, w.published) && |r.yielded| <= |r.snapshot|
    && r.yielded == r.snapshot[..|r.yielded|]
    && match r.state {
         case Uninitialized => r.snapshot == []
         case Iterating(e) => LinkAt(r.snapshot, |r.yielded|) == Some(e)
         case Done => r.yielded == r.snapshot
       }
  }

  ghost predicate ReadersOk(w: World) {
    forall r :: r in w.readers ==> ReaderOk(w, w.readers[r])
  }

  ghost predicate Inv(w: World) {
    IsList(w) && CallsOk(w) && ReadersOk(w)
  }

  predicate Registers(a: Action) {
    a.SwapInitialized? || a.LoadHead? || a.WriteNext? || a.ExchangeHead?
  }

  lemma StepKeepsList(w: World, a: Action)
    requires IsList(w) && EachCallOk(w) && Enabled(w, a)
    ensures IsList(Next(w, a))
  {
    if a.ExchangeHead? || a.WriteNext? {
      assert CallOk(w, w.calls[a.call]);
    }
    var w' := Next(w, a);
    var grown := |w'.published| - |w.published|;
    forall i | 0 <= i < |w'.published| ensures NextOf(w', w'.published[i]) == LinkAt(w'.published, i + 1) {
      if i >= grown {
        assert w'.published[i] == w.published[i - grown];
        assert NextOf(w, w.published[i - grown]) == LinkAt(w.published, i - grown + 1);
      }
    }
  }

  lemma SuffixCons(e: Entry, s: seq<Entry>)
    ensures IsSuffix(s, s) && IsSuffix(s, [e] + s)
  {
  }

  lemma StepExtends(w: World, a: Action)
    requires Enabled(w, a)
    ensures IsSuffix(w.published, Next(w, a).published)
  {
    hide IsSuffix;
    SuffixCons(if a.ExchangeHead? then w.calls[a.call].entry else 0, w.published);
  }

  lemma ConsMember(x: Entry, s: seq<Entry>, e: Entry)
    ensures e in [x] + s <==> e == x || e in s
  {
  }

  /** No step forgets a published or initialized entry, and only an exchange publishes. */
  lemma StepGrows(w: World, a: Action, e: Entry)
    requires Enabled(w, a)
    ensures e in w.initialized ==> e in Next(w, a).initialized
    ensures e in w.published ==> e in Next(w, a).published
    ensures e in Next(w, a).published ==> e in w.published || (a.ExchangeHead? && e == w.calls[a.call].entry)
  {
    if a.ExchangeHead? {
      ConsMember(w.calls[a.call].entry, w.published, e);
    }
  }

  /** Only the link of the entry being registered is written. */
  lemma StepLinks(w: World, a: Action, e: Entry)
    requires Enabled(w, a)
    ensures NextOf(Next(w, a), e) == NextOf(w, e) || (a.WriteNext? && e == w.calls[a.call].entry)
  {
  }

  lemma StepSparesCall(w: World, a: Action, c: CallId)
    requires Enabled(w, a) && c in w.calls && (Registers(a) ==> a.call != c)
    ensures c in Next(w, a).calls && Next(w, a).calls[c] == w.calls[c]
  {
  }

  /** Another call's order survives the step of a call it is no rival of. */
  lemma StepKeepsOtherCall(w: World, a: Action, c: CallId)
    requires Enabled(w, a) && c in w.calls && CallOk(w, w.calls[c])
    requires Registers(a) ==> a.call != c && !Rivals(w, c, a.call)
    ensures c in Next(w, a).calls && CallOk(Next(w, a), Next(w, a).calls[c])
  {
    hide Next, NextOf;
    StepSparesCall(w, a, c);
    StepGrows(w, a, w.calls[c].entry);
    StepLinks(w, a, w.calls[c].entry);
  }

  lemma StepKeepsOwnCall(w: World, a: Action)
    requires Enabled(w, a) && (a.Call? || Registers(a))
    requires Registers(a) ==> CallOk(w, w.calls[a.call])
    requires Registers(a) && w.calls[a.call].entry in w.published ==> w.calls[a.call].entry in w.initialized
    ensures a.call in Next(w, a).calls && CallOk(Next(w, a), Next(w, a).calls[a.call])
  {
  }

  lemma StepKeepsEachCall(w: World, a: Action)
    requires CallsOk(w) && Enabled(w, a)
    ensures EachCallOk(Next(w, a))
  {
    hide HasOwner, CallOk, Owns;
    var w' := Next(w, a);
    forall c | c in w'.calls ensures CallOk(w', w'.calls[c]) {
      if (a.Call? || Registers(a)) && a.call == c {
        StepKeepsOwnCall(w, a);
      } else {
        StepKeepsOtherCall(w, a, c);
      }
    }
  }

  lemma StepKeepsOwners(w: World, a: Action, e: Entry)
    requires EntriesOk(w) && Enabled(w, a) && e in Next(w, a).initialized
    ensures e in Next(w, a).published || HasOwner(Next(w, a), e)
  {
    var w' := Next(w, a);
    if e in w.published {
      StepGrows(w, a, e);
    } else if e in w.initialized {
      var c :| c in w.calls && Owns(w.calls[c]) && w.calls[c].entry == e;
      assert c in w'.calls;
      if a.ExchangeHead? && a.call == c && w.head == w.calls[c].seen {
        assert w'.published[0] == e;
      } else {
        assert Owns(w'.calls[c]) && w'.calls[c].entry == e;
      }
    } else {
      assert a.SwapInitialized? && Owns(w'.calls[a.call]) && w'.calls[a.call].entry == e;
    }
  }

  lemma StepKeepsEntries(w: World, a: Action)
    requires EntriesOk(w) && EachCallOk(w) && Enabled(w, a)
    ensures EntriesOk(Next(w, a))
  {
    hide HasOwner;
    var w' := Next(w, a);
    forall e | e in w'.initialized ensures e in w'.published || HasOwner(w', e) {
      StepKeepsOwners(w, a, e);
    }
    if a.ExchangeHead? {
      assert CallOk(w, w.calls[a.call]);
    }
  }

  lemma StepKeepsOneOwner(w: World, a: Action, c: CallId, d: CallId)
    requires OneOwner(w) && EachCallOk(w) && Enabled(w, a) && Rivals(Next(w, a), c, d)
    ensures c == d
  {
    assert c in w.calls ==> CallOk(w, w.calls[c]);
    assert d in w.calls ==> CallOk(w, w.calls[d]);
    if Rivals(w, c, d) {
      assert c == d;
    }
  }

  lemma StepKeepsCalls(w: World, a: Action)
    requires CallsOk(w) && Enabled(w, a)
    ensures CallsOk(Next(w, a))
  {
    hide EachCallOk, EntriesOk, Next, Enabled, Rivals;
    StepKeepsEachCall(w, a);
    StepKeepsEntries(w, a);
    forall c, d | Rivals(Next(w, a), c, d) ensures c == d {
      StepKeepsOneOwner(w, a, c, d);
    }
  }

  lemma SuffixTrans(a: seq<Entry>, b: seq<Entry>, c: seq<Entry>)
    requires IsSuffix(a, b) && IsSuffix(b, c)
    ensures IsSuffix(a, c)
  {
    assert c[|c| - |a|..] == c[|c| - |b|..][|b| - |a|..];
  }

  lemma ReaderAdvances(w: World, r: Reader)
    requires IsList(w) && ReaderOk(w, r) && r.state.Iterating?
    ensures ReaderOk(w, Reader(ToState(NextOf(w, r.state.entry)), r.yielded + [r.state.entry], r.snapshot))
  {
    var k := |w.published| - |r.snapshot| + |r.yielded|;
    assert w.published[k] == r.snapshot[|r.yielded|] == r.state.entry;
    assert NextOf(w, w.published[k]) == LinkAt(w.published, k + 1);
    assert LinkAt(w.published, k + 1) == LinkAt(r.snapshot, |r.yielded| + 1);
    assert r.snapshot[..|r.yielded| + 1] == r.yielded + [r.state.entry];
    assert |r.yielded| + 1 == |r.snapshot| ==> r.snapshot[..|r.yielded| + 1] == r.snapshot;
  }

  lemma ReaderUntouched(w: World, a: Action, r: ReaderId)
    requires ReadersOk(w) && Enabled(w, a) && r in w.readers
    requires a.LoadFirst? || a.Advance? ==> a.reader != r
    ensures r in Next(w, a).readers && ReaderOk(Next(w, a), Next(w, a).readers[r])
  {
    var w' := Next(w, a);
    assert w'.readers[r] == w.readers[r];
    hide Next;
    assert ReaderOk(w, w.readers[r]);
    StepExtends(w, a);
    SuffixTrans(w.readers[r].snapshot, w.published, w'.published);
  }

  lemma ReaderBegins(w: World, a: Action)
    requires w.head == LinkAt(w.published, 0) && Enabled(w, a) && (a.Iterate? || a.LoadFirst?)
    ensures ReaderOk(Next(w, a), Next(w, a).readers[a.reader])
  {
    hide IsSuffix;
    SuffixCons(0, w.published);
    NilSuffix(w.published);
  }

  lemma HeadIsFirst(w: World)
    requires IsList(w)
    ensures w.head == LinkAt(w.published, 0)
  {
  }

  lemma NilSuffix(s: seq<Entry>)
    ensures IsSuffix([], s)
  {
  }

  lemma StepKeepsReaders(w: World, a: Action)
    requires Inv(w) && Enabled(w, a)
    ensures ReadersOk(Next(w, a))
  {
    hide CallsOk, IsList, ReaderOk;
    var w' := Next(w, a);
    forall r | r in w'.readers ensures ReaderOk(w', w'.readers[r]) {
      if a.Advance? && a.reader == r {
        StepAdvances(w, r);
      } else if (a.Iterate? || a.LoadFirst?) && a.reader == r {
        HeadIsFirst(w);
        ReaderBegins(w, a);
      } else {
        ReaderUntouched(w, a, r);
      }
    }
  }

  lemma StepAdvances(w: World, r: ReaderId)
    requires IsList(w) && ReadersOk(w) && Enabled(w, Advance(r))
    ensures ReaderOk(Next(w, Advance(r)), Next(w, Advance(r)).readers[r])
  {
    ReaderAdvances(w, w.readers[r]);
  }

  lemma {:induction false} InvInRuns(run: seq<World>, actions: seq<Action>, i: nat)
    requires IsRun(run, actions) && i < |run|
    ensures Inv(run[i])
  {
    if i > 0 {
      hide Next, Enabled, IsList, CallsOk, ReadersOk;
      InvInRuns(run, actions, i - 1);
      StepKeepsList(run[i - 1], actions[i - 1]);
      StepKeepsCalls(run[i - 1], actions[i - 1]);
      StepKeepsReaders(run[i - 1], actions[i - 1]);
    }
  }

  // --------------------------------------------------------------- main theorems

  /** The list reached through `head` and `next`, at most `fuel` links long. */
  function Walk(w: World, from: Link, fuel: nat): seq<Entry>
    decreases fuel
  {
    if from.None? || fuel == 0 then [] else [from.value] + Walk(w, NextOf(w, from.value), fuel - 1)
  }

  lemma {:induction false} WalkFrom(w: World, k: nat, fuel: nat)
    requires IsList(w) && k <= |w.published| && fuel >= |w.published| - k
    ensures Walk(w, LinkAt(w.published, k), fuel) == w.published[k..]
    decreases |w.published| - k
  {
    if k < |w.published| {
      WalkFrom(w, k + 1, fuel - 1);
    }
  }

  /** Under every interleaving the list is finite and duplicate-free, and an entry whose
      winning call returned is in it; walking further than its length finds nothing new. */
  lemma ListStaysAcyclic(run: seq<World>, actions: seq<Action>, i: nat, fuel: nat)
    requires IsRun(run, actions) && i < |run| && fuel >= |run[i].published|
    ensures Walk(run[i], run[i].head, fuel) == run[i].published
    ensures forall a, b :: 0 <= a < b < |run[i].published| ==> run[i].published[a] != run[i].published[b]
  {
    hide Next, Enabled, CallsOk, ReadersOk;
    InvInRuns(run, actions, i);
    WalkFrom(run[i], 0, fuel);
  }

  /** An entry for which some `register` call returned is in the list (then exactly once)
      if and only if no call is still publishing it. */
  lemma ReturnedMeansListed(run: seq<World>, actions: seq<Action>, i: nat, c: CallId)
    requires IsRun(run, actions) && i < |run| && c in run[i].calls && run[i].calls[c].Returned?
    ensures var e := run[i].calls[c].entry;
      && multiset(run[i].published)[e] <= 1
      && (e in run[i].published <==> !HasOwner(run[i], e))
      && (run[i].calls[c].won ==> e in run[i].published)
  {
    hide Next, Enabled, ReadersOk;
    InvInRuns(run, actions, i);
    var w := run[i];
    assert CallOk(w, w.calls[c]);
    if HasOwner(w, w.calls[c].entry) {
      var d :| d in w.calls && Owns(w.calls[d]) && w.calls[d].entry == w.calls[c].entry;
      assert CallOk(w, w.calls[d]);
    }
    AtMostOnce(w.published, w.calls[c].entry);
  }

  lemma {:induction false} AtMostOnce(s: seq<Entry>, e: Entry)
    requires forall i, j :: 0 <= i < j < |s| ==> s[i] != s[j]
    ensures multiset(s)[e] <= 1
  {
    if s != [] {
      var front := s[..|s| - 1];
      AtMostOnce(front, e);
      assert s == front + [s[|s| - 1]];
      assert e in front <==> e in multiset(front);
    }
  }

  /** The condition is needed: a repeated `register` of an entry can return while the
      first call has not yet put it into the list. */
  lemma SecondCallReturnsEarly()
    returns (run: seq<World>, actions: seq<Action>)
    ensures IsRun(run, actions)
    ensures var end := run[|actions|]; 1 in end.calls && end.calls[1] == Returned(7, false) && end.published == []
  {
    var w1 := Next(Empty, Call(0, 7));
    var w2 := Next(w1, Call(1, 7));
    var w3 := Next(w2, SwapInitialized(0));
    var w4 := Next(w3, SwapInitialized(1));
    run := [Empty, w1, w2, w3, w4];
    actions := [Call(0, 7), Call(1, 7), SwapInitialized(0), SwapInitialized(1)];
  }

  /** Every earlier list is a suffix of every later one. */
  lemma {:induction false} SnapshotsAreSuffixes(run: seq<World>, actions: seq<Action>, i: nat, j: nat)
    requires IsRun(run, actions) && i <= j < |run|
    ensures IsSuffix(run[i].published, run[j].published)
  {
    hide Next, Enabled, IsList, CallsOk, ReadersOk;
    if i < j {
      SnapshotsAreSuffixes(run, actions, i, j - 1);
      InvInRuns(run, actions, j - 1);
      StepExtends(run[j - 1], actions[j - 1]);
      SuffixTrans(run[i].published, run[j - 1].published, run[j].published);
    }
  }

  lemma {:induction false} SnapshotStays(run: seq<World>, actions: seq<Action>, i: nat, j: nat, r: ReaderId)
    requires IsRun(run, actions) && i < j < |run| && actions[i] == LoadFirst(r)
    ensures r in run[j].readers && !run[j].readers[r].state.Uninitialized?
    ensures run[j].readers[r].snapshot == run[i].published
  {
    if i + 1 < j {
      SnapshotStays(run, actions, i, j - 1, r);
    }
  }

  /** An iterator that finished yielded exactly the list as it was when it loaded the head,
      whatever was registered while it walked. */
  lemma IteratorYieldsSnapshot(run: seq<World>, actions: seq<Action>, i: nat, j: nat, r: ReaderId)
    requires IsRun(run, actions) && i < j < |run| && actions[i] == LoadFirst(r)
    ensures r in run[j].readers && run[j].readers[r].yielded <= run[i].published
    ensures run[j].readers[r].state.Done? <==> run[j].readers[r].yielded == run[i].published
  {
    hide Next, Enabled, IsList, CallsOk;
    SnapshotStays(run, actions, i, j, r);
    InvInRuns(run, actions, j);
    assert ReaderOk(run[j], run[j].readers[r]);
  }

  /** The entries published after the freeze. */
  function PublishedSince(frozen: seq<Entry>, current: seq<Entry>): seq<Entry> {
    if |frozen| <= |current| then current[..|current| - |frozen|] else []
  }

  /** Freeze at step i, count at step j, walk the first `current - frozen` entries at step
      k: those reported were all registered after the freeze. They are all of them if and
      only if nothing was registered between the count and the walk. The registry is stale
      exactly when something was registered since the freeze. */
  lemma LateRegistrations(run: seq<World>, actions: seq<Action>, i: nat, j: nat, k: nat)
    requires IsRun(run, actions) && i <= j <= k < |run|
    ensures |run[i].published| <= |run[j].published| <= |run[k].published|
    ensures var late := |run[j].published| - |run[i].published|;
      var reported := run[k].published[..late];
      && (forall e :: e in reported ==> e in run[k].published && e !in run[i].published)
      && (reported == PublishedSince(run[i].published, run[k].published) <==> run[k].published == run[j].published)
      && (late > 0 <==> exists e :: e in run[j].published && e !in run[i].published)
  {
    hide Next, Enabled, CallsOk, ReadersOk;
    SnapshotsAreSuffixes(run, actions, i, j);
    SnapshotsAreSuffixes(run, actions, j, k);
    SnapshotsAreSuffixes(run, actions, i, k);
    InvInRuns(run, actions, k);
    InvInRuns(run, actions, j);
    var frozen, current, list := run[i].published, run[j].published, run[k].published;
    NewEntries(frozen, list);
    NewEntries(frozen, current);
    if |current| == |list| {
      assert list[0..] == list;
    }
  }

  lemma NewEntries(before: seq<Entry>, after: seq<Entry>)
    requires IsSuffix(before, after) && forall i, j :: 0 <= i < j < |after| ==> after[i] != after[j]
    ensures forall n, e :: 0 <= n <= |after| - |before| && e in after[..n] ==> e !in before
    ensures |after| > |before| <==> exists e :: e in after && e !in before
  {
    var n := |after| - |before|;
    forall i, j | 0 <= i < n && 0 <= j < |before| ensures after[i] != before[j] {
      assert before[j] == after[n + j];
    }
    if n > 0 {
      assert after[0] in after && after[0] !in before;
    } else {
      assert after == before;
    }
  }

  lemma Extend(run: seq<World>, actions: seq<Action>, a: Action) returns (longer: seq<World>, more: seq<Action>)
    requires IsRun(run, actions) && Enabled(run[|actions|], a)
    ensures IsRun(longer, more) && |more| == |actions| + 1 && run <= longer
    ensures longer[|more|] == Next(run[|actions|], a)
  {
    hide Next, Enabled;
    longer, more := run + [Next(run[|actions|], a)], actions + [a];
  }

  /** A run goes on with one `register` call that nothing interrupts. */
  lemma RegisterAlone(run: seq<World>, actions: seq<Action>, c: CallId, e: Entry)
    returns (longer: seq<World>, more: seq<Action>)
    requires IsRun(run, actions) && c !in run[|actions|].calls && e !in run[|actions|].initialized
    ensures IsRun(longer, more) && run <= longer
    ensures var w, end := run[|actions|], longer[|more|];
      && end.published == [e] + w.published
      && end.calls.Keys == w.calls.Keys + {c} && end.initialized == w.initialized + {e}
  {
    hide IsRun;
    longer, more := Extend(run, actions, Call(c, e));
    longer, more := Extend(longer, more, SwapInitialized(c));
    longer, more := Extend(longer, more, LoadHead(c));
    longer, more := Extend(longer, more, WriteNext(c));
    longer, more := Extend(longer, more, ExchangeHead(c));
  }

  /** The report can be incomplete in a real run: nothing is frozen, entry 1 is registered
      and counted, entry 2 is registered before the walk, and entry 1 goes unreported. */
  lemma LateReportIncomplete()
    returns (run: seq<World>, actions: seq<Action>, j: nat)
    ensures IsRun(run, actions) && j < |run|
    ensures run[0].published == [] && run[j].published == [1] && run[|actions|].published == [2, 1]
    ensures run[|actions|].published[..|run[j].published| - |run[0].published|] == [2]
  {
    hide Next, Enabled;
    run, actions := RegisterAlone([Empty], [], 0, 1);
    j := |actions|;
    run, actions := RegisterAlone(run, actions, 1, 2);
  }

  // ------------------------------------------------ what the steps of a run amount to

  /** The step is a winning exchange for the entry. */
  predicate Publishes(w: World, a: Action, e: Entry) {
    a.ExchangeHead? && a.call in w.calls && w.calls[a.call].AtCas?
    && w.calls[a.call].entry == e && w.calls[a.call].seen == w.head
  }

  lemma StepPublishes(w: World, a: Action, e: Entry)
    requires Enabled(w, a)
    ensures Publishes(w, a, e) ==>
      Next(w, a).published == [e] + w.published && Next(w, a).calls[a.call] == Returned(e, true)
    ensures e in Next(w, a).published ==> e in w.published || Publishes(w, a, e)
    ensures !(a.ExchangeHead? && Publishes(w, a, w.calls[a.call].entry)) ==> Next(w, a).published == w.published
  {
  }

  /** An entry is in the list exactly if some call's exchange put it there. */
  lemma {:induction false} PublishedExactly(run: seq<World>, actions: seq<Action>, i: nat, e: Entry)
    requires IsRun(run, actions) && i < |run|
    ensures e in run[i].published <==> exists k :: 0 <= k < i && Publishes(run[k], actions[k], e)
  {
    hide Next, Enabled, Publishes;
    if i > 0 {
      PublishedExactly(run, actions, i - 1, e);
      StepPublishes(run[i - 1], actions[i - 1], e);
      if e in run[i - 1].published {
        SnapshotsAreSuffixes(run, actions, i - 1, i);
        SuffixMember(run[i - 1].published, run[i].published, e);
      } else if Publishes(run[i - 1], actions[i - 1], e) {
        ConsMember(e, run[i - 1].published, e);
      }
    }
  }

  lemma SuffixMember(a: seq<Entry>, b: seq<Entry>, e: Entry)
    requires IsSuffix(a, b) && e in a
    ensures e in b
  {
    var i :| 0 <= i < |a| && a[i] == e;
    assert b[|b| - |a|..][i] == b[|b| - |a| + i];
  }

  lemma StepReturns(w: World, a: Action, c: CallId)
    requires Enabled(w, a) && c in Next(w, a).calls && Next(w, a).calls[c].Returned?
    ensures c in w.calls && w.calls[c].entry == Next(w, a).calls[c].entry
    ensures w.calls[c] == Next(w, a).calls[c]
      || (Next(w, a).calls[c].won && a == ExchangeHead(c) && Publishes(w, a, w.calls[c].entry))
      || (!Next(w, a).calls[c].won && a == SwapInitialized(c) && w.calls[c].entry in w.initialized)
  {
  }

  /** A call that returned either published its entry itself or found it initialized. */
  lemma {:induction false} ReturnsExactly(run: seq<World>, actions: seq<Action>, i: nat, c: CallId)
    requires IsRun(run, actions) && i < |run| && c in run[i].calls && run[i].calls[c].Returned?
    ensures var e := run[i].calls[c].entry;
      if run[i].calls[c].won then
        exists k :: 0 <= k < i && actions[k] == ExchangeHead(c) && Publishes(run[k], actions[k], e)
      else exists k :: 0 <= k < i && actions[k] == SwapInitialized(c) && e in run[k].initialized
  {
    hide Next, Enabled, Publishes;
    if i > 0 {
      StepReturns(run[i - 1], actions[i - 1], c);
      if run[i - 1].calls[c] == run[i].calls[c] {
        ReturnsExactly(run, actions, i - 1, c);
      }
    }
  }

  /** The step loads the head for the call: its first load, or a failed exchange. */
  predicate Loads(w: World, a: Action, c: CallId) {
    a == LoadHead(c) || (a == ExchangeHead(c) && c in w.calls && w.calls[c].AtCas? && w.calls[c].seen != w.head)
  }

  lemma StepSees(w: World, a: Action, c: CallId)
    requires Enabled(w, a) && c in Next(w, a).calls && (Next(w, a).calls[c].AtWrite? || Next(w, a).calls[c].AtCas?)
    ensures if Loads(w, a, c) then Next(w, a).calls[c].seen == w.head && Next(w, a).calls[c].AtWrite?
      else
        && c in w.calls && (w.calls[c].AtWrite? || w.calls[c].AtCas?) && Next(w, a).calls[c].seen == w.calls[c].seen
        && (Next(w, a).calls[c].AtCas? <==> w.calls[c].AtCas? || a == WriteNext(c))
  {
  }

  predicate SeenAt(run: seq<World>, actions: seq<Action>, l: nat, i: nat, c: CallId, seen: Link)
    requires |run| == |actions| + 1 && i < |run|
  {
    && l < i && Loads(run[l], actions[l], c) && run[l].head == seen
    && forall n :: l < n < i ==> !Loads(run[n], actions[n], c)
  }

  /** What a call compares with is the head as it was at its last load. */
  lemma {:induction false} SeenAtLastLoad(run: seq<World>, actions: seq<Action>, i: nat, c: CallId) returns (l: nat)
    requires IsRun(run, actions) && i < |run| && c in run[i].calls
      && (run[i].calls[c].AtWrite? || run[i].calls[c].AtCas?)
    ensures SeenAt(run, actions, l, i, c, run[i].calls[c].seen)
  {
    hide Next, Enabled, Loads;
    StepSees(run[i - 1], actions[i - 1], c);
    if Loads(run[i - 1], actions[i - 1], c) {
      l := i - 1;
    } else {
      l := SeenAtLastLoad(run, actions, i - 1, c);
    }
  }

  /** An exchange fails only if another call published since this call's last load: some
      registration always gets through. */
  lemma FailureMeansProgress(run: seq<World>, actions: seq<Action>, i: nat, c: CallId) returns (l: nat)
    requires IsRun(run, actions) && i < |actions| && actions[i] == ExchangeHead(c)
    requires c in run[i + 1].calls && !run[i + 1].calls[c].Returned?
    ensures l < i && Loads(run[l], actions[l], c) && |run[i].published| > |run[l].published|
  {
    FailedExchange(run[i], c);
    hide Next, Enabled, IsList, CallsOk, ReadersOk, IsSuffix;
    l := SeenAtLastLoad(run, actions, i, c);
    SnapshotsAreSuffixes(run, actions, l, i);
    InvInRuns(run, actions, l);
    InvInRuns(run, actions, i);
    HeadIsFirst(run[l]);
    HeadIsFirst(run[i]);
    LongerList(run[l].published, run[i].published);
  }

  lemma FailedExchange(w: World, c: CallId)
    requires Enabled(w, ExchangeHead(c)) && !Next(w, ExchangeHead(c)).calls[c].Returned?
    ensures w.calls[c].AtCas? && w.calls[c].seen != w.head
  {
  }

  lemma LongerList(a: seq<Entry>, b: seq<Entry>)
    requires IsSuffix(a, b) && LinkAt(a, 0) != LinkAt(b, 0)
    ensures |b| > |a|
  {
  }

  /** Every own step takes a call from the swap to the load, the write and the exchange;
      only a failed exchange takes it back to the write. */
  lemma CallGoesOn(w: World, a: Action)
    requires Enabled(w, a) && Registers(a)
    ensures var before, after := w.calls[a.call], Next(w, a).calls[a.call];
      && after.entry == before.entry
      && (before.AtSwap? ==>
          after == if before.entry in w.initialized then Returned(before.entry, false) else AtLoad(before.entry))
      && (before.AtLoad? ==> after == AtWrite(before.entry, w.head))
      && (before.AtWrite? ==> after == AtCas(before.entry, before.seen))
      && (before.AtCas? ==> after.Returned? || after == AtWrite(before.entry, w.head))
  {
  }

  /** An iterator yields one entry a step until it is done. */
  lemma ReaderGoesOn(w: World, r: ReaderId)
    requires IsList(w) && ReadersOk(w) && Enabled(w, Advance(r))
    ensures |Next(w, Advance(r)).readers[r].yielded| == |w.readers[r].yielded| + 1 <= |w.readers[r].snapshot|
  {
    assert ReaderOk(w, w.readers[r]);
  }
}
