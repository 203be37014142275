/** The dispatch registry: registrations are frozen into dense per-actor tables plus
    sorted shared tables, keyed by the dispatch IDs the build assigns. */
module Registry {

  import opened Options
  import opened Registrations

  /** Dispatch IDs start at 1; a slot never assigned is absent from the map of slots. */
  type Id = nat

  datatype SharedEntry = SharedEntry(id: Id, dispatcher: Dispatcher)

  datatype ActorDispatchTable =
    ActorDispatchTable(actor: Identity, uniqueBase: Id, unique: seq<Dispatcher>, shared: seq<SharedEntry>)

  datatype DispatchRegistry = DispatchRegistry(actors: seq<ActorDispatchTable>, frozenCount: nat)

  datatype PendingActor =
    PendingActor(actor: Identity, uniqueBase: Id, unique: seq<Dispatcher>, sharedRegs: seq<Registration>)

  datatype AssignResult = Assigned | AlreadyAssigned(existing: Id)

  /** The write-once dispatch ID slots of all message RTTIs. */
  class MessageIds {
    var slots: map<Identity, Id>

    constructor ()
      ensures slots == map[]
    {
      slots := map[];
    }

    /** `assign_dynamic_dispatch_id`: a compare-exchange against the zero sentinel. */
    method Assign(message: Identity, id: Id) returns (result: AssignResult)
      modifies this
      ensures message in old(slots) ==> result == AlreadyAssigned(old(slots)[message]) && slots == old(slots)
      ensures message !in old(slots) ==> result == Assigned && slots == old(slots)[message := id]
    {
      if message in slots {
        return AlreadyAssigned(slots[message]);
      }
      slots := slots[message := id];
      return Assigned;
    }
  }

  // --------------------------------------------------------------------- lookup

  predicate Ascending(keys: seq<nat>) {
    forall i, j :: 0 <= i < j < |keys| ==> keys[i] <= keys[j]
  }

  /** `binary_search_by_key` between two bounds. */
  function BinarySearch(keys: seq<nat>, key: nat, lo: nat, hi: nat): (found: Option<nat>)
    requires lo <= hi <= |keys|
    ensures found.Some? ==> lo <= found.value < hi && keys[found.value] == key
    ensures found.None? && Ascending(keys) ==> key !in keys[lo..hi]
    decreases hi - lo
  {
    if lo == hi then None
    else
      var mid := lo + (hi - lo) / 2;
      if keys[mid] == key then Some(mid)
      else if keys[mid] < key then BinarySearch(keys, key, mid + 1, hi)
      else BinarySearch(keys, key, lo, mid)
  }

  function ActorKeys(tables: seq<ActorDispatchTable>): seq<nat> {
    seq(|tables|, i requires 0 <= i < |tables| => tables[i].actor)
  }

  function EntryKeys(entries: seq<SharedEntry>): seq<nat> {
    seq(|entries|, i requires 0 <= i < |entries| => entries[i].id)
  }

  function TableFor(tables: seq<ActorDispatchTable>, actor: Identity): Option<ActorDispatchTable> {
    var found := BinarySearch(ActorKeys(tables), actor, 0, |tables|);
    if found.Some? then Some(tables[found.value]) else None
  }

  function BindShared(table: ActorDispatchTable, id: Id): Option<Dispatcher> {
    var found := BinarySearch(EntryKeys(table.shared), id, 0, |table.shared|);
    if found.Some? then Some(table.shared[found.value].dispatcher) else None
  }

  function BindId(table: ActorDispatchTable, id: Id): Option<Dispatcher> {
    if table.uniqueBase <= id < table.uniqueBase + |table.unique| then Some(table.unique[id - table.uniqueBase])
    else BindShared(table, id)
  }

  function Bind(table: ActorDispatchTable, slots: map<Identity, Id>, message: Identity): Option<Dispatcher> {
    if message in slots then BindId(table, slots[message]) else None
  }

  /** What a binder for `actor` answers. */
  function Lookup(tables: seq<ActorDispatchTable>, slots: map<Identity, Id>, actor: Identity, message: Identity)
    : Option<Dispatcher>
  {
    var table := TableFor(tables, actor);
    if table.Some? then Bind(table.value, slots, message) else None
  }

  // -------------------------------------------------------------- specification

  /** Number of registrations of a message. */
  function HandlerCount(s: seq<Registration>, message: Identity): nat {
    if s == [] then 0
    else HandlerCount(s[..|s| - 1], message) + (if s[|s| - 1].message == message then 1 else 0)
  }

  /** The registrations in `list` whose message has exactly one handler in `s`, or the others. */
  function Classified(s: seq<Registration>, list: seq<Registration>, unique: bool): (c: seq<Registration>) {
    if list == [] then []
    else
      var front, r := Classified(s, list[..|list| - 1], unique), list[|list| - 1];
      if (HandlerCount(s, r.message) == 1) == unique then front + [r] else front
  }

  /** Consecutive IDs by first occurrence. */
  function Number(list: seq<Registration>, first: Id): map<Identity, Id> {
    if list == [] then map[]
    else WithNext(Number(list[..|list| - 1], first), list[|list| - 1].message, first)
  }

  /** `or_insert_with` the next free ID. */
  function WithNext(ids: map<Identity, Id>, message: Identity, first: Id): map<Identity, Id> {
    if message in ids then ids else ids[message := first + |ids|]
  }

  /** Number of registrations of actors below `actor`. */
  function Below(s: seq<Registration>, actor: nat): (n: nat)
    ensures n <= |s|
  {
    if s == [] then 0 else Below(s[..|s| - 1], actor) + (if s[|s| - 1].actor < actor then 1 else 0)
  }

  predicate ByActor(s: seq<Registration>) {
    forall i, j :: 0 <= i < j < |s| ==> s[i].actor <= s[j].actor
  }

  lemma {:induction false} BelowSplits(s: seq<Registration>, actor: nat)
    requires ByActor(s)
    ensures forall i :: 0 <= i < |s| ==> (s[i].actor < actor <==> i < Below(s, actor))
  {
    if s != [] {
      BelowSplits(s[..|s| - 1], actor);
    }
  }

  lemma {:induction false} BelowMonotone(s: seq<Registration>, actor: nat)
    ensures Below(s, actor) <= Below(s, actor + 1)
  {
    if s != [] {
      BelowMonotone(s[..|s| - 1], actor);
    }
  }

  /** One actor's registrations: a chunk of the ordered sequence. */
  function Chunk(s: seq<Registration>, actor: Identity): seq<Registration> {
    BelowMonotone(s, actor);
    s[Below(s, actor)..Below(s, actor + 1)]
  }

  function Dispatchers(list: seq<Registration>): seq<Dispatcher> {
    seq(|list|, i requires 0 <= i < |list| => list[i].dispatcher)
  }

  function Uniques(s: seq<Registration>): seq<Registration> {
    Classified(s, s, true)
  }

  function Shareds(s: seq<Registration>): seq<Registration> {
    Classified(s, s, false)
  }

  /** Every ID the build assigns: unique messages first, in order, then shared ones. */
  function Ids(s: seq<Registration>): map<Identity, Id> {
    Number(Uniques(s) + Shareds(s), 1)
  }

  function PendingOf(s: seq<Registration>, actor: Identity): PendingActor {
    PendingActor(
      actor,
      1 + |Classified(s, s[..Below(s, actor)], true)|,
      Dispatchers(Classified(s, Chunk(s, actor), true)),
      Classified(s, Chunk(s, actor), false))
  }

  /** The actors of an actor-ordered sequence, each once. */
  function Actors(s: seq<Registration>): seq<Identity> {
    if s == [] then []
    else if |s| > 1 && s[|s| - 2].actor == s[|s| - 1].actor then Actors(s[..|s| - 1])
    else Actors(s[..|s| - 1]) + [s[|s| - 1].actor]
  }

  function EntryKey(e: SharedEntry): Key {
    Key(e.id, 0)
  }

  function Entries(list: seq<Registration>, ids: map<Identity, Id>): seq<SharedEntry>
    requires forall r :: r in list ==> r.message in ids
  {
    seq(|list|, i requires 0 <= i < |list| => SharedEntry(ids[list[i].message], list[i].dispatcher))
  }

  /** A pending actor turned into its table. */
  function Freeze(p: PendingActor, ids: map<Identity, Id>): ActorDispatchTable
    requires forall r :: r in p.sharedRegs ==> r.message in ids
  {
    ActorDispatchTable(p.actor, p.uniqueBase, p.unique, SortByKey(Entries(p.sharedRegs, ids), EntryKey))
  }

  // ------------------------------------------------------ facts about selections

  lemma {:induction false} ClassifiedConcat(s: seq<Registration>, a: seq<Registration>, b: seq<Registration>,
      unique: bool)
    ensures Classified(s, a + b, unique) == Classified(s, a, unique) + Classified(s, b, unique)
  {
    if b == [] {
      assert a + b == a;
    } else {
      ClassifiedConcat(s, a, b[..|b| - 1], unique);
      assert (a + b)[..|a + b| - 1] == a + b[..|b| - 1];
    }
  }

  lemma {:induction false} ClassifiedMembers(s: seq<Registration>, list: seq<Registration>, unique: bool,
      r: Registration)
    ensures r in Classified(s, list, unique) <==> r in list && (HandlerCount(s, r.message) == 1) == unique
  {
    if list != [] {
      ClassifiedMembers(s, list[..|list| - 1], unique, r);
      assert list == list[..|list| - 1] + [list[|list| - 1]];
    }
  }

  lemma {:induction false} HandlerCountAtLeast(s: seq<Registration>, i: nat, j: nat)
    requires i < |s| && j < |s| && s[i].message == s[j].message
    ensures HandlerCount(s, s[i].message) >= if i == j then 1 else 2
  {
    var n := |s| - 1;
    if i < n && j < n {
      HandlerCountAtLeast(s[..n], i, j);
    } else if i < n {
      HandlerCountAtLeast(s[..n], i, i);
    } else if j < n {
      HandlerCountAtLeast(s[..n], j, j);
    }
  }

  lemma {:induction false} NumberKeys(list: seq<Registration>, first: Id, message: Identity)
    ensures message in Number(list, first) <==> exists r :: r in list && r.message == message
  {
    if list != [] {
      var front, last := list[..|list| - 1], list[|list| - 1];
      NumberKeys(front, first, message);
      NumberKeys(front, first, last.message);
      assert list == front + [last];
      assert last in list;
    }
  }

  ghost predicate Takes(ids: map<Identity, Id>, v: nat) {
    exists m :: m in ids && ids[m] == v
  }

  /** A map whose values are exactly `first` to `first + |ids| - 1`, each once. */
  ghost predicate Enumerates(ids: map<Identity, Id>, first: Id) {
    && (forall m :: m in ids ==> first <= ids[m] < first + |ids|)
    && (forall m, n :: m in ids && n in ids && ids[m] == ids[n] ==> m == n)
    && (forall v: nat :: first <= v < first + |ids| ==> Takes(ids, v))
  }

  lemma MapSnocSize(ids: map<Identity, Id>, message: Identity, id: Id)
    requires message !in ids
    ensures |ids[message := id]| == |ids| + 1
  {
    assert ids[message := id].Keys == ids.Keys + {message};
    assert |ids[message := id].Keys| == |ids.Keys| + 1;
  }

  lemma TakesSnoc(ids: map<Identity, Id>, message: Identity, id: Id, v: nat)
    requires message !in ids && (Takes(ids, v) || v == id)
    ensures Takes(ids[message := id], v)
  {
    var more := ids[message := id];
    if v == id {
      assert more[message] == v;
    } else {
      var m :| m in ids && ids[m] == v;
      assert m in more && more[m] == v;
    }
  }

  lemma EnumeratesSnoc(ids: map<Identity, Id>, message: Identity, first: Id)
    requires Enumerates(ids, first) && message !in ids
    ensures Enumerates(ids[message := first + |ids|], first)
  {
    hide Takes;
    var more := ids[message := first + |ids|];
    MapSnocSize(ids, message, first + |ids|);
    forall v: nat | first <= v < first + |more| ensures Takes(more, v) {
      TakesSnoc(ids, message, first + |ids|, v);
    }
  }

  lemma {:induction false} NumberEnumerates(list: seq<Registration>, first: Id)
    ensures Enumerates(Number(list, first), first)
  {
    if list != [] {
      hide Enumerates;
      var front, last := list[..|list| - 1], list[|list| - 1];
      NumberEnumerates(front, first);
      if last.message !in Number(front, first) {
        EnumeratesSnoc(Number(front, first), last.message, first);
      }
    }
  }

  /** Later registrations keep the IDs already given and take greater ones. */
  lemma {:induction false} NumberExtends(a: seq<Registration>, b: seq<Registration>, first: Id)
    ensures |Number(a, first)| <= |Number(a + b, first)|
    ensures forall m :: m in Number(a, first) ==>
      m in Number(a + b, first) && Number(a + b, first)[m] == Number(a, first)[m]
    ensures forall m :: m in Number(a + b, first) && m !in Number(a, first) ==>
      Number(a + b, first)[m] >= first + |Number(a, first)|
  {
    if b == [] {
      assert a + b == a;
    } else {
      var front, last := b[..|b| - 1], b[|b| - 1];
      NumberExtends(a, front, first);
      assert (a + b)[..|a + b| - 1] == a + front;
      var ids := Number(a + front, first);
      if last.message !in ids {
        MapSnocSize(ids, last.message, first + |ids|);
      }
    }
  }

  /** Unique messages are numbered by their position. */
  lemma {:induction false} UniqueNumbers(s: seq<Registration>, k: nat, first: Id)
    requires k <= |s|
    ensures var u := Classified(s, s[..k], true);
      |Number(u, first)| == |u| && forall q :: 0 <= q < |u| ==>
        u[q].message in Number(u, first) && Number(u, first)[u[q].message] == first + q
  {
    if k > 0 {
      UniqueNumbers(s, k - 1, first);
      assert s[..k][..k - 1] == s[..k - 1];
      var u, r := Classified(s, s[..k - 1], true), s[k - 1];
      if HandlerCount(s, r.message) == 1 {
        NewUnique(s, k - 1, first);
        assert (u + [r])[..|u|] == u;
      }
    }
  }

  lemma NewUnique(s: seq<Registration>, k: nat, first: Id)
    requires k < |s| && HandlerCount(s, s[k].message) == 1
    ensures s[k].message !in Number(Classified(s, s[..k], true), first)
  {
    var u := Classified(s, s[..k], true);
    NumberKeys(u, first, s[k].message);
    if r :| r in u && r.message == s[k].message {
      ClassifiedMembers(s, s[..k], true, r);
      var i :| 0 <= i < k && s[i] == r;
      HandlerCountAtLeast(s, i, k);
    }
  }

  lemma OrderedByActor(s: seq<Registration>)
    requires StrictlyOrdered(s, RegistrationKey)
    ensures ByActor(s)
  {
  }

  lemma ChunkParts(s: seq<Registration>, actor: Identity)
    requires ByActor(s)
    ensures Below(s, actor) <= Below(s, actor + 1)
    ensures s == s[..Below(s, actor)] + Chunk(s, actor) + s[Below(s, actor + 1)..]
    ensures forall r :: r in s[..Below(s, actor)] ==> r.actor < actor
    ensures forall r :: r in Chunk(s, actor) <==> r in s && r.actor == actor
    ensures forall r :: r in s[Below(s, actor + 1)..] ==> r.actor > actor
  {
    hide Below;
    BelowMonotone(s, actor);
    BelowSplits(s, actor);
    BelowSplits(s, actor + 1);
    forall r | r in s && r.actor == actor ensures r in Chunk(s, actor) {
      var i :| 0 <= i < |s| && s[i] == r;
      assert Chunk(s, actor)[i - Below(s, actor)] == r;
    }
  }

  lemma ChunkClassified(s: seq<Registration>, actor: Identity, unique: bool)
    requires ByActor(s)
    ensures var lo, hi := Below(s, actor), Below(s, actor + 1);
      lo <= hi &&
      Classified(s, s, unique)
        == Classified(s, s[..lo], unique) + Classified(s, Chunk(s, actor), unique) + Classified(s, s[hi..], unique)
  {
    hide Below, Classified, ByActor;
    ChunkParts(s, actor);
    var lo, hi := Below(s, actor), Below(s, actor + 1);
    ClassifiedConcat(s, s[..lo] + Chunk(s, actor), s[hi..], unique);
    ClassifiedConcat(s, s[..lo], Chunk(s, actor), unique);
  }

  /** An actor's unique registrations are one contiguous slice of all unique ones. */
  lemma UniqueSlice(s: seq<Registration>, actor: Identity, q: nat)
    requires ByActor(s) && q < |Uniques(s)|
    ensures var lo, own := |Classified(s, s[..Below(s, actor)], true)|, Classified(s, Chunk(s, actor), true);
      && lo + |own| <= |Uniques(s)|
      && (Uniques(s)[q].actor == actor <==> lo <= q < lo + |own|)
      && (lo <= q < lo + |own| ==> own[q - lo] == Uniques(s)[q])
  {
    hide Below, Classified, ByActor;
    ChunkParts(s, actor);
    ChunkClassified(s, actor, true);
    var r := Uniques(s)[q];
    var lo, hi := Below(s, actor), Below(s, actor + 1);
    ClassifiedMembers(s, s[..lo], true, r);
    ClassifiedMembers(s, Chunk(s, actor), true, r);
    ClassifiedMembers(s, s[hi..], true, r);
  }

  lemma IdsKeys(s: seq<Registration>, message: Identity)
    ensures message in Ids(s) <==> exists r :: r in s && r.message == message
  {
    hide Classified, Number;
    NumberKeys(Uniques(s) + Shareds(s), 1, message);
    if r :| r in s && r.message == message {
      ClassifiedMembers(s, s, true, r);
      ClassifiedMembers(s, s, false, r);
      assert r in Uniques(s) + Shareds(s);
    }
    if r :| r in Uniques(s) + Shareds(s) && r.message == message {
      ClassifiedMembers(s, s, true, r);
      ClassifiedMembers(s, s, false, r);
      assert r in s;
    }
  }

  lemma ChunkHasIds(s: seq<Registration>, actor: Identity)
    requires ByActor(s)
    ensures forall r :: r in PendingOf(s, actor).sharedRegs ==> r.message in Ids(s)
  {
    hide Classified, Ids, Below;
    ChunkParts(s, actor);
    forall r | r in PendingOf(s, actor).sharedRegs ensures r.message in Ids(s) {
      ClassifiedMembers(s, Chunk(s, actor), false, r);
      IdsKeys(s, r.message);
    }
  }

  /** The table the build freezes for one actor. */
  function TableOf(s: seq<Registration>, actor: Identity): ActorDispatchTable
    requires ByActor(s)
  {
    ChunkHasIds(s, actor);
    Freeze(PendingOf(s, actor), Ids(s))
  }

  function Frozen(s: seq<Registration>): seq<ActorDispatchTable>
    requires ByActor(s)
  {
    seq(|Actors(s)|, i requires 0 <= i < |Actors(s)| => TableOf(s, Actors(s)[i]))
  }

  // ------------------------------------------------------------------------ IDs

  /** IDs are exactly 1 to n, each given to one message; the unique ones come first, in order. */
  lemma IdsEnumerated(s: seq<Registration>)
    ensures Enumerates(Ids(s), 1)
    ensures |Uniques(s)| <= |Ids(s)|
    ensures forall q :: 0 <= q < |Uniques(s)| ==>
      Uniques(s)[q].message in Ids(s) && Ids(s)[Uniques(s)[q].message] == q + 1
  {
    hide Classified, Number, Enumerates;
    NumberEnumerates(Uniques(s) + Shareds(s), 1);
    NumberExtends(Uniques(s), Shareds(s), 1);
    UniqueNumbers(s, |s|, 1);
    assert s[..|s|] == s;
  }

  /** Shared IDs lie above all unique ones. */
  lemma SharedIdsAbove(s: seq<Registration>, r: Registration)
    requires r in s && HandlerCount(s, r.message) != 1
    ensures r.message in Ids(s) && Ids(s)[r.message] > |Uniques(s)|
  {
    hide Classified, Number, HandlerCount;
    IdsKeys(s, r.message);
    NumberKeys(Uniques(s), 1, r.message);
    if u :| u in Uniques(s) && u.message == r.message {
      ClassifiedMembers(s, s, true, u);
    }
    NumberExtends(Uniques(s), Shareds(s), 1);
    UniqueNumbers(s, |s|, 1);
    assert s[..|s|] == s;
  }

  // ------------------------------------------------------------------- one table

  ghost predicate IsEntryOf(list: seq<Registration>, ids: map<Identity, Id>, id: Id, dispatcher: Dispatcher) {
    exists r :: r in list && r.message in ids && ids[r.message] == id && r.dispatcher == dispatcher
  }

  lemma EntriesAre(list: seq<Registration>, ids: map<Identity, Id>, e: SharedEntry)
    requires forall r :: r in list ==> r.message in ids
    ensures e in SortByKey(Entries(list, ids), EntryKey) <==> IsEntryOf(list, ids, e.id, e.dispatcher)
  {
    hide SortByKey;
    SortKeepsMembers(Entries(list, ids), e, EntryKey);
    if e in Entries(list, ids) {
      var i :| 0 <= i < |list| && Entries(list, ids)[i] == e;
      assert list[i] in list;
    }
    if IsEntryOf(list, ids, e.id, e.dispatcher) {
      var r :| r in list && r.message in ids && ids[r.message] == e.id && r.dispatcher == e.dispatcher;
      var i :| 0 <= i < |list| && list[i] == r;
      assert Entries(list, ids)[i] == e;
    }
  }

  lemma EntryHasKey(entries: seq<SharedEntry>, e: SharedEntry)
    ensures e in entries ==> e.id in EntryKeys(entries)
  {
    if e in entries {
      var i :| 0 <= i < |entries| && entries[i] == e;
      assert EntryKeys(entries)[i] == e.id;
    }
  }

  /** The binary search over a shared table finds an entry of the ID exactly when there is one. */
  lemma BindSharedFinds(p: PendingActor, ids: map<Identity, Id>, id: Id)
    requires forall r :: r in p.sharedRegs ==> r.message in ids
    ensures var found := BindShared(Freeze(p, ids), id);
      && (found.Some? ==> IsEntryOf(p.sharedRegs, ids, id, found.value))
      && (found.None? ==> forall d :: !IsEntryOf(p.sharedRegs, ids, id, d))
  {
    hide SortByKey, IsEntryOf;
    var shared := Freeze(p, ids).shared;
    SortByKeySorts(Entries(p.sharedRegs, ids), EntryKey);
    var keys := EntryKeys(shared);
    assert Ascending(keys) by {
      forall i, j | 0 <= i < j < |keys| ensures keys[i] <= keys[j] {
        assert !Precedes(EntryKey(shared[j]), EntryKey(shared[i]));
      }
    }
    var found := BinarySearch(keys, id, 0, |shared|);
    if found.Some? {
      EntriesAre(p.sharedRegs, ids, shared[found.value]);
    } else {
      assert keys[0..|shared|] == keys;
      forall d ensures !IsEntryOf(p.sharedRegs, ids, id, d) {
        EntriesAre(p.sharedRegs, ids, SharedEntry(id, d));
        EntryHasKey(shared, SharedEntry(id, d));
      }
    }
  }

  /** A shared table's entries are the shared registrations of its actor. */
  lemma SharedEntryMeans(s: seq<Registration>, actor: Identity, id: Id, d: Dispatcher)
    requires ByActor(s)
    ensures IsEntryOf(PendingOf(s, actor).sharedRegs, Ids(s), id, d) ==> id > |Uniques(s)| && id <= |Ids(s)|
    ensures forall m :: m in Ids(s) && Ids(s)[m] == id && HandlerCount(s, m) != 1 ==>
      (IsEntryOf(PendingOf(s, actor).sharedRegs, Ids(s), id, d) <==> Registration(actor, m, d) in s)
  {
    hide Classified, Ids, HandlerCount, Below, Uniques, Chunk;
    ChunkParts(s, actor);
    IdsEnumerated(s);
    var list := PendingOf(s, actor).sharedRegs;
    if IsEntryOf(list, Ids(s), id, d) {
      var r :| r in list && r.message in Ids(s) && Ids(s)[r.message] == id && r.dispatcher == d;
      ClassifiedMembers(s, Chunk(s, actor), false, r);
      SharedIdsAbove(s, r);
      assert r == Registration(actor, r.message, d);
    }
    forall m | m in Ids(s) && Ids(s)[m] == id && HandlerCount(s, m) != 1 && Registration(actor, m, d) in s
      ensures IsEntryOf(list, Ids(s), id, d)
    {
      ClassifiedMembers(s, Chunk(s, actor), false, Registration(actor, m, d));
      assert Registration(actor, m, d) in list;
    }
  }

  lemma BindUnique(s: seq<Registration>, actor: Identity, q: nat)
    requires ByActor(s) && q < |Uniques(s)|
    ensures BindId(TableOf(s, actor), q + 1)
      == if Uniques(s)[q].actor == actor then Some(Uniques(s)[q].dispatcher) else None
  {
    hide Classified, Ids, HandlerCount, Below, Chunk, ByActor, IsEntryOf, BindShared, SortByKey;
    UniqueSlice(s, actor, q);
    ChunkHasIds(s, actor);
    var id := q + 1;
    BindSharedFinds(PendingOf(s, actor), Ids(s), id);
    forall d ensures !IsEntryOf(PendingOf(s, actor).sharedRegs, Ids(s), id, d) {
      SharedEntryMeans(s, actor, id, d);
    }
  }

  /** IDs past the unique ones miss the dense array. */
  lemma BindAboveUnique(s: seq<Registration>, actor: Identity, id: Id)
    requires ByActor(s) && id > |Uniques(s)|
    ensures BindId(TableOf(s, actor), id) == BindShared(TableOf(s, actor), id)
  {
    hide Classified, Ids, HandlerCount, Below, Chunk, ByActor, BindShared, SortByKey;
    ChunkClassified(s, actor, true);
  }

  lemma UniqueAt(s: seq<Registration>, message: Identity) returns (q: nat)
    requires message in Ids(s) && HandlerCount(s, message) == 1
    ensures q < |Uniques(s)| && Uniques(s)[q].message == message && Ids(s)[message] == q + 1
  {
    hide Classified, Ids, HandlerCount;
    IdsKeys(s, message);
    var r :| r in s && r.message == message;
    ClassifiedMembers(s, s, true, r);
    q :| 0 <= q < |Uniques(s)| && Uniques(s)[q] == r;
    IdsEnumerated(s);
  }

  /** A table binds an assigned ID to exactly the dispatcher registered for its message. */
  lemma TableBinds(s: seq<Registration>, actor: Identity, message: Identity, d: Dispatcher)
    requires StrictlyOrdered(s, RegistrationKey) && ByActor(s) && message in Ids(s)
    ensures BindId(TableOf(s, actor), Ids(s)[message]) == Some(d) <==> Registration(actor, message, d) in s
  {
    hide Classified, Ids, HandlerCount, BindId, BindShared, TableOf, ByActor;
    var id := Ids(s)[message];
    if HandlerCount(s, message) == 1 {
      var q := UniqueAt(s, message);
      BindUnique(s, actor, q);
      IdsEnumerated(s);
      ClassifiedMembers(s, s, true, Registration(actor, message, d));
      ClassifiedMembers(s, s, true, Uniques(s)[q]);
    } else {
      TableBindsShared(s, actor, message, d);
    }
  }

  lemma TableBindsShared(s: seq<Registration>, actor: Identity, message: Identity, d: Dispatcher)
    requires StrictlyOrdered(s, RegistrationKey) && ByActor(s) && message in Ids(s) && HandlerCount(s, message) != 1
    ensures BindId(TableOf(s, actor), Ids(s)[message]) == Some(d) <==> Registration(actor, message, d) in s
  {
    hide Classified, Ids, HandlerCount, BindId, BindShared, IsEntryOf, ByActor;
    var id := Ids(s)[message];
    IdsKeys(s, message);
    var r :| r in s && r.message == message;
    SharedIdsAbove(s, r);
    BindAboveUnique(s, actor, id);
    ChunkHasIds(s, actor);
    BindSharedFinds(PendingOf(s, actor), Ids(s), id);
    SharedEntryMeans(s, actor, id, d);
    var found := BindShared(TableOf(s, actor), id);
    if found.Some? {
      SharedEntryMeans(s, actor, id, found.value);
      SamePair(s, Registration(actor, message, d), Registration(actor, message, found.value));
    }
  }

  lemma SamePair(s: seq<Registration>, a: Registration, b: Registration)
    requires StrictlyOrdered(s, RegistrationKey) && RegistrationKey(a) == RegistrationKey(b)
    ensures a in s && b in s ==> a == b
  {
  }

  // ----------------------------------------------------------------- all tables

  lemma {:induction false} ActorsAscend(s: seq<Registration>)
    requires ByActor(s)
    ensures forall i, j :: 0 <= i < j < |Actors(s)| ==> Actors(s)[i] < Actors(s)[j]
    ensures s != [] ==> Actors(s) != [] && Actors(s)[|Actors(s)| - 1] == s[|s| - 1].actor
  {
    if s != [] {
      ActorsAscend(s[..|s| - 1]);
    }
  }

  lemma {:induction false} ActorsMembers(s: seq<Registration>, actor: Identity)
    ensures actor in Actors(s) <==> exists i :: 0 <= i < |s| && s[i].actor == actor
  {
    if s != [] {
      ActorsMembers(s[..|s| - 1], actor);
      assert |s| > 1 ==> s[|s| - 2] == s[..|s| - 1][|s| - 2];
    }
  }

  lemma TableForFinds(s: seq<Registration>, actor: Identity)
    requires ByActor(s)
    ensures TableFor(Frozen(s), actor) == if actor in Actors(s) then Some(TableOf(s, actor)) else None
  {
    hide TableOf, Actors, ByActor;
    ActorsAscend(s);
    var tables := Frozen(s);
    forall i | 0 <= i < |tables| ensures tables[i].actor == Actors(s)[i] {
      TableOfActor(s, Actors(s)[i]);
    }
    var keys := ActorKeys(tables);
    assert keys == Actors(s);
    assert keys[0..|tables|] == keys;
  }

  lemma TableOfActor(s: seq<Registration>, actor: Identity)
    requires ByActor(s)
    ensures TableOf(s, actor).actor == actor
  {
  }

  // ------------------------------------------------------------------ the build

  ghost predicate CountsHandlers(count: map<Identity, nat>, s: seq<Registration>) {
    && (forall m :: m in count ==> count[m] == HandlerCount(s, m))
    && (forall m :: m !in count ==> HandlerCount(s, m) == 0)
  }

  method CountHandlers(s: seq<Registration>) returns (count: map<Identity, nat>)
    ensures CountsHandlers(count, s)
  {
    count := map[];
    for i := 0 to |s|
      invariant CountsHandlers(count, s[..i])
    {
      var m := s[i].message;
      assert s[..i + 1][..i] == s[..i];
      count := count[m := (if m in count then count[m] else 0) + 1];
    }
    assert s[..|s|] == s;
  }

  /** `slots` is `before` with `ids` assigned. */
  ghost predicate Holds(slots: map<Identity, Id>, before: map<Identity, Id>, ids: map<Identity, Id>) {
    && (forall m :: m in ids ==> m in slots && slots[m] == ids[m])
    && (forall m :: m !in ids ==> (m in slots <==> m in before))
    && (forall m :: m !in ids && m in before ==> slots[m] == before[m])
  }

  lemma HoldsSnoc(slots: map<Identity, Id>, before: map<Identity, Id>, ids: map<Identity, Id>, m: Identity, id: Id)
    requires Holds(slots, before, ids) && m !in ids
    ensures m in slots <==> m in before
    ensures Holds(slots[m := id], before, ids[m := id])
  {
  }

  /** The registrations of all pending actors that are shared. */
  ghost function Flatten(pending: seq<PendingActor>): seq<Registration> {
    if pending == [] then [] else Flatten(pending[..|pending| - 1]) + pending[|pending| - 1].sharedRegs
  }

  /** What pass 1 has done after the first `k` registrations. */
  ghost predicate PassOne(s: seq<Registration>, k: nat, nextId: Id, before: map<Identity, Id>, slots: map<Identity, Id>)
    requires k <= |s|
  {
    var u := Classified(s, s[..k], true);
    nextId == 1 + |u| && Holds(slots, before, Number(u, 1)) && forall r :: r in u ==> r.message !in before
  }

  ghost predicate PendingUpTo(s: seq<Registration>, k: nat, pending: seq<PendingActor>)
    requires k <= |s|
  {
    && |pending| == |Actors(s[..k])|
    && (forall q :: 0 <= q < |pending| ==> pending[q] == PendingOf(s, Actors(s[..k])[q]))
    && Flatten(pending) == Classified(s, s[..k], false)
  }

  lemma PassOneUnique(s: seq<Registration>, k: nat, nextId: Id, before: map<Identity, Id>, slots: map<Identity, Id>)
    requires k < |s| && HandlerCount(s, s[k].message) == 1 && PassOne(s, k, nextId, before, slots)
    ensures s[k].message in slots <==> s[k].message in before
    ensures s[k].message !in slots ==> PassOne(s, k + 1, nextId + 1, before, slots[s[k].message := nextId])
  {
    hide HandlerCount, Holds;
    NewUnique(s, k, 1);
    UniqueNumbers(s, k, 1);
    assert s[..k + 1][..k] == s[..k];
    var u := Classified(s, s[..k], true);
    assert (u + [s[k]])[..|u|] == u;
    HoldsSnoc(slots, before, Number(u, 1), s[k].message, nextId);
  }

  lemma PassOneShared(s: seq<Registration>, k: nat, nextId: Id, before: map<Identity, Id>, slots: map<Identity, Id>)
    requires k < |s| && HandlerCount(s, s[k].message) != 1 && PassOne(s, k, nextId, before, slots)
    ensures PassOne(s, k + 1, nextId, before, slots)
  {
    assert s[..k + 1][..k] == s[..k];
  }

  lemma ClassifiedStep(s: seq<Registration>, start: nat, k: nat, unique: bool)
    requires start <= k < |s|
    ensures Classified(s, s[start..k + 1], unique)
      == Classified(s, s[start..k], unique) + if (HandlerCount(s, s[k].message) == 1) == unique then [s[k]] else []
  {
    assert s[start..k + 1][..k - start] == s[start..k];
  }

  /** The end of a chunk: the pending actor is complete. */
  lemma ChunkEnds(s: seq<Registration>, start: nat, k: nat, actor: Identity)
    requires ByActor(s) && start < k <= |s| && (start == 0 || s[start - 1].actor != actor)
    requires forall j :: start <= j < k ==> s[j].actor == actor
    requires k == |s| || s[k].actor != actor
    ensures Below(s, actor) == start && Chunk(s, actor) == s[start..k]
  {
    hide Below;
    BelowSplits(s, actor);
    BelowSplits(s, actor + 1);
    assert s[start].actor == actor && s[k - 1].actor == actor;
  }

  lemma {:induction false} ActorsGrow(s: seq<Registration>, start: nat, k: nat, actor: Identity)
    requires start < k <= |s| && (start == 0 || s[start - 1].actor != actor)
    requires forall j :: start <= j < k ==> s[j].actor == actor
    ensures Actors(s[..k]) == Actors(s[..start]) + [actor]
  {
    assert s[..k][..k - 1] == s[..k - 1];
    if start < k - 1 {
      ActorsGrow(s, start, k - 1, actor);
    }
  }

  lemma PendingGrows(s: seq<Registration>, start: nat, k: nat, pending: seq<PendingActor>, p: PendingActor)
    requires ByActor(s) && start < k <= |s| && (start == 0 || s[start - 1].actor != p.actor)
    requires forall j :: start <= j < k ==> s[j].actor == p.actor
    requires k == |s| || s[k].actor != p.actor
    requires PendingUpTo(s, start, pending)
    requires p.uniqueBase == 1 + |Classified(s, s[..start], true)|
    requires p.unique == Dispatchers(Classified(s, s[start..k], true))
    requires p.sharedRegs == Classified(s, s[start..k], false)
    ensures PendingUpTo(s, k, pending + [p])
  {
    hide Below, Classified, ByActor, Dispatchers;
    ChunkEnds(s, start, k, p.actor);
    ActorsGrow(s, start, k, p.actor);
    ClassifiedConcat(s, s[..start], s[start..k], false);
    assert s[..start] + s[start..k] == s[..k];
    assert (pending + [p])[..|pending|] == pending;
  }

  /** Pass 1: consecutive IDs for the messages only one actor handles. */
  method AssignUnique(s: seq<Registration>, count: map<Identity, nat>, ids: MessageIds)
    returns (panicked: bool, pending: seq<PendingActor>, nextId: Id)
    requires ByActor(s) && CountsHandlers(count, s)
    modifies ids
    ensures panicked ==> exists r :: r in s && r.message in old(ids.slots)
    ensures !panicked ==> PassOne(s, |s|, nextId, old(ids.slots), ids.slots) && PendingUpTo(s, |s|, pending)
  {
    hide HandlerCount, Classified, ByActor, PassOne, PendingUpTo, Chunk, Below;
    panicked, pending, nextId := false, [], 1;
    NothingYet(s, ids.slots);
    var i := 0;
    while i < |s|
      invariant i <= |s| && (0 < i < |s| ==> s[i - 1].actor != s[i].actor)
      invariant PassOne(s, i, nextId, old(ids.slots), ids.slots) && PendingUpTo(s, i, pending)
    {
      var start, actor := i, s[i].actor;
      var p := PendingActor(actor, nextId, [], []);
      EmptyChunk(s, start, nextId, old(ids.slots), ids.slots);
      while i < |s| && s[i].actor == actor
        invariant start <= i <= |s| && p.actor == actor
        invariant forall j :: start <= j < i ==> s[j].actor == actor
        invariant PassOne(s, i, nextId, old(ids.slots), ids.slots)
        invariant p.uniqueBase == 1 + |Classified(s, s[..start], true)|
        invariant p.unique == Dispatchers(Classified(s, s[start..i], true))
        invariant p.sharedRegs == Classified(s, s[start..i], false)
      {
        var reg := s[i];
        ClassifiedStep(s, start, i, true);
        ClassifiedStep(s, start, i, false);
        HandlerCountAtLeast(s, i, i);
        if count[reg.message] == 1 {
          PassOneUnique(s, i, nextId, old(ids.slots), ids.slots);
          var result := ids.Assign(reg.message, nextId);
          if result.AlreadyAssigned? {
            return true, pending, nextId;
          }
          nextId := nextId + 1;
          p := p.(unique := p.unique + [reg.dispatcher]);
        } else {
          PassOneShared(s, i, nextId, old(ids.slots), ids.slots);
          p := p.(sharedRegs := p.sharedRegs + [reg]);
        }
        i := i + 1;
      }
      PendingGrows(s, start, i, pending, p);
      pending := pending + [p];
    }
  }

  lemma NothingYet(s: seq<Registration>, slots: map<Identity, Id>)
    ensures PassOne(s, 0, 1, slots, slots) && PendingUpTo(s, 0, [])
  {
  }

  lemma EmptyChunk(s: seq<Registration>, start: nat, nextId: Id, before: map<Identity, Id>, slots: map<Identity, Id>)
    requires start <= |s| && PassOne(s, start, nextId, before, slots)
    ensures nextId == 1 + |Classified(s, s[..start], true)|
    ensures Classified(s, s[start..start], true) == [] && Classified(s, s[start..start], false) == []
  {
  }

  ghost predicate SharedSoFar(s: seq<Registration>, done: seq<Registration>, all: map<Identity, Id>,
                              sharedIds: map<Identity, Id>)
  {
    && (forall r :: r in done ==> r.message in sharedIds)
    && (forall m :: m in sharedIds ==> m in all && sharedIds[m] == all[m])
    && (forall m :: m in all && m !in sharedIds ==> HandlerCount(s, m) == 1)
  }

  lemma SharedSnoc(s: seq<Registration>, done: seq<Registration>, all: map<Identity, Id>,
                   sharedIds: map<Identity, Id>, r: Registration, id: Id)
    requires SharedSoFar(s, done, all, sharedIds) && HandlerCount(s, r.message) != 1 && r.message !in sharedIds
    ensures r.message !in all
    ensures SharedSoFar(s, done + [r], all[r.message := id], sharedIds[r.message := id])
  {
    hide HandlerCount;
  }

  /** What pass 2 has done after the shared registrations `done`. */
  ghost predicate PassTwo(s: seq<Registration>, done: seq<Registration>, nextId: Id, before: map<Identity, Id>,
                          slots: map<Identity, Id>, sharedIds: map<Identity, Id>)
  {
    var all := Number(Uniques(s) + done, 1);
    && nextId == 1 + |all| && Holds(slots, before, all)
    && (forall r :: r in Uniques(s) + done ==> r.message !in before)
    && SharedSoFar(s, done, all, sharedIds)
  }

  lemma PassTwoBegins(s: seq<Registration>, nextId: Id, before: map<Identity, Id>, slots: map<Identity, Id>)
    requires PassOne(s, |s|, nextId, before, slots)
    ensures PassTwo(s, [], nextId, before, slots, map[])
  {
    hide Classified, HandlerCount;
    assert s[..|s|] == s;
    UniqueNumbers(s, |s|, 1);
    assert Uniques(s) + [] == Uniques(s);
    forall m | m in Number(Uniques(s), 1) ensures HandlerCount(s, m) == 1 {
      NumberKeys(Uniques(s), 1, m);
      var r :| r in Uniques(s) && r.message == m;
      ClassifiedMembers(s, s, true, r);
    }
  }

  lemma PassTwoSeen(s: seq<Registration>, done: seq<Registration>, nextId: Id, before: map<Identity, Id>,
                    slots: map<Identity, Id>, sharedIds: map<Identity, Id>, r: Registration)
    requires PassTwo(s, done, nextId, before, slots, sharedIds) && r.message in sharedIds
    ensures PassTwo(s, done + [r], nextId, before, slots, sharedIds)
  {
    hide Classified, HandlerCount, Uniques;
    var list := Uniques(s) + done;
    assert Uniques(s) + (done + [r]) == list + [r];
    assert (list + [r])[..|list|] == list;
    NumberKeys(list, 1, r.message);
  }

  lemma PassTwoNew(s: seq<Registration>, done: seq<Registration>, nextId: Id, before: map<Identity, Id>,
                   slots: map<Identity, Id>, sharedIds: map<Identity, Id>, r: Registration)
    requires PassTwo(s, done, nextId, before, slots, sharedIds)
    requires r.message !in sharedIds && HandlerCount(s, r.message) != 1
    ensures r.message in slots <==> r.message in before
    ensures r.message !in slots ==>
      PassTwo(s, done + [r], nextId + 1, before, slots[r.message := nextId], sharedIds[r.message := nextId])
  {
    hide Classified, HandlerCount, Uniques, Holds, SharedSoFar;
    var list := Uniques(s) + done;
    assert Uniques(s) + (done + [r]) == list + [r];
    assert (list + [r])[..|list|] == list;
    var all := Number(list, 1);
    SharedSnoc(s, done, all, sharedIds, r, nextId);
    HoldsSnoc(slots, before, all, r.message, nextId);
    MapSnocSize(all, r.message, nextId);
    assert Number(list + [r], 1) == all[r.message := nextId];
  }

  lemma {:induction false} FlattenPrefix(pending: seq<PendingActor>, q: nat, r: Registration)
    requires q < |pending| && r in pending[q].sharedRegs
    ensures r in Flatten(pending)
  {
    if q < |pending| - 1 {
      FlattenPrefix(pending[..|pending| - 1], q, r);
    }
  }

  /** Pass 2: the remaining IDs for messages several actors handle, once per message. */
  method AssignShared(s: seq<Registration>, pending: seq<PendingActor>, firstId: Id, ids: MessageIds,
                      ghost before: map<Identity, Id>)
    returns (panicked: bool, sharedIds: map<Identity, Id>, nextId: Id)
    requires PendingUpTo(s, |s|, pending) && PassTwo(s, [], firstId, before, ids.slots, map[])
    modifies ids
    ensures panicked ==> exists r :: r in s && r.message in before
    ensures !panicked ==> PassTwo(s, Shareds(s), nextId, before, ids.slots, sharedIds)
  {
    hide HandlerCount, Classified, PassTwo, Chunk, Below, PendingOf;
    assert s[..|s|] == s;
    assert Flatten(pending) == Shareds(s);
    panicked, sharedIds, nextId := false, map[], firstId;
    for q := 0 to |pending|
      invariant PassTwo(s, Flatten(pending[..q]), nextId, before, ids.slots, sharedIds)
    {
      var regs := pending[q].sharedRegs;
      ghost var done := Flatten(pending[..q]);
      assert done + regs[..0] == done;
      for k := 0 to |regs|
        invariant PassTwo(s, done + regs[..k], nextId, before, ids.slots, sharedIds)
      {
        var reg := regs[k];
        FlattenPrefix(pending, q, reg);
        ClassifiedMembers(s, s, false, reg);
        assert done + regs[..k + 1] == done + regs[..k] + [reg];
        if reg.message in sharedIds {
          PassTwoSeen(s, done + regs[..k], nextId, before, ids.slots, sharedIds, reg);
        } else {
          PassTwoNew(s, done + regs[..k], nextId, before, ids.slots, sharedIds, reg);
          var result := ids.Assign(reg.message, nextId);
          if result.AlreadyAssigned? {
            return true, sharedIds, nextId;
          }
          sharedIds := sharedIds[reg.message := nextId];
          nextId := nextId + 1;
        }
      }
      assert regs[..|regs|] == regs;
      assert pending[..q + 1][..q] == pending[..q];
    }
    assert pending[..|pending|] == pending;
  }

  lemma FreezeAgrees(p: PendingActor, ids: map<Identity, Id>, others: map<Identity, Id>)
    requires forall r :: r in p.sharedRegs ==>
      r.message in ids && r.message in others && ids[r.message] == others[r.message]
    ensures Freeze(p, ids) == Freeze(p, others)
  {
    assert Entries(p.sharedRegs, ids) == Entries(p.sharedRegs, others);
  }

  lemma TablesAreFrozen(s: seq<Registration>, pending: seq<PendingActor>, q: nat, nextId: Id,
                        before: map<Identity, Id>, slots: map<Identity, Id>, sharedIds: map<Identity, Id>)
    requires ByActor(s) && PendingUpTo(s, |s|, pending) && q < |pending|
    requires PassTwo(s, Shareds(s), nextId, before, slots, sharedIds)
    ensures forall r :: r in pending[q].sharedRegs ==> r.message in sharedIds
    ensures q < |Actors(s)| && Freeze(pending[q], sharedIds) == TableOf(s, Actors(s)[q])
  {
    hide HandlerCount, Classified, Holds, PendingOf, ByActor;
    assert s[..|s|] == s;
    forall r | r in pending[q].sharedRegs ensures r in Shareds(s) {
      FlattenPrefix(pending, q, r);
    }
    ChunkHasIds(s, Actors(s)[q]);
    FreezeAgrees(pending[q], sharedIds, Ids(s));
  }

  /** What a build of `regs` over the slots `before` leaves behind. */
  ghost predicate IsBuilt(regs: seq<Registration>, before: map<Identity, Id>, registry: DispatchRegistry,
                          slots: map<Identity, Id>)
  {
    && ByActor(Canonical(regs)) && registry == DispatchRegistry(Frozen(Canonical(regs)), |regs|)
    && Holds(slots, before, Ids(Canonical(regs))) && forall r :: r in regs ==> r.message !in before
  }

  /** The build. It panics exactly when a registered message already carries an ID; else
      the tables and the IDs are those of the canonical sequence. */
  method Build(regs: seq<Registration>, ids: MessageIds) returns (registry: Option<DispatchRegistry>)
    modifies ids
    ensures registry.None? <==> exists r :: r in regs && r.message in old(ids.slots)
    ensures registry.Some? ==> IsBuilt(regs, old(ids.slots), registry.value, ids.slots)
  {
    hide Canonical, HandlerCount, Classified, PassOne, PendingUpTo, PassTwo, Holds, Ids, Freeze, TableOf;
    hide Actors, StrictlyOrdered;
    var s := DedupByKey(SortByKey(regs, RegistrationKey), RegistrationKey);
    IsCanonical(regs);
    CanonicalOrdered(regs);
    OrderedByActor(s);
    var count := CountHandlers(s);
    var panicked, pending, nextId := AssignUnique(s, count, ids);
    SameMessages(regs, old(ids.slots));
    if panicked {
      return None;
    }
    PassTwoBegins(s, nextId, old(ids.slots), ids.slots);
    var sharedIds;
    panicked, sharedIds, nextId := AssignShared(s, pending, nextId, ids, old(ids.slots));
    if panicked {
      return None;
    }
    forall q | 0 <= q < |pending|
      ensures forall r :: r in pending[q].sharedRegs ==> r.message in sharedIds
      ensures q < |Actors(s)| && Freeze(pending[q], sharedIds) == TableOf(s, Actors(s)[q])
    {
      TablesAreFrozen(s, pending, q, nextId, old(ids.slots), ids.slots, sharedIds);
    }
    PassTwoEnds(s, pending, nextId, old(ids.slots), ids.slots, sharedIds);
    var tables := seq(|pending|, q requires 0 <= q < |pending| => Freeze(pending[q], sharedIds));
    assert tables == Frozen(s);
    registry := Some(DispatchRegistry(tables, |regs|));
  }

  lemma IsCanonical(regs: seq<Registration>)
    ensures DedupByKey(SortByKey(regs, RegistrationKey), RegistrationKey) == Canonical(regs)
  {
  }

  lemma SameMessages(regs: seq<Registration>, before: map<Identity, Id>)
    ensures (exists r :: r in regs && r.message in before) <==>
      (exists r :: r in Canonical(regs) && r.message in before)
  {
    hide Canonical;
    if r :| r in regs && r.message in before {
      CanonicalPairs(regs, r);
      var c :| c in Canonical(regs) && RegistrationKey(c) == RegistrationKey(r);
      assert c.message in before;
    }
    if r :| r in Canonical(regs) && r.message in before {
      CanonicalPairs(regs, r);
    }
  }

  lemma PassTwoEnds(s: seq<Registration>, pending: seq<PendingActor>, nextId: Id, before: map<Identity, Id>,
                    slots: map<Identity, Id>, sharedIds: map<Identity, Id>)
    requires PendingUpTo(s, |s|, pending) && PassTwo(s, Shareds(s), nextId, before, slots, sharedIds)
    ensures Holds(slots, before, Ids(s)) && |pending| == |Actors(s)|
    ensures forall r :: r in s ==> r.message !in before
  {
    hide HandlerCount, Classified, Holds, Number, Flatten;
    assert s[..|s|] == s;
    forall r | r in s ensures r.message !in before {
      ClassifiedMembers(s, s, true, r);
      ClassifiedMembers(s, s, false, r);
      assert r in Uniques(s) + Shareds(s);
    }
  }

  // --------------------------------------------------------------- main theorems

  /** For every message that got its ID here, has none, or has one past the registry's, the
      lookup answers exactly from the canonical sequence. */
  lemma BindsCanonical(regs: seq<Registration>, before: map<Identity, Id>, registry: DispatchRegistry,
                       slots: map<Identity, Id>, actor: Identity, message: Identity, d: Dispatcher)
    requires IsBuilt(regs, before, registry, slots)
    requires message in before ==> before[message] > |Ids(Canonical(regs))|
    ensures Lookup(registry.actors, slots, actor, message) == Some(d)
      <==> Registration(actor, message, d) in Canonical(regs)
  {
    hide Canonical, Ids, TableOf, Actors, ByActor, Frozen, StrictlyOrdered, BindId, TableFor;
    var s := Canonical(regs);
    CanonicalOrdered(regs);
    TableForFinds(s, actor);
    ActorsMembers(s, actor);
    IdsKeys(s, message);
    if message in Ids(s) {
      TableBinds(s, actor, message, d);
    } else if message in before {
      BeyondIds(s, actor, slots[message]);
    }
  }

  /** The registry refines the set of registrations: looking up an actor's table and
      binding a message answers `d` exactly when `(actor, message, d)` was registered. */
  lemma BindsExactlyRegistered(regs: seq<Registration>, before: map<Identity, Id>, registry: DispatchRegistry,
                               slots: map<Identity, Id>, actor: Identity, message: Identity, d: Dispatcher)
    requires DuplicatesAgree(regs) && IsBuilt(regs, before, registry, slots)
    requires message in before ==> before[message] > |Ids(Canonical(regs))|
    ensures Lookup(registry.actors, slots, actor, message) == Some(d) <==> Registration(actor, message, d) in regs
  {
    hide Canonical, Ids, IsBuilt, Lookup, DuplicatesAgree;
    BindsCanonical(regs, before, registry, slots, actor, message, d);
    CanonicalMembers(regs, Registration(actor, message, d));
  }

  /** When duplicates disagree, the first registration of the pair decides. */
  lemma BindsFirstRegistered(regs: seq<Registration>, before: map<Identity, Id>, registry: DispatchRegistry,
                             slots: map<Identity, Id>, actor: Identity, message: Identity, d: Dispatcher)
    requires IsBuilt(regs, before, registry, slots)
    requires message in before ==> before[message] > |Ids(Canonical(regs))|
    ensures Lookup(registry.actors, slots, actor, message) == Some(d)
      <==> FirstRegistered(regs, actor, message) == Some(Registration(actor, message, d))
  {
    hide Canonical, Ids, IsBuilt, Lookup, FirstRegistered;
    BindsCanonical(regs, before, registry, slots, actor, message, d);
    CanonicalKeepsFirst(regs, Registration(actor, message, d));
  }

  /** An ID the build did not give binds nowhere. */
  lemma BeyondIds(s: seq<Registration>, actor: Identity, id: Id)
    requires ByActor(s) && id > |Ids(s)|
    ensures BindId(TableOf(s, actor), id) == None
  {
    hide Classified, Ids, HandlerCount, BindId, BindShared, IsEntryOf, ByActor;
    IdsEnumerated(s);
    BindAboveUnique(s, actor, id);
    ChunkHasIds(s, actor);
    BindSharedFinds(PendingOf(s, actor), Ids(s), id);
    var found := BindShared(TableOf(s, actor), id);
    if found.Some? {
      SharedEntryMeans(s, actor, id, found.value);
    }
  }

  /** The condition is exact: an unregistered message with an ID assigned elsewhere that
      falls among the registry's own is bound to another message's dispatcher. */
  lemma ForeignIdMisbinds(regs: seq<Registration>, before: map<Identity, Id>, registry: DispatchRegistry,
                          slots: map<Identity, Id>, message: Identity)
    requires DuplicatesAgree(regs) && IsBuilt(regs, before, registry, slots)
    requires message in before && 1 <= before[message] <= |Ids(Canonical(regs))|
    ensures exists actor, d ::
      Lookup(registry.actors, slots, actor, message) == Some(d) && Registration(actor, message, d) !in regs
  {
    hide Canonical, TableOf, Actors, ByActor, Frozen, StrictlyOrdered, DuplicatesAgree, BindId, TableFor, Ids;
    var s := Canonical(regs);
    CanonicalOrdered(regs);
    IdsEnumerated(s);
    assert Takes(Ids(s), before[message]);
    var owner :| owner in Ids(s) && Ids(s)[owner] == before[message];
    IdsKeys(s, owner);
    var r :| r in s && r.message == owner;
    CanonicalPairs(regs, r);
    TableForFinds(s, r.actor);
    ActorsMembers(s, r.actor);
    TableBinds(s, r.actor, owner, r.dispatcher);
    NotOwned(s, regs, message, before);
    assert Lookup(registry.actors, slots, r.actor, message) == Some(r.dispatcher);
  }

  lemma NotOwned(s: seq<Registration>, regs: seq<Registration>, message: Identity, before: map<Identity, Id>)
    requires s == Canonical(regs) && message in before && forall r :: r in regs ==> r.message !in before
    ensures message !in Ids(s)
  {
    hide Canonical, Ids;
    IdsKeys(s, message);
    if r :| r in s && r.message == message {
      CanonicalPairs(regs, r);
    }
  }

  /** Such a build is reachable: message 5 got ID 1 elsewhere and was never registered, one
      other message was, and looking message 5 up finds that message's dispatcher. */
  method ForeignIdReached() returns (registry: Option<DispatchRegistry>, ids: MessageIds)
    ensures registry.Some?
    ensures exists actor, d :: Lookup(registry.value.actors, ids.slots, actor, 5) == Some(d)
  {
    hide IsBuilt, Lookup, Canonical, Ids;
    ids := new MessageIds();
    var result := ids.Assign(5, 1);
    var regs := [Registration(2, 0, 9)];
    ghost var before := ids.slots;
    registry := Build(regs, ids);
    assert regs[0] in regs;
    OneRegistration(regs, before, registry.value, ids.slots);
    ForeignIdMisbinds(regs, before, registry.value, ids.slots, 5);
  }

  lemma OneRegistration(regs: seq<Registration>, before: map<Identity, Id>, registry: DispatchRegistry,
      slots: map<Identity, Id>)
    requires |regs| == 1 && IsBuilt(regs, before, registry, slots)
    ensures DuplicatesAgree(regs) && |Ids(Canonical(regs))| >= 1
  {
    hide Canonical, Ids, ByActor, Frozen;
    CanonicalMembers(regs, regs[0]);
    IdsKeys(Canonical(regs), regs[0].message);
    assert |Ids(Canonical(regs)).Keys| > 0;
  }

  /** The build's result does not depend on the order of registration. */
  lemma BuildIgnoresOrder(regs: seq<Registration>, others: seq<Registration>, before: map<Identity, Id>,
                          a: DispatchRegistry, b: DispatchRegistry, slots: map<Identity, Id>, slots': map<Identity, Id>)
    requires DuplicatesAgree(regs) && multiset(regs) == multiset(others)
    requires IsBuilt(regs, before, a, slots) && IsBuilt(others, before, b, slots')
    ensures a == b && slots == slots'
  {
    hide Canonical, Ids, Frozen, DuplicatesAgree, ByActor;
    assert forall r :: r in regs <==> r in multiset(regs);
    assert forall r :: r in others <==> r in multiset(others);
    OrderIrrelevant(regs, others);
    assert |multiset(regs)| == |regs| && |multiset(others)| == |others|;
    SameSlots(slots, slots', before, Ids(Canonical(regs)));
  }

  lemma SameSlots(a: map<Identity, Id>, b: map<Identity, Id>, before: map<Identity, Id>, ids: map<Identity, Id>)
    requires Holds(a, before, ids) && Holds(b, before, ids)
    ensures a == b
  {
    assert forall m :: m in a <==> m in b;
    assert forall m :: m in a ==> a[m] == b[m];
  }

  /** IDs are exactly 1 to n; each actor's unique messages own one contiguous block that
      its table's base and length describe, and shared IDs lie above every block. */
  lemma IdLayout(regs: seq<Registration>, before: map<Identity, Id>, registry: DispatchRegistry,
                 slots: map<Identity, Id>, r: Registration)
    requires IsBuilt(regs, before, registry, slots) && r in Canonical(regs)
    ensures Enumerates(Ids(Canonical(regs)), 1)
    ensures forall m :: m in Ids(Canonical(regs)) ==> m in slots && slots[m] == Ids(Canonical(regs))[m]
    ensures var s := Canonical(regs); var t := TableOf(s, r.actor);
      && r.message in slots
      && (HandlerCount(s, r.message) == 1 ==> t.uniqueBase <= slots[r.message] < t.uniqueBase + |t.unique|)
      && (HandlerCount(s, r.message) != 1 ==>
          slots[r.message] > |Uniques(s)| && t.uniqueBase + |t.unique| <= |Uniques(s)| + 1)
  {
    hide Canonical, Ids, ByActor, Frozen, Classified, HandlerCount, Below, Chunk, SortByKey, Enumerates;
    var s := Canonical(regs);
    IdsEnumerated(s);
    IdsKeys(s, r.message);
    ChunkClassified(s, r.actor, true);
    if HandlerCount(s, r.message) == 1 {
      ClassifiedMembers(s, s, true, r);
      var q :| 0 <= q < |Uniques(s)| && Uniques(s)[q] == r;
      UniqueSlice(s, r.actor, q);
    } else {
      SharedIdsAbove(s, r);
    }
  }
}
