/** The pointer-keyed extension set: a vector of boxed, type-erased entries, with
    explicit inserts that replace and inheritance that only fills gaps. */
module Extension {

  import opened Options

  /** A descriptor's address; distinct descriptors have distinct keys. */
  type Key = nat
  type Address = nat
  type Value = nat

  datatype Entry = Entry(key: Key, value: Address, inheritable: bool)

  /** What a set abstractly holds under a key. A clone holds an equal value. */
  datatype Slot = Slot(value: Value, inheritable: bool)

  // --------------------------------------------------------------- specification

  datatype Op = Insert(key: Key, slot: Slot) | Inherit(source: map<Key, Slot>)

  predicate Offers(source: map<Key, Slot>, k: Key) {
    k in source && source[k].inheritable
  }

  function Inherited(view: map<Key, Slot>, source: map<Key, Slot>): map<Key, Slot> {
    map k | k in view.Keys + source.Keys && (k in view || Offers(source, k)) :: if k in view then view[k] else source[k]
  }

  function Apply(view: map<Key, Slot>, op: Op): map<Key, Slot> {
    match op
    case Insert(k, slot) => view[k := slot]
    case Inherit(source) => Inherited(view, source)
  }

  function Final(ops: seq<Op>): map<Key, Slot> {
    if ops == [] then map[] else Apply(Final(ops[..|ops| - 1]), ops[|ops| - 1])
  }

  function SlotAt(view: map<Key, Slot>, k: Key): Option<Slot> {
    if k in view then Some(view[k]) else None
  }

  function LastExplicit(ops: seq<Op>, k: Key): Option<Slot> {
    if ops == [] then None
    else
      var last := ops[|ops| - 1];
      if last.Insert? && last.key == k then Some(last.slot) else LastExplicit(ops[..|ops| - 1], k)
  }

  /** The slot of the first inherited source that offers the key. */
  function FirstOffered(ops: seq<Op>, k: Key): Option<Slot> {
    if ops == [] then None
    else
      var earlier, last := FirstOffered(ops[..|ops| - 1], k), ops[|ops| - 1];
      if earlier.Some? then earlier
      else if last.Inherit? && Offers(last.source, k) then Some(last.source[k])
      else None
  }

  function Resolved(ops: seq<Op>, k: Key): Option<Slot> {
    var explicit := LastExplicit(ops, k);
    if explicit.Some? then explicit else FirstOffered(ops, k)
  }

  /** After any sequence of inserts and inherits a key holds its last explicit value if
      it has one, else what the first inherited source offered. */
  lemma {:induction false} ExplicitElseFirstInherited(ops: seq<Op>, k: Key)
    ensures SlotAt(Final(ops), k) == Resolved(ops, k)
  {
    if ops != [] {
      ExplicitElseFirstInherited(ops[..|ops| - 1], k);
    }
  }

  function Inserts(ops: seq<Op>): seq<Op> {
    if ops == [] then []
    else
      var front, last := Inserts(ops[..|ops| - 1]), ops[|ops| - 1];
      if last.Insert? then front + [last] else front
  }

  function Inherits(ops: seq<Op>): seq<Op> {
    if ops == [] then []
    else
      var front, last := Inherits(ops[..|ops| - 1]), ops[|ops| - 1];
      if last.Inherit? then front + [last] else front
  }

  lemma {:induction false} OnlyInsertsSetExplicit(ops: seq<Op>, k: Key)
    ensures LastExplicit(Inserts(ops), k) == LastExplicit(ops, k)
  {
    if ops != [] {
      var front, last := ops[..|ops| - 1], ops[|ops| - 1];
      OnlyInsertsSetExplicit(front, k);
      var kept := Inserts(front);
      if last.Insert? {
        assert (kept + [last])[..|kept|] == kept;
      }
    }
  }

  lemma {:induction false} OnlyInheritsOffer(ops: seq<Op>, k: Key)
    ensures FirstOffered(Inherits(ops), k) == FirstOffered(ops, k)
  {
    if ops != [] {
      var front, last := ops[..|ops| - 1], ops[|ops| - 1];
      OnlyInheritsOffer(front, k);
      var kept := Inherits(front);
      if last.Inherit? {
        assert (kept + [last])[..|kept|] == kept;
      }
    }
  }

  /** How inserts interleave with inherits makes no difference. */
  lemma InterleavingIrrelevant(ops: seq<Op>, others: seq<Op>)
    requires Inserts(ops) == Inserts(others) && Inherits(ops) == Inherits(others)
    ensures Final(ops) == Final(others)
  {
    hide Final, LastExplicit, FirstOffered;
    forall k ensures SlotAt(Final(ops), k) == SlotAt(Final(others), k) {
      ExplicitElseFirstInherited(ops, k);
      ExplicitElseFirstInherited(others, k);
      OnlyInsertsSetExplicit(ops, k);
      OnlyInsertsSetExplicit(others, k);
      OnlyInheritsOffer(ops, k);
      OnlyInheritsOffer(others, k);
    }
    SameSlotsSameView(Final(ops), Final(others));
  }

  lemma SameSlotsSameView(a: map<Key, Slot>, b: map<Key, Slot>)
    requires forall k :: SlotAt(a, k) == SlotAt(b, k)
    ensures a == b
  {
    assert forall k :: k in a <==> SlotAt(a, k).Some?;
    assert forall k :: k in b <==> SlotAt(b, k).Some?;
    assert forall k :: k in a ==> SlotAt(a, k) == Some(a[k]) && SlotAt(b, k) == Some(b[k]);
  }

  // -------------------------------------------------------------------- the heap

  predicate Distinct(s: seq<Address>) {
    forall i, j :: 0 <= i < j < |s| ==> s[i] != s[j]
  }

  /** The boxes of all sets, and the order in which boxes were dropped. */
  class Heap {
    var boxes: map<Address, Value>
    var nextAddress: Address
    var freed: seq<Address>

    ghost predicate Valid()
      reads this
    {
      && (forall p :: p in boxes ==> p < nextAddress)
      && (forall p: Address :: p < nextAddress ==> p in boxes || p in freed)
      && (forall i :: 0 <= i < |freed| ==> freed[i] < nextAddress && freed[i] !in boxes)
      && Distinct(freed)
    }

    constructor ()
      ensures Valid() && boxes == map[] && freed == []
    {
      boxes, nextAddress, freed := map[], 0, [];
    }

    method NewBox(value: Value) returns (p: Address)
      requires Valid()
      modifies this
      ensures Valid() && freed == old(freed)
      ensures p == old(nextAddress) && nextAddress == p + 1 && p !in old(boxes) && boxes == old(boxes)[p := value]
    {
      p := nextAddress;
      boxes, nextAddress := boxes[p := value], nextAddress + 1;
    }

    /** `drop_boxed_ptr`. */
    method DropBox(p: Address)
      requires Valid() && p in boxes
      modifies this
      ensures Valid() && boxes == old(boxes) - {p} && freed == old(freed) + [p] && nextAddress == old(nextAddress)
    {
      boxes, freed := boxes - {p}, freed + [p];
    }
  }

  // --------------------------------------------------------------------- the set

  ghost predicate KeysUnique(entries: seq<Entry>) {
    forall i, j :: 0 <= i < j < |entries| ==> entries[i].key != entries[j].key
  }

  ghost predicate BoxesUnique(entries: seq<Entry>) {
    forall i, j :: 0 <= i < j < |entries| ==> entries[i].value != entries[j].value
  }

  function Owned(entries: seq<Entry>): set<Address> {
    set i | 0 <= i < |entries| :: entries[i].value
  }

  ghost predicate HasKey(entries: seq<Entry>, k: Key) {
    exists i :: 0 <= i < |entries| && entries[i].key == k
  }

  /** The entries with their boxes represent the view. */
  ghost predicate Represents(entries: seq<Entry>, boxes: map<Address, Value>, view: map<Key, Slot>) {
    && KeysUnique(entries) && BoxesUnique(entries)
    && (forall i :: 0 <= i < |entries| ==>
          && entries[i].value in boxes
          && SlotAt(view, entries[i].key) == Some(Slot(boxes[entries[i].value], entries[i].inheritable)))
    && (forall k :: k in view ==> HasKey(entries, k))
  }

  lemma RepresentsFrame(entries: seq<Entry>, before: map<Address, Value>, boxes: map<Address, Value>,
                        view: map<Key, Slot>)
    requires Represents(entries, before, view)
    requires forall p :: p in Owned(entries) && p in before ==> p in boxes && boxes[p] == before[p]
    ensures Represents(entries, boxes, view)
  {
    forall i | 0 <= i < |entries| ensures entries[i].value in Owned(entries) {
    }
  }

  lemma RepresentsPush(entries: seq<Entry>, boxes: map<Address, Value>, view: map<Key, Slot>, e: Entry)
    requires Represents(entries, boxes, view) && e.value in boxes && e.value !in Owned(entries) && e.key !in view
    ensures Represents(entries + [e], boxes, view[e.key := Slot(boxes[e.value], e.inheritable)])
    ensures Owned(entries + [e]) == Owned(entries) + {e.value}
  {
    var more, grown := entries + [e], view[e.key := Slot(boxes[e.value], e.inheritable)];
    forall i | 0 <= i < |entries| ensures entries[i].key != e.key && entries[i].value != e.value {
      assert entries[i].value in Owned(entries);
    }
    forall k | k in grown ensures HasKey(more, k) {
      if k == e.key {
        assert more[|entries|].key == k;
      } else {
        var i :| 0 <= i < |entries| && entries[i].key == k;
        assert more[i].key == k;
      }
    }
    forall p ensures p in Owned(more) <==> p in Owned(entries) || p == e.value {
      if p in Owned(entries) {
        var i :| 0 <= i < |entries| && entries[i].value == p;
        assert more[i].value == p;
      }
      if p == e.value {
        assert more[|entries|].value == p;
      }
    }
  }

  lemma RepresentsReplace(entries: seq<Entry>, boxes: map<Address, Value>, view: map<Key, Slot>, i: nat, e: Entry)
    requires Represents(entries, boxes, view) && i < |entries| && entries[i].key == e.key
    requires e.value in boxes && e.value !in Owned(entries)
    ensures Represents(entries[i := e], boxes, view[e.key := Slot(boxes[e.value], e.inheritable)])
    ensures Owned(entries[i := e]) == Owned(entries) - {entries[i].value} + {e.value}
  {
    var after, changed := entries[i := e], view[e.key := Slot(boxes[e.value], e.inheritable)];
    forall j | 0 <= j < |entries| ensures entries[j].value != e.value {
      assert entries[j].value in Owned(entries);
    }
    forall k | k in changed ensures HasKey(after, k) {
      if k == e.key {
        assert after[i].key == k;
      } else {
        var j :| 0 <= j < |entries| && entries[j].key == k;
        assert after[j].key == k;
      }
    }
    forall p ensures p in Owned(after) <==> (p in Owned(entries) && p != entries[i].value) || p == e.value {
      if p in Owned(entries) && p != entries[i].value {
        var j :| 0 <= j < |entries| && entries[j].value == p;
        assert after[j].value == p;
      }
      if p == e.value {
        assert after[i].value == p;
      }
    }
  }

  lemma OwnedBoxes(entries: seq<Entry>, boxes: map<Address, Value>, view: map<Key, Slot>)
    requires Represents(entries, boxes, view)
    ensures Owned(entries) <= boxes.Keys
  {
  }

  lemma EntryBox(entries: seq<Entry>, boxes: map<Address, Value>, view: map<Key, Slot>, i: nat)
    requires Represents(entries, boxes, view) && i < |entries|
    ensures entries[i].value in boxes && entries[i].value in Owned(entries)
    ensures SlotAt(view, entries[i].key) == Some(Slot(boxes[entries[i].value], entries[i].inheritable))
  {
  }

  lemma FoundMeans(entries: seq<Entry>, boxes: map<Address, Value>, view: map<Key, Slot>, k: Key, found: Option<nat>)
    requires Represents(entries, boxes, view)
    requires found.Some? ==> found.value < |entries| && entries[found.value].key == k
    requires found.None? ==> !HasKey(entries, k)
    ensures found.Some? <==> k in view
  {
  }

  lemma OwnedPrefix(entries: seq<Entry>, i: nat)
    requires BoxesUnique(entries) && i < |entries|
    ensures Owned(entries[..i + 1]) == Owned(entries[..i]) + {entries[i].value}
    ensures entries[i].value !in Owned(entries[..i])
  {
    forall p ensures p in Owned(entries[..i + 1]) <==> p in Owned(entries[..i]) || p == entries[i].value {
      if p in Owned(entries[..i]) {
        var j :| 0 <= j < i && entries[..i][j].value == p;
        assert entries[..i + 1][j].value == p;
      }
      if p == entries[i].value {
        assert entries[..i + 1][i].value == p;
      }
    }
  }

  /** A set gave up the boxes `was` and holds `now` instead; every other box is untouched. */
  ghost predicate OwnsInstead(before: map<Address, Value>, boxes: map<Address, Value>,
                              was: set<Address>, now: set<Address>)
  {
    && was <= before.Keys && boxes.Keys == (before.Keys - was) + now
    && (forall p :: p in before && p !in was ==> p !in now && boxes[p] == before[p])
  }

  lemma OwnsTheSame(boxes: map<Address, Value>, owned: set<Address>)
    requires owned <= boxes.Keys
    ensures OwnsInstead(boxes, boxes, owned, owned)
  {
  }

  lemma OwnsOneMore(first: map<Address, Value>, boxes: map<Address, Value>, was: set<Address>, now: set<Address>,
                    p: Address, value: Value)
    requires OwnsInstead(first, boxes, was, now) && p !in boxes
    ensures OwnsInstead(first, boxes[p := value], was, now + {p})
  {
  }

  lemma UntouchedBox(first: map<Address, Value>, boxes: map<Address, Value>, was: set<Address>, now: set<Address>,
      p: Address)
    requires OwnsInstead(first, boxes, was, now) && p in first && p !in was
    ensures p in boxes && boxes[p] == first[p] && p !in now
  {
  }

  // -------------------------------------------------------- inheriting entry by entry

  ghost predicate ComesFrom(entries: seq<Entry>, boxes: map<Address, Value>, k: Key, slot: Slot) {
    exists j :: 0 <= j < |entries| && entries[j].key == k && entries[j].inheritable
      && entries[j].value in boxes && slot == Slot(boxes[entries[j].value], true)
  }

  /** What inheriting from the first entries of a source made of the view. */
  ghost predicate InheritedUpTo(first: map<Key, Slot>, entries: seq<Entry>, boxes: map<Address, Value>,
                                view: map<Key, Slot>)
  {
    && (forall k :: k in first ==> k in view && view[k] == first[k])
    && (forall j :: 0 <= j < |entries| && entries[j].inheritable ==> entries[j].key in view)
    && (forall k :: k in view && k !in first ==> ComesFrom(entries, boxes, k, view[k]))
  }

  lemma ComesFromMore(entries: seq<Entry>, boxes: map<Address, Value>, k: Key, slot: Slot, e: Entry)
    requires ComesFrom(entries, boxes, k, slot)
    ensures ComesFrom(entries + [e], boxes, k, slot)
  {
    var j :| 0 <= j < |entries| && entries[j].key == k && entries[j].inheritable
      && entries[j].value in boxes && slot == Slot(boxes[entries[j].value], true);
    assert (entries + [e])[j] == entries[j];
  }

  lemma InheritedFromNone(view: map<Key, Slot>, entries: seq<Entry>, boxes: map<Address, Value>)
    ensures InheritedUpTo(view, entries[..0], boxes, view)
  {
  }

  lemma InheritSkips(first: map<Key, Slot>, entries: seq<Entry>, boxes: map<Address, Value>, view: map<Key, Slot>,
      e: Entry)
    requires InheritedUpTo(first, entries, boxes, view) && (!e.inheritable || e.key in view)
    ensures InheritedUpTo(first, entries + [e], boxes, view)
  {
    hide ComesFrom;
    forall k | k in view && k !in first ensures ComesFrom(entries + [e], boxes, k, view[k]) {
      ComesFromMore(entries, boxes, k, view[k], e);
    }
  }

  lemma InheritTakes(first: map<Key, Slot>, entries: seq<Entry>, boxes: map<Address, Value>, view: map<Key, Slot>,
      e: Entry)
    requires InheritedUpTo(first, entries, boxes, view) && e.inheritable && e.key !in view && e.value in boxes
    ensures InheritedUpTo(first, entries + [e], boxes, view[e.key := Slot(boxes[e.value], true)])
  {
    var taken := view[e.key := Slot(boxes[e.value], true)];
    assert ComesFrom(entries + [e], boxes, e.key, taken[e.key]) by {
      assert (entries + [e])[|entries|] == e;
    }
    hide ComesFrom;
    forall k | k in taken && k !in first ensures ComesFrom(entries + [e], boxes, k, taken[k]) {
      if k != e.key {
        ComesFromMore(entries, boxes, k, view[k], e);
      }
    }
  }

  lemma InheritedAll(first: map<Key, Slot>, entries: seq<Entry>, boxes: map<Address, Value>, source: map<Key, Slot>,
      view: map<Key, Slot>)
    requires InheritedUpTo(first, entries, boxes, view) && Represents(entries, boxes, source)
    ensures view == Inherited(first, source)
  {
    hide ComesFrom, Represents, HasKey;
    forall k ensures k in view <==> k in first || Offers(source, k) {
      if Offers(source, k) {
        Offered(entries, boxes, source, k);
      }
      if k in view && k !in first {
        FromSource(entries, boxes, source, k, view[k]);
      }
    }
    forall k | k in view && k !in first ensures view[k] == source[k] {
      FromSource(entries, boxes, source, k, view[k]);
    }
  }

  lemma FromSource(entries: seq<Entry>, boxes: map<Address, Value>, source: map<Key, Slot>, k: Key, slot: Slot)
    requires Represents(entries, boxes, source) && ComesFrom(entries, boxes, k, slot)
    ensures Offers(source, k) && source[k] == slot
  {
  }

  lemma Offered(entries: seq<Entry>, boxes: map<Address, Value>, source: map<Key, Slot>, k: Key)
    requires Represents(entries, boxes, source) && Offers(source, k)
    ensures exists j :: 0 <= j < |entries| && entries[j].key == k && entries[j].inheritable
  {
    var j :| 0 <= j < |entries| && entries[j].key == k;
    assert SlotAt(source, k) == Some(Slot(boxes[entries[j].value], entries[j].inheritable));
  }

  /** `iter().find(|entry| entry.key == key)`: the first match, if any. */
  method FindKey(entries: seq<Entry>, key: Key) returns (found: Option<nat>)
    ensures found.Some? ==> found.value < |entries| && entries[found.value].key == key
    ensures found.None? ==> !HasKey(entries, key)
  {
    for i := 0 to |entries|
      invariant forall j :: 0 <= j < i ==> entries[j].key != key
    {
      if entries[i].key == key {
        return Some(i);
      }
    }
    return None;
  }

  class ExtensionSet {
    const heap: Heap
    var entries: seq<Entry>
    ghost var view: map<Key, Slot>

    ghost predicate Valid()
      reads this, heap
    {
      heap.Valid() && Represents(entries, heap.boxes, view)
    }

    constructor (heap: Heap)
      requires heap.Valid()
      ensures Valid() && this.heap == heap && entries == [] && view == map[]
    {
      this.heap := heap;
      entries, view := [], map[];
    }

    /** `insert` and `set_raw`. */
    method Insert(key: Key, value: Value, inheritable: bool)
      requires Valid()
      modifies this, heap
      ensures Valid() && view == Apply(old(view), Op.Insert(key, Slot(value, inheritable)))
      ensures OwnsInstead(old(heap.boxes), heap.boxes, old(Owned(entries)), Owned(entries))
      ensures key !in old(view) ==> heap.freed == old(heap.freed)
      ensures key in old(view) ==> exists i ::
        0 <= i < |old(entries)| && old(entries)[i].key == key && heap.freed == old(heap.freed) + [old(entries)[i].value]
      ensures old(heap.nextAddress) <= heap.nextAddress
    {
      hide Represents, Owned;
      ghost var before := heap.boxes;
      var p := heap.NewBox(value);
      OwnedBoxes(entries, before, view);
      RepresentsFrame(entries, before, heap.boxes, view);
      var found := FindKey(entries, key);
      var e := Entry(key, p, inheritable);
      FoundMeans(entries, heap.boxes, view, key, found);
      if found.Some? {
        var displaced := entries[found.value].value;
        RepresentsReplace(entries, heap.boxes, view, found.value, e);
        OwnedBoxes(entries[found.value := e], heap.boxes, view[key := Slot(value, inheritable)]);
        entries, view := entries[found.value := e], view[key := Slot(value, inheritable)];
        EntryBox(old(entries), before, old(view), found.value);
        ghost var full := heap.boxes;
        heap.DropBox(displaced);
        assert old(entries)[found.value].key == key;
        RepresentsFrame(entries, full, heap.boxes, view);
      } else {
        RepresentsPush(entries, heap.boxes, view, e);
        entries, view := entries + [e], view[key := Slot(value, inheritable)];
      }
    }

    /** `get`. */
    method Get(key: Key) returns (value: Option<Value>)
      requires Valid()
      ensures value == if key in view then Some(view[key].value) else None
    {
      var found := FindKey(entries, key);
      if found.Some? {
        return Some(heap.boxes[entries[found.value].value]);
      }
      return None;
    }

    /** `inherit_inheritable_from`. */
    method InheritFrom(source: ExtensionSet)
      requires Valid() && source.Valid() && source != this && source.heap == heap
      requires Owned(entries) !! Owned(source.entries)
      modifies this, heap
      ensures Valid() && view == Apply(old(view), Op.Inherit(source.view))
      ensures heap.nextAddress >= old(heap.nextAddress)
      ensures heap.freed == old(heap.freed)
        && OwnsInstead(old(heap.boxes), heap.boxes, old(Owned(entries)), Owned(entries))
    {
      hide Represents, Owned, OwnsInstead, Distinct, HasKey, Inherited;
      OwnedBoxes(entries, heap.boxes, view);
      OwnsTheSame(heap.boxes, Owned(entries));
      InheritedFromNone(view, source.entries, heap.boxes);
      OwnedBoxes(source.entries, heap.boxes, source.view);
      for i := 0 to |source.entries|
        invariant Valid() && source.Valid() && heap.nextAddress >= old(heap.nextAddress)
        invariant heap.freed == old(heap.freed)
          && OwnsInstead(old(heap.boxes), heap.boxes, old(Owned(entries)), Owned(entries))
        invariant InheritedUpTo(old(view), source.entries[..i], old(heap.boxes), view)
        invariant Owned(source.entries) <= old(heap.boxes).Keys && Owned(entries) !! Owned(source.entries)
      {
        ghost var before := heap.boxes;
        var e := source.entries[i];
        var found := FindKey(entries, e.key);
        FoundMeans(entries, heap.boxes, view, e.key, found);
        EntryBox(source.entries, before, source.view, i);
        assert source.entries[..i + 1] == source.entries[..i] + [e];
        UntouchedBox(old(heap.boxes), before, old(Owned(entries)), Owned(entries), e.value);
        if !e.inheritable || found.Some? {
          InheritSkips(old(view), source.entries[..i], old(heap.boxes), view, e);
        } else {
          InheritTakes(old(view), source.entries[..i], old(heap.boxes), view, e);
          OwnedBoxes(entries, before, view);
          OwnedBoxes(source.entries, before, source.view);
          var p := heap.NewBox(heap.boxes[e.value]);
          RepresentsFrame(entries, before, heap.boxes, view);
          RepresentsFrame(source.entries, before, heap.boxes, source.view);
          var copy := Entry(e.key, p, e.inheritable);
          RepresentsPush(entries, heap.boxes, view, copy);
          OwnsOneMore(old(heap.boxes), before, old(Owned(entries)), Owned(entries), p, heap.boxes[e.value]);
          entries, view := entries + [copy], view[e.key := Slot(heap.boxes[p], e.inheritable)];
        }
      }
      assert source.entries[..|source.entries|] == source.entries;
      InheritedAll(old(view), source.entries, old(heap.boxes), source.view, view);
    }

    /** `drop`: every box of the set once, and no other. */
    method Drop()
      requires Valid()
      modifies this, heap
      ensures heap.Valid() && heap.boxes == old(heap.boxes) - old(Owned(entries))
      ensures |heap.freed| == |old(heap.freed)| + |old(entries)|
      ensures forall i :: 0 <= i < |old(entries)| ==> heap.freed[|old(heap.freed)| + i] == old(entries)[i].value
      ensures entries == [] && heap.nextAddress == old(heap.nextAddress) && old(heap.freed) <= heap.freed
    {
      for i := 0 to |entries|
        invariant heap.Valid() && entries == old(entries)
        invariant heap.boxes == old(heap.boxes) - Owned(entries[..i])
        invariant heap.nextAddress == old(heap.nextAddress) && old(heap.freed) <= heap.freed
        invariant |heap.freed| == |old(heap.freed)| + i
        invariant forall j :: 0 <= j < i ==> heap.freed[|old(heap.freed)| + j] == entries[j].value
      {
        OwnedPrefix(entries, i);
        heap.DropBox(entries[i].value);
      }
      assert entries[..|entries|] == entries;
      entries, view := [], map[];
    }
  }

  // ------------------------------------------------------------------- whole runs

  /** What a program does to one set: inserts, and inherits from one of the given sources. */
  datatype Step = InsertStep(key: Key, value: Value, inheritable: bool) | InheritStep(source: nat)

  function Meaning(steps: seq<Step>, views: seq<map<Key, Slot>>): seq<Op> {
    seq(|steps|, i requires 0 <= i < |steps| =>
      match steps[i]
      case InsertStep(k, value, inheritable) => Op.Insert(k, Slot(value, inheritable))
      case InheritStep(source) => Op.Inherit(if source < |views| then views[source] else map[]))
  }

  ghost function Views(sources: seq<ExtensionSet>): seq<map<Key, Slot>>
    reads sources
  {
    seq(|sources|, i requires 0 <= i < |sources| reads sources => sources[i].view)
  }

  /** The heap is as it was, plus the boxes of one set. */
  ghost predicate Extends(first: map<Address, Value>, boxes: map<Address, Value>, owned: set<Address>) {
    && owned !! first.Keys && boxes.Keys == first.Keys + owned
    && forall p :: p in first ==> boxes[p] == first[p]
  }

  lemma ExtendsStep(first: map<Address, Value>, before: map<Address, Value>, boxes: map<Address, Value>,
      was: set<Address>, now: set<Address>)
    requires Extends(first, before, was) && OwnsInstead(before, boxes, was, now)
    ensures Extends(first, boxes, now)
  {
  }

  lemma ExtendsRepresents(first: map<Address, Value>, boxes: map<Address, Value>, owned: set<Address>,
      entries: seq<Entry>, view: map<Key, Slot>)
    requires Extends(first, boxes, owned) && Represents(entries, first, view)
    ensures Represents(entries, boxes, view) && owned !! Owned(entries)
  {
    OwnedBoxes(entries, first, view);
    RepresentsFrame(entries, first, boxes, view);
  }

  /** A set built by any sequence of inserts and inherits, read under any key and dropped:
      the value is the last explicit one, else the first inherited one; afterwards the heap
      holds the boxes it held before, and the boxes dropped are exactly those allocated
      meanwhile, each once. */
  method BuildReadDrop(heap: Heap, sources: seq<ExtensionSet>, steps: seq<Step>, key: Key)
    returns (value: Option<Value>)
    requires heap.Valid() && forall i :: 0 <= i < |sources| ==> sources[i].heap == heap && sources[i].Valid()
    requires forall i :: 0 <= i < |steps| && steps[i].InheritStep? ==> steps[i].source < |sources|
    modifies heap
    ensures heap.Valid() && heap.boxes == old(heap.boxes)
    ensures old(heap.freed) <= heap.freed && Distinct(heap.freed)
    ensures forall p: Address ::
      p in heap.freed[|old(heap.freed)|..] <==> old(heap.nextAddress) <= p < heap.nextAddress
    ensures var slot := Resolved(Meaning(steps, Views(sources)), key);
      value == if slot.Some? then Some(slot.value.value) else None
  {
    hide Represents, Owned, OwnsInstead, Extends, Apply, Resolved;
    ghost var ops := Meaning(steps, Views(sources));
    var made := new ExtensionSet(heap);
    NothingOwned(heap.boxes);
    for i := 0 to |steps|
      invariant made.Valid() && made.heap == heap && fresh(made)
      invariant forall j :: 0 <= j < |sources| ==>
        sources[j].view == old(sources[j].view) && sources[j].entries == old(sources[j].entries)
      invariant made.view == Final(ops[..i])
      invariant old(heap.freed) <= heap.freed && old(heap.nextAddress) <= heap.nextAddress
      invariant Extends(old(heap.boxes), heap.boxes, Owned(made.entries))
    {
      ghost var before, was := heap.boxes, Owned(made.entries);
      assert ops[..i + 1][..i] == ops[..i];
      match steps[i] {
        case InsertStep(k, v, inheritable) => made.Insert(k, v, inheritable);
        case InheritStep(j) =>
          ExtendsRepresents(old(heap.boxes), heap.boxes, was, sources[j].entries, sources[j].view);
          made.InheritFrom(sources[j]);
      }
      ExtendsStep(old(heap.boxes), before, heap.boxes, was, Owned(made.entries));
    }
    assert ops[..|steps|] == ops;
    value := made.Get(key);
    ResolvedValue(ops, key);
    GiveBack(old(heap.boxes), heap.boxes, Owned(made.entries));
    made.Drop();
    FreedSince(old(heap.freed), heap.freed, heap.boxes, old(heap.nextAddress), heap.nextAddress);
  }

  /** With the same boxes as before, what was freed since is what was allocated since. */
  lemma FreedSince(before: seq<Address>, freed: seq<Address>, boxes: map<Address, Value>, from: Address, to: Address)
    requires before <= freed && Distinct(freed) && from <= to
    requires forall p: Address :: p < from ==> p in boxes || p in before
    requires forall p: Address :: p < to ==> p in boxes || p in freed
    requires forall p :: p in boxes ==> p < from
    requires forall i :: 0 <= i < |before| ==> before[i] < from
    requires forall i :: 0 <= i < |freed| ==> freed[i] < to && freed[i] !in boxes
    ensures forall p: Address :: p in freed[|before|..] <==> from <= p < to
  {
    var since := freed[|before|..];
    assert freed == before + since;
    forall i, j | 0 <= i < |before| && 0 <= j < |since| ensures before[i] != since[j] {
      assert freed[i] == before[i] && freed[|before| + j] == since[j];
    }
    assert forall p :: p in since ==> p in freed && p !in before;
    assert forall p :: p in freed <==> p in before || p in since;
  }

  lemma NothingOwned(boxes: map<Address, Value>)
    ensures Extends(boxes, boxes, Owned([]))
  {
  }

  lemma GiveBack(first: map<Address, Value>, boxes: map<Address, Value>, owned: set<Address>)
    requires Extends(first, boxes, owned)
    ensures boxes - owned == first
  {
  }

  lemma ResolvedValue(ops: seq<Op>, key: Key)
    ensures key in Final(ops) <==> Resolved(ops, key).Some?
    ensures key in Final(ops) ==> Final(ops)[key] == Resolved(ops, key).value
  {
    hide Final, Resolved;
    ExplicitElseFirstInherited(ops, key);
  }
}
