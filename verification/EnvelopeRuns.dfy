/** Any sequence of envelope operations over any number of live envelopes: every box is
    freed once and every value is dropped or handed out once. */
module EnvelopeRuns {

  import opened Options
  import opened Envelope

  type Handle = nat

  datatype Op =
    | Create(handle: Handle, ty: Word, message: Value, sender: Option<Value>)
    | CloneAsTell(handle: Handle, copy: Handle, identity: nat)
    | Open(handle: Handle, ty: Word)
    | Discard(handle: Handle)

  // ------------------------------------------------------- who owns which value

  function ValuesOf(c: Contents): set<Value> {
    {c.message} + if c.sender.Some? then {c.sender.value} else {}
  }

  ghost predicate IsHeld(contents: map<Handle, Contents>, v: Value) {
    exists h :: h in contents && v in ValuesOf(contents[h])
  }

  ghost predicate Unshared(contents: map<Handle, Contents>) {
    && (forall h, k :: h in contents && k in contents && h != k ==> ValuesOf(contents[h]) !! ValuesOf(contents[k]))
    && (forall h :: h in contents && contents[h].sender.Some? ==> contents[h].sender.value != contents[h].message)
  }

  /** Every value created is held by a live envelope, or was dropped or handed out exactly
      once; nothing else ever was. */
  ghost predicate Accounted(contents: map<Handle, Contents>, created: set<Value>, gone: seq<Value>) {
    && (forall v :: IsHeld(contents, v) ==> v in created)
    && (forall v :: multiset(gone)[v] == if v in created && !IsHeld(contents, v) then 1 else 0)
  }

  lemma HeldAfterAdd(contents: map<Handle, Contents>, h: Handle, c: Contents, v: Value)
    requires h !in contents
    ensures IsHeld(contents[h := c], v) <==> IsHeld(contents, v) || v in ValuesOf(c)
  {
    var more := contents[h := c];
    if IsHeld(contents, v) {
      var k :| k in contents && v in ValuesOf(contents[k]);
      assert v in ValuesOf(more[k]);
    }
    if v in ValuesOf(c) {
      assert v in ValuesOf(more[h]);
    }
  }

  lemma HeldAfterRemove(contents: map<Handle, Contents>, h: Handle, v: Value)
    requires h in contents && Unshared(contents)
    ensures IsHeld(contents - {h}, v) <==> IsHeld(contents, v) && v !in ValuesOf(contents[h])
  {
    var less := contents - {h};
    if IsHeld(contents, v) && v !in ValuesOf(contents[h]) {
      var k :| k in contents && v in ValuesOf(contents[k]);
      assert k in less && v in ValuesOf(less[k]);
    }
  }

  lemma AccountAdd(contents: map<Handle, Contents>, created: set<Value>, gone: seq<Value>, h: Handle, c: Contents)
    requires h !in contents && Unshared(contents) && Accounted(contents, created, gone) && ValuesOf(c) !! created
    requires c.sender.Some? ==> c.sender.value != c.message
    ensures Unshared(contents[h := c]) && Accounted(contents[h := c], created + ValuesOf(c), gone)
  {
    hide IsHeld, ValuesOf;
    var more := contents[h := c];
    forall v ensures IsHeld(more, v) <==> IsHeld(contents, v) || v in ValuesOf(c) {
      HeldAfterAdd(contents, h, c, v);
    }
    forall k | k in contents ensures ValuesOf(contents[k]) !! ValuesOf(c) {
      HeldIsCreated(contents, created, gone, k);
    }
  }

  lemma HeldIsCreated(contents: map<Handle, Contents>, created: set<Value>, gone: seq<Value>, k: Handle)
    requires k in contents && Accounted(contents, created, gone)
    ensures ValuesOf(contents[k]) <= created
  {
    forall v | v in ValuesOf(contents[k]) ensures v in created {
      assert IsHeld(contents, v);
    }
  }

  function OpenOrder(c: Contents): seq<Value> {
    [c.message] + if c.sender.Some? then [c.sender.value] else []
  }

  lemma CountsGrow(gone: seq<Value>, dropped: seq<Value>, handedOut: seq<Value>, order: seq<Value>)
    requires multiset(gone) == multiset(dropped) + multiset(handedOut)
    ensures multiset(gone + order) == multiset(dropped) + multiset(handedOut + order)
    ensures multiset(gone + order) == multiset(dropped + order) + multiset(handedOut)
  {
    assert multiset(gone + order) == multiset(gone) + multiset(order);
  }

  /** The two orders in which an envelope's values leave it. */
  ghost predicate LeavesAs(order: seq<Value>, c: Contents) {
    multiset(order) == multiset(ValuesOf(c))
  }

  lemma ValuesLeave(c: Contents)
    requires c.sender.Some? ==> c.sender.value != c.message
    ensures LeavesAs(DropOrder(c), c)
    ensures LeavesAs(OpenOrder(c), c)
  {
    if c.sender.Some? {
      assert DropOrder(c) == [c.sender.value, c.message];
      assert multiset(ValuesOf(c)) == multiset{c.sender.value, c.message};
    } else {
      assert DropOrder(c) == [c.message];
    }
  }

  lemma AccountRemove(contents: map<Handle, Contents>, created: set<Value>, gone: seq<Value>, h: Handle,
      order: seq<Value>)
    requires h in contents && Unshared(contents) && Accounted(contents, created, gone) && LeavesAs(order, contents[h])
    ensures Unshared(contents - {h}) && Accounted(contents - {h}, created, gone + order)
  {
    hide IsHeld, ValuesOf;
    forall v ensures IsHeld(contents - {h}, v) <==> IsHeld(contents, v) && v !in ValuesOf(contents[h]) {
      HeldAfterRemove(contents, h, v);
    }
    forall v ensures v in ValuesOf(contents[h]) ==> IsHeld(contents, v) {
      MemberIsHeld(contents, h, v);
    }
    assert multiset(gone + order) == multiset(gone) + multiset(order);
  }

  lemma SenderIsOther(contents: map<Handle, Contents>, h: Handle)
    requires h in contents && Unshared(contents)
    ensures contents[h].sender.Some? ==> contents[h].sender.value != contents[h].message
  {
  }

  lemma MemberIsHeld(contents: map<Handle, Contents>, h: Handle, v: Value)
    requires h in contents
    ensures v in ValuesOf(contents[h]) ==> IsHeld(contents, v)
  {
  }

  // --------------------------------------------------------- who owns which box

  ghost predicate IsOwned(live: map<Handle, MessageEnvelope>, p: Address) {
    exists h :: h in live && p in EnvelopeBoxes(live[h])
  }

  /** Every live box belongs to exactly one live envelope, which holds its contents. */
  ghost predicate BoxesOk(boxes: map<Address, Stored>, live: map<Handle, MessageEnvelope>,
                          contents: map<Handle, Contents>)
  {
    && live.Keys == contents.Keys
    && (forall h :: h in live ==> Holds(boxes, live[h], contents[h]))
    && (forall h, k :: h in live && k in live && h != k ==> EnvelopeBoxes(live[h]) !! EnvelopeBoxes(live[k]))
    && (forall p :: p in boxes <==> IsOwned(live, p))
  }

  lemma HoldsCarries(before: map<Address, Stored>, boxes: map<Address, Stored>, e: MessageEnvelope, c: Contents)
    requires Holds(before, e, c)
    requires forall p :: p in EnvelopeBoxes(e) && p in before ==> p in boxes && boxes[p] == before[p]
    ensures Holds(boxes, e, c)
  {
  }

  lemma HeldBoxes(boxes: map<Address, Stored>, e: MessageEnvelope, c: Contents)
    requires Holds(boxes, e, c)
    ensures EnvelopeBoxes(e) <= boxes.Keys
  {
  }

  lemma BoxesAdd(before: map<Address, Stored>, boxes: map<Address, Stored>, live: map<Handle, MessageEnvelope>,
                 contents: map<Handle, Contents>, h: Handle, e: MessageEnvelope, c: Contents)
    requires BoxesOk(before, live, contents) && h !in live && Kept(before, boxes) && Holds(boxes, e, c)
    requires EnvelopeBoxes(e) !! before.Keys && boxes.Keys == before.Keys + EnvelopeBoxes(e)
    ensures BoxesOk(boxes, live[h := e], contents[h := c])
  {
    hide Holds, EnvelopeBoxes;
    forall k | k in live ensures Holds(boxes, live[k], contents[k]) && EnvelopeBoxes(live[k]) !! EnvelopeBoxes(e) {
      HoldsCarries(before, boxes, live[k], contents[k]);
      HeldBoxes(before, live[k], contents[k]);
    }
    forall p ensures IsOwned(live[h := e], p) <==> IsOwned(live, p) || p in EnvelopeBoxes(e) {
      OwnedAfterAdd(live, h, e, p);
    }
  }

  lemma OwnedAfterAdd(live: map<Handle, MessageEnvelope>, h: Handle, e: MessageEnvelope, p: Address)
    requires h !in live
    ensures IsOwned(live[h := e], p) <==> IsOwned(live, p) || p in EnvelopeBoxes(e)
  {
    var more := live[h := e];
    if IsOwned(live, p) {
      var k :| k in live && p in EnvelopeBoxes(live[k]);
      assert p in EnvelopeBoxes(more[k]);
    }
    if p in EnvelopeBoxes(e) {
      assert p in EnvelopeBoxes(more[h]);
    }
  }

  lemma LiveKeys(boxes: map<Address, Stored>, live: map<Handle, MessageEnvelope>, contents: map<Handle, Contents>)
    requires BoxesOk(boxes, live, contents)
    ensures live.Keys == contents.Keys
    ensures forall h :: h in live ==> Holds(boxes, live[h], contents[h])
  {
  }

  lemma OthersHold(before: map<Address, Stored>, boxes: map<Address, Stored>, live: map<Handle, MessageEnvelope>,
                   contents: map<Handle, Contents>, h: Handle, k: Handle)
    requires BoxesOk(before, live, contents) && h in live && k in live && k != h
      && boxes == before - EnvelopeBoxes(live[h])
    ensures Holds(boxes, live[k], contents[k])
  {
    hide Holds, EnvelopeBoxes, IsOwned;
    HoldsCarries(before, boxes, live[k], contents[k]);
  }

  lemma OthersDisjoint(boxes: map<Address, Stored>, live: map<Handle, MessageEnvelope>, contents: map<Handle, Contents>,
                       h: Handle, k: Handle)
    requires BoxesOk(boxes, live, contents) && h in live && k in live && k != h
    ensures EnvelopeBoxes(live[h]) !! EnvelopeBoxes(live[k])
  {
  }

  lemma OwnedIsLive(boxes: map<Address, Stored>, live: map<Handle, MessageEnvelope>, contents: map<Handle, Contents>,
      p: Address)
    requires BoxesOk(boxes, live, contents)
    ensures p in boxes <==> IsOwned(live, p)
  {
  }

  lemma BoxesRemove(before: map<Address, Stored>, boxes: map<Address, Stored>, live: map<Handle, MessageEnvelope>,
                    contents: map<Handle, Contents>, h: Handle)
    requires BoxesOk(before, live, contents) && h in live && boxes == before - EnvelopeBoxes(live[h])
    ensures BoxesOk(boxes, live - {h}, contents - {h})
  {
    var less, rest := live - {h}, contents - {h};
    assert less.Keys == rest.Keys by {
      hide BoxesOk;
      LiveKeys(before, live, contents);
    }
    forall k | k in less ensures Holds(boxes, less[k], rest[k]) {
      hide Holds, EnvelopeBoxes, BoxesOk, IsOwned;
      LiveKeys(before, live, contents);
      OthersHold(before, boxes, live, contents, h, k);
    }
    forall k, l | k in less && l in less && k != l ensures EnvelopeBoxes(less[k]) !! EnvelopeBoxes(less[l]) {
      hide Holds, EnvelopeBoxes, BoxesOk, IsOwned;
      OthersDisjoint(before, live, contents, k, l);
    }
    forall p ensures p in boxes <==> IsOwned(less, p) {
      hide Holds, EnvelopeBoxes, BoxesOk, IsOwned;
      OwnedIsLive(before, live, contents, p);
      OwnedAfterRemove(before, live, contents, h, p);
    }
    hide Holds, EnvelopeBoxes, IsOwned;
  }

  lemma OwnedAfterRemove(boxes: map<Address, Stored>, live: map<Handle, MessageEnvelope>,
                         contents: map<Handle, Contents>,
                         h: Handle, p: Address)
    requires BoxesOk(boxes, live, contents) && h in live
    ensures IsOwned(live - {h}, p) <==> IsOwned(live, p) && p !in EnvelopeBoxes(live[h])
  {
    hide Holds;
    var less := live - {h};
    if IsOwned(live, p) && p !in EnvelopeBoxes(live[h]) {
      var k :| k in live && p in EnvelopeBoxes(live[k]);
      assert k in less && p in EnvelopeBoxes(less[k]);
    }
  }

  // ------------------------------------------------------------ boxes and values

  ghost predicate TypesOk(types: map<Word, MessageType>, contents: map<Handle, Contents>) {
    forall h :: h in contents ==> contents[h].ty.address in types && types[contents[h].ty.address] == contents[h].ty
  }

  ghost predicate Sound(types: map<Word, MessageType>, boxes: map<Address, Stored>, live: map<Handle, MessageEnvelope>,
                        contents: map<Handle, Contents>, created: set<Value>, gone: seq<Value>,
                        dropped: seq<Value>, handedOut: seq<Value>)
  {
    && BoxesOk(boxes, live, contents) && TypesOk(types, contents)
    && Unshared(contents) && Accounted(contents, created, gone)
    && multiset(gone) == multiset(dropped) + multiset(handedOut)
  }

  lemma SoundAt(types: map<Word, MessageType>, boxes: map<Address, Stored>, live: map<Handle, MessageEnvelope>,
                contents: map<Handle, Contents>, created: set<Value>, gone: seq<Value>,
                dropped: seq<Value>, handedOut: seq<Value>)
    requires Sound(types, boxes, live, contents, created, gone, dropped, handedOut)
    ensures live.Keys == contents.Keys
    ensures forall h :: h in live ==>
      && Holds(boxes, live[h], contents[h])
      && contents[h].ty.address in types && types[contents[h].ty.address] == contents[h].ty
  {
    hide Holds, EnvelopeBoxes, Unshared, Accounted;
  }

  /** A new envelope with new values and new boxes. */
  lemma Join(types: map<Word, MessageType>, before: map<Address, Stored>, boxes: map<Address, Stored>,
             live: map<Handle, MessageEnvelope>, contents: map<Handle, Contents>, created: set<Value>, gone: seq<Value>,
             dropped: seq<Value>, handedOut: seq<Value>, h: Handle, e: MessageEnvelope, c: Contents)
    requires Sound(types, before, live, contents, created, gone, dropped, handedOut) && h !in live
    requires Kept(before, boxes) && Holds(boxes, e, c)
    requires EnvelopeBoxes(e) !! before.Keys && boxes.Keys == before.Keys + EnvelopeBoxes(e)
    requires c.ty.address in types && types[c.ty.address] == c.ty
    requires ValuesOf(c) !! created && (c.sender.Some? ==> c.sender.value != c.message)
    ensures Sound(types, boxes, live[h := e], contents[h := c], created + ValuesOf(c), gone, dropped, handedOut)
  {
    hide Holds, BoxesOk, Accounted, Unshared, EnvelopeBoxes, Kept, ValuesOf;
    LiveKeys(before, live, contents);
    BoxesAdd(before, boxes, live, contents, h, e, c);
    AccountAdd(contents, created, gone, h, c);
  }

  /** An envelope that leaves takes exactly its boxes and values with it. */
  lemma Leave(types: map<Word, MessageType>, before: map<Address, Stored>, boxes: map<Address, Stored>,
              live: map<Handle, MessageEnvelope>, contents: map<Handle, Contents>, created: set<Value>,
              gone: seq<Value>,
              dropped: seq<Value>, handedOut: seq<Value>, h: Handle)
    requires Sound(types, before, live, contents, created, gone, dropped, handedOut)
    requires h in live && h in contents && boxes == before - EnvelopeBoxes(live[h])
    ensures var values := OpenOrder(contents[h]);
      Sound(types, boxes, live - {h}, contents - {h}, created, gone + values, dropped, handedOut + values)
    ensures var order := DropOrder(contents[h]);
      Sound(types, boxes, live - {h}, contents - {h}, created, gone + order, dropped + order, handedOut)
  {
    hide BoxesOk, Accounted, Unshared, EnvelopeBoxes, OpenOrder, DropOrder;
    BoxesRemove(before, boxes, live, contents, h);
    SenderIsOther(contents, h);
    ValuesLeave(contents[h]);
    AccountRemove(contents, created, gone, h, DropOrder(contents[h]));
    AccountRemove(contents, created, gone, h, OpenOrder(contents[h]));
    CountsGrow(gone, dropped, handedOut, DropOrder(contents[h]));
    CountsGrow(gone, dropped, handedOut, OpenOrder(contents[h]));
  }

  // ---------------------------------------------------------------- whole runs

  /** A program using envelopes: those alive, and the values handed out by unwrapping.
      `contents`, `created` and `gone` are histories. */
  class Program {
    const memory: Memory
    var live: map<Handle, MessageEnvelope>
    var contents: map<Handle, Contents>
    var created: set<Value>
    var gone: seq<Value>
    var handedOut: seq<Value>

    ghost predicate Valid()
      reads this, memory
    {
      memory.Valid() && Sound(memory.types, memory.boxes, live, contents, created, gone, memory.dropped, handedOut)
    }

    constructor (memory: Memory)
      requires memory.Valid() && memory.boxes == map[] && memory.dropped == []
      ensures Valid() && this.memory == memory && live == map[] && handedOut == []
    {
      this.memory := memory;
      live, contents, created, gone, handedOut := map[], map[], {}, [], [];
      new;
      assert forall p :: !IsOwned(live, p);
      assert forall v :: !IsHeld(contents, v);
    }

    method DoCreate(h: Handle, ty: Word, message: Value, sender: Option<Value>)
      requires Valid() && h !in live && ty in memory.types && message !in created
      requires sender.Some? ==> sender.value !in created && sender.value != message
      modifies this, memory
      ensures Valid() && contents == old(contents)[h := Contents(memory.types[ty], message, sender)]
      ensures memory.dropped == old(memory.dropped) && handedOut == old(handedOut)
    {
      hide Holds, Sound, EnvelopeBoxes, Kept;
      var c := Contents(memory.types[ty], message, sender);
      var e := New(memory, memory.types[ty], message, sender);
      Join(memory.types, old(memory.boxes), memory.boxes, live, contents, created, gone, memory.dropped, handedOut, h,
          e, c);
      live, contents, created := live[h := e], contents[h := c], created + ValuesOf(c);
    }

    method DoClone(h: Handle, k: Handle, identity: nat)
      requires Valid() && h in live && h in contents && k !in live
      requires Value(identity, contents[h].message.content) !in created
      modifies this, memory
      ensures Valid() && memory.dropped == old(memory.dropped) && handedOut == old(handedOut)
      ensures var c := old(contents)[h];
        contents == if !c.ty.clonable then old(contents)
                    else old(contents)[k := Contents(c.ty, Value(identity, c.message.content), None)]
    {
      hide Holds, Sound, EnvelopeBoxes, Kept;
      SoundAt(memory.types, memory.boxes, live, contents, created, gone, memory.dropped, handedOut);
      var c := Contents(contents[h].ty, Value(identity, contents[h].message.content), None);
      var clone := TryCloneAsTell(memory, live[h], identity, contents[h]);
      if clone.Some? {
        Join(memory.types, old(memory.boxes), memory.boxes, live, contents, created, gone, memory.dropped, handedOut,
            k, clone.value, c);
        live, contents, created := live[k := clone.value], contents[k := c], created + ValuesOf(c);
      }
    }

    method DoOpen(h: Handle, ty: Word)
      requires Valid() && h in live && h in contents && ty in memory.types
      modifies this, memory
      ensures Valid() && memory.dropped == old(memory.dropped)
      ensures var c := old(contents)[h];
        if ty != c.ty.address then contents == old(contents) && live == old(live) && handedOut == old(handedOut)
        else contents == old(contents) - {h} && handedOut == old(handedOut) + OpenOrder(c)
    {
      hide Holds, Sound, EnvelopeBoxes, FreesOnce;
      SoundAt(memory.types, memory.boxes, live, contents, created, gone, memory.dropped, handedOut);
      var result := Unwrap(memory, live[h], memory.types[ty], contents[h]);
      if result.Opened? {
        Leave(memory.types, old(memory.boxes), memory.boxes, live, contents, created, gone, memory.dropped, handedOut,
            h);
        var values := [result.message] + if result.sender.Some? then [result.sender.value] else [];
        live, contents, gone, handedOut := live - {h}, contents - {h}, gone + values, handedOut + values;
      }
    }

    method DoDiscard(h: Handle)
      requires Valid() && h in live && h in contents
      modifies this, memory
      ensures Valid() && contents == old(contents) - {h} && handedOut == old(handedOut)
      ensures memory.dropped == old(memory.dropped) + DropOrder(old(contents)[h])
    {
      hide Holds, Sound, EnvelopeBoxes, FreesOnce;
      SoundAt(memory.types, memory.boxes, live, contents, created, gone, memory.dropped, handedOut);
      Drop(memory, live[h], contents[h]);
      Leave(memory.types, old(memory.boxes), memory.boxes, live, contents, created, gone, old(memory.dropped),
          handedOut, h);
      live, contents, gone := live - {h}, contents - {h}, gone + DropOrder(contents[h]);
    }

    /** What ownership lets a program do: it names only envelopes it has, and only
        values that do not exist yet are created. */
    predicate Allowed(op: Op)
      reads this
    {
      match op
      case Create(h, ty, message, sender) =>
        && h !in live && ty in memory.types && message !in created
        && (sender.Some? ==> sender.value !in created && sender.value != message)
      case CloneAsTell(h, k, identity) =>
        h in live && h in contents && k !in live && Value(identity, contents[h].message.content) !in created
      case Open(h, ty) => h in live && h in contents && ty in memory.types
      case Discard(h) => h in live && h in contents
    }

    method Step(op: Op)
      requires Valid() && Allowed(op)
      modifies this, memory
      ensures Valid()
    {
      hide Valid;
      match op
      case Create(h, ty, message, sender) => DoCreate(h, ty, message, sender);
      case CloneAsTell(h, k, identity) => DoClone(h, k, identity);
      case Open(h, ty) => DoOpen(h, ty);
      case Discard(h) => DoDiscard(h);
    }

    /** After any sequence of operations: each value created is held by a live envelope or
        was dropped or handed out, exactly once in all; no box is freed twice or leaked;
        and a program without live envelopes has no box left. */
    method Run(ops: seq<Op>)
      requires Valid()
      modifies this, memory
      ensures Valid()
      ensures forall v ::
        var times := multiset(memory.dropped)[v] + multiset(handedOut)[v];
        times == if v in created && !IsHeld(contents, v) then 1 else 0
      ensures Distinct(memory.freed) && forall p :: p in memory.freed ==> p !in memory.boxes
      ensures forall p :: p in memory.boxes <==> IsOwned(live, p)
      ensures live == map[] ==> memory.boxes == map[] && forall v :: !IsHeld(contents, v)
    {
      for i := 0 to |ops|
        invariant Valid()
      {
        hide Valid;
        if Allowed(ops[i]) {
          Step(ops[i]);
        }
      }
      hide Holds, Unshared;
      assert forall v :: multiset(gone)[v] == multiset(memory.dropped)[v] + multiset(handedOut)[v];
      if live == map[] {
        assert forall p :: !IsOwned(live, p);
        assert memory.boxes.Keys == {};
        assert contents.Keys == {};
      }
    }
  }
}
