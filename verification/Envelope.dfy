/** The one-cache-line message envelope: a tagged header and data areas that hold
    values inline or as pointers to boxes, with every value and box accounted for. */
module Envelope {

  import opened Options

  type Address = nat
  type Word = bv64

  /** A Rust value: its identity and what it contains. A clone has its own identity. */
  datatype Value = Value(identity: nat, content: nat)

  /** The RTTI of a message type; its address is its identity. */
  datatype MessageType = MessageType(
    address: Word,
    messageSize: nat,
    senderSize: nat,
    clonable: bool,
    isSend: bool,
    isSenderSend: bool)

  /** The type a value is stored as, and must be read and dropped as. */
  datatype Kind = MessageOf(ty: Word) | SenderOf(ty: Word)

  datatype Stored = Stored(kind: Kind, value: Value)

  // ------------------------------------------------------------------ the header

  predicate Aligned(address: Word) {
    address & 7 == 0
  }

  /** `PackedEnvelopeHeader::new`. */
  function PackHeader(address: Word, withAnswer: bool): Word {
    if withAnswer then address + 1 else address
  }

  function HeaderAddress(header: Word): Word {
    header & !1
  }

  function ExpectsAnswer(header: Word): bool {
    header & 1 != 0
  }

  /** The header gives back the RTTI pointer and the mode of every 8-aligned pointer. */
  lemma HeaderBack(address: Word, withAnswer: bool)
    requires Aligned(address)
    ensures HeaderAddress(PackHeader(address, withAnswer)) == address
    ensures ExpectsAnswer(PackHeader(address, withAnswer)) == withAnswer
  {
  }

  // ------------------------------------------------------------------ data areas

  /** Payload bytes of a 64-byte cache line behind an 8-byte header. */
  const TELL_BYTES: nat := 56
  const ASK_BYTES: nat := 48
  const SENDER_BYTES: nat := 8

  datatype Area = Inline(stored: Stored) | Boxed(address: Address)

  /** The payload union; reading the wrong member is undefined behaviour. */
  datatype Payload = Tell(data: Area) | Ask(data: Area, sender: Area)

  datatype MessageEnvelope = MessageEnvelope(header: Word, payload: Payload)

  /** What an envelope abstractly is. */
  datatype Contents = Contents(ty: MessageType, message: Value, sender: Option<Value>)

  function Boxes(a: Area): set<Address> {
    if a.Boxed? then {a.address} else {}
  }

  function EnvelopeBoxes(e: MessageEnvelope): set<Address> {
    match e.payload
    case Tell(data) => Boxes(data)
    case Ask(data, sender) => Boxes(data) + Boxes(sender)
  }

  predicate AreaHolds(boxes: map<Address, Stored>, a: Area, size: nat, bytes: nat, stored: Stored) {
    if size <= bytes then a == Inline(stored)
    else a.Boxed? && a.address in boxes && boxes[a.address] == stored
  }

  /** The envelope represents exactly these contents. */
  predicate Holds(boxes: map<Address, Stored>, e: MessageEnvelope, c: Contents) {
    && e.header == PackHeader(c.ty.address, c.sender.Some?)
    && match c.sender {
         case None =>
           e.payload.Tell? && AreaHolds(boxes, e.payload.data, c.ty.messageSize, TELL_BYTES, MessageStored(c))
         case Some(s) =>
           && e.payload.Ask?
           && AreaHolds(boxes, e.payload.data, c.ty.messageSize, ASK_BYTES, MessageStored(c))
           && AreaHolds(boxes, e.payload.sender, c.ty.senderSize, SENDER_BYTES, Stored(SenderOf(c.ty.address), s))
           && Boxes(e.payload.data) !! Boxes(e.payload.sender)
       }
  }

  function MessageStored(c: Contents): Stored {
    Stored(MessageOf(c.ty.address), c.message)
  }

  /** `is_sendable`. */
  function IsSendable(ty: MessageType, header: Word): bool {
    ty.isSend && (ExpectsAnswer(header) ==> ty.isSenderSend)
  }

  /** An envelope may cross threads exactly when every value in it may. */
  lemma SendableMeansParts(boxes: map<Address, Stored>, e: MessageEnvelope, c: Contents)
    requires Holds(boxes, e, c) && Aligned(c.ty.address)
    ensures IsSendable(c.ty, e.header) <==> c.ty.isSend && (c.sender.Some? ==> c.ty.isSenderSend)
  {
    HeaderBack(c.ty.address, c.sender.Some?);
  }

  // -------------------------------------------------------------------- the heap

  predicate Distinct<T(==)>(s: seq<T>) {
    forall i, j :: 0 <= i < j < |s| ==> s[i] != s[j]
  }

  /** The allocator and the record of what was freed and dropped, in order. */
  class Memory {
    const types: map<Word, MessageType>
    var boxes: map<Address, Stored>
    var nextAddress: Address
    var freed: seq<Address>
    var dropped: seq<Value>

    ghost predicate Valid()
      reads this
    {
      && (forall a :: a in types ==> types[a].address == a && Aligned(a))
      && (forall p :: p in boxes ==> p < nextAddress)
      && (forall p: Address :: p < nextAddress ==> p in boxes || p in freed)
      && (forall i :: 0 <= i < |freed| ==> freed[i] < nextAddress && freed[i] !in boxes)
      && Distinct(freed)
    }

    constructor (types: map<Word, MessageType>)
      requires forall a :: a in types ==> types[a].address == a && Aligned(a)
      ensures Valid() && this.types == types && boxes == map[] && freed == [] && dropped == []
    {
      this.types := types;
      boxes, nextAddress, freed, dropped := map[], 0, [], [];
    }

    /** `Box::into_raw(Box::new(value))`. */
    method NewBox(stored: Stored) returns (p: Address)
      requires Valid()
      modifies this
      ensures Valid() && freed == old(freed) && dropped == old(dropped)
      ensures p !in old(boxes) && boxes == old(boxes)[p := stored]
    {
      p := nextAddress;
      boxes, nextAddress := boxes[p := stored], nextAddress + 1;
    }

    /** `*Box::from_raw(p)`: the value moves out and the box is freed. */
    method TakeBox(p: Address, kind: Kind) returns (value: Value)
      requires Valid() && p in boxes && boxes[p].kind == kind
      modifies this
      ensures Valid() && dropped == old(dropped) && value == old(boxes)[p].value
      ensures boxes == old(boxes) - {p} && freed == old(freed) + [p]
    {
      value := boxes[p].value;
      boxes, freed := boxes - {p}, freed + [p];
    }

    /** `pack_or_box_into`. */
    method Pack(stored: Stored, size: nat, bytes: nat) returns (a: Area)
      requires Valid()
      modifies this
      ensures Valid() && freed == old(freed) && dropped == old(dropped)
      ensures AreaHolds(boxes, a, size, bytes, stored)
      ensures Boxes(a) !! old(boxes).Keys && boxes.Keys == old(boxes).Keys + Boxes(a)
      ensures forall p :: p in old(boxes) ==> boxes[p] == old(boxes)[p]
    {
      if size <= bytes {
        return Inline(stored);
      }
      var p := NewBox(stored);
      return Boxed(p);
    }

    /** `unpack_or_unbox`. */
    method Unpack(a: Area, size: nat, bytes: nat, kind: Kind, ghost stored: Stored) returns (value: Value)
      requires Valid() && AreaHolds(boxes, a, size, bytes, stored) && stored.kind == kind
      modifies this
      ensures Valid() && dropped == old(dropped) && value == stored.value
      ensures boxes == old(boxes) - Boxes(a)
      ensures freed == old(freed) + BoxOrder(a)
    {
      if size <= bytes {
        return a.stored.value;
      }
      value := TakeBox(a.address, kind);
    }

    /** `drop_data_area`: in place, or through the boxed pointer. */
    method DropArea(a: Area, size: nat, bytes: nat, kind: Kind, ghost stored: Stored)
      requires Valid() && AreaHolds(boxes, a, size, bytes, stored) && stored.kind == kind
      modifies this
      ensures Valid() && dropped == old(dropped) + [stored.value]
      ensures boxes == old(boxes) - Boxes(a)
      ensures freed == old(freed) + BoxOrder(a)
    {
      if size <= bytes {
        dropped := dropped + [a.stored.value];
      } else {
        var value := TakeBox(a.address, kind);
        dropped := dropped + [value];
      }
    }
  }

  function BoxOrder(a: Area): seq<Address> {
    if a.Boxed? then [a.address] else []
  }

  // ------------------------------------------------------------------ operations

  predicate Kept(before: map<Address, Stored>, boxes: map<Address, Stored>) {
    forall p :: p in before ==> p in boxes && boxes[p] == before[p]
  }

  /** `new`. */
  method New(m: Memory, ty: MessageType, message: Value, sender: Option<Value>) returns (e: MessageEnvelope)
    requires m.Valid()
    modifies m
    ensures m.Valid() && m.freed == old(m.freed) && m.dropped == old(m.dropped)
    ensures Holds(m.boxes, e, Contents(ty, message, sender))
    ensures EnvelopeBoxes(e) !! old(m.boxes).Keys && m.boxes.Keys == old(m.boxes).Keys + EnvelopeBoxes(e)
    ensures Kept(old(m.boxes), m.boxes)
  {
    var header := PackHeader(ty.address, sender.Some?);
    match sender
    case None =>
      var data := m.Pack(Stored(MessageOf(ty.address), message), ty.messageSize, TELL_BYTES);
      e := MessageEnvelope(header, Tell(data));
    case Some(s) =>
      var answer := m.Pack(Stored(SenderOf(ty.address), s), ty.senderSize, SENDER_BYTES);
      var data := m.Pack(Stored(MessageOf(ty.address), message), ty.messageSize, ASK_BYTES);
      e := MessageEnvelope(header, Ask(data, answer));
  }

  datatype Unwrapped = Opened(message: Value, sender: Option<Value>) | Mismatch(envelope: MessageEnvelope)

  /** The type `T` is known to the caller; the envelope's own is found through its header. */
  ghost predicate Typed(m: Memory, c: Contents)
    reads m
  {
    c.ty.address in m.types && m.types[c.ty.address] == c.ty
  }

  /** `unwrap`: the values come back as they went in, or the envelope itself does. */
  method Unwrap(m: Memory, e: MessageEnvelope, ty: MessageType, ghost c: Contents) returns (result: Unwrapped)
    requires m.Valid() && Holds(m.boxes, e, c) && Typed(m, c)
    requires ty.address in m.types && m.types[ty.address] == ty
    modifies m
    ensures m.Valid() && m.dropped == old(m.dropped)
    ensures ty == c.ty ==> result == Opened(c.message, c.sender)
    ensures ty == c.ty ==> m.boxes == old(m.boxes) - EnvelopeBoxes(e)
    ensures ty == c.ty ==> FreesOnce(old(m.freed), m.freed, EnvelopeBoxes(e))
    ensures ty != c.ty ==> result == Mismatch(e) && m.boxes == old(m.boxes) && m.freed == old(m.freed)
  {
    HeaderBack(c.ty.address, c.sender.Some?);
    if ty.address != HeaderAddress(e.header) {
      return Mismatch(e);
    }
    if !ExpectsAnswer(e.header) {
      var message := m.Unpack(e.payload.data, ty.messageSize, TELL_BYTES, MessageOf(ty.address), MessageStored(c));
      assert IsOrderOf(BoxOrder(e.payload.data), EnvelopeBoxes(e));
      result := Opened(message, None);
    } else {
      var message := m.Unpack(e.payload.data, ty.messageSize, ASK_BYTES, MessageOf(ty.address), MessageStored(c));
      var sender :=
        m.Unpack(e.payload.sender, ty.senderSize, SENDER_BYTES, SenderOf(ty.address),
            Stored(SenderOf(ty.address), c.sender.value));
      OrderOfTwo(e.payload.data, e.payload.sender);
      assert m.freed == old(m.freed) + (BoxOrder(e.payload.data) + BoxOrder(e.payload.sender));
      result := Opened(message, Some(sender));
    }
  }

  /** Each address of the set once. */
  ghost predicate IsOrderOf(order: seq<Address>, s: set<Address>) {
    Distinct(order) && forall p :: p in order <==> p in s
  }

  ghost predicate FreesOnce(was: seq<Address>, now: seq<Address>, s: set<Address>) {
    exists order :: now == was + order && IsOrderOf(order, s)
  }

  lemma OrderOfTwo(a: Area, b: Area)
    requires Boxes(a) !! Boxes(b)
    ensures IsOrderOf(BoxOrder(a) + BoxOrder(b), Boxes(a) + Boxes(b))
  {
  }

  /** The values of the contents in the order in which a drop drops them. */
  function DropOrder(c: Contents): seq<Value> {
    (if c.sender.Some? then [c.sender.value] else []) + [c.message]
  }

  /** `drop`. */
  method Drop(m: Memory, e: MessageEnvelope, ghost c: Contents)
    requires m.Valid() && Holds(m.boxes, e, c) && Typed(m, c)
    modifies m
    ensures m.Valid() && m.dropped == old(m.dropped) + DropOrder(c)
    ensures m.boxes == old(m.boxes) - EnvelopeBoxes(e)
    ensures FreesOnce(old(m.freed), m.freed, EnvelopeBoxes(e))
  {
    HeaderBack(c.ty.address, c.sender.Some?);
    var ty := m.types[HeaderAddress(e.header)];
    if !ExpectsAnswer(e.header) {
      m.DropArea(e.payload.data, ty.messageSize, TELL_BYTES, MessageOf(ty.address), MessageStored(c));
      assert IsOrderOf(BoxOrder(e.payload.data), EnvelopeBoxes(e));
    } else {
      m.DropArea(e.payload.sender, ty.senderSize, SENDER_BYTES, SenderOf(ty.address),
          Stored(SenderOf(ty.address), c.sender.value));
      m.DropArea(e.payload.data, ty.messageSize, ASK_BYTES, MessageOf(ty.address), MessageStored(c));
      OrderOfTwo(e.payload.sender, e.payload.data);
      assert m.freed == old(m.freed) + (BoxOrder(e.payload.sender) + BoxOrder(e.payload.data));
    }
  }

  /** `payload_ptr`, read: the carried message, wherever it is. */
  method ReadPayload(m: Memory, e: MessageEnvelope, ghost c: Contents) returns (stored: Stored)
    requires m.Valid() && Holds(m.boxes, e, c) && Typed(m, c)
    ensures stored == MessageStored(c)
  {
    HeaderBack(c.ty.address, c.sender.Some?);
    var size := m.types[HeaderAddress(e.header)].messageSize;
    var bytes := if ExpectsAnswer(e.header) then ASK_BYTES else TELL_BYTES;
    stored := if size > bytes then m.boxes[e.payload.data.address] else e.payload.data.stored;
  }

  /** `try_clone_as_tell`: a tell envelope with a clone of the message, placed anew - a
      message boxed in the ask area may be inline in the tell area. */
  method TryCloneAsTell(m: Memory, e: MessageEnvelope, identity: nat, ghost c: Contents)
    returns (clone: Option<MessageEnvelope>)
    requires m.Valid() && Holds(m.boxes, e, c) && Typed(m, c)
    modifies m
    ensures m.Valid() && m.freed == old(m.freed) && m.dropped == old(m.dropped)
    ensures clone.Some? <==> c.ty.clonable
    ensures clone.None? ==> m.boxes == old(m.boxes)
    ensures clone.Some? ==>
      && Holds(m.boxes, clone.value, Contents(c.ty, Value(identity, c.message.content), None))
      && EnvelopeBoxes(clone.value) !! old(m.boxes).Keys
      && m.boxes.Keys == old(m.boxes).Keys + EnvelopeBoxes(clone.value)
    ensures Kept(old(m.boxes), m.boxes)
  {
    HeaderBack(c.ty.address, c.sender.Some?);
    var ty := m.types[HeaderAddress(e.header)];
    if !ty.clonable {
      return None;
    }
    var stored := ReadPayload(m, e, c);
    var copy := Stored(stored.kind, Value(identity, stored.value.content));
    if TELL_BYTES < ty.messageSize {
      var p := m.NewBox(copy);
      clone := Some(MessageEnvelope(PackHeader(ty.address, false), Tell(Boxed(p))));
    } else {
      clone := Some(MessageEnvelope(PackHeader(ty.address, false), Tell(Inline(copy))));
    }
  }

  /** `try_clone`: an ask envelope is never cloned. */
  method TryClone(m: Memory, e: MessageEnvelope, identity: nat, ghost c: Contents)
    returns (clone: Option<MessageEnvelope>)
    requires m.Valid() && Holds(m.boxes, e, c) && Typed(m, c)
    modifies m
    ensures m.Valid() && m.freed == old(m.freed) && m.dropped == old(m.dropped)
    ensures clone.Some? <==> c.ty.clonable && c.sender.None?
    ensures clone.None? ==> m.boxes == old(m.boxes)
    ensures clone.Some? ==>
      && Holds(m.boxes, clone.value, Contents(c.ty, Value(identity, c.message.content), None))
      && EnvelopeBoxes(clone.value) !! old(m.boxes).Keys
      && m.boxes.Keys == old(m.boxes).Keys + EnvelopeBoxes(clone.value)
    ensures Kept(old(m.boxes), m.boxes)
  {
    HeaderBack(c.ty.address, c.sender.Some?);
    if ExpectsAnswer(e.header) {
      return None;
    }
    clone := TryCloneAsTell(m, e, identity, c);
  }

  /** The sizes at which a message is boxed in an ask envelope but inline in a tell one. */
  lemma BoxedForAskOnly(boxes: map<Address, Stored>, ask: MessageEnvelope, tell: MessageEnvelope, a: Contents,
      t: Contents)
    requires Holds(boxes, ask, a) && a.sender.Some? && Holds(boxes, tell, t) && t.sender.None? && a.ty == t.ty
    ensures ask.payload.data.Boxed? && tell.payload.data.Inline? <==> ASK_BYTES < a.ty.messageSize <= TELL_BYTES
  {
  }
}
