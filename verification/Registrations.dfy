/** Collected handler registrations and the deterministic order in which the
    dispatch registry processes them. */
module Registrations {

  import opened Options

  /** RTTI identities are addresses; a dispatcher is a function pointer. */
  type Identity = nat
  type Dispatcher = nat

  datatype Registration = Registration(actor: Identity, message: Identity, dispatcher: Dispatcher)

  // ------------------------------------------------- sorting and deduplication

  /** Sort keys compare lexicographically. */
  datatype Key = Key(major: nat, minor: nat)

  predicate Precedes(a: Key, b: Key) {
    a.major < b.major || (a.major == b.major && a.minor < b.minor)
  }

  function RegistrationKey(r: Registration): Key {
    Key(r.actor, r.message)
  }

  /** Insert after every element whose key is not greater: a stable sort. */
  function Insert<T>(s: seq<T>, x: T, key: T -> Key): seq<T> {
    if s == [] || !Precedes(key(x), key(s[|s| - 1])) then s + [x]
    else Insert(s[..|s| - 1], x, key) + [s[|s| - 1]]
  }

  /** `sort_by_key`. */
  function SortByKey<T>(s: seq<T>, key: T -> Key): seq<T> {
    if s == [] then [] else Insert(SortByKey(s[..|s| - 1], key), s[|s| - 1], key)
  }

  /** `dedup_by_key`: of neighbours with equal keys the first is kept. */
  function DedupByKey<T>(s: seq<T>, key: T -> Key): seq<T> {
    if |s| <= 1 then s
    else
      var kept := DedupByKey(s[..|s| - 1], key);
      if kept != [] && key(kept[|kept| - 1]) == key(s[|s| - 1]) then kept else kept + [s[|s| - 1]]
  }

  ghost predicate Ordered<T>(s: seq<T>, key: T -> Key) {
    forall i, j :: 0 <= i < j < |s| ==> !Precedes(key(s[j]), key(s[i]))
  }

  ghost predicate StrictlyOrdered<T>(s: seq<T>, key: T -> Key) {
    forall i, j :: 0 <= i < j < |s| ==> Precedes(key(s[i]), key(s[j]))
  }

  lemma OrderedSnoc<T>(s: seq<T>, x: T, key: T -> Key)
    requires Ordered(s, key) && (s == [] || !Precedes(key(x), key(s[|s| - 1])))
    ensures Ordered(s + [x], key)
  {
    forall i | 0 <= i < |s| ensures !Precedes(key(x), key(s[i])) {
      assert i == |s| - 1 || !Precedes(key(s[|s| - 1]), key(s[i]));
    }
  }

  lemma StrictSnoc<T>(s: seq<T>, x: T, key: T -> Key)
    requires StrictlyOrdered(s, key) && (s == [] || Precedes(key(s[|s| - 1]), key(x)))
    ensures StrictlyOrdered(s + [x], key)
  {
    forall i | 0 <= i < |s| ensures Precedes(key(s[i]), key(x)) {
      assert i == |s| - 1 || Precedes(key(s[i]), key(s[|s| - 1]));
    }
  }

  lemma {:induction false} InsertKeepsElements<T>(s: seq<T>, x: T, key: T -> Key)
    ensures multiset(Insert(s, x, key)) == multiset(s) + multiset{x}
  {
    hide Precedes;
    if s != [] {
      InsertKeepsElements(s[..|s| - 1], x, key);
      assert s == s[..|s| - 1] + [s[|s| - 1]];
    }
  }

  lemma {:induction false} InsertKeepsOrder<T>(s: seq<T>, x: T, key: T -> Key)
    requires Ordered(s, key)
    ensures Ordered(Insert(s, x, key), key)
    ensures var t := Insert(s, x, key); t != [] && (t[|t| - 1] == x || t[|t| - 1] in s)
  {
    hide Ordered, Precedes;
    if s != [] && Precedes(key(x), key(s[|s| - 1])) {
      var front, last := s[..|s| - 1], s[|s| - 1];
      OrderedFront(s, key);
      InsertKeepsOrder(front, x, key);
      var t := Insert(front, x, key);
      NotBefore(s, x, t[|t| - 1], key);
      OrderedSnoc(t, last, key);
    } else {
      OrderedSnoc(s, x, key);
    }
  }

  lemma OrderedFront<T>(s: seq<T>, key: T -> Key)
    requires Ordered(s, key) && s != []
    ensures Ordered(s[..|s| - 1], key)
  {
  }

  lemma NotBefore<T>(s: seq<T>, x: T, y: T, key: T -> Key)
    requires Ordered(s, key) && s != [] && Precedes(key(x), key(s[|s| - 1])) && (y == x || y in s[..|s| - 1])
    ensures !Precedes(key(s[|s| - 1]), key(y))
  {
  }

  lemma {:induction false} SortByKeySorts<T>(s: seq<T>, key: T -> Key)
    ensures Ordered(SortByKey(s, key), key)
    ensures multiset(SortByKey(s, key)) == multiset(s)
  {
    hide Insert, Precedes;
    if s != [] {
      var front := s[..|s| - 1];
      SortByKeySorts(front, key);
      InsertKeepsOrder(SortByKey(front, key), s[|s| - 1], key);
      InsertKeepsElements(SortByKey(front, key), s[|s| - 1], key);
      assert s == front + [s[|s| - 1]];
    }
  }

  /** The elements with a given key, in order. */
  function WithKey<T>(s: seq<T>, key: T -> Key, k: Key): seq<T> {
    if s == [] then []
    else
      var front := WithKey(s[..|s| - 1], key, k);
      if key(s[|s| - 1]) == k then front + [s[|s| - 1]] else front
  }

  lemma WithKeySnoc<T>(s: seq<T>, x: T, key: T -> Key, k: Key)
    ensures WithKey(s + [x], key, k) == if key(x) == k then WithKey(s, key, k) + [x] else WithKey(s, key, k)
  {
    assert (s + [x])[..|s|] == s;
  }

  lemma {:induction false} InsertIsStable<T>(s: seq<T>, x: T, key: T -> Key, k: Key)
    ensures WithKey(Insert(s, x, key), key, k) == WithKey(s + [x], key, k)
  {
    hide WithKey;
    if s != [] && Precedes(key(x), key(s[|s| - 1])) {
      var front, last := s[..|s| - 1], s[|s| - 1];
      InsertIsStable(front, x, key, k);
      assert s == front + [last];
      WithKeySnoc(Insert(front, x, key), last, key, k);
      WithKeySnoc(front, x, key, k);
      WithKeySnoc(front, last, key, k);
      WithKeySnoc(s, x, key, k);
    }
  }

  /** The sort is stable: elements with equal keys keep their order. */
  lemma {:induction false} SortIsStable<T>(s: seq<T>, key: T -> Key, k: Key)
    ensures WithKey(SortByKey(s, key), key, k) == WithKey(s, key, k)
  {
    hide Insert;
    if s != [] {
      var front, last := s[..|s| - 1], s[|s| - 1];
      SortIsStable(front, key, k);
      InsertIsStable(SortByKey(front, key), last, key, k);
      WithKeySnoc(SortByKey(front, key), last, key, k);
      WithKeySnoc(front, last, key, k);
      assert s == front + [last];
    }
  }

  lemma {:induction false} WithKeyMember<T>(s: seq<T>, x: T, key: T -> Key)
    ensures x in s ==> WithKey(s, key, key(x)) != []
  {
    if s != [] {
      WithKeyMember(s[..|s| - 1], x, key);
      assert s == s[..|s| - 1] + [s[|s| - 1]];
    }
  }

  lemma {:induction false} NoneWithKey<T>(s: seq<T>, key: T -> Key, k: Key)
    requires forall i :: 0 <= i < |s| ==> key(s[i]) != k
    ensures WithKey(s, key, k) == []
  {
    if s != [] {
      NoneWithKey(s[..|s| - 1], key, k);
    }
  }

  lemma SortKeepsMembers<T>(s: seq<T>, x: T, key: T -> Key)
    ensures x in SortByKey(s, key) <==> x in s
  {
    hide SortByKey;
    SortByKeySorts(s, key);
    assert x in s <==> x in multiset(s);
    assert x in SortByKey(s, key) <==> x in multiset(SortByKey(s, key));
  }

  ghost predicate HasKey<T>(s: seq<T>, k: Key, key: T -> Key) {
    exists i :: 0 <= i < |s| && key(s[i]) == k
  }

  lemma HasKeySnoc<T>(s: seq<T>, x: T, k: Key, key: T -> Key)
    ensures HasKey(s + [x], k, key) <==> HasKey(s, k, key) || key(x) == k
  {
    var t := s + [x];
    assert t[|s|] == x;
    assert forall i :: 0 <= i < |s| ==> t[i] == s[i];
  }

  /** Of an ordered sequence exactly one element per key is kept. */
  lemma {:induction false} DedupOrders<T>(s: seq<T>, key: T -> Key)
    requires Ordered(s, key)
    ensures StrictlyOrdered(DedupByKey(s, key), key)
    ensures s != [] ==>
      DedupByKey(s, key) != [] && key(DedupByKey(s, key)[|DedupByKey(s, key)| - 1]) == key(s[|s| - 1])
  {
    hide StrictlyOrdered;
    if |s| <= 1 {
      OneElement(s, key);
    } else {
      var front, last := s[..|s| - 1], s[|s| - 1];
      OrderedFront(s, key);
      DedupOrders(front, key);
      var kept := DedupByKey(front, key);
      assert !Precedes(key(last), key(front[|front| - 1]));
      if key(kept[|kept| - 1]) != key(last) {
        StrictSnoc(kept, last, key);
      }
    }
  }

  lemma OneElement<T>(s: seq<T>, key: T -> Key)
    requires |s| <= 1
    ensures StrictlyOrdered(s, key)
  {
  }

  lemma {:induction false} DedupKeepsKeys<T>(s: seq<T>, x: T, key: T -> Key)
    ensures x in DedupByKey(s, key) ==> x in s
    ensures x in s ==> HasKey(DedupByKey(s, key), key(x), key)
  {
    hide HasKey;
    if |s| <= 1 {
      AnyMember(s, x, key);
    } else {
      var front, last := s[..|s| - 1], s[|s| - 1];
      DedupKeepsKeys(front, x, key);
      assert s == front + [last];
      var kept := DedupByKey(front, key);
      HasKeySnoc(kept, last, key(x), key);
      if kept != [] {
        AnyMember(kept, kept[|kept| - 1], key);
      }
    }
  }

  /** Of each key, the first element is the one kept. */
  lemma {:induction false} DedupKeepsFirst<T>(s: seq<T>, x: T, key: T -> Key)
    requires Ordered(s, key)
    ensures x in DedupByKey(s, key) <==> WithKey(s, key, key(x)) != [] && WithKey(s, key, key(x))[0] == x
  {
    hide WithKey;
    if |s| <= 1 {
      FewWithKey(s, x, key);
    } else {
      var front, last := s[..|s| - 1], s[|s| - 1];
      OrderedFront(s, key);
      DedupKeepsFirst(front, x, key);
      DedupOrders(front, key);
      assert s == front + [last];
      WithKeySnoc(front, last, key, key(x));
      if key(DedupByKey(front, key)[|DedupByKey(front, key)| - 1]) != key(last) {
        NewestKey(s, key);
      } else {
        WithKeyMember(front, front[|front| - 1], key);
      }
    }
  }

  lemma FewWithKey<T>(s: seq<T>, x: T, key: T -> Key)
    requires |s| <= 1
    ensures x in s <==> WithKey(s, key, key(x)) != [] && WithKey(s, key, key(x))[0] == x
  {
    if |s| == 1 {
      assert s == [] + [s[0]];
      WithKeySnoc([], s[0], key, key(x));
    }
  }

  lemma NewestKey<T>(s: seq<T>, key: T -> Key)
    requires Ordered(s, key) && |s| > 1 && key(s[|s| - 2]) != key(s[|s| - 1])
    ensures WithKey(s[..|s| - 1], key, key(s[|s| - 1])) == []
  {
    var last := |s| - 1;
    forall i | 0 <= i < last ensures key(s[i]) != key(s[last]) {
      assert !Precedes(key(s[last]), key(s[last - 1]));
      assert i == last - 1 || !Precedes(key(s[last - 1]), key(s[i]));
    }
    NoneWithKey(s[..last], key, key(s[last]));
  }

  lemma AnyMember<T>(s: seq<T>, x: T, key: T -> Key)
    ensures x in s ==> HasKey(s, key(x), key)
  {
  }

  /** The processing order of the build. */
  function Canonical(regs: seq<Registration>): seq<Registration> {
    DedupByKey(SortByKey(regs, RegistrationKey), RegistrationKey)
  }

  /** Registrations of the same pair carry the same dispatcher. */
  ghost predicate DuplicatesAgree(regs: seq<Registration>) {
    forall a, b :: a in regs && b in regs && RegistrationKey(a) == RegistrationKey(b) ==> a == b
  }

  lemma CanonicalOrdered(regs: seq<Registration>)
    ensures StrictlyOrdered(Canonical(regs), RegistrationKey)
  {
    hide SortByKey, DedupByKey, StrictlyOrdered, Ordered;
    SortByKeySorts(regs, RegistrationKey);
    DedupOrders(SortByKey(regs, RegistrationKey), RegistrationKey);
  }

  /** Nothing is invented and every registered pair is kept. */
  lemma CanonicalPairs(regs: seq<Registration>, r: Registration)
    ensures r in Canonical(regs) ==> r in regs
    ensures r in regs ==> exists c :: c in Canonical(regs) && RegistrationKey(c) == RegistrationKey(r)
  {
    hide SortByKey, DedupByKey;
    SortKeepsMembers(regs, r, RegistrationKey);
    DedupKeepsKeys(SortByKey(regs, RegistrationKey), r, RegistrationKey);
    if r in regs {
      var i :| 0 <= i < |Canonical(regs)| && RegistrationKey(Canonical(regs)[i]) == RegistrationKey(r);
      assert Canonical(regs)[i] in Canonical(regs);
    }
  }

  /** The canonical sequence holds exactly the registrations made. */
  lemma CanonicalMembers(regs: seq<Registration>, r: Registration)
    requires DuplicatesAgree(regs)
    ensures r in Canonical(regs) <==> r in regs
  {
    hide Canonical;
    CanonicalPairs(regs, r);
    if r in regs {
      var c :| c in Canonical(regs) && RegistrationKey(c) == RegistrationKey(r);
      CanonicalPairs(regs, c);
    }
  }

  /** The first registration made of a pair. */
  function FirstRegistered(regs: seq<Registration>, actor: Identity, message: Identity): Option<Registration> {
    var pair := WithKey(regs, RegistrationKey, Key(actor, message));
    if pair == [] then None else Some(pair[0])
  }

  /** Of each registered pair exactly the first registration is processed, whether or not
      duplicates agree. */
  lemma CanonicalKeepsFirst(regs: seq<Registration>, r: Registration)
    ensures r in Canonical(regs) <==> FirstRegistered(regs, r.actor, r.message) == Some(r)
  {
    hide SortByKey, DedupByKey, WithKey, Ordered;
    SortByKeySorts(regs, RegistrationKey);
    DedupKeepsFirst(SortByKey(regs, RegistrationKey), r, RegistrationKey);
    SortIsStable(regs, RegistrationKey, RegistrationKey(r));
  }

  lemma {:induction false} SameMembersSameSequence(a: seq<Registration>, b: seq<Registration>)
    requires StrictlyOrdered(a, RegistrationKey) && StrictlyOrdered(b, RegistrationKey)
    requires forall r :: r in a <==> r in b
    ensures a == b
    decreases |a|
  {
    assert a != [] ==> a[0] in a;
    assert b != [] ==> b[0] in b;
    if a != [] && b != [] {
      var x, y := a[|a| - 1], b[|b| - 1];
      LastIsGreatest(a, y);
      LastIsGreatest(b, x);
      assert x == y;
      var a', b' := a[..|a| - 1], b[..|b| - 1];
      forall r ensures r in a' <==> r in b' {
        FrontOmitsLast(a, r);
        FrontOmitsLast(b, r);
      }
      SameMembersSameSequence(a', b');
      assert a == a' + [x] && b == b' + [y];
    }
  }

  lemma LastIsGreatest(a: seq<Registration>, r: Registration)
    requires StrictlyOrdered(a, RegistrationKey) && r in a
    ensures r == a[|a| - 1] || Precedes(RegistrationKey(r), RegistrationKey(a[|a| - 1]))
  {
  }

  lemma FrontOmitsLast(a: seq<Registration>, r: Registration)
    requires StrictlyOrdered(a, RegistrationKey) && a != []
    ensures r in a[..|a| - 1] <==> r in a && r != a[|a| - 1]
  {
    var front := a[..|a| - 1];
    assert a == front + [a[|a| - 1]];
    if r in front {
      var i :| 0 <= i < |front| && front[i] == r;
      assert Precedes(RegistrationKey(a[i]), RegistrationKey(a[|a| - 1]));
    }
  }

  /** The registration order is irrelevant: the same registrations, in any order and
      repeated in any way, give the same canonical sequence. */
  lemma OrderIrrelevant(regs: seq<Registration>, others: seq<Registration>)
    requires DuplicatesAgree(regs) && forall r :: r in regs <==> r in others
    ensures Canonical(regs) == Canonical(others)
  {
    forall r ensures r in Canonical(regs) <==> r in Canonical(others) {
      CanonicalMembers(regs, r);
      CanonicalMembers(others, r);
    }
    CanonicalOrdered(regs);
    CanonicalOrdered(others);
    SameMembersSameSequence(Canonical(regs), Canonical(others));
  }
}
