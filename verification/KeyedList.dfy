/** Ordered tables of keyed entries: the two ways a set can treat an existing key, their exact undo, and
    what replaying a whole table onto another leaves. */
module KeyedList {
  import opened Wrappers

  datatype Entry<K, V> = Entry(key: K, value: V)

  /** Index of the entry under `k`, or the length. */
  function Find<K(==), V>(l: seq<Entry<K, V>>, k: K): (i: nat)
    ensures i <= |l| && (i < |l| ==> l[i].key == k)
    ensures forall j :: 0 <= j < i ==> l[j].key != k
  {
    if l == [] then 0 else if l[0].key == k then 0 else 1 + Find(l[1..], k)
  }

  predicate Holds<K(==), V>(l: seq<Entry<K, V>>, k: K) {
    Find(l, k) < |l|
  }

  ghost predicate UniqueKeys<K, V>(l: seq<Entry<K, V>>) {
    forall i, j :: 0 <= i < j < |l| ==> l[i].key != l[j].key
  }

  function RemoveAt<T>(l: seq<T>, i: nat): seq<T>
    requires i < |l|
  {
    l[..i] + l[i + 1..]
  }

  function InsertAt<T>(l: seq<T>, i: nat, x: T): seq<T>
    requires i <= |l|
  {
    l[..i] + [x] + l[i..]
  }

  function Without<K(==), V>(l: seq<Entry<K, V>>, k: K): seq<Entry<K, V>> {
    if Holds(l, k) then RemoveAt(l, Find(l, k)) else l
  }

  /** A changed entry moves to the end; the very same entry keeps its place. */
  function SetLast<K(==), V(==)>(l: seq<Entry<K, V>>, e: Entry<K, V>): seq<Entry<K, V>> {
    if Holds(l, e.key) && l[Find(l, e.key)] == e then l else Without(l, e.key) + [e]
  }

  /** A changed entry keeps its place. */
  function SetInPlace<K(==), V>(l: seq<Entry<K, V>>, e: Entry<K, V>): seq<Entry<K, V>> {
    if Holds(l, e.key) then l[Find(l, e.key) := e] else l + [e]
  }

  /** Drops every entry under `k`. */
  function Retained<K(==), V>(l: seq<Entry<K, V>>, k: K): seq<Entry<K, V>> {
    if l == [] then []
    else
      var rest := Retained(l[..|l| - 1], k);
      if l[|l| - 1].key == k then rest else rest + [l[|l| - 1]]
  }

  lemma FindAt<K, V>(l: seq<Entry<K, V>>, i: nat)
    requires UniqueKeys(l) && i < |l|
    ensures Find(l, l[i].key) == i
  {
  }

  lemma HoldsIff<K, V>(l: seq<Entry<K, V>>, k: K)
    ensures Holds(l, k) <==> exists i :: 0 <= i < |l| && l[i].key == k
  {
  }

  lemma UniqueButLast<K, V>(l: seq<Entry<K, V>>)
    requires UniqueKeys(l) && l != []
    ensures UniqueKeys(l[..|l| - 1]) && !Holds(l[..|l| - 1], l[|l| - 1].key)
    ensures l == l[..|l| - 1] + [l[|l| - 1]]
  {
  }

  lemma FindInTurn<K, V>(l: seq<Entry<K, V>>, e: Entry<K, V>, k: K)
    requires UniqueKeys(l + [e])
    ensures Find(l + [e], k) == if Holds(l, k) then Find(l, k) else if e.key == k then |l| else |l| + 1
  {
    var i := Find(l, k);
    if i < |l| {
      assert (l + [e])[i] == l[i];
      FindAt(l + [e], i);
    } else if e.key == k {
      assert (l + [e])[|l|] == e;
      FindAt(l + [e], |l|);
    } else {
      HoldsIff(l + [e], k);
      HoldsIff(l, k);
    }
  }

  lemma WithoutInTurn<K, V>(l: seq<Entry<K, V>>, e: Entry<K, V>, k: K)
    requires UniqueKeys(l + [e])
    ensures Without(l + [e], k) ==
            if Holds(l, k) then Without(l, k) + [e] else if e.key == k then l else l + [e]
  {
    FindInTurn(l, e, k);
    if !Holds(l, k) && e.key == k {
      assert RemoveAt(l + [e], |l|) == l;
    }
  }

  lemma WithoutAbsent<K, V>(l: seq<Entry<K, V>>, k: K)
    requires !Holds(l, k)
    ensures Without(l, k) == l
  {
  }

  /** A removal drops the one entry under the key. */
  lemma {:induction false} RetainedIsWithout<K, V>(l: seq<Entry<K, V>>, k: K)
    requires UniqueKeys(l)
    ensures Retained(l, k) == Without(l, k)
  {
    if l != [] {
      var rest, last := l[..|l| - 1], l[|l| - 1];
      UniqueButLast(l);
      RetainedIsWithout(rest, k);
      WithoutInTurn(rest, last, k);
      if !Holds(rest, k) {
        WithoutAbsent(rest, k);
      }
      hide Without, UniqueKeys, Holds, Find;
    }
  }

  lemma WithoutKeeps<K, V>(l: seq<Entry<K, V>>, k: K)
    requires UniqueKeys(l)
    ensures UniqueKeys(Without(l, k)) && !Holds(Without(l, k), k)
  {
  }

  lemma SetsKeepUnique<K, V>(l: seq<Entry<K, V>>, e: Entry<K, V>)
    requires UniqueKeys(l)
    ensures UniqueKeys(SetLast(l, e)) && UniqueKeys(SetInPlace(l, e))
  {
    WithoutKeeps(l, e.key);
    HoldsIff(Without(l, e.key), e.key);
    HoldsIff(l, e.key);
  }

  /** Where the key was and what it held. */
  function PriorOf<K(==), V>(l: seq<Entry<K, V>>, k: K): Option<(nat, Entry<K, V>)> {
    if Holds(l, k) then Some((Find(l, k), l[Find(l, k)])) else None
  }

  function Least(a: nat, b: nat): nat {
    if a < b then a else b
  }

  /** Back to the index it was found at, capped by what is left; a key that was new is dropped again. */
  function RestoredLast<K(==), V>(l: seq<Entry<K, V>>, k: K, prior: Option<(nat, Entry<K, V>)>): seq<Entry<K, V>> {
    var rest := Retained(l, k);
    match prior
    case None => rest
    case Some((i, e)) => InsertAt(rest, Least(i, |rest|), e)
  }

  function RestoredInPlace<K(==), V>(l: seq<Entry<K, V>>, k: K, prior: Option<(nat, Entry<K, V>)>): seq<Entry<K, V>> {
    match prior
    case None => Retained(l, k)
    case Some((i, e)) => if Holds(l, k) then l[Find(l, k) := e] else InsertAt(l, Least(i, |l|), e)
  }

  lemma PutBack<K, V>(l: seq<Entry<K, V>>, k: K)
    requires UniqueKeys(l)
    ensures match PriorOf(l, k)
            case None => Without(l, k) == l
            case Some((i, e)) => i <= |Without(l, k)| && InsertAt(Without(l, k), i, e) == l
  {
  }

  lemma WithoutAfterSet<K, V>(l: seq<Entry<K, V>>, e: Entry<K, V>)
    requires UniqueKeys(l)
    ensures Without(SetLast(l, e), e.key) == Without(l, e.key)
  {
    if SetLast(l, e) != l {
      var rest := Without(l, e.key);
      WithoutKeeps(l, e.key);
      SetsKeepUnique(l, e);
      FindAt(rest + [e], |rest|);
      assert RemoveAt(rest + [e], |rest|) == rest;
    }
  }

  /** Undoing a move-to-end set, or a removal, restores the table, order included. */
  lemma UndoLast<K, V>(l: seq<Entry<K, V>>, e: Entry<K, V>)
    requires UniqueKeys(l)
    ensures RestoredLast(SetLast(l, e), e.key, PriorOf(l, e.key)) == l
    ensures RestoredLast(Without(l, e.key), e.key, PriorOf(l, e.key)) == l
  {
    PutBack(l, e.key);
    WithoutAfterSet(l, e);
    SetsKeepUnique(l, e);
    WithoutKeeps(l, e.key);
    RetainedIsWithout(SetLast(l, e), e.key);
    RetainedIsWithout(Without(l, e.key), e.key);
  }

  lemma FindAfterSet<K, V>(l: seq<Entry<K, V>>, e: Entry<K, V>)
    requires UniqueKeys(l)
    ensures Find(SetInPlace(l, e), e.key) == Find(l, e.key) && Holds(SetInPlace(l, e), e.key)
  {
    SetsKeepUnique(l, e);
    FindAt(SetInPlace(l, e), Find(l, e.key));
  }

  lemma UndoRemoval<K, V>(l: seq<Entry<K, V>>, k: K)
    requires UniqueKeys(l)
    ensures RestoredInPlace(Without(l, k), k, PriorOf(l, k)) == l
  {
    PutBack(l, k);
    WithoutKeeps(l, k);
    RetainedIsWithout(Without(l, k), k);
  }

  /** Undoing an in-place set, or a removal, restores the table, order included. */
  lemma UndoInPlace<K, V>(l: seq<Entry<K, V>>, e: Entry<K, V>)
    requires UniqueKeys(l)
    ensures RestoredInPlace(SetInPlace(l, e), e.key, PriorOf(l, e.key)) == l
    ensures RestoredInPlace(Without(l, e.key), e.key, PriorOf(l, e.key)) == l
  {
    UndoRemoval(l, e.key);
    FindAfterSet(l, e);
    if !Holds(l, e.key) {
      SetsKeepUnique(l, e);
      RetainedIsWithout(SetInPlace(l, e), e.key);
      assert RemoveAt(l + [e], |l|) == l;
    }
  }

  // Replaying a table

  function ReplayLast<K(==), V(==)>(base: seq<Entry<K, V>>, l: seq<Entry<K, V>>): seq<Entry<K, V>> {
    if l == [] then base else SetLast(ReplayLast(base, l[..|l| - 1]), l[|l| - 1])
  }

  function ReplayInPlace<K(==), V(==)>(base: seq<Entry<K, V>>, l: seq<Entry<K, V>>): seq<Entry<K, V>> {
    if l == [] then base else SetInPlace(ReplayInPlace(base, l[..|l| - 1]), l[|l| - 1])
  }

  /** The entries of `base` a replay of `l` leaves where they are: those `l` does not name, and those it
      holds identically. */
  function Standing<K(==), V(==)>(base: seq<Entry<K, V>>, l: seq<Entry<K, V>>): seq<Entry<K, V>> {
    if base == [] then []
    else
      var rest, e := Standing(base[..|base| - 1], l), base[|base| - 1];
      if Holds(l, e.key) && e !in l then rest else rest + [e]
  }

  /** The entries of `l` that `base` does not hold identically, in order. */
  function Missing<K(==), V(==)>(base: seq<Entry<K, V>>, l: seq<Entry<K, V>>): seq<Entry<K, V>> {
    if l == [] then []
    else
      var rest, e := Missing(base, l[..|l| - 1]), l[|l| - 1];
      if e in base then rest else rest + [e]
  }

  lemma {:induction false} RetainedInTurn<K, V>(a: seq<Entry<K, V>>, b: seq<Entry<K, V>>, k: K)
    ensures Retained(a + b, k) == Retained(a, k) + Retained(b, k)
    decreases |b|
  {
    if b == [] {
      assert a + b == a;
    } else {
      assert (a + b)[..|a + b| - 1] == a + b[..|b| - 1];
      RetainedInTurn(a, b[..|b| - 1], k);
    }
  }

  lemma {:induction false} RetainedAbsent<K, V>(l: seq<Entry<K, V>>, k: K)
    requires forall e :: e in l ==> e.key != k
    ensures Retained(l, k) == l
  {
    if l != [] {
      assert l[|l| - 1] in l;
      RetainedAbsent(l[..|l| - 1], k);
    }
  }

  lemma {:induction false} StandingFrom<K, V>(base: seq<Entry<K, V>>, l: seq<Entry<K, V>>, e: Entry<K, V>)
    ensures e in Standing(base, l) <==> e in base && (Holds(l, e.key) ==> e in l)
  {
    if base != [] {
      StandingFrom(base[..|base| - 1], l, e);
      assert base == base[..|base| - 1] + [base[|base| - 1]];
    }
  }

  lemma {:induction false} MissingFrom<K, V>(base: seq<Entry<K, V>>, l: seq<Entry<K, V>>, e: Entry<K, V>)
    ensures e in Missing(base, l) <==> e in l && e !in base
  {
    if l != [] {
      MissingFrom(base, l[..|l| - 1], e);
      assert l == l[..|l| - 1] + [l[|l| - 1]];
    }
  }

  /** One more entry to replay lifts out of the standing entries just the one it changes. */
  lemma {:induction false} StandingNext<K, V>(base: seq<Entry<K, V>>, l: seq<Entry<K, V>>, e: Entry<K, V>)
    requires UniqueKeys(base) && !Holds(l, e.key)
    ensures e in base ==> Standing(base, l + [e]) == Standing(base, l)
    ensures e !in base ==> Standing(base, l + [e]) == Retained(Standing(base, l), e.key)
  {
    if base != [] {
      var rest, b := base[..|base| - 1], base[|base| - 1];
      assert base == rest + [b];
      StandingNext(rest, l, e);
      HoldsIff(l, b.key);
      HoldsIff(l + [e], b.key);
      assert (l + [e])[|l|] == e;
      assert forall i :: 0 <= i < |l| ==> (l + [e])[i] == l[i];
      if e in base && b != e {
        assert b.key != e.key;
        assert e in rest;
      }
      if e == b {
        forall x | x in Standing(rest, l) ensures x.key != e.key {
          StandingFrom(rest, l, x);
        }
        RetainedAbsent(Standing(rest, l), e.key);
      }
      RetainedInTurn(Standing(rest, l), [b], e.key);
    }
  }

  lemma {:induction false} ReplayLastUnique<K, V>(base: seq<Entry<K, V>>, l: seq<Entry<K, V>>)
    requires UniqueKeys(base)
    ensures UniqueKeys(ReplayLast(base, l))
  {
    if l != [] {
      ReplayLastUnique(base, l[..|l| - 1]);
      SetsKeepUnique(ReplayLast(base, l[..|l| - 1]), l[|l| - 1]);
    }
  }

  lemma SetHeld<K, V>(l: seq<Entry<K, V>>, e: Entry<K, V>)
    requires UniqueKeys(l) && e in l
    ensures SetLast(l, e) == l
  {
    var i :| 0 <= i < |l| && l[i] == e;
    FindAt(l, i);
  }

  lemma SetNew<K, V>(l: seq<Entry<K, V>>, e: Entry<K, V>)
    requires UniqueKeys(l) && e !in l
    ensures SetLast(l, e) == Retained(l, e.key) + [e]
  {
    RetainedIsWithout(l, e.key);
  }

  /** What a replay leaves: the entries it has nothing to change in, where they are, then what was
      missing, in the replayed order. */
  lemma {:induction false} ReplayLastShape<K, V>(base: seq<Entry<K, V>>, l: seq<Entry<K, V>>)
    requires UniqueKeys(base) && UniqueKeys(l)
    ensures ReplayLast(base, l) == Standing(base, l) + Missing(base, l)
  {
    if l == [] {
      StandingAll(base, l);
    } else {
      var rest, e := l[..|l| - 1], l[|l| - 1];
      UniqueButLast(l);
      ReplayLastShape(base, rest);
      ReplayLastUnique(base, rest);
      ReplayLastNext(base, rest, e);
    }
  }

  lemma ReplayLastNext<K, V>(base: seq<Entry<K, V>>, l: seq<Entry<K, V>>, e: Entry<K, V>)
    requires UniqueKeys(base) && !Holds(l, e.key) && UniqueKeys(Standing(base, l) + Missing(base, l))
    ensures SetLast(Standing(base, l) + Missing(base, l), e) ==
            Standing(base, l + [e]) + if e in base then Missing(base, l) else Missing(base, l) + [e]
  {
    var standing, missing := Standing(base, l), Missing(base, l);
    StandingNext(base, l, e);
    StandingFrom(base, l, e);
    MissingFrom(base, l, e);
    HoldsIff(l, e.key);
    hide Standing, Missing, UniqueKeys, SetLast;
    if e in base {
      SetHeld(standing + missing, e);
    } else {
      SetNew(standing + missing, e);
      forall x | x in missing ensures x.key != e.key {
        MissingFrom(base, l, x);
      }
      RetainedAbsent(missing, e.key);
      RetainedInTurn(standing, missing, e.key);
    }
  }

  lemma {:induction false} StandingAll<K, V>(base: seq<Entry<K, V>>, l: seq<Entry<K, V>>)
    requires forall e :: e in base ==> e in l || !Holds(l, e.key)
    ensures Standing(base, l) == base
  {
    if base != [] {
      assert base[|base| - 1] in base;
      StandingAll(base[..|base| - 1], l);
    }
  }

  lemma {:induction false} MissingInTurn<K, V>(base: seq<Entry<K, V>>, a: seq<Entry<K, V>>, b: seq<Entry<K, V>>)
    requires forall e :: e in a ==> e in base
    requires forall e :: e in b ==> e !in base
    ensures Missing(base, a + b) == b
    decreases |a| + |b|
  {
    if b != [] {
      assert (a + b)[..|a + b| - 1] == a + b[..|b| - 1];
      assert b[|b| - 1] in b;
      MissingInTurn(base, a, b[..|b| - 1]);
    } else if a != [] {
      assert a + b == a;
      assert a[|a| - 1] in a;
      assert a[..|a| - 1] + b == a[..|a| - 1];
      MissingInTurn(base, a[..|a| - 1], b);
    }
  }

  /** A replay of `l` leaves exactly `l` when, and only when, the entries left standing are a prefix
      of it. */
  lemma ReplayLastReaches<K, V>(base: seq<Entry<K, V>>, l: seq<Entry<K, V>>)
    requires UniqueKeys(base) && UniqueKeys(l)
    ensures ReplayLast(base, l) == l <==> Standing(base, l) <= l
  {
    ReplayLastShape(base, l);
    var standing := Standing(base, l);
    if standing <= l {
      var tail := l[|standing|..];
      assert l == standing + tail;
      forall e | e in standing ensures e in base {
        StandingFrom(base, l, e);
      }
      forall e | e in tail ensures e !in base {
        if e in base {
          assert e in l;
          StandingFrom(base, l, e);
          AppearsOnce(standing, tail, e);
        }
      }
      MissingInTurn(base, standing, tail);
    }
  }

  lemma AppearsOnce<K, V>(a: seq<Entry<K, V>>, b: seq<Entry<K, V>>, e: Entry<K, V>)
    requires UniqueKeys(a + b) && e in b
    ensures e !in a
  {
    forall i, j | 0 <= i < |a| && 0 <= j < |b| ensures a[i].key != b[j].key {
      assert (a + b)[i] == a[i] && (a + b)[|a| + j] == b[j];
    }
  }

  /** A box left holding part of the table holds the whole table, order included, after the replay
      exactly when that part is a prefix. The empty box and the box in step are the two ends. */
  lemma ReplayLastOntoPart<K, V>(part: seq<Entry<K, V>>, l: seq<Entry<K, V>>)
    requires UniqueKeys(part) && UniqueKeys(l) && forall e :: e in part ==> e in l
    ensures ReplayLast(part, l) == l <==> part <= l
  {
    StandingAll(part, l);
    ReplayLastReaches(part, l);
  }

  // In place

  function KeysOf<K, V>(l: seq<Entry<K, V>>): seq<K> {
    seq(|l|, i requires 0 <= i < |l| => l[i].key)
  }

  function Updated<K(==), V>(base: seq<Entry<K, V>>, l: seq<Entry<K, V>>): seq<Entry<K, V>> {
    seq(|base|, i requires 0 <= i < |base| => if Holds(l, base[i].key) then l[Find(l, base[i].key)] else base[i])
  }

  function NewKeys<K(==), V>(base: seq<Entry<K, V>>, l: seq<Entry<K, V>>): seq<Entry<K, V>> {
    if l == [] then []
    else
      var rest, e := NewKeys(base, l[..|l| - 1]), l[|l| - 1];
      if Holds(base, e.key) then rest else rest + [e]
  }

  lemma {:induction false} NewKeysFrom<K, V>(base: seq<Entry<K, V>>, l: seq<Entry<K, V>>, e: Entry<K, V>)
    ensures e in NewKeys(base, l) <==> e in l && !Holds(base, e.key)
  {
    if l != [] {
      NewKeysFrom(base, l[..|l| - 1], e);
      assert l == l[..|l| - 1] + [l[|l| - 1]];
    }
  }

  lemma UpdatedNext<K, V>(base: seq<Entry<K, V>>, l: seq<Entry<K, V>>, e: Entry<K, V>)
    requires UniqueKeys(base) && UniqueKeys(l + [e])
    ensures Updated(base, l + [e]) ==
            if Holds(base, e.key) then Updated(base, l)[Find(base, e.key) := e] else Updated(base, l)
  {
    UniqueButLast(l + [e]);
    assert (l + [e])[..|l|] == l;
    forall i | 0 <= i < |base|
      ensures Updated(base, l + [e])[i] == if base[i].key == e.key then e else Updated(base, l)[i]
    {
      FindInTurn(l, e, base[i].key);
    }
    if Holds(base, e.key) {
      forall i | 0 <= i < |base| ensures base[i].key == e.key <==> i == Find(base, e.key) {
        FindAt(base, i);
      }
    } else {
      HoldsIff(base, e.key);
    }
  }

  lemma FreshLast<K, V>(l: seq<Entry<K, V>>, e: Entry<K, V>)
    requires UniqueKeys(l + [e])
    ensures !Holds(l, e.key)
  {
    UniqueButLast(l + [e]);
    assert (l + [e])[..|l|] == l;
  }

  lemma ReplayInPlaceNext<K, V>(base: seq<Entry<K, V>>, l: seq<Entry<K, V>>, e: Entry<K, V>)
    requires UniqueKeys(base) && UniqueKeys(l + [e])
    ensures SetInPlace(Updated(base, l) + NewKeys(base, l), e) ==
            Updated(base, l + [e]) + if Holds(base, e.key) then NewKeys(base, l) else NewKeys(base, l) + [e]
  {
    var updated, added := Updated(base, l), NewKeys(base, l);
    FreshLast(l, e);
    UpdatedNext(base, l, e);
    UpdatedKeys(base, l);
    FindByKeys(updated, base, e.key);
    forall x | x in added ensures x.key != e.key {
      NewKeysFrom(base, l, x);
      HoldsIff(l, e.key);
    }
    hide Updated, NewKeys, UniqueKeys, KeysOf, SetInPlace, Find;
    if Holds(base, e.key) {
      SetInFront(updated, added, e);
    } else {
      SetAfter(updated, added, e);
    }
  }

  lemma SetInFront<K, V>(a: seq<Entry<K, V>>, b: seq<Entry<K, V>>, e: Entry<K, V>)
    requires Holds(a, e.key)
    ensures SetInPlace(a + b, e) == a[Find(a, e.key) := e] + b
  {
    FindInFront(a, b, e.key);
  }

  lemma SetAfter<K, V>(a: seq<Entry<K, V>>, b: seq<Entry<K, V>>, e: Entry<K, V>)
    requires !Holds(a, e.key) && forall x :: x in b ==> x.key != e.key
    ensures SetInPlace(a + b, e) == a + (b + [e])
  {
    HoldsIff(a, e.key);
    HoldsIff(a + b, e.key);
    assert a + b + [e] == a + (b + [e]);
  }

  /** What an in-place replay leaves: every key of the base where it was, with the replayed value if it
      has one, then the new keys in the replayed order. */
  lemma {:induction false} ReplayInPlaceShape<K, V>(base: seq<Entry<K, V>>, l: seq<Entry<K, V>>)
    requires UniqueKeys(base) && UniqueKeys(l)
    ensures ReplayInPlace(base, l) == Updated(base, l) + NewKeys(base, l)
  {
    if l == [] {
      assert Updated(base, l) == base;
    } else {
      UniqueButLast(l);
      ReplayInPlaceShape(base, l[..|l| - 1]);
      ReplayInPlaceNext(base, l[..|l| - 1], l[|l| - 1]);
    }
  }

  lemma {:induction false} FindByKeys<K, V>(a: seq<Entry<K, V>>, b: seq<Entry<K, V>>, k: K)
    requires KeysOf(a) == KeysOf(b)
    ensures Find(a, k) == Find(b, k) && |a| == |b|
  {
    assert |KeysOf(a)| == |KeysOf(b)|;
    if a != [] {
      assert KeysOf(a)[0] == KeysOf(b)[0];
      assert KeysOf(a[1..]) == KeysOf(a)[1..] && KeysOf(b[1..]) == KeysOf(b)[1..];
      FindByKeys(a[1..], b[1..], k);
    }
  }

  lemma FindInFront<K, V>(a: seq<Entry<K, V>>, b: seq<Entry<K, V>>, k: K)
    requires Holds(a, k)
    ensures Find(a + b, k) == Find(a, k)
  {
    var i, j := Find(a, k), Find(a + b, k);
    assert (a + b)[i].key == k;
    assert j <= i;
    assert (a + b)[j] == a[j];
  }

  lemma {:induction false} NewKeysInTurn<K, V>(base: seq<Entry<K, V>>, a: seq<Entry<K, V>>, b: seq<Entry<K, V>>)
    requires forall e :: e in a ==> Holds(base, e.key)
    requires forall e :: e in b ==> !Holds(base, e.key)
    ensures NewKeys(base, a + b) == b
    decreases |a| + |b|
  {
    if b != [] {
      assert (a + b)[..|a + b| - 1] == a + b[..|b| - 1];
      assert b[|b| - 1] in b;
      NewKeysInTurn(base, a, b[..|b| - 1]);
    } else if a != [] {
      assert a + b == a;
      assert a[|a| - 1] in a;
      assert a[..|a| - 1] + b == a[..|a| - 1];
      NewKeysInTurn(base, a[..|a| - 1], b);
    }
  }

  lemma SameKeysHold<K, V>(base: seq<Entry<K, V>>, l: seq<Entry<K, V>>)
    requires UniqueKeys(l) && KeysOf(base) <= KeysOf(l)
    ensures |base| <= |l| && Updated(base, l) == l[..|base|]
    ensures forall e :: e in l[..|base|] ==> Holds(base, e.key)
    ensures forall e :: e in l[|base|..] ==> !Holds(base, e.key)
  {
    assert |KeysOf(base)| == |base| && |KeysOf(l)| == |l|;
    forall i | 0 <= i < |base| ensures base[i].key == l[i].key {
      assert KeysOf(base)[i] == KeysOf(l)[i];
    }
    forall i | 0 <= i < |base| ensures Updated(base, l)[i] == l[i] {
      FindAt(l, i);
    }
    forall e | e in l[..|base|] ensures Holds(base, e.key) {
      var i :| 0 <= i < |base| && l[..|base|][i] == e;
      assert base[i].key == l[i].key;
      HoldsIff(base, e.key);
    }
    forall e | e in l[|base|..] ensures !Holds(base, e.key) {
      var j :| 0 <= j < |l| - |base| && l[|base|..][j] == e;
      assert l[|base| + j] == e;
      HoldsIff(base, e.key);
    }
  }

  /** An in-place replay of `l` leaves exactly `l` when, and only when, the keys it starts from are a
      prefix of the keys of `l`, whatever values they hold. */
  lemma ReplayInPlaceReaches<K, V>(base: seq<Entry<K, V>>, l: seq<Entry<K, V>>)
    requires UniqueKeys(base) && UniqueKeys(l)
    ensures ReplayInPlace(base, l) == l <==> KeysOf(base) <= KeysOf(l)
  {
    ReplayInPlaceShape(base, l);
    if KeysOf(base) <= KeysOf(l) {
      SameKeysHold(base, l);
      NewKeysInTurn(base, l[..|base|], l[|base|..]);
      assert l == l[..|base|] + l[|base|..];
    }
    UpdatedKeys(base, l);
    PrefixKeys(Updated(base, l), NewKeys(base, l));
  }

  lemma PrefixKeys<K, V>(a: seq<Entry<K, V>>, b: seq<Entry<K, V>>)
    ensures KeysOf(a) <= KeysOf(a + b)
  {
  }

  lemma UpdatedKeys<K, V>(base: seq<Entry<K, V>>, l: seq<Entry<K, V>>)
    ensures KeysOf(Updated(base, l)) == KeysOf(base)
  {
  }
}
