/** Field transforms: an overwrite keeps its place, because entries apply in installation order. */
module TransformTable {
  import opened Wrappers
  import opened KeyedList

  const MAX_ENTRIES := 32

  datatype Class = Button | Keyboard | Media
  datatype Field = AxisField(axis: int) | Usage(cls: Class, id: int)
  datatype Op = Swap | Remap

  datatype Ends = Ends(source: Field, dest: Field)
  type Transform = Entry<Ends, Op>

  datatype TransformError = OpFields | TableFull | LinkDown

  /** The fields an op can join; none takes one field as both ends. */
  predicate Admits(op: Op, source: Field, dest: Field) {
    source != dest &&
    match op
    case Swap => source.AxisField? && dest.AxisField?
    case Remap => (source.AxisField? && dest.AxisField?) || (source.Usage? && source.cls == Button && dest.Usage?)
  }

  // The box

  /** The class byte of a field; an axis has one of its own. */
  function ClassByte(f: Field): int {
    match f
    case Usage(Button, _) => 0
    case Usage(Keyboard, _) => 1
    case Usage(Media, _) => 2
    case AxisField(_) => 3
  }

  function IdOf(f: Field): int {
    if f.AxisField? then f.axis else f.id
  }

  predicate PairOk(op: Op, sc: int, si: int, dc: int, di: int) {
    !(sc == dc && si == di) &&
    match op
    case Swap => sc == 3 && dc == 3
    case Remap => (sc == 3 && dc == 3) || (sc == 0 && (dc == 0 || dc == 1 || dc == 2))
  }

  lemma AdmittedIffPairOk(t: Transform)
    ensures Admits(t.value, t.key.source, t.key.dest) <==>
            PairOk(t.value, ClassByte(t.key.source), IdOf(t.key.source), ClassByte(t.key.dest), IdOf(t.key.dest))
  {
  }

  /** `fields` are those the clone declares; with no clone there are none. */
  predicate Declared(fields: set<Field>, k: Ends) {
    k.source in fields && k.dest in fields
  }

  function BoxSet(box: seq<Transform>, fields: set<Field>, t: Transform): seq<Transform> {
    if !PairOk(t.value, ClassByte(t.key.source), IdOf(t.key.source), ClassByte(t.key.dest), IdOf(t.key.dest)) then box
    else if !Declared(fields, t.key) then box
    else if !Holds(box, t.key) && |box| >= MAX_ENTRIES then box
    else SetInPlace(box, t)
  }

  // The ledger

  ghost predicate Inv(l: seq<Transform>) {
    UniqueKeys(l) && |l| <= MAX_ENTRIES && forall t :: t in l ==> Admits(t.value, t.key.source, t.key.dest)
  }

  function SetAnswer(l: seq<Transform>, t: Transform, up: bool): Option<TransformError> {
    if !Admits(t.value, t.key.source, t.key.dest) then Some(OpFields)
    else if !Holds(l, t.key) && |l| >= MAX_ENTRIES then Some(TableFull)
    else if !up then Some(LinkDown)
    else None
  }

  datatype Call = Set(transform: Transform, up: bool) | Remove(key: Ends, up: bool) | Clear(up: bool)

  function LedgerStep(l: seq<Transform>, c: Call): seq<Transform> {
    match c
    case Set(t, up) => if SetAnswer(l, t, up).None? then SetInPlace(l, t) else l
    case Remove(k, up) => if up then Without(l, k) else l
    case Clear(up) => if up then [] else l
  }

  function BoxStep(box: seq<Transform>, l: seq<Transform>, fields: set<Field>, c: Call): seq<Transform> {
    match c
    case Set(t, up) => if SetAnswer(l, t, up).None? then BoxSet(box, fields, t) else box
    case Remove(k, up) => if up then Without(box, k) else box
    case Clear(up) => if up then [] else box
  }

  /** The host cannot see which fields the clone declares; the box drops an entry on any other. */
  predicate Faithful(l: seq<Transform>, fields: set<Field>, c: Call) {
    c.Set? && SetAnswer(l, c.transform, c.up).None? ==> Declared(fields, c.transform.key) || c.transform in l
  }

  lemma SetHeld(l: seq<Transform>, t: Transform)
    requires UniqueKeys(l)
    ensures SetInPlace(l, t) == l <==> t in l
    ensures forall x :: x in SetInPlace(l, t) ==> x in l || x == t
  {
    if t in l {
      var i :| 0 <= i < |l| && l[i] == t;
      FindAt(l, i);
    } else if Holds(l, t.key) {
      assert SetInPlace(l, t)[Find(l, t.key)] == t;
    }
  }

  /** With the fields declared, the host refuses exactly the entries the box would drop. */
  lemma RefusedIffDropped(l: seq<Transform>, fields: set<Field>, t: Transform)
    requires Inv(l) && Declared(fields, t.key)
    ensures SetAnswer(l, t, true).None? <==> t in BoxSet(l, fields, t)
  {
    AdmittedIffPairOk(t);
    if t in l {
      HoldsIff(l, t.key);
      SetHeld(l, t);
    } else if Holds(l, t.key) {
      assert SetInPlace(l, t)[Find(l, t.key)] == t;
    } else {
      assert SetInPlace(l, t)[|l|] == t;
    }
  }

  /** From a box in step, a call leaves the two lists equal, order included, exactly when it is
      faithful. */
  lemma CallAgrees(l: seq<Transform>, fields: set<Field>, c: Call)
    requires Inv(l)
    ensures Inv(LedgerStep(l, c))
    ensures BoxStep(l, l, fields, c) == LedgerStep(l, c) <==> Faithful(l, fields, c)
  {
    match c {
      case Set(t, up) =>
        SetHeld(l, t);
        SetsKeepUnique(l, t);
        AdmittedIffPairOk(t);
      case Remove(k, _) =>
        WithoutKeeps(l, k);
      case Clear(_) =>
    }
  }

  /** On a clone that declares no field the ledger records a swap of two axes and the box drops it. */
  lemma UndeclaredIsDropped()
    ensures var t := Entry(Ends(AxisField(0), AxisField(1)), Swap);
            !Faithful([], {}, Set(t, true)) && LedgerStep([], Set(t, true)) == [t] && BoxStep([], [], {}, Set(t, true)) == []
  {
  }

  function LedgerRun(l: seq<Transform>, calls: seq<Call>): seq<Transform>
    decreases |calls|
  {
    if calls == [] then l else LedgerRun(LedgerStep(l, calls[0]), calls[1..])
  }

  function BoxAfter(box: seq<Transform>, l: seq<Transform>, fields: set<Field>, calls: seq<Call>): seq<Transform>
    decreases |calls|
  {
    if calls == [] then box
    else BoxAfter(BoxStep(box, l, fields, calls[0]), LedgerStep(l, calls[0]), fields, calls[1..])
  }

  ghost predicate FaithfulRun(l: seq<Transform>, fields: set<Field>, calls: seq<Call>)
    decreases |calls|
  {
    calls == [] || (Faithful(l, fields, calls[0]) && FaithfulRun(LedgerStep(l, calls[0]), fields, calls[1..]))
  }

  /** Over any run of sets, removes and clears, refused or failed ones included, the keys stay unique,
      the table within 32 entries, and the box's list equal to the ledger's. */
  lemma {:induction false} RunAgrees(l: seq<Transform>, fields: set<Field>, calls: seq<Call>)
    requires Inv(l) && FaithfulRun(l, fields, calls)
    ensures Inv(LedgerRun(l, calls)) && BoxAfter(l, l, fields, calls) == LedgerRun(l, calls)
    decreases |calls|
  {
    if calls != [] {
      CallAgrees(l, fields, calls[0]);
      RunAgrees(LedgerStep(l, calls[0]), fields, calls[1..]);
    }
  }

  // The replay

  function BoxReplay(box: seq<Transform>, fields: set<Field>, l: seq<Transform>): seq<Transform> {
    if l == [] then box else BoxSet(BoxReplay(box, fields, l[..|l| - 1]), fields, l[|l| - 1])
  }

  lemma {:induction false} PartIsSmaller(part: seq<Transform>, l: seq<Transform>)
    requires UniqueKeys(part) && forall t :: t in part ==> Holds(l, t.key)
    ensures |part| <= |l|
  {
    if part != [] {
      var rest, t := part[..|part| - 1], part[|part| - 1];
      assert t in part;
      var i := Find(l, t.key);
      forall x | x in rest ensures Holds(RemoveAt(l, i), x.key) {
        assert x in part;
        var j := Find(l, x.key);
        assert j != i;
        assert RemoveAt(l, i)[if j < i then j else j - 1].key == x.key;
      }
      PartIsSmaller(rest, RemoveAt(l, i));
    }
  }

  lemma PartTakes(part: seq<Transform>, fields: set<Field>, l: seq<Transform>, t: Transform)
    requires Inv(l) && UniqueKeys(part) && t in l && Declared(fields, t.key)
    requires forall x :: x in part ==> Holds(l, x.key)
    ensures BoxSet(part, fields, t) == SetInPlace(part, t)
    ensures forall x :: x in SetInPlace(part, t) ==> Holds(l, x.key)
  {
    SetsKeepUnique(part, t);
    SetHeld(part, t);
    HoldsIff(l, t.key);
    AdmittedIffPairOk(t);
    PartIsSmaller(SetInPlace(part, t), l);
  }

  lemma {:induction false} ReplayInPlaceUnique(base: seq<Transform>, l: seq<Transform>)
    requires UniqueKeys(base)
    ensures UniqueKeys(ReplayInPlace(base, l))
  {
    if l != [] {
      ReplayInPlaceUnique(base, l[..|l| - 1]);
      SetsKeepUnique(ReplayInPlace(base, l[..|l| - 1]), l[|l| - 1]);
    }
  }

  /** The entries whose fields the clone has. */
  function DeclaredOf(fields: set<Field>, l: seq<Transform>): seq<Transform> {
    if l == [] then []
    else
      var rest := DeclaredOf(fields, l[..|l| - 1]);
      if Declared(fields, l[|l| - 1].key) then rest + [l[|l| - 1]] else rest
  }

  lemma {:induction false} DeclaredAre(fields: set<Field>, l: seq<Transform>)
    ensures forall t :: t in DeclaredOf(fields, l) <==> t in l && Declared(fields, t.key)
    ensures |DeclaredOf(fields, l)| <= |l|
    ensures UniqueKeys(l) ==> UniqueKeys(DeclaredOf(fields, l))
  {
    if l != [] {
      var rest, t := l[..|l| - 1], l[|l| - 1];
      DeclaredAre(fields, rest);
      assert l == rest + [t];
      if UniqueKeys(l) {
        UniqueButLast(l);
        forall x | x in DeclaredOf(fields, rest) ensures x.key != t.key {
          assert x in rest;
        }
      }
    }
  }

  lemma {:induction false} AllDeclared(fields: set<Field>, l: seq<Transform>)
    requires forall t :: t in l ==> Declared(fields, t.key)
    ensures DeclaredOf(fields, l) == l
  {
    if l != [] {
      assert l == l[..|l| - 1] + [l[|l| - 1]];
      AllDeclared(fields, l[..|l| - 1]);
    }
  }

  lemma {:induction false} BoxReplayIsReplay(part: seq<Transform>, fields: set<Field>, l: seq<Transform>, n: nat)
    requires Inv(l) && UniqueKeys(part) && n <= |l| && forall t :: t in part ==> Holds(l, t.key)
    ensures BoxReplay(part, fields, l[..n]) == ReplayInPlace(part, DeclaredOf(fields, l[..n]))
    ensures UniqueKeys(BoxReplay(part, fields, l[..n])) && forall t :: t in BoxReplay(part, fields, l[..n]) ==> Holds(l, t.key)
    decreases n
  {
    if n > 0 {
      assert l[..n][..n - 1] == l[..n - 1];
      BoxReplayIsReplay(part, fields, l, n - 1);
      var before, t := BoxReplay(part, fields, l[..n - 1]), l[n - 1];
      if Declared(fields, t.key) {
        PartTakes(before, fields, l, t);
        SetsKeepUnique(before, t);
        var kept := DeclaredOf(fields, l[..n - 1]);
        assert (kept + [t])[..|kept|] == kept;
      }
      hide SetInPlace, Holds, UniqueKeys, BoxSet;
    }
  }

  /** The re-assert onto a box holding some of the transforms, at whatever ops, makes it hold all those
      the clone has the fields for, in order, exactly when their fields were those of the first ones. */
  lemma ReplayOntoPart(part: seq<Transform>, fields: set<Field>, l: seq<Transform>)
    requires Inv(l) && UniqueKeys(part) && forall t :: t in part ==> Holds(DeclaredOf(fields, l), t.key)
    ensures BoxReplay(part, fields, l) == DeclaredOf(fields, l) <==> KeysOf(part) <= KeysOf(DeclaredOf(fields, l))
  {
    DeclaredAre(fields, l);
    forall t | t in part ensures Holds(l, t.key) {
      HoldsIff(DeclaredOf(fields, l), t.key);
      HoldsIff(l, t.key);
    }
    hide Holds, BoxReplay;
    BoxReplayIsReplay(part, fields, l, |l|);
    assert l[..|l|] == l;
    ReplayInPlaceReaches(part, DeclaredOf(fields, l));
  }

  /** A box that was emptied, a device with other fields behind it perhaps, ends with exactly the
      entries the clone has the fields for, in the ledger's order. */
  lemma ReplayOntoEmpty(fields: set<Field>, l: seq<Transform>)
    requires Inv(l)
    ensures BoxReplay([], fields, l) == DeclaredOf(fields, l)
  {
    ReplayOntoPart([], fields, l);
    assert KeysOf<Ends, Op>([]) == [];
  }

  /** Of every table of two transforms: a box that kept only the second ends with the two swapped. */
  lemma SecondComesFirst(fields: set<Field>, a: Transform, b: Transform)
    requires Inv([a, b]) && Declared(fields, a.key) && Declared(fields, b.key)
    ensures a.key != b.key && BoxReplay([b], fields, [a, b]) == [b, a]
  {
    var l := [a, b];
    assert l[0].key != l[1].key;
    assert b in l && Holds(l, b.key) by {
      HoldsIff(l, b.key);
    }
    BoxReplayIsReplay([b], fields, l, 2);
    AllDeclared(fields, l);
    assert l[..2] == l && l[..1] == [a] && l[..1][..0] == [];
    assert ReplayInPlace([b], [a]) == [b, a];
    FindAt([b, a], 0);
  }

  lemma OnEmpty(fields: set<Field>, t: Transform)
    requires Admits(t.value, t.key.source, t.key.dest) && Declared(fields, t.key)
    ensures BoxSet([], fields, t) == [t] && UniqueKeys([t])
  {
    AdmittedIffPairOk(t);
  }

  lemma FrontOf(l: seq<Transform>, t: Transform)
    ensures |SetInPlace(l, t)| > 0
    ensures SetInPlace(l, t)[0].key == if l == [] then t.key else l[0].key
    ensures Holds(SetInPlace(l, t), t.key)
  {
    var now := SetInPlace(l, t);
    if Holds(l, t.key) {
      assert now[Find(l, t.key)] == t;
    } else {
      assert now[|l|] == t;
    }
    HoldsIff(now, t.key);
  }

  lemma KeyInFront(l: seq<Transform>, t: Transform)
    requires |l| > 0
    ensures KeysOf([t]) <= KeysOf(l) <==> l[0].key == t.key
  {
    assert KeysOf([t]) == [t.key];
    assert KeysOf(l)[0] == l[0].key;
  }

  /** A transform set on a box that has been emptied, ahead of the re-assert, keeps its place in front:
      the box ends in the ledger's order exactly when the ledger has it in front too. */
  lemma SetBeforeReplay(l: seq<Transform>, fields: set<Field>, t: Transform)
    requires Inv(l) && SetAnswer(l, t, true).None? && Declared(fields, t.key)
    requires forall x :: x in l ==> Declared(fields, x.key)
    ensures BoxReplay(BoxSet([], fields, t), fields, SetInPlace(l, t)) == SetInPlace(l, t) <==>
            l == [] || l[0].key == t.key
  {
    CallAgrees(l, fields, Set(t, true));
    SetHeld(l, t);
    OnEmpty(fields, t);
    FrontOf(l, t);
    forall x | x in SetInPlace(l, t) ensures Declared(fields, x.key) {
      assert x in l || x == t;
    }
    AllDeclared(fields, SetInPlace(l, t));
    hide SetInPlace, BoxReplay, BoxSet, Holds, UniqueKeys, Inv, DeclaredOf;
    ReplayOntoPart([t], fields, SetInPlace(l, t));
    KeyInFront(SetInPlace(l, t), t);
  }

  // The desired state in place

  datatype Undo = Undo(key: Ends, prior: Option<(nat, Transform)>)

  class DesiredTransforms {
    var entries: seq<Transform>

    constructor ()
      ensures entries == [] && Inv(entries)
    {
      entries := [];
    }

    method ApplyTransform(t: Transform) returns (undo: Undo)
      modifies this
      ensures entries == SetInPlace(old(entries), t)
      ensures undo == Undo(t.key, PriorOf(old(entries), t.key))
    {
      undo := Undo(t.key, PriorOf(entries, t.key));
      var i := Find(entries, t.key);
      if i < |entries| {
        entries := entries[i := t];
      } else {
        entries := entries + [t];
      }
    }

    method ForgetTransform(k: Ends) returns (undo: Undo)
      modifies this
      ensures entries == Without(old(entries), k)
      ensures undo == Undo(k, PriorOf(old(entries), k))
    {
      undo := Undo(k, PriorOf(entries, k));
      var i := Find(entries, k);
      if i < |entries| {
        entries := entries[..i] + entries[i + 1..];
      }
    }

    method RestoreTransform(undo: Undo)
      modifies this
      ensures entries == RestoredInPlace(old(entries), undo.key, undo.prior)
    {
      if undo.prior.Some? {
        var (i, t) := undo.prior.value;
        var cur := Find(entries, undo.key);
        if cur < |entries| {
          entries := entries[cur := t];
        } else {
          var at := if i < |entries| then i else |entries|;
          entries := entries[..at] + [t] + entries[at..];
        }
      } else {
        entries := Retained(entries, undo.key);
      }
    }

    /** Validates, checks the capacity, records, sends; a frame that never left is taken back. */
    method SetTransform(t: Transform, up: bool) returns (error: Option<TransformError>)
      requires UniqueKeys(entries)
      modifies this
      ensures error == SetAnswer(old(entries), t, up)
      ensures entries == LedgerStep(old(entries), Set(t, up))
    {
      if !Admits(t.value, t.key.source, t.key.dest) {
        return Some(OpFields);
      }
      if !Holds(entries, t.key) && |entries| >= MAX_ENTRIES {
        return Some(TableFull);
      }
      UndoInPlace(entries, t);
      var undo := ApplyTransform(t);
      if up {
        return None;
      }
      RestoreTransform(undo);
      return Some(LinkDown);
    }

    method RemoveTransform(t: Transform, up: bool) returns (error: Option<TransformError>)
      requires UniqueKeys(entries)
      modifies this
      ensures error == if up then None else Some(LinkDown)
      ensures entries == LedgerStep(old(entries), Remove(t.key, up))
    {
      UndoInPlace(entries, t);
      var undo := ForgetTransform(t.key);
      if up {
        return None;
      }
      RestoreTransform(undo);
      return Some(LinkDown);
    }

    /** A clear that never left puts every entry back, one by one, in the order it was held. */
    method ClearTransforms(up: bool) returns (error: Option<TransformError>)
      requires UniqueKeys(entries)
      modifies this
      ensures error == if up then None else Some(LinkDown)
      ensures entries == LedgerStep(old(entries), Clear(up))
    {
      var held := entries;
      entries := [];
      if up {
        return None;
      }
      var i := 0;
      while i < |held|
        invariant i <= |held| && entries == held[..i]
      {
        assert !Holds(held[..i], held[i].key) by {
          HoldsIff(held[..i], held[i].key);
        }
        assert held[..i + 1] == held[..i] + [held[i]];
        var undo := ApplyTransform(held[i]);
        i := i + 1;
      }
      return Some(LinkDown);
    }
  }
}
