/** Turning snapshots of what is held into press and release edges. */
module InputPump {
  import opened Wrappers
  import opened Finite

  datatype Class = Button | Keyboard | Media
  datatype Usage = Usage(cls: Class, id: int)

  /** A filter on an input class covers both edges: one address, or the whole class. */
  datatype Filter = Filter(cls: Class, id: Option<int>)

  datatype Input = Press(usage: Usage) | Release(usage: Usage) | Motion(dx: int, dy: int, dz: int, pan: int)

  /** An edge carries the time of the report it came from. */
  datatype InputEvent = InputEvent(at: int, input: Input)

  datatype Report = Moved(at: int, dx: int, dy: int, dz: int, pan: int) | Snapshot(at: int, cls: Class, usages: seq<Usage>)
                  | Traffic

  function ClassIndex(c: Class): nat {
    match c
    case Button => 0
    case Keyboard => 1
    case Media => 2
  }

  const CLASSES := 3

  /** A usage whose own class disagrees with its snapshot's is never filed under it. */
  predicate Subscribed(filters: seq<Filter>, cls: Class, u: Usage) {
    u.cls == cls && exists f :: f in filters && f.cls == cls && (f.id.None? || f.id.value == u.id)
  }

  /** The subscribed usages of a snapshot, each once, in its order. */
  function Kept(filters: seq<Filter>, cls: Class, usages: seq<Usage>): seq<Usage> {
    if usages == [] then []
    else
      var rest, u := Kept(filters, cls, usages[..|usages| - 1]), usages[|usages| - 1];
      if Subscribed(filters, cls, u) && u !in rest then rest + [u] else rest
  }

  /** Those of `a` not in `b`, in order. */
  function Minus(a: seq<Usage>, b: seq<Usage>): seq<Usage> {
    if a == [] then []
    else
      var rest, u := Minus(a[..|a| - 1], b), a[|a| - 1];
      if u in b then rest else rest + [u]
  }

  function Releases(at: int, us: seq<Usage>): seq<InputEvent> {
    seq(|us|, i requires 0 <= i < |us| => InputEvent(at, Release(us[i])))
  }

  function Presses(at: int, us: seq<Usage>): seq<InputEvent> {
    seq(|us|, i requires 0 <= i < |us| => InputEvent(at, Press(us[i])))
  }

  /** What a report adds to the queue: releases first, so a swap reads as one up, then one down. */
  function Edges(at: int, was: seq<Usage>, now: seq<Usage>): seq<InputEvent> {
    Releases(at, Minus(was, now)) + Presses(at, Minus(now, was))
  }

  datatype Decoded = Decoded(held: seq<seq<Usage>>, queue: seq<InputEvent>)

  const FRESH := Decoded([[], [], []], [])

  function Pumped(filters: seq<Filter>, d: Decoded, r: Report): Decoded
    requires |d.held| == CLASSES
  {
    match r
    case Moved(at, dx, dy, dz, pan) =>
      if dx == 0 && dy == 0 && dz == 0 && pan == 0 then d
      else d.(queue := d.queue + [InputEvent(at, Motion(dx, dy, dz, pan))])
    case Snapshot(at, cls, usages) =>
      var slot, now := ClassIndex(cls), Kept(filters, cls, usages);
      Decoded(d.held[slot := now], d.queue + Edges(at, d.held[slot], now))
    case Traffic => d
  }

  class Stream {
    const filters: seq<Filter>
    var held: seq<seq<Usage>>
    var queue: seq<InputEvent>

    ghost predicate Valid()
      reads this
    {
      |held| == CLASSES
    }

    ghost function State(): Decoded
      reads this
    {
      Decoded(held, queue)
    }

    constructor (filters: seq<Filter>)
      ensures Valid() && State() == FRESH && this.filters == filters
    {
      this.filters := filters;
      held, queue := [[], [], []], [];
    }

    method Pump(r: Report)
      requires Valid()
      modifies this
      ensures Valid() && State() == Pumped(filters, old(State()), r)
    {
      match r {
        case Moved(at, dx, dy, dz, pan) =>
          if dx != 0 || dy != 0 || dz != 0 || pan != 0 {
            queue := queue + [InputEvent(at, Motion(dx, dy, dz, pan))];
          }
        case Snapshot(at, cls, usages) =>
          var slot := ClassIndex(cls);
          var now := Dedup(cls, usages);
          var was := held[slot];
          var up := Only(was, now);
          var down := Only(now, was);
          queue := queue + Releases(at, up) + Presses(at, down);
          assert queue == old(queue) + Edges(at, was, now);
          held := held[slot := now];
        case Traffic =>
      }
    }

    method Dedup(cls: Class, usages: seq<Usage>) returns (now: seq<Usage>)
      ensures now == Kept(filters, cls, usages)
    {
      now := [];
      var i := 0;
      assert usages[..0] == [];
      while i < |usages|
        invariant i <= |usages| && now == Kept(filters, cls, usages[..i])
      {
        assert usages[..i + 1][..i] == usages[..i];
        if Subscribed(filters, cls, usages[i]) && usages[i] !in now {
          now := now + [usages[i]];
        }
        i := i + 1;
      }
      assert usages[..i] == usages;
    }

    method Only(a: seq<Usage>, b: seq<Usage>) returns (out: seq<Usage>)
      ensures out == Minus(a, b)
    {
      out := [];
      var i := 0;
      assert a[..0] == [];
      while i < |a|
        invariant i <= |a| && out == Minus(a[..i], b)
      {
        assert a[..i + 1][..i] == a[..i];
        if a[i] !in b {
          out := out + [a[i]];
        }
        i := i + 1;
      }
      assert a[..i] == a;
    }
  }

  // What is held

  lemma {:induction false} KeptIs(filters: seq<Filter>, cls: Class, usages: seq<Usage>)
    ensures NoDuplicates(Kept(filters, cls, usages))
    ensures forall u :: u in Kept(filters, cls, usages) <==>
              u in usages && u.cls == cls && (Filter(cls, None) in filters || Filter(cls, Some(u.id)) in filters)
  {
    if usages != [] {
      var rest, u := usages[..|usages| - 1], usages[|usages| - 1];
      KeptIs(filters, cls, rest);
      assert usages == rest + [u];
    }
  }

  lemma {:induction false} MinusIs(a: seq<Usage>, b: seq<Usage>)
    ensures forall u :: u in Minus(a, b) <==> u in a && u !in b
    ensures NoDuplicates(a) ==> NoDuplicates(Minus(a, b))
  {
    if a != [] {
      var rest, u := a[..|a| - 1], a[|a| - 1];
      MinusIs(rest, b);
      assert a == rest + [u];
      if NoDuplicates(a) {
        assert u !in rest;
      }
    }
  }

  // Edges fold to what is held

  /** A usage goes down only when up and up only when down, from `down` on. */
  ghost predicate Alternates(down: set<Usage>, es: seq<InputEvent>)
    decreases |es|
  {
    es == [] || (
    match es[0].input
    case Press(u) => u !in down && Alternates(down + {u}, es[1..])
    case Release(u) => u in down && Alternates(down - {u}, es[1..])
    case Motion(_, _, _, _) => Alternates(down, es[1..]))
  }

  ghost function Folded(down: set<Usage>, es: seq<InputEvent>): set<Usage>
    decreases |es|
  {
    if es == [] then down
    else
      match es[0].input
      case Press(u) => Folded(down + {u}, es[1..])
      case Release(u) => Folded(down - {u}, es[1..])
      case Motion(_, _, _, _) => Folded(down, es[1..])
  }

  lemma {:induction false} FoldInTurn(down: set<Usage>, a: seq<InputEvent>, b: seq<InputEvent>)
    ensures Folded(down, a + b) == Folded(Folded(down, a), b)
    ensures Alternates(down, a + b) <==> Alternates(down, a) && Alternates(Folded(down, a), b)
    decreases |a|
  {
    if a == [] {
      assert a + b == b;
    } else {
      assert (a + b)[0] == a[0] && (a + b)[1..] == a[1..] + b;
      var next := match a[0].input case Press(u) => down + {u} case Release(u) => down - {u} case Motion(_, _, _, _) => down;
      FoldInTurn(next, a[1..], b);
    }
  }

  lemma {:induction false} PressesFold(down: set<Usage>, at: int, us: seq<Usage>)
    requires NoDuplicates(us) && forall u :: u in us ==> u !in down
    ensures Alternates(down, Presses(at, us)) && Folded(down, Presses(at, us)) == down + Elements(us)
    decreases |us|
  {
    if us == [] {
    } else {
      assert Presses(at, us)[1..] == Presses(at, us[1..]);
      assert us == [us[0]] + us[1..];
      assert us[0] !in us[1..];
      PressesFold(down + {us[0]}, at, us[1..]);
      assert down + Elements(us) == down + {us[0]} + Elements(us[1..]);
    }
  }

  lemma {:induction false} ReleasesFold(down: set<Usage>, at: int, us: seq<Usage>)
    requires NoDuplicates(us) && forall u :: u in us ==> u in down
    ensures Alternates(down, Releases(at, us)) && Folded(down, Releases(at, us)) == down - Elements(us)
    decreases |us|
  {
    if us == [] {
    } else {
      assert Releases(at, us)[1..] == Releases(at, us[1..]);
      assert us == [us[0]] + us[1..];
      assert us[0] !in us[1..];
      ReleasesFold(down - {us[0]}, at, us[1..]);
      assert down - Elements(us) == (down - {us[0]}) - Elements(us[1..]);
    }
  }

  /** The edges of one report take what was held to what is held, whatever else is down. */
  lemma EdgesFold(down: set<Usage>, at: int, was: seq<Usage>, now: seq<Usage>)
    requires NoDuplicates(was) && NoDuplicates(now) && Elements(was) <= down
    requires forall u :: u in now && u in down ==> u in was
    ensures Alternates(down, Edges(at, was, now))
    ensures Folded(down, Edges(at, was, now)) == (down - Elements(was)) + Elements(now)
  {
    MinusIs(was, now);
    MinusIs(now, was);
    var up, dn := Minus(was, now), Minus(now, was);
    assert forall u :: u in was ==> u in Elements(was);
    ReleasesFold(down, at, up);
    PressesFold(down - Elements(up), at, dn);
    FoldInTurn(down, Releases(at, up), Presses(at, dn));
    hide Alternates, Folded, Minus, Releases, Presses;
    assert (down - Elements(up)) + Elements(dn) == (down - Elements(was)) + Elements(now);
  }

  // Runs

  ghost function AllHeld(d: Decoded): set<Usage> {
    set i, u | 0 <= i < |d.held| && u in d.held[i] :: u
  }

  /** Each class's list holds each of its usages once, and only its own. */
  ghost predicate Filed(d: Decoded) {
    |d.held| == CLASSES && (forall i :: 0 <= i < CLASSES ==> NoDuplicates(d.held[i])) &&
    forall i, u :: 0 <= i < CLASSES && u in d.held[i] ==> ClassIndex(u.cls) == i
  }

  /** Presses and releases alternate usage by usage, and folding every edge gives what is held. */
  ghost predicate Faithful(d: Decoded) {
    Filed(d) && Alternates({}, d.queue) && Folded({}, d.queue) == AllHeld(d)
  }

  lemma HeldAfter(d: Decoded, cls: Class, now: seq<Usage>)
    requires Filed(d) && NoDuplicates(now) && forall u :: u in now ==> u.cls == cls
    ensures var slot := ClassIndex(cls);
            var after := Decoded(d.held[slot := now], d.queue);
            Filed(after) && AllHeld(after) == (AllHeld(d) - Elements(d.held[slot])) + Elements(now)
  {
    var slot := ClassIndex(cls);
    var after := Decoded(d.held[slot := now], d.queue);
    forall u ensures u in AllHeld(after) <==> u in (AllHeld(d) - Elements(d.held[slot])) + Elements(now) {
      if u in AllHeld(after) {
        var i :| 0 <= i < CLASSES && u in after.held[i];
        if i != slot {
          assert u in d.held[i];
          assert ClassIndex(u.cls) == i;
        }
      }
      if u in AllHeld(d) && u !in Elements(d.held[slot]) {
        var i :| 0 <= i < CLASSES && u in d.held[i];
        assert i != slot;
        assert u in after.held[i];
      }
      if u in now {
        assert u in after.held[slot];
      }
    }
  }

  lemma PumpKeepsFaithful(filters: seq<Filter>, d: Decoded, r: Report)
    requires Faithful(d)
    ensures Faithful(Pumped(filters, d, r))
  {
    match r {
      case Moved(at, dx, dy, dz, pan) =>
        var e := InputEvent(at, Motion(dx, dy, dz, pan));
        FoldInTurn({}, d.queue, [e]);
        assert [e][1..] == [];
      case Snapshot(at, cls, usages) =>
        SnapshotKeepsFaithful(filters, d, at, cls, usages);
      case Traffic =>
    }
  }

  lemma SnapshotKeepsFaithful(filters: seq<Filter>, d: Decoded, at: int, cls: Class, usages: seq<Usage>)
    requires Faithful(d)
    ensures Faithful(Pumped(filters, d, Snapshot(at, cls, usages)))
  {
    var slot, now := ClassIndex(cls), Kept(filters, cls, usages);
    var was := d.held[slot];
    KeptIs(filters, cls, usages);
    HeldAfter(d, cls, now);
    forall u | u in Elements(was) ensures u in AllHeld(d) {
      assert u in d.held[slot];
    }
    forall u | u in now && u in AllHeld(d) ensures u in was {
      var i :| 0 <= i < CLASSES && u in d.held[i];
      assert i == ClassIndex(u.cls) == slot;
    }
    EdgesFold(AllHeld(d), at, was, now);
    FoldInTurn({}, d.queue, Edges(at, was, now));
    hide Alternates, Folded, Edges, Kept;
  }

  function After(filters: seq<Filter>, run: seq<Report>): (d: Decoded)
    ensures |d.held| == CLASSES
  {
    if run == [] then FRESH else Pumped(filters, After(filters, run[..|run| - 1]), run[|run| - 1])
  }

  /** For every run of reports, with any of them lost on the way, press and release alternate strictly
      for each usage and the edges fold to exactly what is held. */
  lemma {:induction false} RunIsFaithful(filters: seq<Filter>, run: seq<Report>)
    ensures Faithful(After(filters, run))
  {
    if run == [] {
      assert forall i :: 0 <= i < CLASSES ==> FRESH.held[i] == [];
    } else {
      RunIsFaithful(filters, run[..|run| - 1]);
      PumpKeepsFaithful(filters, After(filters, run[..|run| - 1]), run[|run| - 1]);
    }
  }

  /** The last snapshot of a class in a run. */
  function LastOf(run: seq<Report>, cls: Class): Option<Report> {
    if run == [] then None
    else if run[|run| - 1].Snapshot? && run[|run| - 1].cls == cls then Some(run[|run| - 1])
    else LastOf(run[..|run| - 1], cls)
  }

  /** What is held of a class is the last snapshot of it that arrived, whatever was dropped before. */
  lemma {:induction false} HeldIsTheLastSnapshot(filters: seq<Filter>, run: seq<Report>, cls: Class)
    ensures After(filters, run).held[ClassIndex(cls)] ==
            match LastOf(run, cls)
            case None => []
            case Some(r) => if r.Snapshot? then Kept(filters, cls, r.usages) else []
  {
    if run != [] {
      HeldIsTheLastSnapshot(filters, run[..|run| - 1], cls);
    }
  }

  /** Two deliveries of one run, losing different reports, agree on everything held if the last snapshot
      of each class reached both. */
  lemma DropsDoNotShow(filters: seq<Filter>, a: seq<Report>, b: seq<Report>)
    requires forall cls :: LastOf(a, cls) == LastOf(b, cls)
    ensures After(filters, a).held == After(filters, b).held
  {
    forall i | 0 <= i < CLASSES ensures After(filters, a).held[i] == After(filters, b).held[i] {
      var cls := if i == 0 then Button else if i == 1 then Keyboard else Media;
      HeldIsTheLastSnapshot(filters, a, cls);
      HeldIsTheLastSnapshot(filters, b, cls);
    }
  }

  // What a report adds to the queue

  predicate IsRelease(e: InputEvent) {
    e.input.Release?
  }

  /** Whatever a report adds carries the report's time, and every release of it comes before any press. */
  lemma ReportAdds(filters: seq<Filter>, d: Decoded, r: Report)
    requires |d.held| == CLASSES
    ensures d.queue <= Pumped(filters, d, r).queue
    ensures var added := Pumped(filters, d, r).queue[|d.queue|..];
            (forall e :: e in added ==> !r.Traffic? && e.at == r.at) &&
            (forall i, j :: 0 <= i < j < |added| && IsRelease(added[j]) ==> IsRelease(added[i]))
  {
    match r {
      case Moved(at, dx, dy, dz, pan) =>
      case Snapshot(at, cls, usages) =>
        var was, now := d.held[ClassIndex(cls)], Kept(filters, cls, usages);
        assert (d.queue + Edges(at, was, now))[|d.queue|..] == Edges(at, was, now);
        hide Minus, Kept;
      case Traffic =>
    }
  }

  /** The motions of a queue, with their times. */
  function Motions(es: seq<InputEvent>): seq<(int, (int, int, int, int))> {
    if es == [] then []
    else
      var last := es[|es| - 1];
      Motions(es[..|es| - 1]) +
      if last.input.Motion? then [(last.at, (last.input.dx, last.input.dy, last.input.dz, last.input.pan))] else []
  }

  /** The motion reports of a run that moved anything. */
  function Moves(run: seq<Report>): seq<(int, (int, int, int, int))> {
    if run == [] then []
    else
      var last := run[|run| - 1];
      Moves(run[..|run| - 1]) +
      if last.Moved? && (last.dx, last.dy, last.dz, last.pan) != (0, 0, 0, 0) then
        [(last.at, (last.dx, last.dy, last.dz, last.pan))]
      else []
  }

  lemma {:induction false} MotionsInTurn(a: seq<InputEvent>, b: seq<InputEvent>)
    ensures Motions(a + b) == Motions(a) + Motions(b)
    decreases |b|
  {
    if b == [] {
      assert a + b == a;
    } else {
      assert (a + b)[..|a + b| - 1] == a + b[..|b| - 1];
      MotionsInTurn(a, b[..|b| - 1]);
    }
  }

  lemma {:induction false} NoMotions(es: seq<InputEvent>)
    requires forall e :: e in es ==> !e.input.Motion?
    ensures Motions(es) == []
  {
    if es != [] {
      assert es[|es| - 1] in es;
      NoMotions(es[..|es| - 1]);
    }
  }

  lemma PumpAddsMotion(filters: seq<Filter>, d: Decoded, r: Report)
    requires |d.held| == CLASSES
    ensures Motions(Pumped(filters, d, r).queue) == Motions(d.queue) + Moves([r])
  {
    assert Moves([]) == [] && [r][..0] == [];
    match r {
      case Moved(at, dx, dy, dz, pan) =>
        var e := InputEvent(at, Motion(dx, dy, dz, pan));
        MotionsInTurn(d.queue, [e]);
        assert Motions([]) == [] && [e][..0] == [];
      case Snapshot(at, cls, usages) =>
        var was, now := d.held[ClassIndex(cls)], Kept(filters, cls, usages);
        MotionsInTurn(d.queue, Edges(at, was, now));
        NoMotions(Edges(at, was, now));
      case Traffic =>
    }
  }

  /** Over every run the motions queued are exactly the reports that moved anything, in order, each with
      its time and on every axis as reported. */
  lemma {:induction false} MotionsAreTheMoves(filters: seq<Filter>, run: seq<Report>)
    ensures Motions(After(filters, run).queue) == Moves(run)
  {
    if run != [] {
      var r := run[|run| - 1];
      MotionsAreTheMoves(filters, run[..|run| - 1]);
      PumpAddsMotion(filters, After(filters, run[..|run| - 1]), r);
      assert Moves([]) == [] && [r][..0] == [];
      hide Pumped, Motions;
    }
  }
}
