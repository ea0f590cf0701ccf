/** Moving the box's subscription table from one union to the next by a diff of `CATCH` frames, and
    back again when the diff could not be sent whole. */
module CatchSync {
  import opened CatchTable
  import opened Finite

  /** Entries the box's table holds; it drops a new entry past them without a reply. */
  const TABLE_MAX := 32

  /** The id that stands for every id of a class in a frame. */
  const ID_ANY := 0xFFFF

  /** An exact address at the every-id sentinel. */
  predicate Reserved(k: Key) {
    k.at.Exact? && k.at.id == ID_ANY
  }

  /** The address a frame carries: an exact address at the sentinel is byte for byte its class. */
  function Wire(k: Key): Key {
    if Reserved(k) then Key(ClassOf(k.at.cls), k.dir) else k
  }

  ghost predicate Plain(keys: set<Key>) {
    forall k :: k in keys ==> !Reserved(k)
  }

  /** One `CATCH` frame: subscribe (`on`) or unsubscribe an address. */
  datatype Frame = Frame(key: Key, on: bool, capture: Capture)

  /** Unsubscribing the wildcard is byte for byte "clear the whole table", whatever the direction. */
  const CLEAR_ALL := Frame(Key(Everything, Both), false, Whole)

  function BoxTake(box: FilterSet, f: Frame): FilterSet {
    var k := Wire(f.key);
    if !f.on then
      if k.at.Everything? then map[] else box - {k}
    else if k in box || |box| < TABLE_MAX then box[k := f.capture]
    else box
  }

  function BoxRun(box: FilterSet, frames: seq<Frame>): FilterSet {
    if frames == [] then box
    else BoxTake(BoxRun(box, frames[..|frames| - 1]), frames[|frames| - 1])
  }

  lemma BoxRunStep(box: FilterSet, frames: seq<Frame>, i: nat)
    requires 0 < i <= |frames|
    ensures BoxRun(box, frames[..i]) == BoxTake(BoxRun(box, frames[..i - 1]), frames[i - 1])
  {
    assert frames[..i][..i - 1] == frames[..i - 1];
  }

  /** The box never holds more than its ceiling, nor an entry at the sentinel. */
  lemma {:induction false} BoxStaysBounded(box: FilterSet, frames: seq<Frame>)
    requires |box| <= TABLE_MAX && Plain(box.Keys)
    ensures |BoxRun(box, frames)| <= TABLE_MAX && Plain(BoxRun(box, frames).Keys)
  {
    if frames != [] {
      var before := BoxRun(box, frames[..|frames| - 1]);
      var f := frames[|frames| - 1];
      BoxStaysBounded(box, frames[..|frames| - 1]);
      if !f.on {
        SubsetSize((before - {Wire(f.key)}).Keys, before.Keys);
      } else if Wire(f.key) in before {
        assert before[Wire(f.key) := f.capture].Keys == before.Keys;
      } else {
        assert before[Wire(f.key) := f.capture].Keys == before.Keys + {Wire(f.key)};
      }
    }
  }

  // The diff

  /** One diff: its frames, and the orders in which it names the removed and the new entries. */
  datatype Diff = Diff(drops: seq<Key>, adds: seq<Key>, frames: seq<Frame>)

  predicate WildcardRemoved(prev: FilterSet, next: FilterSet) {
    exists k :: k in prev && k.at.Everything? && k !in next
  }

  ghost function Dropped(prev: FilterSet, next: FilterSet): set<Key> {
    set k | k in prev && k !in next && !k.at.Everything?
  }

  ghost function Added(prev: FilterSet, next: FilterSet): set<Key> {
    set k | k in next && (WildcardRemoved(prev, next) || k !in prev || prev[k] != next[k])
  }

  /** Entries the diff never names: in both tables at one capture. */
  ghost function Kept(prev: FilterSet, next: FilterSet): set<Key> {
    set k | k in prev && k in next && prev[k] == next[k]
  }

  function Off(prev: FilterSet, k: Key): Frame {
    Frame(k, false, if k in prev then prev[k] else Whole)
  }

  function On(next: FilterSet, k: Key): Frame {
    Frame(k, true, if k in next then next[k] else Whole)
  }

  /** Frames of the diff ahead of the first subscribe. */
  ghost function HeadLength(prev: FilterSet, next: FilterSet, d: Diff): nat {
    |d.drops| + if WildcardRemoved(prev, next) then 1 else 0
  }

  /** The frames are the removals in the order `drops`, the whole-table clear if the wildcard went,
      then the new and changed entries in the order `adds`. */
  ghost predicate Sends(d: Diff, prev: FilterSet, next: FilterSet) {
    var h := HeadLength(prev, next, d);
    |d.frames| == h + |d.adds| &&
    (forall i :: 0 <= i < |d.drops| ==> d.frames[i] == Off(prev, d.drops[i])) &&
    (WildcardRemoved(prev, next) ==> d.frames[|d.drops|] == CLEAR_ALL) &&
    (forall j :: h <= j < |d.frames| ==> d.frames[j] == On(next, d.adds[j - h]))
  }

  /** `d` is a diff from `prev` to `next`, naming each entry that differs once. */
  ghost predicate Moves(d: Diff, prev: FilterSet, next: FilterSet) {
    Elements(d.drops) == Dropped(prev, next) && Elements(d.adds) == Added(prev, next) &&
    NoDuplicates(d.drops) && NoDuplicates(d.adds) && Sends(d, prev, next)
  }

  lemma OneMoreElement<T>(s: seq<T>, x: T)
    requires NoDuplicates(s) && x !in Elements(s)
    ensures NoDuplicates(s + [x]) && Elements(s + [x]) == Elements(s) + {x}
  {
  }

  lemma NoElements<T>()
    ensures NoDuplicates<T>([]) && Elements<T>([]) == {}
  {
  }

  lemma Assembled(prev: FilterSet, next: FilterSet, d: Diff, head: seq<Frame>)
    requires Elements(d.drops) == Dropped(prev, next) && Elements(d.adds) == Added(prev, next)
    requires NoDuplicates(d.drops) && NoDuplicates(d.adds)
    requires |head| == HeadLength(prev, next, d) && |d.frames| == |head| + |d.adds| && d.frames[..|head|] == head
    requires forall i :: 0 <= i < |d.drops| ==> head[i] == Off(prev, d.drops[i])
    requires WildcardRemoved(prev, next) ==> head[|d.drops|] == CLEAR_ALL
    requires forall j :: |head| <= j < |d.frames| ==> d.frames[j] == On(next, d.adds[j - |head|])
    ensures Moves(d, prev, next)
  {
    assert forall i :: 0 <= i < |head| ==> d.frames[i] == d.frames[..|head|][i];
  }

  /** Sends only the changes: removals first, then the whole-table clear if the wildcard went, then
      the new and the changed entries. */
  method Differences(prev: FilterSet, next: FilterSet) returns (frames: seq<Frame>, ghost d: Diff)
    ensures Moves(d, prev, next) && d.frames == frames
  {
    hide Elements, NoDuplicates, Off, On, Moves, WildcardRemoved;
    frames := [];
    ghost var drops, adds := [], [];
    var wildcard := WildcardRemoved(prev, next);
    var todo := prev.Keys;
    NoElements<Key>();
    while todo != {}
      invariant todo <= prev.Keys
      invariant Elements(drops) == Dropped(prev, next) - todo && NoDuplicates(drops)
      invariant |frames| == |drops| && forall i :: 0 <= i < |drops| ==> frames[i] == Off(prev, drops[i])
      decreases todo
    {
      var k :| k in todo;
      todo := todo - {k};
      if k !in next && k.at.Everything? {
        WildcardIs(prev, next, k);
      }
      if k !in next && !(k.at.Everything? && wildcard) {
        frames := frames + [Off(prev, k)];
        OneMoreElement(drops, k);
        drops := drops + [k];
      }
    }
    if wildcard {
      frames := frames + [CLEAR_ALL];
    }
    ghost var head := frames;
    todo := next.Keys;
    while todo != {}
      invariant todo <= next.Keys
      invariant Elements(adds) == Added(prev, next) - todo && NoDuplicates(adds)
      invariant |frames| == |head| + |adds| && frames[..|head|] == head
      invariant forall j :: |head| <= j < |frames| ==> frames[j] == On(next, adds[j - |head|])
      decreases todo
    {
      var k :| k in todo;
      todo := todo - {k};
      if wildcard || k !in prev || prev[k] != next[k] {
        frames := frames + [On(next, k)];
        OneMoreElement(adds, k);
        adds := adds + [k];
      }
    }
    d := Diff(drops, adds, frames);
    Assembled(prev, next, d, head);
  }

  lemma WildcardIs(prev: FilterSet, next: FilterSet, k: Key)
    requires k in prev && k !in next && k.at.Everything?
    ensures WildcardRemoved(prev, next)
  {
  }

  /** What a sync sends, and where it takes a box that holds `prev`. */
  method Sync(prev: FilterSet, next: FilterSet) returns (frames: seq<Frame>, ghost d: Diff)
    ensures Moves(d, prev, next) && d.frames == frames
    ensures |next| <= TABLE_MAX && Plain(prev.Keys) ==> (BoxRun(prev, frames) == next <==> Plain(next.Keys))
  {
    frames, d := Differences(prev, next);
    hide Moves, BoxRun, Plain;
    if |next| <= TABLE_MAX && Plain(prev.Keys) {
      DiffReaches(prev, next, d);
    }
  }

  // What a prefix of the diff leaves on the box

  /** The entries of the box that frames naming `keys` reach. */
  ghost function OnWire(keys: set<Key>): set<Key> {
    set k | k in keys :: Wire(k)
  }

  lemma OnWireOfPlain(keys: set<Key>)
    requires Plain(keys)
    ensures OnWire(keys) == keys
  {
    forall k | k in keys ensures k in OnWire(keys) {
      assert Wire(k) == k;
    }
  }

  lemma OnWirePlus(keys: set<Key>, k: Key)
    ensures OnWire(keys + {k}) == OnWire(keys) + {Wire(k)}
  {
    forall w | w in OnWire(keys) + {Wire(k)} ensures w in OnWire(keys + {k}) {
      var a :| a in keys + {k} && Wire(a) == w;
    }
  }

  lemma {:induction false} OnWireSize(keys: set<Key>)
    ensures |OnWire(keys)| <= |keys|
    decreases keys
  {
    if keys == {} {
      assert OnWire(keys) == {};
    } else {
      var k :| k in keys;
      OnWireSize(keys - {k});
      OnWirePlus(keys - {k}, k);
      assert keys - {k} + {k} == keys;
    }
  }

  /** What the removals leave of whatever the box held. */
  ghost function Base(box: FilterSet, prev: FilterSet, next: FilterSet): FilterSet {
    if WildcardRemoved(prev, next) then map[] else box - OnWire(Dropped(prev, next))
  }

  /** `now` is `base` with the entries `keys` of `next` subscribed on top. */
  ghost predicate Extends(now: FilterSet, base: FilterSet, next: FilterSet, keys: set<Key>) {
    now.Keys == base.Keys + OnWire(keys) &&
    (forall k :: k in base && k !in OnWire(keys) ==> now[k] == base[k]) &&
    (forall k :: k in OnWire(keys) ==> exists a :: a in keys && a in next && Wire(a) == k && next[a] == now[k])
  }

  lemma ExtendOne(now: FilterSet, base: FilterSet, next: FilterSet, keys: set<Key>, k: Key)
    requires Extends(now, base, next, keys) && k in next && (Wire(k) in now || |now| < TABLE_MAX)
    ensures Extends(BoxTake(now, On(next, k)), base, next, keys + {k})
  {
    OnWirePlus(keys, k);
    var taken := BoxTake(now, On(next, k));
    assert taken == now[Wire(k) := next[k]];
    forall w | w in OnWire(keys + {k})
      ensures exists a :: a in keys + {k} && a in next && Wire(a) == w && next[a] == taken[w]
    {
      if w == Wire(k) {
        assert k in keys + {k};
      } else {
        var a :| a in keys && a in next && Wire(a) == w && next[a] == now[w];
        assert a in keys + {k};
      }
    }
  }

  lemma Room(now: FilterSet, next: FilterSet, k: Key)
    requires now.Keys <= OnWire(next.Keys) && k in next && |next| <= TABLE_MAX
    ensures Wire(k) in now || |now| < TABLE_MAX
  {
    OnWireSize(next.Keys);
    assert Wire(k) in OnWire(next.Keys);
    if Wire(k) !in now {
      SubsetSize(now.Keys, OnWire(next.Keys) - {Wire(k)});
    }
  }

  lemma OnWireSubset(a: set<Key>, b: set<Key>)
    requires a <= b
    ensures OnWire(a) <= OnWire(b)
  {
  }

  lemma TakeOneMore<T>(s: seq<T>, j: nat)
    requires 0 < j <= |s|
    ensures s[..j] == s[..j - 1] + [s[j - 1]]
    ensures Elements(s[..j]) == Elements(s[..j - 1]) + {s[j - 1]}
    ensures Elements(s[..j]) <= Elements(s)
  {
    assert s[..j] == s[..j - 1] + [s[j - 1]];
  }

  lemma OneFewer(box: FilterSet, keys: set<Key>, k: Key)
    ensures (box - keys) - {k} == box - (keys + {k})
  {
  }

  lemma NothingDropped(box: FilterSet, d: Diff)
    ensures box - OnWire(Elements(d.drops[..0])) == box
  {
    assert OnWire(Elements(d.drops[..0])) == {};
  }

  lemma DropFrame(prev: FilterSet, next: FilterSet, d: Diff, i: nat)
    requires Moves(d, prev, next) && 0 < i <= |d.drops|
    ensures i <= |d.frames| && d.frames[i - 1] == Off(prev, d.drops[i - 1]) && !d.drops[i - 1].at.Everything?
  {
    assert d.drops[i - 1] in Elements(d.drops);
  }

  lemma UnsubscribeTaken(box: FilterSet, prev: FilterSet, k: Key)
    requires !k.at.Everything?
    ensures BoxTake(box, Off(prev, k)) == box - {Wire(k)}
  {
  }

  lemma {:induction false} PrefixOfDrops(box: FilterSet, prev: FilterSet, next: FilterSet, d: Diff, i: nat)
    requires Moves(d, prev, next) && i <= |d.drops|
    ensures i <= |d.frames| && BoxRun(box, d.frames[..i]) == box - OnWire(Elements(d.drops[..i]))
    decreases i
  {
    hide Moves, Elements, OnWire, BoxTake;
    if i == 0 {
      NothingDropped(box, d);
    } else {
      PrefixOfDrops(box, prev, next, d, i - 1);
      DropFrame(prev, next, d, i);
      hide BoxRun;
      BoxRunStep(box, d.frames, i);
      TakeOneMore(d.drops, i);
      OnWirePlus(Elements(d.drops[..i - 1]), d.drops[i - 1]);
      UnsubscribeTaken(box - OnWire(Elements(d.drops[..i - 1])), prev, d.drops[i - 1]);
      OneFewer(box, OnWire(Elements(d.drops[..i - 1])), Wire(d.drops[i - 1]));
    }
  }

  lemma HeadFrames(prev: FilterSet, next: FilterSet, d: Diff)
    requires Moves(d, prev, next)
    ensures Elements(d.drops[..|d.drops|]) == Dropped(prev, next) && HeadLength(prev, next, d) <= |d.frames|
    ensures WildcardRemoved(prev, next) ==> d.frames[|d.drops|] == CLEAR_ALL
  {
    assert d.drops[..|d.drops|] == d.drops;
  }

  lemma ClearTaken(box: FilterSet)
    ensures BoxTake(box, CLEAR_ALL) == map[]
  {
  }

  lemma AfterHead(box: FilterSet, prev: FilterSet, next: FilterSet, d: Diff)
    requires Moves(d, prev, next)
    ensures HeadLength(prev, next, d) <= |d.frames|
    ensures BoxRun(box, d.frames[..HeadLength(prev, next, d)]) == Base(box, prev, next)
  {
    hide Moves, Elements, OnWire, BoxTake, Dropped, WildcardRemoved;
    HeadFrames(prev, next, d);
    PrefixOfDrops(box, prev, next, d, |d.drops|);
    hide BoxRun;
    if WildcardRemoved(prev, next) {
      BoxRunStep(box, d.frames, |d.drops| + 1);
      ClearTaken(BoxRun(box, d.frames[..|d.drops|]));
    }
  }

  lemma NothingAdded(base: FilterSet, next: FilterSet, d: Diff)
    ensures Elements(d.adds[..0]) == {} && Extends(base, base, next, {})
  {
    assert OnWire({}) == {};
  }

  lemma AddFrame(prev: FilterSet, next: FilterSet, d: Diff, j: nat)
    requires Moves(d, prev, next) && 0 < j <= |d.adds|
    ensures HeadLength(prev, next, d) + j <= |d.frames|
    ensures d.frames[HeadLength(prev, next, d) + j - 1] == On(next, d.adds[j - 1]) && d.adds[j - 1] in next
  {
    assert d.adds[j - 1] in Elements(d.adds);
  }

  lemma AddsAreNew(prev: FilterSet, next: FilterSet, d: Diff, j: nat)
    requires Moves(d, prev, next) && j <= |d.adds|
    ensures Elements(d.adds[..j]) <= Elements(d.adds) == Added(prev, next) && Elements(d.adds[..j]) <= next.Keys
    ensures HeadLength(prev, next, d) + j <= |d.frames|
    ensures forall k :: k in OnWire(Elements(d.adds[..j])) ==> k in OnWire(next.Keys)
  {
    forall k | k in Elements(d.adds[..j]) ensures k in Added(prev, next) {
      assert k in Elements(d.adds);
    }
    OnWireSubset(Elements(d.adds[..j]), next.Keys);
  }

  lemma AddStep(now: FilterSet, base: FilterSet, prev: FilterSet, next: FilterSet, d: Diff, j: nat)
    requires Moves(d, prev, next) && 0 < j <= |d.adds| && |next| <= TABLE_MAX
    requires base.Keys <= OnWire(next.Keys) && Extends(now, base, next, Elements(d.adds[..j - 1]))
    ensures Extends(BoxTake(now, On(next, d.adds[j - 1])), base, next, Elements(d.adds[..j]))
  {
    AddsAreNew(prev, next, d, j - 1);
    AddFrame(prev, next, d, j);
    TakeOneMore(d.adds, j);
    assert now.Keys <= OnWire(next.Keys);
    hide Moves, Elements, OnWire, BoxTake;
    Room(now, next, d.adds[j - 1]);
    ExtendOne(now, base, next, Elements(d.adds[..j - 1]), d.adds[j - 1]);
  }

  /** After the first `j` subscribes of the diff, the box is its base with those entries on top. */
  lemma {:induction false} PrefixOfAdds(box: FilterSet, prev: FilterSet, next: FilterSet, d: Diff, j: nat)
    requires Moves(d, prev, next) && j <= |d.adds| && |next| <= TABLE_MAX
    requires Base(box, prev, next).Keys <= OnWire(next.Keys)
    ensures HeadLength(prev, next, d) + j <= |d.frames|
    ensures Extends(BoxRun(box, d.frames[..HeadLength(prev, next, d) + j]), Base(box, prev, next), next,
                    Elements(d.adds[..j]))
    decreases j
  {
    hide Moves, BoxRun, Base, Extends, Elements, OnWire, HeadLength;
    if j == 0 {
      AfterHead(box, prev, next, d);
      NothingAdded(Base(box, prev, next), next, d);
    } else {
      PrefixOfAdds(box, prev, next, d, j - 1);
      AddFrame(prev, next, d, j);
      var i := HeadLength(prev, next, d) + j;
      BoxRunStep(box, d.frames, i);
      AddStep(BoxRun(box, d.frames[..i - 1]), Base(box, prev, next), prev, next, d, j);
    }
  }

  lemma BaseKeys(prev: FilterSet, next: FilterSet)
    requires Plain(prev.Keys)
    ensures Base(prev, prev, next).Keys <= next.Keys
    ensures Base(prev, prev, next).Keys <= OnWire(next.Keys)
    ensures !WildcardRemoved(prev, next) ==> Base(prev, prev, next) == prev - Dropped(prev, next)
  {
    OnWireOfPlain(Dropped(prev, next));
    OnWireOfPlain(Base(prev, prev, next).Keys);
    OnWireSubset(Base(prev, prev, next).Keys, next.Keys);
  }

  lemma BoxStaysPlain(now: FilterSet, base: FilterSet, next: FilterSet, keys: set<Key>)
    requires Extends(now, base, next, keys) && Plain(base.Keys)
    ensures Plain(now.Keys)
  {
  }

  lemma ExtendsPlain(now: FilterSet, base: FilterSet, next: FilterSet, keys: set<Key>)
    requires Extends(now, base, next, keys) && Plain(keys) && keys <= next.Keys
    ensures now.Keys == base.Keys + keys
    ensures forall k :: k in keys ==> now[k] == next[k]
    ensures forall k :: k in base && k !in keys ==> now[k] == base[k]
  {
    OnWireOfPlain(keys);
    forall k | k in keys ensures now[k] == next[k] {
      assert k in OnWire(keys);
    }
  }

  lemma AllAdded(now: FilterSet, prev: FilterSet, next: FilterSet)
    requires Extends(now, Base(prev, prev, next), next, Added(prev, next)) && Plain(prev.Keys)
    ensures now == next <==> Plain(next.Keys)
  {
    var base, added := Base(prev, prev, next), Added(prev, next);
    BaseKeys(prev, next);
    if Plain(next.Keys) {
      ExtendsPlain(now, base, next, added);
      assert now.Keys == next.Keys;
    } else {
      BoxStaysPlain(now, base, next, added);
    }
  }

  lemma WholeDiff(box: FilterSet, prev: FilterSet, next: FilterSet, d: Diff)
    requires Moves(d, prev, next) && |next| <= TABLE_MAX
    requires Base(box, prev, next).Keys <= OnWire(next.Keys)
    ensures Extends(BoxRun(box, d.frames), Base(box, prev, next), next, Added(prev, next))
  {
    hide BoxRun, Base, Extends, OnWire;
    PrefixOfAdds(box, prev, next, d, |d.adds|);
    assert d.adds[..|d.adds|] == d.adds && d.frames[..|d.frames|] == d.frames;
  }

  /** The whole diff takes a box holding `prev` to exactly `next`, unless `next` names the sentinel. */
  lemma DiffReaches(prev: FilterSet, next: FilterSet, d: Diff)
    requires Moves(d, prev, next) && |next| <= TABLE_MAX && Plain(prev.Keys)
    ensures BoxRun(prev, d.frames) == next <==> Plain(next.Keys)
  {
    hide Moves, BoxRun, Base, Extends, OnWire, Added, Plain;
    BaseKeys(prev, next);
    WholeDiff(prev, prev, next, d);
    AllAdded(BoxRun(prev, d.frames), prev, next);
  }

  /** A table that frames for entries of `whole` could fill, and no larger. */
  ghost predicate Within(part: FilterSet, whole: FilterSet) {
    part.Keys <= OnWire(whole.Keys) && |part| <= |whole|
  }

  lemma WithinWhole(part: FilterSet, whole: FilterSet)
    requires part.Keys <= OnWire(whole.Keys)
    ensures Within(part, whole)
  {
    SubsetSize(part.Keys, OnWire(whole.Keys));
    OnWireSize(whole.Keys);
  }

  lemma DropsShrink(prev: FilterSet, next: FilterSet, d: Diff, i: nat)
    requires Moves(d, prev, next) && Plain(prev.Keys) && i <= |d.drops|
    ensures i <= |d.frames| && Within(BoxRun(prev, d.frames[..i]), prev)
  {
    hide Moves, BoxRun, Within, Elements;
    PrefixOfDrops(prev, prev, next, d, i);
    OnWireOfPlain(prev.Keys);
    WithinWhole(BoxRun(prev, d.frames[..i]), prev);
  }

  lemma AddsFit(prev: FilterSet, next: FilterSet, d: Diff, j: nat)
    requires Moves(d, prev, next) && |next| <= TABLE_MAX && Plain(prev.Keys) && j <= |d.adds|
    ensures HeadLength(prev, next, d) + j <= |d.frames|
    ensures Within(BoxRun(prev, d.frames[..HeadLength(prev, next, d) + j]), next)
  {
    hide Moves, BoxRun, Within, Base, Elements, OnWire;
    BaseKeys(prev, next);
    PrefixOfAdds(prev, prev, next, d, j);
    AddsAreNew(prev, next, d, j);
    WithinWhole(BoxRun(prev, d.frames[..HeadLength(prev, next, d) + j]), next);
  }

  /** Every intermediate table is part of one of the two ends, so none is larger than both. */
  lemma PrefixNeverOverflows(prev: FilterSet, next: FilterSet, d: Diff, i: nat)
    requires Moves(d, prev, next) && |next| <= TABLE_MAX && Plain(prev.Keys) && i <= |d.frames|
    ensures Within(BoxRun(prev, d.frames[..i]), prev) || Within(BoxRun(prev, d.frames[..i]), next)
  {
    hide BoxRun, Within, Elements, Dropped, Added;
    if i <= |d.drops| {
      DropsShrink(prev, next, d, i);
    } else {
      AddsFit(prev, next, d, i - HeadLength(prev, next, d));
    }
  }

  lemma FrameCount(prev: FilterSet, next: FilterSet, d: Diff)
    requires Moves(d, prev, next)
    ensures Sends(d, prev, next) && |d.frames| == HeadLength(prev, next, d) + |d.adds|
    ensures NoDuplicates(d.drops) && NoDuplicates(d.adds)
  {
  }

  lemma NotSentYet<T>(s: seq<T>, j: nat)
    requires NoDuplicates(s) && j < |s|
    ensures s[j] !in Elements(s[..j]) && s[j] in Elements(s)
  {
  }

  lemma CutInDrops(prev: FilterSet, next: FilterSet, d: Diff, i: nat)
    requires Moves(d, prev, next) && Plain(prev.Keys) && i <= |d.drops| && i < HeadLength(prev, next, d)
    ensures i <= |d.frames| && BoxRun(prev, d.frames[..i]) != next
  {
    PrefixOfDrops(prev, prev, next, d, i);
    var gone := Elements(d.drops[..i]);
    forall k | k in gone ensures k in Dropped(prev, next) {
      assert k in Elements(d.drops);
    }
    OnWireOfPlain(gone);
    hide BoxRun, OnWire;
    if i < |d.drops| {
      NotSentYet(d.drops, i);
    } else {
      var k :| k in prev && k.at.Everything? && k !in next;
      assert k !in gone;
    }
  }

  lemma AddPending(now: FilterSet, prev: FilterSet, next: FilterSet, sent: set<Key>, k: Key)
    requires Extends(now, Base(prev, prev, next), next, sent) && Plain(prev.Keys)
    requires sent <= next.Keys && k in Added(prev, next) && k !in sent
    ensures now != next
  {
    BaseKeys(prev, next);
    if Plain(next.Keys) {
      ExtendsPlain(now, Base(prev, prev, next), next, sent);
    } else {
      BoxStaysPlain(now, Base(prev, prev, next), next, sent);
    }
  }

  /** A diff cut short anywhere leaves the box off the table it was moving to. */
  lemma CutNeverReaches(prev: FilterSet, next: FilterSet, d: Diff, i: nat)
    requires Moves(d, prev, next) && |next| <= TABLE_MAX && Plain(prev.Keys) && i < |d.frames|
    ensures BoxRun(prev, d.frames[..i]) != next
  {
    hide BoxRun, Base, Extends, OnWire, Elements, Added, Moves, Plain, Sends, NoDuplicates;
    FrameCount(prev, next, d);
    if i < HeadLength(prev, next, d) {
      CutInDrops(prev, next, d, i);
    } else {
      var j := i - HeadLength(prev, next, d);
      BaseKeys(prev, next);
      PrefixOfAdds(prev, prev, next, d, j);
      AddsAreNew(prev, next, d, j);
      NotSentYet(d.adds, j);
      AddPending(BoxRun(prev, d.frames[..i]), prev, next, Elements(d.adds[..j]), d.adds[j]);
    }
  }

  // Taking a partly sent diff back

  /** Entries on which the box is off the table it should hold. */
  ghost function Disturbed(prev: FilterSet, box: FilterSet): set<Key> {
    set k | k in prev.Keys + box.Keys && !(k in prev && k in box && prev[k] == box[k])
  }

  ghost function SentDrops(d: Diff, i: nat): set<Key> {
    Elements(d.drops[..if i < |d.drops| then i else |d.drops|])
  }

  ghost function SentAdds(prev: FilterSet, next: FilterSet, d: Diff, i: nat): set<Key>
    requires i <= HeadLength(prev, next, d) + |d.adds|
  {
    Elements(d.adds[..if i <= HeadLength(prev, next, d) then 0 else i - HeadLength(prev, next, d)])
  }

  /** Frames that unsubscribe `gone` and subscribe `again` put right every entry the box has wrong, and
      unsubscribe none of `prev` for good. */
  ghost predicate Corrects(prev: FilterSet, box: FilterSet, gone: set<Key>, again: set<Key>) {
    (forall k :: k in Disturbed(prev, box) ==> k in again || (k in gone && k !in prev)) &&
    (forall k :: k in gone && k in prev ==> k in again)
  }

  /** When the first `m` frames of the way back put a box that got part of the way to `next` right
      again: once they clear the table, only all of them do. */
  ghost predicate TakenBack(prev: FilterSet, next: FilterSet, box: FilterSet, back: Diff, m: nat)
    requires Sends(back, next, prev) && m <= |back.frames|
  {
    if WildcardRemoved(next, prev) && m > |back.drops| then m == |back.frames|
    else Corrects(prev, box, OnWire(SentDrops(back, m)), SentAdds(next, prev, back, m))
  }

  lemma OverlaidIff(now: FilterSet, box: FilterSet, prev: FilterSet, gone: set<Key>, again: set<Key>)
    requires again <= prev.Keys && now.Keys == (box.Keys - gone) + again
    requires forall k :: k in again ==> now[k] == prev[k]
    requires forall k :: k in now && k !in again ==> now[k] == box[k]
    ensures now == prev <==> Corrects(prev, box, gone, again)
  {
    if now == prev {
      forall k | k in Disturbed(prev, box) ensures k in again || (k in gone && k !in prev) {
        assert k in now <==> k in prev;
      }
      forall k | k in gone && k in prev ensures k in again {
        assert k in now;
      }
    }
    if Corrects(prev, box, gone, again) {
      forall k: Key ensures k in now <==> k in prev {
        assert k in Disturbed(prev, box) || (k in prev <==> k in box);
      }
      forall k | k in prev ensures now[k] == prev[k] {
        assert k in Disturbed(prev, box) || k in box;
      }
    }
  }

  lemma BackBase(box: FilterSet, prev: FilterSet, next: FilterSet)
    requires Plain(prev.Keys) && box.Keys <= prev.Keys + OnWire(next.Keys)
    ensures Base(box, next, prev).Keys <= OnWire(prev.Keys)
  {
    OnWireOfPlain(prev.Keys);
    if !WildcardRemoved(next, prev) {
      forall k | k in box && k !in OnWire(Dropped(next, prev)) ensures k in prev {
        if k in OnWire(next.Keys) {
          var a :| a in next && Wire(a) == k;
          assert a in Dropped(next, prev) || a in prev;
        }
      }
    }
  }

  lemma BackInDrops(box: FilterSet, prev: FilterSet, next: FilterSet, back: Diff, m: nat)
    requires Moves(back, next, prev) && m <= |back.drops|
    ensures m <= |back.frames|
    ensures BoxRun(box, back.frames[..m]) == prev <==> TakenBack(prev, next, box, back, m)
  {
    hide BoxRun, OnWire;
    PrefixOfDrops(box, next, prev, back, m);
    var gone := OnWire(SentDrops(back, m));
    assert SentAdds(next, prev, back, m) == {};
    OverlaidIff(box - gone, box, prev, gone, {});
  }

  lemma AllDropsSent(next: FilterSet, prev: FilterSet, back: Diff, m: nat)
    requires Moves(back, next, prev) && HeadLength(next, prev, back) <= m <= |back.frames|
    ensures SentDrops(back, m) == Dropped(next, prev)
    ensures m - HeadLength(next, prev, back) <= |back.adds|
    ensures SentAdds(next, prev, back, m) == Elements(back.adds[..m - HeadLength(next, prev, back)])
  {
    assert back.drops[..|back.drops|] == back.drops;
  }

  lemma BackOverlaid(now: FilterSet, box: FilterSet, prev: FilterSet, next: FilterSet, again: set<Key>)
    requires Extends(now, Base(box, next, prev), prev, again) && again <= prev.Keys && Plain(prev.Keys)
    requires !WildcardRemoved(next, prev)
    ensures now == prev <==> Corrects(prev, box, OnWire(Dropped(next, prev)), again)
  {
    hide Corrects, OnWire;
    PlainPart(again, prev.Keys);
    ExtendsPlain(now, Base(box, next, prev), prev, again);
    hide Extends, Plain;
    OverlaidIff(now, box, prev, OnWire(Dropped(next, prev)), again);
  }

  lemma TakenBackInAdds(box: FilterSet, prev: FilterSet, next: FilterSet, back: Diff, j: nat)
    requires Moves(back, next, prev) && !WildcardRemoved(next, prev) && 0 < j && |back.drops| + j <= |back.frames|
    ensures j <= |back.adds| && HeadLength(next, prev, back) == |back.drops|
    ensures TakenBack(prev, next, box, back, |back.drops| + j) <==>
            Corrects(prev, box, OnWire(Dropped(next, prev)), Elements(back.adds[..j]))
  {
    hide Corrects, OnWire;
    AllDropsSent(next, prev, back, |back.drops| + j);
  }

  lemma BackInAdds(box: FilterSet, prev: FilterSet, next: FilterSet, back: Diff, j: nat)
    requires Moves(back, next, prev) && |prev| <= TABLE_MAX && Plain(prev.Keys)
    requires box.Keys <= prev.Keys + OnWire(next.Keys) && 0 < j && |back.drops| + j <= |back.frames|
    requires !WildcardRemoved(next, prev)
    ensures BoxRun(box, back.frames[..|back.drops| + j]) == prev <==>
            TakenBack(prev, next, box, back, |back.drops| + j)
  {
    hide BoxRun, OnWire, Extends, Plain, Elements, Base, Corrects, Moves, WildcardRemoved, TakenBack,
         HeadLength, Dropped, Added;
    TakenBackInAdds(box, prev, next, back, j);
    BackBase(box, prev, next);
    PrefixOfAdds(box, next, prev, back, j);
    AddsAreNew(next, prev, back, j);
    BackOverlaid(BoxRun(box, back.frames[..|back.drops| + j]), box, prev, next, Elements(back.adds[..j]));
  }

  lemma PlainPart(part: set<Key>, keys: set<Key>)
    requires part <= keys && Plain(keys)
    ensures Plain(part)
  {
  }

  lemma BackCleared(box: FilterSet, prev: FilterSet, next: FilterSet, back: Diff, m: nat)
    requires Moves(back, next, prev) && |prev| <= TABLE_MAX && Plain(prev.Keys)
    requires WildcardRemoved(next, prev) && |back.drops| < m <= |back.frames|
    ensures BoxRun(box, back.frames[..m]) == prev <==> m == |back.frames|
  {
    hide BoxRun, OnWire, Extends, Plain, Elements, Moves, Sends, NoDuplicates;
    FrameCount(next, prev, back);
    var j := m - |back.drops| - 1;
    PrefixOfAdds(box, next, prev, back, j);
    AddsAreNew(next, prev, back, j);
    var now, again := BoxRun(box, back.frames[..m]), Elements(back.adds[..j]);
    PlainPart(again, prev.Keys);
    ExtendsPlain(now, map[], prev, again);
    assert Added(next, prev) == prev.Keys;
    if m == |back.frames| {
      assert back.adds[..j] == back.adds;
      assert now == prev;
    } else {
      NotSentYet(back.adds, j);
      assert back.adds[j] in prev.Keys;
    }
  }

  /** Where any box between the two tables ends up when the way back is cut after `m` frames. */
  lemma TakenBackIff(box: FilterSet, prev: FilterSet, next: FilterSet, back: Diff, m: nat)
    requires Moves(back, next, prev) && |prev| <= TABLE_MAX && Plain(prev.Keys)
    requires box.Keys <= prev.Keys + OnWire(next.Keys) && m <= |back.frames|
    ensures BoxRun(box, back.frames[..m]) == prev <==> TakenBack(prev, next, box, back, m)
  {
    hide BoxRun, OnWire, Plain, Elements, Corrects;
    if m <= |back.drops| {
      BackInDrops(box, prev, next, back, m);
    } else if WildcardRemoved(next, prev) {
      BackCleared(box, prev, next, back, m);
    } else {
      BackInAdds(box, prev, next, back, m - |back.drops|);
    }
  }

  /** The kept entries the box has lost after `i` frames of the diff: none until the whole-table clear,
      then those not subscribed again yet. */
  ghost function Lost(prev: FilterSet, next: FilterSet, d: Diff, i: nat): set<Key>
    requires i <= HeadLength(prev, next, d) + |d.adds|
  {
    if !WildcardRemoved(prev, next) || i <= |d.drops| then {}
    else Kept(prev, next) - SentAdds(prev, next, d, i)
  }

  /** A sentinel entry of `next` goes out under the address of an entry both tables hold. */
  ghost predicate Shadowed(prev: FilterSet, next: FilterSet) {
    exists k :: k in next && Reserved(k) && Wire(k) in Kept(prev, next)
  }

  /** What a box part of the way to `next` holds of the kept entries. */
  ghost predicate Midway(box: FilterSet, prev: FilterSet, next: FilterSet, lost: set<Key>) {
    box.Keys <= prev.Keys + OnWire(next.Keys) &&
    (!Shadowed(prev, next) ==>
      forall k :: k in Kept(prev, next) ==> (k in box <==> k !in lost) && (k in box ==> box[k] == prev[k]))
  }

  lemma SentDropsAreDropped(prev: FilterSet, next: FilterSet, d: Diff, i: nat)
    requires Moves(d, prev, next) && i <= |d.drops|
    ensures Elements(d.drops[..i]) <= Dropped(prev, next)
  {
    forall k | k in Elements(d.drops[..i]) ensures k in Dropped(prev, next) {
      assert k in Elements(d.drops);
    }
  }

  /** Removals take out what they name, of a table with no entry at the sentinel. */
  lemma PartDropped(prev: FilterSet, next: FilterSet, gone: set<Key>)
    requires Plain(prev.Keys) && gone <= Dropped(prev, next)
    ensures Midway(prev - OnWire(gone), prev, next, {})
    ensures Disturbed(prev, prev - OnWire(gone)) == gone
  {
    OnWireOfPlain(gone);
  }

  lemma MidwayKeys(box: FilterSet, prev: FilterSet, next: FilterSet, lost: set<Key>)
    requires Midway(box, prev, next, lost)
    ensures box.Keys <= prev.Keys + OnWire(next.Keys)
  {
  }

  lemma MidwayInDrops(prev: FilterSet, next: FilterSet, d: Diff, i: nat)
    requires Moves(d, prev, next) && Plain(prev.Keys) && i <= |d.drops|
    ensures i <= |d.frames| && Midway(BoxRun(prev, d.frames[..i]), prev, next, {})
    ensures Disturbed(prev, BoxRun(prev, d.frames[..i])) == Elements(d.drops[..i])
  {
    hide BoxRun, OnWire, Midway, Elements, Dropped, Plain, Disturbed;
    PrefixOfDrops(prev, prev, next, d, i);
    SentDropsAreDropped(prev, next, d, i);
    PartDropped(prev, next, Elements(d.drops[..i]));
  }

  lemma MidwayFrom(now: FilterSet, prev: FilterSet, next: FilterSet, sent: set<Key>)
    requires Extends(now, Base(prev, prev, next), next, sent) && Plain(prev.Keys) && sent <= Added(prev, next)
    ensures Midway(now, prev, next, if WildcardRemoved(prev, next) then Kept(prev, next) - sent else {})
  {
    BaseKeys(prev, next);
    OnWireSubset(sent, next.Keys);
    if !Shadowed(prev, next) {
      forall k | k in Kept(prev, next)
        ensures k in OnWire(sent) <==> k in sent
        ensures k in sent ==> now[k] == next[k]
      {
        assert Wire(k) == k;
        if k in OnWire(sent) {
          var a :| a in sent && a in next && Wire(a) == k && next[a] == now[k];
          assert a == k;
        }
      }
    }
  }

  lemma MidwayInAdds(prev: FilterSet, next: FilterSet, d: Diff, i: nat)
    requires Moves(d, prev, next) && |next| <= TABLE_MAX && Plain(prev.Keys)
    requires HeadLength(prev, next, d) <= i <= |d.frames| && |d.drops| < i
    ensures Midway(BoxRun(prev, d.frames[..i]), prev, next, Lost(prev, next, d, i))
  {
    hide BoxRun, OnWire, Extends, Plain, Elements, Midway, Base, NoDuplicates, Dropped, Kept, WildcardRemoved;
    var j := i - HeadLength(prev, next, d);
    BaseKeys(prev, next);
    PrefixOfAdds(prev, prev, next, d, j);
    AddsAreNew(prev, next, d, j);
    NoneSentYet(d);
    MidwayFrom(BoxRun(prev, d.frames[..i]), prev, next, Elements(d.adds[..j]));
  }

  lemma NoneSentYet(d: Diff)
    ensures Elements(d.adds[..0]) == {}
  {
  }

  lemma AfterPrefix(prev: FilterSet, next: FilterSet, d: Diff, i: nat)
    requires Moves(d, prev, next) && |next| <= TABLE_MAX && Plain(prev.Keys) && i <= |d.frames|
    ensures Midway(BoxRun(prev, d.frames[..i]), prev, next, Lost(prev, next, d, i))
  {
    hide BoxRun, OnWire, Plain, Elements, Midway;
    if i <= |d.drops| {
      MidwayInDrops(prev, next, d, i);
    } else {
      MidwayInAdds(prev, next, d, i);
    }
  }

  lemma WholeWayBack(box: FilterSet, prev: FilterSet, next: FilterSet, back: Diff)
    requires Moves(back, next, prev) && Plain(prev.Keys) && box.Keys <= prev.Keys + OnWire(next.Keys)
    ensures TakenBack(prev, next, box, back, |back.frames|) <==>
            WildcardRemoved(next, prev) || (!Shadowed(prev, next) && Disturbed(prev, box) * Kept(prev, next) == {})
  {
    if !WildcardRemoved(next, prev) {
      AllDropsSent(next, prev, back, |back.frames|);
      assert back.adds[..|back.adds|] == back.adds;
      hide Moves, Sends;
      CorrectedIff(box, prev, next);
    }
  }

  lemma CorrectedIff(box: FilterSet, prev: FilterSet, next: FilterSet)
    requires Plain(prev.Keys) && box.Keys <= prev.Keys + OnWire(next.Keys) && !WildcardRemoved(next, prev)
    ensures Corrects(prev, box, OnWire(Dropped(next, prev)), Added(next, prev)) <==>
            !Shadowed(prev, next) && Disturbed(prev, box) * Kept(prev, next) == {}
  {
    ShadowedIff(prev, next);
    BackBase(box, prev, next);
    OnWireOfPlain(prev.Keys);
    var gone := OnWire(Dropped(next, prev));
    assert (box - gone).Keys <= prev.Keys;
    hide Plain, Shadowed, OnWire, Dropped;
    AgainIsNotKept(prev, next);
    CorrectsOffKept(prev, box, gone, Kept(prev, next));
  }

  lemma AgainIsNotKept(prev: FilterSet, next: FilterSet)
    requires !WildcardRemoved(next, prev)
    ensures Added(next, prev) == prev.Keys - Kept(prev, next)
  {
  }

  lemma CorrectsOffKept(prev: FilterSet, box: FilterSet, gone: set<Key>, kept: set<Key>)
    requires kept <= prev.Keys && (box - gone).Keys <= prev.Keys
    ensures Corrects(prev, box, gone, prev.Keys - kept) <==>
            gone * kept == {} && Disturbed(prev, box) * kept == {}
  {
    var again := prev.Keys - kept;
    if Corrects(prev, box, gone, again) {
      forall k | k in kept ensures k !in gone && k !in Disturbed(prev, box) {
        assert k !in again;
      }
    }
    if gone * kept == {} && Disturbed(prev, box) * kept == {} {
      forall k | k in Disturbed(prev, box) ensures k in again || (k in gone && k !in prev) {
        assert k !in Disturbed(prev, box) * kept;
        assert k in box && k !in gone ==> k in prev;
      }
      forall k | k in gone && k in prev ensures k in again {
        assert k !in gone * kept;
      }
    }
  }

  lemma ShadowedIff(prev: FilterSet, next: FilterSet)
    requires Plain(prev.Keys)
    ensures Shadowed(prev, next) <==> OnWire(Dropped(next, prev)) * Kept(prev, next) != {}
  {
    if Shadowed(prev, next) {
      var k :| k in next && Reserved(k) && Wire(k) in Kept(prev, next);
      assert k in Dropped(next, prev);
      assert Wire(k) in OnWire(Dropped(next, prev)) * Kept(prev, next);
    }
    if w :| w in OnWire(Dropped(next, prev)) * Kept(prev, next) {
      var k :| k in Dropped(next, prev) && Wire(k) == w;
      assert Reserved(k);
    }
  }

  /** When the diff fails after `i` frames, the completed back-sync returns the box to exactly the
      table it held, unless the diff had cleared the wildcard, the way back does not, and a kept entry
      was still to be sent again (or a sentinel entry shadows a kept one). */
  lemma RollbackAfterPrefix(prev: FilterSet, next: FilterSet, d: Diff, i: nat, back: Diff)
    requires Moves(d, prev, next) && Moves(back, next, prev)
    requires |prev| <= TABLE_MAX && |next| <= TABLE_MAX && Plain(prev.Keys) && i <= |d.frames|
    ensures BoxRun(BoxRun(prev, d.frames[..i]), back.frames) == prev <==>
            WildcardRemoved(next, prev) || (Lost(prev, next, d, i) == {} && !Shadowed(prev, next))
  {
    hide BoxRun, OnWire, Plain, Elements, Moves, TakenBack, Shadowed, WildcardRemoved, Midway, Disturbed;
    var box := BoxRun(prev, d.frames[..i]);
    FrameCount(prev, next, d);
    AfterPrefix(prev, next, d, i);
    assert box.Keys <= prev.Keys + OnWire(next.Keys) by {
      MidwayKeys(box, prev, next, Lost(prev, next, d, i));
    }
    FrameCount(next, prev, back);
    TakenBackIff(box, prev, next, back, |back.frames|);
    assert back.frames[..|back.frames|] == back.frames;
    WholeWayBack(box, prev, next, back);
    var lost := Lost(prev, next, d, i);
    if !Shadowed(prev, next) {
      LostAreDisturbed(box, prev, next, lost);
    }
  }

  lemma LostAreDisturbed(box: FilterSet, prev: FilterSet, next: FilterSet, lost: set<Key>)
    requires Midway(box, prev, next, lost) && !Shadowed(prev, next) && lost <= Kept(prev, next)
    ensures Disturbed(prev, box) * Kept(prev, next) == lost
  {
  }

  /** What the frames already sent have put the box off, when no entry sits at the sentinel. */
  ghost function DisturbedBy(prev: FilterSet, next: FilterSet, d: Diff, i: nat): set<Key>
    requires i <= HeadLength(prev, next, d) + |d.adds|
  {
    var sent := SentAdds(prev, next, d, i);
    if i <= |d.drops| then SentDrops(d, i)
    else if WildcardRemoved(prev, next) then prev.Keys + sent - Kept(prev, next) * sent
    else Dropped(prev, next) + sent
  }

  lemma DisturbedInAdds(now: FilterSet, prev: FilterSet, next: FilterSet, sent: set<Key>)
    requires Extends(now, Base(prev, prev, next), next, sent) && sent <= Added(prev, next)
    requires Plain(prev.Keys) && Plain(next.Keys)
    ensures Disturbed(prev, now) ==
            if WildcardRemoved(prev, next) then prev.Keys + sent - Kept(prev, next) * sent
            else Dropped(prev, next) + sent
  {
    BaseKeys(prev, next);
    PlainPart(sent, next.Keys);
    ExtendsPlain(now, Base(prev, prev, next), next, sent);
    hide Extends, Plain, OnWire;
  }

  /** The entries a diff that failed after `i` frames has left wrong: those removed, those added or
      changed, and once the table is cleared all the others. */
  lemma DisturbedIs(prev: FilterSet, next: FilterSet, d: Diff, i: nat)
    requires Moves(d, prev, next) && |next| <= TABLE_MAX && i <= |d.frames|
    requires Plain(prev.Keys) && Plain(next.Keys)
    ensures Disturbed(prev, BoxRun(prev, d.frames[..i])) == DisturbedBy(prev, next, d, i)
  {
    hide BoxRun, OnWire, Extends, Plain, Elements, Base, Disturbed, Midway, NoDuplicates, Dropped, Kept;
    if i <= |d.drops| {
      MidwayInDrops(prev, next, d, i);
    } else {
      var j := i - HeadLength(prev, next, d);
      BaseKeys(prev, next);
      PrefixOfAdds(prev, prev, next, d, j);
      AddsAreNew(prev, next, d, j);
      NoneSentYet(d);
      DisturbedInAdds(BoxRun(prev, d.frames[..i]), prev, next, Elements(d.adds[..j]));
    }
  }

  /** What a subscriber can read off the two tables before the first frame goes out: that no failure,
      wherever it strikes, can leave the box off the table it held. */
  ghost predicate RollbackSafe(prev: FilterSet, next: FilterSet) {
    WildcardRemoved(next, prev) ||
    (!Shadowed(prev, next) && (!WildcardRemoved(prev, next) || Kept(prev, next) == {}))
  }

  lemma RollbackSafeIsExact(prev: FilterSet, next: FilterSet, d: Diff, back: Diff)
    requires Moves(d, prev, next) && Moves(back, next, prev)
    requires |prev| <= TABLE_MAX && |next| <= TABLE_MAX && Plain(prev.Keys)
    ensures RollbackSafe(prev, next) <==>
            forall i :: 0 <= i <= |d.frames| ==> BoxRun(BoxRun(prev, d.frames[..i]), back.frames) == prev
  {
    hide BoxRun, Plain, Shadowed, WildcardRemoved, Elements;
    forall i | 0 <= i <= |d.frames|
      ensures BoxRun(BoxRun(prev, d.frames[..i]), back.frames) == prev <==>
              WildcardRemoved(next, prev) || (Lost(prev, next, d, i) == {} && !Shadowed(prev, next))
    {
      RollbackAfterPrefix(prev, next, d, i, back);
    }
    if WildcardRemoved(prev, next) {
      NoneSentYet(d);
      assert Lost(prev, next, d, |d.drops| + 1) == Kept(prev, next);
      assert 0 <= |d.drops| + 1 <= |d.frames|;
    } else {
      assert Lost(prev, next, d, 0) == {};
    }
  }

  // The keepalive's re-assert

  /** The frames of the entries `keys` of a table, each subscribed again. */
  function Again(table: FilterSet, keys: seq<Key>): seq<Frame> {
    seq(|keys|, i requires 0 <= i < |keys| => On(table, keys[i]))
  }

  lemma AgainStep(box: FilterSet, table: FilterSet, keys: seq<Key>)
    requires keys != []
    ensures BoxRun(box, Again(table, keys)) ==
            BoxTake(BoxRun(box, Again(table, keys[..|keys| - 1])), On(table, keys[|keys| - 1]))
  {
    assert Again(table, keys)[..|keys| - 1] == Again(table, keys[..|keys| - 1]);
  }

  /** Re-sent entries only ever add to what the box holds. */
  lemma {:induction false} AgainKeeps(box: FilterSet, table: FilterSet, keys: seq<Key>)
    ensures box.Keys <= BoxRun(box, Again(table, keys)).Keys
  {
    if keys == [] {
      assert Again(table, keys) == [];
    } else {
      AgainKeeps(box, table, keys[..|keys| - 1]);
      AgainStep(box, table, keys);
      hide BoxRun;
    }
  }

  lemma {:induction false} AgainExtends(box: FilterSet, table: FilterSet, keys: seq<Key>)
    requires box.Keys <= OnWire(table.Keys) && |table| <= TABLE_MAX && Elements(keys) <= table.Keys
    ensures Extends(BoxRun(box, Again(table, keys)), box, table, Elements(keys))
  {
    if keys == [] {
      assert Again(table, keys) == [] && Elements(keys) == {} && OnWire({}) == {};
    } else {
      var rest, k := keys[..|keys| - 1], keys[|keys| - 1];
      TakeOneMore(keys, |keys|);
      assert keys[..|keys|] == keys;
      assert k in Elements(keys);
      AgainExtends(box, table, rest);
      AgainStep(box, table, keys);
      hide BoxRun, BoxTake;
      var now := BoxRun(box, Again(table, rest));
      OnWireSubset(Elements(rest), table.Keys);
      Room(now, table, k);
      ExtendOne(now, box, table, Elements(rest), k);
    }
  }

  lemma ExtendedIff(now: FilterSet, box: FilterSet, table: FilterSet, keys: set<Key>)
    requires Extends(now, box, table, keys) && Plain(table.Keys) && keys <= table.Keys && box.Keys <= table.Keys
    ensures now == table <==> Disturbed(table, box) <= keys
  {
    PlainPart(keys, table.Keys);
    ExtendsPlain(now, box, table, keys);
    hide Extends, Plain, OnWire;
    if now == table {
      forall k | k in Disturbed(table, box) ensures k in keys {
        assert k in now;
      }
    } else if Disturbed(table, box) <= keys {
      forall k | k in table ensures k in now && now[k] == table[k] {
        assert k in Disturbed(table, box) || k in box;
      }
    }
  }

  /** Whatever the box holds, re-sending the entries `keys` of the table it should hold puts it right
      exactly when it holds no entry outside that table and every entry it has wrong is among them. */
  lemma ReAssertIff(box: FilterSet, table: FilterSet, keys: seq<Key>)
    requires |table| <= TABLE_MAX && Plain(table.Keys) && Elements(keys) <= table.Keys
    ensures BoxRun(box, Again(table, keys)) == table <==>
            box.Keys <= table.Keys && Disturbed(table, box) <= Elements(keys)
  {
    hide BoxRun, Again, Disturbed, Elements, Plain;
    AgainKeeps(box, table, keys);
    if box.Keys <= table.Keys {
      OnWireOfPlain(table.Keys);
      hide OnWire, Extends;
      AgainExtends(box, table, keys);
      ExtendedIff(BoxRun(box, Again(table, keys)), box, table, Elements(keys));
    }
  }
}
