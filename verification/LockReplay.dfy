/** The replay of held locks after a restart: which commands it sends, in what order, and that they
    rebuild both the ledger they came from and a box that holds nothing. */
module LockReplay {
  import opened LockLedger
  import opened LockBox
  import opened Finite

  /** The commands that rebuild one row on a box holding nothing. */
  function Commands(k: Key, s: Slots): seq<Command> {
    if s.pos == s.neg && s.along == PASS && s.against == PASS then
      if s.pos == PASS then [] else [Command(k, Both, s.pos)]
    else
      Named(k, Positive, s.pos) + Named(k, Negative, s.neg) + Named(k, With, s.along) + Named(k, Against, s.against)
  }

  function Named(k: Key, dir: Direction, scale: int): seq<Command> {
    if scale == PASS then [] else [Command(k, dir, scale)]
  }

  function BlanketCommands(s: Slots, n: nat): seq<Command> {
    if n == 0 then [] else BlanketCommands(s, n - 1) + Commands(Key(Btn, n - 1), s)
  }

  /** One held row, a button blanket spread over the declared buttons. */
  function RowCommands(l: Ledger, k: Key): seq<Command> {
    if k == BTN_ALL then BlanketCommands(RowOf(l.rows, k), l.buttons) else Commands(k, RowOf(l.rows, k))
  }

  function Replay(l: Ledger, ks: seq<Key>): seq<Command> {
    if ks == [] then [] else Replay(l, ks[..|ks| - 1]) + RowCommands(l, ks[|ks| - 1])
  }

  // The order of the rows

  function ClassOrder(c: Class): nat {
    match c
    case Btn => 0
    case Keyboard => 1
    case Media => 2
    case Axis => 3
  }

  function Place(ids: seq<int>, id: int): (i: nat)
    ensures i <= |ids| && (i < |ids| ==> ids[i] == id)
    ensures forall j :: 0 <= j < i ==> ids[j] != id
  {
    if ids == [] || ids[0] == id then 0 else 1 + Place(ids[1..], id)
  }

  /** Media rows sort by their place in the media list, ones not listed after all that are. */
  function MediaRank(media: seq<int>, k: Key): nat {
    if k.cls == Media then Place(media, k.id) else 0
  }

  predicate Before(media: seq<int>, a: Key, b: Key) {
    var x, y := ClassOrder(a.cls), ClassOrder(b.cls);
    var i, j := MediaRank(media, a), MediaRank(media, b);
    x < y || (x == y && (i < j || (i == j && a.id < b.id)))
  }

  ghost predicate Sorted(media: seq<int>, ks: seq<Key>) {
    forall i, j :: 0 <= i < j < |ks| ==> Before(media, ks[i], ks[j])
  }

  ghost predicate IsArranged(l: Ledger, ks: seq<Key>) {
    Elements(ks) == l.rows.Keys && Sorted(l.media, ks)
  }

  lemma LastComesLast(media: seq<int>, a: seq<Key>, k: Key)
    requires Sorted(media, a) && k in a
    ensures k == a[|a| - 1] || Before(media, k, a[|a| - 1])
  {
  }

  lemma FirstComesFirst(media: seq<int>, a: seq<Key>, k: Key)
    requires Sorted(media, a) && k in a
    ensures k == a[0] || Before(media, a[0], k)
  {
  }

  lemma WithoutLast(media: seq<int>, a: seq<Key>)
    requires Sorted(media, a) && a != []
    ensures Elements(a[..|a| - 1]) == Elements(a) - {a[|a| - 1]}
    ensures Sorted(media, a[..|a| - 1])
  {
    var rest, last := a[..|a| - 1], a[|a| - 1];
    assert a == rest + [last];
    forall i | 0 <= i < |rest| ensures rest[i] != last {
      assert Before(media, a[i], a[|a| - 1]);
    }
  }

  lemma NoElements<T>(s: seq<T>)
    ensures Elements(s) == {} <==> s == []
  {
    if s != [] {
      assert s[0] in Elements(s);
    }
  }

  /** The rows of a ledger can be arranged in one order only. */
  lemma {:induction false} ArrangedUniquely(media: seq<int>, a: seq<Key>, b: seq<Key>)
    requires Sorted(media, a) && Sorted(media, b) && Elements(a) == Elements(b)
    ensures a == b
  {
    NoElements(a);
    NoElements(b);
    if a != [] {
      assert a[|a| - 1] in Elements(b);
      assert b[|b| - 1] in Elements(a);
      LastComesLast(media, a, b[|b| - 1]);
      LastComesLast(media, b, a[|a| - 1]);
      WithoutLast(media, a);
      WithoutLast(media, b);
      ArrangedUniquely(media, a[..|a| - 1], b[..|b| - 1]);
    }
  }

  // Rebuilding the ledger

  /** The one order: buttons, keys, media, axes; by id within a class, media by slot. */
  lemma ArrangedOrder(l: Ledger, ks: seq<Key>, i: nat, j: nat)
    requires IsArranged(l, ks) && i < j < |ks|
    ensures ks[j].cls == Btn ==> ks[i].cls == Btn
    ensures ks[j].cls == Keyboard ==> ks[i].cls == Btn || ks[i].cls == Keyboard
    ensures ks[i].cls == Axis ==> ks[j].cls == Axis
    ensures ks[i].cls == ks[j].cls != Media ==> ks[i].id < ks[j].id
    ensures ks[i].cls == ks[j].cls == Media ==> Place(l.media, ks[i].id) <= Place(l.media, ks[j].id)
  {
    assert Before(l.media, ks[i], ks[j]);
  }

  function Fresh(l: Ledger): Ledger {
    Ledger(map[], [], l.buttons)
  }

  /** The ledger with its button blanket spread over the declared buttons. */
  function Spread(l: Ledger): Ledger {
    if BTN_ALL in l.rows then l.(rows := Burst(l.rows, l.buttons)) else l
  }

  function WithRow(l: Ledger, k: Key, s: Slots): Ledger {
    l.(rows := l.rows[k := s], media := if IsMediaSlot(k) then l.media + [k.id] else l.media)
  }

  lemma {:induction false} AppliedInTurn(l: Ledger, a: seq<Command>, b: seq<Command>)
    ensures AppliedAll(l, a + b) == AppliedAll(AppliedAll(l, a), b)
    decreases |b|
  {
    if b == [] {
      assert a + b == a;
    } else {
      AppliedInTurn(l, a, b[..|b| - 1]);
      assert (a + b)[..|a + b| - 1] == a + b[..|b| - 1];
    }
  }

  lemma AppliedOnce(l: Ledger, c: Command)
    ensures AppliedAll(l, [c]) == Applied(l, c)
  {
    assert [c][..0] == [];
    assert AppliedAll(l, []) == l;
  }

  function RowPut(base: map<Key, Slots>, k: Key, s: Slots): map<Key, Slots> {
    if s == PASSING then base else base[k := s]
  }

  lemma NamedWrites(l: Ledger, base: map<Key, Slots>, k: Key, dir: Direction, scale: int, s: Slots)
    requires BTN_ALL !in base && k != BTN_ALL && !IsMediaSlot(k) && k !in base
    requires dir != Both && (k.cls != Axis ==> OneBit(scale))
    requires l.rows == RowPut(base, k, s) && Write(s, dir, PASS) == s
    ensures AppliedAll(l, Named(k, dir, scale)) == l.(rows := RowPut(base, k, Write(s, dir, scale)))
  {
    if scale == PASS {
      assert AppliedAll(l, []) == l;
    } else {
      AppliedOnce(l, Command(k, dir, scale));
      assert base - {k} == base;
      assert base[k := s] - {k} == base;
      assert base[k := s][k := Write(s, dir, scale)] == base[k := Write(s, dir, scale)];
    }
  }

  lemma NamedRebuild(l: Ledger, k: Key, s: Slots)
    requires BTN_ALL !in l.rows && k != BTN_ALL && !IsMediaSlot(k) && k !in l.rows && RowFits(k.cls, s)
    ensures AppliedAll(l, Named(k, Positive, s.pos) + Named(k, Negative, s.neg) + Named(k, With, s.along) + Named(k, Against, s.against))
         == WithRow(l, k, s)
  {
    hide Named, AppliedAll;
    var a, b, c, d := Named(k, Positive, s.pos), Named(k, Negative, s.neg), Named(k, With, s.along), Named(k, Against, s.against);
    AppliedInTurn(l, a + b + c, d);
    AppliedInTurn(l, a + b, c);
    AppliedInTurn(l, a, b);
    var s1 := Slots(s.pos, PASS, PASS, PASS);
    var s2 := Slots(s.pos, s.neg, PASS, PASS);
    var s3 := Slots(s.pos, s.neg, s.along, PASS);
    var l1, l2 := l.(rows := RowPut(l.rows, k, s1)), l.(rows := RowPut(l.rows, k, s2));
    var l3 := l.(rows := RowPut(l.rows, k, s3));
    NamedWrites(l, l.rows, k, Positive, s.pos, PASSING);
    NamedWrites(l1, l.rows, k, Negative, s.neg, s1);
    NamedWrites(l2, l.rows, k, With, s.along, s2);
    NamedWrites(l3, l.rows, k, Against, s.against, s3);
  }

  /** The commands of a row rebuild exactly that row where there was none. */
  lemma CommandsRebuild(l: Ledger, k: Key, s: Slots)
    requires BTN_ALL !in l.rows && k != BTN_ALL && k !in l.rows && RowFits(k.cls, s)
    requires IsMediaSlot(k) ==> k.id !in l.media
    ensures AppliedAll(l, Commands(k, s)) == WithRow(l, k, s)
  {
    if s.pos == s.neg && s.along == PASS && s.against == PASS {
      AppliedOnce(l, Command(k, Both, s.pos));
    } else {
      NamedRebuild(l, k, s);
    }
  }

  ghost function WithButtons(rows: map<Key, Slots>, s: Slots, n: nat): map<Key, Slots> {
    map k | k in rows.Keys + ButtonKeys(n) :: if k in rows then rows[k] else s
  }

  lemma OneMoreButton(rows: map<Key, Slots>, s: Slots, n: nat)
    requires Key(Btn, n) !in rows
    ensures Key(Btn, n) !in WithButtons(rows, s, n)
    ensures WithButtons(rows, s, n)[Key(Btn, n) := s] == WithButtons(rows, s, n + 1)
  {
    assert ButtonKeys(n + 1) == ButtonKeys(n) + {Key(Btn, n)};
  }

  lemma {:induction false} BlanketRebuild(l: Ledger, s: Slots, n: nat)
    requires (forall k :: k in l.rows ==> k.cls != Btn) && RowFits(Btn, s) && n <= MAX_BUTTONS
    ensures AppliedAll(l, BlanketCommands(s, n)) == l.(rows := WithButtons(l.rows, s, n))
  {
    if n == 0 {
      assert AppliedAll(l, []) == l;
      assert WithButtons(l.rows, s, 0) == l.rows;
    } else {
      BlanketRebuild(l, s, n - 1);
      AppliedInTurn(l, BlanketCommands(s, n - 1), Commands(Key(Btn, n - 1), s));
      OneMoreButton(l.rows, s, n - 1);
      CommandsRebuild(l.(rows := WithButtons(l.rows, s, n - 1)), Key(Btn, n - 1), s);
    }
  }

  function MediaIds(ks: seq<Key>): seq<int> {
    if ks == [] then []
    else
      var rest, k := MediaIds(ks[..|ks| - 1]), ks[|ks| - 1];
      if IsMediaSlot(k) then rest + [k.id] else rest
  }

  lemma {:induction false} MediaIdsAre(ks: seq<Key>, id: int)
    ensures id in MediaIds(ks) <==> id != ALL && Key(Media, id) in ks
  {
    if ks != [] {
      MediaIdsAre(ks[..|ks| - 1], id);
      assert ks == ks[..|ks| - 1] + [ks[|ks| - 1]];
    }
  }

  /** The part of a ledger in the rows `ks`. */
  ghost function Part(l: Ledger, ks: seq<Key>): Ledger
    requires Elements(ks) <= l.rows.Keys
  {
    Ledger(map k | k in Elements(ks) :: l.rows[k], MediaIds(ks), l.buttons)
  }

  lemma BurstAlone(rows: map<Key, Slots>, s: Slots, n: nat)
    requires (forall k :: k in rows ==> k.cls != Btn) && n <= MAX_BUTTONS
    ensures Burst(rows[BTN_ALL := s], n) == WithButtons(rows, s, n)
  {
  }

  lemma PartGrows(l: Ledger, ks: seq<Key>, k: Key)
    requires Elements(ks) <= l.rows.Keys && k in l.rows && k !in ks
    ensures Elements(ks + [k]) <= l.rows.Keys
    ensures Part(l, ks + [k]) == WithRow(Part(l, ks), k, l.rows[k])
  {
    assert Elements(ks + [k]) == Elements(ks) + {k};
    assert (ks + [k])[..|ks|] == ks;
    assert Part(l, ks + [k]).rows == Part(l, ks).rows[k := l.rows[k]];
  }

  lemma SpreadGrows(p: Ledger, k: Key, s: Slots)
    requires k != BTN_ALL && k !in p.rows && (BTN_ALL in p.rows ==> k.cls != Btn)
    ensures Spread(WithRow(p, k, s)) == WithRow(Spread(p), k, s)
  {
    if BTN_ALL in p.rows {
      assert Burst(p.rows[k := s], p.buttons) == Burst(p.rows, p.buttons)[k := s];
    }
  }

  lemma AllButLast<T>(s: seq<T>)
    requires NoDuplicates(s) && s != []
    ensures NoDuplicates(s[..|s| - 1]) && Elements(s[..|s| - 1]) <= Elements(s)
    ensures s[|s| - 1] in Elements(s) && s[|s| - 1] !in s[..|s| - 1]
  {
    assert s == s[..|s| - 1] + [s[|s| - 1]];
  }

  lemma RowRebuilds(l: Ledger, ks: seq<Key>, k: Key)
    requires Inv(l) && Elements(ks) <= l.rows.Keys && k in l.rows && k !in ks
    ensures AppliedAll(Spread(Part(l, ks)), RowCommands(l, k)) == Spread(WithRow(Part(l, ks), k, l.rows[k]))
  {
    var p, s := Part(l, ks), l.rows[k];
    assert k !in p.rows;
    if k == BTN_ALL {
      BlanketRebuild(p, s, l.buttons);
      BurstAlone(p.rows, s, l.buttons);
    } else {
      MediaIdsAre(ks, k.id);
      SpreadGrows(p, k, s);
      CommandsRebuild(Spread(p), k, s);
    }
  }

  /** After the rows `ks` of a replay, the ledger holds just those, the blanket spread. */
  lemma {:induction false} PrefixRebuilds(l: Ledger, ks: seq<Key>)
    requires Inv(l) && Elements(ks) <= l.rows.Keys && NoDuplicates(ks)
    ensures AppliedAll(Fresh(l), Replay(l, ks)) == Spread(Part(l, ks))
  {
    if ks == [] {
      assert Part(l, ks).rows == map[];
    } else {
      var rest, k := ks[..|ks| - 1], ks[|ks| - 1];
      assert ks == rest + [k];
      PrefixRebuilds(l, rest);
      AllButLast(ks);
      PartGrows(l, rest, k);
      AppliedInTurn(Fresh(l), Replay(l, rest), RowCommands(l, k));
      RowRebuilds(l, rest, k);
    }
  }

  function MediaKeys(ids: seq<int>): seq<Key> {
    seq(|ids|, i requires 0 <= i < |ids| => Key(Media, ids[i]))
  }

  lemma {:induction false} SlotsInOrder(media: seq<int>, ks: seq<Key>)
    requires Sorted(media, ks)
    ensures Sorted(media, MediaKeys(MediaIds(ks)))
  {
    if ks != [] {
      var rest, k := ks[..|ks| - 1], ks[|ks| - 1];
      assert ks == rest + [k];
      SlotsInOrder(media, rest);
      forall i | 0 <= i < |MediaIds(rest)| ensures Before(media, Key(Media, MediaIds(rest)[i]), k) || !IsMediaSlot(k) {
        MediaIdsAre(rest, MediaIds(rest)[i]);
        var j :| 0 <= j < |rest| && rest[j] == Key(Media, MediaIds(rest)[i]);
        assert Before(media, ks[j], ks[|rest|]);
      }
      assert forall i :: 0 <= i < |MediaIds(rest)| ==> MediaKeys(MediaIds(ks))[i] == MediaKeys(MediaIds(rest))[i];
    }
  }

  lemma PlaceOf(media: seq<int>, i: nat)
    requires NoDuplicates(media) && i < |media|
    ensures Place(media, media[i]) == i
  {
  }

  /** The media rows of an arranged ledger come in slot order. */
  lemma MediaOrderKept(l: Ledger, ks: seq<Key>)
    requires Inv(l) && IsArranged(l, ks)
    ensures MediaIds(ks) == l.media
  {
    var a, b := MediaKeys(MediaIds(ks)), MediaKeys(l.media);
    SlotsInOrder(l.media, ks);
    forall i, j | 0 <= i < j < |b| ensures Before(l.media, b[i], b[j]) {
      PlaceOf(l.media, i);
      PlaceOf(l.media, j);
    }
    forall k: Key ensures k in a <==> k in b {
      MediaIdsAre(ks, k.id);
      InMediaKeys(MediaIds(ks), k);
      InMediaKeys(l.media, k);
      assert k in ks <==> k in Elements(ks);
    }
    ArrangedUniquely(l.media, a, b);
    assert forall i :: 0 <= i < |a| ==> a[i].id == MediaIds(ks)[i] && b[i].id == l.media[i];
  }

  lemma InMediaKeys(ids: seq<int>, k: Key)
    ensures k in MediaKeys(ids) <==> k.cls == Media && k.id in ids
  {
    if k.cls == Media && k.id in ids {
      var i :| 0 <= i < |ids| && ids[i] == k.id;
      assert MediaKeys(ids)[i] == k;
    }
  }

  lemma SortedDistinct(media: seq<int>, ks: seq<Key>)
    requires Sorted(media, ks)
    ensures NoDuplicates(ks)
  {
    forall i, j | 0 <= i < j < |ks| ensures ks[i] != ks[j] {
      assert Before(media, ks[i], ks[j]);
    }
  }

  lemma WholePart(l: Ledger, ks: seq<Key>)
    requires Inv(l) && IsArranged(l, ks)
    ensures Part(l, ks) == l
  {
    MediaOrderKept(l, ks);
  }

  /** Replaying the held locks on a fresh ledger rebuilds the held rows, the button blanket spread over
      the declared buttons, in the same media order. */
  lemma ReplayRebuilds(l: Ledger, ks: seq<Key>)
    requires Inv(l) && IsArranged(l, ks)
    ensures AppliedAll(Fresh(l), Replay(l, ks)) == Spread(l)
  {
    SortedDistinct(l.media, ks);
    PrefixRebuilds(l, ks);
    WholePart(l, ks);
  }

  // Replaying the replay

  lemma {:induction false} ReplayInTurn(l: Ledger, a: seq<Key>, b: seq<Key>)
    ensures Replay(l, a + b) == Replay(l, a) + Replay(l, b)
    decreases |b|
  {
    if b == [] {
      assert a + b == a;
    } else {
      assert (a + b)[..|a + b| - 1] == a + b[..|b| - 1];
      ReplayInTurn(l, a, b[..|b| - 1]);
    }
  }

  lemma {:induction false} SameRows(l: Ledger, m: Ledger, ks: seq<Key>)
    requires forall i :: 0 <= i < |ks| ==> ks[i] != BTN_ALL && RowOf(l.rows, ks[i]) == RowOf(m.rows, ks[i])
    ensures Replay(l, ks) == Replay(m, ks)
  {
    if ks != [] {
      SameRows(l, m, ks[..|ks| - 1]);
    }
  }

  function ButtonList(n: nat): seq<Key> {
    seq(n, b => Key(Btn, b))
  }

  lemma {:induction false} ButtonsReplay(l: Ledger, s: Slots, n: nat)
    requires n <= MAX_BUTTONS && forall b :: 0 <= b < n ==> Key(Btn, b) in l.rows && l.rows[Key(Btn, b)] == s
    ensures Replay(l, ButtonList(n)) == BlanketCommands(s, n)
  {
    if n > 0 {
      ButtonsReplay(l, s, n - 1);
      assert ButtonList(n)[..n - 1] == ButtonList(n - 1);
    }
  }

  lemma BlanketFirst(l: Ledger, ks: seq<Key>)
    requires Inv(l) && IsArranged(l, ks) && BTN_ALL in l.rows
    ensures ks != [] && ks[0] == BTN_ALL
    ensures forall k :: k in ks[1..] ==> k in l.rows && k.cls != Btn
  {
    assert BTN_ALL in Elements(ks);
    assert ks[0] in Elements(ks);
    FirstComesFirst(l.media, ks, BTN_ALL);
    SortedDistinct(l.media, ks);
    forall k | k in ks[1..] ensures k in l.rows && k.cls != Btn {
      assert k in Elements(ks);
    }
  }

  lemma SpreadArranged(l: Ledger, ks: seq<Key>)
    requires Inv(l) && IsArranged(l, ks) && BTN_ALL in l.rows && ks != []
    ensures IsArranged(Spread(l), ButtonList(l.buttons) + ks[1..])
  {
    BlanketFirst(l, ks);
    var first, rest := ButtonList(l.buttons), ks[1..];
    assert Elements(ks) == {BTN_ALL} + Elements(rest);
    assert Elements(first + rest) == Elements(first) + Elements(rest);
    forall k ensures k in Elements(first) <==> k in ButtonKeys(l.buttons) {
      if k in ButtonKeys(l.buttons) {
        assert first[k.id] == k;
      }
    }
    forall i, j | 0 <= i < j < |first + rest| ensures Before(l.media, (first + rest)[i], (first + rest)[j]) {
      if j < |first| {
      } else {
        assert rest[j - |first|] in rest;
        if |first| <= i {
          assert Before(l.media, ks[i - |first| + 1], ks[j - |first| + 1]);
        }
      }
    }
  }

  lemma SpreadRows(l: Ledger)
    requires Inv(l) && BTN_ALL in l.rows
    ensures Spread(l).buttons == l.buttons <= MAX_BUTTONS
    ensures forall b :: 0 <= b < l.buttons ==>
              Key(Btn, b) in Spread(l).rows && Spread(l).rows[Key(Btn, b)] == RowOf(l.rows, BTN_ALL)
    ensures forall k: Key :: k.cls != Btn ==> RowOf(Spread(l).rows, k) == RowOf(l.rows, k)
  {
    assert forall b :: 0 <= b < l.buttons ==> Key(Btn, b) in ButtonKeys(l.buttons);
  }

  lemma SpreadReplay(l: Ledger, rest: seq<Key>)
    requires Inv(l) && BTN_ALL in l.rows && forall i :: 0 <= i < |rest| ==> rest[i].cls != Btn
    ensures Replay(Spread(l), ButtonList(l.buttons) + rest) == Replay(l, [BTN_ALL] + rest)
  {
    hide Inv, ButtonList, BlanketCommands, Commands, Spread, RowOf, Replay;
    SpreadRows(l);
    SameRows(Spread(l), l, rest);
    ButtonsReplay(Spread(l), RowOf(l.rows, BTN_ALL), l.buttons);
    ReplayInTurn(Spread(l), ButtonList(l.buttons), rest);
    ReplayInTurn(l, [BTN_ALL], rest);
    ReplayOne(l, BTN_ALL);
  }

  lemma ReplayOne(l: Ledger, k: Key)
    ensures Replay(l, [k]) == RowCommands(l, k)
  {
    assert [k][..0] == [];
    assert Replay(l, []) + RowCommands(l, k) == RowCommands(l, k);
  }

  /** The rebuilt ledger replays the very same commands: spreading, sorting and normalising settle at
      once. */
  lemma ReplayIsFixpoint(l: Ledger, ks: seq<Key>, again: seq<Key>)
    requires Inv(l) && IsArranged(l, ks) && IsArranged(Spread(l), again)
    ensures Replay(Spread(l), again) == Replay(l, ks)
  {
    if BTN_ALL !in l.rows {
      ArrangedUniquely(l.media, ks, again);
    } else {
      BlanketFirst(l, ks);
      SpreadArranged(l, ks);
      ArrangedUniquely(l.media, again, ButtonList(l.buttons) + ks[1..]);
      assert ks == [BTN_ALL] + ks[1..];
      assert forall i :: 0 <= i < |ks[1..]| ==> ks[1..][i] in ks[1..];
      SpreadReplay(l, ks[1..]);
    }
  }

  // Replaying onto an empty box

  /** A key past the box's 256 lands on the cell of another. */
  predicate Aliases(k: Key) {
    k.cls == Keyboard && 256 <= k.id < ALL && FIRST_KEY <= k.id % 256
  }

  function BaseOf(k: Key): Key {
    Key(Keyboard, k.id % 256)
  }

  predicate EdgesWithin(s: Slots, base: Slots) {
    (s.pos != PASS ==> base.pos != PASS) && (s.neg != PASS ==> base.neg != PASS)
  }

  /** Every held key that lands on another's cell blocks no edge the other does not. */
  ghost predicate AliasesCovered(l: Ledger) {
    forall k :: k in l.rows && Aliases(k) ==> EdgesWithin(l.rows[k], RowOf(l.rows, BaseOf(k)))
  }

  ghost predicate AnywhereFaithful(c: Command) {
    OnTheWire(c) && c.key != BTN_ALL && c.key.cls != Media && !Aliases(c.key)
  }

  lemma CommandsAreFaithful(k: Key, s: Slots)
    requires Addressable(k) && RowFits(k.cls, s) && k != BTN_ALL && k.cls != Media && !Aliases(k)
    ensures forall c :: c in Commands(k, s) ==> AnywhereFaithful(c)
  {
  }

  /** A momentary row takes one command to rebuild. */
  lemma OneCommand(k: Key, s: Slots) returns (c: Command)
    requires Addressable(k) && k.cls == Keyboard && RowFits(Keyboard, s)
    ensures Commands(k, s) == [c] && c.key == k && c.scale == BLOCK && OnTheWire(c)
    ensures c.dir == if s.pos == s.neg then Both else if s.pos != PASS then Positive else Negative
  {
    c := Command(k, if s.pos == s.neg then Both else if s.pos != PASS then Positive else Negative, BLOCK);
  }

  lemma AliasIsFaithful(m: Ledger, k: Key, s: Slots)
    requires Inv(m) && Addressable(k) && Aliases(k) && RowFits(Keyboard, s) && EdgesWithin(s, RowOf(m.rows, BaseOf(k)))
    ensures FaithfulRun(m, Commands(k, s))
  {
    var c := OneCommand(k, s);
    var base := RowOf(m.rows, BaseOf(k));
    assert base == PASSING || RowFits(Keyboard, base);
    assert Change(c)(base) == base;
    assert AppliedAll(m, []) == m;
    forall i | 0 <= i < |[c]| ensures OnTheWire([c][i]) && Faithful(AppliedAll(m, [c][..i]), [c][i]) {
      assert [c][..0] == [];
    }
  }

  /** The key a held one lands on comes earlier in the replay. */
  ghost predicate BasesFirst(l: Ledger, ks: seq<Key>) {
    forall i :: 0 <= i < |ks| && Aliases(ks[i]) && BaseOf(ks[i]) in l.rows ==> BaseOf(ks[i]) in ks[..i]
  }

  lemma ArrangedBasesFirst(l: Ledger, ks: seq<Key>)
    requires IsArranged(l, ks)
    ensures BasesFirst(l, ks)
  {
    forall i | 0 <= i < |ks| && Aliases(ks[i]) && BaseOf(ks[i]) in l.rows ensures BaseOf(ks[i]) in ks[..i] {
      assert BaseOf(ks[i]) in Elements(ks);
      var j :| 0 <= j < |ks| && ks[j] == BaseOf(ks[i]);
      InOrder(l.media, ks, i, j);
      assert Before(l.media, BaseOf(ks[i]), ks[i]);
      assert ks[..i][j] == ks[j];
    }
  }

  lemma InOrder(media: seq<int>, ks: seq<Key>, i: int, j: int)
    requires Sorted(media, ks) && 0 <= i < |ks| && 0 <= j < |ks|
    ensures i < j ==> Before(media, ks[i], ks[j])
  {
  }

  lemma {:induction false} BlanketIsFaithful(s: Slots, n: nat)
    requires RowFits(Btn, s) && n <= MAX_BUTTONS
    ensures forall c :: c in BlanketCommands(s, n) ==> AnywhereFaithful(c)
  {
    if n > 0 {
      BlanketIsFaithful(s, n - 1);
      CommandsAreFaithful(Key(Btn, n - 1), s);
    }
  }

  lemma AnywhereIsFaithful(l: Ledger, cs: seq<Command>)
    requires forall c :: c in cs ==> AnywhereFaithful(c)
    ensures FaithfulRun(l, cs)
  {
    forall i | 0 <= i < |cs| ensures OnTheWire(cs[i]) && Faithful(AppliedAll(l, cs[..i]), cs[i]) {
      assert AnywhereFaithful(cs[i]);
    }
  }

  lemma MediaIsFaithful(l: Ledger, k: Key, s: Slots)
    requires Addressable(k) && k.cls == Media && RowFits(Media, s)
    requires IsMediaSlot(k) && k.id != 0 ==> |HeldMedia(l)| < MEDIA_SLOTS
    ensures FaithfulRun(l, Commands(k, s))
  {
    var c := Command(k, Both, s.pos);
    assert Commands(k, s) == [c];
    assert AppliedAll(l, []) == l;
    forall i | 0 <= i < |[c]| ensures OnTheWire([c][i]) && Faithful(AppliedAll(l, [c][..i]), [c][i]) {
      assert [c][..0] == [];
    }
  }

  lemma KeyRowInPart(l: Ledger, ks: seq<Key>, k: Key)
    requires Inv(l) && AliasesCovered(l) && Elements(ks) <= l.rows.Keys && k in l.rows && Aliases(k)
    requires BaseOf(k) in l.rows ==> BaseOf(k) in ks
    ensures EdgesWithin(l.rows[k], RowOf(Spread(Part(l, ks)).rows, BaseOf(k)))
  {
    assert RowFits(Keyboard, l.rows[k]);
    assert EdgesWithin(l.rows[k], RowOf(l.rows, BaseOf(k)));
    assert BaseOf(k) in l.rows;
    assert BaseOf(k) in Elements(ks);
  }

  lemma RowIsFaithful(l: Ledger, ks: seq<Key>, k: Key)
    requires Inv(l) && AliasesCovered(l) && Elements(ks) <= l.rows.Keys && k in l.rows && k !in ks
    requires |HeldMedia(l)| <= MEDIA_SLOTS && Inv(Spread(Part(l, ks)))
    requires Aliases(k) && BaseOf(k) in l.rows ==> BaseOf(k) in ks
    ensures FaithfulRun(Spread(Part(l, ks)), RowCommands(l, k))
  {
    var s := l.rows[k];
    if k.cls == Media {
      RoomForOne(l, ks, k);
      MediaIsFaithful(Spread(Part(l, ks)), k, s);
    } else if k == BTN_ALL {
      BlanketIsFaithful(s, l.buttons);
      AnywhereIsFaithful(Spread(Part(l, ks)), RowCommands(l, k));
    } else if Aliases(k) {
      KeyRowInPart(l, ks, k);
      AliasIsFaithful(Spread(Part(l, ks)), k, s);
    } else {
      CommandsAreFaithful(k, s);
      AnywhereIsFaithful(Spread(Part(l, ks)), RowCommands(l, k));
    }
  }

  lemma RoomForOne(l: Ledger, ks: seq<Key>, k: Key)
    requires Inv(l) && Elements(ks) <= l.rows.Keys && k in l.rows && k !in ks && |HeldMedia(l)| <= MEDIA_SLOTS
    ensures IsMediaSlot(k) && k.id != 0 ==> |HeldMedia(Part(l, ks))| < MEDIA_SLOTS
  {
    var part := Part(l, ks);
    if IsMediaSlot(k) && k.id != 0 {
      forall id ensures id in MediaIds(ks) ==> id in l.media && id != k.id {
        MediaIdsAre(ks, id);
        assert Key(Media, id) in ks ==> Key(Media, id) in Elements(ks);
      }
      assert HeldMedia(part) <= HeldMedia(l) - {k.id};
      SubsetSize(HeldMedia(part), HeldMedia(l) - {k.id});
    }
  }

  lemma {:induction false} BoxInTurn(box: Box, a: seq<Command>, b: seq<Command>, n: nat)
    requires Shaped(box)
    ensures BoxApplyAll(box, a + b, n) == BoxApplyAll(BoxApplyAll(box, a, n), b, n)
    decreases |b|
  {
    if b == [] {
      assert a + b == a;
    } else {
      BoxInTurn(box, a, b[..|b| - 1], n);
      assert (a + b)[..|a + b| - 1] == a + b[..|b| - 1];
    }
  }

  lemma ReplayOneRow(l: Ledger, m: Ledger, ks: seq<Key>, k: Key)
    requires Inv(m) && m.buttons == l.buttons && m == AppliedAll(Fresh(l), Replay(l, ks))
    requires Agree(m, BoxApplyAll(EMPTY, Replay(l, ks), l.buttons)) && FaithfulRun(m, RowCommands(l, k))
    ensures var cs := Replay(l, ks) + RowCommands(l, k);
            Inv(AppliedAll(Fresh(l), cs)) && Agree(AppliedAll(Fresh(l), cs), BoxApplyAll(EMPTY, cs, l.buttons))
  {
    hide AppliedAll, RowCommands, Replay, Inv, Agree, FaithfulRun;
    RunAgrees(m, BoxApplyAll(EMPTY, Replay(l, ks), l.buttons), RowCommands(l, k));
    AppliedInTurn(Fresh(l), Replay(l, ks), RowCommands(l, k));
    BoxInTurn(EMPTY, Replay(l, ks), RowCommands(l, k), l.buttons);
  }

  lemma {:induction false} ReplayAgrees(l: Ledger, ks: seq<Key>)
    requires Inv(l) && AliasesCovered(l) && |HeldMedia(l)| <= MEDIA_SLOTS
    requires Elements(ks) <= l.rows.Keys && NoDuplicates(ks) && BasesFirst(l, ks)
    ensures Inv(Spread(Part(l, ks)))
    ensures Agree(Spread(Part(l, ks)), BoxApplyAll(EMPTY, Replay(l, ks), l.buttons))
  {
    PrefixRebuilds(l, ks);
    if ks == [] {
      FreshAgrees(l.buttons);
    } else {
      hide AppliedAll, BoxApplyAll, RowCommands, Spread, Part, Inv, Agree, FaithfulRun, AliasesCovered, HeldMedia;
      var rest, k := ks[..|ks| - 1], ks[|ks| - 1];
      AllButLast(ks);
      BasesStillFirst(l, ks);
      ReplayAgrees(l, rest);
      PrefixRebuilds(l, rest);
      RowIsFaithful(l, rest, k);
      SpreadKeepsButtons(l, rest);
      ReplayOneRow(l, Spread(Part(l, rest)), rest, k);
    }
  }

  lemma BasesStillFirst(l: Ledger, ks: seq<Key>)
    requires BasesFirst(l, ks) && ks != []
    ensures BasesFirst(l, ks[..|ks| - 1])
    ensures var k := ks[|ks| - 1]; Aliases(k) && BaseOf(k) in l.rows ==> BaseOf(k) in ks[..|ks| - 1]
  {
    var rest := ks[..|ks| - 1];
    forall i | 0 <= i < |rest| && Aliases(rest[i]) && BaseOf(rest[i]) in l.rows ensures BaseOf(rest[i]) in rest[..i] {
      assert rest[..i] == ks[..i] && rest[i] == ks[i];
    }
  }

  lemma SpreadKeepsButtons(l: Ledger, ks: seq<Key>)
    requires Elements(ks) <= l.rows.Keys
    ensures Spread(Part(l, ks)).buttons == l.buttons
  {
  }

  lemma SpreadReadsTheSame(l: Ledger, box: Box)
    requires Inv(l)
    ensures Agree(Spread(l), box) <==> Agree(l, box)
  {
    var m := Spread(l);
    assert Key(Media, ALL) in m.rows <==> Key(Media, ALL) in l.rows;
    forall k: Key | k.cls != Btn ensures RowOf(m.rows, k) == RowOf(l.rows, k) {
    }
    forall b | 0 <= b < l.buttons ensures ButtonRow(m, b) == ButtonRow(l, b) {
      assert Key(Btn, b) in ButtonKeys(l.buttons);
    }
    assert m.media == l.media && m.buttons == l.buttons;
    hide Inv, Spread, RowOf, ButtonRow;
    assert AxesAgree(m, box) <==> AxesAgree(l, box);
    assert ButtonsAgree(m, box) <==> ButtonsAgree(l, box);
    forall id: int ensures KeyAgrees(m, box, id) <==> KeyAgrees(l, box, id) {
    }
    assert KeysAgree(m, box) <==> KeysAgree(l, box);
    assert MediaAgree(m, box) <==> MediaAgree(l, box);
  }

  // What an uncovered alias leaves behind

  predicate Blocks(c: Command) {
    c.key.cls == Keyboard ==> 0 <= c.scale < PASS
  }

  /** Key commands that only ever block. */
  ghost predicate OnlyBlocks(cs: seq<Command>) {
    forall i :: 0 <= i < |cs| ==> Blocks(cs[i])
  }

  lemma {:induction false} BitsStay(box: Box, cs: seq<Command>, n: nat)
    requires Shaped(box) && OnlyBlocks(cs)
    ensures box.press <= BoxApplyAll(box, cs, n).press && box.release <= BoxApplyAll(box, cs, n).release
  {
    if cs != [] {
      var rest := cs[..|cs| - 1];
      assert forall i :: 0 <= i < |rest| ==> rest[i] == cs[i];
      assert Blocks(cs[|cs| - 1]);
      BitsStay(box, rest, n);
    }
  }

  lemma CommandsBlock(k: Key, s: Slots)
    requires k.cls == Keyboard ==> s == PASSING || RowFits(Keyboard, s)
    ensures OnlyBlocks(Commands(k, s))
  {
  }

  lemma {:induction false} BlanketBlocks(s: Slots, n: nat)
    ensures OnlyBlocks(BlanketCommands(s, n))
  {
    if n > 0 {
      hide Commands;
      BlanketBlocks(s, n - 1);
      CommandsBlock(Key(Btn, n - 1), s);
    }
  }

  lemma {:induction false} ReplayBlocks(l: Ledger, ks: seq<Key>)
    requires Inv(l)
    ensures OnlyBlocks(Replay(l, ks))
  {
    if ks != [] {
      var k := ks[|ks| - 1];
      assert k in l.rows ==> RowFits(k.cls, l.rows[k]);
      hide Commands, BlanketCommands, RowFits, Inv;
      ReplayBlocks(l, ks[..|ks| - 1]);
      BlanketBlocks(RowOf(l.rows, k), l.buttons);
      if k != BTN_ALL {
        CommandsBlock(k, RowOf(l.rows, k));
      }
    }
  }

  lemma AliasSetsItsCell(box: Box, k: Key, s: Slots, n: nat)
    requires Shaped(box) && Addressable(k) && Aliases(k) && RowFits(Keyboard, s)
    ensures var after := BoxApplyAll(box, Commands(k, s), n);
            (s.pos != PASS ==> k.id % 256 in after.press) && (s.neg != PASS ==> k.id % 256 in after.release)
  {
    var c := OneCommand(k, s);
    assert [c][..0] == [];
    assert BoxApplyAll(box, [], n) == box;
    assert BoxApplyAll(box, [c], n) == BoxApply(box, c, n);
  }

  lemma AliasShows(l: Ledger, ks: seq<Key>, i: nat)
    requires Inv(l) && i < |ks| && ks[i] in l.rows && Aliases(ks[i])
    ensures var after := BoxApplyAll(EMPTY, Replay(l, ks), l.buttons); var s := l.rows[ks[i]];
            (s.pos != PASS ==> ks[i].id % 256 in after.press) && (s.neg != PASS ==> ks[i].id % 256 in after.release)
  {
    hide Replay, BoxApplyAll, Commands, OnlyBlocks;
    var front, k, back := ks[..i], ks[i], ks[i + 1..];
    var start := BoxApplyAll(EMPTY, Replay(l, front), l.buttons);
    assert RowFits(Keyboard, l.rows[k]) && Addressable(k);
    AliasSetsItsCell(start, k, l.rows[k], l.buttons);
    ReplayBlocks(l, back);
    BitsStay(BoxApplyAll(start, RowCommands(l, k), l.buttons), Replay(l, back), l.buttons);
    ReplayThrough(l, ks, i);
  }

  lemma ReplayThrough(l: Ledger, ks: seq<Key>, i: nat)
    requires i < |ks|
    ensures BoxApplyAll(EMPTY, Replay(l, ks), l.buttons) ==
            BoxApplyAll(BoxApplyAll(BoxApplyAll(EMPTY, Replay(l, ks[..i]), l.buttons), RowCommands(l, ks[i]), l.buttons),
                        Replay(l, ks[i + 1..]), l.buttons)
  {
    hide Replay, BoxApplyAll, RowCommands;
    var front, k, back := ks[..i], ks[i], ks[i + 1..];
    assert ks == front + [k] + back;
    ReplayInTurn(l, front + [k], back);
    OneMoreRow(l, front, k);
    BoxInTurn(EMPTY, Replay(l, front) + RowCommands(l, k), Replay(l, back), l.buttons);
    BoxInTurn(EMPTY, Replay(l, front), RowCommands(l, k), l.buttons);
  }

  lemma ReplayShowsAliases(l: Ledger, ks: seq<Key>)
    requires Inv(l) && IsArranged(l, ks) && Agree(l, BoxApplyAll(EMPTY, Replay(l, ks), l.buttons))
    ensures AliasesCovered(l)
  {
    var after := BoxApplyAll(EMPTY, Replay(l, ks), l.buttons);
    hide Replay, BoxApplyAll, AxesAgree, ButtonsAgree, MediaAgree;
    forall k | k in l.rows && Aliases(k) ensures EdgesWithin(l.rows[k], RowOf(l.rows, BaseOf(k))) {
      assert k in Elements(ks);
      var i :| 0 <= i < |ks| && ks[i] == k;
      AliasShows(l, ks, i);
      assert KeyAgrees(l, after, k.id % 256);
    }
  }

  /** A box that restarted empty, and agreed with the ledger before, agrees with it again after the
      replay, exactly when no held key blocks, on the cell of another, an edge the other lets pass. */
  lemma ReplayRestoresTheBox(l: Ledger, before: Box, ks: seq<Key>)
    requires Inv(l) && Agree(l, before) && IsArranged(l, ks)
    ensures Agree(l, BoxApplyAll(EMPTY, Replay(l, ks), l.buttons)) <==> AliasesCovered(l)
  {
    if AliasesCovered(l) {
      SameMediaHeld(l, before);
      FirstFreeCount(before.media, HeldMedia(l));
      SortedDistinct(l.media, ks);
      ArrangedBasesFirst(l, ks);
      ReplayAgrees(l, ks);
      WholePart(l, ks);
      SpreadReadsTheSame(l, BoxApplyAll(EMPTY, Replay(l, ks), l.buttons));
    } else if Agree(l, BoxApplyAll(EMPTY, Replay(l, ks), l.buttons)) {
      ReplayShowsAliases(l, ks);
    }
    hide Agree, Replay, BoxApplyAll, AliasesCovered;
  }

  /** A key past the box's 256 locked, then the key it aliases unlocked: ledger and box agree that no
      key below 256 is held, and the replay onto an empty box locks one. */
  lemma AliasBreaksTheReplay(id: int, ks: seq<Key>)
    requires 256 <= id < ALL && FIRST_KEY <= id % 256
    requires var lock, unlock := Command(Key(Keyboard, id), Both, BLOCK), Command(Key(Keyboard, id % 256), Both, PASS);
             IsArranged(AppliedAll(NewLedger(), [lock, unlock]), ks)
    ensures var lock, unlock := Command(Key(Keyboard, id), Both, BLOCK), Command(Key(Keyboard, id % 256), Both, PASS);
            var l, box := AppliedAll(NewLedger(), [lock, unlock]), BoxApplyAll(EMPTY, [lock, unlock], NAMED_BUTTONS);
            Inv(l) && Agree(l, box) && !Agree(l, BoxApplyAll(EMPTY, Replay(l, ks), NAMED_BUTTONS))
  {
    hide Replay;
    AliasedLedger(id);
    AliasedBox(id);
    AliasedAgrees(id);
    ReplayRestoresTheBox(AliasOnly(id), EMPTY, ks);
    NotCovered(id);
    hide Agree, BoxApplyAll, AppliedAll, AliasesCovered, AliasOnly, Inv;
  }

  function AliasOnly(id: int): Ledger {
    Ledger(map[Key(Keyboard, id) := BLOCKED], [], NAMED_BUTTONS)
  }

  lemma AliasedLedger(id: int)
    requires 256 <= id < ALL && FIRST_KEY <= id % 256
    ensures AppliedAll(NewLedger(), [Command(Key(Keyboard, id), Both, BLOCK), Command(Key(Keyboard, id % 256), Both, PASS)])
         == AliasOnly(id)
  {
    var lock, unlock := Command(Key(Keyboard, id), Both, BLOCK), Command(Key(Keyboard, id % 256), Both, PASS);
    assert [lock, unlock][..1] == [lock] && [lock][..0] == [];
    assert AppliedAll(NewLedger(), [lock]) == Applied(NewLedger(), lock);
    assert Applied(NewLedger(), lock) == AliasOnly(id);
    assert Applied(AliasOnly(id), unlock).rows == AliasOnly(id).rows;
  }

  lemma AliasedBox(id: int)
    requires 256 <= id < ALL && FIRST_KEY <= id % 256
    ensures BoxApplyAll(EMPTY, [Command(Key(Keyboard, id), Both, BLOCK), Command(Key(Keyboard, id % 256), Both, PASS)],
                        NAMED_BUTTONS) == EMPTY
  {
    var lock, unlock := Command(Key(Keyboard, id), Both, BLOCK), Command(Key(Keyboard, id % 256), Both, PASS);
    assert [lock, unlock][..1] == [lock] && [lock][..0] == [];
    assert BoxApplyAll(EMPTY, [lock], NAMED_BUTTONS) == BoxApply(EMPTY, lock, NAMED_BUTTONS);
    var box := BoxApply(EMPTY, lock, NAMED_BUTTONS);
    assert box.press == {id % 256} && box.release == {id % 256};
    assert BoxApply(box, unlock, NAMED_BUTTONS).press == {};
  }

  lemma AliasedAgrees(id: int)
    requires 256 <= id < ALL
    ensures Inv(AliasOnly(id)) && Agree(AliasOnly(id), EMPTY)
  {
  }

  lemma NotCovered(id: int)
    requires 256 <= id < ALL && FIRST_KEY <= id % 256
    ensures !AliasesCovered(AliasOnly(id))
  {
    assert Key(Keyboard, id) in AliasOnly(id).rows && Aliases(Key(Keyboard, id));
  }

  lemma {:induction false} LeastExists(media: seq<int>, ks: set<Key>) returns (least: Key)
    requires ks != {}
    ensures least in ks && forall k :: k in ks && k != least ==> Before(media, least, k)
    decreases ks
  {
    least :| least in ks;
    var rest := ks - {least};
    assert forall k :: k in ks ==> k == least || k in rest;
    if rest != {} {
      var other := LeastExists(media, rest);
      if !Before(media, least, other) {
        TotalOrder(media, least, other);
        least := other;
      } else {
        forall k | k in rest && k != other ensures Before(media, least, k) {
          Transitive(media, least, other, k);
        }
      }
    }
  }

  lemma TotalOrder(media: seq<int>, a: Key, b: Key)
    requires a != b
    ensures Before(media, a, b) || Before(media, b, a)
  {
  }

  lemma Transitive(media: seq<int>, a: Key, b: Key, c: Key)
    requires Before(media, a, b) && Before(media, b, c)
    ensures Before(media, a, c)
  {
  }

  method LeastRow(media: seq<int>, ks: set<Key>) returns (least: Key)
    requires ks != {}
    ensures least in ks && forall k :: k in ks && k != least ==> Before(media, least, k)
  {
    ghost var k := LeastExists(media, ks);
    least :| least in ks && forall k :: k in ks && k != least ==> Before(media, least, k);
  }

  /** The commands of the reconnect replay, row by row in class, slot and id order. */
  method HeldLocks(d: DesiredLocks) returns (commands: seq<Command>, ghost ks: seq<Key>)
    ensures IsArranged(d.State(), ks) && commands == Replay(d.State(), ks)
    ensures Inv(d.State()) ==> AppliedAll(Fresh(d.State()), commands) == Spread(d.State())
  {
    ks, commands := [], [];
    ghost var l := d.State();
    var todo := d.rows.Keys;
    while todo != {}
      invariant Elements(ks) == d.rows.Keys - todo && todo <= d.rows.Keys
      invariant Sorted(d.media, ks) && forall i, k :: 0 <= i < |ks| && k in todo ==> Before(d.media, ks[i], k)
      invariant commands == Replay(l, ks)
      decreases todo
    {
      hide Before, Commands, BlanketCommands, Replay;
      var k := LeastRow(d.media, todo);
      var row := RowOf(d.rows, k);
      OneMoreRow(l, ks, k);
      if k == BTN_ALL {
        commands := commands + BlanketCommands(row, d.ButtonCount());
      } else {
        commands := commands + Commands(k, row);
      }
      ks := ks + [k];
      todo := todo - {k};
    }
    if Inv(l) {
      ReplayRebuilds(l, ks);
    }
  }

  lemma OneMoreRow(l: Ledger, ks: seq<Key>, k: Key)
    ensures Replay(l, ks + [k]) == Replay(l, ks) + RowCommands(l, k)
    ensures Elements(ks + [k]) == Elements(ks) + {k}
  {
    assert (ks + [k])[..|ks|] == ks;
  }
}
