/** The host's copy of the box's lock table: sparse rows, a button blanket kept as one row until a
    single button breaks it up, and an exact undo for a frame that never reached the transport. */
module LockLedger {
  import opened Wrappers
  import opened Finite

  const PASS := 100
  const BLOCK := 0
  const SCALE_MIN := -255
  const SCALE_MAX := 255

  datatype Class = Btn | Keyboard | Media | Axis
  datatype Direction = Both | Positive | Negative | With | Against

  /** The id that names a whole class. */
  const ALL := 0xFFFF

  datatype Key = Key(cls: Class, id: int)

  const AXES := 4
  const NAMED_BUTTONS := 5
  const MAX_BUTTONS := 16

  const BTN_ALL := Key(Btn, ALL)

  /** One row of the lock table: the percentage each direction keeps. */
  datatype Slots = Slots(pos: int, neg: int, along: int, against: int)

  const PASSING := Slots(PASS, PASS, PASS, PASS)

  function Write(s: Slots, dir: Direction, scale: int): Slots {
    match dir
    case Both => Slots(scale, scale, PASS, PASS)
    case Positive => s.(pos := scale)
    case Negative => s.(neg := scale)
    case With => s.(along := scale)
    case Against => s.(against := scale)
  }

  /** A command as it goes on the wire. */
  datatype Command = Command(key: Key, dir: Direction, scale: int)

  /** A momentary usage carries one bit, so its scale is stored as a block or a pass. */
  function Normal(cls: Class, scale: int): int {
    if cls == Axis then scale else if scale < PASS then BLOCK else PASS
  }

  datatype Ledger = Ledger(rows: map<Key, Slots>, media: seq<int>, buttons: nat)

  function RowOf(rows: map<Key, Slots>, k: Key): Slots {
    if k in rows then rows[k] else PASSING
  }

  /** A granular media lock takes a slot in an ordered list; its blanket is a separate flag. */
  predicate IsMediaSlot(k: Key) {
    k.cls == Media && k.id != ALL
  }

  function Omit(ids: seq<int>, id: int): seq<int> {
    if ids == [] then []
    else
      var rest := Omit(ids[..|ids| - 1], id);
      if ids[|ids| - 1] == id then rest else rest + [ids[|ids| - 1]]
  }

  // What a lock command does to the ledger

  /** Row `k` set to `s`: a row with every slot at pass is dropped, and a media slot keeps its place. */
  function Settled(l: Ledger, k: Key, s: Slots): Ledger {
    if s == PASSING then
      l.(rows := l.rows - {k}, media := if IsMediaSlot(k) then Omit(l.media, k.id) else l.media)
    else
      l.(rows := l.rows[k := s],
         media := if IsMediaSlot(k) && k.id !in l.media then l.media + [k.id] else l.media)
  }

  function ButtonKeys(n: nat): set<Key> {
    set b | 0 <= b < n :: Key(Btn, b)
  }

  /** The rows a fresh button blanket leaves: it covers every button row. */
  function WithoutButtons(rows: map<Key, Slots>): map<Key, Slots> {
    map k | k in rows && (k.cls != Btn || k.id == ALL) :: rows[k]
  }

  /** The held blanket broken into one row a declared button. */
  function Burst(rows: map<Key, Slots>, n: nat): map<Key, Slots>
    requires BTN_ALL in rows
  {
    map k | k in rows.Keys + ButtonKeys(n) && k != BTN_ALL :: if k in rows then rows[k] else rows[BTN_ALL]
  }

  function Prepared(l: Ledger, k: Key): Ledger {
    if k == BTN_ALL then l.(rows := WithoutButtons(l.rows))
    else if k.cls == Btn && BTN_ALL in l.rows then l.(rows := Burst(l.rows, l.buttons))
    else l
  }

  function Applied(l: Ledger, c: Command): Ledger {
    var m := Prepared(l, c.key);
    Settled(m, c.key, Write(RowOf(m.rows, c.key), c.dir, Normal(c.key.cls, c.scale)))
  }

  /** What a lock target can name. */
  predicate Addressable(k: Key) {
    0 <= k.id <= ALL && (k.cls == Axis ==> k.id < AXES)
  }

  /** What the lock call lets through to the wire. */
  ghost predicate OnTheWire(c: Command) {
    InRange(c.scale) && Addressable(c.key) &&
    (c.key.cls != Axis ==> c.scale >= 0 && c.dir != With && c.dir != Against) &&
    (c.key.cls == Media ==> c.dir == Both)
  }

  // What every command keeps

  predicate OneBit(scale: int) {
    scale == PASS || scale == BLOCK
  }

  predicate InRange(scale: int) {
    SCALE_MIN <= scale <= SCALE_MAX
  }

  predicate RowFits(cls: Class, s: Slots) {
    s != PASSING && InRange(s.pos) && InRange(s.neg) && InRange(s.along) && InRange(s.against) &&
    (cls != Axis ==> OneBit(s.pos) && OneBit(s.neg) && s.along == PASS && s.against == PASS) &&
    (cls == Media ==> s.pos == s.neg)
  }

  ghost predicate RowsFit(rows: map<Key, Slots>) {
    forall k :: k in rows ==> Addressable(k) && RowFits(k.cls, rows[k])
  }

  /** The media list holds exactly the granular media rows, each once. */
  ghost predicate MediaListed(l: Ledger) {
    NoDuplicates(l.media) && forall id :: id in l.media <==> id != ALL && Key(Media, id) in l.rows
  }

  ghost predicate BlanketAlone(rows: map<Key, Slots>) {
    BTN_ALL in rows ==> forall k :: k in rows && k.cls == Btn ==> k == BTN_ALL
  }

  ghost predicate Inv(l: Ledger) {
    RowsFit(l.rows) && MediaListed(l) && BlanketAlone(l.rows) && l.buttons <= MAX_BUTTONS
  }

  lemma {:induction false} OmitIsExact(ids: seq<int>, id: int)
    ensures forall x :: x in Omit(ids, id) <==> x in ids && x != id
    ensures NoDuplicates(ids) ==> NoDuplicates(Omit(ids, id))
  {
    if ids != [] {
      var rest, last := ids[..|ids| - 1], ids[|ids| - 1];
      OmitIsExact(rest, id);
      assert ids == rest + [last];
      if NoDuplicates(ids) {
        assert last !in rest;
      }
    }
  }

  lemma {:induction false} OmitAbsent(ids: seq<int>, id: int)
    requires id !in ids
    ensures Omit(ids, id) == ids
  {
    if ids != [] {
      OmitAbsent(ids[..|ids| - 1], id);
    }
  }

  lemma SettledKeepsMedia(l: Ledger, k: Key, s: Slots)
    requires MediaListed(l)
    ensures MediaListed(Settled(l, k, s))
  {
    OmitIsExact(l.media, k.id);
  }

  lemma PreparedKeeps(l: Ledger, k: Key)
    requires Inv(l)
    ensures Inv(Prepared(l, k))
    ensures k.cls == Btn && k != BTN_ALL ==> BTN_ALL !in Prepared(l, k).rows
    ensures k == BTN_ALL ==> forall j :: j in Prepared(l, k).rows && j.cls == Btn ==> j == BTN_ALL
  {
  }

  lemma WriteFits(cls: Class, s: Slots, c: Command)
    requires OnTheWire(c) && c.key.cls == cls && (s == PASSING || RowFits(cls, s))
    ensures var t := Write(s, c.dir, Normal(cls, c.scale)); t == PASSING || RowFits(cls, t)
  {
  }

  /** Every command the lock call lets through keeps the ledger well formed. */
  lemma AppliedKeepsInv(l: Ledger, c: Command)
    requires Inv(l) && OnTheWire(c)
    ensures Inv(Applied(l, c))
  {
    var m := Prepared(l, c.key);
    PreparedKeeps(l, c.key);
    var s := Write(RowOf(m.rows, c.key), c.dir, Normal(c.key.cls, c.scale));
    WriteFits(c.key.cls, RowOf(m.rows, c.key), c);
    SettledKeepsMedia(m, c.key, s);
  }

  // The undo

  datatype Prior = Prior(key: Key, row: Option<Slots>)

  /** Every row a command touched with what it held, oldest first, and the media list it started from. */
  datatype Undo = Undo(priors: seq<Prior>, media: seq<int>)

  function Put(rows: map<Key, Slots>, p: Prior): map<Key, Slots> {
    if p.row.Some? then rows[p.key := p.row.value] else rows - {p.key}
  }

  /** Undone newest first. */
  function Rewound(rows: map<Key, Slots>, priors: seq<Prior>): map<Key, Slots>
    decreases |priors|
  {
    if priors == [] then rows
    else Rewound(Put(rows, priors[|priors| - 1]), priors[..|priors| - 1])
  }

  lemma RewindOne(rows: map<Key, Slots>, priors: seq<Prior>, p: Prior)
    ensures Rewound(rows, priors + [p]) == Rewound(Put(rows, p), priors)
  {
    assert (priors + [p])[..|priors|] == priors;
  }

  function PriorOf(rows: map<Key, Slots>, k: Key): Prior {
    Prior(k, if k in rows then Some(rows[k]) else None)
  }

  lemma PutBack(rows: map<Key, Slots>, k: Key, s: Slots)
    ensures Put(rows[k := s], PriorOf(rows, k)) == rows
    ensures Put(rows - {k}, PriorOf(rows, k)) == rows
  {
  }

  datatype LockError = ScaleRange | ScaleUsage | RelativeDirection | LinkDown

  /** The direction that goes on the wire: only an axis has a bearing, and a media usage has no edges. */
  function LockDirection(cls: Class, dir: Direction): Result<Direction, LockError> {
    if cls == Axis then Ok(dir)
    else if dir == With || dir == Against then Err(RelativeDirection)
    else Ok(if cls == Media then Both else dir)
  }

  function Checked(k: Key, dir: Direction, scale: int): Result<Command, LockError> {
    if !InRange(scale) then Err(ScaleRange)
    else if scale < 0 && k.cls != Axis then Err(ScaleUsage)
    else
      match LockDirection(k.cls, dir)
      case Err(e) => Err(e)
      case Ok(d) => Ok(Command(k, d, scale))
  }

  lemma CheckedIsOnTheWire(k: Key, dir: Direction, scale: int)
    requires Checked(k, dir, scale).Ok? && Addressable(k)
    ensures OnTheWire(Checked(k, dir, scale).value)
  {
  }

  /** What a lock call lets through, and under which of its errors it refuses the rest. What goes on the
      wire is what the caller named, but that a media usage is locked whole. */
  lemma CheckedIff(k: Key, dir: Direction, scale: int)
    ensures var res := Checked(k, dir, scale); var relative := k.cls != Axis && (dir == With || dir == Against);
            (res.Ok? <==> -255 <= scale <= 255 && (k.cls != Axis ==> scale >= 0) && !relative) &&
            (res == Err(ScaleRange) <==> !(-255 <= scale <= 255)) &&
            (res == Err(ScaleUsage) <==> -255 <= scale < 0 && k.cls != Axis) &&
            (res.Ok? ==> res.value == Command(k, if k.cls == Media then Both else dir, scale))
  {
  }

  /** What the ledger says of a target: a held blanket stands for every single button. */
  function Reading(l: Ledger, k: Key): Slots {
    if k.cls == Btn && BTN_ALL in l.rows then l.rows[BTN_ALL] else RowOf(l.rows, k)
  }

  /** The slots a call writes. A lock on both signs sets those two and clears the relative ones. */
  predicate Takes(s: Slots, was: Slots, dir: Direction, v: int) {
    match dir
    case Both => s.pos == s.neg == v && s.along == s.against == PASS
    case Positive => s.pos == v && s.neg == was.neg && s.along == was.along && s.against == was.against
    case Negative => s.neg == v && s.pos == was.pos && s.along == was.along && s.against == was.against
    case With => s.along == v && s.pos == was.pos && s.neg == was.neg && s.against == was.against
    case Against => s.against == v && s.pos == was.pos && s.neg == was.neg && s.along == was.along
  }

  /** A target the ledger speaks of: a button only if it is declared. */
  predicate Spoken(l: Ledger, k: Key) {
    k.cls == Btn && k.id != ALL ==> 0 <= k.id < l.buttons
  }

  /** After a call that goes through, the target it named (with a blanket, every declared button) reads
      the scale in the direction named and nothing else changed of it, and every other target reads as
      before, the blanket's own row apart. A fresh blanket starts from buttons that pass. */
  lemma LockReads(l: Ledger, k: Key, dir: Direction, scale: int, j: Key)
    requires Inv(l) && Checked(k, dir, scale).Ok? && Spoken(l, k) && Spoken(l, j) && (j == BTN_ALL ==> k == BTN_ALL)
    ensures var now := Reading(Applied(l, Checked(k, dir, scale).value), j);
            var v := if k.cls == Axis then scale else if scale < 100 then 0 else 100;
            if j == k || (k == BTN_ALL && j.cls == Btn) then
              Takes(now, if k == BTN_ALL && BTN_ALL !in l.rows then PASSING else Reading(l, j),
                    if k.cls == Media then Both else dir, v)
            else now == Reading(l, j)
  {
    if k.cls == Btn && k != BTN_ALL && BTN_ALL in l.rows {
      assert k in ButtonKeys(l.buttons);
      if j.cls == Btn {
        assert j in ButtonKeys(l.buttons);
      }
    }
  }

  class DesiredLocks {
    var rows: map<Key, Slots>
    var media: seq<int>
    var declared: Option<nat>

    ghost function State(): Ledger
      reads this
    {
      Ledger(rows, media, ButtonCount())
    }

    constructor ()
      ensures State() == Ledger(map[], [], NAMED_BUTTONS) && Inv(State())
    {
      rows, media, declared := map[], [], None;
    }

    /** The declared count once the box has reported it, else the named buttons. */
    function ButtonCount(): nat
      reads `declared
    {
      if declared.Some? then declared.value else NAMED_BUTTONS
    }

    method NoteDeclaredButtons(count: nat)
      modifies `declared
      ensures State() == old(State()).(buttons := if count < MAX_BUTTONS then count else MAX_BUTTONS)
    {
      declared := Some(if count < MAX_BUTTONS then count else MAX_BUTTONS);
    }

    /** Writes one row, dropping it once every slot passes. */
    method WriteLockRow(k: Key, dir: Direction, scale: int, undo: Undo) returns (out: Undo)
      modifies `rows, `media
      ensures State() == Settled(old(State()), k, Write(RowOf(old(rows), k), dir, scale))
      ensures out.media == undo.media && Rewound(rows, out.priors) == Rewound(old(rows), undo.priors)
    {
      out := undo.(priors := undo.priors + [PriorOf(rows, k)]);
      var row := Write(RowOf(rows, k), dir, scale);
      PutBack(rows, k, row);
      if row == PASSING {
        rows := rows - {k};
        if IsMediaSlot(k) {
          media := Omit(media, k.id);
        }
      } else {
        rows := rows[k := row];
        if IsMediaSlot(k) && k.id !in media {
          media := media + [k.id];
        }
      }
      RewindOne(rows, undo.priors, PriorOf(old(rows), k));
    }

    method ClearButtonRows(undo: Undo) returns (out: Undo)
      modifies `rows
      ensures rows == WithoutButtons(old(rows))
      ensures out.media == undo.media && Rewound(rows, out.priors) == Rewound(old(rows), undo.priors)
    {
      out := undo;
      var todo := set k | k in rows && k.cls == Btn && k.id != ALL;
      while todo != {}
        invariant todo <= rows.Keys && forall k :: k in todo ==> k.cls == Btn && k.id != ALL
        invariant WithoutButtons(rows) == WithoutButtons(old(rows))
        invariant forall k :: k in rows && k.cls == Btn && k.id != ALL ==> k in todo
        invariant out.media == undo.media && Rewound(rows, out.priors) == Rewound(old(rows), undo.priors)
        decreases todo
      {
        var k :| k in todo;
        PutBack(rows, k, PASSING);
        RewindOne(rows - {k}, out.priors, PriorOf(rows, k));
        out := out.(priors := out.priors + [PriorOf(rows, k)]);
        rows := rows - {k};
        todo := todo - {k};
      }
      assert WithoutButtons(rows) == rows;
    }

    /** Breaks a held blanket into one row a declared button. */
    method BurstButtonBlanket(undo: Undo) returns (out: Undo)
      modifies `rows
      ensures BTN_ALL !in old(rows) ==> rows == old(rows)
      ensures BTN_ALL in old(rows) ==> rows == Burst(old(rows), ButtonCount())
      ensures out.media == undo.media && Rewound(rows, out.priors) == Rewound(old(rows), undo.priors)
    {
      out := undo;
      if BTN_ALL !in rows {
        return;
      }
      var blanket := rows[BTN_ALL];
      var b := 0;
      while b < ButtonCount()
        invariant b <= ButtonCount()
        invariant rows == map k | k in old(rows).Keys + ButtonKeys(b) :: if k in old(rows) then old(rows)[k] else blanket
        invariant out.media == undo.media && Rewound(rows, out.priors) == Rewound(old(rows), undo.priors)
      {
        var k := Key(Btn, b);
        assert ButtonKeys(b + 1) == ButtonKeys(b) + {k};
        if k !in rows {
          PutBack(rows, k, blanket);
          RewindOne(rows[k := blanket], out.priors, PriorOf(rows, k));
          out := out.(priors := out.priors + [PriorOf(rows, k)]);
          rows := rows[k := blanket];
        }
        b := b + 1;
      }
      PutBack(rows, BTN_ALL, PASSING);
      RewindOne(rows - {BTN_ALL}, out.priors, PriorOf(rows, BTN_ALL));
      out := out.(priors := out.priors + [PriorOf(rows, BTN_ALL)]);
      rows := rows - {BTN_ALL};
    }

    /** Records a lock before its frame is sent. The undo takes the ledger back, order included. */
    method ApplyLock(c: Command) returns (undo: Undo)
      modifies `rows, `media
      ensures State() == Applied(old(State()), c)
      ensures undo.media == old(media) && Rewound(rows, undo.priors) == old(rows)
    {
      var scale := Normal(c.key.cls, c.scale);
      undo := Undo([], media);
      if c.key == BTN_ALL {
        undo := ClearButtonRows(undo);
      } else if c.key.cls == Btn && BTN_ALL in rows {
        undo := BurstButtonBlanket(undo);
      }
      undo := WriteLockRow(c.key, c.dir, scale, undo);
    }

    method RestoreLock(undo: Undo)
      modifies `rows, `media
      ensures rows == Rewound(old(rows), undo.priors) && media == undo.media
    {
      var i := |undo.priors|;
      assert undo.priors[..i] == undo.priors;
      while i > 0
        invariant i <= |undo.priors|
        invariant Rewound(rows, undo.priors[..i]) == Rewound(old(rows), undo.priors)
      {
        i := i - 1;
        assert undo.priors[..i + 1][..i] == undo.priors[..i];
        rows := Put(rows, undo.priors[i]);
      }
      media := undo.media;
    }

    /** Records, sends, and takes the record back if the frame never left: an outcome other than
        success leaves the ledger as it was. */
    method SendLock(k: Key, dir: Direction, scale: int, up: bool) returns (res: Result<Command, LockError>)
      modifies `rows, `media
      ensures res == if Checked(k, dir, scale).Ok? && !up then Err(LinkDown) else Checked(k, dir, scale)
      ensures State() == if res.Ok? then Applied(old(State()), res.value) else old(State())
    {
      res := Checked(k, dir, scale);
      if res.Ok? {
        var undo := ApplyLock(res.value);
        if !up {
          RestoreLock(undo);
          res := Err(LinkDown);
        }
      }
    }
  }
}
