/** The box's lock table, one cell a target, and when the host's ledger says the same. */
module LockBox {
  import opened LockLedger
  import opened Finite

  const MEDIA_SLOTS := 8

  datatype Edges = Edges(press: bool, release: bool)

  /** Four axes and sixteen buttons, an edge mask and a bit an edge for the keys, and eight media slots
      in which 0 is free. */
  datatype Box = Box(axes: seq<Slots>, buttons: seq<Slots>, keyBlanket: Edges, press: set<int>, release: set<int>,
                     media: seq<int>, mediaBlanket: bool)

  const EMPTY := Box([PASSING, PASSING, PASSING, PASSING], seq(MAX_BUTTONS, i => PASSING), Edges(false, false), {}, {},
                     seq(MEDIA_SLOTS, i => 0), false)

  predicate Shaped(box: Box) {
    |box.axes| == AXES && |box.buttons| == MAX_BUTTONS && |box.media| == MEDIA_SLOTS
  }

  /** The slots a direction names are written one by one; a button ignores the relative pair and stores
      one bit. */
  function Weighed(s: Slots, dir: Direction, scale: int, button: bool): Slots {
    var v := if !button then scale else if scale < PASS then BLOCK else PASS;
    var relative := if dir == Both then PASS else v;
    Slots(if dir == Both || dir == Positive then v else s.pos,
          if dir == Both || dir == Negative then v else s.neg,
          if dir == Both || (dir == With && !button) then relative else s.along,
          if dir == Both || (dir == Against && !button) then relative else s.against)
  }

  function WeighFirst(buttons: seq<Slots>, n: nat, dir: Direction, scale: int): seq<Slots> {
    seq(|buttons|, i requires 0 <= i < |buttons| => if i < n then Weighed(buttons[i], dir, scale, true) else buttons[i])
  }

  function Masked(e: Edges, dir: Direction, on: bool): Edges {
    Edges(if dir == Both || dir == Positive then on else e.press,
          if dir == Both || dir == Negative then on else e.release)
  }

  function Flag(ids: set<int>, id: int, on: bool): set<int> {
    if on then ids + {id} else ids - {id}
  }

  /** A release frees every slot holding the usage; a lock takes the first free slot, or is dropped. */
  function Freed(media: seq<int>, id: int): seq<int> {
    seq(|media|, i requires 0 <= i < |media| => if media[i] == id then 0 else media[i])
  }

  function FirstFree(media: seq<int>): (i: nat)
    ensures i <= |media| && (i < |media| ==> media[i] == 0)
    ensures forall j :: 0 <= j < i ==> media[j] != 0
  {
    if media == [] then 0 else if media[0] == 0 then 0 else 1 + FirstFree(media[1..])
  }

  function Taken(media: seq<int>, id: int): seq<int> {
    var i := FirstFree(media);
    if id in media || i == |media| then media else media[i := id]
  }

  function BoxApply(box: Box, c: Command, declared: nat): Box
    requires Shaped(box)
  {
    var on, id := c.scale < PASS, c.key.id;
    if c.scale < 0 && c.key.cls != Axis then box
    else
      match c.key.cls
      case Axis =>
        if 0 <= id < AXES then box.(axes := box.axes[id := Weighed(box.axes[id], c.dir, c.scale, false)]) else box
      case Btn =>
        var n := if declared < MAX_BUTTONS then declared else MAX_BUTTONS;
        if id == ALL then box.(buttons := WeighFirst(box.buttons, n, c.dir, c.scale))
        else if 0 <= id < n then box.(buttons := box.buttons[id := Weighed(box.buttons[id], c.dir, c.scale, true)])
        else box
      case Keyboard =>
        if id == ALL then box.(keyBlanket := Masked(box.keyBlanket, c.dir, on))
        else if id % 256 < FIRST_KEY then box
        else
          box.(press := if c.dir == Both || c.dir == Positive then Flag(box.press, id % 256, on) else box.press,
               release := if c.dir == Both || c.dir == Negative then Flag(box.release, id % 256, on) else box.release)
      case Media =>
        if id == ALL then box.(mediaBlanket := on)
        else if id == 0 then box
        else box.(media := if on then Taken(box.media, id) else Freed(box.media, id))
  }

  /** The first four key codes are not keys. */
  const FIRST_KEY := 4

  // Agreement

  function ButtonRow(l: Ledger, b: int): Slots {
    RowOf(l.rows, if BTN_ALL in l.rows then BTN_ALL else Key(Btn, b))
  }

  function KeyRow(l: Ledger, id: int): Slots {
    RowOf(l.rows, Key(Keyboard, id))
  }

  ghost predicate AxesAgree(l: Ledger, box: Box) {
    |box.axes| == AXES && forall t :: 0 <= t < AXES ==> box.axes[t] == RowOf(l.rows, Key(Axis, t))
  }

  ghost predicate ButtonsAgree(l: Ledger, box: Box) {
    |box.buttons| == MAX_BUTTONS && forall b :: 0 <= b < l.buttons <= MAX_BUTTONS ==> box.buttons[b] == ButtonRow(l, b)
  }

  ghost predicate KeyAgrees(l: Ledger, box: Box, id: int) {
    (id in box.press <==> KeyRow(l, id).pos != PASS) && (id in box.release <==> KeyRow(l, id).neg != PASS)
  }

  ghost predicate KeysAgree(l: Ledger, box: Box) {
    box.keyBlanket == Edges(KeyRow(l, ALL).pos != PASS, KeyRow(l, ALL).neg != PASS) &&
    forall id :: FIRST_KEY <= id < 256 ==> KeyAgrees(l, box, id)
  }

  ghost predicate EachOnce(media: seq<int>) {
    forall i, j :: 0 <= i < j < |media| && media[i] != 0 ==> media[i] != media[j]
  }

  ghost predicate MediaAgree(l: Ledger, box: Box) {
    |box.media| == MEDIA_SLOTS && EachOnce(box.media) &&
    (box.mediaBlanket <==> Key(Media, ALL) in l.rows) &&
    (forall id :: id in box.media && id != 0 ==> id in l.media) &&
    (forall id :: id in l.media && id != 0 ==> id in box.media)
  }

  /** Every axis, declared button, key and media usage reads the same on both sides. */
  ghost predicate Agree(l: Ledger, box: Box) {
    AxesAgree(l, box) && ButtonsAgree(l, box) && KeysAgree(l, box) && MediaAgree(l, box)
  }

  // When a command keeps the two in agreement

  function Change(c: Command): Slots -> Slots {
    (s: Slots) => Write(s, c.dir, Normal(c.key.cls, c.scale))
  }

  ghost function HeldMedia(l: Ledger): set<int> {
    Elements(l.media) - {0}
  }

  /** A caller can check this against what it holds before the call. A one-direction button blanket
      wipes what single buttons hold in the other direction from the ledger, not from the box; a key
      past the box's 256 lands on the key it aliases; and the box drops a ninth media lock. */
  ghost predicate Faithful(l: Ledger, c: Command) {
    match c.key.cls
    case Axis => true
    case Btn =>
      c.key == BTN_ALL && BTN_ALL !in l.rows ==>
        forall b :: 0 <= b < l.buttons ==> Change(c)(RowOf(l.rows, Key(Btn, b))) == Change(c)(PASSING)
    case Keyboard =>
      256 <= c.key.id < ALL && FIRST_KEY <= c.key.id % 256 ==>
        Change(c)(KeyRow(l, c.key.id % 256)) == KeyRow(l, c.key.id % 256)
    case Media =>
      c.key.id != ALL && c.key.id != 0 && c.scale < PASS ==>
        c.key.id in l.media || |HeldMedia(l)| < MEDIA_SLOTS
  }

  lemma GapBound(media: seq<int>, gap: nat)
    requires gap < |media| && media[gap] == 0
    ensures |Elements(media) - {0}| < |media|
  {
    var rest := media[..gap] + media[gap + 1..];
    forall x | x in Elements(media) - {0} ensures x in Elements(rest) {
      var j :| 0 <= j < |media| && media[j] == x;
      assert x == if j < gap then rest[j] else rest[j - 1];
    }
    ElementsBound(rest);
    SubsetSize(Elements(media) - {0}, Elements(rest));
  }

  lemma FirstFreeCount(media: seq<int>, held: set<int>)
    requires EachOnce(media) && held == Elements(media) - {0}
    ensures FirstFree(media) == |media| <==> |held| == |media|
    ensures |held| <= |media|
  {
    var i := FirstFree(media);
    if i == |media| {
      assert NoDuplicates(media);
      DistinctSize(media);
      assert held == Elements(media);
    } else {
      GapBound(media, i);
    }
  }

  lemma {:induction false} ElementsBound(s: seq<int>)
    ensures |Elements(s)| <= |s|
  {
    if s != [] {
      ElementsBound(s[..|s| - 1]);
      assert Elements(s) == Elements(s[..|s| - 1]) + {s[|s| - 1]};
    }
  }

  // A command changes its own row and, for a button, what the blanket stands for

  lemma ChangedRow(l: Ledger, c: Command, k: Key)
    ensures RowOf(Applied(l, c).rows, k) ==
            if k == c.key then Change(c)(RowOf(Prepared(l, c.key).rows, k)) else RowOf(Prepared(l, c.key).rows, k)
  {
  }

  lemma OtherClass(l: Ledger, c: Command, k: Key)
    requires k.cls != c.key.cls
    ensures RowOf(Applied(l, c).rows, k) == RowOf(l.rows, k)
    ensures k in Applied(l, c).rows <==> k in l.rows
  {
  }

  lemma OneCellIsOneRow(s: Slots, c: Command)
    requires OnTheWire(c) && (c.key.cls == Axis || c.key.cls == Btn)
    ensures Weighed(s, c.dir, c.scale, c.key.cls == Btn) == Change(c)(s)
  {
  }

  lemma AxisStep(l: Ledger, box: Box, c: Command)
    requires AxesAgree(l, box) && Shaped(box) && OnTheWire(c)
    ensures AxesAgree(Applied(l, c), BoxApply(box, c, l.buttons))
  {
    forall t | 0 <= t < AXES
      ensures BoxApply(box, c, l.buttons).axes[t] == RowOf(Applied(l, c).rows, Key(Axis, t))
    {
      if c.key.cls == Axis {
        ChangedRow(l, c, Key(Axis, t));
        OneCellIsOneRow(box.axes[t], c);
      } else {
        OtherClass(l, c, Key(Axis, t));
      }
    }
  }

  /** What a button reads after a command, in terms of what it read before. */
  lemma ButtonAfter(l: Ledger, c: Command, b: int)
    requires Inv(l) && OnTheWire(c) && c.key.cls == Btn && 0 <= b < l.buttons
    ensures ButtonRow(Applied(l, c), b) ==
            if c.key == BTN_ALL then Change(c)(RowOf(l.rows, BTN_ALL))
            else if b == c.key.id then Change(c)(ButtonRow(l, b))
            else ButtonRow(l, b)
  {
    PreparedKeeps(l, c.key);
    ChangedRow(l, c, BTN_ALL);
    ChangedRow(l, c, Key(Btn, b));
    assert BTN_ALL !in l.rows || Key(Btn, b) in ButtonKeys(l.buttons);
  }

  /** Both sides of one button after a command; only a fresh blanket starts from different rows. */
  lemma ButtonBothSides(l: Ledger, box: Box, c: Command, b: int)
    requires Inv(l) && ButtonsAgree(l, box) && Shaped(box) && OnTheWire(c) && 0 <= b < l.buttons
    ensures var l', box' := Applied(l, c), BoxApply(box, c, l.buttons);
            if c.key == BTN_ALL && BTN_ALL !in l.rows then
              box'.buttons[b] == Change(c)(RowOf(l.rows, Key(Btn, b))) && ButtonRow(l', b) == Change(c)(PASSING)
            else box'.buttons[b] == ButtonRow(l', b)
  {
    if c.key.cls == Btn {
      ButtonAfter(l, c, b);
      OneCellIsOneRow(box.buttons[b], c);
    } else {
      OtherClass(l, c, BTN_ALL);
      OtherClass(l, c, Key(Btn, b));
    }
  }

  lemma ButtonStep(l: Ledger, box: Box, c: Command)
    requires Inv(l) && ButtonsAgree(l, box) && Shaped(box) && OnTheWire(c)
    ensures ButtonsAgree(Applied(l, c), BoxApply(box, c, l.buttons)) <==> (c.key.cls == Btn ==> Faithful(l, c))
  {
    var l', box' := Applied(l, c), BoxApply(box, c, l.buttons);
    assert l'.buttons == l.buttons && |box'.buttons| == MAX_BUTTONS;
    forall b | 0 <= b < l.buttons
      ensures box'.buttons[b] == ButtonRow(l', b) <==>
              (c.key == BTN_ALL && BTN_ALL !in l.rows ==>
                 Change(c)(RowOf(l.rows, Key(Btn, b))) == Change(c)(PASSING))
    {
      ButtonBothSides(l, box, c, b);
    }
    hide Applied, BoxApply, ButtonRow, Change, RowOf, Inv, OnTheWire;
  }

  lemma BlanketEdges(l: Ledger, box: Box, c: Command)
    requires Inv(l) && Shaped(box) && OnTheWire(c)
    requires box.keyBlanket == Edges(KeyRow(l, ALL).pos != PASS, KeyRow(l, ALL).neg != PASS)
    ensures var l' := Applied(l, c);
            BoxApply(box, c, l.buttons).keyBlanket == Edges(KeyRow(l', ALL).pos != PASS, KeyRow(l', ALL).neg != PASS)
  {
    if c.key.cls == Keyboard {
      ChangedRow(l, c, Key(Keyboard, ALL));
    } else {
      OtherClass(l, c, Key(Keyboard, ALL));
    }
  }

  /** A key's two bits after a command. The box files a key under its low byte, the ledger under its id. */
  lemma KeyBothSides(l: Ledger, box: Box, c: Command, id: int)
    requires Inv(l) && Shaped(box) && OnTheWire(c) && KeyAgrees(l, box, id) && FIRST_KEY <= id < 256
    ensures KeyAgrees(Applied(l, c), BoxApply(box, c, l.buttons), id) <==>
            (c.key.cls == Keyboard && 256 <= c.key.id < ALL && c.key.id % 256 == id ==>
               Change(c)(KeyRow(l, id)) == KeyRow(l, id))
  {
    if c.key.cls == Keyboard {
      ChangedRow(l, c, Key(Keyboard, id));
    } else {
      OtherClass(l, c, Key(Keyboard, id));
    }
  }

  lemma KeyStep(l: Ledger, box: Box, c: Command)
    requires Inv(l) && KeysAgree(l, box) && Shaped(box) && OnTheWire(c)
    ensures KeysAgree(Applied(l, c), BoxApply(box, c, l.buttons)) <==> (c.key.cls == Keyboard ==> Faithful(l, c))
  {
    var l', box' := Applied(l, c), BoxApply(box, c, l.buttons);
    BlanketEdges(l, box, c);
    forall id | FIRST_KEY <= id < 256
      ensures KeyAgrees(l', box', id) <==>
              (c.key.cls == Keyboard && 256 <= c.key.id < ALL && c.key.id % 256 == id ==>
                 Change(c)(KeyRow(l, id)) == KeyRow(l, id))
    {
      KeyBothSides(l, box, c, id);
    }
    hide Applied, BoxApply, KeyAgrees, KeyRow, Change, Inv, OnTheWire;
  }

  lemma TakenHolds(media: seq<int>, id: int)
    requires EachOnce(media) && id != 0
    ensures EachOnce(Taken(media, id)) && |Taken(media, id)| == |media|
    ensures forall x :: x != 0 && x != id ==> (x in Taken(media, id) <==> x in media)
    ensures id in Taken(media, id) <==> id in media || FirstFree(media) < |media|
  {
    var i := FirstFree(media);
    if id !in media && i < |media| {
      var after := media[i := id];
      assert after[i] == id;
      forall x | x != 0 && x != id && x in media ensures x in after {
        var j :| 0 <= j < |media| && media[j] == x;
        assert after[j] == x;
      }
    }
  }

  lemma FreedHolds(media: seq<int>, id: int)
    requires EachOnce(media) && id != 0
    ensures EachOnce(Freed(media, id)) && |Freed(media, id)| == |media|
    ensures forall x :: x != 0 ==> (x in Freed(media, id) <==> x in media && x != id)
  {
    var after := Freed(media, id);
    forall x | x != 0 && x in media && x != id ensures x in after {
      var j :| 0 <= j < |media| && media[j] == x;
      assert after[j] == x;
    }
  }

  lemma MediaList(l: Ledger, c: Command)
    requires Inv(l) && OnTheWire(c)
    ensures Applied(l, c).media ==
            if !IsMediaSlot(c.key) then l.media
            else if c.scale >= PASS then Omit(l.media, c.key.id)
            else if c.key.id in l.media then l.media
            else l.media + [c.key.id]
    ensures Key(Media, ALL) in Applied(l, c).rows <==>
            if c.key == Key(Media, ALL) then c.scale < PASS else Key(Media, ALL) in l.rows
  {
  }

  lemma MediaStep(l: Ledger, box: Box, c: Command)
    requires Inv(l) && MediaAgree(l, box) && Shaped(box) && OnTheWire(c)
    ensures MediaAgree(Applied(l, c), BoxApply(box, c, l.buttons)) <==> (c.key.cls == Media ==> Faithful(l, c))
  {
    MediaList(l, c);
    if IsMediaSlot(c.key) && c.key.id != 0 {
      MediaSlotStep(l, box, c);
    } else {
      OmitIsExact(l.media, c.key.id);
    }
  }

  lemma SameMediaHeld(l: Ledger, box: Box)
    requires MediaAgree(l, box)
    ensures HeldMedia(l) == Elements(box.media) - {0}
  {
    forall id | id != 0 ensures id in l.media <==> id in box.media {
    }
  }

  lemma MediaSlotStep(l: Ledger, box: Box, c: Command)
    requires Inv(l) && MediaAgree(l, box) && Shaped(box) && OnTheWire(c) && IsMediaSlot(c.key) && c.key.id != 0
    ensures MediaAgree(Applied(l, c), BoxApply(box, c, l.buttons)) <==> Faithful(l, c)
  {
    var id := c.key.id;
    MediaList(l, c);
    var l', box' := Applied(l, c), BoxApply(box, c, l.buttons);
    assert box'.mediaBlanket == box.mediaBlanket;
    if c.scale < PASS {
      assert box'.media == Taken(box.media, id);
      MediaTaken(l, box, l', id);
    } else {
      assert box'.media == Freed(box.media, id);
      FreedHolds(box.media, id);
      OmitIsExact(l.media, id);
      hide Applied, Taken, Freed, Omit, EachOnce, Inv, FirstFree;
    }
  }

  lemma MediaTaken(l: Ledger, box: Box, l': Ledger, id: int)
    requires MediaAgree(l, box) && id != 0
    requires l'.media == if id in l.media then l.media else l.media + [id]
    requires Key(Media, ALL) in l'.rows <==> Key(Media, ALL) in l.rows
    ensures MediaAgree(l', box.(media := Taken(box.media, id))) <==>
            id in l.media || |HeldMedia(l)| < MEDIA_SLOTS
  {
    TakenHolds(box.media, id);
    SameMediaHeld(l, box);
    FirstFreeCount(box.media, HeldMedia(l));
    hide Taken, EachOnce, FirstFree, HeldMedia;
  }

  /** A command leaves the ledger and the box in agreement exactly when it is faithful. */
  lemma CommandAgrees(l: Ledger, box: Box, c: Command)
    requires Inv(l) && Agree(l, box) && OnTheWire(c)
    ensures Shaped(BoxApply(box, c, l.buttons))
    ensures Agree(Applied(l, c), BoxApply(box, c, l.buttons)) <==> Faithful(l, c)
  {
    AxisStep(l, box, c);
    ButtonStep(l, box, c);
    KeyStep(l, box, c);
    MediaStep(l, box, c);
    hide AxesAgree, ButtonsAgree, KeysAgree, MediaAgree, Applied, BoxApply, Inv, Change;
  }

  // Runs

  /** One lock call as the application makes it, and whether the link was up for its frame. */
  datatype Attempt = Attempt(key: Key, dir: Direction, scale: int, up: bool)

  /** The frame the call sends, if any: refused arguments and a dead link send none. */
  function Sent(a: Attempt): seq<Command> {
    match Checked(a.key, a.dir, a.scale)
    case Ok(c) => if a.up then [c] else []
    case Err(_) => []
  }

  function AllSent(run: seq<Attempt>): seq<Command> {
    if run == [] then [] else AllSent(run[..|run| - 1]) + Sent(run[|run| - 1])
  }

  function AppliedAll(l: Ledger, cs: seq<Command>): Ledger {
    if cs == [] then l else Applied(AppliedAll(l, cs[..|cs| - 1]), cs[|cs| - 1])
  }

  function BoxApplyAll(box: Box, cs: seq<Command>, declared: nat): (out: Box)
    requires Shaped(box)
    ensures Shaped(out)
  {
    if cs == [] then box else BoxApply(BoxApplyAll(box, cs[..|cs| - 1], declared), cs[|cs| - 1], declared)
  }

  ghost predicate FaithfulRun(l: Ledger, cs: seq<Command>) {
    forall i :: 0 <= i < |cs| ==> OnTheWire(cs[i]) && Faithful(AppliedAll(l, cs[..i]), cs[i])
  }

  /** Over any run of faithful commands the ledger and the box say the same of every axis, declared
      button, key and media usage. */
  lemma {:induction false} RunAgrees(l: Ledger, box: Box, cs: seq<Command>)
    requires Inv(l) && Agree(l, box) && FaithfulRun(l, cs)
    ensures AppliedAll(l, cs).buttons == l.buttons
    ensures Inv(AppliedAll(l, cs)) && Agree(AppliedAll(l, cs), BoxApplyAll(box, cs, l.buttons))
  {
    if cs != [] {
      var before, c := cs[..|cs| - 1], cs[|cs| - 1];
      forall i | 0 <= i < |before| ensures OnTheWire(before[i]) && Faithful(AppliedAll(l, before[..i]), before[i]) {
        assert before[..i] == cs[..i] && before[i] == cs[i];
      }
      RunAgrees(l, box, before);
      AppliedKeepsInv(AppliedAll(l, before), c);
      CommandAgrees(AppliedAll(l, before), BoxApplyAll(box, before, l.buttons), c);
    }
  }

  lemma FreshAgrees(declared: nat)
    requires declared <= MAX_BUTTONS
    ensures Inv(Ledger(map[], [], declared)) && Agree(Ledger(map[], [], declared), EMPTY)
  {
  }

  // Where the two part

  function NewLedger(): Ledger {
    Ledger(map[], [], NAMED_BUTTONS)
  }

  /** The ledger and the box after one lock from empty. */
  lemma AfterOne(c: Command)
    requires OnTheWire(c)
    ensures Inv(Applied(NewLedger(), c)) && Applied(NewLedger(), c).buttons == NAMED_BUTTONS
    ensures Shaped(BoxApply(EMPTY, c, NAMED_BUTTONS))
    ensures Agree(Applied(NewLedger(), c), BoxApply(EMPTY, c, NAMED_BUTTONS)) <==> Faithful(NewLedger(), c)
    ensures RowOf(Applied(NewLedger(), c).rows, c.key) == Change(c)(PASSING)
  {
    FreshAgrees(NAMED_BUTTONS);
    AppliedKeepsInv(NewLedger(), c);
    CommandAgrees(NewLedger(), EMPTY, c);
    ChangedRow(NewLedger(), c, c.key);
    hide Agree, BoxApply;
  }

  /** A lock on one button's release, then a blanket on every button's press: from agreement, the box
      still blocks the release and the ledger no longer does. */
  lemma OneWayBlanketDiverges(b: int)
    requires 0 <= b < NAMED_BUTTONS
    ensures var c := Command(Key(Btn, b), Negative, BLOCK); var blanket := Command(BTN_ALL, Positive, BLOCK);
            var l, box := Applied(NewLedger(), c), BoxApply(EMPTY, c, NAMED_BUTTONS);
            Shaped(box) && Inv(l) && Agree(l, box) &&
            BoxApply(box, blanket, NAMED_BUTTONS).buttons[b].neg == BLOCK &&
            ButtonRow(Applied(l, blanket), b).neg == PASS
  {
    var c, blanket := Command(Key(Btn, b), Negative, BLOCK), Command(BTN_ALL, Positive, BLOCK);
    AfterOne(c);
    var l, box := Applied(NewLedger(), c), BoxApply(EMPTY, c, NAMED_BUTTONS);
    ButtonBothSides(l, box, blanket, b);
    hide Inv, AxesAgree, KeysAgree, MediaAgree, ButtonsAgree;
  }

  /** Every key past the box's 256: locked from empty, it sets the bits of the key it aliases, of which
      the ledger holds nothing. */
  lemma AliasDiverges(id: int)
    requires 256 <= id < ALL && FIRST_KEY <= id % 256
    ensures var c := Command(Key(Keyboard, id), Both, BLOCK);
            id % 256 in BoxApply(EMPTY, c, NAMED_BUTTONS).press &&
            KeyRow(Applied(NewLedger(), c), id % 256) == PASSING &&
            !Agree(Applied(NewLedger(), c), BoxApply(EMPTY, c, NAMED_BUTTONS))
  {
    var c := Command(Key(Keyboard, id), Both, BLOCK);
    ChangedRow(NewLedger(), c, Key(Keyboard, id % 256));
    var box := BoxApply(EMPTY, c, NAMED_BUTTONS);
    assert id % 256 in box.press;
    hide BoxApply, Applied, AxesAgree, ButtonsAgree, MediaAgree;
    assert !KeyAgrees(Applied(NewLedger(), c), box, id % 256);
  }

  const BLOCKED := Slots(BLOCK, BLOCK, PASS, PASS)

  /** Media usages 1 to `n` locked, in that order. */
  function MediaLedger(n: nat): Ledger {
    Ledger(map k | k in MediaUpTo(n) :: BLOCKED, seq(n, i => i + 1), NAMED_BUTTONS)
  }

  function MediaUpTo(n: nat): set<Key> {
    set i | 1 <= i <= n :: Key(Media, i)
  }

  const FULL := EMPTY.(media := [1, 2, 3, 4, 5, 6, 7, 8])

  lemma MediaListAt(n: nat, id: int)
    ensures id in MediaLedger(n).media <==> 1 <= id <= n
  {
    if 1 <= id <= n {
      assert MediaLedger(n).media[id - 1] == id;
    }
  }

  lemma MediaLedgerIsKept(n: nat)
    requires n < ALL
    ensures Inv(MediaLedger(n))
  {
    forall id ensures id in MediaLedger(n).media <==> id != ALL && Key(Media, id) in MediaLedger(n).rows {
      MediaListAt(n, id);
    }
  }

  lemma FullAgrees()
    ensures Shaped(FULL) && Agree(MediaLedger(MEDIA_SLOTS), FULL)
  {
    var l := MediaLedger(MEDIA_SLOTS);
    forall id ensures id in l.media <==> 1 <= id <= MEDIA_SLOTS {
      MediaListAt(MEDIA_SLOTS, id);
    }
    hide MediaLedger;
    assert FULL.media[0] == 1 && FULL.media[1] == 2 && FULL.media[2] == 3 && FULL.media[3] == 4;
    assert FULL.media[4] == 5 && FULL.media[5] == 6 && FULL.media[6] == 7 && FULL.media[7] == 8;
  }

  lemma FullIsFull()
    ensures FirstFree(FULL.media) == MEDIA_SLOTS && Taken(FULL.media, 9) == FULL.media && 9 !in FULL.media
  {
    hide FirstFree;
  }

  lemma FullTakesNone(c: Command)
    requires c == Command(Key(Media, 9), Both, BLOCK)
    ensures Shaped(FULL) && BoxApply(FULL, c, NAMED_BUTTONS) == FULL
  {
    hide FirstFree, Taken;
    FullIsFull();
  }

  /** Eight media locks the two agree on; the ledger takes a ninth and the box does not. */
  lemma NinthIsDropped()
    ensures var l := MediaLedger(MEDIA_SLOTS); var c := Command(Key(Media, 9), Both, BLOCK);
            Inv(l) && Shaped(FULL) && Agree(l, FULL) && OnTheWire(c) &&
            9 in Applied(l, c).media && BoxApply(FULL, c, NAMED_BUTTONS) == FULL && 9 !in FULL.media
  {
    MediaLedgerIsKept(MEDIA_SLOTS);
    FullAgrees();
    var l, c := MediaLedger(MEDIA_SLOTS), Command(Key(Media, 9), Both, BLOCK);
    MediaList(l, c);
    MediaListAt(MEDIA_SLOTS, 9);
    FullIsFull();
    FullTakesNone(c);
    hide Agree, Inv, MediaLedger, Applied, BoxApply, FirstFree, Taken;
  }

  lemma OneMoreAttempt(l: Ledger, run: seq<Attempt>, i: nat)
    requires i < |run|
    ensures var sent := Sent(run[i]); var before := AppliedAll(l, AllSent(run[..i]));
            AppliedAll(l, AllSent(run[..i + 1])) == if sent == [] then before else Applied(before, sent[0])
  {
    hide Applied, Checked;
    assert run[..i + 1][..i] == run[..i];
    var sent := Sent(run[i]);
    if sent == [] {
      assert AllSent(run[..i]) + sent == AllSent(run[..i]);
    } else {
      assert (AllSent(run[..i]) + sent)[..|AllSent(run[..i])|] == AllSent(run[..i]);
    }
  }

  /** Every lock call of a run through one ledger. */
  method SendAll(d: DesiredLocks, run: seq<Attempt>)
    modifies d`rows, d`media
    ensures d.State() == AppliedAll(old(d.State()), AllSent(run))
  {
    var i := 0;
    assert run[..0] == [];
    while i < |run|
      invariant i <= |run|
      invariant d.State() == AppliedAll(old(d.State()), AllSent(run[..i]))
    {
      hide Applied, Checked, AppliedAll, AllSent;
      var res := d.SendLock(run[i].key, run[i].dir, run[i].scale, run[i].up);
      OneMoreAttempt(old(d.State()), run, i);
      i := i + 1;
    }
    assert run[..i] == run;
  }
}
