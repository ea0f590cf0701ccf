/** Clip entries on the wire: a gap run or one frame of input, self-delimiting with no length field. */
module ClipCodec {
  import opened Wrappers

  type Byte = b: int | 0 <= b < 256
  type Word = w: int | 0 <= w < 65536
  type Short = v: int | -32768 <= v < 32768

  const EDGES_MAX := 8
  const RAW_MAX := 8
  const ENTRY_MAX := 512
  const TAG_GAP: Byte := 0

  datatype Direction = Both | Positive | Negative | With | Against
  datatype Edge = Edge(cls: Byte, id: Word, action: Byte)
  datatype Raw = Raw(ep: Byte, dir: Direction, bytes: seq<Byte>)

  /** The setup packet of section 9.3 of the USB 2.0 specification. */
  datatype Setup = Setup(requestType: Byte, request: Byte, value: Word, index: Word, length: Word)
  datatype Transfer = Transfer(ep: Byte, setup: Setup, out: seq<Byte>)

  datatype Frame = Frame(dx: Short, dy: Short, wheel: Short, pan: Short,
                         edges: seq<Edge>, raw: seq<Raw>, transfers: seq<Transfer>)

  datatype Entry = Gap(frames: Word) | Tick(frame: Frame)

  datatype ClipError = TooManyEdges(count: nat) | TooManyRaw(count: nat) | RawDirection | RelativeDirection
                     | TransferData(want: nat, got: nat) | FrameTooLong(len: nat)

  // What the host accepts

  function RawError(raw: seq<Raw>): Option<ClipError> {
    if raw == [] then None
    else
      match raw[0].dir
      case Positive | Negative => RawError(raw[1..])
      case With | Against => Some(RelativeDirection)
      case Both => Some(RawDirection)
  }

  /** Data bytes the setup packet calls for: an IN transfer sends none. */
  function Wanted(s: Setup): nat {
    if s.requestType >= 128 then 0 else s.length
  }

  function TransferError(transfers: seq<Transfer>): Option<ClipError> {
    if transfers == [] then None
    else if |transfers[0].out| != Wanted(transfers[0].setup) then
      Some(TransferData(Wanted(transfers[0].setup), |transfers[0].out|))
    else TransferError(transfers[1..])
  }

  function RawLength(raw: seq<Raw>): nat {
    if raw == [] then 0 else 4 + |raw[0].bytes| + RawLength(raw[1..])
  }

  function TransferLength(transfers: seq<Transfer>): nat {
    if transfers == [] then 0 else 9 + |transfers[0].out| + TransferLength(transfers[1..])
  }

  /** The frame's length as the builder counts it before encoding. */
  function ByteLength(f: Frame): nat {
    var motion := (if f.wheel != 0 then 2 else 0) + (if f.pan != 0 then 2 else 0);
    var items := (if f.edges != [] then 1 + 4 * |f.edges| else 0) + RawLength(f.raw) + (if f.raw != [] then 1 else 0) +
                 TransferLength(f.transfers) + (if f.transfers != [] then 1 else 0);
    1 + (if f.dx != 0 || f.dy != 0 || motion + items == 0 then 4 else 0) + motion + items
  }

  function FrameError(f: Frame): Option<ClipError> {
    if |f.edges| > EDGES_MAX then Some(TooManyEdges(|f.edges|))
    else if |f.raw| > RAW_MAX then Some(TooManyRaw(|f.raw|))
    else if RawError(f.raw).Some? then RawError(f.raw)
    else if TransferError(f.transfers).Some? then TransferError(f.transfers)
    else if ByteLength(f) > ENTRY_MAX then Some(FrameTooLong(ByteLength(f)))
    else None
  }

  // The layout

  function WordBytes(w: Word): seq<Byte> {
    [w % 256, w / 256]
  }

  function ShortBytes(v: Short): seq<Byte> {
    WordBytes(if v < 0 then v + 65536 else v)
  }

  function DirectionByte(d: Direction): Byte {
    match d
    case Both => 0
    case Positive => 1
    case Negative => 2
    case With => 3
    case Against => 4
  }

  function EdgeBytes(e: Edge): seq<Byte> {
    [e.cls] + WordBytes(e.id) + [e.action]
  }

  function RawBytes(r: Raw): seq<Byte>
    requires |r.bytes| < 65536
  {
    [r.ep % 16, DirectionByte(r.dir)] + WordBytes(|r.bytes|) + r.bytes
  }

  function SetupBytes(s: Setup): seq<Byte> {
    [s.requestType, s.request] + WordBytes(s.value) + WordBytes(s.index) + WordBytes(s.length)
  }

  function TransferBytes(t: Transfer): seq<Byte> {
    [t.ep] + SetupBytes(t.setup) + t.out
  }

  function AllEdges(edges: seq<Edge>): seq<Byte> {
    if edges == [] then [] else AllEdges(edges[..|edges| - 1]) + EdgeBytes(edges[|edges| - 1])
  }

  predicate RawsFit(raw: seq<Raw>) {
    forall r :: r in raw ==> |r.bytes| < 65536
  }

  function AllRaw(raw: seq<Raw>): seq<Byte>
    requires RawsFit(raw)
  {
    if raw == [] then [] else AllRaw(raw[..|raw| - 1]) + RawBytes(raw[|raw| - 1])
  }

  function AllTransfers(transfers: seq<Transfer>): seq<Byte> {
    if transfers == [] then [] else AllTransfers(transfers[..|transfers| - 1]) + TransferBytes(transfers[|transfers| - 1])
  }

  predicate HasMotion(f: Frame) {
    f.dx != 0 || f.dy != 0
  }

  predicate IsEmpty(f: Frame) {
    f.wheel == 0 && f.pan == 0 && f.edges == [] && f.raw == [] && f.transfers == []
  }

  /** A frame that carries nothing is sent as zero motion, or it would read as a gap. */
  predicate HasXY(f: Frame) {
    HasMotion(f) || IsEmpty(f)
  }

  function Bit(on: bool, bit: Byte): Byte {
    if on then bit else 0
  }

  function Flags(xy: bool, wheel: bool, edges: bool, pan: bool, raw: bool, transfers: bool): int {
    Bit(xy, 1) + Bit(wheel, 2) + Bit(edges, 4) + Bit(pan, 8) + Bit(raw, 16) + Bit(transfers, 32)
  }

  predicate Has(flags: Byte, bit: Byte)
    requires bit > 0
  {
    flags / bit % 2 == 1
  }

  lemma FlagsRead(xy: bool, wheel: bool, edges: bool, pan: bool, raw: bool, transfers: bool)
    ensures var f := Flags(xy, wheel, edges, pan, raw, transfers);
            0 <= f < 64 && Has(f, 1) == xy && Has(f, 2) == wheel && Has(f, 4) == edges && Has(f, 8) == pan &&
            Has(f, 16) == raw && Has(f, 32) == transfers
    ensures Flags(xy, wheel, edges, pan, raw, transfers) == 0 <==> !xy && !wheel && !edges && !pan && !raw && !transfers
  {
  }

  function FrameFlags(f: Frame): Byte {
    FlagsRead(HasXY(f), f.wheel != 0, f.edges != [], f.pan != 0, f.raw != [], f.transfers != []);
    Flags(HasXY(f), f.wheel != 0, f.edges != [], f.pan != 0, f.raw != [], f.transfers != [])
  }

  function Optional(on: bool, bytes: seq<Byte>): seq<Byte> {
    if on then bytes else []
  }

  predicate CountsFit(f: Frame) {
    |f.edges| < 256 && |f.raw| < 256 && |f.transfers| < 256 && RawsFit(f.raw)
  }

  function MotionBytes(f: Frame): seq<Byte> {
    [FrameFlags(f)] + Optional(HasXY(f), ShortBytes(f.dx) + ShortBytes(f.dy)) + Optional(f.wheel != 0, ShortBytes(f.wheel)) +
    Optional(f.pan != 0, ShortBytes(f.pan))
  }

  function FrameBytes(f: Frame): seq<Byte>
    requires CountsFit(f)
  {
    MotionBytes(f) + Optional(f.edges != [], [|f.edges|] + AllEdges(f.edges)) +
    Optional(f.raw != [], [|f.raw|] + AllRaw(f.raw)) + Optional(f.transfers != [], [|f.transfers|] + AllTransfers(f.transfers))
  }

  // Lengths

  lemma {:induction false} RawLengthSnoc(raw: seq<Raw>, r: Raw)
    ensures RawLength(raw + [r]) == RawLength(raw) + 4 + |r.bytes|
  {
    if raw == [] {
      assert (raw + [r])[1..] == [];
    } else {
      assert (raw + [r])[1..] == raw[1..] + [r];
      RawLengthSnoc(raw[1..], r);
    }
  }

  lemma {:induction false} TransferLengthSnoc(ts: seq<Transfer>, t: Transfer)
    ensures TransferLength(ts + [t]) == TransferLength(ts) + 9 + |t.out|
  {
    if ts == [] {
      assert (ts + [t])[1..] == [];
    } else {
      assert (ts + [t])[1..] == ts[1..] + [t];
      TransferLengthSnoc(ts[1..], t);
    }
  }

  lemma {:induction false} EdgesLength(edges: seq<Edge>)
    ensures |AllEdges(edges)| == 4 * |edges|
  {
    if edges != [] {
      EdgesLength(edges[..|edges| - 1]);
    }
  }

  lemma {:induction false} AllRawLength(raw: seq<Raw>)
    requires RawsFit(raw)
    ensures |AllRaw(raw)| == RawLength(raw)
  {
    if raw != [] {
      AllRawLength(raw[..|raw| - 1]);
      RawLengthSnoc(raw[..|raw| - 1], raw[|raw| - 1]);
      assert raw == raw[..|raw| - 1] + [raw[|raw| - 1]];
    }
  }

  lemma {:induction false} AllTransfersLength(ts: seq<Transfer>)
    ensures |AllTransfers(ts)| == TransferLength(ts)
    ensures 9 * |ts| <= TransferLength(ts)
  {
    if ts != [] {
      AllTransfersLength(ts[..|ts| - 1]);
      TransferLengthSnoc(ts[..|ts| - 1], ts[|ts| - 1]);
      assert ts == ts[..|ts| - 1] + [ts[|ts| - 1]];
    }
  }

  lemma {:induction false} RawLengthHolds(raw: seq<Raw>, r: Raw)
    requires r in raw
    ensures |r.bytes| <= RawLength(raw)
  {
    if r != raw[0] {
      RawLengthHolds(raw[1..], r);
    }
  }

  /** An accepted frame holds at most 56 transfers, and every count and length fits its field. */
  lemma AcceptedFits(f: Frame)
    requires FrameError(f).None?
    ensures CountsFit(f) && |f.transfers| <= 56
  {
    AllTransfersLength(f.transfers);
    forall r | r in f.raw ensures |r.bytes| < 65536 {
      RawLengthHolds(f.raw, r);
    }
  }

  /** A frame encodes to exactly the length the builder counted. */
  lemma EncodedLength(f: Frame)
    requires CountsFit(f)
    ensures |FrameBytes(f)| == ByteLength(f)
  {
    EdgesLength(f.edges);
    AllRawLength(f.raw);
    AllTransfersLength(f.transfers);
    assert f.raw == [] ==> RawLength(f.raw) == 0;
    assert f.transfers == [] ==> TransferLength(f.transfers) == 0;
    assert f.raw != [] ==> RawLength(f.raw) >= 4;
    hide AllEdges, AllRaw, AllTransfers, RawLength, TransferLength, FrameFlags;
  }

  lemma {:induction false} RawErrorIff(raw: seq<Raw>)
    ensures RawError(raw).None? <==> forall r :: r in raw ==> r.dir == Positive || r.dir == Negative
    ensures RawError(raw) == Some(RelativeDirection) ==> exists r :: r in raw && (r.dir == With || r.dir == Against)
    ensures RawError(raw) == Some(RawDirection) ==> exists r :: r in raw && r.dir == Both
    ensures RawError(raw).None? || RawError(raw) == Some(RelativeDirection) || RawError(raw) == Some(RawDirection)
  {
    if raw != [] {
      RawErrorIff(raw[1..]);
      assert raw == [raw[0]] + raw[1..];
    }
  }

  lemma {:induction false} TransferErrorIff(ts: seq<Transfer>)
    ensures TransferError(ts).None? <==>
            forall t :: t in ts ==> |t.out| == if t.setup.requestType >= 128 then 0 else t.setup.length
    ensures TransferError(ts).Some? ==>
              exists t :: t in ts && TransferError(ts) == Some(TransferData(Wanted(t.setup), |t.out|)) && |t.out| != Wanted(t.setup)
  {
    if ts != [] {
      TransferErrorIff(ts[1..]);
      assert ts == [ts[0]] + ts[1..];
    }
  }

  /** Exactly the frames within every limit are let through: eight edges, eight raw reports, each towards
      one side, every transfer with the data its setup packet calls for, and 512 bytes in all. */
  lemma RefusedIff(f: Frame)
    ensures FrameError(f).None? <==>
            |f.edges| <= 8 && |f.raw| <= 8 && (forall r :: r in f.raw ==> r.dir == Positive || r.dir == Negative) &&
            (forall t :: t in f.transfers ==> |t.out| == if t.setup.requestType >= 128 then 0 else t.setup.length) &&
            CountsFit(f) && |FrameBytes(f)| <= 512
  {
    RawErrorIff(f.raw);
    TransferErrorIff(f.transfers);
    if FrameError(f).None? {
      AcceptedFits(f);
    }
    if CountsFit(f) {
      EncodedLength(f);
    }
    hide FrameBytes, ByteLength, RawError, TransferError;
  }

  /** A refusal names a limit that the frame breaks. */
  lemma RefusalIsTrue(f: Frame)
    requires FrameError(f).Some?
    ensures match FrameError(f).value
            case TooManyEdges(n) => n == |f.edges| > 8
            case TooManyRaw(n) => n == |f.raw| > 8
            case RawDirection => exists r :: r in f.raw && r.dir == Both
            case RelativeDirection => exists r :: r in f.raw && (r.dir == With || r.dir == Against)
            case TransferData(want, got) =>
              exists t :: t in f.transfers && want == Wanted(t.setup) && got == |t.out| && want != got
            case FrameTooLong(len) => len == ByteLength(f) > 512
  {
    RawErrorIff(f.raw);
    TransferErrorIff(f.transfers);
    hide ByteLength, RawError, TransferError, Wanted;
  }

  // Reading an entry back

  function ReadWord(lo: Byte, hi: Byte): Word {
    lo + 256 * hi
  }

  function ReadShort(lo: Byte, hi: Byte): Short {
    var w := ReadWord(lo, hi);
    if w >= 32768 then w - 65536 else w
  }

  lemma WordRead(w: Word)
    ensures ReadWord(WordBytes(w)[0], WordBytes(w)[1]) == w
  {
  }

  lemma ShortRead(v: Short)
    ensures ReadShort(ShortBytes(v)[0], ShortBytes(v)[1]) == v
  {
  }

  type Parsed<T> = Option<(T, seq<Byte>)>

  /** A two-byte field, present only under its flag and zero without. */
  function ParseShort(on: bool, b: seq<Byte>): Parsed<Short> {
    if !on then Some((0, b)) else if |b| < 2 then None else Some((ReadShort(b[0], b[1]), b[2..]))
  }

  function ParseDirection(b: Byte): Option<Direction> {
    match b
    case 0 => Some(Both)
    case 1 => Some(Positive)
    case 2 => Some(Negative)
    case 3 => Some(With)
    case 4 => Some(Against)
    case _ => None
  }

  function ParseEdge(b: seq<Byte>): Parsed<Edge> {
    if |b| < 4 then None else Some((Edge(b[0], ReadWord(b[1], b[2]), b[3]), b[4..]))
  }

  function ParseRaw(b: seq<Byte>): Parsed<Raw> {
    if |b| < 4 then None
    else
      var n := ReadWord(b[2], b[3]);
      if |b| < 4 + n || ParseDirection(b[1]).None? then None
      else Some((Raw(b[0], ParseDirection(b[1]).value, b[4..4 + n]), b[4 + n..]))
  }

  function ParseSetup(b: seq<Byte>): Setup
    requires |b| >= 8
  {
    Setup(b[0], b[1], ReadWord(b[2], b[3]), ReadWord(b[4], b[5]), ReadWord(b[6], b[7]))
  }

  /** The data stage carries no length of its own: the setup packet says it. */
  function ParseTransfer(b: seq<Byte>): Parsed<Transfer> {
    if |b| < 9 then None
    else
      var setup := ParseSetup(b[1..9]);
      var n := Wanted(setup);
      if |b| < 9 + n then None else Some((Transfer(b[0], setup, b[9..9 + n]), b[9 + n..]))
  }

  function ParseMany<T>(one: seq<Byte> -> Parsed<T>, n: nat, b: seq<Byte>): Parsed<seq<T>> {
    if n == 0 then Some(([], b))
    else
      match ParseMany(one, n - 1, b)
      case None => None
      case Some((items, rest)) =>
        match one(rest)
        case None => None
        case Some((item, tail)) => Some((items + [item], tail))
  }

  function ParseCounted<T>(on: bool, one: seq<Byte> -> Parsed<T>, b: seq<Byte>): Parsed<seq<T>> {
    if !on then Some(([], b)) else if b == [] then None else ParseMany(one, b[0], b[1..])
  }

  datatype Motion = Motion(dx: Short, dy: Short, wheel: Short, pan: Short)

  function ParseXY(flags: Byte, b: seq<Byte>): Parsed<(Short, Short)> {
    match ParseShort(Has(flags, 1), b)
    case None => None
    case Some((dx, rest)) =>
      match ParseShort(Has(flags, 1), rest)
      case None => None
      case Some((dy, tail)) => Some(((dx, dy), tail))
  }

  function ParseMotion(flags: Byte, b: seq<Byte>): Parsed<Motion> {
    match ParseXY(flags, b)
    case None => None
    case Some((xy, b1)) =>
      match ParseShort(Has(flags, 2), b1)
      case None => None
      case Some((wheel, b2)) =>
        match ParseShort(Has(flags, 8), b2)
        case None => None
        case Some((pan, b3)) => Some((Motion(xy.0, xy.1, wheel, pan), b3))
  }

  datatype Items = Items(edges: seq<Edge>, raw: seq<Raw>, transfers: seq<Transfer>)

  function ParseItems(flags: Byte, b: seq<Byte>): Parsed<Items> {
    match ParseCounted(Has(flags, 4), ParseEdge, b)
    case None => None
    case Some((edges, b1)) =>
      match ParseCounted(Has(flags, 16), ParseRaw, b1)
      case None => None
      case Some((raw, b2)) =>
        match ParseCounted(Has(flags, 32), ParseTransfer, b2)
        case None => None
        case Some((transfers, b3)) => Some((Items(edges, raw, transfers), b3))
  }

  function ParseFrame(flags: Byte, b: seq<Byte>): Parsed<Frame> {
    match ParseMotion(flags, b)
    case None => None
    case Some((m, rest)) =>
      match ParseItems(flags, rest)
      case None => None
      case Some((i, tail)) => Some((Frame(m.dx, m.dy, m.wheel, m.pan, i.edges, i.raw, i.transfers), tail))
  }

  function Parse(b: seq<Byte>): Parsed<Entry> {
    if b == [] then None
    else if b[0] == TAG_GAP then
      if |b| < 3 then None else Some((Gap(ReadWord(b[1], b[2])), b[3..]))
    else
      match ParseFrame(b[0], b[1..])
      case None => None
      case Some((f, rest)) => Some((Tick(f), rest))
  }

  // The round trip

  /** What the wire keeps of a raw report's endpoint: its low four bits. */
  function NormalRaw(r: Raw): Raw {
    r.(ep := r.ep % 16)
  }

  function NormalRaws(raw: seq<Raw>): seq<Raw> {
    seq(|raw|, i requires 0 <= i < |raw| => NormalRaw(raw[i]))
  }

  function Normal(e: Entry): Entry {
    match e
    case Gap(n) => Gap(n)
    case Tick(f) => Tick(f.(raw := NormalRaws(f.raw)))
  }

  predicate Accepted(e: Entry) {
    e.Tick? ==> FrameError(e.frame).None?
  }

  function EntryBytes(e: Entry): seq<Byte>
    requires Accepted(e)
  {
    match e
    case Gap(n) => [TAG_GAP] + WordBytes(n)
    case Tick(f) => AcceptedFits(f); FrameBytes(f)
  }

  /** A gap run is a zero tag and its length, low byte first; a frame never starts with a zero. */
  lemma GapOnTheWire(n: Word, f: Frame)
    ensures EntryBytes(Gap(n)) == [0, n % 256, n / 256]
    ensures FrameError(f).None? ==> EntryBytes(Tick(f)) != [] && EntryBytes(Tick(f))[0] != 0
  {
    if FrameError(f).None? {
      AcceptedFits(f);
      FrameFlagsFit(f);
      FieldsOf(f, []);
    }
    hide FrameError;
  }

  lemma ShortParsed(on: bool, v: Short, rest: seq<Byte>)
    requires !on ==> v == 0
    ensures ParseShort(on, Optional(on, ShortBytes(v)) + rest) == Some((v, rest))
  {
    ShortRead(v);
    assert on ==> (ShortBytes(v) + rest)[2..] == rest;
    assert !on ==> [] + rest == rest;
  }

  lemma EdgeParsed(e: Edge, rest: seq<Byte>)
    ensures ParseEdge(EdgeBytes(e) + rest) == Some((e, rest))
  {
    WordRead(e.id);
    assert (EdgeBytes(e) + rest)[4..] == rest;
  }

  lemma RawParsed(r: Raw, rest: seq<Byte>)
    requires |r.bytes| < 65536
    ensures ParseRaw(RawBytes(r) + rest) == Some((NormalRaw(r), rest))
  {
    var b := RawBytes(r) + rest;
    WordRead(|r.bytes|);
    assert b[2] == WordBytes(|r.bytes|)[0] && b[3] == WordBytes(|r.bytes|)[1];
    assert b[4..4 + |r.bytes|] == r.bytes && b[4 + |r.bytes|..] == rest;
  }

  lemma SetupParsed(s: Setup)
    ensures |SetupBytes(s)| == 8 && ParseSetup(SetupBytes(s)) == s
  {
    WordRead(s.value);
    WordRead(s.index);
    WordRead(s.length);
  }

  /** A transfer whose data matches its setup packet needs no length field. */
  lemma TransferParsed(t: Transfer, rest: seq<Byte>)
    requires |t.out| == Wanted(t.setup)
    ensures ParseTransfer(TransferBytes(t) + rest) == Some((t, rest))
  {
    var b := TransferBytes(t) + rest;
    SetupParsed(t.setup);
    assert b[1..9] == SetupBytes(t.setup);
    assert b[9..9 + |t.out|] == t.out && b[9 + |t.out|..] == rest;
  }

  lemma {:induction false} EdgesParsed(edges: seq<Edge>, rest: seq<Byte>)
    ensures ParseMany(ParseEdge, |edges|, AllEdges(edges) + rest) == Some((edges, rest))
    decreases |edges|
  {
    hide ParseEdge, EdgeBytes;
    if edges == [] {
      assert AllEdges(edges) + rest == rest;
    } else {
      var init, last := edges[..|edges| - 1], edges[|edges| - 1];
      assert AllEdges(edges) + rest == AllEdges(init) + (EdgeBytes(last) + rest);
      assert edges == init + [last];
      EdgesParsed(init, EdgeBytes(last) + rest);
      EdgeParsed(last, rest);
    }
  }

  lemma {:induction false} RawsParsed(raw: seq<Raw>, rest: seq<Byte>)
    requires RawsFit(raw)
    ensures ParseMany(ParseRaw, |raw|, AllRaw(raw) + rest) == Some((NormalRaws(raw), rest))
    decreases |raw|
  {
    hide ParseRaw, RawBytes;
    if raw == [] {
      assert AllRaw(raw) + rest == rest;
    } else {
      var init, last := raw[..|raw| - 1], raw[|raw| - 1];
      assert AllRaw(raw) + rest == AllRaw(init) + (RawBytes(last) + rest);
      assert raw == init + [last];
      RawsParsed(init, RawBytes(last) + rest);
      RawParsed(last, rest);
      assert NormalRaws(raw) == NormalRaws(init) + [NormalRaw(last)];
    }
  }

  lemma {:induction false} TransferErrorEach(ts: seq<Transfer>)
    requires TransferError(ts).None?
    ensures forall t :: t in ts ==> |t.out| == Wanted(t.setup)
  {
    if ts != [] {
      TransferErrorEach(ts[1..]);
    }
  }

  lemma {:induction false} TransfersParsed(ts: seq<Transfer>, rest: seq<Byte>)
    requires forall t :: t in ts ==> |t.out| == Wanted(t.setup)
    ensures ParseMany(ParseTransfer, |ts|, AllTransfers(ts) + rest) == Some((ts, rest))
    decreases |ts|
  {
    hide ParseTransfer, TransferBytes, Wanted;
    if ts == [] {
      assert AllTransfers(ts) + rest == rest;
    } else {
      var init, last := ts[..|ts| - 1], ts[|ts| - 1];
      assert AllTransfers(ts) + rest == AllTransfers(init) + (TransferBytes(last) + rest);
      assert ts == init + [last];
      TransfersParsed(init, TransferBytes(last) + rest);
      TransferParsed(last, rest);
    }
  }

  lemma CountedParsed<T>(one: seq<Byte> -> Parsed<T>, n: Byte, body: seq<Byte>, rest: seq<Byte>, items: seq<T>)
    requires n > 0 ==> ParseMany(one, n, body + rest) == Some((items, rest))
    requires n == 0 ==> items == []
    ensures ParseCounted(n > 0, one, Optional(n > 0, [n] + body) + rest) == Some((items, rest))
  {
    if n > 0 {
      assert ([n] + body + rest)[1..] == body + rest;
    } else {
      assert [] + rest == rest;
    }
  }

  lemma Regroup(a: seq<Byte>, b: seq<Byte>, c: seq<Byte>)
    ensures (a + b) + c == a + (b + c)
  {
  }

  /** The fields of a frame after its flags, in front of `rest`. */
  function Fields(f: Frame, rest: seq<Byte>): seq<Byte>
    requires CountsFit(f)
  {
    Optional(HasXY(f), ShortBytes(f.dx)) + (Optional(HasXY(f), ShortBytes(f.dy)) + AfterMotion(f, rest))
  }

  function AfterMotion(f: Frame, rest: seq<Byte>): seq<Byte>
    requires CountsFit(f)
  {
    Optional(f.wheel != 0, ShortBytes(f.wheel)) + (Optional(f.pan != 0, ShortBytes(f.pan)) + AfterPan(f, rest))
  }

  function AfterPan(f: Frame, rest: seq<Byte>): seq<Byte>
    requires CountsFit(f)
  {
    Optional(|f.edges| > 0, [|f.edges|] + AllEdges(f.edges)) + (
    Optional(|f.raw| > 0, [|f.raw|] + AllRaw(f.raw)) + (
    Optional(|f.transfers| > 0, [|f.transfers|] + AllTransfers(f.transfers)) + rest))
  }

  lemma OptionalPair(on: bool, a: seq<Byte>, b: seq<Byte>, rest: seq<Byte>)
    ensures Optional(on, a + b) + rest == Optional(on, a) + (Optional(on, b) + rest)
  {
    if on {
      Regroup(a, b, rest);
    } else {
      assert [] + ([] + rest) == [] + rest;
    }
  }

  lemma FieldsOf(f: Frame, rest: seq<Byte>)
    requires CountsFit(f)
    ensures FrameBytes(f) + rest == [FrameFlags(f)] + Fields(f, rest)
  {
    hide FrameFlags, Optional, ShortBytes, AllEdges, AllRaw, AllTransfers, HasXY;
    assert (|f.edges| > 0 <==> f.edges != []) && (|f.raw| > 0 <==> f.raw != []) && (|f.transfers| > 0 <==> f.transfers != []);
    var xy, w := Optional(HasXY(f), ShortBytes(f.dx) + ShortBytes(f.dy)), Optional(f.wheel != 0, ShortBytes(f.wheel));
    var p, e := Optional(f.pan != 0, ShortBytes(f.pan)), Optional(|f.edges| > 0, [|f.edges|] + AllEdges(f.edges));
    var r := Optional(|f.raw| > 0, [|f.raw|] + AllRaw(f.raw));
    var t := Optional(|f.transfers| > 0, [|f.transfers|] + AllTransfers(f.transfers));
    Reassociate([FrameFlags(f)], xy, w, p, e, r, t, rest);
    OptionalPair(HasXY(f), ShortBytes(f.dx), ShortBytes(f.dy), AfterMotion(f, rest));
  }

  lemma Reassociate(h: seq<Byte>, a: seq<Byte>, b: seq<Byte>, c: seq<Byte>, d: seq<Byte>, e: seq<Byte>, g: seq<Byte>,
                    rest: seq<Byte>)
    ensures h + a + b + c + d + e + g + rest == h + (a + (b + (c + (d + (e + (g + rest))))))
  {
    Regroup(h + a + b + c + d + e, g, rest);
    Regroup(h + a + b + c + d, e, g + rest);
    Regroup(h + a + b + c, d, e + (g + rest));
    Regroup(h + a + b, c, d + (e + (g + rest)));
    Regroup(h + a, b, c + (d + (e + (g + rest))));
    Regroup(h, a, b + (c + (d + (e + (g + rest)))));
  }

  /** The flags say which fields are there. */
  predicate FlagsFit(f: Frame, flags: Byte) {
    Has(flags, 1) == HasXY(f) && Has(flags, 2) == (f.wheel != 0) && Has(flags, 8) == (f.pan != 0) &&
    Has(flags, 4) == (|f.edges| > 0) && Has(flags, 16) == (|f.raw| > 0) && Has(flags, 32) == (|f.transfers| > 0)
  }

  lemma FrameFlagsFit(f: Frame)
    ensures FlagsFit(f, FrameFlags(f)) && FrameFlags(f) != TAG_GAP
  {
    FlagsRead(HasXY(f), f.wheel != 0, f.edges != [], f.pan != 0, f.raw != [], f.transfers != []);
    hide Flags, Has;
  }

  lemma XYParsed(f: Frame, flags: Byte, rest: seq<Byte>)
    requires CountsFit(f) && FlagsFit(f, flags)
    ensures ParseXY(flags, Fields(f, rest)) == Some(((f.dx, f.dy), AfterMotion(f, rest)))
  {
    assert !HasXY(f) ==> f.dx == 0 && f.dy == 0;
    hide ParseShort, Optional, Has, ShortBytes, HasXY, AfterMotion;
    ShortParsed(HasXY(f), f.dy, AfterMotion(f, rest));
    ShortParsed(HasXY(f), f.dx, Optional(HasXY(f), ShortBytes(f.dy)) + AfterMotion(f, rest));
  }

  lemma MotionParsed(f: Frame, flags: Byte, rest: seq<Byte>)
    requires CountsFit(f) && FlagsFit(f, flags)
    ensures ParseMotion(flags, Fields(f, rest)) == Some((Motion(f.dx, f.dy, f.wheel, f.pan), AfterPan(f, rest)))
  {
    hide ParseShort, ParseXY, Fields, Optional, Has, ShortBytes, HasXY, AfterPan;
    XYParsed(f, flags, rest);
    ShortParsed(f.pan != 0, f.pan, AfterPan(f, rest));
    ShortParsed(f.wheel != 0, f.wheel, Optional(f.pan != 0, ShortBytes(f.pan)) + AfterPan(f, rest));
  }

  lemma ItemsParsed(f: Frame, flags: Byte, rest: seq<Byte>)
    requires CountsFit(f) && FlagsFit(f, flags) && TransferError(f.transfers).None?
    ensures ParseItems(flags, AfterPan(f, rest)) == Some((Items(f.edges, NormalRaws(f.raw), f.transfers), rest))
  {
    hide ParseCounted, Optional, Has, HasXY, AllEdges, AllRaw, AllTransfers, ParseEdge, ParseRaw, ParseTransfer,
         Wanted, TransferError;
    TransferErrorEach(f.transfers);
    var t := Optional(|f.transfers| > 0, [|f.transfers|] + AllTransfers(f.transfers)) + rest;
    var r := Optional(|f.raw| > 0, [|f.raw|] + AllRaw(f.raw)) + t;
    TransfersParsed(f.transfers, rest);
    CountedParsed(ParseTransfer, |f.transfers|, AllTransfers(f.transfers), rest, f.transfers);
    RawsParsed(f.raw, t);
    CountedParsed(ParseRaw, |f.raw|, AllRaw(f.raw), t, NormalRaws(f.raw));
    EdgesParsed(f.edges, r);
    CountedParsed(ParseEdge, |f.edges|, AllEdges(f.edges), r, f.edges);
  }

  lemma FrameParsed(f: Frame, rest: seq<Byte>)
    requires CountsFit(f) && TransferError(f.transfers).None?
    ensures ParseFrame(FrameFlags(f), Fields(f, rest)) == Some((f.(raw := NormalRaws(f.raw)), rest))
  {
    hide ParseMotion, ParseItems, FrameFlags, Fields, AfterPan, FlagsFit;
    FrameFlagsFit(f);
    MotionParsed(f, FrameFlags(f), rest);
    ItemsParsed(f, FrameFlags(f), rest);
  }

  /** The parser recovers every accepted entry, up to the endpoint nibble, and consumes exactly its
      bytes, whatever follows. */
  lemma EntryParsed(e: Entry, rest: seq<Byte>)
    requires Accepted(e)
    ensures Parse(EntryBytes(e) + rest) == Some((Normal(e), rest))
  {
    match e {
      case Gap(n) =>
        WordRead(n);
        assert (EntryBytes(e) + rest)[3..] == rest;
      case Tick(f) =>
        AcceptedFits(f);
        FieldsOf(f, rest);
        FrameParsed(f, rest);
        FrameFlagsFit(f);
        hide ParseFrame, FrameFlags, Fields, FrameBytes, Has, HasXY;
        assert ([FrameFlags(f)] + Fields(f, rest))[1..] == Fields(f, rest);
    }
  }

  /** A ring of entries, one after the other. */
  function StreamBytes(es: seq<Entry>): seq<Byte>
    requires forall e :: e in es ==> Accepted(e)
  {
    if es == [] then [] else StreamBytes(es[..|es| - 1]) + EntryBytes(es[|es| - 1])
  }

  function NormalAll(es: seq<Entry>): seq<Entry> {
    seq(|es|, i requires 0 <= i < |es| => Normal(es[i]))
  }

  lemma {:induction false} StreamParsed(es: seq<Entry>, rest: seq<Byte>)
    requires forall e :: e in es ==> Accepted(e)
    ensures ParseMany(Parse, |es|, StreamBytes(es) + rest) == Some((NormalAll(es), rest))
    decreases |es|
  {
    hide EntryBytes, Parse, Normal;
    if es == [] {
      assert StreamBytes(es) + rest == rest;
    } else {
      var init, last := es[..|es| - 1], es[|es| - 1];
      assert StreamBytes(es) + rest == StreamBytes(init) + (EntryBytes(last) + rest);
      StreamParsed(init, EntryBytes(last) + rest);
      EntryParsed(last, rest);
      assert NormalAll(es) == NormalAll(init) + [Normal(last)];
    }
  }

  lemma {:induction false} StreamInTurn(a: seq<Entry>, b: seq<Entry>)
    requires (forall e :: e in a ==> Accepted(e)) && (forall e :: e in b ==> Accepted(e))
    ensures forall e :: e in a + b ==> Accepted(e)
    ensures StreamBytes(a + b) == StreamBytes(a) + StreamBytes(b)
    decreases |b|
  {
    hide EntryBytes, Accepted;
    if b == [] {
      assert a + b == a;
    } else {
      assert (a + b)[..|a + b| - 1] == a + b[..|b| - 1];
      StreamInTurn(a, b[..|b| - 1]);
    }
  }

  lemma StreamNotEmpty(es: seq<Entry>)
    requires (forall e :: e in es ==> Accepted(e)) && es != []
    ensures StreamBytes(es) != []
  {
  }

  lemma PrefixDecodes(a: seq<Entry>, b: seq<Entry>)
    requires (forall e :: e in a ==> Accepted(e)) && (forall e :: e in b ==> Accepted(e)) && |a| <= |b|
    requires StreamBytes(a) == StreamBytes(b)
    ensures NormalAll(a) == NormalAll(b)
  {
    hide Accepted, Parse, Normal, EntryBytes;
    var front, tail := b[..|a|], b[|a|..];
    assert b == front + tail;
    StreamInTurn(front, tail);
    StreamParsed(a, []);
    StreamParsed(front, StreamBytes(tail));
    assert StreamBytes(a) + [] == StreamBytes(front) + StreamBytes(tail);
    if tail != [] {
      StreamNotEmpty(tail);
    }
  }

  /** Two rings that read the same byte for byte hold the same entries, up to the endpoint nibble. */
  lemma UniquelyDecodable(a: seq<Entry>, b: seq<Entry>)
    requires (forall e :: e in a ==> Accepted(e)) && (forall e :: e in b ==> Accepted(e))
    requires StreamBytes(a) == StreamBytes(b)
    ensures NormalAll(a) == NormalAll(b)
  {
    if |a| <= |b| {
      PrefixDecodes(a, b);
    } else {
      PrefixDecodes(b, a);
    }
  }

  // The encoder

  method EncodeFrame(f: Frame) returns (r: Result<seq<Byte>, ClipError>)
    ensures r.Err? <==> FrameError(f).Some?
    ensures r.Err? ==> Some(r.error) == FrameError(f)
    ensures r.Ok? ==> r.value == EntryBytes(Tick(f)) && |r.value| == ByteLength(f) <= ENTRY_MAX
  {
    if FrameError(f).Some? {
      return Err(FrameError(f).value);
    }
    AcceptedFits(f);
    EncodedLength(f);
    FrameFlagsFit(f);
    hide FrameBytes, ByteLength, FrameError;
    var bytes := PushFields(f);
    return Ok(bytes);
  }

  method FlagsOf(f: Frame) returns (flags: Byte)
    ensures flags == FrameFlags(f)
  {
    var xy := f.dx != 0 || f.dy != 0;
    FlagsRead(xy, f.wheel != 0, f.edges != [], f.pan != 0, f.raw != [], f.transfers != []);
    flags := Flags(xy, f.wheel != 0, f.edges != [], f.pan != 0, f.raw != [], f.transfers != []);
    if flags == 0 {
      flags := 1;
    }
  }

  method PushMotion(f: Frame) returns (out: seq<Byte>)
    ensures out == MotionBytes(f)
  {
    var flags := FlagsOf(f);
    FrameFlagsFit(f);
    hide FrameFlags, ShortBytes, HasXY, Has, Flags;
    out := [flags];
    if Has(flags, 1) {
      out := out + (ShortBytes(f.dx) + ShortBytes(f.dy));
    }
    if f.wheel != 0 {
      out := out + ShortBytes(f.wheel);
    }
    if f.pan != 0 {
      out := out + ShortBytes(f.pan);
    }
  }

  method PushFields(f: Frame) returns (out: seq<Byte>)
    requires CountsFit(f)
    ensures out == FrameBytes(f)
  {
    hide MotionBytes, AllEdges, AllRaw, AllTransfers;
    out := PushMotion(f);
    if f.edges != [] {
      var edges := PushEdges(f.edges);
      out := out + ([|f.edges|] + edges);
    }
    if f.raw != [] {
      var raw := PushRaw(f.raw);
      out := out + ([|f.raw|] + raw);
    }
    if f.transfers != [] {
      var transfers := PushTransfers(f.transfers);
      out := out + ([|f.transfers|] + transfers);
    }
  }

  method PushEdges(edges: seq<Edge>) returns (out: seq<Byte>)
    ensures out == AllEdges(edges)
  {
    out := [];
    var i := 0;
    while i < |edges|
      invariant i <= |edges| && out == AllEdges(edges[..i])
    {
      assert edges[..i + 1][..i] == edges[..i];
      out := out + [edges[i].cls] + WordBytes(edges[i].id) + [edges[i].action];
      i := i + 1;
    }
    assert edges[..i] == edges;
  }

  method PushRaw(raw: seq<Raw>) returns (out: seq<Byte>)
    requires RawsFit(raw)
    ensures out == AllRaw(raw)
  {
    out := [];
    var i := 0;
    while i < |raw|
      invariant i <= |raw| && out == AllRaw(raw[..i])
    {
      assert raw[..i + 1][..i] == raw[..i];
      out := out + [raw[i].ep % 16, DirectionByte(raw[i].dir)] + WordBytes(|raw[i].bytes|) + raw[i].bytes;
      i := i + 1;
    }
    assert raw[..i] == raw;
  }

  method PushTransfers(transfers: seq<Transfer>) returns (out: seq<Byte>)
    ensures out == AllTransfers(transfers)
  {
    out := [];
    var i := 0;
    while i < |transfers|
      invariant i <= |transfers| && out == AllTransfers(transfers[..i])
    {
      assert transfers[..i + 1][..i] == transfers[..i];
      out := out + [transfers[i].ep] + SetupBytes(transfers[i].setup) + transfers[i].out;
      i := i + 1;
    }
    assert transfers[..i] == transfers;
  }
}
