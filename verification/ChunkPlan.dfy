/** Staging a firmware image: the credit window, the wrapping chunk sequence, and the receiver that only
    ever names the chunk it expects next. */
module ChunkPlan {
  import opened Wrappers

  type Byte = b: int | 0 <= b < 256

  const CHUNK := 504
  const DEFAULT_CREDIT := 16
  const OP_DATA := 1
  const SEQ_MOD := 65536

  function Least(a: nat, b: nat): nat {
    if a < b then a else b
  }

  /** Bytes of the image in its first `k` chunks. */
  function UpTo(len: nat, k: nat): nat {
    Least(CHUNK * k, len)
  }

  lemma UpToGrows(len: nat, k: nat)
    ensures UpTo(len, k) <= UpTo(len, k + 1) <= len
    ensures UpTo(len, k) < len ==> 0 < UpTo(len, k + 1) - UpTo(len, k) <= CHUNK
    ensures UpTo(len, k + 1) == Least(UpTo(len, k) + CHUNK, len)
  {
  }

  function Chunk(image: seq<Byte>, k: nat): seq<Byte> {
    UpToGrows(|image|, k);
    image[UpTo(|image|, k)..UpTo(|image|, k + 1)]
  }

  /** The data command of chunk `k`: its number wraps at sixteen bits, low byte first. */
  function FrameOf(image: seq<Byte>, target: Byte, k: nat): seq<Byte> {
    [OP_DATA, target, k % SEQ_MOD % 256, k % SEQ_MOD / 256] + Chunk(image, k)
  }

  function Frames(image: seq<Byte>, target: Byte, n: nat): seq<seq<Byte>> {
    if n == 0 then [] else Frames(image, target, n - 1) + [FrameOf(image, target, n - 1)]
  }

  function BodyOf(frame: seq<Byte>): seq<Byte> {
    if |frame| < 4 then [] else frame[4..]
  }

  function Bodies(frames: seq<seq<Byte>>): seq<Byte> {
    if frames == [] then [] else Bodies(frames[..|frames| - 1]) + BodyOf(frames[|frames| - 1])
  }

  lemma ChunksMeet(image: seq<Byte>, k: nat)
    ensures image[..UpTo(|image|, k)] + Chunk(image, k) == image[..UpTo(|image|, k + 1)]
  {
    UpToGrows(|image|, k);
  }

  lemma OneMoreBody(frames: seq<seq<Byte>>, frame: seq<Byte>)
    ensures Bodies(frames + [frame]) == Bodies(frames) + BodyOf(frame)
  {
    assert (frames + [frame])[..|frames|] == frames;
  }

  lemma BodyOfFrame(image: seq<Byte>, target: Byte, k: nat)
    ensures BodyOf(FrameOf(image, target, k)) == Chunk(image, k)
  {
  }

  /** The chunk number a receiver reads off a data command, low byte first. */
  function SeqOf(frame: seq<Byte>): int
    requires |frame| >= 4
  {
    (frame[2] as int) + 256 * (frame[3] as int)
  }

  /** A receiver reads back off a frame what it is, whose it is, its number and its chunk. */
  lemma FrameReadsBack(image: seq<Byte>, target: Byte, k: nat)
    ensures var frame := FrameOf(image, target, k);
            |frame| >= 4 && frame[0] == 1 && frame[1] == target && SeqOf(frame) == k % SEQ_MOD &&
            BodyOf(frame) == Chunk(image, k)
  {
    BodyOfFrame(image, target, k);
  }

  /** The bodies of the first `n` frames are the image's first bytes, in order. */
  lemma {:induction false} BodiesAreTheImage(image: seq<Byte>, target: Byte, n: nat)
    ensures Bodies(Frames(image, target, n)) == image[..UpTo(|image|, n)]
  {
    hide FrameOf, BodyOf, Chunk;
    if n > 0 {
      BodiesAreTheImage(image, target, n - 1);
      ChunksMeet(image, n - 1);
      OneMoreBody(Frames(image, target, n - 1), FrameOf(image, target, n - 1));
      BodyOfFrame(image, target, n - 1);
      hide Bodies;
    }
  }

  datatype Status = Okay | Acked | SeqGap | TooBig | BadState | Other(code: int)
  datatype Reply = Reply(status: Status, arg: int)
  datatype Progress = Progress(sent: nat, total: nat)

  /** How many chunks cover `sent` bytes of the image so far. */
  ghost predicate Covers(len: nat, sent: nat, count: nat) {
    sent == UpTo(len, count) && (count > 0 ==> UpTo(len, count - 1) < len)
  }

  lemma NextNumber(k: nat)
    ensures (k % SEQ_MOD + 1) % SEQ_MOD == (k + 1) % SEQ_MOD
  {
  }

  lemma NextChunk(image: seq<Byte>, target: Byte, sent: nat, k: nat)
    requires Covers(|image|, sent, k) && sent < |image|
    ensures sent < Least(sent + CHUNK, |image|) <= |image|
    ensures Covers(|image|, Least(sent + CHUNK, |image|), k + 1)
    ensures FrameOf(image, target, k) ==
            [OP_DATA, target, k % SEQ_MOD % 256, k % SEQ_MOD / 256] + image[sent..Least(sent + CHUNK, |image|)]
  {
    UpToGrows(|image|, k);
  }

  /** The credit the box grants, or the default where it names none. */
  function Granted(credit: nat): nat {
    if credit == 0 then DEFAULT_CREDIT else credit
  }

  /** Where the sender stops, from chunk `k` with room for `left` more. */
  function StopFrom(len: nat, k: nat, left: nat): (stop: nat)
    ensures k <= stop && (left > 0 && UpTo(len, k) < len ==> k < stop)
    decreases left
  {
    if left == 0 || UpTo(len, k) == len then k else StopFrom(len, k + 1, left - 1)
  }

  lemma {:induction false} StopIs(len: nat, k: nat, left: nat, stop: nat)
    requires k <= stop <= k + left && (UpTo(len, stop) == len || stop == k + left)
    requires k < stop ==> UpTo(len, stop - 1) < len
    ensures StopFrom(len, k, left) == stop
    decreases left
  {
    if k < stop {
      assert UpTo(len, k) <= UpTo(len, stop - 1);
      StopIs(len, k + 1, left - 1, stop);
    }
  }

  lemma StopGains(len: nat, k: nat, left: nat)
    requires left > 0 && UpTo(len, k) < len
    ensures UpTo(len, StopFrom(len, k, left)) > UpTo(len, k)
  {
    UpToGrows(len, k);
    assert UpTo(len, k + 1) <= UpTo(len, StopFrom(len, k, left));
  }

  /** The replies carry a transfer from `count` chunks on to its end: one success a window, each naming
      the chunk the sender would send next. */
  predicate Answered(len: nat, credit: nat, count: nat, replies: seq<Reply>)
    requires credit > 0
    decreases len - UpTo(len, count)
  {
    if UpTo(len, count) == len then true
    else
      var stop := StopFrom(len, count, credit);
      StopGains(len, count, credit);
      replies != [] && (replies[0].status == Okay || replies[0].status == Acked) && replies[0].arg == stop % SEQ_MOD &&
      Answered(len, credit, stop, replies[1..])
  }

  class Plan {
    const image: seq<Byte>
    const target: Byte
    const credit: nat
    var next: int
    var sent: nat
    var unacked: nat
    ghost var count: nat

    ghost predicate Valid()
      reads this
    {
      credit > 0 && next == count % SEQ_MOD && Covers(|image|, sent, count) && unacked <= credit && unacked <= count
    }

    constructor (image: seq<Byte>, target: Byte, credit: nat)
      ensures Valid() && count == 0 && unacked == 0
      ensures this.image == image && this.target == target
      ensures this.credit == if credit == 0 then 16 else credit
    {
      this.image, this.target := image, target;
      this.credit := Granted(credit);
      next, sent, unacked, count := 0, 0, 0, 0;
    }

    predicate Done()
      reads this
    {
      sent >= |image| && unacked == 0
    }

    /** Nothing more may go out before a reply comes in. */
    predicate AwaitingAck()
      reads this
    {
      unacked > 0 && (unacked >= credit || sent >= |image|)
    }

    method NextFrame() returns (frame: Option<seq<Byte>>)
      requires Valid()
      modifies this
      ensures Valid()
      ensures frame.None? <==> old(sent) >= |image| || old(unacked) >= credit
      ensures frame.None? ==> count == old(count) && sent == old(sent) && unacked == old(unacked)
      ensures frame.Some? ==> frame.value == FrameOf(image, target, old(count))
      ensures frame.Some? ==> count == old(count) + 1 && unacked == old(unacked) + 1 && sent > old(sent)
    {
      if sent >= |image| || unacked >= credit {
        return None;
      }
      hide FrameOf, Chunk, UpTo, Covers, Least;
      NextChunk(image, target, sent, count);
      var end := Least(sent + CHUNK, |image|);
      frame := Some([OP_DATA, target, next % 256, next / 256] + image[sent..end]);
      NextNumber(count);
      next := (next + 1) % SEQ_MOD;
      sent := end;
      unacked := unacked + 1;
      count := count + 1;
    }

    /** A failed status or an acknowledgement of any chunk but the next one ends the transfer. */
    method OnAck(reply: Reply) returns (progress: Result<Progress, Reply>)
      requires Valid()
      modifies `unacked
      ensures Valid()
      ensures progress.Ok? <==> (reply.status == Okay || reply.status == Acked) && reply.arg == count % SEQ_MOD
      ensures progress.Ok? ==> unacked == 0 && progress.value == Progress(sent, |image|)
      ensures progress.Err? ==> unacked == old(unacked)
      ensures progress.Err? ==>
                progress.error == Reply(if reply.status == Okay || reply.status == Acked then SeqGap else reply.status, reply.arg)
    {
      if reply.status != Okay && reply.status != Acked {
        return Err(reply);
      }
      if reply.arg != next {
        return Err(Reply(SeqGap, reply.arg));
      }
      unacked := 0;
      return Ok(Progress(sent, |image|));
    }

    /** Sends until the window is full or the image is out. */
    method FillWindow(before: seq<seq<Byte>>) returns (frames: seq<seq<Byte>>)
      requires Valid() && before == Frames(image, target, count)
      modifies this
      ensures Valid() && frames == Frames(image, target, count)
      ensures sent >= |image| || unacked >= credit
      ensures count >= old(count) && unacked == old(unacked) + (count - old(count))
      ensures old(sent) <= sent && (old(sent) == sent ==> unacked == old(unacked))
    {
      frames := before;
      var frame := NextFrame();
      while frame.Some?
        invariant Valid() && old(sent) <= sent && (old(sent) == sent ==> unacked == old(unacked) && frame.None?)
        invariant count >= old(count) && unacked == old(unacked) + (count - old(count))
        invariant frame.None? ==> frames == Frames(image, target, count) && (sent >= |image| || unacked >= credit)
        invariant frame.Some? ==> count > 0 && frames == Frames(image, target, count - 1)
        invariant frame.Some? ==> frame.value == FrameOf(image, target, count - 1)
        decreases |image| - sent, if frame.Some? then 1 else 0
      {
        frames := frames + [frame.value];
        frame := NextFrame();
      }
    }

    /** The transfer loop against whatever replies come; running out of them is a timeout. The frames
        sent are always the image's chunks in order, and it finishes exactly when the replies answer it. */
    method Transfer(replies: seq<Reply>) returns (finished: bool, frames: seq<seq<Byte>>)
      requires Valid() && count == 0 && unacked == 0
      modifies this
      ensures Valid() && frames == Frames(image, target, count)
      ensures finished <==> Answered(|image|, credit, 0, replies)
      ensures finished ==> Done() && Bodies(frames) == image
    {
      frames, finished := [], true;
      var r := 0;
      while !Done()
        invariant Valid() && frames == Frames(image, target, count) && r <= |replies| && unacked == 0
        invariant Answered(|image|, credit, 0, replies) <==> Answered(|image|, credit, count, replies[r..])
        decreases |image| - sent, unacked
      {
        ghost var from := count;
        frames := FillWindow(frames);
        StopIs(|image|, from, credit, count);
        if AwaitingAck() {
          if r == |replies| {
            return false, frames;
          }
          var progress := OnAck(replies[r]);
          assert replies[r..][1..] == replies[r + 1..];
          r := r + 1;
          if progress.Err? {
            return false, frames;
          }
        }
      }
      BodiesAreTheImage(image, target, count);
      assert image[..|image|] == image;
    }
  }

  // The receiver

  const SLOT_SIZE := 0xF0000

  /** What the box agrees to receive before the first chunk. */
  predicate BeginAccepts(size: nat) {
    0 < size <= SLOT_SIZE
  }

  /** The slot being written: whether the transfer is still open, the chunk it expects next, the bytes
      it holds, the chunks since its last acknowledgement. `taken` counts the chunks it took. */
  datatype Receiver = Receiver(active: bool, next: int, got: seq<Byte>, sinceAck: nat, taken: nat)

  /** A data command's number and bytes, and the receiver's reply if it owes one. */
  function Receive(rx: Receiver, size: nat, seqNo: int, bytes: seq<Byte>): (Receiver, Option<Reply>) {
    if !rx.active then (rx, Some(Reply(BadState, 0)))
    else if rx.next > 0 && seqNo == rx.next - 1 then (rx, Some(Reply(Acked, rx.next)))
    else if seqNo != rx.next then (rx.(active := false), Some(Reply(SeqGap, rx.next)))
    else if bytes == [] || |bytes| > CHUNK then (rx.(active := false), Some(Reply(BadState, CHUNK)))
    else if |rx.got| + |bytes| > size then (rx.(active := false), Some(Reply(TooBig, size)))
    else
      var took := Receiver(true, (rx.next + 1) % SEQ_MOD, rx.got + bytes, rx.sinceAck + 1, rx.taken + 1);
      if took.sinceAck >= DEFAULT_CREDIT || |took.got| == size then (took.(sinceAck := 0), Some(Reply(Acked, took.next)))
      else (took, None)
  }

  /** An image on its way: how many chunks were sent and are unacknowledged, the chunk numbers on the
      link, the receiver, and its replies on the way back, each with the count it was sent at. */
  datatype Transfer = Transfer(image: seq<Byte>, credit: nat, count: nat, unacked: nat, failed: bool,
                               flight: seq<nat>, rx: Receiver, replies: seq<(Reply, nat)>)

  datatype Event = Send | Lose | Deliver | Hear

  function Start(image: seq<Byte>, credit: nat): Transfer {
    Transfer(image, credit, 0, 0, false, [], Receiver(true, 0, [], 0, 0), [])
  }

  predicate Enabled(t: Transfer, e: Event) {
    match e
    case Send => !t.failed && UpTo(|t.image|, t.count) < |t.image| && t.unacked < t.credit
    case Lose => t.flight != []
    case Deliver => t.flight != []
    case Hear => !t.failed && t.replies != []
  }

  function Next(t: Transfer, e: Event): Transfer
    requires Enabled(t, e)
  {
    match e
    case Send => t.(count := t.count + 1, unacked := t.unacked + 1, flight := t.flight + [t.count])
    case Lose => t.(flight := t.flight[1..])
    case Deliver =>
      var (rx, reply) := Receive(t.rx, |t.image|, t.flight[0] % SEQ_MOD, Chunk(t.image, t.flight[0]));
      t.(flight := t.flight[1..], rx := rx,
         replies := if reply.Some? then t.replies + [(reply.value, rx.taken)] else t.replies)
    case Hear =>
      var reply := t.replies[0].0;
      var fine := (reply.status == Okay || reply.status == Acked) && reply.arg == t.count % SEQ_MOD;
      t.(replies := t.replies[1..], unacked := if fine then 0 else t.unacked, failed := !fine)
  }

  predicate Done(t: Transfer) {
    !t.failed && UpTo(|t.image|, t.count) == |t.image| && t.unacked == 0
  }

  /** Chunks on the link come in order, none before what the receiver took, none unsent. */
  ghost predicate InOrder(t: Transfer) {
    (forall i, j :: 0 <= i < j < |t.flight| ==> t.flight[i] < t.flight[j]) &&
    (forall i :: 0 <= i < |t.flight| ==> t.flight[i] < t.count && UpTo(|t.image|, t.flight[i]) < |t.image|) &&
    (t.rx.active ==> forall i :: 0 <= i < |t.flight| ==> t.rx.taken <= t.flight[i])
  }

  ghost predicate ReceiverKept(t: Transfer) {
    t.rx.next == t.rx.taken % SEQ_MOD && t.rx.taken <= t.count && t.rx.got == t.image[..UpTo(|t.image|, t.rx.taken)]
  }

  /** Every acknowledgement on its way is of more chunks than the sender knows were taken. */
  ghost predicate RepliesKept(t: Transfer, acked: nat) {
    (forall i, j :: 0 <= i < j < |t.replies| && t.replies[j].0.status == Acked ==> t.replies[i].1 < t.replies[j].1) &&
    forall i :: 0 <= i < |t.replies| ==>
      t.replies[i].1 <= t.rx.taken &&
      (t.replies[i].0.status == Acked ==> acked < t.replies[i].1 && t.replies[i].0.arg == t.replies[i].1 % SEQ_MOD) &&
      t.replies[i].0.status != Okay
  }

  /** No two chunks that can be unacknowledged together share a number: the window is shorter than a
      turn of the numbers, or the whole image is no longer than one. */
  predicate NumbersSuffice(len: nat, credit: nat) {
    credit > 0 && (credit < SEQ_MOD || UpTo(len, SEQ_MOD) == len)
  }

  ghost predicate Inv(t: Transfer) {
    NumbersSuffice(|t.image|, t.credit) && t.unacked <= t.credit && t.unacked <= t.count &&
    (t.unacked < SEQ_MOD || t.count <= SEQ_MOD) &&
    (t.count > 0 ==> UpTo(|t.image|, t.count - 1) < |t.image|) && InOrder(t) && ReceiverKept(t) &&
    t.count - t.unacked <= t.rx.taken && (!t.failed ==> RepliesKept(t, t.count - t.unacked))
  }

  lemma StartInv(image: seq<Byte>, credit: nat)
    requires NumbersSuffice(|image|, credit)
    ensures Inv(Start(image, credit))
  {
  }

  lemma SameRemainder(a: nat, b: nat)
    requires a <= b < a + SEQ_MOD && a % SEQ_MOD == b % SEQ_MOD
    ensures a == b
  {
  }

  lemma OnePast(a: nat, b: nat)
    requires a <= b < a + SEQ_MOD - 1 && a % SEQ_MOD > 0
    ensures b % SEQ_MOD != a % SEQ_MOD - 1
  {
    if b % SEQ_MOD == a % SEQ_MOD - 1 {
      SameRemainder(a - 1, b);
    }
  }

  ghost predicate Holding(rx: Receiver, image: seq<Byte>, taken: nat) {
    rx.active && rx.taken == taken && rx.next == taken % SEQ_MOD && rx.got == image[..UpTo(|image|, taken)]
  }

  lemma ChunkIsTaken(rx: Receiver, image: seq<Byte>, from: nat)
    requires Holding(rx, image, from) && UpTo(|image|, from) < |image|
    ensures var one := Receive(rx, |image|, from % SEQ_MOD, Chunk(image, from));
            var due := rx.sinceAck + 1 >= DEFAULT_CREDIT || UpTo(|image|, from + 1) == |image|;
            Holding(one.0, image, from + 1) && one.0.sinceAck == (if due then 0 else rx.sinceAck + 1) &&
            one.1 == if due then Some(Reply(Acked, (from + 1) % SEQ_MOD)) else None
  {
    UpToGrows(|image|, from);
    ChunksMeet(image, from);
    NextNumber(from);
  }

  /** A later chunk of the window is neither the next one nor the one taken last. */
  lemma LaterIsRefused(rx: Receiver, size: nat, taken: nat, j: nat, bytes: seq<Byte>)
    requires rx.active && rx.next == taken % SEQ_MOD && taken < j < taken + SEQ_MOD
    requires taken > 0 ==> j < taken + SEQ_MOD - 1
    ensures Receive(rx, size, j % SEQ_MOD, bytes) == (rx.(active := false), Some(Reply(SeqGap, rx.next)))
  {
    if rx.next > 0 {
      OnePast(taken, j);
    }
    if j % SEQ_MOD == rx.next {
      SameRemainder(taken, j);
    }
  }

  /** In the window the receiver takes the very next chunk or closes; it never mistakes one for
      another, nor for the one it took last. */
  lemma ReceivesTheNextChunk(t: Transfer)
    requires Inv(t) && t.flight != [] && t.rx.active
    ensures var j := t.flight[0]; var (rx, reply) := Receive(t.rx, |t.image|, j % SEQ_MOD, Chunk(t.image, j));
            if j == t.rx.taken then
              Holding(rx, t.image, t.rx.taken + 1) && (reply.Some? ==> reply.value == Reply(Acked, rx.next))
            else rx == t.rx.(active := false) && reply == Some(Reply(SeqGap, t.rx.next))
  {
    var j := t.flight[0];
    assert t.rx.taken <= j < t.count <= t.rx.taken + t.unacked;
    if j == t.rx.taken {
      ChunkIsTaken(t.rx, t.image, j);
    } else {
      LaterIsRefused(t.rx, |t.image|, t.rx.taken, j, Chunk(t.image, j));
    }
    hide Receive, Chunk, UpTo, RepliesKept;
  }

  lemma DeliverKeepsInv(t: Transfer)
    requires Inv(t) && t.flight != []
    ensures Inv(Next(t, Deliver))
  {
    if t.rx.active {
      ReceivesTheNextChunk(t);
    }
    hide Chunk, UpTo, Receive;
  }

  lemma HearKeepsInv(t: Transfer)
    requires Inv(t) && Enabled(t, Hear)
    ensures Inv(Next(t, Hear))
  {
    var (reply, at) := t.replies[0];
    if reply.status == Acked && reply.arg == t.count % SEQ_MOD {
      SameRemainder(at, t.count);
    }
  }

  lemma EventKeepsInv(t: Transfer, e: Event)
    requires Inv(t) && Enabled(t, e)
    ensures Inv(Next(t, e))
  {
    match e {
      case Send =>
      case Lose =>
      case Deliver => DeliverKeepsInv(t);
      case Hear => HearKeepsInv(t);
    }
  }

  ghost predicate Legal(t: Transfer, run: seq<Event>)
    decreases |run|
  {
    run == [] || (Enabled(t, run[0]) && Legal(Next(t, run[0]), run[1..]))
  }

  ghost function After(t: Transfer, run: seq<Event>): Transfer
    requires Legal(t, run)
    decreases |run|
  {
    if run == [] then t else After(Next(t, run[0]), run[1..])
  }

  lemma {:induction false} RunKeepsInv(t: Transfer, run: seq<Event>)
    requires Inv(t) && Legal(t, run)
    ensures Inv(After(t, run)) && After(t, run).image == t.image
    decreases |run|
  {
    if run != [] {
      EventKeepsInv(t, run[0]);
      RunKeepsInv(Next(t, run[0]), run[1..]);
    }
  }

  /** Whatever chunks the link loses, a transfer whose every acknowledgement was accepted has put
      exactly the image in the slot, as long as the chunk numbers suffice for a window. */
  lemma DoneMeansStaged(image: seq<Byte>, credit: nat, run: seq<Event>)
    requires NumbersSuffice(|image|, credit) && Legal(Start(image, credit), run)
    ensures Done(After(Start(image, credit), run)) ==> After(Start(image, credit), run).rx.got == image
  {
    StartInv(image, credit);
    RunKeepsInv(Start(image, credit), run);
    var t := After(Start(image, credit), run);
    if Done(t) {
      assert t.rx.taken == t.count;
      assert image[..|image|] == image;
    }
  }

  /** The numbers suffice for every image the box agrees to take, whatever credit it grants: what a
      finished transfer has put in the slot is that image. */
  lemma AcceptedImageIsStaged(image: seq<Byte>, credit: nat, run: seq<Event>)
    requires BeginAccepts(|image|) && Legal(Start(image, Granted(credit)), run)
    ensures Done(After(Start(image, Granted(credit)), run)) ==> After(Start(image, Granted(credit)), run).rx.got == image
  {
    DoneMeansStaged(image, Granted(credit), run);
  }

  // A link that loses nothing

  /** The receiver hears the `n` chunks from `from` on, one after the other. */
  function ReceiveAll(rx: Receiver, image: seq<Byte>, from: nat, n: nat): (Receiver, seq<Reply>)
    decreases n
  {
    if n == 0 then (rx, [])
    else
      var one := Receive(rx, |image|, from % SEQ_MOD, Chunk(image, from));
      var all := ReceiveAll(one.0, image, from + 1, n - 1);
      (all.0, (if one.1.Some? then [one.1.value] else []) + all.1)
  }

  /** Where the sender stops and waits, `n` chunks into a window that starts at chunk `from`. */
  predicate WindowEnds(image: seq<Byte>, from: nat, n: nat) {
    0 < n <= DEFAULT_CREDIT && UpTo(|image|, from + n - 1) < |image| &&
    (n == DEFAULT_CREDIT || UpTo(|image|, from + n) == |image|)
  }

  lemma EarlierIsShorter(len: nat, a: nat, b: nat)
    requires a <= b
    ensures UpTo(len, a) <= UpTo(len, b)
  {
  }

  lemma {:induction false} WindowIsTaken(rx: Receiver, image: seq<Byte>, done: nat, from: nat, n: nat)
    requires 0 < n && done <= from && WindowEnds(image, from - done, done + n)
    requires Holding(rx, image, from) && rx.sinceAck == done
    ensures Holding(ReceiveAll(rx, image, from, n).0, image, from + n)
    ensures ReceiveAll(rx, image, from, n).0.sinceAck == 0
    ensures ReceiveAll(rx, image, from, n).1 == [Reply(Acked, (from + n) % SEQ_MOD)]
    decreases n
  {
    hide Receive, Holding, Chunk, UpTo;
    EarlierIsShorter(|image|, from, from + n - 1);
    ChunkIsTaken(rx, image, from);
    var one := Receive(rx, |image|, from % SEQ_MOD, Chunk(image, from));
    if n > 1 {
      EarlierIsShorter(|image|, from + 1, from + n - 1);
      WindowIsTaken(one.0, image, done + 1, from + 1, n - 1);
      assert ReceiveAll(rx, image, from, n).1 == [] + ReceiveAll(one.0, image, from + 1, n - 1).1;
    } else {
      assert ReceiveAll(one.0, image, from + 1, 0) == (one.0, []);
    }
  }

  /** With the credit the box grants, a window that arrives whole is answered by exactly the one
      acknowledgement the sender accepts: the two never wait for each other. */
  lemma WholeWindowIsAcknowledged(rx: Receiver, image: seq<Byte>, from: nat, n: nat)
    requires WindowEnds(image, from, n) && Holding(rx, image, from) && rx.sinceAck == 0
    ensures Holding(ReceiveAll(rx, image, from, n).0, image, from + n)
    ensures ReceiveAll(rx, image, from, n).0.sinceAck == 0
    ensures ReceiveAll(rx, image, from, n).1 == [Reply(Acked, (from + n) % SEQ_MOD)]
  {
    WindowIsTaken(rx, image, 0, from, n);
  }

  // A transfer that nothing disturbs

  lemma {:induction false} OneMoreEvent(t: Transfer, run: seq<Event>, e: Event)
    requires Legal(t, run) && Enabled(After(t, run), e)
    ensures Legal(t, run + [e]) && After(t, run + [e]) == Next(After(t, run), e)
    decreases |run|
  {
    hide Enabled, Next;
    if run == [] {
      assert ([] + [e])[1..] == [];
    } else {
      assert (run + [e])[0] == run[0] && (run + [e])[1..] == run[1..] + [e];
      OneMoreEvent(Next(t, run[0]), run[1..], e);
    }
  }

  /** Sender and receiver at one chunk, nothing on the link, as many chunks since the last
      acknowledgement on either side. */
  ghost predicate Aligned(t: Transfer, image: seq<Byte>, count: nat) {
    t == Transfer(image, DEFAULT_CREDIT, count, t.rx.sinceAck, false, [], t.rx, []) && Holding(t.rx, image, count) &&
    t.rx.sinceAck < DEFAULT_CREDIT && (UpTo(|image|, count) == |image| ==> t.rx.sinceAck == 0)
  }

  lemma SendAndDeliver(s: Transfer, run: seq<Event>, image: seq<Byte>, count: nat) returns (longer: seq<Event>)
    requires Legal(s, run) && Aligned(After(s, run), image, count) && UpTo(|image|, count) < |image|
    ensures Legal(s, longer)
    ensures var t, u := After(s, run), After(s, longer);
            var due := t.rx.sinceAck + 1 >= DEFAULT_CREDIT || UpTo(|image|, count + 1) == |image|;
            u == Transfer(image, DEFAULT_CREDIT, count + 1, t.rx.sinceAck + 1, false, [], u.rx,
                          if due then [(Reply(Acked, (count + 1) % SEQ_MOD), count + 1)] else []) &&
            Holding(u.rx, image, count + 1) && u.rx.sinceAck == if due then 0 else t.rx.sinceAck + 1
  {
    OneMoreEvent(s, run, Send);
    var t := After(s, run + [Send]);
    assert t.flight == [count];
    OneMoreEvent(s, run + [Send], Deliver);
    longer := run + [Send] + [Deliver];
    assert t.flight[1..] == [];
    ChunkIsTaken(t.rx, image, count);
    hide Receive, Chunk, UpTo;
  }

  lemma OneChunkOn(s: Transfer, run: seq<Event>, image: seq<Byte>, count: nat) returns (longer: seq<Event>)
    requires Legal(s, run) && Aligned(After(s, run), image, count) && UpTo(|image|, count) < |image|
    ensures Legal(s, longer) && Aligned(After(s, longer), image, count + 1)
  {
    longer := SendAndDeliver(s, run, image, count);
    hide Receive, Chunk, UpTo;
    var u := After(s, longer);
    if u.replies != [] {
      OneMoreEvent(s, longer, Hear);
      longer := longer + [Hear];
      assert u.replies[1..] == [];
    }
  }

  lemma {:induction false} LosslessFrom(s: Transfer, run: seq<Event>, image: seq<Byte>, count: nat)
    returns (longer: seq<Event>)
    requires Legal(s, run) && Aligned(After(s, run), image, count)
    ensures Legal(s, longer) && Done(After(s, longer)) && After(s, longer).rx.got == image
    decreases |image| - UpTo(|image|, count)
  {
    if UpTo(|image|, count) == |image| {
      longer := run;
      assert image[..|image|] == image;
    } else {
      UpToGrows(|image|, count);
      longer := OneChunkOn(s, run, image, count);
      longer := LosslessFrom(s, longer, image, count + 1);
    }
  }

  /** Every image gets there: with the credit the box grants and a link that loses nothing, each chunk is
      taken, each window is answered, and the transfer ends with the image in the slot. */
  lemma LosslessTransferEnds(image: seq<Byte>) returns (run: seq<Event>)
    ensures Legal(Start(image, Granted(0)), run)
    ensures Done(After(Start(image, Granted(0)), run)) && After(Start(image, Granted(0)), run).rx.got == image
  {
    assert image[..0] == [];
    run := LosslessFrom(Start(image, DEFAULT_CREDIT), [], image, 0);
  }
}
