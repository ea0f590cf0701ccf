/** Packet triggers: what the host refuses to bind is exactly what the box would refuse, what could
    never fire, and what could never fire again. */
module PacketTrigger {
  import opened Wrappers

  type Byte = bv8

  const MATCH_MAX := 16
  const ID_ANY := 0xFFFF

  datatype Class = HidIn | HidOut | VendorInterrupt | VendorBulk | Control | Emit | Bus | ClipTransfer
  datatype Direction = Both | In | Out | With | Against

  datatype Trigger = Trigger(cls: Class, id: int, dir: Direction, match_: seq<Byte>, mask: seq<Byte>,
                             consume: bool, oncePerRun: bool, selector: nat)

  datatype Refusal = NoSurface | Relative | Lengths | TooLong | NeverCarried | StrayBit | ConsumesControl
                   | LoneSelector | NotOneStream | NoCondition | EndlessRun

  predicate IsSurface(c: Class) {
    c != Bus && c != ClipTransfer
  }

  predicate Carries(c: Class, d: Direction) {
    match c
    case HidIn | Emit => d == In
    case HidOut => d == Out
    case VendorInterrupt | VendorBulk | Control => d == In || d == Out
    case Bus | ClipTransfer => false
  }

  /** A match bit outside the mask. */
  predicate Stray(m: Byte, k: Byte) {
    m & !k != 0
  }

  predicate AnyStray(m: seq<Byte>, k: seq<Byte>)
    requires |m| == |k|
  {
    exists i :: 0 <= i < |m| && Stray(m[i], k[i])
  }

  predicate AnyMasked(k: seq<Byte>, from: nat) {
    exists i :: from <= i < |k| && k[i] != 0
  }

  function KeyRefusal(t: Trigger): Option<Refusal> {
    if !IsSurface(t.cls) then Some(NoSurface)
    else if t.dir == With || t.dir == Against then Some(Relative)
    else if |t.match_| != |t.mask| then Some(Lengths)
    else if |t.match_| > MATCH_MAX then Some(TooLong)
    else if t.dir != Both && !Carries(t.cls, t.dir) then Some(NeverCarried)
    else if AnyStray(t.match_, t.mask) then Some(StrayBit)
    else None
  }

  predicate OneStream(t: Trigger) {
    t.cls != Control && t.id != ID_ANY && t.dir != Both
  }

  function TriggerRefusal(t: Trigger): Option<Refusal> {
    if KeyRefusal(t).Some? then KeyRefusal(t)
    else if t.consume && t.cls == Control then Some(ConsumesControl)
    else if !t.oncePerRun then if t.selector == 0 then None else Some(LoneSelector)
    else if !OneStream(t) then Some(NotOneStream)
    else if t.selector >= |t.match_| then Some(NoCondition)
    else if !AnyMasked(t.mask, t.selector) then Some(EndlessRun)
    else None
  }

  // The box

  predicate BoxKeyOk(t: Trigger) {
    IsSurface(t.cls) && (t.dir == Both || t.dir == In || t.dir == Out) && |t.match_| <= MATCH_MAX && |t.mask| == |t.match_| &&
    !((t.dir == Out && (t.cls == HidIn || t.cls == Emit)) || (t.dir == In && t.cls == HidOut)) &&
    forall i :: 0 <= i < |t.match_| ==> !Stray(t.match_[i], t.mask[i])
  }

  /** Whether the box stores the trigger, its capacity apart. */
  predicate BoxAdmits(t: Trigger, imperfect: bool) {
    BoxKeyOk(t) && !(t.consume && (t.cls == Control || !imperfect)) &&
    if t.oncePerRun then
      t.cls != Control && t.id != ID_ANY && t.dir != Both && t.selector <= |t.mask| && AnyMasked(t.mask, t.selector)
    else t.selector == 0
  }

  /** The host refuses exactly the triggers the box would, the opt-in for consuming ones apart. */
  lemma RefusedIffNotAdmitted(t: Trigger, imperfect: bool)
    ensures KeyRefusal(t).None? <==> BoxKeyOk(t)
    ensures TriggerRefusal(t).None? && (t.consume ==> imperfect) <==> BoxAdmits(t, imperfect)
  {
  }

  /** The first `n` match bytes against the head of a packet, under the mask. */
  predicate HeadEquals(m: seq<Byte>, k: seq<Byte>, n: nat, head: seq<Byte>)
    requires n <= |m| == |k|
  {
    |head| >= n && forall j :: 0 <= j < n ==> head[j] & k[j] == m[j]
  }

  predicate Fits(t: Trigger) {
    |t.match_| == |t.mask| && t.selector <= |t.match_|
  }

  predicate Matches(t: Trigger, head: seq<Byte>)
    requires Fits(t)
  {
    HeadEquals(t.match_, t.mask, |t.match_|, head)
  }

  predicate OnStream(t: Trigger, head: seq<Byte>)
    requires Fits(t)
  {
    HeadEquals(t.match_, t.mask, t.selector, head)
  }

  lemma MaskedByteEquals(m: Byte, k: Byte, b: Byte)
    ensures !Stray(m, k) <==> m & k == m
    ensures b & k == m ==> !Stray(m, k)
  {
  }

  lemma MatchMatchesItself(t: Trigger)
    requires Fits(t) && !AnyStray(t.match_, t.mask)
    ensures Matches(t, t.match_)
  {
    forall j | 0 <= j < |t.match_| ensures t.match_[j] & t.mask[j] == t.match_[j] {
      MaskedByteEquals(t.match_[j], t.mask[j], t.match_[j]);
    }
  }

  lemma MatchedIsNotStray(t: Trigger, head: seq<Byte>)
    requires Fits(t) && Matches(t, head)
    ensures !AnyStray(t.match_, t.mask)
  {
    forall i | 0 <= i < |t.match_| ensures !Stray(t.match_[i], t.mask[i]) {
      MaskedByteEquals(t.match_[i], t.mask[i], head[i]);
    }
  }

  /** Some packet head meets the match exactly when no match bit lies outside the mask. */
  lemma FirableIffNoStray(t: Trigger)
    requires Fits(t)
    ensures (exists head :: Matches(t, head)) <==> !AnyStray(t.match_, t.mask)
  {
    hide Matches, AnyStray;
    if !AnyStray(t.match_, t.mask) {
      MatchMatchesItself(t);
    }
    if head :| Matches(t, head) {
      MatchedIsNotStray(t, head);
    }
  }

  /** A packet that stays on the stream but breaks the condition: one masked bit past the selector
      flipped. */
  function Breaker(t: Trigger, i: nat): seq<Byte>
    requires Fits(t) && i < |t.match_|
  {
    t.match_[i := t.match_[i] ^ t.mask[i]]
  }

  lemma FlippedByteDiffers(m: Byte, k: Byte)
    requires k != 0
    ensures (m ^ k) & k != m
  {
  }

  /** A stream's run can end exactly when some bit past the selector is masked. */
  lemma EndableIffMasked(t: Trigger)
    requires Fits(t) && !AnyStray(t.match_, t.mask)
    ensures (exists head :: |head| >= |t.match_| && OnStream(t, head) && !Matches(t, head)) <==> AnyMasked(t.mask, t.selector)
  {
    forall j | 0 <= j < |t.match_| ensures t.match_[j] & t.mask[j] == t.match_[j] {
      MaskedByteEquals(t.match_[j], t.mask[j], t.match_[j]);
    }
    if AnyMasked(t.mask, t.selector) {
      var i :| t.selector <= i < |t.mask| && t.mask[i] != 0;
      var head := Breaker(t, i);
      FlippedByteDiffers(t.match_[i], t.mask[i]);
      assert OnStream(t, head) && !Matches(t, head);
    } else {
      forall head | |head| >= |t.match_| && OnStream(t, head) ensures Matches(t, head) {
        forall j | 0 <= j < |t.match_| ensures head[j] & t.mask[j] == t.match_[j] {
          if j >= t.selector {
            assert t.mask[j] == 0;
            assert head[j] & 0 == 0;
          }
        }
      }
    }
  }

  /** Every trigger the host lets through has a packet that fires it, and one that runs once a run has a
      packet of the same stream that ends the run. */
  lemma AcceptedIsLive(t: Trigger)
    requires TriggerRefusal(t).None?
    ensures Fits(t) && exists head :: Matches(t, head)
    ensures t.oncePerRun ==> exists head :: |head| >= |t.match_| && OnStream(t, head) && !Matches(t, head)
  {
    FirableIffNoStray(t);
    EndableIffMasked(t);
  }

  // Which trigger a packet drives

  datatype Packet = Packet(cls: Class, id: int, dir: Direction, head: seq<Byte>)

  function Bits(b: Byte): (n: nat)
    ensures n <= 8
  {
    (if b & 1 != 0 then 1 else 0) + (if b & 2 != 0 then 1 else 0) + (if b & 4 != 0 then 1 else 0) +
    (if b & 8 != 0 then 1 else 0) + (if b & 16 != 0 then 1 else 0) + (if b & 32 != 0 then 1 else 0) +
    (if b & 64 != 0 then 1 else 0) + (if b & 128 != 0 then 1 else 0)
  }

  function MaskBits(mask: seq<Byte>): (n: nat)
    ensures n <= 8 * |mask|
  {
    if mask == [] then 0 else MaskBits(mask[..|mask| - 1]) + Bits(mask[|mask| - 1])
  }

  function IdRank(t: Trigger, p: Packet): nat {
    if t.cls != p.cls then 0 else if t.id == p.id then 2 else if t.id == ID_ANY then 1 else 0
  }

  predicate Candidate(t: Trigger, p: Packet)
    requires Fits(t)
  {
    IdRank(t, p) > 0 && (t.dir == Both || p.dir == Both || t.dir == p.dir) && Matches(t, p.head)
  }

  /** How specific a candidate is for a packet. */
  function Score(t: Trigger, p: Packet): nat {
    IdRank(t, p) * 100000 + MaskBits(t.mask) * 10 + if t.dir == Both then 0 else 1
  }

  /** Which packets a trigger is a candidate for, on its address and its bytes. */
  lemma CandidateIff(t: Trigger, p: Packet)
    requires Fits(t)
    ensures Candidate(t, p) <==>
            t.cls == p.cls && (t.id == p.id || t.id == ID_ANY) && (t.dir == Both || p.dir == Both || t.dir == p.dir) &&
            |p.head| >= |t.match_| && forall j :: 0 <= j < |t.match_| ==> p.head[j] & t.mask[j] == t.match_[j]
  {
  }

  /** A trigger opened to any id or to both directions takes every packet it took before, and ranks lower
      there. */
  lemma WiderIsCandidate(t: Trigger, p: Packet)
    requires Fits(t) && Candidate(t, p)
    ensures Candidate(t.(dir := Both), p) && Score(t.(dir := Both), p) <= Score(t, p)
    ensures p.id != ID_ANY ==> Candidate(t.(id := ID_ANY), p) && Score(t.(id := ID_ANY), p) <= Score(t, p)
  {
    hide MaskBits;
  }

  predicate OneBit(bit: Byte) {
    bit == 1 || bit == 2 || bit == 4 || bit == 8 || bit == 16 || bit == 32 || bit == 64 || bit == 128
  }

  lemma OneMoreBit(b: Byte, bit: Byte)
    requires OneBit(bit) && b & bit == 0
    ensures Bits(0) == 0 && Bits(b | bit) == Bits(b) + 1
  {
  }

  lemma {:induction false} MaskBitsUpdated(mask: seq<Byte>, i: nat, b: Byte)
    requires i < |mask|
    ensures MaskBits(mask[i := b]) == MaskBits(mask) - Bits(mask[i]) + Bits(b)
  {
    hide Bits;
    var n := |mask| - 1;
    if i == n {
      assert mask[i := b][..n] == mask[..n];
    } else {
      MaskBitsUpdated(mask[..n], i, b);
      assert mask[i := b][..n] == mask[..n][i := b];
    }
  }

  /** A trigger that masks one more bit, wherever it lies, ranks above for every packet. */
  lemma MaskedBitRanks(t: Trigger, p: Packet, i: nat, bit: Byte)
    requires i < |t.mask| && OneBit(bit) && t.mask[i] & bit == 0
    ensures MaskBits(t.mask[i := t.mask[i] | bit]) == MaskBits(t.mask) + 1
    ensures Score(t.(mask := t.mask[i := t.mask[i] | bit]), p) > Score(t, p)
  {
    OneMoreBit(t.mask[i], bit);
    MaskBitsUpdated(t.mask, i, t.mask[i] | bit);
    hide Bits, MaskBits, OneBit;
  }

  /** The id counts before the masked bits, and these before the direction. */
  lemma ScoreOrder(t: Trigger, u: Trigger, p: Packet)
    requires |t.mask| <= MATCH_MAX && |u.mask| <= MATCH_MAX
    ensures Score(t, p) < Score(u, p) <==>
            IdRank(t, p) < IdRank(u, p) ||
            (IdRank(t, p) == IdRank(u, p) &&
             (MaskBits(t.mask) < MaskBits(u.mask) ||
              (MaskBits(t.mask) == MaskBits(u.mask) && t.dir == Both && u.dir != Both)))
  {
    hide MaskBits, IdRank;
  }

  ghost predicate AllFit(rows: seq<Trigger>) {
    forall i :: 0 <= i < |rows| ==> Fits(rows[i])
  }

  /** The first of the best-scoring candidates among the first `n` rows. */
  function Top(rows: seq<Trigger>, p: Packet, n: nat): (top: Option<nat>)
    requires n <= |rows| && AllFit(rows)
    ensures top.Some? ==> top.value < n && Candidate(rows[top.value], p)
  {
    if n == 0 then None
    else
      var before := Top(rows, p, n - 1);
      if Candidate(rows[n - 1], p) && (before.None? || Score(rows[n - 1], p) > Score(rows[before.value], p)) then Some(n - 1)
      else before
  }

  /** Row `q` takes the packet before row `r`: it is more specific, or as specific and set earlier. */
  predicate Outranks(rows: seq<Trigger>, p: Packet, q: nat, r: nat)
    requires q < |rows| && r < |rows| && Fits(rows[q])
  {
    Candidate(rows[q], p) && (Score(rows[q], p) > Score(rows[r], p) || (Score(rows[q], p) == Score(rows[r], p) && q < r))
  }

  lemma {:induction false} TopIs(rows: seq<Trigger>, p: Packet, n: nat)
    requires n <= |rows| && AllFit(rows)
    ensures var top := Top(rows, p, n);
            if top.Some? then forall q :: 0 <= q < n ==> !Outranks(rows, p, q, top.value)
            else forall q :: 0 <= q < n ==> !Candidate(rows[q], p)
  {
    hide Candidate, Score, Top;
    TopStep(rows, p, n);
    if n > 0 {
      TopIs(rows, p, n - 1);
      var before, top := Top(rows, p, n - 1), Top(rows, p, n);
      forall q | 0 <= q < n && top.Some? ensures !Outranks(rows, p, q, top.value) {
        assert q < n - 1 && before.Some? ==> !Outranks(rows, p, q, before.value);
      }
    }
  }

  lemma TopStep(rows: seq<Trigger>, p: Packet, n: nat)
    requires n <= |rows| && AllFit(rows)
    ensures n == 0 ==> Top(rows, p, n).None?
    ensures n > 0 ==>
              var before := Top(rows, p, n - 1);
              Top(rows, p, n) ==
                if Candidate(rows[n - 1], p) && (before.None? || Score(rows[n - 1], p) > Score(rows[before.value], p))
                then Some(n - 1) else before
  {
    hide Candidate, Score;
  }

  /** A candidate is the one a packet drives exactly when no other outranks it. */
  lemma TopIff(rows: seq<Trigger>, p: Packet, r: nat)
    requires AllFit(rows) && r < |rows| && Candidate(rows[r], p)
    ensures Top(rows, p, |rows|) == Some(r) <==> forall q :: 0 <= q < |rows| ==> !Outranks(rows, p, q, r)
  {
    TopIs(rows, p, |rows|);
    var top := Top(rows, p, |rows|);
    hide Top, Score, Candidate;
    if top != Some(r) {
      assert !Outranks(rows, p, r, top.value);
      assert Outranks(rows, p, top.value, r);
    }
  }

  // Runs over a stream

  /** A once-per-run trigger on its address: whether its last stream packet met the condition. */
  function LiveAfter(t: Trigger, heads: seq<seq<Byte>>): bool
    requires Fits(t)
  {
    if heads == [] then false
    else if OnStream(t, heads[|heads| - 1]) then Matches(t, heads[|heads| - 1])
    else LiveAfter(t, heads[..|heads| - 1])
  }

  /** A packet on the trigger's own address. */
  function AtAddress(t: Trigger, head: seq<Byte>): Packet {
    Packet(t.cls, t.id, t.dir, head)
  }

  lemma MatchIsCandidate(t: Trigger, head: seq<Byte>)
    requires Fits(t)
    ensures Candidate(t, AtAddress(t, head)) <==> Matches(t, head)
  {
  }

  /** Whether packet `i` of the address of a once-per-run row drives its action: it is the row's, and the run is
      new. A run is kept up whichever row takes the packet. */
  predicate Fires(rows: seq<Trigger>, r: nat, heads: seq<seq<Byte>>, i: nat)
    requires AllFit(rows) && r < |rows| && i < |heads|
  {
    Top(rows, AtAddress(rows[r], heads[i]), |rows|) == Some(r) && !LiveAfter(rows[r], heads[..i])
  }

  lemma MatchIsOnStream(t: Trigger, head: seq<Byte>)
    requires Fits(t) && Matches(t, head)
    ensures OnStream(t, head)
  {
  }

  lemma {:induction false} LiveUntilBroken(t: Trigger, heads: seq<seq<Byte>>, i: nat, j: nat)
    requires Fits(t) && i < j <= |heads| && Matches(t, heads[i])
    requires forall k :: i < k < j && OnStream(t, heads[k]) ==> Matches(t, heads[k])
    ensures LiveAfter(t, heads[..j])
    decreases j
  {
    assert heads[..j][..j - 1] == heads[..j - 1];
    MatchIsOnStream(t, heads[i]);
    if j > i + 1 && !OnStream(t, heads[j - 1]) {
      LiveUntilBroken(t, heads, i, j - 1);
    }
  }

  /** A held state fires once: between two firings the stream left the condition. */
  lemma OncePerRun(rows: seq<Trigger>, r: nat, heads: seq<seq<Byte>>, i: nat, j: nat)
    requires AllFit(rows) && r < |rows| && i < j < |heads| && Fires(rows, r, heads, i) && Fires(rows, r, heads, j)
    ensures exists k :: i < k < j && OnStream(rows[r], heads[k]) && !Matches(rows[r], heads[k])
  {
    var t := rows[r];
    assert Candidate(t, AtAddress(t, heads[i]));
    hide Candidate, Top;
    MatchIsCandidate(t, heads[i]);
    if forall k :: i < k < j && OnStream(t, heads[k]) ==> Matches(t, heads[k]) {
      LiveUntilBroken(t, heads, i, j);
    }
  }

  lemma {:induction false} LastOnStream(t: Trigger, heads: seq<seq<Byte>>, n: nat) returns (i: nat)
    requires Fits(t) && n <= |heads| && LiveAfter(t, heads[..n])
    ensures i < n && OnStream(t, heads[i]) && Matches(t, heads[i])
    ensures forall k :: i < k < n ==> !OnStream(t, heads[k])
    decreases n
  {
    assert heads[..n][..n - 1] == heads[..n - 1];
    if OnStream(t, heads[n - 1]) {
      i := n - 1;
    } else {
      i := LastOnStream(t, heads, n - 1);
    }
  }

  /** And no run goes by unfired: a matching packet does not fire exactly when another row outranks this
      one on it, or it follows, on its stream, directly on one that matched too. */
  lemma SkippedOnlyMidRun(rows: seq<Trigger>, r: nat, heads: seq<seq<Byte>>, j: nat)
    requires AllFit(rows) && r < |rows| && j < |heads| && Matches(rows[r], heads[j])
    ensures var t := rows[r];
            !Fires(rows, r, heads, j) <==>
            (exists q :: 0 <= q < |rows| && Outranks(rows, AtAddress(t, heads[j]), q, r)) ||
            exists i :: 0 <= i < j && Matches(t, heads[i]) && forall k :: i < k < j ==> !OnStream(t, heads[k])
  {
    var t := rows[r];
    MatchIsCandidate(t, heads[j]);
    hide Candidate, Top, Outranks, AtAddress;
    TopIff(rows, AtAddress(t, heads[j]), r);
    LiveIff(t, heads, j);
  }

  /** The run is under way exactly when the stream's last packet met the condition. */
  lemma LiveIff(t: Trigger, heads: seq<seq<Byte>>, j: nat)
    requires Fits(t) && j < |heads|
    ensures LiveAfter(t, heads[..j]) <==>
            exists i :: 0 <= i < j && Matches(t, heads[i]) && forall k :: i < k < j ==> !OnStream(t, heads[k])
  {
    if LiveAfter(t, heads[..j]) {
      var i := LastOnStream(t, heads, j);
    }
    if i :| 0 <= i < j && Matches(t, heads[i]) && forall k :: i < k < j ==> !OnStream(t, heads[k]) {
      LiveUntilBroken(t, heads, i, j);
    }
  }
}
