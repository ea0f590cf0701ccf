/** CRC16-CCITT-FALSE, and the errors it cannot miss. */
module Crc {

  const INIT: bv16 := 0xFFFF
  const POLY: bv16 := 0x1021
  const TOP: bv16 := 0x8000

  function Xor(a: bv16, b: bv16): bv16 {
    a ^ b
  }

  function Shift(c: bv16): bv16 {
    if c & 0x8000 != 0 then (c << 1) ^ 0x1021 else c << 1
  }

  function Shifted(c: bv16, n: nat): bv16
    decreases n
  {
    if n == 0 then c else Shifted(Shift(c), n - 1)
  }

  function High(b: bv8): bv16 {
    (b as bv16) << 8
  }

  function Absorb(c: bv16, b: bv8): bv16 {
    Shifted(Xor(c, High(b)), 8)
  }

  /** The register after `data`, from `c`. */
  function Run(c: bv16, data: seq<bv8>): bv16 {
    if data == [] then c else Absorb(Run(c, data[..|data| - 1]), data[|data| - 1])
  }

  lemma {:induction false} ShiftedSnoc(c: bv16, n: nat)
    ensures Shifted(c, n + 1) == Shift(Shifted(c, n))
    decreases n
  {
    hide Shift;
    if n > 0 {
      ShiftedSnoc(Shift(c), n - 1);
    }
  }

  method ShiftOnce(c: bv16) returns (crc: bv16)
    ensures crc == Shift(c)
  {
    crc := if c & 0x8000 != 0 then (c << 1) ^ 0x1021 else c << 1;
  }

  method ShiftByte(c: bv16) returns (crc: bv16)
    ensures crc == Shifted(c, 8)
  {
    hide Shifted, Shift;
    crc := c;
    var k := 0;
    ShiftedNone(c);
    while k < 8
      invariant k <= 8 && crc == Shifted(c, k)
    {
      ShiftedSnoc(c, k);
      crc := ShiftOnce(crc);
      k := k + 1;
    }
  }

  lemma ShiftedNone(c: bv16)
    ensures Shifted(c, 0) == c
  {
  }

  method Crc16Ccitt(data: seq<bv8>) returns (crc: bv16)
    ensures crc == Run(INIT, data)
  {
    crc := INIT;
    var i := 0;
    assert data[..0] == [];
    while i < |data|
      invariant i <= |data| && crc == Run(INIT, data[..i])
    {
      hide Xor, Shifted, High;
      assert data[..i + 1][..i] == data[..i];
      crc := ShiftByte(Xor(crc, High(data[i])));
      i := i + 1;
    }
    assert data[..i] == data;
  }

  // The shift is linear over xor and loses nothing

  predicate Top(c: bv16) {
    c & 0x8000 != 0
  }

  function Shl(c: bv16): bv16 {
    c << 1
  }

  lemma ShiftTop(c: bv16)
    requires Top(c)
    ensures Shift(c) == Xor(Shl(c), POLY)
  {
  }

  lemma ShiftPlain(c: bv16)
    requires !Top(c)
    ensures Shift(c) == Shl(c)
  {
  }

  lemma TopLinear(a: bv16, b: bv16)
    ensures Top(Xor(a, b)) <==> Top(a) != Top(b)
  {
  }

  lemma ShlLinear(a: bv16, b: bv16)
    ensures Shl(Xor(a, b)) == Xor(Shl(a), Shl(b))
  {
  }

  lemma XorAssociates(x: bv16, y: bv16, z: bv16)
    ensures Xor(x, Xor(y, z)) == Xor(Xor(x, y), z)
  {
  }

  lemma XorCommutes(x: bv16, y: bv16)
    ensures Xor(x, y) == Xor(y, x)
  {
  }

  lemma XorZero(x: bv16)
    ensures Xor(x, 0) == x && Xor(0, x) == x
  {
  }

  lemma XorSame(x: bv16, y: bv16)
    ensures Xor(x, y) == 0 <==> x == y
  {
  }

  lemma XorCancels(x: bv16, y: bv16, z: bv16)
    ensures Xor(Xor(x, z), Xor(y, z)) == Xor(x, y)
  {
    XorCommutes(y, z);
    XorAssociates(Xor(x, z), z, y);
    XorAssociates(x, z, z);
    XorSame(z, z);
    XorZero(x);
    hide Xor;
  }

  lemma ShiftEither(c: bv16)
    ensures Shift(c) == if Top(c) then Xor(Shl(c), POLY) else Shl(c)
  {
    if Top(c) {
      ShiftTop(c);
    } else {
      ShiftPlain(c);
    }
    hide Shift, Xor, Top, Shl;
  }

  lemma ShiftLinear(a: bv16, b: bv16)
    ensures Shift(Xor(a, b)) == Xor(Shift(a), Shift(b))
  {
    hide Shift, Xor, Top, Shl;
    TopLinear(a, b);
    ShlLinear(a, b);
    ShiftEither(a);
    ShiftEither(b);
    ShiftEither(Xor(a, b));
    XorCancels(Shl(a), Shl(b), POLY);
    XorAssociates(Shl(a), Shl(b), POLY);
    XorAssociates(Shl(a), POLY, Shl(b));
    XorCommutes(POLY, Shl(b));
  }

  lemma ShiftKeepsNonzero(c: bv16)
    ensures Shift(c) == 0 <==> c == 0
  {
  }

  lemma {:induction false} ShiftedLinear(a: bv16, b: bv16, n: nat)
    ensures Shifted(Xor(a, b), n) == Xor(Shifted(a, n), Shifted(b, n))
    decreases n
  {
    hide Shift, Xor;
    if n > 0 {
      ShiftLinear(a, b);
      ShiftedLinear(Shift(a), Shift(b), n - 1);
    }
  }

  lemma {:induction false} ShiftedKeepsNonzero(c: bv16, n: nat)
    ensures Shifted(c, n) == 0 <==> c == 0
    decreases n
  {
    hide Shift;
    if n > 0 {
      ShiftKeepsNonzero(c);
      ShiftedKeepsNonzero(Shift(c), n - 1);
    }
  }

  // Messages bit by bit

  /** The register takes one message bit at its top. */
  function Feed(c: bv16, bit: bool): bv16 {
    Shift(if bit then Xor(c, TOP) else c)
  }

  function FeedAll(c: bv16, bits: seq<bool>): bv16
    decreases |bits|
  {
    if bits == [] then c else FeedAll(Feed(c, bits[0]), bits[1..])
  }

  /** Bits at the top of a word, the first one highest. */
  function Word(bits: seq<bool>): bv16
    decreases |bits|
  {
    if bits == [] then 0 else Xor(if bits[0] then TOP else 0, Word(bits[1..]) >> 1)
  }

  /** Nothing below the first `n` bits. */
  predicate Above(w: bv16, n: nat)
    requires n <= 16
  {
    n == 16 || w & (0xFFFF >> n) == 0
  }

  lemma ShiftRight(w: bv16, n: nat)
    requires n < 16 && Above(w, n)
    ensures Shift(w >> 1) == w && Above(w >> 1, n + 1)
  {
  }

  lemma AboveTop(w: bv16, n: nat)
    requires n <= 16 && Above(w, n) && n > 0
    ensures Above(Xor(TOP, w), n) && Above(Xor(0, w), n)
  {
  }

  lemma {:induction false} WordAbove(bits: seq<bool>)
    requires |bits| <= 16
    ensures Above(Word(bits), |bits|)
    decreases |bits|
  {
    hide Above, Xor;
    if bits == [] {
      ZeroAbove();
    } else {
      WordAbove(bits[1..]);
      ShiftRight(Word(bits[1..]), |bits| - 1);
      AboveTop(Word(bits[1..]) >> 1, |bits|);
    }
  }

  lemma ZeroAbove()
    ensures Above(0, 0)
  {
  }

  /** Up to sixteen bits fed one by one are as good as one word taken at once. */
  lemma {:induction false} FeedIsOneWord(c: bv16, bits: seq<bool>)
    requires |bits| <= 16
    ensures FeedAll(c, bits) == Shifted(Xor(c, Word(bits)), |bits|)
    decreases |bits|
  {
    hide Above, Xor, Shift;
    XorZero(c);
    if bits != [] {
      var top, rest := if bits[0] then TOP else 0, Word(bits[1..]);
      WordAbove(bits[1..]);
      ShiftRight(rest, |bits| - 1);
      FeedIsOneWord(Feed(c, bits[0]), bits[1..]);
      XorAssociates(c, top, rest >> 1);
      XorZero(c);
      ShiftLinear(Xor(c, top), rest >> 1);
    }
  }

  // Bytes as bits

  /** The top `n` bits of a word, highest first. */
  function TopBits(w: bv16, n: nat): seq<bool>
    decreases n
  {
    if n == 0 then [] else [Top(w)] + TopBits(Shl(w), n - 1)
  }

  function Bits(data: seq<bv8>): seq<bool> {
    if data == [] then [] else Bits(data[..|data| - 1]) + TopBits(High(data[|data| - 1]), 8)
  }

  lemma WithTop(w: bv16)
    requires Top(w)
    ensures w == Xor(TOP, Shl(w) >> 1)
  {
  }

  lemma WithoutTop(w: bv16)
    requires !Top(w)
    ensures w == Xor(0, Shl(w) >> 1)
  {
  }

  lemma ShlAbove(w: bv16, n: nat)
    requires 0 < n <= 16 && Above(w, n)
    ensures Above(Shl(w), n - 1)
  {
  }

  lemma SplitTop(w: bv16, n: nat)
    requires 0 < n <= 16 && Above(w, n)
    ensures w == Xor(if Top(w) then TOP else 0, Shl(w) >> 1) && Above(Shl(w), n - 1)
  {
    hide Xor, Top, Shl, Above;
    ShlAbove(w, n);
    if Top(w) {
      WithTop(w);
    } else {
      WithoutTop(w);
    }
  }

  lemma {:induction false} WordOfTopBits(w: bv16, n: nat)
    requires n <= 16 && Above(w, n)
    ensures |TopBits(w, n)| == n && Word(TopBits(w, n)) == w
    decreases n
  {
    hide Xor, Top, Shl;
    if n == 0 {
      OnlyZeroAbove(w);
      hide Above;
    } else {
      hide Above;
      SplitTop(w, n);
      WordOfTopBits(Shl(w), n - 1);
      assert TopBits(w, n)[1..] == TopBits(Shl(w), n - 1);
    }
  }

  lemma OnlyZeroAbove(w: bv16)
    requires Above(w, 0)
    ensures w == 0
  {
  }

  lemma HighAbove(b: bv8)
    ensures Above(High(b), 8)
  {
  }

  lemma {:induction false} FeedInTurn(c: bv16, a: seq<bool>, b: seq<bool>)
    ensures FeedAll(c, a + b) == FeedAll(FeedAll(c, a), b)
    decreases |a|
  {
    hide Feed;
    if a == [] {
      assert a + b == b;
    } else {
      assert (a + b)[0] == a[0] && (a + b)[1..] == a[1..] + b;
      FeedInTurn(Feed(c, a[0]), a[1..], b);
    }
  }

  lemma AbsorbFeeds(c: bv16, b: bv8)
    ensures |TopBits(High(b), 8)| == 8 && Word(TopBits(High(b), 8)) == High(b)
    ensures Absorb(c, b) == FeedAll(c, TopBits(High(b), 8))
  {
    HighAbove(b);
    hide High, Above, Shifted, Xor, Top, TopBits, FeedAll;
    WordOfTopBits(High(b), 8);
    FeedIsOneWord(c, TopBits(High(b), 8));
  }

  /** The byte-wise register is the bit-wise one. */
  lemma {:induction false} RunFeeds(c: bv16, data: seq<bv8>)
    ensures Run(c, data) == FeedAll(c, Bits(data)) && |Bits(data)| == 8 * |data|
  {
    hide Absorb, TopBits, High, Word;
    if data != [] {
      RunFeeds(c, data[..|data| - 1]);
      AbsorbFeeds(Run(c, data[..|data| - 1]), data[|data| - 1]);
      FeedInTurn(c, Bits(data[..|data| - 1]), TopBits(High(data[|data| - 1]), 8));
    }
  }

  // Errors

  /** Where two messages differ. */
  function Errors(p: seq<bool>, q: seq<bool>): seq<bool>
    requires |p| == |q|
  {
    seq(|p|, i requires 0 <= i < |p| => p[i] != q[i])
  }

  lemma FeedLinear(a: bv16, b: bv16, x: bool, y: bool)
    ensures Xor(Feed(a, x), Feed(b, y)) == Feed(Xor(a, b), x != y)
  {
    hide Xor, Shift;
    var s, t := if x then Xor(a, TOP) else a, if y then Xor(b, TOP) else b;
    ShiftLinear(s, t);
    XorCancels(a, b, TOP);
    XorAssociates(a, b, TOP);
    XorAssociates(a, TOP, b);
    XorCommutes(TOP, b);
  }

  /** Two registers differ by what the errors alone make of the difference they started with. */
  lemma {:induction false} FeedAllLinear(a: bv16, b: bv16, p: seq<bool>, q: seq<bool>)
    requires |p| == |q|
    ensures Xor(FeedAll(a, p), FeedAll(b, q)) == FeedAll(Xor(a, b), Errors(p, q))
    decreases |p|
  {
    hide Xor, Feed;
    if p != [] {
      FeedLinear(a, b, p[0], q[0]);
      FeedAllLinear(Feed(a, p[0]), Feed(b, q[0]), p[1..], q[1..]);
      assert Errors(p, q)[1..] == Errors(p[1..], q[1..]);
    }
  }

  /** Two messages of one length have one CRC exactly when their errors feed a zero register to zero. */
  lemma SameCrcIff(p: seq<bv8>, q: seq<bv8>)
    requires |p| == |q|
    ensures |Bits(p)| == |Bits(q)| && (Run(INIT, p) == Run(INIT, q) <==> FeedAll(0, Errors(Bits(p), Bits(q))) == 0)
  {
    hide Xor, Run, FeedAll, Bits, Errors;
    RunFeeds(INIT, p);
    RunFeeds(INIT, q);
    FeedAllLinear(INIT, INIT, Bits(p), Bits(q));
    XorSame(INIT, INIT);
    XorSame(Run(INIT, p), Run(INIT, q));
  }

  ghost predicate NoErrors(e: seq<bool>) {
    forall i :: 0 <= i < |e| ==> !e[i]
  }

  lemma {:induction false} NoErrorsKeep(c: bv16, e: seq<bool>)
    requires NoErrors(e)
    ensures FeedAll(c, e) == 0 <==> c == 0
    decreases |e|
  {
    hide Shift, Xor;
    if e != [] {
      ShiftKeepsNonzero(c);
      NoErrorsKeep(Feed(c, e[0]), e[1..]);
    }
  }

  lemma {:induction false} SomeErrorInTheWord(e: seq<bool>)
    requires |e| <= 16 && !NoErrors(e)
    ensures Word(e) != 0
    decreases |e|
  {
    hide Xor, Above;
    if e[0] {
      WordAbove(e[1..]);
      TopStands(Word(e[1..]));
    } else {
      assert !NoErrors(e[1..]) by {
        var i :| 0 <= i < |e| && e[i];
        assert e[1..][i - 1];
      }
      SomeErrorInTheWord(e[1..]);
      WordAbove(e[1..]);
      HalfStands(Word(e[1..]), |e| - 1);
    }
  }

  lemma TopStands(w: bv16)
    ensures Xor(TOP, w >> 1) != 0
  {
  }

  lemma HalfStands(w: bv16, n: nat)
    requires n < 16 && Above(w, n) && w != 0
    ensures Xor(0, w >> 1) != 0
  {
  }

  /** Errors confined to sixteen consecutive bits never cancel out. */
  lemma BurstFeedsNonzero(front: seq<bool>, burst: seq<bool>, back: seq<bool>)
    requires NoErrors(front) && NoErrors(back) && |burst| <= 16 && !NoErrors(burst)
    ensures FeedAll(0, front + burst + back) != 0
  {
    hide Feed, FeedAll, Word, Xor, Shifted, NoErrors;
    FeedInTurn(0, front + burst, back);
    FeedInTurn(0, front, burst);
    NoErrorsKeep(0, front);
    FeedIsOneWord(0, burst);
    XorZero(Word(burst));
    SomeErrorInTheWord(burst);
    ShiftedKeepsNonzero(Word(burst), |burst|);
    NoErrorsKeep(FeedAll(0, burst), back);
  }

  /** Any corruption confined to sixteen consecutive bits, anywhere in a message of any length, changes
      the CRC. */
  lemma BurstIsDetected(p: seq<bv8>, q: seq<bv8>, start: nat, n: nat)
    requires |p| == |q| && |Bits(p)| == |Bits(q)| && n <= 16 && start + n <= |Bits(p)|
    requires forall i :: 0 <= i < |Bits(p)| && !(start <= i < start + n) ==> Bits(p)[i] == Bits(q)[i]
    requires Bits(p) != Bits(q)
    ensures Run(INIT, p) != Run(INIT, q)
  {
    hide Run, FeedAll;
    SameCrcIff(p, q);
    SplitErrors(Bits(p), Bits(q), start, n);
  }

  lemma SplitErrors(p: seq<bool>, q: seq<bool>, start: nat, n: nat)
    requires |p| == |q| && n <= 16 && start + n <= |p| && p != q
    requires forall i :: 0 <= i < |p| && !(start <= i < start + n) ==> p[i] == q[i]
    ensures FeedAll(0, Errors(p, q)) != 0
  {
    hide FeedAll;
    var e := Errors(p, q);
    var front, burst, back := e[..start], e[start..start + n], e[start + n..];
    assert e == front + burst + back;
    var i :| 0 <= i < |p| && p[i] != q[i];
    assert e[i] && burst[i - start];
    BurstFeedsNonzero(front, burst, back);
  }

  lemma {:induction false} BitOf(data: seq<bv8>, k: nat)
    requires |Bits(data)| == 8 * |data| && k < 8 * |data|
    ensures |TopBits(High(data[k / 8]), 8)| == 8 && Bits(data)[k] == TopBits(High(data[k / 8]), 8)[k % 8]
    decreases |data|
  {
    hide TopBits, High;
    var n := |data| - 1;
    RunFeeds(0, data[..n]);
    AbsorbFeeds(0, data[n]);
    if k < 8 * n {
      BitOf(data[..n], k);
    }
  }

  lemma HighInjective(a: bv8, b: bv8)
    ensures High(a) == High(b) ==> a == b
  {
  }

  /** A byte can be read off its bits. */
  lemma SameBitsSameByte(p: seq<bv8>, q: seq<bv8>, j: nat)
    requires |p| == |q| && j < |p| && Bits(p) == Bits(q)
    ensures p[j] == q[j]
  {
    hide Bits, TopBits, High, Word, Run, FeedAll, Absorb;
    RunFeeds(0, p);
    var x, y := TopBits(High(p[j]), 8), TopBits(High(q[j]), 8);
    AbsorbFeeds(0, p[j]);
    AbsorbFeeds(0, q[j]);
    forall k | 0 <= k < 8 ensures x[k] == y[k] {
      ByteAndBit(j, k);
      BitOf(p, 8 * j + k);
      BitOf(q, 8 * j + k);
    }
    assert x == y;
    HighInjective(p[j], q[j]);
  }

  lemma ByteAndBit(j: nat, k: nat)
    requires k < 8
    ensures (8 * j + k) / 8 == j && (8 * j + k) % 8 == k
  {
  }

  /** Messages that differ only within two adjacent bytes have different CRCs. */
  lemma AdjacentBytesAreDetected(p: seq<bv8>, q: seq<bv8>, i: nat)
    requires |p| == |q| && i < |p|
    requires p[i] != q[i] || (i + 1 < |p| && p[i + 1] != q[i + 1])
    requires forall j :: 0 <= j < |p| && j != i && j != i + 1 ==> p[j] == q[j]
    ensures Run(INIT, p) != Run(INIT, q)
  {
    hide Run, Bits, TopBits, High;
    var n := if i + 1 < |p| then 16 else 8;
    RunFeeds(INIT, p);
    RunFeeds(INIT, q);
    forall k | 0 <= k < |Bits(p)| && !(8 * i <= k < 8 * i + n) ensures Bits(p)[k] == Bits(q)[k] {
      BitOf(p, k);
      BitOf(q, k);
    }
    if Bits(p) == Bits(q) {
      SameBitsSameByte(p, q, if p[i] != q[i] then i else i + 1);
    }
    BurstIsDetected(p, q, 8 * i, n);
  }

  // Parity

  /** Whether an odd number of the top `n` bits is set. */
  function OddBits(c: bv16, n: nat): bool
    decreases n
  {
    n > 0 && (Top(c) != OddBits(Shl(c), n - 1))
  }

  function OddErrors(e: seq<bool>): bool
    decreases |e|
  {
    e != [] && (e[0] != OddErrors(e[1..]))
  }

  lemma {:induction false} OddLinear(a: bv16, b: bv16, n: nat)
    ensures OddBits(Xor(a, b), n) == (OddBits(a, n) != OddBits(b, n))
    decreases n
  {
    hide Xor, Top, Shl;
    if n > 0 {
      TopLinear(a, b);
      ShlLinear(a, b);
      OddLinear(Shl(a), Shl(b), n - 1);
    }
  }

  lemma {:induction false} OddAbove(c: bv16, n: nat)
    requires n <= 16 && Above(c, n)
    ensures OddBits(c, n) == OddBits(c, 16)
    decreases 16 - n
  {
    hide Above, Top, Shl;
    if n < 16 {
      AboveMore(c, n);
      OddAbove(c, n + 1);
      OddOneMore(c, n);
    }
  }

  lemma AboveMore(c: bv16, n: nat)
    requires n < 16 && Above(c, n)
    ensures Above(c, n + 1)
  {
  }

  lemma {:induction false} OddOneMore(c: bv16, n: nat)
    requires n < 16 && Above(c, n)
    ensures OddBits(c, n + 1) == OddBits(c, n)
    decreases n
  {
    if n == 0 {
      OnlyZeroAbove(c);
    } else {
      hide Above, Top, Shl;
      ShlAbove(c, n);
      OddOneMore(Shl(c), n - 1);
    }
  }

  lemma ShlEven(c: bv16)
    ensures Above(Shl(c), 15)
  {
  }

  lemma OddConstants()
    ensures OddBits(POLY, 16) && OddBits(TOP, 16) && !OddBits(0, 16)
  {
    var one, two, three: bv16 := 0x1000, 0x0020, 0x0001;
    assert POLY == Xor(one, Xor(two, three));
    OddLinear(one, Xor(two, three), 16);
    OddLinear(two, three, 16);
    OneBitIsOdd(0);
    OneBitIsOdd(3);
    OneBitIsOdd(10);
    OneBitIsOdd(15);
    ZeroIsEven(16);
  }

  lemma {:induction false} ZeroIsEven(n: nat)
    ensures !OddBits(0, n)
    decreases n
  {
    if n > 0 {
      ZeroIsEven(n - 1);
    }
  }

  lemma {:induction false} OneBitFrom(k: nat, n: nat)
    requires k < n <= 16
    ensures OddBits(TOP >> k, n)
    decreases k
  {
    if k == 0 {
      ZeroIsEven(n - 1);
    } else {
      HalfTop(k);
      hide Top, Shl;
      OneBitFrom(k - 1, n - 1);
    }
  }

  lemma HalfTop(k: nat)
    requires 0 < k < 16
    ensures !Top(TOP >> k) && Shl(TOP >> k) == TOP >> (k - 1)
  {
  }

  lemma OneBitIsOdd(k: nat)
    requires k < 16
    ensures OddBits(TOP >> k, 16)
  {
    OneBitFrom(k, 16);
  }

  /** The polynomial has an even number of terms, so a shift keeps the register's parity. */
  lemma ShiftKeepsParity(c: bv16)
    ensures OddBits(Shift(c), 16) == OddBits(c, 16)
  {
    hide Xor, Top, Shl, Shift, Above;
    ShiftEither(c);
    ShlEven(c);
    OddAbove(Shl(c), 15);
    OddLinear(Shl(c), POLY, 16);
    OddConstants();
    assert OddBits(c, 16) == (Top(c) != OddBits(Shl(c), 15));
  }

  lemma {:induction false} FeedParity(c: bv16, e: seq<bool>)
    ensures OddBits(FeedAll(c, e), 16) == (OddBits(c, 16) != OddErrors(e))
    decreases |e|
  {
    hide Xor, Shift, OddBits;
    if e != [] {
      ShiftKeepsParity(if e[0] then Xor(c, TOP) else c);
      OddLinear(c, TOP, 16);
      OddConstants();
      FeedParity(Feed(c, e[0]), e[1..]);
    }
  }

  /** An odd number of flipped bits, wherever they are, always changes the CRC. */
  lemma OddErrorsAreDetected(p: seq<bv8>, q: seq<bv8>)
    requires |p| == |q| && |Bits(p)| == |Bits(q)| && OddErrors(Errors(Bits(p), Bits(q)))
    ensures Run(INIT, p) != Run(INIT, q)
  {
    hide Run, FeedAll, OddBits, OddErrors, Errors;
    SameCrcIff(p, q);
    FeedParity(0, Errors(Bits(p), Bits(q)));
    OddConstants();
  }

  // Where the register starts

  lemma FirstBytes()
    ensures Absorb(INIT, 0) == 0xE1F0
  {
  }

  lemma {:induction false} RunInTurn(c: bv16, a: seq<bv8>, b: seq<bv8>)
    ensures Run(c, a + b) == Run(Run(c, a), b)
    decreases |b|
  {
    hide Absorb;
    if b == [] {
      assert a + b == a;
    } else {
      assert (a + b)[..|a + b| - 1] == a + b[..|b| - 1];
      RunInTurn(c, a, b[..|b| - 1]);
    }
  }

  /** From different registers one message leads to different registers. */
  lemma {:induction false} RunKeepsApart(c: bv16, d: bv16, data: seq<bv8>)
    ensures Run(c, data) == Run(d, data) <==> c == d
  {
    if data != [] {
      var rest, b := data[..|data| - 1], High(data[|data| - 1]);
      RunKeepsApart(c, d, rest);
      var x, y := Run(c, rest), Run(d, rest);
      hide Xor, Shifted, Run, High;
      ShiftedLinear(Xor(x, b), Xor(y, b), 8);
      XorCancels(x, y, b);
      XorSame(x, y);
      XorSame(Shifted(Xor(x, b), 8), Shifted(Xor(y, b), 8));
      ShiftedKeepsNonzero(Xor(x, y), 8);
    }
  }

  /** A zero byte put in front of any message is noticed: the register does not start at zero. */
  lemma LeadingZeroIsNoticed(data: seq<bv8>)
    ensures Run(INIT, [0] + data) != Run(INIT, data)
  {
    FirstBytes();
    RunInTurn(INIT, [0], data);
    assert [0 as bv8][..0] == [];
    assert Run(INIT, [0]) == Absorb(INIT, 0);
    RunKeepsApart(Run(INIT, [0]), INIT, data);
  }

  lemma OneMoreByte(data: seq<bv8>, k: nat, b: bv8, before: bv16, after: bv16)
    requires k < |data| && data[k] == b && Run(INIT, data[..k]) == before && Absorb(before, b) == after
    ensures Run(INIT, data[..k + 1]) == after
  {
    assert data[..k + 1][..k] == data[..k];
    hide Absorb;
  }

  lemma NineSteps()
    ensures Absorb(0xFFFF, 0x31) == 0xC782
    ensures Absorb(0xC782, 0x32) == 0x3DBA
    ensures Absorb(0x3DBA, 0x33) == 0x5BCE
    ensures Absorb(0x5BCE, 0x34) == 0x5349
    ensures Absorb(0x5349, 0x35) == 0x4560
    ensures Absorb(0x4560, 0x36) == 0x2EF4
    ensures Absorb(0x2EF4, 0x37) == 0x7718
    ensures Absorb(0x7718, 0x38) == 0xA12B
    ensures Absorb(0xA12B, 0x39) == 0x29B1
  {
  }

  lemma NothingRun(data: seq<bv8>)
    ensures Run(INIT, data[..0]) == INIT
  {
  }

  /** The check value by which CRC16-CCITT-FALSE is told from its kin: the CRC of the digits 1 to 9. */
  lemma CheckValue(data: seq<bv8>)
    requires |data| == 9 && forall k :: 0 <= k < 9 ==> data[k] == 0x31 + k as bv8
    ensures Run(INIT, data) == 0x29B1
  {
    NineSteps();
    NothingRun(data);
    hide Absorb, Run;
    OneMoreByte(data, 0, 0x31, 0xFFFF, 0xC782);
    OneMoreByte(data, 1, 0x32, 0xC782, 0x3DBA);
    OneMoreByte(data, 2, 0x33, 0x3DBA, 0x5BCE);
    OneMoreByte(data, 3, 0x34, 0x5BCE, 0x5349);
    OneMoreByte(data, 4, 0x35, 0x5349, 0x4560);
    OneMoreByte(data, 5, 0x36, 0x4560, 0x2EF4);
    OneMoreByte(data, 6, 0x37, 0x2EF4, 0x7718);
    OneMoreByte(data, 7, 0x38, 0x7718, 0xA12B);
    OneMoreByte(data, 8, 0x39, 0xA12B, 0x29B1);
    assert data[..9] == data;
  }
}
