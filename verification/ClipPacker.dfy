/** Packing encoded entries into append commands: whole entries only, and never more commands than
    needed. */
module ClipPacker {
  import opened Wrappers
  import opened ClipCodec

  function Concat(xs: seq<seq<Byte>>): seq<Byte> {
    if xs == [] then [] else Concat(xs[..|xs| - 1]) + xs[|xs| - 1]
  }

  function Flatten(groups: seq<seq<seq<Byte>>>): seq<seq<Byte>> {
    if groups == [] then [] else Flatten(groups[..|groups| - 1]) + groups[|groups| - 1]
  }

  function Pieces(groups: seq<seq<seq<Byte>>>): seq<seq<Byte>> {
    seq(|groups|, i requires 0 <= i < |groups| => Concat(groups[i]))
  }

  /** The groups closed so far, and the one being filled. */
  datatype Packing = Packing(closed: seq<seq<seq<Byte>>>, open: seq<seq<Byte>>)

  /** The next entry opens a new command when the open one holds something and would go over. */
  function Step(p: Packing, x: seq<Byte>, limit: nat): Packing {
    if Concat(p.open) != [] && |Concat(p.open)| + |x| > limit then Packing(p.closed + [p.open], [x])
    else p.(open := p.open + [x])
  }

  function Packed(xs: seq<seq<Byte>>, limit: nat): Packing {
    if xs == [] then Packing([], []) else Step(Packed(xs[..|xs| - 1], limit), xs[|xs| - 1], limit)
  }

  function Groups(p: Packing): seq<seq<seq<Byte>>> {
    if p.open == [] then p.closed else p.closed + [p.open]
  }

  lemma ConcatSnoc(xs: seq<seq<Byte>>, x: seq<Byte>)
    ensures Concat(xs + [x]) == Concat(xs) + x
  {
    assert (xs + [x])[..|xs|] == xs;
  }

  lemma FlattenSnoc(groups: seq<seq<seq<Byte>>>, g: seq<seq<Byte>>)
    ensures Flatten(groups + [g]) == Flatten(groups) + g
  {
    assert (groups + [g])[..|groups|] == groups;
  }

  ghost predicate NoneEmpty(xs: seq<seq<Byte>>) {
    forall i :: 0 <= i < |xs| ==> xs[i] != []
  }

  /** No command is over the limit unless it is a single entry that is. */
  ghost predicate Snug(g: seq<seq<Byte>>, limit: nat) {
    g != [] && (|Concat(g)| <= limit || |g| == 1)
  }

  ghost predicate WellPacked(p: Packing, xs: seq<seq<Byte>>, limit: nat) {
    Flatten(p.closed) + p.open == xs && (p.open == [] ==> p.closed == []) &&
    (p.open != [] ==> Concat(p.open) != [] && Snug(p.open, limit)) &&
    forall i :: 0 <= i < |p.closed| ==> Snug(p.closed[i], limit)
  }

  lemma ConcatOne(x: seq<Byte>)
    ensures Concat([x]) == x
  {
    assert [x][..0] == [];
    assert Concat([]) == [];
  }

  lemma StepPacksWell(p: Packing, xs: seq<seq<Byte>>, x: seq<Byte>, limit: nat)
    requires WellPacked(p, xs, limit) && x != []
    ensures WellPacked(Step(p, x, limit), xs + [x], limit)
  {
    ConcatSnoc(p.open, x);
    ConcatOne(x);
    FlattenSnoc(p.closed, p.open);
    if p.open == [] {
      assert p.open + [x] == [x];
    }
    hide Concat, Flatten;
  }

  /** The packing loses and moves nothing and cuts between entries only. */
  lemma {:induction false} PackedHolds(xs: seq<seq<Byte>>, limit: nat)
    requires NoneEmpty(xs)
    ensures WellPacked(Packed(xs, limit), xs, limit)
  {
    if xs == [] {
      assert Flatten([]) == [];
    } else {
      assert xs == xs[..|xs| - 1] + [xs[|xs| - 1]] && xs[|xs| - 1] != [] && NoneEmpty(xs[..|xs| - 1]);
      hide WellPacked, Step, NoneEmpty;
      PackedHolds(xs[..|xs| - 1], limit);
      StepPacksWell(Packed(xs[..|xs| - 1], limit), xs[..|xs| - 1], xs[|xs| - 1], limit);
    }
  }

  /** The commands together are the entries, none over the limit but a lone entry that is. */
  lemma GroupsHold(xs: seq<seq<Byte>>, limit: nat)
    requires NoneEmpty(xs)
    ensures var groups := Groups(Packed(xs, limit));
            Flatten(groups) == xs && forall i :: 0 <= i < |groups| ==> Snug(groups[i], limit)
  {
    PackedHolds(xs, limit);
    FlattenSnoc(Packed(xs, limit).closed, Packed(xs, limit).open);
    assert Flatten([]) == [];
  }

  /** Fewer commands than `cut`, or as many with no more in the last. */
  ghost predicate Leads(p: Packing, cut: seq<seq<seq<Byte>>>) {
    var n := |Groups(p)|;
    n < |cut| || (n == |cut| && (n > 0 ==> |Concat(p.open)| <= |Concat(cut[n - 1])|))
  }

  ghost predicate Sound(p: Packing) {
    (p.open == [] ==> p.closed == []) && (p.open != [] ==> Concat(p.open) != [])
  }

  lemma LeadsIntoNewGroup(p: Packing, front: seq<seq<seq<Byte>>>, x: seq<Byte>, limit: nat)
    requires Sound(p) && Leads(p, front) && x != []
    ensures Leads(Step(p, x, limit), front + [[x]])
  {
    ConcatOne(x);
    ConcatSnoc(p.open, x);
    if p.open == [] {
      assert p.open + [x] == [x];
    }
    hide Concat;
  }

  lemma LeadsInTheGroup(p: Packing, front: seq<seq<seq<Byte>>>, start: seq<seq<Byte>>, x: seq<Byte>, limit: nat)
    requires Sound(p) && Leads(p, front + [start]) && |Concat(start + [x])| <= limit && start != [] && x != []
    ensures Leads(Step(p, x, limit), front + [start + [x]])
  {
    ConcatOne(x);
    ConcatSnoc(p.open, x);
    ConcatSnoc(start, x);
    if p.open == [] {
      assert p.open + [x] == [x];
    }
    hide Concat;
  }

  ghost predicate CutsWithin(cut: seq<seq<seq<Byte>>>, limit: nat) {
    forall i :: 0 <= i < |cut| ==> cut[i] != [] && |Concat(cut[i])| <= limit
  }

  /** Taking back the last entry of a cut. */
  function Shortened(cut: seq<seq<seq<Byte>>>): seq<seq<seq<Byte>>>
    requires cut != [] && cut[|cut| - 1] != []
  {
    var front, last := cut[..|cut| - 1], cut[|cut| - 1];
    if |last| == 1 then front else front + [last[..|last| - 1]]
  }

  lemma ShortenedCut(cut: seq<seq<seq<Byte>>>, limit: nat)
    requires CutsWithin(cut, limit) && cut != []
    ensures var last := cut[|cut| - 1];
            CutsWithin(Shortened(cut), limit) && Flatten(cut) == Flatten(Shortened(cut)) + [last[|last| - 1]]
  {
    var front, last := cut[..|cut| - 1], cut[|cut| - 1];
    var start, x := last[..|last| - 1], last[|last| - 1];
    assert last == start + [x] && cut == front + [last];
    FlattenSnoc(front, last);
    FlattenSnoc(front, start);
    ConcatSnoc(start, x);
    assert Flatten(front) + (start + [x]) == (Flatten(front) + start) + [x];
    hide Flatten, Concat;
  }

  /** Against any cut of the entries, the greedy packing is never behind. */
  lemma {:induction false} GreedyLeads(xs: seq<seq<Byte>>, cut: seq<seq<seq<Byte>>>, limit: nat)
    requires NoneEmpty(xs) && CutsWithin(cut, limit) && Flatten(cut) == xs
    ensures Leads(Packed(xs, limit), cut)
    decreases |xs|
  {
    if cut == [] {
      assert Flatten(cut) == [];
    } else {
      var last := cut[|cut| - 1];
      ShortenedCut(cut, limit);
      var rest, x := Flatten(Shortened(cut)), last[|last| - 1];
      assert xs == rest + [x];
      PrefixNoneEmpty(rest, x);
      hide Concat, Flatten, Step, NoneEmpty, CutsWithin, Shortened, Leads;
      GreedyLeads(rest, Shortened(cut), limit);
      PackedSnoc(rest, x, limit);
      PackedHolds(rest, limit);
      WellPackedIsSound(Packed(rest, limit), rest, limit);
      LeadsOn(Packed(rest, limit), cut, limit);
    }
  }

  lemma PrefixNoneEmpty(rest: seq<seq<Byte>>, x: seq<Byte>)
    requires NoneEmpty(rest + [x])
    ensures NoneEmpty(rest) && x != []
  {
    assert (rest + [x])[|rest|] == x;
    assert forall i :: 0 <= i < |rest| ==> (rest + [x])[i] == rest[i];
  }

  lemma PackedSnoc(xs: seq<seq<Byte>>, x: seq<Byte>, limit: nat)
    ensures Packed(xs + [x], limit) == Step(Packed(xs, limit), x, limit)
  {
    assert (xs + [x])[..|xs|] == xs;
  }

  lemma WellPackedIsSound(p: Packing, xs: seq<seq<Byte>>, limit: nat)
    requires WellPacked(p, xs, limit)
    ensures Sound(p)
  {
  }

  lemma LeadsOn(p: Packing, cut: seq<seq<seq<Byte>>>, limit: nat)
    requires Sound(p) && CutsWithin(cut, limit) && cut != []
    requires Leads(p, Shortened(cut))
    requires var last := cut[|cut| - 1]; last[|last| - 1] != []
    ensures var last := cut[|cut| - 1]; Leads(Step(p, last[|last| - 1], limit), cut)
  {
    var front, last := cut[..|cut| - 1], cut[|cut| - 1];
    var start, x := last[..|last| - 1], last[|last| - 1];
    assert last == start + [x] && cut == front + [last];
    hide Concat, Step, Leads, Sound;
    if |last| == 1 {
      assert last == [x];
      LeadsIntoNewGroup(p, front, x, limit);
    } else {
      LeadsInTheGroup(p, front, start, x, limit);
    }
  }

  /** No way to cut the entries into commands within the limit needs fewer than the greedy one. */
  lemma GreedyIsMinimal(xs: seq<seq<Byte>>, cut: seq<seq<seq<Byte>>>, limit: nat)
    requires NoneEmpty(xs) && CutsWithin(cut, limit) && Flatten(cut) == xs
    ensures |Groups(Packed(xs, limit))| <= |cut|
  {
    GreedyLeads(xs, cut, limit);
  }

  // The encoder's loop

  function Encodings(es: seq<Entry>): seq<seq<Byte>>
    requires forall e :: e in es ==> Accepted(e)
  {
    seq(|es|, i requires 0 <= i < |es| => assert es[i] in es; EntryBytes(es[i]))
  }

  /** The first refusal among the entries, if any. */
  function FirstError(es: seq<Entry>): Option<ClipError> {
    if es == [] then None
    else if FirstError(es[..|es| - 1]).Some? then FirstError(es[..|es| - 1])
    else if es[|es| - 1].Tick? then FrameError(es[|es| - 1].frame)
    else None
  }

  lemma {:induction false} NoErrorMeansAccepted(es: seq<Entry>)
    requires FirstError(es).None?
    ensures forall e :: e in es ==> Accepted(e)
  {
    if es != [] {
      NoErrorMeansAccepted(es[..|es| - 1]);
      assert es == es[..|es| - 1] + [es[|es| - 1]];
    }
  }

  lemma {:induction false} ErrorStays(es: seq<Entry>, n: nat)
    requires n <= |es| && FirstError(es[..n]).Some?
    ensures FirstError(es) == FirstError(es[..n])
    decreases |es| - n
  {
    if n == |es| {
      assert es[..n] == es;
    } else {
      assert es[..n + 1][..n] == es[..n];
      ErrorStays(es, n + 1);
    }
  }

  lemma EncodingsNotEmpty(es: seq<Entry>)
    requires forall e :: e in es ==> Accepted(e)
    ensures NoneEmpty(Encodings(es))
  {
    forall i | 0 <= i < |es| ensures Encodings(es)[i] != [] {
      assert es[i] in es;
    }
  }

  method EncodeEntry(e: Entry) returns (r: Result<seq<Byte>, ClipError>)
    ensures r.Err? ==> e.Tick? && FrameError(e.frame) == Some(r.error)
    ensures r.Ok? ==> Accepted(e) && r.value == EntryBytes(e) && r.value != []
  {
    match e {
      case Gap(n) =>
        r := Ok([TAG_GAP] + WordBytes(n));
      case Tick(f) =>
        r := EncodeFrame(f);
    }
  }

  ghost predicate Encoded(es: seq<Entry>, n: nat) {
    n <= |es| && FirstError(es[..n]).None? && forall e :: e in es[..n] ==> Accepted(e)
  }

  lemma OneMoreEncoded(es: seq<Entry>, n: nat)
    requires Encoded(es, n) && n < |es|
    ensures Accepted(es[n]) ==> Encoded(es, n + 1)
    ensures es[n].Tick? && FrameError(es[n].frame).Some? ==> FirstError(es) == FrameError(es[n].frame)
  {
    assert es[..n + 1][..n] == es[..n];
    assert es[..n + 1] == es[..n] + [es[n]];
    if es[n].Tick? && FrameError(es[n].frame).Some? {
      ErrorStays(es, n + 1);
    }
    hide FrameError;
  }

  /** What the loop has written: the closed commands, and the open one. */
  ghost predicate Written(out: seq<seq<Byte>>, cur: seq<Byte>, p: Packing) {
    out == Pieces(p.closed) && cur == Concat(p.open) && Sound(p)
  }

  lemma WriteOn(out: seq<seq<Byte>>, cur: seq<Byte>, p: Packing, x: seq<Byte>, limit: nat)
    requires Written(out, cur, p) && x != []
    ensures cur != [] && |cur| + |x| > limit ==> Written(out + [cur], x, Step(p, x, limit))
    ensures !(cur != [] && |cur| + |x| > limit) ==> Written(out, cur + x, Step(p, x, limit))
  {
    ConcatSnoc(p.open, x);
    ConcatOne(x);
    assert Pieces(p.closed + [p.open]) == Pieces(p.closed) + [Concat(p.open)];
    hide Concat;
  }

  /** Every entry is checked before any command is returned. */
  method EncodeChunks(es: seq<Entry>, limit: nat) returns (r: Result<seq<seq<Byte>>, ClipError>)
    ensures r.Err? <==> FirstError(es).Some?
    ensures r.Err? ==> FirstError(es) == Some(r.error)
    ensures r.Ok? ==> (forall e :: e in es ==> Accepted(e)) && r.value == Pieces(Groups(Packed(Encodings(es), limit)))
  {
    hide Encodings, Packed, Written, Step, EntryBytes, FrameError, FirstError, Accepted, Pieces, Groups;
    var out, cur := [], [];
    ghost var p := Packing([], []);
    NothingWritten(es, limit);
    var i := 0;
    while i < |es|
      invariant Encoded(es, i) && p == Packed(Encodings(es[..i]), limit) && Written(out, cur, p)
    {
      var entry := EncodeEntry(es[i]);
      OneMoreEncoded(es, i);
      if entry.Err? {
        return Err(entry.error);
      }
      NextEncoding(es, i, limit);
      WriteOn(out, cur, p, entry.value, limit);
      p := Step(p, entry.value, limit);
      if cur != [] && |cur| + |entry.value| > limit {
        out := out + [cur];
        cur := [];
        assert [] + entry.value == entry.value;
      }
      cur := cur + entry.value;
      i := i + 1;
    }
    assert es[..i] == es;
    AllWritten(out, cur, p);
    if cur != [] {
      out := out + [cur];
    }
    return Ok(out);
  }

  lemma NothingWritten(es: seq<Entry>, limit: nat)
    ensures es[..0] == [] && Encoded(es, 0) && Packed(Encodings(es[..0]), limit) == Packing([], []) && Written([], [], Packing([], []))
  {
    assert es[..0] == [] && Encodings([]) == [] && Concat([]) == [] && Pieces([]) == [];
  }

  lemma AllWritten(out: seq<seq<Byte>>, cur: seq<Byte>, p: Packing)
    requires Written(out, cur, p)
    ensures (if cur != [] then out + [cur] else out) == Pieces(Groups(p))
  {
    assert Concat([]) == [];
    assert Pieces(p.closed + [p.open]) == Pieces(p.closed) + [Concat(p.open)];
  }

  lemma NextEncoding(es: seq<Entry>, i: nat, limit: nat)
    requires i < |es| && forall e :: e in es[..i + 1] ==> Accepted(e)
    ensures forall e :: e in es[..i] ==> Accepted(e)
    ensures es[i] in es[..i + 1] && Encodings(es[..i + 1]) == Encodings(es[..i]) + [EntryBytes(es[i])]
    ensures Packed(Encodings(es[..i + 1]), limit) == Step(Packed(Encodings(es[..i]), limit), EntryBytes(es[i]), limit)
  {
    assert es[..i + 1] == es[..i] + [es[i]];
    var xs, ys := Encodings(es[..i]), Encodings(es[..i + 1]);
    assert ys == xs + [EntryBytes(es[i])];
    assert ys[..|ys| - 1] == xs;
  }

  // The appended ring

  lemma {:induction false} ConcatInTurn(a: seq<seq<Byte>>, b: seq<seq<Byte>>)
    ensures Concat(a + b) == Concat(a) + Concat(b)
    decreases |b|
  {
    if b == [] {
      assert a + b == a;
    } else {
      assert (a + b)[..|a + b| - 1] == a + b[..|b| - 1];
      ConcatInTurn(a, b[..|b| - 1]);
    }
  }

  lemma {:induction false} PiecesConcat(groups: seq<seq<seq<Byte>>>)
    ensures Concat(Pieces(groups)) == Concat(Flatten(groups))
  {
    if groups != [] {
      var front, last := groups[..|groups| - 1], groups[|groups| - 1];
      PiecesConcat(front);
      assert Pieces(groups) == Pieces(front) + [Concat(last)];
      ConcatSnoc(Pieces(front), Concat(last));
      ConcatInTurn(Flatten(front), last);
    }
  }

  lemma LastEncoding(es: seq<Entry>)
    requires (forall e :: e in es ==> Accepted(e)) && es != []
    ensures es[|es| - 1] in es && forall e :: e in es[..|es| - 1] ==> Accepted(e)
    ensures Encodings(es) == Encodings(es[..|es| - 1]) + [EntryBytes(es[|es| - 1])]
  {
    hide EntryBytes, Accepted;
    forall i | 0 <= i < |es| - 1 ensures Encodings(es)[i] == Encodings(es[..|es| - 1])[i] {
      assert es[..|es| - 1][i] == es[i];
    }
  }

  lemma {:induction false} EncodingsConcat(es: seq<Entry>)
    requires forall e :: e in es ==> Accepted(e)
    ensures Concat(Encodings(es)) == StreamBytes(es)
  {
    if es != [] {
      LastEncoding(es);
      hide EntryBytes, Accepted, Encodings, Concat;
      EncodingsConcat(es[..|es| - 1]);
      ConcatSnoc(Encodings(es[..|es| - 1]), EntryBytes(es[|es| - 1]));
    }
  }

  lemma EntryFits(e: Entry)
    requires Accepted(e)
    ensures |EntryBytes(e)| <= ENTRY_MAX
  {
    if e.Tick? {
      AcceptedFits(e.frame);
      EncodedLength(e.frame);
      hide FrameBytes, ByteLength;
    }
  }

  /** The appended commands read back, end to end, as the builder's entries; none is empty and each
      fits the payload it is cut for. */
  lemma AppendReadsBack(es: seq<Entry>)
    requires forall e :: e in es ==> Accepted(e)
    ensures var pieces := Pieces(Groups(Packed(Encodings(es), ENTRY_MAX)));
            ParseMany(Parse, |es|, Concat(pieces)) == Some((NormalAll(es), [])) &&
            forall i :: 0 <= i < |pieces| ==> 0 < |pieces[i]| <= ENTRY_MAX
  {
    var xs := Encodings(es);
    var groups := Groups(Packed(xs, ENTRY_MAX));
    EncodingsNotEmpty(es);
    GroupsHold(xs, ENTRY_MAX);
    PiecesConcat(groups);
    EncodingsConcat(es);
    StreamParsed(es, []);
    assert StreamBytes(es) + [] == StreamBytes(es);
    hide Packed, Groups, Parse, ParseMany, StreamBytes, NormalAll, EntryBytes, Accepted;
    forall i | 0 <= i < |groups| ensures 0 < |Concat(groups[i])| <= ENTRY_MAX {
      GroupFits(es, groups, i);
    }
  }

  lemma {:induction false} InFlatten(groups: seq<seq<seq<Byte>>>, i: nat, x: seq<Byte>)
    requires i < |groups| && x in groups[i]
    ensures x in Flatten(groups)
  {
    if i < |groups| - 1 {
      InFlatten(groups[..|groups| - 1], i, x);
    }
  }

  lemma AnEntryOf(es: seq<Entry>, x: seq<Byte>)
    requires (forall e :: e in es ==> Accepted(e)) && x in Encodings(es)
    ensures 0 < |x| <= ENTRY_MAX
  {
    var k :| 0 <= k < |es| && Encodings(es)[k] == x;
    assert es[k] in es;
    EntryFits(es[k]);
  }

  lemma GroupFits(es: seq<Entry>, groups: seq<seq<seq<Byte>>>, i: nat)
    requires (forall e :: e in es ==> Accepted(e)) && Flatten(groups) == Encodings(es)
    requires i < |groups| && Snug(groups[i], ENTRY_MAX)
    ensures 0 < |Concat(groups[i])| <= ENTRY_MAX
  {
    hide Encodings, EntryBytes, Accepted, Flatten;
    var g := groups[i];
    var x := g[|g| - 1];
    InFlatten(groups, i, x);
    AnEntryOf(es, x);
    ConcatEnd(g);
    if |g| == 1 {
      ConcatOne(x);
      assert g == [x];
    }
  }

  lemma ConcatEnd(g: seq<seq<Byte>>)
    requires g != []
    ensures |Concat(g)| >= |g[|g| - 1]|
  {
  }
}
