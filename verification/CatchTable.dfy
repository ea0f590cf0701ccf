/** The box's subscription table as the host computes it: subscriptions collapse onto one entry per
    `(class, id, direction)` address, each entry widened to every filter that covers it. */
module CatchTable {
  import opened Wrappers

  // Classes, ids and lengths are only ever compared here, so any integer stands for one.
  type Class = int
  type Id = int

  /** Packet bytes kept per event. The host stores a `First(0)` as `Whole`. */
  datatype Capture = Whole | First(n: int)

  /** The bearing-relative directions are refused before a subscription is built. */
  datatype Direction = Both | Positive | Negative

  /** The wildcard class with a concrete id addresses nothing and cannot be built. */
  datatype Address = Everything | ClassOf(cls: Class) | Exact(cls: Class, id: Id)

  datatype Key = Key(at: Address, dir: Direction)
  datatype Filter = Filter(key: Key, capture: Capture)
  datatype Event = Event(cls: Class, id: Id, dir: Direction)

  type FilterSet = map<Key, Capture>

  function Widest(a: Capture, b: Capture): Capture {
    match (a, b)
    case (First(m), First(n)) => First(if m < n then n else m)
    case (_, _) => Whole
  }

  predicate AtMost(a: Capture, b: Capture) {
    b.Whole? || (a.First? && a.n <= b.n)
  }

  predicate Admits(d: Direction, other: Direction) {
    d == Both || other == Both || d == other
  }

  function Opposite(d: Direction): Direction {
    match d
    case Both => Both
    case Positive => Negative
    case Negative => Positive
  }

  predicate AtEvent(at: Address, ev: Event) {
    match at
    case Everything => true
    case ClassOf(c) => c == ev.cls
    case Exact(c, i) => c == ev.cls && i == ev.id
  }

  predicate Matches(k: Key, ev: Event) {
    AtEvent(k.at, ev) && Admits(k.dir, ev.dir)
  }

  predicate CoversAddress(o: Address, f: Address) {
    match o
    case Everything => true
    case ClassOf(c) => !f.Everything? && f.cls == c
    case Exact(_, _) => o == f
  }

  /** Every event that an entry at `f` can win is one that a filter at `o` asked for. */
  predicate Covers(o: Key, f: Key) {
    CoversAddress(o.at, f.at) && (if o.at == f.at then o.dir == Both else Admits(o.dir, f.dir))
  }

  function Specificity(at: Address): nat {
    match at
    case Everything => 0
    case ClassOf(_) => 1
    case Exact(_, _) => 2
  }

  /** The box resolves an event to its best-ranked matching entry: an exact address outranks a class,
      which outranks everything, and a named direction outranks `Both`. */
  function Rank(k: Key): nat {
    2 * Specificity(k.at) + if k.dir == Both then 0 else 1
  }

  ghost predicate IsTop(table: FilterSet, ev: Event, top: Key) {
    top in table && Matches(top, ev) &&
    forall k :: k in table && Matches(k, ev) ==> Rank(k) <= Rank(top)
  }

  // What the effective table must be

  ghost function KeysOf(all: seq<Filter>): set<Key> {
    set f | f in all :: f.key
  }

  /** The filters whose captures an entry at `k` must reach: its own address and every cover. */
  predicate Feeds(o: Key, k: Key) {
    o == k || Covers(o, k)
  }

  function Own(k: Key): Key -> bool { o => o == k }

  function Feeding(k: Key): Key -> bool { o => Feeds(o, k) }

  /** The widest capture among the filters of `all` whose key passes `feeds`. */
  function WidestOf(all: seq<Filter>, feeds: Key -> bool): Option<Capture> {
    if all == [] then None
    else
      var before := WidestOf(all[..|all| - 1], feeds);
      var last := all[|all| - 1];
      if !feeds(last.key) then before
      else if before.None? then Some(last.capture)
      else Some(Widest(before.value, last.capture))
  }

  /** `WidestOf` is the least upper bound, attained by one of the filters. */
  lemma {:induction false} WidestIsAttainedBound(all: seq<Filter>, feeds: Key -> bool)
    ensures WidestOf(all, feeds).None? <==> forall f :: f in all ==> !feeds(f.key)
    ensures WidestOf(all, feeds).Some? ==>
              (forall f :: f in all && feeds(f.key) ==> AtMost(f.capture, WidestOf(all, feeds).value))
    ensures WidestOf(all, feeds).Some? ==>
              (exists f :: f in all && feeds(f.key) && f.capture == WidestOf(all, feeds).value)
  {
    if all != [] {
      var before := all[..|all| - 1];
      var last := all[|all| - 1];
      WidestIsAttainedBound(before, feeds);
      assert all == before + [last];
      assert forall f :: f in all <==> f in before || f == last;
      if feeds(last.key) && WidestOf(before, feeds).Some? {
        var g :| g in before && feeds(g.key) && g.capture == WidestOf(before, feeds).value;
        assert g in all;
        assert last in all;
      }
    }
  }

  /** Every subscribed address, its capture widened to every filter that covers it. */
  ghost function Widened(all: seq<Filter>): FilterSet {
    map k | k in KeysOf(all) :: CaptureOf(all, Feeding(k))
  }

  /** Every subscribed address at the widest capture asked of that very address. */
  ghost function Collapsed(all: seq<Filter>): FilterSet {
    map k | k in KeysOf(all) :: CaptureOf(all, Own(k))
  }

  function CaptureOf(all: seq<Filter>, feeds: Key -> bool): Capture {
    var w := WidestOf(all, feeds);
    if w.Some? then w.value else Whole
  }

  /** Opposite named directions at one address. */
  ghost predicate Paired(s: FilterSet, at: Address) {
    Key(at, Positive) in s && Key(at, Negative) in s
  }

  ghost function MergedCapture(s: FilterSet, at: Address): Capture
    requires Paired(s, at)
  {
    var pair := Widest(s[Key(at, Positive)], s[Key(at, Negative)]);
    if Key(at, Both) in s then Widest(pair, s[Key(at, Both)]) else pair
  }

  /** The table with every opposite pair replaced by one `Both` entry of the pair's address. */
  ghost function Merged(s: FilterSet): FilterSet {
    map k | k in s.Keys + (set p | p in s.Keys :: Key(p.at, Both)) &&
            (if k.dir == Both then k in s || Paired(s, k.at) else k in s && !Paired(s, k.at))
         :: if k.dir == Both && Paired(s, k.at) then MergedCapture(s, k.at) else s[k]
  }

  ghost function Effective(all: seq<Filter>): FilterSet {
    Merged(Widened(all))
  }

  // The table means what the subscriptions mean

  lemma MergedMatches(s: FilterSet, ev: Event)
    ensures (exists k :: k in Merged(s) && Matches(k, ev)) <==> (exists k :: k in s && Matches(k, ev))
  {
    if k :| k in s && Matches(k, ev) {
      if k.dir != Both && Paired(s, k.at) {
        assert Key(k.at, Both) in Merged(s) && Matches(Key(k.at, Both), ev);
      } else {
        assert k in Merged(s);
      }
    }
    if k :| k in Merged(s) && Matches(k, ev) {
      if k !in s {
        var named := if ev.dir == Negative then Negative else Positive;
        assert Key(k.at, named) in s && Matches(Key(k.at, named), ev);
      }
    }
  }

  /** An event matches the effective table exactly when some subscriber's filter matches it. */
  lemma EffectiveMatchesWhatWasAsked(all: seq<Filter>, ev: Event)
    ensures (exists k :: k in Effective(all) && Matches(k, ev)) <==>
            (exists f :: f in all && Matches(f.key, ev))
  {
    MergedMatches(Widened(all), ev);
    if k :| k in Widened(all) && Matches(k, ev) {
      var f :| f in all && f.key == k;
    }
    if f :| f in all && Matches(f.key, ev) {
      assert f.key in Widened(all);
    }
  }

  lemma MergedHasNoTie(s: FilterSet, ev: Event, j: Key, k: Key)
    requires j in Merged(s) && k in Merged(s) && j != k
    requires Matches(j, ev) && Matches(k, ev)
    ensures Rank(j) != Rank(k)
  {
    if Rank(j) == Rank(k) {
      SameRankSameAddress(ev, j, k);
      assert j in s && k in s;
      assert Paired(s, j.at);
      assert false;
    }
  }

  lemma SameRankSameAddress(ev: Event, j: Key, k: Key)
    requires Matches(j, ev) && Matches(k, ev) && Rank(j) == Rank(k)
    ensures j.at == k.at
    ensures j.dir == Both <==> k.dir == Both
  {
    match j.at {
      case Everything =>
      case ClassOf(_) =>
      case Exact(_, _) =>
    }
  }

  /** Two entries that match one event never share a rank, so the box has no tie to break. */
  lemma NoTwoEntriesTie(all: seq<Filter>, ev: Event, j: Key, k: Key)
    requires j in Effective(all) && k in Effective(all) && j != k
    requires Matches(j, ev) && Matches(k, ev)
    ensures Rank(j) != Rank(k)
  {
    MergedHasNoTie(Widened(all), ev, j, k);
  }

  predicate OppositeSigns(d: Direction, e: Direction) {
    d != Both && e == Opposite(d)
  }

  lemma WidestOfCoversMember(all: seq<Filter>, f: Filter, k: Key)
    requires f in all && k in KeysOf(all) && Feeds(f.key, k)
    ensures AtMost(f.capture, Widened(all)[k])
  {
    WidestIsAttainedBound(all, Feeding(k));
  }

  /** Where a subscribed entry ends up once opposite pairs merge. */
  ghost function Standing(s: FilterSet, k: Key): Key {
    if Paired(s, k.at) then Key(k.at, Both) else k
  }

  /** Of two entries matching one event, the one that does not rank higher covers the other. */
  lemma LowerRankFeeds(ev: Event, o: Key, k: Key)
    requires Matches(o, ev) && Matches(k, ev) && Rank(o) <= Rank(k)
    requires !OppositeSigns(o.dir, k.dir)
    ensures Feeds(o, k)
  {
    match o.at {
      case Everything =>
      case ClassOf(_) =>
      case Exact(_, _) =>
    }
  }

  lemma WidestIsUpperBound(a: Capture, b: Capture)
    ensures AtMost(a, Widest(a, b)) && AtMost(b, Widest(a, b))
  {
  }

  lemma AtMostIsTransitive(a: Capture, b: Capture, c: Capture)
    requires AtMost(a, b) && AtMost(b, c)
    ensures AtMost(a, c)
  {
  }

  lemma MergedCaptureReaches(s: FilterSet, at: Address, part: Key)
    requires Paired(s, at) && part.at == at && part in s
    ensures AtMost(s[part], Merged(s)[Key(at, Both)])
  {
    var pair := Widest(s[Key(at, Positive)], s[Key(at, Negative)]);
    assert Key(at, Both) in Merged(s);
    assert Merged(s)[Key(at, Both)] == MergedCapture(s, at);
    if Key(at, Both) in s {
      WidestIsUpperBound(pair, s[Key(at, Both)]);
    }
    WidestIsUpperBound(s[Key(at, Positive)], s[Key(at, Negative)]);
  }

  lemma UnopposedReaches(all: seq<Filter>, ev: Event, top: Key, f: Filter)
    requires IsTop(Effective(all), ev, top)
    requires f in all && Matches(f.key, ev) && !OppositeSigns(f.key.dir, top.dir)
    ensures AtMost(f.capture, Effective(all)[top])
  {
    var w := Widened(all);
    assert f.key in w;
    var stands := Standing(w, f.key);
    assert stands in Merged(w) && Matches(stands, ev);
    assert Rank(stands) <= Rank(top);
    if Paired(w, top.at) {
      assert top.dir == Both;
      PairReaches(all, ev, top, f);
    } else {
      assert top in w && Merged(w)[top] == w[top];
      SpecificEnough(w, ev, top, f.key);
      WidestOfCoversMember(all, f, top);
    }
  }

  lemma SpecificEnough(w: FilterSet, ev: Event, top: Key, o: Key)
    requires !Paired(w, top.at) && Matches(o, ev) && Matches(top, ev)
    requires Rank(Standing(w, o)) <= Rank(top) && !OppositeSigns(o.dir, top.dir)
    ensures Feeds(o, top)
  {
    if Paired(w, o.at) {
      assert o.at != top.at;
      match o.at {
        case Everything =>
        case ClassOf(_) =>
        case Exact(_, _) =>
      }
    } else {
      LowerRankFeeds(ev, o, top);
    }
  }

  lemma PairReaches(all: seq<Filter>, ev: Event, top: Key, f: Filter)
    requires f in all && Matches(f.key, ev) && Matches(top, ev) && top.dir == Both
    requires Paired(Widened(all), top.at)
    requires Rank(Standing(Widened(all), f.key)) <= Rank(top)
    ensures top in Effective(all) && AtMost(f.capture, Effective(all)[top])
  {
    var w := Widened(all);
    var sign := if f.key.dir == Negative then Negative else Positive;
    var part := if f.key == top then top else Key(top.at, sign);
    assert CoversAddress(f.key.at, top.at) by {
      match f.key.at {
        case Everything =>
        case ClassOf(_) =>
        case Exact(_, _) =>
      }
    }
    assert Feeds(f.key, part);
    assert part in w;
    WidestOfCoversMember(all, f, part);
    MergedCaptureReaches(w, top.at, part);
    AtMostIsTransitive(f.capture, w[part], Effective(all)[top]);
  }

  lemma SignedEntryIsWidened(all: seq<Filter>, top: Key)
    requires top in Effective(all) && top.dir != Both
    ensures top in KeysOf(all) && Effective(all)[top] == CaptureOf(all, Feeding(top))
  {
  }

  /** A signed entry keeps as much as `c` exactly when one of the filters that feed it asks for that. */
  lemma SignedEntryKeepsIff(all: seq<Filter>, top: Key, c: Capture)
    requires top in Effective(all) && top.dir != Both
    ensures AtMost(c, Effective(all)[top]) <==>
            exists g :: g in all && Feeds(g.key, top) && AtMost(c, g.capture)
  {
    SignedEntryIsWidened(all, top);
    WidestIsAttainedBound(all, Feeding(top));
    var own :| own in all && own.key == top;
    if g :| g in all && Feeds(g.key, top) && AtMost(c, g.capture) {
      AtMostIsTransitive(c, g.capture, Effective(all)[top]);
    }
    hide KeysOf;
  }

  /** The entry that ranks first for an event keeps at least what a matching filter asks for exactly
      when the two do not name opposite signs, or some filter that feeds the entry asks for as much. */
  lemma TopEntryReaches(all: seq<Filter>, ev: Event, top: Key, f: Filter)
    requires IsTop(Effective(all), ev, top)
    requires f in all && Matches(f.key, ev)
    ensures AtMost(f.capture, Effective(all)[top]) <==>
            !OppositeSigns(f.key.dir, top.dir) ||
            exists g :: g in all && Feeds(g.key, top) && AtMost(f.capture, g.capture)
  {
    hide Effective, Feeds, AtMost, Matches, Rank;
    if OppositeSigns(f.key.dir, top.dir) {
      SignedEntryKeepsIff(all, top, f.capture);
    } else {
      UnopposedReaches(all, ev, top, f);
    }
  }

  /** A named-direction event is always kept at the widest capture any matching subscriber asked for. */
  lemma NamedEventsKeepEnough(all: seq<Filter>, ev: Event, top: Key, f: Filter)
    requires ev.dir != Both
    requires IsTop(Effective(all), ev, top)
    requires f in all && Matches(f.key, ev)
    ensures AtMost(f.capture, Effective(all)[top])
  {
    TopEntryReaches(all, ev, top, f);
  }

  lemma OppositePairWidened(o: Key, t: Key, a: Capture, b: Capture)
    requires CoversAddress(o.at, t.at) && o.at != t.at && OppositeSigns(o.dir, t.dir)
    ensures Widened([Filter(o, a), Filter(t, b)]) == map[o := a, t := b]
  {
    var all := [Filter(o, a), Filter(t, b)];
    assert all[0].key == o && all[1].key == t;
    assert KeysOf(all) == {o, t};
    assert all[..1] == [Filter(o, a)] && all[..1][..0] == [];
    assert !Feeds(o, t) && !Feeds(t, o) by {
      match o.at {
        case Everything =>
        case ClassOf(_) =>
        case Exact(_, _) =>
      }
    }
    WidestIsAttainedBound(all, Feeding(t));
    WidestIsAttainedBound(all, Feeding(o));
  }

  /** The exception is real for every such pair of addresses: an event with no sign of its own (a bus
      event) then resolves to the covered entry, and the covering subscriber, at whatever captures, is
      served only if it asked for no more than the other. */
  lemma OppositeSignsStarve(o: Key, t: Key, a: Capture, b: Capture, ev: Event)
    requires CoversAddress(o.at, t.at) && o.at != t.at && OppositeSigns(o.dir, t.dir)
    requires AtEvent(t.at, ev) && ev.dir == Both
    ensures var all := [Filter(o, a), Filter(t, b)];
            IsTop(Effective(all), ev, t) && Matches(o, ev) && (AtMost(a, Effective(all)[t]) <==> AtMost(a, b))
  {
    OppositePairWidened(o, t, a, b);
    var w: FilterSet := map[o := a, t := b];
    UnpairedUnchanged(w);
    CoverRanksBelow(o, t);
  }

  lemma UnpairedUnchanged(s: FilterSet)
    requires forall k :: k in s ==> !Paired(s, k.at)
    ensures Merged(s) == s
  {
  }

  lemma CoverRanksBelow(o: Key, t: Key)
    requires CoversAddress(o.at, t.at) && o.at != t.at
    ensures Rank(o) <= Rank(t)
    ensures forall ev :: AtEvent(t.at, ev) ==> AtEvent(o.at, ev)
  {
    match o.at {
      case Everything =>
      case ClassOf(_) =>
      case Exact(_, _) =>
    }
  }

  // What an entry is as wide as

  /** A filter feeds an entry exactly when some signed event is for both and the filter's own key does not
      outrank the entry. */
  lemma FeedsIff(o: Key, k: Key)
    ensures Feeds(o, k) <==> Rank(o) <= Rank(k) && exists ev: Event :: ev.dir != Both && Matches(o, ev) && Matches(k, ev)
  {
    if Feeds(o, k) {
      var ev := SharedEvent(o, k);
    }
    if Rank(o) <= Rank(k) {
      if ev: Event :| ev.dir != Both && Matches(o, ev) && Matches(k, ev) {
        LowerRankFeeds(ev, o, k);
      }
    }
  }

  lemma SharedEvent(o: Key, k: Key) returns (ev: Event)
    requires Feeds(o, k)
    ensures ev.dir != Both && Matches(o, ev) && Matches(k, ev) && Rank(o) <= Rank(k)
  {
    var cls := if k.at.Everything? then 0 else k.at.cls;
    var id := if k.at.Exact? then k.at.id else 0;
    ev := Event(cls, id, if o.dir != Both then o.dir else if k.dir != Both then k.dir else Positive);
    match o.at {
      case Everything =>
      case ClassOf(_) =>
      case Exact(_, _) =>
    }
  }

  /** The filters an entry of the union answers to: where two opposite signs have merged, all whose
      address covers the entry's. */
  ghost predicate Serves(all: seq<Filter>, o: Key, k: Key) {
    if Key(k.at, Positive) in KeysOf(all) && Key(k.at, Negative) in KeysOf(all) then CoversAddress(o.at, k.at)
    else Feeds(o, k)
  }

  /** Every entry of the union is exactly as wide as the widest capture asked by a filter it answers to:
      never narrower, and never wider than somebody asked. */
  lemma EffectiveIsExact(all: seq<Filter>, k: Key)
    requires k in Effective(all)
    ensures forall g :: g in all && Serves(all, g.key, k) ==> AtMost(g.capture, Effective(all)[k])
    ensures exists g :: g in all && Serves(all, g.key, k) && g.capture == Effective(all)[k]
  {
    if Paired(Widened(all), k.at) {
      assert k.dir == Both;
      MergedIsExact(all, k);
    } else {
      UnmergedIsExact(all, k);
    }
  }

  lemma UnmergedIsExact(all: seq<Filter>, k: Key)
    requires k in Effective(all) && !Paired(Widened(all), k.at)
    ensures forall g :: g in all && Serves(all, g.key, k) ==> AtMost(g.capture, Effective(all)[k])
    ensures exists g :: g in all && Serves(all, g.key, k) && g.capture == Effective(all)[k]
  {
    assert k in KeysOf(all) && Effective(all)[k] == CaptureOf(all, Feeding(k));
    WidestIsAttainedBound(all, Feeding(k));
    var own :| own in all && own.key == k;
    assert Feeding(k)(own.key);
    hide Effective, Feeds;
  }

  lemma PartOfPair(o: Key, at: Address)
    requires CoversAddress(o.at, at)
    ensures Feeds(o, Key(at, Positive)) || Feeds(o, Key(at, Negative)) || (o == Key(at, Both))
  {
  }

  lemma PartIsCovered(o: Key, part: Key)
    requires Feeds(o, part)
    ensures CoversAddress(o.at, part.at)
  {
    match part.at {
      case Everything =>
      case ClassOf(_) =>
      case Exact(_, _) =>
    }
  }

  /** The merged capture is that of one of the merged parts. */
  lemma MergedFromPart(s: FilterSet, at: Address) returns (part: Key)
    requires Paired(s, at)
    ensures part in s && part.at == at && s[part] == MergedCapture(s, at)
  {
    var p, n, b := Key(at, Positive), Key(at, Negative), Key(at, Both);
    if s[p] == MergedCapture(s, at) {
      part := p;
    } else if s[n] == MergedCapture(s, at) {
      part := n;
    } else {
      part := b;
    }
  }

  lemma WidenedIsExact(all: seq<Filter>, k: Key)
    requires k in Widened(all)
    ensures forall g :: g in all && Feeds(g.key, k) ==> AtMost(g.capture, Widened(all)[k])
    ensures exists g :: g in all && Feeds(g.key, k) && g.capture == Widened(all)[k]
  {
    WidestIsAttainedBound(all, Feeding(k));
    var own :| own in all && own.key == k;
    assert Feeding(k)(own.key);
    hide Feeds;
  }

  lemma MergedIsExact(all: seq<Filter>, k: Key)
    requires k.dir == Both && Paired(Widened(all), k.at)
    ensures k in Effective(all)
    ensures forall g :: g in all && Serves(all, g.key, k) ==> AtMost(g.capture, Effective(all)[k])
    ensures exists g :: g in all && Serves(all, g.key, k) && g.capture == Effective(all)[k]
  {
    var w := Widened(all);
    assert Key(k.at, Positive) in w && Key(k.at, Negative) in w;
    assert k in Effective(all) && Effective(all)[k] == MergedCapture(w, k.at);
    hide Effective, Widened, Feeds, MergedCapture;
    forall g | g in all && Serves(all, g.key, k) ensures AtMost(g.capture, Effective(all)[k]) {
      MergedReaches(all, k, g);
    }
    var part := MergedFromPart(w, k.at);
    WidenedIsExact(all, part);
    var g :| g in all && Feeds(g.key, part) && g.capture == w[part];
    PartIsCovered(g.key, part);
  }

  lemma MergedReaches(all: seq<Filter>, k: Key, g: Filter)
    requires k.dir == Both && Paired(Widened(all), k.at) && g in all && CoversAddress(g.key.at, k.at)
    ensures k in Effective(all) && AtMost(g.capture, Effective(all)[k])
  {
    var w := Widened(all);
    PartOfPair(g.key, k.at);
    var part := if g.key == k then k else if Feeds(g.key, Key(k.at, Positive)) then Key(k.at, Positive) else Key(k.at, Negative);
    assert g.key in w;
    hide Feeds, MergedCapture;
    assert Feeds(g.key, part) by {
      FeedsItself(k);
    }
    WidenedIsExact(all, part);
    MergedCaptureReaches(w, k.at, part);
    AtMostIsTransitive(g.capture, w[part], Effective(all)[k]);
  }

  lemma FeedsItself(k: Key)
    ensures Feeds(k, k)
  {
  }

  // How the host computes it

  lemma {:induction false} BoundIsUnique(all: seq<Filter>, feeds: Key -> bool, c: Capture)
    requires exists f :: f in all && feeds(f.key) && f.capture == c
    requires forall f :: f in all && feeds(f.key) ==> AtMost(f.capture, c)
    ensures WidestOf(all, feeds) == Some(c)
  {
    WidestIsAttainedBound(all, feeds);
  }

  lemma CollapsedStep(before: seq<Filter>, f: Filter)
    ensures Collapsed(before + [f]) ==
            var was := Collapsed(before);
            was[f.key := if f.key in was then Widest(was[f.key], f.capture) else f.capture]
  {
    var now := before + [f];
    assert now[..|now| - 1] == before;
    WidestIsAttainedBound(before, Own(f.key));
    forall k: Key
      ensures k in KeysOf(now) <==> k in KeysOf(before) || k == f.key
    {
      if k == f.key {
        assert f in now;
      } else if k in KeysOf(before) {
        var g :| g in before && g.key == k;
        assert g in now;
      }
    }
    forall k: Key | k != f.key
      ensures CaptureOf(now, Own(k)) == CaptureOf(before, Own(k))
    {
    }
    assert Collapsed(now).Keys == Collapsed(before).Keys + {f.key};
  }

  /** Folds the filters into a table by key; where two share a key the larger capture wins. */
  method Collapse(filters: seq<Filter>) returns (out: FilterSet)
    ensures out == Collapsed(filters)
  {
    out := map[];
    assert filters[..0] == [];
    for i := 0 to |filters|
      invariant out == Collapsed(filters[..i])
    {
      var f := filters[i];
      assert filters[..i + 1] == filters[..i] + [f];
      CollapsedStep(filters[..i], f);
      if f.key in out {
        out := out[f.key := Widest(out[f.key], f.capture)];
      } else {
        out := out[f.key := f.capture];
      }
    }
    assert filters[..|filters|] == filters;
  }

  /** One entry's capture, widened to the widest of every filter covering it. */
  method Widen(all: seq<Filter>, k: Key, own: Capture) returns (acc: Capture)
    requires k in KeysOf(all) && own == CaptureOf(all, Own(k))
    ensures acc == CaptureOf(all, Feeding(k))
  {
    acc := own;
    WidestIsAttainedBound(all, Own(k));
    for i := 0 to |all|
      invariant AtMost(own, acc)
      invariant exists f :: f in all && Feeds(f.key, k) && f.capture == acc
      invariant forall j :: 0 <= j < i && Feeds(all[j].key, k) ==> AtMost(all[j].capture, acc)
    {
      if Covers(all[i].key, k) {
        WidestIsUpperBound(acc, all[i].capture);
        var wider := Widest(acc, all[i].capture);
        forall j | 0 <= j < i && Feeds(all[j].key, k)
          ensures AtMost(all[j].capture, wider)
        {
          AtMostIsTransitive(all[j].capture, acc, wider);
        }
        assert all[i] in all;
        acc := wider;
      }
    }
    BoundIsUnique(all, Feeding(k), acc);
  }

  /** `Merged`, restricted to the addresses already visited. */
  ghost function MergedWithin(s: FilterSet, visited: set<Address>): FilterSet {
    map k | k in s.Keys + (set p | p in s.Keys :: Key(p.at, Both)) &&
            (if k.at in visited then MergedHolds(s, k) else k in s)
         :: if k.at in visited && k.dir == Both && Paired(s, k.at) then MergedCapture(s, k.at) else s[k]
  }

  ghost predicate MergedHolds(s: FilterSet, k: Key) {
    if k.dir == Both then k in s || Paired(s, k.at) else k in s && !Paired(s, k.at)
  }

  lemma Signs(k: Key)
    ensures k == Key(k.at, Both) || k == Key(k.at, Positive) || k == Key(k.at, Negative)
  {
    match k.dir {
      case Both =>
      case Positive =>
      case Negative =>
    }
  }

  lemma WithinHolds(s: FilterSet, visited: set<Address>, k: Key)
    ensures k in MergedWithin(s, visited) <==> if k.at in visited then MergedHolds(s, k) else k in s
  {
    if Paired(s, k.at) {
      assert Key(k.at, Positive) in s.Keys;
    }
  }

  lemma MergeStep(s: FilterSet, visited: set<Address>, at: Address)
    requires at !in visited
    ensures var was := MergedWithin(s, visited);
            (forall k: Key :: k.at == at ==> (k in was <==> k in s)) &&
            (forall k: Key :: k.at == at && k in s ==> was[k] == s[k]) &&
            MergedWithin(s, visited + {at}) ==
              if Paired(s, at) then (was - {Key(at, Positive), Key(at, Negative)})[Key(at, Both) := MergedCapture(s, at)]
              else was
  {
    var was, now := MergedWithin(s, visited), MergedWithin(s, visited + {at});
    forall k: Key
      ensures k in was <==> if k.at in visited then MergedHolds(s, k) else k in s
      ensures k in now <==> if k.at in visited || k.at == at then MergedHolds(s, k) else k in s
    {
      WithinHolds(s, visited, k);
      WithinHolds(s, visited + {at}, k);
    }
    var merged := if Paired(s, at)
      then (was - {Key(at, Positive), Key(at, Negative)})[Key(at, Both) := MergedCapture(s, at)]
      else was;
    forall k: Key
      ensures k in merged <==> k in now
    {
      Signs(k);
    }
    assert merged.Keys == now.Keys;
    forall k | k in now
      ensures now[k] == merged[k]
    {
      if k.at == at {
        Signs(k);
      }
    }
  }

  /** Replaces each opposite pair by one `Both` entry. */
  method CollapseOppositeSiblings(s: FilterSet) returns (out: FilterSet)
    ensures out == Merged(s)
  {
    out := s;
    ghost var visited: set<Address> := {};
    var addresses := set k | k in s && k.dir != Both :: k.at;
    assert out == MergedWithin(s, visited);
    while addresses != {}
      invariant out == MergedWithin(s, visited)
      invariant visited !! addresses
      invariant forall k :: k in s && k.dir != Both ==> k.at in visited + addresses
      decreases addresses
    {
      var at :| at in addresses;
      addresses := addresses - {at};
      var pos, neg, both := Key(at, Positive), Key(at, Negative), Key(at, Both);
      MergeStep(s, visited, at);
      if pos in out && neg in out {
        var merged := Widest(out[pos], out[neg]);
        if both in out {
          merged := Widest(merged, out[both]);
        }
        out := (out - {pos, neg})[both := merged];
      }
      visited := visited + {at};
    }
    AllVisited(s, visited);
  }

  lemma AllVisited(s: FilterSet, visited: set<Address>)
    requires forall k :: k in s && k.dir != Both ==> k.at in visited
    ensures MergedWithin(s, visited) == Merged(s)
  {
    forall k: Key
      ensures k in MergedWithin(s, visited) <==> k in Merged(s)
    {
      WithinHolds(s, visited, k);
      assert Paired(s, k.at) ==> Key(k.at, Positive) in s;
    }
    assert MergedWithin(s, visited).Keys == Merged(s).Keys;
    forall k | k in Merged(s)
      ensures MergedWithin(s, visited)[k] == Merged(s)[k]
    {
      assert Paired(s, k.at) ==> Key(k.at, Positive) in s;
    }
  }

  /** Widens every entry of a collapsed table to the widest of every filter covering it. */
  method WidenAll(all: seq<Filter>, entries: FilterSet) returns (out: FilterSet)
    requires entries == Collapsed(all)
    ensures out == Widened(all)
  {
    out := entries;
    ghost var target := Widened(all);
    var todo := entries.Keys;
    while todo != {}
      invariant todo <= entries.Keys && out.Keys == entries.Keys
      invariant forall k :: k in out && k !in todo ==> out[k] == target[k]
      decreases todo
    {
      var k :| k in todo;
      var wide := Widen(all, k, entries[k]);
      out := out[k := wide];
      todo := todo - {k};
    }
  }

  /** The union of every subscription, as the registry computes it before each sync. */
  method EffectiveTable(all: seq<Filter>) returns (out: FilterSet)
    ensures out == Effective(all)
  {
    var entries := Collapse(all);
    var wide := WidenAll(all, entries);
    out := CollapseOppositeSiblings(wide);
  }
}
