/** The subscription registry and its one table on the box: subscribe, refuse, roll back, unsubscribe. */
module CatchLink {
  import opened Wrappers
  import opened CatchTable
  import opened CatchSync
  import opened Finite

  datatype Sub = Sub(id: nat, filters: seq<Filter>)

  function All(subs: seq<Sub>): seq<Filter> {
    if subs == [] then [] else All(subs[..|subs| - 1]) + subs[|subs| - 1].filters
  }

  function Without(subs: seq<Sub>, id: nat): seq<Sub> {
    if subs == [] then []
    else
      var rest := Without(subs[..|subs| - 1], id);
      if subs[|subs| - 1].id == id then rest else rest + [subs[|subs| - 1]]
  }

  ghost function Union(subs: seq<Sub>): FilterSet {
    Effective(All(subs))
  }

  /** The registry, the table it wants the box to hold, and the table the box holds. */
  datatype Registry = Registry(subs: seq<Sub>, nextId: nat, desired: FilterSet, box: FilterSet)

  const NO_DIFF := Diff([], [], [])

  datatype Refusal = TableFull(needed: nat) | LinkDown

  /** A call on the registry. `sent` is how many frames of its diff reach the box before the link fails,
      and `sentBack` how many of `back`, the diff that takes a failed subscribe back. The keepalive sends
      entries of the desired table again, and `keys` are those that get through. */
  datatype Call =
    | Subscribe(filters: seq<Filter>, forward: Diff, sent: nat, back: Diff, sentBack: nat)
    | Unsubscribe(id: nat, diff: Diff, sent: nat)
    | DisconnectAll(arrived: bool)
    | ReAssert(keys: seq<Key>)

  ghost predicate Registered(r: Registry) {
    forall s :: s in r.subs ==> s.id < r.nextId
  }

  /** The registry, the desired table and the box agree. */
  ghost predicate InStep(r: Registry) {
    Registered(r) && r.desired == Union(r.subs) && r.box == r.desired && |r.box| <= TABLE_MAX &&
    Plain(r.box.Keys)
  }

  ghost function Grown(r: Registry, filters: seq<Filter>): seq<Sub> {
    r.subs + [Sub(r.nextId, filters)]
  }

  /** The diffs a call sends are diffs between the unions it moves between. */
  ghost predicate Legal(r: Registry, call: Call) {
    match call
    case Subscribe(filters, forward, sent, back, sentBack) =>
      var prev, next := Union(r.subs), Union(Grown(r, filters));
      |next| > TABLE_MAX ||
      (Moves(forward, prev, next) && sent <= |forward.frames| &&
       (sent < |forward.frames| ==> Moves(back, next, prev) && sentBack <= |back.frames|))
    case Unsubscribe(id, diff, sent) =>
      Moves(diff, Union(r.subs), Union(Without(r.subs, id))) && sent <= |diff.frames|
    case DisconnectAll(_) => true
    case ReAssert(keys) => Elements(keys) <= r.desired.Keys
  }

  ghost function Step(r: Registry, call: Call): Registry
    requires Legal(r, call)
  {
    match call
    case Subscribe(filters, forward, sent, back, sentBack) =>
      var wanted := Union(Grown(r, filters));
      if |wanted| > TABLE_MAX then r.(nextId := r.nextId + 1)
      else if sent == |forward.frames| then
        Registry(Grown(r, filters), r.nextId + 1, wanted, BoxRun(r.box, forward.frames))
      else
        r.(nextId := r.nextId + 1, desired := Union(r.subs),
           box := BoxRun(BoxRun(r.box, forward.frames[..sent]), back.frames[..sentBack]))
    case Unsubscribe(id, diff, sent) =>
      var left := Without(r.subs, id);
      r.(subs := left, desired := Union(left), box := BoxRun(r.box, diff.frames[..sent]))
    case DisconnectAll(arrived) => r.(subs := [], desired := map[], box := if arrived then map[] else r.box)
    case ReAssert(keys) => r.(box := BoxRun(r.box, Again(r.desired, keys)))
  }

  /** When a call leaves everything in step: a subscribe must name no sentinel id, a broken one be taken
      back, and an unsubscribe arrive whole and need no more entries than the box has. */
  ghost predicate StaysInStep(r: Registry, call: Call)
    requires Legal(r, call)
  {
    match call
    case Subscribe(filters, forward, sent, back, sentBack) =>
      var prev, next := Union(r.subs), Union(Grown(r, filters));
      |next| > TABLE_MAX ||
      if sent == |forward.frames| then Unreserved(filters)
      else TakenBack(prev, next, BoxRun(prev, forward.frames[..sent]), back, sentBack)
    case Unsubscribe(id, diff, sent) => sent == |diff.frames| && |Union(Without(r.subs, id))| <= TABLE_MAX
    case DisconnectAll(arrived) => arrived || Union(r.subs) == map[]
    case ReAssert(_) => true
  }

  ghost predicate Unreserved(filters: seq<Filter>) {
    forall f :: f in filters ==> !Reserved(f.key)
  }

  lemma {:induction false} WithoutKeepsOthers(subs: seq<Sub>, id: nat)
    ensures forall s :: s in Without(subs, id) <==> s in subs && s.id != id
  {
    if subs != [] {
      WithoutKeepsOthers(subs[..|subs| - 1], id);
      assert subs == subs[..|subs| - 1] + [subs[|subs| - 1]];
    }
  }

  lemma {:induction false} WithoutAbsent(subs: seq<Sub>, id: nat)
    requires forall s :: s in subs ==> s.id != id
    ensures Without(subs, id) == subs
  {
    if subs != [] {
      assert subs[|subs| - 1] in subs;
      WithoutAbsent(subs[..|subs| - 1], id);
    }
  }

  lemma EmptyUnion()
    ensures Union([]) == map[]
  {
    assert KeysOf([]) == {};
    assert Widened([]) == map[];
    assert Merged(map[]) == map[];
  }

  lemma EffectiveKeys(all: seq<Filter>, k: Key)
    ensures k in Effective(all) <==>
            if k.dir == Both then k in KeysOf(all) || (Key(k.at, Positive) in KeysOf(all) && Key(k.at, Negative) in KeysOf(all))
            else k in KeysOf(all) && Key(k.at, Opposite(k.dir)) !in KeysOf(all)
  {
    if Paired(Widened(all), k.at) {
      assert Key(k.at, Positive) in Widened(all).Keys;
    }
  }

  /** The union names the sentinel exactly when a filter does. */
  lemma PlainUnion(all: seq<Filter>)
    ensures Plain(Effective(all).Keys) <==> Unreserved(all)
  {
    if f :| f in all && Reserved(f.key) {
      assert f.key in KeysOf(all);
      EffectiveKeys(all, f.key);
      EffectiveKeys(all, Key(f.key.at, Both));
    }
    if k :| k in Effective(all) && Reserved(k) {
      EffectiveKeys(all, k);
      var own := if k in KeysOf(all) then k else Key(k.at, Positive);
      var f :| f in all && f.key == own;
    }
  }

  lemma AllGrown(r: Registry, filters: seq<Filter>)
    ensures All(Grown(r, filters)) == All(r.subs) + filters
    ensures Unreserved(All(Grown(r, filters))) <==> Unreserved(All(r.subs)) && Unreserved(filters)
  {
    assert Grown(r, filters)[..|r.subs|] == r.subs;
  }

  lemma {:induction false} AllWithout(subs: seq<Sub>, id: nat)
    ensures forall f :: f in All(Without(subs, id)) ==> f in All(subs)
  {
    if subs != [] {
      var left := Without(subs, id);
      AllWithout(subs[..|subs| - 1], id);
      if subs[|subs| - 1].id != id {
        assert left[..|left| - 1] == Without(subs[..|subs| - 1], id);
      }
    }
  }

  lemma BrokenInStep(prev: FilterSet, next: FilterSet, forward: Diff, sent: nat, back: Diff, sentBack: nat)
    requires Moves(forward, prev, next) && Moves(back, next, prev) && Plain(prev.Keys)
    requires |prev| <= TABLE_MAX && |next| <= TABLE_MAX && sent <= |forward.frames| && sentBack <= |back.frames|
    ensures BoxRun(BoxRun(prev, forward.frames[..sent]), back.frames[..sentBack]) == prev <==>
            TakenBack(prev, next, BoxRun(prev, forward.frames[..sent]), back, sentBack)
  {
    hide Moves, BoxRun, Plain, TakenBack, Midway, OnWire;
    AfterPrefix(prev, next, forward, sent);
    FrameCount(prev, next, forward);
    var box := BoxRun(prev, forward.frames[..sent]);
    MidwayKeys(box, prev, next, Lost(prev, next, forward, sent));
    TakenBackIff(box, prev, next, back, sentBack);
  }

  lemma SubscribeInStep(r: Registry, call: Call)
    requires InStep(r) && Legal(r, call) && call.Subscribe?
    requires |Union(Grown(r, call.filters))| <= TABLE_MAX
    ensures InStep(Step(r, call)) <==> StaysInStep(r, call)
  {
    hide Moves, BoxRun, Plain, TakenBack, Effective, All, Unreserved;
    var prev, next := Union(r.subs), Union(Grown(r, call.filters));
    if call.sent == |call.forward.frames| {
      DiffReaches(prev, next, call.forward);
      PlainUnion(All(r.subs));
      PlainUnion(All(Grown(r, call.filters)));
      AllGrown(r, call.filters);
    } else {
      BrokenInStep(prev, next, call.forward, call.sent, call.back, call.sentBack);
    }
  }

  lemma UnsubscribeInStep(r: Registry, id: nat, diff: Diff, sent: nat)
    requires InStep(r) && Legal(r, Unsubscribe(id, diff, sent))
    ensures InStep(Step(r, Unsubscribe(id, diff, sent))) <==> StaysInStep(r, Unsubscribe(id, diff, sent))
  {
    hide Moves, BoxRun, Effective, All;
    var prev, next := Union(r.subs), Union(Without(r.subs, id));
    WithoutKeepsOthers(r.subs, id);
    PlainUnion(All(r.subs));
    PlainUnion(All(Without(r.subs, id)));
    AllWithout(r.subs, id);
    BoxStaysBounded(prev, diff.frames[..sent]);
    if |next| <= TABLE_MAX {
      if sent < |diff.frames| {
        CutNeverReaches(prev, next, diff, sent);
      } else {
        assert diff.frames[..sent] == diff.frames;
        DiffReaches(prev, next, diff);
      }
    }
  }

  lemma ReAssertInStep(r: Registry, keys: seq<Key>)
    requires InStep(r) && Elements(keys) <= r.desired.Keys
    ensures InStep(Step(r, ReAssert(keys)))
  {
    hide BoxRun, Effective, All, Plain;
    ReAssertIff(r.box, r.desired, keys);
    assert Disturbed(r.desired, r.box) == {};
  }

  /** Out of step, a re-assert that arrives whole puts the box right exactly when it holds no entry the
      registry dropped: what was lost is healed, what was left behind never is. */
  lemma ReAssertHeals(r: Registry, keys: seq<Key>)
    requires Registered(r) && r.desired == Union(r.subs) && |r.desired| <= TABLE_MAX && Plain(r.desired.Keys)
    requires Elements(keys) == r.desired.Keys
    ensures InStep(Step(r, ReAssert(keys))) <==> r.box.Keys <= r.desired.Keys
  {
    ReAssertIff(r.box, r.desired, keys);
    hide BoxRun, Effective, All, Plain;
  }

  /** A call from a registry in step ends in step exactly under its condition, wherever the link fails. */
  lemma CallInStep(r: Registry, call: Call)
    requires InStep(r) && Legal(r, call)
    ensures InStep(Step(r, call)) <==> StaysInStep(r, call)
  {
    hide Moves, BoxRun, TakenBack, Effective, All;
    match call {
      case Subscribe(filters, _, _, _, _) =>
        if |Union(Grown(r, filters))| <= TABLE_MAX {
          SubscribeInStep(r, call);
        }
      case Unsubscribe(id, diff, sent) =>
        UnsubscribeInStep(r, id, diff, sent);
      case DisconnectAll(_) =>
        EmptyUnion();
      case ReAssert(keys) =>
        ReAssertInStep(r, keys);
    }
  }

  /** Every call of the run is legal where it is made, and keeps to its condition. */
  ghost predicate GoodRun(r: Registry, calls: seq<Call>)
    decreases |calls|
  {
    calls == [] ||
    (Legal(r, calls[0]) && StaysInStep(r, calls[0]) && GoodRun(Step(r, calls[0]), calls[1..]))
  }

  ghost function Run(r: Registry, calls: seq<Call>): Registry
    requires GoodRun(r, calls)
    decreases |calls|
  {
    if calls == [] then r else Run(Step(r, calls[0]), calls[1..])
  }

  /** Over any run of calls that keep to their conditions, refusals and links that fail part way among
      them, the box holds exactly the union of the live subscriptions. */
  lemma {:induction false} RunStaysInStep(r: Registry, calls: seq<Call>)
    requires InStep(r) && GoodRun(r, calls)
    ensures InStep(Run(r, calls))
    decreases |calls|
  {
    if calls != [] {
      CallInStep(r, calls[0]);
      RunStaysInStep(Step(r, calls[0]), calls[1..]);
    }
  }

  // What a subscriber is served

  lemma {:induction false} BestRankExists(table: FilterSet, ev: Event, keys: set<Key>) returns (top: Key)
    requires keys <= table.Keys && exists k :: k in keys && Matches(k, ev)
    ensures top in keys && Matches(top, ev)
    ensures forall k :: k in keys && Matches(k, ev) ==> Rank(k) <= Rank(top)
    decreases keys
  {
    var k :| k in keys && Matches(k, ev);
    var rest := keys - {k};
    if j :| j in rest && Matches(j, ev) {
      top := BestRankExists(table, ev, rest);
      if Rank(top) < Rank(k) {
        top := k;
      }
    } else {
      top := k;
    }
  }

  lemma {:induction false} SubscribersFiltersCount(subs: seq<Sub>, s: Sub, f: Filter)
    requires s in subs && f in s.filters
    ensures f in All(subs)
  {
    var last := subs[|subs| - 1];
    if s != last || f !in last.filters {
      assert subs == subs[..|subs| - 1] + [last];
      SubscribersFiltersCount(subs[..|subs| - 1], s, f);
    }
  }

  /** In step, the box has an entry for every signed event a live subscriber asked for, and the one it
      picks keeps at least what that subscriber asked to keep. */
  lemma SubscriberIsServed(r: Registry, s: Sub, f: Filter, ev: Event)
    requires InStep(r) && s in r.subs && f in s.filters
    requires Matches(f.key, ev) && ev.dir != Both
    ensures exists top :: IsTop(r.box, ev, top) && AtMost(f.capture, r.box[top])
  {
    SubscribersFiltersCount(r.subs, s, f);
    EffectiveMatchesWhatWasAsked(All(r.subs), ev);
    var top := BestRankExists(r.box, ev, r.box.Keys);
    NamedEventsKeepEnough(All(r.subs), ev, top, f);
  }

  // Where an unsubscribe does not fit

  ghost function Signed(n: nat, dir: Direction): seq<Filter> {
    seq(n, i => Filter(Key(Exact(0, i), dir), Whole))
  }

  ghost function SignedKeys(n: nat, dir: Direction): seq<Key> {
    seq(n, i => Key(Exact(0, i), dir))
  }

  lemma SignedKeysAreDistinct(n: nat, dir: Direction)
    ensures NoDuplicates(SignedKeys(n, dir)) && |Elements(SignedKeys(n, dir))| == n
    ensures forall k: Key :: k in Elements(SignedKeys(n, dir)) <==>
              k.dir == dir && k.at.Exact? && k.at.cls == 0 && 0 <= k.at.id < n
  {
    DistinctSize(SignedKeys(n, dir));
    forall k: Key | k.dir == dir && k.at.Exact? && k.at.cls == 0 && 0 <= k.at.id < n
      ensures k in Elements(SignedKeys(n, dir))
    {
      assert SignedKeys(n, dir)[k.at.id] == k;
    }
  }

  lemma SignedKeysOf(n: nat, k: Key, dir: Direction)
    ensures k in KeysOf(Signed(n, dir)) <==> k in Elements(SignedKeys(n, dir))
  {
    SignedKeysAreDistinct(n, dir);
    if k in Elements(SignedKeys(n, dir)) {
      assert Signed(n, dir)[k.at.id] == Filter(k, Whole);
    }
    if k in KeysOf(Signed(n, dir)) {
      var f :| f in Signed(n, dir) && f.key == k;
    }
  }

  lemma KeysOfConcat(a: seq<Filter>, b: seq<Filter>)
    ensures KeysOf(a + b) == KeysOf(a) + KeysOf(b)
  {
    forall k | k in KeysOf(a) + KeysOf(b) ensures k in KeysOf(a + b) {
      if k in KeysOf(a) {
        var f :| f in a && f.key == k;
        assert f in a + b;
      } else {
        var f :| f in b && f.key == k;
        assert f in a + b;
      }
    }
  }

  ghost function BothSigns(n: nat): seq<Filter> {
    Signed(n, Positive) + Signed(n, Negative) + Signed(n, Both)
  }

  lemma BothSignsKeys(n: nat, at: Address, d: Direction)
    ensures Key(at, d) in KeysOf(BothSigns(n)) <==> Key(at, d) in Elements(SignedKeys(n, d))
  {
    KeysOfConcat(Signed(n, Positive) + Signed(n, Negative), Signed(n, Both));
    KeysOfConcat(Signed(n, Positive), Signed(n, Negative));
    forall e: Direction
      ensures Key(at, d) in KeysOf(Signed(n, e)) <==> Key(at, d) in Elements(SignedKeys(n, e))
    {
      SignedKeysOf(n, Key(at, d), e);
      SignedKeysAreDistinct(n, e);
    }
  }

  /** Both signs and `Both` at `n` addresses merge into `n` entries. */
  lemma MergedUnionSize(n: nat)
    ensures |Effective(BothSigns(n))| == n
  {
    hide Effective, KeysOf;
    SignedKeysAreDistinct(n, Both);
    SignedKeysAreDistinct(n, Positive);
    SignedKeysAreDistinct(n, Negative);
    forall k: Key
      ensures k in Effective(BothSigns(n)) <==> k in Elements(SignedKeys(n, Both))
    {
      EffectiveKeys(BothSigns(n), k);
      BothSignsKeys(n, k.at, Both);
      BothSignsKeys(n, k.at, Positive);
      BothSignsKeys(n, k.at, Negative);
    }
    assert Effective(BothSigns(n)).Keys == Elements(SignedKeys(n, Both));
  }

  lemma OneSignKeys(n: nat, at: Address, d: Direction)
    ensures Key(at, d) in KeysOf(Signed(n, Positive) + Signed(n, Both)) <==>
            d != Negative && Key(at, d) in Elements(SignedKeys(n, d))
  {
    KeysOfConcat(Signed(n, Positive), Signed(n, Both));
    forall e: Direction
      ensures Key(at, d) in KeysOf(Signed(n, e)) <==> Key(at, d) in Elements(SignedKeys(n, e))
    {
      SignedKeysOf(n, Key(at, d), e);
      SignedKeysAreDistinct(n, e);
    }
  }

  /** Without the negative sign the same addresses no longer merge: `2 * n` entries. */
  lemma SplitUnionSize(n: nat)
    ensures |Effective(Signed(n, Positive) + Signed(n, Both))| == 2 * n
  {
    hide Effective, KeysOf;
    var all := Signed(n, Positive) + Signed(n, Both);
    SignedKeysAreDistinct(n, Both);
    SignedKeysAreDistinct(n, Positive);
    var pos, both := Elements(SignedKeys(n, Positive)), Elements(SignedKeys(n, Both));
    forall k: Key
      ensures k in Effective(all) <==> k in pos + both
    {
      EffectiveKeys(all, k);
      OneSignKeys(n, k.at, Both);
      OneSignKeys(n, k.at, Positive);
      OneSignKeys(n, k.at, Negative);
    }
    assert Effective(all).Keys == pos + both;
    assert pos !! both;
  }

  ghost function Spread(n: nat): seq<Sub> {
    [Sub(0, Signed(n, Positive)), Sub(1, Signed(n, Negative)), Sub(2, Signed(n, Both))]
  }

  lemma SpreadSizes(n: nat)
    ensures |Union(Spread(n))| == n && |Union(Without(Spread(n), 1))| == 2 * n
  {
    var p, m, b := Sub(0, Signed(n, Positive)), Sub(1, Signed(n, Negative)), Sub(2, Signed(n, Both));
    assert [p, m, b][..2] == [p, m] && [p, m][..1] == [p] && [p, b][..1] == [p] && [p][..0] == [];
    assert All([p]) == p.filters;
    assert All([p, m]) == p.filters + m.filters;
    assert Without([p], 1) == [p];
    assert Without([p, m], 1) == [p];
    MergedUnionSize(n);
    SplitUnionSize(n);
  }

  lemma SpreadUnreserved(n: nat)
    requires n <= TABLE_MAX
    ensures Unreserved(All(Spread(n)))
  {
    var p, m, b := Sub(0, Signed(n, Positive)), Sub(1, Signed(n, Negative)), Sub(2, Signed(n, Both));
    assert [p, m, b][..2] == [p, m] && [p, m][..1] == [p] && [p][..0] == [];
    assert All([p]) == p.filters;
    assert All([p, m]) == p.filters + m.filters;
  }

  ghost predicate HoldsSpread(r: Registry, n: nat) {
    r.subs == Spread(n) && r.nextId == 3 && r.desired == r.box == Union(r.subs)
  }

  lemma SpreadInStep(r: Registry, n: nat)
    requires HoldsSpread(r, n) && n <= TABLE_MAX
    ensures InStep(r)
  {
    assert Registered(r);
    hide Effective, All, Unreserved, Spread, Without;
    SpreadSizes(n);
    SpreadUnreserved(n);
    PlainUnion(All(r.subs));
  }

  /** From 17 addresses on, three live subscriptions fit the box as one entry an address, and dropping
      the one that made the pairs needs two: this unsubscribe, wherever it stops, leaves the box short of
      the registry. */
  lemma UnsubscribeCanOverflow(r: Registry, n: nat, diff: Diff, sent: nat)
    requires HoldsSpread(r, n) && TABLE_MAX < 2 * n <= 2 * TABLE_MAX
    requires Legal(r, Unsubscribe(1, diff, sent))
    ensures InStep(r) && !InStep(Step(r, Unsubscribe(1, diff, sent)))
  {
    hide Union, InStep, Legal;
    SpreadSizes(n);
    SpreadInStep(r, n);
    CallInStep(r, Unsubscribe(1, diff, sent));
  }

  // Where a half-sent subscribe cannot be taken back

  lemma WholeEverywhere(all: seq<Filter>, k: Key)
    requires k in Effective(all) && forall f :: f in all ==> f.capture == Whole
    ensures Effective(all)[k] == Whole
  {
    var w := Widened(all);
    forall o | o in w ensures w[o] == Whole {
      WidestIsAttainedBound(all, Feeding(o));
    }
    if k.dir == Both && Paired(w, k.at) {
      assert Effective(all)[k] == MergedCapture(w, k.at);
    }
  }

  ghost function Wholes(keys: seq<Key>): seq<Filter> {
    seq(|keys|, i requires 0 <= i < |keys| => Filter(keys[i], Whole))
  }

  lemma WholesKeys(keys: seq<Key>)
    ensures KeysOf(Wholes(keys)) == Elements(keys)
    ensures forall f :: f in Wholes(keys) ==> f.capture == Whole
  {
    forall k | k in Elements(keys) ensures k in KeysOf(Wholes(keys)) {
      var i :| 0 <= i < |keys| && keys[i] == k;
      assert Wholes(keys)[i].key == k;
    }
  }

  const OVER_ALL := Key(Everything, Positive)
  const BOTH_OVER_ALL := Key(Everything, Both)
  const UNDER_ALL := Key(Everything, Negative)
  const ONE_ID := Key(Exact(0, 1), Both)

  /** Three live filters, two of them on the wildcard; a fourth that merges one of those two away. */
  ghost function Live(): seq<Filter> {
    Wholes([OVER_ALL, BOTH_OVER_ALL, ONE_ID])
  }

  ghost function Wanted(): seq<Filter> {
    Wholes([UNDER_ALL])
  }

  lemma LiveUnion(k: Key)
    ensures k in Effective(Live()) <==> k == OVER_ALL || k == BOTH_OVER_ALL || k == ONE_ID
    ensures k in Effective(Live() + Wanted()) <==> k == BOTH_OVER_ALL || k == ONE_ID
    ensures k in Effective(Live()) ==> Effective(Live())[k] == Whole
    ensures k in Effective(Live() + Wanted()) ==> Effective(Live() + Wanted())[k] == Whole
  {
    hide Effective;
    WholesKeys([OVER_ALL, BOTH_OVER_ALL, ONE_ID]);
    WholesKeys([UNDER_ALL]);
    KeysOfConcat(Live(), Wanted());
    EffectiveKeys(Live(), k);
    EffectiveKeys(Live() + Wanted(), k);
    if k in Effective(Live()) {
      WholeEverywhere(Live(), k);
    }
    if k in Effective(Live() + Wanted()) {
      WholeEverywhere(Live() + Wanted(), k);
    }
  }

  /** A live registry and a fitting subscribe for which some failure of the link cannot be taken back,
      though the way back arrives whole. */
  lemma RollbackCanLose(d: Diff, back: Diff)
    requires Moves(d, Effective(Live()), Effective(Live() + Wanted()))
    requires Moves(back, Effective(Live() + Wanted()), Effective(Live()))
    ensures var prev, next := Effective(Live()), Effective(Live() + Wanted());
            |prev| == 3 && |next| == 2 && Plain(prev.Keys) && Plain(next.Keys) && !RollbackSafe(prev, next) &&
            exists i :: 0 <= i <= |d.frames| && BoxRun(BoxRun(prev, d.frames[..i]), back.frames) != prev
  {
    hide Effective, Live, Wanted, Moves, BoxRun;
    var prev, next := Effective(Live()), Effective(Live() + Wanted());
    forall k: Key
      ensures k in prev <==> k == OVER_ALL || k == BOTH_OVER_ALL || k == ONE_ID
      ensures k in next <==> k == BOTH_OVER_ALL || k == ONE_ID
      ensures k in prev ==> prev[k] == Whole
      ensures k in next ==> next[k] == Whole
    {
      LiveUnion(k);
    }
    assert prev.Keys == {OVER_ALL, BOTH_OVER_ALL, ONE_ID} && next.Keys == {BOTH_OVER_ALL, ONE_ID};
    assert ONE_ID in Kept(prev, next);
    RollbackSafeIsExact(prev, next, d, back);
  }

  // Where a sentinel id gets past the check

  /** The check of a subscription looks at its first exact address only. */
  predicate Refuses(filters: seq<Filter>) {
    filters != [] && if filters[0].key.at.Exact? then Reserved(filters[0].key) else Refuses(filters[1..])
  }

  ghost predicate ScreenedAt(filters: seq<Filter>, i: nat) {
    i < |filters| && filters[i].key.at.Exact? && Unreserved(filters[..i + 1])
  }

  /** An exact address that is not the sentinel stands before every one that is. */
  ghost predicate Screened(filters: seq<Filter>) {
    exists i :: ScreenedAt(filters, i)
  }

  /** The check lets a sentinel id through exactly behind an ordinary exact one. */
  lemma {:induction false} RefusesIff(filters: seq<Filter>)
    ensures Refuses(filters) <==> !Unreserved(filters) && !Screened(filters)
  {
    if filters != [] {
      var first, rest := filters[0], filters[1..];
      RefusesIff(rest);
      assert filters == [first] + rest;
      hide Screened, ScreenedAt;
      if first.key.at.Exact? {
        FirstDecides(first, rest);
      } else {
        ScreenedRest(first, rest);
      }
    }
  }

  lemma FirstDecides(first: Filter, rest: seq<Filter>)
    requires first.key.at.Exact?
    ensures Screened([first] + rest) <==> !Reserved(first.key)
  {
    var filters := [first] + rest;
    if Reserved(first.key) {
      forall i: nat ensures !ScreenedAt(filters, i) {
        if i < |filters| {
          assert filters[..i + 1][0] == first;
        }
      }
    } else {
      assert filters[..1] == [first];
      assert ScreenedAt(filters, 0);
    }
  }

  lemma ScreenedRest(first: Filter, rest: seq<Filter>)
    requires !first.key.at.Exact?
    ensures Screened([first] + rest) <==> Screened(rest)
  {
    var filters := [first] + rest;
    forall i: nat
      ensures ScreenedAt(filters, i + 1) <==> ScreenedAt(rest, i)
    {
      if i < |rest| {
        assert filters[..i + 2] == [first] + rest[..i + 1];
      }
    }
    assert !ScreenedAt(filters, 0);
    if i: nat :| ScreenedAt(filters, i) {
      assert ScreenedAt(rest, i - 1);
    }
    if i: nat :| ScreenedAt(rest, i) {
      assert ScreenedAt(filters, i + 1);
    }
  }

  /** One exact id, the sentinel of the same class, and the whole class. */
  ghost function BehindOne(cls: Class, id: Id): seq<Filter> {
    Wholes([Key(Exact(cls, id), Both), Key(Exact(cls, ID_ANY), Both), Key(ClassOf(cls), Both)])
  }

  lemma BehindOnePasses(cls: Class, id: Id)
    requires id != ID_ANY
    ensures !Refuses(BehindOne(cls, id)) && !Unreserved(BehindOne(cls, id))
  {
    var filters := BehindOne(cls, id);
    assert filters[0].key.at == Exact(cls, id);
    assert Reserved(filters[1].key);
  }

  lemma BehindOneKeys(cls: Class, id: Id)
    ensures KeysOf(BehindOne(cls, id)) ==
            {Key(Exact(cls, id), Both), Key(Exact(cls, ID_ANY), Both), Key(ClassOf(cls), Both)}
  {
    WholesKeys([Key(Exact(cls, id), Both), Key(Exact(cls, ID_ANY), Both), Key(ClassOf(cls), Both)]);
  }

  /** With no signed filter the union holds just the filters' own addresses. */
  lemma BothOnly(all: seq<Filter>)
    requires forall k :: k in KeysOf(all) ==> k.dir == Both
    ensures Effective(all).Keys <= KeysOf(all)
  {
    forall k | k in Effective(all) ensures k in KeysOf(all) {
      EffectiveKeys(all, k);
    }
  }

  lemma BehindOneFits(cls: Class, id: Id)
    ensures |Effective(BehindOne(cls, id))| <= 3
  {
    hide Effective, KeysOf, BehindOne;
    BehindOneKeys(cls, id);
    BothOnly(BehindOne(cls, id));
    SubsetSize(Effective(BehindOne(cls, id)).Keys, KeysOf(BehindOne(cls, id)));
  }

  /** That subscription is accepted whole and leaves the box with one entry for two of the registry. */
  lemma SentinelLeavesStep(r: Registry, cls: Class, id: Id, forward: Diff)
    requires InStep(r) && r.subs == [] && id != ID_ANY
    requires var call := Subscribe(BehindOne(cls, id), forward, |forward.frames|, NO_DIFF, 0); Legal(r, call)
    ensures var call := Subscribe(BehindOne(cls, id), forward, |forward.frames|, NO_DIFF, 0);
            !Refuses(call.filters) && Answer(r, call) == Ok(r.nextId) && !InStep(Step(r, call))
  {
    var call := Subscribe(BehindOne(cls, id), forward, |forward.frames|, NO_DIFF, 0);
    BehindOnePasses(cls, id);
    BehindOneFits(cls, id);
    AllGrown(r, call.filters);
    hide Effective, BehindOne, Moves, BoxRun, Refuses;
    assert All(r.subs) + call.filters == call.filters;
    CallInStep(r, call);
  }

  lemma DropNewest(subs: seq<Sub>, s: Sub)
    requires forall o :: o in subs ==> o.id != s.id
    ensures Without(subs + [s], s.id) == subs
  {
    WithoutAbsent(subs, s.id);
    assert (subs + [s])[..|subs|] == subs;
  }

  /** What a subscribe returns. */
  ghost function Answer(r: Registry, call: Call): Result<nat, Refusal>
    requires call.Subscribe?
  {
    var needed := |Union(Grown(r, call.filters))|;
    if needed > TABLE_MAX then Err(TableFull(needed))
    else if call.sent < |call.forward.frames| then Err(LinkDown)
    else Ok(r.nextId)
  }

  /** A subscribe over a link that holds is refused exactly when the box could not hold the union: the
      diff would leave it short. */
  lemma RefusalIsExact(r: Registry, filters: seq<Filter>, d: Diff)
    requires InStep(r) && Unreserved(filters) && Moves(d, Union(r.subs), Union(Grown(r, filters)))
    ensures var call := Subscribe(filters, d, |d.frames|, NO_DIFF, 0);
            Legal(r, call) && (Answer(r, call).Ok? <==> BoxRun(r.box, d.frames) == Union(Grown(r, filters)))
  {
    PlainUnion(All(r.subs));
    PlainUnion(All(Grown(r, filters)));
    AllGrown(r, filters);
    hide Moves, BoxRun, Effective, All, Unreserved, Plain;
    HeldIff(r.box, Union(Grown(r, filters)), d);
  }

  lemma HeldIff(prev: FilterSet, next: FilterSet, d: Diff)
    requires Moves(d, prev, next) && |prev| <= TABLE_MAX && Plain(prev.Keys) && Plain(next.Keys)
    ensures BoxRun(prev, d.frames) == next <==> |next| <= TABLE_MAX
  {
    BoxStaysBounded(prev, d.frames);
    hide Moves, BoxRun, Plain;
    if |next| <= TABLE_MAX {
      DiffReaches(prev, next, d);
    }
  }

  /** A subscriber that was told its id is registered under it, last, beside all the others, and the box
      serves it. */
  lemma AcceptedIsServed(r: Registry, call: Call, f: Filter, ev: Event)
    requires InStep(r) && Legal(r, call) && call.Subscribe? && Answer(r, call).Ok? && Unreserved(call.filters)
    requires f in call.filters && Matches(f.key, ev) && ev.dir != Both
    ensures var now := Step(r, call);
            now.subs == r.subs + [Sub(Answer(r, call).value, call.filters)] &&
            exists top :: IsTop(now.box, ev, top) && AtMost(f.capture, now.box[top])
  {
    hide Moves, BoxRun, Effective, All, IsTop, AtMost, Matches, Unreserved;
    CallInStep(r, call);
    var now := Step(r, call);
    assert now.subs[|r.subs|] == Sub(r.nextId, call.filters);
    SubscriberIsServed(now, Sub(r.nextId, call.filters), f, ev);
  }

  /** Who is left after an unsubscribe. */
  lemma UnsubscribedIsGone(r: Registry, call: Call)
    requires Legal(r, call) && call.Unsubscribe?
    ensures forall s :: s in Step(r, call).subs <==> s in r.subs && s.id != call.id
  {
    hide Moves, BoxRun, Effective, All;
    WithoutKeepsOthers(r.subs, call.id);
  }

  ghost predicate LegalRun(r: Registry, calls: seq<Call>)
    decreases |calls|
  {
    calls == [] || (Legal(r, calls[0]) && LegalRun(Step(r, calls[0]), calls[1..]))
  }

  ghost function StateAt(r: Registry, calls: seq<Call>, n: nat): Registry
    requires LegalRun(r, calls) && n <= |calls|
    decreases |calls|
  {
    if n == 0 then r else StateAt(Step(r, calls[0]), calls[1..], n - 1)
  }

  lemma IdsGrow(r: Registry, call: Call)
    requires Legal(r, call)
    ensures Step(r, call).nextId >= r.nextId && (call.Subscribe? ==> Step(r, call).nextId > r.nextId)
  {
    hide Moves, BoxRun, Effective, All;
  }

  lemma {:induction false} IdsGrowOn(r: Registry, calls: seq<Call>, n: nat)
    requires LegalRun(r, calls) && n <= |calls|
    ensures StateAt(r, calls, n).nextId >= r.nextId
    ensures n > 0 && calls[0].Subscribe? ==> StateAt(r, calls, n).nextId > r.nextId
    decreases n
  {
    hide Legal, Step;
    if n > 0 {
      IdsGrow(r, calls[0]);
      IdsGrowOn(Step(r, calls[0]), calls[1..], n - 1);
    }
  }

  lemma AnswerIsNext(r: Registry, call: Call)
    requires call.Subscribe? && Answer(r, call).Ok?
    ensures Answer(r, call).value == r.nextId
  {
    hide Effective, All;
  }

  /** Over any run of calls, whatever fails in it, no two subscribers are given one id. */
  lemma {:induction false} NoIdTwice(r: Registry, calls: seq<Call>, i: nat, j: nat)
    requires LegalRun(r, calls) && i < j < |calls| && calls[i].Subscribe? && calls[j].Subscribe?
    requires Answer(StateAt(r, calls, i), calls[i]).Ok? && Answer(StateAt(r, calls, j), calls[j]).Ok?
    ensures Answer(StateAt(r, calls, i), calls[i]).value != Answer(StateAt(r, calls, j), calls[j]).value
    decreases i
  {
    hide Legal, Step, Answer, Union;
    AnswerIsNext(StateAt(r, calls, i), calls[i]);
    AnswerIsNext(StateAt(r, calls, j), calls[j]);
    if i > 0 {
      NoIdTwice(Step(r, calls[0]), calls[1..], i - 1, j - 1);
    } else {
      IdsGrowOn(r, calls, j);
    }
  }

  lemma WholeRun(box: FilterSet, diff: Diff)
    ensures BoxRun(box, diff.frames[..|diff.frames|]) == BoxRun(box, diff.frames)
  {
    assert diff.frames[..|diff.frames|] == diff.frames;
  }

  lemma Refused(r: Registry, call: Call)
    requires call.Subscribe? && |Union(Grown(r, call.filters))| > TABLE_MAX
    ensures Legal(r, call) && Step(r, call) == r.(nextId := r.nextId + 1)
    ensures Answer(r, call) == Err(TableFull(|Union(Grown(r, call.filters))|))
  {
    hide Effective, All, Moves, BoxRun;
  }

  lemma Accepted(r: Registry, call: Call)
    requires call.Subscribe? && |Union(Grown(r, call.filters))| <= TABLE_MAX
    requires Moves(call.forward, Union(r.subs), Union(Grown(r, call.filters))) && call.sent == |call.forward.frames|
    ensures Legal(r, call) && Answer(r, call) == Ok(r.nextId)
    ensures Step(r, call) == Registry(Grown(r, call.filters), r.nextId + 1, Union(Grown(r, call.filters)),
                                      BoxRun(r.box, call.forward.frames))
  {
    hide Effective, All, Moves, BoxRun;
  }

  lemma Broken(r: Registry, call: Call)
    requires call.Subscribe? && |Union(Grown(r, call.filters))| <= TABLE_MAX
    requires Moves(call.forward, Union(r.subs), Union(Grown(r, call.filters))) && call.sent < |call.forward.frames|
    requires Moves(call.back, Union(Grown(r, call.filters)), Union(r.subs)) && call.sentBack <= |call.back.frames|
    ensures Legal(r, call) && Answer(r, call) == Err(LinkDown)
    ensures Step(r, call) == r.(nextId := r.nextId + 1, desired := Union(r.subs),
                                box := BoxRun(BoxRun(r.box, call.forward.frames[..call.sent]),
                                              call.back.frames[..call.sentBack]))
  {
    hide Effective, All, Moves, BoxRun;
  }

  /** The registry behind one link, and the box's table at the far end of it. */
  class Link {
    var subs: seq<Sub>
    var nextId: nat
    var desired: FilterSet
    var box: FilterSet

    ghost function State(): Registry
      reads this
    {
      Registry(subs, nextId, desired, box)
    }

    constructor ()
      ensures InStep(State()) && subs == []
    {
      EmptyUnion();
      subs, nextId, desired, box := [], 0, map[], map[];
    }

    method Effect() returns (table: FilterSet)
      ensures table == Union(subs)
    {
      table := EffectiveTable(All(subs));
    }

    /** Sends the diff frame by frame; the link carries `carries` frames and fails the next one. */
    method CatchSync(prev: FilterSet, next: FilterSet, carries: Option<nat>)
      returns (sent: bool, ghost diff: Diff, ghost count: nat)
      modifies `box
      ensures Moves(diff, prev, next) && count <= |diff.frames|
      ensures sent <==> count == |diff.frames|
      ensures carries.None? ==> sent
      ensures carries.Some? ==> count == if carries.value < |diff.frames| then carries.value else |diff.frames|
      ensures box == BoxRun(old(box), diff.frames[..count])
    {
      var frames;
      frames, diff := Sync(prev, next);
      var i := 0;
      assert frames[..0] == [];
      while i < |frames| && (carries.None? || i < carries.value)
        invariant i <= |frames| && (carries.Some? ==> i <= carries.value)
        invariant box == BoxRun(old(box), frames[..i])
        decreases |frames| - i
      {
        BoxRunStep(old(box), frames, i + 1);
        box := BoxTake(box, frames[i]);
        i := i + 1;
      }
      sent, count := i == |frames|, i;
    }

    method Retain(id: nat)
      modifies `subs
      ensures subs == Without(old(subs), id)
    {
      var kept, i := [], 0;
      assert subs[..0] == [];
      while i < |subs|
        invariant i <= |subs| && kept == Without(subs[..i], id)
      {
        assert subs[..i + 1][..i] == subs[..i];
        if subs[i].id != id {
          kept := kept + [subs[i]];
        }
        i := i + 1;
      }
      assert subs[..i] == subs;
      subs := kept;
    }

    method DetachSub(id: nat) returns (table: FilterSet)
      modifies `subs, `desired
      ensures subs == Without(old(subs), id)
      ensures table == desired == Union(subs)
    {
      Retain(id);
      table := Effect();
      desired := table;
    }

    /** Registers, refuses what the box could not hold, then widens the box to the new union. If the
        link fails part way the registration is undone and the box narrowed back, as far as the link
        then carries that. */
    method Subscribe(filters: seq<Filter>, carries: Option<nat>, carriesBack: Option<nat>)
      returns (res: Result<nat, Refusal>, ghost call: Call)
      requires Registered(State())
      modifies this
      ensures call.Subscribe? && call.filters == filters && Legal(old(State()), call)
      ensures State() == Step(old(State()), call) && Registered(State())
      ensures res == Answer(old(State()), call)
      ensures carries.None? ==> res != Err(LinkDown)
    {
      hide Effective, All, Moves, BoxRun;
      ghost var r := State();
      var id := nextId;
      var prev := Effect();
      nextId := nextId + 1;
      subs := subs + [Sub(id, filters)];
      var table := Effect();
      DropNewest(r.subs, Sub(id, filters));
      if |table| > TABLE_MAX {
        call := Call.Subscribe(filters, NO_DIFF, 0, NO_DIFF, 0);
        Retain(id);
        Refused(r, call);
        return Err(TableFull(|table|)), call;
      }
      desired := table;
      var sent;
      ghost var forward, count;
      sent, forward, count := CatchSync(prev, table, carries);
      if sent {
        WholeRun(r.box, forward);
        call := Call.Subscribe(filters, forward, count, NO_DIFF, 0);
        Accepted(r, call);
        return Ok(id), call;
      }
      var restored := DetachSub(id);
      ghost var back, countBack;
      sent, back, countBack := CatchSync(table, restored, carriesBack);
      call := Call.Subscribe(filters, forward, count, back, countBack);
      Broken(r, call);
      return Err(LinkDown), call;
    }

    /** Drops a subscription and moves the box to what remains, as far as the link carries that. */
    method Unsubscribe(id: nat, carries: Option<nat>) returns (ghost call: Call)
      modifies this
      ensures call.Unsubscribe? && call.id == id && Legal(old(State()), call)
      ensures carries.None? ==> call.sent == |call.diff.frames|
      ensures State() == Step(old(State()), call)
    {
      var prev := Effect();
      var table := DetachSub(id);
      var done;
      ghost var diff, count;
      done, diff, count := CatchSync(prev, table, carries);
      call := Call.Unsubscribe(id, diff, count);
    }

    /** The keepalive's turn: each entry of the desired table is sent again, and a frame that fails is
        skipped. */
    method ReAssert(lost: set<Key>) returns (ghost keys: seq<Key>)
      modifies `box
      ensures Elements(keys) == desired.Keys - lost && State() == Step(old(State()), Call.ReAssert(keys))
    {
      keys := [];
      var todo := desired.Keys;
      assert Again(desired, keys) == [];
      while todo != {}
        invariant todo <= desired.Keys && Elements(keys) == desired.Keys - lost - todo
        invariant box == BoxRun(old(box), Again(desired, keys))
        decreases todo
      {
        var k :| k in todo;
        todo := todo - {k};
        if k !in lost {
          AgainStep(old(box), desired, keys + [k]);
          assert (keys + [k])[..|keys|] == keys;
          assert Elements(keys + [k]) == Elements(keys) + {k};
          box := BoxTake(box, On(desired, k));
          keys := keys + [k];
        }
      }
    }

    /** Drops every subscription with one whole-table clear. */
    method Clear(arrives: bool)
      modifies this
      ensures State() == Step(old(State()), DisconnectAll(arrives))
    {
      subs, desired := [], map[];
      if arrives {
        box := BoxTake(box, CLEAR_ALL);
      }
    }
  }
}
