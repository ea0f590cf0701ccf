/** Rewrite rules: what the host accepts, the ledger it keeps, and the box's table at the other end. */
module RewriteTable {
  import opened Wrappers
  import opened KeyedList

  const MAX_ENTRIES := 32
  const POOL := 2048
  const MATCH_MAX := 16
  const MAX_PAYLOAD := 512
  const ENTRY_HEADER := 11
  const HEAD_REPORT := 64
  const HEAD_CONTROL := 8 + 2048
  const ID_ANY := 0xFFFF

  datatype Class = HidIn | HidOut | VendorInterrupt | VendorBulk | Control | Emit | Any
  datatype Direction = Both | Positive | Negative | With | Against
  datatype Action = Pass | Patch | Replace | Drop | Answer | Stall | Nak | ReplyPatch | ReplyReplace

  datatype RuleKey = RuleKey(cls: Class, id: int, dir: Direction, match_: seq<int>, mask: seq<int>)
  datatype Body = Body(action: Action, offset: nat, payload: seq<int>)
  type Rule = Entry<RuleKey, Body>

  datatype RuleError = MaskLength | MatchTooLong | RelativeDirection | ActionClass | PayloadTooLarge(cap: nat)
                     | PoolFull(len: nat, free: nat) | TableFull | FrameTooLong | LinkDown

  predicate ValidFor(a: Action, c: Class) {
    match a
    case Pass | Patch | Replace => true
    case Drop => c != Control && c != Any
    case _ => c == Control
  }

  function ReportCap(c: Class): nat {
    if c == Control then HEAD_CONTROL else HEAD_REPORT
  }

  /** Where the payload of an accepted rule may end, if its action carries one. */
  function HeadError(r: Rule): Option<RuleError> {
    var cap := ReportCap(r.key.cls);
    match r.value.action
    case Patch | ReplyPatch => if r.value.offset + |r.value.payload| > cap then Some(PayloadTooLarge(cap)) else None
    case Replace => if |r.value.payload| > cap then Some(PayloadTooLarge(cap)) else None
    case Answer | ReplyReplace => if |r.value.payload| > HEAD_CONTROL then Some(PayloadTooLarge(HEAD_CONTROL)) else None
    case _ => None
  }

  function Validate(r: Rule): Option<RuleError> {
    var m, n := |r.key.match_|, |r.value.payload|;
    if m != |r.key.mask| then Some(MaskLength)
    else if m > MATCH_MAX then Some(MatchTooLong)
    else if r.key.dir == With || r.key.dir == Against then Some(RelativeDirection)
    else if !ValidFor(r.value.action, r.key.cls) then Some(ActionClass)
    else if n > MAX_PAYLOAD - ENTRY_HEADER - 2 * m then Some(PayloadTooLarge(MAX_PAYLOAD - ENTRY_HEADER - 2 * m))
    else HeadError(r)
  }

  // The box

  /** Length of the command that carries the rule. */
  function FrameLength(k: RuleKey, payload: seq<int>): nat {
    9 + |k.match_| + |k.mask| + |payload|
  }

  /** The gate every rewrite command passes: its rule must fit the wider read-back reply. */
  predicate Framed(k: RuleKey, payload: seq<int>) {
    ENTRY_HEADER + FrameLength(k, payload) - 9 <= MAX_PAYLOAD
  }

  predicate BoxAdmits(r: Rule) {
    var head, n := if r.key.cls == Control then HEAD_CONTROL else HEAD_REPORT, |r.value.payload|;
    Framed(r.key, r.value.payload) && |r.key.match_| <= MATCH_MAX &&
    (r.key.dir == Both || r.key.dir == Positive || r.key.dir == Negative) &&
    (match r.value.action
     case Patch | ReplyPatch => r.value.offset + n <= head
     case Replace => n <= head
     case Answer | ReplyReplace => n <= HEAD_CONTROL
     case _ => true) &&
    (match r.value.action
     case Pass | Patch | Replace => true
     case Drop => r.key.cls != Control && r.key.cls != Any
     case Answer | Stall | Nak | ReplyPatch | ReplyReplace => r.key.cls == Control)
  }

  /** The host accepts exactly the rules the box would store. */
  lemma AcceptedIffAdmitted(r: Rule)
    requires |r.key.match_| == |r.key.mask|
    ensures Validate(r).None? <==> BoxAdmits(r)
  {
  }

  function Pool(l: seq<Rule>): nat {
    if l == [] then 0 else Pool(l[..|l| - 1]) + |l[|l| - 1].value.payload|
  }

  /** The payload against what the other rules leave of the pool, then the count for a new key. */
  predicate BoxHasRoom(box: seq<Rule>, r: Rule) {
    Pool(Retained(box, r.key)) + |r.value.payload| <= POOL && (Holds(box, r.key) || |box| < MAX_ENTRIES)
  }

  function BoxSet(box: seq<Rule>, r: Rule): seq<Rule> {
    if !BoxAdmits(r) || r in box || !BoxHasRoom(box, r) then box else SetLast(box, r)
  }

  /** Removing at the any-class, any-id address is byte for byte the whole-table clear. */
  predicate IsClearAddress(k: RuleKey) {
    k.cls == Any && k.id == ID_ANY
  }

  function BoxRemove(box: seq<Rule>, k: RuleKey): seq<Rule> {
    if !Framed(k, []) then box else if IsClearAddress(k) then [] else Without(box, k)
  }

  // The ledger

  ghost predicate Inv(l: seq<Rule>) {
    UniqueKeys(l) && |l| <= MAX_ENTRIES && Pool(l) <= POOL &&
    forall r :: r in l ==> |r.key.match_| == |r.key.mask| && BoxAdmits(r)
  }

  function Capacity(l: seq<Rule>, r: Rule): Option<RuleError> {
    var used := Pool(Retained(l, r.key));
    var free := if used < POOL then POOL - used else 0;
    if |r.value.payload| > free then Some(PoolFull(|r.value.payload|, free))
    else if !Holds(l, r.key) && |l| >= MAX_ENTRIES then Some(TableFull)
    else None
  }

  /** What a set call answers. */
  function SetAnswer(l: seq<Rule>, r: Rule, up: bool): Option<RuleError> {
    if Validate(r).Some? then Validate(r)
    else if Capacity(l, r).Some? then Capacity(l, r)
    else if !up then Some(LinkDown)
    else None
  }

  function RemoveAnswer(k: RuleKey, up: bool): Option<RuleError> {
    if |k.match_| != |k.mask| then Some(MaskLength)
    else if FrameLength(k, []) > MAX_PAYLOAD then Some(FrameTooLong)
    else if !up then Some(LinkDown)
    else None
  }

  lemma {:induction false} PoolInTurn(a: seq<Rule>, b: seq<Rule>)
    ensures Pool(a + b) == Pool(a) + Pool(b)
    decreases |b|
  {
    if b == [] {
      assert a + b == a;
    } else {
      assert (a + b)[..|a + b| - 1] == a + b[..|b| - 1];
      PoolInTurn(a, b[..|b| - 1]);
    }
  }

  lemma PoolOfOne(r: Rule)
    ensures Pool([r]) == |r.value.payload|
  {
    assert [r][..0] == [];
    assert Pool([]) == 0;
  }

  lemma PoolWithout(l: seq<Rule>, i: nat)
    requires i < |l|
    ensures Pool(l) == Pool(RemoveAt(l, i)) + |l[i].value.payload|
  {
    assert l == l[..i] + [l[i]] + l[i + 1..];
    PoolInTurn(l[..i] + [l[i]], l[i + 1..]);
    PoolInTurn(l[..i], [l[i]]);
    PoolOfOne(l[i]);
    PoolInTurn(l[..i], l[i + 1..]);
  }

  lemma RetainedShrinks(l: seq<Rule>, k: RuleKey)
    requires UniqueKeys(l)
    ensures Retained(l, k) == Without(l, k) && Pool(Retained(l, k)) <= Pool(l)
  {
    RetainedIsWithout(l, k);
    if Holds(l, k) {
      PoolWithout(l, Find(l, k));
    }
  }

  lemma SetHeldIff(l: seq<Rule>, r: Rule)
    requires UniqueKeys(l)
    ensures r in l <==> Holds(l, r.key) && l[Find(l, r.key)] == r
  {
    HoldsIff(l, r.key);
    if r in l {
      var i :| 0 <= i < |l| && l[i] == r;
      FindAt(l, i);
    }
  }

  lemma SetFits(l: seq<Rule>, r: Rule)
    requires UniqueKeys(l) && |l| <= MAX_ENTRIES && Pool(l) <= POOL && Capacity(l, r).None?
    ensures BoxHasRoom(l, r) && |SetLast(l, r)| <= MAX_ENTRIES && Pool(SetLast(l, r)) <= POOL
  {
    hide Pool, UniqueKeys, Retained;
    RetainedShrinks(l, r.key);
    PoolInTurn(Without(l, r.key), [r]);
    PoolOfOne(r);
  }

  /** The capacity check is the box's own, overwritten rule left out of the count on both sides; a refusal
      names the room there is: a payload that filled it would be taken. */
  lemma CapacityIff(l: seq<Rule>, r: Rule)
    requires Inv(l)
    ensures Capacity(l, r).None? <==> BoxHasRoom(l, r)
    ensures Capacity(l, r) == Some(TableFull) ==> |l| == MAX_ENTRIES && !Holds(l, r.key)
    ensures match Capacity(l, r)
            case Some(PoolFull(len, free)) =>
              len == |r.value.payload| > free &&
              forall other: Rule :: other.key == r.key && |other.value.payload| <= free && (Holds(l, r.key) || |l| < MAX_ENTRIES)
                ==> BoxHasRoom(l, other)
            case _ => true
  {
    RetainedShrinks(l, r.key);
    hide Pool, Retained, Inv, UniqueKeys;
  }

  /** The host refuses exactly the rules the box would drop: one that fits any frame and any table is
      let through, and one that is let through is in the box's table afterwards. */
  lemma RefusedIffDropped(l: seq<Rule>, r: Rule)
    requires Inv(l) && |r.key.match_| == |r.key.mask|
    ensures SetAnswer(l, r, true).None? <==> r in BoxSet(l, r)
  {
    AcceptedIffAdmitted(r);
    CapacityIff(l, r);
    SetHeldIff(l, r);
    hide BoxAdmits, Validate, Capacity, Pool, Retained, UniqueKeys, Find;
    if r in l {
      assert BoxAdmits(r);
      HeldHasRoom(l, r);
    } else if BoxAdmits(r) && BoxHasRoom(l, r) {
      assert SetLast(l, r) == Without(l, r.key) + [r];
      assert SetLast(l, r)[|Without(l, r.key)|] == r;
    }
  }

  lemma HeldHasRoom(l: seq<Rule>, r: Rule)
    requires Inv(l) && r in l
    ensures BoxHasRoom(l, r)
  {
    SetHeldIff(l, r);
    RetainedIsWithout(l, r.key);
    PoolWithout(l, Find(l, r.key));
    hide Pool, Retained;
  }

  /** A refusal names a limit that the rule breaks; a dead link is blamed for nothing else. */
  lemma RefusalIsTrue(l: seq<Rule>, r: Rule, up: bool)
    requires Inv(l) && SetAnswer(l, r, up).Some?
    ensures match SetAnswer(l, r, up).value
            case MaskLength => |r.key.match_| != |r.key.mask|
            case MatchTooLong => |r.key.match_| > 16
            case RelativeDirection => r.key.dir == With || r.key.dir == Against
            case ActionClass => !ValidFor(r.value.action, r.key.cls)
            case PayloadTooLarge(cap) => |r.value.payload| + (if r.value.action.Patch? || r.value.action.ReplyPatch? then r.value.offset else 0) > cap
            case PoolFull(len, free) => len == |r.value.payload| > free
            case TableFull => |l| == 32 && !Holds(l, r.key)
            case FrameTooLong => false
            case LinkDown => !up && SetAnswer(l, r, true).None?
  {
    CapacityIff(l, r);
    hide Pool, Retained, Inv, UniqueKeys;
  }

  /** Of a removal as well. */
  lemma RemovalRefusalIsTrue(k: RuleKey, up: bool)
    requires RemoveAnswer(k, up).Some?
    ensures match RemoveAnswer(k, up).value
            case MaskLength => |k.match_| != |k.mask|
            case FrameTooLong => 9 + |k.match_| + |k.mask| > 512
            case LinkDown => !up && RemoveAnswer(k, true).None?
            case _ => false
  {
  }

  /** A removal is refused only for a rule no table can hold, and what it removes is that rule alone. */
  lemma RemovalWorks(l: seq<Rule>, k: RuleKey)
    requires Inv(l) && Holds(l, k)
    ensures RemoveAnswer(k, true).None?
    ensures var left := LedgerStep(l, Remove(k, true));
            !Holds(left, k) && |left| == |l| - 1 && forall r :: r in l && r.key != k ==> r in left
  {
    HoldsIff(l, k);
    var i := Find(l, k);
    assert l[i] in l;
    WithoutKeeps(l, k);
    var left := Without(l, k);
    HoldsIff(left, k);
    forall r | r in l && r.key != k ensures r in left {
      var j :| 0 <= j < |l| && l[j] == r;
      assert left[if j < i then j else j - 1] == r;
    }
  }

  lemma SetAddsOnly(l: seq<Rule>, r: Rule)
    ensures forall x :: x in SetLast(l, r) ==> x in l || x == r
  {
  }

  /** A rule the host accepts the box takes too, and the table it makes keeps its bounds. */
  lemma SetKeepsInv(l: seq<Rule>, r: Rule)
    requires Inv(l) && Validate(r).None? && Capacity(l, r).None?
    ensures Inv(SetLast(l, r)) && BoxSet(l, r) == SetLast(l, r)
  {
    assert |r.key.match_| == |r.key.mask|;
    AcceptedIffAdmitted(r);
    hide BoxAdmits, Validate, Capacity, UniqueKeys, Pool, BoxHasRoom, Find;
    SetsKeepUnique(l, r);
    SetHeldIff(l, r);
    SetFits(l, r);
    SetAddsOnly(l, r);
  }

  lemma WithoutKeepsInv(l: seq<Rule>, k: RuleKey)
    requires Inv(l)
    ensures Inv(Without(l, k))
  {
    WithoutKeeps(l, k);
    RetainedShrinks(l, k);
  }

  // Runs

  datatype Call = Set(rule: Rule, up: bool) | Remove(key: RuleKey, up: bool) | Clear(up: bool)

  function LedgerStep(l: seq<Rule>, c: Call): seq<Rule> {
    match c
    case Set(r, up) => if SetAnswer(l, r, up).None? then SetLast(l, r) else l
    case Remove(k, up) => if RemoveAnswer(k, up).None? then Without(l, k) else l
    case Clear(up) => if up then [] else l
  }

  /** Only a call that succeeds has sent its frame. */
  function BoxStep(box: seq<Rule>, l: seq<Rule>, c: Call): seq<Rule> {
    match c
    case Set(r, up) => if SetAnswer(l, r, up).None? then BoxSet(box, r) else box
    case Remove(k, up) => if RemoveAnswer(k, up).None? then BoxRemove(box, k) else box
    case Clear(up) => if up then [] else box
  }

  /** The one call the two sides read differently: taking out a rule on the clear-all address while
      the ledger holds any other. */
  predicate Faithful(l: seq<Rule>, c: Call) {
    c.Remove? && RemoveAnswer(c.key, c.up).None? && IsClearAddress(c.key) && Framed(c.key, []) ==>
      Without(l, c.key) == []
  }

  lemma NotFramedNotHeld(l: seq<Rule>, k: RuleKey)
    requires Inv(l) && |k.match_| == |k.mask| && !Framed(k, [])
    ensures Without(l, k) == l
  {
    HoldsIff(l, k);
  }

  /** From a box in step, a call leaves the box's list equal to the ledger's, order included, exactly
      when it is faithful; the ledger keeps its bounds either way. */
  lemma CallAgrees(l: seq<Rule>, c: Call)
    requires Inv(l)
    ensures Inv(LedgerStep(l, c))
    ensures BoxStep(l, l, c) == LedgerStep(l, c) <==> Faithful(l, c)
  {
    match c {
      case Set(r, up) =>
        if SetAnswer(l, r, up).None? {
          SetKeepsInv(l, r);
        }
      case Remove(k, up) =>
        WithoutKeepsInv(l, k);
        if RemoveAnswer(k, up).None? && !Framed(k, []) {
          NotFramedNotHeld(l, k);
        }
      case Clear(_) =>
    }
  }

  function LedgerRun(l: seq<Rule>, calls: seq<Call>): seq<Rule>
    decreases |calls|
  {
    if calls == [] then l else LedgerRun(LedgerStep(l, calls[0]), calls[1..])
  }

  function BoxAfter(box: seq<Rule>, l: seq<Rule>, calls: seq<Call>): seq<Rule>
    decreases |calls|
  {
    if calls == [] then box else BoxAfter(BoxStep(box, l, calls[0]), LedgerStep(l, calls[0]), calls[1..])
  }

  ghost predicate FaithfulRun(l: seq<Rule>, calls: seq<Call>)
    decreases |calls|
  {
    calls == [] || (Faithful(l, calls[0]) && FaithfulRun(LedgerStep(l, calls[0]), calls[1..]))
  }

  /** Over any run of sets, removes and clears, refused or failed ones included, keys stay unique, the
      table within 32 rules and 2048 payload bytes, and the box's list equal to the ledger's. */
  lemma {:induction false} RunAgrees(l: seq<Rule>, calls: seq<Call>)
    requires Inv(l) && FaithfulRun(l, calls)
    ensures Inv(LedgerRun(l, calls)) && BoxAfter(l, l, calls) == LedgerRun(l, calls)
    decreases |calls|
  {
    if calls != [] {
      CallAgrees(l, calls[0]);
      RunAgrees(LedgerStep(l, calls[0]), calls[1..]);
    }
  }

  lemma TwoRules(a: Rule, b: Rule)
    requires a.key != b.key && BoxAdmits(a) && BoxAdmits(b) && Pool([a]) + Pool([b]) <= POOL
    requires |a.key.match_| == |a.key.mask| && |b.key.match_| == |b.key.mask|
    ensures Inv([a, b]) && Without([a, b], b.key) == [a]
  {
    PoolInTurn([a], [b]);
    assert [a] + [b] == [a, b];
    FindAt([a, b], 1);
  }

  /** Two plain pass rules; taking the wildcard one out empties the box and leaves the ledger one. */
  lemma ClearAddressDiverges()
    ensures var any, one := RuleKey(Any, ID_ANY, Both, [], []), RuleKey(HidIn, 1, Both, [], []);
            var a, b := Entry(one, Body(Pass, 0, [])), Entry(any, Body(Pass, 0, []));
            Inv([a, b]) && !Faithful([a, b], Remove(any, true)) &&
            LedgerStep([a, b], Remove(any, true)) == [a] && BoxStep([a, b], [a, b], Remove(any, true)) == []
  {
    var any, one := RuleKey(Any, ID_ANY, Both, [], []), RuleKey(HidIn, 1, Both, [], []);
    var a, b := Entry(one, Body(Pass, 0, [])), Entry(any, Body(Pass, 0, []));
    PoolOfOne(a);
    PoolOfOne(b);
    TwoRules(a, b);
  }

  // The replay

  function BoxReplay(box: seq<Rule>, l: seq<Rule>): seq<Rule> {
    if l == [] then box else BoxSet(BoxReplay(box, l[..|l| - 1]), l[|l| - 1])
  }

  /** Rules that are all in `l`, each once, take no more room than `l`. */
  lemma {:induction false} PartIsSmaller(part: seq<Rule>, l: seq<Rule>)
    requires UniqueKeys(part) && forall r :: r in part ==> r in l
    ensures |part| <= |l| && Pool(part) <= Pool(l)
  {
    if part != [] {
      var rest, r := part[..|part| - 1], part[|part| - 1];
      assert r in part;
      var i :| 0 <= i < |l| && l[i] == r;
      forall x | x in rest ensures x in RemoveAt(l, i) {
        assert x in part;
        var j :| 0 <= j < |l| && l[j] == x;
        assert j != i;
        assert RemoveAt(l, i)[if j < i then j else j - 1] == x;
      }
      PartIsSmaller(rest, RemoveAt(l, i));
      PoolWithout(l, i);
    }
  }

  lemma PartTakes(part: seq<Rule>, l: seq<Rule>, r: Rule)
    requires Inv(l) && UniqueKeys(part) && r in l && forall x :: x in part ==> x in l
    ensures BoxSet(part, r) == SetLast(part, r)
  {
    hide BoxAdmits, Pool, UniqueKeys, Retained;
    RetainedShrinks(part, r.key);
    SetHeldIff(part, r);
    SetsKeepUnique(part, r);
    if r !in part {
      SetAddsOnly(part, r);
      PartIsSmaller(SetLast(part, r), l);
      PoolInTurn(Without(part, r.key), [r]);
      PoolOfOne(r);
    }
  }

  lemma {:induction false} BoxReplayIsReplay(part: seq<Rule>, l: seq<Rule>, n: nat)
    requires Inv(l) && UniqueKeys(part) && n <= |l| && forall r :: r in part ==> r in l
    ensures BoxReplay(part, l[..n]) == ReplayLast(part, l[..n])
    ensures forall r :: r in ReplayLast(part, l[..n]) ==> r in l
    decreases n
  {
    if n > 0 {
      assert l[..n][..n - 1] == l[..n - 1];
      BoxReplayIsReplay(part, l, n - 1);
      ReplayLastUnique(part, l[..n - 1]);
      PartTakes(ReplayLast(part, l[..n - 1]), l, l[n - 1]);
      SetAddsOnly(ReplayLast(part, l[..n - 1]), l[n - 1]);
    }
  }

  /** The re-assert onto a box holding some of the rules makes it hold them all, in order, exactly when
      those were the first ones. */
  lemma ReplayOntoPart(part: seq<Rule>, l: seq<Rule>)
    requires Inv(l) && UniqueKeys(part) && forall r :: r in part ==> r in l
    ensures BoxReplay(part, l) == l <==> part <= l
  {
    BoxReplayIsReplay(part, l, |l|);
    assert l[..|l|] == l;
    ReplayLastOntoPart(part, l);
  }

  /** Of every table of two rules: a box that kept only the second ends with the two swapped. */
  lemma SecondComesFirst(a: Rule, b: Rule)
    requires Inv([a, b])
    ensures a.key != b.key && BoxReplay([b], [a, b]) == [b, a]
  {
    var l := [a, b];
    assert l[0].key != l[1].key;
    BoxReplayIsReplay([b], l, 1);
    assert l[..1] == [a] && l[..1][..0] == [];
    assert ReplayLast([b], [a]) == [b, a];
    assert l[..|l| - 1] == [a];
    assert BoxSet([b, a], b) == [b, a];
  }

  lemma OnEmpty(r: Rule)
    requires BoxAdmits(r) && |r.value.payload| <= POOL
    ensures BoxSet([], r) == [r]
  {
    assert Pool([]) == 0;
    assert Retained<RuleKey, Body>([], r.key) == [];
  }

  lemma SetIsLast(l: seq<Rule>, r: Rule)
    requires UniqueKeys(l) && r !in l
    ensures SetLast(l, r) == Without(l, r.key) + [r]
  {
  }

  /** A rule set on a box that has been emptied, ahead of the re-assert, keeps its place in front: the
      box ends in the ledger's order exactly when the rule is the ledger's first too. */
  lemma SetBeforeReplay(l: seq<Rule>, r: Rule)
    requires Inv(l) && SetAnswer(l, r, true).None?
    ensures BoxReplay(BoxSet([], r), SetLast(l, r)) == SetLast(l, r) <==> [r] <= SetLast(l, r)
  {
    SetKeepsInv(l, r);
    SetTakes(l, r);
    OnEmpty(r);
    assert UniqueKeys([r]);
    hide BoxReplay, BoxSet, SetLast, Inv;
    ReplayOntoPart([r], SetLast(l, r));
  }

  lemma SetTakes(l: seq<Rule>, r: Rule)
    requires Inv(l) && SetAnswer(l, r, true).None?
    ensures r in SetLast(l, r) && BoxAdmits(r) && |r.value.payload| <= POOL
  {
    AcceptedIffAdmitted(r);
    hide BoxAdmits, Pool;
    if Holds(l, r.key) && l[Find(l, r.key)] == r {
      assert r in l;
    } else {
      assert (Without(l, r.key) + [r])[|Without(l, r.key)|] == r;
    }
  }

  /** Of a rule that is new, or changes the one under its key: only where the ledger holds no other. */
  lemma NewRuleBeforeReplay(l: seq<Rule>, r: Rule)
    requires Inv(l) && SetAnswer(l, r, true).None? && r !in l
    ensures BoxReplay(BoxSet([], r), SetLast(l, r)) == SetLast(l, r) <==> Without(l, r.key) == []
  {
    SetBeforeReplay(l, r);
    SetKeepsInv(l, r);
    SetIsLast(l, r);
    hide BoxReplay, BoxSet, SetLast, Without;
    FrontIff(Without(l, r.key), r);
  }

  lemma FrontIff(rest: seq<Rule>, r: Rule)
    requires UniqueKeys(rest + [r])
    ensures [r] <= rest + [r] <==> rest == []
  {
    if rest != [] {
      assert (rest + [r])[0] == rest[0] && (rest + [r])[|rest|] == r;
    }
  }

  // The desired state in place

  datatype Undo = Undo(key: RuleKey, prior: Option<(nat, Rule)>)

  class DesiredRewrites {
    var rules: seq<Rule>

    constructor ()
      ensures rules == [] && Inv(rules)
    {
      rules := [];
    }

    method ApplyRewrite(r: Rule) returns (undo: Undo)
      modifies this
      ensures rules == SetLast(old(rules), r)
      ensures undo == Undo(r.key, PriorOf(old(rules), r.key))
    {
      undo := Undo(r.key, PriorOf(rules, r.key));
      var i := Find(rules, r.key);
      if i < |rules| {
        if rules[i] == r {
          return;
        }
        rules := rules[..i] + rules[i + 1..];
      }
      rules := rules + [r];
    }

    method ForgetRewrite(k: RuleKey) returns (undo: Undo)
      modifies this
      ensures rules == Without(old(rules), k)
      ensures undo == Undo(k, PriorOf(old(rules), k))
    {
      undo := Undo(k, PriorOf(rules, k));
      var i := Find(rules, k);
      if i < |rules| {
        rules := rules[..i] + rules[i + 1..];
      }
    }

    method RestoreRewrite(undo: Undo)
      modifies this
      ensures rules == RestoredLast(old(rules), undo.key, undo.prior)
    {
      rules := Retained(rules, undo.key);
      if undo.prior.Some? {
        var (i, r) := undo.prior.value;
        var at := if i < |rules| then i else |rules|;
        rules := rules[..at] + [r] + rules[at..];
      }
    }

    /** Validates, checks the capacity, records, sends; a frame that never left is taken back. */
    method SetRewrite(r: Rule, up: bool) returns (error: Option<RuleError>)
      requires UniqueKeys(rules)
      modifies this
      ensures error == SetAnswer(old(rules), r, up)
      ensures rules == LedgerStep(old(rules), Set(r, up))
    {
      error := Validate(r);
      if error.None? {
        error := Capacity(rules, r);
        if error.None? {
          UndoLast(rules, r);
          var undo := ApplyRewrite(r);
          if !up {
            RestoreRewrite(undo);
            error := Some(LinkDown);
          }
        }
      }
    }

    method RemoveRewrite(r: Rule, up: bool) returns (error: Option<RuleError>)
      requires UniqueKeys(rules)
      modifies this
      ensures error == RemoveAnswer(r.key, up)
      ensures rules == LedgerStep(old(rules), Remove(r.key, up))
    {
      if |r.key.match_| != |r.key.mask| {
        return Some(MaskLength);
      }
      UndoLast(rules, r);
      var undo := ForgetRewrite(r.key);
      error := if FrameLength(r.key, []) > MAX_PAYLOAD then Some(FrameTooLong) else if up then None else Some(LinkDown);
      if error.Some? {
        RestoreRewrite(undo);
      }
    }

    /** A clear that never left puts every rule back, one by one, in the order it was held. */
    method ClearRewrite(up: bool) returns (error: Option<RuleError>)
      requires UniqueKeys(rules)
      modifies this
      ensures error == if up then None else Some(LinkDown)
      ensures rules == LedgerStep(old(rules), Clear(up))
    {
      var held := rules;
      rules := [];
      if up {
        return None;
      }
      var i := 0;
      while i < |held|
        invariant i <= |held| && rules == held[..i]
      {
        assert !Holds(held[..i], held[i].key) by {
          HoldsIff(held[..i], held[i].key);
        }
        assert held[..i + 1] == held[..i] + [held[i]];
        var undo := ApplyRewrite(held[i]);
        i := i + 1;
      }
      return Some(LinkDown);
    }
  }
}
