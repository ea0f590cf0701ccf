/** Matching replies to the queries that wait for them, by an eight-bit sequence number that wraps. */
module Correlation {
  import opened Wrappers
  import opened Finite

  const HELLO_SEQ := 0
  const SEQ_MOD := 256

  datatype ReplyType = Response | TransferResponse

  /** One query on its way: its generation, and the reply it waits for. */
  datatype Waiter = Waiter(gen: nat, ty: ReplyType, what: int)

  datatype Delivery = Delivery(gen: nat, ty: ReplyType, seqNo: int, payload: seq<int>)

  type Waiting = map<int, Waiter>

  predicate IsFree(pending: Waiting, seqNo: int) {
    seqNo != HELLO_SEQ && seqNo !in pending
  }

  function Up(seqNo: int): int {
    (seqNo + 1) % SEQ_MOD
  }

  /** The first free number from `at` on, or the one `n` further if none of those is free. */
  function Search(pending: Waiting, at: int, n: nat): int
    decreases n
  {
    if n == 0 || IsFree(pending, at) then at else Search(pending, Up(at), n - 1)
  }

  /** The number a query is given: never the hello's. */
  function Chosen(pending: Waiting, counter: int): int {
    var found := Search(pending, counter, SEQ_MOD);
    if found == HELLO_SEQ then Up(found) else found
  }

  predicate Accepts(w: Waiter, ty: ReplyType, payload: seq<int>) {
    w.ty == ty && payload != [] && payload[0] == w.what
  }

  /** The waiters, the next generation, the shared counter, and every payload a waiter was handed. */
  datatype State = State(pending: Waiting, nextGen: nat, counter: int, log: seq<Delivery>)

  function Cancelled(pending: Waiting, seqNo: int, gen: nat): Waiting {
    if seqNo in pending && pending[seqNo].gen == gen then pending - {seqNo} else pending
  }

  function Delivered(s: State, ty: ReplyType, seqNo: int, payload: seq<int>): State {
    if seqNo in s.pending && Accepts(s.pending[seqNo], ty, payload) then
      s.(pending := s.pending - {seqNo}, log := s.log + [Delivery(s.pending[seqNo].gen, ty, seqNo, payload)])
    else s
  }

  class Table {
    var pending: Waiting
    var nextGen: nat
    var counter: int
    ghost var log: seq<Delivery>

    ghost function View(): State
      reads this
    {
      State(pending, nextGen, counter, log)
    }

    ghost predicate Valid()
      reads this
    {
      0 <= counter < SEQ_MOD
    }

    constructor ()
      ensures View() == State(map[], 0, 0, []) && Valid()
    {
      pending, nextGen, counter, log := map[], 0, 0, [];
    }

    method NextSeq() returns (seqNo: int)
      requires Valid()
      modifies `counter
      ensures Valid() && seqNo == old(counter) && counter == Up(old(counter))
    {
      seqNo := counter;
      counter := (counter + 1) % SEQ_MOD;
    }

    /** Takes a free number for a reply to wait on. */
    method Register(ty: ReplyType, what: int) returns (seqNo: int, gen: nat)
      requires Valid()
      modifies this
      ensures Valid() && seqNo == Chosen(old(pending), old(counter)) && gen == old(nextGen)
      ensures pending == old(pending)[seqNo := Waiter(gen, ty, what)] && nextGen == gen + 1
      ensures counter == Up(seqNo) && log == old(log)
    {
      gen := nextGen;
      nextGen := nextGen + 1;
      seqNo := NextSeq();
      var tries := 0;
      while tries < 256 && !IsFree(pending, seqNo)
        invariant tries <= 256 && Valid() && 0 <= seqNo < SEQ_MOD && counter == Up(seqNo)
        invariant Search(pending, seqNo, 256 - tries) == Search(old(pending), old(counter), 256)
        invariant pending == old(pending) && nextGen == gen + 1 && log == old(log)
      {
        seqNo := NextSeq();
        tries := tries + 1;
      }
      if seqNo == HELLO_SEQ {
        seqNo := NextSeq();
      }
      pending := pending[seqNo := Waiter(gen, ty, what)];
    }

    method Cancel(seqNo: int, gen: nat)
      modifies `pending
      ensures pending == Cancelled(old(pending), seqNo, gen)
    {
      if seqNo in pending && pending[seqNo].gen == gen {
        pending := pending - {seqNo};
      }
    }

    method Deliver(ty: ReplyType, seqNo: int, payload: seq<int>)
      modifies `pending, `log
      ensures View() == Delivered(old(View()), ty, seqNo, payload)
    {
      if seqNo in pending && Accepts(pending[seqNo], ty, payload) {
        log := log + [Delivery(pending[seqNo].gen, ty, seqNo, payload)];
        pending := pending - {seqNo};
      }
    }
  }

  // The number a query gets

  function Numbers(n: nat): set<int> {
    if n == 0 then {} else Numbers(n - 1) + {n}
  }

  /** The numbers a reply may wait on. */
  function Usable(): set<int> {
    Numbers(SEQ_MOD - 1)
  }

  lemma {:induction false} NumbersAre(n: nat, k: int)
    ensures k in Numbers(n) <==> 1 <= k <= n
  {
    if n > 0 {
      NumbersAre(n - 1, k);
    }
  }

  lemma {:induction false} NumbersCount(n: nat)
    ensures |Numbers(n)| == n
  {
    if n > 0 {
      NumbersCount(n - 1);
      NumbersAre(n - 1, n);
    }
  }

  lemma UsableIs(k: int)
    ensures k in Usable() <==> 1 <= k < SEQ_MOD
  {
    hide Numbers;
    NumbersAre(SEQ_MOD - 1, k);
  }

  lemma UsableCount()
    ensures |Usable()| == SEQ_MOD - 1
  {
    hide Numbers;
    NumbersCount(SEQ_MOD - 1);
  }

  /** A search that finds nothing has seen every number it passed taken. */
  lemma {:induction false} SearchPasses(pending: Waiting, at: int, n: nat, i: nat)
    requires 0 <= at < SEQ_MOD && i < n && !IsFree(pending, Search(pending, at, n))
    ensures !IsFree(pending, (at + i) % SEQ_MOD)
    decreases n
  {
    if i > 0 {
      SearchPasses(pending, Up(at), n - 1, i - 1);
      assert (Up(at) + (i - 1)) % SEQ_MOD == (at + i) % SEQ_MOD;
    }
  }

  lemma Reached(at: int, k: int)
    requires 0 <= at < SEQ_MOD && 0 <= k < SEQ_MOD
    ensures var i := (k - at) % SEQ_MOD; 0 <= i < SEQ_MOD && (at + i) % SEQ_MOD == k
  {
  }

  lemma {:induction false} SearchInRange(pending: Waiting, at: int, n: nat)
    requires 0 <= at < SEQ_MOD
    ensures 0 <= Search(pending, at, n) < SEQ_MOD
    decreases n
  {
    if n > 0 && !IsFree(pending, at) {
      SearchInRange(pending, Up(at), n - 1);
    }
  }

  /** The number `i` places on from `at`, going round. */
  function Nth(at: int, i: nat): int {
    (at + i) % SEQ_MOD
  }

  lemma NthOn(at: int, i: nat)
    requires 0 <= at < SEQ_MOD
    ensures Nth(at, 0) == at && Nth(Up(at), i) == Nth(at, i + 1)
  {
  }

  /** The search takes the first free number from where it starts, going round. */
  lemma {:induction false} SearchIsFirst(pending: Waiting, at: int, n: nat) returns (d: nat)
    requires 0 <= at < SEQ_MOD
    ensures d <= n && Search(pending, at, n) == Nth(at, d)
    ensures forall i: nat :: i < d ==> !IsFree(pending, Nth(at, i))
    ensures d < n ==> IsFree(pending, Nth(at, d))
    decreases n
  {
    NthOn(at, 0);
    if n == 0 || IsFree(pending, at) {
      d := 0;
    } else {
      d := SearchIsFirst(pending, Up(at), n - 1);
      NthOn(at, d);
      hide Nth, IsFree;
      forall i: nat | i < d + 1 ensures !IsFree(pending, Nth(at, i)) {
        if i > 0 {
          NthOn(at, i - 1);
        }
      }
      d := d + 1;
    }
  }

  /** A query never waits on the hello's number, and its number is fresh exactly when fewer than 255
      replies are awaited, wherever the counter stands. */
  lemma FreshIff(pending: Waiting, counter: int)
    requires 0 <= counter < SEQ_MOD && pending.Keys <= Usable()
    ensures Chosen(pending, counter) in Usable()
    ensures Chosen(pending, counter) !in pending <==> |pending| < SEQ_MOD - 1
  {
    hide Numbers, Usable, Search;
    var found := Search(pending, counter, SEQ_MOD);
    SearchInRange(pending, counter, SEQ_MOD);
    UsableCount();
    SubsetSize(pending.Keys, Usable());
    UsableIs(found);
    UsableIs(Up(found));
    if !IsFree(pending, found) {
      forall k | k in Usable() ensures k in pending {
        UsableIs(k);
        Reached(counter, k);
        SearchPasses(pending, counter, SEQ_MOD, (k - counter) % SEQ_MOD);
      }
      assert pending.Keys == Usable();
    }
  }

  // Runs

  /** `Spend` is any other frame on the link: it takes the next number of the shared counter. */
  datatype Event =
    | Spend
    | Ask(ty: ReplyType, what: int)
    | GiveUp(seqNo: int, gen: nat)
    | Arrive(ty: ReplyType, seqNo: int, payload: seq<int>)

  function Next(s: State, e: Event): State {
    match e
    case Spend => s.(counter := Up(s.counter))
    case Ask(ty, what) =>
      var seqNo := Chosen(s.pending, s.counter);
      s.(pending := s.pending[seqNo := Waiter(s.nextGen, ty, what)], nextGen := s.nextGen + 1, counter := Up(seqNo))
    case GiveUp(seqNo, gen) => s.(pending := Cancelled(s.pending, seqNo, gen))
    case Arrive(ty, seqNo, payload) => Delivered(s, ty, seqNo, payload)
  }

  function After(s: State, run: seq<Event>): State {
    if run == [] then s else Next(After(s, run[..|run| - 1]), run[|run| - 1])
  }

  const START := State(map[], 0, 0, [])

  /** What a query asked for and the number it was given, if the run's event `i` is one. */
  ghost predicate Asked(run: seq<Event>, i: nat, gen: nat, seqNo: int, ty: ReplyType, what: int)
    requires i < |run|
  {
    var s := After(START, run[..i]);
    run[i] == Ask(ty, what) && gen == s.nextGen && seqNo == Chosen(s.pending, s.counter)
  }

  ghost predicate AskedBefore(run: seq<Event>, gen: nat, seqNo: int, ty: ReplyType, what: int) {
    exists i :: 0 <= i < |run| && Asked(run, i, gen, seqNo, ty, what)
  }

  ghost predicate GenerationsDistinct(s: State) {
    (forall k :: k in s.pending ==> s.pending[k].gen < s.nextGen) &&
    (forall j, k :: j in s.pending && k in s.pending && j != k ==> s.pending[j].gen != s.pending[k].gen) &&
    (forall i :: 0 <= i < |s.log| ==> s.log[i].gen < s.nextGen) &&
    (forall i, k :: 0 <= i < |s.log| && k in s.pending ==> s.log[i].gen != s.pending[k].gen) &&
    (forall i, j :: 0 <= i < j < |s.log| ==> s.log[i].gen != s.log[j].gen)
  }

  ghost predicate Inv(s: State, run: seq<Event>) {
    0 <= s.counter < SEQ_MOD && s.pending.Keys <= Usable() && GenerationsDistinct(s) && AllAsked(s, run)
  }

  lemma AskedStill(run: seq<Event>, e: Event, gen: nat, seqNo: int, ty: ReplyType, what: int)
    requires AskedBefore(run, gen, seqNo, ty, what)
    ensures AskedBefore(run + [e], gen, seqNo, ty, what)
  {
    var i :| 0 <= i < |run| && Asked(run, i, gen, seqNo, ty, what);
    assert (run + [e])[..i] == run[..i];
    assert Asked(run + [e], i, gen, seqNo, ty, what);
  }

  lemma AskedNow(run: seq<Event>, ty: ReplyType, what: int)
    ensures var s := After(START, run);
            AskedBefore(run + [Ask(ty, what)], s.nextGen, Chosen(s.pending, s.counter), ty, what)
  {
    var s := After(START, run);
    assert (run + [Ask(ty, what)])[..|run|] == run;
    assert Asked(run + [Ask(ty, what)], |run|, s.nextGen, Chosen(s.pending, s.counter), ty, what);
  }

  lemma StepKeepsDistinct(s: State, e: Event)
    requires GenerationsDistinct(s)
    ensures GenerationsDistinct(Next(s, e))
  {
    hide Chosen;
  }

  ghost predicate WaiterAsked(run: seq<Event>, seqNo: int, w: Waiter) {
    AskedBefore(run, w.gen, seqNo, w.ty, w.what)
  }

  /** The payload is of the type, number and selector its waiter asked for. */
  ghost predicate DeliveryAsked(run: seq<Event>, d: Delivery) {
    d.payload != [] && AskedBefore(run, d.gen, d.seqNo, d.ty, d.payload[0])
  }

  ghost predicate AllAsked(s: State, run: seq<Event>) {
    (forall k :: k in s.pending ==> WaiterAsked(run, k, s.pending[k])) &&
    (forall i :: 0 <= i < |s.log| ==> DeliveryAsked(run, s.log[i]))
  }

  lemma AllAskedStill(s: State, run: seq<Event>, e: Event)
    requires AllAsked(s, run)
    ensures AllAsked(s, run + [e])
  {
    forall k | k in s.pending ensures WaiterAsked(run + [e], k, s.pending[k]) {
      assert WaiterAsked(run, k, s.pending[k]);
      AskedStill(run, e, s.pending[k].gen, k, s.pending[k].ty, s.pending[k].what);
    }
    forall i | 0 <= i < |s.log| ensures DeliveryAsked(run + [e], s.log[i]) {
      assert DeliveryAsked(run, s.log[i]);
      AskedStill(run, e, s.log[i].gen, s.log[i].seqNo, s.log[i].ty, s.log[i].payload[0]);
    }
    hide AskedBefore;
  }

  lemma StepKeepsAsked(s: State, run: seq<Event>, e: Event)
    requires s == After(START, run) && AllAsked(s, run)
    ensures AllAsked(Next(s, e), run + [e])
  {
    hide After, AskedBefore, Chosen;
    AllAskedStill(s, run, e);
    match e {
      case Spend =>
      case Ask(ty, what) =>
        AskedNow(run, ty, what);
      case GiveUp(_, _) =>
      case Arrive(ty, seqNo, payload) =>
        if seqNo in s.pending && Accepts(s.pending[seqNo], ty, payload) {
          assert WaiterAsked(run + [e], seqNo, s.pending[seqNo]);
          assert DeliveryAsked(run + [e], Delivery(s.pending[seqNo].gen, ty, seqNo, payload));
        }
    }
  }

  lemma StepKeepsInv(s: State, run: seq<Event>, e: Event)
    requires s == After(START, run) && Inv(s, run)
    ensures Inv(Next(s, e), run + [e])
  {
    StepKeepsDistinct(s, e);
    StepKeepsAsked(s, run, e);
    FreshIff(s.pending, s.counter);
    hide AllAsked, GenerationsDistinct, Chosen, After, Usable, Numbers;
  }

  lemma {:induction false} RunKeepsInv(run: seq<Event>)
    ensures Inv(After(START, run), run)
  {
    if run != [] {
      RunKeepsInv(run[..|run| - 1]);
      StepKeepsInv(After(START, run[..|run| - 1]), run[..|run| - 1], run[|run| - 1]);
      assert run == run[..|run| - 1] + [run[|run| - 1]];
    }
  }

  /** Over any run of queries, other sends, time-outs and replies, in any order, a waiter is handed at most one
      payload, and only one of its own type, number and selector. */
  lemma OneReplyEach(run: seq<Event>)
    ensures var log := After(START, run).log;
            (forall i, j :: 0 <= i < j < |log| ==> log[i].gen != log[j].gen) &&
            forall i :: 0 <= i < |log| ==> DeliveryAsked(run, log[i])
  {
    RunKeepsInv(run);
  }

  /** Event `i` of the run may take the waiter of `gen` off `seqNo` unanswered: its own query gives up, or
      the number is given again. */
  ghost predicate Ends(run: seq<Event>, i: nat, seqNo: int, gen: nat)
    requires i < |run|
  {
    run[i] == GiveUp(seqNo, gen) || (run[i].Ask? && Chosen(After(START, run[..i]).pending, After(START, run[..i]).counter) == seqNo)
  }

  /** A payload of the awaited type and selector on an awaited number is handed to its waiter, which is
      then done; nobody else's waiting is touched. Any other payload changes nothing. */
  lemma ArrivalIsHandedOver(s: State, ty: ReplyType, seqNo: int, payload: seq<int>)
    ensures var now := Next(s, Arrive(ty, seqNo, payload));
            if seqNo in s.pending && s.pending[seqNo].ty == ty && 0 < |payload| && payload[0] == s.pending[seqNo].what then
              now == State(s.pending - {seqNo}, s.nextGen, s.counter,
                           s.log + [Delivery(s.pending[seqNo].gen, ty, seqNo, payload)])
            else now == s
  {
  }

  ghost predicate Logged(s: State, gen: nat) {
    exists i :: 0 <= i < |s.log| && s.log[i].gen == gen
  }

  lemma StillLogged(s: State, e: Event, gen: nat)
    requires Logged(s, gen)
    ensures Logged(Next(s, e), gen)
  {
    var i :| 0 <= i < |s.log| && s.log[i].gen == gen;
    assert Next(s, e).log[i].gen == gen;
    hide Chosen;
  }

  /** The waiter stands under its number, or has been answered. */
  ghost predicate AwaitedOrLogged(s: State, seqNo: int, w: Waiter) {
    (seqNo in s.pending && s.pending[seqNo] == w) || Logged(s, w.gen)
  }

  lemma StaysAwaited(s: State, e: Event, seqNo: int, w: Waiter)
    requires AwaitedOrLogged(s, seqNo, w) && e != GiveUp(seqNo, w.gen)
    requires e.Ask? ==> Chosen(s.pending, s.counter) != seqNo
    ensures AwaitedOrLogged(Next(s, e), seqNo, w)
    ensures e.Arrive? && e.seqNo == seqNo && e.ty == w.ty && 0 < |e.payload| && e.payload[0] == w.what ==>
              Logged(Next(s, e), w.gen)
  {
    hide Chosen;
    if Logged(s, w.gen) {
      StillLogged(s, e, w.gen);
    } else if e.Arrive? && e.seqNo == seqNo {
      ArrivalIsHandedOver(s, e.ty, seqNo, e.payload);
      var now := Next(s, e);
      if now != s {
        assert now.log[|s.log|].gen == w.gen;
      }
    }
  }

  lemma {:induction false} AwaitedUntil(run: seq<Event>, i: nat, n: nat, seqNo: int, gen: nat, ty: ReplyType, what: int)
    requires i < n <= |run| && Asked(run, i, gen, seqNo, ty, what)
    requires forall k :: i < k < n ==> !Ends(run, k, seqNo, gen)
    ensures AwaitedOrLogged(After(START, run[..n]), seqNo, Waiter(gen, ty, what))
    decreases n
  {
    assert run[..n][..n - 1] == run[..n - 1];
    hide Chosen, AwaitedOrLogged;
    if n == i + 1 {
      AwaitedAtOnce(After(START, run[..i]), ty, what);
    } else {
      AwaitedUntil(run, i, n - 1, seqNo, gen, ty, what);
      assert !Ends(run, n - 1, seqNo, gen);
      StaysAwaited(After(START, run[..n - 1]), run[n - 1], seqNo, Waiter(gen, ty, what));
    }
  }

  lemma AwaitedAtOnce(s: State, ty: ReplyType, what: int)
    ensures AwaitedOrLogged(Next(s, Ask(ty, what)), Chosen(s.pending, s.counter), Waiter(s.nextGen, ty, what))
  {
    hide Chosen;
  }

  lemma {:induction false} LoggedForGood(run: seq<Event>, n: nat, gen: nat)
    requires n <= |run| && Logged(After(START, run[..n]), gen)
    ensures Logged(After(START, run), gen)
    decreases |run| - n
  {
    if n < |run| {
      assert run[..n + 1][..n] == run[..n];
      StillLogged(After(START, run[..n]), run[n], gen);
      LoggedForGood(run, n + 1, gen);
    } else {
      assert run[..n] == run;
    }
  }

  lemma AfterOneMore(run: seq<Event>, n: nat)
    requires n < |run|
    ensures After(START, run[..n + 1]) == Next(After(START, run[..n]), run[n])
  {
    assert run[..n + 1][..n] == run[..n];
  }

  /** Over any run, a query whose reply arrives before it gives up, and before its number is given again,
      is answered. */
  lemma ReplyReachesItsQuery(run: seq<Event>, i: nat, j: nat, seqNo: int, gen: nat, ty: ReplyType, what: int,
                             payload: seq<int>)
    requires i < j < |run| && Asked(run, i, gen, seqNo, ty, what)
    requires run[j] == Arrive(ty, seqNo, payload) && 0 < |payload| && payload[0] == what
    requires forall k :: i < k < j ==> !Ends(run, k, seqNo, gen)
    ensures Logged(After(START, run), gen)
  {
    hide Chosen, AwaitedOrLogged, Logged, Asked, Ends, Next;
    AwaitedUntil(run, i, j, seqNo, gen, ty, what);
    assert After(START, run[..j + 1]) == Next(After(START, run[..j]), run[j]) by {
      AfterOneMore(run, j);
    }
    hide After;
    StaysAwaited(After(START, run[..j]), run[j], seqNo, Waiter(gen, ty, what));
    LoggedForGood(run, j + 1, gen);
  }

  lemma {:induction false} GenerationsGrow(run: seq<Event>, i: nat, j: nat)
    requires i <= j <= |run|
    ensures After(START, run[..i]).nextGen <= After(START, run[..j]).nextGen
    ensures i < j && run[i].Ask? ==> After(START, run[..i]).nextGen < After(START, run[..j]).nextGen
    decreases j
  {
    if i < j {
      assert run[..j][..j - 1] == run[..j - 1];
      GenerationsGrow(run, i, j - 1);
      hide Chosen, Cancelled, Accepts;
    }
  }

  /** The reply that generation `gen` waits for on this number is still awaited. */
  predicate Awaited(s: State, seqNo: int, gen: nat) {
    seqNo in s.pending && s.pending[seqNo].gen == gen
  }

  /** Of two queries of a run that were given one number, the earlier one's cancel, however late, leaves
      the later one awaited if it was, and the later one's own takes it out. */
  lemma LateCancelSparesOthers(run: seq<Event>, i: nat, j: nat, seqNo: int, early: nat, late: nat,
                               a: Event, b: Event)
    requires i < j < |run| && a.Ask? && b.Ask?
    requires Asked(run, i, early, seqNo, a.ty, a.what) && Asked(run, j, late, seqNo, b.ty, b.what)
    ensures var s := After(START, run);
            (Awaited(After(START, run + [GiveUp(seqNo, early)]), seqNo, late) <==> Awaited(s, seqNo, late)) &&
            !Awaited(After(START, run + [GiveUp(seqNo, late)]), seqNo, late)
  {
    GenerationsGrow(run, i, j);
    assert (run + [GiveUp(seqNo, early)])[..|run|] == run;
    assert (run + [GiveUp(seqNo, late)])[..|run|] == run;
    hide Chosen;
  }
}
