/** The keepalive's recovery against a box that can boot, release its session or lose its clone at any
    moment, over a link that keeps order in both directions. */
module RestartSystem {
  import opened Wrappers
  import opened RestartWatch
  import opened Finite

  /** A lock or a transform lands only on a clone; the other entries do not need one. */
  datatype Key = OnClone(id: int) | Anytime(id: int)
  type Table = map<Key, int>

  const SESSION_MOD := 65536

  /** The box's history: boots, releases counted since the last boot, times the clone went down, hellos
      sent. The host sees of it only the session counter and the hellos. */
  datatype Mark = Mark(boots: nat, released: nat, downs: nat, hellos: nat)

  function Session(m: Mark): int {
    m.released % SESSION_MOD
  }

  datatype What = AskedClone | AskedStats
  /** `Wipe` empties the box; `Other` is a command that touches no table entry. */
  datatype ToBox = Query(id: nat, what: What) | Put(key: Key, value: int) | Del(key: Key) | Wipe | Other
  datatype ToHost = Hello | CloneReply(id: nat, up: bool, mark: Mark) | StatsReply(id: nat, session: int, mark: Mark)

  /** Three sets remember what became of an entry since a command last named it: `missed`, that command
      met no clone; `gone`, the box let the entry go; `inherited`, it is held since before the handshake. */
  datatype Box = Box(table: Table, dirty: bool, clone: bool, spoken: bool, missed: set<Key>, gone: set<Key>,
                     inherited: set<Key>, mark: Mark)

  /** Where the keepalive thread stands. `seen` is the hello count read after the first probe (`heard` by
      then), `first` the mark of that probe, `mark` that of the first session reading, `last` that of
      the second. */
  datatype Phase =
    | Idle
    | AskClone(id: nat)
    | CloneUp(first: Mark)
    | AskStats(id: nat, seen: nat, heard: nat, first: Mark)
    | Resend(seen: nat, heard: nat, before: int, mark: Mark)
    | Resent(seen: nat, heard: nat, before: int, mark: Mark)
    | AskCloneAgain(id: nat, seen: nat, heard: nat, before: int, mark: Mark)
    | StillUp(seen: nat, heard: nat, before: int, mark: Mark)
    | AskStatsAgain(id: nat, seen: nat, heard: nat, before: int, mark: Mark)
    | Closing(seen: nat, heard: nat, before: int, mark: Mark, last: Mark)
    | Poll(id: nat)
    | Moved

  /** `heard` counts every hello taken off the link. `noted` is the mark of the handshake, or of the last
      finished recovery, and `read` that of the session reading the watch compares with. */
  datatype Host = Host(watch: Watch, ledger: Table, pending: bool, phase: Phase, nextId: nat, heard: nat,
                       noted: Mark, read: Mark)

  datatype State = State(host: Host, box: Box, up: seq<ToBox>, down: seq<ToHost>)

  datatype Event =
    | BoxTakes | Boot | Release(takesClone: bool) | PartialRelease(rules: set<Key>) | CloneReturns
    | HostHears | Timeout
    | AppPut(key: Key, value: int) | AppDel(key: Key) | AppReset | AppOther | ReAssert(keys: seq<Key>)
    | TakeOwed | BeginStep | ReadHellos | SendHeld(keys: seq<Key>, whole: bool) | ProbeAgain | ReadAgain | Finish
    | StartPoll | BeginRelease

  // The box

  function Puts(ledger: Table, keys: seq<Key>): seq<ToBox>
    requires forall k :: k in keys ==> k in ledger
  {
    if keys == [] then [] else Puts(ledger, keys[..|keys| - 1]) + [Put(keys[|keys| - 1], ledger[keys[|keys| - 1]])]
  }

  function HelloSent(m: Mark): Mark {
    m.(hellos := m.hellos + 1)
  }

  /** The first frame after a boot is answered with a second hello. */
  function Spoken(b: Box): Box {
    b.(spoken := true, mark := if b.spoken then b.mark else HelloSent(b.mark))
  }

  /** A command on `k` is news of it. */
  function Named(b: Box, k: Key): Box {
    b.(dirty := true, missed := b.missed - {k}, gone := b.gone - {k}, inherited := b.inherited - {k})
  }

  /** The table emptied and the session released, which counts once a command has come since the last. */
  function Cleared(b: Box): Box {
    b.(table := map[], dirty := false, gone := b.gone + b.table.Keys, inherited := {},
       mark := if b.dirty then b.mark.(released := b.mark.released + 1) else b.mark)
  }

  function Took(b: Box, msg: ToBox): Box {
    var c := Spoken(b);
    match msg
    case Query(_, _) => c
    case Other => c.(dirty := true)
    case Wipe => Cleared(c).(missed := {}, gone := {})
    case Put(k, v) =>
      var n := Named(c, k);
      if k.OnClone? && !c.clone then n.(missed := n.missed + {k}) else n.(table := n.table[k := v])
    case Del(k) => Named(c, k).(table := c.table - {k})
  }

  function Answer(b: Box, msg: ToBox): seq<ToHost> {
    var c := Spoken(b);
    (if b.spoken then [] else [Hello]) +
    match msg
    case Query(id, AskedClone) => [CloneReply(id, c.clone, c.mark)]
    case Query(id, AskedStats) => [StatsReply(id, Session(c.mark), c.mark)]
    case _ => []
  }

  function Booted(b: Box): Box {
    Box(map[], false, false, false, b.missed, b.gone + b.table.Keys, {},
        Mark(b.mark.boots + 1, 0, b.mark.downs + 1, b.mark.hellos + 1))
  }

  function Released(b: Box, takesClone: bool): Box {
    var c := Cleared(b);
    if takesClone && b.clone then c.(clone := false, mark := c.mark.(downs := c.mark.downs + 1)) else c
  }

  /** Some of the entries that need no clone go and the rest stand; this always counts. */
  function PartlyReleased(b: Box, rules: set<Key>): Box {
    var dropped := rules * b.table.Keys;
    if dropped == {} then b
    else
      b.(table := b.table - dropped, gone := b.gone + dropped, inherited := b.inherited - dropped,
         mark := b.mark.(released := b.mark.released + 1))
  }

  // The host

  predicate Awaits(p: Phase, id: nat) {
    (p.AskClone? || p.AskStats? || p.AskCloneAgain? || p.AskStatsAgain? || p.Poll?) && p.id == id
  }

  /** The keepalive thread goes on with the reply it waited for; any other is ignored. */
  function OnReply(h: Host, msg: ToHost): Host
    requires !msg.Hello?
  {
    var g := h.(watch := Replied(h.watch));
    if !Awaits(g.phase, msg.id) then g
    else
      match (g.phase, msg)
      case (AskClone(_), CloneReply(_, up, m)) => g.(phase := if up then CloneUp(m) else Idle)
      case (AskStats(_, seen, heard, first), StatsReply(_, s, m)) =>
        g.(phase := Resend(seen, heard, s, m.(downs := first.downs)))
      case (AskCloneAgain(_, seen, heard, before, m), CloneReply(_, up, _)) =>
        g.(phase := if up then StillUp(seen, heard, before, m) else Idle)
      case (AskStatsAgain(_, seen, heard, before, m), StatsReply(_, s, last)) =>
        g.(phase := if s == before then Closing(seen, heard, before, m, last) else Idle)
      case (Poll(_), StatsReply(_, s, m)) =>
        g.(phase := if SessionDiffers(g.watch, s) then Moved else Idle, watch := SessionNoted(g.watch, s),
           read := if g.watch.session.None? then m else g.read)
      case _ => g
  }

  function Hear(h: Host, msg: ToHost): Host {
    if msg.Hello? then h.(watch := Greeted(h.watch), heard := h.heard + 1) else OnReply(h, msg)
  }

  function Ask(s: State, what: What, p: Phase): State {
    s.(host := s.host.(phase := p, nextId := s.host.nextId + 1), up := s.up + [Query(s.host.nextId, what)])
  }

  // The system

  ghost predicate Enabled(s: State, e: Event) {
    var h := s.host;
    match e
    case BoxTakes => s.up != []
    case Boot => true
    case Release(_) => true
    case PartialRelease(rules) => forall k :: k in rules ==> k.Anytime?
    case CloneReturns => true
    case HostHears => s.down != []
    case Timeout => h.phase.AskClone? || h.phase.AskStats? || h.phase.AskCloneAgain? || h.phase.AskStatsAgain? || h.phase.Poll?
    case AppPut(_, _) => true
    case AppDel(_) => true
    case AppReset => true
    case AppOther => true
    case ReAssert(keys) => h.phase.Idle? && forall k :: k in keys ==> k in h.ledger
    case TakeOwed => h.phase.Idle? && h.watch.owed
    case BeginStep => h.phase.Idle? && h.pending && !h.watch.owed
    case ReadHellos => h.phase.CloneUp?
    case SendHeld(keys, whole) =>
      h.phase.Resend? && (forall k :: k in keys ==> k in h.ledger) && (whole ==> Elements(keys) == h.ledger.Keys)
    case ProbeAgain => h.phase.Resent?
    case ReadAgain => h.phase.StillUp?
    case Finish => h.phase.Closing?
    case StartPoll => h.phase.Idle? && !h.pending && h.ledger != map[]
    case BeginRelease => h.phase.Moved?
  }

  ghost function Next(s: State, e: Event): State
    requires Enabled(s, e)
  {
    var h := s.host;
    match e
    case BoxTakes => State(h, Took(s.box, s.up[0]), s.up[1..], s.down + Answer(s.box, s.up[0]))
    case Boot => s.(box := Booted(s.box), down := s.down + [Hello])
    case Release(takesClone) => s.(box := Released(s.box, takesClone))
    case PartialRelease(rules) => s.(box := PartlyReleased(s.box, rules))
    case CloneReturns => s.(box := s.box.(clone := true))
    case HostHears => s.(host := Hear(h, s.down[0]), down := s.down[1..])
    case Timeout => s.(host := h.(phase := Idle))
    case AppPut(k, v) => s.(host := h.(ledger := h.ledger[k := v]), up := s.up + [Put(k, v)])
    case AppDel(k) => s.(host := h.(ledger := h.ledger - {k}), up := s.up + [Del(k)])
    case AppReset => s.(host := h.(ledger := map[]), up := s.up + [Other] + [Wipe])
    case AppOther => s.(up := s.up + [Other])
    case ReAssert(keys) => s.(up := s.up + Puts(h.ledger, keys))
    case TakeOwed => s.(host := h.(watch := OwedTaken(h.watch), pending := true))
    case BeginStep => Ask(s, AskedClone, AskClone(h.nextId))
    case ReadHellos => Ask(s, AskedStats, AskStats(h.nextId, h.watch.hellos, h.heard, h.phase.first))
    case SendHeld(keys, whole) =>
      var p := h.phase;
      s.(host := h.(phase := if whole then Resent(p.seen, p.heard, p.before, p.mark) else Idle),
         up := s.up + Puts(h.ledger, keys))
    case ProbeAgain =>
      var p := h.phase;
      Ask(s, AskedClone, AskCloneAgain(h.nextId, p.seen, p.heard, p.before, p.mark))
    case ReadAgain =>
      var p := h.phase;
      Ask(s, AskedStats, AskStatsAgain(h.nextId, p.seen, p.heard, p.before, p.mark))
    case Finish =>
      var p := h.phase;
      var w := BootTaken(SessionNoted(h.watch, p.before));
      var done := w.hellos == p.seen;
      s.(host := h.(watch := Finished(w, p.seen), pending := !done, phase := Idle, noted := p.mark, read := p.mark))
    case StartPoll => Ask(s, AskedStats, Poll(h.nextId))
    case BeginRelease => s.(host := h.(watch := ReleaseBegun(h.watch), pending := true, phase := Idle))
  }

  /** The state a handshake leaves. Its session reading may have gone unanswered, and the box may still
      hold what an earlier connection set. */
  ghost predicate Init(s: State) {
    var h := s.host;
    (h.watch.session == None || h.watch.session == Some(Session(s.box.mark))) &&
    h.watch == Watch(true, false, false, false, 0, h.watch.session) &&
    h.ledger == map[] && !h.pending && h.phase.Idle? && h.heard == s.box.mark.hellos == h.noted.hellos &&
    Follows(h.noted, s.box.mark) && SameEpoch(h.noted, s.box.mark) && CloneHeld(s.box, h.noted) && h.read == h.noted &&
    s.up == [] && s.down == [] && s.box.spoken && BoxSane(s.box) && s.box.inherited == s.box.table.Keys
  }

  // Counting hellos and ids

  /** Hellos among the first `n` messages. */
  function Hellos(down: seq<ToHost>, n: nat): nat
    requires n <= |down|
  {
    if n == 0 then 0 else Hellos(down, n - 1) + if down[n - 1].Hello? then 1 else 0
  }

  /** Box history runs forward: `b` is no earlier than `a`. */
  predicate Follows(a: Mark, b: Mark) {
    a.boots <= b.boots && a.downs <= b.downs && a.hellos <= b.hellos &&
    b.boots - a.boots <= b.hellos - a.hellos && (a.boots == b.boots ==> a.released <= b.released)
  }

  /** A reply carries the history of the moment it was sent: the hellos heard and those ahead of it. */
  predicate ReplyCounted(heard: nat, down: seq<ToHost>, i: nat, now: Mark)
    requires i < |down|
  {
    down[i].Hello? || (down[i].mark.hellos == heard + Hellos(down, i) && Follows(down[i].mark, now))
  }

  ghost predicate DownCounted(heard: nat, down: seq<ToHost>, now: Mark) {
    now.hellos == heard + Hellos(down, |down|) && forall i :: 0 <= i < |down| ==> ReplyCounted(heard, down, i, now)
  }

  ghost predicate HellosCounted(s: State) {
    DownCounted(s.host.heard, s.down, s.box.mark)
  }

  ghost predicate RepliesTrue(s: State) {
    forall msg :: msg in s.down && msg.StatsReply? ==> msg.session == Session(msg.mark)
  }

  ghost predicate IdsIssued(s: State) {
    (forall msg :: msg in s.up && msg.Query? ==> msg.id < s.host.nextId) &&
    (forall msg :: msg in s.down && !msg.Hello? ==> msg.id < s.host.nextId) &&
    (forall id: nat :: Awaits(s.host.phase, id) ==> id < s.host.nextId)
  }

  // The ledger and the box

  predicate On(msg: ToBox, k: Key) {
    msg.Wipe? || ((msg.Put? || msg.Del?) && msg.key == k)
  }

  /** The last command on its way for `k`. */
  function LastOn(up: seq<ToBox>, k: Key): Option<ToBox> {
    if up == [] then None
    else if On(up[|up| - 1], k) then Some(up[|up| - 1])
    else LastOn(up[..|up| - 1], k)
  }

  /** What `k` will be once the link has drained agrees with the ledger, as far as commands go. */
  ghost predicate KeyFaithful(s: State, k: Key) {
    match LastOn(s.up, k)
    case Some(Put(_, v)) => k in s.host.ledger && s.host.ledger[k] == v
    case Some(_) => k !in s.host.ledger
    case None => k in s.box.table && k !in s.box.inherited ==> k in s.host.ledger && s.host.ledger[k] == s.box.table[k]
  }

  /** With no command on its way, an entry of the ledger is on the box since a command named it, or that
      command met no clone, or the box let it go. */
  ghost predicate KeyAccounted(s: State, k: Key) {
    k in s.host.ledger && LastOn(s.up, k).None? ==>
      k !in s.box.inherited && (k in s.box.table || k in s.box.missed || k in s.box.gone)
  }

  ghost predicate AllFaithful(s: State) {
    forall k: Key :: KeyFaithful(s, k)
  }

  ghost predicate AllAccounted(s: State) {
    forall k: Key :: KeyAccounted(s, k)
  }

  ghost predicate BoxSane(b: Box) {
    (!b.dirty ==> b.table == map[]) && (!b.clone ==> forall k :: k in b.table ==> k.Anytime?) &&
    (forall k :: k in b.missed ==> k.OnClone? && k !in b.table && k !in b.gone) &&
    (forall k :: k in b.gone ==> k !in b.table) && b.inherited <= b.table.Keys
  }

  /** Ledger entry `k` is on its way, in place, or met a box without a clone after `m`. */
  ghost predicate KeyCovered(s: State, m: Mark, k: Key)
    requires k in s.host.ledger
  {
    LastOn(s.up, k).Some? || (k in s.box.table && s.box.table[k] == s.host.ledger[k]) ||
    (k in s.box.missed && m.downs < s.box.mark.downs)
  }

  predicate SameEpoch(a: Mark, b: Mark) {
    a.boots == b.boots && a.released == b.released
  }

  ghost predicate Covered(s: State, m: Mark) {
    SameEpoch(m, s.box.mark) ==> forall k :: k in s.host.ledger ==> KeyCovered(s, m, k)
  }

  /** The clone that stood at `m` stands still, unless it went down since. */
  predicate CloneHeld(b: Box, m: Mark) {
    b.mark.downs == m.downs ==> b.clone
  }

  ghost predicate Guarded(s: State, m: Mark) {
    Follows(m, s.box.mark) && CloneHeld(s.box, m) && Covered(s, m)
  }

  /** A probe answered "up" by a clone that stands still or has gone down since. */
  ghost predicate ProbesTrue(s: State) {
    forall msg :: msg in s.down && msg.CloneReply? && msg.up ==>
      CloneHeld(s.box, msg.mark) && Follows(msg.mark, s.box.mark)
  }

  // Where the thread stands

  predicate Stepping(p: Phase) {
    !p.Idle? && !p.Poll? && !p.Moved?
  }

  predicate PastProbe(p: Phase) {
    Stepping(p) && !p.AskClone?
  }

  /** A recovery under way is never forgotten, and out of one the next hello is a boot. */
  ghost predicate WatchKept(h: Host) {
    var w := h.watch;
    (h.pending || w.owed <==> w.recovering) && (Stepping(h.phase) ==> h.pending && !w.owed) &&
    (!w.recovering || PastProbe(h.phase) ==> w.armed)
  }

  /** Every hello heard since `seen` was read has been counted. */
  predicate Counting(h: Host, seen: nat, heard: nat) {
    heard <= h.heard && h.watch.hellos - seen == h.heard - heard
  }

  ghost predicate Standing(s: State, first: Mark) {
    Follows(first, s.box.mark) && CloneHeld(s.box, first)
  }

  predicate Reading(h: Host, seen: nat, heard: nat, before: int, mark: Mark) {
    Counting(h, seen, heard) && heard <= mark.hellos && before == Session(mark)
  }

  /** No recovery is running or owed, and none is about to begin. */
  predicate Quiet(h: Host) {
    !h.watch.recovering && !h.phase.Moved?
  }

  /** The answer to this poll, once it comes, is of a moment past the noted one. */
  ghost predicate PollTrue(s: State, id: nat) {
    forall msg :: msg in s.down && msg.StatsReply? && msg.id == id ==> Follows(s.host.noted, msg.mark)
  }

  ghost predicate PhaseKept(s: State) {
    var h := s.host;
    match h.phase
    case Idle => true
    case Poll(id) => Quiet(h) ==> PollTrue(s, id)
    case Moved => true
    case AskClone(_) => true
    case CloneUp(first) => Standing(s, first)
    case AskStats(_, seen, heard, first) => Counting(h, seen, heard) && Standing(s, first)
    case Resend(seen, heard, before, mark) => Reading(h, seen, heard, before, mark) && Standing(s, mark)
    case Resent(seen, heard, before, mark) => Reading(h, seen, heard, before, mark) && Guarded(s, mark)
    case AskCloneAgain(_, seen, heard, before, mark) => Reading(h, seen, heard, before, mark) && Guarded(s, mark)
    case StillUp(seen, heard, before, mark) => Reading(h, seen, heard, before, mark) && Guarded(s, mark)
    case AskStatsAgain(id, seen, heard, before, mark) =>
      Reading(h, seen, heard, before, mark) && Guarded(s, mark) &&
      forall msg :: msg in s.down && msg.StatsReply? && msg.id == id ==> Follows(mark, msg.mark)
    case Closing(seen, heard, before, mark, last) =>
      Reading(h, seen, heard, before, mark) && Guarded(s, mark) &&
      Follows(mark, last) && Follows(last, s.box.mark) && before == Session(last) && last.hellos <= h.heard
  }

  ghost predicate QuietKept(s: State) {
    var h := s.host;
    Quiet(h) ==>
      h.heard <= h.noted.hellos && Guarded(s, h.noted) && Follows(h.noted, h.read) && Follows(h.read, s.box.mark) &&
      (h.watch.session.Some? ==> h.watch.session.value == Session(h.read))
  }

  ghost predicate Inv(s: State) {
    HellosCounted(s) && RepliesTrue(s) && ProbesTrue(s) && IdsIssued(s) && AllFaithful(s) && AllAccounted(s) &&
    BoxSane(s.box) && WatchKept(s.host) && PhaseKept(s) && QuietKept(s)
  }

  lemma InitInv(s: State)
    requires Init(s)
    ensures Inv(s)
  {
  }

  // Commands on their way

  lemma {:induction false} LastOnInTurn(a: seq<ToBox>, b: seq<ToBox>, k: Key)
    ensures LastOn(a + b, k) == if LastOn(b, k).Some? then LastOn(b, k) else LastOn(a, k)
    decreases |b|
  {
    if b == [] {
      assert a + b == a;
    } else {
      assert (a + b)[..|a + b| - 1] == a + b[..|b| - 1];
      LastOnInTurn(a, b[..|b| - 1], k);
    }
  }

  lemma LastOnOne(msg: ToBox, k: Key)
    ensures LastOn([msg], k) == if On(msg, k) then Some(msg) else None
  {
    assert [msg][..0] == [];
    assert LastOn([], k) == None;
  }

  lemma LastOnPop(up: seq<ToBox>, k: Key)
    requires up != []
    ensures LastOn(up, k) ==
            if LastOn(up[1..], k).Some? then LastOn(up[1..], k) else if On(up[0], k) then Some(up[0]) else None
  {
    assert up == [up[0]] + up[1..];
    LastOnInTurn([up[0]], up[1..], k);
    LastOnOne(up[0], k);
  }

  lemma LastOnPush(up: seq<ToBox>, msg: ToBox, k: Key)
    ensures LastOn(up + [msg], k) == if On(msg, k) then Some(msg) else LastOn(up, k)
  {
    LastOnInTurn(up, [msg], k);
    LastOnOne(msg, k);
  }

  lemma {:induction false} LastOnPuts(ledger: Table, keys: seq<Key>, k: Key)
    requires forall j :: j in keys ==> j in ledger
    ensures k in keys ==> LastOn(Puts(ledger, keys), k) == Some(Put(k, ledger[k]))
    ensures k !in keys ==> LastOn(Puts(ledger, keys), k) == None
  {
    if keys != [] {
      var rest, j := keys[..|keys| - 1], keys[|keys| - 1];
      assert keys == rest + [j];
      LastOnPuts(ledger, rest, k);
      LastOnPush(Puts(ledger, rest), Put(j, ledger[j]), k);
    }
  }

  /** What each event does to the last command on one key. */
  lemma LastOnNext(s: State, e: Event, k: Key)
    requires Enabled(s, e)
    ensures var after := LastOn(Next(s, e).up, k);
            if e.BoxTakes? then
              LastOn(s.up, k) == if after.Some? then after else if On(s.up[0], k) then Some(s.up[0]) else None
            else if e.AppPut? then after == if e.key == k then Some(Put(k, e.value)) else LastOn(s.up, k)
            else if e.AppDel? then after == if e.key == k then Some(Del(k)) else LastOn(s.up, k)
            else if e.AppReset? then after == Some(Wipe)
            else if e.ReAssert? || e.SendHeld? then
              after == if k in e.keys then Some(Put(k, s.host.ledger[k])) else LastOn(s.up, k)
            else after == LastOn(s.up, k)
  {
    match e {
      case BoxTakes =>
        LastOnPop(s.up, k);
      case AppPut(j, v) =>
        LastOnPush(s.up, Put(j, v), k);
      case AppDel(j) =>
        LastOnPush(s.up, Del(j), k);
      case AppReset =>
        LastOnPush(s.up + [Other], Wipe, k);
      case AppOther =>
        LastOnPush(s.up, Other, k);
      case ReAssert(keys) =>
        LastOnPuts(s.host.ledger, keys, k);
        LastOnInTurn(s.up, Puts(s.host.ledger, keys), k);
      case SendHeld(keys, _) =>
        LastOnPuts(s.host.ledger, keys, k);
        LastOnInTurn(s.up, Puts(s.host.ledger, keys), k);
      case BeginStep =>
        LastOnPush(s.up, Query(s.host.nextId, AskedClone), k);
      case ReadHellos =>
        LastOnPush(s.up, Query(s.host.nextId, AskedStats), k);
      case ProbeAgain =>
        LastOnPush(s.up, Query(s.host.nextId, AskedClone), k);
      case ReadAgain =>
        LastOnPush(s.up, Query(s.host.nextId, AskedStats), k);
      case StartPoll =>
        LastOnPush(s.up, Query(s.host.nextId, AskedStats), k);
      case _ =>
    }
  }

  /** What each event does to the box, and to the ledger. */
  function BoxAfter(s: State, e: Event): Box
    requires e.BoxTakes? ==> s.up != []
  {
    match e
    case BoxTakes => Took(s.box, s.up[0])
    case Boot => Booted(s.box)
    case Release(takesClone) => Released(s.box, takesClone)
    case PartialRelease(rules) => PartlyReleased(s.box, rules)
    case CloneReturns => s.box.(clone := true)
    case _ => s.box
  }

  function LedgerAfter(s: State, e: Event): Table {
    match e
    case AppPut(k, v) => s.host.ledger[k := v]
    case AppDel(k) => s.host.ledger - {k}
    case AppReset => map[]
    case _ => s.host.ledger
  }

  lemma BoxNext(s: State, e: Event)
    requires Enabled(s, e)
    ensures Next(s, e).box == BoxAfter(s, e) && Next(s, e).host.ledger == LedgerAfter(s, e)
  {
    hide Took, Booted, Released, PartlyReleased, Puts, Answer;
  }

  lemma KeyStaysFaithful(s: State, e: Event, k: Key)
    requires Enabled(s, e) && BoxSane(s.box) && KeyFaithful(s, k)
    ensures KeyFaithful(Next(s, e), k)
  {
    hide Next, LastOn;
    BoxNext(s, e);
    LastOnNext(s, e, k);
  }

  lemma KeyStaysAccounted(s: State, e: Event, k: Key)
    requires Enabled(s, e) && BoxSane(s.box) && KeyFaithful(s, k) && KeyAccounted(s, k)
    ensures KeyAccounted(Next(s, e), k)
  {
    hide Next, LastOn;
    BoxNext(s, e);
    LastOnNext(s, e, k);
  }

  lemma TookStaysSane(b: Box, msg: ToBox)
    requires BoxSane(b)
    ensures BoxSane(Took(b, msg))
  {
  }

  lemma BoxStaysSane(s: State, e: Event)
    requires Enabled(s, e) && BoxSane(s.box)
    ensures BoxSane(Next(s, e).box)
  {
    hide Next, Took;
    BoxNext(s, e);
    if e.BoxTakes? {
      TookStaysSane(s.box, s.up[0]);
    }
  }

  lemma MarksAdvance(s: State, e: Event, m: Mark)
    requires Enabled(s, e) && Follows(m, s.box.mark) && CloneHeld(s.box, m)
    ensures Follows(m, Next(s, e).box.mark) && CloneHeld(Next(s, e).box, m)
  {
    hide Next;
    BoxNext(s, e);
  }

  /** An epoch once left does not come back, and only an idle release keeps it. */
  lemma EpochKept(s: State, e: Event, m: Mark)
    requires Enabled(s, e) && Follows(m, s.box.mark) && SameEpoch(m, Next(s, e).box.mark)
    ensures SameEpoch(m, s.box.mark) && !e.Boot? && (e.Release? ==> !s.box.dirty)
    ensures e.PartialRelease? ==> Next(s, e).box == s.box
  {
    hide Next;
    BoxNext(s, e);
  }

  lemma KeyStaysCoveredTaken(s: State, m: Mark, k: Key)
    requires s.up != [] && KeyFaithful(s, k) && Follows(m, s.box.mark) && CloneHeld(s.box, m)
    requires k in s.host.ledger && KeyCovered(s, m, k)
    ensures KeyCovered(Next(s, BoxTakes), m, k)
  {
    hide Next, LastOn;
    BoxNext(s, BoxTakes);
    LastOnNext(s, BoxTakes, k);
  }

  /** An entry that is covered stays covered until something empties the box's table. */
  lemma KeyStaysCovered(s: State, e: Event, m: Mark, k: Key)
    requires Enabled(s, e) && BoxSane(s.box) && KeyFaithful(s, k) && Follows(m, s.box.mark) && CloneHeld(s.box, m)
    requires k in Next(s, e).host.ledger && SameEpoch(m, Next(s, e).box.mark)
    requires k in s.host.ledger && SameEpoch(m, s.box.mark) ==> KeyCovered(s, m, k)
    ensures KeyCovered(Next(s, e), m, k)
  {
    EpochKept(s, e, m);
    if e.BoxTakes? {
      KeyStaysCoveredTaken(s, m, k);
    } else {
      hide Next, LastOn, Took, Follows;
      BoxNext(s, e);
      LastOnNext(s, e, k);
    }
  }

  lemma GuardedKept(s: State, e: Event, m: Mark)
    requires Enabled(s, e) && BoxSane(s.box) && AllFaithful(s) && Guarded(s, m)
    ensures Guarded(Next(s, e), m)
  {
    MarksAdvance(s, e, m);
    if SameEpoch(m, Next(s, e).box.mark) {
      forall k | k in Next(s, e).host.ledger ensures KeyCovered(Next(s, e), m, k) {
        KeyStaysCovered(s, e, m, k);
      }
    }
  }

  // The link back

  lemma {:induction false} HellosAhead(down: seq<ToHost>, more: seq<ToHost>, n: nat)
    requires n <= |down|
    ensures Hellos(down + more, n) == Hellos(down, n)
  {
    if n > 0 {
      HellosAhead(down, more, n - 1);
    }
  }

  lemma {:induction false} HellosPop(down: seq<ToHost>, n: nat)
    requires n < |down|
    ensures Hellos(down, n + 1) == Hellos(down[1..], n) + if down[0].Hello? then 1 else 0
  {
    if n > 0 {
      HellosPop(down, n - 1);
    }
  }

  lemma FollowsOn(a: Mark, b: Mark, c: Mark)
    requires Follows(a, b) && Follows(b, c)
    ensures Follows(a, c)
  {
  }

  /** A message the box sends now carries the history as it stands. */
  lemma SendCounted(heard: nat, down: seq<ToHost>, before: Mark, msg: ToHost, now: Mark)
    requires DownCounted(heard, down, before) && Follows(before, now)
    requires now.hellos == before.hellos + (if msg.Hello? then 1 else 0) && (!msg.Hello? ==> msg.mark == now)
    ensures DownCounted(heard, down + [msg], now)
  {
    var after := down + [msg];
    HellosAhead(down, [msg], |down|);
    forall i | 0 <= i < |after| ensures ReplyCounted(heard, after, i, now) {
      if i < |down| {
        HellosAhead(down, [msg], i);
        assert ReplyCounted(heard, down, i, before);
        if !down[i].Hello? {
          FollowsOn(down[i].mark, before, now);
        }
      }
    }
  }

  lemma StaysCounted(heard: nat, down: seq<ToHost>, before: Mark, now: Mark)
    requires DownCounted(heard, down, before) && Follows(before, now) && now.hellos == before.hellos
    ensures DownCounted(heard, down, now)
  {
    forall i | 0 <= i < |down| ensures ReplyCounted(heard, down, i, now) {
      assert ReplyCounted(heard, down, i, before);
      if !down[i].Hello? {
        FollowsOn(down[i].mark, before, now);
      }
    }
  }

  lemma TakenCounted(s: State)
    requires HellosCounted(s) && s.up != []
    ensures HellosCounted(Next(s, BoxTakes))
  {
    var b, c, h := s.box, Spoken(s.box), s.host.heard;
    var lead := if b.spoken then s.down else s.down + [Hello];
    if !b.spoken {
      SendCounted(h, s.down, b.mark, Hello, c.mark);
    }
    if s.up[0].Query? {
      var reply := if s.up[0].what.AskedClone? then CloneReply(s.up[0].id, c.clone, c.mark)
                   else StatsReply(s.up[0].id, Session(c.mark), c.mark);
      SendCounted(h, lead, c.mark, reply, c.mark);
      assert s.down + Answer(b, s.up[0]) == lead + [reply];
    } else {
      StaysCounted(h, lead, c.mark, Took(b, s.up[0]).mark);
      assert s.down + Answer(b, s.up[0]) == lead;
    }
    hide DownCounted;
  }

  lemma HeardCounted(s: State)
    requires HellosCounted(s) && s.down != []
    ensures HellosCounted(Next(s, HostHears))
  {
    var down, heard := s.down[1..], Next(s, HostHears).host.heard;
    HellosPop(s.down, |down|);
    forall i | 0 <= i < |down| ensures ReplyCounted(heard, down, i, s.box.mark) {
      HellosPop(s.down, i);
      assert ReplyCounted(s.host.heard, s.down, i + 1, s.box.mark);
      assert down[i] == s.down[i + 1];
    }
  }

  lemma HellosStayCounted(s: State, e: Event)
    requires HellosCounted(s) && Enabled(s, e)
    ensures HellosCounted(Next(s, e))
  {
    hide DownCounted, Hellos, Puts, OnReply;
    match e {
      case BoxTakes =>
        TakenCounted(s);
      case HostHears =>
        HeardCounted(s);
      case Boot =>
        SendCounted(s.host.heard, s.down, s.box.mark, Hello, Booted(s.box).mark);
      case Release(c) =>
        StaysCounted(s.host.heard, s.down, s.box.mark, Released(s.box, c).mark);
      case PartialRelease(rules) =>
        StaysCounted(s.host.heard, s.down, s.box.mark, PartlyReleased(s.box, rules).mark);
      case _ =>
    }
  }

  lemma {:induction false} PutsAreCommands(ledger: Table, keys: seq<Key>)
    requires forall k :: k in keys ==> k in ledger
    ensures forall msg :: msg in Puts(ledger, keys) ==> msg.Put?
  {
    if keys != [] {
      PutsAreCommands(ledger, keys[..|keys| - 1]);
    }
  }

  lemma IdsStayIssued(s: State, e: Event)
    requires IdsIssued(s) && Enabled(s, e)
    ensures IdsIssued(Next(s, e))
  {
    if e.ReAssert? || e.SendHeld? {
      PutsAreCommands(s.host.ledger, e.keys);
    }
    hide Puts;
  }

  lemma RepliesStayTrue(s: State, e: Event)
    requires RepliesTrue(s) && Enabled(s, e)
    ensures RepliesTrue(Next(s, e))
  {
  }

  lemma ProbesStayTrue(s: State, e: Event)
    requires ProbesTrue(s) && Enabled(s, e)
    ensures ProbesTrue(Next(s, e))
  {
    forall msg | msg in s.down && msg.CloneReply? && msg.up
      ensures CloneHeld(Next(s, e).box, msg.mark) && Follows(msg.mark, Next(s, e).box.mark)
    {
      MarksAdvance(s, e, msg.mark);
    }
  }

  // The thread

  lemma WatchStaysKept(s: State, e: Event)
    requires WatchKept(s.host) && Enabled(s, e)
    ensures WatchKept(Next(s, e).host)
  {
  }

  predicate ByTheThread(e: Event) {
    e.Timeout? || e.BeginStep? || e.ReadHellos? || e.SendHeld? || e.ProbeAgain? || e.ReadAgain? || e.Finish? ||
    e.StartPoll? || e.BeginRelease?
  }

  /** The re-send puts every entry on its way, so from here each one is accounted for. */
  lemma SendCovers(s: State, e: Event)
    requires Enabled(s, e) && e.SendHeld? && e.whole
    ensures Covered(Next(s, e), s.host.phase.mark)
  {
    forall k | k in s.host.ledger ensures LastOn(Next(s, e).up, k).Some? {
      assert k in Elements(e.keys);
      LastOnNext(s, e, k);
    }
  }

  lemma NoReplyYet(s: State, mark: Mark)
    requires IdsIssued(s)
    ensures forall msg :: msg in s.down && msg.StatsReply? && msg.id == s.host.nextId ==> Follows(mark, msg.mark)
  {
  }

  lemma ThreadKeepsPhase(s: State, e: Event)
    requires Inv(s) && Enabled(s, e) && ByTheThread(e)
    ensures PhaseKept(Next(s, e))
  {
    if e.SendHeld? && e.whole {
      SendCovers(s, e);
    }
    if e.ProbeAgain? || e.ReadAgain? {
      GuardedKept(s, e, s.host.phase.mark);
      NoReplyYet(s, s.host.phase.mark);
    }
    hide Guarded, Covered, HellosCounted, AllFaithful, Puts, Follows, QuietKept, RepliesTrue, ProbesTrue;
  }

  lemma NewReplyFollows(s: State, e: Event, mark: Mark, id: nat)
    requires Enabled(s, e) && !e.HostHears? && Follows(mark, s.box.mark) && CloneHeld(s.box, mark)
    requires forall msg :: msg in s.down && msg.StatsReply? && msg.id == id ==> Follows(mark, msg.mark)
    ensures forall msg :: msg in Next(s, e).down && msg.StatsReply? && msg.id == id ==> Follows(mark, msg.mark)
  {
    MarksAdvance(s, e, mark);
  }

  lemma ElsewhereLeavesTheThread(s: State, e: Event)
    requires Enabled(s, e) && !ByTheThread(e) && !e.HostHears?
    ensures var h, h' := s.host, Next(s, e).host;
            h'.phase == h.phase && h'.heard == h.heard && h'.watch.hellos == h.watch.hellos && h'.noted == h.noted &&
            (Quiet(h') ==> Quiet(h))
  {
  }

  /** Events elsewhere leave the thread where it stands. */
  lemma ElsewhereKeepsPhase(s: State, e: Event)
    requires Inv(s) && Enabled(s, e) && !ByTheThread(e) && !e.HostHears?
    ensures PhaseKept(Next(s, e))
  {
    hide Next, Enabled, Guarded, Covered, HellosCounted, AllFaithful, Follows, CloneHeld, RepliesTrue,
         ProbesTrue, IdsIssued, BoxSane, WatchKept, AllAccounted;
    ElsewhereLeavesTheThread(s, e);
    match s.host.phase {
      case Poll(id) =>
        if Quiet(s.host) {
          GuardedFollows(s, s.host.noted);
          NewReplyFollows(s, e, s.host.noted, id);
        }
      case CloneUp(first) =>
        MarksAdvance(s, e, first);
      case AskStats(_, _, _, first) =>
        MarksAdvance(s, e, first);
      case Resend(_, _, _, mark) =>
        MarksAdvance(s, e, mark);
      case Resent(_, _, _, mark) =>
        GuardedKept(s, e, mark);
      case AskCloneAgain(_, _, _, _, mark) =>
        GuardedKept(s, e, mark);
      case StillUp(_, _, _, mark) =>
        GuardedKept(s, e, mark);
      case AskStatsAgain(id, _, _, _, mark) =>
        GuardedKept(s, e, mark);
        GuardedFollows(s, mark);
        NewReplyFollows(s, e, mark, id);
      case Closing(_, _, _, mark, last) =>
        GuardedKept(s, e, mark);
        FollowsLater(s, e, last);
      case Idle =>
      case Moved =>
      case AskClone(_) =>
    }
  }

  lemma GuardedFollows(s: State, m: Mark)
    requires Guarded(s, m)
    ensures Follows(m, s.box.mark) && CloneHeld(s.box, m)
  {
  }

  lemma FollowsLater(s: State, e: Event, m: Mark)
    requires Enabled(s, e) && Follows(m, s.box.mark)
    ensures Follows(m, Next(s, e).box.mark)
  {
    hide Next;
    BoxNext(s, e);
  }

  lemma HeadCounted(s: State)
    requires HellosCounted(s) && s.down != [] && !s.down[0].Hello?
    ensures s.down[0].mark.hellos == s.host.heard && Follows(s.down[0].mark, s.box.mark)
  {
    assert ReplyCounted(s.host.heard, s.down, 0, s.box.mark);
  }

  lemma HelloKeepsPhase(s: State)
    requires Inv(s) && s.down != [] && s.down[0].Hello?
    ensures PhaseKept(Next(s, HostHears))
  {
    if Guards(s.host.phase) {
      GuardedKept(s, HostHears, s.host.phase.mark);
    }
    assert forall msg :: msg in s.down[1..] ==> msg in s.down;
    hide Guarded, Covered, HellosCounted, AllFaithful, Follows, QuietKept, RepliesTrue, ProbesTrue, IdsIssued, BoxSane;
  }

  predicate Guards(p: Phase) {
    p.Resent? || p.AskCloneAgain? || p.StillUp? || p.AskStatsAgain? || p.Closing?
  }

  lemma ReplyKeepsPhase(s: State)
    requires Inv(s) && s.down != [] && !s.down[0].Hello?
    ensures PhaseKept(Next(s, HostHears))
  {
    if Guards(s.host.phase) {
      GuardedKept(s, HostHears, s.host.phase.mark);
    }
    HeadCounted(s);
    assert s.down[0] in s.down;
    assert forall msg :: msg in s.down[1..] ==> msg in s.down;
    hide Guarded, Covered, HellosCounted, AllFaithful, QuietKept, IdsIssued, BoxSane;
  }

  lemma PhaseStaysKept(s: State, e: Event)
    requires Inv(s) && Enabled(s, e)
    ensures PhaseKept(Next(s, e))
  {
    hide PhaseKept, Inv;
    if ByTheThread(e) {
      ThreadKeepsPhase(s, e);
    } else if !e.HostHears? {
      ElsewhereKeepsPhase(s, e);
    } else if s.down[0].Hello? {
      HelloKeepsPhase(s);
    } else {
      ReplyKeepsPhase(s);
    }
  }

  /** A recovery that finishes leaves behind the mark it read, and nothing unheard before it. */
  lemma FinishIsQuiet(s: State)
    requires Inv(s) && s.host.phase.Closing?
    ensures QuietKept(Next(s, Finish))
  {
    GuardedKept(s, Finish, s.host.phase.mark);
    hide Guarded, Covered, HellosCounted, AllFaithful, IdsIssued, BoxSane, RepliesTrue, ProbesTrue;
  }

  /** The first poll of a watch without a reading takes one no earlier than the noted mark. */
  lemma ReadStaysPast(s: State, e: Event)
    requires Inv(s) && Enabled(s, e) && !e.Finish? && Quiet(s.host) && Quiet(Next(s, e).host)
    ensures var h, h' := s.host, Next(s, e).host;
            h'.noted == h.noted && Follows(h.noted, h'.read) && Follows(h'.read, Next(s, e).box.mark) &&
            (h'.watch.session.Some? ==> h'.watch.session.value == Session(h'.read))
  {
    FollowsLater(s, e, s.host.read);
    if e.HostHears? && !s.down[0].Hello? {
      HeadCounted(s);
      assert s.down[0] in s.down;
    }
    hide Guarded, Covered, HellosCounted, AllFaithful, AllAccounted, IdsIssued, BoxSane, ProbesTrue, Puts, Follows, Took,
         Booted, Released, PartlyReleased, Answer, WatchKept;
  }

  lemma QuietStaysKept(s: State, e: Event)
    requires Inv(s) && Enabled(s, e)
    ensures QuietKept(Next(s, e))
  {
    if e.Finish? {
      FinishIsQuiet(s);
    } else if Quiet(Next(s, e).host) {
      QuietBefore(s, e);
      GuardedKept(s, e, s.host.noted);
      ReadStaysPast(s, e);
      hide Guarded, Covered, HellosCounted, AllFaithful, AllAccounted, IdsIssued, BoxSane, RepliesTrue, ProbesTrue,
           PhaseKept, Puts, Follows, Took, Booted, Released, PartlyReleased, Answer;
    }
  }

  /** Only a finished recovery makes the link quiet again. */
  lemma QuietBefore(s: State, e: Event)
    requires Inv(s) && Enabled(s, e) && !e.Finish? && Quiet(Next(s, e).host)
    ensures Quiet(s.host) && !(e.HostHears? && s.down[0].Hello?)
  {
    hide HellosCounted, AllFaithful, IdsIssued, BoxSane, RepliesTrue, ProbesTrue, PhaseKept, QuietKept, Puts;
  }

  /** Every event keeps the invariant. */
  lemma InvKept(s: State, e: Event)
    requires Inv(s) && Enabled(s, e)
    ensures Inv(Next(s, e))
  {
    HellosStayCounted(s, e);
    RepliesStayTrue(s, e);
    ProbesStayTrue(s, e);
    IdsStayIssued(s, e);
    forall k: Key ensures KeyFaithful(Next(s, e), k) {
      KeyStaysFaithful(s, e, k);
    }
    forall k: Key ensures KeyAccounted(Next(s, e), k) {
      KeyStaysAccounted(s, e, k);
    }
    BoxStaysSane(s, e);
    WatchStaysKept(s, e);
    PhaseStaysKept(s, e);
    QuietStaysKept(s, e);
    hide Next, PhaseKept, QuietKept, HellosCounted, KeyFaithful, KeyAccounted, BoxSane, WatchKept, IdsIssued, RepliesTrue, ProbesTrue;
  }

  // Runs

  ghost predicate Legal(s: State, run: seq<Event>)
    decreases |run|
  {
    run == [] || (Enabled(s, run[0]) && Legal(Next(s, run[0]), run[1..]))
  }

  ghost function After(s: State, run: seq<Event>): State
    requires Legal(s, run)
    decreases |run|
  {
    if run == [] then s else After(Next(s, run[0]), run[1..])
  }

  /** Every state the host and the box can reach, in any interleaving, keeps the invariant. */
  lemma {:induction false} ReachableKeepsInv(s: State, run: seq<Event>)
    requires Init(s) || Inv(s)
    requires Legal(s, run)
    ensures Inv(After(s, run))
    decreases |run|
  {
    if Init(s) {
      InitInv(s);
    }
    if run != [] {
      InvKept(s, run[0]);
      ReachableKeepsInv(Next(s, run[0]), run[1..]);
    }
  }

  // What the host can rely on

  /** What the box holds, with no command on its way for it, is what the ledger holds, whatever was lost,
      unless it was there before the handshake and nothing has touched it since. */
  lemma NothingStale(s: State, k: Key)
    requires Inv(s) && k in s.box.table && LastOn(s.up, k).None?
    ensures (k in s.host.ledger && s.host.ledger[k] == s.box.table[k]) <==> k !in s.box.inherited
  {
    assert KeyFaithful(s, k) && KeyAccounted(s, k);
  }

  lemma {:induction false} SomeHello(down: seq<ToHost>, n: nat)
    requires n <= |down| && Hellos(down, n) > 0
    ensures Hello in down
  {
    if !down[n - 1].Hello? {
      SomeHello(down, n - 1);
    }
  }

  lemma SameRemainder(a: nat, b: nat)
    requires a <= b && a % SESSION_MOD == b % SESSION_MOD
    ensures a == b || b - a >= SESSION_MOD
  {
  }

  /** Something on its way, or the next poll, will make the host act. */
  ghost predicate LossWillShow(s: State) {
    Hello in s.down || (s.host.watch.session.Some? && s.host.watch.session.value != Session(s.box.mark))
  }

  /** More releases than the session counter can tell apart, within one boot and one reading. */
  predicate SessionWrapped(m: Mark, now: Mark) {
    m.boots == now.boots && now.released - m.released >= SESSION_MOD
  }

  /** The box holds of `k` what the ledger does. */
  ghost predicate InPlace(s: State, k: Key)
    requires k in s.host.ledger
  {
    k in s.box.table && s.box.table[k] == s.host.ledger[k]
  }

  /** In every reachable state, an entry that is not on its way is in place exactly when its last command
      found what it needed (a clone, if it is a lock or a transform) and the box has not let it go since. */
  lemma KeyInPlaceIff(s: State, k: Key)
    requires Inv(s) && k in s.host.ledger && LastOn(s.up, k).None?
    ensures InPlace(s, k) <==> k !in s.box.missed && k !in s.box.gone
  {
    assert KeyFaithful(s, k) && KeyAccounted(s, k);
  }

  /** In the epoch of a mark that guards the ledger nothing on it has been let go. */
  lemma NoneGone(s: State, m: Mark, k: Key)
    requires Inv(s) && Guarded(s, m) && SameEpoch(m, s.box.mark)
    requires k in s.host.ledger && LastOn(s.up, k).None?
    ensures k !in s.box.gone
  {
    assert KeyCovered(s, m, k);
  }

  /** With every command taken, in the epoch of such a mark, the box holds exactly the ledger when no
      entry of it met a box without a clone and nothing is left from before the handshake. */
  lemma InStepIff(s: State, m: Mark)
    requires Inv(s) && Guarded(s, m) && SameEpoch(m, s.box.mark) && s.up == []
    ensures s.box.table == s.host.ledger <==> s.box.inherited == {} && forall k :: k in s.host.ledger ==> k !in s.box.missed
  {
    forall k | k in s.host.ledger ensures InPlace(s, k) <==> k !in s.box.missed {
      NoneGone(s, m, k);
      KeyInPlaceIff(s, k);
    }
    forall k | k in s.box.table
      ensures (k in s.host.ledger && s.host.ledger[k] == s.box.table[k]) <==> k !in s.box.inherited
    {
      NothingStale(s, k);
    }
    InStepFrom(s);
  }

  lemma InStepFrom(s: State)
    requires s.box.inherited <= s.box.table.Keys
    requires forall k :: k in s.host.ledger ==> (InPlace(s, k) <==> k !in s.box.missed)
    requires forall k :: k in s.box.table ==>
               ((k in s.host.ledger && s.host.ledger[k] == s.box.table[k]) <==> k !in s.box.inherited)
    ensures s.box.table == s.host.ledger <==> s.box.inherited == {} && forall k :: k in s.host.ledger ==> k !in s.box.missed
  {
    if s.box.inherited == {} && forall k :: k in s.host.ledger ==> k !in s.box.missed {
      assert forall k :: k in s.host.ledger ==> InPlace(s, k);
    }
    if s.box.table == s.host.ledger {
      forall k | k in s.host.ledger ensures k !in s.box.missed {
        assert InPlace(s, k);
      }
    }
  }

  /** The session reading the watch compares with is of the epoch of the handshake, or of the last
      finished recovery: nothing was released before it was taken. */
  predicate Baselined(h: Host) {
    h.watch.session.Some? && SameEpoch(h.noted, h.read)
  }

  lemma QuietEpoch(s: State)
    requires Inv(s) && Quiet(s.host) && s.host.watch.session.Some?
    requires !LossWillShow(s) && !SessionWrapped(s.host.read, s.box.mark)
    ensures SameEpoch(s.host.read, s.box.mark) && Guarded(s, s.host.noted)
  {
    var m, now := s.host.read, s.box.mark;
    if m.boots < now.boots {
      SomeHello(s.down, |s.down|);
    }
    SameRemainder(m.released, now.released);
  }

  /** Outside a recovery, with no hello on its way and the session counter as last read, short of a full
      turn of it: an entry that is not on its way is in place exactly when its last command met what it
      needed, once the reading is of the noted epoch. Whatever a boot or a release took is then never
      lost silently; what met no clone is. Where the reading came late, what was released before it is
      gone as well. */
  lemma NoSilentLoss(s: State)
    requires Inv(s) && Quiet(s.host) && s.host.watch.session.Some?
    requires !LossWillShow(s) && !SessionWrapped(s.host.read, s.box.mark)
    ensures forall k :: k in s.host.ledger && LastOn(s.up, k).None? ==>
              (InPlace(s, k) <==> k !in s.box.missed && k !in s.box.gone) && (Baselined(s.host) ==> k !in s.box.gone)
    ensures Baselined(s.host) && s.up == [] ==>
              (s.box.table == s.host.ledger <==>
                 s.box.inherited == {} && forall k :: k in s.host.ledger ==> k !in s.box.missed)
  {
    QuietEpoch(s);
    forall k | k in s.host.ledger && LastOn(s.up, k).None?
      ensures (InPlace(s, k) <==> k !in s.box.missed && k !in s.box.gone) && (Baselined(s.host) ==> k !in s.box.gone)
    {
      KeyInPlaceIff(s, k);
      if Baselined(s.host) {
        NoneGone(s, s.host.noted, k);
      }
    }
    if Baselined(s.host) && s.up == [] {
      InStepIff(s, s.host.noted);
    }
  }

  /** A baseline, once there, stays; a recovery that ends makes one. */
  lemma BaselineKept(s: State, e: Event)
    requires Enabled(s, e)
    ensures Baselined(s.host) || e.Finish? ==> Baselined(Next(s, e).host)
  {
    hide Puts, Took, Booted, Released, PartlyReleased, Answer, Elements;
  }

  lemma {:induction false} RunIsBaselined(s: State, run: seq<Event>)
    requires Baselined(s.host) && Legal(s, run)
    ensures Baselined(After(s, run).host)
    decreases |run|
  {
    if run != [] {
      BaselineKept(s, run[0]);
      RunIsBaselined(Next(s, run[0]), run[1..]);
    }
  }

  /** Nothing a boot or a release took is lost unless it will show. */
  ghost predicate Promise(s: State) {
    Quiet(s.host) && !LossWillShow(s) && !SessionWrapped(s.host.read, s.box.mark) ==>
      forall k :: k in s.host.ledger && LastOn(s.up, k).None? ==> (InPlace(s, k) <==> k !in s.box.missed)
  }

  /** From a handshake the promise holds over every run exactly when the handshake's session reading was
      answered. */
  lemma BaselineIsExact(s: State)
    requires Init(s)
    ensures s.host.watch.session.Some? <==> forall run :: Legal(s, run) ==> Promise(After(s, run))
  {
    if s.host.watch.session.Some? {
      forall run | Legal(s, run) ensures Promise(After(s, run)) {
        ReachableKeepsInv(s, run);
        RunIsBaselined(s, run);
        if Quiet(After(s, run).host) && !LossWillShow(After(s, run)) &&
           !SessionWrapped(After(s, run).host.read, After(s, run).box.mark) {
          NoSilentLoss(After(s, run));
        }
      }
    } else {
      var run := LateBaselineLosesARelease(s);
      assert Legal(s, run) && !Promise(After(s, run));
    }
  }

  /** A recovery ends exactly when no hello was heard since its first probe was answered. */
  lemma FinishesIff(s: State)
    requires Inv(s) && s.host.phase.Closing?
    ensures !Next(s, Finish).host.pending <==> s.host.heard == s.host.phase.heard
    ensures Next(s, Finish).host.pending <==> Next(s, Finish).host.watch.recovering
  {
  }

  /** A finished recovery read the session twice in one boot, with the re-send in between: no boot, and
      no release short of a full turn of the counter, came between the two readings. */
  lemma DoneMeansNothingLost(s: State)
    requires Inv(s) && s.host.phase.Closing? && !Next(s, Finish).host.pending
    ensures var mark, last := s.host.phase.mark, s.host.phase.last;
            mark.hellos == last.hellos && mark.boots == last.boots && (SameEpoch(mark, last) || SessionWrapped(mark, last))
    ensures Quiet(Next(s, Finish).host) && !Next(s, Finish).host.watch.owed
  {
    var mark, last := s.host.phase.mark, s.host.phase.last;
    assert Follows(mark, last);
    SameRemainder(mark.released, last.released);
  }

  /** At the end of a recovery, with nothing emptied since the second reading and every command taken,
      the box holds exactly what the host wants it to hold when no entry met a box without a clone, and
      only then. */
  lemma DoneIffNoneMissed(s: State)
    requires Inv(s) && s.host.phase.Closing? && !Next(s, Finish).host.pending && s.up == []
    requires var mark, last := s.host.phase.mark, s.host.phase.last;
             !SessionWrapped(mark, last) && SameEpoch(last, s.box.mark)
    ensures s.box.table == s.host.ledger <==> s.box.inherited == {} && forall k :: k in s.host.ledger ==> k !in s.box.missed
    ensures forall k :: k in s.host.ledger ==> (InPlace(s, k) <==> k !in s.box.missed)
  {
    DoneMeansNothingLost(s);
    forall k | k in s.host.ledger ensures InPlace(s, k) <==> k !in s.box.missed {
      NoneGone(s, s.host.phase.mark, k);
      KeyInPlaceIff(s, k);
    }
    InStepIff(s, s.host.phase.mark);
  }

  /** In particular when the clone stood from the first probe on. */
  lemma DoneMeansReplayed(s: State)
    requires Inv(s) && s.host.phase.Closing? && !Next(s, Finish).host.pending && s.up == []
    requires var mark, last := s.host.phase.mark, s.host.phase.last;
             !SessionWrapped(mark, last) && SameEpoch(last, s.box.mark) && mark.downs == s.box.mark.downs
    ensures forall k :: k in s.host.ledger ==> InPlace(s, k)
    ensures s.box.table == s.host.ledger <==> s.box.inherited == {}
  {
    DoneIffNoneMissed(s);
    DoneMeansNothingLost(s);
    forall k | k in s.host.ledger ensures k !in s.box.missed {
      assert KeyCovered(s, s.host.phase.mark, k);
    }
  }

  // A recovery needs the clone

  /** From here on no probe has been answered "up" that the thread could still wait for, and the thread
      stands at none of the places such an answer leads to. */
  ghost predicate ProbesDown(s: State, from: nat) {
    var p := s.host.phase;
    !s.box.clone && from <= s.host.nextId && IdsIssued(s) &&
    (forall msg :: msg in s.down && msg.CloneReply? && msg.id >= from ==> !msg.up) &&
    (p.Idle? || p.Poll? || p.Moved? || p.Resent? || p.AskClone? || p.AskCloneAgain?) &&
    (p.AskClone? || p.AskCloneAgain? ==> p.id >= from)
  }

  lemma DownStays(s: State, e: Event, from: nat)
    requires ProbesDown(s, from) && Enabled(s, e) && !e.CloneReturns?
    ensures ProbesDown(Next(s, e), from)
  {
    IdsStayIssued(s, e);
    hide Puts, IdsIssued, Elements, BoxSane;
  }

  lemma {:induction false} RunStaysDown(s: State, run: seq<Event>, from: nat)
    requires ProbesDown(s, from) && Legal(s, run) && CloneReturns !in run
    ensures ProbesDown(After(s, run), from)
    decreases |run|
  {
    hide ProbesDown, Enabled, Next;
    if run != [] {
      assert run[0] in run;
      DownStays(s, run[0], from);
      RunStaysDown(Next(s, run[0]), run[1..], from);
    }
  }

  /** No recovery comes to its end, nor gets past another probe, if the clone is away once the re-send is
      on its way and stays away. */
  lemma NoEndWithoutAClone(s: State, run: seq<Event>)
    requires Inv(s) && s.host.phase.Resent? && !s.box.clone && Legal(s, run) && CloneReturns !in run
    ensures var p := After(s, run).host.phase; !p.Closing? && !p.StillUp? && !p.CloneUp? && !p.Resend?
    ensures After(s, run).host.pending && After(s, run).host.watch.recovering
  {
    NothingAhead(s);
    RunStaysDown(s, run, s.host.nextId);
    RunStaysPending(s, run, s.host.nextId);
    ReachableKeepsInv(s, run);
  }

  lemma NothingAhead(s: State)
    requires Inv(s) && s.host.phase.Resent? && !s.box.clone
    ensures ProbesDown(s, s.host.nextId) && s.host.pending
  {
  }

  lemma {:induction false} RunStaysPending(s: State, run: seq<Event>, from: nat)
    requires ProbesDown(s, from) && s.host.pending && Legal(s, run) && CloneReturns !in run
    ensures After(s, run).host.pending
    decreases |run|
  {
    if run != [] {
      assert run[0] in run;
      PendingStays(s, run[0], from);
      DownStays(s, run[0], from);
      hide ProbesDown, Enabled, Next;
      RunStaysPending(Next(s, run[0]), run[1..], from);
    }
  }

  lemma PendingStays(s: State, e: Event, from: nat)
    requires ProbesDown(s, from) && s.host.pending && Enabled(s, e)
    ensures Next(s, e).host.pending
  {
    hide Puts, IdsIssued, Elements, Took, Answer, Released, PartlyReleased, Booted;
  }

  // A clone that comes and goes between the two probes

  lemma {:induction false} OneMoreEvent(s: State, run: seq<Event>, e: Event)
    requires Legal(s, run) && Enabled(After(s, run), e)
    ensures Legal(s, run + [e]) && After(s, run + [e]) == Next(After(s, run), e)
    decreases |run|
  {
    if run == [] {
      assert ([] + [e])[1..] == [];
    } else {
      assert (run + [e])[0] == run[0] && (run + [e])[1..] == run[1..] + [e];
      OneMoreEvent(Next(s, run[0]), run[1..], e);
    }
  }

  predicate Settled(s: State) {
    s.up == [] && s.down == [] && s.box.spoken
  }

  function ReplyTo(s: State, what: What): ToHost {
    if what.AskedClone? then CloneReply(s.host.nextId, s.box.clone, s.box.mark)
    else StatsReply(s.host.nextId, Session(s.box.mark), s.box.mark)
  }

  /** On a settled link a query is taken and answered at once. */
  lemma AskAndHear(s: State, run: seq<Event>, e: Event, what: What, p: Phase) returns (longer: seq<Event>)
    requires Legal(s, run) && Settled(After(s, run)) && Enabled(After(s, run), e)
    requires Next(After(s, run), e) == Ask(After(s, run), what, p)
    ensures Legal(s, longer)
    ensures var t := After(s, run);
            After(s, longer) == t.(host := OnReply(t.host.(phase := p, nextId := t.host.nextId + 1), ReplyTo(t, what)))
  {
    var t := After(s, run);
    OneMoreEvent(s, run, e);
    OneMoreEvent(s, run + [e], BoxTakes);
    OneMoreEvent(s, run + [e] + [BoxTakes], HostHears);
    longer := run + [e] + [BoxTakes] + [HostHears];
    assert Next(t, e).up == [Query(t.host.nextId, what)];
    assert Took(t.box, Query(t.host.nextId, what)) == t.box;
    assert Answer(t.box, Query(t.host.nextId, what)) == [ReplyTo(t, what)];
    assert [ReplyTo(t, what)][1..] == [];
  }

  lemma SendAndTake(s: State, run: seq<Event>, e: Event, msg: ToBox) returns (longer: seq<Event>)
    requires Legal(s, run) && Settled(After(s, run)) && Enabled(After(s, run), e) && !msg.Query?
    requires Next(After(s, run), e) == After(s, run).(host := Next(After(s, run), e).host, up := [msg])
    ensures Legal(s, longer)
    ensures var t := After(s, run);
            After(s, longer) == t.(host := Next(t, e).host, box := Took(t.box, msg))
  {
    OneMoreEvent(s, run, e);
    OneMoreEvent(s, run + [e], BoxTakes);
    longer := run + [e] + [BoxTakes];
    assert [msg][1..] == [];
    assert Answer(After(s, run).box, msg) == [];
  }

  /** One lock, lost to a release; the recovery's first probe finds the clone standing; the clone goes
      and comes back around the re-send with nothing left to count; the recovery ends, and neither a
      hello nor the session counter will ever tell. */
  lemma BouncedCloneLosesTheReplay() returns (s: State, run: seq<Event>)
    ensures Init(s) && Legal(s, run)
    ensures var t := After(s, run);
            Quiet(t.host) && !LossWillShow(t) && t.up == [] && t.box.table == map[] && OnClone(1) in t.host.ledger
  {
    var k := OnClone(1);
    s, run := LockAndLose(k, 5);
    run := NoticeTheLoss(s, run, k, 5);
    run := ProbeAndRead(s, run, map[k := 5]);
    run := ResendToNoClone(s, run, k, 5);
    run := CloseUnawares(s, run, k, 5);
  }

  lemma LockAndLose(k: Key, v: int) returns (s: State, run: seq<Event>)
    requires k.OnClone?
    ensures Init(s) && Legal(s, run)
    ensures After(s, run) == Lost(map[k := v], Idle, 0, false, 0)
  {
    var m := Mark(0, 0, 0, 0);
    s := State(Host(Watch(true, false, false, false, 0, Some(0)), map[], false, Idle, 0, 0, m, m),
               Box(map[], false, true, true, {}, {}, {}, m), [], []);
    run := SendAndTake(s, [], AppPut(k, v), Put(k, v));
    OneMoreEvent(s, run, Release(false));
    run := run + [Release(false)];
    assert map[][k := v] == map[k := v];
    assert {} - {k} == {};
  }

  /** What the answer to a poll does to the host. */
  lemma PollAnswered(h: Host, reading: int, m: Mark)
    ensures OnReply(h.(phase := Poll(h.nextId), nextId := h.nextId + 1), StatsReply(h.nextId, reading, m)) ==
            h.(phase := if h.watch.session.Some? && h.watch.session.value != reading then Moved else Idle,
               nextId := h.nextId + 1, watch := SessionNoted(Replied(h.watch), reading),
               read := if h.watch.session.None? then m else h.read)
  {
  }

  lemma NoticeTheLoss(s: State, run: seq<Event>, k: Key, v: int) returns (longer: seq<Event>)
    requires Legal(s, run) && After(s, run) == Lost(map[k := v], Idle, 0, false, 0)
    ensures Legal(s, longer) && After(s, longer) == Lost(map[k := v], Idle, 1, true, 1)
  {
    hide Took, Booted, Released, PartlyReleased, Puts, Answer, Hear, Covered, Elements;
    assert k in map[k := v];
    longer := AskAndHear(s, run, StartPoll, AskedStats, Poll(0));
    PollAnswered(After(s, run).host, 1, After(s, run).box.mark);
    hide OnReply;
    OneMoreEvent(s, longer, BeginRelease);
    longer := longer + [BeginRelease];
  }

  /** The host after the release, at a given phase, with the box empty and its clone standing. */
  function Lost(held: Table, p: Phase, nextId: nat, recovering: bool, session: int): State {
    State(Host(Watch(true, recovering, false, false, 0, Some(session)), held, recovering, p, nextId, 0,
               Mark(0, 0, 0, 0), Mark(0, 0, 0, 0)),
          Box(map[], false, true, true, {}, held.Keys, {}, Mark(0, 1, 0, 0)), [], [])
  }

  lemma ProbeAndRead(s: State, run: seq<Event>, held: Table) returns (longer: seq<Event>)
    requires Legal(s, run) && After(s, run) == Lost(held, Idle, 1, true, 1)
    ensures Legal(s, longer)
    ensures After(s, longer) == Lost(held, Resend(0, 0, 1, Mark(0, 1, 0, 0)), 3, true, 1)
  {
    longer := AskAndHear(s, run, BeginStep, AskedClone, AskClone(1));
    longer := AskAndHear(s, longer, ReadHellos, AskedStats, AskStats(2, 0, 0, Mark(0, 1, 0, 0)));
  }

  function Bounced(k: Key, v: int, p: Phase, nextId: nat): State {
    var l := Lost(map[k := v], p, nextId, true, 1);
    l.(box := Box(map[], true, true, true, {k}, {}, {}, Mark(0, 1, 1, 0)))
  }

  lemma ResendToNoClone(s: State, run: seq<Event>, k: Key, v: int) returns (longer: seq<Event>)
    requires k.OnClone? && Legal(s, run)
    requires After(s, run) == Lost(map[k := v], Resend(0, 0, 1, Mark(0, 1, 0, 0)), 3, true, 1)
    ensures Legal(s, longer)
    ensures After(s, longer) == Bounced(k, v, Resent(0, 0, 1, Mark(0, 1, 0, 0)), 3)
  {
    OneMoreEvent(s, run, Release(true));
    longer := run + [Release(true)];
    assert map[k := v].Keys == {k} && {k} - {k} == {} && {} + {k} == {k};
    assert [k][..0] == [];
    assert Puts(map[k := v], [k]) == [Put(k, v)];
    longer := SendAndTake(s, longer, SendHeld([k], true), Put(k, v));
    OneMoreEvent(s, longer, CloneReturns);
    longer := longer + [CloneReturns];
  }

  lemma CloseUnawares(s: State, run: seq<Event>, k: Key, v: int) returns (longer: seq<Event>)
    requires Legal(s, run) && After(s, run) == Bounced(k, v, Resent(0, 0, 1, Mark(0, 1, 0, 0)), 3)
    ensures Legal(s, longer)
    ensures var t := After(s, longer);
            Quiet(t.host) && !LossWillShow(t) && t.up == [] && t.box.table == map[] && t.host.ledger == map[k := v]
  {
    hide Took, Booted, Released, PartlyReleased, Puts, Answer, Hear, Covered, Elements;
    var m := Mark(0, 1, 0, 0);
    longer := AskAndHear(s, run, ProbeAgain, AskedClone, AskCloneAgain(3, 0, 0, 1, m));
    longer := AskAndHear(s, longer, ReadAgain, AskedStats, AskStatsAgain(4, 0, 0, 1, m));
    OneMoreEvent(s, longer, Finish);
    longer := longer + [Finish];
  }

  /** No recovery, no probe: the clone goes with nothing to count, one lock meets no clone, the clone
      returns. The re-assert sends no locks, and nothing will ever tell. */
  lemma LockWithoutACloneIsLost() returns (s: State, run: seq<Event>)
    ensures Init(s) && Legal(s, run)
    ensures var t := After(s, run);
            Quiet(t.host) && !t.host.pending && !LossWillShow(t) && t.up == [] && t.down == [] && t.box.clone &&
            t.box.table == map[] && OnClone(1) in t.host.ledger
  {
    var m, k := Mark(0, 0, 0, 0), OnClone(1);
    s := State(Host(Watch(true, false, false, false, 0, Some(0)), map[], false, Idle, 0, 0, m, m),
               Box(map[], false, true, true, {}, {}, {}, m), [], []);
    OneMoreEvent(s, [], Release(true));
    run := [] + [Release(true)];
    run := SendAndTake(s, run, AppPut(k, 5), Put(k, 5));
    OneMoreEvent(s, run, CloneReturns);
    run := run + [CloneReturns];
  }

  /** With no answer to the handshake's session reading, the first poll takes for its baseline what a
      release has already changed: from any such handshake, one lock, one release, one poll, and nothing
      shows that the lock is gone from a box whose clone stood throughout. */
  lemma LateBaselineLosesARelease(s: State) returns (run: seq<Event>)
    requires Init(s) && s.host.watch.session.None?
    ensures Legal(s, run)
    ensures var t := After(s, run);
            Quiet(t.host) && !t.host.pending && t.host.watch.session.Some? && !LossWillShow(t) && t.up == [] && t.down == [] &&
            !SessionWrapped(t.host.read, t.box.mark) && t.box.clone && OnClone(1) !in t.box.missed &&
            t.box.table == map[] && OnClone(1) in t.host.ledger && !Promise(t)
  {
    run := ReleasedBeforeThePoll(s, OnClone(1), 5);
    hide Took, Booted, Released, PartlyReleased, Puts, Answer, Hear, Covered, Elements, BoxSane, Follows, CloneHeld;
    var t := After(s, run);
    assert OnClone(1) in t.host.ledger;
    run := AskAndHear(s, run, StartPoll, AskedStats, Poll(t.host.nextId));
    PollAnswered(t.host, Session(t.box.mark), t.box.mark);
    hide OnReply, Enabled, Next;
    assert LastOn(After(s, run).up, OnClone(1)) == None;
  }

  lemma ReleasedBeforeThePoll(s: State, k: Key, v: int) returns (run: seq<Event>)
    requires Init(s) && k.OnClone?
    ensures Legal(s, run)
    ensures var t := After(s, run);
            t.host == s.host.(ledger := map[k := v]) && Settled(t) &&
            t.box.table == map[] && t.box.clone && k !in t.box.missed
  {
    OneMoreEvent(s, [], CloneReturns);
    run := SendAndTake(s, [] + [CloneReturns], AppPut(k, v), Put(k, v));
    OneMoreEvent(s, run, Release(false));
    run := run + [Release(false)];
    assert map[][k := v] == map[k := v];
    hide Puts, PartlyReleased, Booted, BoxSane, Follows, CloneHeld;
  }

  // A recovery that nothing disturbs

  lemma {:induction false} Listed(keys: set<Key>) returns (ks: seq<Key>)
    ensures Elements(ks) == keys
    decreases keys
  {
    if keys == {} {
      ks := [];
    } else {
      var k :| k in keys;
      ks := Listed(keys - {k});
      assert Elements(ks + [k]) == Elements(ks) + {k};
      ks := ks + [k];
    }
  }

  /** Commands on a settled box are taken one after the other. */
  lemma {:induction false} TakeAll(s: State, run: seq<Event>) returns (longer: seq<Event>)
    requires Legal(s, run)
    requires var t := After(s, run); t.down == [] && t.box.spoken && forall msg :: msg in t.up ==> msg.Put?
    ensures Legal(s, longer)
    ensures var t, u := After(s, run), After(s, longer);
            u.host == t.host && Settled(u) && u.box.mark == t.box.mark && u.box.clone == t.box.clone
    decreases |After(s, run).up|
  {
    longer := run;
    var t := After(s, run);
    if t.up != [] {
      OneMoreEvent(s, run, BoxTakes);
      assert t.up[0] in t.up;
      assert Answer(t.box, t.up[0]) == [];
      longer := TakeAll(s, run + [BoxTakes]);
    }
  }

  lemma ProbeThenRead(s: State) returns (run: seq<Event>)
    requires Inv(s) && s.host.phase.Idle? && s.host.pending && !s.host.watch.owed && Settled(s) && s.box.clone
    ensures Legal(s, run) && Settled(After(s, run))
    ensures var h, t := s.host, After(s, run);
            t.host.phase.Resend? && t.host.ledger == h.ledger && t.box == s.box && t.host.watch.hellos == h.watch.hellos &&
            t.host.phase.seen == h.watch.hellos && t.host.phase.before == Session(s.box.mark) &&
            t.host.phase.mark == s.box.mark
  {
    run := AskAndHear(s, [], BeginStep, AskedClone, AskClone(s.host.nextId));
    var t := After(s, run);
    run := AskAndHear(s, run, ReadHellos, AskedStats, AskStats(t.host.nextId, t.host.watch.hellos, t.host.heard, s.box.mark));
    hide Took, Booted, Released, PartlyReleased, Puts, Answer, Hear, Inv;
  }

  lemma ProbeAgainFindsIt(s: State, run: seq<Event>) returns (longer: seq<Event>)
    requires Legal(s, run) && Settled(After(s, run)) && After(s, run).host.phase.Resent? && After(s, run).box.clone
    ensures Legal(s, longer)
    ensures var p, t, u := After(s, run).host.phase, After(s, run), After(s, longer);
            u.host.phase == StillUp(p.seen, p.heard, p.before, p.mark) && u.host.ledger == t.host.ledger &&
            u.host.watch.hellos == t.host.watch.hellos && u.box == t.box && Settled(u)
  {
    var t := After(s, run);
    var p := t.host.phase;
    hide Took, Booted, Released, PartlyReleased, Puts, Answer, Hear, Covered, Elements;
    longer := AskAndHear(s, run, ProbeAgain, AskedClone, AskCloneAgain(t.host.nextId, p.seen, p.heard, p.before, p.mark));
  }

  lemma ReadAgainFindsItSame(s: State, run: seq<Event>) returns (longer: seq<Event>)
    requires Legal(s, run) && Settled(After(s, run)) && After(s, run).host.phase.StillUp?
    requires var t := After(s, run); t.host.phase.before == Session(t.box.mark)
    ensures Legal(s, longer)
    ensures var p, t, u := After(s, run).host.phase, After(s, run), After(s, longer);
            u.host.phase == Closing(p.seen, p.heard, p.before, p.mark, t.box.mark) && u.host.ledger == t.host.ledger &&
            u.host.watch.hellos == t.host.watch.hellos && u.box == t.box && Settled(u)
  {
    var t := After(s, run);
    var p := t.host.phase;
    hide Took, Booted, Released, PartlyReleased, Puts, Answer, Hear, Covered, Elements;
    longer := AskAndHear(s, run, ReadAgain, AskedStats, AskStatsAgain(t.host.nextId, p.seen, p.heard, p.before, p.mark));
  }

  lemma ReachesClosing(s: State) returns (run: seq<Event>)
    requires Inv(s) && s.host.phase.Idle? && s.host.pending && !s.host.watch.owed && Settled(s) && s.box.clone
    ensures Legal(s, run) && Settled(After(s, run))
    ensures var t := After(s, run);
            t.host.phase.Closing? && t.host.ledger == s.host.ledger && t.host.watch.hellos == t.host.phase.seen &&
            t.box.mark == s.box.mark == t.host.phase.mark == t.host.phase.last
  {
    run := ProbeThenRead(s);
    var t := After(s, run);
    var ks := Listed(t.host.ledger.Keys);
    assert forall k :: k in ks ==> k in Elements(ks);
    OneMoreEvent(s, run, SendHeld(ks, true));
    run := run + [SendHeld(ks, true)];
    PutsAreCommands(t.host.ledger, ks);
    hide Took, Booted, Released, PartlyReleased, Puts, Answer, Hear, OnReply, Inv;
    assert After(s, run).up == Puts(t.host.ledger, ks);
    run := TakeAll(s, run);
    run := ProbeAgainFindsIt(s, run);
    run := ReadAgainFindsItSame(s, run);
  }

  /** From any state in which a recovery is pending, the link is idle and the clone is up, undisturbed
      turns of the keepalive end the recovery with every entry of the ledger in place. */
  lemma RecoveryRestores(s: State) returns (run: seq<Event>)
    requires Inv(s) && s.host.phase.Idle? && s.host.pending && !s.host.watch.owed && Settled(s) && s.box.clone
    ensures Legal(s, run)
    ensures var t := After(s, run);
            !t.host.pending && Quiet(t.host) && t.host.phase.Idle? && t.host.ledger == s.host.ledger && t.up == [] &&
            forall k :: k in t.host.ledger ==> InPlace(t, k)
  {
    run := ReachesClosing(s);
    ReachableKeepsInv(s, run);
    OneMoreEvent(s, run, Finish);
    EndsInPlace(After(s, run));
    run := run + [Finish];
  }

  lemma EndsInPlace(t: State)
    requires Inv(t) && t.host.phase.Closing? && t.up == [] && t.host.watch.hellos == t.host.phase.seen
    requires t.box.mark == t.host.phase.mark == t.host.phase.last
    ensures var u := Next(t, Finish);
            !u.host.pending && Quiet(u.host) && u.host.phase.Idle? && u.host.ledger == t.host.ledger && u.up == [] &&
            forall k :: k in u.host.ledger ==> InPlace(u, k)
  {
    DoneMeansReplayed(t);
    DoneMeansNothingLost(t);
    hide Inv;
  }

  /** A poll over an idle link begins a recovery exactly when the box's counter differs from the reading
      the watch had. */
  lemma PollNotices(s: State) returns (run: seq<Event>)
    requires s.host.phase.Idle? && !s.host.pending && s.host.ledger != map[] && Settled(s)
    ensures Legal(s, run)
    ensures var t := After(s, run);
            (t.host.phase.Moved? <==>
               s.host.watch.session.Some? && s.host.watch.session.value != Session(s.box.mark)) &&
            (!t.host.phase.Moved? ==> t.host.phase.Idle?) && t.box == s.box && t.host.ledger == s.host.ledger &&
            t.host.watch.session == Some(Session(s.box.mark))
    ensures var t := After(s, run);
            t.host.phase.Moved? ==> Next(t, BeginRelease).host.pending && Next(t, BeginRelease).host.watch.recovering
  {
    PollIsAsked(s);
    hide Enabled, Next;
    run := AskAndHear(s, [], StartPoll, AskedStats, Poll(s.host.nextId));
    PollAnswered(s.host, Session(s.box.mark), s.box.mark);
    hide OnReply, Took, Booted, Released, PartlyReleased, Puts, Answer, Hear, Ask;
    if After(s, run).host.phase.Moved? {
      ReleaseBegins(After(s, run));
    }
  }

  lemma PollIsAsked(s: State)
    requires s.host.phase.Idle? && !s.host.pending && s.host.ledger != map[]
    ensures Enabled(s, StartPoll) && Next(s, StartPoll) == Ask(s, AskedStats, Poll(s.host.nextId))
  {
  }

  lemma ReleaseBegins(t: State)
    requires t.host.phase.Moved?
    ensures Enabled(t, BeginRelease)
    ensures Next(t, BeginRelease).host.pending && Next(t, BeginRelease).host.watch.recovering
  {
  }
}
