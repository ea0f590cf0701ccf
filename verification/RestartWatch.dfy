/** What the reader and the keepalive share about restarts: which hello is a new boot, the recovery it
    owes, and the last reading of the box's session counter. */
module RestartWatch {
  import opened Wrappers

  datatype Watch = Watch(armed: bool, recovering: bool, owed: bool, booted: bool, hellos: nat, session: Option<int>)

  /** Any reply on the link arms the watch: another hello is then a new boot. */
  function Replied(w: Watch): Watch {
    w.(armed := true)
  }

  /** One boot says hello twice; the second lands while the recovery the first began is running. */
  function Greeted(w: Watch): Watch {
    if w.recovering then w.(hellos := w.hellos + 1, booted := true)
    else if !w.armed then w
    else w.(armed := false, recovering := true, owed := true, hellos := w.hellos + 1)
  }

  function OwedTaken(w: Watch): Watch {
    w.(recovering := w.recovering || w.owed, owed := false)
  }

  /** A reconnect to a freshly booted chip. */
  function Begun(w: Watch): Watch {
    w.(recovering := true, owed := true, hellos := w.hellos + 1)
  }

  function SessionNoted(w: Watch, reading: int): Watch {
    w.(session := Some(reading))
  }

  predicate SessionDiffers(w: Watch, reading: int) {
    w.session.Some? && w.session.value != reading
  }

  /** A release keeps the watch open for a second part. */
  function ReleaseBegun(w: Watch): Watch {
    w.(recovering := true)
  }

  function BootTaken(w: Watch): Watch {
    w.(booted := false)
  }

  /** The recovery ends unless a hello arrived after `seen`. */
  function Finished(w: Watch, seen: nat): Watch {
    if w.hellos == seen then w.(recovering := false) else w
  }

  // How many recoveries a boot begins

  datatype Move = HeardReply | HeardHello | TookOwed | Reconnected

  function Turned(w: Watch, m: Move): Watch {
    match m
    case HeardReply => Replied(w)
    case HeardHello => Greeted(w)
    case TookOwed => OwedTaken(w)
    case Reconnected => Begun(w)
  }

  function AfterMoves(w: Watch, moves: seq<Move>): Watch {
    if moves == [] then w else Turned(AfterMoves(w, moves[..|moves| - 1]), moves[|moves| - 1])
  }

  /** Recoveries handed over along the way. */
  function HandedOver(w: Watch, moves: seq<Move>): nat {
    if moves == [] then 0
    else
      var before := moves[..|moves| - 1];
      HandedOver(w, before) + if moves[|moves| - 1] == TookOwed && AfterMoves(w, before).owed then 1 else 0
  }

  function Reconnects(moves: seq<Move>): nat {
    if moves == [] then 0
    else Reconnects(moves[..|moves| - 1]) + if moves[|moves| - 1] == Reconnected then 1 else 0
  }

  /** Until a recovery ends, all the hellos the chip sends, in whatever order with replies and with the
      keepalive's turns, owe or hand over one recovery between them; a reconnect to a fresh chip adds at
      most one each, and if any of these came at least one is owed or was handed over. */
  lemma {:induction false} OneRecoveryPerBoot(w: Watch, moves: seq<Move>)
    requires w.armed && !w.recovering && !w.owed
    ensures var now := AfterMoves(w, moves); var owing := HandedOver(w, moves) + if now.owed then 1 else 0;
            owing <= (if HeardHello in moves then 1 else 0) + Reconnects(moves) &&
            (owing > 0 <==> HeardHello in moves || Reconnected in moves) &&
            (now.recovering <==> HeardHello in moves || Reconnected in moves) && (now.recovering || now.armed)
  {
    if moves != [] {
      var before, m := moves[..|moves| - 1], moves[|moves| - 1];
      OneRecoveryPerBoot(w, before);
      assert moves == before + [m];
      assert forall x :: x in moves <==> x in before || x == m;
    }
  }

  function HellosIn(moves: seq<Move>): nat {
    if moves == [] then 0 else HellosIn(moves[..|moves| - 1]) + if moves[|moves| - 1] == HeardHello then 1 else 0
  }

  /** Every hello and every reconnect is counted; a second hello (or one after a reconnect) leaves a boot
      to count at the end. */
  lemma {:induction false} HellosAreCounted(w: Watch, moves: seq<Move>)
    requires w.armed && !w.recovering && !w.owed
    ensures var now := AfterMoves(w, moves);
            now.hellos == w.hellos + HellosIn(moves) + Reconnects(moves) && now.session == w.session &&
            (Reconnects(moves) == 0 ==> (now.booted <==> w.booted || HellosIn(moves) >= 2)) &&
            (now.recovering <==> HellosIn(moves) + Reconnects(moves) > 0) &&
            (now.recovering || now.armed) && (now.owed ==> now.recovering)
  {
    if moves != [] {
      HellosAreCounted(w, moves[..|moves| - 1]);
    }
  }

  /** The hello that begins a recovery disarms the watch until the chip replies. */
  lemma {:induction false} ArmedByAReply(w: Watch, moves: seq<Move>)
    requires w.armed && !w.recovering
    ensures AfterMoves(Greeted(w), moves).recovering && (AfterMoves(Greeted(w), moves).armed <==> HeardReply in moves)
  {
    if moves != [] {
      var before, m := moves[..|moves| - 1], moves[|moves| - 1];
      ArmedByAReply(w, before);
      assert moves == before + [m];
      assert HeardReply in moves <==> HeardReply in before || m == HeardReply;
    }
  }

  /** What the payload of a hello says of the box. */
  datatype Greeting = Unreadable | OtherProtocol | Ours

  class SharedWatch {
    var armed: bool
    var recovering: bool
    var owed: bool
    var booted: bool
    var hellos: nat
    var session: Option<int>
    // The box answers on another protocol, so every command is refused.
    var refused: bool

    ghost function State(): Watch
      reads this
    {
      Watch(armed, recovering, owed, booted, hellos, session)
    }

    constructor ()
      ensures State() == Watch(false, false, false, false, 0, None) && !refused
    {
      refused := false;
      armed, recovering, owed, booted, hellos, session := false, false, false, false, 0, None;
    }

    method NoteReply()
      modifies `armed
      ensures State() == Replied(old(State()))
    {
      armed := true;
    }

    /** A box on another protocol is refused; the first hello back on this one is a boot, armed or not. */
    method NoteHello(g: Greeting)
      modifies this
      ensures refused == if g == Unreadable then old(refused) else g == OtherProtocol
      ensures g != Ours ==> State() == old(State())
      ensures g == Ours ==> State() == Greeted(if old(refused) then Replied(old(State())) else old(State()))
      ensures g == Ours && old(refused) ==> recovering && (old(recovering) || owed)
    {
      if g == Unreadable {
        return;
      }
      if g == OtherProtocol {
        refused := true;
        return;
      }
      armed := armed || refused;
      refused := false;
      if recovering {
        hellos := hellos + 1;
        booted := true;
        return;
      }
      if !armed {
        return;
      }
      armed := false;
      recovering := true;
      owed := true;
      hellos := hellos + 1;
    }

    method Begin()
      modifies this
      ensures State() == Begun(old(State())) && refused == old(refused)
    {
      recovering := true;
      owed := true;
      hellos := hellos + 1;
    }

    method TakeOwed() returns (owes: bool)
      modifies this
      ensures owes == old(owed) && State() == OwedTaken(old(State())) && refused == old(refused)
      ensures !owed && (owes ==> recovering)
    {
      if owed {
        recovering := true;
      }
      owes := owed;
      owed := false;
    }

    method Finish(seen: nat) returns (done: bool)
      modifies `recovering
      ensures done == (old(hellos) == seen) && State() == Finished(old(State()), seen)
    {
      if hellos != seen {
        return false;
      }
      recovering := false;
      return true;
    }

    method NoteSession(reading: int)
      modifies `session
      ensures State() == SessionNoted(old(State()), reading)
    {
      session := Some(reading);
    }

    method SessionMoved(reading: int) returns (moved: bool)
      modifies `session
      ensures moved == SessionDiffers(old(State()), reading)
      ensures State() == SessionNoted(old(State()), reading)
    {
      moved := session.Some? && session.value != reading;
      session := Some(reading);
    }

    method BeginRelease()
      modifies `recovering
      ensures State() == ReleaseBegun(old(State()))
    {
      recovering := true;
    }

    method TakeBooted() returns (was: bool)
      modifies `booted
      ensures was == old(booted) && State() == BootTaken(old(State()))
    {
      was := booted;
      booted := false;
    }
  }
}
