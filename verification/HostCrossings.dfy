/**
 When a session's two tasks get in each other's way: an offer waits beside a transfer,
 a transfer is dropped with its file left behind, or the flag stays up with nothing
 waiting. Each with its exact condition on the order of accesses, and a run.
 */
module HostCrossings {
  import opened Bytes
  import opened FileNames
  import opened FileReceive
  import opened HostHistory
  import opened HostRuns
  import opened HostTransfers
  import opened Options
  import opened SharedDirectory

  // ------------------------------------------------------------- what a step notes

  /** What was noted stays; what is new happened in this step. */
  ghost predicate Grown(s: Seat, t: Seat) {
    && (forall e :: e in s.at ==> e in t.at && t.at[e] == s.at[e])
    && (forall e :: e in t.at && e !in s.at ==> t.at[e] == s.clock)
    && (forall b: nat :: SeesFree(b) in t.at && SeesFree(b) !in s.at ==> b == s.next)
    && (forall a: nat :: Clears(a) in t.at && Clears(a) !in s.at ==> s.answers != [] && a == s.answers[0].ticket.number)
    && (forall b: nat :: SeesClear(b) in t.at && SeesClear(b) !in s.at ==>
          s.pump.SawFree? && s.pump.ticket.number == b && !s.pending && t.slot == s.slot && t.pump.SawClear? && t.pump.ticket.number == b)
    && (forall a: nat :: Stores(a) in t.at && Stores(a) !in s.at ==>
          s.supervisor.Opened? && s.supervisor.ticket.number == a && t.slot == Some(a) && t.pump == s.pump
          && t.waiting == s.waiting && t.answers == s.answers)
  }

  lemma MarkGrows(s: Seat, e: Access, t: Seat)
    requires e !in s.at && t.at == Mark(s, e).at
    requires match e
             case SeesFree(b) => b == s.next
             case Clears(a) => s.answers != [] && a == s.answers[0].ticket.number
             case SeesClear(b) => s.pump.SawFree? && s.pump.ticket.number == b && !s.pending && t.slot == s.slot
                                  && t.pump.SawClear? && t.pump.ticket.number == b
             case Stores(_) => false
             case _ => true
    ensures Grown(s, t)
  {
  }

  lemma StillGrows(s: Seat, t: Seat)
    requires t.at == s.at
    ensures Grown(s, t)
  {
  }

  lemma StoringGrows(s: Seat)
    requires SeatInv(s) && s.supervisor.Opened?
    ensures Grown(s, Ticked(Storing(s)))
  {
    hide FlagInv, DroppedBySome, Out, OneWaits, CheckingInv, OutInv, Crosses;
  }

  /** The accesses a step is about to note have not happened before. */
  lemma ToCome(s: Seat)
    requires SeatInv(s)
    ensures SeesFree(s.next) !in s.at
    ensures s.pump.SawFree? ==> SeesClear(s.pump.ticket.number) !in s.at && Loses(s.pump.ticket.number) !in s.at
    ensures s.pump.SawClear? ==> Loses(s.pump.ticket.number) !in s.at
    ensures s.pump.Filed? ==> Sets(s.pump.ticket.number) !in s.at
    ensures |s.waiting| + |s.answers| <= 1
    ensures s.waiting != [] ==> Loses(s.waiting[0].number) !in s.at
    ensures s.answers != [] ==> Clears(s.answers[0].ticket.number) !in s.at
    ensures !s.supervisor.Gone? ==> TearsDown !in s.at
  {
    hide DroppedBySome, Crosses, BusyInv, PastInv;
  }

  lemma PumpGrows(h: Host, k: nat, sha: Digest, io: Io, duplicate: bool)
    requires SeatInv(h.seat)
    ensures Grown(h.seat, Ticked(OnPump(h, k, sha, io, duplicate).0.seat))
  {
    hide SeatInv, Grown, OnEnd, Listed;
    var s := h.seat;
    var t := Ticked(OnPump(h, k, sha, io, duplicate).0.seat);
    ToCome(s);
    match s.pump
    case SawFree(p) => MarkGrows(s, if s.pending then Loses(p.number) else SeesClear(p.number), t);
    case SawClear(p) =>
      if t.at == s.at {
        StillGrows(s, t);
      } else {
        MarkGrows(s, Loses(p.number), t);
      }
    case Filed(p) => MarkGrows(s, Sets(p.number), t);
    case _ => StillGrows(s, t);
  }

  lemma SuperviseGrows(h: Host, k: nat, io: Io)
    requires SeatInv(h.seat)
    ensures Grown(h.seat, Ticked(OnSupervise(h, k, io).0.seat))
  {
    hide SeatInv, Grown, Open, Discard;
    var s := h.seat;
    var t := Ticked(OnSupervise(h, k, io).0.seat);
    ToCome(s);
    match s.supervisor
    case Resting =>
      if s.answers == [] {
        StillGrows(s, t);
      } else {
        MarkGrows(s, Clears(s.answers[0].ticket.number), t);
      }
    case Opened(p) => StoringGrows(s);
    case Leaving => MarkGrows(s, TearsDown, t);
    case _ => StillGrows(s, t);
  }

  lemma QueuesGrow(s: Seat, place: nat, accept: bool, sent: bool)
    requires SeatInv(s)
    ensures Grown(s, Ticked(OnPanel(s, place, accept, sent))) && Grown(s, Ticked(OnLeave(s)))
  {
    hide SeatInv, Grown;
    ToCome(s);
    var t, u := Ticked(OnPanel(s, place, accept, sent)), Ticked(OnLeave(s));
    if place < |s.waiting| && !sent {
      MarkGrows(s, Loses(s.waiting[0].number), t);
    } else {
      StillGrows(s, t);
    }
    if s.supervisor.Resting? && s.waiting != [] {
      assert s.waiting[1..] == [] && Forgotten(Mark(s, Loses(s.waiting[0].number)), []) == Mark(s, Loses(s.waiting[0].number));
      MarkGrows(s, Loses(s.waiting[0].number), u);
    } else {
      StillGrows(s, u);
    }
  }

  lemma ActGrows(h: Host, k: nat, c: Choice, max: nat, sha: Digest)
    requires SeatInv(h.seat)
    ensures Grown(h.seat, Act(h, k, c, max, sha).0.seat)
  {
    hide SeatInv, Grown, OnPump, OnSupervise, OnPanel, OnLeave, OnChunk, Emptied, Sane;
    var s, t := h.seat, Act(h, k, c, max, sha).0.seat;
    match c
    case Receive(m, io) =>
      ToCome(s);
      EmptiedSeat(h, k);
      if t.at == s.at {
        StillGrows(s, t);
      } else {
        MarkGrows(s, SeesFree(s.next), t);
      }
    case PumpOn(io, duplicate) => PumpGrows(h, k, sha, io, duplicate);
    case Panel(place, accept, sent) => QueuesGrow(s, place, accept, sent);
    case Supervise(io) => SuperviseGrows(h, k, io);
    case Leave => QueuesGrow(s, 0, false, false);
  }

  // --------------------------------------------------------------- offers that cross

  lemma CrossedStays(s: Seat, t: Seat, b: nat, a: nat)
    requires Hist(s) && Grown(s, t) && Crossed(s.at, b, a)
    ensures Crossed(t.at, b, a)
  {
    hide OneWaits, CheckingInv, OutInv, BusyInv, PresentInv, PastInv;
  }

  lemma BesideCrosses(t: Seat, b: nat, a: nat)
    requires Hist(t) && Beside(t, b, a)
    ensures Crossed(t.at, b, a)
  {
    hide OneWaits, CheckingInv, BusyInv, PastInv, Out;
  }

  /** An offer that has just crossed waits beside the transfer. */
  lemma CrossedIsBeside(s: Seat, t: Seat, b: nat, a: nat)
    requires Hist(s) && Hist(t) && Grown(s, t) && Crossed(t.at, b, a) && !Crossed(s.at, b, a)
    ensures Beside(t, b, a)
  {
    if SeesClear(b) !in s.at {
      SeenBeside(s, t, b, a);
    } else if Stores(a) !in s.at {
      StoredBeside(s, t, b, a);
    }
  }

  lemma SeenBeside(s: Seat, t: Seat, b: nat, a: nat)
    requires Hist(s) && Hist(t) && Grown(s, t) && Crossed(t.at, b, a) && SeesClear(b) !in s.at
    ensures Beside(t, b, a)
  {
    hide OutInv, BusyInv, DroppedBySome;
  }

  lemma StoredBeside(s: Seat, t: Seat, b: nat, a: nat)
    requires Hist(s) && Hist(t) && Grown(s, t) && Crossed(t.at, b, a) && SeesClear(b) in s.at && Stores(a) !in s.at
    ensures Beside(t, b, a)
  {
    hide CheckingInv, DroppedBySome;
  }

  lemma TurnGrows(w: World, t: Turn, start: Disk, max: nat, sha: Digest, k: nat)
    requires WorldInv(w, start, max, sha) && k < |w.seats|
    ensures var u := Step(w, t, max, sha).0;
            && |u.seats| == |w.seats| && Hist(w.seats[k]) && Hist(u.seats[k]) && FlagInv(u.seats[k])
            && (u.seats[k] == w.seats[k] || Grown(w.seats[k], u.seats[k]))
  {
    hide Orderly, Hist, FlagInv, Holds, Act, Grown;
    assert SeatInv(w.seats[k]);
    if t.who == k {
      ActKeeps(Host(w.dir, w.seats[k]), k, t.choice, max, sha);
      ActGrows(Host(w.dir, w.seats[k]), k, t.choice, max, sha);
    }
  }

  /** After the first `i` turns offer `b` waits beside transfer `a` of session `k`. */
  ghost predicate BesideAfter(start: Disk, sessions: nat, max: nat, sha: Digest, turns: seq<Turn>, k: nat, b: nat, a: nat, i: nat)
    requires k < sessions
  {
    i <= |turns| && Beside(Exec(start, sessions, max, sha, turns[..i]).seats[k], b, a)
  }

  lemma OneMoreAfter(start: Disk, sessions: nat, max: nat, sha: Digest, before: seq<Turn>, turns: seq<Turn>, k: nat, b: nat, a: nat)
    requires k < sessions && turns != [] && before == turns[..|turns| - 1]
    ensures (exists i: nat :: BesideAfter(start, sessions, max, sha, turns, k, b, a, i))
            <==> (exists i: nat :: BesideAfter(start, sessions, max, sha, before, k, b, a, i))
                 || Beside(Exec(start, sessions, max, sha, turns).seats[k], b, a)
  {
    hide Exec, Beside;
    assert turns[..|turns|] == turns;
    forall i: nat | i < |turns|
      ensures BesideAfter(start, sessions, max, sha, turns, k, b, a, i) <==> BesideAfter(start, sessions, max, sha, before, k, b, a, i)
    {
      assert turns[..i] == before[..i];
    }
    if Beside(Exec(start, sessions, max, sha, turns).seats[k], b, a) {
      assert BesideAfter(start, sessions, max, sha, turns, k, b, a, |turns|);
    }
  }

  /** Over any run an offer waits beside a transfer at some time if and only if the
      offer's transfer check came before the store of the transfer and the clear of the
      flag for the transfer before the offer's flag check, and by then the offer was not
      lost, the transfer not dropped and the session not torn down. */
  lemma {:induction false} BesideIffCrossed(start: Disk, sessions: nat, max: nat, sha: Digest, turns: seq<Turn>, k: nat, b: nat, a: nat)
    requires k < sessions
    ensures (exists i: nat :: BesideAfter(start, sessions, max, sha, turns, k, b, a, i))
            <==> Crossed(Exec(start, sessions, max, sha, turns).seats[k].at, b, a)
  {
    hide BesideAfter, Beside, Crossed, Step, WorldInv, Hist, FlagInv, Grown;
    if turns == [] {
      NothingBeside(start, sessions, max, sha, k, b, a);
    } else {
      var before, t := turns[..|turns| - 1], turns[|turns| - 1];
      var w := Exec(start, sessions, max, sha, before);
      BesideIffCrossed(start, sessions, max, sha, before, k, b, a);
      OneMoreAfter(start, sessions, max, sha, before, turns, k, b, a);
      EveryInterleavingIsSound(start, sessions, max, sha, before);
      TurnGrows(w, t, start, max, sha, k);
      OneMoreCross(w.seats[k], Step(w, t, max, sha).0.seats[k], b, a);
    }
  }

  lemma NothingBeside(start: Disk, sessions: nat, max: nat, sha: Digest, k: nat, b: nat, a: nat)
    requires k < sessions
    ensures !Crossed(Exec(start, sessions, max, sha, []).seats[k].at, b, a)
    ensures forall i: nat :: !BesideAfter(start, sessions, max, sha, [], k, b, a, i)
  {
  }

  lemma OneMoreCross(s: Seat, t: Seat, b: nat, a: nat)
    requires Hist(s) && Hist(t) && (t == s || Grown(s, t))
    ensures Crossed(t.at, b, a) <==> Crossed(s.at, b, a) || Beside(t, b, a)
  {
    hide Beside, Crossed, Grown, Hist;
    if Beside(t, b, a) {
      BesideCrosses(t, b, a);
    } else if t != s && Crossed(s.at, b, a) {
      CrossedStays(s, t, b, a);
    } else if t != s && Crossed(t.at, b, a) {
      CrossedIsBeside(s, t, b, a);
    }
  }

  // ----------------------------------------------------------- transfers that are dropped

  /** A transfer is dropped only by a store whose offer crossed it. */
  lemma DropsAreCrossed(start: Disk, sessions: nat, max: nat, sha: Digest, turns: seq<Turn>, k: nat, a: nat)
    requires k < sessions && Drops(a) in Exec(start, sessions, max, sha, turns).seats[k].at
    ensures exists b: nat :: DroppedBy(Exec(start, sessions, max, sha, turns).seats[k].at, a, b)
  {
    hide Exec, FlagInv, Orderly, Holds, Timed, OneWaits, CheckingInv, OutInv, BusyInv, PresentInv, DroppedBy;
    AtWork(start, sessions, max, sha, turns, k);
  }

  /** On a run where no offer crosses a transfer everything is as meant: no transfer is
      dropped, the session has at most one with a file, and no offer waits beside one. */
  lemma UncrossedIsAsMeant(start: Disk, sessions: nat, max: nat, sha: Digest, turns: seq<Turn>, k: nat)
    requires k < sessions
    requires forall b: nat, a: nat :: !Crossed(Exec(start, sessions, max, sha, turns).seats[k].at, b, a)
    ensures var w := Exec(start, sessions, max, sha, turns);
            && (forall n: nat :: Drops(n) !in w.seats[k].at)
            && (forall m: nat, n: nat :: Key(k, m) in w.dir.files && Key(k, n) in w.dir.files ==> m == n)
            && (w.seats[k].slot.Some? ==> Out(w.seats[k]).None?)
  {
    hide Exec, Orderly, SeatInv, Crossed, Vetted, Sane, DroppedBy, Out;
    AtWork(start, sessions, max, sha, turns, k);
    var w := Exec(start, sessions, max, sha, turns);
    forall n: nat
      ensures Drops(n) !in w.seats[k].at
    {
      if Drops(n) in w.seats[k].at {
        DropsAreCrossed(start, sessions, max, sha, turns, k, n);
        var b: nat :| DroppedBy(w.seats[k].at, n, b);
        DroppedCrossed(w.seats[k].at, n, b);
      }
    }
    OneHeld(w.seats[k]);
  }

  lemma DroppedCrossed(at: Times, a: nat, b: nat)
    requires DroppedBy(at, a, b)
    ensures Crossed(at, b, a)
  {
  }

  lemma OneHeld(s: Seat)
    requires SeatInv(s)
    requires forall b: nat, a: nat :: !Crossed(s.at, b, a)
    ensures s.slot.Some? ==> Out(s).None? && !s.supervisor.Opened? && !s.pump.Ending?
    ensures s.supervisor.Opened? ==> !s.pump.Ending?
  {
    hide FlagInv, Timed, OneWaits, CheckingInv, PastInv, Crossed;
    if s.slot.Some? && Out(s).Some? {
      NowCrossed(s, Out(s).value, s.slot.value);
    }
    if s.supervisor.Opened? && s.slot.Some? {
      NowCrossed(s, s.supervisor.ticket.number, s.slot.value);
    }
    if s.supervisor.Opened? && s.pump.Ending? {
      NowCrossed(s, s.supervisor.ticket.number, s.pump.number);
    }
    if s.slot.Some? && s.pump.Ending? {
      NowCrossed(s, s.slot.value, s.pump.number);
    }
  }

  lemma NowCrossed(s: Seat, b: nat, a: nat)
    requires Crosses(s.at, b, a) && Loses(b) !in s.at && Drops(a) !in s.at && TearsDown !in s.at
    ensures Crossed(s.at, b, a)
  {
  }

  // ------------------------------------------------------------------ runs that fail

  lemma Departs(h: Host, k: nat, io: Io, max: nat, sha: Digest)
    requires h.seat.supervisor.Resting? && h.seat.waiting == [] && h.seat.slot.Some?
    ensures var t := Acts(h, k, [Leave, Supervise(io)], max, sha);
            && t.dir == Emptied(h, k).dir && t.seat.supervisor.Gone? && t.seat.slot.None? && t.seat.pump == h.seat.pump
            && forall a: nat :: Drops(a) in h.seat.at ==> Drops(a) in t.seat.at
  {
    hide Acts, OnReceive, OnPump, Discard;
    Two(h, k, Leave, Supervise(io), max, sha);
    assert Forgotten(h.seat, []) == h.seat;
  }

  /** From any reachable state: when an offer waits beside a transfer, is accepted and
      can be opened, the transfer is dropped, and its file outlives the session. */
  lemma AcceptDropsTheOther(start: Disk, sessions: nat, max: nat, sha: Digest, turns: seq<Turn>, k: nat, t: Ticket, a: nat, io: Io)
    requires k < sessions
    requires var w := Exec(start, sessions, max, sha, turns);
             && w.seats[k].slot == Some(a) && w.seats[k].waiting == [t] && w.seats[k].supervisor.Resting?
             && io.storage && PartName(t.offer.id) !in w.dir.disk
    ensures var w := Exec(start, sessions, max, sha, turns);
            var u := Exec(start, sessions, max, sha, turns + TurnsOf(k, Accepting(io) + [Leave, Supervise(io)]));
            && Drops(a) in u.seats[k].at && u.seats[k].supervisor.Gone? && u.seats[k].slot.None?
            && Key(k, a) in w.dir.files && Key(k, a) in u.dir.files && u.dir.files[Key(k, a)] == w.dir.files[Key(k, a)]
            && u.dir.files[Key(k, a)].part in u.dir.disk && u.dir.delivered == w.dir.delivered
  {
    hide Exec, Acts, Orderly, SeatInv, Sane, Vetted, PartName, Sanitize, Lower, Accepting;
    var w := Exec(start, sessions, max, sha, turns);
    var h := Host(w.dir, w.seats[k]);
    AtWork(start, sessions, max, sha, turns, k);
    HeldIsThere(h, k, a, start, max, sha);
    WaitsApart(w.seats[k], a);
    ActsAreTurns(start, sessions, max, sha, turns, k, Accepting(io) + [Leave, Supervise(io)]);
    ActsJoin(h, k, Accepting(io), [Leave, Supervise(io)], max, sha);
    AcceptingStores(h, k, t, io, max, sha);
    Departs(Acts(h, k, Accepting(io), max, sha), k, io, max, sha);
  }

  lemma WaitsApart(s: Seat, a: nat)
    requires SeatInv(s) && s.slot == Some(a) && s.waiting != []
    ensures s.waiting[0].number != a && s.answers == []
  {
    hide FlagInv, CheckingInv, BusyInv, PastInv, Crosses;
  }

  /** The panel accepts offer A; before the supervisor stores its transfer the pump
      checks offer B. */
  function Crossing(a: Msg, b: Msg, io: Io): seq<Choice> {
    (Filing(a, io) + [Panel(0, true, true), Supervise(io)]) + (Filing(b, io) + [Supervise(io), Supervise(io)])
  }

  lemma TakesUp(h: Host, k: nat, t: Ticket, io: Io, max: nat, sha: Digest)
    requires h.seat.waiting == [t] && h.seat.answers == [] && h.seat.supervisor.Resting?
    ensures var u := Acts(h, k, [Panel(0, true, true), Supervise(io)], max, sha);
            u.dir == h.dir && Bare(u.seat) == Bare(h.seat.(pending := false, waiting := [], supervisor := Cleared(t)))
  {
    hide Acts, OnReceive, OnPump, OnLeave, Open;
    Two(h, k, Panel(0, true, true), Supervise(io), max, sha);
    assert [t][..0] + [t][1..] == [] && [] + [Answer(t, true)] == [Answer(t, true)] && [Answer(t, true)][1..] == [];
  }

  lemma StoresOpened(h: Host, k: nat, io: Io, max: nat, sha: Digest)
    requires h.seat.supervisor.Cleared? && h.seat.slot.None? && io.storage
    requires Open(View(h.dir, Key(k, h.seat.supervisor.ticket.number)), h.seat.supervisor.ticket.offer).Some?
    ensures var t := h.seat.supervisor.ticket;
            var u, key := Acts(h, k, [Supervise(io), Supervise(io)], max, sha), Key(k, t.number);
            && u.dir == Back(h.dir, key, Open(View(h.dir, key), t.offer).value)
            && Bare(u.seat) == Bare(h.seat.(slot := Some(t.number), supervisor := Resting))
  {
    hide Acts, OnReceive, OnPump, OnLeave, Open;
    Two(h, k, Supervise(io), Supervise(io), max, sha);
  }

  /** Then B waits beside A's transfer. */
  lemma CrossingRun(start: Disk, max: nat, sha: Digest, a: OfferMsg, b: OfferMsg, io: Io)
    requires Sane(a, max) && Sane(b, max) && io.storage && PartName(a.id) !in start
    ensures var w := Exec(start, 1, max, sha, TurnsOf(0, Crossing(a, b, io)));
            && Beside(w.seats[0], 1, 0) && w.seats[0].waiting == [Ticket(1, b)] && w.seats[0].supervisor.Resting?
            && w.seats[0].pump.Reading? && w.dir == Back(Dir(start, [], map[]), Key(0, 0), Open(Core(None, start, []), a).value)
  {
    hide Acts, Exec, Sane, Filing, PartName, Sanitize, Lower;
    var h0 := Host(Dir(start, [], map[]), NewSeat);
    NothingRun(start, max, sha);
    ActsAreTurns(start, 1, max, sha, [], 0, Crossing(a, b, io));
    assert [] + TurnsOf(0, Crossing(a, b, io)) == TurnsOf(0, Crossing(a, b, io));
    ActsJoin(h0, 0, Filing(a, io) + [Panel(0, true, true), Supervise(io)], Filing(b, io) + [Supervise(io), Supervise(io)], max, sha);
    ActsJoin(h0, 0, Filing(a, io), [Panel(0, true, true), Supervise(io)], max, sha);
    FilingWaits(h0, 0, a, io, max, sha);
    var h1 := Acts(h0, 0, Filing(a, io), max, sha);
    TakesUp(h1, 0, Ticket(0, a), io, max, sha);
    var h2 := Acts(h1, 0, [Panel(0, true, true), Supervise(io)], max, sha);
    ActsJoin(h2, 0, Filing(b, io), [Supervise(io), Supervise(io)], max, sha);
    FilingWaits(h2, 0, b, io, max, sha);
    StoresOpened(Acts(h2, 0, Filing(b, io), max, sha), 0, io, max, sha);
  }

  lemma NothingRun(start: Disk, max: nat, sha: Digest)
    ensures Exec(start, 1, max, sha, []) == World(Dir(start, [], map[]), [NewSeat])
  {
  }

  /** And when B is accepted, A's partial file is still there after the session. */
  lemma LitterRun(start: Disk, max: nat, sha: Digest, a: OfferMsg, b: OfferMsg, io: Io)
    requires Sane(a, max) && Sane(b, max) && io.storage && PartName(a.id) !in start && PartName(b.id) !in start
    requires PartName(a.id) != PartName(b.id)
    ensures var turns := TurnsOf(0, Crossing(a, b, io)) + TurnsOf(0, Accepting(io) + [Leave, Supervise(io)]);
            var w := Exec(start, 1, max, sha, turns);
            && w.seats[0].supervisor.Gone? && AtRest(w.seats[0]) && w.dir.delivered == []
            && PartName(a.id) in w.dir.disk && w.dir.disk != start
  {
    hide Acts, Exec, Sane, Filing, Accepting, Crossing, PartName, Sanitize, Lower, Vetted, Orderly, FlagInv, Held;
    var turns := TurnsOf(0, Crossing(a, b, io));
    CrossingRun(start, max, sha, a, b, io);
    AcceptDropsTheOther(start, 1, max, sha, turns, 0, Ticket(1, b), 0, io);
    ByTheSupervisor(io);
    LeftAtRest(start, max, sha, turns, Accepting(io) + [Leave, Supervise(io)]);
  }

  lemma ByTheSupervisor(io: Io)
    ensures forall c :: c in Accepting(io) + [Leave, Supervise(io)] ==> !c.Receive? && !c.PumpOn?
  {
  }

  /** The supervisor's steps leave an idle pump idle. */
  lemma LeftAtRest(start: Disk, max: nat, sha: Digest, turns: seq<Turn>, choices: seq<Choice>)
    requires Exec(start, 1, max, sha, turns).seats[0].pump.Reading?
    requires forall c :: c in choices ==> !c.Receive? && !c.PumpOn?
    ensures Exec(start, 1, max, sha, turns + TurnsOf(0, choices)).seats[0].pump.Reading?
  {
    hide Acts, Exec;
    var w := Exec(start, 1, max, sha, turns);
    ActsAreTurns(start, 1, max, sha, turns, 0, choices);
    PumpIdles(Host(w.dir, w.seats[0]), 0, choices, max, sha);
  }

  lemma {:induction false} PumpIdles(h: Host, k: nat, choices: seq<Choice>, max: nat, sha: Digest)
    requires h.seat.pump.Reading? && forall c :: c in choices ==> !c.Receive? && !c.PumpOn?
    ensures Acts(h, k, choices, max, sha).seat.pump.Reading?
    decreases |choices|
  {
    if choices != [] {
      var rest, c := choices[..|choices| - 1], choices[|choices| - 1];
      assert c in choices && forall x :: x in rest ==> x in choices;
      PumpIdles(h, k, rest, max, sha);
      PumpUntouched(Acts(h, k, rest, max, sha), k, c, max, sha);
    }
  }

  lemma PumpUntouched(h: Host, k: nat, c: Choice, max: nat, sha: Digest)
    requires !c.Receive? && !c.PumpOn?
    ensures Act(h, k, c, max, sha).0.seat.pump == h.seat.pump
  {
    hide OnReceive, OnPump, Open, Discard;
    ForgottenSame(h.seat, h.seat.waiting);
  }

  // ---------------------------------------------------------------- the flag left up

  /** Over any run, and at any time, the flag is up with no offer waiting or about to
      raise it if and only if some offer raised it after its own answer had cleared it, or
      raised it and left the queue without an answer. */
  lemma FlagLeftIff(start: Disk, sessions: nat, max: nat, sha: Digest, turns: seq<Turn>, k: nat)
    requires k < sessions
    ensures var s := Exec(start, sessions, max, sha, turns).seats[k];
            FlagLeft(s) <==> exists b: nat :: LeftBy(s.at, b)
  {
    hide Exec, Orderly, Hist, Holds;
    AtWork(start, sessions, max, sha, turns, k);
  }

  /** From then on the session takes no offer: whatever else happens, no offer passes
      the flag check any more. */
  lemma {:induction false} FlagLeftForGood(start: Disk, sessions: nat, max: nat, sha: Digest, turns: seq<Turn>, more: seq<Turn>, k: nat)
    requires k < sessions && FlagLeft(Exec(start, sessions, max, sha, turns).seats[k])
    ensures var s, t := Exec(start, sessions, max, sha, turns).seats[k], Exec(start, sessions, max, sha, turns + more).seats[k];
            FlagLeft(t) && forall b: nat :: SeesClear(b) in t.at ==> SeesClear(b) in s.at
    decreases |more|
  {
    hide Exec, Step, WorldInv, Hist, FlagInv, Grown, FlagLeft;
    if more == [] {
      assert turns + more == turns;
    } else {
      var rest, t := more[..|more| - 1], more[|more| - 1];
      assert turns + more == (turns + rest) + [t];
      FlagLeftForGood(start, sessions, max, sha, turns, rest, k);
      OneMoreTurn(start, sessions, max, sha, turns + rest, t);
      EveryInterleavingIsSound(start, sessions, max, sha, turns + rest);
      var w := Exec(start, sessions, max, sha, turns + rest);
      TurnGrows(w, t, start, max, sha, k);
      FlagStays(w, t, start, max, sha, k);
    }
  }

  lemma FlagStays(w: World, t: Turn, start: Disk, max: nat, sha: Digest, k: nat)
    requires WorldInv(w, start, max, sha) && k < |w.seats| && FlagLeft(w.seats[k])
    ensures var u := Step(w, t, max, sha).0.seats[k];
            FlagLeft(u) && forall b: nat :: SeesClear(b) in u.at ==> SeesClear(b) in w.seats[k].at
  {
    hide Orderly, Hist, Holds, Step;
    TurnGrows(w, t, start, max, sha, k);
    assert SeatInv(w.seats[k]);
    var b: nat :| LeftBy(w.seats[k].at, b);
    assert LeftBy(Step(w, t, max, sha).0.seats[k].at, b);
  }

  /** The panel answers between the registering of an offer and the pump's store of the
      flag; the supervisor clears the flag first. */
  function EarlyAnswer(m: Msg, accept: bool, io: Io): seq<Choice> {
    [Receive(m, io), PumpOn(io, false), PumpOn(io, false), Panel(0, accept, true)] + [Supervise(io), PumpOn(io, false)]
  }

  lemma EarlyAnswerRun(start: Disk, max: nat, sha: Digest, m: OfferMsg, accept: bool, io: Io)
    requires Sane(m, max)
    ensures FlagLeft(Exec(start, 1, max, sha, TurnsOf(0, EarlyAnswer(m, accept, io))).seats[0])
  {
    hide Acts, Exec, Sane;
    var h := Host(Dir(start, [], map[]), NewSeat);
    var first := [Receive(m, io), PumpOn(io, false), PumpOn(io, false), Panel(0, accept, true)];
    NothingRun(start, max, sha);
    ActsAreTurns(start, 1, max, sha, [], 0, EarlyAnswer(m, accept, io));
    assert [] + TurnsOf(0, EarlyAnswer(m, accept, io)) == TurnsOf(0, EarlyAnswer(m, accept, io));
    ActsJoin(h, 0, first, [Supervise(io), PumpOn(io, false)], max, sha);
    AnsweredEarly(h, m, accept, io, max, sha);
    Two(Acts(h, 0, first, max, sha), 0, Supervise(io), PumpOn(io, false), max, sha);
    assert [Answer(Ticket(0, m), accept)][1..] == [];
  }

  lemma AnsweredEarly(h: Host, m: OfferMsg, accept: bool, io: Io, max: nat, sha: Digest)
    requires h.seat == NewSeat && Sane(m, max)
    ensures var t := Acts(h, 0, [Receive(m, io), PumpOn(io, false), PumpOn(io, false), Panel(0, accept, true)], max, sha);
            Bare(t.seat) == Bare(NewSeat.(pump := Filed(Ticket(0, m)), answers := [Answer(Ticket(0, m), accept)], next := 1))
  {
    hide Acts, Sane, OnSupervise, OnLeave;
    Four(h, 0, Receive(m, io), PumpOn(io, false), PumpOn(io, false), Panel(0, accept, true), max, sha);
    assert [] + [Ticket(0, m)] == [Ticket(0, m)] && [] + [Answer(Ticket(0, m), accept)] == [Answer(Ticket(0, m), accept)];
    assert [Ticket(0, m)][..0] + [Ticket(0, m)][1..] == [];
  }
}
