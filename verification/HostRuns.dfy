/**
 Whole runs of host sessions on one directory: any number of sessions, the steps of
 their pumps and supervisors, the panel's answers and storage failures in any order.
 */
module HostRuns {
  import opened Bytes
  import opened FileNames
  import opened FileReceive
  import opened HostHistory
  import opened HostTransfers
  import opened Options
  import opened SharedDirectory

  datatype World = World(dir: Dir, seats: seq<Seat>)

  datatype Turn = Turn(who: nat, choice: Choice)

  function Start(start: Disk, sessions: nat): World {
    World(Dir(start, [], map[]), seq(sessions, _ => NewSeat))
  }

  function Step(w: World, t: Turn, max: nat, sha: Digest): (World, Reply) {
    if t.who >= |w.seats| then (w, NotMine)
    else
      var (h, reply) := Act(Host(w.dir, w.seats[t.who]), t.who, t.choice, max, sha);
      (World(h.dir, w.seats[t.who := h.seat]), reply)
  }

  function Exec(start: Disk, sessions: nat, max: nat, sha: Digest, turns: seq<Turn>): (w: World)
    ensures |w.seats| == sessions
  {
    if turns == [] then Start(start, sessions)
    else Step(Exec(start, sessions, max, sha, turns[..|turns| - 1]), turns[|turns| - 1], max, sha).0
  }

  // ------------------------------------------------------------ one session's tasks

  ghost predicate SeatInv(s: Seat) {
    Hist(s) && FlagInv(s)
  }

  lemma IdlingIs(s: Seat)
    requires SeatInv(s)
    ensures SeatInv(Ticked(s))
  {
    hide Hist, FlagInv;
    IdlingKeeps(s);
    FlagSame(s, Ticked(s));
  }

  lemma ReceiveKeeps(h: Host, k: nat, m: Msg, max: nat, io: Io)
    requires SeatInv(h.seat) && h.seat.pump.Reading?
    ensures SeatInv(Ticked(OnReceive(h, k, m, max, io).0.seat))
  {
    hide Hist, FlagInv, OnChunk, Discard, SaneId, IsHash;
    var s := h.seat;
    IdlingIs(s);
    EmptiedKeeps(s);
    FlagSame(s, Ticked(s.(slot := None)));
    if m.Offer? && s.slot.None? {
      SeesFreeKeeps(s, m);
      FlagSame(s, Ticked(Mark(s, SeesFree(s.next)).(pump := SawFree(Ticket(s.next, m)), next := s.next + 1)));
    }
    if m.End? && s.slot.Some? {
      FlagSame(s, Ticked(s.(slot := None, pump := Ending(s.slot.value))));
    }
  }

  lemma PumpKeeps(h: Host, k: nat, sha: Digest, io: Io, duplicate: bool)
    requires SeatInv(h.seat)
    ensures SeatInv(Ticked(OnPump(h, k, sha, io, duplicate).0.seat))
  {
    hide Hist, FlagInv, OnEnd;
    var s := h.seat;
    IdlingIs(s);
    match s.pump
    case Reading =>
    case SawFree(t) =>
      if s.pending {
        RefusalKeeps(s);
        FlagRefusal(s);
      } else {
        SeesClearKeeps(s);
        FlagSeesClear(s);
      }
    case SawClear(t) =>
      RefusalKeeps(s);
      FlagRefusal(s);
      FilesKeeps(s);
      FlagFiles(s);
    case Filed(t) =>
      FlagSets(s);
      SetsKeeps(s);
    case Ending(n) =>
      EndedKeeps(s);
      FlagSame(s, Ticked(s.(pump := Reading)));
  }

  lemma SuperviseKeeps(h: Host, k: nat, io: Io)
    requires SeatInv(h.seat)
    ensures SeatInv(Ticked(OnSupervise(h, k, io).0.seat))
  {
    hide Hist, FlagInv, Open, Emptied;
    var s := h.seat;
    IdlingIs(s);
    match s.supervisor
    case Resting =>
      if s.answers != [] {
        AnswerIs(s);
      }
    case Cleared(t) =>
      OpensKeeps(s);
      FlagSame(s, Ticked(s.(supervisor := Opened(t))));
      FlagSame(s, Ticked(s.(supervisor := Resting)));
    case Opened(t) =>
      StoresKeeps(s);
      FlagSame(s, Ticked(Storing(s)));
    case Leaving =>
      EmptiedSeat(h, k);
      TearsDownKeeps(s);
      FlagSame(s, Ticked(Mark(s.(slot := None), TearsDown).(supervisor := Gone)));
    case Gone =>
  }

  lemma AnswerIs(s: Seat)
    requires SeatInv(s) && s.supervisor.Resting? && s.answers != []
    ensures SeatInv(Ticked(Clearing(s))) && SeatInv(Ticked(Clearing(s).(supervisor := Cleared(s.answers[0].ticket))))
  {
    hide Hist, FlagInv;
    ClearsKeeps(s);
    FlagClears(s, Ticked(Clearing(s)));
    AcceptKeeps(s);
    FlagClears(s, Ticked(Clearing(s).(supervisor := Cleared(s.answers[0].ticket))));
  }

  lemma EmptiedSeat(h: Host, k: nat)
    ensures Emptied(h, k).seat == h.seat.(slot := None)
  {
  }

  lemma ActKeeps(h: Host, k: nat, c: Choice, max: nat, sha: Digest)
    requires SeatInv(h.seat)
    ensures SeatInv(Act(h, k, c, max, sha).0.seat)
  {
    hide Hist, FlagInv, OnReceive, OnPump, OnSupervise, OnPanel, OnLeave;
    IdlingIs(h.seat);
    match c
    case Receive(m, io) =>
      if h.seat.pump.Reading? {
        ReceiveKeeps(h, k, m, max, io);
      }
    case PumpOn(io, duplicate) => PumpKeeps(h, k, sha, io, duplicate);
    case Panel(place, accept, sent) =>
      PanelKeeps(h.seat, place, accept, sent);
      FlagPanel(h.seat, place, accept, sent);
    case Supervise(io) => SuperviseKeeps(h, k, io);
    case Leave =>
      LeaveKeeps(h.seat);
      FlagLeave(h.seat);
  }

  // -------------------------------------------------- the directory they work on

  /** Which transfers of the session have a file: the one in the slot, the one the
      supervisor opened, the one the pump finishes, and every dropped one. */
  predicate Held(s: Seat, n: nat) {
    s.slot == Some(n) || (s.supervisor.Opened? && s.supervisor.ticket.number == n) || s.pump == Ending(n) || Drops(n) in s.at
  }

  predicate Vetted(s: Seat, max: nat) {
    && (s.pump.SawFree? || s.pump.SawClear? ==> Sane(s.pump.ticket.offer, max))
    && (s.supervisor.Cleared? || s.supervisor.Opened? ==> Sane(s.supervisor.ticket.offer, max))
    && (forall i :: 0 <= i < |s.waiting| ==> Sane(s.waiting[i].offer, max))
    && (forall i :: 0 <= i < |s.answers| ==> Sane(s.answers[i].ticket.offer, max))
  }

  ghost predicate Holds(d: Dir, s: Seat, k: nat, max: nat) {
    && Vetted(s, max)
    && (forall n: nat :: Key(k, n) in d.files <==> Held(s, n))
    && (forall n: nat :: Key(k, n) in d.files ==> Sane(d.files[Key(k, n)].offer, max))
  }

  /** The other sessions' transfers. */
  ghost predicate OthersSame(d: Dir, t: Dir, k: nat) {
    forall key: Key :: key.session != k ==> (key in t.files <==> key in d.files) && (key in d.files ==> t.files[key] == d.files[key])
  }

  /** What a step keeps, from the session's side. */
  ghost predicate Fine(h: Host, k: nat, start: Disk, max: nat, sha: Digest) {
    Orderly(h.dir, start, sha) && SeatInv(h.seat) && Holds(h.dir, h.seat, k, max)
  }

  lemma HeldIsThere(h: Host, k: nat, n: nat, start: Disk, max: nat, sha: Digest)
    requires Fine(h, k, start, max, sha) && Held(h.seat, n)
    ensures Has(h.dir, Key(k, n)) && Sane(h.dir.files[Key(k, n)].offer, max)
  {
    hide Orderly, SeatInv, Held, Vetted;
    AtFile(h.dir, Key(k, n), start, sha);
  }

  /** One transfer is changed or removed. */
  lemma BackHolds(h: Host, k: nat, n: nat, c: Core, start: Disk, max: nat, sha: Digest)
    requires Fine(h, k, start, max, sha) && Has(h.dir, Key(k, n))
    requires c.active.Some? ==> c.active.value.offer == h.dir.files[Key(k, n)].offer
    ensures var t := Back(h.dir, Key(k, n), c);
            && OthersSame(h.dir, t, k)
            && (forall m: nat :: Key(k, m) in t.files <==> Held(h.seat, m) && (m == n ==> c.active.Some?))
            && (forall m: nat :: Key(k, m) in t.files ==> Sane(t.files[Key(k, m)].offer, max))
  {
    hide Orderly, SeatInv, Held, Vetted;
  }

  ghost predicate Kept(h: Host, t: Host, k: nat, start: Disk, max: nat, sha: Digest) {
    Orderly(t.dir, start, sha) && Holds(t.dir, t.seat, k, max) && OthersSame(h.dir, t.dir, k)
  }

  lemma SlotOrEnding(s: Seat)
    requires SeatInv(s)
    ensures s.slot.Some? ==> Held(s, s.slot.value) && HeldOnlyBySlot(s)
    ensures s.pump.Ending? ==> Held(s, s.pump.number) && Drops(s.pump.number) !in s.at && s.slot != Some(s.pump.number)
                               && !(s.supervisor.Opened? && s.supervisor.ticket.number == s.pump.number)
    ensures s.supervisor.Cleared? || s.supervisor.Opened? ==>
              Stores(s.supervisor.ticket.number) !in s.at && Drops(s.supervisor.ticket.number) !in s.at
              && s.slot != Some(s.supervisor.ticket.number) && s.pump != Ending(s.supervisor.ticket.number)
  {
    hide FlagInv, DroppedBySome, Out, OneWaits, CheckingInv, OutInv;
  }

  predicate HeldOnlyBySlot(s: Seat)
    requires s.slot.Some?
  {
    && Drops(s.slot.value) !in s.at && s.pump != Ending(s.slot.value)
    && !(s.supervisor.Opened? && s.supervisor.ticket.number == s.slot.value)
  }

  lemma EmptiedFine(h: Host, k: nat, start: Disk, max: nat, sha: Digest)
    requires Fine(h, k, start, max, sha)
    ensures Kept(h, Emptied(h, k), k, start, max, sha)
  {
    hide Orderly, SeatInv, Sane;
    if h.seat.slot.Some? {
      var n := h.seat.slot.value;
      SlotOrEnding(h.seat);
      HeldIsThere(h, k, n, start, max, sha);
      DiscardKeepsOrder(h.dir, Key(k, n), start, sha);
      BackHolds(h, k, n, Discard(View(h.dir, Key(k, n))), start, max, sha);
    }
  }

  lemma ChunkFine(h: Host, k: nat, number: nat, data: Option<Octets>, max: nat, io: Io, start: Disk, sha: Digest)
    requires Fine(h, k, start, max, sha) && h.seat.slot.Some? && Has(h.dir, Key(k, h.seat.slot.value))
    ensures var key := Key(k, h.seat.slot.value);
            var c := OnChunk(View(h.dir, key), number, data, io).0;
            Kept(h, Host(Back(h.dir, key, c), if c.active.Some? then h.seat else h.seat.(slot := None)), k, start, max, sha)
  {
    hide Orderly, SeatInv, Sane;
    var n := h.seat.slot.value;
    SlotOrEnding(h.seat);
    ChunkKeepsOrder(h.dir, Key(k, n), number, data, io, start, sha);
    BackHolds(h, k, n, OnChunk(View(h.dir, Key(k, n)), number, data, io).0, start, max, sha);
  }

  lemma ReceiveFine(h: Host, k: nat, m: Msg, max: nat, io: Io, start: Disk, sha: Digest)
    requires Fine(h, k, start, max, sha) && h.seat.pump.Reading?
    ensures Kept(h, OnReceive(h, k, m, max, io).0, k, start, max, sha)
  {
    hide Orderly, SeatInv, OnChunk, Emptied, SaneId, IsHash;
    EmptiedFine(h, k, start, max, sha);
    if m.Chunk? && Mine(h, k, m.id) {
      ChunkFine(h, k, m.number, m.data, max, io, start, sha);
    }
  }

  lemma EndingFine(h: Host, k: nat, max: nat, io: Io, start: Disk, sha: Digest)
    requires Fine(h, k, start, max, sha) && h.seat.pump.Ending? && Has(h.dir, Key(k, h.seat.pump.number))
    ensures var key := Key(k, h.seat.pump.number);
            Kept(h, Host(Back(h.dir, key, OnEnd(View(h.dir, key), sha, io).0), h.seat.(pump := Reading)), k, start, max, sha)
  {
    hide Orderly, SeatInv, Sane;
    var n := h.seat.pump.number;
    SlotOrEnding(h.seat);
    EndKeepsOrder(h.dir, Key(k, n), io, start, sha);
    BackHolds(h, k, n, OnEnd(View(h.dir, Key(k, n)), sha, io).0, start, max, sha);
  }

  lemma PumpFine(h: Host, k: nat, max: nat, io: Io, duplicate: bool, start: Disk, sha: Digest)
    requires Fine(h, k, start, max, sha)
    ensures Kept(h, OnPump(h, k, sha, io, duplicate).0, k, start, max, sha)
  {
    hide Orderly, SeatInv, OnEnd, Sane;
    if h.seat.pump.Ending? && Has(h.dir, Key(k, h.seat.pump.number)) {
      EndingFine(h, k, max, io, start, sha);
    }
  }

  lemma OpeningFine(h: Host, k: nat, max: nat, start: Disk, sha: Digest)
    requires Fine(h, k, start, max, sha) && h.seat.supervisor.Cleared?
    requires Open(View(h.dir, Key(k, h.seat.supervisor.ticket.number)), h.seat.supervisor.ticket.offer).Some?
    ensures var t := h.seat.supervisor.ticket;
            var key := Key(k, t.number);
            Kept(h, Host(Back(h.dir, key, Open(View(h.dir, key), t.offer).value), h.seat.(supervisor := Opened(t))), k, start, max, sha)
  {
    hide Orderly, SeatInv, PartName, Sanitize, Lower, Sane;
    var t := h.seat.supervisor.ticket;
    SlotOrEnding(h.seat);
    assert !Held(h.seat, t.number);
    OpenKeepsOrder(h.dir, Key(k, t.number), t.offer, start, sha);
  }

  lemma SuperviseFine(h: Host, k: nat, max: nat, io: Io, start: Disk, sha: Digest)
    requires Fine(h, k, start, max, sha)
    ensures Kept(h, OnSupervise(h, k, io).0, k, start, max, sha)
  {
    hide Orderly, SeatInv, Open, Sane, Emptied;
    match h.seat.supervisor
    case Cleared(t) =>
      if Open(View(h.dir, Key(k, t.number)), t.offer).Some? {
        OpeningFine(h, k, max, start, sha);
      }
    case Opened(t) => StoringFine(h, k, max, start, sha);
    case Leaving =>
      EmptiedFine(h, k, start, max, sha);
      EmptiedSeat(h, k);
    case _ =>
  }

  lemma StoringFine(h: Host, k: nat, max: nat, start: Disk, sha: Digest)
    requires Fine(h, k, start, max, sha) && h.seat.supervisor.Opened?
    ensures Kept(h, h.(seat := Storing(h.seat)), k, start, max, sha)
  {
    hide Orderly, SeatInv, Sane;
  }

  lemma PanelFine(h: Host, k: nat, place: nat, accept: bool, sent: bool, max: nat, start: Disk, sha: Digest)
    requires Fine(h, k, start, max, sha)
    ensures Kept(h, h.(seat := OnPanel(h.seat, place, accept, sent)), k, start, max, sha)
  {
    hide Orderly, SeatInv, Sane, Vetted, Held;
    PanelVetted(h.seat, place, accept, sent, max);
  }

  lemma PanelVetted(s: Seat, place: nat, accept: bool, sent: bool, max: nat)
    requires Vetted(s, max)
    ensures Vetted(OnPanel(s, place, accept, sent), max)
    ensures forall n: nat :: Held(OnPanel(s, place, accept, sent), n) <==> Held(s, n)
  {
    hide Sane;
  }

  lemma LeaveFine(h: Host, k: nat, max: nat, start: Disk, sha: Digest)
    requires Fine(h, k, start, max, sha)
    ensures Kept(h, h.(seat := OnLeave(h.seat)), k, start, max, sha)
  {
    hide Orderly, SeatInv, Sane, Vetted, Held;
    LeaveVetted(h.seat, max);
  }

  lemma LeaveVetted(s: Seat, max: nat)
    requires Vetted(s, max)
    ensures Vetted(OnLeave(s), max)
    ensures forall n: nat :: Held(OnLeave(s), n) <==> Held(s, n)
  {
    hide Sane, Forgotten;
    ForgottenSame(s, s.waiting);
  }

  lemma {:induction false} ForgottenSame(s: Seat, waiting: seq<Ticket>)
    ensures var t := Forgotten(s, waiting);
            && t == s.(at := t.at) && forall n: nat :: Drops(n) in t.at <==> Drops(n) in s.at
    decreases |waiting|
  {
    if waiting != [] {
      ForgottenSame(Mark(s, Loses(waiting[0].number)), waiting[1..]);
    }
  }

  lemma ActFine(h: Host, k: nat, c: Choice, max: nat, start: Disk, sha: Digest)
    requires Fine(h, k, start, max, sha)
    ensures var t := Act(h, k, c, max, sha).0; Fine(t, k, start, max, sha) && OthersSame(h.dir, t.dir, k)
  {
    hide Orderly, SeatInv, OnReceive, OnPump, OnSupervise, OnPanel, OnLeave, Sane;
    ActKeeps(h, k, c, max, sha);
    match c
    case Receive(m, io) =>
      if h.seat.pump.Reading? {
        ReceiveFine(h, k, m, max, io, start, sha);
      }
    case PumpOn(io, duplicate) => PumpFine(h, k, max, io, duplicate, start, sha);
    case Panel(place, accept, sent) => PanelFine(h, k, place, accept, sent, max, start, sha);
    case Supervise(io) => SuperviseFine(h, k, max, io, start, sha);
    case Leave => LeaveFine(h, k, max, start, sha);
  }

  // ----------------------------------------------------------------------- all runs

  ghost predicate WorldInv(w: World, start: Disk, max: nat, sha: Digest) {
    && Orderly(w.dir, start, sha)
    && (forall key: Key :: key in w.dir.files ==> key.session < |w.seats|)
    && (forall k: nat :: k < |w.seats| ==> SeatInv(w.seats[k]) && Holds(w.dir, w.seats[k], k, max))
  }

  lemma StartsRight(start: Disk, sessions: nat, max: nat, sha: Digest)
    ensures WorldInv(Start(start, sessions), start, max, sha)
  {
    hide Orderly, Hist, FlagInv, Placed;
    StartIsOrderly(start, sha);
    NewIsHist();
    NewFlag();
  }

  lemma HoldsElsewhere(d: Dir, t: Dir, s: Seat, j: nat, k: nat, max: nat)
    requires Holds(d, s, j, max) && OthersSame(d, t, k) && j != k
    ensures Holds(t, s, j, max)
  {
    hide Vetted, Sane, Held;
    assert forall n: nat :: Key(j, n).session != k;
  }

  lemma StepKeeps(w: World, t: Turn, start: Disk, max: nat, sha: Digest)
    requires WorldInv(w, start, max, sha)
    ensures WorldInv(Step(w, t, max, sha).0, start, max, sha)
  {
    hide Orderly, SeatInv, Holds, Act;
    if t.who < |w.seats| {
      var h := Act(Host(w.dir, w.seats[t.who]), t.who, t.choice, max, sha).0;
      ActFine(Host(w.dir, w.seats[t.who]), t.who, t.choice, max, start, sha);
      forall j: nat | j < |w.seats| && j != t.who
        ensures Holds(h.dir, w.seats[j], j, max)
      {
        HoldsElsewhere(w.dir, h.dir, w.seats[j], j, t.who, max);
      }
    }
  }

  /** In every run of any number of sessions the directory holds what it held, verified
      deliveries, and exactly one partial file for each transfer in a slot, being opened
      or finished, or dropped, with the bytes received for it. */
  lemma {:induction false} EveryInterleavingIsSound(start: Disk, sessions: nat, max: nat, sha: Digest, turns: seq<Turn>)
    ensures WorldInv(Exec(start, sessions, max, sha, turns), start, max, sha)
  {
    hide WorldInv, Step;
    if turns == [] {
      StartsRight(start, sessions, max, sha);
    } else {
      var before := turns[..|turns| - 1];
      EveryInterleavingIsSound(start, sessions, max, sha, before);
      StepKeeps(Exec(start, sessions, max, sha, before), turns[|turns| - 1], start, max, sha);
    }
  }

  lemma OneMoreTurn(start: Disk, sessions: nat, max: nat, sha: Digest, turns: seq<Turn>, t: Turn)
    ensures Exec(start, sessions, max, sha, turns + [t]) == Step(Exec(start, sessions, max, sha, turns), t, max, sha).0
  {
    hide Step;
    assert (turns + [t])[..|turns|] == turns;
  }

  lemma AtWork(start: Disk, sessions: nat, max: nat, sha: Digest, turns: seq<Turn>, k: nat)
    requires k < sessions
    ensures var w := Exec(start, sessions, max, sha, turns); Fine(Host(w.dir, w.seats[k]), k, start, max, sha)
  {
    hide Exec, Orderly, SeatInv, Holds;
    EveryInterleavingIsSound(start, sessions, max, sha, turns);
  }

  /** Once no transfer is in a slot, being opened or finished, the directory is what it
      was and what was delivered if and only if no transfer was ever dropped; and every
      other name is the partial file of a dropped one. */
  lemma NoLitterIffNoneDropped(start: Disk, sessions: nat, max: nat, sha: Digest, turns: seq<Turn>)
    requires forall k: nat :: k < sessions ==> AtRest(Exec(start, sessions, max, sha, turns).seats[k])
    ensures var w := Exec(start, sessions, max, sha, turns);
            && (w.dir.disk == Placed(start, w.dir.delivered)
                <==> forall k: nat, n: nat :: k < sessions ==> Drops(n) !in w.seats[k].at)
            && forall name :: name in w.dir.disk && name !in Placed(start, w.dir.delivered)
                 <==> exists key :: Owns(w.dir, key, name) && key.session < sessions
                                    && Drops(key.number) in w.seats[key.session].at
  {
    hide Exec, Orderly, SeatInv, Vetted, Sane, Placed;
    var w := Exec(start, sessions, max, sha, turns);
    EveryInterleavingIsSound(start, sessions, max, sha, turns);
    LitterIsFiles(w.dir, start, sha);
    forall key: Key
      ensures key in w.dir.files <==> key.session < sessions && Drops(key.number) in w.seats[key.session].at
    {
      if key.session < sessions {
        assert AtRest(w.seats[key.session]);
        assert Key(key.session, key.number) == key;
        assert Key(key.session, key.number) in w.dir.files <==> Held(w.seats[key.session], key.number);
      }
    }
    if k: nat, n: nat :| k < sessions && Drops(n) in w.seats[k].at {
      assert Key(k, n) in w.dir.files;
    }
  }

  predicate AtRest(s: Seat) {
    s.slot.None? && !s.supervisor.Opened? && !s.pump.Ending?
  }

  /** After the teardown, once the pump has finished what it took, a session's partial
      files are those of the transfers it dropped. */
  lemma TeardownLeavesTheDropped(start: Disk, sessions: nat, max: nat, sha: Digest, turns: seq<Turn>, k: nat, n: nat)
    requires k < sessions
    requires var s := Exec(start, sessions, max, sha, turns).seats[k]; s.supervisor.Gone? && !s.pump.Ending?
    ensures var w := Exec(start, sessions, max, sha, turns);
            Key(k, n) in w.dir.files <==> Drops(n) in w.seats[k].at
  {
    hide Exec, Orderly, FlagInv, Vetted, Sane, OneWaits, CheckingInv, OutInv, BusyInv, PastInv;
    AtWork(start, sessions, max, sha, turns, k);
  }

  /** An accepted offer whose id some transfer with a file has, of this session or
      another, is declined, and the directory stays as it is. */
  lemma EqualIdsAreDeclined(start: Disk, sessions: nat, max: nat, sha: Digest, turns: seq<Turn>, k: nat, key: Key, io: Io)
    requires k < sessions
    requires var w := Exec(start, sessions, max, sha, turns);
             && w.seats[k].supervisor.Cleared? && key in w.dir.files
             && w.seats[k].supervisor.ticket.offer.id == w.dir.files[key].id
    ensures var w := Exec(start, sessions, max, sha, turns); var s := w.seats[k];
            OnSupervise(Host(w.dir, s), k, io)
            == (Host(w.dir, s.(supervisor := Resting)), Declined(s.supervisor.ticket.offer.id))
  {
    hide Exec, SeatInv, Holds, Placed, Genuine, PartName, Sanitize, Lower;
    EveryInterleavingIsSound(start, sessions, max, sha, turns);
    AtFile(Exec(start, sessions, max, sha, turns).dir, key, start, sha);
  }

  /** Without a panel accept the directory is untouched. */
  lemma {:induction false} NothingWithoutAccept(start: Disk, sessions: nat, max: nat, sha: Digest, turns: seq<Turn>)
    requires forall t :: t in turns ==> !(t.choice.Panel? && t.choice.accept)
    ensures var w := Exec(start, sessions, max, sha, turns);
            w.dir == Dir(start, [], map[]) && forall k: nat :: k < sessions ==> Unaccepted(w.seats[k])
    decreases |turns|
  {
    hide Act;
    if turns != [] {
      var before, t := turns[..|turns| - 1], turns[|turns| - 1];
      assert t in turns && forall x :: x in before ==> x in turns;
      NothingWithoutAccept(start, sessions, max, sha, before);
      var w := Exec(start, sessions, max, sha, before);
      if t.who < sessions {
        StaysUnaccepted(Host(w.dir, w.seats[t.who]), t.who, t.choice, max, sha);
      }
    }
  }

  predicate Unaccepted(s: Seat) {
    && s.slot.None? && !s.pump.Ending? && !s.supervisor.Cleared? && !s.supervisor.Opened?
    && forall i :: 0 <= i < |s.answers| ==> !s.answers[i].accept
  }

  lemma StaysUnaccepted(h: Host, k: nat, c: Choice, max: nat, sha: Digest)
    requires Unaccepted(h.seat) && !(c.Panel? && c.accept)
    ensures var t := Act(h, k, c, max, sha).0; t.dir == h.dir && Unaccepted(t.seat)
  {
    hide OnReceive, OnPump, OnSupervise, OnPanel, OnLeave;
    PumpUnaccepted(h, k, c, max, sha);
    SupervisorUnaccepted(h, k, c);
    if c.Panel? {
      PanelUnaccepted(h.seat, c.place, c.sent);
    }
  }

  lemma PumpUnaccepted(h: Host, k: nat, c: Choice, max: nat, sha: Digest)
    requires Unaccepted(h.seat)
    ensures c.Receive? && h.seat.pump.Reading? ==>
              var t := OnReceive(h, k, c.m, max, c.io).0; t.dir == h.dir && Unaccepted(t.seat)
    ensures c.PumpOn? ==> var t := OnPump(h, k, sha, c.io, c.duplicate).0; t.dir == h.dir && Unaccepted(t.seat)
  {
    hide OnChunk, OnEnd, Sane, Listed;
  }

  lemma SupervisorUnaccepted(h: Host, k: nat, c: Choice)
    requires Unaccepted(h.seat)
    ensures c.Supervise? ==> var t := OnSupervise(h, k, c.io).0; t.dir == h.dir && Unaccepted(t.seat)
    ensures Unaccepted(OnLeave(h.seat))
  {
    hide Open, Discard, Forgotten;
    ForgottenSame(h.seat, h.seat.waiting);
  }

  lemma PanelUnaccepted(s: Seat, place: nat, sent: bool)
    requires Unaccepted(s)
    ensures Unaccepted(OnPanel(s, place, false, sent))
  {
  }

  /** In any run the chunk counter of a transfer is at most its bytes, and these at most
      the cap; so below 4 GiB (2 GiB by default) the u32 cannot overflow. */
  lemma CounterNeverOverflows(start: Disk, sessions: nat, max: nat, sha: Digest, turns: seq<Turn>, key: Key)
    requires key in Exec(start, sessions, max, sha, turns).dir.files
    ensures var a := Exec(start, sessions, max, sha, turns).dir.files[key];
            a.nextSeq <= a.received == |a.hashed| <= a.expectedSize <= max && (max < U32 ==> a.nextSeq < U32)
  {
    hide Exec, SaneId, IsHash, Placed, PartName, Sanitize, Lower;
    FileFacts(start, sessions, max, sha, turns, key);
  }

  lemma FileFacts(start: Disk, sessions: nat, max: nat, sha: Digest, turns: seq<Turn>, key: Key)
    requires key in Exec(start, sessions, max, sha, turns).dir.files
    ensures var d := Exec(start, sessions, max, sha, turns).dir;
            key.session < sessions && Sane(d.files[key].offer, max) && ActiveSound(d.files[key], Placed(start, d.delivered))
  {
    hide Exec, Orderly, SeatInv, Vetted, Held, Placed, ActiveSound, Sane;
    EveryInterleavingIsSound(start, sessions, max, sha, turns);
    var w := Exec(start, sessions, max, sha, turns);
    AtFile(w.dir, key, start, sha);
    assert Holds(w.dir, w.seats[key.session], key.session, max) && key == Key(key.session, key.number);
  }

  /** FileDone is sent exactly when a verified file was put in place; it replaces a file
      exactly when every name is taken. */
  lemma DoneMeansVerified(start: Disk, sessions: nat, max: nat, sha: Digest, turns: seq<Turn>, k: nat, io: Io, duplicate: bool)
    requires k < sessions && Exec(start, sessions, max, sha, turns).seats[k].pump.Ending?
    ensures var w := Exec(start, sessions, max, sha, turns); var s := w.seats[k];
            var key := Key(k, s.pump.number);
            var (t, reply) := OnPump(Host(w.dir, s), k, sha, io, duplicate);
            && key in w.dir.files && w.dir.files[key].offer.Offer? && var a := w.dir.files[key];
            && (reply == Done(a.id) <==> |t.dir.delivered| == |w.dir.delivered| + 1)
            && (reply == Done(a.id) <==> |a.hashed| == a.offer.size && sha(a.hashed) == Lower(a.offer.sha) && io.flush && io.rename)
            && (reply == Done(a.id) ==>
                  && var d := t.dir.delivered[|w.dir.delivered|];
                     && Genuine(d, sha) && d.offer == a.offer && d.bytes == a.hashed
                     && (d.dest in w.dir.disk <==> AllTaken(w.dir.disk.Keys, Sanitize(d.offer.name), io.unix)))
  {
    hide Exec, Orderly, Vetted, SeatInv, PartName, Sanitize, Lower, FreeName, Genuine, Placed, AllTaken, Finish, Sound, Others;
    AtWork(start, sessions, max, sha, turns, k);
    var w := Exec(start, sessions, max, sha, turns);
    var key := Key(k, w.seats[k].pump.number);
    HeldIsThere(Host(w.dir, w.seats[k]), k, w.seats[k].pump.number, start, max, sha);
    ViewIsSound(w.dir, key, start, sha);
    FinishDelivers(View(w.dir, key), sha, io, start + Others(w.dir, key, start));
  }

  // ------------------------------------------------- one session for a few steps

  /** Some steps of one session, the others standing still. */
  function Acts(h: Host, k: nat, choices: seq<Choice>, max: nat, sha: Digest): Host {
    if choices == [] then h else Act(Acts(h, k, choices[..|choices| - 1], max, sha), k, choices[|choices| - 1], max, sha).0
  }

  function TurnsOf(k: nat, choices: seq<Choice>): seq<Turn> {
    seq(|choices|, i requires 0 <= i < |choices| => Turn(k, choices[i]))
  }

  lemma ActsOne(h: Host, k: nat, choices: seq<Choice>, c: Choice, max: nat, sha: Digest)
    ensures Acts(h, k, choices + [c], max, sha) == Act(Acts(h, k, choices, max, sha), k, c, max, sha).0
  {
    hide Act;
    assert (choices + [c])[..|choices|] == choices;
  }

  lemma {:induction false} ActsJoin(h: Host, k: nat, first: seq<Choice>, later: seq<Choice>, max: nat, sha: Digest)
    ensures Acts(h, k, first + later, max, sha) == Acts(Acts(h, k, first, max, sha), k, later, max, sha)
    decreases |later|
  {
    hide Act;
    if later == [] {
      assert first + later == first;
    } else {
      var rest, c := later[..|later| - 1], later[|later| - 1];
      assert first + later == (first + rest) + [c] && later == rest + [c];
      ActsOne(h, k, first + rest, c, max, sha);
      ActsOne(Acts(h, k, first, max, sha), k, rest, c, max, sha);
      ActsJoin(h, k, first, rest, max, sha);
    }
  }

  /** Such steps are a run. */
  lemma {:induction false} ActsAreTurns(start: Disk, sessions: nat, max: nat, sha: Digest, turns: seq<Turn>, k: nat, choices: seq<Choice>)
    requires k < sessions
    ensures var w := Exec(start, sessions, max, sha, turns);
            var u := Exec(start, sessions, max, sha, turns + TurnsOf(k, choices));
            Host(u.dir, u.seats[k]) == Acts(Host(w.dir, w.seats[k]), k, choices, max, sha)
    decreases |choices|
  {
    hide Act, Exec;
    if choices == [] {
      assert turns + TurnsOf(k, choices) == turns;
    } else {
      var rest, c := choices[..|choices| - 1], choices[|choices| - 1];
      assert turns + TurnsOf(k, choices) == (turns + TurnsOf(k, rest)) + [Turn(k, c)];
      OneMoreTurn(start, sessions, max, sha, turns + TurnsOf(k, rest), Turn(k, c));
      ActsAreTurns(start, sessions, max, sha, turns, k, rest);
    }
  }

  /** The control state, without the record of the past. */
  function Bare(s: Seat): Seat {
    s.(clock := 0, at := map[])
  }

  /** An offer on its way to the panel. */
  function Filing(m: Msg, io: Io): seq<Choice> {
    [Receive(m, io), PumpOn(io, false), PumpOn(io, false), PumpOn(io, false)]
  }

  predicate Idle(s: Seat) {
    s.slot.None? && !s.pending && s.pump.Reading? && s.waiting == [] && s.answers == []
  }

  lemma Four(h: Host, k: nat, a: Choice, b: Choice, c: Choice, d: Choice, max: nat, sha: Digest)
    ensures Acts(h, k, [a, b, c, d], max, sha)
            == Act(Act(Act(Act(h, k, a, max, sha).0, k, b, max, sha).0, k, c, max, sha).0, k, d, max, sha).0
  {
    hide Act;
    assert [] + [a] == [a] && [a] + [b] == [a, b] && [a, b] + [c] == [a, b, c] && [a, b, c] + [d] == [a, b, c, d];
    ActsOne(h, k, [], a, max, sha);
    ActsOne(h, k, [a], b, max, sha);
    ActsOne(h, k, [a, b], c, max, sha);
    ActsOne(h, k, [a, b, c], d, max, sha);
  }

  lemma Two(h: Host, k: nat, a: Choice, b: Choice, max: nat, sha: Digest)
    ensures Acts(h, k, [a, b], max, sha) == Act(Act(h, k, a, max, sha).0, k, b, max, sha).0
  {
    hide Act;
    assert [] + [a] == [a] && [a] + [b] == [a, b];
    ActsOne(h, k, [], a, max, sha);
    ActsOne(h, k, [a], b, max, sha);
  }

  lemma FilingWaits(h: Host, k: nat, m: OfferMsg, io: Io, max: nat, sha: Digest)
    requires Idle(h.seat) && Sane(m, max)
    ensures var t := Acts(h, k, Filing(m, io), max, sha);
            && t.dir == h.dir
            && Bare(t.seat) == Bare(h.seat.(pending := true, waiting := [Ticket(h.seat.next, m)], next := h.seat.next + 1))
  {
    hide Acts, Sane;
    Four(h, k, Receive(m, io), PumpOn(io, false), PumpOn(io, false), PumpOn(io, false), max, sha);
    assert [] + [Ticket(h.seat.next, m)] == [Ticket(h.seat.next, m)];
  }

  /** The panel accepts, and the supervisor takes the answer up. */
  function Accepting(io: Io): seq<Choice> {
    [Panel(0, true, true), Supervise(io), Supervise(io), Supervise(io)]
  }

  lemma AcceptingStores(h: Host, k: nat, t: Ticket, io: Io, max: nat, sha: Digest)
    requires h.seat.waiting == [t] && h.seat.answers == [] && h.seat.supervisor.Resting? && io.storage
    requires Open(View(h.dir, Key(k, t.number)), t.offer).Some?
    ensures var u, key := Acts(h, k, Accepting(io), max, sha), Key(k, t.number);
            && u.dir == Back(h.dir, key, Open(View(h.dir, key), t.offer).value)
            && Bare(u.seat) == Bare(h.seat.(pending := false, waiting := [], slot := Some(t.number)))
            && (h.seat.slot.Some? && h.seat.slot.value != t.number ==> Drops(h.seat.slot.value) in u.seat.at)
  {
    hide Acts, Open, OnReceive, OnPump, OnLeave;
    Four(h, k, Panel(0, true, true), Supervise(io), Supervise(io), Supervise(io), max, sha);
    assert [t][..0] + [t][1..] == [] && [] + [Answer(t, true)] == [Answer(t, true)] && [Answer(t, true)][1..] == [];
  }
}
