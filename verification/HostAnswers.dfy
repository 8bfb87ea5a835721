/** What becomes of the offers a host session looks at: each is answered once, or lost
    with its panel entry, or still on its way. */
module HostAnswers {
  import opened FileReceive
  import opened HostHistory
  import opened HostRuns
  import opened HostTransfers
  import opened Options
  import opened SharedDirectory

  /** The offer a step of the pump or the supervisor deals with. */
  function Handled(s: Seat, c: Choice): Option<Ticket> {
    match c
    case PumpOn(_, _) => if s.pump.SawFree? || s.pump.SawClear? then Some(s.pump.ticket) else None
    case Supervise(_) =>
      (match s.supervisor
       case Resting => if s.answers == [] then None else Some(s.answers[0].ticket)
       case Cleared(t) => Some(t)
       case Opened(t) => Some(t)
       case _ => None)
    case _ => None
  }

  /** The step answers offer `n`, under its own id. */
  predicate Answers(s: Seat, c: Choice, reply: Reply, n: nat) {
    && Handled(s, c).Some? && Handled(s, c).value.number == n
    && var id := Handled(s, c).value.offer.id; reply == Accepted(id) || reply == Declined(id)
  }

  /** Offer `n` leaves the panel unanswered: the answer cannot be sent, or the session
      ends. */
  predicate Withdraws(s: Seat, c: Choice, n: nat) {
    || (c.Panel? && !c.sent && c.place < |s.waiting| && s.waiting[c.place].number == n)
    || (c.Leave? && s.supervisor.Resting? && s.waiting != [] && s.waiting[0].number == n)
  }

  /** In how many places offer `n` is on its way: the pump, the panel, the answers, the
      supervisor. */
  function Places(s: Seat, n: nat): nat {
    (if (s.pump.SawFree? || s.pump.SawClear?) && s.pump.ticket.number == n then 1 else 0)
    + (if s.waiting != [] && s.waiting[0].number == n then 1 else 0)
    + (if s.answers != [] && s.answers[0].ticket.number == n then 1 else 0)
    + (if Busy(s) == Some(n) then 1 else 0)
  }

  function One(b: bool): nat { if b then 1 else 0 }

  /** What one step does to the count. */
  ghost predicate Balanced(s: Seat, c: Choice, t: Seat, reply: Reply, n: nat) {
    && s.next <= t.next
    && Places(t, n) + One(Answers(s, c, reply, n)) + One(Withdraws(s, c, n)) == Places(s, n) + One(s.next <= n < t.next)
  }

  /** Offers on their way have been numbered. */
  lemma PlacedIsNumbered(s: Seat, n: nat)
    requires Hist(s) && n >= s.next
    ensures Places(s, n) == 0
  {
  }

  lemma ReceiveBalances(h: Host, k: nat, m: Msg, max: nat, io: Io, n: nat)
    requires Hist(h.seat) && h.seat.pump.Reading?
    ensures var (t, reply) := OnReceive(h, k, m, max, io); Balanced(h.seat, Receive(m, io), t.seat, reply, n)
  {
    hide Hist, OnChunk, Emptied, Sane, Back, View, Mine;
    EmptiedSeat(h, k);
    if n >= h.seat.next {
      PlacedIsNumbered(h.seat, n);
    }
  }

  lemma PumpBalances(h: Host, k: nat, sha: Digest, io: Io, duplicate: bool, n: nat)
    requires Hist(h.seat)
    ensures var (t, reply) := OnPump(h, k, sha, io, duplicate); Balanced(h.seat, PumpOn(io, duplicate), t.seat, reply, n)
  {
    hide Timed, CheckingInv, OutInv, BusyInv, PresentInv, PastInv, OnEnd;
    var s := h.seat;
    if s.pump.SawClear? {
      assert s.waiting + [s.pump.ticket] == [s.pump.ticket];
    }
  }

  lemma AnswerBalances(h: Host, k: nat, io: Io, n: nat)
    requires Hist(h.seat) && h.seat.supervisor.Resting?
    ensures var (t, reply) := OnSupervise(h, k, io); Balanced(h.seat, Supervise(io), t.seat, reply, n)
  {
    hide Timed, CheckingInv, OutInv, BusyInv, PresentInv, PastInv, Open, Emptied, Back, View;
    if h.seat.answers != [] {
      assert h.seat.answers[1..] == [];
    }
  }

  lemma OpeningBalances(h: Host, k: nat, io: Io, n: nat)
    requires h.seat.supervisor.Cleared? || h.seat.supervisor.Opened?
    ensures var (t, reply) := OnSupervise(h, k, io); Balanced(h.seat, Supervise(io), t.seat, reply, n)
  {
    hide Open, Emptied, Back, View;
  }

  lemma SuperviseBalances(h: Host, k: nat, io: Io, n: nat)
    requires Hist(h.seat)
    ensures var (t, reply) := OnSupervise(h, k, io); Balanced(h.seat, Supervise(io), t.seat, reply, n)
  {
    hide Hist, Open, Emptied, Back, View;
    EmptiedSeat(h, k);
    match h.seat.supervisor
    case Resting => AnswerBalances(h, k, io, n);
    case Cleared(_) => OpeningBalances(h, k, io, n);
    case Opened(_) => OpeningBalances(h, k, io, n);
    case _ =>
  }

  lemma PanelBalances(s: Seat, place: nat, accept: bool, sent: bool, n: nat)
    requires Hist(s)
    ensures Balanced(s, Panel(place, accept, sent), OnPanel(s, place, accept, sent), NotMine, n)
  {
    hide Timed, CheckingInv, OutInv, BusyInv, PresentInv, PastInv;
    if place < |s.waiting| {
      assert s.waiting[..place] + s.waiting[place + 1..] == [];
      assert s.answers + [Answer(s.waiting[place], accept)] == [Answer(s.waiting[place], accept)];
    }
  }

  lemma LeaveBalances(s: Seat, n: nat)
    requires Hist(s)
    ensures Balanced(s, Leave, OnLeave(s), NotMine, n)
  {
    hide Timed, CheckingInv, OutInv, BusyInv, PresentInv, PastInv;
    if s.waiting != [] {
      assert s.waiting[1..] == [] && Forgotten(Mark(s, Loses(s.waiting[0].number)), []) == Mark(s, Loses(s.waiting[0].number));
    }
  }

  lemma ClockAside(s: Seat, c: Choice, t: Seat, reply: Reply, n: nat)
    ensures Balanced(s, c, t, reply, n) ==> Balanced(s, c, Ticked(t), reply, n)
  {
  }

  lemma NothingMoves(s: Seat, c: Choice, n: nat)
    requires c.Receive?
    ensures Balanced(s, c, s, NotMine, n)
  {
  }

  lemma ActBalances(h: Host, k: nat, c: Choice, max: nat, sha: Digest, n: nat)
    requires Hist(h.seat)
    ensures var (t, reply) := Act(h, k, c, max, sha); Balanced(h.seat, c, t.seat, reply, n)
  {
    hide Hist, OnReceive, OnPump, OnSupervise, OnPanel, OnLeave, Balanced, Ticked;
    var (t, reply) := Accessed(h, k, c, max, sha);
    ClockAside(h.seat, c, t.seat, reply, n);
    match c
    case Receive(m, io) =>
      if h.seat.pump.Reading? {
        ReceiveBalances(h, k, m, max, io, n);
      } else {
        NothingMoves(h.seat, c, n);
      }
    case PumpOn(io, duplicate) => PumpBalances(h, k, sha, io, duplicate, n);
    case Panel(place, accept, sent) => PanelBalances(h.seat, place, accept, sent, n);
    case Supervise(io) => SuperviseBalances(h, k, io, n);
    case Leave => LeaveBalances(h.seat, n);
  }

  // ------------------------------------------------------------------------ whole runs

  /** How often session `k` answered its offer `n`. */
  function Answered(start: Disk, sessions: nat, max: nat, sha: Digest, turns: seq<Turn>, k: nat, n: nat): nat
    requires k < sessions
  {
    if turns == [] then 0
    else
      var before, t := turns[..|turns| - 1], turns[|turns| - 1];
      var w := Exec(start, sessions, max, sha, before);
      Answered(start, sessions, max, sha, before, k, n)
      + One(t.who == k && Answers(w.seats[k], t.choice, Step(w, t, max, sha).1, n))
  }

  /** How often that offer was withdrawn unanswered. */
  function Withdrawn(start: Disk, sessions: nat, max: nat, sha: Digest, turns: seq<Turn>, k: nat, n: nat): nat
    requires k < sessions
  {
    if turns == [] then 0
    else
      var before, t := turns[..|turns| - 1], turns[|turns| - 1];
      Withdrawn(start, sessions, max, sha, before, k, n)
      + One(t.who == k && Withdraws(Exec(start, sessions, max, sha, before).seats[k], t.choice, n))
  }

  /** Over every interleaving of any sessions, each offer that a session has looked at is
      in exactly one place on its way, or was answered exactly once, or withdrawn once. */
  lemma {:induction false} EveryOfferIsAnsweredOnce(start: Disk, sessions: nat, max: nat, sha: Digest, turns: seq<Turn>, k: nat, n: nat)
    requires k < sessions
    ensures var s := Exec(start, sessions, max, sha, turns).seats[k];
            Places(s, n) + Answered(start, sessions, max, sha, turns, k, n) + Withdrawn(start, sessions, max, sha, turns, k, n)
            == if n < s.next then 1 else 0
  {
    hide Step, Exec, Places, Answers, Withdraws, WorldInv;
    if turns == [] {
      NothingYet(start, sessions, max, sha, k, n);
    } else {
      var before, t := turns[..|turns| - 1], turns[|turns| - 1];
      EveryOfferIsAnsweredOnce(start, sessions, max, sha, before, k, n);
      EveryInterleavingIsSound(start, sessions, max, sha, before);
      OneMoreTurn(start, sessions, max, sha, before, t);
      assert before + [t] == turns;
      TurnBalances(Exec(start, sessions, max, sha, before), t, max, sha, start, k, n);
    }
  }

  lemma NothingYet(start: Disk, sessions: nat, max: nat, sha: Digest, k: nat, n: nat)
    requires k < sessions
    ensures Exec(start, sessions, max, sha, []).seats[k].next == 0 && Places(Exec(start, sessions, max, sha, []).seats[k], n) == 0
  {
  }

  lemma TurnBalances(w: World, t: Turn, max: nat, sha: Digest, start: Disk, k: nat, n: nat)
    requires WorldInv(w, start, max, sha) && k < |w.seats|
    ensures var (u, reply) := Step(w, t, max, sha);
            && |u.seats| == |w.seats|
            && if t.who == k then Balanced(w.seats[k], t.choice, u.seats[k], reply, n) else u.seats[k] == w.seats[k]
  {
    hide Act, Balanced, Hist, FlagInv, Holds, Orderly;
    if t.who == k {
      ActBalances(Host(w.dir, w.seats[k]), k, t.choice, max, sha, n);
    }
  }
}
