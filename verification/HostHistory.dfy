/**
 What one session's tasks can do to each other, as an invariant of every step: which
 accesses came before which, and what is still under way.
 */
module HostHistory {
  import opened FileReceive
  import opened HostTransfers
  import opened Options
  import opened SharedDirectory

  type Times = map<Access, nat>

  /** The offer that passed both checks and waits for its answer to be taken up. */
  function Out(s: Seat): Option<nat> {
    if s.waiting != [] then Some(s.waiting[0].number)
    else if s.answers != [] then Some(s.answers[0].ticket.number)
    else if s.pump.SawClear? then Some(s.pump.ticket.number)
    else None
  }

  /** The offer whose transfer the supervisor is opening. */
  function Busy(s: Seat): Option<nat> {
    if s.supervisor.Cleared? || s.supervisor.Opened? then Some(s.supervisor.ticket.number) else None
  }

  /** An offer waits beside a transfer. */
  predicate Beside(s: Seat, b: nat, a: nat) {
    s.slot == Some(a) && Out(s) == Some(b)
  }

  /** Offer `b` found the slot free before transfer `a` was stored there, and the flag
      clear after the flag was cleared for `a`. */
  predicate Crosses(at: Times, b: nat, a: nat) {
    && SeesFree(b) in at && SeesClear(b) in at && Clears(a) in at && Stores(a) in at
    && at[SeesFree(b)] < at[Stores(a)] && at[Clears(a)] < at[SeesClear(b)]
  }

  /** Not before both the second check of `b` and the store of `a`. */
  predicate Later(at: Times, e: Access, b: nat, a: nat)
    requires SeesClear(b) in at && Stores(a) in at
  {
    e in at ==> at[SeesClear(b)] < at[e] && at[Stores(a)] < at[e]
  }

  /** They cross, and by then neither was lost, dropped or torn down. */
  predicate Crossed(at: Times, b: nat, a: nat) {
    Crosses(at, b, a) && Later(at, Loses(b), b, a) && Later(at, Drops(a), b, a) && Later(at, TearsDown, b, a)
  }

  // -------------------------------------------------------------------- invariant

  ghost predicate Timed(s: Seat) {
    forall e :: e in s.at ==> s.at[e] < s.clock && (e.TearsDown? || e.number < s.next)
  }

  /** At most one offer waits, and the flag is up while it does. */
  predicate OneWaits(s: Seat) {
    && |s.waiting| + |s.answers| <= 1
    && (s.pump.SawClear? ==> s.waiting == [] && s.answers == [] && !s.pending)
    && (|s.waiting| + |s.answers| == 1 && !s.pump.Filed? ==> s.pending)
  }

  ghost predicate CheckingInv(s: Seat) {
    s.pump.SawFree? ==>
      var p := s.pump.ticket.number;
      && SeesFree(p) in s.at && SeesClear(p) !in s.at && Loses(p) !in s.at && Clears(p) !in s.at && Stores(p) !in s.at
      && (s.slot.Some? ==> Stores(s.slot.value) in s.at && s.at[SeesFree(p)] < s.at[Stores(s.slot.value)])
      && forall a: nat :: Stores(a) in s.at && s.at[SeesFree(p)] < s.at[Stores(a)] ==>
           s.slot == Some(a) || Drops(a) in s.at || TearsDown in s.at
  }

  /** The offer crosses the transfer in the slot and the one the pump took out. */
  predicate CrossesAll(s: Seat, b: nat) {
    (s.slot.Some? ==> Crosses(s.at, b, s.slot.value)) && (s.pump.Ending? ==> Crosses(s.at, b, s.pump.number))
  }

  ghost predicate OutInv(s: Seat) {
    Out(s).Some? ==>
      var b := Out(s).value;
      && SeesFree(b) in s.at && SeesClear(b) in s.at && Loses(b) !in s.at && Clears(b) !in s.at
      && (Busy(s).Some? ==> Clears(Busy(s).value) in s.at && s.at[Clears(Busy(s).value)] < s.at[SeesClear(b)])
      && CrossesAll(s, b)
  }

  ghost predicate BusyInv(s: Seat) {
    Busy(s).Some? ==>
      var b := Busy(s).value;
      && SeesFree(b) in s.at && SeesClear(b) in s.at && Clears(b) in s.at && Loses(b) !in s.at && Stores(b) !in s.at
      && (forall x: nat :: Clears(x) in s.at ==> s.at[Clears(x)] <= s.at[Clears(b)])
      && CrossesAll(s, b)
  }

  predicate Stored(at: Times, a: nat) {
    && SeesFree(a) in at && SeesClear(a) in at && Clears(a) in at && Stores(a) in at
    && Loses(a) !in at && Drops(a) !in at
  }

  ghost predicate PresentInv(s: Seat) {
    && (s.slot.Some? ==> Stored(s.at, s.slot.value)) && (s.pump.Ending? ==> Stored(s.at, s.pump.number))
    && (s.slot.Some? && s.pump.Ending? ==> Crosses(s.at, s.slot.value, s.pump.number) && s.slot.value != s.pump.number)
    && (s.slot.Some? ==> TearsDown !in s.at)
    && (s.supervisor.Gone? <==> TearsDown in s.at)
  }

  /** What became of the offers and transfers of the past. */
  ghost predicate PastInv(s: Seat) {
    && (forall b: nat :: SeesClear(b) in s.at ==> Out(s) == Some(b) || Loses(b) in s.at || Clears(b) in s.at)
    && (forall b: nat :: Clears(b) in s.at ==> SeesClear(b) in s.at && s.at[SeesClear(b)] < s.at[Clears(b)])
    && (forall a: nat :: Stores(a) in s.at ==> Clears(a) in s.at)
    && (forall a: nat :: Drops(a) in s.at ==> Stores(a) in s.at)
    && (forall a: nat :: Drops(a) in s.at ==> DroppedBySome(s.at, a))
  }

  /** The store that dropped it belongs to an offer that crossed it. */
  ghost predicate DroppedBySome(at: Times, a: nat) {
    Drops(a) in at && exists b: nat :: DroppedBy(at, a, b)
  }

  predicate DroppedBy(at: Times, a: nat, b: nat) {
    Drops(a) in at && Stores(b) in at && at[Stores(b)] == at[Drops(a)] && Crossed(at, b, a)
  }

  /** Accesses to come have not happened. */
  ghost predicate Hist(s: Seat) {
    Timed(s) && OneWaits(s) && CheckingInv(s) && OutInv(s) && BusyInv(s) && PresentInv(s) && PastInv(s)
  }

  // ------------------------------------------------------------------- step by step

  lemma NewIsHist()
    ensures Hist(NewSeat)
  {
  }

  lemma StillDropped(at: Times, e: Access, now: nat, a: nat)
    requires DroppedBySome(at, a) && (forall x :: x in at ==> at[x] < now) && e !in at
    ensures DroppedBySome(at[e := now], a)
  {
    var b: nat :| DroppedBy(at, a, b);
    assert DroppedBy(at[e := now], a, b);
  }

  /** The past after one more access, or none. */
  predicate Follows(s: Seat, t: Seat, e: Access) {
    && e !in s.at && t.at == Mark(s, e).at && !e.Drops?
    && (e.SeesClear? ==> Out(t) == Some(e.number))
    && (e.Clears? ==> SeesClear(e.number) in s.at)
    && (e.Stores? ==> Clears(e.number) in s.at)
    && (Out(s).Some? ==> Out(t) == Out(s) || e == Loses(Out(s).value) || e == Clears(Out(s).value))
  }

  lemma PastFollows(s: Seat, t: Seat, e: Access)
    requires Timed(s) && PastInv(s) && Follows(s, t, e)
    ensures PastInv(t)
  {
    hide DroppedBySome, Out;
    forall a: nat | Drops(a) in t.at
      ensures DroppedBySome(t.at, a)
    {
      StillDropped(s.at, e, s.clock, a);
    }
  }

  lemma PastStays(s: Seat, t: Seat)
    requires PastInv(s) && t.at == s.at && Out(t) == Out(s)
    ensures PastInv(t)
  {
    hide DroppedBySome, Out;
  }

  lemma SeesFreeKeeps(s: Seat, m: OfferMsg)
    requires Hist(s) && s.pump.Reading? && s.slot.None?
    ensures Hist(Ticked(Mark(s, SeesFree(s.next)).(pump := SawFree(Ticket(s.next, m)), next := s.next + 1)))
  {
    hide PastInv;
    PastFollows(s, Ticked(Mark(s, SeesFree(s.next)).(pump := SawFree(Ticket(s.next, m)), next := s.next + 1)), SeesFree(s.next));
  }

  /** The pump loses an offer at one of the checks. */
  lemma RefusalKeeps(s: Seat)
    requires Hist(s) && (s.pump.SawFree? || s.pump.SawClear?)
    ensures Hist(Ticked(Mark(s, Loses(s.pump.ticket.number)).(pump := Reading)))
  {
    hide Hist;
    if s.pump.SawFree? {
      FirstRefusalKeeps(s);
    } else {
      SecondRefusalKeeps(s);
    }
  }

  lemma FirstRefusalKeeps(s: Seat)
    requires Hist(s) && s.pump.SawFree?
    ensures Hist(Ticked(Mark(s, Loses(s.pump.ticket.number)).(pump := Reading)))
  {
    hide PastInv;
    PastFollows(s, Ticked(Mark(s, Loses(s.pump.ticket.number)).(pump := Reading)), Loses(s.pump.ticket.number));
  }

  lemma SecondRefusalKeeps(s: Seat)
    requires Hist(s) && s.pump.SawClear?
    ensures Hist(Ticked(Mark(s, Loses(s.pump.ticket.number)).(pump := Reading)))
  {
    hide PastInv, CheckingInv;
    var t := Ticked(Mark(s, Loses(s.pump.ticket.number)).(pump := Reading));
    PastFollows(s, t, Loses(s.pump.ticket.number));
    assert CheckingInv(t) by { NothingChecked(t); }
  }

  lemma NothingChecked(t: Seat)
    requires !t.pump.SawFree?
    ensures CheckingInv(t)
  {
  }

  lemma SeesClearKeeps(s: Seat)
    requires Hist(s) && s.pump.SawFree? && !s.pending
    ensures Hist(Ticked(Mark(s, SeesClear(s.pump.ticket.number)).(pump := SawClear(s.pump.ticket))))
  {
    hide PastInv;
    PastFollows(s, Ticked(Mark(s, SeesClear(s.pump.ticket.number)).(pump := SawClear(s.pump.ticket))),
                SeesClear(s.pump.ticket.number));
  }

  lemma FilesKeeps(s: Seat)
    requires Hist(s) && s.pump.SawClear?
    ensures Hist(Ticked(s.(pump := Filed(s.pump.ticket), waiting := s.waiting + [s.pump.ticket])))
  {
    hide PastInv;
    var t := Ticked(s.(pump := Filed(s.pump.ticket), waiting := s.waiting + [s.pump.ticket]));
    assert t.waiting == [s.pump.ticket];
    PastStays(s, t);
  }

  /** The pump raises the flag. */
  lemma SetsKeeps(s: Seat)
    requires Hist(s) && s.pump.Filed? && Sets(s.pump.ticket.number) !in s.at && s.pump.ticket.number < s.next
    ensures Hist(Ticked(Mark(s, Sets(s.pump.ticket.number)).(pump := Reading, pending := true)))
  {
    hide PastInv;
    PastFollows(s, Ticked(Mark(s, Sets(s.pump.ticket.number)).(pump := Reading, pending := true)), Sets(s.pump.ticket.number));
  }

  /** The pump empties the slot, to delete the transfer or to finish it. */
  lemma EmptiedKeeps(s: Seat)
    requires Hist(s) && s.pump.Reading?
    ensures Hist(Ticked(s.(slot := None)))
    ensures s.slot.Some? ==> Hist(Ticked(s.(slot := None, pump := Ending(s.slot.value))))
  {
    hide PastInv;
    PastStays(s, Ticked(s.(slot := None)));
    if s.slot.Some? {
      PastStays(s, Ticked(s.(slot := None, pump := Ending(s.slot.value))));
    }
  }

  lemma EndedKeeps(s: Seat)
    requires Hist(s) && s.pump.Ending?
    ensures Hist(Ticked(s.(pump := Reading)))
  {
    hide PastInv;
    PastStays(s, Ticked(s.(pump := Reading)));
  }

  lemma IdlingKeeps(s: Seat)
    requires Hist(s)
    ensures Hist(Ticked(s))
  {
    hide PastInv;
    PastStays(s, Ticked(s));
  }

  lemma NotStored(s: Seat, b: nat)
    requires PastInv(s) && Clears(b) !in s.at
    ensures Stores(b) !in s.at
  {
  }

  /** An answer is taken up: the flag is cleared, and the file opened next if the panel
      accepted. */
  function Clearing(s: Seat): Seat
    requires s.answers != []
  {
    Mark(s, Clears(s.answers[0].ticket.number)).(pending := false, answers := s.answers[1..])
  }

  lemma ClearsKeeps(s: Seat)
    requires Hist(s) && s.supervisor.Resting? && s.answers != []
    ensures Hist(Ticked(Clearing(s)))
  {
    hide PastInv;
    assert s.answers[1..] == [] && Out(Clearing(s)) == None;
    PastFollows(s, Ticked(Clearing(s)), Clears(s.answers[0].ticket.number));
  }

  lemma AcceptKeeps(s: Seat)
    requires Hist(s) && s.supervisor.Resting? && s.answers != []
    ensures Hist(Ticked(Clearing(s).(supervisor := Cleared(s.answers[0].ticket))))
  {
    hide PastInv;
    var t := s.answers[0].ticket;
    assert s.answers[1..] == [] && Out(Clearing(s)) == None;
    NotStored(s, t.number);
    PastFollows(s, Ticked(Clearing(s).(supervisor := Cleared(t))), Clears(t.number));
  }

  lemma OpensKeeps(s: Seat)
    requires Hist(s) && s.supervisor.Cleared?
    ensures Hist(Ticked(s.(supervisor := Opened(s.supervisor.ticket)))) && Hist(Ticked(s.(supervisor := Resting)))
  {
    hide PastInv;
    PastStays(s, Ticked(s.(supervisor := Opened(s.supervisor.ticket))));
    PastStays(s, Ticked(s.(supervisor := Resting)));
  }

  lemma TearsDownKeeps(s: Seat)
    requires Hist(s) && s.supervisor.Leaving?
    ensures Hist(Ticked(Mark(s.(slot := None), TearsDown).(supervisor := Gone)))
  {
    hide PastInv;
    PastFollows(s, Ticked(Mark(s.(slot := None), TearsDown).(supervisor := Gone)), TearsDown);
  }

  /** Storing a transfer, and dropping the one found in the slot. */
  function Storing(s: Seat): Seat
    requires s.supervisor.Opened?
  {
    var u := if s.slot.Some? then Mark(s, Drops(s.slot.value)) else s;
    Mark(u, Stores(s.supervisor.ticket.number)).(slot := Some(s.supervisor.ticket.number), supervisor := Resting)
  }

  lemma CrossingStays(at: Times, e: Access, now: nat, b: nat, a: nat)
    requires Crossed(at, b, a) && e !in at && forall x :: x in at ==> at[x] < now
    ensures Crossed(at[e := now], b, a)
  {
  }

  /** The transfer found in the slot is dropped by the offer that crossed it. */
  lemma FoundIsDropped(s: Seat)
    requires Timed(s) && BusyInv(s) && PresentInv(s) && s.supervisor.Opened? && s.slot.Some?
    ensures DroppedBy(Storing(s).at, s.slot.value, s.supervisor.ticket.number)
  {
  }

  lemma StoringDrops(s: Seat, a: nat)
    requires Timed(s) && BusyInv(s) && PresentInv(s) && PastInv(s) && s.supervisor.Opened? && Drops(a) in Storing(s).at
    ensures DroppedBySome(Storing(s).at, a)
  {
    hide Out, Crossed;
    if s.slot == Some(a) {
      FoundIsDropped(s);
    } else {
      var x: nat :| DroppedBy(s.at, a, x);
      var u := if s.slot.Some? then Mark(s, Drops(s.slot.value)) else s;
      if s.slot.Some? {
        CrossingStays(s.at, Drops(s.slot.value), s.clock, x, a);
      }
      assert DroppedBy(u.at, a, x);
      CrossingTwice(s, x, a);
      assert DroppedBy(Storing(s).at, a, x);
    }
  }

  lemma CrossingTwice(s: Seat, b: nat, a: nat)
    requires Timed(s) && BusyInv(s) && PresentInv(s) && s.supervisor.Opened? && Crossed(s.at, b, a)
    ensures Crossed(Storing(s).at, b, a)
  {
    hide CrossesAll;
  }

  lemma StoringPast(s: Seat)
    requires Timed(s) && BusyInv(s) && PresentInv(s) && PastInv(s) && s.supervisor.Opened?
    ensures PastInv(Ticked(Storing(s))) && Drops(s.supervisor.ticket.number) !in Storing(s).at
  {
    hide Out, DroppedBySome, CrossesAll;
    SameOut(s);
    forall a: nat | Drops(a) in Storing(s).at
      ensures DroppedBySome(Storing(s).at, a)
    {
      StoringDrops(s, a);
    }
  }

  lemma SameOut(s: Seat)
    requires s.supervisor.Opened?
    ensures Out(Ticked(Storing(s))) == Out(s)
  {
  }

  lemma StoringChecks(s: Seat)
    requires Timed(s) && CheckingInv(s) && BusyInv(s) && PresentInv(s) && s.supervisor.Opened?
    ensures Timed(Ticked(Storing(s))) && CheckingInv(Ticked(Storing(s)))
  {
  }

  lemma StoringCrosses(s: Seat)
    requires Hist(s) && s.supervisor.Opened?
    ensures OutInv(Ticked(Storing(s)))
  {
    hide PastInv, CheckingInv, OneWaits;
    SameOut(s);
  }

  lemma StoresKeeps(s: Seat)
    requires Hist(s) && s.supervisor.Opened?
    ensures Hist(Ticked(Storing(s)))
  {
    hide PastInv, CheckingInv, OutInv, Out;
    StoringPast(s);
    StoringChecks(s);
    StoringCrosses(s);
  }

  /** The offer that waited is lost. */
  lemma WithdrawalKeeps(s: Seat, t: Seat)
    requires Hist(s) && s.waiting != []
    requires t.supervisor == s.supervisor || (t.supervisor.Leaving? && s.supervisor.Resting?)
    requires t == Mark(s, Loses(s.waiting[0].number)).(waiting := [], supervisor := t.supervisor)
    ensures Hist(Ticked(t))
  {
    hide PastInv;
    PastFollows(s, Ticked(t), Loses(s.waiting[0].number));
  }

  lemma AnswerKeeps(s: Seat, a: Answer)
    requires Hist(s) && s.waiting == [a.ticket]
    ensures Hist(Ticked(s.(waiting := [], answers := s.answers + [a])))
  {
    hide PastInv;
    assert s.answers + [a] == [a];
    PastStays(s, Ticked(s.(waiting := [], answers := s.answers + [a])));
  }

  lemma PanelKeeps(s: Seat, place: nat, accept: bool, sent: bool)
    requires Hist(s)
    ensures Hist(Ticked(OnPanel(s, place, accept, sent)))
  {
    hide Timed, CheckingInv, OutInv, BusyInv, PresentInv, PastInv, Out;
    if place >= |s.waiting| {
      IdlingKeeps(s);
    } else {
      assert s.waiting[..place] + s.waiting[place + 1..] == [];
      if sent {
        AnswerKeeps(s, Answer(s.waiting[0], accept));
      } else {
        WithdrawalKeeps(s, Mark(s, Loses(s.waiting[0].number)).(waiting := []));
      }
    }
  }

  lemma LeaveKeeps(s: Seat)
    requires Hist(s)
    ensures Hist(Ticked(OnLeave(s)))
  {
    hide Timed, CheckingInv, OutInv, BusyInv, PresentInv, PastInv, Out;
    if !s.supervisor.Resting? {
      IdlingKeeps(s);
    } else if s.waiting == [] {
      LeavingKeeps(s);
    } else {
      var t := Mark(s, Loses(s.waiting[0].number));
      assert s.waiting[1..] == [] && Forgotten(t, []) == t;
      WithdrawalKeeps(s, t.(supervisor := Leaving, waiting := []));
    }
  }

  lemma LeavingKeeps(s: Seat)
    requires Hist(s) && s.supervisor.Resting?
    ensures Hist(Ticked(s.(supervisor := Leaving)))
  {
    hide PastInv;
    PastStays(s, Ticked(s.(supervisor := Leaving)));
  }

  // ------------------------------------------------------------------ the flag

  /** The flag is up though no offer waits and none is about to raise it: the session
      takes no offer any more. */
  predicate FlagLeft(s: Seat) {
    s.pending && s.waiting == [] && s.answers == [] && !s.pump.Filed?
  }

  /** Offer `b` raised the flag after its answer had cleared it, or was lost. */
  predicate LeftBy(at: Times, b: nat) {
    Sets(b) in at && (Loses(b) in at || (Clears(b) in at && at[Clears(b)] < at[Sets(b)]))
  }

  ghost predicate FlagInv(s: Seat)
  {
    && (s.pump.Filed? ==>
          var b := s.pump.ticket.number;
          && b < s.next && SeesClear(b) in s.at && Sets(b) !in s.at
          && (Out(s) == Some(b) || (Out(s).None? && (Loses(b) in s.at || Clears(b) in s.at))))
    && (|s.waiting| + |s.answers| == 1 && !s.pump.Filed? ==> Sets(Out(s).value) in s.at)
    && (s.pump.SawClear? ==> Sets(s.pump.ticket.number) !in s.at && s.pump.ticket.number < s.next)
    && (forall b: nat :: Sets(b) in s.at ==> SeesClear(b) in s.at)
    && (FlagLeft(s) <==> exists b: nat :: LeftBy(s.at, b))
  }

  lemma NewFlag()
    ensures FlagInv(NewSeat)
  {
  }

  /** Accesses that have nothing to do with the flag. */
  ghost predicate SameFlag(s: Seat, t: Seat) {
    && t.pending == s.pending && t.waiting == s.waiting && t.answers == s.answers && s.next <= t.next
    && (t.pump == s.pump || (!s.pump.Filed? && !s.pump.SawClear? && !t.pump.Filed? && !t.pump.SawClear?))
    && (forall b: nat :: (Sets(b) in t.at <==> Sets(b) in s.at) && (Sets(b) in s.at ==> t.at[Sets(b)] == s.at[Sets(b)]))
    && (forall b: nat :: (Clears(b) in t.at <==> Clears(b) in s.at) && (Clears(b) in s.at ==> t.at[Clears(b)] == s.at[Clears(b)]))
    && (forall b: nat :: SeesClear(b) in s.at ==> SeesClear(b) in t.at)
    && (forall b: nat :: Loses(b) in t.at && Loses(b) !in s.at ==> Sets(b) !in s.at)
    && (forall b: nat :: Loses(b) in s.at ==> Loses(b) in t.at)
  }

  lemma FlagSame(s: Seat, t: Seat)
    requires FlagInv(s) && SameFlag(s, t)
    ensures FlagInv(t)
  {
    assert Out(t) == Out(s);
    hide Out;
    if FlagLeft(s) {
      var b: nat :| LeftBy(s.at, b);
      assert LeftBy(t.at, b);
    }
    if b: nat :| LeftBy(t.at, b) {
      assert LeftBy(s.at, b);
    }
  }

  /** No trace of an offer that raised the flag too late, before or after. */
  lemma FlagDown(s: Seat, t: Seat)
    requires FlagInv(s) && !FlagLeft(s)
    requires forall b: nat :: LeftBy(t.at, b) ==> LeftBy(s.at, b)
    ensures forall b: nat :: !LeftBy(t.at, b)
  {
    hide LeftBy, Out;
  }

  lemma FlagSeesClear(s: Seat)
    requires Hist(s) && FlagInv(s) && s.pump.SawFree? && !s.pending
    ensures FlagInv(Ticked(Mark(s, SeesClear(s.pump.ticket.number)).(pump := SawClear(s.pump.ticket))))
  {
    hide CheckingInv, OutInv, BusyInv, PresentInv, PastInv;
    NotSet(s);
    FlagDown(s, Mark(s, SeesClear(s.pump.ticket.number)));
  }

  lemma NotSet(s: Seat)
    requires Hist(s) && FlagInv(s) && (s.pump.SawFree? || s.pump.SawClear?)
    ensures Sets(s.pump.ticket.number) !in s.at && s.pump.ticket.number < s.next
  {
  }

  lemma FlagRefusal(s: Seat)
    requires Hist(s) && FlagInv(s) && (s.pump.SawFree? || s.pump.SawClear?)
    ensures FlagInv(Ticked(Mark(s, Loses(s.pump.ticket.number)).(pump := Reading)))
  {
    hide CheckingInv, OutInv, BusyInv, PresentInv, PastInv;
    NotSet(s);
    var t := Ticked(Mark(s, Loses(s.pump.ticket.number)).(pump := Reading));
    if s.pump.SawFree? {
      FlagSame(s, t);
    } else {
      FlagDown(s, t);
    }
  }

  lemma FlagFiles(s: Seat)
    requires Hist(s) && FlagInv(s) && s.pump.SawClear?
    ensures FlagInv(Ticked(s.(pump := Filed(s.pump.ticket), waiting := s.waiting + [s.pump.ticket])))
  {
    hide CheckingInv, BusyInv, PresentInv, PastInv;
    assert s.waiting + [s.pump.ticket] == [s.pump.ticket];
    FlagDown(s, s);
  }

  lemma FlagSets(s: Seat)
    requires Hist(s) && FlagInv(s) && s.pump.Filed?
    ensures Sets(s.pump.ticket.number) !in s.at && s.pump.ticket.number < s.next
    ensures FlagInv(Ticked(Mark(s, Sets(s.pump.ticket.number)).(pump := Reading, pending := true)))
  {
    hide CheckingInv, BusyInv, PresentInv;
    var b := s.pump.ticket.number;
    var t := Ticked(Mark(s, Sets(b)).(pump := Reading, pending := true));
    if Out(s).None? {
      assert LeftBy(t.at, b);
    } else {
      NothingLeft(s, t, b);
    }
    assert FlagLeft(t) ==> exists b: nat :: LeftBy(t.at, b);
    assert FlagLeft(t) <== exists b: nat :: LeftBy(t.at, b);
  }

  lemma NothingLeft(s: Seat, t: Seat, b: nat)
    requires FlagInv(s) && s.pump.Filed? && t.at == Mark(s, Sets(b)).at && Loses(b) !in s.at && Clears(b) !in s.at
    ensures forall x: nat :: !LeftBy(t.at, x)
  {
    assert forall x: nat :: LeftBy(t.at, x) ==> LeftBy(s.at, x);
    FlagDown(s, t);
  }

  lemma FlagClears(s: Seat, t: Seat)
    requires Hist(s) && FlagInv(s) && s.supervisor.Resting? && s.answers != []
    requires t == Ticked(Clearing(s).(supervisor := t.supervisor))
    ensures FlagInv(t)
  {
    hide CheckingInv, BusyInv, PresentInv, PastInv;
    assert s.answers[1..] == [];
    FlagDown(s, t);
  }

  /** The offer that waits is lost. */
  lemma FlagWithdrawal(s: Seat, t: Seat)
    requires Hist(s) && FlagInv(s) && s.waiting != []
    requires t == Ticked(Mark(s, Loses(s.waiting[0].number)).(waiting := [], supervisor := t.supervisor))
    ensures FlagInv(t)
  {
    hide CheckingInv, BusyInv, PresentInv, PastInv;
    var b := s.waiting[0].number;
    if s.pump.Filed? {
      FlagDown(s, t);
    } else {
      assert LeftBy(t.at, b);
    }
  }

  lemma FlagAnswer(s: Seat, a: Answer)
    requires Hist(s) && FlagInv(s) && s.waiting == [a.ticket]
    ensures FlagInv(Ticked(s.(waiting := [], answers := s.answers + [a])))
  {
    hide CheckingInv, OutInv, BusyInv, PresentInv, PastInv;
    assert s.answers + [a] == [a];
    FlagDown(s, s);
  }

  lemma FlagPanel(s: Seat, place: nat, accept: bool, sent: bool)
    requires Hist(s) && FlagInv(s)
    ensures FlagInv(Ticked(OnPanel(s, place, accept, sent)))
  {
    hide Timed, CheckingInv, OutInv, BusyInv, PresentInv, PastInv, FlagInv, Out;
    if place >= |s.waiting| {
      FlagSame(s, Ticked(s));
    } else {
      assert s.waiting[..place] + s.waiting[place + 1..] == [];
      if sent {
        FlagAnswer(s, Answer(s.waiting[0], accept));
      } else {
        FlagWithdrawal(s, Ticked(Mark(s, Loses(s.waiting[0].number)).(waiting := [])));
      }
    }
  }

  lemma FlagLeave(s: Seat)
    requires Hist(s) && FlagInv(s)
    ensures FlagInv(Ticked(OnLeave(s)))
  {
    hide Timed, CheckingInv, OutInv, BusyInv, PresentInv, PastInv, FlagInv, Out;
    if s.supervisor.Resting? && s.waiting != [] {
      var t := Mark(s, Loses(s.waiting[0].number));
      assert s.waiting[1..] == [] && Forgotten(t, []) == t;
      FlagWithdrawal(s, Ticked(t.(supervisor := Leaving, waiting := [])));
    } else {
      FlagSame(s, Ticked(OnLeave(s)));
    }
  }
}
