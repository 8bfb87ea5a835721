/**
 Offers waiting for a decision in the host's panel: registered by sessions, answered
 once, expired after two minutes, or dropped with their device. Each registration has
 a serial number of its own; clocks are in milliseconds.
 */
module OfferQueue {
  import opened Options

  const OFFER_TTL := 120_000

  datatype Pending = Pending(serial: nat, device: string, at: int)

  type Queue = map<string, Pending>

  predicate Live(p: Pending, now: int) { now - p.at < OFFER_TTL }

  /** The offers still live. */
  function Pruned(q: Queue, now: int): Queue {
    map id | id in q && Live(q[id], now) :: q[id]
  }

  /** The offers a prune answers with a denial. */
  function Expired(q: Queue, now: int): set<nat> {
    set id | id in q && !Live(q[id], now) :: q[id].serial
  }

  class TransferManager {
    var pending: Queue

    constructor ()
      ensures pending == map[]
    {
      pending := map[];
    }

    /** Keep the live offers; the others are denied, in no particular order. */
    method Prune(now: int) returns (denied: set<nat>)
      modifies this
      ensures pending == Pruned(old(pending), now) && denied == Expired(old(pending), now)
    {
      denied := {};
      var todo := pending.Keys;
      ghost var start := pending;
      while todo != {}
        invariant todo <= start.Keys && todo <= pending.Keys
        invariant forall id :: id in todo ==> pending[id] == start[id]
        invariant forall id :: id in pending ==> id in start && pending[id] == start[id]
        invariant forall id :: id in start && id !in todo ==> (id in pending <==> Live(start[id], now))
        invariant denied == set id | id in start && id !in todo && !Live(start[id], now) :: start[id].serial
        decreases |todo|
      {
        var id :| id in todo;
        if !Live(pending[id], now) {
          denied := denied + {pending[id].serial};
          pending := pending - {id};
        }
        todo := todo - {id};
      }
      assert pending == Pruned(start, now);
    }

    method Register(id: string, offer: Pending, now: int) returns (registered: bool, denied: set<nat>)
      modifies this
      ensures denied == Expired(old(pending), now) && registered == (id !in Pruned(old(pending), now))
      ensures pending == if registered then Pruned(old(pending), now)[id := offer] else Pruned(old(pending), now)
    {
      denied := Prune(now);
      registered := id !in pending;
      if registered {
        pending := pending[id := offer];
      }
    }

    /** The panel's decision goes to the offer of that id, if it is still live. */
    method Decide(id: string, now: int) returns (answered: Option<nat>, denied: set<nat>)
      modifies this
      ensures denied == Expired(old(pending), now) && pending == Pruned(old(pending), now) - {id}
      ensures var q := Pruned(old(pending), now); answered == if id in q then Some(q[id].serial) else None
    {
      denied := Prune(now);
      answered := None;
      if id in pending {
        answered := Some(pending[id].serial);
        pending := pending - {id};
      }
    }

    /** What the panel shows, in no particular order. */
    method List(now: int) returns (shown: Queue, denied: set<nat>)
      modifies this
      ensures denied == Expired(old(pending), now) && shown == pending == Pruned(old(pending), now)
    {
      denied := Prune(now);
      shown := pending;
    }

    method DropForDevice(device: string)
      modifies this
      ensures pending == map id | id in old(pending) && old(pending)[id].device != device :: old(pending)[id]
    {
      pending := map id | id in pending && pending[id].device != device :: pending[id];
    }
  }

  // ------------------------------------------------------------------------- runs

  datatype Event =
    | Register(id: string, device: string, now: int)
    | Decide(id: string, accept: bool, now: int)
    | List(now: int)
    | Drop(device: string)

  /** Where every registration went: waiting, accepted at a time, denied, dropped.
      `offeredAt` remembers when each was registered, `answers` counts what was sent. */
  datatype State = State(queue: Queue, offeredAt: seq<int>, accepted: map<nat, int>, denied: set<nat>, dropped: set<nat>,
                         answers: nat)

  function Refuse(s: State, now: int): State {
    s.(queue := Pruned(s.queue, now), denied := s.denied + Expired(s.queue, now),
       answers := s.answers + |Expired(s.queue, now)|)
  }

  function Step(s: State, e: Event): State {
    match e
    case Register(id, device, now) =>
      var t := Refuse(s, now);
      if id in t.queue then t
      else t.(queue := t.queue[id := Pending(|t.offeredAt|, device, now)], offeredAt := t.offeredAt + [now])
    case Decide(id, accept, now) =>
      var t := Refuse(s, now);
      if id !in t.queue then t
      else
        var n := t.queue[id].serial;
        var u := t.(queue := t.queue - {id}, answers := t.answers + 1);
        if accept then u.(accepted := u.accepted[n := now]) else u.(denied := u.denied + {n})
    case List(now) => Refuse(s, now)
    case Drop(device) =>
      s.(queue := map id | id in s.queue && s.queue[id].device != device :: s.queue[id],
         dropped := s.dropped + set id | id in s.queue && s.queue[id].device == device :: s.queue[id].serial)
  }

  function Exec(events: seq<Event>): State {
    if events == [] then State(map[], [], map[], {}, {}, 0) else Step(Exec(events[..|events| - 1]), events[|events| - 1])
  }

  predicate Waits(q: Queue, n: nat) {
    exists id :: id in q && q[id].serial == n
  }

  /** Every registration is in exactly one place, and an accepted one was accepted
      within its time. */
  ghost predicate Accounted(s: State, n: nat) {
    && n < |s.offeredAt|
    && (if Waits(s.queue, n) then n !in s.accepted && n !in s.denied && n !in s.dropped
        else if n in s.accepted then n !in s.denied && n !in s.dropped && s.accepted[n] - s.offeredAt[n] < 120_000
        else n in s.denied <==> n !in s.dropped)
  }

  ghost predicate Inv(s: State) {
    && (forall id :: id in s.queue ==> s.queue[id].serial < |s.offeredAt|
                                       && s.queue[id].at == s.offeredAt[s.queue[id].serial])
    && (forall a, b :: a in s.queue && b in s.queue && s.queue[a].serial == s.queue[b].serial ==> a == b)
    && (forall n :: n in s.accepted || n in s.denied || n in s.dropped ==> n < |s.offeredAt|)
    && (forall n :: 0 <= n < |s.offeredAt| ==> Accounted(s, n))
  }

  /** As many answers were sent as offers were answered. */
  predicate Counted(s: State) {
    s.answers == |s.accepted| + |s.denied|
  }

  lemma RefuseKeepsInv(s: State, now: int)
    requires Inv(s)
    ensures Inv(Refuse(s, now))
  {
    var t := Refuse(s, now);
    forall n | 0 <= n < |s.offeredAt|
      ensures Accounted(t, n)
    {
      assert Accounted(s, n);
      if Waits(s.queue, n) {
        var id :| id in s.queue && s.queue[id].serial == n;
        if Live(s.queue[id], now) {
          assert id in t.queue && t.queue[id].serial == n;
        } else {
          assert n in Expired(s.queue, now);
        }
      } else {
        assert n !in Expired(s.queue, now);
      }
    }
  }

  lemma WaitingIsUnanswered(s: State, id: string)
    requires Inv(s) && id in s.queue
    ensures s.queue[id].serial !in s.accepted && s.queue[id].serial !in s.denied
  {
    assert Accounted(s, s.queue[id].serial);
  }

  lemma RefuseCounts(s: State, now: int)
    requires Inv(s) && Counted(s)
    ensures Counted(Refuse(s, now))
  {
    assert s.denied !! Expired(s.queue, now) by {
      forall id | id in s.queue
        ensures s.queue[id].serial !in s.denied
      {
        WaitingIsUnanswered(s, id);
      }
    }
    hide Inv, Expired, Pruned;
  }

  lemma StepCounts(s: State, e: Event)
    requires Inv(s) && Counted(s)
    ensures Counted(Step(s, e))
  {
    hide Inv, Pruned, Expired, Refuse;
    if !e.Drop? {
      var t := Refuse(s, e.now);
      RefuseKeepsInv(s, e.now);
      RefuseCounts(s, e.now);
      if !e.List? && e.id in t.queue {
        WaitingIsUnanswered(t, e.id);
      }
    }
  }

  lemma StepKeepsInv(s: State, e: Event)
    requires Inv(s)
    ensures Inv(Step(s, e))
  {
    hide Inv, Pruned, Expired, Refuse;
    match e
    case Register(id, device, now) =>
      RefuseKeepsInv(s, now);
      RegisterKeepsInv(Refuse(s, now), id, device, now);
    case Decide(id, accept, now) =>
      RefuseKeepsInv(s, now);
      RefusedAreLive(s, now, id);
      DecideKeepsInv(Refuse(s, now), id, accept, now);
    case List(now) => RefuseKeepsInv(s, now);
    case Drop(device) => DropKeepsInv(s, device);
  }

  lemma RefusedAreLive(s: State, now: int, id: string)
    ensures id in Refuse(s, now).queue ==> Live(Refuse(s, now).queue[id], now)
  {
  }

  lemma RegisterKeepsInv(t: State, id: string, device: string, now: int)
    requires Inv(t)
    ensures id !in t.queue ==> Inv(t.(queue := t.queue[id := Pending(|t.offeredAt|, device, now)], offeredAt := t.offeredAt + [now]))
  {
    if id !in t.queue {
      var u := t.(queue := t.queue[id := Pending(|t.offeredAt|, device, now)], offeredAt := t.offeredAt + [now]);
      forall n | 0 <= n < |u.offeredAt|
        ensures Accounted(u, n)
      {
        if n < |t.offeredAt| {
          assert Accounted(t, n);
          if Waits(t.queue, n) {
            var x :| x in t.queue && t.queue[x].serial == n;
            assert x in u.queue && u.queue[x].serial == n;
          }
        } else {
          assert id in u.queue && u.queue[id].serial == n;
        }
      }
    }
  }

  lemma DecideKeepsInv(t: State, id: string, accept: bool, now: int)
    requires Inv(t) && (id in t.queue ==> Live(t.queue[id], now))
    ensures id in t.queue ==>
              var n := t.queue[id].serial;
              var u := t.(queue := t.queue - {id}, answers := t.answers + 1);
              Inv(if accept then u.(accepted := u.accepted[n := now]) else u.(denied := u.denied + {n}))
  {
    if id in t.queue {
      var m := t.queue[id].serial;
      var v := t.(queue := t.queue - {id}, answers := t.answers + 1);
      var u := if accept then v.(accepted := v.accepted[m := now]) else v.(denied := v.denied + {m});
      forall n | 0 <= n < |u.offeredAt|
        ensures Accounted(u, n)
      {
        assert Accounted(t, n);
        if n != m && Waits(t.queue, n) {
          var x :| x in t.queue && t.queue[x].serial == n;
          assert x in u.queue && u.queue[x].serial == n;
        }
      }
    }
  }

  lemma DropKeepsInv(s: State, device: string)
    requires Inv(s)
    ensures Inv(Step(s, Drop(device)))
  {
    var t := Step(s, Drop(device));
    forall n | 0 <= n < |s.offeredAt|
      ensures Accounted(t, n)
    {
      assert Accounted(s, n);
      if Waits(s.queue, n) {
        var id :| id in s.queue && s.queue[id].serial == n;
        if s.queue[id].device != device {
          assert id in t.queue && t.queue[id].serial == n;
        }
      }
    }
  }

  /** In every run each registered offer is in exactly one place: waiting, accepted
      within two minutes, denied, or dropped with its device; and as many answers were
      sent as offers were answered, so none was answered twice. */
  lemma {:induction false} EveryOfferIsAccounted(events: seq<Event>)
    ensures Inv(Exec(events)) && Counted(Exec(events))
  {
    hide Step, Inv, Counted;
    if events == [] {
      NothingRegistered();
    } else {
      EveryOfferIsAccounted(events[..|events| - 1]);
      StepKeepsInv(Exec(events[..|events| - 1]), events[|events| - 1]);
      StepCounts(Exec(events[..|events| - 1]), events[|events| - 1]);
    }
  }

  lemma NothingRegistered()
    ensures Inv(Exec([])) && Counted(Exec([]))
  {
  }

  /** Offer `n` waits under `id`, for `device`. */
  predicate WaitsAs(s: State, n: nat, id: string, device: string) {
    && id in s.queue && s.queue[id].serial == n && s.queue[id].device == device
    && n < |s.offeredAt| && s.queue[id].at == s.offeredAt[n]
  }

  /** The event neither decides the offer nor drops its device, and comes within two
      minutes of it. */
  predicate LeavesAlone(e: Event, at: int, id: string, device: string) {
    match e
    case Register(_, _, now) => now < at + 120_000
    case Decide(other, _, now) => other != id && now < at + 120_000
    case List(now) => now < at + 120_000
    case Drop(other) => other != device
  }

  /** An offer waits for two minutes: whatever else happens, only a decision on it or the
      loss of its device ends that sooner. */
  lemma {:induction false} OfferWaits(events: seq<Event>, more: seq<Event>, n: nat, id: string, device: string)
    requires n < |Exec(events).offeredAt| && WaitsAs(Exec(events), n, id, device)
    requires forall i :: 0 <= i < |more| ==> LeavesAlone(more[i], Exec(events).offeredAt[n], id, device)
    ensures n < |Exec(events + more).offeredAt|
    ensures WaitsAs(Exec(events + more), n, id, device)
    ensures Exec(events + more).offeredAt[n] == Exec(events).offeredAt[n]
    decreases |more|
  {
    hide Step, Exec, WaitsAs, LeavesAlone;
    if more == [] {
      assert events + more == events;
    } else {
      var before, e := more[..|more| - 1], more[|more| - 1];
      OfferWaits(events, before, n, id, device);
      assert events + more == (events + before) + [e];
      OneMore(events + before, e);
      LeftAlone(Exec(events + before), e, n, id, device);
    }
  }

  lemma OneMore(events: seq<Event>, e: Event)
    ensures Exec(events + [e]) == Step(Exec(events), e)
  {
    hide Step;
    assert (events + [e])[..|events|] == events;
  }

  lemma LeftAlone(s: State, e: Event, n: nat, id: string, device: string)
    requires n < |s.offeredAt| && WaitsAs(s, n, id, device) && LeavesAlone(e, s.offeredAt[n], id, device)
    ensures n < |Step(s, e).offeredAt| && WaitsAs(Step(s, e), n, id, device) && Step(s, e).offeredAt[n] == s.offeredAt[n]
  {
    hide Expired;
  }

  /** Then the panel's answer decides it; but from two minutes on it is denied, by the
      first call that looks. */
  lemma WaitingIsDecided(events: seq<Event>, n: nat, id: string, device: string, e: Event)
    requires WaitsAs(Exec(events), n, id, device) && !e.Drop?
    ensures var s, t := Exec(events), Exec(events + [e]);
            if e.now >= s.offeredAt[n] + 120_000 then n in t.denied && !Waits(t.queue, n)
            else if e.Decide? && e.id == id then
              !Waits(t.queue, n) && if e.accept then n in t.accepted && t.accepted[n] == e.now else n in t.denied
            else WaitsAs(t, n, id, device)
  {
    hide Exec, Counted;
    EveryOfferIsAccounted(events);
    EveryOfferIsAccounted(events + [e]);
    OneMore(events, e);
    DecidedStep(Exec(events), n, id, device, e);
    assert Accounted(Exec(events + [e]), n);
  }

  lemma DecidedStep(s: State, n: nat, id: string, device: string, e: Event)
    requires WaitsAs(s, n, id, device) && !e.Drop?
    ensures var t := Step(s, e);
            n < |t.offeredAt| &&
            if e.now >= s.offeredAt[n] + 120_000 then n in t.denied
            else if e.Decide? && e.id == id then if e.accept then n in t.accepted && t.accepted[n] == e.now else n in t.denied
            else WaitsAs(t, n, id, device)
  {
    if e.now >= s.offeredAt[n] + 120_000 {
      assert n in Expired(s.queue, e.now);
    }
  }
}
