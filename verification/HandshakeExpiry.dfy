/** How long a PIN is in force, read off what happened: the time of the event that
    brought it in, and whether a proof was verified since; and that honest handshakes
    complete with the PIN in force. */
module HandshakeExpiry {
  import opened Handshake
  import opened HandshakeRuns
  import opened Options

  function TimeOf(e: Event): int {
    match e
    case Connect(_) => 0
    case Deliver(_, _, _, now) => now
    case NewPin(now) => now
    case ShowPin(now) => now
  }

  /** The time of the event that brought `pin` in. */
  function IssuedAt(l: Limits, start: int, events: seq<Event>, pin: nat): int {
    if events == [] then start
    else
      var before := events[..|events| - 1];
      if pin <= Exec(l, start, before).pins.generation then IssuedAt(l, start, before, pin)
      else TimeOf(events[|events| - 1])
  }

  /** The log has grown by a verified PIN proof. */
  predicate Grew(w: World, t: World) {
    |t.log| > |w.log| && Verified(t.log[|w.log|].outcome)
  }

  /** A PIN proof was verified since the newest PIN came in. */
  predicate VerifiedSince(l: Limits, start: int, events: seq<Event>) {
    events != [] &&
    var before := events[..|events| - 1];
    var w, t := Exec(l, start, before), Exec(l, start, events);
    Grew(w, t) || (t.pins.generation == w.pins.generation && VerifiedSince(l, start, before))
  }

  /** The PIN that is there to be proved against at `now`: the newest one, or a new one
      once that has served or is older than its lifetime. */
  function InForce(l: Limits, start: int, events: seq<Event>, now: int): nat {
    var newest := Exec(l, start, events).pins.generation;
    if VerifiedSince(l, start, events) || now - IssuedAt(l, start, events, newest) > l.ttl then newest + 1 else newest
  }

  lemma ProcessMovesPin(h: Shake, p: Pins, l: Limits, m: Msg, stores: bool, now: int)
    ensures var (t, q, r) := Process(h, p, l, m, stores, now);
            && q.generation >= p.generation
            && q.issued == (if q.generation > p.generation then now else p.issued)
            && q.used == (Verified(r) || (q.generation == p.generation && p.used))
            && (Verified(r) ==> Decides(r))
  {
  }

  /** A step brings a new PIN in, unused, or leaves the old one; a verified proof uses it. */
  lemma StepMovesPin(w: World, l: Limits, e: Event)
    ensures var t := Step(w, l, e);
            && t.pins.generation >= w.pins.generation
            && t.pins.issued == (if t.pins.generation > w.pins.generation then TimeOf(e) else w.pins.issued)
            && t.pins.used == (Grew(w, t) || (t.pins.generation == w.pins.generation && w.pins.used))
  {
    hide Process;
    if e.Deliver? && e.conn < |w.conns| && w.conns[e.conn].open {
      ProcessMovesPin(w.conns[e.conn].shake, w.pins, l, e.m, e.stores, e.now);
    }
  }

  /** The PIN's own fields say the same. */
  lemma {:induction false} FieldsAreHistory(l: Limits, start: int, events: seq<Event>)
    ensures var p := Exec(l, start, events).pins;
            p.issued == IssuedAt(l, start, events, p.generation) && p.used == VerifiedSince(l, start, events)
  {
    hide Step, Grew;
    if events != [] {
      var before, e := events[..|events| - 1], events[|events| - 1];
      FieldsAreHistory(l, start, before);
      StepMovesPin(Exec(l, start, before), l, e);
    }
  }

  // ---------------------------------------------------------------- main results

  /** The event decides a legacy proof on `pin`, or opens a SPAKE2 exchange on it. */
  predicate ProvesOn(w: World, l: Limits, e: Event, pin: nat) {
    && e.Deliver? && e.conn < |w.conns| && w.conns[e.conn].open
    && (Opens(w, l, e, pin)
        || DecidedBy(Process(w.conns[e.conn].shake, w.pins, l, e.m, e.stores, e.now).2, Pair, pin))
  }

  lemma ProvesOnUnused(h: Shake, p: Pins, l: Limits, m: Msg, stores: bool, now: int, pin: nat)
    requires var (t, q, r) := Process(h, p, l, m, stores, now);
             DecidedBy(r, Pair, pin) || (r.Replied? && m.Spake2Start? && t.phase == AwaitSpake2Confirm(pin))
    ensures pin == p.generation + 1 || (pin == p.generation && !p.used && now - p.issued <= l.ttl)
  {
  }

  /** Over any run, every legacy proof that is decided and every SPAKE2 exchange that is
      opened is on a PIN no older than its lifetime, that no proof was decided on before. */
  lemma OnlyFreshPins(l: Limits, start: int, events: seq<Event>, e: Event, pin: nat)
    requires ProvesOn(Exec(l, start, events), l, e, pin)
    ensures e.now - IssuedAt(l, start, events + [e], pin) <= l.ttl
    ensures !PinUsed(Exec(l, start, events).log, pin, false)
    ensures pin == Exec(l, start, events).pins.generation ==> !VerifiedSince(l, start, events)
  {
    hide Exec, Process, PinUsed, Inv;
    var w := Exec(l, start, events);
    EveryReachableWorldIsSound(l, start, events);
    FieldsAreHistory(l, start, events);
    ProvesOnUnused(w.conns[e.conn].shake, w.pins, l, e.m, e.stores, e.now, pin);
    UsedIsSpent(w, l, pin, false);
    assert (events + [e])[..|events|] == events;
  }

  /** The PIN shown is the one in force; showing it changes nothing unless a new one is
      due, and that one is issued then. */
  lemma ShownIsInForce(l: Limits, start: int, events: seq<Event>, now: int)
    ensures var w, t := Exec(l, start, events), Exec(l, start, events + [ShowPin(now)]);
            && t.pins.generation == InForce(l, start, events, now)
            && (t.pins.generation == w.pins.generation ==> t == w)
            && (t.pins.generation != w.pins.generation ==>
                  IssuedAt(l, start, events + [ShowPin(now)], t.pins.generation) == now
                  && !VerifiedSince(l, start, events + [ShowPin(now)]))
  {
    hide Process;
    FieldsAreHistory(l, start, events);
    FieldsAreHistory(l, start, events + [ShowPin(now)]);
    assert (events + [ShowPin(now)])[..|events|] == events;
  }

  /** A legacy confirm completes exactly when it was made with the PIN in force and the
      token is stored: so within the lifetime of a PIN that has not served, the right
      one does. */
  lemma ConfirmCompletesIff(l: Limits, start: int, events: seq<Event>, c: nat, pin: nat, stores: bool, now: int)
    requires var w := Exec(l, start, events);
             c < |w.conns| && w.conns[c].open && w.conns[c].shake.phase.AwaitProof? && w.conns[c].shake.auth == Some(Pair)
    ensures var w := Exec(l, start, events);
            var t := Exec(l, start, events + [Deliver(c, PairConfirm(Made(pin)), stores, now)]);
            t.log == w.log + [Entry(c, Completed(Pair, pin))] <==> stores && pin == InForce(l, start, events, now)
  {
    hide IssuedAt, VerifiedSince, Process;
    var w, e := Exec(l, start, events), Deliver(c, PairConfirm(Made(pin)), stores, now);
    FieldsAreHistory(l, start, events);
    ConfirmOutcome(w.conns[c].shake, w.pins, l, pin, stores, now);
    assert (events + [e])[..|events|] == events;
    var t, x := Step(w, l, e), Entry(c, Completed(Pair, pin));
    if t.log == w.log + [x] {
      assert t.log[|w.log|] == x;
    }
  }

  lemma ConfirmOutcome(h: Shake, p: Pins, l: Limits, pin: nat, stores: bool, now: int)
    requires h.phase.AwaitProof? && h.auth == Some(Pair)
    ensures var r := Process(h, p, l, PairConfirm(Made(pin)), stores, now).2;
            r == Completed(Pair, pin)
            <==> stores && pin == if p.used || now - p.issued > l.ttl then p.generation + 1 else p.generation
  {
  }

  /** A SPAKE2 start with a good share opens an exchange unless the address is locked
      out, and on the PIN in force. */
  lemma StartOpensIff(l: Limits, start: int, events: seq<Event>, c: nat, share: Key, now: int, pin: nat)
    requires var w := Exec(l, start, events);
             && c < |w.conns| && w.conns[c].open && w.conns[c].shake.phase.AwaitPairStart?
             && w.conns[c].shake.auth == Some(PairSpake2)
    ensures var w := Exec(l, start, events);
            Opens(w, l, Deliver(c, Spake2Start(share), true, now), pin)
            <==> share.GoodKey? && !LockedOut(w.pins, w.conns[c].shake.ip, now) && pin == InForce(l, start, events, now)
  {
    hide Exec, IssuedAt, VerifiedSince;
    FieldsAreHistory(l, start, events);
  }

  // ---------------------------------------------------------------- handshakes go through

  /** Which messages take a handshake further, and where to; after any other the
      connection is over, unless it completes. */
  lemma GoesOnIff(h: Shake, p: Pins, l: Limits, m: Msg, stores: bool, now: int)
    ensures var (t, q, r) := Process(h, p, l, m, stores, now);
            && (r.Replied? <==>
                  || (h.phase.AwaitHello? && m.Hello? && !m.tooOld && (m.auth.Pair? ==> l.legacyAllowed))
                  || (h.phase.AwaitPairStart? && m == Spake2Start(GoodKey) && h.auth == Some(PairSpake2) && !LockedOut(p, h.ip, now))
                  || (h.phase.AwaitPairStart? && m == PairStart(GoodKey) && (h.auth == Some(Pair) ==> !LockedOut(p, h.ip, now))))
            && (r.Replied? && m.Hello? ==> t == Shake(h.ip, AwaitPairStart, Some(m.auth)) && q == p)
            && (r.Replied? && m.Spake2Start? ==> t == Shake(h.ip, AwaitSpake2Confirm(q.generation), h.auth))
            && (r.Replied? && m.PairStart? ==> t == Shake(h.ip, AwaitProof, h.auth) && q.generation == p.generation
                                               && q.issued == p.issued && q.used == p.used)
  {
  }

  lemma OneMore(l: Limits, start: int, events: seq<Event>, e: Event)
    ensures Exec(l, start, events + [e]) == Step(Exec(l, start, events), l, e)
  {
    hide Step;
    assert (events + [e])[..|events|] == events;
  }

  /** A connection that `ip` opens and on which it declares `auth`. */
  function Opening(n: nat, ip: Ip, auth: Auth, now: int): seq<Event> {
    [Connect(ip), Deliver(n, Hello(false, auth), true, now)]
  }

  lemma Opened(l: Limits, start: int, events: seq<Event>, ip: Ip, auth: Auth, now: int)
    requires auth.Pair? ==> l.legacyAllowed
    ensures var w := Exec(l, start, events);
            Exec(l, start, events + Opening(|w.conns|, ip, auth, now))
            == w.(conns := w.conns + [Conn(Shake(ip, AwaitPairStart, Some(auth)), true)])
  {
    hide Exec;
    var w := Exec(l, start, events);
    var n := |w.conns|;
    OneMore(l, start, events, Connect(ip));
    OneMore(l, start, events + [Connect(ip)], Deliver(n, Hello(false, auth), true, now));
    assert events + Opening(n, ip, auth, now) == (events + [Connect(ip)]) + [Deliver(n, Hello(false, auth), true, now)];
  }

  /** Two more messages on a connection just opened. */
  lemma TwoMessages(w: World, l: Limits, h: Shake, first: Msg, second: Msg, t1: int, t2: int)
    requires w.conns != [] && w.conns[|w.conns| - 1] == Conn(h, true)
    requires Process(h, w.pins, l, first, true, t1).2.Replied?
    ensures var n := |w.conns| - 1;
            var mid := Process(h, w.pins, l, first, true, t1);
            var r := Process(mid.0, mid.1, l, second, true, t2).2;
            Decides(r) ==>
              Step(Step(w, l, Deliver(n, first, true, t1)), l, Deliver(n, second, true, t2)).log == w.log + [Entry(n, r)]
  {
    hide Process;
  }

  lemma Ends(l: Limits, start: int, events: seq<Event>, ip: Ip, auth: Auth, first: Msg, second: Msg, now: int, t1: int, t2: int)
    requires auth.Pair? ==> l.legacyAllowed
    requires var w := Exec(l, start, events); Process(Shake(ip, AwaitPairStart, Some(auth)), w.pins, l, first, true, t1).2.Replied?
    ensures var w := Exec(l, start, events);
            var n := |w.conns|;
            var mid := Process(Shake(ip, AwaitPairStart, Some(auth)), w.pins, l, first, true, t1);
            var r := Process(mid.0, mid.1, l, second, true, t2).2;
            Decides(r) ==>
              Exec(l, start, events + Opening(n, ip, auth, now) + [Deliver(n, first, true, t1)] + [Deliver(n, second, true, t2)]).log
              == w.log + [Entry(n, r)]
  {
    hide Exec, Process, Step, Opening;
    var w := Exec(l, start, events);
    var n, begun := |w.conns|, events + Opening(|w.conns|, ip, auth, now);
    Opened(l, start, events, ip, auth, now);
    OneMore(l, start, begun, Deliver(n, first, true, t1));
    OneMore(l, start, begun + [Deliver(n, first, true, t1)], Deliver(n, second, true, t2));
    TwoMessages(Exec(l, start, begun), l, Shake(ip, AwaitPairStart, Some(auth)), first, second, t1, t2);
  }

  /** From every reachable world, an address that is not locked out pairs: over SPAKE2
      with the PIN in force when it starts, and over the legacy path, where allowed, with
      the PIN in force when it confirms. A genuine token always gets in. */
  lemma HonestHandshakesComplete(l: Limits, start: int, events: seq<Event>, ip: Ip, auth: Auth, pin: nat, now: int, t1: int, t2: int)
    requires auth.Pair? ==> l.legacyAllowed
    requires auth != Token ==> !LockedOut(Exec(l, start, events).pins, ip, t1)
    requires match auth
             case Pair => pin == InForce(l, start, events, t2)
             case PairSpake2 => pin == InForce(l, start, events, t1)
             case Token => pin == 0
    ensures var w := Exec(l, start, events);
            var n := |w.conns|;
            var first := if auth.PairSpake2? then Spake2Start(GoodKey) else PairStart(GoodKey);
            var second := match auth
                          case Pair => PairConfirm(Made(pin))
                          case PairSpake2 => Spake2Confirm(Made(pin))
                          case Token => TokenProof(false, true);
            Exec(l, start, events + Opening(n, ip, auth, now) + [Deliver(n, first, true, t1)] + [Deliver(n, second, true, t2)]).log
            == w.log + [Entry(n, Completed(auth, pin))]
  {
    hide Exec, Opening, IssuedAt, VerifiedSince;
    var w := Exec(l, start, events);
    FieldsAreHistory(l, start, events);
    var first := if auth.PairSpake2? then Spake2Start(GoodKey) else PairStart(GoodKey);
    var second := match auth
                  case Pair => PairConfirm(Made(pin))
                  case PairSpake2 => Spake2Confirm(Made(pin))
                  case Token => TokenProof(false, true);
    Ends(l, start, events, ip, auth, first, second, now, t1, t2);
  }
}
