/** What whole runs of the handshake machine keep: proofs, PINs used twice, lockouts. */
module HandshakeRuns {
  import opened Handshake
  import opened Options

  // ------------------------------------------------------------ completions are proven

  /** The message that proves a path with a PIN. */
  predicate ProofOf(m: Msg, path: Auth, pin: nat) {
    match path
    case Pair => m == PairConfirm(Made(pin))
    case PairSpake2 => m == Spake2Confirm(Made(pin))
    case Token => m == TokenProof(false, true)
  }

  /** A message completes the handshake exactly when it is the proof of the declared
      path, made with the PIN it is checked against (or a genuine token proof), and
      the token could be stored. */
  lemma CompletesIffProven(h: Shake, p: Pins, l: Limits, m: Msg, stores: bool, now: int)
    requires ShakeSound(h, p, l)
    ensures var r := Process(h, p, l, m, stores, now).2;
            && (r.Completed? <==>
                  || (h.phase.AwaitProof? && h.auth == Some(Pair) && stores
                      && m == PairConfirm(Made(Current(p, l.ttl, now).generation)))
                  || (h.phase.AwaitSpake2Confirm? && stores && m == Spake2Confirm(Made(h.phase.pin)))
                  || (h.phase.AwaitProof? && h.auth == Some(Token) && m == TokenProof(false, true)))
            && (r.Completed? ==> ProofOf(m, r.path, r.pin) && (r.path != Token ==> stores))
            && (r.Completed? && r.path.PairSpake2? ==> h.phase == AwaitSpake2Confirm(r.pin))
  {
  }

  /** Event `k` delivered, to connection `c`, the proof behind `r`. */
  predicate ProvedAt(events: seq<Event>, k: nat, c: nat, r: Outcome) {
    && k < |events| && events[k].Deliver? && events[k].conn == c && r.Completed?
    && ProofOf(events[k].m, r.path, r.pin) && (r.path != Token ==> events[k].stores)
  }

  /** Event `k` declared the path `a` on connection `c`. */
  predicate DeclaredAt(events: seq<Event>, k: nat, c: nat, a: Auth) {
    k < |events| && events[k].Deliver? && events[k].conn == c && events[k].m == Hello(false, a)
  }

  ghost predicate Proven(events: seq<Event>, e: Entry) {
    e.outcome.Completed? ==>
      exists j: nat, k: nat :: j < k && DeclaredAt(events, j, e.conn, e.outcome.path) && ProvedAt(events, k, e.conn, e.outcome)
  }

  ghost predicate Declared(events: seq<Event>, c: nat, a: Auth) {
    exists k: nat :: DeclaredAt(events, k, c, a)
  }

  ghost predicate RunProven(events: seq<Event>, w: World) {
    && (forall c :: 0 <= c < |w.conns| && w.conns[c].shake.auth.Some? ==>
          Declared(events, c, w.conns[c].shake.auth.value))
    && forall i :: 0 <= i < |w.log| ==> Proven(events, w.log[i])
  }

  lemma Earlier(events: seq<Event>, e: Event, c: nat, a: Auth, x: Entry)
    ensures Declared(events, c, a) ==> Declared(events + [e], c, a)
    ensures Proven(events, x) ==> Proven(events + [e], x)
  {
    var all := events + [e];
    if Declared(events, c, a) {
      var k: nat :| DeclaredAt(events, k, c, a);
      assert DeclaredAt(all, k, c, a);
    }
    if Proven(events, x) && x.outcome.Completed? {
      var j: nat, k: nat :| j < k && DeclaredAt(events, j, x.conn, x.outcome.path) && ProvedAt(events, k, x.conn, x.outcome);
      assert DeclaredAt(all, j, x.conn, x.outcome.path) && ProvedAt(all, k, x.conn, x.outcome);
    }
  }

  /** Only a hello sets the declared path, and only then. */
  lemma AuthEffect(h: Shake, p: Pins, l: Limits, m: Msg, stores: bool, now: int)
    ensures var t := Process(h, p, l, m, stores, now).0;
            t.auth == h.auth || (t.auth.Some? && m == Hello(false, t.auth.value))
    ensures Process(h, p, l, m, stores, now).2.Completed? ==> Process(h, p, l, m, stores, now).0.auth == h.auth
  {
  }

  lemma StepKeepsProven(events: seq<Event>, w: World, l: Limits, e: Event)
    requires Inv(w, l) && RunProven(events, w)
    ensures RunProven(events + [e], Step(w, l, e))
  {
    hide Process, Declared, Proven, Inv;
    var t, all := Step(w, l, e), events + [e];
    if e.Deliver? && e.conn < |w.conns| && w.conns[e.conn].open {
      NewProof(events, w, l, e);
    }
    forall c | 0 <= c < |t.conns| && t.conns[c].shake.auth.Some?
      ensures Declared(all, c, t.conns[c].shake.auth.value)
    {
      if c < |w.conns| && t.conns[c] == w.conns[c] {
        Earlier(events, e, c, w.conns[c].shake.auth.value, Entry(c, Replied));
      }
    }
    forall i | 0 <= i < |t.log|
      ensures Proven(all, t.log[i])
    {
      if i < |w.log| {
        Earlier(events, e, 0, Pair, w.log[i]);
      }
    }
  }

  lemma NewProof(events: seq<Event>, w: World, l: Limits, e: Event)
    requires Inv(w, l) && RunProven(events, w) && e.Deliver? && e.conn < |w.conns|
    ensures var (h, p, r) := Process(w.conns[e.conn].shake, w.pins, l, e.m, e.stores, e.now);
            && (h.auth.Some? ==> Declared(events + [e], e.conn, h.auth.value))
            && Proven(events + [e], Entry(e.conn, r))
  {
    var h, all, n := w.conns[e.conn].shake, events + [e], |events|;
    CompletesIffProven(h, w.pins, l, e.m, e.stores, e.now);
    ProcessEffect(h, w.pins, l, e.m, e.stores, e.now);
    AuthEffect(h, w.pins, l, e.m, e.stores, e.now);
    hide Process;
    var (t, p, r) := Process(h, w.pins, l, e.m, e.stores, e.now);
    if t.auth.Some? && t.auth != h.auth {
      assert DeclaredAt(all, n, e.conn, t.auth.value);
    }
    if h.auth.Some? {
      var j: nat :| DeclaredAt(events, j, e.conn, h.auth.value);
      assert DeclaredAt(all, j, e.conn, h.auth.value);
      if r.Completed? {
        assert ProvedAt(all, n, e.conn, r);
      }
    }
  }

  lemma {:induction false} RunsAreProven(l: Limits, start: int, events: seq<Event>)
    ensures RunProven(events, Exec(l, start, events))
  {
    hide Step, RunProven, Inv;
    if events == [] {
      assert RunProven([], Exec(l, start, [])) by { NothingToProve(l, start); }
    } else {
      var before, e := events[..|events| - 1], events[|events| - 1];
      RunsAreProven(l, start, before);
      EveryReachableWorldIsSound(l, start, before);
      StepKeepsProven(before, Exec(l, start, before), l, e);
      assert events == before + [e];
    }
  }

  lemma NothingToProve(l: Limits, start: int)
    ensures RunProven([], Exec(l, start, []))
  {
  }

  /** Over all message sequences: a connection that completed was sent, in this order,
      a hello that declares the path and the proof of that path, made with the PIN it
      was checked against, whose token was stored. */
  lemma CompletionsAreProven(l: Limits, start: int, events: seq<Event>, i: nat)
    requires i < |Exec(l, start, events).log| && Exec(l, start, events).log[i].outcome.Completed?
    ensures var e := Exec(l, start, events).log[i];
            exists j: nat, k: nat :: j < k && DeclaredAt(events, j, e.conn, e.outcome.path) && ProvedAt(events, k, e.conn, e.outcome)
  {
    hide Exec;
    RunsAreProven(l, start, events);
    assert Proven(events, Exec(l, start, events).log[i]);
  }

  // ---------------------------------------------------------------- PINs used twice

  /** The outcome decided a PIN proof; with `paired`, it also completed the pairing. */
  predicate OnPin(r: Outcome, paired: bool) {
    Decides(r) && r.path != Token && (paired ==> r.Completed?)
  }

  /** `a` is such an outcome on `pin`. */
  predicate UsesPin(a: Entry, pin: nat, paired: bool) {
    OnPin(a.outcome, paired) && a.outcome.pin == pin
  }

  ghost predicate PinUsed(log: seq<Entry>, pin: nat, paired: bool) {
    exists i :: 0 <= i < |log| && UsesPin(log[i], pin, paired)
  }

  predicate SharePin(a: Entry, b: Entry, paired: bool) {
    OnPin(a.outcome, paired) && OnPin(b.outcome, paired) && a.outcome.pin == b.outcome.pin
  }

  /** Some PIN is used twice. */
  ghost predicate UsedTwice(log: seq<Entry>, paired: bool) {
    exists i, j :: 0 <= i < j < |log| && SharePin(log[i], log[j], paired)
  }

  /** The event is a confirm, right and stored if `paired`, on an exchange still open on
      a PIN that was used before. */
  ghost predicate LateConfirm(w: World, e: Event, paired: bool) {
    && e.Deliver? && e.conn < |w.conns| && w.conns[e.conn].open && w.conns[e.conn].shake.phase.AwaitSpake2Confirm?
    && e.m.Spake2Confirm? && e.m.mac.Made?
    && var pin := w.conns[e.conn].shake.phase.pin;
       (paired ==> e.stores && e.m.mac.pin == pin) && PinUsed(w.log, pin, paired)
  }

  ghost predicate LateAt(l: Limits, start: int, events: seq<Event>, k: nat, paired: bool) {
    k < |events| && LateConfirm(Exec(l, start, events[..k]), events[k], paired)
  }

  lemma UsedTwiceGrows(log: seq<Entry>, x: Entry, paired: bool)
    ensures UsedTwice(log + [x], paired)
            <==> UsedTwice(log, paired) || (OnPin(x.outcome, paired) && PinUsed(log, x.outcome.pin, paired))
  {
    var all := log + [x];
    if UsedTwice(log, paired) {
      var i, j :| 0 <= i < j < |log| && SharePin(log[i], log[j], paired);
      assert SharePin(all[i], all[j], paired);
    }
    if OnPin(x.outcome, paired) && PinUsed(log, x.outcome.pin, paired) {
      var i :| 0 <= i < |log| && UsesPin(log[i], x.outcome.pin, paired);
      assert SharePin(all[i], all[|log|], paired);
    }
    if UsedTwice(all, paired) {
      var i, j :| 0 <= i < j < |all| && SharePin(all[i], all[j], paired);
      if j < |log| {
        assert SharePin(log[i], log[j], paired);
      } else {
        assert UsesPin(log[i], x.outcome.pin, paired);
      }
    }
  }

  /** Which outcomes a SPAKE2 confirm has. */
  lemma ConfirmDecides(h: Shake, p: Pins, l: Limits, m: Msg, stores: bool, now: int, paired: bool)
    requires ShakeSound(h, p, l)
    ensures var r := Process(h, p, l, m, stores, now).2;
            && (OnPin(r, paired) && r.path.PairSpake2? <==>
                  h.phase.AwaitSpake2Confirm? && m.Spake2Confirm? && m.mac.Made?
                  && (paired ==> stores && m.mac.pin == h.phase.pin))
            && (OnPin(r, paired) && r.path.PairSpake2? ==> r.pin == h.phase.pin)
  {
  }

  lemma StepUsesTwice(w: World, l: Limits, e: Event, paired: bool)
    requires Inv(w, l)
    ensures UsedTwice(Step(w, l, e).log, paired) <==> UsedTwice(w.log, paired) || LateConfirm(w, e, paired)
  {
    hide UsedTwice, PinUsed, Process;
    if e.Deliver? && e.conn < |w.conns| && w.conns[e.conn].open {
      var h := w.conns[e.conn].shake;
      ProcessEffect(h, w.pins, l, e.m, e.stores, e.now);
      ConfirmDecides(h, w.pins, l, e.m, e.stores, e.now, paired);
      var r := Process(h, w.pins, l, e.m, e.stores, e.now).2;
      UsedTwiceGrows(w.log, Entry(e.conn, r), paired);
      if OnPin(r, paired) && r.path.Pair? {
        UsedIsSpent(w, l, r.pin, paired);
      }
    }
  }

  lemma UsedIsSpent(w: World, l: Limits, pin: nat, paired: bool)
    requires Inv(w, l)
    ensures PinUsed(w.log, pin, paired) ==> Spent(w.pins, pin)
  {
    if PinUsed(w.log, pin, paired) {
      var i :| 0 <= i < |w.log| && UsesPin(w.log[i], pin, paired);
      assert EntrySound(w.log[i], w);
    }
  }

  /** Exactly when PINs are single-use, for decided proofs and for pairings: two of
      them share a PIN if and only if some SPAKE2 confirm arrives on an exchange that
      is still open on a PIN used before. */
  lemma {:induction false} PinsAreReusedIff(l: Limits, start: int, events: seq<Event>, paired: bool)
    ensures UsedTwice(Exec(l, start, events).log, paired) <==> exists k: nat :: LateAt(l, start, events, k, paired)
  {
    hide Step, UsedTwice, LateConfirm, Inv;
    if events == [] {
      assert !UsedTwice(Exec(l, start, []).log, paired) by { NothingUsed(l, start, paired); }
    } else {
      var before, e := events[..|events| - 1], events[|events| - 1];
      PinsAreReusedIff(l, start, before, paired);
      EveryReachableWorldIsSound(l, start, before);
      StepUsesTwice(Exec(l, start, before), l, e, paired);
      LateExtends(l, start, events, paired);
    }
  }

  lemma NothingUsed(l: Limits, start: int, paired: bool)
    ensures !UsedTwice(Exec(l, start, []).log, paired)
  {
  }

  lemma LateExtends(l: Limits, start: int, events: seq<Event>, paired: bool)
    requires events != []
    ensures var before, e := events[..|events| - 1], events[|events| - 1];
            (exists k: nat :: LateAt(l, start, events, k, paired))
            <==> (exists k: nat :: LateAt(l, start, before, k, paired)) || LateConfirm(Exec(l, start, before), e, paired)
  {
    hide Exec, LateConfirm;
    var n := |events| - 1;
    var before := events[..n];
    if exists k: nat :: LateAt(l, start, events, k, paired) {
      var k: nat :| LateAt(l, start, events, k, paired);
      assert k < n ==> before[..k] == events[..k] && LateAt(l, start, before, k, paired);
    }
    if exists k: nat :: LateAt(l, start, before, k, paired) {
      var k: nat :| LateAt(l, start, before, k, paired);
      assert before[..k] == events[..k] && LateAt(l, start, events, k, paired);
    }
    if LateConfirm(Exec(l, start, before), events[n], paired) {
      assert LateAt(l, start, events, n, paired);
    }
  }

  /** An exchange open on a PIN that has already paired, on whichever path, will with a
      right proof pair on it once more: the PIN is kept, not looked up again. */
  lemma OpenExchangePairsAgain(l: Limits, start: int, events: seq<Event>, c: nat, now: int)
    requires var w := Exec(l, start, events);
             && c < |w.conns| && w.conns[c].open && w.conns[c].shake.phase.AwaitSpake2Confirm?
             && PinUsed(w.log, w.conns[c].shake.phase.pin, true)
    ensures var w := Exec(l, start, events);
            var pin := w.conns[c].shake.phase.pin;
            var t := Step(w, l, Deliver(c, Spake2Confirm(Made(pin)), true, now));
            t.log == w.log + [Entry(c, Completed(PairSpake2, pin))] && Spent(w.pins, pin) && UsedTwice(t.log, true)
  {
    hide Exec, UsedTwice, PinUsed;
    var w := Exec(l, start, events);
    EveryReachableWorldIsSound(l, start, events);
    var pin := w.conns[c].shake.phase.pin;
    UsedIsSpent(w, l, pin, true);
    UsedTwiceGrows(w.log, Entry(c, Completed(PairSpake2, pin)), true);
  }

  // ------------------------------------------------- how often one PIN can be tried

  /** Exchanges opened on a PIN along a run. */
  function OpenedOn(l: Limits, start: int, events: seq<Event>, pin: nat): nat {
    if events == [] then 0
    else
      var w, e := Exec(l, start, events[..|events| - 1]), events[|events| - 1];
      OpenedOn(l, start, events[..|events| - 1], pin) + if Opens(w, l, e, pin) then 1 else 0
  }

  predicate Opens(w: World, l: Limits, e: Event, pin: nat) {
    && e.Deliver? && e.conn < |w.conns| && w.conns[e.conn].open && e.m.Spake2Start?
    && Process(w.conns[e.conn].shake, w.pins, l, e.m, e.stores, e.now).2.Replied?
    && Process(w.conns[e.conn].shake, w.pins, l, e.m, e.stores, e.now).0.phase == AwaitSpake2Confirm(pin)
  }

  /** Exchanges open on a PIN now. */
  function WaitingOn(conns: seq<Conn>, pin: nat): nat {
    if conns == [] then 0
    else
      WaitingOn(conns[..|conns| - 1], pin)
      + if Waits(conns[|conns| - 1], pin) then 1 else 0
  }

  predicate Waits(c: Conn, pin: nat) {
    c.open && c.shake.phase == AwaitSpake2Confirm(pin)
  }

  /** Proofs decided on a PIN, by path. */
  function DecidedOn(log: seq<Entry>, path: Auth, pin: nat): nat {
    if log == [] then 0
    else
      DecidedOn(log[..|log| - 1], path, pin) + if DecidedBy(log[|log| - 1].outcome, path, pin) then 1 else 0
  }

  predicate DecidedBy(r: Outcome, path: Auth, pin: nat) {
    Decides(r) && r.path == path && r.pin == pin
  }

  lemma {:induction false} WaitingChanges(conns: seq<Conn>, c: nat, conn: Conn, pin: nat)
    requires c < |conns|
    ensures WaitingOn(conns[c := conn], pin) + (if Waits(conns[c], pin) then 1 else 0)
            == WaitingOn(conns, pin) + if Waits(conn, pin) then 1 else 0
    decreases |conns|
  {
    var n := |conns| - 1;
    if c < n {
      WaitingChanges(conns[..n], c, conn, pin);
      assert conns[c := conn][..n] == conns[..n][c := conn];
    } else {
      assert conns[c := conn][..n] == conns[..n];
    }
  }

  lemma OneMoreEntry(log: seq<Entry>, x: Entry, path: Auth, pin: nat)
    ensures DecidedOn(log + [x], path, pin) == DecidedOn(log, path, pin) + if DecidedBy(x.outcome, path, pin) then 1 else 0
  {
    assert (log + [x])[..|log|] == log;
  }

  lemma OneMoreConn(conns: seq<Conn>, c: Conn, pin: nat)
    ensures WaitingOn(conns + [c], pin) == WaitingOn(conns, pin) + if Waits(c, pin) then 1 else 0
  {
    assert (conns + [c])[..|conns|] == conns;
  }

  /** A step opens an exchange, decides one, or leaves the open ones as they were. */
  lemma ExchangeEffect(h: Shake, p: Pins, l: Limits, m: Msg, stores: bool, now: int, pin: nat)
    requires ShakeSound(h, p, l)
    ensures var (t, q, r) := Process(h, p, l, m, stores, now);
            && (r.Replied? && t.phase == AwaitSpake2Confirm(pin) <==>
                  m.Spake2Start? && r.Replied? && t.phase == AwaitSpake2Confirm(pin))
            && (DecidedBy(r, PairSpake2, pin) ==> h.phase == AwaitSpake2Confirm(pin))
            && (h.phase.AwaitSpake2Confirm? ==> !r.Replied?)
  {
  }

  lemma StepCounts(w: World, l: Limits, e: Event, pin: nat, bound: nat)
    requires Inv(w, l) && DecidedOn(w.log, PairSpake2, pin) + WaitingOn(w.conns, pin) <= bound
    ensures var t := Step(w, l, e);
            DecidedOn(t.log, PairSpake2, pin) + WaitingOn(t.conns, pin) <= bound + if Opens(w, l, e, pin) then 1 else 0
  {
    hide Process, WaitingOn, DecidedOn;
    match e
    case Connect(ip) => OneMoreConn(w.conns, Conn(Shake(ip, AwaitHello, None), true), pin);
    case NewPin(_) =>
    case ShowPin(_) =>
    case Deliver(c, m, stores, now) =>
      if c < |w.conns| && w.conns[c].open {
        var h := w.conns[c].shake;
        ExchangeEffect(h, w.pins, l, m, stores, now, pin);
        var (t, p, r) := Process(h, w.pins, l, m, stores, now);
        WaitingChanges(w.conns, c, Conn(t, r.Replied?), pin);
        OneMoreEntry(w.log, Entry(c, r), PairSpake2, pin);
      }
  }

  lemma {:induction false} ExchangesBound(l: Limits, start: int, events: seq<Event>, pin: nat)
    ensures var w := Exec(l, start, events);
            DecidedOn(w.log, PairSpake2, pin) + WaitingOn(w.conns, pin) <= OpenedOn(l, start, events, pin)
  {
    hide Step, Opens, Inv;
    if events != [] {
      var before := events[..|events| - 1];
      ExchangesBound(l, start, before, pin);
      EveryReachableWorldIsSound(l, start, before);
      StepCounts(Exec(l, start, before), l, events[|events| - 1], pin, OpenedOn(l, start, before, pin));
    }
  }

  /** Of entries that are pairwise apart, at most one is legacy on a PIN. */
  lemma {:induction false} OneLegacy(log: seq<Entry>, pin: nat)
    requires forall i, j :: 0 <= i < j < |log| ==> Apart(log[i], log[j])
    ensures DecidedOn(log, Pair, pin) <= 1
    ensures DecidedOn(log, Pair, pin) == 0 || exists i :: 0 <= i < |log| && DecidedBy(log[i].outcome, Pair, pin)
  {
    if log != [] {
      var n := |log| - 1;
      OneLegacy(log[..n], pin);
      if DecidedOn(log[..n], Pair, pin) > 0 {
        var i :| 0 <= i < n && DecidedBy(log[..n][i].outcome, Pair, pin);
        assert Apart(log[i], log[n]) && DecidedBy(log[i].outcome, Pair, pin);
      } else if DecidedBy(log[n].outcome, Pair, pin) {
        assert DecidedBy(log[n].outcome, Pair, pin);
      }
    }
  }

  /** A PIN decides at most one proof more than SPAKE2 exchanges were opened on it. */
  lemma TriesAreBounded(l: Limits, start: int, events: seq<Event>, pin: nat)
    ensures var log := Exec(l, start, events).log;
            DecidedOn(log, PairSpake2, pin) + DecidedOn(log, Pair, pin) <= OpenedOn(l, start, events, pin) + 1
  {
    hide Exec, OpenedOn, DecidedOn, WaitingOn;
    ExchangesBound(l, start, events, pin);
    EveryReachableWorldIsSound(l, start, events);
    OneLegacy(Exec(l, start, events).log, pin);
  }

  // ------------------------------------------------------------------------ lockout

  /** What one event does to an address's record: the times of its failures since it
      last proved itself or since the gate last found a lockout over. */
  function Record(times: seq<int>, w: World, l: Limits, e: Event, ip: Ip): seq<int> {
    if !e.Deliver? || e.conn >= |w.conns| || !w.conns[e.conn].open || w.conns[e.conn].shake.ip != ip then times
    else
      var h, r := w.conns[e.conn].shake, Process(w.conns[e.conn].shake, w.pins, l, e.m, e.stores, e.now).2;
      if r.Refused? then times + [e.now]
      else if Verified(r) then []
      else if !AsksGate(h, e.m) then times
      else if Barred(times, l) then
        if e.now < times[|times| - 1] + l.lockout then times else if BadShare(e.m) then [e.now] else []
      else if BadShare(e.m) then times + [e.now]
      else times
  }

  predicate Verified(r: Outcome) {
    (r.Completed? || r.NotStored?) && r.path != Token
  }

  /** The message starts a PIN exchange. */
  predicate AsksGate(h: Shake, m: Msg) {
    h.phase.AwaitPairStart?
    && ((m.Spake2Start? && h.auth == Some(PairSpake2)) || (m.PairStart? && h.auth == Some(Pair)))
  }

  predicate BadShare(m: Msg) { m.Spake2Start? && m.share.BadKey? }

  predicate Barred(times: seq<int>, l: Limits) {
    times != [] && |times| >= l.maxAttempts
  }

  function Failures(l: Limits, start: int, events: seq<Event>, ip: Ip): seq<int> {
    if events == [] then []
    else
      var before := events[..|events| - 1];
      Record(Failures(l, start, before, ip), Exec(l, start, before), l, events[|events| - 1], ip)
  }

  /** The attempts table holds what the record says. */
  predicate Recorded(p: Pins, ip: Ip, l: Limits, times: seq<int>) {
    if times == [] then ip !in p.attempts || p.attempts[ip] == Attempts(0, None)
    else
      && ip in p.attempts && p.attempts[ip].failures == |times|
      && p.attempts[ip].lockedUntil == if |times| >= l.maxAttempts then Some(times[|times| - 1] + l.lockout) else None
  }

  /** Other addresses are not concerned. */
  lemma OthersKept(h: Shake, p: Pins, l: Limits, m: Msg, stores: bool, now: int, ip: Ip)
    requires h.ip != ip
    ensures var q := Process(h, p, l, m, stores, now).1;
            (ip in q.attempts <==> ip in p.attempts) && (ip in p.attempts ==> q.attempts[ip] == p.attempts[ip])
  {
  }

  lemma AskingRecorded(w: World, l: Limits, e: Event, times: seq<int>)
    requires e.Deliver? && e.conn < |w.conns| && w.conns[e.conn].open && AsksGate(w.conns[e.conn].shake, e.m)
    requires Recorded(w.pins, w.conns[e.conn].shake.ip, l, times)
    ensures var h := w.conns[e.conn].shake;
            Recorded(Process(h, w.pins, l, e.m, e.stores, e.now).1, h.ip, l, Record(times, w, l, e, h.ip))
  {
  }

  lemma ProofRecorded(w: World, l: Limits, e: Event, times: seq<int>)
    requires e.Deliver? && e.conn < |w.conns| && w.conns[e.conn].open && !AsksGate(w.conns[e.conn].shake, e.m)
    requires Recorded(w.pins, w.conns[e.conn].shake.ip, l, times)
    ensures var h := w.conns[e.conn].shake;
            Recorded(Process(h, w.pins, l, e.m, e.stores, e.now).1, h.ip, l, Record(times, w, l, e, h.ip))
  {
  }

  lemma OwnRecorded(w: World, l: Limits, e: Event, times: seq<int>)
    requires e.Deliver? && e.conn < |w.conns| && w.conns[e.conn].open
    requires Recorded(w.pins, w.conns[e.conn].shake.ip, l, times)
    ensures var h := w.conns[e.conn].shake;
            Recorded(Process(h, w.pins, l, e.m, e.stores, e.now).1, h.ip, l, Record(times, w, l, e, h.ip))
  {
    hide Process, Record, Recorded, AsksGate;
    if AsksGate(w.conns[e.conn].shake, e.m) {
      AskingRecorded(w, l, e, times);
    } else {
      ProofRecorded(w, l, e, times);
    }
  }

  lemma {:induction false} TableIsRecord(l: Limits, start: int, events: seq<Event>, ip: Ip)
    ensures Recorded(Exec(l, start, events).pins, ip, l, Failures(l, start, events, ip))
  {
    hide Process;
    if events != [] {
      var before, e := events[..|events| - 1], events[|events| - 1];
      var w := Exec(l, start, before);
      TableIsRecord(l, start, before, ip);
      if e.Deliver? && e.conn < |w.conns| && w.conns[e.conn].open {
        if w.conns[e.conn].shake.ip == ip {
          OwnRecorded(w, l, e, Failures(l, start, before, ip));
        } else {
          OthersKept(w.conns[e.conn].shake, w.pins, l, e.m, e.stores, e.now, ip);
        }
      }
    }
  }

  /** Over any run an address is locked out exactly when its failures, counted since it
      last proved itself or sat a lockout out, reach the limit and the lockout counted
      from the last of them has not passed. */
  lemma LockedOutIff(l: Limits, start: int, events: seq<Event>, ip: Ip, now: int)
    ensures var times := Failures(l, start, events, ip);
            LockedOut(Exec(l, start, events).pins, ip, now)
            <==> Barred(times, l) && now < times[|times| - 1] + l.lockout
  {
    hide Exec, Failures;
    TableIsRecord(l, start, events, ip);
  }

  /** A lockout of `ip` holds at least until then. */
  predicate LockedUntil(p: Pins, ip: Ip, until: int) {
    ip in p.attempts && p.attempts[ip].lockedUntil.Some? && p.attempts[ip].lockedUntil.value >= until
  }

  /** During it, the only message that lifts it is the address's own verified proof. */
  lemma LockoutLastsIff(h: Shake, p: Pins, l: Limits, m: Msg, stores: bool, now: int, ip: Ip, until: int)
    requires LockedUntil(p, ip, until) && until - l.lockout <= now < until
    ensures var (t, q, r) := Process(h, p, l, m, stores, now);
            && (LockedUntil(q, ip, until) <==> !(h.ip == ip && Verified(r)))
            && (h.ip == ip && r.Replied? && PinExchange(t) ==> PinExchange(h))
  {
  }

  /** A PIN exchange is under way. */
  predicate PinExchange(h: Shake) {
    h.phase.AwaitSpake2Confirm? || (h.phase.AwaitProof? && h.auth == Some(Pair))
  }

  predicate Busy(c: Conn, ip: Ip) {
    c.open && c.shake.ip == ip && PinExchange(c.shake)
  }

  /** The event comes before `until`, and no longer than a lockout before it. */
  predicate During(e: Event, l: Limits, until: int) {
    e.Deliver? ==> until - l.lockout <= e.now < until
  }

  /** The event is a verified proof of `ip`. */
  predicate Lifts(w: World, l: Limits, e: Event, ip: Ip) {
    && e.Deliver? && e.conn < |w.conns| && w.conns[e.conn].open && w.conns[e.conn].shake.ip == ip
    && Verified(Process(w.conns[e.conn].shake, w.pins, l, e.m, e.stores, e.now).2)
  }

  /** Along `more`, after `events`, `ip` verifies no proof. */
  predicate NoLift(l: Limits, start: int, events: seq<Event>, more: seq<Event>, ip: Ip) {
    more == [] ||
    var before, e := more[..|more| - 1], more[|more| - 1];
    NoLift(l, start, events, before, ip) && !Lifts(Exec(l, start, events + before), l, e, ip)
  }

  /** The lockout holds, and no exchange of `ip` is open that was not open in `w`. */
  ghost predicate Shut(w: World, t: World, ip: Ip, until: int) {
    && LockedUntil(t.pins, ip, until) && |w.conns| <= |t.conns|
    && forall c :: 0 <= c < |t.conns| && Busy(t.conns[c], ip) ==> c < |w.conns| && Busy(w.conns[c], ip)
  }

  lemma StepStaysShut(w: World, t: World, l: Limits, e: Event, ip: Ip, until: int)
    requires Shut(w, t, ip, until) && During(e, l, until) && !Lifts(t, l, e, ip)
    ensures Shut(w, Step(t, l, e), ip, until)
  {
    hide Process, PinExchange;
    if e.Deliver? && e.conn < |t.conns| && t.conns[e.conn].open {
      var h := t.conns[e.conn].shake;
      LockoutLastsIff(h, t.pins, l, e.m, e.stores, e.now, ip, until);
      SameAddress(h, t.pins, l, e.m, e.stores, e.now);
    } else if e.Connect? {
      assert !PinExchange(Shake(e.ip, AwaitHello, None)) by { NewIsIdle(e.ip); }
    }
  }

  lemma SameAddress(h: Shake, p: Pins, l: Limits, m: Msg, stores: bool, now: int)
    ensures Process(h, p, l, m, stores, now).0.ip == h.ip
  {
  }

  lemma NewIsIdle(ip: Ip)
    ensures !PinExchange(Shake(ip, AwaitHello, None))
  {
  }

  /** A lockout holds over any run until its time: while the address verifies no proof
      it stays locked out and opens no PIN exchange, whatever anyone sends, its own
      failures included. */
  lemma {:induction false} LockoutHolds(l: Limits, start: int, events: seq<Event>, more: seq<Event>, ip: Ip, until: int)
    requires LockedUntil(Exec(l, start, events).pins, ip, until)
    requires NoLift(l, start, events, more, ip) && forall i :: 0 <= i < |more| ==> During(more[i], l, until)
    ensures Shut(Exec(l, start, events), Exec(l, start, events + more), ip, until)
    decreases |more|
  {
    hide Step, Shut, Lifts;
    if more == [] {
      assert events + more == events;
      assert Shut(Exec(l, start, events), Exec(l, start, events), ip, until) by {
        ShutAtFirst(Exec(l, start, events), ip, until);
      }
    } else {
      var before, e := more[..|more| - 1], more[|more| - 1];
      LockoutHolds(l, start, events, before, ip, until);
      StepStaysShut(Exec(l, start, events), Exec(l, start, events + before), l, e, ip, until);
      assert (events + more)[..|events + more| - 1] == events + before;
    }
  }

  lemma ShutAtFirst(w: World, ip: Ip, until: int)
    requires LockedUntil(w.pins, ip, until)
    ensures Shut(w, w, ip, until)
  {
  }

  /** So the proof that lifts it early is on an exchange opened before the lockout. */
  lemma OnlyOldExchangesLift(l: Limits, start: int, events: seq<Event>, more: seq<Event>, e: Event, ip: Ip, until: int)
    requires LockedUntil(Exec(l, start, events).pins, ip, until)
    requires NoLift(l, start, events, more, ip) && forall i :: 0 <= i < |more| ==> During(more[i], l, until)
    requires Lifts(Exec(l, start, events + more), l, e, ip)
    ensures var w := Exec(l, start, events); e.conn < |w.conns| && Busy(w.conns[e.conn], ip)
  {
    hide Exec, Process;
    LockoutHolds(l, start, events, more, ip, until);
    EveryReachableWorldIsSound(l, start, events + more);
    var t := Exec(l, start, events + more);
    VerifiedWasBusy(t.conns[e.conn].shake, t.pins, l, e.m, e.stores, e.now);
  }

  lemma VerifiedWasBusy(h: Shake, p: Pins, l: Limits, m: Msg, stores: bool, now: int)
    requires Verified(Process(h, p, l, m, stores, now).2)
    ensures PinExchange(h)
  {
  }

  // ------------------------------------------------------------------------ witnesses

  lemma OneMoreEvent(l: Limits, events: seq<Event>, e: Event)
    ensures Exec(l, 0, events + [e]) == Step(Exec(l, 0, events), l, e)
  {
    assert (events + [e])[..|events|] == events;
  }

  function Waiting(): Conn {
    Conn(Shake(1, AwaitSpake2Confirm(0), Some(PairSpake2)), true)
  }

  /** `n` exchanges opened on the first PIN. */
  function Openings(n: nat): seq<Event> {
    if n == 0 then []
    else
      Openings(n - 1) + [Connect(1)] + [Deliver(n - 1, Hello(false, PairSpake2), true, 0)]
      + [Deliver(n - 1, Spake2Start(GoodKey), true, 0)]
  }

  lemma OneOpened(w: World, l: Limits)
    requires w.pins == Pins(0, 0, false, map[])
    ensures var n := |w.conns|;
            var one := Step(w, l, Connect(1));
            var two := Step(one, l, Deliver(n, Hello(false, PairSpake2), true, 0));
            Step(two, l, Deliver(n, Spake2Start(GoodKey), true, 0)) == w.(conns := w.conns + [Waiting()])
  {
  }

  lemma {:induction false} AllOpened(l: Limits, n: nat)
    ensures Exec(l, 0, Openings(n)) == World(Pins(0, 0, false, map[]), seq(n, _ => Waiting()), [])
  {
    hide Step;
    if n > 0 {
      AllOpened(l, n - 1);
      var e, hello := Openings(n - 1) + [Connect(1)], Deliver(n - 1, Hello(false, PairSpake2), true, 0);
      OneMoreEvent(l, Openings(n - 1), Connect(1));
      OneMoreEvent(l, e, hello);
      OneMoreEvent(l, e + [hello], Deliver(n - 1, Spake2Start(GoodKey), true, 0));
      OneOpened(Exec(l, 0, Openings(n - 1)), l);
      assert seq(n, _ => Waiting()) == seq(n - 1, _ => Waiting()) + [Waiting()];
    }
  }

  /** Such a run: two exchanges started on one PIN, both completed. */
  lemma TwoPairingsOnOnePin(l: Limits)
    ensures var g := Spake2Confirm(Made(0));
            Exec(l, 0, Openings(2) + [Deliver(0, g, true, 0)] + [Deliver(1, g, true, 0)]).log
            == [Entry(0, Completed(PairSpake2, 0)), Entry(1, Completed(PairSpake2, 0))]
  {
    hide Exec, Openings;
    var g := Spake2Confirm(Made(0));
    AllOpened(l, 2);
    OneMoreEvent(l, Openings(2), Deliver(0, g, true, 0));
    OneMoreEvent(l, Openings(2) + [Deliver(0, g, true, 0)], Deliver(1, g, true, 0));
  }

  /** Wrong proofs on the first `k` of `n` exchanges. */
  function Misses(n: nat, k: nat): seq<Event> {
    if k == 0 then Openings(n) else Misses(n, k - 1) + [Deliver(k - 1, Spake2Confirm(Made(1)), true, 0)]
  }

  /** The bound is reached: a fresh PIN follows each refusal, yet exchanges opened
      before it are still decided on the old one, `n` of them for any `n`. */
  lemma {:induction false} BoundIsReached(l: Limits, n: nat, k: nat)
    requires k <= n
    ensures var w := Exec(l, 0, Misses(n, k));
            && w.log == seq(k, i requires 0 <= i < k => Entry(i, Refused(PairSpake2, 0))) && w.pins.generation == k
            && |w.conns| == n && forall c :: k <= c < n ==> w.conns[c] == Waiting()
  {
    hide Exec, Openings;
    if k == 0 {
      AllOpened(l, n);
    } else {
      BoundIsReached(l, n, k - 1);
      OneMoreEvent(l, Misses(n, k - 1), Deliver(k - 1, Spake2Confirm(Made(1)), true, 0));
    }
  }
}
