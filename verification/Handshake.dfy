/**
 The host's authentication state machine and the PIN it guards. Cryptography is left
 to what it decides: a proof names the PIN it was made with, as a generation number,
 and verifies when that is the PIN it is checked against.
 */
module Handshake {
  import opened Options

  type Ip = nat

  // ------------------------------------------------------------------------ the PIN

  datatype Limits = Limits(ttl: nat, maxAttempts: nat, lockout: nat, legacyAllowed: bool)

  datatype Attempts = Attempts(failures: nat, lockedUntil: Option<int>)

  /** `generation` stands for the PIN: every rotation makes a new one. */
  datatype Pins = Pins(generation: nat, issued: int, used: bool, attempts: map<Ip, Attempts>)

  function Rotated(p: Pins, now: int): Pins {
    p.(generation := p.generation + 1, issued := now, used := false)
  }

  /** Rotated first when it was used or has expired. */
  function Current(p: Pins, ttl: nat, now: int): Pins {
    if p.used || now - p.issued > ttl then Rotated(p, now) else p
  }

  predicate LockedOut(p: Pins, ip: Ip, now: int) {
    ip in p.attempts && p.attempts[ip].lockedUntil.Some? && now < p.attempts[ip].lockedUntil.value
  }

  /** A lockout that has run out is forgotten. */
  function Gated(p: Pins, ip: Ip, now: int): Pins {
    if ip in p.attempts && p.attempts[ip].lockedUntil.Some? && !LockedOut(p, ip, now)
    then p.(attempts := p.attempts[ip := Attempts(0, None)]) else p
  }

  function Failed(p: Pins, ip: Ip, l: Limits, now: int): Pins {
    var before := if ip in p.attempts then p.attempts[ip] else Attempts(0, None);
    var failures := before.failures + 1;
    var a := Attempts(failures, if failures >= l.maxAttempts then Some(now + l.lockout) else before.lockedUntil);
    Rotated(p.(attempts := p.attempts[ip := a]), now)
  }

  function Consumed(p: Pins, ip: Ip): Pins {
    p.(used := true, attempts := p.attempts - {ip})
  }

  class PinManager {
    const limits: Limits
    var generation: nat
    var issued: int
    var used: bool
    var attempts: map<Ip, Attempts>

    constructor (limits: Limits, now: int)
      ensures State() == Pins(0, now, false, map[]) && this.limits == limits
    {
      this.limits, generation, issued, used, attempts := limits, 0, now, false, map[];
    }

    function State(): Pins
      reads this
    {
      Pins(generation, issued, used, attempts)
    }

    method CurrentPin(now: int) returns (pin: nat)
      modifies this
      ensures State() == Current(old(State()), limits.ttl, now) && pin == generation
      ensures !old(used) && now - old(issued) <= limits.ttl ==> unchanged(this)
      ensures old(used) || now - old(issued) > limits.ttl ==>
                generation == old(generation) + 1 && issued == now && !used && attempts == old(attempts)
    {
      if used || now - issued > limits.ttl {
        generation, issued, used := generation + 1, now, false;
      }
      pin := generation;
    }

    method Rotate(now: int)
      modifies this
      ensures State() == Rotated(old(State()), now)
    {
      generation, issued, used := generation + 1, now, false;
    }

    method Gate(ip: Ip, now: int) returns (allowed: bool)
      modifies this
      ensures State() == Gated(old(State()), ip, now) && allowed == !LockedOut(old(State()), ip, now)
    {
      if ip in attempts && attempts[ip].lockedUntil.Some? {
        if now < attempts[ip].lockedUntil.value {
          return false;
        }
        attempts := attempts[ip := Attempts(0, None)];
      }
      allowed := true;
    }

    method RecordFailure(ip: Ip, now: int)
      modifies this
      ensures State() == Failed(old(State()), ip, limits, now)
    {
      var a := if ip in attempts then attempts[ip] else Attempts(0, None);
      a := a.(failures := a.failures + 1);
      if a.failures >= limits.maxAttempts {
        a := a.(lockedUntil := Some(now + limits.lockout));
      }
      attempts := attempts[ip := a];
      Rotate(now);
    }

    method Consume(ip: Ip)
      modifies this
      ensures State() == Consumed(old(State()), ip)
    {
      used := true;
      attempts := attempts - {ip};
    }
  }

  // ------------------------------------------------------------------ one connection

  datatype Auth = Pair | PairSpake2 | Token

  /** A SPAKE2 exchange keeps the PIN it started with. */
  datatype Phase = AwaitHello | AwaitPairStart | AwaitProof | AwaitSpake2Confirm(pin: nat) | Done

  datatype Key = BadEncoding | BadKey | GoodKey

  /** A proof that cannot be decoded, or one made with some PIN. */
  datatype Proof = Garbled | Made(pin: nat)

  datatype Msg =
    | Hello(tooOld: bool, auth: Auth)
    | Spake2Start(share: Key)
    | Spake2Confirm(mac: Proof)
    | PairStart(key: Key)
    | PairConfirm(sealed: Proof)
    | TokenProof(garbled: bool, genuine: bool)
    | Stray

  datatype Shake = Shake(ip: Ip, phase: Phase, auth: Option<Auth>)

  /** What a message led to. A decided proof notes the PIN it was checked against. */
  datatype Outcome =
    | Replied
    | Rejected
    | Refused(path: Auth, pin: nat)
    | NotStored(path: Auth, pin: nat)
    | Completed(path: Auth, pin: nat)

  function Process(h: Shake, p: Pins, l: Limits, m: Msg, stores: bool, now: int): (Shake, Pins, Outcome) {
    match (h.phase, m)
    case (AwaitHello, Hello(tooOld, auth)) =>
      if tooOld || (auth.Pair? && !l.legacyAllowed) then (h, p, Rejected)
      else (h.(auth := Some(auth), phase := AwaitPairStart), p, Replied)
    case (AwaitPairStart, Spake2Start(share)) =>
      if h.auth != Some(PairSpake2) || LockedOut(p, h.ip, now) then (h, p, Rejected)
      else
        var q := Gated(p, h.ip, now);
        if share.BadEncoding? then (h, q, Rejected)
        else
          var r := Current(q, l.ttl, now);
          if share.BadKey? then (h, Failed(r, h.ip, l, now), Rejected)
          else (h.(phase := AwaitSpake2Confirm(r.generation)), r, Replied)
    case (AwaitSpake2Confirm(pin), Spake2Confirm(mac)) =>
      if mac.Garbled? then (h, p, Rejected)
      else if mac.pin != pin then (h, Failed(p, h.ip, l, now), Refused(PairSpake2, pin))
      else if !stores then (h, Consumed(p, h.ip), NotStored(PairSpake2, pin))
      else (h.(phase := Done), Consumed(p, h.ip), Completed(PairSpake2, pin))
    case (AwaitPairStart, PairStart(key)) =>
      if h.auth == Some(Pair) && LockedOut(p, h.ip, now) then (h, p, Rejected)
      else
        var q := if h.auth == Some(Pair) then Gated(p, h.ip, now) else p;
        if !key.GoodKey? then (h, q, Rejected) else (h.(phase := AwaitProof), q, Replied)
    case (AwaitProof, PairConfirm(sealed)) =>
      if h.auth != Some(Pair) || sealed.Garbled? then (h, p, Rejected)
      else
        var q := Current(p, l.ttl, now);
        if sealed.pin != q.generation then (h, Failed(q, h.ip, l, now), Refused(Pair, q.generation))
        else if !stores then (h, Consumed(q, h.ip), NotStored(Pair, q.generation))
        else (h.(phase := Done), Consumed(q, h.ip), Completed(Pair, q.generation))
    case (AwaitProof, TokenProof(garbled, genuine)) =>
      if h.auth != Some(Token) || garbled || !genuine then (h, p, Rejected)
      else (h.(phase := Done), p, Completed(Token, 0))
    case _ => (h, p, Rejected)
  }

  class ServerHandshake {
    const ip: Ip
    const pins: PinManager
    var phase: Phase
    var auth: Option<Auth>

    constructor (ip: Ip, pins: PinManager)
      ensures State() == Shake(ip, AwaitHello, None) && this.pins == pins
    {
      this.ip, this.pins, phase, auth := ip, pins, AwaitHello, None;
    }

    function State(): Shake
      reads this
    {
      Shake(ip, phase, auth)
    }

    method Handle(m: Msg, stores: bool, now: int) returns (r: Outcome)
      modifies this, pins
      ensures (State(), pins.State(), r) == Process(old(State()), old(pins.State()), pins.limits, m, stores, now)
    {
      match m
      case Hello(_, _) => r := OnHello(m);
      case Spake2Start(share) => r := OnSpake2Start(share, now);
      case Spake2Confirm(mac) => r := OnSpake2Confirm(mac, stores, now);
      case PairStart(key) => r := OnPairStart(key, now);
      case PairConfirm(sealed) => r := OnPairConfirm(sealed, stores, now);
      case TokenProof(garbled, genuine) =>
        r := Rejected;
        if phase.AwaitProof? && auth == Some(Token) && !garbled && genuine {
          phase, r := Done, Completed(Token, 0);
        }
      case Stray => r := Rejected;
    }

    method OnHello(m: Msg) returns (r: Outcome)
      requires m.Hello?
      modifies this
      ensures (State(), old(pins.State()), r) == Process(old(State()), old(pins.State()), pins.limits, m, false, 0)
    {
      r := Rejected;
      if phase.AwaitHello? {
        if m.tooOld || (m.auth.Pair? && !pins.limits.legacyAllowed) {
          return;
        }
        auth, phase, r := Some(m.auth), AwaitPairStart, Replied;
      }
    }

    method OnSpake2Start(share: Key, now: int) returns (r: Outcome)
      modifies this, pins
      ensures (State(), pins.State(), r)
              == Process(old(State()), old(pins.State()), pins.limits, Spake2Start(share), false, now)
    {
      r := Rejected;
      if phase.AwaitPairStart? && auth == Some(PairSpake2) {
        var allowed := pins.Gate(ip, now);
        if !allowed || share.BadEncoding? {
          return;
        }
        var pin := pins.CurrentPin(now);
        if share.BadKey? {
          pins.RecordFailure(ip, now);
          return;
        }
        phase, r := AwaitSpake2Confirm(pin), Replied;
      }
    }

    method OnSpake2Confirm(mac: Proof, stores: bool, now: int) returns (r: Outcome)
      modifies this, pins
      ensures (State(), pins.State(), r)
              == Process(old(State()), old(pins.State()), pins.limits, Spake2Confirm(mac), stores, now)
    {
      r := Rejected;
      if phase.AwaitSpake2Confirm? && mac.Made? {
        var pin := phase.pin;
        if mac.pin != pin {
          pins.RecordFailure(ip, now);
          return Refused(PairSpake2, pin);
        }
        pins.Consume(ip);
        if !stores {
          return NotStored(PairSpake2, pin);
        }
        phase, r := Done, Completed(PairSpake2, pin);
      }
    }

    method OnPairStart(key: Key, now: int) returns (r: Outcome)
      modifies this, pins
      ensures (State(), pins.State(), r)
              == Process(old(State()), old(pins.State()), pins.limits, PairStart(key), false, now)
    {
      r := Rejected;
      if phase.AwaitPairStart? {
        if auth == Some(Pair) {
          var allowed := pins.Gate(ip, now);
          if !allowed {
            return;
          }
        }
        if key.GoodKey? {
          phase, r := AwaitProof, Replied;
        }
      }
    }

    method OnPairConfirm(sealed: Proof, stores: bool, now: int) returns (r: Outcome)
      modifies this, pins
      ensures (State(), pins.State(), r)
              == Process(old(State()), old(pins.State()), pins.limits, PairConfirm(sealed), stores, now)
    {
      r := Rejected;
      if phase.AwaitProof? && auth == Some(Pair) && sealed.Made? {
        var pin := pins.CurrentPin(now);
        if sealed.pin != pin {
          pins.RecordFailure(ip, now);
          return Refused(Pair, pin);
        }
        pins.Consume(ip);
        if !stores {
          return NotStored(Pair, pin);
        }
        phase, r := Done, Completed(Pair, pin);
      }
    }
  }

  // ------------------------------------------------------- many connections, one PIN

  datatype Conn = Conn(shake: Shake, open: bool)

  /** A decided proof: on which connection, and what came of it. */
  datatype Entry = Entry(conn: nat, outcome: Outcome)

  datatype World = World(pins: Pins, conns: seq<Conn>, log: seq<Entry>)

  /** New connections are numbered as they come. Anything may rotate or show the PIN. */
  datatype Event =
    | Connect(ip: Ip)
    | Deliver(conn: nat, m: Msg, stores: bool, now: int)
    | NewPin(now: int)
    | ShowPin(now: int)

  predicate Decides(r: Outcome) { !r.Replied? && !r.Rejected? }

  function Step(w: World, l: Limits, e: Event): World {
    match e
    case Connect(ip) => w.(conns := w.conns + [Conn(Shake(ip, AwaitHello, None), true)])
    case NewPin(now) => w.(pins := Rotated(w.pins, now))
    case ShowPin(now) => w.(pins := Current(w.pins, l.ttl, now))
    case Deliver(c, m, stores, now) =>
      if c >= |w.conns| || !w.conns[c].open then w
      else
        var (h, p, r) := Process(w.conns[c].shake, w.pins, l, m, stores, now);
        World(p, w.conns[c := Conn(h, r.Replied?)], if Decides(r) then w.log + [Entry(c, r)] else w.log)
  }

  function Exec(l: Limits, start: int, events: seq<Event>): World {
    if events == [] then World(Pins(0, start, false, map[]), [], [])
    else Step(Exec(l, start, events[..|events| - 1]), l, events[|events| - 1])
  }

  /** The PIN is no longer there to be checked against by a legacy proof. */
  predicate Spent(p: Pins, pin: nat) {
    pin < p.generation || (pin == p.generation && p.used)
  }

  predicate ShakeSound(h: Shake, p: Pins, l: Limits) {
    && (h.phase.AwaitSpake2Confirm? ==> h.auth == Some(PairSpake2) && h.phase.pin <= p.generation)
    && (h.auth == Some(Pair) ==> l.legacyAllowed)
  }

  /** The entry's connection is closed and had declared the entry's path. */
  ghost predicate EntrySound(e: Entry, w: World) {
    && Decides(e.outcome) && e.conn < |w.conns| && !w.conns[e.conn].open
    && w.conns[e.conn].shake.auth == Some(e.outcome.path)
    && (e.outcome.path != Token ==> Spent(w.pins, e.outcome.pin))
  }

  /** Each entry after the first `i` has its own connection, and a legacy one a PIN
      that no earlier proof was checked against. */
  predicate Apart(a: Entry, b: Entry) {
    && a.conn != b.conn && Decides(a.outcome) && Decides(b.outcome)
    && (b.outcome.path.Pair? && a.outcome.path != Token ==> a.outcome.pin != b.outcome.pin)
  }

  ghost predicate Inv(w: World, l: Limits) {
    && (forall c :: 0 <= c < |w.conns| ==> ShakeSound(w.conns[c].shake, w.pins, l))
    && (forall i :: 0 <= i < |w.log| ==> EntrySound(w.log[i], w))
    && forall i, j :: 0 <= i < j < |w.log| ==> Apart(w.log[i], w.log[j])
  }

  /** The PIN only moves on, and a spent one stays spent. */
  predicate Later(p: Pins, q: Pins) {
    p.generation <= q.generation && (p.generation == q.generation && p.used ==> q.used)
  }

  lemma ProcessEffect(h: Shake, p: Pins, l: Limits, m: Msg, stores: bool, now: int)
    requires ShakeSound(h, p, l)
    ensures var (t, q, r) := Process(h, p, l, m, stores, now);
            && ShakeSound(t, q, l) && Later(p, q)
            && (h.auth.Some? && !h.phase.AwaitHello? ==> t.auth == h.auth)
            && (Decides(r) ==>
                  && t.auth == Some(r.path) && (r.path != Token ==> Spent(q, r.pin))
                  && (r.path.Pair? ==> !Spent(p, r.pin) || r.pin > p.generation)
                  && (r.Refused? ==> q.generation > p.generation))
  {
  }

  lemma StepKeepsInv(w: World, l: Limits, e: Event)
    requires Inv(w, l)
    ensures Inv(Step(w, l, e), l)
  {
    hide Process;
    var t := Step(w, l, e);
    if e.Deliver? && e.conn < |w.conns| && w.conns[e.conn].open {
      var h := w.conns[e.conn].shake;
      ProcessEffect(h, w.pins, l, e.m, e.stores, e.now);
      var r := Process(h, w.pins, l, e.m, e.stores, e.now).2;
      forall i | 0 <= i < |w.log|
        ensures EntrySound(w.log[i], t)
      {
        assert EntrySound(w.log[i], w);
      }
      if Decides(r) {
        var x := Entry(e.conn, r);
        assert t.log == w.log + [x];
        forall i | 0 <= i < |w.log|
          ensures Apart(w.log[i], x)
        {
          assert EntrySound(w.log[i], w);
        }
      }
    } else {
      assert Later(w.pins, t.pins);
      forall i | 0 <= i < |w.log|
        ensures EntrySound(w.log[i], t)
      {
        assert EntrySound(w.log[i], w);
      }
    }
  }

  lemma {:induction false} EveryReachableWorldIsSound(l: Limits, start: int, events: seq<Event>)
    ensures Inv(Exec(l, start, events), l)
  {
    hide Step, Inv;
    if events == [] {
      assert Inv(Exec(l, start, []), l) by { EmptyWorldIsSound(l, start); }
    } else {
      EveryReachableWorldIsSound(l, start, events[..|events| - 1]);
      StepKeepsInv(Exec(l, start, events[..|events| - 1]), l, events[|events| - 1]);
    }
  }

  lemma EmptyWorldIsSound(l: Limits, start: int)
    ensures Inv(Exec(l, start, []), l)
  {
  }

  // ---------------------------------------------------------------- main results

  /** A connection decides at most one proof, so completes at most once; and only on
      the path it declared. */
  lemma OneProofEach(l: Limits, start: int, events: seq<Event>, i: nat, j: nat)
    requires i < j < |Exec(l, start, events).log|
    ensures Exec(l, start, events).log[i].conn != Exec(l, start, events).log[j].conn
  {
    hide Exec;
    EveryReachableWorldIsSound(l, start, events);
    assert Apart(Exec(l, start, events).log[i], Exec(l, start, events).log[j]);
  }

  lemma OnlyTheDeclaredPath(l: Limits, start: int, events: seq<Event>, i: nat)
    requires i < |Exec(l, start, events).log|
    ensures var w := Exec(l, start, events);
            && w.log[i].conn < |w.conns| && Decides(w.log[i].outcome)
            && w.conns[w.log[i].conn].shake.auth == Some(w.log[i].outcome.path)
            && (w.log[i].outcome.path.Pair? ==> l.legacyAllowed)
  {
    hide Exec;
    EveryReachableWorldIsSound(l, start, events);
    var w := Exec(l, start, events);
    assert EntrySound(w.log[i], w);
    assert ShakeSound(w.conns[w.log[i].conn].shake, w.pins, l);
  }

  /** Every refused PIN proof leaves a new PIN behind. */
  lemma RefusalRotates(l: Limits, start: int, events: seq<Event>, e: Event)
    requires e.Deliver?
    ensures var w := Exec(l, start, events); var t := Step(w, l, e);
            |t.log| > |w.log| && t.log[|w.log|].outcome.Refused? ==> t.pins.generation > w.pins.generation
  {
    hide Exec, Process;
    EveryReachableWorldIsSound(l, start, events);
    var w := Exec(l, start, events);
    if e.conn < |w.conns| {
      ProcessEffect(w.conns[e.conn].shake, w.pins, l, e.m, e.stores, e.now);
    }
  }

  /** Each PIN decides at most one legacy proof, right or wrong, and none after it
      was used on any path: so it completes at most one legacy pairing. */
  lemma LegacyPinsAreSingleUse(l: Limits, start: int, events: seq<Event>, i: nat, j: nat)
    requires i < j < |Exec(l, start, events).log|
    requires var a, b := Exec(l, start, events).log[i].outcome, Exec(l, start, events).log[j].outcome;
             Decides(a) && Decides(b) && a.path != Token && b.path.Pair?
    ensures Exec(l, start, events).log[i].outcome.pin != Exec(l, start, events).log[j].outcome.pin
  {
    hide Exec;
    EveryReachableWorldIsSound(l, start, events);
    assert Apart(Exec(l, start, events).log[i], Exec(l, start, events).log[j]);
  }
}
