/** Progress of the frame ring: what is published to the end is delivered. */
module FrameProgress {
  import opened Bytes
  import opened FrameRing

  /** Further steps, from any state. */
  function Run(s: State, more: seq<Choice>): State
    decreases |more|
  {
    if more == [] then s else Run(Step(s, more[0]), more[1..])
  }

  lemma {:induction false} ExecThenRun(schedule: seq<Choice>, more: seq<Choice>)
    ensures Exec(schedule + more) == Run(Exec(schedule), more)
    decreases |more|
  {
    hide Step;
    if more == [] {
      assert schedule + more == schedule;
    } else {
      var one := schedule + [more[0]];
      assert one[..|schedule|] == schedule;
      ExecThenRun(one, more[1..]);
      assert one + more[1..] == schedule + more;
    }
  }

  lemma OneStep(s: State, c: Choice, more: seq<Choice>)
    ensures Run(s, [c] + more) == Run(Step(s, c), more)
  {
    hide Step;
    assert ([c] + more)[1..] == more;
  }

  /** Reachable states are sound, and what was delivered last was called. */
  ghost predicate Sound(s: State) {
    Inv(s) && s.last <= |s.calls|
  }

  lemma ConsumerKeepsLast(s: State, k: nat)
    requires Sound(s)
    ensures ConsumerStep(s, k).last <= |s.calls| && ConsumerStep(s, k).calls == s.calls
  {
    hide ProducerInv, AgeInv, DeliveryInv, WakeInv, WholeInv;
    if s.consumer.Reading? && s.consumer.next.Drain? && Complete(s.consumer.next.done, |s.out|)
       && Undisturbed(s.consumer, s.slots[s.consumer.slot]) {
      WholeImage(s);
    }
  }

  lemma StepKeepsSound(s: State, c: Choice)
    requires Sound(s)
    ensures Sound(Step(s, c))
  {
    hide Inv;
    match c
    case Call(f) => EnterKeepsInv(s, f);
    case Produce(k) => ProducerKeepsInv(s, k);
    case Consume(k) =>
      ConsumerKeepsInv(s, k);
      ConsumerKeepsLast(s, k);
  }

  lemma {:induction false} ReachableIsSound(schedule: seq<Choice>)
    ensures Sound(Exec(schedule))
  {
    hide Step, Sound;
    if schedule == [] {
      AtFirst();
    } else {
      ReachableIsSound(schedule[..|schedule| - 1]);
      StepKeepsSound(Exec(schedule[..|schedule| - 1]), schedule[|schedule| - 1]);
    }
  }

  lemma AtFirst()
    ensures Sound(Exec([]))
  {
    hide Inv;
    EveryReachableStateIsSound([]);
  }

  /** `order` names each of the first `n` bytes once. */
  ghost predicate EachOnce(order: seq<nat>, n: nat) {
    Rest(order, {}, n)
  }

  /** `order` names each of the first `n` bytes that is not in `done` once. */
  ghost predicate Rest(order: seq<nat>, done: set<nat>, n: nat) {
    && (forall k: nat :: k < n && k !in done ==> k in order)
    && (forall i :: 0 <= i < |order| ==> order[i] < n && order[i] !in done)
    && (forall i, j :: 0 <= i < j < |order| ==> order[i] != order[j])
  }

  /** As does going through them in order. */
  lemma InOrder(n: nat)
    ensures EachOnce(seq(n, i requires 0 <= i < n => i), n)
  {
    var order := seq(n, i requires 0 <= i < n => i);
    forall k: nat | k < n ensures k in order {
      assert order[k] == k;
    }
  }

  lemma RestStep(order: seq<nat>, done: set<nat>, n: nat)
    requires Rest(order, done, n) && order != []
    ensures order[0] < n && !Complete(done, n) && Rest(order[1..], done + {order[0]}, n)
  {
    assert order[0] !in done;
    forall k: nat | k < n && k !in done + {order[0]}
      ensures k in order[1..]
    {
      var i :| 0 <= i < |order| && order[i] == k;
      assert order[1..][i - 1] == k;
    }
  }

  lemma NothingRests(done: set<nat>, n: nat)
    requires Rest([], done, n)
    ensures Complete(done, n)
  {
  }

  // ------------------------------------------------------------------ publishing

  /** The stores of one PublishFrame call, its bytes copied in any order. */
  function Stores(order: seq<nat>): seq<Choice> {
    if order == [] then seq(9, _ => Produce(0)) else [Produce(order[0])] + Stores(order[1..])
  }

  /** The producer is at `next` of publishing `f`, and the consumer where it was. */
  ghost predicate Publishes(s: State, t: State, f: Frame, next: Store) {
    && Sound(t) && t.producer.Publishing? && t.producer.f == f && t.producer.next == next
    && t.calls == s.calls + [f] && t.consumer == s.consumer && t.last == s.last && t.delivered == s.delivered
  }

  lemma CallPublishes(s: State, f: Frame)
    requires Sound(s) && s.producer.Resting? && f.Fits()
    ensures Publishes(s, Step(s, Call(f)), f, Open)
  {
    StepKeepsSound(s, Call(f));
    hide Sound;
  }

  /** The store that comes after one of a single word. */
  function After(next: Store): Store
    requires !next.Copy? && !next.Signal?
  {
    match next
    case Open => Copy({})
    case PutWidth => PutHeight
    case PutHeight => PutPitch
    case PutPitch => PutTime
    case PutTime => PutNumber
    case PutNumber => Close
    case Close => Name
    case Name => Signal
  }

  lemma WordStored(s: State, t: State, f: Frame, next: Store, k: nat)
    requires Publishes(s, t, f, next) && !next.Copy? && !next.Signal?
    ensures Publishes(s, Step(t, Produce(k)), f, After(next))
  {
    InSlots(t);
    StepKeepsSound(t, Produce(k));
    hide Sound;
  }

  lemma InSlots(t: State)
    requires Sound(t) && t.producer.Publishing?
    ensures t.producer.slot < |t.slots| && |t.slots[t.producer.slot].payload| == PAYLOAD_BYTES
    ensures |t.producer.f.pixels| <= PAYLOAD_BYTES
  {
    AreaFits(t.producer.f.width, t.producer.f.height);
  }

  lemma ByteStored(s: State, t: State, f: Frame, done: set<nat>, k: nat)
    requires Publishes(s, t, f, Copy(done)) && !Complete(done, |f.pixels|) && k < |f.pixels|
    ensures Publishes(s, Step(t, Produce(k)), f, Copy(done + {k}))
  {
    InSlots(t);
    StepKeepsSound(t, Produce(k));
    hide Sound, Complete;
  }

  lemma AllStored(s: State, t: State, f: Frame, done: set<nat>, k: nat)
    requires Publishes(s, t, f, Copy(done)) && Complete(done, |f.pixels|)
    ensures Publishes(s, Step(t, Produce(k)), f, PutWidth)
  {
    InSlots(t);
    StepKeepsSound(t, Produce(k));
    hide Sound, Complete;
  }

  lemma Signalled(s: State, t: State, f: Frame, k: nat)
    requires Publishes(s, t, f, Signal)
    ensures Published(s, Step(t, Produce(k)), f)
  {
    InSlots(t);
    StepKeepsSound(t, Produce(k));
    hide Sound;
  }

  /** `f` is published, and the consumer is where it was. */
  ghost predicate Published(s: State, t: State, f: Frame) {
    && Sound(t) && t.producer.Resting? && t.event && t.calls == s.calls + [f]
    && t.consumer == s.consumer && t.last == s.last && t.delivered == s.delivered
  }

  lemma {:induction false} WordsStored(s: State, t: State, f: Frame, next: Store, n: nat)
    requires Publishes(s, t, f, next)
    requires n == match next
                  case PutWidth => 8 case PutHeight => 7 case PutPitch => 6 case PutTime => 5
                  case PutNumber => 4 case Close => 3 case Name => 2 case Signal => 1 case _ => 0
    requires n > 0
    ensures Published(s, Run(t, seq(n, _ => Produce(0))), f)
    decreases n
  {
    hide Step, Publishes, Published;
    assert seq(n, _ => Produce(0)) == [Produce(0)] + seq(n - 1, _ => Produce(0));
    OneStep(t, Produce(0), seq(n - 1, _ => Produce(0)));
    if next.Signal? {
      Signalled(s, t, f, 0);
    } else {
      WordStored(s, t, f, next, 0);
      WordsStored(s, Step(t, Produce(0)), f, After(next), n - 1);
    }
  }

  lemma {:induction false} BytesStored(s: State, t: State, f: Frame, done: set<nat>, order: seq<nat>)
    requires Publishes(s, t, f, Copy(done)) && Rest(order, done, |f.pixels|)
    ensures Published(s, Run(t, Stores(order)), f)
    decreases |order|
  {
    hide Step, Publishes, Published, Rest, Complete, Run;
    if order == [] {
      NothingRests(done, |f.pixels|);
      AllStored(s, t, f, done, 0);
      assert seq(9, _ => Produce(0)) == [Produce(0)] + seq(8, _ => Produce(0));
      OneStep(t, Produce(0), seq(8, _ => Produce(0)));
      WordsStored(s, Step(t, Produce(0)), f, PutWidth, 8);
    } else {
      RestStep(order, done, |f.pixels|);
      ByteStored(s, t, f, done, order[0]);
      OneStep(t, Produce(order[0]), Stores(order[1..]));
      BytesStored(s, Step(t, Produce(order[0])), f, done + {order[0]}, order[1..]);
    }
  }

  /** PublishFrame, undisturbed or not, ends with the frame in the ring and the event set. */
  lemma CallIsPublished(s: State, f: Frame, order: seq<nat>)
    requires Sound(s) && s.producer.Resting? && f.Fits() && EachOnce(order, |f.pixels|)
    ensures Published(s, Run(s, [Call(f), Produce(0)] + Stores(order)), f)
  {
    hide Step, Publishes, Published, Rest, Sound, Run;
    var called := Step(s, Call(f));
    CallPublishes(s, f);
    WordStored(s, called, f, Open, 0);
    assert [Call(f), Produce(0)] + Stores(order) == [Call(f)] + ([Produce(0)] + Stores(order));
    OneStep(s, Call(f), [Produce(0)] + Stores(order));
    OneStep(called, Produce(0), Stores(order));
    BytesStored(s, Step(called, Produce(0)), f, {}, order);
  }

  // ------------------------------------------------------------------ delivering

  /** The loads of one next_frame call from its first look at the header, the bytes
      copied in any order. */
  function Loads(order: seq<nat>): seq<Choice> {
    if order == [] then [Consume(0)] else [Consume(order[0])] + Loads(order[1..])
  }

  /** Where a call stands that reads `f`, frame number `n`, while nothing is published. */
  ghost predicate Reads(s: State, f: Frame, n: nat) {
    && Sound(s) && s.producer.Resting? && s.consumer.Reading? && s.consumer.slot < SLOTS == |s.slots|
    && n != s.last && 0 < n <= |s.calls| && f == s.calls[n - 1]
    && s.slots[s.consumer.slot].number == n
  }

  lemma SlotReads(s: State, f: Frame, n: nat)
    requires Reads(s, f, n)
    ensures var sh := s.slots[s.consumer.slot];
            && HoldsFrame(sh, f) && f.Fits() && sh.stamp % 2 == 0 && |f.pixels| <= |sh.payload|
  {
    hide ReadInv, AgeInv, DeliveryInv, WakeInv, WholeInv;
    AreaFits(f.width, f.height);
    assert Holds(s.slots[s.consumer.slot], s.consumer.slot, s.calls);
  }

  /** Only the call's own state has changed. */
  predicate OnlyReads(s: State, t: State) {
    t == s.(out := t.out, consumer := t.consumer)
  }

  /** The bytes in `done` are there. */
  ghost predicate Draining(t: State, f: Frame, n: nat, done: set<nat>) {
    && Reads(t, f, n) && !f.Empty() && |t.out| == |f.pixels|
    && t.consumer.next == Drain(t.slots[t.consumer.slot].stamp, f.width, f.height, f.width * 4, n, done)
    && forall k: nat :: k < |f.pixels| && k in done ==> t.out[k] == f.pixels[k]
  }

  /** The newest outcome is frame number `n`, which is `f`, whole. */
  predicate Delivers(s: State, t: State, f: Frame, n: nat) {
    && t.consumer.Waiting? && t.outcome == Delivered(f.width, f.height, n) && t.out == f.pixels
    && t.last == n && t.delivered == s.delivered + [n] && t.calls == s.calls && t.producer == s.producer
  }

  lemma ByteLoaded(t: State, f: Frame, n: nat, done: set<nat>, k: nat)
    requires Draining(t, f, n, done) && !Complete(done, |f.pixels|) && k < |f.pixels|
    ensures Draining(Step(t, Consume(k)), f, n, done + {k}) && OnlyReads(t, Step(t, Consume(k)))
  {
    hide Sound, Complete, Area, Frame.Fits;
    SlotReads(t, f, n);
    PackedRowsAreDense(k, f.width);
    StepKeepsSound(t, Consume(k));
  }

  lemma LastLoaded(t: State, f: Frame, n: nat, done: set<nat>)
    requires Draining(t, f, n, done) && Complete(done, |f.pixels|)
    ensures Delivers(t, Step(t, Consume(0)), f, n)
  {
    hide ProducerInv, ReadInv, AgeInv, DeliveryInv, WakeInv, WholeInv, Area, Frame.Fits;
    assert t.out == f.pixels;
  }

  lemma {:induction false} BytesLoaded(t: State, f: Frame, n: nat, done: set<nat>, order: seq<nat>)
    requires Draining(t, f, n, done) && Rest(order, done, |f.pixels|)
    ensures Delivers(t, Run(t, Loads(order)), f, n)
    decreases |order|
  {
    hide Step, Draining, Rest, Complete, Run;
    if order == [] {
      NothingRests(done, |f.pixels|);
      LastLoaded(t, f, n, done);
      OneStep(t, Consume(0), []);
      assert [Consume(0)] + [] == [Consume(0)];
      assert Run(Step(t, Consume(0)), []) == Step(t, Consume(0)) by { NoStep(Step(t, Consume(0))); }
    } else {
      RestStep(order, done, |f.pixels|);
      ByteLoaded(t, f, n, done, order[0]);
      OneStep(t, Consume(order[0]), Loads(order[1..]));
      BytesLoaded(Step(t, Consume(order[0])), f, n, done + {order[0]}, order[1..]);
    }
  }

  lemma NoStep(s: State)
    ensures Run(s, []) == s
  {
  }

  /** A header load on an attempt that nobody disturbs; `next` is the one after it. */
  lemma HeaderLoad(s: State, f: Frame, n: nat, next: Load)
    requires Reads(s, f, n)
    requires var q := s.slots[s.consumer.slot].stamp;
             match s.consumer.next
             case Try => s.consumer.tries < 3 && next == GetWidth(q)
             case GetWidth(seq1) => seq1 == q && next == GetHeight(q, f.width)
             case GetHeight(seq1, w) => seq1 == q && w == f.width && next == GetPitch(q, w, f.height)
             case GetPitch(seq1, w, h) =>
               seq1 == q && w == f.width && h == f.height && next == GetNumber(q, w, h, f.width * 4)
             case _ => false
    ensures var t := Step(s, Consume(0));
            Reads(t, f, n) && OnlyReads(s, t) && t.consumer == s.consumer.(next := next) && t.out == s.out
  {
    hide Sound, Complete, Area, Frame.Fits;
    SlotReads(s, f, n);
    StepKeepsSound(s, Consume(0));
  }

  lemma NumberLoad(s: State, f: Frame, n: nat)
    requires Reads(s, f, n) && !f.Empty()
    requires s.consumer.next == GetNumber(s.slots[s.consumer.slot].stamp, f.width, f.height, f.width * 4)
    ensures Draining(Step(s, Consume(0)), f, n, {}) && OnlyReads(s, Step(s, Consume(0)))
  {
    hide Sound, Complete;
    SlotReads(s, f, n);
    StepKeepsSound(s, Consume(0));
  }

  /** One attempt of next_frame. */
  function Attempt(order: seq<nat>): seq<Choice> {
    [Consume(0), Consume(0), Consume(0), Consume(0), Consume(0)] + Loads(order)
  }

  /** Any of the three attempts delivers, unless it is disturbed. */
  lemma AttemptDelivers(s: State, f: Frame, n: nat, order: seq<nat>)
    requires Reads(s, f, n) && !f.Empty() && s.consumer.next.Try? && s.consumer.tries < 3 && EachOnce(order, |f.pixels|)
    ensures Delivers(s, Run(s, Attempt(order)), f, n)
  {
    hide Step, Sound, Draining, Rest, Run;
    HeaderLoads(s, f, n);
    var t := FourOn(s);
    NumberLoad(t, f, n);
    BytesLoaded(Step(t, Consume(0)), f, n, {}, order);
    FiveSteps(s, Consume(0), Loads(order));
  }

  function FourOn(s: State): State {
    var c := Consume(0);
    Step(Step(Step(Step(s, c), c), c), c)
  }

  /** The header up to the frame number. */
  lemma HeaderLoads(s: State, f: Frame, n: nat)
    requires Reads(s, f, n) && s.consumer.next.Try? && s.consumer.tries < 3
    ensures var t := FourOn(s);
            && Reads(t, f, n) && OnlyReads(s, t)
            && t.consumer.next == GetNumber(t.slots[t.consumer.slot].stamp, f.width, f.height, f.width * 4)
  {
    hide Step, Sound;
    var c, q := Consume(0), s.slots[s.consumer.slot].stamp;
    var s1, s2 := Step(s, c), Step(Step(s, c), c);
    HeaderLoad(s, f, n, GetWidth(q));
    HeaderLoad(s1, f, n, GetHeight(q, f.width));
    HeaderLoad(s2, f, n, GetPitch(q, f.width, f.height));
    HeaderLoad(Step(s2, c), f, n, GetNumber(q, f.width, f.height, f.width * 4));
  }

  lemma FiveSteps(s: State, c: Choice, more: seq<Choice>)
    ensures Run(s, [c, c, c, c, c] + more) == Run(Step(Step(Step(Step(Step(s, c), c), c), c), c), more)
  {
    hide Step, Run;
    var s1, s2 := Step(s, c), Step(Step(s, c), c);
    var s3, s4 := Step(s2, c), Step(Step(s2, c), c);
    assert [c, c, c, c, c] + more == [c] + ([c] + ([c] + ([c] + ([c] + more))));
    OneStep(s, c, [c] + ([c] + ([c] + ([c] + more))));
    OneStep(s1, c, [c] + ([c] + ([c] + more)));
    OneStep(s2, c, [c] + ([c] + more));
    OneStep(s3, c, [c] + more);
    OneStep(s4, c, more);
  }

  /** The wait takes the event and the sample finds the newest frame. */
  lemma WakesUp(s: State)
    requires Sound(s) && s.producer.Resting? && s.consumer.Waiting? && s.event && s.calls != [] && s.last != |s.calls|
    ensures var t := Step(Step(s, Consume(0)), Consume(0));
            && Reads(t, s.calls[|s.calls| - 1], |s.calls|) && t.consumer.next.Try? && t.consumer.tries == 0
            && t == s.(event := false, consumer := t.consumer)
  {
    StepKeepsSound(s, Consume(0));
    StepKeepsSound(Step(s, Consume(0)), Consume(0));
    hide ReadInv, AgeInv, DeliveryInv, WakeInv, WholeInv, Holds, Area, Frame.Fits;
  }

  /** The newest frame has pixels and is not the one delivered last. */
  predicate Due(s: State) {
    s.calls != [] && !s.calls[|s.calls| - 1].Empty() && s.last != |s.calls|
  }

  /** One next_frame call: the wait, the sample and a first attempt that succeeds. */
  function NextFrame(order: seq<nat>): seq<Choice> {
    [Consume(0), Consume(0)] + Attempt(order)
  }

  lemma CallDelivers(s: State, order: seq<nat>)
    requires Sound(s) && s.producer.Resting? && s.consumer.Waiting? && s.event && Due(s)
    requires EachOnce(order, |s.calls[|s.calls| - 1].pixels|)
    ensures Delivers(s, Run(s, NextFrame(order)), s.calls[|s.calls| - 1], |s.calls|)
  {
    hide Step, Reads, Sound, Rest, Run, Attempt;
    var one := Step(s, Consume(0));
    WakesUp(s);
    AttemptDelivers(Step(one, Consume(0)), s.calls[|s.calls| - 1], |s.calls|, order);
    assert NextFrame(order) == [Consume(0)] + ([Consume(0)] + Attempt(order));
    OneStep(s, Consume(0), [Consume(0)] + Attempt(order));
    OneStep(one, Consume(0), Attempt(order));
  }

  // ---------------------------------------------------------------- main results

  /** From every reachable state in which the producer rests, the consumer waits, the
      event is set and the newest frame is due, consumer steps alone deliver it: its
      number, its size and every byte. */
  lemma SetEventDelivers(schedule: seq<Choice>, order: seq<nat>)
    requires var s := Exec(schedule); s.producer.Resting? && s.consumer.Waiting? && s.event && Due(s)
    requires var s := Exec(schedule); EachOnce(order, |s.calls[|s.calls| - 1].pixels|)
    ensures var s, t := Exec(schedule), Exec(schedule + NextFrame(order));
            Delivers(s, t, s.calls[|s.calls| - 1], |s.calls|)
  {
    hide Exec, Run, Sound, Rest, NextFrame;
    ReachableIsSound(schedule);
    CallDelivers(Exec(schedule), order);
    ExecThenRun(schedule, NextFrame(order));
  }

  /** A call that lost an attempt or two to the producer delivers with the next one, once
      the producer rests: the frame its slot then holds. */
  lemma RetryDelivers(schedule: seq<Choice>, order: seq<nat>, n: nat)
    requires var s := Exec(schedule);
             && s.producer.Resting? && s.consumer.Reading? && s.consumer.next.Try? && s.consumer.tries < 3
             && s.consumer.slot < |s.slots| && n == s.slots[s.consumer.slot].number && n != s.last
             && 0 < n <= |s.calls| && !s.calls[n - 1].Empty()
    requires EachOnce(order, |Exec(schedule).calls[n - 1].pixels|)
    ensures var s := Exec(schedule); Delivers(s, Exec(schedule + Attempt(order)), s.calls[n - 1], n)
  {
    hide Exec, Run, Inv, Rest, Attempt;
    ReachableIsSound(schedule);
    SlotInRing(Exec(schedule));
    AttemptDelivers(Exec(schedule), Exec(schedule).calls[n - 1], n, order);
    ExecThenRun(schedule, Attempt(order));
  }

  lemma SlotInRing(s: State)
    requires Sound(s) && s.consumer.Reading?
    ensures s.consumer.slot < SLOTS == |s.slots|
  {
  }

  /** The first seven loads of a call: the wait, the sample and the header. */
  function ToHeader(): seq<Choice> {
    [Consume(0), Consume(0)] + ([Consume(0), Consume(0), Consume(0), Consume(0), Consume(0)] + [])
  }

  /** A newest frame without pixels is refused as a geometry error, and nothing is
      delivered for it. */
  lemma EmptyFrameIsRefused(schedule: seq<Choice>)
    requires var s := Exec(schedule);
             && s.producer.Resting? && s.consumer.Waiting? && s.event
             && s.calls != [] && s.calls[|s.calls| - 1].Empty() && s.last != |s.calls|
    ensures var s, t := Exec(schedule), Exec(schedule + ToHeader());
            t.consumer.Waiting? && t.outcome.BadGeometry? && t.delivered == s.delivered && t.last == s.last
  {
    hide Exec, Run, Sound, Step, Inv, Frame.Empty, Frame.Fits;
    var s, c := Exec(schedule), Consume(0);
    ReachableIsSound(schedule);
    WakesUp(s);
    var woken := Step(Step(s, c), c);
    HeaderLoads(woken, s.calls[|s.calls| - 1], |s.calls|);
    NumberRefused(FourOn(woken), s.calls[|s.calls| - 1], |s.calls|);
    OneStep(s, c, [c] + ([c, c, c, c, c] + []));
    OneStep(Step(s, c), c, [c, c, c, c, c] + []);
    FiveSteps(woken, c, []);
    NoStep(Step(FourOn(woken), c));
    assert ToHeader() == [c] + ([c] + ([c, c, c, c, c] + []));
    ExecThenRun(schedule, ToHeader());
  }

  lemma NumberRefused(s: State, f: Frame, n: nat)
    requires Reads(s, f, n) && f.Empty()
    requires s.consumer.next == GetNumber(s.slots[s.consumer.slot].stamp, f.width, f.height, f.width * 4)
    ensures var t := Step(s, Consume(0));
            t.consumer.Waiting? && t.outcome.BadGeometry? && t.delivered == s.delivered && t.last == s.last
  {
    hide Sound;
  }

  /** Header readings begun in the present call, or in the last one. */
  function Attempts(schedule: seq<Choice>): nat {
    if schedule == [] then 0
    else
      var before, c := schedule[..|schedule| - 1], schedule[|schedule| - 1];
      AttemptsAfter(Attempts(before), Exec(before), c, Exec(schedule))
  }

  function AttemptsAfter(n: nat, s: State, c: Choice, t: State): nat {
    if c.Consume? && s.consumer.Woken? then 0
    else if c.Consume? && s.consumer.Reading? && s.consumer.next.Try? && t.consumer.Reading? && t.consumer.next.GetWidth?
    then n + 1
    else n
  }

  predicate Counts(c: Consumer, n: nat) {
    n <= 3 && (c.Reading? ==> if c.next.Try? then n <= c.tries <= 3 else n <= c.tries + 1 <= 3)
  }

  lemma AttemptCounts(s: State, c: Choice, n: nat)
    requires Counts(s.consumer, n)
    ensures Counts(Step(s, c).consumer, AttemptsAfter(n, s, c, Step(s, c)))
  {
    hide Complete, Area, Frame.Fits, Implausible;
  }

  /** However the producer disturbs it, a call reads the header three times at most. */
  lemma {:induction false} AtMostThreeAttempts(schedule: seq<Choice>)
    ensures Attempts(schedule) <= 3 && Counts(Exec(schedule).consumer, Attempts(schedule))
  {
    hide Step, AttemptsAfter, Counts;
    if schedule == [] {
      assert Counts(Exec([]).consumer, 0) by { WaitingCounts(); }
    } else {
      AtMostThreeAttempts(schedule[..|schedule| - 1]);
      AttemptCounts(Exec(schedule[..|schedule| - 1]), schedule[|schedule| - 1], Attempts(schedule[..|schedule| - 1]));
    }
    CountsBound(Exec(schedule).consumer, Attempts(schedule));
  }

  lemma WaitingCounts()
    ensures Counts(Exec([]).consumer, 0)
  {
  }

  lemma CountsBound(c: Consumer, n: nat)
    requires Counts(c, n)
    ensures n <= 3
  {
  }

  /** So whenever both sides rest, one more next_frame call leaves nothing due. */
  lemma RestLeavesNothingDue(schedule: seq<Choice>, order: seq<nat>)
    requires var s := Exec(schedule); s.producer.Resting? && s.consumer.Waiting? && Due(s)
    requires var s := Exec(schedule); EachOnce(order, |s.calls[|s.calls| - 1].pixels|)
    ensures !Due(Exec(schedule + NextFrame(order)))
  {
    hide Exec, Rest, NextFrame;
    NoLostWakeup(schedule);
    SetEventDelivers(schedule, order);
  }

  /** A frame that fits is accepted by a resting producer, and once its stores are done
      the waiting consumer's next call delivers it, as the next number: bytes may be
      stored and loaded in any order. */
  lemma PublishedIsDelivered(schedule: seq<Choice>, f: Frame, stored: seq<nat>, loaded: seq<nat>)
    requires Exec(schedule).producer.Resting? && Exec(schedule).consumer.Waiting?
    requires f.Fits() && !f.Empty() && EachOnce(stored, |f.pixels|) && EachOnce(loaded, |f.pixels|)
    ensures var s, t := Exec(schedule), Exec(schedule + [Call(f), Produce(0)] + Stores(stored) + NextFrame(loaded));
            && t.calls == s.calls + [f]
            && t.consumer.Waiting? && t.outcome == Delivered(f.width, f.height, |s.calls| + 1) && t.out == f.pixels
            && t.delivered == s.delivered + [|s.calls| + 1]
  {
    hide Exec, Run, Sound, Rest, NextFrame, Stores, Frame.Fits, Frame.Empty;
    var s, publish := Exec(schedule), [Call(f), Produce(0)] + Stores(stored);
    ReachableIsSound(schedule);
    CallIsPublished(s, f, stored);
    var t := Run(s, publish);
    assert Due(t) && t.calls[|t.calls| - 1] == f by { LastIsOld(s, f, t); }
    CallDelivers(t, loaded);
    assert schedule + [Call(f), Produce(0)] + Stores(stored) + NextFrame(loaded)
           == (schedule + publish) + NextFrame(loaded);
    ExecThenRun(schedule, publish);
    ExecThenRun(schedule + publish, NextFrame(loaded));
  }

  lemma LastIsOld(s: State, f: Frame, t: State)
    requires Sound(s) && !f.Empty() && t.calls == s.calls + [f] && t.last == s.last
    ensures Due(t) && t.calls[|t.calls| - 1] == f
  {
    hide Inv;
  }
}
