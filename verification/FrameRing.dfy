/**
 The shared-memory frame ring between the display driver (one producer) and the
 service (one consumer): a triple buffer whose slots are guarded by a seqlock,
 plus an auto-reset event.

 Every store and load that touches shared memory is one step. A schedule is any
 list of choices, so a statement about `Exec(schedule)` is a statement about
 every interleaving. Memory is sequentially consistent and the seqlock counter
 (`stamp`, the source's `seq`) does not wrap.
 */
module FrameRing {
  import opened Bytes

  const SLOTS := 3
  const MAX_WIDTH := 4096
  const MAX_HEIGHT := 2304
  const PAYLOAD_BYTES := MAX_WIDTH * MAX_HEIGHT * 4
  const MAX_PITCH := MAX_WIDTH * 4
  const ATTEMPTS := 3
  const NO_SLOT := 0xFFFF_FFFF

  /** Bytes of a packed w x h image; AreaIsProduct gives the closed form. */
  function Area(w: nat, h: nat): nat {
    if h == 0 then 0 else w * 4 + Area(w, h - 1)
  }

  /** One PublishFrame call, its source rows packed (CopyRows is the row loop). */
  datatype Frame = Frame(width: nat, height: nat, timestamp: nat, pixels: seq<Byte>) {
    predicate Fits() {
      width <= MAX_WIDTH && height <= MAX_HEIGHT && |pixels| == Area(width, height)
    }

    predicate Empty() {
      width == 0 || height == 0
    }
  }

  datatype Slot = Slot(stamp: nat, width: nat, height: nat, pitch: nat, timestamp: nat, number: nat,
                       payload: seq<Byte>)

  /** The next store of PublishFrame. */
  datatype Store =
    | Open
    | Copy(done: set<nat>)
    | PutWidth | PutHeight | PutPitch | PutTime | PutNumber
    | Close | Name | Signal

  datatype Producer = Resting | Publishing(f: Frame, slot: nat, next: Store)

  /** The next load of next_frame. */
  datatype Load =
    | Try
    | GetWidth(seq1: nat)
    | GetHeight(seq1: nat, w: nat)
    | GetPitch(seq1: nat, w: nat, h: nat)
    | GetNumber(seq1: nat, w: nat, h: nat, pitch: nat)
    | Drain(seq1: nat, w: nat, h: nat, pitch: nat, number: nat, done: set<nat>)

  /** `named` is how many frames `latest_slot` had named when it was sampled. */
  datatype Consumer = Waiting | Woken | Reading(slot: nat, named: nat, tries: nat, next: Load)

  datatype Outcome = NoFrame | BadGeometry | Delivered(width: nat, height: nat, number: nat)

  /** `calls` (every accepted PublishFrame call) and `delivered` (every frame
      number next_frame returned) record history; no step depends on them. */
  datatype State = State(slots: seq<Slot>, latest: nat, event: bool, frameNumber: nat,
                         producer: Producer, consumer: Consumer, out: seq<Byte>, last: nat,
                         outcome: Outcome, calls: seq<Frame>, delivered: seq<nat>)

  datatype Choice = Call(f: Frame) | Produce(k: nat) | Consume(k: nat)

  function Initial(): State {
    var empty := Slot(0, 0, 0, 0, 0, 0, seq(PAYLOAD_BYTES, _ => 0 as Byte));
    State([empty, empty, empty], NO_SLOT, false, 0, Resting, Waiting, [], 0, NoFrame, [], [])
  }

  predicate Complete(done: set<nat>, size: nat) {
    forall k :: 0 <= k < size ==> k in done
  }

  // ------------------------------------------------------------------ producer

  /** Entry of PublishFrame: the size guard, then the load of `latest_slot`. */
  function Enter(s: State, f: Frame): State {
    if s.producer.Publishing? || !f.Fits() then s
    else
      var slot := if s.latest == NO_SLOT then 0 else (s.latest + 1) % SLOTS;
      s.(producer := Publishing(f, slot, Open), calls := s.calls + [f])
  }

  /** One store of PublishFrame. `memcpy` promises no order, so a copying step
      may store any byte of the image. */
  function ProducerStep(s: State, k: nat): State {
    if s.producer.Resting? || s.producer.slot >= |s.slots| then s
    else
      var Publishing(f, i, next) := s.producer;
      var sh := s.slots[i];
      match next
      case Open => Stored(s, sh.(stamp := sh.stamp + 1), Copy({}))
      case Copy(done) =>
        if Complete(done, |f.pixels|) then Stored(s, sh, PutWidth)
        else if k < |f.pixels| && k < |sh.payload| then
          Stored(s, sh.(payload := sh.payload[k := f.pixels[k]]), Copy(done + {k}))
        else s
      case PutWidth => Stored(s, sh.(width := f.width), PutHeight)
      case PutHeight => Stored(s, sh.(height := f.height), PutPitch)
      case PutPitch => Stored(s, sh.(pitch := f.width * 4), PutTime)
      case PutTime => Stored(s, sh.(timestamp := f.timestamp), PutNumber)
      case PutNumber =>
        var n := s.frameNumber + 1;
        Stored(s, sh.(number := n), Close).(frameNumber := n)
      case Close => Stored(s, sh.(stamp := sh.stamp + 1), Name)
      case Name => Stored(s, sh, Signal).(latest := i)
      case Signal => s.(event := true, producer := Resting)
  }

  function Stored(s: State, sh: Slot, next: Store): State
    requires s.producer.Publishing? && s.producer.slot < |s.slots|
  {
    s.(slots := s.slots[s.producer.slot := sh], producer := s.producer.(next := next))
  }

  // ------------------------------------------------------------------ consumer

  /** Offset, in an image with `pitch` bytes a row, of byte `k` of the packed image. */
  function PitchedOffset(k: nat, w: nat, pitch: nat): nat
    requires w > 0
  {
    if k < w * 4 then k else pitch + PitchedOffset(k - w * 4, w, pitch)
  }

  function Return(s: State, o: Outcome): State {
    s.(consumer := Waiting, outcome := o)
  }

  predicate Implausible(w: nat, h: nat, pitch: nat) {
    w == 0 || h == 0 || w > MAX_WIDTH || h > MAX_HEIGHT || pitch < w * 4
  }

  /** The byte at payload offset `o`. A load outside the slot's payload yields 0
      here; ReadsStayInPayload shows that none occurs. */
  function LoadByte(sh: Slot, o: nat): Byte {
    if o < |sh.payload| then sh.payload[o] else 0
  }

  /** One load of next_frame, with the local computation up to the next one. */
  function ConsumerStep(s: State, k: nat): State {
    match s.consumer
    case Waiting =>
      if s.event then s.(event := false, consumer := Woken) else Return(s, NoFrame)
    case Woken =>
      if s.latest >= SLOTS then Return(s, NoFrame)
      else s.(consumer := Reading(s.latest, Named(s), 0, Try))
    case Reading(i, n, t, next) =>
      if i >= |s.slots| then s else ReadStep(s, s.slots[i], k)
  }

  function ReadStep(s: State, sh: Slot, k: nat): State
    requires s.consumer.Reading?
  {
    var c := s.consumer;
    match c.next
    case Try =>
      if c.tries == ATTEMPTS then Return(s, NoFrame)
      else if sh.stamp % 2 != 0 then Retry(s)
      else s.(consumer := c.(next := GetWidth(sh.stamp)))
    case GetWidth(q) => s.(consumer := c.(next := GetHeight(q, sh.width)))
    case GetHeight(q, w) => s.(consumer := c.(next := GetPitch(q, w, sh.height)))
    case GetPitch(q, w, h) => s.(consumer := c.(next := GetNumber(q, w, h, sh.pitch)))
    case GetNumber(q, w, h, p) =>
      if sh.number == s.last then Return(s, NoFrame)
      else if Implausible(w, h, p) then Return(s, BadGeometry)
      else s.(out := Resized(s.out, Area(w, h)), consumer := c.(next := Drain(q, w, h, p, sh.number, {})))
    case Drain(q, w, h, p, number, done) =>
      if !Complete(done, |s.out|) then
        if k < |s.out| && w > 0 then
          s.(out := s.out[k := LoadByte(sh, PitchedOffset(k, w, p))],
             consumer := c.(next := Drain(q, w, h, p, number, done + {k})))
        else s
      else if sh.stamp == q then
        Return(s, Delivered(w, h, number)).(last := number, delivered := s.delivered + [number])
      else Retry(s)
  }

  function Retry(s: State): State
    requires s.consumer.Reading?
  {
    s.(consumer := s.consumer.(tries := s.consumer.tries + 1, next := Try))
  }

  function Step(s: State, c: Choice): State {
    match c
    case Call(f) => Enter(s, f)
    case Produce(k) => ProducerStep(s, k)
    case Consume(k) => ConsumerStep(s, k)
  }

  function Exec(schedule: seq<Choice>): State {
    if schedule == [] then Initial()
    else Step(Exec(schedule[..|schedule| - 1]), schedule[|schedule| - 1])
  }

  // ----------------------------------------------------------------- invariant

  /** How many accepted calls `latest_slot` has named so far. */
  function Named(s: State): nat {
    if s.producer.Resting? || s.producer.next.Signal? || s.calls == [] then |s.calls| else |s.calls| - 1
  }

  predicate Writing(p: Producer, i: nat) {
    p.Publishing? && p.slot == i && !p.next.Open? && !p.next.Name? && !p.next.Signal?
  }

  /** Slot `i` holds a whole published frame, or has never been published to. */
  ghost predicate Holds(sh: Slot, i: nat, calls: seq<Frame>) {
    sh.number == 0 || (sh.number <= |calls| && HoldsFrame(sh, calls[sh.number - 1]))
  }

  ghost predicate HoldsFrame(sh: Slot, f: Frame) {
    && sh.width == f.width && sh.height == f.height && sh.pitch == f.width * 4 && sh.timestamp == f.timestamp
    && f.pixels <= sh.payload
  }

  ghost predicate Shape(s: State) {
    && |s.slots| == SLOTS
    && (forall i :: 0 <= i < SLOTS ==>
          && |s.slots[i].payload| == PAYLOAD_BYTES
          && s.slots[i].pitch <= MAX_PITCH
          && s.slots[i].number <= s.frameNumber
          && (s.slots[i].stamp % 2 == 1 <==> Writing(s.producer, i)))
    && (forall n :: 0 <= n < |s.calls| ==> s.calls[n].Fits())
    && s.latest == (if Named(s) == 0 then NO_SLOT else (Named(s) - 1) % SLOTS)
  }

  /** What the producer has stored so far, by program counter. */
  ghost predicate ProducerInv(s: State)
    requires Shape(s)
  {
    && (forall i :: 0 <= i < SLOTS && !Writing(s.producer, i) ==> Holds(s.slots[i], i, s.calls))
    && (Named(s) > 0 ==> s.slots[(Named(s) - 1) % SLOTS].number == Named(s))
    && (s.producer.Resting? ==> s.frameNumber == |s.calls|)
    && (s.producer.Publishing? ==>
          && |s.calls| > 0
          && s.producer.slot == (|s.calls| - 1) % SLOTS
          && s.producer.f == s.calls[|s.calls| - 1]
          && s.frameNumber == (if s.producer.next.Close? || s.producer.next.Name? || s.producer.next.Signal?
                               then |s.calls| else |s.calls| - 1)
          && WrittenSoFar(s.slots[s.producer.slot], s.producer.f, s.producer.next, |s.calls|))
  }

  ghost predicate WrittenSoFar(sh: Slot, f: Frame, next: Store, n: nat) {
    match next
    case Open => true
    case Copy(done) => forall k :: 0 <= k < |f.pixels| && k < |sh.payload| && k in done ==> sh.payload[k] == f.pixels[k]
    case PutWidth => f.pixels <= sh.payload
    case PutHeight => f.pixels <= sh.payload && sh.width == f.width
    case PutPitch => f.pixels <= sh.payload && sh.width == f.width && sh.height == f.height
    case PutTime => f.pixels <= sh.payload && sh.width == f.width && sh.height == f.height && sh.pitch == f.width * 4
    case PutNumber => HoldsFrame(sh, f)
    case Close => HoldsFrame(sh, f) && sh.number == n
    case Name => HoldsFrame(sh, f) && sh.number == n
    case Signal => HoldsFrame(sh, f) && sh.number == n
  }

  /** The consumer read `seq1` and the slot still carries it. */
  predicate Undisturbed(c: Consumer, sh: Slot) {
    c.Reading? && !c.next.Try? && sh.stamp == c.next.seq1
  }

  /** What the consumer has read so far is what an undisturbed slot holds. */
  ghost predicate ReadInv(s: State)
    requires Shape(s)
  {
    s.consumer.Reading? ==>
      && s.consumer.slot < SLOTS
      && Started(s.consumer.next, s.slots[s.consumer.slot], s.out, s.last)
      && (Undisturbed(s.consumer, s.slots[s.consumer.slot]) ==>
            ReadsMatch(s.consumer.next, s.slots[s.consumer.slot], s.out))
  }

  predicate Started(next: Load, sh: Slot, out: seq<Byte>, last: nat) {
    && (!next.Try? ==> next.seq1 % 2 == 0 && next.seq1 <= sh.stamp)
    && (next.GetNumber? || next.Drain? ==> next.pitch <= MAX_PITCH)
    && (next.Drain? ==>
          !Implausible(next.w, next.h, next.pitch) && next.number != last && |out| == Area(next.w, next.h))
  }

  ghost predicate ReadsMatch(next: Load, sh: Slot, out: seq<Byte>) {
    match next
    case Try => true
    case GetWidth(_) => true
    case GetHeight(_, w) => w == sh.width
    case GetPitch(_, w, h) => w == sh.width && h == sh.height
    case GetNumber(_, w, h, p) => w == sh.width && h == sh.height && p == sh.pitch
    case Drain(_, w, h, p, number, done) =>
      && w == sh.width && h == sh.height && p == sh.pitch && number == sh.number
      && forall k :: 0 <= k < |out| && k < |sh.payload| && k in done ==> out[k] == sh.payload[k]
  }

  /** Freshness: what `named`, `last` and the ring say about each other. */
  ghost predicate AgeInv(s: State)
    requires Shape(s)
  {
    var c := s.consumer;
    && s.last <= Named(s) + 1
    && (Named(s) == 0 ==> s.last == 0)
    && (c.Reading? ==>
          && 0 < c.named <= Named(s)
          && c.slot == (c.named - 1) % SLOTS
          && s.last <= c.named + 1
          && c.named <= s.slots[c.slot].number)
  }

  ghost predicate DeliveryInv(s: State) {
    && (s.delivered == [] ==> s.last == 0)
    && (s.delivered != [] ==> s.delivered[|s.delivered| - 1] == s.last)
    && Recent(s.delivered)
  }

  /** Consecutive frame numbers differ and never fall by more than one. */
  ghost predicate Recent(delivered: seq<nat>) {
    forall i :: 0 < i < |delivered| ==>
      delivered[i] != delivered[i - 1] && delivered[i - 1] <= delivered[i] + 1
  }

  predicate Armed(s: State) {
    s.event || (s.producer.Publishing? && s.producer.next.Signal?)
  }

  /** No lost wake-up, by the position of both processes. */
  ghost predicate WakeInv(s: State)
    requires Shape(s)
  {
    var c := s.consumer;
    && (c.Waiting? ==> Armed(s) || UpToDate(s))
    && (c.Reading? && c.named < Named(s) ==> Armed(s))
    && (c.Reading? && c.named == Named(s) && c.slot < SLOTS ==>
          c.tries == 0 && (c.next.Try? || Undisturbed(c, s.slots[c.slot])))
  }

  /** The newest named frame is the one returned last, or it has no pixels. */
  ghost predicate UpToDate(s: State) {
    || s.last == Named(s)
    || (0 < Named(s) <= |s.calls| && s.calls[Named(s) - 1].Empty())
  }

  /** The image in `out` is one published frame, whole. */
  ghost predicate WholeInv(s: State) {
    s.consumer.Waiting? && s.outcome.Delivered? ==>
      && s.last == s.outcome.number
      && 0 < s.last <= |s.calls|
      && s.outcome.width == s.calls[s.last - 1].width
      && s.outcome.height == s.calls[s.last - 1].height
      && s.out == s.calls[s.last - 1].pixels
  }

  ghost predicate Inv(s: State) {
    Shape(s) && ProducerInv(s) && ReadInv(s) && AgeInv(s) && DeliveryInv(s) && WakeInv(s) && WholeInv(s)
  }

  // ------------------------------------------------------------ size arithmetic

  lemma {:induction false} AreaIsProduct(w: nat, h: nat)
    ensures Area(w, h) == w * h * 4
  {
    if h > 0 {
      AreaIsProduct(w, h - 1);
      assert w * h == w * (h - 1) + w;
    }
  }

  lemma AreaFits(w: nat, h: nat)
    requires w <= MAX_WIDTH && h <= MAX_HEIGHT
    ensures Area(w, h) <= PAYLOAD_BYTES
  {
    AreaIsProduct(w, h);
    assert w * h <= MAX_WIDTH * h;
  }

  /** Row `y`, column `i` of a pitched image, as the row loops address it. */
  lemma {:induction false} PitchedOffsetOfRow(y: nat, i: nat, w: nat, pitch: nat)
    requires i < w * 4
    ensures PitchedOffset(y * (w * 4) + i, w, pitch) == y * pitch + i
  {
    if y > 0 {
      assert y * (w * 4) == (y - 1) * (w * 4) + w * 4;
      PitchedOffsetOfRow(y - 1, i, w, pitch);
    }
  }

  lemma {:induction false} PackedRowsAreDense(k: nat, w: nat)
    requires w > 0
    ensures PitchedOffset(k, w, w * 4) == k
  {
    if k >= w * 4 {
      PackedRowsAreDense(k - w * 4, w);
    }
  }

  lemma {:induction false} OffsetBound(k: nat, w: nat, h: nat, pitch: nat)
    requires w > 0 && k < Area(w, h) && w * 4 <= pitch
    ensures PitchedOffset(k, w, pitch) < h * pitch
  {
    if k >= w * 4 {
      OffsetBound(k - w * 4, w, h - 1, pitch);
      assert h * pitch == (h - 1) * pitch + pitch;
    } else {
      assert h * pitch >= pitch;
    }
  }

  lemma OffsetFits(k: nat, w: nat, h: nat, pitch: nat)
    requires !Implausible(w, h, pitch) && pitch <= MAX_PITCH && k < Area(w, h)
    ensures PitchedOffset(k, w, pitch) < PAYLOAD_BYTES
  {
    OffsetBound(k, w, h, pitch);
    assert h * pitch <= MAX_HEIGHT * pitch;
  }

  // ------------------------------------------------------------ producer's proof

  /** What one slot store does to its slot, and all it does to the rest. */
  ghost predicate SlotStore(s: State, t: State, sh: Slot)
    requires s.producer.Publishing? && s.producer.slot < |s.slots|
  {
    var was := s.slots[s.producer.slot];
    && t.producer.Publishing?
    && t == s.(slots := s.slots[s.producer.slot := sh], producer := s.producer.(next := t.producer.next),
               frameNumber := t.frameNumber)
    && s.frameNumber <= t.frameNumber
    && t.frameNumber == (if t.producer.next.Close? || t.producer.next.Name? || t.producer.next.Signal?
                         then |s.calls| else |s.calls| - 1)
    && !t.producer.next.Open? && !t.producer.next.Signal? && !s.producer.next.Signal?
    && |sh.payload| == PAYLOAD_BYTES && sh.pitch <= MAX_PITCH
    && was.number <= sh.number <= t.frameNumber
    && was.stamp <= sh.stamp && (sh.stamp % 2 == 0 ==> was.stamp < sh.stamp)
    && (sh.stamp % 2 == 1 <==> !t.producer.next.Name?)
    && WrittenSoFar(sh, s.producer.f, t.producer.next, |s.calls|)
  }

  lemma CopyEffect(s: State, k: nat)
    requires Shape(s) && ProducerInv(s) && s.producer.Publishing? && s.producer.next.Copy?
    requires ProducerStep(s, k) != s
    ensures SlotStore(s, ProducerStep(s, k), ProducerStep(s, k).slots[s.producer.slot])
  {
    var f, sh := s.producer.f, s.slots[s.producer.slot];
    AreaFits(f.width, f.height);
    if Complete(s.producer.next.done, |f.pixels|) {
      assert f.pixels == sh.payload[..|f.pixels|];
    }
  }

  lemma PitchFits(s: State)
    requires Shape(s) && ProducerInv(s) && s.producer.Publishing?
    ensures s.producer.f.width * 4 <= MAX_PITCH
  {
    assert s.producer.f.Fits();
  }

  predicate EdgeStore(next: Store) {
    next.Open? || next.PutNumber? || next.Close?
  }

  lemma EdgeStoreEffect(s: State, k: nat)
    requires Shape(s) && ProducerInv(s) && s.producer.Publishing? && EdgeStore(s.producer.next)
    ensures SlotStore(s, ProducerStep(s, k), ProducerStep(s, k).slots[s.producer.slot])
  {
    hide Holds, Complete, Area, Frame.Fits;
  }

  lemma FieldStoreEffect(s: State, k: nat)
    requires Shape(s) && ProducerInv(s) && s.producer.Publishing? && !EdgeStore(s.producer.next)
    requires !s.producer.next.Copy? && !s.producer.next.Name? && !s.producer.next.Signal?
    ensures SlotStore(s, ProducerStep(s, k), ProducerStep(s, k).slots[s.producer.slot])
  {
    hide Holds, Complete, Area, Frame.Fits;
    PitchFits(s);
  }

  lemma HeaderStoreEffect(s: State, k: nat)
    requires Shape(s) && ProducerInv(s) && s.producer.Publishing?
    requires !s.producer.next.Copy? && !s.producer.next.Name? && !s.producer.next.Signal?
    ensures SlotStore(s, ProducerStep(s, k), ProducerStep(s, k).slots[s.producer.slot])
  {
    hide ProducerInv, SlotStore, ProducerStep;
    if EdgeStore(s.producer.next) {
      EdgeStoreEffect(s, k);
    } else {
      FieldStoreEffect(s, k);
    }
  }

  lemma SlotStoreKeepsShape(s: State, t: State, sh: Slot)
    requires Shape(s) && ProducerInv(s) && s.producer.Publishing? && SlotStore(s, t, sh)
    ensures Shape(t) && ProducerInv(t) && Named(t) == Named(s)
  {
    var i := s.producer.slot;
    forall j | 0 <= j < SLOTS && !Writing(t.producer, j) ensures Holds(t.slots[j], j, t.calls) {
      assert j != i ==> Holds(s.slots[j], j, s.calls);
    }
  }

  lemma SlotStoreKeepsReads(s: State, t: State, sh: Slot)
    requires Inv(s) && s.producer.Publishing? && SlotStore(s, t, sh) && Shape(t)
    requires Named(t) == Named(s)
    ensures ReadInv(t) && AgeInv(t) && WakeInv(t)
  {
  }

  lemma SlotStoreKeepsInv(s: State, t: State, sh: Slot)
    requires Inv(s) && s.producer.Publishing? && SlotStore(s, t, sh)
    ensures Inv(t)
  {
    SlotStoreKeepsShape(s, t, sh);
    SlotStoreKeepsReads(s, t, sh);
  }

  lemma NameKeepsRing(s: State, k: nat)
    requires Inv(s) && s.producer.Publishing? && s.producer.next.Name?
    ensures var t := ProducerStep(s, k);
            && t == s.(latest := s.producer.slot, producer := s.producer.(next := Signal))
            && Shape(t) && ProducerInv(t) && Named(t) == Named(s) + 1
  {
    hide ReadInv, AgeInv, WakeInv, WholeInv, DeliveryInv, Complete, Area, Frame.Fits, HoldsFrame;
    var t := ProducerStep(s, k);
    assert t.slots == s.slots;
    forall i | 0 <= i < SLOTS
      ensures Holds(t.slots[i], i, t.calls)
    {
      assert !Writing(s.producer, i);
    }
  }

  lemma NameKeepsInv(s: State, k: nat)
    requires Inv(s) && s.producer.Publishing? && s.producer.next.Name?
    ensures Inv(ProducerStep(s, k))
  {
    hide ProducerStep, ProducerInv, Holds, Area, Frame.Fits, Started, ReadsMatch;
    NameKeepsRing(s, k);
  }

  lemma SignalKeepsInv(s: State, k: nat)
    requires Inv(s) && s.producer.Publishing? && s.producer.next.Signal?
    ensures Inv(ProducerStep(s, k))
  {
  }

  lemma EnteredHolds(s: State, f: Frame, i: nat)
    requires Inv(s) && Enter(s, f) != s && i < SLOTS
    ensures Holds(s.slots[i], i, s.calls + [f]) && !Writing(Enter(s, f).producer, i)
  {
    hide ReadInv, AgeInv, WakeInv, WholeInv, DeliveryInv, HoldsFrame, WrittenSoFar, Area;
    assert Holds(s.slots[i], i, s.calls);
  }

  lemma EnterKeepsRing(s: State, f: Frame)
    requires Inv(s) && Enter(s, f) != s
    ensures Shape(Enter(s, f)) && ProducerInv(Enter(s, f)) && Named(Enter(s, f)) == Named(s)
  {
    hide ReadInv, AgeInv, WakeInv, WholeInv, DeliveryInv, HoldsFrame, Holds, Area;
    forall i | 0 <= i < SLOTS
      ensures Holds(s.slots[i], i, s.calls + [f]) && !Writing(Enter(s, f).producer, i)
    {
      EnteredHolds(s, f, i);
    }
  }

  lemma EnterKeepsInv(s: State, f: Frame)
    requires Inv(s)
    ensures Inv(Enter(s, f))
  {
    if Enter(s, f) != s {
      EnterKeepsRing(s, f);
    }
  }

  lemma ProducerKeepsInv(s: State, k: nat)
    requires Inv(s)
    ensures Inv(ProducerStep(s, k))
  {
    var t := ProducerStep(s, k);
    if t != s {
      if s.producer.next.Name? {
        NameKeepsInv(s, k);
      } else if s.producer.next.Signal? {
        SignalKeepsInv(s, k);
      } else {
        if s.producer.next.Copy? { CopyEffect(s, k); } else { HeaderStoreEffect(s, k); }
        SlotStoreKeepsInv(s, t, t.slots[s.producer.slot]);
      }
    }
  }

  // ------------------------------------------------------------ consumer's proof

  /** One load that leaves next_frame running. */
  ghost predicate ReadMove(s: State, t: State)
    requires s.consumer.Reading? && s.consumer.slot < |s.slots|
  {
    var c, sh := t.consumer, s.slots[s.consumer.slot];
    && c.Reading?
    && t == s.(out := t.out, consumer := s.consumer.(tries := c.tries, next := c.next))
    && Started(c.next, sh, t.out, s.last)
    && (Undisturbed(c, sh) ==> ReadsMatch(c.next, sh, t.out))
    && (c.named == Named(s) ==> c.tries == 0 && Undisturbed(c, sh))
  }

  /** A return of next_frame, with or without a frame. */
  ghost predicate ReturnMove(s: State, t: State)
    requires s.consumer.Reading?
  {
    && t == s.(consumer := Waiting, outcome := t.outcome, last := t.last, delivered := t.delivered)
    && (s.consumer.named == Named(s) ==> UpToDate(t))
    && (if t.outcome.Delivered? then
          && t.last != s.last && s.consumer.named <= t.last <= |s.calls|
          && t.delivered == s.delivered + [t.last]
          && WholeInv(t)
        else t.last == s.last && t.delivered == s.delivered)
  }

  /** The consumer writes nothing the ring's own invariants speak of. */
  lemma RingUntouched(s: State, t: State)
    requires Inv(s)
    requires t.slots == s.slots && t.latest == s.latest && t.producer == s.producer
    requires t.frameNumber == s.frameNumber && t.calls == s.calls
    ensures Shape(t) && ProducerInv(t) && Named(t) == Named(s)
  {
  }

  lemma ReadMoveKeepsInv(s: State, t: State)
    requires Inv(s) && s.consumer.Reading? && ReadMove(s, t)
    ensures Inv(t)
  {
    RingUntouched(s, t);
  }

  lemma ReturnMoveKeepsInv(s: State, t: State)
    requires Inv(s) && s.consumer.Reading? && ReturnMove(s, t)
    ensures Inv(t)
  {
    RingUntouched(s, t);
  }

  lemma WaitKeepsInv(s: State, k: nat)
    requires Inv(s) && s.consumer.Waiting?
    ensures Inv(ConsumerStep(s, k))
  {
    RingUntouched(s, ConsumerStep(s, k));
  }

  lemma SampleKeepsInv(s: State, k: nat)
    requires Inv(s) && s.consumer.Woken?
    ensures Inv(ConsumerStep(s, k))
  {
    RingUntouched(s, ConsumerStep(s, k));
  }

  /** An undisturbed slot is the one frame its number names. */
  lemma UndisturbedSlotHolds(s: State)
    requires Inv(s) && s.consumer.Reading?
    requires Undisturbed(s.consumer, s.slots[s.consumer.slot])
    ensures var sh := s.slots[s.consumer.slot];
            && s.consumer.named <= sh.number <= |s.calls|
            && HoldsFrame(sh, s.calls[sh.number - 1]) && s.calls[sh.number - 1].Fits()
            && (s.consumer.named == Named(s) ==> sh.number == Named(s))
  {
    assert Holds(s.slots[s.consumer.slot], s.consumer.slot, s.calls);
  }

  /** A slot that `latest_slot` still names is not being rewritten. */
  lemma NamedSlotIsStill(s: State)
    requires Inv(s) && s.consumer.Reading? && s.consumer.named == Named(s)
    ensures s.slots[s.consumer.slot].stamp % 2 == 0 && s.consumer.tries == 0
  {
  }

  lemma TryEffect(s: State, k: nat)
    requires Inv(s) && s.consumer.Reading? && s.consumer.next.Try?
    ensures var t := ReadStep(s, s.slots[s.consumer.slot], k); ReadMove(s, t) || ReturnMove(s, t)
  {
    if s.consumer.named == Named(s) {
      NamedSlotIsStill(s);
    }
  }

  lemma HeaderLoadEffect(s: State, k: nat)
    requires Inv(s) && s.consumer.Reading?
    requires s.consumer.next.GetWidth? || s.consumer.next.GetHeight? || s.consumer.next.GetPitch?
    ensures ReadMove(s, ReadStep(s, s.slots[s.consumer.slot], k))
  {
  }

  /** Nothing to deliver: the newest frame was delivered, or it has no pixels. */
  lemma RefusalIsRight(s: State)
    requires Inv(s) && s.consumer.Reading? && s.consumer.next.GetNumber? && s.consumer.named == Named(s)
    requires var next := s.consumer.next;
             s.slots[s.consumer.slot].number == s.last || Implausible(next.w, next.h, next.pitch)
    ensures UpToDate(s)
  {
    hide ProducerInv, Holds, WrittenSoFar, DeliveryInv, WholeInv, Area;
    UndisturbedSlotHolds(s);
  }

  lemma NumberLoadRefuses(s: State, k: nat)
    requires Inv(s) && s.consumer.Reading? && s.consumer.next.GetNumber?
    requires var next := s.consumer.next;
             s.slots[s.consumer.slot].number == s.last || Implausible(next.w, next.h, next.pitch)
    ensures ReturnMove(s, ReadStep(s, s.slots[s.consumer.slot], k))
  {
    hide ProducerInv, Holds, WholeInv, HoldsFrame, WrittenSoFar, ReadsMatch, Started, Area, Frame.Fits;
    if s.consumer.named == Named(s) {
      RefusalIsRight(s);
    }
  }

  lemma NumberLoadAccepts(s: State, k: nat)
    requires Inv(s) && s.consumer.Reading? && s.consumer.next.GetNumber?
    requires var next := s.consumer.next;
             s.slots[s.consumer.slot].number != s.last && !Implausible(next.w, next.h, next.pitch)
    ensures ReadMove(s, ReadStep(s, s.slots[s.consumer.slot], k))
  {
  }

  lemma ByteLoadEffect(s: State, k: nat)
    requires Inv(s) && s.consumer.Reading? && s.consumer.next.Drain?
    requires !Complete(s.consumer.next.done, |s.out|)
    ensures ReadMove(s, ReadStep(s, s.slots[s.consumer.slot], k))
  {
    hide ProducerInv, Holds, WrittenSoFar, DeliveryInv, WholeInv, Area;
    PackedRowsAreDense(k, s.consumer.next.w);
    if Undisturbed(s.consumer, s.slots[s.consumer.slot]) {
      UndisturbedSlotHolds(s);
    }
  }

  lemma WholeImage(s: State)
    requires Inv(s) && s.consumer.Reading? && s.consumer.next.Drain?
    requires Complete(s.consumer.next.done, |s.out|) && Undisturbed(s.consumer, s.slots[s.consumer.slot])
    ensures var n, next := s.slots[s.consumer.slot].number, s.consumer.next;
            && 0 < n <= |s.calls| && n == next.number && s.out == s.calls[n - 1].pixels
            && next.w == s.calls[n - 1].width && next.h == s.calls[n - 1].height
            && s.consumer.named <= n && (s.consumer.named == Named(s) ==> n == Named(s))
  {
    hide ProducerInv, WakeInv, WholeInv, DeliveryInv, Holds, Area;
    UndisturbedSlotHolds(s);
    AreaFits(s.consumer.next.w, s.consumer.next.h);
    assert s.out == s.calls[s.slots[s.consumer.slot].number - 1].pixels;
  }

  lemma LastLoadEffect(s: State, k: nat)
    requires Inv(s) && s.consumer.Reading? && s.consumer.next.Drain?
    requires Complete(s.consumer.next.done, |s.out|)
    ensures var t := ReadStep(s, s.slots[s.consumer.slot], k); ReadMove(s, t) || ReturnMove(s, t)
  {
    hide Implausible, Holds, WrittenSoFar, ProducerInv, ReadsMatch, Area, Frame.Fits;
    if Undisturbed(s.consumer, s.slots[s.consumer.slot]) {
      WholeImage(s);
    }
  }

  lemma ConsumerKeepsInv(s: State, k: nat)
    requires Inv(s)
    ensures Inv(ConsumerStep(s, k))
  {
    hide ProducerInv, ReadMove, ReturnMove, ReadStep, Complete, Implausible, DeliveryInv, WholeInv, AgeInv, WakeInv;
    if s.consumer.Waiting? {
      WaitKeepsInv(s, k);
    } else if s.consumer.Woken? {
      SampleKeepsInv(s, k);
    } else {
      var t := ReadStep(s, s.slots[s.consumer.slot], k);
      match s.consumer.next {
        case Try => TryEffect(s, k);
        case GetNumber(_, w, h, p) =>
          if s.slots[s.consumer.slot].number == s.last || Implausible(w, h, p) {
            NumberLoadRefuses(s, k);
          } else {
            NumberLoadAccepts(s, k);
          }
        case Drain(_, _, _, _, _, done) =>
          if Complete(done, |s.out|) { LastLoadEffect(s, k); } else { ByteLoadEffect(s, k); }
        case _ => HeaderLoadEffect(s, k);
      }
      if ReadMove(s, t) { ReadMoveKeepsInv(s, t); } else { ReturnMoveKeepsInv(s, t); }
    }
  }

  // ---------------------------------------------------------------- main results

  lemma {:induction false} EveryReachableStateIsSound(schedule: seq<Choice>)
    ensures Inv(Exec(schedule))
  {
    if schedule != [] {
      var s := Exec(schedule[..|schedule| - 1]);
      EveryReachableStateIsSound(schedule[..|schedule| - 1]);
      match schedule[|schedule| - 1]
      case Call(f) => EnterKeepsInv(s, f);
      case Produce(k) => ProducerKeepsInv(s, k);
      case Consume(k) => ConsumerKeepsInv(s, k);
    }
  }

  /** Whatever the interleaving, a delivered image is one published frame: its
      size, its number and every byte come from the same PublishFrame call. */
  lemma NoTornFrame(schedule: seq<Choice>)
    requires Exec(schedule).consumer.Waiting? && Exec(schedule).outcome.Delivered?
    ensures var s := Exec(schedule);
            && 0 < s.outcome.number <= |s.calls|
            && var f := s.calls[s.outcome.number - 1];
               && s.outcome.width == f.width && s.outcome.height == f.height
               && s.out == f.pixels && |f.pixels| == f.width * f.height * 4
  {
    EveryReachableStateIsSound(schedule);
    var s := Exec(schedule);
    AreaIsProduct(s.outcome.width, s.outcome.height);
  }

  /** Every payload offset the copy-out loop reads lies in the slot, even on an
      attempt whose header mixes two frames. */
  lemma ReadsStayInPayload(schedule: seq<Choice>, k: nat)
    requires var s := Exec(schedule); s.consumer.Reading? && s.consumer.next.Drain? && k < |s.out|
    ensures var next := Exec(schedule).consumer.next;
            next.w > 0 && PitchedOffset(k, next.w, next.pitch) < PAYLOAD_BYTES
  {
    EveryReachableStateIsSound(schedule);
    var next := Exec(schedule).consumer.next;
    OffsetFits(k, next.w, next.h, next.pitch);
  }

  /** A delivered frame is no older than the one `latest_slot` named when this
      call sampled it, and differs from the one delivered before. */
  lemma DeliveryIsFresh(schedule: seq<Choice>, k: nat)
    requires Exec(schedule).consumer.Reading?
    requires var t := ConsumerStep(Exec(schedule), k); t.consumer.Waiting? && t.outcome.Delivered?
    ensures FreshDelivery(Exec(schedule), ConsumerStep(Exec(schedule), k))
  {
    EveryReachableStateIsSound(schedule);
    DeliveryStep(Exec(schedule), k);
  }

  predicate FreshDelivery(s: State, t: State) {
    && s.consumer.Reading? && s.consumer.named <= t.last && t.last != s.last
    && t.delivered == s.delivered + [t.last]
  }

  lemma DeliveryStep(s: State, k: nat)
    requires Inv(s) && s.consumer.Reading?
    requires ConsumerStep(s, k).consumer.Waiting? && ConsumerStep(s, k).outcome.Delivered?
    ensures FreshDelivery(s, ConsumerStep(s, k))
  {
    hide ProducerInv, Complete, Started, ReadsMatch, Area, UpToDate, DeliveryInv, WakeInv;
    if s.consumer.next.Drain? && Complete(s.consumer.next.done, |s.out|) {
      LastLoadEffect(s, k);
    }
  }

  /** Over a whole run, consecutive delivered numbers differ and never fall by
      more than one. */
  lemma DeliveredNumbersStayRecent(schedule: seq<Choice>)
    ensures Recent(Exec(schedule).delivered)
  {
    EveryReachableStateIsSound(schedule);
  }

  /** When both sides rest, either the event is set or the consumer already has
      the newest frame (or that frame has no pixels and can never be delivered). */
  lemma NoLostWakeup(schedule: seq<Choice>)
    requires Exec(schedule).producer.Resting? && Exec(schedule).consumer.Waiting?
    ensures CaughtUp(Exec(schedule))
  {
    hide Exec, Inv;
    EveryReachableStateIsSound(schedule);
    RestIsCaughtUp(Exec(schedule));
  }

  predicate CaughtUp(s: State) {
    s.event || s.last == |s.calls| || (s.calls != [] && s.calls[|s.calls| - 1].Empty())
  }

  lemma RestIsCaughtUp(s: State)
    requires Inv(s) && s.producer.Resting? && s.consumer.Waiting?
    ensures CaughtUp(s)
  {
  }

  /** A geometry error is answered to a header only, and means a frame without pixels, or
      a header read while the producer was rewriting the slot. */
  lemma GeometryErrorMeansEmptyOrDisturbed(schedule: seq<Choice>, k: nat)
    requires !Exec(schedule).consumer.Waiting?
    requires ConsumerStep(Exec(schedule), k).consumer.Waiting?
    requires ConsumerStep(Exec(schedule), k).outcome.BadGeometry?
    ensures EmptyOrDisturbed(Exec(schedule))
  {
    EveryReachableStateIsSound(schedule);
    GeometryError(Exec(schedule), k);
  }

  ghost predicate EmptyOrDisturbed(s: State) {
    && s.consumer.Reading? && s.consumer.next.GetNumber? && s.consumer.slot < |s.slots|
    && var sh := s.slots[s.consumer.slot];
       Undisturbed(s.consumer, sh) ==> 0 < sh.number <= |s.calls| && s.calls[sh.number - 1].Empty()
  }

  lemma GeometryError(s: State, k: nat)
    requires Inv(s) && !s.consumer.Waiting?
    requires ConsumerStep(s, k).consumer.Waiting? && ConsumerStep(s, k).outcome.BadGeometry?
    ensures EmptyOrDisturbed(s)
  {
    hide ProducerInv, WakeInv, WholeInv, DeliveryInv, Holds, WrittenSoFar, Complete, Area;
    if s.consumer.Reading? && Undisturbed(s.consumer, s.slots[s.consumer.slot]) {
      UndisturbedSlotHolds(s);
    }
  }

  // ------------------------------------------------------------------- row loops

  /** Start of row `y` when rows are `pitch` bytes apart: y * pitch, summed. */
  function RowStart(y: nat, pitch: nat): nat {
    if y == 0 then 0 else RowStart(y - 1, pitch) + pitch
  }

  lemma {:induction false} RowStartIsProduct(y: nat, pitch: nat)
    ensures RowStart(y, pitch) == y * pitch
  {
    if y > 0 {
      RowStartIsProduct(y - 1, pitch);
      assert y * pitch == (y - 1) * pitch + pitch;
    }
  }

  predicate RowsReadable(src: seq<Byte>, pitch: nat, row: nat, h: nat) {
    forall y :: 0 <= y < h ==> RowStart(y, pitch) + row <= |src|
  }

  /** The rows of a pitched image, one after the other. */
  function Packed(src: seq<Byte>, pitch: nat, row: nat, h: nat): (r: seq<Byte>)
    requires RowsReadable(src, pitch, row, h)
    ensures |r| == RowStart(h, row)
  {
    if h == 0 then [] else
    Packed(src, pitch, row, h - 1) + src[RowStart(h - 1, pitch)..RowStart(h - 1, pitch) + row]
  }

  lemma Spliced(done: seq<Byte>, rest: seq<Byte>, row: seq<Byte>)
    requires |row| <= |rest|
    ensures (done + rest)[..|done|] + row + (done + rest)[|done| + |row|..] == (done + row) + rest[|row|..]
  {
  }

  /** One memcpy of the row loop: it lands between the rows done and the rest. */
  method CopyRow(src: seq<Byte>, pitch: nat, row: nat, y: nat, dst: array<Byte>, ghost done: seq<Byte>, ghost rest: seq<Byte>)
    requires RowStart(y, pitch) + row <= |src| && |done| == RowStart(y, row) && row <= |rest|
    requires dst[..] == done + rest
    modifies dst
    ensures dst[..] == (done + src[RowStart(y, pitch)..RowStart(y, pitch) + row]) + rest[row..]
  {
    RowStartIsProduct(y, pitch);
    RowStartIsProduct(y, row);
    hide RowStart;
    var from, at := y * pitch, y * row;
    ghost var start := dst[..];
    assert dst.Length == |done| + |rest|;
    forall i | 0 <= i < row { dst[at + i] := src[from + i]; }
    assert dst[..] == start[..at] + src[from..from + row] + start[at + row..];
    Spliced(done, rest, src[from..from + row]);
  }

  lemma RowStartGrows(y: nat, h: nat, row: nat)
    requires y <= h
    ensures RowStart(y, row) <= RowStart(h, row)
    decreases h - y
  {
    if y < h {
      RowStartGrows(y + 1, h, row);
    }
  }

  lemma OneRow(src: seq<Byte>, pitch: nat, row: nat, y: nat, h: nat)
    requires RowsReadable(src, pitch, row, h) && y < h
    ensures RowStart(y, pitch) + row <= |src| && RowStart(y + 1, row) == RowStart(y, row) + row <= RowStart(h, row)
    ensures RowsReadable(src, pitch, row, y) && RowsReadable(src, pitch, row, y + 1)
    ensures Packed(src, pitch, row, y + 1)
            == Packed(src, pitch, row, y) + src[RowStart(y, pitch)..RowStart(y, pitch) + row]
  {
    RowStartGrows(y + 1, h, row);
  }

  lemma NoRows(src: seq<Byte>, pitch: nat, row: nat)
    ensures RowStart(0, row) == 0 && RowsReadable(src, pitch, row, 0) && Packed(src, pitch, row, 0) == []
  {
  }

  /** The row loop of PublishFrame (into a slot) and of next_frame (out of one). */
  method CopyRows(src: seq<Byte>, pitch: nat, row: nat, h: nat, dst: array<Byte>)
    requires RowsReadable(src, pitch, row, h) && RowStart(h, row) <= dst.Length
    modifies dst
    ensures dst[..] == Packed(src, pitch, row, h) + old(dst[RowStart(h, row)..])
  {
    NoRows(src, pitch, row);
    hide Packed, RowsReadable, RowStart;
    var y := 0;
    ghost var start, done, rest := dst[..], [], dst[..];
    while y < h
      invariant 0 <= y <= h && RowStart(y, row) <= |start| && RowsReadable(src, pitch, row, y)
      invariant done == Packed(src, pitch, row, y) && rest == start[RowStart(y, row)..] && dst[..] == done + rest
    {
      OneRow(src, pitch, row, y, h);
      CopyRow(src, pitch, row, y, dst, done, rest);
      SliceOn(start, RowStart(y, row), row);
      done, rest := Packed(src, pitch, row, y + 1), rest[row..];
      y := y + 1;
    }
  }

  /** The packed image, byte by byte, is what the step model reads. */
  lemma {:induction false} PackedReadsPitchedOffsets(src: seq<Byte>, pitch: nat, w: nat, h: nat, k: nat)
    requires w > 0 && RowsReadable(src, pitch, w * 4, h) && k < RowStart(h, w * 4)
    ensures PitchedOffset(k, w, pitch) < |src|
    ensures Packed(src, pitch, w * 4, h)[k] == src[PitchedOffset(k, w, pitch)]
  {
    hide RowStart, Packed, PitchedOffset, RowsReadable;
    if h == 0 {
      NoRows(src, pitch, w * 4);
    } else {
      OneRow(src, pitch, w * 4, h - 1, h);
      if k < RowStart(h - 1, w * 4) {
        PackedReadsPitchedOffsets(src, pitch, w, h - 1, k);
      } else {
        OffsetInRow(pitch, w, h - 1, k);
      }
    }
  }

  lemma OffsetInRow(pitch: nat, w: nat, y: nat, k: nat)
    requires w > 0 && RowStart(y, w * 4) <= k < RowStart(y, w * 4) + w * 4
    ensures PitchedOffset(k, w, pitch) == RowStart(y, pitch) + (k - RowStart(y, w * 4))
  {
    hide RowStart, PitchedOffset;
    RowStartIsProduct(y, w * 4);
    RowStartIsProduct(y, pitch);
    PitchedOffsetOfRow(y, k - RowStart(y, w * 4), w, pitch);
  }
}
