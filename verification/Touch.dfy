/**
 Multi-touch tracking: per-contact events in, full injection frames out. Ten slots,
 searched and changed in place.
 */
module Touch {
  import opened Options

  const MAX_CONTACTS := 10

  datatype Phase = Start | Move | End | Cancelled

  datatype Action = Down | Update | Up | Cancel

  /** Position and pressure. */
  datatype Point = Point(x: real, y: real, pressure: real)

  datatype Slot = Slot(id: nat, at: Point)

  type Slots = seq<Option<Slot>>

  datatype Contact = Contact(slot: nat, at: Point, action: Action)

  type Frame = seq<Contact>

  /** The first slot from `i` on that holds `id`; the length when none does. */
  function SlotOf(s: Slots, id: nat, i: nat): (j: nat)
    requires i <= |s|
    ensures i <= j <= |s| && (j < |s| ==> s[j].Some? && s[j].value.id == id)
    ensures forall k :: i <= k < j ==> s[k].None? || s[k].value.id != id
    decreases |s| - i
  {
    if i == |s| || (s[i].Some? && s[i].value.id == id) then i else SlotOf(s, id, i + 1)
  }

  function FreeSlot(s: Slots, i: nat): (j: nat)
    requires i <= |s|
    ensures i <= j <= |s| && (j < |s| ==> s[j].None?)
    ensures forall k :: i <= k < j ==> s[k].Some?
    decreases |s| - i
  {
    if i == |s| || s[i].None? then i else FreeSlot(s, i + 1)
  }

  /** Every active contact of the first `n` slots, as `Update` but for `changed`. */
  function FrameOf(s: Slots, n: nat, changed: nat, action: Action): Frame
    requires n <= |s|
  {
    if n == 0 then []
    else if s[n - 1].None? then FrameOf(s, n - 1, changed, action)
    else
      FrameOf(s, n - 1, changed, action)
      + [Contact(n - 1, s[n - 1].value.at, if n - 1 == changed then action else Update)]
  }

  function CancelFrame(s: Slots, n: nat): Frame
    requires n <= |s|
  {
    if n == 0 then []
    else if s[n - 1].None? then CancelFrame(s, n - 1)
    else CancelFrame(s, n - 1) + [Contact(n - 1, s[n - 1].value.at, Cancel)]
  }

  /** The slot an event concerns and what it does there; None for no effect. */
  function Transition(s: Slots, id: nat, phase: Phase): Option<(nat, Action)> {
    var known := SlotOf(s, id, 0);
    if known < |s| then
      Some((known, match phase case End => Up case Cancelled => Cancel case _ => Update))
    else if phase.Start? || phase.Move? then
      if FreeSlot(s, 0) < |s| then Some((FreeSlot(s, 0), Down)) else None
    else None
  }

  predicate Lifts(a: Action) { a.Up? || a.Cancel? }

  function Applied(s: Slots, id: nat, phase: Phase, at: Point): (Slots, Option<Frame>)
    ensures |Applied(s, id, phase, at).0| == |s|
  {
    match Transition(s, id, phase)
    case None => (s, None)
    case Some((slot, action)) =>
      var t := s[slot := Some(Slot(id, at))];
      (if Lifts(action) then t[slot := None] else t, Some(FrameOf(t, |t|, slot, action)))
  }

  function AllCancelled(s: Slots): (Slots, Option<Frame>) {
    (seq(|s|, _ => None), if CancelFrame(s, |s|) == [] then None else Some(CancelFrame(s, |s|)))
  }

  class TouchTracker {
    const slots: array<Option<Slot>>

    constructor ()
      ensures fresh(slots) && slots.Length == MAX_CONTACTS && slots[..] == seq(MAX_CONTACTS, _ => None)
    {
      slots := new Option<Slot>[MAX_CONTACTS](_ => None);
    }

    method Apply(id: nat, phase: Phase, at: Point) returns (frame: Option<Frame>)
      modifies slots
      ensures (slots[..], frame) == Applied(old(slots[..]), id, phase, at)
    {
      ghost var start := slots[..];
      var slot := Find(id);
      var action;
      if slot < slots.Length {
        action := match phase case End => Up case Cancelled => Cancel case _ => Update;
      } else if phase.Start? || phase.Move? {
        slot := Claim(id);
        if slot == slots.Length {
          return None;
        }
        action := Down;
      } else {
        return None;
      }
      slots[slot] := Some(Slot(id, at));
      assert slots[..] == start[slot := Some(Slot(id, at))];
      var f := FrameWith(slot, action);
      if Lifts(action) {
        slots[slot] := None;
      }
      frame := Some(f);
    }

    method Find(id: nat) returns (i: nat)
      ensures i == SlotOf(slots[..], id, 0)
    {
      i := 0;
      while i < slots.Length && !(slots[i].Some? && slots[i].value.id == id)
        invariant 0 <= i <= slots.Length && SlotOf(slots[..], id, i) == SlotOf(slots[..], id, 0)
      {
        i := i + 1;
      }
    }

    /** Take the first free slot; the length when all are taken. */
    method Claim(id: nat) returns (i: nat)
      modifies slots
      ensures i == FreeSlot(old(slots[..]), 0)
      ensures slots[..] == if i < slots.Length then old(slots[..])[i := Some(Slot(id, Point(0.0, 0.0, 0.0)))] else old(slots[..])
    {
      i := 0;
      while i < slots.Length && slots[i].Some?
        invariant 0 <= i <= slots.Length && FreeSlot(slots[..], i) == FreeSlot(slots[..], 0)
        invariant slots[..] == old(slots[..])
      {
        i := i + 1;
      }
      if i < slots.Length {
        slots[i] := Some(Slot(id, Point(0.0, 0.0, 0.0)));
      }
    }

    method FrameWith(changed: nat, action: Action) returns (frame: Frame)
      ensures frame == FrameOf(slots[..], slots.Length, changed, action)
    {
      frame := [];
      for i := 0 to slots.Length
        invariant frame == FrameOf(slots[..], i, changed, action)
      {
        if slots[i].Some? {
          frame := frame + [Contact(i, slots[i].value.at, if i == changed then action else Update)];
        }
      }
    }

    method Reset() returns (frame: Option<Frame>)
      modifies slots
      ensures (slots[..], frame) == AllCancelled(old(slots[..]))
    {
      var f := [];
      for i := 0 to slots.Length
        invariant f == CancelFrame(slots[..], i) && slots[..] == old(slots[..])
      {
        if slots[i].Some? {
          f := f + [Contact(i, slots[i].value.at, Cancel)];
        }
      }
      forall i | 0 <= i < slots.Length { slots[i] := None; }
      assert slots[..] == seq(slots.Length, _ => None);
      frame := if f == [] then None else Some(f);
    }
  }

  // ------------------------------------------------------------------------- runs

  datatype Event = Touched(id: nat, phase: Phase, at: Point) | CancelAll

  /** The slots after a run, and every frame it emitted. */
  datatype Run = Run(slots: Slots, frames: seq<Frame>)

  function React(s: Slots, e: Event): (Slots, Option<Frame>) {
    match e
    case Touched(id, phase, at) => Applied(s, id, phase, at)
    case CancelAll => AllCancelled(s)
  }

  function Exec(events: seq<Event>): Run {
    if events == [] then Run(seq(MAX_CONTACTS, _ => None), [])
    else
      var r := Exec(events[..|events| - 1]);
      var (s, frame) := React(r.slots, events[|events| - 1]);
      Run(s, match frame case None => r.frames case Some(f) => r.frames + [f])
  }

  /** No id twice. */
  ghost predicate Distinct(s: Slots) {
    forall i, j :: 0 <= i < j < |s| && s[i].Some? && s[j].Some? ==> s[i].value.id != s[j].value.id
  }

  ghost predicate Sound(s: Slots) {
    |s| == MAX_CONTACTS && Distinct(s)
  }

  // --------------------------------------------------------- frames list everything

  /** What the frame says of a slot. */
  function ContactIn(f: Frame, i: nat): Option<Contact> {
    if f == [] then None
    else if f[|f| - 1].slot == i then Some(f[|f| - 1])
    else ContactIn(f[..|f| - 1], i)
  }

  /** Slots in increasing order below `n`, so none twice. */
  ghost predicate Ordered(f: Frame, n: nat) {
    && (forall k :: 0 <= k < |f| ==> f[k].slot < n)
    && forall k, m :: 0 <= k < m < |f| ==> f[k].slot < f[m].slot
  }

  function Entry(s: Slots, i: nat, action: Action): Option<Contact>
    requires i < |s|
  {
    if s[i].None? then None else Some(Contact(i, s[i].value.at, action))
  }

  lemma ContactInOne(f: Frame, c: Contact, i: nat)
    ensures ContactIn(f + [c], i) == if c.slot == i then Some(c) else ContactIn(f, i)
  {
    assert (f + [c])[..|f|] == f;
  }

  lemma {:induction false} FrameOrdered(s: Slots, n: nat, changed: nat, action: Action)
    requires n <= |s|
    ensures Ordered(FrameOf(s, n, changed, action), n)
  {
    if n > 0 {
      FrameOrdered(s, n - 1, changed, action);
    }
  }

  /** The frame says of each slot what the slot holds. */
  lemma {:induction false} FrameLists(s: Slots, n: nat, changed: nat, action: Action, i: nat)
    requires n <= |s|
    ensures ContactIn(FrameOf(s, n, changed, action), i)
            == if i < n then Entry(s, i, if i == changed then action else Update) else None
  {
    hide ContactIn;
    NothingIn(i);
    if n > 0 {
      FrameLists(s, n - 1, changed, action, i);
      if s[n - 1].Some? {
        ContactInOne(FrameOf(s, n - 1, changed, action),
                     Contact(n - 1, s[n - 1].value.at, if n - 1 == changed then action else Update), i);
      }
    }
  }

  lemma {:induction false} CancelLists(s: Slots, n: nat, i: nat)
    requires n <= |s|
    ensures Ordered(CancelFrame(s, n), n)
    ensures ContactIn(CancelFrame(s, n), i) == if i < n then Entry(s, i, Cancel) else None
  {
    if n > 0 {
      CancelLists(s, n - 1, i);
      if s[n - 1].Some? {
        ContactInOne(CancelFrame(s, n - 1), Contact(n - 1, s[n - 1].value.at, Cancel), i);
      }
    }
  }

  /** In an ordered frame a slot's contact is the one entry for that slot. */
  lemma {:induction false} ListedOnce(f: Frame, n: nat, i: nat)
    requires Ordered(f, n)
    ensures forall k :: 0 <= k < |f| && f[k].slot == i ==> ContactIn(f, i) == Some(f[k])
    ensures ContactIn(f, i).Some? ==> exists k :: 0 <= k < |f| && f[k] == ContactIn(f, i).value && f[k].slot == i
  {
    if f != [] {
      var before := f[..|f| - 1];
      ListedOnce(before, n, i);
      if ContactIn(f, i).Some? && f[|f| - 1].slot != i {
        var k :| 0 <= k < |before| && before[k] == ContactIn(before, i).value && before[k].slot == i;
        assert f[k] == before[k];
      }
      forall k | 0 <= k < |f| && f[k].slot == i
        ensures ContactIn(f, i) == Some(f[k])
      {
        if k < |before| {
          assert before[k] == f[k];
        }
      }
    }
  }

  // ------------------------------------------------------------ each slot's protocol

  /** One frame, seen from one slot that is down or not; None when the frame breaks
      the order down, update, lift, or forgets a contact that is down. */
  function Follow(down: bool, c: Option<Contact>): Option<bool> {
    match c
    case None => if down then None else Some(false)
    case Some(contact) =>
      if contact.action.Down? then if down then None else Some(true)
      else if !down then None
      else Some(contact.action.Update?)
  }

  /** Whether the slot is down after the frames; None when they break the order. */
  function Protocol(frames: seq<Frame>, i: nat): Option<bool> {
    if frames == [] then Some(false)
    else
      match Protocol(frames[..|frames| - 1], i)
      case None => None
      case Some(down) => Follow(down, ContactIn(frames[|frames| - 1], i))
  }

  lemma ReactIsSound(s: Slots, e: Event)
    requires Sound(s)
    ensures Sound(React(s, e).0)
    ensures forall i :: 0 <= i < |s| && s[i].Some? && React(s, e).0[i].Some? ==> s[i].value.id == React(s, e).0[i].value.id
  {
    hide FrameOf, CancelFrame;
  }

  /** The newest point of the contact in a slot: the event's if it is about that
      contact, the one on record otherwise. */
  function Newest(s: Slots, e: Event, i: nat): Point
    requires i < |s| && (s[i].Some? || e.Touched?)
  {
    if e.Touched? && (s[i].None? || s[i].value.id == e.id) then e.at else s[i].value.at
  }

  /** How one event changes one slot, next to what its frame says. */
  lemma ReactFollows(s: Slots, e: Event, i: nat)
    requires Sound(s) && i < MAX_CONTACTS
    ensures var (t, frame) := React(s, e);
            && |t| == |s| && (frame.None? ==> t == s)
            && (frame.Some? ==>
                  && Ordered(frame.value, MAX_CONTACTS)
                  && (ContactIn(frame.value, i).Some? <==> s[i].Some? || t[i].Some?)
                  && Follow(s[i].Some?, ContactIn(frame.value, i)) == Some(t[i].Some?)
                  && (s[i].Some? || t[i].Some? ==>
                        (s[i].Some? || e.Touched?) && ContactIn(frame.value, i).value.at == Newest(s, e, i))
                  && (t[i].Some? ==> t[i].value.at == Newest(s, e, i)))
  {
    hide FrameOf, CancelFrame, ContactIn;
    match e
    case Touched(id, phase, at) =>
      if Transition(s, id, phase).Some? {
        var (slot, action) := Transition(s, id, phase).value;
        var t := s[slot := Some(Slot(id, at))];
        FrameLists(t, |t|, slot, action, i);
        FrameOrdered(t, |t|, slot, action);
      }
    case CancelAll =>
      CancelLists(s, |s|, i);
      if CancelFrame(s, |s|) == [] {
        forall k | 0 <= k < |s|
          ensures s[k].None?
        {
          CancelLists(s, |s|, k);
          assert ContactIn([], k) == None by { NothingIn(k); }
        }
        assert s == seq(|s|, _ => None);
      }
  }

  lemma NothingIn(i: nat)
    ensures ContactIn([], i) == None
  {
  }

  /** In every run, from every slot's side, the frames are downs, updates and lifts in
      order, and a contact that is down is in every frame. */
  lemma {:induction false} SlotsFollowProtocol(events: seq<Event>, i: nat)
    requires i < MAX_CONTACTS
    ensures Sound(Exec(events).slots)
    ensures Protocol(Exec(events).frames, i) == Some(Exec(events).slots[i].Some?)
  {
    hide React, ContactIn, Follow;
    if events != [] {
      var r := Exec(events[..|events| - 1]);
      SlotsFollowProtocol(events[..|events| - 1], i);
      ReactIsSound(r.slots, events[|events| - 1]);
      ReactFollows(r.slots, events[|events| - 1], i);
      var frame := React(r.slots, events[|events| - 1]).1;
      if frame.Some? {
        assert (r.frames + [frame.value])[..|r.frames|] == r.frames;
      }
    }
  }

  /** Every frame lists each contact active before or after the event exactly once,
      at its newest point, and no other; a lifted contact's too. */
  lemma FramesAreFull(events: seq<Event>, e: Event, i: nat)
    requires React(Exec(events).slots, e).1.Some? && i < MAX_CONTACTS
    requires |Exec(events).slots| == |React(Exec(events).slots, e).0| == MAX_CONTACTS
    ensures var s := Exec(events).slots; var (t, frame) := React(s, e);
            && Ordered(frame.value, MAX_CONTACTS)
            && (s[i].Some? || t[i].Some? <==> exists k :: 0 <= k < |frame.value| && frame.value[k].slot == i)
            && (forall k :: 0 <= k < |frame.value| && frame.value[k].slot == i ==>
                              (s[i].Some? || e.Touched?) && frame.value[k].at == Newest(s, e, i))
            && (t[i].Some? ==> (s[i].Some? || e.Touched?) && t[i].value.at == Newest(s, e, i))
  {
    hide Exec, React, ContactIn, Follow;
    SlotsFollowProtocol(events, i);
    ReactFollows(Exec(events).slots, e, i);
    var f := React(Exec(events).slots, e).1.value;
    ListedOnce(f, MAX_CONTACTS, i);
  }

  /** An id keeps its slot from when it goes down to when it lifts. */
  lemma IdKeepsSlot(events: seq<Event>, e: Event, i: nat, j: nat)
    requires i < MAX_CONTACTS && j < MAX_CONTACTS
    requires |Exec(events).slots| == |React(Exec(events).slots, e).0| == MAX_CONTACTS
    requires var s, t := Exec(events).slots, React(Exec(events).slots, e).0;
             s[i].Some? && t[j].Some? && s[i].value.id == t[j].value.id
    ensures i == j
  {
    hide Exec, React, Protocol;
    SlotsFollowProtocol(events, i);
    var s, t := Exec(events).slots, React(Exec(events).slots, e).0;
    ReactIsSound(s, e);
    if i != j {
      SlotKeptOrNew(s, e, i, j);
    }
  }

  lemma SlotKeptOrNew(s: Slots, e: Event, i: nat, j: nat)
    requires Sound(s) && i < MAX_CONTACTS && j < MAX_CONTACTS && i != j && s[i].Some?
    ensures var t := React(s, e).0; t[j].Some? ==> t[j].value.id != s[i].value.id
  {
    hide FrameOf, CancelFrame;
  }

  // ------------------------------------------------------------- what it all means

  /** The contacts by id. */
  function Contacts(s: Slots): map<nat, Point> {
    if s == [] then map[]
    else
      var before := Contacts(s[..|s| - 1]);
      if s[|s| - 1].None? then before else before[s[|s| - 1].value.id := s[|s| - 1].value.at]
  }

  function Active(s: Slots): nat {
    if s == [] then 0 else Active(s[..|s| - 1]) + if s[|s| - 1].Some? then 1 else 0
  }

  /** The tracker as a map from ids to points with room for ten. */
  function Meaning(m: map<nat, Point>, e: Event): map<nat, Point> {
    match e
    case CancelAll => map[]
    case Touched(id, phase, at) =>
      if phase.End? || phase.Cancelled? then m - {id}
      else if id in m || |m| < MAX_CONTACTS then m[id := at]
      else m
  }

  /** Slot `i` holds `id`. */
  predicate HoldsId(s: Slots, i: nat, id: nat) {
    i < |s| && s[i].Some? && s[i].value.id == id
  }

  lemma {:induction false} ContactsAre(s: Slots)
    requires Distinct(s)
    ensures forall i :: 0 <= i < |s| && s[i].Some? ==> s[i].value.id in Contacts(s) && Contacts(s)[s[i].value.id] == s[i].value.at
    ensures forall id :: id in Contacts(s) ==> exists i :: HoldsId(s, i, id)
  {
    if s != [] {
      var before, last := s[..|s| - 1], s[|s| - 1];
      ContactsAre(before);
      forall id | id in Contacts(s)
        ensures exists i :: HoldsId(s, i, id)
      {
        if last.Some? && last.value.id == id {
          assert HoldsId(s, |s| - 1, id);
        } else {
          assert id in Contacts(before);
          var i: nat :| HoldsId(before, i, id);
          assert HoldsId(s, i, id);
        }
      }
      forall i | 0 <= i < |s| && s[i].Some?
        ensures s[i].value.id in Contacts(s) && Contacts(s)[s[i].value.id] == s[i].value.at
      {
        if i < |before| {
          assert before[i] == s[i];
        }
      }
    }
  }

  lemma {:induction false} ContactsCount(s: Slots)
    requires Distinct(s)
    ensures |Contacts(s)| == Active(s) <= |s|
    ensures Active(s) == |s| <==> forall i :: 0 <= i < |s| ==> s[i].Some?
  {
    if s != [] {
      var before, last := s[..|s| - 1], s[|s| - 1];
      ContactsCount(before);
      if last.Some? {
        KnownIff(before, last.value.id);
      }
    }
  }

  /** Two slot tables with the same contacts mean the same map. */
  lemma SameContacts(s: Slots, m: map<nat, Point>)
    requires Distinct(s)
    requires forall i :: 0 <= i < |s| && s[i].Some? ==> s[i].value.id in m && m[s[i].value.id] == s[i].value.at
    requires forall id :: id in m ==> exists i :: HoldsId(s, i, id)
    ensures Contacts(s) == m
  {
    hide Contacts;
    ContactsAre(s);
    forall id | id in Contacts(s)
      ensures id in m && m[id] == Contacts(s)[id]
    {
      var i :| HoldsId(s, i, id);
    }
    forall id | id in m
      ensures id in Contacts(s)
    {
      var i :| HoldsId(s, i, id);
    }
    assert Contacts(s).Keys == m.Keys;
  }

  /** What one touch does to the table: one slot set, one emptied, or nothing. */
  lemma TouchEffect(s: Slots, id: nat, phase: Phase, at: Point)
    requires Sound(s)
    ensures var t, known := Applied(s, id, phase, at).0, SlotOf(s, id, 0);
            if phase.End? || phase.Cancelled? then t == if known < |s| then s[known := None] else s
            else if known < |s| then t == s[known := Some(Slot(id, at))]
            else if FreeSlot(s, 0) < |s| then t == s[FreeSlot(s, 0) := Some(Slot(id, at))]
            else t == s
  {
    hide FrameOf;
  }

  lemma SetRefines(s: Slots, i: nat, id: nat, at: Point)
    requires Distinct(s) && i < |s| && Distinct(s[i := Some(Slot(id, at))])
    requires s[i].None? || s[i].value.id == id
    ensures Contacts(s[i := Some(Slot(id, at))]) == Contacts(s)[id := at]
  {
    hide Contacts;
    var t, m := s[i := Some(Slot(id, at))], Contacts(s)[id := at];
    ContactsAre(s);
    forall x | x in m
      ensures exists k :: HoldsId(t, k, x)
    {
      if x == id {
        assert HoldsId(t, i, x);
      } else {
        var k :| HoldsId(s, k, x);
        assert HoldsId(t, k, x);
      }
    }
    forall k | 0 <= k < |t| && t[k].Some?
      ensures t[k].value.id in m && m[t[k].value.id] == t[k].value.at
    {
      if k != i {
        assert t[k].value.id != t[i].value.id;
      }
    }
    SameContacts(t, m);
  }

  lemma ClearRefines(s: Slots, i: nat)
    requires Distinct(s) && i < |s| && s[i].Some?
    ensures Contacts(s[i := None]) == Contacts(s) - {s[i].value.id}
  {
    hide Contacts;
    var t, m := s[i := None], Contacts(s) - {s[i].value.id};
    ContactsAre(s);
    forall x | x in m
      ensures exists k :: HoldsId(t, k, x)
    {
      var k :| HoldsId(s, k, x);
      assert HoldsId(t, k, x);
    }
    forall k | 0 <= k < |t| && t[k].Some?
      ensures t[k].value.id in m && m[t[k].value.id] == t[k].value.at
    {
      assert s[k].value.id != s[i].value.id;
    }
    SameContacts(t, m);
  }

  lemma KnownIff(s: Slots, id: nat)
    requires Distinct(s)
    ensures id in Contacts(s) <==> SlotOf(s, id, 0) < |s|
  {
    hide Contacts;
    ContactsAre(s);
    if id in Contacts(s) {
      var i :| HoldsId(s, i, id);
    }
  }

  lemma ReactRefines(s: Slots, e: Event)
    requires Sound(s)
    ensures Contacts(React(s, e).0) == Meaning(Contacts(s), e)
  {
    hide Contacts, Active, FrameOf, CancelFrame, SlotOf, FreeSlot, Applied;
    match e
    case CancelAll =>
      SameContacts(AllCancelled(s).0, map[]);
    case Touched(id, phase, at) =>
      ReactIsSound(s, e);
      TouchEffect(s, id, phase, at);
      KnownIff(s, id);
      ContactsCount(s);
      var known, free := SlotOf(s, id, 0), FreeSlot(s, 0);
      if phase.End? || phase.Cancelled? {
        if known < |s| {
          ClearRefines(s, known);
        }
      } else if known < |s| {
        SetRefines(s, known, id, at);
      } else if free < |s| {
        SetRefines(s, free, id, at);
      }
  }

  function MeaningOf(events: seq<Event>): map<nat, Point> {
    if events == [] then map[] else Meaning(MeaningOf(events[..|events| - 1]), events[|events| - 1])
  }

  /** The slots refine a map from ids to their last points, capped at ten. */
  lemma {:induction false} TrackerRefinesMap(events: seq<Event>)
    ensures Contacts(Exec(events).slots) == MeaningOf(events)
  {
    hide React, Meaning;
    if events == [] {
      var empty: Slots := seq(MAX_CONTACTS, _ => None);
      SameContacts(empty, map[]);
    } else {
      var before := events[..|events| - 1];
      TrackerRefinesMap(before);
      SlotsFollowProtocol(before, 0);
      ReactRefines(Exec(before).slots, events[|events| - 1]);
    }
  }

  // ------------------------------------------------------------ what an event is told as

  /** What a touch is injected as, by what the ids mean so far: a new contact goes down
      while there is room, a known one is updated, lifted or cancelled. */
  function ToldAs(m: map<nat, Point>, id: nat, phase: Phase): Option<Action> {
    match phase
    case End => if id in m then Some(Up) else None
    case Cancelled => if id in m then Some(Cancel) else None
    case _ => if id in m then Some(Update) else if |m| < 10 then Some(Down) else None
  }

  /** The frame has one contact at `at` with that action; all its others are updates. */
  ghost predicate Tells(f: Frame, at: Point, action: Action) {
    exists i :: 0 <= i < |f| && f[i].at == at && f[i].action == action
                && forall j :: 0 <= j < |f| && j != i ==> f[j].action.Update?
  }

  lemma {:induction false} OthersUpdate(s: Slots, n: nat, changed: nat, action: Action)
    requires changed < n <= |s| && s[changed].Some?
    ensures Tells(FrameOf(s, n, changed, action), s[changed].value.at, action)
    decreases n
  {
    hide Tells;
    var before := FrameOf(s, n - 1, changed, action);
    if changed == n - 1 {
      OnlyUpdates(s, n - 1, changed, action);
      TellsLast(before, Contact(n - 1, s[n - 1].value.at, action));
    } else {
      OthersUpdate(s, n - 1, changed, action);
      if s[n - 1].Some? {
        TellsStill(before, Contact(n - 1, s[n - 1].value.at, Update), s[changed].value.at, action);
      }
    }
  }

  lemma TellsLast(before: Frame, c: Contact)
    requires forall j :: 0 <= j < |before| ==> before[j].action.Update?
    ensures Tells(before + [c], c.at, c.action)
  {
    assert (before + [c])[|before|] == c;
  }

  lemma TellsStill(before: Frame, c: Contact, at: Point, action: Action)
    requires Tells(before, at, action) && c.action.Update?
    ensures Tells(before + [c], at, action)
  {
    var i :| 0 <= i < |before| && before[i].at == at && before[i].action == action
             && forall j :: 0 <= j < |before| && j != i ==> before[j].action.Update?;
    assert (before + [c])[i] == before[i];
  }

  lemma {:induction false} OnlyUpdates(s: Slots, n: nat, changed: nat, action: Action)
    requires n <= changed && n <= |s|
    ensures forall j :: 0 <= j < |FrameOf(s, n, changed, action)| ==> FrameOf(s, n, changed, action)[j].action.Update?
  {
    if n > 0 {
      OnlyUpdates(s, n - 1, changed, action);
    }
  }

  /** Over any run, a touch adds the one frame that tells it, or, when it is told as
      nothing, changes nothing. */
  lemma TouchIsTold(events: seq<Event>, id: nat, phase: Phase, at: Point)
    ensures var r, t := Exec(events), Exec(events + [Touched(id, phase, at)]);
            match ToldAs(MeaningOf(events), id, phase)
            case None => t == r
            case Some(action) =>
              |t.frames| == |r.frames| + 1 && t.frames[..|r.frames|] == r.frames && Tells(t.frames[|r.frames|], at, action)
  {
    hide Applied, Contacts, Active, FrameOf, Tells, MeaningOf, SlotOf, FreeSlot;
    var r, e := Exec(events), Touched(id, phase, at);
    assert (events + [e])[..|events|] == events;
    TrackerRefinesMap(events);
    SlotsFollowProtocol(events, 0);
    KnownIff(r.slots, id);
    ContactsCount(r.slots);
    AppliedTells(r.slots, id, phase, at);
  }

  lemma AppliedTells(s: Slots, id: nat, phase: Phase, at: Point)
    requires Sound(s)
    ensures var (t, frame) := Applied(s, id, phase, at);
            var known, room := SlotOf(s, id, 0) < |s|, !(forall i :: 0 <= i < |s| ==> s[i].Some?);
            var told := match phase
                        case End => if known then Some(Up) else None
                        case Cancelled => if known then Some(Cancel) else None
                        case _ => if known then Some(Update) else if room then Some(Down) else None;
            if told.None? then t == s && frame.None? else frame.Some? && Tells(frame.value, at, told.value)
  {
    hide Tells, FrameOf;
    match Transition(s, id, phase)
    case None =>
    case Some((slot, action)) => OthersUpdate(s[slot := Some(Slot(id, at))], |s|, slot, action);
  }

  /** Cancelling all adds one frame that cancels every contact, or none when there is none. */
  lemma CancelIsTold(events: seq<Event>)
    ensures var r, t := Exec(events), Exec(events + [CancelAll]);
            if MeaningOf(events) == map[] then t.frames == r.frames
            else
              && |t.frames| == |r.frames| + 1 && t.frames[..|r.frames|] == r.frames
              && |t.frames[|r.frames|]| == |MeaningOf(events)|
              && forall j :: 0 <= j < |t.frames[|r.frames|]| ==> t.frames[|r.frames|][j].action.Cancel?
  {
    hide Contacts, Active, MeaningOf;
    var r := Exec(events);
    assert (events + [CancelAll])[..|events|] == events;
    TrackerRefinesMap(events);
    SlotsFollowProtocol(events, 0);
    ContactsCount(r.slots);
    CancelCounts(r.slots, |r.slots|);
    assert r.slots[..|r.slots|] == r.slots;
  }

  lemma {:induction false} CancelCounts(s: Slots, n: nat)
    requires n <= |s|
    ensures |CancelFrame(s, n)| == Active(s[..n])
    ensures forall j :: 0 <= j < |CancelFrame(s, n)| ==> CancelFrame(s, n)[j].action.Cancel?
  {
    if n > 0 {
      CancelCounts(s, n - 1);
      assert s[..n][..n - 1] == s[..n - 1];
    }
  }
}
