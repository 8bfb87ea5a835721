/**
 Host sessions receiving files from their viewers, offer by offer. A session's pump and
 its supervisor are two tasks on shared state: the transfer slot, the pending flag, the
 panel's queue and the queue of its answers. Each access to one of these is one step.
 */
module HostTransfers {
  import opened Bytes
  import opened FileNames
  import opened FileReceive
  import opened Options
  import opened SharedDirectory

  type OfferMsg = m: Msg | m.Offer? witness Offer("", "", 0, "")

  /** An offer the pump found the slot free for, numbered in order. */
  datatype Ticket = Ticket(number: nat, offer: OfferMsg)

  datatype Answer = Answer(ticket: Ticket, accept: bool)

  /** Program counter of the pump: what it found out so far about the message at hand.
      `Filed` is an offer registered for the panel, `Ending` a transfer taken out. */
  datatype Pump = Reading | SawFree(ticket: Ticket) | SawClear(ticket: Ticket) | Filed(ticket: Ticket) | Ending(number: nat)

  /** Program counter of the supervisor, at work on a panel answer or leaving. */
  datatype Supervisor = Resting | Cleared(ticket: Ticket) | Opened(ticket: Ticket) | Leaving | Gone

  /** The accesses whose order matters. A ticket is lost when it is refused after the
      first check or leaves the queue unanswered; a transfer is dropped when a store
      finds it in the slot. */
  datatype Access =
    | SeesFree(number: nat)
    | SeesClear(number: nat)
    | Sets(number: nat)
    | Loses(number: nat)
    | Clears(number: nat)
    | Stores(number: nat)
    | Drops(number: nat)
    | TearsDown

  /** `clock` counts steps and `at` notes when an access happened; no step reads them. */
  datatype Seat = Seat(slot: Option<nat>, pending: bool, pump: Pump, supervisor: Supervisor,
                       waiting: seq<Ticket>, answers: seq<Answer>, next: nat, clock: nat, at: map<Access, nat>)

  const NewSeat := Seat(None, false, Reading, Resting, [], [], 0, 0, map[])

  datatype Host = Host(dir: Dir, seat: Seat)

  /** `duplicate` says that another session's offer already waits under the same id.
      A panel entry may go without an answer being sent: with its device, or because
      the session's queue is full. */
  datatype Choice =
    | Receive(m: Msg, io: Io)
    | PumpOn(io: Io, duplicate: bool)
    | Panel(place: nat, accept: bool, sent: bool)
    | Supervise(io: Io)
    | Leave

  function Mark(s: Seat, a: Access): Seat {
    s.(at := s.at[a := s.clock])
  }

  predicate Sane(m: Msg, max: nat) {
    m.Offer? && SaneId(m.id) && IsHash(m.sha) && 0 < m.size <= max
  }

  /** The transfer in the slot has this id. */
  predicate Mine(h: Host, k: nat, id: string) {
    h.seat.slot.Some? && Has(h.dir, Key(k, h.seat.slot.value)) && h.dir.files[Key(k, h.seat.slot.value)].id == id
  }

  /** Take the transfer out of the slot and delete its file. */
  function Emptied(h: Host, k: nat): Host {
    if h.seat.slot.None? then h
    else
      var key := Key(k, h.seat.slot.value);
      Host(Back(h.dir, key, Discard(View(h.dir, key))), h.seat.(slot := None))
  }

  /** The pump's first access for a message. A chunk for no transfer, or for another
      one, ends the transfer in the slot. */
  function OnReceive(h: Host, k: nat, m: Msg, max: nat, io: Io): (Host, Reply) {
    var s := h.seat;
    match m
    case Offer(id, _, _, _) =>
      if !Sane(m, max) || s.slot.Some? then (h, Declined(id))
      else (h.(seat := Mark(s, SeesFree(s.next)).(pump := SawFree(Ticket(s.next, m)), next := s.next + 1)), Quiet)
    case Chunk(id, number, data) =>
      if Mine(h, k, id) then
        var key := Key(k, s.slot.value);
        var (c, reply) := OnChunk(View(h.dir, key), number, data, io);
        (Host(Back(h.dir, key, c), if c.active.Some? then s else s.(slot := None)), reply)
      else (Emptied(h, k), Aborted(id))
    case End(id) =>
      if Mine(h, k, id) then (h.(seat := s.(slot := None, pump := Ending(s.slot.value))), Quiet) else (h, Aborted(id))
    case Abort(id) => (if Mine(h, k, id) then Emptied(h, k) else h, Quiet)
    case Other => (h, NotMine)
  }

  predicate Listed(waiting: seq<Ticket>, id: string) {
    exists i :: 0 <= i < |waiting| && waiting[i].offer.id == id
  }

  /** The pump's next access for the message at hand. */
  function OnPump(h: Host, k: nat, sha: Digest, io: Io, duplicate: bool): (Host, Reply) {
    var s := h.seat;
    match s.pump
    case Reading => (h, NotMine)
    case SawFree(t) =>
      if s.pending then (h.(seat := Mark(s, Loses(t.number)).(pump := Reading)), Declined(t.offer.id))
      else (h.(seat := Mark(s, SeesClear(t.number)).(pump := SawClear(t))), Quiet)
    case SawClear(t) =>
      if duplicate || Listed(s.waiting, t.offer.id) then
        (h.(seat := Mark(s, Loses(t.number)).(pump := Reading)), Declined(t.offer.id))
      else (h.(seat := s.(pump := Filed(t), waiting := s.waiting + [t])), Quiet)
    case Filed(t) => (h.(seat := Mark(s, Sets(t.number)).(pump := Reading, pending := true)), Quiet)
    case Ending(n) =>
      if !Has(h.dir, Key(k, n)) then (h, NotMine)
      else
        var (c, reply) := OnEnd(View(h.dir, Key(k, n)), sha, io);
        (Host(Back(h.dir, Key(k, n), c), s.(pump := Reading)), reply)
  }

  /** The supervisor's next access. Storing a transfer drops the one it finds in the
      slot, and its file stays. */
  function OnSupervise(h: Host, k: nat, io: Io): (Host, Reply) {
    var s := h.seat;
    match s.supervisor
    case Resting =>
      if s.answers == [] then (h, NotMine)
      else
        var Answer(t, accept) := s.answers[0];
        var u := Mark(s, Clears(t.number)).(pending := false, answers := s.answers[1..]);
        if accept then (h.(seat := u.(supervisor := Cleared(t))), Quiet) else (h.(seat := u), Declined(t.offer.id))
    case Cleared(t) =>
      var key := Key(k, t.number);
      if io.storage && Open(View(h.dir, key), t.offer).Some? then
        (Host(Back(h.dir, key, Open(View(h.dir, key), t.offer).value), s.(supervisor := Opened(t))), Quiet)
      else (h.(seat := s.(supervisor := Resting)), Declined(t.offer.id))
    case Opened(t) =>
      var u := if s.slot.Some? then Mark(s, Drops(s.slot.value)) else s;
      (h.(seat := Mark(u, Stores(t.number)).(slot := Some(t.number), supervisor := Resting)), Accepted(t.offer.id))
    case Leaving =>
      var t := Emptied(h, k);
      (t.(seat := Mark(t.seat, TearsDown).(supervisor := Gone)), Quiet)
    case Gone => (h, NotMine)
  }

  /** The panel's queue gives up an entry, to an answer or to nobody. */
  function OnPanel(s: Seat, place: nat, accept: bool, sent: bool): Seat {
    if place >= |s.waiting| then s
    else
      var t, rest := s.waiting[place], s.waiting[..place] + s.waiting[place + 1..];
      if sent then s.(waiting := rest, answers := s.answers + [Answer(t, accept)])
      else Mark(s, Loses(t.number)).(waiting := rest)
  }

  function Forgotten(s: Seat, waiting: seq<Ticket>): Seat
    decreases |waiting|
  {
    if waiting == [] then s else Forgotten(Mark(s, Loses(waiting[0].number)), waiting[1..])
  }

  /** The supervisor leaves its loop and withdraws the session's offers. */
  function OnLeave(s: Seat): Seat {
    if !s.supervisor.Resting? then s
    else Forgotten(s, s.waiting).(supervisor := Leaving, waiting := [])
  }

  function Accessed(h: Host, k: nat, c: Choice, max: nat, sha: Digest): (Host, Reply) {
    match c
    case Receive(m, io) => if h.seat.pump.Reading? then OnReceive(h, k, m, max, io) else (h, NotMine)
    case PumpOn(io, duplicate) => OnPump(h, k, sha, io, duplicate)
    case Panel(place, accept, sent) => (h.(seat := OnPanel(h.seat, place, accept, sent)), NotMine)
    case Supervise(io) => OnSupervise(h, k, io)
    case Leave => (h.(seat := OnLeave(h.seat)), NotMine)
  }

  /** The clock after a step. */
  function Ticked(s: Seat): Seat {
    s.(clock := s.clock + 1)
  }

  /** One step of session `k`. */
  function Act(h: Host, k: nat, c: Choice, max: nat, sha: Digest): (Host, Reply) {
    var (t, reply) := Accessed(h, k, c, max, sha);
    (t.(seat := Ticked(t.seat)), reply)
  }

  // ---------------------------------------------------------------- the two tasks

  class Session {
    const k: nat
    const max: nat
    var disk: Disk
    var files: map<Key, Active>
    var slot: Option<nat>
    var pending: bool
    var pump: Pump
    var supervisor: Supervisor
    var waiting: seq<Ticket>
    var answers: seq<Answer>
    var next: nat
    ghost var delivered: seq<Delivery>
    ghost var clock: nat
    ghost var at: map<Access, nat>

    constructor (k: nat, max: nat, start: Disk)
      ensures this.k == k && this.max == max && State() == Host(Dir(start, [], map[]), NewSeat)
    {
      this.k, this.max, disk, files, delivered := k, max, start, map[], [];
      slot, pending, pump, supervisor, waiting, answers, next := None, false, Reading, Resting, [], [], 0;
      clock, at := 0, map[];
    }

    ghost function Directory(): Dir
      reads this
    {
      Dir(disk, delivered, files)
    }

    ghost function State(): Host
      reads this
    {
      Host(Directory(), Seat(slot, pending, pump, supervisor, waiting, answers, next, clock, at))
    }

    /** The transfer in the slot has this id. */
    predicate Concerned(id: string)
      reads this
    {
      slot.Some? && Key(k, slot.value) in files && files[Key(k, slot.value)].part in disk && files[Key(k, slot.value)].id == id
    }

    /** A message reaches the pump. */
    method Incoming(m: Msg, io: Io) returns (reply: Reply)
      modifies this
      ensures (State(), reply) == OnReceive(old(State()), k, m, max, io)
    {
      hide Append, Discard, SaneId, IsHash;
      reply := NotMine;
      match m
      case Offer(id, name, size, hash) =>
        if !SaneId(id) || !IsHash(hash) || size == 0 || size > max || slot.Some? {
          reply := Declined(id);
        } else {
          at := at[SeesFree(next) := clock];
          pump, next, reply := SawFree(Ticket(next, m)), next + 1, Quiet;
        }
      case Chunk(id, number, data) =>
        if Concerned(id) {
          var ok := ApplyChunk(Key(k, slot.value), number, data, io);
          if !ok {
            slot := None;
          }
          reply := if ok then Quiet else Aborted(id);
        } else {
          EmptySlot();
          reply := Aborted(id);
        }
      case End(id) =>
        if Concerned(id) {
          slot, pump, reply := None, Ending(slot.value), Quiet;
        } else {
          reply := Aborted(id);
        }
      case Abort(id) =>
        if Concerned(id) {
          EmptySlot();
        }
        reply := Quiet;
      case Other =>
    }

    /** The pump goes on with an offer, or with a transfer that ended. */
    method Continue(sha: Digest, io: Io, duplicate: bool) returns (reply: Reply)
      modifies this
      ensures (State(), reply) == OnPump(old(State()), k, sha, io, duplicate)
    {
      hide Finish, Listed;
      reply := Quiet;
      match pump
      case Reading =>
        reply := NotMine;
      case SawFree(t) =>
        if pending {
          at := at[Loses(t.number) := clock];
          pump, reply := Reading, Declined(t.offer.id);
        } else {
          at := at[SeesClear(t.number) := clock];
          pump := SawClear(t);
        }
      case SawClear(t) =>
        if duplicate || Listed(waiting, t.offer.id) {
          at := at[Loses(t.number) := clock];
          pump, reply := Reading, Declined(t.offer.id);
        } else {
          pump, waiting := Filed(t), waiting + [t];
        }
      case Filed(t) =>
        at := at[Sets(t.number) := clock];
        pump, pending := Reading, true;
      case Ending(n) =>
        if Key(k, n) in files && files[Key(k, n)].part in disk {
          var id := files[Key(k, n)].id;
          var ok := FinalizeTransfer(Key(k, n), sha, io);
          pump, reply := Reading, if ok then Done(id) else Aborted(id);
        } else {
          reply := NotMine;
        }
    }

    /** The supervisor goes on with a panel answer, or with leaving. */
    method Answered(io: Io) returns (reply: Reply)
      modifies this
      ensures (State(), reply) == OnSupervise(old(State()), k, io)
    {
      hide Open, Discard;
      reply := Quiet;
      match supervisor
      case Resting =>
        if answers == [] {
          return NotMine;
        }
        var a := answers[0];
        at := at[Clears(a.ticket.number) := clock];
        pending, answers := false, answers[1..];
        if a.accept {
          supervisor := Cleared(a.ticket);
        } else {
          reply := Declined(a.ticket.offer.id);
        }
      case Cleared(t) =>
        var ok := OpenTransfer(t, io);
        if ok {
          supervisor := Opened(t);
        } else {
          supervisor, reply := Resting, Declined(t.offer.id);
        }
      case Opened(t) =>
        if slot.Some? {
          at := at[Drops(slot.value) := clock];
        }
        at := at[Stores(t.number) := clock];
        slot, supervisor, reply := Some(t.number), Resting, Accepted(t.offer.id);
      case Leaving =>
        EmptySlot();
        at := at[TearsDown := clock];
        supervisor := Gone;
      case Gone =>
        reply := NotMine;
    }

    method OpenTransfer(t: Ticket, io: Io) returns (ok: bool)
      modifies `disk, `files
      ensures ok == (io.storage && Open(View(old(Directory()), Key(k, t.number)), t.offer).Some?)
      ensures Directory() == if ok then Back(old(Directory()), Key(k, t.number), Open(View(old(Directory()), Key(k, t.number)), t.offer).value)
                             else old(Directory())
    {
      var part := PartName(t.offer.id);
      ok := io.storage && part !in disk;
      if ok {
        var held := Active(t.offer, t.offer.id, part, Sanitize(t.offer.name), t.offer.size, Lower(t.offer.sha), [], 0, 0);
        disk, files := disk[part := []], files[Key(k, t.number) := held];
      }
    }

    method ApplyChunk(key: Key, number: nat, data: Option<Octets>, io: Io) returns (ok: bool)
      requires key in files && files[key].part in disk
      modifies `disk, `files
      ensures Directory() == Back(old(Directory()), key, Append(View(old(Directory()), key), number, data, io))
      ensures ok == Append(View(old(Directory()), key), number, data, io).active.Some?
    {
      var a := files[key];
      if number != a.nextSeq || data.None? || data.value == [] || |data.value| > FILE_CHUNK_BYTES
         || a.received + |data.value| > a.expectedSize || !io.write {
        DiscardFile(key);
        return false;
      }
      disk := disk[a.part := disk[a.part] + data.value];
      files := files[key := a.(hashed := a.hashed + data.value, received := a.received + |data.value|,
                               nextSeq := a.nextSeq + 1)];
      ok := true;
    }

    method FinalizeTransfer(key: Key, sha: Digest, io: Io) returns (ok: bool)
      requires key in files && files[key].part in disk
      modifies `disk, `files, `delivered
      ensures Directory() == Back(old(Directory()), key, Finish(View(old(Directory()), key), sha, io))
      ensures ok == (|delivered| > |old(delivered)|)
    {
      var a := files[key];
      if a.received != a.expectedSize || sha(a.hashed) != a.expectedSha || !io.flush {
        DiscardFile(key);
        return false;
      }
      var dest := UniqueDestination(disk.Keys, a.finalName, io.unix);
      if !io.rename {
        DiscardFile(key);
        return false;
      }
      var bytes := disk[a.part];
      files, disk := files - {key}, (disk - {a.part})[dest := bytes];
      delivered := delivered + [Delivery(a.offer, dest, bytes)];
      ok := true;
    }

    method DiscardFile(key: Key)
      modifies `disk, `files
      ensures Directory() == Back(old(Directory()), key, Discard(View(old(Directory()), key)))
    {
      if key in files {
        disk := disk - {files[key].part};
      }
      files := files - {key};
    }

    method EmptySlot()
      modifies `slot, `disk, `files
      ensures State() == Emptied(old(State()), k)
    {
      if slot.Some? {
        DiscardFile(Key(k, slot.value));
        slot := None;
      }
    }
  }

  // ---------------------------------------------------------- what ends a transfer

  /** A transfer in the slot outlives a message exactly when that is the next chunk of
      its own and storage takes it, an offer, another's end or abort, or no file
      message at all. A chunk under any other id ends it. */
  lemma SurvivesIff(h: Host, k: nat, m: Msg, max: nat, io: Io)
    requires h.seat.slot.Some? && Has(h.dir, Key(k, h.seat.slot.value))
    ensures var key, t := Key(k, h.seat.slot.value), OnReceive(h, k, m, max, io).0;
            var a := h.dir.files[key];
            && (t.seat.slot == h.seat.slot <==>
                  match m
                  case Chunk(id, number, data) => id == a.id && Fits(a, number, data) && io.write
                  case End(id) => id != a.id
                  case Abort(id) => id != a.id
                  case Offer(_, _, _, _) => true
                  case Other => true)
            && (t.seat.slot.None? && !m.End? ==> t.dir == Dir(h.dir.disk - {a.part}, h.dir.delivered, h.dir.files - {key}))
  {
    hide PartName, Sanitize, Lower, FreeName, SaneId, IsHash;
  }

  /** Two chunks, the first under another id: the transfer is gone, and its own next
      chunk, which would have fitted, is refused too. */
  lemma ForeignChunkEndsIt(h: Host, k: nat, other: string, data: Octets, max: nat, io: Io)
    requires h.seat.slot.Some? && Has(h.dir, Key(k, h.seat.slot.value))
    requires other != h.dir.files[Key(k, h.seat.slot.value)].id
    ensures var a := h.dir.files[Key(k, h.seat.slot.value)];
            var (t, first) := OnReceive(h, k, Chunk(other, 0, Some(data)), max, io);
            && first == Aborted(other) && t.seat.slot.None? && a.part !in t.dir.disk
            && OnReceive(t, k, Chunk(a.id, a.nextSeq, Some(data)), max, io) == (t, Aborted(a.id))
  {
    hide PartName, Sanitize, Lower, FreeName, SaneId, IsHash;
  }

  /** An offer is looked at further exactly when its id is one to 64 letters, digits and
      dashes, its hash 64 hexadecimal digits, its size from one byte to the limit, and no
      transfer is in the slot; any other is declined at once and changes nothing. */
  lemma OfferIsJudged(h: Host, k: nat, m: Msg, max: nat, io: Io)
    requires m.Offer?
    ensures var (t, reply) := OnReceive(h, k, m, max, io);
            if 1 <= |m.id| <= 64 && (forall i :: 0 <= i < |m.id| ==> AsciiAlnumOrDash(m.id[i]))
               && |m.sha| == 64 && (forall i :: 0 <= i < 64 ==> Nibble(m.sha[i]) < 16)
               && 1 <= m.size <= max && h.seat.slot.None?
            then reply == Quiet && t.dir == h.dir && t.seat.pump == SawFree(Ticket(h.seat.next, m)) && t.seat.next == h.seat.next + 1
            else t == h && reply == Declined(m.id)
  {
    HashIff(m.sha);
    IdIff(m.id);
    hide SaneId, IsHash;
  }

  lemma IdIff(id: string)
    ensures SaneId(id) <==> 1 <= |id| <= 64 && forall i :: 0 <= i < |id| ==> AsciiAlnumOrDash(id[i])
  {
    assert forall c :: IdChar(c) <==> AsciiAlnumOrDash(c);
  }

  /** Every chunk that is not taken, and every end of no transfer, is answered with an
      abort under the id it came with; an abort is answered with nothing. */
  lemma FileMessagesAreAnswered(h: Host, k: nat, m: Msg, max: nat, io: Io)
    requires m.Chunk? || m.End? || m.Abort?
    requires h.seat.slot.Some? ==> Has(h.dir, Key(k, h.seat.slot.value))
    ensures var own := h.seat.slot.Some? && h.dir.files[Key(k, h.seat.slot.value)].id == m.id;
            var (t, reply) := OnReceive(h, k, m, max, io);
            match m
            case Chunk(id, number, data) =>
              reply == if own && Fits(h.dir.files[Key(k, h.seat.slot.value)], number, data) && io.write then Quiet else Aborted(id)
            case End(id) =>
              if own then reply == Quiet && t.seat.pump == Ending(h.seat.slot.value) && t.seat.slot.None? && t.dir == h.dir
              else reply == Aborted(id) && t == h
            case Abort(id) => reply == Quiet && (!own ==> t == h)
            case _ => true
  {
    hide PartName, Sanitize, Lower, FreeName, SaneId, IsHash;
  }

  /** The second check files an offer with the panel exactly when none with its id waits
      there, from this session or another (`duplicate`); otherwise it is declined. */
  lemma FiledIffNoDuplicate(h: Host, k: nat, sha: Digest, io: Io, duplicate: bool)
    requires h.seat.pump.SawClear?
    ensures var t, (u, reply) := h.seat.pump.ticket, OnPump(h, k, sha, io, duplicate);
            if duplicate || exists i :: 0 <= i < |h.seat.waiting| && h.seat.waiting[i].offer.id == t.offer.id
            then reply == Declined(t.offer.id) && u.seat.waiting == h.seat.waiting && u.seat.pump.Reading?
            else u.seat.waiting == h.seat.waiting + [t] && u.seat.pump == Filed(t)
  {
  }
}
