/** The desktop viewer receiving files from the host, whatever the host sends. */
module DesktopReceiver {
  import opened Bytes
  import opened FileNames
  import opened FileReceive
  import opened Options

  predicate Acceptable(enabled: bool, c: Core, m: Msg, io: Io)
    requires m.Offer?
  {
    enabled && c.active.None? && 0 < m.size <= MAX_RECEIVE_BYTES && IsHash(m.sha) && io.storage && Open(c, m).Some?
  }

  /** One control message; the partial file of a transfer in progress exists. */
  function Handle(enabled: bool, c: Core, m: Msg, sha: Digest, io: Io): (Core, Reply)
    requires c.active.Some? ==> c.active.value.part in c.disk
  {
    match m
    case Offer(id, _, _, _) =>
      if Acceptable(enabled, c, m, io) then (Open(c, m).value, Accepted(id)) else (c, Declined(id))
    case Chunk(id, number, data) => if Concerns(c, id) then OnChunk(c, number, data, io) else (c, NotMine)
    case End(id) => if Concerns(c, id) then OnEnd(c, sha, io) else (c, NotMine)
    case Abort(id) => if Concerns(c, id) then (Discard(c), Quiet) else (c, NotMine)
    case Other => (c, NotMine)
  }

  class FileReceiver {
    const enabled: bool
    var active: Option<Active>
    var disk: Disk
    ghost var delivered: seq<Delivery>

    constructor (enabled: bool, start: Disk)
      ensures this.enabled == enabled && State() == Core(None, start, [])
    {
      this.enabled, active, disk, delivered := enabled, None, start, [];
    }

    ghost function State(): Core
      reads this
    {
      Core(active, disk, delivered)
    }

    ghost predicate Valid()
      reads this
    {
      active.Some? ==> active.value.part in disk
    }

    method HandleMessage(m: Msg, sha: Digest, io: Io) returns (reply: Reply)
      requires Valid()
      modifies this
      ensures (State(), reply) == Handle(enabled, old(State()), m, sha, io)
    {
      hide PartName, Sanitize, Lower, FreeName;
      match m
      case Offer(id, name, size, hash) =>
        reply := OnOffer(m, io);
      case Chunk(id, number, data) =>
        if active.Some? && active.value.id == id {
          reply := OnChunk(id, number, data, io);
        } else {
          reply := NotMine;
        }
      case End(id) =>
        if active.Some? && active.value.id == id {
          reply := OnEnd(id, sha, io);
        } else {
          reply := NotMine;
        }
      case Abort(id) =>
        reply := NotMine;
        if active.Some? && active.value.id == id {
          Reset();
          reply := Quiet;
        }
      case Other =>
        reply := NotMine;
    }

    method OnOffer(m: Msg, io: Io) returns (reply: Reply)
      requires m.Offer?
      modifies this
      ensures State() == (if Acceptable(enabled, old(State()), m, io) then Open(old(State()), m).value else old(State()))
      ensures reply == if Acceptable(enabled, old(State()), m, io) then Accepted(m.id) else Declined(m.id)
    {
      reply := Declined(m.id);
      if !enabled || active.Some? {
        return;
      }
      if m.size == 0 || m.size > MAX_RECEIVE_BYTES || !IsHash(m.sha) || !io.storage {
        return;
      }
      var finalName, part := Sanitize(m.name), PartName(m.id);
      if part in disk {
        return;
      }
      disk := disk[part := []];
      active := Some(Active(m, m.id, part, finalName, m.size, Lower(m.sha), [], 0, 0));
      reply := Accepted(m.id);
    }

    method OnChunk(id: string, number: nat, data: Option<Octets>, io: Io) returns (reply: Reply)
      requires active.Some? && active.value.id == id && active.value.part in disk
      modifies this
      ensures (State(), reply) == FileReceive.OnChunk(old(State()), number, data, io)
    {
      var a := active.value;
      if number != a.nextSeq || data.None? || data.value == [] || |data.value| > FILE_CHUNK_BYTES
         || a.received + |data.value| > a.expectedSize || !io.write {
        Reset();
        return Aborted(id);
      }
      disk := disk[a.part := disk[a.part] + data.value];
      active := Some(a.(hashed := a.hashed + data.value, received := a.received + |data.value|, nextSeq := a.nextSeq + 1));
      reply := Quiet;
    }

    method OnEnd(id: string, sha: Digest, io: Io) returns (reply: Reply)
      requires active.Some? && active.value.id == id && active.value.part in disk
      modifies this
      ensures (State(), reply) == FileReceive.OnEnd(old(State()), sha, io)
    {
      var a := active.value;
      if a.received != a.expectedSize || sha(a.hashed) != a.expectedSha || !io.flush {
        Reset();
        return Aborted(id);
      }
      var dest := UniqueDestination(disk.Keys, a.finalName, io.unix);
      if !io.rename {
        Reset();
        return Aborted(id);
      }
      var bytes := disk[a.part];
      active, disk := None, (disk - {a.part})[dest := bytes];
      delivered := delivered + [Delivery(a.offer, dest, bytes)];
      reply := Done(id);
    }

    /** Also what Drop does when the session ends. */
    method Reset()
      modifies this
      ensures State() == Discard(old(State()))
    {
      if active.Some? {
        disk := disk - {active.value.part};
        active := None;
      }
    }
  }

  // ------------------------------------------------------------------------- runs

  datatype Event = Message(m: Msg, io: Io) | Teardown

  /** A run from a directory `start`: arbitrary messages, arbitrary storage failures. */
  function Exec(start: Disk, enabled: bool, sha: Digest, events: seq<Event>): Core {
    if events == [] then Core(None, start, [])
    else
      var c := Exec(start, enabled, sha, events[..|events| - 1]);
      match events[|events| - 1]
      case Teardown => Discard(c)
      case Message(m, io) =>
        if c.active.Some? && c.active.value.part !in c.disk then c else Handle(enabled, c, m, sha, io).0
  }

  /** Only offers within the cap are ever taken up. */
  predicate Capped(c: Core) {
    c.active.Some? ==> c.active.value.offer.Offer? && 0 < c.active.value.offer.size <= MAX_RECEIVE_BYTES
  }

  lemma HandleKeepsSound(start: Disk, enabled: bool, sha: Digest, c: Core, m: Msg, io: Io)
    requires Sound(c, start, sha) && Capped(c) && (c.active.Some? ==> c.active.value.part in c.disk)
    ensures Sound(Handle(enabled, c, m, sha, io).0, start, sha) && Capped(Handle(enabled, c, m, sha, io).0)
  {
    hide Sound, PartName, Sanitize, Lower, FreeName;
    match m
    case Offer(_, _, _, _) =>
      if Acceptable(enabled, c, m, io) {
        OpenKeepsSound(c, m, start, sha);
      }
    case Chunk(id, number, data) =>
      if Concerns(c, id) {
        AppendKeepsSound(c, number, data, io, start, sha);
      }
    case End(id) =>
      if Concerns(c, id) {
        FinishKeepsSound(c, sha, io, start);
      }
    case Abort(id) =>
      DiscardKeepsSound(c, start, sha);
    case Other =>
  }

  /** Whatever arrives, whatever fails: the directory holds what it held, each file
      delivered and verified since, and the bytes of the one transfer in progress;
      the bytes written, hashed and counted agree. */
  lemma {:induction false} EveryRunIsSound(start: Disk, enabled: bool, sha: Digest, events: seq<Event>)
    ensures Sound(Exec(start, enabled, sha, events), start, sha) && Capped(Exec(start, enabled, sha, events))
  {
    hide Sound, Handle, Discard;
    if events == [] {
      StartIsSound(start, sha);
    } else {
      var before := events[..|events| - 1];
      var c := Exec(start, enabled, sha, before);
      EveryRunIsSound(start, enabled, sha, before);
      if c.active.Some? {
        PartIsThere(c, start, sha);
      }
      if events[|events| - 1].Teardown? {
        DiscardKeepsSound(c, start, sha);
        assert Capped(Discard(c)) by { DiscardIsIdle(c); }
      } else {
        HandleKeepsSound(start, enabled, sha, c, events[|events| - 1].m, events[|events| - 1].io);
      }
    }
  }

  lemma DiscardIsIdle(c: Core)
    ensures Discard(c).active.None? && Discard(c).delivered == c.delivered
  {
  }

  /** No partial file survives the session, however it ends. */
  lemma TeardownLeavesNoLitter(start: Disk, enabled: bool, sha: Digest, events: seq<Event>)
    ensures var c := Exec(start, enabled, sha, events + [Teardown]); c.disk == Placed(start, c.delivered)
  {
    hide Sound, Handle, Placed;
    EveryRunIsSound(start, enabled, sha, events);
    assert (events + [Teardown])[..|events|] == events;
    var c := Exec(start, enabled, sha, events);
    DiscardKeepsSound(c, start, sha);
    DiscardIsIdle(c);
  }

  /** The u32 chunk counter cannot overflow. */
  lemma CounterNeverOverflows(start: Disk, enabled: bool, sha: Digest, events: seq<Event>)
    requires Exec(start, enabled, sha, events).active.Some?
    ensures var a := Exec(start, enabled, sha, events).active.value;
            a.nextSeq <= a.received == |a.hashed| <= a.expectedSize && a.nextSeq + 1 < U32
  {
    hide Exec;
    EveryRunIsSound(start, enabled, sha, events);
  }

  /** FileDone is sent exactly when a verified file was put in place. */
  lemma DoneMeansVerified(start: Disk, enabled: bool, sha: Digest, events: seq<Event>, id: string, io: Io)
    requires var c := Exec(start, enabled, sha, events); Concerns(c, id) && c.active.value.part in c.disk
    ensures var c := Exec(start, enabled, sha, events); var (t, reply) := Handle(enabled, c, End(id), sha, io);
            && (reply == Done(id) <==> |t.delivered| == |c.delivered| + 1)
            && (reply == Done(id) ==>
                  && var d := t.delivered[|c.delivered|];
                     && Genuine(d, sha) && d.offer.id == id && d.bytes == c.active.value.hashed
                     && (d.dest in c.disk <==> AllTaken(c.disk.Keys, Sanitize(d.offer.name), io.unix)))
  {
    hide Exec, PartName, Sanitize, Lower, FreeName, Genuine, Placed, AllTaken, Finish;
    EveryRunIsSound(start, enabled, sha, events);
    FinishDelivers(Exec(start, enabled, sha, events), sha, io, start);
  }

  // ------------------------------------------------------------------- end to end

  /** The receiver as a step, messages arriving and storage behaving. */
  function Step(sha: Digest, io: Io): (Core, Msg) -> (Core, Reply) {
    (c: Core, m: Msg) =>
      if c.active.Some? && c.active.value.part !in c.disk then (c, NotMine) else Handle(true, c, m, sha, io)
  }

  /** The offer and these chunks. */
  function Sent(offer: Msg, parts: seq<Octets>, wraps: bool): seq<Msg>
    requires offer.Offer?
  {
    [offer] + ChunkMsgs(offer.id, parts, wraps)
  }

  lemma {:induction false} ChunksArrive(c: Core, offer: Msg, parts: seq<Octets>, wraps: bool, sha: Digest, io: Io)
    requires offer.Offer? && c.active.None? && Acceptable(true, c, offer, io) && Calm(io)
    requires Cuts(parts, Concat(parts)) && |Concat(parts)| <= offer.size
    ensures var (t, replies) := Feed(Step(sha, io), c, Sent(offer, parts, wraps));
            Holding(t, c, offer, Concat(parts), |parts|) && replies == [Accepted(offer.id)] + Quiets(|parts|)
    decreases |parts|
  {
    hide Step, Open, IsHash, Feed, Holding, Sent, Concat, Cuts;
    if parts == [] {
      OfferArrives(c, offer, wraps, sha, io);
    } else {
      var n := |parts| - 1;
      CutsPrefix(parts);
      ChunksArrive(c, offer, parts[..n], wraps, sha, io);
      NextArrives(c, offer, parts[..n], parts[n], wraps, sha, io);
      assert parts[..n] + [parts[n]] == parts;
    }
  }

  lemma OfferArrives(c: Core, offer: Msg, wraps: bool, sha: Digest, io: Io)
    requires offer.Offer? && c.active.None? && Acceptable(true, c, offer, io)
    ensures var (t, replies) := Feed(Step(sha, io), c, Sent(offer, [], wraps));
            Holding(t, c, offer, Concat([]), 0) && replies == [Accepted(offer.id)] + Quiets(0)
  {
    hide Open, IsHash, Holding;
    OpenHolds(c, offer);
    FeedOne(Step(sha, io), c, [], offer);
    assert [] + [offer] == [offer] && Sent(offer, [], wraps) == [offer];
    assert [] + [Accepted(offer.id)] == [Accepted(offer.id)] + Quiets(0);
  }

  lemma NextArrives(c: Core, offer: Msg, before: seq<Octets>, part: Octets, wraps: bool, sha: Digest, io: Io)
    requires offer.Offer? && Calm(io) && |before| < U32
    requires 0 < |part| <= FILE_CHUNK_BYTES && |Concat(before)| + |part| <= offer.size
    requires var (t, replies) := Feed(Step(sha, io), c, Sent(offer, before, wraps));
             Holding(t, c, offer, Concat(before), |before|) && replies == [Accepted(offer.id)] + Quiets(|before|)
    ensures var (t, replies) := Feed(Step(sha, io), c, Sent(offer, before + [part], wraps));
            && Holding(t, c, offer, Concat(before + [part]), |before| + 1)
            && replies == [Accepted(offer.id)] + Quiets(|before| + 1)
  {
    hide PartName, Sanitize, Lower, Feed, ChunkMsgs, Concat, OnChunk;
    var n, m := |before|, Chunk(offer.id, |before|, Some(part));
    OneMoreChunk(offer.id, before, part, wraps);
    Regroup([offer], ChunkMsgs(offer.id, before, wraps), [m]);
    FeedOne(Step(sha, io), c, Sent(offer, before, wraps), m);
    ChunkIsHeld(Feed(Step(sha, io), c, Sent(offer, before, wraps)).0, c, offer, Concat(before), n, part, io);
    ConcatOne(before, part);
    assert [Accepted(offer.id)] + Quiets(n) + [Quiet] == [Accepted(offer.id)] + Quiets(n + 1);
  }

  lemma CutsPrefix(parts: seq<Octets>)
    requires parts != [] && Cuts(parts, Concat(parts))
    ensures var n := |parts| - 1;
            && Cuts(parts[..n], Concat(parts[..n])) && Concat(parts) == Concat(parts[..n]) + parts[n]
            && n <= |Concat(parts[..n])| && 0 < |parts[n]| <= FILE_CHUNK_BYTES
  {
    EachPartIsAByte(parts[..|parts| - 1]);
  }

  /** A file within the cap, offered with its own hash and cut into chunks in any
      way, arrives whole: no abort, FileDone at the end, the same bytes in place. */
  lemma FileArrives(c: Core, offer: Msg, content: Octets, parts: seq<Octets>, wraps: bool, sha: Digest, io: Io)
    requires offer.Offer? && 0 < |content| <= MAX_RECEIVE_BYTES && IsDigest(sha)
    requires offer.size == |content| && offer.sha == sha(content) && Cuts(parts, content)
    requires c.active.None? && PartName(offer.id) !in c.disk && Calm(io)
    ensures var (t, replies) := Feed(Step(sha, io), c, Sent(offer, parts, wraps) + [End(offer.id)]);
            InPlace(t, c, offer, content) && replies == [Accepted(offer.id)] + Quiets(|parts|) + [Done(offer.id)]
  {
    hide PartName, Sanitize, Lower, IsHash, IsDigest, Feed, Sent, InPlace, OnEnd;
    assert Acceptable(true, c, offer, io) by { DigestIsHash(sha, content); }
    ChunksArrive(c, offer, parts, wraps, sha, io);
    FeedOne(Step(sha, io), c, Sent(offer, parts, wraps), End(offer.id));
    EndDelivers(Feed(Step(sha, io), c, Sent(offer, parts, wraps)).0, c, offer, content, |parts|, sha, io);
  }

  // ----------------------------------------------------------------- which offers are taken

  /** An offer is accepted exactly when receiving is on, no transfer is in progress, the
      file has between one byte and 2 GiB and a hash of 64 hexadecimal digits, and its
      partial file can be created; then that file is there, empty. Any other leaves all as
      it was. */
  lemma OfferTakenIff(enabled: bool, c: Core, m: Msg, sha: Digest, io: Io)
    requires m.Offer? && (c.active.Some? ==> c.active.value.part in c.disk)
    ensures var (t, reply) := Handle(enabled, c, m, sha, io);
            if enabled && c.active.None? && 1 <= m.size <= 2_147_483_648 && |m.sha| == 64
               && (forall i :: 0 <= i < 64 ==> Nibble(m.sha[i]) < 16)
               && io.storage && PartName(m.id) !in c.disk
            then reply == Accepted(m.id) && t.active.Some? && t.disk == c.disk[PartName(m.id) := []]
            else reply == Declined(m.id) && t == c
  {
    hide PartName, Sanitize, Lower;
    HashIff(m.sha);
  }

  /** Messages under another id than the transfer's, or without a transfer, change
      nothing; an abort under its own discards it with its file. */
  lemma OnlyOwnMessagesCount(enabled: bool, c: Core, m: Msg, sha: Digest, io: Io)
    requires !m.Offer? && (c.active.Some? ==> c.active.value.part in c.disk)
    ensures var (t, reply) := Handle(enabled, c, m, sha, io);
            && (m.Other? || c.active.None? || m.id != c.active.value.id ==> t == c && reply == NotMine)
            && (m.Abort? && c.active.Some? && m.id == c.active.value.id ==>
                  t == Core(None, c.disk - {c.active.value.part}, c.delivered) && reply == Quiet)
  {
    hide PartName, Sanitize, Lower, FreeName;
  }
}
