/** A whole transfer to the host: offer, accept, chunks, end. */
module HostDeliveries {
  import opened Bytes
  import opened FileNames
  import opened FileReceive
  import opened HostRuns
  import opened HostTransfers
  import opened Options
  import opened SharedDirectory

  /** A session as a step, messages arriving at its pump. */
  function Reader(k: nat, max: nat, sha: Digest, io: Io): (Host, Msg) -> (Host, Reply) {
    (h: Host, m: Msg) => Act(h, k, Receive(m, io), max, sha)
  }

  /** Offered, accepted and stored, the first chunk not yet there. */
  function Opening(m: Msg, io: Io): seq<Choice> {
    Filing(m, io) + Accepting(io)
  }

  /** The transfer is in the slot and the chunks so far in its file. */
  predicate Arriving(h: Host, k: nat, n: nat, c: Core, offer: Msg, got: Octets, count: nat)
    requires offer.Offer?
  {
    h.seat.slot == Some(n) && h.seat.pump.Reading? && Holding(View(h.dir, Key(k, n)), c, offer, got, count)
  }

  lemma OpeningArrives(h: Host, k: nat, m: OfferMsg, io: Io, max: nat, sha: Digest)
    requires Idle(h.seat) && h.seat.supervisor.Resting? && Sane(m, max) && io.storage && PartName(m.id) !in h.dir.disk
    ensures var t, c := Acts(h, k, Opening(m, io), max, sha), View(h.dir, Key(k, h.seat.next));
            Arriving(t, k, h.seat.next, c, m, [], 0) && Bare(t.seat) == Bare(h.seat.(slot := Some(h.seat.next), next := h.seat.next + 1))
  {
    hide Acts, Filing, Accepting, Sane, PartName, Sanitize, Lower;
    ActsJoin(h, k, Filing(m, io), Accepting(io), max, sha);
    FilingWaits(h, k, m, io, max, sha);
    AcceptingStores(Acts(h, k, Filing(m, io), max, sha), k, Ticket(h.seat.next, m), io, max, sha);
    OpenHolds(View(h.dir, Key(k, h.seat.next)), m);
  }

  lemma ChunkArrives(h: Host, k: nat, n: nat, c: Core, offer: Msg, got: Octets, count: nat, part: Octets, max: nat, sha: Digest, io: Io)
    requires offer.Offer? && Arriving(h, k, n, c, offer, got, count) && io.write
    requires 0 < |part| <= FILE_CHUNK_BYTES && |got| + |part| <= offer.size
    ensures var (t, reply) := Reader(k, max, sha, io)(h, Chunk(offer.id, count, Some(part)));
            Arriving(t, k, n, c, offer, got + part, count + 1) && reply == Quiet
  {
    hide PartName, Sanitize, Lower, OnChunk, OnPump, OnSupervise, OnPanel, OnLeave;
    ChunkIsHeld(View(h.dir, Key(k, n)), c, offer, got, count, part, io);
  }

  lemma {:induction false} ChunksArrive(h: Host, k: nat, n: nat, c: Core, offer: Msg, parts: seq<Octets>, max: nat, sha: Digest, io: Io)
    requires offer.Offer? && Arriving(h, k, n, c, offer, [], 0) && Calm(io)
    requires (forall i :: 0 <= i < |parts| ==> 0 < |parts[i]| <= FILE_CHUNK_BYTES) && |Concat(parts)| <= offer.size
    ensures var (t, replies) := Feed(Reader(k, max, sha, io), h, ChunkMsgs(offer.id, parts, false));
            Arriving(t, k, n, c, offer, Concat(parts), |parts|) && replies == Quiets(|parts|)
    decreases |parts|
  {
    hide Reader, Arriving, Feed, ChunkMsgs, Concat;
    if parts == [] {
      NothingFed(h, offer.id, k, max, sha, io);
      assert Quiets(0) == [];
    } else {
      var count := |parts| - 1;
      var before, part := parts[..count], parts[count];
      assert before + [part] == parts;
      ConcatOne(before, part);
      ChunksArrive(h, k, n, c, offer, before, max, sha, io);
      OneMoreChunk(offer.id, before, part, false);
      var msgs := ChunkMsgs(offer.id, before, false);
      FeedOne(Reader(k, max, sha, io), h, msgs, Chunk(offer.id, count, Some(part)));
      ChunkArrives(Feed(Reader(k, max, sha, io), h, msgs).0, k, n, c, offer, Concat(before), count, part, max, sha, io);
      assert Quiets(count) + [Quiet] == Quiets(count + 1);
    }
  }

  lemma NothingFed(h: Host, id: string, k: nat, max: nat, sha: Digest, io: Io)
    ensures Feed(Reader(k, max, sha, io), h, []) == (h, []) && ChunkMsgs(id, [], false) == [] && Concat([]) == []
  {
  }

  lemma EndArrives(h: Host, k: nat, n: nat, c: Core, offer: Msg, content: Octets, count: nat, max: nat, sha: Digest, io: Io)
    requires offer.Offer? && Arriving(h, k, n, c, offer, content, count) && Calm(io) && IsDigest(sha)
    requires offer.size == |content| && offer.sha == sha(content) && PartName(offer.id) !in c.disk
    ensures var (t, first) := Reader(k, max, sha, io)(h, End(offer.id));
            var (u, last) := Act(t, k, PumpOn(io, false), max, sha);
            && first == Quiet && last == Done(offer.id) && u.seat.slot.None? && u.seat.pump.Reading?
            && InPlace(View(u.dir, Key(k, n)), c, offer, content)
  {
    hide PartName, Sanitize, Lower, OnEnd, OnSupervise, OnPanel, OnLeave, IsDigest, IsHash, InPlace;
    EndDelivers(View(h.dir, Key(k, n)), c, offer, content, count, sha, io);
    DeliveredIdle(View(h.dir, Key(k, n)), sha, io);
  }

  lemma DeliveredIdle(c: Core, sha: Digest, io: Io)
    requires c.active.Some? && c.active.value.part in c.disk
    ensures OnEnd(c, sha, io).0.active.None?
  {
  }

  /** Offer, accept, chunks of any cut, end: the host answers FileDone and the file is
      in place, byte for byte. */
  lemma FileArrives(h: Host, k: nat, offer: OfferMsg, content: Octets, parts: seq<Octets>, max: nat, sha: Digest, io: Io)
    requires Idle(h.seat) && h.seat.supervisor.Resting? && 0 < |content| <= max && SaneId(offer.id) && IsDigest(sha)
    requires offer.size == |content| && offer.sha == sha(content) && Cuts(parts, content)
    requires PartName(offer.id) !in h.dir.disk && Calm(io)
    ensures var ready, key := Acts(h, k, Opening(offer, io), max, sha), Key(k, h.seat.next);
            var (t, replies) := Feed(Reader(k, max, sha, io), ready, ChunkMsgs(offer.id, parts, false) + [End(offer.id)]);
            var (u, last) := Act(t, k, PumpOn(io, false), max, sha);
            && replies == Quiets(|parts|) + [Quiet] && last == Done(offer.id)
            && InPlace(View(u.dir, key), View(h.dir, key), offer, content) && u.seat.slot.None? && u.seat.pump.Reading?
  {
    hide Acts, Act, Feed, Reader, Opening, Arriving, InPlace, ChunkMsgs, PartName, SaneId, IsHash, IsDigest;
    SaneOffer(offer, content, max, sha);
    OpeningArrives(h, k, offer, io, max, sha);
    var ready, msgs, c := Acts(h, k, Opening(offer, io), max, sha), ChunkMsgs(offer.id, parts, false), View(h.dir, Key(k, h.seat.next));
    ChunksArrive(ready, k, h.seat.next, c, offer, parts, max, sha, io);
    FeedOne(Reader(k, max, sha, io), ready, msgs, End(offer.id));
    EndArrives(Feed(Reader(k, max, sha, io), ready, msgs).0, k, h.seat.next, c, offer, content, |parts|, max, sha, io);
  }

  lemma SaneOffer(offer: OfferMsg, content: Octets, max: nat, sha: Digest)
    requires 0 < offer.size <= max && SaneId(offer.id) && IsDigest(sha) && offer.sha == sha(content)
    ensures Sane(offer, max)
  {
    hide SaneId, IsHash;
    DigestIsHash(sha, content);
  }

  // -------------------------------------------------------------- the chunk counter

  function Receives(msgs: seq<Msg>, io: Io): seq<Choice> {
    seq(|msgs|, i requires 0 <= i < |msgs| => Receive(msgs[i], io))
  }

  lemma {:induction false} FeedIsActs(h: Host, k: nat, msgs: seq<Msg>, max: nat, sha: Digest, io: Io)
    ensures Feed(Reader(k, max, sha, io), h, msgs).0 == Acts(h, k, Receives(msgs, io), max, sha)
    decreases |msgs|
  {
    hide Act;
    if msgs != [] {
      var rest, m := msgs[..|msgs| - 1], msgs[|msgs| - 1];
      assert msgs == rest + [m] && Receives(msgs, io) == Receives(rest, io) + [Receive(m, io)];
      FeedOne(Reader(k, max, sha, io), h, rest, m);
      ActsOne(h, k, Receives(rest, io), Receive(m, io), max, sha);
      FeedIsActs(h, k, rest, max, sha, io);
    }
  }

  function OneByteEach(n: nat): seq<Octets> {
    seq(n, _ => [0])
  }

  lemma {:induction false} OneByteEachIs(n: nat)
    ensures |Concat(OneByteEach(n))| == n
  {
    if n > 0 {
      OneByteEachIs(n - 1);
      assert OneByteEach(n)[..n - 1] == OneByteEach(n - 1);
    }
  }

  /** Chunks of one byte take the chunk counter to any number up to the size offered,
      and so to 2^32 when the cap allows it. */
  lemma CounterReaches(start: Disk, max: nat, sha: Digest, offer: OfferMsg, n: nat, io: Io)
    requires Sane(offer, max) && n <= offer.size && PartName(offer.id) !in start && Calm(io)
    ensures var chunks := ChunkMsgs(offer.id, OneByteEach(n), false);
            var w := Exec(start, 1, max, sha, TurnsOf(0, Opening(offer, io) + Receives(chunks, io)));
            Key(0, 0) in w.dir.files && w.dir.files[Key(0, 0)].nextSeq == n
  {
    hide Acts, Feed, Reader, Opening, ChunkMsgs, PartName, Sanitize, Lower, Sane, Concat;
    var h := Host(Dir(start, [], map[]), NewSeat);
    var chunks := ChunkMsgs(offer.id, OneByteEach(n), false);
    assert Exec(start, 1, max, sha, []) == World(Dir(start, [], map[]), [NewSeat]);
    ActsAreTurns(start, 1, max, sha, [], 0, Opening(offer, io) + Receives(chunks, io));
    assert [] + TurnsOf(0, Opening(offer, io) + Receives(chunks, io)) == TurnsOf(0, Opening(offer, io) + Receives(chunks, io));
    ActsJoin(h, 0, Opening(offer, io), Receives(chunks, io), max, sha);
    OpeningArrives(h, 0, offer, io, max, sha);
    var ready := Acts(h, 0, Opening(offer, io), max, sha);
    OneByteEachIs(n);
    ChunksArrive(ready, 0, 0, View(h.dir, Key(0, 0)), offer, OneByteEach(n), max, sha, io);
    FeedIsActs(ready, 0, chunks, max, sha, io);
  }
}
