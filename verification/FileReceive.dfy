/**
 What a receiver of one file at a time does to its directory, whoever receives: open
 a partial file, append chunks, verify and rename. Shared by the desktop viewer and
 the host. A directory is a map from names to contents; the hash is a function of
 the bytes, fed piece by piece; storage failures are chosen outside.
 */
module FileReceive {
  import opened Bytes
  import opened FileNames
  import opened Options

  const MAX_RECEIVE_BYTES := 2048 * 1024 * 1024
  const FILE_CHUNK_BYTES := 256 * 1024

  type Disk = map<string, Octets>

  type Digest = Octets -> string

  /** How storage behaves during one message, and the clock in seconds. */
  datatype Io = Io(storage: bool, write: bool, flush: bool, rename: bool, unix: nat)

  datatype Msg =
    | Offer(id: string, name: string, size: nat, sha: string)
    | Chunk(id: string, number: nat, data: Option<Octets>)
    | End(id: string)
    | Abort(id: string)
    | Other

  datatype Reply = NotMine | Quiet | Accepted(id: string) | Declined(id: string) | Aborted(id: string) | Done(id: string)

  function Lower(s: string): (r: string)
    ensures |r| == |s|
  {
    if s == "" then "" else [if 'A' <= s[0] <= 'Z' then s[0] - 'A' + 'a' else s[0]] + Lower(s[1..])
  }

  predicate HexDigit(c: char) {
    '0' <= c <= '9' || 'a' <= c <= 'f' || 'A' <= c <= 'F'
  }

  predicate IsHash(s: string) {
    |s| == 64 && forall i :: 0 <= i < 64 ==> HexDigit(s[i])
  }

  /** Digests are written as 64 lower-case hexadecimal digits. */
  ghost predicate IsDigest(sha: Digest) {
    forall b :: IsHash(sha(b)) && Lower(sha(b)) == sha(b)
  }

  /** The transfer in progress; `offer` is the message it answers. */
  datatype Active = Active(offer: Msg, id: string, part: string, finalName: string, expectedSize: nat,
                           expectedSha: string, hashed: Octets, received: nat, nextSeq: nat)

  /** A verified file and where it went. */
  datatype Delivery = Delivery(offer: Msg, dest: string, bytes: Octets)

  datatype Core = Core(active: Option<Active>, disk: Disk, delivered: seq<Delivery>)

  /** `create_new` on the partial file. */
  function Open(c: Core, offer: Msg): Option<Core>
    requires offer.Offer?
  {
    var part := PartName(offer.id);
    if part in c.disk then None
    else
      Some(c.(active := Some(Active(offer, offer.id, part, Sanitize(offer.name), offer.size, Lower(offer.sha), [], 0, 0)),
              disk := c.disk[part := []]))
  }

  /** Close and delete the partial file. */
  function Discard(c: Core): Core {
    if c.active.None? then c else c.(active := None, disk := c.disk - {c.active.value.part})
  }

  predicate Fits(a: Active, number: nat, data: Option<Octets>) {
    number == a.nextSeq && data.Some? && 0 < |data.value| <= FILE_CHUNK_BYTES
    && a.received + |data.value| <= a.expectedSize
  }

  function Append(c: Core, number: nat, data: Option<Octets>, io: Io): Core
    requires c.active.Some? && c.active.value.part in c.disk
  {
    var a := c.active.value;
    if !Fits(a, number, data) || !io.write then Discard(c)
    else
      c.(active := Some(a.(hashed := a.hashed + data.value, received := a.received + |data.value|,
                           nextSeq := a.nextSeq + 1)),
         disk := c.disk[a.part := c.disk[a.part] + data.value])
  }

  predicate Verified(a: Active, sha: Digest) {
    a.received == a.expectedSize && sha(a.hashed) == a.expectedSha
  }

  function Finish(c: Core, sha: Digest, io: Io): Core
    requires c.active.Some? && c.active.value.part in c.disk
  {
    var a := c.active.value;
    if !Verified(a, sha) || !io.flush || !io.rename then Discard(c)
    else
      var dest, bytes := FreeName(c.disk.Keys, a.finalName, io.unix), c.disk[a.part];
      Core(None, (c.disk - {a.part})[dest := bytes], c.delivered + [Delivery(a.offer, dest, bytes)])
  }

  /** A chunk of the transfer in progress, and the answer to it. */
  function OnChunk(c: Core, number: nat, data: Option<Octets>, io: Io): (Core, Reply)
    requires c.active.Some? && c.active.value.part in c.disk
  {
    var t := Append(c, number, data, io);
    (t, if t.active.Some? then Quiet else Aborted(c.active.value.id))
  }

  /** Its end, and the answer. */
  function OnEnd(c: Core, sha: Digest, io: Io): (Core, Reply)
    requires c.active.Some? && c.active.value.part in c.disk
  {
    var t := Finish(c, sha, io);
    (t, if |t.delivered| > |c.delivered| then Done(c.active.value.id) else Aborted(c.active.value.id))
  }

  // -------------------------------------------------------------------- invariant

  /** The directory after some deliveries. */
  function Placed(start: Disk, delivered: seq<Delivery>): Disk {
    if delivered == [] then start
    else
      var d := delivered[|delivered| - 1];
      Placed(start, delivered[..|delivered| - 1])[d.dest := d.bytes]
  }

  /** What the transfer in progress adds to it. */
  function Partial(active: Option<Active>): Disk {
    if active.None? then map[] else map[active.value.part := active.value.hashed]
  }

  ghost predicate ActiveSound(a: Active, placed: Disk) {
    && a.offer.Offer? && a.id == a.offer.id && a.part == PartName(a.id) && a.part !in placed
    && a.finalName == Sanitize(a.offer.name) && a.expectedSize == a.offer.size && a.expectedSha == Lower(a.offer.sha)
    && a.received == |a.hashed| && a.nextSeq <= a.received <= a.expectedSize
  }

  ghost predicate Genuine(d: Delivery, sha: Digest) {
    && d.offer.Offer? && |d.bytes| == d.offer.size && sha(d.bytes) == Lower(d.offer.sha)
    && Plain(d.dest) && d.dest != "" && d.dest[0] == Sanitize(d.offer.name)[0] != '.'
  }

  /** The directory holds what was there, what was delivered and verified since, and
      the bytes received so far of the one transfer in progress, nothing else. */
  ghost predicate Sound(c: Core, start: Disk, sha: Digest) {
    && c.disk == Placed(start, c.delivered) + Partial(c.active)
    && (c.active.Some? ==> ActiveSound(c.active.value, Placed(start, c.delivered)))
    && forall i :: 0 <= i < |c.delivered| ==> Genuine(c.delivered[i], sha)
  }

  lemma OpenKeepsSound(c: Core, offer: Msg, start: Disk, sha: Digest)
    requires Sound(c, start, sha) && c.active.None? && offer.Offer? && Open(c, offer).Some?
    ensures Sound(Open(c, offer).value, start, sha)
  {
    hide PartName, Sanitize, Lower, Placed;
    assert Partial(c.active) == map[];
    assert c.disk == Placed(start, c.delivered);
  }

  lemma DiscardKeepsSound(c: Core, start: Disk, sha: Digest)
    requires Sound(c, start, sha)
    ensures Sound(Discard(c), start, sha) && Discard(c).disk == Placed(start, c.delivered)
  {
    hide PartName, Sanitize, Lower, Placed;
    if c.active.None? {
      assert c.disk == Placed(start, c.delivered) + map[];
    } else {
      assert c.disk - {c.active.value.part} == Placed(start, c.delivered);
    }
  }

  lemma PartIsThere(c: Core, start: Disk, sha: Digest)
    requires Sound(c, start, sha) && c.active.Some?
    ensures c.active.value.part in c.disk && c.disk[c.active.value.part] == c.active.value.hashed
  {
    hide PartName, Sanitize, Lower, Placed;
  }

  lemma AppendKeepsSound(c: Core, number: nat, data: Option<Octets>, io: Io, start: Disk, sha: Digest)
    requires Sound(c, start, sha) && c.active.Some? && c.active.value.part in c.disk
    ensures Sound(Append(c, number, data, io), start, sha)
  {
    hide PartName, Sanitize, Lower, Placed;
    PartIsThere(c, start, sha);
    var a := c.active.value;
    if Fits(a, number, data) && io.write {
      assert c.disk[a.part := a.hashed + data.value] == Placed(start, c.delivered) + map[a.part := a.hashed + data.value];
    } else {
      DiscardKeepsSound(c, start, sha);
    }
  }

  lemma PlacedOne(start: Disk, delivered: seq<Delivery>, d: Delivery)
    ensures Placed(start, delivered + [d]) == Placed(start, delivered)[d.dest := d.bytes]
  {
    assert (delivered + [d])[..|delivered|] == delivered;
  }

  lemma FinishKeepsSound(c: Core, sha: Digest, io: Io, start: Disk)
    requires Sound(c, start, sha) && c.active.Some? && c.active.value.part in c.disk
    ensures Sound(Finish(c, sha, io), start, sha)
  {
    hide PartName, Sanitize, Lower, Placed, FreeName;
    var a := c.active.value;
    PartIsThere(c, start, sha);
    DiscardKeepsSound(c, start, sha);
    if Verified(a, sha) && io.flush && io.rename {
      var dest := FreeName(c.disk.Keys, a.finalName, io.unix);
      SafeDestination(c.disk.Keys, a.offer.name, io.unix, a.id);
      PlacedOne(start, c.delivered, Delivery(a.offer, dest, a.hashed));
      var t := Finish(c, sha, io);
      assert t.disk == Placed(start, c.delivered)[dest := a.hashed];
      assert Placed(start, t.delivered) + map[] == Placed(start, t.delivered);
    }
  }

  lemma SafeDestination(taken: set<string>, name: string, unix: nat, id: string)
    ensures var dest := FreeName(taken, Sanitize(name), unix);
            Plain(dest) && dest != "" && dest[0] == Sanitize(name)[0] != '.' && dest != PartName(id)
  {
    SanitizedIsSafe(name);
    hide FreeName, Sanitize, PartName;
    DestinationIsVisible(taken, Sanitize(name), unix, id);
    assert !Trimmed(Sanitize(name)[0]);
  }

  /** The message belongs to the transfer in progress. */
  predicate Concerns(c: Core, id: string) {
    c.active.Some? && c.active.value.id == id
  }

  lemma StartIsSound(start: Disk, sha: Digest)
    ensures Sound(Core(None, start, []), start, sha)
  {
    assert start + map[] == start;
  }

  lemma DigestIsHash(sha: Digest, b: Octets)
    requires IsDigest(sha)
    ensures IsHash(sha(b)) && Lower(sha(b)) == sha(b)
  {
  }

  /** A transfer ends in a delivery exactly when size and hash are those offered and
      storage obeys; the file is what was hashed, and it replaces another only when
      every name is taken. */
  lemma FinishDelivers(c: Core, sha: Digest, io: Io, start: Disk)
    requires Sound(c, start, sha) && c.active.Some? && c.active.value.part in c.disk
    ensures var a, t := c.active.value, Finish(c, sha, io);
            && t.active.None?
            && (|t.delivered| == |c.delivered| + 1
                <==> |a.hashed| == a.offer.size && sha(a.hashed) == Lower(a.offer.sha) && io.flush && io.rename)
            && (|t.delivered| != |c.delivered| + 1 ==>
                  t.delivered == c.delivered && t.disk == Placed(start, c.delivered))
            && (|t.delivered| == |c.delivered| + 1 ==>
                  && t.delivered[..|c.delivered|] == c.delivered
                  && var d := t.delivered[|c.delivered|];
                     && Genuine(d, sha) && d.offer == a.offer && d.bytes == a.hashed
                     && t.disk == Placed(start, c.delivered)[d.dest := d.bytes]
                     && (d.dest in c.disk <==> AllTaken(c.disk.Keys, Sanitize(d.offer.name), io.unix)))
  {
    hide PartName, Sanitize, Lower, FreeName, Genuine, Placed, AllTaken;
    PartIsThere(c, start, sha);
    FinishKeepsSound(c, sha, io, start);
    DiscardKeepsSound(c, start, sha);
    ClobbersIffAllTaken(c.disk.Keys, c.active.value.finalName, io.unix);
  }

  predicate Calm(io: Io) {
    io.storage && io.write && io.flush && io.rename
  }

  function Quiets(n: nat): seq<Reply> { seq(n, _ => Quiet) }

  lemma ConcatOne(parts: seq<Octets>, part: Octets)
    ensures Concat(parts + [part]) == Concat(parts) + part
  {
    assert (parts + [part])[..|parts|] == parts;
  }

  // ------------------------------------------------------------ one whole transfer

  /** Messages in order, through a receiver that answers each. */
  function Feed<S>(step: (S, Msg) -> (S, Reply), s: S, msgs: seq<Msg>): (r: (S, seq<Reply>))
    ensures |r.1| == |msgs|
  {
    if msgs == [] then (s, [])
    else
      var (t, replies) := Feed(step, s, msgs[..|msgs| - 1]);
      var (u, reply) := step(t, msgs[|msgs| - 1]);
      (u, replies + [reply])
  }

  lemma FeedOne<S>(step: (S, Msg) -> (S, Reply), s: S, msgs: seq<Msg>, m: Msg)
    ensures var (t, replies) := Feed(step, s, msgs); var (u, reply) := step(t, m);
            Feed(step, s, msgs + [m]) == (u, replies + [reply])
  {
    assert (msgs + [m])[..|msgs|] == msgs;
  }

  /** Part way through: the chunks so far are in the partial file. */
  predicate Holding(t: Core, c: Core, offer: Msg, got: Octets, n: nat)
    requires offer.Offer?
  {
    && t.delivered == c.delivered
    && t.active == Some(Active(offer, offer.id, PartName(offer.id), Sanitize(offer.name), offer.size, Lower(offer.sha),
                               got, |got|, n))
    && t.disk == c.disk[PartName(offer.id) := got]
  }

  lemma OpenHolds(c: Core, offer: Msg)
    requires offer.Offer? && Open(c, offer).Some?
    ensures Holding(Open(c, offer).value, c, offer, [], 0)
  {
  }

  lemma ChunkIsHeld(t: Core, c: Core, offer: Msg, got: Octets, n: nat, part: Octets, io: Io)
    requires offer.Offer? && Holding(t, c, offer, got, n) && io.write
    requires 0 < |part| <= FILE_CHUNK_BYTES && |got| + |part| <= offer.size
    ensures var (u, reply) := OnChunk(t, n, Some(part), io); Holding(u, c, offer, got + part, n + 1) && reply == Quiet
  {
    hide PartName, Sanitize, Lower, FreeName;
  }

  /** The whole file is there, byte for byte. */
  predicate InPlace(u: Core, c: Core, offer: Msg, content: Octets) {
    && |u.delivered| == |c.delivered| + 1 && u.active.None?
    && var d := u.delivered[|c.delivered|];
       d.offer == offer && d.bytes == content && u.disk == c.disk[d.dest := content]
  }

  lemma EndDelivers(t: Core, c: Core, offer: Msg, content: Octets, n: nat, sha: Digest, io: Io)
    requires offer.Offer? && Holding(t, c, offer, content, n) && Calm(io) && IsDigest(sha)
    requires offer.size == |content| && offer.sha == sha(content) && PartName(offer.id) !in c.disk
    ensures var (u, reply) := OnEnd(t, sha, io); InPlace(u, c, offer, content) && reply == Done(offer.id)
  {
    DigestIsHash(sha, content);
    hide PartName, Sanitize, Lower, FreeName, IsHash, IsDigest;
    assert t.disk - {PartName(offer.id)} == c.disk;
  }

  // ------------------------------------------------------------------- the sender's

  /** A file cut into chunks in order. */
  ghost predicate Cuts(parts: seq<Octets>, content: Octets) {
    Concat(parts) == content && forall i :: 0 <= i < |parts| ==> 0 < |parts[i]| <= FILE_CHUNK_BYTES
  }

  /** The chunk messages of a transfer. The host's counter is a wrapping u32, the
      web viewer's a plain number. */
  function ChunkMsgs(id: string, parts: seq<Octets>, wraps: bool): (r: seq<Msg>)
    ensures |r| == |parts|
  {
    if parts == [] then []
    else
      var n := |parts| - 1;
      ChunkMsgs(id, parts[..n], wraps) + [Chunk(id, if wraps then n % U32 else n, Some(parts[n]))]
  }

  lemma {:induction false} EachPartIsAByte(parts: seq<Octets>)
    requires forall i :: 0 <= i < |parts| ==> 0 < |parts[i]|
    ensures |parts| <= |Concat(parts)|
  {
    if parts != [] {
      EachPartIsAByte(parts[..|parts| - 1]);
    }
  }

  lemma CutMore(parts: seq<Octets>, content: Octets, part: Octets)
    requires Cuts(parts, content) && 0 < |part| <= FILE_CHUNK_BYTES
    ensures Cuts(parts + [part], content + part)
  {
    assert (parts + [part])[..|parts|] == parts;
  }

  lemma OneMoreChunk(id: string, parts: seq<Octets>, part: Octets, wraps: bool)
    ensures ChunkMsgs(id, parts + [part], wraps)
            == ChunkMsgs(id, parts, wraps) + [Chunk(id, if wraps then |parts| % U32 else |parts|, Some(part))]
  {
    assert (parts + [part])[..|parts|] == parts;
  }

  lemma NothingCut(id: string, content: Octets, wraps: bool)
    ensures Cuts([], content[..0]) && ChunkMsgs(id, [], wraps) == []
  {
  }

  /** The host's sender. Read number `k` yields as many bytes as `sizes(k)` says,
      within what a read can: at least one, and no more than the buffer or the file
      holds. */
  method SendFileChunks(id: string, content: Octets, sizes: nat -> nat) returns (msgs: seq<Msg>, ghost parts: seq<Octets>)
    ensures Cuts(parts, content) && msgs == ChunkMsgs(id, parts, true) + [End(id)]
  {
    hide Cuts, ChunkMsgs;
    NothingCut(id, content, true);
    msgs, parts := [], [];
    var number, at, k := 0, 0, 0;
    while at < |content|
      invariant 0 <= at <= |content| && 0 <= k && number == |parts| % U32
      invariant Cuts(parts, content[..at]) && msgs == ChunkMsgs(id, parts, true)
    {
      var most := if |content| - at < FILE_CHUNK_BYTES then |content| - at else FILE_CHUNK_BYTES;
      var n := if sizes(k) < 1 then 1 else if sizes(k) > most then most else sizes(k);
      var part := content[at..at + n];
      CutMore(parts, content[..at], part);
      OneMoreChunk(id, parts, part, true);
      assert content[..at] + part == content[..at + n];
      msgs, parts := msgs + [Chunk(id, number, Some(part))], parts + [part];
      number, at, k := (number + 1) % U32, at + n, k + 1;
    }
    assert content[..at] == content;
    msgs := msgs + [End(id)];
  }

  const SLICE := 4 * 1024 * 1024

  /** The web viewer's sender: slices of the file, chunks of each slice. */
  method SendSlices(id: string, content: Octets) returns (msgs: seq<Msg>, ghost parts: seq<Octets>)
    ensures Cuts(parts, content) && msgs == ChunkMsgs(id, parts, false) + [End(id)]
  {
    hide Cuts, ChunkMsgs;
    NothingCut(id, content, false);
    msgs, parts := [], [];
    var number, off := 0, 0;
    while off < |content|
      invariant 0 <= off && number == |parts|
      invariant Cuts(parts, content[..if off < |content| then off else |content|]) && msgs == ChunkMsgs(id, parts, false)
      decreases |content| - off
    {
      var end := if off + SLICE < |content| then off + SLICE else |content|;
      msgs, parts, number := SendSlice(id, content, off, end, msgs, parts, number);
      off := off + SLICE;
    }
    assert content[..|content|] == content;
    msgs := msgs + [End(id)];
  }

  method SendSlice(id: string, content: Octets, off: nat, end: nat, sent: seq<Msg>, ghost done: seq<Octets>, first: nat)
    returns (msgs: seq<Msg>, ghost parts: seq<Octets>, number: nat)
    requires off < end <= |content| && Cuts(done, content[..off]) && sent == ChunkMsgs(id, done, false) && first == |done|
    ensures Cuts(parts, content[..end]) && msgs == ChunkMsgs(id, parts, false) && number == |parts|
  {
    hide Cuts, ChunkMsgs;
    msgs, parts, number := sent, done, first;
    var slice, c := content[off..end], 0;
    while c < |slice|
      invariant 0 <= c && number == |parts|
      invariant Cuts(parts, content[..off + if c < |slice| then c else |slice|]) && msgs == ChunkMsgs(id, parts, false)
      decreases |slice| - c
    {
      var stop := if c + FILE_CHUNK_BYTES < |slice| then c + FILE_CHUNK_BYTES else |slice|;
      var part := slice[c..stop];
      assert content[..off + c] + part == content[..off + stop];
      CutMore(parts, content[..off + c], part);
      OneMoreChunk(id, parts, part, false);
      msgs, parts := msgs + [Chunk(id, number, Some(part))], parts + [part];
      number, c := number + 1, c + FILE_CHUNK_BYTES;
    }
  }

  /** Before sending, the web viewer hashes the file slice by slice. */
  method HashSlices(content: Octets) returns (fed: Octets)
    ensures fed == content
  {
    fed := [];
    var off := 0;
    while off < |content|
      invariant 0 <= off && fed == content[..if off < |content| then off else |content|]
      decreases |content| - off
    {
      var end := if off + SLICE < |content| then off + SLICE else |content|;
      fed := fed + content[off..end];
      off := off + SLICE;
    }
  }

  // ------------------------------------------------------------- which chunks are taken

  /** A chunk as it comes, and whether storage takes it. */
  datatype Piece = Piece(number: nat, data: Option<Octets>, writes: bool)

  /** Chunks appended one after the other, for as long as the transfer lasts. */
  function AppendAll(c: Core, pieces: seq<Piece>): Core {
    if pieces == [] then c
    else
      var t, p := AppendAll(c, pieces[..|pieces| - 1]), pieces[|pieces| - 1];
      if t.active.None? || t.active.value.part !in t.disk then t
      else Append(t, p.number, p.data, Io(true, p.writes, true, true, 0))
  }

  /** What the chunks carry. */
  function Carried(pieces: seq<Piece>): Octets {
    if pieces == [] then []
    else
      var p := pieces[|pieces| - 1];
      Carried(pieces[..|pieces| - 1]) + match p.data case None => [] case Some(d) => d
  }

  /** Numbered 0, 1, 2 and so on, none empty, none over 256 KiB, none beyond the size
      that was offered, and all of them stored. */
  predicate InTurn(pieces: seq<Piece>, size: nat) {
    pieces == [] ||
    var before, p := pieces[..|pieces| - 1], pieces[|pieces| - 1];
    && InTurn(before, size)
    && p.number == |before| && p.data.Some? && 0 < |p.data.value| <= 262_144 && p.writes
    && |Carried(pieces)| <= size
  }

  /** A transfer outlives exactly such chunks: then its file holds what they carry, and
      otherwise the directory is as before the offer. */
  lemma {:induction false} TakenIffInTurn(c: Core, offer: Msg, pieces: seq<Piece>)
    requires offer.Offer? && Open(c, offer).Some?
    ensures var t := AppendAll(Open(c, offer).value, pieces);
            if InTurn(pieces, offer.size) then Holding(t, c, offer, Carried(pieces), |pieces|)
            else t.active.None? && t.disk == c.disk && t.delivered == c.delivered
  {
    hide PartName, Sanitize, Lower, FreeName, Open, Append;
    if pieces == [] {
      OpenHolds(c, offer);
    } else {
      var before, p := pieces[..|pieces| - 1], pieces[|pieces| - 1];
      TakenIffInTurn(c, offer, before);
      if InTurn(before, offer.size) {
        PartWasFree(c, offer);
        OneMorePiece(AppendAll(Open(c, offer).value, before), c, offer, Carried(before), |before|, p);
      }
    }
  }

  lemma PartWasFree(c: Core, offer: Msg)
    requires offer.Offer? && Open(c, offer).Some?
    ensures PartName(offer.id) !in c.disk
  {
  }

  lemma OneMorePiece(t: Core, c: Core, offer: Msg, got: Octets, n: nat, p: Piece)
    requires offer.Offer? && Holding(t, c, offer, got, n) && PartName(offer.id) !in c.disk
    ensures t.active.Some? && t.active.value.part in t.disk
    ensures var u := Append(t, p.number, p.data, Io(true, p.writes, true, true, 0));
            if p.number == n && p.data.Some? && 0 < |p.data.value| <= 262_144 && p.writes && |got + p.data.value| <= offer.size
            then Holding(u, c, offer, got + p.data.value, n + 1)
            else u.active.None? && u.disk == c.disk && u.delivered == c.delivered
  {
    hide PartName, Sanitize, Lower;
    assert t.disk - {PartName(offer.id)} == c.disk;
  }

  // --------------------------------------------------------------- hashes in any case

  function Nibble(c: char): nat {
    if '0' <= c <= '9' then (c - '0') as nat
    else if 'a' <= c <= 'f' then 10 + (c - 'a') as nat
    else if 'A' <= c <= 'F' then 10 + (c - 'A') as nat
    else 16
  }

  lemma HashIff(s: string)
    ensures IsHash(s) <==> |s| == 64 && forall i :: 0 <= i < 64 ==> Nibble(s[i]) < 16
  {
    forall i | 0 <= i < |s|
      ensures HexDigit(s[i]) <==> Nibble(s[i]) < 16
    {
    }
  }

  lemma {:induction false} LowerAt(s: string, i: nat)
    requires i < |s|
    ensures Lower(s)[i] == if 'A' <= s[i] <= 'Z' then s[i] - 'A' + 'a' else s[i]
  {
    if i > 0 {
      LowerAt(s[1..], i - 1);
    }
  }

  /** Two hashes are taken for the same exactly when they write the same digits,
      whichever way each writes them. */
  lemma SameHashIff(s: string, t: string)
    requires IsHash(s) && IsHash(t)
    ensures Lower(s) == Lower(t) <==> forall i :: 0 <= i < 64 ==> Nibble(s[i]) == Nibble(t[i])
    ensures forall i :: 0 <= i < 64 ==> Nibble(Lower(s)[i]) == Nibble(s[i]) && !('A' <= Lower(s)[i] <= 'Z')
  {
    forall i | 0 <= i < 64
      ensures Lower(s)[i] == Lower(t)[i] <==> Nibble(s[i]) == Nibble(t[i])
      ensures Nibble(Lower(s)[i]) == Nibble(s[i]) && !('A' <= Lower(s)[i] <= 'Z')
    {
      LowerAt(s, i);
      LowerAt(t, i);
      assert HexDigit(s[i]) && HexDigit(t[i]);
    }
  }
}
