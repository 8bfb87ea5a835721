/**
 One receive directory and all partial files in it. Several sessions, and several
 transfers of one session, use it at a time; each transfer has a key of its own. What a
 step does to one transfer is what a receiver of one file does, the others set aside.
 */
module SharedDirectory {
  import opened Bytes
  import opened FileNames
  import opened FileReceive
  import opened Options

  /** A session and the number it gave the offer. */
  datatype Key = Key(session: nat, number: nat)

  /** `files` are the transfers whose partial file exists, held by somebody or not. */
  datatype Dir = Dir(disk: Disk, delivered: seq<Delivery>, files: map<Key, Active>)

  /** The directory as the owner of one transfer sees it. */
  function View(d: Dir, key: Key): Core {
    Core(if key in d.files then Some(d.files[key]) else None, d.disk, d.delivered)
  }

  /** What the owner left behind. */
  function Back(d: Dir, key: Key, c: Core): Dir {
    Dir(c.disk, c.delivered, if c.active.Some? then d.files[key := c.active.value] else d.files - {key})
  }

  /** The transfer and its file are there. */
  predicate Has(d: Dir, key: Key) {
    key in d.files && d.files[key].part in d.disk
  }

  // -------------------------------------------------------------------- invariant

  predicate Owns(d: Dir, key: Key, name: string) {
    key in d.files && d.files[key].part == name
  }

  /** The directory holds what it held, what was delivered and verified since, and
      one partial file for each transfer, with the bytes received for it. */
  ghost predicate Orderly(d: Dir, start: Disk, sha: Digest) {
    var placed := Placed(start, d.delivered);
    && (forall i :: 0 <= i < |d.delivered| ==> Genuine(d.delivered[i], sha))
    && (forall name :: name in placed ==> name in d.disk && d.disk[name] == placed[name])
    && (forall name :: name in d.disk && name !in placed ==> exists key :: Owns(d, key, name))
    && (forall key :: key in d.files ==> FileSound(d.files[key], d.disk, placed))
    && (forall i, j, name :: Owns(d, i, name) && Owns(d, j, name) ==> i == j)
  }

  ghost predicate FileSound(a: Active, disk: Disk, placed: Disk) {
    ActiveSound(a, placed) && a.part in disk && disk[a.part] == a.hashed
  }

  /** The partial files of the other transfers. */
  function Others(d: Dir, key: Key, start: Disk): Disk {
    map name | name in d.disk && name !in Placed(start, d.delivered) && !Owns(d, key, name) :: d.disk[name]
  }

  predicate Dotted(d: Disk) {
    forall name :: name in d ==> name != "" && name[0] == '.'
  }

  lemma PutBeside(d: Disk, others: Disk, name: string, bytes: Octets)
    requires name !in others
    ensures (d + others)[name := bytes] == d[name := bytes] + others
  {
  }

  lemma VisibleDest(d: Delivery, sha: Digest)
    requires Genuine(d, sha)
    ensures d.dest != "" && d.dest[0] != '.'
  {
  }

  /** Deliveries never land on a dotted name, so partial files can be set aside. */
  lemma {:induction false} PlacedBeside(start: Disk, others: Disk, delivered: seq<Delivery>, sha: Digest)
    requires Dotted(others) && forall i :: 0 <= i < |delivered| ==> Genuine(delivered[i], sha)
    ensures Placed(start + others, delivered) == Placed(start, delivered) + others
    ensures forall name :: name in start ==> name in Placed(start, delivered)
    ensures forall name :: name in Placed(start, delivered) && name != "" && name[0] == '.' ==> name in start
  {
    hide Genuine;
    if delivered != [] {
      var before, d := delivered[..|delivered| - 1], delivered[|delivered| - 1];
      VisibleDest(d, sha);
      PlacedBeside(start, others, before, sha);
      PutBeside(Placed(start, before), others, d.dest, d.bytes);
    }
  }

  lemma OthersAreDotted(d: Dir, key: Key, start: Disk, sha: Digest)
    requires Orderly(d, start, sha)
    ensures Dotted(Others(d, key, start))
  {
    hide Sanitize, Lower, Placed, Genuine;
    forall name | name in Others(d, key, start)
      ensures name != "" && name[0] == '.'
    {
      var k :| Owns(d, k, name);
      assert FileSound(d.files[k], d.disk, Placed(start, d.delivered));
    }
  }

  lemma Sides(disk: Disk, placed: Disk, others: Disk, own: Disk)
    requires forall name :: name in placed ==> name in disk && disk[name] == placed[name]
    requires forall name :: name in own ==> name in disk && disk[name] == own[name]
    requires forall name :: name in others <==> name in disk && name !in placed && name !in own
    requires forall name :: name in others ==> others[name] == disk[name]
    ensures disk == placed + others + own
  {
  }

  lemma AtFile(d: Dir, key: Key, start: Disk, sha: Digest)
    requires Orderly(d, start, sha)
    ensures key in d.files ==> FileSound(d.files[key], d.disk, Placed(start, d.delivered)) && Has(d, key)
    ensures forall name :: name in Placed(start, d.delivered) ==>
              name in d.disk && d.disk[name] == Placed(start, d.delivered)[name]
    ensures key in d.files ==> d.files[key].part !in Placed(start, d.delivered)
  {
    hide PartName, Sanitize, Lower, Placed, Genuine;
  }

  lemma SetAside(d: Dir, key: Key, start: Disk, sha: Digest)
    requires Orderly(d, start, sha)
    ensures var placed, active := Placed(start, d.delivered), View(d, key).active;
            && d.disk == placed + Others(d, key, start) + Partial(active)
            && (active.Some? ==> ActiveSound(active.value, placed))
            && (active.Some? ==> active.value.part !in Others(d, key, start))
  {
    hide Orderly, PartName, Sanitize, Lower, Placed, Genuine, Dotted, ActiveSound;
    AtFile(d, key, start, sha);
    Sides(d.disk, Placed(start, d.delivered), Others(d, key, start), Partial(View(d, key).active));
  }

  /** To one transfer the others' partial files are files that were always there. */
  lemma ViewIsSound(d: Dir, key: Key, start: Disk, sha: Digest)
    requires Orderly(d, start, sha)
    ensures Sound(View(d, key), start + Others(d, key, start), sha)
  {
    hide PartName, Sanitize, Lower, Placed, Genuine;
    OthersAreDotted(d, key, start, sha);
    PlacedBeside(start, Others(d, key, start), d.delivered, sha);
    SetAside(d, key, start, sha);
  }

  /** What a step left behind, from its transfer's own point of view. */
  ghost predicate Left(d: Dir, key: Key, c: Core, start: Disk, sha: Digest) {
    Orderly(d, start, sha) && Sound(c, start + Others(d, key, start), sha)
  }

  lemma Parted(d: Dir, key: Key, c: Core, start: Disk, sha: Digest)
    requires Left(d, key, c, start, sha)
    ensures var others, placed := Others(d, key, start), Placed(start, c.delivered);
            && c.disk == placed + others + Partial(c.active)
            && (forall name :: name in others ==> name !in placed)
            && (c.active.Some? ==> ActiveSound(c.active.value, placed + others))
  {
    hide PartName, Sanitize, Lower, Placed, Genuine;
    OthersAreDotted(d, key, start, sha);
    PlacedBeside(start, Others(d, key, start), d.delivered, sha);
    PlacedBeside(start, Others(d, key, start), c.delivered, sha);
  }

  lemma OthersStay(d: Dir, key: Key, c: Core, start: Disk, sha: Digest, k: Key)
    requires Left(d, key, c, start, sha) && k in d.files && k != key
    ensures FileSound(d.files[k], c.disk, Placed(start, c.delivered))
    ensures d.files[k].part in Others(d, key, start)
  {
    hide PartName, Sanitize, Lower, Placed, Genuine;
    Parted(d, key, c, start, sha);
    assert FileSound(d.files[k], d.disk, Placed(start, d.delivered));
    assert Owns(d, k, d.files[k].part);
  }

  lemma FilesStaySound(d: Dir, key: Key, c: Core, start: Disk, sha: Digest, k: Key)
    requires Left(d, key, c, start, sha) && k in Back(d, key, c).files
    ensures FileSound(Back(d, key, c).files[k], c.disk, Placed(start, c.delivered))
  {
    hide PartName, Sanitize, Lower, Placed, Genuine;
    if k == key {
      Parted(d, key, c, start, sha);
    } else {
      OthersStay(d, key, c, start, sha, k);
    }
  }

  lemma FilesStayOwned(d: Dir, key: Key, c: Core, start: Disk, sha: Digest, name: string)
    requires Left(d, key, c, start, sha)
    requires name in c.disk && name !in Placed(start, c.delivered)
    ensures exists k :: Owns(Back(d, key, c), k, name)
  {
    hide PartName, Sanitize, Lower, Placed, Genuine, FileSound;
    Parted(d, key, c, start, sha);
    if name in Others(d, key, start) {
      var k :| Owns(d, k, name);
      assert Owns(Back(d, key, c), k, name);
    } else {
      assert Owns(Back(d, key, c), key, name);
    }
  }

  lemma OneOwner(d: Dir, key: Key, c: Core, start: Disk, sha: Digest, i: Key, j: Key, name: string)
    requires Left(d, key, c, start, sha)
    requires Owns(Back(d, key, c), i, name) && Owns(Back(d, key, c), j, name)
    ensures i == j
  {
    hide PartName, Sanitize, Lower, Placed, Genuine;
    Parted(d, key, c, start, sha);
    if i != key {
      OthersStay(d, key, c, start, sha, i);
      assert Owns(d, i, name);
    }
    if j != key {
      OthersStay(d, key, c, start, sha, j);
      assert Owns(d, j, name);
    }
  }

  /** What is done to one transfer keeps the whole in order. */
  lemma BackIsOrderly(d: Dir, key: Key, c: Core, start: Disk, sha: Digest)
    requires Left(d, key, c, start, sha)
    ensures Orderly(Back(d, key, c), start, sha)
  {
    hide Placed, Genuine, FileSound, PartName, Sanitize, Lower, Others, Owns;
    Parted(d, key, c, start, sha);
    var t, placed := Back(d, key, c), Placed(start, c.delivered);
    forall k | k in t.files
      ensures FileSound(t.files[k], t.disk, placed)
    {
      FilesStaySound(d, key, c, start, sha, k);
    }
    forall name | name in t.disk && name !in placed
      ensures exists k :: Owns(t, k, name)
    {
      FilesStayOwned(d, key, c, start, sha, name);
    }
    forall i, j, name | Owns(t, i, name) && Owns(t, j, name)
      ensures i == j
    {
      OneOwner(d, key, c, start, sha, i, j, name);
    }
  }

  lemma StartIsOrderly(start: Disk, sha: Digest)
    ensures Orderly(Dir(start, [], map[]), start, sha)
  {
  }

  // -------------------------------------------------------- a transfer's own steps

  lemma OpenKeepsOrder(d: Dir, key: Key, offer: Msg, start: Disk, sha: Digest)
    requires Orderly(d, start, sha) && key !in d.files && offer.Offer? && Open(View(d, key), offer).Some?
    ensures Orderly(Back(d, key, Open(View(d, key), offer).value), start, sha)
  {
    hide Orderly, Sound, PartName, Sanitize, Lower;
    ViewIsSound(d, key, start, sha);
    OpenKeepsSound(View(d, key), offer, start + Others(d, key, start), sha);
    BackIsOrderly(d, key, Open(View(d, key), offer).value, start, sha);
  }

  lemma ChunkKeepsOrder(d: Dir, key: Key, number: nat, data: Option<Octets>, io: Io, start: Disk, sha: Digest)
    requires Orderly(d, start, sha) && Has(d, key)
    ensures Orderly(Back(d, key, OnChunk(View(d, key), number, data, io).0), start, sha)
  {
    hide Orderly, Sound, Append;
    ViewIsSound(d, key, start, sha);
    AppendKeepsSound(View(d, key), number, data, io, start + Others(d, key, start), sha);
    BackIsOrderly(d, key, Append(View(d, key), number, data, io), start, sha);
  }

  lemma EndKeepsOrder(d: Dir, key: Key, io: Io, start: Disk, sha: Digest)
    requires Orderly(d, start, sha) && Has(d, key)
    ensures Orderly(Back(d, key, OnEnd(View(d, key), sha, io).0), start, sha)
  {
    hide Orderly, Sound, Finish;
    ViewIsSound(d, key, start, sha);
    FinishKeepsSound(View(d, key), sha, io, start + Others(d, key, start));
    BackIsOrderly(d, key, Finish(View(d, key), sha, io), start, sha);
  }

  lemma DiscardKeepsOrder(d: Dir, key: Key, start: Disk, sha: Digest)
    requires Orderly(d, start, sha)
    ensures Orderly(Back(d, key, Discard(View(d, key))), start, sha)
  {
    hide Orderly, Sound, Discard;
    ViewIsSound(d, key, start, sha);
    DiscardKeepsSound(View(d, key), start + Others(d, key, start), sha);
    BackIsOrderly(d, key, Discard(View(d, key)), start, sha);
  }

  // -------------------------------------------------------------- what the files are

  /** The directory is what it was and what was delivered exactly when no transfer has
      a partial file; and a name beside these is exactly one transfer's. */
  lemma LitterIsFiles(d: Dir, start: Disk, sha: Digest)
    requires Orderly(d, start, sha)
    ensures d.disk == Placed(start, d.delivered) <==> d.files == map[]
    ensures forall name :: name in d.disk && name !in Placed(start, d.delivered) <==> exists key :: Owns(d, key, name)
  {
    hide Placed, Genuine, PartName, Sanitize, Lower;
    forall key | key in d.files
      ensures d.files[key].part in d.disk && d.files[key].part !in Placed(start, d.delivered)
    {
      AtFile(d, key, start, sha);
    }
    if d.files != map[] {
      var key :| key in d.files;
      assert d.files[key].part in d.disk;
    }
  }
}
