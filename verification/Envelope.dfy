/**
 Encrypted envelopes after authentication: per-channel counters, nonces, the
 sealer, the monotone opener, and the client's receive loop with its rule for
 stale QUIC video.

 AES-256-GCM is an ideal AEAD: `log` records everything sealed under the session
 key (both directions share it), and opening succeeds exactly on what is there.
 The cipher itself is the parameter `enc`; it returns ciphertext and tag.
 */
module Envelope {
  import opened Bytes
  import opened Options

  type Cipher = (Octets, Octets, Octets) -> Octets

  const TAG_BYTES := 16
  const HEADER_BYTES := 9

  datatype Channel = Control | Video | Audio
  datatype Direction = ServerToClient | ClientToServer

  function ChannelCode(c: Channel): Byte {
    match c case Control => 1 case Video => 2 case Audio => 3
  }

  function DirectionCode(d: Direction): Byte {
    match d case ServerToClient => 0 case ClientToServer => 1
  }

  function ChannelFrom(b: Byte): Option<Channel> {
    if b == 1 then Some(Control) else if b == 2 then Some(Video) else if b == 3 then Some(Audio) else None
  }

  function NonceFor(d: Direction, c: Channel, counter: nat): Octets {
    [DirectionCode(d), ChannelCode(c), 0, 0] + BigEndian(counter, 8)
  }

  lemma NonceIsInjective(d: Direction, c: Channel, n: nat, d': Direction, c': Channel, n': nat)
    requires n < U64 && n' < U64 && NonceFor(d, c, n) == NonceFor(d', c', n')
    ensures d == d' && c == c' && n == n'
  {
    Spans();
    BigEndianRoundTrip(n, 8);
    BigEndianRoundTrip(n', 8);
    assert NonceFor(d, c, n)[4..] == BigEndian(n, 8);
    assert NonceFor(d', c', n')[4..] == BigEndian(n', 8);
    assert NonceFor(d, c, n)[0] == NonceFor(d', c', n')[0];
    assert NonceFor(d, c, n)[1] == NonceFor(d', c', n')[1];
  }

  // ----------------------------------------------------------------- ideal AEAD

  /** One use of the session key. */
  datatype Entry = Entry(nonce: Octets, aad: Octets, plain: Octets, box: Octets)

  function Decrypt(log: seq<Entry>, nonce: Octets, aad: Octets, box: Octets): Option<Octets> {
    if log == [] then None
    else
      var e := log[|log| - 1];
      if e.nonce == nonce && e.aad == aad && e.box == box then Some(e.plain)
      else Decrypt(log[..|log| - 1], nonce, aad, box)
  }

  // ------------------------------------------------------------- sealing, opening

  /** One sealed message: its direction is that of the link it belongs to. */
  datatype Message = Message(chan: Channel, counter: nat, plain: Octets)

  datatype Error = TooShort | UnknownChannel | Replay | AeadFailed

  datatype Opened = Ok(message: Message) | Err(error: Error)

  function EntryFor(enc: Cipher, d: Direction, m: Message): Entry {
    var nonce, aad := NonceFor(d, m.chan, m.counter), [ChannelCode(m.chan)];
    Entry(nonce, aad, m.plain, enc(nonce, aad, m.plain))
  }

  function Wire(enc: Cipher, d: Direction, m: Message): Octets {
    [ChannelCode(m.chan)] + BigEndian(m.counter, 8) + EntryFor(enc, d, m).box
  }

  type Counters = c: seq<nat> | |c| == 4 witness [0, 0, 0, 0]

  /** What `Opener::open` answers; only an Ok moves `next_expected`. */
  function Open(log: seq<Entry>, d: Direction, expected: Counters, envelope: Octets): Opened {
    if |envelope| < HEADER_BYTES + TAG_BYTES then Err(TooShort)
    else
      match ChannelFrom(envelope[0])
      case None => Err(UnknownChannel)
      case Some(chan) =>
        var counter := FromBigEndian(envelope[1..9]);
        if counter < expected[ChannelCode(chan)] then Err(Replay)
        else
          match Decrypt(log, NonceFor(d, chan, counter), [ChannelCode(chan)], envelope[9..])
          case None => Err(AeadFailed)
          case Some(plain) => Ok(Message(chan, counter, plain))
  }

  function Advance(expected: Counters, o: Opened): Counters {
    match o
    case Ok(m) => expected[ChannelCode(m.chan) := m.counter + 1]
    case Err(_) => expected
  }

  class Sealer {
    const enc: Cipher
    const dir: Direction
    var counters: Counters

    constructor (enc: Cipher, dir: Direction)
      ensures this.enc == enc && this.dir == dir && counters == [0, 0, 0, 0]
    {
      this.enc, this.dir, this.counters := enc, dir, [0, 0, 0, 0];
    }

    /** Seals the concatenated parts in place. The source panics, before it
        seals, when the channel's counter is the last u64: `None` here. */
    method SealParts(chan: Channel, parts: seq<Octets>) returns (r: Option<Octets>)
      requires counters[ChannelCode(chan)] < U64
      requires forall n, a, p :: |enc(n, a, p)| == |p| + TAG_BYTES
      modifies this
      ensures var i, n := ChannelCode(chan), old(counters[ChannelCode(chan)]);
              if n + 1 == U64 then r == None && counters == old(counters)
              else
                && r == Some(Wire(enc, dir, Message(chan, n, Concat(parts))))
                && counters == old(counters)[i := n + 1]
    {
      var counter := counters[ChannelCode(chan)];
      if counter + 1 == U64 {
        return None;
      }
      counters := counters[ChannelCode(chan) := counter + 1];
      var nonce := NonceFor(dir, chan, counter);
      var out := [ChannelCode(chan)] + BigEndian(counter, 8);
      var i := 0;
      while i < |parts|
        invariant 0 <= i <= |parts|
        invariant out == [ChannelCode(chan)] + BigEndian(counter, 8) + Concat(parts[..i])
      {
        out := out + parts[i];
        i := i + 1;
        assert parts[..i][..i - 1] == parts[..i - 1];
      }
      assert parts[..i] == parts;
      var box := enc(nonce, [ChannelCode(chan)], out[HEADER_BYTES..]);
      assert out[HEADER_BYTES..] == Concat(parts);
      var tagAt := |box| - TAG_BYTES;
      out := out[..HEADER_BYTES] + box[..tagAt];
      out := out + box[tagAt..];
      assert out == Wire(enc, dir, Message(chan, counter, Concat(parts)));
      r := Some(out);
    }
  }

  class Opener {
    const dir: Direction
    var nextExpected: Counters

    constructor (dir: Direction)
      ensures this.dir == dir && nextExpected == [0, 0, 0, 0]
    {
      this.dir, this.nextExpected := dir, [0, 0, 0, 0];
    }

    method OpenEnvelope(log: seq<Entry>, envelope: Octets) returns (r: Opened)
      modifies this
      ensures r == Open(log, dir, old(nextExpected), envelope)
      ensures nextExpected == Advance(old(nextExpected), r)
    {
      if |envelope| < 1 + 8 + 16 {
        return Err(TooShort);
      }
      var code := ChannelFrom(envelope[0]);
      if code.None? {
        return Err(UnknownChannel);
      }
      var chan, counter := code.value, FromBigEndian(envelope[1..9]);
      var idx := ChannelCode(chan);
      if counter < nextExpected[idx] {
        return Err(Replay);
      }
      var plain := Decrypt(log, NonceFor(dir, chan, counter), [ChannelCode(chan)], envelope[9..]);
      if plain.None? {
        return Err(AeadFailed);
      }
      nextExpected := nextExpected[idx := counter + 1];
      r := Ok(Message(chan, counter, plain.value));
    }
  }

  // --------------------------------------------------------- a hostile network

  /** One direction: its sealer, its opener, and everything either has done. */
  datatype Link = Link(counters: Counters, expected: Counters, sent: seq<Message>, accepted: seq<Message>)

  const FRESH := Link([0, 0, 0, 0], [0, 0, 0, 0], [], [])

  /** Who made an entry of the log; history only. */
  datatype Use = Use(d: Direction, m: Message)

  datatype World = World(log: seq<Entry>, uses: seq<Use>, down: Link, up: Link) {
    function At(d: Direction): Link {
      if d.ServerToClient? then down else up
    }

    function Put(d: Direction, link: Link): World {
      if d.ServerToClient? then this.(down := link) else this.(up := link)
    }
  }

  /** The network decides what is delivered: any bytes, any time, any order. */
  datatype Choice = Seal(d: Direction, chan: Channel, plain: Octets) | Deliver(d: Direction, envelope: Octets)

  function SealStep(w: World, enc: Cipher, d: Direction, chan: Channel, plain: Octets): World {
    var link, i := w.At(d), ChannelCode(chan);
    if link.counters[i] + 1 >= U64 then w
    else
      var m := Message(chan, link.counters[i], plain);
      w.Put(d, link.(counters := link.counters[i := m.counter + 1], sent := link.sent + [m]))
       .(log := w.log + [EntryFor(enc, d, m)], uses := w.uses + [Use(d, m)])
  }

  function DeliverStep(w: World, d: Direction, envelope: Octets): World {
    var link := w.At(d);
    var o := Open(w.log, d, link.expected, envelope);
    w.Put(d, link.(expected := Advance(link.expected, o),
                   accepted := if o.Ok? then link.accepted + [o.message] else link.accepted))
  }

  function Exec(enc: Cipher, run: seq<Choice>): World {
    if run == [] then World([], [], FRESH, FRESH)
    else
      var w := Exec(enc, run[..|run| - 1]);
      match run[|run| - 1]
      case Seal(d, chan, plain) => SealStep(w, enc, d, chan, plain)
      case Deliver(d, envelope) => DeliverStep(w, d, envelope)
  }

  /** The messages of one channel, in order. */
  function Stream(ms: seq<Message>, c: Channel): seq<Message> {
    if ms == [] then []
    else
      var last := ms[|ms| - 1];
      Stream(ms[..|ms| - 1], c) + if last.chan == c then [last] else []
  }

  lemma StreamOfAppend(ms: seq<Message>, m: Message, c: Channel)
    ensures Stream(ms + [m], c) == Stream(ms, c) + if m.chan == c then [m] else []
  {
    assert (ms + [m])[..|ms|] == ms;
  }

  /** Counter `n` of a channel was used once, for its `n`-th message. */
  ghost predicate SentInv(link: Link, c: Channel) {
    var s := Stream(link.sent, c);
    && |s| == link.counters[ChannelCode(c)] < U64
    && forall n :: 0 <= n < |s| ==> s[n].chan == c && s[n].counter == n
  }

  /** What was opened was sent, in increasing order of counters. */
  ghost predicate OpenedInv(link: Link, c: Channel) {
    var s, o := Stream(link.sent, c), Stream(link.accepted, c);
    && (forall k :: 0 <= k < |o| ==>
          o[k].counter < |s| && s[o[k].counter] == o[k] && o[k].counter < link.expected[ChannelCode(c)])
    && (forall i, j :: 0 <= i < j < |o| ==> o[i].counter < o[j].counter)
  }

  /** An entry of the log is a message its link has sent. */
  ghost predicate Logged(w: World, enc: Cipher, e: Entry, u: Use) {
    && e == EntryFor(enc, u.d, u.m)
    && u.m.counter < |Stream(w.At(u.d).sent, u.m.chan)|
    && Stream(w.At(u.d).sent, u.m.chan)[u.m.counter] == u.m
  }

  ghost predicate LogInv(w: World, enc: Cipher) {
    && |w.uses| == |w.log|
    && (forall i :: 0 <= i < |w.log| ==> Logged(w, enc, w.log[i], w.uses[i]))
    && (forall i, j :: 0 <= i < j < |w.log| ==> w.log[i].nonce != w.log[j].nonce)
  }

  ghost predicate SentIsLogged(w: World, enc: Cipher, d: Direction, c: Channel) {
    var s := Stream(w.At(d).sent, c);
    forall n :: 0 <= n < |s| ==> EntryFor(enc, d, s[n]) in w.log
  }

  ghost predicate Inv(w: World, enc: Cipher) {
    && LogInv(w, enc)
    && (forall d, c :: SentInv(w.At(d), c) && OpenedInv(w.At(d), c))
    && (forall d, c :: SentIsLogged(w, enc, d, c))
  }

  function Sealed(link: Link, m: Message): Link {
    link.(counters := link.counters[ChannelCode(m.chan) := m.counter + 1], sent := link.sent + [m])
  }

  lemma SealingKeepsLink(link: Link, m: Message, c: Channel)
    requires SentInv(link, c) && OpenedInv(link, c)
    requires m.counter == link.counters[ChannelCode(m.chan)] && m.counter + 1 < U64
    ensures SentInv(Sealed(link, m), c) && OpenedInv(Sealed(link, m), c)
    ensures Stream(link.sent, c) <= Stream(Sealed(link, m).sent, c)
  {
    StreamOfAppend(link.sent, m, c);
    assert c != m.chan ==> ChannelCode(c) != ChannelCode(m.chan);
  }

  lemma SealKeepsStreams(w: World, enc: Cipher, d: Direction, chan: Channel, plain: Octets)
    requires Inv(w, enc)
    ensures var t := SealStep(w, enc, d, chan, plain);
            && (forall d', c :: SentInv(t.At(d'), c) && OpenedInv(t.At(d'), c))
            && (forall d', c :: Stream(w.At(d').sent, c) <= Stream(t.At(d').sent, c))
  {
    var t, link := SealStep(w, enc, d, chan, plain), w.At(d);
    if t != w {
      var m := Message(chan, link.counters[ChannelCode(chan)], plain);
      forall d', c
        ensures SentInv(t.At(d'), c) && OpenedInv(t.At(d'), c)
        ensures Stream(w.At(d').sent, c) <= Stream(t.At(d').sent, c)
      {
        assert SentInv(w.At(d'), c) && OpenedInv(w.At(d'), c);
        assert t.At(d) == Sealed(link, m);
        if d' == d {
          SealingKeepsLink(link, m, c);
        }
      }
    }
  }

  lemma NewNonceIsFresh(w: World, enc: Cipher, d: Direction, m: Message, i: nat)
    requires Inv(w, enc) && i < |w.log|
    requires m.counter == w.At(d).counters[ChannelCode(m.chan)] < U64
    ensures w.log[i].nonce != NonceFor(d, m.chan, m.counter)
  {
    var u := w.uses[i];
    assert Logged(w, enc, w.log[i], u);
    assert SentInv(w.At(u.d), u.m.chan);
    if w.log[i].nonce == NonceFor(d, m.chan, m.counter) {
      NonceIsInjective(u.d, u.m.chan, u.m.counter, d, m.chan, m.counter);
    }
  }

  lemma StaysLogged(w: World, t: World, enc: Cipher, e: Entry, u: Use)
    requires Logged(w, enc, e, u)
    requires forall d, c :: Stream(w.At(d).sent, c) <= Stream(t.At(d).sent, c)
    ensures Logged(t, enc, e, u)
  {
  }

  lemma SealKeepsSentLogged(w: World, enc: Cipher, d: Direction, m: Message, d': Direction, c: Channel)
    requires SentIsLogged(w, enc, d', c) && m.counter == w.At(d).counters[ChannelCode(m.chan)]
    ensures SentIsLogged(SealStep(w, enc, d, m.chan, m.plain), enc, d', c)
  {
    var t, link := SealStep(w, enc, d, m.chan, m.plain), w.At(d);
    if t != w {
      StreamOfAppend(link.sent, m, c);
      assert t.log == w.log + [EntryFor(enc, d, m)];
      var s, s' := Stream(w.At(d').sent, c), Stream(t.At(d').sent, c);
      forall n | 0 <= n < |s'| ensures EntryFor(enc, d', s'[n]) in t.log {
        if n < |s| {
          assert EntryFor(enc, d', s[n]) in w.log;
        }
      }
    }
  }

  lemma LogExtends(w: World, t: World, enc: Cipher, e: Entry, u: Use)
    requires LogInv(w, enc) && t.log == w.log + [e] && t.uses == w.uses + [u] && Logged(t, enc, e, u)
    requires forall i :: 0 <= i < |w.log| ==> Logged(t, enc, w.log[i], w.uses[i])
    requires forall i :: 0 <= i < |w.log| ==> w.log[i].nonce != e.nonce
    ensures LogInv(t, enc)
  {
    hide Logged;
    forall i | 0 <= i < |t.log|
      ensures Logged(t, enc, t.log[i], t.uses[i])
    {
      if i < |w.log| {
        assert t.log[i] == w.log[i] && t.uses[i] == w.uses[i];
      }
    }
  }

  lemma NewEntryLogged(w: World, enc: Cipher, d: Direction, m: Message)
    requires SentInv(w.At(d), m.chan) && m.counter == w.At(d).counters[ChannelCode(m.chan)] && m.counter + 1 < U64
    ensures Logged(SealStep(w, enc, d, m.chan, m.plain), enc, EntryFor(enc, d, m), Use(d, m))
  {
    hide EntryFor;
    StreamOfAppend(w.At(d).sent, m, m.chan);
    assert SealStep(w, enc, d, m.chan, m.plain).At(d).sent == w.At(d).sent + [m];
  }

  lemma SealKeepsLog(w: World, enc: Cipher, d: Direction, chan: Channel, plain: Octets)
    requires Inv(w, enc)
    ensures LogInv(SealStep(w, enc, d, chan, plain), enc)
  {
    hide Logged, OpenedInv, SentIsLogged, NonceFor, Stream;
    var t, m := SealStep(w, enc, d, chan, plain), Message(chan, w.At(d).counters[ChannelCode(chan)], plain);
    if t != w {
      SealKeepsStreams(w, enc, d, chan, plain);
      assert SentInv(w.At(d), chan);
      NewEntryLogged(w, enc, d, m);
      forall i | 0 <= i < |w.log|
        ensures Logged(t, enc, w.log[i], w.uses[i])
      {
        StaysLogged(w, t, enc, w.log[i], w.uses[i]);
      }
      forall i | 0 <= i < |w.log|
        ensures w.log[i].nonce != EntryFor(enc, d, m).nonce
      {
        NewNonceIsFresh(w, enc, d, m, i);
      }
      LogExtends(w, t, enc, EntryFor(enc, d, m), Use(d, m));
    }
  }

  lemma {:induction false} DecryptFindsAnEntry(log: seq<Entry>, nonce: Octets, aad: Octets, box: Octets)
    requires Decrypt(log, nonce, aad, box).Some?
    ensures exists i :: 0 <= i < |log| && log[i].nonce == nonce && log[i].aad == aad && log[i].box == box
                        && log[i].plain == Decrypt(log, nonce, aad, box).value
  {
    var n := |log| - 1;
    if !(log[n].nonce == nonce && log[n].aad == aad && log[n].box == box) {
      DecryptFindsAnEntry(log[..n], nonce, aad, box);
      var i :| 0 <= i < n && log[..n][i].nonce == nonce && log[..n][i].aad == aad && log[..n][i].box == box
               && log[..n][i].plain == Decrypt(log, nonce, aad, box).value;
      assert log[i].plain == Decrypt(log, nonce, aad, box).value;
    }
  }

  /** Forgery, replay, reflection and channel swaps all fail: an opened message
      is one this very link sent, on this channel, with this counter. */
  lemma OpenedWasSent(w: World, enc: Cipher, d: Direction, envelope: Octets)
    requires Inv(w, enc) && Open(w.log, d, w.At(d).expected, envelope).Ok?
    ensures var m := Open(w.log, d, w.At(d).expected, envelope).message;
            && w.At(d).expected[ChannelCode(m.chan)] <= m.counter
            && m.counter < |Stream(w.At(d).sent, m.chan)|
            && Stream(w.At(d).sent, m.chan)[m.counter] == m
  {
    var m := Open(w.log, d, w.At(d).expected, envelope).message;
    var nonce, aad := NonceFor(d, m.chan, m.counter), [ChannelCode(m.chan)];
    DecryptFindsAnEntry(w.log, nonce, aad, envelope[9..]);
    var i :| 0 <= i < |w.log| && w.log[i].nonce == nonce && w.log[i].plain == m.plain;
    var u := w.uses[i];
    assert Logged(w, enc, w.log[i], u) && SentInv(w.At(u.d), u.m.chan);
    FromBigEndianBound(envelope[1..9]);
    Spans();
    NonceIsInjective(d, m.chan, m.counter, u.d, u.m.chan, u.m.counter);
  }

  function Accepted(link: Link, m: Message): Link {
    link.(expected := link.expected[ChannelCode(m.chan) := m.counter + 1], accepted := link.accepted + [m])
  }

  lemma AcceptedInOrder(s: seq<Message>, o: seq<Message>, expected: nat, m: Message)
    requires forall k :: 0 <= k < |o| ==> o[k].counter < |s| && s[o[k].counter] == o[k] && o[k].counter < expected
    requires forall i, j :: 0 <= i < j < |o| ==> o[i].counter < o[j].counter
    requires expected <= m.counter < |s| && s[m.counter] == m
    ensures var all := o + [m];
            && (forall k :: 0 <= k < |all| ==>
                  all[k].counter < |s| && s[all[k].counter] == all[k] && all[k].counter < m.counter + 1)
            && (forall i, j :: 0 <= i < j < |all| ==> all[i].counter < all[j].counter)
  {
  }

  lemma AcceptingKeepsLink(link: Link, m: Message, c: Channel)
    requires SentInv(link, c) && OpenedInv(link, c)
    requires link.expected[ChannelCode(m.chan)] <= m.counter < |Stream(link.sent, m.chan)|
    requires Stream(link.sent, m.chan)[m.counter] == m
    ensures SentInv(Accepted(link, m), c) && OpenedInv(Accepted(link, m), c)
  {
    hide Stream;
    StreamOfAppend(link.accepted, m, c);
    if c != m.chan {
      assert ChannelCode(c) != ChannelCode(m.chan);
    } else {
      AcceptedInOrder(Stream(link.sent, c), Stream(link.accepted, c), link.expected[ChannelCode(c)], m);
    }
  }

  lemma DeliverKeepsLinks(w: World, enc: Cipher, d: Direction, envelope: Octets)
    requires Inv(w, enc)
    ensures var t := DeliverStep(w, d, envelope); forall d', c :: SentInv(t.At(d'), c) && OpenedInv(t.At(d'), c)
  {
    var t, link := DeliverStep(w, d, envelope), w.At(d);
    var o := Open(w.log, d, link.expected, envelope);
    if o.Ok? {
      OpenedWasSent(w, enc, d, envelope);
      assert t.At(d) == Accepted(link, o.message);
    }
    forall d', c ensures SentInv(t.At(d'), c) && OpenedInv(t.At(d'), c) {
      assert SentInv(w.At(d'), c) && OpenedInv(w.At(d'), c);
      if o.Ok? && d' == d {
        AcceptingKeepsLink(link, o.message, c);
      }
    }
  }

  lemma DeliverKeepsLog(w: World, enc: Cipher, d: Direction, envelope: Octets)
    requires Inv(w, enc)
    ensures LogInv(DeliverStep(w, d, envelope), enc)
    ensures forall d', c :: SentIsLogged(DeliverStep(w, d, envelope), enc, d', c)
  {
    var t := DeliverStep(w, d, envelope);
    forall d', c ensures SentIsLogged(t, enc, d', c) {
      assert SentIsLogged(w, enc, d', c) && t.At(d').sent == w.At(d').sent;
    }
    assert t.log == w.log && t.uses == w.uses;
    forall i | 0 <= i < |t.log| ensures Logged(t, enc, t.log[i], t.uses[i]) {
      assert Logged(w, enc, w.log[i], w.uses[i]);
    }
  }

  lemma {:induction false} EveryReachableWorldIsSound(enc: Cipher, run: seq<Choice>)
    ensures Inv(Exec(enc, run), enc)
  {
    if run != [] {
      var w := Exec(enc, run[..|run| - 1]);
      EveryReachableWorldIsSound(enc, run[..|run| - 1]);
      match run[|run| - 1]
      case Seal(d, chan, plain) =>
        SealKeepsStreams(w, enc, d, chan, plain);
        SealKeepsLog(w, enc, d, chan, plain);
        forall d', c ensures SentIsLogged(Exec(enc, run), enc, d', c) {
          assert SentIsLogged(w, enc, d', c);
          SealKeepsSentLogged(w, enc, d, Message(chan, w.At(d).counters[ChannelCode(chan)], plain), d', c);
        }
      case Deliver(d, envelope) =>
        DeliverKeepsLinks(w, enc, d, envelope);
        DeliverKeepsLog(w, enc, d, envelope);
    }
  }

  /** `xs` is `ys` with some elements left out: same order, none twice. */
  ghost predicate Subsequence<T>(xs: seq<T>, ys: seq<T>) {
    exists at: seq<nat> :: Selects(at, xs, ys)
  }

  ghost predicate Selects<T>(at: seq<nat>, xs: seq<T>, ys: seq<T>) {
    && |at| == |xs|
    && (forall i, j :: 0 <= i < j < |at| ==> at[i] < at[j])
    && (forall k :: 0 <= k < |at| ==> at[k] < |ys| && ys[at[k]] == xs[k])
  }

  function Plains(ms: seq<Message>): seq<Octets> {
    seq(|ms|, k requires 0 <= k < |ms| => ms[k].plain)
  }

  /** Whatever the network does, a channel's opened plaintexts are a subsequence
      of those sealed on it. */
  lemma ChannelsAreFaithful(enc: Cipher, run: seq<Choice>, d: Direction, c: Channel)
    ensures var link := Exec(enc, run).At(d);
            Subsequence(Plains(Stream(link.accepted, c)), Plains(Stream(link.sent, c)))
  {
    EveryReachableWorldIsSound(enc, run);
    var link := Exec(enc, run).At(d);
    var s, o := Stream(link.sent, c), Stream(link.accepted, c);
    assert OpenedInv(link, c);
    assert Selects(seq(|o|, k requires 0 <= k < |o| => o[k].counter), Plains(o), Plains(s));
  }

  /** No nonce is used twice under the session key, over both directions. */
  lemma NoncesNeverRepeat(enc: Cipher, run: seq<Choice>, i: nat, j: nat)
    requires i < j < |Exec(enc, run).log|
    ensures Exec(enc, run).log[i].nonce != Exec(enc, run).log[j].nonce
  {
    EveryReachableWorldIsSound(enc, run);
  }

  /** `counter + 1` in open fits a u64: the sealer never seals the last counter. */
  lemma OpenNeverOverflows(enc: Cipher, run: seq<Choice>, d: Direction, envelope: Octets)
    requires Open(Exec(enc, run).log, d, Exec(enc, run).At(d).expected, envelope).Ok?
    ensures Open(Exec(enc, run).log, d, Exec(enc, run).At(d).expected, envelope).message.counter + 1 < U64
  {
    EveryReachableWorldIsSound(enc, run);
    var w := Exec(enc, run);
    OpenedWasSent(w, enc, d, envelope);
    assert SentInv(w.At(d), Open(w.log, d, w.At(d).expected, envelope).message.chan);
  }

  // ------------------------------------------------------ the client's receive loop

  datatype Incoming = Item(message: Message) | Closed | Failed

  type Decoder = Message -> bool

  /** Stale QUIC video: a newer frame overtook this one. */
  predicate Overtaken(quic: bool, envelope: Octets, o: Opened) {
    quic && o == Err(Replay) && envelope != [] && envelope[0] == ChannelCode(Video)
  }

  datatype Received = Received(incoming: Incoming, expected: Counters, rest: seq<Octets>)

  /** What one `recv` yields from an inbound queue that then closes. */
  function Recv(log: seq<Entry>, quic: bool, decodes: Decoder, expected: Counters, inbound: seq<Octets>): (r: Received)
    ensures |r.rest| <= |inbound| && (r.incoming.Item? ==> |r.rest| < |inbound|)
  {
    if inbound == [] then Received(Closed, expected, [])
    else
      var o := Open(log, ServerToClient, expected, inbound[0]);
      if Overtaken(quic, inbound[0], o) then Recv(log, quic, decodes, expected, inbound[1..])
      else
        Received(if o.Ok? && decodes(o.message) then Item(o.message) else Failed,
                 Advance(expected, o), inbound[1..])
  }

  class Session {
    const quic: bool
    const decodes: Decoder
    const opener: Opener
    var inbound: seq<Octets>

    constructor (quic: bool, decodes: Decoder, opener: Opener)
      ensures this.quic == quic && this.decodes == decodes && this.opener == opener && inbound == []
    {
      this.quic, this.decodes, this.opener, this.inbound := quic, decodes, opener, [];
    }

    method RecvNext(log: seq<Entry>) returns (r: Incoming)
      requires opener.dir == ServerToClient
      modifies this, opener
      ensures Received(r, opener.nextExpected, inbound)
              == Recv(log, quic, decodes, old(opener.nextExpected), old(inbound))
    {
      while inbound != []
        invariant opener.dir == ServerToClient
        invariant Recv(log, quic, decodes, opener.nextExpected, inbound)
                  == Recv(log, quic, decodes, old(opener.nextExpected), old(inbound))
        decreases |inbound|
      {
        var data := inbound[0];
        inbound := inbound[1..];
        var opened' := opener.OpenEnvelope(log, data);
        if quic && opened' == Err(Replay) && data != [] && data[0] == ChannelCode(Video) {
          continue;
        }
        if opened'.Ok? && decodes(opened'.message) {
          return Item(opened'.message);
        }
        return Failed;
      }
      r := Closed;
    }
  }

  datatype Drained = Drained(items: seq<Message>, failed: bool)

  /** Calling `recv` until it stops yielding. */
  function Drain(log: seq<Entry>, quic: bool, decodes: Decoder, expected: Counters, inbound: seq<Octets>): Drained
    decreases |inbound|
  {
    var r := Recv(log, quic, decodes, expected, inbound);
    match r.incoming
    case Closed => Drained([], false)
    case Failed => Drained([], true)
    case Item(m) =>
      var later := Drain(log, quic, decodes, r.expected, r.rest);
      Drained([m] + later.items, later.failed)
  }

  /** `m` was sealed for this direction. */
  ghost predicate Sent(w: World, d: Direction, m: Message) {
    m.counter < |Stream(w.At(d).sent, m.chan)| && Stream(w.At(d).sent, m.chan)[m.counter] == m
  }

  lemma {:induction false} DecryptGivesThePlaintext(log: seq<Entry>, i: nat)
    requires i < |log|
    requires forall j, k :: 0 <= j < k < |log| ==> log[j].nonce != log[k].nonce
    ensures Decrypt(log, log[i].nonce, log[i].aad, log[i].box) == Some(log[i].plain)
  {
    if i < |log| - 1 {
      var shorter := log[..|log| - 1];
      assert forall j, k :: 0 <= j < k < |shorter| ==> shorter[j] == log[j] && shorter[k] == log[k];
      DecryptGivesThePlaintext(shorter, i);
    }
  }

  lemma WireParts(enc: Cipher, d: Direction, m: Message)
    requires m.counter < U64 && |EntryFor(enc, d, m).box| == |m.plain| + TAG_BYTES
    ensures var e, wire := EntryFor(enc, d, m), Wire(enc, d, m);
            && |wire| >= HEADER_BYTES + TAG_BYTES && wire[0] == ChannelCode(m.chan) && ChannelFrom(wire[0]) == Some(m.chan)
            && wire[9..] == e.box && FromBigEndian(wire[1..9]) == m.counter
  {
    hide EntryFor, FromBigEndian, BigEndian;
    Spans();
    BigEndianRoundTrip(m.counter, 8);
    assert Wire(enc, d, m)[1..9] == BigEndian(m.counter, 8);
  }

  lemma SentDecrypts(w: World, enc: Cipher, d: Direction, m: Message)
    requires Inv(w, enc) && Sent(w, d, m)
    ensures var e := EntryFor(enc, d, m);
            m.counter < U64 && Decrypt(w.log, e.nonce, e.aad, e.box) == Some(m.plain)
  {
    hide Decrypt, NonceFor, Stream, Logged, OpenedInv;
    var e := EntryFor(enc, d, m);
    assert SentInv(w.At(d), m.chan) && SentIsLogged(w, enc, d, m.chan);
    var i :| 0 <= i < |w.log| && w.log[i] == e;
    DecryptGivesThePlaintext(w.log, i);
  }

  /** An honest envelope opens to what was sealed, or is stale. */
  lemma HonestEnvelopeOpens(w: World, enc: Cipher, d: Direction, m: Message, expected: Counters)
    requires Inv(w, enc) && Sent(w, d, m)
    requires forall n, a, p :: |enc(n, a, p)| == |p| + TAG_BYTES
    ensures Open(w.log, d, expected, Wire(enc, d, m))
            == if m.counter < expected[ChannelCode(m.chan)] then Err(Replay) else Ok(m)
  {
    hide Inv, Sent, Decrypt, Wire, NonceFor, FromBigEndian;
    SentDecrypts(w, enc, d, m);
    WireParts(enc, d, m);
  }

  function WireAll(enc: Cipher, ms: seq<Message>): (r: seq<Octets>)
    ensures |r| == |ms|
  {
    seq(|ms|, i requires 0 <= i < |ms| => Wire(enc, ServerToClient, ms[i]))
  }

  /** Message `i` is due: control and audio always, video when it is newer than
      every video frame before it. */
  ghost predicate Due(ms: seq<Message>, i: nat, floor: nat)
    requires i < |ms|
  {
    ms[i].chan.Video? ==>
      && floor <= ms[i].counter
      && forall j :: 0 <= j < i && ms[j].chan.Video? ==> ms[j].counter < ms[i].counter
  }

  ghost function DueFrom(ms: seq<Message>, i: nat, floor: nat): seq<Message>
    requires i <= |ms|
    decreases |ms| - i
  {
    if i == |ms| then []
    else (if Due(ms, i, floor) then [ms[i]] else []) + DueFrom(ms, i + 1, floor)
  }

  /** Control and audio arrive in order; video in any order, with any losses. */
  ghost predicate InOrder(ms: seq<Message>, expected: Counters) {
    && (forall i :: 0 <= i < |ms| && !ms[i].chan.Video? ==> expected[ChannelCode(ms[i].chan)] <= ms[i].counter)
    && (forall i, j :: 0 <= i < j < |ms| && ms[i].chan == ms[j].chan && !ms[i].chan.Video? ==>
          ms[i].counter < ms[j].counter)
  }

  ghost predicate Honest(w: World, enc: Cipher, decodes: Decoder, ms: seq<Message>, expected: Counters) {
    && Inv(w, enc)
    && (forall n, a, p :: |enc(n, a, p)| == |p| + TAG_BYTES)
    && (forall i :: 0 <= i < |ms| ==> Sent(w, ServerToClient, ms[i]) && decodes(ms[i]))
    && InOrder(ms, expected)
  }

  /** What the opener expects of video after `i` honest messages. */
  ghost function Floor(ms: seq<Message>, i: nat, first: nat): nat
    requires i <= |ms|
  {
    if i == 0 then first
    else
      var before := Floor(ms, i - 1, first);
      if ms[i - 1].chan.Video? && before <= ms[i - 1].counter then ms[i - 1].counter + 1 else before
  }

  lemma {:induction false} FloorMeansNewer(ms: seq<Message>, i: nat, first: nat, n: nat)
    requires i <= |ms|
    ensures Floor(ms, i, first) <= n <==>
            first <= n && forall j :: 0 <= j < i && ms[j].chan.Video? ==> ms[j].counter < n
  {
    if i > 0 {
      FloorMeansNewer(ms, i - 1, first, n);
    }
  }

  ghost predicate Position(ms: seq<Message>, i: nat, first: Counters, now: Counters)
    requires i <= |ms|
  {
    && (forall k :: i <= k < |ms| && !ms[k].chan.Video? ==> now[ChannelCode(ms[k].chan)] <= ms[k].counter)
    && now[ChannelCode(Video)] == Floor(ms, i, first[ChannelCode(Video)])
  }

  lemma PositionAdvances(ms: seq<Message>, i: nat, first: Counters, now: Counters)
    requires i < |ms| && InOrder(ms, first) && Position(ms, i, first, now)
    ensures Position(ms, i + 1, first,
                     if ms[i].counter < now[ChannelCode(ms[i].chan)] then now else Advance(now, Ok(ms[i])))
  {
  }

  /** One honest message is received, or skipped because a newer frame overtook it. */
  lemma DrainOne(w: World, enc: Cipher, decodes: Decoder, m: Message, now: Counters, rest: seq<Octets>)
    requires Inv(w, enc) && Sent(w, ServerToClient, m) && decodes(m)
    requires forall n, a, p :: |enc(n, a, p)| == |p| + TAG_BYTES
    requires m.counter < now[ChannelCode(m.chan)] ==> m.chan.Video?
    ensures var stale := m.counter < now[ChannelCode(m.chan)];
            var later := Drain(w.log, true, decodes, if stale then now else Advance(now, Ok(m)), rest);
            Drain(w.log, true, decodes, now, [Wire(enc, ServerToClient, m)] + rest)
            == if stale then later else Drained([m] + later.items, later.failed)
  {
    hide Inv, Sent, Open, BigEndian, EntryFor;
    HonestEnvelopeOpens(w, enc, ServerToClient, m, now);
    var queue := [Wire(enc, ServerToClient, m)] + rest;
    assert queue[0] == Wire(enc, ServerToClient, m) && queue[1..] == rest;
    assert Wire(enc, ServerToClient, m)[0] == ChannelCode(m.chan);
  }

  lemma DueIff(ms: seq<Message>, i: nat, first: Counters, now: Counters)
    requires i < |ms| && Position(ms, i, first, now)
    ensures Due(ms, i, first[ChannelCode(Video)]) <==> now[ChannelCode(ms[i].chan)] <= ms[i].counter
    ensures ms[i].counter < now[ChannelCode(ms[i].chan)] ==> ms[i].chan.Video?
  {
    hide Floor;
    FloorMeansNewer(ms, i, first[ChannelCode(Video)], ms[i].counter);
  }

  lemma WireFrom(enc: Cipher, ms: seq<Message>, i: nat)
    requires i <= |ms|
    ensures WireAll(enc, ms)[i..]
            == if i == |ms| then [] else [Wire(enc, ServerToClient, ms[i])] + WireAll(enc, ms)[i + 1..]
  {
    hide Wire;
  }

  lemma NothingDrains(log: seq<Entry>, decodes: Decoder, now: Counters)
    ensures Drain(log, true, decodes, now, []) == Drained([], false)
  {
  }

  lemma {:induction false} DrainFrom(w: World, enc: Cipher, decodes: Decoder, ms: seq<Message>,
                                     i: nat, first: Counters, now: Counters)
    requires Honest(w, enc, decodes, ms, first) && i <= |ms| && Position(ms, i, first, now)
    ensures Drain(w.log, true, decodes, now, WireAll(enc, ms)[i..])
            == Drained(DueFrom(ms, i, first[ChannelCode(Video)]), false)
    decreases |ms| - i
  {
    hide Inv, Sent, Drain, Position, Due, InOrder, Wire, WireAll, Advance;
    WireFrom(enc, ms, i);
    if i == |ms| {
      NothingDrains(w.log, decodes, now);
    } else {
      DueIff(ms, i, first, now);
      PositionAdvances(ms, i, first, now);
      DrainOne(w, enc, decodes, ms[i], now, WireAll(enc, ms)[i + 1..]);
      DrainFrom(w, enc, decodes, ms, i + 1, first,
                if ms[i].counter < now[ChannelCode(ms[i].chan)] then now else Advance(now, Ok(ms[i])));
    }
  }

  /** Over QUIC, receiving never fails on honest traffic, yields every control
      and audio message in order, and exactly the video newer than all before. */
  lemma LatestOnlyVideo(w: World, enc: Cipher, decodes: Decoder, ms: seq<Message>, expected: Counters)
    requires Honest(w, enc, decodes, ms, expected)
    ensures Drain(w.log, true, decodes, expected, WireAll(enc, ms))
            == Drained(DueFrom(ms, 0, expected[ChannelCode(Video)]), false)
  {
    assert WireAll(enc, ms)[0..] == WireAll(enc, ms);
    DrainFrom(w, enc, decodes, ms, 0, expected, expected);
  }

  // ------------------------------------------------------------- what is refused, and how

  /** The envelope is one that this direction sealed, and not older than expected. */
  ghost predicate Genuine(w: World, enc: Cipher, d: Direction, expected: Counters, envelope: Octets) {
    exists m: Message :: Sent(w, d, m) && m.counter >= expected[ChannelCode(m.chan)] && envelope == Wire(enc, d, m)
  }

  /** What opens is byte for byte an envelope that was sealed. */
  lemma OpenedIsSealed(w: World, enc: Cipher, d: Direction, envelope: Octets)
    requires Inv(w, enc) && Open(w.log, d, w.At(d).expected, envelope).Ok?
    ensures Genuine(w, enc, d, w.At(d).expected, envelope)
  {
    hide LogInv, SentInv, OpenedInv, SentIsLogged;
    var m := Open(w.log, d, w.At(d).expected, envelope).message;
    OpenedWasSent(w, enc, d, envelope);
    OpenedBox(w, enc, d, envelope);
    BigEndianOfRead(envelope[1..9]);
    assert envelope == [envelope[0]] + envelope[1..9] + envelope[9..];
    assert Sent(w, d, m) && envelope == Wire(enc, d, m);
  }

  lemma OpenedBox(w: World, enc: Cipher, d: Direction, envelope: Octets)
    requires Inv(w, enc) && Open(w.log, d, w.At(d).expected, envelope).Ok?
    ensures envelope[9..] == EntryFor(enc, d, Open(w.log, d, w.At(d).expected, envelope).message).box
  {
    var m := Open(w.log, d, w.At(d).expected, envelope).message;
    var nonce, aad := NonceFor(d, m.chan, m.counter), [ChannelCode(m.chan)];
    DecryptFindsAnEntry(w.log, nonce, aad, envelope[9..]);
    var i :| 0 <= i < |w.log| && w.log[i].nonce == nonce && w.log[i].aad == aad && w.log[i].box == envelope[9..]
             && w.log[i].plain == m.plain;
    assert Logged(w, enc, w.log[i], w.uses[i]);
  }

  /** In every reachable world, and for any bytes at all: too short, no channel, too old,
      sealed and opened, or else refused as a forgery. */
  lemma EveryEnvelopeIsJudged(enc: Cipher, run: seq<Choice>, d: Direction, envelope: Octets)
    requires forall n, a, p :: |enc(n, a, p)| == |p| + TAG_BYTES
    ensures var w := Exec(enc, run);
            var expected := w.At(d).expected;
            var o := Open(w.log, d, expected, envelope);
            if |envelope| < 25 then o == Err(TooShort)
            else if !(1 <= envelope[0] <= 3) then o == Err(UnknownChannel)
            else if FromBigEndian(envelope[1..9]) < expected[envelope[0]] then o == Err(Replay)
            else if Genuine(w, enc, d, expected, envelope) then o.Ok? && envelope == Wire(enc, d, o.message)
            else o == Err(AeadFailed)
  {
    hide Exec, Inv, Wire, Sent, Decrypt, NonceFor, FromBigEndian;
    EveryReachableWorldIsSound(enc, run);
    var w := Exec(enc, run);
    var expected := w.At(d).expected;
    if Open(w.log, d, expected, envelope).Ok? {
      OpenedIsSealed(w, enc, d, envelope);
    }
    if Genuine(w, enc, d, expected, envelope) {
      var m: Message :| Sent(w, d, m) && m.counter >= expected[ChannelCode(m.chan)] && envelope == Wire(enc, d, m);
      HonestEnvelopeOpens(w, enc, d, m, expected);
    }
  }

  /** The receive loop passes over envelopes of the video channel that are too old, over
      QUIC only, and ends with the first other one: it yields what that opens to if it
      decodes, and fails on anything else. `k` is how many it passes over. */
  lemma {:induction false} RecvIs(log: seq<Entry>, quic: bool, decodes: Decoder, expected: Counters, inbound: seq<Octets>)
    returns (k: nat)
    ensures k <= |inbound| && (!quic ==> k == 0)
    ensures forall i :: 0 <= i < k ==> Stale(log, expected, inbound[i])
    ensures var r := Recv(log, quic, decodes, expected, inbound);
            if k == |inbound| then r == Received(Closed, expected, [])
            else
              var o := Open(log, ServerToClient, expected, inbound[k]);
              && (quic ==> !Stale(log, expected, inbound[k])) && r.rest == inbound[k + 1..]
              && r.incoming == (if o.Ok? && decodes(o.message) then Item(o.message) else Failed)
              && r.expected == if o.Ok? then expected[ChannelCode(o.message.chan) := o.message.counter + 1] else expected
  {
    hide Open;
    if inbound == [] || !Overtaken(quic, inbound[0], Open(log, ServerToClient, expected, inbound[0])) {
      k := 0;
    } else {
      k := RecvIs(log, quic, decodes, expected, inbound[1..]);
      assert forall i :: 1 <= i < k + 1 ==> inbound[i] == inbound[1..][i - 1];
      k := k + 1;
    }
  }

  /** Refused as older than expected, on channel 2, the video. */
  predicate Stale(log: seq<Entry>, expected: Counters, envelope: Octets) {
    Open(log, ServerToClient, expected, envelope) == Err(Replay) && envelope != [] && envelope[0] == 2
  }

  /** What goes over the wire: the channel, the counter in eight bytes, then ciphertext and
      tag; and the nonce: direction, channel, two zeros, the counter. Control is channel 1,
      video 2 and audio 3; the host's direction is 0, the client's 1. */
  lemma LayoutIs(enc: Cipher, d: Direction, m: Message)
    requires m.counter < U64
    ensures var wire, nonce := Wire(enc, d, m), NonceFor(d, m.chan, m.counter);
            var channel := match m.chan case Control => 1 case Video => 2 case Audio => 3;
            && |wire| >= 9 && wire[0] == channel && FromBigEndian(wire[1..9]) == m.counter
            && wire[9..] == enc(nonce, [channel], m.plain)
            && |nonce| == 12 && nonce[0] == (if d.ServerToClient? then 0 else 1) && nonce[1] == channel
            && nonce[2] == nonce[3] == 0 && FromBigEndian(nonce[4..]) == m.counter
  {
    hide FromBigEndian, BigEndian;
    Spans();
    BigEndianRoundTrip(m.counter, 8);
    assert Wire(enc, d, m)[1..9] == BigEndian(m.counter, 8);
    assert NonceFor(d, m.chan, m.counter)[4..] == BigEndian(m.counter, 8);
  }
}
