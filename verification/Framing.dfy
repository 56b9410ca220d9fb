/** The byte stream of a connection: what a client sends is cut into frames, and what
    the server sends back carries its own length. */
module Framing {
  import opened Bits
  import opened Wrappers
  import opened BdFormat
  import BdRefusals

  const MAX_MESSAGE_SIZE := 0x400_0000
  const BUFFER_SPACE_HEADER := 180
  const RESPONSE_SIGNATURE := 0xDEADBEEF

  // ---- incoming ----

  datatype Frame = Ping | Space(available: int) | Message(body: seq<bv8>) {
    /** What can be sent: a message's length must not read as anything else. */
    predicate Sendable() {
      match this
      case Ping => true
      case Space(n) => U32.Holds(n)
      case Message(body) => |body| != 0 && |body| != BUFFER_SPACE_HEADER && |body| <= MAX_MESSAGE_SIZE
    }

    function Wire(): seq<bv8>
      requires Sendable()
    {
      match this
      case Ping => HeaderBytes(0)
      case Space(n) => HeaderBytes(BUFFER_SPACE_HEADER) + HeaderBytes(n)
      case Message(body) => HeaderFits(|body|); HeaderBytes(|body|) + body
    }
  }

  function HeaderBytes(n: int): (b: seq<bv8>)
    requires 0 <= n < 0x1_0000_0000 || U32.Holds(n)
    ensures |b| == 4
  {
    HeaderFits(n);
    U32.ToBytes(n)
  }

  lemma HeaderFits(n: int)
    ensures U32.Holds(n) <==> 0 <= n < 0x1_0000_0000
  {
    Pow256Of4();
  }

  /** The four bytes of a header, least significant first. */
  lemma HeaderBytesAre(n: int)
    requires 0 <= n < 0x1_0000_0000
    ensures var b := HeaderBytes(n);
            && b[0] as int == n % 0x100 && b[1] as int == (n / 0x100) % 0x100
            && b[2] as int == (n / 0x1_0000) % 0x100 && b[3] as int == (n / 0x100_0000) % 0x100
  {
    HeaderFits(n);
    forall i: nat | i < 4
      ensures HeaderBytes(n)[i] as int == (n / Pow256(i)) % 256
    {
      BdRefusals.NumByteAt(U32, n, i);
    }
    PowersOf256();
    assert HeaderBytes(n)[0] as int == (n / Pow256(0)) % 256;
    assert HeaderBytes(n)[1] as int == (n / Pow256(1)) % 256;
    assert HeaderBytes(n)[2] as int == (n / Pow256(2)) % 256;
    assert HeaderBytes(n)[3] as int == (n / Pow256(3)) % 256;
  }

  lemma PowersOf256()
    ensures Pow256(0) == 1 && Pow256(1) == 0x100 && Pow256(2) == 0x1_0000 && Pow256(3) == 0x100_0000
  {
  }

  lemma PingIsZeros()
    ensures HeaderBytes(0) == [0, 0, 0, 0]
  {
    HeaderBytesAre(0);
  }

  function HeaderOf(b: seq<bv8>): (n: nat)
    requires |b| == 4
  {
    U32.FromBytes(b)
  }

  /** Four bytes and the number they say determine each other. */
  lemma HeaderRoundTrip(b: seq<bv8>, n: int)
    requires |b| == 4 && 0 <= n < 0x1_0000_0000
    ensures HeaderOf(b) == n <==> b == HeaderBytes(n)
  {
    HeaderFits(n);
    NumRoundTrip(U32, n);
    LeBytesOfFromLe(b);
  }

  /** How a connection ends: between two frames, inside one, or on a frame that is
      refused. */
  datatype Ending = Clean | IncompleteHeader | UnexpectedEof | TooLarge | HandlerFailed

  datatype Turn = Stop(ending: Ending) | Got(frame: Frame, rest: seq<bv8>)

  /** One turn of the loop on what is left of the stream. */
  function NextFrame(input: seq<bv8>, accepts: seq<bv8> -> bool): (t: Turn)
    ensures t.Got? ==> |t.rest| < |input|
  {
    if input == [] then Stop(Clean)
    else if |input| < 4 then Stop(IncompleteHeader)
    else
      var header, rest := HeaderOf(input[..4]), input[4..];
      if header == 0 then Got(Ping, rest)
      else if header == BUFFER_SPACE_HEADER then
        if |rest| < 4 then Stop(UnexpectedEof) else Got(Space(HeaderOf(rest[..4])), rest[4..])
      else if header > MAX_MESSAGE_SIZE then Stop(TooLarge)
      else if |rest| < header then Stop(UnexpectedEof)
      else if !accepts(rest[..header]) then Stop(HandlerFailed)
      else Got(Message(rest[..header]), rest[header..])
  }

  function Split(input: seq<bv8>, accepts: seq<bv8> -> bool): (seq<Frame>, Ending)
    decreases |input|
  {
    match NextFrame(input, accepts)
    case Stop(ending) => ([], ending)
    case Got(frame, rest) =>
      var (frames, ending) := Split(rest, accepts);
      ([frame] + frames, ending)
  }

  predicate Acceptable(f: Frame, accepts: seq<bv8> -> bool) {
    f.Sendable() && (f.Message? ==> accepts(f.body))
  }

  predicate AllAcceptable(fs: seq<Frame>, accepts: seq<bv8> -> bool) {
    forall i :: 0 <= i < |fs| ==> Acceptable(fs[i], accepts)
  }

  function WireAll(fs: seq<Frame>): seq<bv8>
    requires forall i :: 0 <= i < |fs| ==> fs[i].Sendable()
  {
    if fs == [] then [] else fs[0].Wire() + WireAll(fs[1..])
  }

  /** A frame is cut off exactly where its bytes stand in front. */
  lemma FrameInFront(f: Frame, input: seq<bv8>, rest: seq<bv8>, accepts: seq<bv8> -> bool)
    ensures NextFrame(input, accepts) == Got(f, rest) <==> Acceptable(f, accepts) && input == f.Wire() + rest
  {
    if |input| >= 4 {
      var head, tail := input[..4], input[4..];
      assert input == head + tail;
      HeaderRoundTrip(head, 0);
      HeaderRoundTrip(head, BUFFER_SPACE_HEADER);
      match f {
        case Ping =>
          assert input == HeaderBytes(0) + rest <==> head == HeaderBytes(0) && tail == rest by {
            FrontEqual(head, tail, HeaderBytes(0), rest);
          }
        case Space(n) =>
          SpaceInFront(n, head, tail, rest, accepts);
        case Message(body) =>
          MessageInFront(body, head, tail, rest, accepts);
      }
    } else if Acceptable(f, accepts) {
      assert |f.Wire()| >= 4;
    }
  }

  lemma FrontEqual<T>(a: seq<T>, b: seq<T>, c: seq<T>, d: seq<T>)
    requires |a| == |c|
    ensures a + b == c + d <==> a == c && b == d
  {
    if a + b == c + d {
      assert a == (a + b)[..|a|] && c == (c + d)[..|a|];
      assert b == (a + b)[|a|..] && d == (c + d)[|a|..];
    }
  }

  lemma SpaceInFront(n: int, head: seq<bv8>, tail: seq<bv8>, rest: seq<bv8>, accepts: seq<bv8> -> bool)
    requires |head| == 4
    requires HeaderOf(head) == 0 <==> head == HeaderBytes(0)
    requires HeaderOf(head) == BUFFER_SPACE_HEADER <==> head == HeaderBytes(BUFFER_SPACE_HEADER)
    ensures NextFrame(head + tail, accepts) == Got(Space(n), rest) <==>
              Space(n).Sendable() && head + tail == Space(n).Wire() + rest
  {
    var input := head + tail;
    assert input[..4] == head && input[4..] == tail;
    HeaderFits(n);
    if Space(n).Sendable() {
      assert Space(n).Wire() + rest == HeaderBytes(BUFFER_SPACE_HEADER) + (HeaderBytes(n) + rest);
      FrontEqual(head, tail, HeaderBytes(BUFFER_SPACE_HEADER), HeaderBytes(n) + rest);
      if |tail| >= 4 {
        assert tail == tail[..4] + tail[4..];
        FrontEqual(tail[..4], tail[4..], HeaderBytes(n), rest);
        HeaderRoundTrip(tail[..4], n);
      }
    }
  }

  lemma MessageInFront(body: seq<bv8>, head: seq<bv8>, tail: seq<bv8>, rest: seq<bv8>, accepts: seq<bv8> -> bool)
    requires |head| == 4
    requires HeaderOf(head) == 0 <==> head == HeaderBytes(0)
    requires HeaderOf(head) == BUFFER_SPACE_HEADER <==> head == HeaderBytes(BUFFER_SPACE_HEADER)
    ensures NextFrame(head + tail, accepts) == Got(Message(body), rest) <==>
              Acceptable(Message(body), accepts) && head + tail == Message(body).Wire() + rest
  {
    hide HeaderBytes, HeaderOf;
    var input := head + tail;
    assert input[..4] == head && input[4..] == tail;
    if Acceptable(Message(body), accepts) {
      HeaderRoundTrip(head, |body|);
      assert Message(body).Wire() + rest == HeaderBytes(|body|) + (body + rest);
      FrontEqual(head, tail, HeaderBytes(|body|), body + rest);
      if |tail| >= |body| {
        assert tail == tail[..|body|] + tail[|body|..];
        FrontEqual(tail[..|body|], tail[|body|..], body, rest);
      }
    }
  }

  /** The loop hands on exactly the frames that were sent, and ends cleanly only where
      one ends: for every stream and every list of frames. */
  lemma {:induction false} SplitExact(input: seq<bv8>, fs: seq<Frame>, accepts: seq<bv8> -> bool)
    ensures Split(input, accepts) == (fs, Clean) <==> AllAcceptable(fs, accepts) && input == WireAll(fs)
    decreases |fs|
  {
    hide NextFrame, Frame.Wire, Frame.Sendable;
    if fs == [] {
      OnlyTheEndIsClean(input, accepts);
    } else {
      var t := NextFrame(input, accepts);
      if t.Got? {
        FrameInFront(t.frame, input, t.rest, accepts);
        SplitExact(t.rest, fs[1..], accepts);
      }
      if AllAcceptable(fs, accepts) && input == WireAll(fs) {
        FrameInFront(fs[0], input, WireAll(fs[1..]), accepts);
        SplitExact(WireAll(fs[1..]), fs[1..], accepts);
        assert [fs[0]] + fs[1..] == fs;
      }
      if Split(input, accepts) == (fs, Clean) {
        assert t.Got? && t.frame == fs[0];
        assert Split(t.rest, accepts).0 == fs[1..];
      }
    }
  }

  lemma OnlyTheEndIsClean(input: seq<bv8>, accepts: seq<bv8> -> bool)
    ensures NextFrame(input, accepts) == Stop(Clean) <==> input == []
  {
  }

  /** What stands where the loop stopped, in terms of the bytes alone. */
  predicate EndsAs(ending: Ending, tail: seq<bv8>, accepts: seq<bv8> -> bool) {
    match ending
    case Clean => tail == []
    case IncompleteHeader => 1 <= |tail| <= 3
    case TooLarge => |tail| >= 4 && HeaderOf(tail[..4]) > 0x400_0000
    case UnexpectedEof =>
      && |tail| >= 4
      && var n := HeaderOf(tail[..4]);
         n != 0 && n <= 0x400_0000 && |tail| < 4 + if n == 180 then 4 else n
    case HandlerFailed =>
      && |tail| >= 4
      && var n := HeaderOf(tail[..4]);
         n != 0 && n != 180 && n <= 0x400_0000 && |tail| >= 4 + n && !accepts(tail[4..4 + n])
  }

  /** Every stream is the frames that were acted on and a tail, and the ending is what
      the tail says: nothing, a part of a header, a header or a body cut off, a length
      over the limit, or a message that was refused. */
  lemma {:induction false} EndingTells(input: seq<bv8>, accepts: seq<bv8> -> bool)
    ensures var (frames, ending) := Split(input, accepts);
            && AllAcceptable(frames, accepts)
            && |WireAll(frames)| <= |input| && input[..|WireAll(frames)|] == WireAll(frames)
            && EndsAs(ending, input[|WireAll(frames)|..], accepts)
    decreases |input|
  {
    hide NextFrame, Frame.Wire, Frame.Sendable, EndsAs;
    var t := NextFrame(input, accepts);
    match t
    case Stop(ending) =>
      StopTells(input, accepts);
      assert input[0..] == input;
    case Got(f, rest) =>
      FrameInFront(f, input, rest, accepts);
      EndingTells(rest, accepts);
      var (more, ending) := Split(rest, accepts);
      var frames := [f] + more;
      assert frames[1..] == more;
      var all, later := WireAll(frames), WireAll(more);
      assert all == f.Wire() + later;
      assert input[..|all|] == f.Wire() + rest[..|later|];
      assert input[|all|..] == rest[|later|..];
  }

  lemma StopTells(input: seq<bv8>, accepts: seq<bv8> -> bool)
    ensures var t := NextFrame(input, accepts); t.Stop? ==> EndsAs(t.ending, input, accepts)
  {
    if |input| >= 4 {
      var n := HeaderOf(input[..4]);
      if n <= |input| - 4 {
        assert input[4..][..n] == input[4..4 + n];
      }
    }
  }

  /** So no two lists of frames look the same on the wire. */
  lemma WireUnique(fs: seq<Frame>, gs: seq<Frame>)
    requires (forall i :: 0 <= i < |fs| ==> fs[i].Sendable()) && (forall i :: 0 <= i < |gs| ==> gs[i].Sendable())
    requires WireAll(fs) == WireAll(gs)
    ensures fs == gs
  {
    SplitExact(WireAll(fs), fs, _ => true);
    SplitExact(WireAll(fs), gs, _ => true);
  }

  /** `connection_loop` over all that arrives before the client closes its side: the
      frames it acted on, in order, and one reply for every ping. */
  method ConnectionLoop(input: seq<bv8>, accepts: seq<bv8> -> bool) returns (frames: seq<Frame>, replies: seq<bv8>, ending: Ending)
    ensures (frames, ending) == Split(input, accepts)
    ensures replies == Pongs(frames)
    ensures |replies| == 4 * multiset(frames)[Ping] && (forall i :: 0 <= i < |replies| ==> replies[i] == 0)
    ensures Split(replies, accepts) == (seq(multiset(frames)[Ping], _ => Ping), Clean)
  {
    frames, replies := [], [];
    var pos := 0;
    assert input[0..] == input && [] + Split(input, accepts).0 == Split(input, accepts).0;
    while true
      invariant pos <= |input|
      invariant Split(input, accepts) == Behind(frames, Split(input[pos..], accepts))
      invariant replies == Pongs(frames)
      decreases |input| - pos
    {
      var left := input[pos..];
      var turn := NextFrame(left, accepts);
      if turn.Stop? {
        ending := turn.ending;
        assert frames + [] == frames;
        PongsAreZeros(frames);
        PongsArePings(frames, accepts);
        return;
      }
      OneFurther(frames, turn.frame, turn.rest, accepts);
      if turn.frame == Ping {
        replies := replies + HeaderBytes(0);
      }
      frames := frames + [turn.frame];
      RestIsSuffix(left, accepts);
      assert turn.rest == input[|input| - |turn.rest|..];
      pos := |input| - |turn.rest|;
    }
  }

  function Behind(front: seq<Frame>, split: (seq<Frame>, Ending)): (seq<Frame>, Ending) {
    (front + split.0, split.1)
  }

  function Pongs(frames: seq<Frame>): seq<bv8> {
    if frames == [] then []
    else
      var last := |frames| - 1;
      Pongs(frames[..last]) + if frames[last] == Ping then HeaderBytes(0) else []
  }

  /** Four zero bytes for each ping. */
  lemma {:induction false} PongsAreZeros(frames: seq<Frame>)
    ensures |Pongs(frames)| == 4 * multiset(frames)[Ping]
    ensures forall i :: 0 <= i < |Pongs(frames)| ==> Pongs(frames)[i] == 0
  {
    if frames != [] {
      var last := |frames| - 1;
      PingIsZeros();
      PongsAreZeros(frames[..last]);
      assert frames == frames[..last] + [frames[last]];
    }
  }

  /** Which read as one ping for each. */
  lemma {:induction false} PongsArePings(frames: seq<Frame>, accepts: seq<bv8> -> bool)
    ensures Split(Pongs(frames), accepts) == (seq(multiset(frames)[Ping], _ => Ping), Clean)
  {
    var n := multiset(frames)[Ping];
    PongsAreZeros(frames);
    PingsAreZeros(n);
    assert Pongs(frames) == WireAll(seq(n, _ => Ping));
    SplitExact(Pongs(frames), seq(n, _ => Ping), accepts);
  }

  lemma {:induction false} PingsAreZeros(n: nat)
    ensures var wire := WireAll(seq(n, _ => Ping));
            |wire| == 4 * n && forall i :: 0 <= i < 4 * n ==> wire[i] == 0
  {
    var pings := seq(n, _ => Ping);
    if n > 0 {
      PingIsZeros();
      PingsAreZeros(n - 1);
      assert pings[1..] == seq(n - 1, _ => Ping);
      assert WireAll(pings) == [0, 0, 0, 0] + WireAll(pings[1..]);
    }
  }

  lemma OneFurther(frames: seq<Frame>, f: Frame, rest: seq<bv8>, accepts: seq<bv8> -> bool)
    ensures Behind(frames + [f], Split(rest, accepts)) == Behind(frames, Behind([f], Split(rest, accepts)))
    ensures (frames + [f])[..|frames|] == frames
  {
    var more := Split(rest, accepts).0;
    assert (frames + [f]) + more == frames + ([f] + more);
  }

  lemma RestIsSuffix(input: seq<bv8>, accepts: seq<bv8> -> bool)
    ensures var t := NextFrame(input, accepts); t.Got? ==> t.rest == input[|input| - |t.rest|..]
  {
  }

  // ---- outgoing ----

  /** Triple DES in CBC mode with an initial vector made from a seed: a bijection on
      whole blocks for every key and seed. */
  datatype Cipher = Cipher(
    encrypt: (seq<bv8>, int, seq<bv8>) -> seq<bv8>,
    decrypt: (seq<bv8>, int, seq<bv8>) -> seq<bv8>)

  ghost predicate Bijective(c: Cipher) {
    forall key: seq<bv8>, seed: int, m: seq<bv8> :: |m| % 8 == 0 ==>
      |c.encrypt(key, seed, m)| == |m| && c.decrypt(key, seed, c.encrypt(key, seed, m)) == m
  }

  /** Zero bytes up to the block size. */
  function BlockPad(n: nat): (pad: seq<bv8>)
    ensures |pad| < 8 && (n + |pad|) % 8 == 0
  {
    seq((8 - n % 8) % 8, _ => 0)
  }

  /** What is encrypted: the signature, the data, and padding. */
  function Sealed(data: seq<bv8>): (m: seq<bv8>)
    ensures |m| % 8 == 0
  {
    HeaderFits(RESPONSE_SIGNATURE);
    HeaderBytes(RESPONSE_SIGNATURE) + data + BlockPad(4 + |data|)
  }

  /** What follows the length field. */
  function Body(data: seq<bv8>, key: Option<seq<bv8>>, seed: int, c: Cipher): seq<bv8>
    requires U32.Holds(seed)
  {
    match key
    case None => [0] + data
    case Some(k) => [1] + HeaderBytes(seed) + c.encrypt(k, seed, Sealed(data))
  }

  function OutFrame(body: seq<bv8>): (f: seq<bv8>)
    ensures |f| == 4 + |body| && f[4..] == body
  {
    HeaderBytes(|body| % 0x1_0000_0000) + body
  }

  class BdResponse {
    const shouldEncrypt: bool
    var data: seq<bv8>

    constructor (shouldEncrypt: bool, data: seq<bv8>)
      ensures this.shouldEncrypt == shouldEncrypt && this.data == data
    {
      this.shouldEncrypt, this.data := shouldEncrypt, data;
    }

    /** `send` on a session: its key is used only if the response asks for it. */
    method Send(sessionKey: Option<seq<bv8>>, seed: int, c: Cipher) returns (frame: seq<bv8>)
      requires U32.Holds(seed) && Bijective(c)
      modifies this`data
      ensures frame == OutFrame(Body(old(data), if shouldEncrypt then sessionKey else None, seed, c))
    {
      var key := if shouldEncrypt then sessionKey else None;
      frame := MakeFrame(key, seed, c);
    }

    /** `frame`, which encrypts the data it is given in place. */
    method MakeFrame(key: Option<seq<bv8>>, seed: int, c: Cipher) returns (frame: seq<bv8>)
      requires U32.Holds(seed) && Bijective(c)
      modifies this`data
      ensures frame == OutFrame(Body(old(data), key, seed, c))
      ensures data == match key
                      case None => old(data)
                      case Some(k) => c.encrypt(k, seed, Sealed(old(data)))
    {
      hide HeaderBytes;
      match key {
        case Some(k) =>
          HeaderFits(RESPONSE_SIGNATURE);
          data := HeaderBytes(RESPONSE_SIGNATURE) + data;
          data := c.encrypt(k, seed, data + BlockPad(|data|));
          var messageLength := |data| + 5;
          frame := HeaderBytes(messageLength % 0x1_0000_0000);
          frame := frame + [1];
          frame := frame + HeaderBytes(seed);
          frame := frame + data;
          assert frame == OutFrame([1] + HeaderBytes(seed) + data);
        case None =>
          var messageLength := |data| + 1;
          frame := HeaderBytes(messageLength % 0x1_0000_0000);
          frame := frame + [0];
          frame := frame + data;
          assert frame == OutFrame([0] + data);
      }
    }
  }

  /** The length field is the number of bytes after it exactly when that fits. */
  lemma LengthExact(body: seq<bv8>)
    ensures HeaderOf(OutFrame(body)[..4]) == |body| <==> |body| < 0x1_0000_0000
  {
    var n := |body| % 0x1_0000_0000;
    assert OutFrame(body)[..4] == HeaderBytes(n);
    HeaderRoundTrip(HeaderBytes(n), n);
  }

  /** A client takes a stream of replies apart by their length fields. */
  function Bodies(stream: seq<bv8>): (r: Option<seq<seq<bv8>>>)
    decreases |stream|
  {
    if stream == [] then Some([])
    else if |stream| < 4 || |stream| - 4 < HeaderOf(stream[..4]) then None
    else
      var n := HeaderOf(stream[..4]);
      match Bodies(stream[4 + n..])
      case None => None
      case Some(more) => Some([stream[4..4 + n]] + more)
  }

  function OutAll(bodies: seq<seq<bv8>>): seq<bv8> {
    if bodies == [] then [] else OutFrame(bodies[0]) + OutAll(bodies[1..])
  }

  /** Any replies one after another come apart into exactly those replies. */
  lemma {:induction false} RepliesComeApart(bodies: seq<seq<bv8>>)
    requires forall i :: 0 <= i < |bodies| ==> |bodies[i]| < 0x1_0000_0000
    ensures Bodies(OutAll(bodies)) == Some(bodies)
  {
    if bodies != [] {
      var first, more := bodies[0], OutAll(bodies[1..]);
      var stream := OutFrame(first) + more;
      LengthExact(first);
      assert stream[..4] == OutFrame(first)[..4];
      assert stream[4..4 + |first|] == first && stream[4 + |first|..] == more;
      RepliesComeApart(bodies[1..]);
      assert [first] + bodies[1..] == bodies;
    }
  }

  /** And what was sealed opens again: the signature, the data, and fewer than eight
      zero bytes. */
  lemma SealedOpens(data: seq<bv8>, k: seq<bv8>, seed: int, c: Cipher)
    requires Bijective(c) && U32.Holds(seed) && U32.Holds(RESPONSE_SIGNATURE)
    ensures var body := Body(data, Some(k), seed, c);
            && |body| >= 5 && HeaderOf(body[1..5]) == seed
            && c.decrypt(k, seed, body[5..]) == HeaderBytes(RESPONSE_SIGNATURE) + data + BlockPad(4 + |data|)
  {
    HeaderFits(seed);
    HeaderRoundTrip(HeaderBytes(seed), seed);
    var body := Body(data, Some(k), seed, c);
    assert body[1..5] == HeaderBytes(seed);
    assert body[5..] == c.encrypt(k, seed, Sealed(data));
  }

  /** A client reads what follows the length: a flag, then the data, or the seed and
      what decrypts to the signature, the data and padding. */
  datatype Reply = Plain(data: seq<bv8>) | Opened(seed: nat, padded: seq<bv8>)

  function ReadReply(body: seq<bv8>, key: seq<bv8>, c: Cipher): Option<Reply> {
    if |body| >= 1 && body[0] == 0 then Some(Plain(body[1..]))
    else if |body| >= 5 && body[0] == 1 then
      var m := c.decrypt(key, HeaderOf(body[1..5]), body[5..]);
      if |m| >= 4 && HeaderOf(m[..4]) == 0xDEAD_BEEF then Some(Opened(HeaderOf(body[1..5]), m[4..])) else None
    else None
  }

  /** It learns from the reply alone whether it was encrypted, and gets the data back,
      in the one case as it is and in the other with fewer than eight zero bytes. */
  lemma ReplyReads(data: seq<bv8>, k: seq<bv8>, seed: int, c: Cipher)
    requires Bijective(c) && 0 <= seed < 0x1_0000_0000 && U32.Holds(seed)
    ensures ReadReply(Body(data, None, seed, c), k, c) == Some(Plain(data))
    ensures var r := ReadReply(Body(data, Some(k), seed, c), k, c);
            && r.Some? && r.value.Opened? && r.value.seed == seed
            && var padded := r.value.padded;
               && |data| <= |padded| < |data| + 8 && padded[..|data|] == data
               && (4 + |padded|) % 8 == 0
               && forall i :: |data| <= i < |padded| ==> padded[i] == 0
  {
    PlainReads(data, k, seed, c);
    SealedReply(data, k, seed, c);
    hide Body, ReadReply;
    var pad := BlockPad(4 + |data|);
    assert (data + pad)[..|data|] == data;
    assert forall i :: |data| <= i < |data + pad| ==> (data + pad)[i] == pad[i - |data|];
  }

  lemma SealedReply(data: seq<bv8>, k: seq<bv8>, seed: int, c: Cipher)
    requires Bijective(c) && 0 <= seed < 0x1_0000_0000 && U32.Holds(seed)
    ensures ReadReply(Body(data, Some(k), seed, c), k, c) == Some(Opened(seed, data + BlockPad(4 + |data|)))
  {
    var sig :| sig == RESPONSE_SIGNATURE;
    hide Body, HeaderBytes, HeaderOf, ReadReply;
    HeaderFits(sig);
    Unsealed(data, k, seed, c, sig);
    SealedReads(Body(data, Some(k), seed, c), k, seed, c, sig, data + BlockPad(4 + |data|));
  }

  lemma PlainReads(data: seq<bv8>, k: seq<bv8>, seed: int, c: Cipher)
    requires U32.Holds(seed)
    ensures ReadReply(Body(data, None, seed, c), k, c) == Some(Plain(data))
  {
    assert Body(data, None, seed, c)[1..] == data;
  }

  lemma Unsealed(data: seq<bv8>, k: seq<bv8>, seed: int, c: Cipher, sig: int)
    requires Bijective(c) && 0 <= seed < 0x1_0000_0000 && U32.Holds(seed) && U32.Holds(sig) && sig == RESPONSE_SIGNATURE
    ensures var body := Body(data, Some(k), seed, c);
            && |body| >= 5 && body[0] == 1 && HeaderOf(body[1..5]) == seed
            && c.decrypt(k, seed, body[5..]) == HeaderBytes(sig) + (data + BlockPad(4 + |data|))
  {
    SealedOpens(data, k, seed, c);
    hide HeaderBytes, HeaderOf, BlockPad;
    var head, pad := HeaderBytes(sig), BlockPad(4 + |data|);
    assert head + data + pad == head + (data + pad);
  }

  lemma SealedReads(body: seq<bv8>, k: seq<bv8>, seed: int, c: Cipher, sig: int, rest: seq<bv8>)
    requires sig == RESPONSE_SIGNATURE && 0 <= sig < 0x1_0000_0000
    requires |body| >= 5 && body[0] == 1 && HeaderOf(body[1..5]) == seed
    requires c.decrypt(k, seed, body[5..]) == HeaderBytes(sig) + rest
    ensures ReadReply(body, k, c) == Some(Opened(seed, rest))
  {
    HeaderRoundTrip(HeaderBytes(sig), sig);
    hide HeaderOf, HeaderBytes;
    var m := c.decrypt(k, seed, body[5..]);
    assert m[..4] == HeaderBytes(sig) && m[4..] == rest;
  }
}
