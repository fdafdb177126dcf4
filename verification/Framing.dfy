/**
 The Shadowsocks AEAD TCP stream: each chunk travels as a sealed two-byte length
 followed by the sealed payload, each seal consuming one nonce.

 ChaCha20-Poly1305 and HKDF are foreign to the program. They appear as the functions of a
 `Suite`; a `Cipher` is any suite obeying the laws the framing relies on: sealing adds a
 16-byte tag, and opening under the same key and nonce undoes it.
 */
module Framing {
  import opened ByteStrings
  import opened Nonces

  const TAG_SIZE := 16
  const SALT_SIZE := 32
  const MAX_CHUNK := 0x3fff
  const FRAME_OVERHEAD := 34

  type Key = Bytes

  datatype Suite = Suite(
    seal: (Key, Nonce, Bytes) -> Bytes,
    open: (Key, Nonce, Bytes) -> Option<Bytes>,
    derive: (Key, Bytes) -> Key)

  ghost predicate Lawful(s: Suite) {
    && (forall k: Key, n: Nonce, p: Bytes {:trigger s.seal(k, n, p)} ::
          |s.seal(k, n, p)| == |p| + TAG_SIZE && s.open(k, n, s.seal(k, n, p)) == Some(p))
    && (forall k: Key, n: Nonce, c: Bytes {:trigger s.open(k, n, c)} ::
          s.open(k, n, c).Some? ==> |c| == |s.open(k, n, c).value| + TAG_SIZE)
  }

  type Cipher = s: Suite | Lawful(s) ghost witness LawfulWitness()

  /** A suite whose tag is the nonce itself, so only the sealing nonce opens. */
  ghost function NonceTagSuite(): Suite {
    Suite((k: Key, n: Nonce, p: Bytes) => p + n + [0, 0, 0, 0],
          (k: Key, n: Nonce, c: Bytes) =>
            if |c| >= TAG_SIZE && c[|c| - TAG_SIZE..] == n + [0, 0, 0, 0] then Some(c[..|c| - TAG_SIZE]) else None,
          (k: Key, salt: Bytes) => k)
  }

  lemma NonceTagOpens(k: Key, n: Nonce, p: Bytes)
    ensures NonceTagSuite().open(k, n, NonceTagSuite().seal(k, n, p)) == Some(p)
  {
    var c := NonceTagSuite().seal(k, n, p);
    assert c == p + (n + [0, 0, 0, 0]);
    assert c[|p|..] == n + [0, 0, 0, 0] && c[..|p|] == p;
  }

  lemma NonceTagLawful()
    ensures Lawful(NonceTagSuite())
  {
    forall k: Key, n: Nonce, p: Bytes
      ensures NonceTagSuite().open(k, n, NonceTagSuite().seal(k, n, p)) == Some(p)
    {
      NonceTagOpens(k, n, p);
    }
  }

  ghost function LawfulWitness(): (s: Suite)
    ensures Lawful(s)
  {
    NonceTagLawful();
    NonceTagSuite()
  }

  /** One direction of a session: the cipher, its subkey and the rule that steps the nonce. */
  datatype Channel = Channel(cipher: Cipher, key: Key, next: Nonce -> Nonce)

  /** The nonce after one frame. */
  function AfterFrame(ch: Channel, n: Nonce): Nonce {
    ch.next(ch.next(n))
  }

  // ---- Sending ---------------------------------------------------------------

  function EncodeFrame(ch: Channel, n: Nonce, plain: Bytes): (frame: Bytes)
    requires |plain| <= MAX_CHUNK
    ensures |frame| == |plain| + FRAME_OVERHEAD
  {
    ch.cipher.seal(ch.key, n, Be16(|plain|)) + ch.cipher.seal(ch.key, ch.next(n), plain)
  }

  predicate Sendable(chunks: seq<Bytes>) {
    forall i :: 0 <= i < |chunks| ==> |chunks[i]| <= MAX_CHUNK
  }

  /** The nonce after a list of frames. */
  function AfterFrames(ch: Channel, n: Nonce, count: nat): Nonce {
    if count == 0 then n else AfterFrame(ch, AfterFrames(ch, n, count - 1))
  }

  function EncodeAll(ch: Channel, n: Nonce, chunks: seq<Bytes>): Bytes
    requires Sendable(chunks)
    decreases |chunks|
  {
    if chunks == [] then []
    else EncodeFrame(ch, n, chunks[0]) + EncodeAll(ch, AfterFrame(ch, n), chunks[1..])
  }

  // ---- Receiving -------------------------------------------------------------

  datatype FrameStep = NeedMore | Bad | Frame(chunk: Bytes, need: nat)

  /** What `decrypt_tcp_chunk` finds at the front of the buffered stream. */
  function NextFrame(ch: Channel, n: Nonce, buf: Bytes): (r: FrameStep)
    ensures r.Frame? ==> |r.chunk| <= MAX_CHUNK && FRAME_OVERHEAD <= r.need == |r.chunk| + FRAME_OVERHEAD <= |buf|
  {
    if |buf| < 2 + TAG_SIZE then NeedMore
    else
      match ch.cipher.open(ch.key, n, buf[..2 + TAG_SIZE])
      case None => Bad
      case Some(length) =>
        var need := 2 + TAG_SIZE + ReadBe16(length, 0) % 0x4000 + TAG_SIZE;
        if |buf| < need then NeedMore
        else
          match ch.cipher.open(ch.key, ch.next(n), buf[2 + TAG_SIZE..need])
          case None => Bad
          case Some(plain) => Frame(plain, need)
  }

  datatype Decoded = Decoded(chunks: seq<Bytes>, rest: Bytes, nonce: Nonce, bad: bool)

  /** Everything the receive loop extracts from a buffer. */
  function Decode(ch: Channel, n: Nonce, buf: Bytes): Decoded
    decreases |buf|
  {
    match NextFrame(ch, n, buf)
    case NeedMore => Decoded([], buf, n, false)
    case Bad => Decoded([], buf, n, true)
    case Frame(chunk, need) =>
      var d := Decode(ch, AfterFrame(ch, n), buf[need..]);
      d.(chunks := [chunk] + d.chunks)
  }

  lemma {:induction false} DecodedChunksSendable(ch: Channel, n: Nonce, buf: Bytes)
    ensures Sendable(Decode(ch, n, buf).chunks)
    decreases |buf|
  {
    var f := NextFrame(ch, n, buf);
    if f.Frame? {
      DecodedChunksSendable(ch, AfterFrame(ch, n), buf[f.need..]);
    }
  }

  // ---- What a decoding is --------------------------------------------------------

  /** The nonce `k` seals after `n`. */
  function NonceAt(ch: Channel, n: Nonce, k: nat): Nonce {
    Steps(ch.next, n, k)
  }

  /** The size a sealed length announces for the sealed payload after it: two big-endian bytes, 14 bits. */
  function Announced(length: Bytes): nat
    requires |length| == 2
  {
    (256 * length[0] as int + length[1] as int) % 0x4000 + 16
  }

  /** What the first 18 bytes open to. */
  function LengthPart(ch: Channel, n: Nonce, buf: Bytes): (length: Option<Bytes>)
    requires |buf| >= 18
    ensures length.Some? ==> |length.value| == 2
  {
    ch.cipher.open(ch.key, n, buf[..18])
  }

  /** `f` is one frame: a length that opens, then exactly as much as it announces, which opens to the chunk. */
  predicate IsFrame(ch: Channel, n: Nonce, f: Bytes, chunk: Bytes) {
    && |f| >= 18
    && LengthPart(ch, n, f).Some?
    && |f| == 18 + Announced(LengthPart(ch, n, f).value)
    && ch.cipher.open(ch.key, NonceAt(ch, n, 1), f[18..]) == Some(chunk)
  }

  /** A sealed part is complete and does not open. */
  predicate Fails(ch: Channel, n: Nonce, rest: Bytes) {
    && |rest| >= 18
    && match LengthPart(ch, n, rest)
       case None => true
       case Some(length) =>
         var need := 18 + Announced(length);
         |rest| >= need && ch.cipher.open(ch.key, NonceAt(ch, n, 1), rest[18..need]) == None
  }

  /** A sealed part is still missing bytes, and none has failed. */
  predicate Incomplete(ch: Channel, n: Nonce, rest: Bytes) {
    || |rest| < 18
    || (LengthPart(ch, n, rest).Some? && |rest| < 18 + Announced(LengthPart(ch, n, rest).value))
  }

  /** The frames carry the chunks, two nonces each. */
  ghost predicate Carry(ch: Channel, n: Nonce, frames: seq<Bytes>, chunks: seq<Bytes>) {
    && |frames| == |chunks|
    && forall i: nat :: i < |frames| ==> IsFrame(ch, NonceAt(ch, n, 2 * i), frames[i], chunks[i])
  }

  /** The buffer is those frames and a rest that failed, or that is incomplete. */
  ghost predicate Parts(ch: Channel, n: Nonce, buf: Bytes, frames: seq<Bytes>, d: Decoded) {
    && buf == Flatten(frames) + d.rest
    && Carry(ch, n, frames, d.chunks)
    && d.nonce == NonceAt(ch, n, 2 * |frames|)
    && if d.bad then Fails(ch, d.nonce, d.rest) else Incomplete(ch, d.nonce, d.rest)
  }

  lemma NonceZero(ch: Channel, n: Nonce)
    ensures NonceAt(ch, n, 0) == n && NonceAt(ch, n, 1) == ch.next(n) && NonceAt(ch, n, 2) == AfterFrame(ch, n)
  {
    assert Steps(ch.next, n, 0) == n;
    assert Steps(ch.next, n, 1) == ch.next(n);
  }

  lemma {:induction false} NonceLater(ch: Channel, n: Nonce, k: nat)
    ensures NonceAt(ch, AfterFrame(ch, n), k) == NonceAt(ch, n, k + 2)
  {
    if k == 0 {
      NonceZero(ch, n);
      NonceZero(ch, AfterFrame(ch, n));
    } else {
      NonceLater(ch, n, k - 1);
    }
  }

  /** The answer is right for what stands at the front of the buffer. */
  predicate RightAnswer(ch: Channel, n: Nonce, buf: Bytes, r: FrameStep) {
    match r
    case NeedMore => Incomplete(ch, n, buf)
    case Bad => Fails(ch, n, buf)
    case Frame(chunk, need) => need <= |buf| && IsFrame(ch, n, buf[..need], chunk)
  }

  /** The receive step tells the three kinds of buffer apart. */
  lemma NextFrameExactly(ch: Channel, n: Nonce, buf: Bytes)
    ensures RightAnswer(ch, n, buf, NextFrame(ch, n, buf))
  {
    NonceZero(ch, n);
    var f := NextFrame(ch, n, buf);
    if f.Frame? {
      assert buf[..f.need][..18] == buf[..18] && buf[..f.need][18..] == buf[18..f.need];
    }
  }

  /** A buffer starts with at most one frame, and then is neither failing nor incomplete. */
  lemma FrameAtFront(ch: Channel, n: Nonce, f: Bytes, chunk: Bytes, rest: Bytes)
    requires IsFrame(ch, n, f, chunk)
    ensures NextFrame(ch, n, f + rest) == Frame(chunk, |f|)
  {
    NonceZero(ch, n);
    var buf := f + rest;
    assert buf[..18] == f[..18] && buf[18..|f|] == f[18..];
  }

  lemma NoFrameAtFront(ch: Channel, n: Nonce, rest: Bytes)
    ensures Fails(ch, n, rest) ==> NextFrame(ch, n, rest) == Bad
    ensures Incomplete(ch, n, rest) ==> NextFrame(ch, n, rest) == NeedMore
  {
    NonceZero(ch, n);
  }

  lemma CarryCons(ch: Channel, n: Nonce, f: Bytes, chunk: Bytes, frames: seq<Bytes>, chunks: seq<Bytes>)
    requires IsFrame(ch, n, f, chunk) && Carry(ch, AfterFrame(ch, n), frames, chunks)
    ensures Carry(ch, n, [f] + frames, [chunk] + chunks)
  {
    hide IsFrame;
    var fs, cs := [f] + frames, [chunk] + chunks;
    NonceZero(ch, n);
    forall i: nat | i < |fs|
      ensures IsFrame(ch, NonceAt(ch, n, 2 * i), fs[i], cs[i])
    {
      if i > 0 {
        NonceLater(ch, n, 2 * (i - 1));
        assert IsFrame(ch, NonceAt(ch, AfterFrame(ch, n), 2 * (i - 1)), frames[i - 1], chunks[i - 1]);
      }
    }
  }

  lemma CarryTail(ch: Channel, n: Nonce, frames: seq<Bytes>, chunks: seq<Bytes>)
    requires Carry(ch, n, frames, chunks) && frames != []
    ensures IsFrame(ch, n, frames[0], chunks[0]) && Carry(ch, AfterFrame(ch, n), frames[1..], chunks[1..])
  {
    hide IsFrame;
    NonceZero(ch, n);
    assert IsFrame(ch, NonceAt(ch, n, 2 * 0), frames[0], chunks[0]);
    forall i: nat | i < |frames[1..]|
      ensures IsFrame(ch, NonceAt(ch, AfterFrame(ch, n), 2 * i), frames[1..][i], chunks[1..][i])
    {
      NonceLater(ch, n, 2 * i);
      assert IsFrame(ch, NonceAt(ch, n, 2 * (i + 1)), frames[i + 1], chunks[i + 1]);
    }
  }

  lemma PartsCons(ch: Channel, n: Nonce, f: Bytes, chunk: Bytes, tail: Bytes, frames: seq<Bytes>, d: Decoded)
    requires IsFrame(ch, n, f, chunk) && Parts(ch, AfterFrame(ch, n), tail, frames, d)
    ensures Parts(ch, n, f + tail, [f] + frames, d.(chunks := [chunk] + d.chunks))
  {
    hide IsFrame;
    hide Fails;
    hide Incomplete;
    hide Carry;
    hide NonceAt;
    CarryCons(ch, n, f, chunk, frames, d.chunks);
    NonceLater(ch, n, 2 * |frames|);
    assert 2 * |frames| + 2 == 2 * |[f] + frames|;
    assert ([f] + frames)[1..] == frames;
    assert f + (Flatten(frames) + d.rest) == (f + Flatten(frames)) + d.rest;
  }

  lemma PartsNone(ch: Channel, n: Nonce, rest: Bytes, bad: bool)
    requires if bad then Fails(ch, n, rest) else Incomplete(ch, n, rest)
    ensures Parts(ch, n, rest, [], Decoded([], rest, n, bad))
  {
    hide Fails;
    hide Incomplete;
    NonceZero(ch, n);
    CarryNone(ch, n);
    assert [] + rest == rest;
  }

  lemma {:induction false} DecodeSound(ch: Channel, n: Nonce, buf: Bytes) returns (frames: seq<Bytes>)
    ensures Parts(ch, n, buf, frames, Decode(ch, n, buf))
    decreases |buf|
  {
    hide IsFrame;
    hide Fails;
    hide Incomplete;
    hide NextFrame;
    hide Parts;
    NextFrameExactly(ch, n, buf);
    var f := NextFrame(ch, n, buf);
    if f.Frame? {
      var front, tail := buf[..f.need], buf[f.need..];
      frames := DecodeSound(ch, AfterFrame(ch, n), tail);
      PartsCons(ch, n, front, f.chunk, tail, frames, Decode(ch, AfterFrame(ch, n), tail));
      frames := [front] + frames;
      assert buf == front + tail;
    } else {
      frames := [];
      PartsNone(ch, n, buf, f.Bad?);
    }
  }

  lemma CarryNone(ch: Channel, n: Nonce)
    ensures Carry(ch, n, [], [])
  {
  }

  lemma {:induction false} DecodeComplete(ch: Channel, n: Nonce, buf: Bytes, frames: seq<Bytes>, d: Decoded)
    requires Parts(ch, n, buf, frames, d)
    ensures Decode(ch, n, buf) == d
    decreases |frames|
  {
    hide IsFrame;
    hide Fails;
    hide Incomplete;
    hide NextFrame;
    NonceZero(ch, n);
    if frames == [] {
      NoFrameAtFront(ch, n, d.rest);
      assert [] + d.rest == d.rest;
    } else {
      CarryTail(ch, n, frames, d.chunks);
      var tail := Flatten(frames[1..]) + d.rest;
      assert buf == frames[0] + tail;
      FrameAtFront(ch, n, frames[0], d.chunks[0], tail);
      NonceLater(ch, n, 2 * |frames[1..]|);
      DecodeComplete(ch, AfterFrame(ch, n), tail, frames[1..], d.(chunks := d.chunks[1..]));
      assert buf[|frames[0]|..] == tail && d.chunks == [d.chunks[0]] + d.chunks[1..];
    }
  }

  /**
   The exact decoding, for any bytes: chunks, leftover, nonce and verdict are `d` if and only
   if the buffer is frames that carry the chunks, each part opening under its own nonce,
   followed by a leftover in which a complete part does not open (bad) or a part is incomplete.
   */
  lemma DecodeExactly(ch: Channel, n: Nonce, buf: Bytes, d: Decoded)
    ensures Decode(ch, n, buf) == d <==> exists frames: seq<Bytes> :: Parts(ch, n, buf, frames, d)
  {
    hide Parts;
    hide Decode;
    if Decode(ch, n, buf) == d {
      var frames := DecodeSound(ch, n, buf);
    }
    if frames: seq<Bytes> :| Parts(ch, n, buf, frames, d) {
      DecodeComplete(ch, n, buf, frames, d);
    }
  }

  // ---- Fragmentation -----------------------------------------------------------

  /** More bytes never change a frame or a failure already found. */
  lemma NextFrameExtends(ch: Channel, n: Nonce, a: Bytes, b: Bytes)
    ensures NextFrame(ch, n, a).NeedMore? || NextFrame(ch, n, a + b) == NextFrame(ch, n, a)
  {
    if |a| >= 2 + TAG_SIZE {
      assert (a + b)[..2 + TAG_SIZE] == a[..2 + TAG_SIZE];
      var f := NextFrame(ch, n, a);
      var len := ch.cipher.open(ch.key, n, a[..2 + TAG_SIZE]);
      if len.Some? {
        var need := 2 + TAG_SIZE + ReadBe16(len.value, 0) % 0x4000 + TAG_SIZE;
        if |a| >= need {
          assert (a + b)[2 + TAG_SIZE..need] == a[2 + TAG_SIZE..need];
        }
      }
    }
  }

  /** What decoding `a` and then `b` gives. */
  function Resume(ch: Channel, d: Decoded, b: Bytes): Decoded {
    if d.bad then d.(rest := d.rest + b)
    else
      var e := Decode(ch, d.nonce, d.rest + b);
      e.(chunks := d.chunks + e.chunks)
  }

  /**
   Fragmentation independence: one read of `a + b`, or a read of `a` then one of `b`,
   gives the same chunks, leftover, nonce and verdict, whatever the bytes.
   */
  lemma {:induction false} Fragmentation(ch: Channel, n: Nonce, a: Bytes, b: Bytes)
    ensures Decode(ch, n, a + b) == Resume(ch, Decode(ch, n, a), b)
    decreases |a|
  {
    var f := NextFrame(ch, n, a);
    NextFrameExtends(ch, n, a, b);
    match f
    case NeedMore =>
      var e := Decode(ch, n, a + b);
      assert [] + e.chunks == e.chunks;
    case Bad =>
    case Frame(chunk, need) =>
      assert (a + b)[need..] == a[need..] + b;
      Fragmentation(ch, AfterFrame(ch, n), a[need..], b);
      var tail := Decode(ch, AfterFrame(ch, n), a[need..]);
      if !tail.bad {
        var e := Decode(ch, tail.nonce, tail.rest + b);
        assert [chunk] + (tail.chunks + e.chunks) == ([chunk] + tail.chunks) + e.chunks;
      }
  }

  // ---- Round trip ----------------------------------------------------------------

  lemma OpensOwnFrame(ch: Channel, n: Nonce, plain: Bytes, rest: Bytes)
    requires |plain| <= MAX_CHUNK
    ensures NextFrame(ch, n, EncodeFrame(ch, n, plain) + rest) == Frame(plain, |plain| + FRAME_OVERHEAD)
  {
    var length := ch.cipher.seal(ch.key, n, Be16(|plain|));
    var body := ch.cipher.seal(ch.key, ch.next(n), plain);
    var buf := EncodeFrame(ch, n, plain) + rest;
    assert buf[..18] == length;
    assert buf[18..|plain| + FRAME_OVERHEAD] == body;
    assert ReadBe16(Be16(|plain|), 0) == |plain|;
  }

  /** A peer with the same key and nonce rule recovers every chunk, for streams of any length. */
  lemma {:induction false} RoundTrip(ch: Channel, n: Nonce, chunks: seq<Bytes>)
    requires Sendable(chunks)
    ensures Decode(ch, n, EncodeAll(ch, n, chunks)) == Decoded(chunks, [], AfterFrames(ch, n, |chunks|), false)
    decreases |chunks|
  {
    if chunks != [] {
      var tail := EncodeAll(ch, AfterFrame(ch, n), chunks[1..]);
      var all := EncodeAll(ch, n, chunks);
      OpensOwnFrame(ch, n, chunks[0], tail);
      assert all[|chunks[0]| + FRAME_OVERHEAD..] == tail;
      RoundTrip(ch, AfterFrame(ch, n), chunks[1..]);
      AfterFramesShift(ch, n, |chunks| - 1);
      assert [chunks[0]] + chunks[1..] == chunks;
    }
  }

  lemma {:induction false} AfterFramesShift(ch: Channel, n: Nonce, count: nat)
    ensures AfterFrames(ch, AfterFrame(ch, n), count) == AfterFrame(ch, AfterFrames(ch, n, count))
  {
    if count > 0 {
      AfterFramesShift(ch, n, count - 1);
    }
  }

  lemma {:induction false} EncodeConcat(ch: Channel, n: Nonce, a: seq<Bytes>, b: seq<Bytes>)
    requires Sendable(a) && Sendable(b)
    ensures Sendable(a + b)
    ensures EncodeAll(ch, n, a + b) == EncodeAll(ch, n, a) + EncodeAll(ch, AfterFrames(ch, n, |a|), b)
    decreases |a|
  {
    hide EncodeFrame;
    hide AfterFrame;
    if a == [] {
      assert a + b == b;
    } else {
      assert (a + b)[1..] == a[1..] + b;
      EncodeConcat(ch, AfterFrame(ch, n), a[1..], b);
      AfterFramesShift(ch, n, |a| - 1);
    }
  }

  lemma EncodeSnoc(ch: Channel, n: Nonce, chunks: seq<Bytes>, p: Bytes)
    requires Sendable(chunks) && |p| <= MAX_CHUNK
    ensures Sendable(chunks + [p])
    ensures EncodeAll(ch, n, chunks + [p]) == EncodeAll(ch, n, chunks) + EncodeFrame(ch, AfterFrames(ch, n, |chunks|), p)
  {
    EncodeConcat(ch, n, chunks, [p]);
    assert [p][1..] == [];
  }

  /** Whatever part of an encoded stream has arrived decodes to a prefix of the chunks. */
  lemma PartialDelivery(ch: Channel, n: Nonce, chunks: seq<Bytes>, arrived: Bytes)
    requires Sendable(chunks) && arrived <= EncodeAll(ch, n, chunks)
    ensures !Decode(ch, n, arrived).bad && Decode(ch, n, arrived).chunks <= chunks
  {
    var all := EncodeAll(ch, n, chunks);
    assert all == arrived + all[|arrived|..];
    Fragmentation(ch, n, arrived, all[|arrived|..]);
    RoundTrip(ch, n, chunks);
  }

  // ---- Interoperability --------------------------------------------------------

  /** The receiver, counting its own way, gets the chunks from the sender's stream. */
  ghost predicate Recovers(cipher: Cipher, key: Key, sender: Nonce -> Nonce, receiver: Nonce -> Nonce, chunks: seq<Bytes>)
    requires Sendable(chunks)
  {
    var stream := EncodeAll(Channel(cipher, key, sender), ZeroNonce(), chunks);
    Decode(Channel(cipher, key, receiver), ZeroNonce(), stream).chunks == chunks
  }

  /** One side is the program, the other counts as intended. */
  ghost predicate Mixed(sender: Nonce -> Nonce, receiver: Nonce -> Nonce) {
    (sender == CodeNext && receiver == IntendedNext) || (sender == IntendedNext && receiver == CodeNext)
  }

  /** `Steps` at the frame level. */
  lemma {:induction false} FramesAreSteps(ch: Channel, n: Nonce, count: nat)
    ensures AfterFrames(ch, n, count) == Steps(ch.next, n, 2 * count)
  {
    if count > 0 {
      FramesAreSteps(ch, n, count - 1);
    }
  }

  /** Before the 129th chunk both nonce rules take the same two steps. */
  lemma SameFrame(cipher: Cipher, key: Key, done: nat, plain: Bytes)
    requires done < 128 && |plain| <= MAX_CHUNK
    ensures
      var n := Steps(CodeNext, ZeroNonce(), 2 * done);
      var ours, theirs := Channel(cipher, key, CodeNext), Channel(cipher, key, IntendedNext);
      && EncodeFrame(ours, n, plain) == EncodeFrame(theirs, n, plain)
      && AfterFrame(ours, n) == Steps(CodeNext, ZeroNonce(), 2 * (done + 1))
      && (done < 127 ==> AfterFrame(theirs, n) == AfterFrame(ours, n))
  {
    var n := Steps(CodeNext, ZeroNonce(), 2 * done);
    CodeAfter(2 * done);
    CodeNextIsIntended(n);
    CodeNextIsIntended(CodeNext(n));
  }

  lemma {:induction false} SameStream(cipher: Cipher, key: Key, done: nat, chunks: seq<Bytes>)
    requires Sendable(chunks) && done + |chunks| <= 128
    ensures
      var n := Steps(CodeNext, ZeroNonce(), 2 * done);
      EncodeAll(Channel(cipher, key, CodeNext), n, chunks) == EncodeAll(Channel(cipher, key, IntendedNext), n, chunks)
    decreases |chunks|
  {
    if chunks != [] {
      SameFrame(cipher, key, done, chunks[0]);
      SameStream(cipher, key, done + 1, chunks[1..]);
      if done == 127 {
        assert chunks[1..] == [];
      }
    }
  }

  lemma SameStart(cipher: Cipher, key: Key, sender: Nonce -> Nonce, receiver: Nonce -> Nonce, chunks: seq<Bytes>)
    requires Sendable(chunks) && |chunks| <= 128 && Mixed(sender, receiver)
    ensures EncodeAll(Channel(cipher, key, sender), ZeroNonce(), chunks)
            == EncodeAll(Channel(cipher, key, receiver), ZeroNonce(), chunks)
  {
    hide EncodeAll;
    SameStream(cipher, key, 0, chunks);
  }

  /** Once the chunks sealed alike are read, the receiver stands at its own nonce before the rest. */
  lemma AfterSameStart(from: Channel, to: Channel, a: seq<Bytes>, b: seq<Bytes>)
    requires Sendable(a) && Sendable(b) && Sendable(a + b)
    requires EncodeAll(from, ZeroNonce(), a) == EncodeAll(to, ZeroNonce(), a)
    ensures
      var rest := EncodeAll(from, AfterFrames(from, ZeroNonce(), |a|), b);
      Decode(to, ZeroNonce(), EncodeAll(from, ZeroNonce(), a + b)).chunks
      == a + Decode(to, AfterFrames(to, ZeroNonce(), |a|), rest).chunks
  {
    hide Decode;
    hide EncodeAll;
    EncodeConcat(from, ZeroNonce(), a, b);
    RoundTrip(to, ZeroNonce(), a);
    var rest := EncodeAll(from, AfterFrames(from, ZeroNonce(), |a|), b);
    Fragmentation(to, ZeroNonce(), EncodeAll(from, ZeroNonce(), a), rest);
    assert [] + rest == rest;
  }

  /** Past 128 chunks a cipher whose tag depends on the nonce rejects the stream, whoever sent it. */
  lemma PeerStops(key: Key, sender: Nonce -> Nonce, receiver: Nonce -> Nonce, chunks: seq<Bytes>)
    requires Sendable(chunks) && |chunks| > 128 && Mixed(sender, receiver)
    ensures !Recovers(LawfulWitness(), key, sender, receiver, chunks)
  {
    hide Decode;
    hide EncodeAll;
    hide Steps;
    hide AfterFrames;
    hide LawfulWitness;
    var from, to := Channel(LawfulWitness(), key, sender), Channel(LawfulWitness(), key, receiver);
    var a, b := chunks[..128], chunks[128..];
    assert chunks == a + b;
    SameStart(from.cipher, key, sender, receiver, a);
    AfterSameStart(from, to, a, b);
    FramesAreSteps(from, ZeroNonce(), 128);
    FramesAreSteps(to, ZeroNonce(), 128);
    CountersPart();
    SealedElsewhere(from, to, Steps(sender, ZeroNonce(), 256), Steps(receiver, ZeroNonce(), 256), b);
  }

  /** After 256 nonces the program is back at zero and the intended counter is not. */
  lemma CountersPart()
    ensures Steps(CodeNext, ZeroNonce(), 256) != Steps(IntendedNext, ZeroNonce(), 256)
  {
    AgreeExactly(256);
    ModuloUnique(256, 0, 256, Pow256(12));
  }

  /** A chunk sealed with one nonce does not open with another. */
  lemma SealedElsewhere(from: Channel, to: Channel, n: Nonce, peer: Nonce, chunks: seq<Bytes>)
    requires from.cipher == to.cipher == LawfulWitness() && from.key == to.key
    requires Sendable(chunks) && chunks != [] && n != peer
    ensures Decode(to, peer, EncodeAll(from, n, chunks)).chunks == []
  {
    var stream := EncodeAll(from, n, chunks);
    var length := from.cipher.seal(from.key, n, Be16(|chunks[0]|));
    assert stream[..18] == length;
    assert length[2..] == n + [0, 0, 0, 0];
    assert length[2..][..12] == n;
    assert (peer + [0, 0, 0, 0])[..12] == peer;
  }

  /**
   Between the program and a peer that counts as intended, in either direction: the
   stream is recovered under every lawful cipher and key exactly when it has at most 128 chunks.
   */
  lemma InteroperatesExactly(sender: Nonce -> Nonce, receiver: Nonce -> Nonce, chunks: seq<Bytes>)
    requires Sendable(chunks) && Mixed(sender, receiver)
    ensures (forall cipher: Cipher, key: Key :: Recovers(cipher, key, sender, receiver, chunks)) <==> |chunks| <= 128
  {
    if |chunks| <= 128 {
      forall cipher: Cipher, key: Key
        ensures Recovers(cipher, key, sender, receiver, chunks)
      {
        SameStart(cipher, key, sender, receiver, chunks);
        RoundTrip(Channel(cipher, key, receiver), ZeroNonce(), chunks);
      }
    } else {
      PeerStops([], sender, receiver, chunks);
    }
  }

  // ---- Repeated frames ------------------------------------------------------------

  /** After a whole stream, its own frame of chunk `i` is taken as one more chunk. */
  ghost predicate TakenAgain(cipher: Cipher, key: Key, chunks: seq<Bytes>, i: nat)
    requires Sendable(chunks) && i < |chunks|
  {
    var ch := Channel(cipher, key, CodeNext);
    var frame := EncodeFrame(ch, AfterFrames(ch, ZeroNonce(), i), chunks[i]);
    Decode(ch, ZeroNonce(), EncodeAll(ch, ZeroNonce(), chunks) + frame).chunks == chunks + [chunks[i]]
  }

  /** What follows a whole stream is decoded from the nonce the stream ends with. */
  lemma AfterStream(ch: Channel, chunks: seq<Bytes>, n: Nonce, plain: Bytes)
    requires Sendable(chunks) && |plain| <= MAX_CHUNK
    ensures Decode(ch, ZeroNonce(), EncodeAll(ch, ZeroNonce(), chunks) + EncodeFrame(ch, n, plain)).chunks
            == chunks + Decode(ch, AfterFrames(ch, ZeroNonce(), |chunks|), EncodeAll(ch, n, [plain])).chunks
  {
    hide Decode;
    hide EncodeFrame;
    hide AfterFrames;
    var frame := EncodeFrame(ch, n, plain);
    assert [plain][1..] == [] && frame + [] == frame && [] + frame == frame;
    assert EncodeAll(ch, n, [plain]) == frame;
    RoundTrip(ch, ZeroNonce(), chunks);
    Fragmentation(ch, ZeroNonce(), EncodeAll(ch, ZeroNonce(), chunks), frame);
  }

  /** The program is at the nonce of chunk `i` again exactly after a multiple of 128 chunks. */
  lemma FrameNonceRepeats(cipher: Cipher, key: Key, i: nat, j: nat)
    requires i <= j
    ensures
      var ch := Channel(cipher, key, CodeNext);
      AfterFrames(ch, ZeroNonce(), i) == AfterFrames(ch, ZeroNonce(), j) <==> (j - i) % 128 == 0
  {
    hide AfterFrames;
    hide Steps;
    var ch := Channel(cipher, key, CodeNext);
    FramesAreSteps(ch, ZeroNonce(), i);
    FramesAreSteps(ch, ZeroNonce(), j);
    NonceRepeats(2 * i, 2 * j);
    DoubledModulo(i, j);
  }

  lemma DoubledModulo(i: nat, j: nat)
    requires i <= j
    ensures (2 * i) % 256 == (2 * j) % 256 <==> (j - i) % 128 == 0
  {
    var q, r := (j - i) / 128, (j - i) % 128;
    var a, b := (2 * i) / 256, (2 * i) % 256;
    assert 2 * j == 256 * (a + q) + b + 2 * r;
    if r == 0 {
      ModuloUnique(2 * j, a + q, b, 256);
    }
  }

  /** Under every lawful cipher a frame opens again exactly a multiple of 128 chunks after its own place. */
  lemma RepeatsExactly(chunks: seq<Bytes>, i: nat)
    requires Sendable(chunks) && i < |chunks|
    ensures (forall cipher: Cipher, key: Key :: TakenAgain(cipher, key, chunks, i)) <==> (|chunks| - i) % 128 == 0
  {
    hide Decode;
    hide EncodeAll;
    hide EncodeFrame;
    hide AfterFrames;
    hide LawfulWitness;
    if (|chunks| - i) % 128 == 0 {
      forall cipher: Cipher, key: Key
        ensures TakenAgain(cipher, key, chunks, i)
      {
        var ch := Channel(cipher, key, CodeNext);
        FrameNonceRepeats(cipher, key, i, |chunks|);
        var n := AfterFrames(ch, ZeroNonce(), i);
        AfterStream(ch, chunks, n, chunks[i]);
        RoundTrip(ch, n, [chunks[i]]);
      }
    } else {
      var ch := Channel(LawfulWitness(), [], CodeNext);
      FrameNonceRepeats(ch.cipher, [], i, |chunks|);
      var n := AfterFrames(ch, ZeroNonce(), i);
      AfterStream(ch, chunks, n, chunks[i]);
      SealedElsewhere(ch, ch, n, AfterFrames(ch, ZeroNonce(), |chunks|), [chunks[i]]);
      assert !TakenAgain(LawfulWitness(), [], chunks, i);
    }
  }
}
