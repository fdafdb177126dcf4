/** The stateful AEAD session: salts, subkeys, the two nonces, TCP frames and UDP packets. */
module AeadSession {
  import opened ByteStrings
  import opened Nonces
  import opened Framing

  datatype SealError = SaltNotSent | ChunkTooLarge

  datatype SealResult = Sealed(bytes: Bytes) | Refused(error: SealError)

  class ShadowsocksAeadSession {
    const cipher: Cipher
    const masterKey: Key
    var sendKey: Key
    var recvKey: Key
    const sendNonce: array<byte>
    const recvNonce: array<byte>
    var haveRecvKey: bool
    var sentSalt: bool

    ghost predicate Valid() {
      sendNonce.Length == NONCE_SIZE && recvNonce.Length == NONCE_SIZE && sendNonce != recvNonce
    }

    ghost function SendNonce(): Nonce
      requires Valid()
      reads sendNonce
    {
      sendNonce[..]
    }

    ghost function RecvNonce(): Nonce
      requires Valid()
      reads recvNonce
    {
      recvNonce[..]
    }

    ghost function SendChannel(): Channel
      reads this
    {
      Channel(cipher, sendKey, CodeNext)
    }

    ghost function RecvChannel(): Channel
      reads this
    {
      Channel(cipher, recvKey, CodeNext)
    }

    constructor (cipher: Cipher, masterKey: Key)
      ensures Valid() && fresh(sendNonce) && fresh(recvNonce)
      ensures this.cipher == cipher && this.masterKey == masterKey
      ensures sendKey == [] && recvKey == [] && SendNonce() == ZeroNonce() && RecvNonce() == ZeroNonce()
      ensures !haveRecvKey && !sentSalt
    {
      this.cipher := cipher;
      this.masterKey := masterKey;
      sendKey, recvKey := [], [];
      sendNonce := new byte[12](_ => 0);
      recvNonce := new byte[12](_ => 0);
      haveRecvKey, sentSalt := false, false;
    }

    /** Starts the sending direction under a fresh random salt. */
    method ClientSalt(salt: Bytes)
      requires Valid()
      modifies this, sendNonce
      ensures SendNonce() == ZeroNonce() && sentSalt && sendKey == cipher.derive(masterKey, salt)
      ensures recvKey == old(recvKey) && haveRecvKey == old(haveRecvKey)
    {
      sendKey := cipher.derive(masterKey, salt);
      Clear(sendNonce);
      sentSalt := true;
    }

    /** Starts the receiving direction under the peer's salt; refuses one of the wrong size. */
    method SetClientSalt(salt: Bytes) returns (ok: bool)
      requires Valid()
      modifies this, recvNonce
      ensures ok <==> |salt| == SALT_SIZE
      ensures ok ==> RecvNonce() == ZeroNonce() && haveRecvKey && recvKey == cipher.derive(masterKey, salt)
      ensures !ok ==> RecvNonce() == old(RecvNonce()) && haveRecvKey == old(haveRecvKey) && recvKey == old(recvKey)
      ensures sendKey == old(sendKey) && sentSalt == old(sentSalt)
    {
      ok := |salt| == SALT_SIZE;
      if ok {
        recvKey := cipher.derive(masterKey, salt);
        Clear(recvNonce);
        haveRecvKey := true;
      }
    }

    static method Clear(nonce: array<byte>)
      requires nonce.Length == NONCE_SIZE
      modifies nonce
      ensures nonce[..] == ZeroNonce()
    {
      forall i | 0 <= i < nonce.Length {
        nonce[i] := 0;
      }
    }

    /** Seals under the nonce and steps it in place. */
    method Crypt(key: Key, nonce: array<byte>, plain: Bytes) returns (sealed: Bytes)
      requires nonce.Length == NONCE_SIZE
      modifies nonce
      ensures sealed == cipher.seal(key, old(nonce[..]), plain)
      ensures nonce[..] == CodeNext(old(nonce[..]))
    {
      sealed := cipher.seal(key, nonce[..], plain);
      IncrementNonce(nonce);
    }

    /** Opens under the nonce and steps it in place only when the tag is right. */
    method Decrypt(key: Key, nonce: array<byte>, sealed: Bytes) returns (plain: Option<Bytes>)
      requires nonce.Length == NONCE_SIZE
      modifies nonce
      ensures plain == cipher.open(key, old(nonce[..]), sealed)
      ensures nonce[..] == if plain.Some? then CodeNext(old(nonce[..])) else old(nonce[..])
    {
      plain := cipher.open(key, nonce[..], sealed);
      if plain.Some? {
        IncrementNonce(nonce);
      }
    }

    /** One TCP frame; the nonce moves by two steps exactly when the chunk is sealed. */
    method EncryptTcpChunk(plain: Bytes) returns (r: SealResult)
      requires Valid()
      modifies sendNonce
      ensures !sentSalt ==> r == Refused(SaltNotSent)
      ensures sentSalt && |plain| > MAX_CHUNK ==> r == Refused(ChunkTooLarge)
      ensures sentSalt && |plain| <= MAX_CHUNK ==>
                r == Sealed(EncodeFrame(SendChannel(), old(SendNonce()), plain))
                && SendNonce() == AfterFrame(SendChannel(), old(SendNonce()))
      ensures r.Refused? ==> SendNonce() == old(SendNonce())
    {
      if !sentSalt {
        return Refused(SaltNotSent);
      }
      if |plain| > MAX_CHUNK {
        return Refused(ChunkTooLarge);
      }
      var length := Crypt(sendKey, sendNonce, Be16(|plain|));
      var payload := Crypt(sendKey, sendNonce, plain);
      r := Sealed(length + payload);
    }

    /**
     The frame at the front of the stream, if a whole one is there and both its parts open;
     a part that is whole and does not open is bad. The receive nonce is replaced by the trial
     copy only when the whole frame opens.
     */
    method DecryptTcpChunk(stream: Bytes) returns (r: FrameStep)
      requires Valid()
      modifies recvNonce
      ensures r == if haveRecvKey then NextFrame(RecvChannel(), old(RecvNonce()), stream) else NeedMore
      ensures RecvNonce() == if r.Frame? then AfterFrame(RecvChannel(), old(RecvNonce())) else old(RecvNonce())
      ensures haveRecvKey ==> RightAnswer(RecvChannel(), old(RecvNonce()), stream, r)
    {
      NextFrameExactly(RecvChannel(), RecvNonce(), stream);
      hide RightAnswer;
      if !haveRecvKey || |stream| < 2 + TAG_SIZE {
        return NeedMore;
      }
      var trial := new byte[12](i requires 0 <= i < 12 reads recvNonce, this requires Valid() => recvNonce[i]);
      assert trial[..] == recvNonce[..];
      var length := Decrypt(recvKey, trial, stream[..2 + TAG_SIZE]);
      if length.None? {
        return Bad;
      }
      var need := 2 + TAG_SIZE + ReadBe16(length.value, 0) % 0x4000 + TAG_SIZE;
      if |stream| < need {
        return NeedMore;
      }
      var plain := Decrypt(recvKey, trial, stream[2 + TAG_SIZE..need]);
      if plain.None? {
        return Bad;
      }
      forall i | 0 <= i < recvNonce.Length {
        recvNonce[i] := trial[i];
      }
      assert recvNonce[..] == trial[..];
      return Frame(plain.value, need);
    }

    /** A UDP packet: fresh salt, then the payload sealed with the zero nonce. */
    method EncryptUdpPacket(salt: Bytes, plain: Bytes) returns (packet: Bytes)
      requires Valid()
      modifies this, sendNonce
      ensures packet == EncodeUdp(cipher, masterKey, salt, plain)
      ensures sentSalt && sendKey == cipher.derive(masterKey, salt) && SendNonce() == CodeNext(ZeroNonce())
      ensures recvKey == old(recvKey) && haveRecvKey == old(haveRecvKey)
    {
      ClientSalt(salt);
      var sealed := Crypt(sendKey, sendNonce, plain);
      packet := salt + sealed;
    }

    /** Needs no session state: the key comes from the packet's own salt. */
    method DecryptUdpPacket(packet: Bytes) returns (plain: Option<Bytes>)
      ensures plain == DecodeUdp(cipher, masterKey, packet)
      ensures plain.Some? ==> OpensTo(cipher, masterKey, packet, plain.value)
      ensures plain.None? ==> forall p: Bytes :: !OpensTo(cipher, masterKey, packet, p)
    {
      UdpOpens(cipher, masterKey, packet);
      hide OpensTo;
      if |packet| < SALT_SIZE + TAG_SIZE {
        return None;
      }
      var nonce := new byte[12](_ => 0);
      assert nonce[..] == ZeroNonce();
      plain := Decrypt(cipher.derive(masterKey, packet[..SALT_SIZE]), nonce, packet[SALT_SIZE..]);
    }
  }

  function EncodeUdp(cipher: Cipher, master: Key, salt: Bytes, plain: Bytes): Bytes {
    salt + cipher.seal(cipher.derive(master, salt), ZeroNonce(), plain)
  }

  function DecodeUdp(cipher: Cipher, master: Key, packet: Bytes): Option<Bytes> {
    if |packet| < SALT_SIZE + TAG_SIZE then None
    else cipher.open(cipher.derive(master, packet[..SALT_SIZE]), ZeroNonce(), packet[SALT_SIZE..])
  }

  /** The packet is a 32-byte salt and bytes that open to `p` under that salt's key and the zero nonce. */
  predicate OpensTo(cipher: Cipher, master: Key, packet: Bytes, p: Bytes) {
    && |packet| >= 32
    && cipher.open(cipher.derive(master, packet[..32]), ZeroNonce(), packet[32..]) == Some(p)
  }

  /** A packet gives a payload exactly when it opens to it. */
  lemma DecodeUdpExactly(cipher: Cipher, master: Key, packet: Bytes, p: Bytes)
    ensures DecodeUdp(cipher, master, packet) == Some(p) <==> OpensTo(cipher, master, packet, p)
  {
  }

  lemma UdpOpens(cipher: Cipher, master: Key, packet: Bytes)
    ensures DecodeUdp(cipher, master, packet).Some? ==> OpensTo(cipher, master, packet, DecodeUdp(cipher, master, packet).value)
    ensures DecodeUdp(cipher, master, packet).None? ==> forall p: Bytes :: !OpensTo(cipher, master, packet, p)
  {
    forall p: Bytes
      ensures DecodeUdp(cipher, master, packet) == Some(p) <==> OpensTo(cipher, master, packet, p)
    {
      DecodeUdpExactly(cipher, master, packet, p);
    }
  }

  /** Any session with the same master key opens a UDP packet of any size. */
  lemma UdpRoundTrip(cipher: Cipher, master: Key, salt: Bytes, plain: Bytes)
    requires |salt| == SALT_SIZE
    ensures DecodeUdp(cipher, master, EncodeUdp(cipher, master, salt, plain)) == Some(plain)
  {
    var packet := EncodeUdp(cipher, master, salt, plain);
    assert packet[..SALT_SIZE] == salt;
    assert packet[SALT_SIZE..] == cipher.seal(cipher.derive(master, salt), ZeroNonce(), plain);
  }

  /**
   Two live sessions: whatever one seals, the other opens, and both nonces stay equal. The
   loop runs over any number of chunks.
   */
  method TransferAll(sender: ShadowsocksAeadSession, receiver: ShadowsocksAeadSession, salt: Bytes, chunks: seq<Bytes>)
    returns (received: seq<Bytes>)
    requires sender.Valid() && receiver.Valid()
    requires sender != receiver && {sender.sendNonce, sender.recvNonce} !! {receiver.sendNonce, receiver.recvNonce}
    requires sender.cipher == receiver.cipher && sender.masterKey == receiver.masterKey
    requires |salt| == SALT_SIZE && Sendable(chunks)
    modifies sender, sender.sendNonce, receiver, receiver.recvNonce
    ensures received == chunks
    ensures sender.SendNonce() == receiver.RecvNonce()
  {
    sender.ClientSalt(salt);
    var ok := receiver.SetClientSalt(salt);
    received := [];
    for i := 0 to |chunks|
      invariant received == chunks[..i]
      invariant sender.sentSalt && receiver.haveRecvKey && sender.SendChannel() == receiver.RecvChannel()
      invariant sender.SendNonce() == receiver.RecvNonce()
    {
      var sealed := sender.EncryptTcpChunk(chunks[i]);
      OpensOwnFrame(sender.SendChannel(), receiver.RecvNonce(), chunks[i], []);
      assert sealed.bytes + [] == sealed.bytes;
      var step := receiver.DecryptTcpChunk(sealed.bytes);
      received := received + [step.chunk];
    }
  }
}
