/**
 Client to remote. What lwIP has accepted, followed by what is still queued, is exactly the
 plaintext of the frames received so far without the address header, however the reads
 were split and wherever the flush loop paused.
 */
module RelayUplink {
  import opened ByteStrings
  import opened Nonces
  import opened Framing
  import opened Addresses
  import opened RelaySpec
  import opened RelayControl

  // ---- What the client asked to relay -----------------------------------------------------

  /** Some chunk starts with an address; chunks before the first such one are dropped. */
  predicate HasTarget(chunks: seq<Bytes>) {
    chunks != [] && (ParseAddress(chunks[0]).Some? || HasTarget(chunks[1..]))
  }

  /** The payload: what follows the address in its chunk, and every later chunk. */
  function Relayed(chunks: seq<Bytes>): Bytes {
    if chunks == [] then []
    else
      match ParseAddress(chunks[0])
      case None => Relayed(chunks[1..])
      case Some(p) => p.rest + Flatten(chunks[1..])
  }

  /** What one more chunk adds. */
  function Added(target: bool, chunk: Bytes): Bytes {
    if target then chunk
    else if ParseAddress(chunk).Some? then ParseAddress(chunk).value.rest
    else []
  }

  lemma {:induction false} RelayedSnoc(chunks: seq<Bytes>, chunk: Bytes)
    ensures Relayed(chunks + [chunk]) == Relayed(chunks) + Added(HasTarget(chunks), chunk)
    ensures HasTarget(chunks + [chunk]) <==> HasTarget(chunks) || ParseAddress(chunk).Some?
    ensures !HasTarget(chunks) ==> Relayed(chunks) == []
  {
    if chunks == [] {
      assert (chunks + [chunk])[1..] == [];
    } else {
      assert (chunks + [chunk])[1..] == chunks[1..] + [chunk];
      if ParseAddress(chunks[0]).Some? {
        FlattenSnoc(chunks[1..], chunk);
      } else {
        RelayedSnoc(chunks[1..], chunk);
      }
    }
  }

  lemma {:induction false} RelayedGrows(a: seq<Bytes>, b: seq<Bytes>)
    ensures Relayed(a) <= Relayed(a + b)
    decreases |b|
  {
    if b == [] {
      assert a + b == a;
    } else {
      RelayedSnoc(a, b[0]);
      RelayedGrows(a + [b[0]], b[1..]);
      assert a + [b[0]] + b[1..] == a + b;
    }
  }

  lemma ParsedRest(bytes: Bytes)
    requires ParseAddress(bytes).Some?
    ensures
      var rest := ParseAddress(bytes).value.rest;
      rest == bytes[|bytes| - |rest|..]
  {
  }

  /** With a valid address in the first chunk: the whole plaintext minus the header. */
  lemma RelayedIsPlaintextMinusHeader(chunks: seq<Bytes>)
    requires chunks != [] && ParseAddress(chunks[0]).Some?
    ensures
      var header := |chunks[0]| - |ParseAddress(chunks[0]).value.rest|;
      Relayed(chunks) == Flatten(chunks)[header..]
  {
    hide ParseAddress;
    var header := |chunks[0]| - |ParseAddress(chunks[0]).value.rest|;
    ParsedRest(chunks[0]);
    assert Flatten(chunks)[header..] == chunks[0][header..] + Flatten(chunks[1..]);
  }

  // ---- Invariant ----------------------------------------------------------------------------

  predicate Pieces(q: seq<Bytes>) {
    forall i :: 0 <= i < |q| ==> 0 < |q[i]| <= MAX_CHUNK
  }

  /** The decoding of every stream byte received. */
  function Seen(cfg: Setup, u: Uplink): Decoded {
    Decode(UpChannel(cfg, u), ZeroNonce(), u.rx)
  }

  function Outgoing(u: Uplink): Bytes {
    u.accepted + Flatten(u.pending)
  }

  /** The session's buffer, nonce and queue are those of the decoding. */
  ghost predicate InStep(u: Uplink, d: Decoded) {
    && !d.bad
    && u.encryptedIn == d.rest
    && u.nonce == d.nonce
    && u.gotTarget == HasTarget(d.chunks)
    && Outgoing(u) == Relayed(d.chunks)
  }

  ghost predicate UpInv(cfg: Setup, u: Uplink, k: Control) {
    && Pieces(u.pending)
    && (u.saltPending ==> !u.haveKey)
    && (!u.haveKey ==> u.rx == [] && u.encryptedIn == [] && u.readsOut == 0 && !u.gotTarget && !u.broken)
    && (!u.gotTarget ==> u.pending == [] && u.accepted == [] && !u.paused && !u.domain && u.readsOut <= 1)
    && (!u.gotTarget ==> Monitor(k.ops) == Absent && !k.resolving)
    && (k.resolving ==> u.domain)
    && (k.closing && k.pcb ==> u.readsOut == 0)
    && (u.haveKey && !u.broken ==> InStep(u, Seen(cfg, u)))
    && (u.broken ==> Broken(cfg, u, k))
  }

  ghost predicate Broken(cfg: Setup, u: Uplink, k: Control) {
    && k.closing
    && (!u.gotTarget ==> u.readsOut == 0)
    && u.accepted <= Relayed(Seen(cfg, u).chunks)
    && (k.pcb ==> Outgoing(u) <= Relayed(Seen(cfg, u).chunks))
  }

  /** For an address-literal target: never two reads, none while paused, and data waits only while paused. */
  predicate OneRead(u: Uplink, k: Control) {
    !u.domain ==>
      && u.readsOut <= 1
      && (u.paused ==> u.readsOut == 0)
      && (k.pcb && !k.closing && !u.paused ==> u.pending == [])
  }

  lemma ShrinkKeepsUp(cfg: Setup, u: Uplink, k: Control, k': Control)
    requires UpInv(cfg, u, k) && OneRead(u, k) && Owned(k) && Shrinks(k, k')
    ensures UpInv(cfg, u, k') && OneRead(u, k')
  {
  }

  // ---- Flushing ------------------------------------------------------------------------------

  /** A flush moves bytes from the queue to lwIP and changes nothing else but the pause flag. */
  ghost predicate Moved(u: Uplink, v: Uplink) {
    && v == u.(pending := v.pending, accepted := v.accepted, paused := v.paused)
    && Outgoing(v) == Outgoing(u)
    && u.accepted <= v.accepted
    && Pieces(v.pending)
    && (u.paused ==> v.paused)
    && (u.pending == [] ==> v == u)
  }

  /** The control side of a flush: the pcb stays, or the session closes; only that stops a drain. */
  ghost predicate Flushed(k: Control, f: Flow) {
    && Owned(f.k)
    && Shrinks(k, f.k)
    && f.k.resolving == k.resolving
    && (f.k.closing || f.u.paused || f.u.pending == [])
  }

  lemma LogKeeps(k: Control, op: PcbOp)
    requires Owned(k) && k.pcb && (op == Output || op == Write)
    ensures Owned(Log(k, [op])) && Shrinks(k, Log(k, [op]))
  {
    Logged(k, [op]);
    One(Live, op);
  }

  lemma LogTwice(k: Control)
    ensures Log(k, [Write, Output]) == Log(Log(k, [Write]), [Output])
  {
    assert k.ops + [Write, Output] == (k.ops + [Write]) + [Output];
  }

  /** The queue after one successful write. */
  function Written(u: Uplink): Uplink
    requires u.pending != []
  {
    u.(pending := u.pending[1..], accepted := u.accepted + Cut(u.pending[0]))
  }

  /** No chunk is cut by the 16-bit length, because none exceeds 0x3fff bytes. */
  lemma WrittenMoves(u: Uplink)
    requires u.pending != [] && Pieces(u.pending)
    ensures Moved(u, Written(u))
  {
    assert Cut(u.pending[0]) == u.pending[0];
  }

  lemma PauseMoves(u: Uplink)
    requires Pieces(u.pending)
    ensures Moved(u, u) && (u.pending != [] ==> Moved(u, u.(paused := true)))
  {
  }

  lemma MovedTransitive(u: Uplink, v: Uplink, w: Uplink)
    requires u.pending != [] && Moved(u, v) && Moved(v, w)
    ensures Moved(u, w)
  {
  }

  lemma {:induction false} FlushLoopMoves(u: Uplink, k: Control, env: Env, turn: nat)
    requires Pieces(u.pending)
    ensures Moved(u, FlushLoop(u, k, env, turn).u)
    decreases |u.pending|
  {
    hide CloseAll;
    hide Cut;
    PauseMoves(u);
    if u.pending != [] {
      var a := env.writes(turn);
      if !Blocked(a, |u.pending[0]|) && a.error == Ok {
        WrittenMoves(u);
        FlushLoopMoves(Written(u), Log(k, [Write]), env, turn + 1);
        MovedTransitive(u, Written(u), FlushLoop(Written(u), Log(k, [Write]), env, turn + 1).u);
      }
    }
  }

  lemma {:induction false} FlushLoopControl(u: Uplink, k: Control, env: Env, turn: nat)
    requires Owned(k) && k.pcb
    ensures Flushed(k, FlushLoop(u, k, env, turn))
    decreases |u.pending|
  {
    hide Cut;
    hide CloseAll;
    hide Monitor;
    hide Credited;
    LogKeeps(k, Output);
    if u.pending != [] {
      var a := env.writes(turn);
      var k1 := Log(k, [Write]);
      LogKeeps(k, Write);
      if !Blocked(a, |u.pending[0]|) {
        if a.error == Mem {
          LogKeeps(k1, Output);
          LogTwice(k);
        } else if a.error == Failed {
          CloseAllKeeps(k1, env);
        } else {
          FlushLoopControl(Written(u), k1, env, turn + 1);
        }
      }
    }
  }

  lemma FlushMoves(u: Uplink, k: Control, env: Env)
    requires Owned(k) && Pieces(u.pending)
    ensures
      var f := FlushToLwip(u, k, env);
      Moved(u, f.u) && (if k.pcb then Flushed(k, f) else f == Flow(u, k))
  {
    if k.pcb {
      FlushLoopMoves(u, k, env, 0);
      FlushLoopControl(u, k, env, 0);
    }
  }

  lemma FlushKeeps(cfg: Setup, u: Uplink, k: Control, env: Env)
    requires UpInv(cfg, u, k) && Owned(k)
    ensures
      var f := FlushToLwip(u, k, env);
      UpInv(cfg, f.u, f.k) && Owned(f.k) && Shrinks(k, f.k)
  {
    FlushMoves(u, k, env);
    var f := FlushToLwip(u, k, env);
    assert UpChannel(cfg, f.u) == UpChannel(cfg, u);
    assert f.u.accepted <= Outgoing(f.u);
  }

  /** Starting the next read keeps everything. */
  lemma ReadKeeps(cfg: Setup, u: Uplink, k: Control)
    requires UpInv(cfg, u, k) && u.haveKey && (!u.gotTarget ==> u.readsOut == 0)
    ensures UpInv(cfg, ReadStream(u, k), k)
  {
    assert UpChannel(cfg, ReadStream(u, k)) == UpChannel(cfg, u);
  }

  lemma ResumeKeeps(cfg: Setup, u: Uplink, k: Control, env: Env)
    requires UpInv(cfg, u, k) && OneRead(u, k) && Owned(k)
    ensures
      var f := MaybeResume(u, k, env);
      UpInv(cfg, f.u, f.k) && OneRead(f.u, f.k) && Owned(f.k) && Shrinks(k, f.k)
  {
    if u.paused && k.pcb && env.sndbuf >= LWIP_SND_LOW_WATER {
      var v := u.(paused := false);
      assert UpChannel(cfg, v) == UpChannel(cfg, u);
      FlushKeeps(cfg, v, k, env);
      FlushMoves(v, k, env);
      var f := FlushToLwip(v, k, env);
      ReadKeeps(cfg, f.u, f.k);
    }
  }

  // ---- Decrypting -------------------------------------------------------------------------

  /** One chunk: the target and the outgoing bytes follow the list of chunks. */
  lemma ChunkFollows(u: Uplink, k: Control, chunk: Bytes, env: Env, seen: seq<Bytes>)
    requires u.gotTarget == HasTarget(seen) && Outgoing(u) == Relayed(seen)
    ensures
      var p := ProcessChunk(u, k, chunk, env);
      && (!p.threw ==> p.u.gotTarget == HasTarget(seen + [chunk]) && Outgoing(p.u) == Relayed(seen + [chunk]))
      && (p.threw ==> Outgoing(p.u) <= Relayed(seen + [chunk]))
      && p.u == u.(pending := p.u.pending, gotTarget := p.u.gotTarget, domain := p.u.domain)
  {
    hide CloseAll;
    hide ConnectTarget;
    hide Relayed;
    hide HasTarget;
    RelayedSnoc(seen, chunk);
    var bytes := Added(u.gotTarget, chunk);
    FlattenSnoc(u.pending, bytes);
    assert u.accepted + (Flatten(u.pending) + bytes) == Outgoing(u) + bytes;
  }

  /** What a run of the loop from `u` has done, against the decoding of the same bytes. */
  ghost predicate Follows(u: Uplink, r: LoopResult, d: Decoded, seen: seq<Bytes>) {
    && r.u == u.(nonce := r.u.nonce, pending := r.u.pending, gotTarget := r.u.gotTarget, domain := r.u.domain)
    && (!r.threw ==> InStep(r.u.(encryptedIn := r.view), d.(chunks := seen + d.chunks)))
    && (r.threw ==> Outgoing(r.u) <= Relayed(seen + d.chunks))
  }

  lemma FollowsLater(u: Uplink, v: Uplink, r: LoopResult, tail: Decoded, seen: seq<Bytes>, chunk: Bytes)
    requires v == u.(nonce := v.nonce, pending := v.pending, gotTarget := v.gotTarget, domain := v.domain)
    requires Follows(v, r, tail, seen + [chunk])
    ensures Follows(u, r, tail.(chunks := [chunk] + tail.chunks), seen)
  {
    assert seen + ([chunk] + tail.chunks) == (seen + [chunk]) + tail.chunks;
  }

  /** The loop follows `Decode`, chunk by chunk; an exception leaves a prefix. */
  lemma {:induction false} LoopFollows(cfg: Setup, u: Uplink, k: Control, view: Bytes, env: Env, seen: seq<Bytes>)
    requires u.haveKey && u.gotTarget == HasTarget(seen) && Outgoing(u) == Relayed(seen)
    ensures Follows(u, DecryptLoop(cfg, u, k, view, env), Decode(UpChannel(cfg, u), u.nonce, view), seen)
    decreases |view|
  {
    hide ProcessChunk;
    hide NextFrame;
    hide Relayed;
    hide HasTarget;
    var ch := UpChannel(cfg, u);
    var f := NextFrame(ch, u.nonce, view);
    if f.Frame? {
      var v := u.(nonce := AfterFrame(ch, u.nonce));
      var p := ProcessChunk(v, k, f.chunk, env);
      var rest := view[f.need..];
      var tail := Decode(ch, v.nonce, rest);
      ChunkFollows(v, k, f.chunk, env, seen);
      if p.threw {
        RelayedGrows(seen + [f.chunk], tail.chunks);
        assert Follows(p.u, LoopResult(p.u, p.k, rest, true), tail, seen + [f.chunk]);
        FollowsLater(u, p.u, LoopResult(p.u, p.k, rest, true), tail, seen, f.chunk);
      } else {
        LoopFollows(cfg, p.u, p.k, rest, env, seen + [f.chunk]);
        assert UpChannel(cfg, p.u) == ch && p.u.nonce == v.nonce;
        FollowsLater(u, p.u, DecryptLoop(cfg, p.u, p.k, rest, env), tail, seen, f.chunk);
      }
    } else {
      assert seen + [] == seen;
    }
  }

  // ---- A read completion ----------------------------------------------------------------

  /** The target is found once; only then can a pcb or a resolve appear. */
  ghost predicate Targeted(u: Uplink, k: Control) {
    && Pieces(u.pending)
    && (!u.gotTarget ==> u.pending == [] && !u.domain && Monitor(k.ops) == Absent && !k.resolving)
    && (k.resolving ==> u.domain)
  }

  ghost predicate TargetStep(u: Uplink, k: Control, v: Uplink, k': Control) {
    && Owned(k')
    && Quiet(k, k')
    && Targeted(v, k')
    && (u.gotTarget ==> v.gotTarget && v.domain == u.domain && k' == k)
    && (k'.pcb ==> k.pcb || !u.gotTarget)
  }

  lemma ChunkControl(u: Uplink, k: Control, chunk: Bytes, env: Env)
    requires Owned(k) && Targeted(u, k) && |chunk| <= MAX_CHUNK
    ensures
      var p := ProcessChunk(u, k, chunk, env);
      TargetStep(u, k, p.u, p.k)
  {
    hide CloseAll;
    hide ConnectTarget;
    hide ParseAddress;
    hide Monitor;
    hide Credited;
    if !u.gotTarget {
      CloseAllKeeps(k, env);
      if ParseAddress(chunk).Some? {
        ConnectTargetKeeps(k, ParseAddress(chunk).value.target, env);
      }
    }
  }

  lemma {:induction false} LoopControl(cfg: Setup, u: Uplink, k: Control, view: Bytes, env: Env)
    requires Owned(k) && Targeted(u, k)
    ensures
      var r := DecryptLoop(cfg, u, k, view, env);
      TargetStep(u, k, r.u, r.k)
    decreases |view|
  {
    hide ProcessChunk;
    hide NextFrame;
    var ch := UpChannel(cfg, u);
    var f := if u.haveKey then NextFrame(ch, u.nonce, view) else NeedMore;
    if f.Frame? {
      var v := u.(nonce := AfterFrame(ch, u.nonce));
      ChunkControl(v, k, f.chunk, env);
      var p := ProcessChunk(v, k, f.chunk, env);
      if !p.threw {
        LoopControl(cfg, p.u, p.k, view[f.need..], env);
      }
    }
  }

  /** More bytes extend the decoding, bad or not. */
  lemma SeenGrows(cfg: Setup, u: Uplink, data: Bytes)
    ensures
      var v := u.(rx := u.rx + data);
      && Relayed(Seen(cfg, u).chunks) <= Relayed(Seen(cfg, v).chunks)
      && (!Seen(cfg, u).bad ==> Seen(cfg, v) == Resume(UpChannel(cfg, u), Seen(cfg, u), data))
  {
    var ch := UpChannel(cfg, u);
    Fragmentation(ch, ZeroNonce(), u.rx, data);
    var d := Seen(cfg, u);
    if !d.bad {
      RelayedGrows(d.chunks, Decode(ch, d.nonce, d.rest + data).chunks);
    }
  }

  /** The decrypt loop on a session in step with its input. */
  lemma LoopInStep(cfg: Setup, u: Uplink, k: Control, data: Bytes, env: Env)
    requires u.haveKey && InStep(u, Seen(cfg, u))
    ensures
      var v := u.(encryptedIn := u.encryptedIn + data, rx := u.rx + data);
      var r := DecryptLoop(cfg, v, k, v.encryptedIn, env);
      && r.u == v.(nonce := r.u.nonce, pending := r.u.pending, gotTarget := r.u.gotTarget, domain := r.u.domain)
      && (!r.threw ==> InStep(r.u.(encryptedIn := r.view), Seen(cfg, v)))
      && (r.threw ==> Outgoing(r.u) <= Relayed(Seen(cfg, v).chunks))
  {
    hide DecryptLoop;
    hide Decode;
    var v := u.(encryptedIn := u.encryptedIn + data, rx := u.rx + data);
    SeenGrows(cfg, u, data);
    assert Outgoing(v) == Outgoing(u);
    LoopFollows(cfg, v, k, v.encryptedIn, env, Seen(cfg, u).chunks);
  }

  lemma ChunkFrame(u: Uplink, k: Control, chunk: Bytes, env: Env)
    ensures
      var v := ProcessChunk(u, k, chunk, env).u;
      v == u.(pending := v.pending, gotTarget := v.gotTarget, domain := v.domain)
  {
    hide ParseAddress;
  }

  /** Once broken, the loop can still run, but nothing it queues is ever written. */
  lemma {:induction false} LoopFrame(cfg: Setup, u: Uplink, k: Control, view: Bytes, env: Env)
    ensures
      var r := DecryptLoop(cfg, u, k, view, env);
      r.u == u.(nonce := r.u.nonce, pending := r.u.pending, gotTarget := r.u.gotTarget, domain := r.u.domain)
    decreases |view|
  {
    hide ProcessChunk;
    hide NextFrame;
    var ch := UpChannel(cfg, u);
    var f := if u.haveKey then NextFrame(ch, u.nonce, view) else NeedMore;
    if f.Frame? {
      var v := u.(nonce := AfterFrame(ch, u.nonce));
      ChunkFrame(v, k, f.chunk, env);
      var p := ProcessChunk(v, k, f.chunk, env);
      if !p.threw {
        LoopFrame(cfg, p.u, p.k, view[f.need..], env);
      }
    }
  }

  /** The session after the decrypt loop, before the flush: in both outcomes the invariant holds. */
  lemma LoopKeeps(cfg: Setup, u: Uplink, k: Control, data: Bytes, env: Env)
    requires UpInv(cfg, u, k) && Owned(k) && u.readsOut > 0
    ensures
      var v := ReadTaken(u).(encryptedIn := u.encryptedIn + data, rx := u.rx + data);
      var r := DecryptLoop(cfg, v, k, v.encryptedIn, env);
      && TargetStep(u, k, r.u, r.k)
      && r.u == v.(nonce := r.u.nonce, pending := r.u.pending, gotTarget := r.u.gotTarget, domain := r.u.domain)
      && (!r.threw ==> UpInv(cfg, r.u.(encryptedIn := r.view), r.k))
      && (r.threw ==> UpInv(cfg, r.u.(broken := true), CloseAll(r.k, env)))
  {
    hide DecryptLoop;
    hide Decode;
    hide Relayed;
    hide HasTarget;
    var t := ReadTaken(u);
    var v := t.(encryptedIn := u.encryptedIn + data, rx := u.rx + data);
    var r := DecryptLoop(cfg, v, k, v.encryptedIn, env);
    assert UpChannel(cfg, t) == UpChannel(cfg, u);
    LoopControl(cfg, v, k, v.encryptedIn, env);
    LoopFrame(cfg, v, k, v.encryptedIn, env);
    CloseAllKeeps(r.k, env);
    SeenGrows(cfg, t, data);
    assert UpChannel(cfg, r.u) == UpChannel(cfg, v);
    if !u.broken {
      LoopInStep(cfg, t, k, data, env);
    }
  }

  lemma ReadDataKeeps(cfg: Setup, u: Uplink, k: Control, data: Bytes, env: Env)
    requires UpInv(cfg, u, k) && OneRead(u, k) && Owned(k) && u.readsOut > 0
    ensures
      var f := ReadData(cfg, ReadTaken(u), k, data, env);
      UpInv(cfg, f.u, f.k) && OneRead(f.u, f.k) && Owned(f.k) && Quiet(k, f.k)
  {
    hide DecryptLoop;
    LoopKeeps(cfg, u, k, data, env);
    var v := ReadTaken(u).(encryptedIn := u.encryptedIn + data, rx := u.rx + data);
    var r := DecryptLoop(cfg, v, k, v.encryptedIn, env);
    CloseAllKeeps(r.k, env);
    if !r.threw {
      var w := r.u.(encryptedIn := r.view);
      FlushKeeps(cfg, w, r.k, env);
      FlushMoves(w, r.k, env);
      var f := FlushToLwip(w, r.k, env);
      ReadKeeps(cfg, f.u, f.k);
    }
  }
}
