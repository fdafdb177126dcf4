/**
 Remote to client. What the client socket has carried is a prefix of one salt followed by
 the frames of the payloads in arrival order; the queue is bounded by the deferred window
 credit; and credit is neither lost nor left with nothing to release it.
 */
module RelayDownlink {
  import opened ByteStrings
  import opened Nonces
  import opened Framing
  import opened RelaySpec
  import opened RelayControl

  // ---- Invariant ----------------------------------------------------------------------------

  /** One salt, then the frames of every sealed payload. */
  function Stream(cfg: Setup, d: Downlink): Bytes
    requires Sendable(d.sealed)
  {
    if d.sentSalt then d.salt + EncodeAll(DownChannel(cfg, d), ZeroNonce(), d.sealed) else []
  }

  /** The sending keys and nonce are those of the salt and of the frames sealed so far. */
  ghost predicate Keyed(cfg: Setup, d: Downlink) {
    && Sendable(d.sealed)
    && (!d.sentSalt ==> d.pending == [] && d.wire == [] && d.sealed == [] && !d.writing)
    && (d.sentSalt ==>
          && |d.salt| == SALT_SIZE
          && d.key == cfg.cipher.derive(cfg.master, d.salt)
          && d.nonce == AfterFrames(DownChannel(cfg, d), ZeroNonce(), |d.sealed|))
  }

  /** The wire is a prefix of the stream and, while it can still grow, the queue is the rest. */
  ghost predicate OnWire(cfg: Setup, d: Downlink, closing: bool)
    requires Sendable(d.sealed)
  {
    && d.wire <= Stream(cfg, d)
    && (!closing || (d.writing && d.writeOpen) ==> d.wire + Flatten(d.pending) == Stream(cfg, d))
  }

  /** Payloads are sealed in arrival order; a session that connected after closing never writes. */
  ghost predicate InOrder(d: Downlink, k: Control) {
    && (!k.closing ==> d.sealed == d.received)
    && (d.sealed <= d.received || (d.wire == [] && !(d.writing && d.writeOpen)))
    && (k.closing && k.pcb ==> d.wire == [] && !(d.writing && d.writeOpen))
    && (Monitor(k.ops) == Absent ==> d == Initial().down)
  }

  ghost predicate DataInv(cfg: Setup, d: Downlink, k: Control) {
    Keyed(cfg, d) && OnWire(cfg, d, k.closing) && InOrder(d, k)
  }

  /** The queue counter, the pause rule and the window credit. */
  ghost predicate FlowInv(d: Downlink, k: Control) {
    && d.queueBytes == |Flatten(d.pending)|
    && (!d.sentSalt ==> d.pending == [] && d.deferred == 0)
    && (d.writing ==> d.pending != [])
    && (!k.closing ==> (d.writing <==> d.pending != []))
    && (!Shut(k) && d.writing ==> d.writeOpen)
    && d.queueBytes <= CLIENT_QUEUE_HIGH_WATER + 35 * d.deferred
    && (!k.closing && k.pcb && d.deferred != 0 ==> d.queueBytes >= CLIENT_QUEUE_LOW_WATER)
    && Credited(k.ops) + d.deferred <= |Flatten(d.received)|
    && (!k.closing && k.pcb ==> Credited(k.ops) + d.deferred == |Flatten(d.received)|)
    && (Monitor(k.ops) == Absent ==> d == Initial().down && Credited(k.ops) == 0)
  }

  ghost predicate DownInv(cfg: Setup, d: Downlink, k: Control) {
    DataInv(cfg, d, k) && FlowInv(d, k)
  }

  /** Steps of the other parts keep the downlink invariant. */
  lemma QuietKeepsDown(cfg: Setup, d: Downlink, k: Control, k': Control)
    requires DownInv(cfg, d, k) && Owned(k) && Quiet(k, k')
    ensures DownInv(cfg, d, k')
  {
  }

  // ---- A payload from lwIP --------------------------------------------------------------------

  lemma SaltKeepsData(cfg: Setup, d: Downlink, k: Control, salt: Bytes)
    requires DataInv(cfg, d, k) && !d.sentSalt && |salt| == SALT_SIZE && Monitor(k.ops) != Absent
    ensures DataInv(cfg, WithSalt(cfg, d, salt), k)
  {
    assert [] + [salt] == [salt];
    FlattenSnoc([], salt);
  }

  /** Sealing one more payload extends the stream and the queue by the same frame. */
  lemma FrameExtends(cfg: Setup, d: Downlink, payload: Bytes)
    requires Sendable(d.sealed) && d.sentSalt && |payload| <= MAX_CHUNK
    requires d.nonce == AfterFrames(DownChannel(cfg, d), ZeroNonce(), |d.sealed|)
    ensures
      var e := WithFrame(cfg, d, payload);
      var frame := EncodeFrame(DownChannel(cfg, d), d.nonce, payload);
      && Sendable(e.sealed)
      && Stream(cfg, e) == Stream(cfg, d) + frame
      && Flatten(e.pending) == Flatten(d.pending) + frame
      && e.nonce == AfterFrames(DownChannel(cfg, e), ZeroNonce(), |e.sealed|)
  {
    EncodeSnoc(DownChannel(cfg, d), ZeroNonce(), d.sealed, payload);
    FlattenSnoc(d.pending, EncodeFrame(DownChannel(cfg, d), d.nonce, payload));
  }

  /** Sealing keeps the wire a prefix and the queue the rest. */
  lemma FrameKeepsWire(cfg: Setup, d: Downlink, payload: Bytes, closing: bool)
    requires Keyed(cfg, d) && OnWire(cfg, d, closing) && d.sentSalt && |payload| <= MAX_CHUNK
    ensures
      var e := WithFrame(cfg, d, payload);
      Keyed(cfg, e) && OnWire(cfg, e, closing)
  {
    hide Stream;
    hide EncodeFrame;
    hide AfterFrames;
    FrameExtends(cfg, d, payload);
    var frame := EncodeFrame(DownChannel(cfg, d), d.nonce, payload);
    assert d.wire + (Flatten(d.pending) + frame) == (d.wire + Flatten(d.pending)) + frame;
  }

  lemma StartKeepsWire(cfg: Setup, d: Downlink, closing: bool, shut: bool)
    requires Keyed(cfg, d) && OnWire(cfg, d, closing) && (closing ==> shut)
    ensures Keyed(cfg, StartWrite(d, shut)) && OnWire(cfg, StartWrite(d, shut), closing)
  {
    hide EncodeAll;
    hide AfterFrames;
    assert DownChannel(cfg, StartWrite(d, shut)) == DownChannel(cfg, d);
  }

  /** A payload accepted for the client: its data side. */
  lemma SealKeepsData(cfg: Setup, d: Downlink, k: Control, payload: Bytes)
    requires DataInv(cfg, d, k) && k.pcb && d.sentSalt && |payload| <= MAX_CHUNK && Monitor(k.ops) != Absent
    ensures DataInv(cfg, StartWrite(WithFrame(cfg, d.(received := d.received + [payload]), payload), Shut(k)), k)
  {
    hide Stream;
    hide EncodeFrame;
    hide AfterFrames;
    var d0 := d.(received := d.received + [payload]);
    ReceivedKeepsWire(cfg, d, payload, k.closing);
    FrameKeepsWire(cfg, d0, payload, k.closing);
    StartKeepsWire(cfg, WithFrame(cfg, d0, payload), k.closing, Shut(k));
  }

  lemma ReceivedKeepsWire(cfg: Setup, d: Downlink, payload: Bytes, closing: bool)
    requires Keyed(cfg, d) && OnWire(cfg, d, closing)
    ensures
      var e := d.(received := d.received + [payload]);
      Keyed(cfg, e) && OnWire(cfg, e, closing)
  {
    assert DownChannel(cfg, d.(received := d.received + [payload])) == DownChannel(cfg, d);
  }

  /** A payload that is refused closes the session; at most the salt has been queued. */
  lemma RefusedKeepsData(cfg: Setup, d: Downlink, k: Control, payload: Bytes, env: Env)
    requires DataInv(cfg, d, k) && Owned(k) && k.pcb
    ensures DataInv(cfg, d.(received := d.received + [payload]), CloseAll(k, env))
  {
    hide EncodeAll;
    hide AfterFrames;
    CloseAllKeeps(k, env);
    assert Stream(cfg, d.(received := d.received + [payload])) == Stream(cfg, d);
  }

  lemma EnqueueKeepsData(cfg: Setup, d: Downlink, k: Control, payload: Bytes, salt: Option<Bytes>, env: Env)
    requires DataInv(cfg, d, k) && FlowInv(d, k) && Owned(k) && k.pcb && SaltSized(salt) && payload != []
    ensures
      var e := EnqueuePayload(cfg, d.(received := d.received + [payload]), payload, salt, Shut(k));
      DataInv(cfg, e.d, if e.threw then CloseAll(k, env) else k)
  {
    hide DataInv;
    hide CloseAll;
    hide WithFrame;
    hide StartWrite;
    if !d.sentSalt && salt.None? {
      RefusedKeepsData(cfg, d, k, payload, env);
    } else {
      var d1 := if d.sentSalt then d else WithSalt(cfg, d, salt.value);
      if !d.sentSalt {
        SaltKeepsData(cfg, d, k, salt.value);
      }
      RefusedKeepsData(cfg, d1, k, payload, env);
      if |payload| <= MAX_CHUNK {
        SealKeepsData(cfg, d1, k, payload);
      }
    }
  }

  /** Deferring or granting credit does not touch the stream. */
  lemma CreditKeepsData(cfg: Setup, d: Downlink, k: Control, deferred: nat, ops: seq<PcbOp>)
    requires DataInv(cfg, d, k) && Monitor(k.ops) == Live && PhaseAfter(Live, ops) == Live
    ensures DataInv(cfg, d.(deferred := deferred), k) && DataInv(cfg, d, Log(k, ops))
    ensures DataInv(cfg, d.(deferred := deferred), Log(k, ops))
  {
    hide EncodeAll;
    hide AfterFrames;
    Logged(k, ops);
    assert Stream(cfg, d.(deferred := deferred)) == Stream(cfg, d);
  }

  lemma RecvKeepsData(cfg: Setup, d: Downlink, k: Control, payload: Bytes, salt: Option<Bytes>, env: Env)
    requires DataInv(cfg, d, k) && FlowInv(d, k) && Owned(k) && k.pcb && SaltSized(salt)
    ensures
      var r := Recv(cfg, d, k, payload, salt, env);
      DataInv(cfg, r.d, r.k)
  {
    hide DataInv;
    hide FlowInv;
    hide EnqueuePayload;
    hide CloseAll;
    var d0 := if payload == [] then d else d.(received := d.received + [payload]);
    var e := EnqueuePayload(cfg, d0, payload, salt, Shut(k));
    if payload == [] {
      EmptyPayload(cfg, d, salt, Shut(k));
    } else {
      EnqueueKeepsData(cfg, d, k, payload, salt, env);
    }
    if !e.threw {
      One(Live, Recved(|payload|));
      CreditKeepsData(cfg, e.d, k, e.d.deferred + |payload|, [Recved(|payload|)]);
    }
  }

  lemma EmptyPayload(cfg: Setup, d: Downlink, salt: Option<Bytes>, shut: bool)
    ensures EnqueuePayload(cfg, d, [], salt, shut) == Enqueued(d, false)
  {
  }

  /** What enqueuing does to the queue counter. */
  lemma EnqueueCounts(cfg: Setup, d: Downlink, payload: Bytes, salt: Option<Bytes>, shut: bool)
    requires d.queueBytes == |Flatten(d.pending)| && payload != [] && SaltSized(salt)
    requires (!d.sentSalt ==> d.pending == []) && (d.writing ==> d.pending != [])
    ensures
      var e := EnqueuePayload(cfg, d, payload, salt, shut);
      && e.d.queueBytes == |Flatten(e.d.pending)| && e.d.deferred == d.deferred && e.d.received == d.received
      && (e.d.writing ==> e.d.pending != [])
      && d.queueBytes <= e.d.queueBytes
      && e.d.queueBytes <= (if d.sentSalt then d.queueBytes else SALT_SIZE) + (if e.threw then 0 else |payload| + FRAME_OVERHEAD)
      && (!e.threw ==> |payload| <= MAX_CHUNK && e.d.sentSalt && e.d.writing && e.d.pending != [])
      && (!e.threw && (d.writing ==> d.writeOpen) ==> (shut || e.d.writeOpen))
      && (!e.d.sentSalt ==> e.d == d)
  {
    var d1 := if d.sentSalt || salt.None? then d else WithSalt(cfg, d, salt.value);
    if !d.sentSalt && salt.Some? {
      FlattenSnoc(d.pending, salt.value);
    }
    if |payload| <= MAX_CHUNK {
      FlattenSnoc(d1.pending, EncodeFrame(DownChannel(cfg, d1), d1.nonce, payload));
    }
  }

  /** The bound: a queued payload costs at most 34 bytes more than the credit it withholds. */
  lemma QueuedKeepsFlow(d: Downlink, k: Control, e: Downlink, received: nat)
    requires FlowInv(d, k) && Owned(k) && k.pcb && e.sentSalt && e.writing && e.pending != []
    requires e.queueBytes == |Flatten(e.pending)| && e.deferred == d.deferred && 0 < received <= MAX_CHUNK
    requires |Flatten(e.received)| == |Flatten(d.received)| + received
    requires d.queueBytes <= e.queueBytes <= (if d.sentSalt then d.queueBytes else SALT_SIZE) + received + FRAME_OVERHEAD
    requires Shut(k) || e.writeOpen
    ensures
      if e.queueBytes > CLIENT_QUEUE_HIGH_WATER then FlowInv(e.(deferred := e.deferred + received), k)
      else FlowInv(e, Log(k, [Recved(received)])) && Owned(Log(k, [Recved(received)]))
  {
    hide Flatten;
    Logged(k, [Recved(received)]);
    One(Live, Recved(received));
  }

  lemma RefusedKeepsFlow(d: Downlink, k: Control, e: Downlink, env: Env)
    requires FlowInv(d, k) && Owned(k) && k.pcb
    requires e.queueBytes == |Flatten(e.pending)| && e.deferred == d.deferred && (e.writing ==> e.pending != [])
    requires (!e.sentSalt ==> e.pending == [] && !d.sentSalt) && |Flatten(e.received)| >= |Flatten(d.received)|
    requires e.queueBytes <= if d.sentSalt then d.queueBytes else SALT_SIZE
    ensures FlowInv(e, CloseAll(k, env)) && Owned(CloseAll(k, env))
  {
    hide Flatten;
    hide CloseAll;
    CloseAllKeeps(k, env);
  }

  lemma RecvKeepsFlow(cfg: Setup, d: Downlink, k: Control, payload: Bytes, salt: Option<Bytes>, env: Env)
    requires FlowInv(d, k) && Owned(k) && k.pcb && SaltSized(salt)
    ensures
      var r := Recv(cfg, d, k, payload, salt, env);
      FlowInv(r.d, r.k) && Owned(r.k)
  {
    hide EnqueuePayload;
    hide Flatten;
    hide CloseAll;
    hide Credited;
    hide Monitor;
    if payload == [] {
      EmptyPayload(cfg, d, salt, Shut(k));
      Logged(k, [Recved(0)]);
      One(Live, Recved(0));
    } else {
      var d0 := d.(received := d.received + [payload]);
      FlattenSnoc(d.received, payload);
      EnqueueCounts(cfg, d0, payload, salt, Shut(k));
      var e := EnqueuePayload(cfg, d0, payload, salt, Shut(k));
      if e.threw {
        RefusedKeepsFlow(d, k, e.d, env);
      } else {
        QueuedKeepsFlow(d, k, e.d, |payload|);
      }
    }
  }

  // ---- A completed write ----------------------------------------------------------------------

  /** The drain loop credits exactly the deferred amount, in pieces that fit 16 bits. */
  lemma {:induction false} CreditOpsExact(n: nat)
    ensures Credited(CreditOps(n)) == n && PhaseAfter(Live, CreditOps(n)) == Live
    ensures forall i :: 0 <= i < |CreditOps(n)| ==> CreditOps(n)[i].Recved? && 0 < CreditOps(n)[i].n <= 0xffff
  {
    if n > 0 {
      var piece := if n < 0xffff then n else 0xffff;
      CreditOpsExact(n - piece);
      assert CreditOps(n)[1..] == CreditOps(n - piece);
    }
  }

  /** A failed write may have moved part of its buffer; the session closes. */
  lemma FailedWriteKeepsData(cfg: Setup, d: Downlink, k: Control, n: nat, env: Env)
    requires DataInv(cfg, d, k) && Owned(k) && d.writing && d.pending != [] && n <= |d.pending[0]|
    requires !d.writeOpen ==> n == 0
    ensures DataInv(cfg, d.(writing := false, wire := d.wire + d.pending[0][..n]), CloseAll(k, env))
  {
    hide EncodeAll;
    hide AfterFrames;
    CloseAllKeeps(k, env);
    var front := d.pending[0];
    var e := d.(writing := false, wire := d.wire + front[..n]);
    assert Stream(cfg, e) == Stream(cfg, d);
    assert d.wire + Flatten(d.pending) == e.wire + (front[n..] + Flatten(d.pending[1..]));
  }

  /** A full write moves the front buffer onto the wire. */
  lemma FrontWrittenKeepsData(cfg: Setup, d: Downlink, k: Control)
    requires DataInv(cfg, d, k) && d.writing && d.writeOpen && d.pending != []
    ensures
      var n := |d.pending[0]|;
      DataInv(cfg, StartWrite(d.(writing := false, wire := d.wire + d.pending[0][..n], queueBytes := d.queueBytes - n,
                                 pending := d.pending[1..]), Shut(k)), k)
  {
    hide EncodeAll;
    hide AfterFrames;
    var front := d.pending[0];
    var e := d.(writing := false, wire := d.wire + front[..|front|], queueBytes := d.queueBytes - |front|,
                pending := d.pending[1..]);
    assert front[..|front|] == front;
    assert Stream(cfg, StartWrite(e, Shut(k))) == Stream(cfg, d);
    assert d.wire + Flatten(d.pending) == e.wire + Flatten(e.pending);
  }

  lemma WriteDoneKeepsData(cfg: Setup, d: Downlink, k: Control, ok: bool, n: nat, env: Env)
    requires DataInv(cfg, d, k) && Owned(k) && d.writing && d.pending != [] && n <= |d.pending[0]|
    requires (ok ==> n == |d.pending[0]| && d.writeOpen) && (!d.writeOpen ==> n == 0)
    ensures
      var r := WriteDone(d, k, ok, n, env);
      DataInv(cfg, r.d, r.k)
  {
    hide DataInv;
    hide CloseAll;
    if !ok {
      FailedWriteKeepsData(cfg, d, k, n, env);
    } else {
      var e := StartWrite(d.(writing := false, wire := d.wire + d.pending[0][..n], queueBytes := d.queueBytes - n,
                             pending := d.pending[1..]), Shut(k));
      FrontWrittenKeepsData(cfg, d, k);
      if k.pcb {
        CreditOpsExact(d.deferred);
        CreditKeepsData(cfg, e, k, 0, CreditOps(d.deferred));
      }
    }
  }

  lemma WriteDoneKeepsFlow(d: Downlink, k: Control, ok: bool, n: nat, env: Env)
    requires FlowInv(d, k) && Owned(k) && d.writing && n <= |d.pending[0]| && (ok ==> n == |d.pending[0]|)
    ensures
      var r := WriteDone(d, k, ok, n, env);
      FlowInv(r.d, r.k) && Owned(r.k)
  {
    hide CloseAll;
    hide CreditOps;
    hide Credited;
    hide Monitor;
    CloseAllKeeps(k, env);
    if ok {
      Logged(k, CreditOps(d.deferred));
      CreditOpsExact(d.deferred);
    }
  }
}
