/**
 In-flight DNS queries: a resolve ends in a response, a timeout, a send failure or a stop,
 in any order. Every resolve is given a handle, standing for its callback and its pcb. Posts
 to the event loop and removed pcbs are recorded, so that "once" can be stated.
 */
module DnsTable {
  import opened ByteStrings
  import opened DnsCodec

  datatype Err = Ok | Timeout | BadResponse | NoMemory | NoRoute | SendFailed

  /** A callback handed to the event loop. */
  datatype Post = Post(handle: nat, err: Err, address: Option<Bytes>)

  datatype Query = Query(handle: nat, qtype: nat)

  /** A wait that may still fire: whose it is, the identifier it will complete, its lifetime token. */
  datatype Timer = Timer(handle: nat, id: nat, epoch: nat)

  /** `epoch` and `alive` are the identity and the value of the lifetime token. */
  datatype Runtime = Runtime(
    table: map<nat, Query>,
    epoch: nat,
    alive: bool,
    next: nat,                  // trace: handles given so far
    timers: set<Timer>,         // trace
    posts: seq<Post>,           // trace
    created: set<nat>,           // trace: handles whose pcb was created
    removed: multiset<nat>)     // trace: handles whose pcb was removed

  function Start(): Runtime {
    Runtime(map[], 0, true, 0, {}, [], {}, multiset{})
  }

  datatype Server = NoServer | BadServer | ServerFor(qtype: nat)

  /** What a call of the resolver meets; the identifier comes from a counter shared by all runtimes. */
  datatype Request = Request(host: Bytes, literal: Option<Bytes>, server: Server, pcbOk: bool, sendOk: bool, id: nat)

  function PostTo(rt: Runtime, p: Post): Runtime {
    rt.(posts := rt.posts + [p])
  }

  function Complete(rt: Runtime, id: nat, err: Err, address: Option<Bytes>): Runtime {
    if id !in rt.table then rt
    else
      var h := rt.table[id].handle;
      PostTo(rt.(table := rt.table - {id}, removed := rt.removed + multiset{h}), Post(h, err, address))
  }

  datatype Called = Returned(rt: Runtime) | Threw(rt: Runtime)

  /** The runtime once a query has its pcb and, if its identifier is free, its entry. */
  function Registered(rt: Runtime, h: nat, qtype: nat, id: nat): Runtime {
    rt.(created := rt.created + {h}, table := if id !in rt.table then rt.table[id := Query(h, qtype)] else rt.table)
  }

  /** A resolve that got past the literal, server and pcb tests. */
  function Send(rt: Runtime, h: nat, qtype: nat, r: Request): Called {
    var rt1 := Registered(rt, h, qtype, r.id);
    if HostLabels(r.host).None? then Threw(rt1)
    else if !r.sendOk then Returned(Complete(rt1, r.id, SendFailed, None))
    else if r.id !in rt.table then Returned(rt1.(timers := rt1.timers + {Timer(h, r.id, rt1.epoch)}))
    else Returned(rt1)
  }

  /** The runtime once a resolve has its token and its handle. */
  function Begun(rt: Runtime): Runtime {
    rt.(epoch := if rt.alive then rt.epoch else rt.epoch + 1, alive := true, next := rt.next + 1)
  }

  function Resolve(rt: Runtime, r: Request): Called {
    var h := rt.next;
    var rt0 := Begun(rt);
    if r.literal.Some? then Returned(PostTo(rt0, Post(h, Ok, r.literal)))
    else
      match r.server
      case BadServer => Threw(rt0)
      case NoServer => Returned(PostTo(rt0, Post(h, NoRoute, None)))
      case ServerFor(qtype) =>
        if !r.pcbOk then Returned(PostTo(rt0, Post(h, NoMemory, None))) else Send(rt0, h, qtype, r)
  }

  function Receive(rt: Runtime, id: nat, packet: Bytes): Runtime
    requires id in rt.table
  {
    var address := ParseResponse(packet, id, rt.table[id].qtype);
    Complete(rt, id, if address.Some? then Ok else BadResponse, address)
  }

  function Fire(rt: Runtime, t: Timer): Runtime {
    var rt1 := rt.(timers := rt.timers - {t});
    if rt.alive && t.epoch == rt.epoch then Complete(rt1, t.id, Timeout, None) else rt1
  }

  function Handles(table: map<nat, Query>): set<nat> {
    set id | id in table :: table[id].handle
  }

  function Stop(rt: Runtime): Runtime {
    rt.(alive := false, table := map[], removed := rt.removed + multiset(Handles(rt.table)))
  }

  // ---- Runs --------------------------------------------------------------------------------

  datatype Event = OnResolve(r: Request) | OnResponse(id: nat, packet: Bytes) | OnTimer(t: Timer) | OnStop

  /** A response needs a pcb with its callback attached; a timer fires at most once, even if cancelled too late. */
  predicate Enabled(rt: Runtime, e: Event) {
    match e
    case OnResolve(r) => r.id < 0x10000
    case OnResponse(id, _) => id in rt.table
    case OnTimer(t) => t in rt.timers
    case OnStop => true
  }

  function Step(rt: Runtime, e: Event): Runtime
    requires Enabled(rt, e)
  {
    match e
    case OnResolve(r) => Resolve(rt, r).rt
    case OnResponse(id, packet) => Receive(rt, id, packet)
    case OnTimer(t) => Fire(rt, t)
    case OnStop => Stop(rt)
  }

  /** The state after a run from `rt`, if every event was enabled in its turn. */
  function Run(rt: Runtime, events: seq<Event>): Option<Runtime>
    decreases |events|
  {
    if events == [] then Some(rt)
    else if Enabled(rt, events[0]) then Run(Step(rt, events[0]), events[1..])
    else None
  }

  // ---- At most once ----------------------------------------------------------------------------

  predicate Posted(rt: Runtime, h: nat) {
    exists i :: 0 <= i < |rt.posts| && rt.posts[i].handle == h
  }

  predicate InFlight(rt: Runtime, h: nat) {
    h < rt.next && h in rt.created && h !in rt.removed && !Posted(rt, h)
  }

  ghost predicate Injective(table: map<nat, Query>) {
    forall i, j :: i in table && j in table && table[i].handle == table[j].handle ==> i == j
  }

  /** In-flight handles are distinct, unposted, and hold a pcb not yet removed; nothing happens twice. */
  ghost predicate Tidy(rt: Runtime) {
    && (forall id :: id in rt.table ==> InFlight(rt, rt.table[id].handle))
    && Injective(rt.table)
    && (forall i :: 0 <= i < |rt.posts| ==> rt.posts[i].handle < rt.next)
    && (forall i, j :: 0 <= i < j < |rt.posts| ==> rt.posts[i].handle != rt.posts[j].handle)
    && (forall h :: h in rt.removed ==> rt.removed[h] == 1 && h in rt.created)
    && (forall h :: h in rt.created ==> h < rt.next)
    && (forall t :: t in rt.timers ==> t.epoch <= rt.epoch && t.handle < rt.next)
  }

  lemma PostKeeps(rt: Runtime, p: Post)
    requires Tidy(rt) && p.handle < rt.next && !Posted(rt, p.handle)
    requires forall id :: id in rt.table ==> rt.table[id].handle != p.handle
    ensures Tidy(PostTo(rt, p))
  {
    var rt1 := PostTo(rt, p);
    forall h | Posted(rt1, h) && h != p.handle
      ensures Posted(rt, h)
    {
      var i :| 0 <= i < |rt1.posts| && rt1.posts[i].handle == h;
      assert rt.posts[i].handle == h;
    }
  }

  lemma CompleteKeeps(rt: Runtime, id: nat, err: Err, address: Option<Bytes>)
    requires Tidy(rt)
    ensures Tidy(Complete(rt, id, err, address))
  {
    if id in rt.table {
      var h := rt.table[id].handle;
      var rt1 := rt.(table := rt.table - {id}, removed := rt.removed + multiset{h});
      assert forall h :: Posted(rt1, h) <==> Posted(rt, h);
      assert Tidy(rt1);
      PostKeeps(rt1, Post(h, err, address));
    }
  }

  lemma BegunKeeps(rt: Runtime)
    requires Tidy(rt)
    ensures Tidy(Begun(rt)) && !Posted(Begun(rt), rt.next) && rt.next !in rt.created
    ensures forall id :: id in rt.table ==> rt.table[id].handle != rt.next
  {
    var rt0 := Begun(rt);
    assert forall g :: Posted(rt0, g) <==> Posted(rt, g);
  }

  lemma ResolveKeeps(rt: Runtime, r: Request)
    requires Tidy(rt)
    ensures Tidy(Resolve(rt, r).rt)
  {
    hide Tidy;
    hide Send;
    hide Posted;
    var h := rt.next;
    BegunKeeps(rt);
    PostKeeps(Begun(rt), Post(h, Ok, r.literal));
    PostKeeps(Begun(rt), Post(h, NoRoute, None));
    PostKeeps(Begun(rt), Post(h, NoMemory, None));
    if r.server.ServerFor? {
      SendKeeps(Begun(rt), h, r.server.qtype, r);
    }
  }

  lemma RegisteredKeeps(rt: Runtime, h: nat, qtype: nat, id: nat)
    requires Tidy(rt) && h < rt.next && h !in rt.created && !Posted(rt, h)
    requires forall i :: i in rt.table ==> rt.table[i].handle != h
    ensures Tidy(Registered(rt, h, qtype, id))
  {
    var rt1 := Registered(rt, h, qtype, id);
    assert forall g :: Posted(rt1, g) <==> Posted(rt, g);
  }

  lemma ArmedKeeps(rt: Runtime, h: nat, id: nat)
    requires Tidy(rt) && h < rt.next
    ensures Tidy(rt.(timers := rt.timers + {Timer(h, id, rt.epoch)}))
  {
    var rt1 := rt.(timers := rt.timers + {Timer(h, id, rt.epoch)});
    assert forall g :: Posted(rt1, g) <==> Posted(rt, g);
  }

  lemma SendKeeps(rt: Runtime, h: nat, qtype: nat, r: Request)
    requires Tidy(rt) && h < rt.next && h !in rt.created && !Posted(rt, h)
    requires forall id :: id in rt.table ==> rt.table[id].handle != h
    ensures Tidy(Send(rt, h, qtype, r).rt)
  {
    hide Tidy;
    hide HostLabels;
    hide Complete;
    RegisteredKeeps(rt, h, qtype, r.id);
    var rt1 := Registered(rt, h, qtype, r.id);
    CompleteKeeps(rt1, r.id, SendFailed, None);
    ArmedKeeps(rt1, h, r.id);
  }

  lemma FireKeeps(rt: Runtime, t: Timer)
    requires Tidy(rt)
    ensures Tidy(Fire(rt, t))
  {
    var rt1 := rt.(timers := rt.timers - {t});
    assert forall g :: Posted(rt1, g) <==> Posted(rt, g);
    CompleteKeeps(rt1, t.id, Timeout, None);
  }

  lemma StopKeeps(rt: Runtime)
    requires Tidy(rt)
    ensures Tidy(Stop(rt))
  {
    var rt1 := Stop(rt);
    assert forall g :: Posted(rt1, g) <==> Posted(rt, g);
  }

  lemma StepKeeps(rt: Runtime, e: Event)
    requires Tidy(rt) && Enabled(rt, e)
    ensures Tidy(Step(rt, e))
  {
    hide Tidy;
    hide ParseResponse;
    match e
    case OnResolve(r) => ResolveKeeps(rt, r);
    case OnResponse(id, packet) =>
      var address := ParseResponse(packet, id, rt.table[id].qtype);
      CompleteKeeps(rt, id, if address.Some? then Ok else BadResponse, address);
    case OnTimer(t) => FireKeeps(rt, t);
    case OnStop => StopKeeps(rt);
  }

  lemma {:induction false} RunKeeps(rt: Runtime, events: seq<Event>)
    requires Tidy(rt) && Run(rt, events).Some?
    ensures Tidy(Run(rt, events).value)
    decreases |events|
  {
    hide Tidy;
    if events != [] {
      StepKeeps(rt, events[0]);
      RunKeeps(Step(rt, events[0]), events[1..]);
    }
  }

  /** Over every interleaving: no callback is posted twice, no pcb is removed twice. */
  lemma AtMostOnce(events: seq<Event>)
    requires Run(Start(), events).Some?
    ensures
      var rt := Run(Start(), events).value;
      && (forall i, j :: 0 <= i < j < |rt.posts| ==> rt.posts[i].handle != rt.posts[j].handle)
      && (forall h :: h in rt.removed ==> rt.removed[h] == 1 && h in rt.created)
      && (forall id :: id in rt.table ==> !Posted(rt, rt.table[id].handle) && rt.table[id].handle !in rt.removed)
  {
    RunKeeps(Start(), events);
  }

  // ---- Exactly once ------------------------------------------------------------------------------

  predicate Waiting(rt: Runtime, h: nat) {
    exists id :: id in rt.table && rt.table[id].handle == h
  }

  /** Nothing is lost: every handle is posted or waits with its own timer armed under the live token. */
  ghost predicate Settled(rt: Runtime) {
    && rt.alive
    && (forall h :: 0 <= h < rt.next ==> Posted(rt, h) || Waiting(rt, h))
    && (forall id :: id in rt.table ==> Timer(rt.table[id].handle, id, rt.epoch) in rt.timers)
  }

  /** No stop; every resolve returns normally and its identifier is not in flight. */
  predicate Proper(rt: Runtime, e: Event) {
    match e
    case OnResolve(r) => r.id !in rt.table && Resolve(rt, r).Returned?
    case OnStop => false
    case _ => true
  }

  predicate ProperRun(rt: Runtime, events: seq<Event>)
    decreases |events|
  {
    events == [] || (Enabled(rt, events[0]) && Proper(rt, events[0]) && ProperRun(Step(rt, events[0]), events[1..]))
  }

  lemma PostedGrows(rt: Runtime, rt': Runtime, h: nat)
    requires rt.posts <= rt'.posts && Posted(rt, h)
    ensures Posted(rt', h)
  {
    var i :| 0 <= i < |rt.posts| && rt.posts[i].handle == h;
    assert rt'.posts[i].handle == h;
  }

  lemma LastPosted(rt: Runtime, p: Post)
    ensures Posted(PostTo(rt, p), p.handle)
  {
    assert PostTo(rt, p).posts[|rt.posts|].handle == p.handle;
  }

  lemma CompleteSettles(rt: Runtime, id: nat, err: Err, address: Option<Bytes>)
    requires rt.alive && Tidy(rt)
    requires forall h :: 0 <= h < rt.next ==> Posted(rt, h) || Waiting(rt, h)
    requires forall i :: i in rt.table && i != id ==> Timer(rt.table[i].handle, i, rt.epoch) in rt.timers
    requires id in rt.table
    ensures Settled(Complete(rt, id, err, address))
  {
    var rt1 := Complete(rt, id, err, address);
    var done := rt.table[id].handle;
    LastPosted(rt.(table := rt.table - {id}, removed := rt.removed + multiset{done}), Post(done, err, address));
    forall h | 0 <= h < rt1.next
      ensures Posted(rt1, h) || Waiting(rt1, h)
    {
      if Posted(rt, h) {
        PostedGrows(rt, rt1, h);
      } else {
        var i :| i in rt.table && rt.table[i].handle == h;
        assert i != id ==> i in rt1.table;
      }
    }
  }

  lemma PostSettles(rt: Runtime, p: Post)
    requires rt.alive && p.handle + 1 == rt.next
    requires forall h :: 0 <= h < p.handle ==> Posted(rt, h) || Waiting(rt, h)
    requires forall id :: id in rt.table ==> Timer(rt.table[id].handle, id, rt.epoch) in rt.timers
    ensures Settled(PostTo(rt, p))
  {
    var rt1 := PostTo(rt, p);
    LastPosted(rt, p);
    forall h | 0 <= h < rt1.next
      ensures Posted(rt1, h) || Waiting(rt1, h)
    {
      if h < p.handle {
        if Posted(rt, h) {
          PostedGrows(rt, rt1, h);
        } else {
          var i :| i in rt.table && rt.table[i].handle == h;
          assert i in rt1.table;
        }
      }
    }
  }

  lemma SendSettles(rt: Runtime, h: nat, qtype: nat, r: Request)
    requires Tidy(rt) && rt.alive && h + 1 == rt.next && r.id !in rt.table && h !in rt.created && !Posted(rt, h)
    requires forall id :: id in rt.table ==> rt.table[id].handle != h
    requires forall g :: 0 <= g < h ==> Posted(rt, g) || Waiting(rt, g)
    requires forall id :: id in rt.table ==> Timer(rt.table[id].handle, id, rt.epoch) in rt.timers
    requires HostLabels(r.host).Some?
    ensures Settled(Send(rt, h, qtype, r).rt)
  {
    var rt1 := rt.(created := rt.created + {h}, table := rt.table[r.id := Query(h, qtype)]);
    assert forall g :: Posted(rt1, g) <==> Posted(rt, g);
    forall g | 0 <= g < rt.next
      ensures Posted(rt1, g) || Waiting(rt1, g)
    {
      if g == h {
        assert rt1.table[r.id].handle == h;
      } else if !Posted(rt, g) {
        var i :| i in rt.table && rt.table[i].handle == g;
        assert i in rt1.table && rt1.table[i].handle == g;
      }
    }
    if r.sendOk {
      var rt2 := rt1.(timers := rt1.timers + {Timer(h, r.id, rt1.epoch)});
      assert forall g :: Posted(rt2, g) <==> Posted(rt1, g);
      assert forall g :: Waiting(rt2, g) <==> Waiting(rt1, g);
    } else {
      assert Tidy(rt1);
      CompleteSettles(rt1, r.id, SendFailed, None);
    }
  }

  lemma ResolveSettles(rt: Runtime, r: Request)
    requires Tidy(rt) && Settled(rt) && Proper(rt, OnResolve(r))
    ensures Settled(Resolve(rt, r).rt)
  {
    hide Tidy;
    hide Send;
    var h := rt.next;
    BegunKeeps(rt);
    var rt0 := Begun(rt);
    assert forall g :: Posted(rt0, g) <==> Posted(rt, g);
    assert forall g :: Waiting(rt0, g) <==> Waiting(rt, g);
    if r.literal.Some? {
      PostSettles(rt0, Post(h, Ok, r.literal));
    } else if r.server == NoServer {
      PostSettles(rt0, Post(h, NoRoute, None));
    } else if !r.pcbOk {
      PostSettles(rt0, Post(h, NoMemory, None));
    } else {
      SendThrows(rt0, h, r.server.qtype, r);
      SendSettles(rt0, h, r.server.qtype, r);
    }
  }

  lemma SendThrows(rt: Runtime, h: nat, qtype: nat, r: Request)
    ensures Send(rt, h, qtype, r).Threw? <==> HostLabels(r.host).None?
  {
  }

  lemma FireSettles(rt: Runtime, t: Timer)
    requires Tidy(rt) && Settled(rt) && t in rt.timers
    ensures Settled(Fire(rt, t))
  {
    var rt1 := rt.(timers := rt.timers - {t});
    assert forall g :: Posted(rt1, g) <==> Posted(rt, g);
    assert forall g :: Waiting(rt1, g) <==> Waiting(rt, g);
    assert Tidy(rt1);
    if t.epoch == rt.epoch && t.id in rt.table {
      CompleteSettles(rt1, t.id, Timeout, None);
    }
  }

  lemma StepSettles(rt: Runtime, e: Event)
    requires Tidy(rt) && Settled(rt) && Enabled(rt, e) && Proper(rt, e)
    ensures Settled(Step(rt, e))
  {
    hide Tidy;
    hide ParseResponse;
    hide Resolve;
    hide Fire;
    match e
    case OnResolve(r) => ResolveSettles(rt, r);
    case OnResponse(id, packet) =>
      var address := ParseResponse(packet, id, rt.table[id].qtype);
      CompleteSettles(rt, id, if address.Some? then Ok else BadResponse, address);
    case OnTimer(t) => FireSettles(rt, t);
  }

  lemma {:induction false} ProperRunSettles(rt: Runtime, events: seq<Event>)
    requires Tidy(rt) && Settled(rt) && ProperRun(rt, events)
    ensures Run(rt, events).Some? && Tidy(Run(rt, events).value) && Settled(Run(rt, events).value)
    decreases |events|
  {
    hide Tidy;
    hide Settled;
    hide Proper;
    if events != [] {
      StepKeeps(rt, events[0]);
      StepSettles(rt, events[0]);
      ProperRunSettles(Step(rt, events[0]), events[1..]);
    }
  }

  /**
   With distinct in-flight identifiers, no stop and normal returns, every resolve is either
   posted, once, or still in flight with its own timer armed; never both and never neither.
   */
  lemma ExactlyOnce(events: seq<Event>, h: nat)
    requires ProperRun(Start(), events) && Run(Start(), events).Some? && h < Run(Start(), events).value.next
    ensures
      var rt := Run(Start(), events).value;
      && (Posted(rt, h) <==> !Waiting(rt, h))
      && (forall id :: id in rt.table && rt.table[id].handle == h ==> Timer(h, id, rt.epoch) in rt.timers)
  {
    ProperRunSettles(Start(), events);
  }

  /**
   A completion (by a response, a timer or a failed send) posts the callback and removes
   the pcb of the query it names, both for the first time, and touches no other query.
   */
  lemma CompletesOne(rt: Runtime, id: nat, err: Err, address: Option<Bytes>)
    requires Tidy(rt) && id in rt.table
    ensures
      var h := rt.table[id].handle;
      var after := Complete(rt, id, err, address);
      && !Posted(rt, h) && Posted(after, h) && rt.removed[h] == 0 && after.removed[h] == 1 && !Waiting(after, h)
      && (forall g :: g != h ==> (Posted(after, g) <==> Posted(rt, g)) && (Waiting(after, g) <==> Waiting(rt, g)))
  {
    var h := rt.table[id].handle;
    var after := Complete(rt, id, err, address);
    assert after.posts[|rt.posts|].handle == h;
    forall g | g != h
      ensures (Posted(after, g) <==> Posted(rt, g)) && (Waiting(after, g) <==> Waiting(rt, g))
    {
      if Posted(rt, g) {
        PostedGrows(rt, after, g);
      }
      if Posted(after, g) {
        var i :| 0 <= i < |after.posts| && after.posts[i].handle == g;
        assert rt.posts[i].handle == g;
      }
      if Waiting(rt, g) {
        var i :| i in rt.table && rt.table[i].handle == g;
        assert i in after.table;
      }
    }
  }

  /** The callback of a query gets what a response for it says: the address of a good message, or a bad response. */
  ghost predicate Answers(q: Query, id: nat, packet: Bytes, p: Post) {
    && p.handle == q.handle
    && match p.err
       case Ok => p.address.Some? && Gives(packet, id, q.qtype, p.address.value)
       case BadResponse => p.address.None? && forall address: Bytes :: !Gives(packet, id, q.qtype, address)
       case _ => false
  }

  lemma ResponseAnswers(rt: Runtime, id: nat, packet: Bytes)
    requires id in rt.table
    ensures
      var after := Receive(rt, id, packet);
      && |after.posts| == |rt.posts| + 1 && after.posts[..|rt.posts|] == rt.posts
      && Answers(rt.table[id], id, packet, after.posts[|rt.posts|])
  {
    hide ParseResponse;
    hide Gives;
    var q := rt.table[id];
    forall address: Bytes
      ensures ParseResponse(packet, id, q.qtype) == Some(address) <==> Gives(packet, id, q.qtype, address)
    {
      ParseExactly(packet, id, q.qtype, address);
    }
  }

  /** In particular, a printed good message always gives its address. */
  lemma GoodMessageAnswers(rt: Runtime, id: nat, m: Message)
    requires id in rt.table && GoodMessage(m, id, rt.table[id].qtype)
    ensures Receive(rt, id, PrintMessage(m)).posts == rt.posts + [Post(rt.table[id].handle, Ok, Some(Address(m)))]
  {
    hide ParseResponse;
    hide PrintMessage;
    hide GoodMessage;
    ParseComplete(m, id, rt.table[id].qtype);
  }

  lemma CompletesReceived(rt: Runtime, id: nat, packet: Bytes)
    requires Tidy(rt) && id in rt.table
    ensures !Posted(rt, rt.table[id].handle) && Posted(Receive(rt, id, packet), rt.table[id].handle)
  {
    hide ParseResponse;
    var address := ParseResponse(packet, id, rt.table[id].qtype);
    CompletesOne(rt, id, if address.Some? then Ok else BadResponse, address);
  }

  // ---- When a callback is lost ---------------------------------------------------------------------

  /** The callback has run, or waits with its own timer armed under the live token. */
  predicate Secured(rt: Runtime, h: nat) {
    Posted(rt, h) || exists id :: id in rt.table && rt.table[id].handle == h && Timer(h, id, rt.epoch) in rt.timers
  }

  /** No query is sent, or it is sent under a free identifier and with labels that can be printed. */
  predicate Answerable(rt: Runtime, r: Request) {
    || r.literal.Some? || r.server == NoServer
    || (r.server.ServerFor? && (!r.pcbOk || (r.id !in rt.table && HostLabels(r.host).Some?)))
  }

  lemma NewHandle(rt: Runtime)
    requires Tidy(rt)
    ensures forall i :: 0 <= i < |rt.posts| ==> rt.posts[i].handle != rt.next
    ensures forall id :: id in rt.table ==> rt.table[id].handle != rt.next
    ensures forall t :: t in rt.timers ==> t.handle != rt.next
  {
  }

  lemma AnswerableSecures(rt: Runtime, r: Request)
    requires Tidy(rt) && Answerable(rt, r)
    ensures Secured(Resolve(rt, r).rt, rt.next)
  {
    hide HostLabels;
    var after := Resolve(rt, r).rt;
    if r.literal.Some? || r.server == NoServer || !r.pcbOk || !r.sendOk {
      assert after.posts[|rt.posts|].handle == rt.next;
    } else {
      assert after.table[r.id].handle == rt.next && Timer(rt.next, r.id, after.epoch) in after.timers;
    }
  }

  lemma OthersLose(rt: Runtime, r: Request)
    requires Tidy(rt) && !Answerable(rt, r)
    ensures !Secured(Resolve(rt, r).rt, rt.next)
  {
    hide HostLabels;
    NewHandle(rt);
    var h := rt.next;
    var after := Resolve(rt, r).rt;
    assert forall i :: 0 <= i < |after.posts| ==> after.posts[i].handle != h;
    assert after.timers == rt.timers;
  }

  /** The exact condition: every other resolve neither runs its callback nor arms its timer. */
  lemma SecuredExactly(rt: Runtime, r: Request)
    requires Tidy(rt)
    ensures Secured(Resolve(rt, r).rt, rt.next) <==> Answerable(rt, r)
  {
    hide Tidy;
    hide Resolve;
    hide Secured;
    if Answerable(rt, r) {
      AnswerableSecures(rt, r);
    } else {
      OthersLose(rt, r);
    }
  }

  /** A resolve that runs some other query's callback. */
  predicate Misdirects(rt: Runtime, r: Request) {
    var after := Resolve(rt, r).rt;
    exists i :: |rt.posts| <= i < |after.posts| && after.posts[i].handle != rt.next
  }

  /** Exactly a failed send under a taken identifier does so: it tells the earlier query that its send failed. */
  lemma MisdirectsExactly(rt: Runtime, r: Request)
    requires Tidy(rt)
    ensures Misdirects(rt, r) <==>
              && r.literal.None? && r.server.ServerFor? && r.pcbOk && r.id in rt.table
              && HostLabels(r.host).Some? && !r.sendOk
    ensures Misdirects(rt, r) ==>
              && Resolve(rt, r).rt.posts == rt.posts + [Post(rt.table[r.id].handle, SendFailed, None)]
              && r.id !in Resolve(rt, r).rt.table
  {
    hide HostLabels;
    NewHandle(rt);
    var after := Resolve(rt, r).rt;
    if r.literal.None? && r.server.ServerFor? && r.pcbOk && HostLabels(r.host).Some? && !r.sendOk && r.id in rt.table {
      assert after.posts[|rt.posts|].handle == rt.table[r.id].handle;
    }
  }

  /** Neither run nor in flight. */
  predicate Lost(rt: Runtime, h: nat) {
    h < rt.next && !Posted(rt, h) && !Waiting(rt, h)
  }

  lemma LostComplete(rt: Runtime, h: nat, id: nat, err: Err, address: Option<Bytes>)
    requires Lost(rt, h)
    ensures Lost(Complete(rt, id, err, address), h)
  {
    var after := Complete(rt, id, err, address);
    assert forall i :: 0 <= i < |after.posts| ==> after.posts[i].handle != h;
  }

  lemma LostPost(rt: Runtime, h: nat, p: Post)
    requires Lost(rt, h) && p.handle != h
    ensures Lost(PostTo(rt, p), h)
  {
    assert forall i :: 0 <= i < |PostTo(rt, p).posts| ==> PostTo(rt, p).posts[i].handle != h;
  }

  /** Nor do the other fields matter, and a new entry is a new handle's. */
  lemma LostRegistered(rt: Runtime, h: nat, g: nat, qtype: nat, id: nat, timers: set<Timer>)
    requires Lost(rt, h) && g != h
    ensures Lost(Registered(rt, g, qtype, id), h) && Lost(Registered(rt, g, qtype, id).(timers := timers), h)
    ensures Lost(Begun(rt), h) && Lost(rt.(timers := timers), h)
  {
  }

  lemma LostSend(rt: Runtime, h: nat, g: nat, qtype: nat, r: Request)
    requires Lost(rt, h) && g != h
    ensures Lost(Send(rt, g, qtype, r).rt, h)
  {
    hide Lost;
    hide HostLabels;
    hide Complete;
    hide Registered;
    var rt1 := Registered(rt, g, qtype, r.id);
    LostRegistered(rt, h, g, qtype, r.id, rt1.timers + {Timer(g, r.id, rt1.epoch)});
    LostComplete(rt1, h, r.id, SendFailed, None);
  }

  lemma LostStep(rt: Runtime, h: nat, e: Event)
    requires Lost(rt, h) && Enabled(rt, e)
    ensures Lost(Step(rt, e), h)
  {
    hide ParseResponse;
    hide Complete;
    hide Send;
    hide Begun;
    hide PostTo;
    match e
    case OnResolve(r) =>
      LostRegistered(rt, h, rt.next, 0, 0, {});
      LostPost(Begun(rt), h, Post(rt.next, Ok, r.literal));
      LostPost(Begun(rt), h, Post(rt.next, NoRoute, None));
      LostPost(Begun(rt), h, Post(rt.next, NoMemory, None));
      if r.server.ServerFor? {
        LostSend(Begun(rt), h, rt.next, r.server.qtype, r);
      }
    case OnResponse(id, packet) =>
      var address := ParseResponse(packet, id, rt.table[id].qtype);
      LostComplete(rt, h, id, if address.Some? then Ok else BadResponse, address);
    case OnTimer(t) =>
      LostRegistered(rt, h, rt.next, 0, 0, rt.timers - {t});
      LostComplete(rt.(timers := rt.timers - {t}), h, t.id, Timeout, None);
    case OnStop =>
      assert Posted(Stop(rt), h) <==> Posted(rt, h);
  }

  /** A lost callback never runs, whatever happens later. */
  lemma {:induction false} LostForever(rt: Runtime, h: nat, events: seq<Event>)
    requires Lost(rt, h) && Run(rt, events).Some?
    ensures Lost(Run(rt, events).value, h)
    decreases |events|
  {
    hide Lost;
    hide Step;
    if events != [] {
      LostStep(rt, h, events[0]);
      LostForever(Step(rt, events[0]), h, events[1..]);
    }
  }

  /** A stop loses exactly the callbacks in flight. */
  lemma StopLosesExactly(rt: Runtime, h: nat)
    requires Tidy(rt) && h < rt.next
    ensures Lost(Stop(rt), h) <==> Lost(rt, h) || Waiting(rt, h)
  {
    assert Posted(Stop(rt), h) <==> Posted(rt, h);
  }

  /** The pcb was created, is not in the table and has not been removed. */
  predicate Leaked(rt: Runtime, h: nat) {
    h in rt.created && h !in rt.removed && !Waiting(rt, h)
  }

  /** A query that got its pcb but finds its identifier taken. */
  predicate FindsTaken(rt: Runtime, e: Event) {
    e.OnResolve? && e.r.literal.None? && e.r.server.ServerFor? && e.r.pcbOk && e.r.id in rt.table
  }

  lemma LeakedComplete(rt: Runtime, h: nat, id: nat, err: Err, address: Option<Bytes>)
    requires Tidy(rt)
    ensures Leaked(Complete(rt, id, err, address), h) <==> Leaked(rt, h)
  {
    var after := Complete(rt, id, err, address);
    if id in rt.table && Waiting(rt, h) && rt.table[id].handle != h {
      var i :| i in rt.table && rt.table[i].handle == h;
      assert i in after.table;
    }
  }

  /** Registering under a free identifier leaks nothing; under a taken one, exactly the new pcb. */
  lemma LeakedRegistered(rt: Runtime, h: nat, g: nat, qtype: nat, id: nat)
    requires Tidy(rt) && g !in rt.created
    ensures Leaked(Registered(rt, g, qtype, id), h) <==> Leaked(rt, h) || (h == g && id in rt.table)
  {
    var after := Registered(rt, g, qtype, id);
    if id !in rt.table && h == g {
      assert after.table[id].handle == g;
    }
    if Waiting(rt, h) {
      var i :| i in rt.table && rt.table[i].handle == h;
      assert i in after.table && after.table[i].handle == h;
    }
    if Waiting(after, h) && h != g {
      var i :| i in after.table && after.table[i].handle == h;
      assert i in rt.table;
    }
  }

  /** Only the table, the pcbs created and those removed matter. */
  lemma LeakedSame(rt: Runtime, rt': Runtime, h: nat)
    requires rt.table == rt'.table && rt.created == rt'.created && rt.removed == rt'.removed
    ensures Leaked(rt, h) <==> Leaked(rt', h)
  {
  }

  lemma LeakedSend(rt: Runtime, h: nat, g: nat, qtype: nat, r: Request)
    requires Tidy(rt) && g < rt.next && g !in rt.created && !Posted(rt, g)
    requires forall id :: id in rt.table ==> rt.table[id].handle != g
    ensures Leaked(Send(rt, g, qtype, r).rt, h) <==> Leaked(rt, h) || (h == g && r.id in rt.table)
  {
    hide Leaked;
    hide Tidy;
    hide HostLabels;
    hide Complete;
    var rt1 := Registered(rt, g, qtype, r.id);
    RegisteredKeeps(rt, g, qtype, r.id);
    LeakedRegistered(rt, h, g, qtype, r.id);
    LeakedComplete(rt1, h, r.id, SendFailed, None);
    LeakedSame(rt1, rt1.(timers := rt1.timers + {Timer(g, r.id, rt1.epoch)}), h);
  }

  lemma DisarmKeeps(rt: Runtime, t: Timer)
    requires Tidy(rt)
    ensures Tidy(rt.(timers := rt.timers - {t}))
  {
    assert forall g :: Posted(rt.(timers := rt.timers - {t}), g) <==> Posted(rt, g);
  }

  lemma LeakedStop(rt: Runtime, h: nat)
    ensures Leaked(Stop(rt), h) <==> Leaked(rt, h)
  {
    if Waiting(rt, h) {
      var i :| i in rt.table && rt.table[i].handle == h;
      assert h in Handles(rt.table);
    }
  }

  /** A pcb leaks exactly when its query finds its identifier taken; no event takes a leak back. */
  lemma LeaksExactly(rt: Runtime, e: Event, h: nat)
    requires Tidy(rt) && Enabled(rt, e)
    ensures Leaked(Step(rt, e), h) <==> Leaked(rt, h) || (h == rt.next && FindsTaken(rt, e))
  {
    hide Leaked;
    hide Tidy;
    hide ParseResponse;
    hide Complete;
    hide Send;
    match e
    case OnResolve(r) =>
      BegunKeeps(rt);
      LeakedSame(rt, Begun(rt), h);
      if r.literal.None? && r.server.ServerFor? && r.pcbOk {
        LeakedSend(Begun(rt), h, rt.next, r.server.qtype, r);
      } else {
        LeakedSame(Begun(rt), Resolve(rt, r).rt, h);
      }
    case OnResponse(id, packet) =>
      var address := ParseResponse(packet, id, rt.table[id].qtype);
      LeakedComplete(rt, h, id, if address.Some? then Ok else BadResponse, address);
    case OnTimer(t) =>
      var rt1 := rt.(timers := rt.timers - {t});
      DisarmKeeps(rt, t);
      LeakedSame(rt, rt1, h);
      LeakedComplete(rt1, h, t.id, Timeout, None);
    case OnStop => LeakedStop(rt, h);
  }

  /** A leaked pcb is never removed, not even by a stop. */
  lemma {:induction false} LeakedForever(rt: Runtime, h: nat, events: seq<Event>)
    requires Tidy(rt) && Leaked(rt, h) && Run(rt, events).Some?
    ensures Leaked(Run(rt, events).value, h)
    decreases |events|
  {
    hide Leaked;
    hide Tidy;
    hide Step;
    if events != [] {
      StepKeeps(rt, events[0]);
      LeaksExactly(rt, events[0], h);
      LeakedForever(Step(rt, events[0]), h, events[1..]);
    }
  }

  // ---- Runs that lose a callback -------------------------------------------------------------------

  /** Host "a" through a server, and the host "." whose label cannot be printed. */
  function Ask(host: Bytes, server: Server, sendOk: bool): Event {
    OnResolve(Request(host, None, server, true, sendOk, 7))
  }

  lemma HostsPrint()
    ensures HostLabels([97]).Some? && HostLabels([46]).None?
  {
  }

  lemma RunTwo(rt: Runtime, a: Event, b: Event)
    requires Enabled(rt, a) && Enabled(Step(rt, a), b)
    ensures Run(rt, [a]) == Some(Step(rt, a)) && Run(rt, [a, b]) == Some(Step(Step(rt, a), b))
  {
    hide Step;
    hide Enabled;
    assert [a, b][1..] == [b] && [a][1..] == [] && [b][1..] == [];
    assert Run(Step(rt, a), [b]) == Some(Step(Step(rt, a), b));
  }

  /**
   From the start: a second query under a taken identifier is lost, and if its send fails
   the first is told so; a label that cannot be printed waits without a timer; an
   unreadable server address is lost.
   */
  lemma CallbacksLost()
    ensures
      var end := Run(Start(), [Ask([97], ServerFor(1), true), Ask([97], ServerFor(1), true)]);
      end.Some? && end.value.next == 2 && Lost(end.value, 1)
    ensures
      var end := Run(Start(), [Ask([97], ServerFor(1), true), Ask([97], ServerFor(1), false)]);
      end.Some? && end.value.next == 2 && Lost(end.value, 1) && end.value.posts == [Post(0, SendFailed, None)]
    ensures
      var end := Run(Start(), [Ask([46], ServerFor(1), true)]);
      end.Some? && end.value.next == 1 && Waiting(end.value, 0) && end.value.timers == {} && end.value.posts == []
    ensures
      var end := Run(Start(), [Ask([97], BadServer, true)]);
      end.Some? && end.value.next == 1 && Lost(end.value, 0)
  {
    hide HostLabels;
    HostsPrint();
    var first := Ask([97], ServerFor(1), true);
    var one := Step(Start(), first);
    assert one.table[7] == Query(0, 1);
    RunTwo(Start(), first, Ask([97], ServerFor(1), true));
    RunTwo(Start(), first, Ask([97], ServerFor(1), false));
    var two := Step(one, Ask([97], ServerFor(1), false));
    assert two.posts == [Post(0, SendFailed, None)];
    var dot := Ask([46], ServerFor(1), true);
    RunTwo(Start(), dot, dot);
    assert Step(Start(), dot).table[7].handle == 0;
    RunTwo(Start(), Ask([97], BadServer, true), first);
  }

  // ---- Stale timers --------------------------------------------------------------------------------

  predicate Outlived(rt: Runtime, epoch: nat) {
    epoch < rt.epoch || (epoch == rt.epoch && !rt.alive)
  }

  lemma {:induction false} OutlivedStays(rt: Runtime, epoch: nat, events: seq<Event>)
    requires Outlived(rt, epoch) && Run(rt, events).Some?
    ensures Outlived(Run(rt, events).value, epoch)
    decreases |events|
  {
    hide ParseResponse;
    hide HostLabels;
    if events != [] {
      OutlivedStays(Step(rt, events[0]), epoch, events[1..]);
    }
  }

  /** A timer armed before a stop completes nothing after it, whatever is resolved in between. */
  lemma StaleTimerHarmless(rt: Runtime, t: Timer, events: seq<Event>)
    requires Tidy(rt) && t in rt.timers && Run(Stop(rt), events).Some?
    ensures
      var later := Run(Stop(rt), events).value;
      Fire(later, t) == later.(timers := later.timers - {t})
  {
    OutlivedStays(Stop(rt), rt.epoch, events);
  }

  // ---- The runtime object ----------------------------------------------------------------------------

  ghost predicate Reachable(rt: Runtime) {
    exists events: seq<Event> :: Run(Start(), events) == Some(rt)
  }

  lemma {:induction false} RunSnoc(rt: Runtime, events: seq<Event>, e: Event)
    requires Run(rt, events).Some? && Enabled(Run(rt, events).value, e)
    ensures Run(rt, events + [e]) == Some(Step(Run(rt, events).value, e))
    decreases |events|
  {
    hide Step;
    if events == [] {
      assert [] + [e] == [e] && [e][1..] == [];
      assert Run(Step(rt, e), []) == Some(Step(rt, e));
    } else {
      assert (events + [e])[1..] == events[1..] + [e];
      RunSnoc(Step(rt, events[0]), events[1..], e);
    }
  }

  lemma ReachableStep(rt: Runtime, e: Event)
    requires Reachable(rt) && Enabled(rt, e)
    ensures Tidy(rt) && Reachable(Step(rt, e))
  {
    hide Step;
    hide Tidy;
    var events :| Run(Start(), events) == Some(rt);
    RunSnoc(Start(), events, e);
    assert Tidy(Start()) by {
      StartTidy();
    }
    RunKeeps(Start(), events);
  }

  lemma StartTidy()
    ensures Tidy(Start())
  {
  }

  /**
   The resolver part of `LwipRuntime`, with the fields its methods update. Its state is
   always one that some run reaches, so what is proved of runs holds of it.
   */
  class LwipRuntime {
    var queries: map<nat, Query>
    var token: nat
    var tokenAlive: bool
    ghost var next: nat
    ghost var timers: set<Timer>
    ghost var posts: seq<Post>
    ghost var created: set<nat>
    ghost var removed: multiset<nat>

    ghost function State(): Runtime
      reads this
    {
      Runtime(queries, token, tokenAlive, next, timers, posts, created, removed)
    }

    ghost predicate Valid()
      reads this
    {
      Reachable(State())
    }

    constructor ()
      ensures Valid() && State() == Start()
    {
      queries, token, tokenAlive := map[], 0, true;
      next, timers, posts, created, removed := 0, {}, [], {}, multiset{};
      new;
      assert Run(Start(), []) == Some(State());
    }

    method CompleteDnsQuery(id: nat, err: Err, address: Option<Bytes>)
      modifies this
      ensures State() == Complete(old(State()), id, err, address)
    {
      if id !in queries {
        return;
      }
      var query := queries[id];
      queries := queries - {id};
      removed := removed + multiset{query.handle};
      posts := posts + [Post(query.handle, err, address)];
    }

    /** Registers the query, prints and sends it, and arms its timer; an insertion that finds its key taken does nothing. */
    method SendQuery(r: Request, handle: nat, qtype: nat) returns (threw: bool)
      requires r.id < 0x10000 && qtype < 0x10000
      modifies this
      ensures Send(old(State()), handle, qtype, r) == if threw then Threw(State()) else Returned(State())
    {
      hide HostLabels;
      created := created + {handle};
      var inserted := r.id !in queries;
      if inserted {
        queries := queries[r.id := Query(handle, qtype)];
      }
      var packet := MakeDnsQuery(r.id, r.host, qtype);
      if packet.None? {
        return true;
      }
      if !r.sendOk {
        CompleteDnsQuery(r.id, SendFailed, None);
        return false;
      }
      if inserted {
        timers := timers + {Timer(handle, r.id, token)};
      }
      return false;
    }

    /** `handle` names the callback the caller passes in. */
    method AsyncResolve(r: Request, handle: nat) returns (threw: bool)
      requires Valid() && handle == next && r.id < 0x10000 && (r.server.ServerFor? ==> r.server.qtype < 0x10000)
      modifies this
      ensures Valid() && Resolve(old(State()), r) == if threw then Threw(State()) else Returned(State())
      ensures Secured(State(), handle) <==> Answerable(old(State()), r)
    {
      hide Send;
      hide Secured;
      hide Answerable;
      hide Reachable;
      ReachableStep(State(), OnResolve(r));
      SecuredExactly(State(), r);
      next := next + 1;
      if !tokenAlive {
        token := token + 1;
        tokenAlive := true;
      }
      if r.literal.Some? {
        posts := posts + [Post(handle, Ok, r.literal)];
        return false;
      }
      if r.server == BadServer {
        return true;
      }
      if r.server == NoServer {
        posts := posts + [Post(handle, NoRoute, None)];
        return false;
      }
      if !r.pcbOk {
        posts := posts + [Post(handle, NoMemory, None)];
        return false;
      }
      threw := SendQuery(r, handle, r.server.qtype);
    }

    method DnsRecv(id: nat, packet: Bytes)
      requires Valid() && id in queries
      modifies this
      ensures Valid() && State() == Receive(old(State()), id, packet)
      ensures !Posted(old(State()), old(queries)[id].handle) && Posted(State(), old(queries)[id].handle)
      ensures |posts| == |old(posts)| + 1 && Answers(old(queries)[id], id, packet, posts[|old(posts)|])
    {
      hide Reachable;
      hide Posted;
      hide Answers;
      ResponseAnswers(State(), id, packet);
      ReachableStep(State(), OnResponse(id, packet));
      CompletesReceived(State(), id, packet);
      var address := ParseDnsResponse(packet, id, queries[id].qtype);
      CompleteDnsQuery(id, if address.Some? then Ok else BadResponse, address);
    }

    method OnTimeout(t: Timer)
      requires Valid() && t in timers
      modifies this
      ensures Valid() && State() == Fire(old(State()), t)
    {
      hide Reachable;
      ReachableStep(State(), OnTimer(t));
      timers := timers - {t};
      if tokenAlive && t.epoch == token {
        CompleteDnsQuery(t.id, Timeout, None);
      }
    }

    /** The removal loop of `stop`: every pcb of the queries taken, each once. */
    method RemovePcbs(queriesTaken: map<nat, Query>)
      requires Injective(queriesTaken)
      modifies this`removed
      ensures removed == old(removed) + multiset(Handles(queriesTaken))
    {
      var taken := queriesTaken;
      assert Handles(map[]) == {};
      while taken != map[]
        invariant Injective(taken) && removed + multiset(Handles(taken)) == old(removed) + multiset(Handles(queriesTaken))
        decreases |taken|
      {
        var id :| id in taken;
        HandlesMinus(taken, id);
        removed := removed + multiset{taken[id].handle};
        taken := taken - {id};
      }
    }

    /** Empties the table, then removes every pcb it held. */
    method StopAll()
      requires Valid()
      modifies this
      ensures Valid() && State() == Stop(old(State()))
      ensures forall h :: h in removed ==> removed[h] == 1
    {
      hide Reachable;
      ReachableStep(State(), OnStop);
      StopKeeps(State());
      tokenAlive := false;
      var taken := queries;
      queries := map[];
      RemovePcbs(taken);
    }
  }

  /** Taking one query out of an injective table takes out one handle. */
  lemma HandlesMinus(table: map<nat, Query>, id: nat)
    requires id in table && Injective(table)
    ensures multiset(Handles(table)) == multiset(Handles(table - {id})) + multiset{table[id].handle}
    ensures |table - {id}| < |table| && Injective(table - {id})
  {
    var rest := table - {id};
    forall h | h in Handles(table)
      ensures h in Handles(rest) + {table[id].handle}
    {
      var i :| i in table && table[i].handle == h;
      assert i != id ==> i in rest && rest[i].handle == h;
    }
    assert Handles(table) == Handles(rest) + {table[id].handle};
    assert table[id].handle !in Handles(rest);
    assert rest.Keys == table.Keys - {id};
  }
}
