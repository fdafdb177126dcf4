/**
 What the callbacks of the resolver are given, over whole runs: every post is accounted for
 by the request it belongs to and by an event that happened.
 */
module DnsHistory {
  import opened ByteStrings
  import opened DnsCodec
  import opened DnsTable

  /** What a resolve posts at once, and to whom. */
  function ResolvePosts(rt: Runtime, r: Request): seq<Post> {
    var h := rt.next;
    if r.literal.Some? then [Post(h, Ok, r.literal)]
    else if r.server == NoServer then [Post(h, NoRoute, None)]
    else if r.server == BadServer then []
    else if !r.pcbOk then [Post(h, NoMemory, None)]
    else if HostLabels(r.host).None? || r.sendOk then []
    else [Post(if r.id in rt.table then rt.table[r.id].handle else h, SendFailed, None)]
  }

  /** A timer that still counts completes its identifier. */
  function TimerPosts(rt: Runtime, t: Timer): seq<Post> {
    if rt.alive && t.epoch == rt.epoch && t.id in rt.table then [Post(rt.table[t.id].handle, Timeout, None)] else []
  }

  /** For every event: exactly what is posted. */
  lemma PostsExactly(rt: Runtime, e: Event)
    requires Enabled(rt, e)
    ensures
      var posts := Step(rt, e).posts;
      match e
      case OnResolve(r) => posts == rt.posts + ResolvePosts(rt, r)
      case OnResponse(id, packet) =>
        |posts| == |rt.posts| + 1 && posts[..|rt.posts|] == rt.posts && Answers(rt.table[id], id, packet, posts[|rt.posts|])
      case OnTimer(t) => posts == rt.posts + TimerPosts(rt, t)
      case OnStop => posts == rt.posts
  {
    hide HostLabels;
    hide Receive;
    hide Answers;
    if e.OnResponse? {
      ResponseAnswers(rt, e.id, e.packet);
    }
  }

  // ---- Requests ------------------------------------------------------------------------------------

  /** The requests of a run; the handle of a request is its index. */
  function Requests(events: seq<Event>): seq<Request> {
    if events == [] then []
    else
      var last := events[|events| - 1];
      Requests(events[..|events| - 1]) + if last.OnResolve? then [last.r] else []
  }

  /** The request went out to a server. */
  predicate Asked(r: Request) {
    r.literal.None? && r.server.ServerFor? && r.pcbOk
  }

  ghost predicate Responded(events: seq<Event>, r: Request, address: Bytes)
    requires Asked(r)
  {
    exists i :: 0 <= i < |events| && events[i].OnResponse? && events[i].id == r.id
                && Gives(events[i].packet, r.id, r.server.qtype, address)
  }

  ghost predicate RespondedBadly(events: seq<Event>, r: Request)
    requires Asked(r)
  {
    exists i :: 0 <= i < |events| && events[i].OnResponse? && events[i].id == r.id
                && forall address: Bytes :: !Gives(events[i].packet, r.id, r.server.qtype, address)
  }

  predicate TimedOut(events: seq<Event>, id: nat) {
    exists i :: 0 <= i < |events| && events[i].OnTimer? && events[i].t.id == id
  }

  predicate SendRefused(events: seq<Event>, id: nat) {
    exists i :: 0 <= i < |events| && events[i].OnResolve? && Asked(events[i].r) && events[i].r.id == id && !events[i].r.sendOk
  }

  /** The post belongs to a request of the run and says what happened to it. */
  ghost predicate Explained(events: seq<Event>, p: Post) {
    && p.handle < |Requests(events)|
    && var r := Requests(events)[p.handle];
       && (p.address.Some? <==> p.err == Ok)
       && match p.err
          case Ok => if r.literal.Some? then p.address == r.literal else Asked(r) && Responded(events, r, p.address.value)
          case NoRoute => r.literal.None? && r.server == NoServer
          case NoMemory => r.literal.None? && r.server.ServerFor? && !r.pcbOk
          case SendFailed => Asked(r) && SendRefused(events, r.id)
          case BadResponse => Asked(r) && RespondedBadly(events, r)
          case Timeout => Asked(r) && TimedOut(events, r.id)
  }

  /** A query in flight is that of the request with its handle. */
  ghost predicate Matched(events: seq<Event>, id: nat, q: Query) {
    && q.handle < |Requests(events)|
    && var r := Requests(events)[q.handle];
       Asked(r) && r.id == id && r.server.qtype == q.qtype
  }

  ghost predicate Recorded(rt: Runtime, events: seq<Event>) {
    && rt.next == |Requests(events)|
    && (forall id :: id in rt.table ==> Matched(events, id, rt.table[id]))
    && (forall i :: 0 <= i < |rt.posts| ==> Explained(events, rt.posts[i]))
  }

  // ---- Every step ------------------------------------------------------------------------------------

  lemma RequestsSnoc(events: seq<Event>, e: Event)
    ensures Requests(events + [e]) == Requests(events) + if e.OnResolve? then [e.r] else []
  {
    assert (events + [e])[..|events|] == events;
  }

  lemma ExplainedLater(events: seq<Event>, e: Event, p: Post)
    requires Explained(events, p)
    ensures Explained(events + [e], p)
  {
    hide Gives;
    RequestsSnoc(events, e);
    var more := events + [e];
    assert forall i :: 0 <= i < |events| ==> more[i] == events[i];
    var r := Requests(events)[p.handle];
    if p.err == Ok && r.literal.None? {
      var i :| 0 <= i < |events| && events[i].OnResponse? && events[i].id == r.id
               && Gives(events[i].packet, r.id, r.server.qtype, p.address.value);
      assert more[i].OnResponse?;
    } else if p.err == BadResponse {
      var i :| 0 <= i < |events| && events[i].OnResponse? && events[i].id == r.id
               && forall address: Bytes :: !Gives(events[i].packet, r.id, r.server.qtype, address);
      assert more[i].OnResponse?;
    } else if p.err == Timeout {
      var i :| 0 <= i < |events| && events[i].OnTimer? && events[i].t.id == r.id;
      assert more[i].OnTimer?;
    } else if p.err == SendFailed {
      var i :| 0 <= i < |events| && events[i].OnResolve? && Asked(events[i].r) && events[i].r.id == r.id && !events[i].r.sendOk;
      assert more[i].OnResolve?;
    }
  }

  lemma MatchedLater(events: seq<Event>, e: Event, id: nat, q: Query)
    requires Matched(events, id, q)
    ensures Matched(events + [e], id, q)
  {
    RequestsSnoc(events, e);
  }

  /** A response is given to the request of the query in flight. */
  lemma AnswerExplained(events: seq<Event>, e: Event, q: Query, p: Post)
    requires e.OnResponse? && Matched(events, e.id, q) && Answers(q, e.id, e.packet, p)
    ensures Explained(events + [e], p)
  {
    hide Gives;
    RequestsSnoc(events, e);
    assert (events + [e])[|events|] == e;
  }

  lemma TimeoutExplained(events: seq<Event>, e: Event, q: Query)
    requires e.OnTimer? && Matched(events, e.t.id, q)
    ensures Explained(events + [e], Post(q.handle, Timeout, None))
  {
    RequestsSnoc(events, e);
    assert (events + [e])[|events|] == e;
  }

  lemma ResolveExplained(rt: Runtime, events: seq<Event>, e: Event)
    requires Recorded(rt, events) && e.OnResolve?
    ensures forall i :: 0 <= i < |ResolvePosts(rt, e.r)| ==> Explained(events + [e], ResolvePosts(rt, e.r)[i])
  {
    hide HostLabels;
    RequestsSnoc(events, e);
    assert (events + [e])[|events|] == e;
    if e.r.id in rt.table {
      assert Matched(events, e.r.id, rt.table[e.r.id]);
    }
  }

  /** The table after a step holds old entries, and after a resolve that got its pcb perhaps its own. */
  lemma TableStep(rt: Runtime, e: Event, id: nat)
    requires Enabled(rt, e) && id in Step(rt, e).table
    ensures
      || (id in rt.table && Step(rt, e).table[id] == rt.table[id])
      || (e.OnResolve? && Asked(e.r) && id == e.r.id && Step(rt, e).table[id] == Query(rt.next, e.r.server.qtype))
  {
    hide HostLabels;
    hide ParseResponse;
  }

  lemma NextStep(rt: Runtime, e: Event)
    requires Enabled(rt, e)
    ensures Step(rt, e).next == rt.next + if e.OnResolve? then 1 else 0
  {
    hide HostLabels;
    hide ParseResponse;
  }

  lemma StepRecords(rt: Runtime, events: seq<Event>, e: Event)
    requires Recorded(rt, events) && Enabled(rt, e)
    ensures Recorded(Step(rt, e), events + [e])
  {
    hide Step;
    hide Explained;
    hide Answers;
    hide ResolvePosts;
    var after, more := Step(rt, e), events + [e];
    NextStep(rt, e);
    PostsExactly(rt, e);
    RequestsSnoc(events, e);
    forall id | id in after.table
      ensures Matched(more, id, after.table[id])
    {
      TableStep(rt, e, id);
      if id in rt.table && after.table[id] == rt.table[id] {
        MatchedLater(events, e, id, rt.table[id]);
      }
    }
    forall i | 0 <= i < |after.posts|
      ensures Explained(more, after.posts[i])
    {
      if i < |rt.posts| {
        assert after.posts[..|rt.posts|][i] == rt.posts[i];
        ExplainedLater(events, e, rt.posts[i]);
      } else {
        NewExplained(rt, events, e, i);
      }
    }
  }

  lemma NewExplained(rt: Runtime, events: seq<Event>, e: Event, i: nat)
    requires Recorded(rt, events) && Enabled(rt, e) && |rt.posts| <= i < |Step(rt, e).posts|
    ensures Explained(events + [e], Step(rt, e).posts[i])
  {
    hide Step;
    hide Explained;
    hide Answers;
    hide ResolvePosts;
    PostsExactly(rt, e);
    match e
    case OnResolve(r) => ResolveExplained(rt, events, e);
    case OnResponse(id, packet) =>
      AnswerExplained(events, e, rt.table[id], Step(rt, e).posts[|rt.posts|]);
    case OnTimer(t) =>
      if t.id in rt.table {
        TimeoutExplained(events, e, rt.table[t.id]);
      }
    case OnStop =>
  }

  lemma {:induction false} RunRecords(rt: Runtime, done: seq<Event>, events: seq<Event>)
    requires Recorded(rt, done) && Run(rt, events).Some?
    ensures Recorded(Run(rt, events).value, done + events)
    decreases |events|
  {
    hide Recorded;
    hide Step;
    if events == [] {
      assert done + events == done;
    } else {
      StepRecords(rt, done, events[0]);
      RunRecords(Step(rt, events[0]), done + [events[0]], events[1..]);
      assert done + [events[0]] + events[1..] == done + events;
    }
  }

  /**
   Over every run: a callback that is given an address is given the literal it asked for, or
   the address in a good response for its identifier and type; and every error it is given
   is one that happened to it.
   */
  lemma EveryPostExplained(events: seq<Event>)
    requires Run(Start(), events).Some?
    ensures
      var rt := Run(Start(), events).value;
      forall i :: 0 <= i < |rt.posts| ==> Explained(events, rt.posts[i])
  {
    hide Explained;
    assert [] + events == events;
    StartRecorded();
    RunRecords(Start(), [], events);
  }

  lemma StartRecorded()
    ensures Recorded(Start(), [])
  {
  }
}
