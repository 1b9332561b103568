/**
 * Gateways that share a backplane: every emitted event goes through the backplane
 * to each started gateway, which sends it to its own connections.
 */
module RealtimeGateway {
  import opened Common
  import opened Realtime
  import opened RealtimeAudience

  // ---------------------------------------------------------------- audiences

  function Excluded(a: Audience): Option<Id> {
    if a.ToMember? then None else a.exclude
  }

  function MembersWith(index: map<Id, set<Id>>, value: Id): set<Id> {
    set m | m in index && value in index[m]
  }

  function AudienceMembers(n: Node, a: Audience): set<Id> {
    match a
    case ToWorkspace(w, _) => MembersWith(n.memberWorkspaces, w)
    case ToVideo(v, _) => MembersWith(n.memberVideos, v)
    case ToMember(m) => {m}
  }

  /** The node's connections whose member is in its audience and not excluded. */
  function Targets(n: Node, a: Audience): set<Id> {
    set c | c in n.connectionMember && n.connectionMember[c] in AudienceMembers(n, a) &&
            Some(n.connectionMember[c]) != Excluded(a)
  }

  /** The targets whose member is not among those still to be served. */
  function Served(n: Node, a: Audience, pending: set<Id>): set<Id> {
    set c | c in Targets(n, a) && n.connectionMember[c] !in pending
  }

  lemma ServeOne(n: Node, a: Audience, pending: set<Id>, m: Id)
    requires MapsInverse(n) && m in pending && m in AudienceMembers(n, a)
    ensures if Some(m) != Excluded(a) && m in n.connectionsByMember
            then Served(n, a, pending - {m}) == Served(n, a, pending) + n.connectionsByMember[m]
                 && Served(n, a, pending) !! n.connectionsByMember[m]
            else Served(n, a, pending - {m}) == Served(n, a, pending)
  {
    forall c | c in Targets(n, a) && n.connectionMember[c] == m
      ensures m in n.connectionsByMember && c in n.connectionsByMember[m]
    {
    }
  }

  lemma ServedBounds(n: Node, a: Audience)
    ensures Served(n, a, AudienceMembers(n, a)) == {}
    ensures Served(n, a, {}) == Targets(n, a)
  {
  }

  // ---------------------------------------------------------------- transport

  type Sent = (Id, Event)

  function Tagged(connections: seq<Id>, event: Event): seq<Sent> {
    seq(|connections|, i requires 0 <= i < |connections| => (connections[i], event))
  }

  /** What was sent since is the event, once to each target and to no other connection. */
  ghost predicate SentOnce(before: seq<Sent>, after: seq<Sent>, event: Event, targets: set<Id>) {
    exists connections: seq<Id> ::
      multiset(connections) == multiset(targets) && after == before + Tagged(connections, event)
  }

  /** How often the event went to the connection. */
  function TimesSent(sent: seq<Sent>, connectionId: Id, event: Event): nat {
    multiset(sent)[(connectionId, event)]
  }

  lemma {:induction false} TaggedCount(connections: seq<Id>, event: Event, c: Id, e: Event)
    ensures multiset(Tagged(connections, event))[(c, e)] == if e == event then multiset(connections)[c] else 0
  {
    if connections == [] {
      assert Tagged(connections, event) == [];
    } else {
      var front, last := connections[..|connections| - 1], connections[|connections| - 1];
      TaggedCount(front, event, c, e);
      assert connections == front + [last];
      assert Tagged(connections, event) == Tagged(front, event) + [(last, event)];
    }
  }

  lemma TaggedAppends(a: seq<Id>, b: seq<Id>, event: Event)
    ensures Tagged(a + b, event) == Tagged(a, event) + Tagged(b, event)
  {
  }

  lemma OneTagged(connections: seq<Id>, c: Id, event: Event)
    ensures Tagged(connections + [c], event) == Tagged(connections, event) + [(c, event)]
  {
  }

  lemma NoneTagged(event: Event)
    ensures Tagged([], event) == []
  {
  }

  /** Sending once, as a count for every connection and event. */
  lemma SentOnceCounts(before: seq<Sent>, after: seq<Sent>, event: Event, targets: set<Id>, c: Id, e: Event)
    requires SentOnce(before, after, event, targets)
    ensures TimesSent(after, c, e) == TimesSent(before, c, e) + if e == event && c in targets then 1 else 0
  {
    var connections :| multiset(connections) == multiset(targets) && after == before + Tagged(connections, event);
    TaggedCount(connections, event, c, e);
  }

  /** Whether the connection is to be told of the member leaving one of the workspaces. */
  predicate LeaveDue(n: Node, m: Id, workspaces: set<Id>, c: Id, e: Event) {
    e.PresenceLeave? && e.memberId == m && e.workspaceId in workspaces && c in Targets(n, ToWorkspace(e.workspaceId, Some(m)))
  }

  /** What was sent since is the member's leave, once for each workspace to each of the node's targets. */
  ghost predicate SentLeaves(before: seq<Sent>, after: seq<Sent>, n: Node, m: Id, workspaces: set<Id>) {
    forall c, e :: TimesSent(after, c, e) == TimesSent(before, c, e) + if LeaveDue(n, m, workspaces, c, e) then 1 else 0
  }

  lemma NoLeaveSent(sent: seq<Sent>, n: Node, m: Id)
    ensures SentLeaves(sent, sent, n, m, {})
  {
    hide TimesSent, Targets;
  }

  lemma OneMoreLeaveSent(before: seq<Sent>, between: seq<Sent>, after: seq<Sent>, n: Node, m: Id, workspaces: set<Id>, w: Id)
    requires SentLeaves(before, between, n, m, workspaces) && w !in workspaces
    requires SentOnce(between, after, PresenceLeave(m, w), Targets(n, ToWorkspace(w, Some(m))))
    ensures SentLeaves(before, after, n, m, workspaces + {w})
  {
    hide TimesSent, Targets, SentOnce;
    forall c, e
      ensures TimesSent(after, c, e) == TimesSent(before, c, e) + if LeaveDue(n, m, workspaces + {w}, c, e) then 1 else 0
    {
      SentOnceCounts(between, after, PresenceLeave(m, w), Targets(n, ToWorkspace(w, Some(m))), c, e);
    }
  }

  /** What of a node bears on who hears an event: its connections, presence and viewership. */
  function Hearing(n: Node): Node {
    NEW_NODE.(connectionMember := n.connectionMember, memberWorkspaces := n.memberWorkspaces, memberVideos := n.memberVideos)
  }

  lemma HearingTargets(n: Node, a: Audience)
    ensures Targets(Hearing(n), a) == Targets(n, a)
  {
  }

  /** After every run of commands without a takeover, the targets are the connections that hear the audience. */
  lemma TargetsHear(cs: seq<Command>, conn: Id, a: Audience)
    requires NoTakeover(cs)
    ensures conn in Targets(Run(NEW_NODE, cs), a) <==> Hears(cs, conn, a)
  {
    hide Run, NoTakeover, Live, Present, Viewing;
    var n := Run(NEW_NODE, cs);
    if conn in n.connectionMember {
      TargetHears(cs, conn, n.connectionMember[conn], a);
    }
    if m :| Live(cs, m, conn) && Addressed(cs, m, a) {
      TargetHears(cs, conn, m, a);
    }
  }

  lemma TargetHears(cs: seq<Command>, conn: Id, m: Id, a: Audience)
    requires NoTakeover(cs)
    ensures Live(cs, m, conn) <==> conn in Run(NEW_NODE, cs).connectionMember && Run(NEW_NODE, cs).connectionMember[conn] == m
    ensures Addressed(cs, m, a) <==> m in AudienceMembers(Run(NEW_NODE, cs), a) && Some(m) != Excluded(a)
  {
    hide Run, NoTakeover, Live, Present, Viewing;
    OwnersAreLive(cs, m, conn);
    match a
    case ToWorkspace(w, _) => AudiencesAreRead(cs, m, w);
    case ToVideo(v, _) => AudiencesAreRead(cs, m, v);
    case ToMember(_) =>
  }

  /** Sent once to the targets of a node: one time more to each connection that hears it, and no time more to any other. */
  lemma SentIsHeard(before: seq<Sent>, after: seq<Sent>, event: Event, a: Audience, cs: seq<Command>, n: Node)
    requires NoTakeover(cs) && Hearing(n) == Hearing(Run(NEW_NODE, cs)) && SentOnce(before, after, event, Targets(n, a))
    ensures forall c, e ::
              TimesSent(after, c, e) == TimesSent(before, c, e) + if e == event && Hears(cs, c, a) then 1 else 0
  {
    hide Run, NoTakeover, Targets, TimesSent, SentOnce, Hearing, Hears;
    forall c, e
      ensures TimesSent(after, c, e) == TimesSent(before, c, e) + if e == event && Hears(cs, c, a) then 1 else 0
    {
      HearingTargets(n, a);
      HearingTargets(Run(NEW_NODE, cs), a);
      TargetsHear(cs, c, a);
      SentOnceCounts(before, after, event, Targets(n, a), c, e);
    }
  }

  class Transport {
    /** Every attempt to send, in order, whether or not it succeeds. */
    var sent: seq<Sent>

    constructor ()
      ensures sent == []
    {
      sent := [];
    }

    /** A send may fail; the gateway does not let that reach the other connections. */
    method Send(connectionId: Id, event: Event) returns (delivered: bool)
      modifies this
      ensures sent == old(sent) + [(connectionId, event)]
    {
      sent := sent + [(connectionId, event)];
      delivered := *;
    }
  }

  // ---------------------------------------------------------------- backplane

  class Backplane {
    /** The gateways whose delivery handler is subscribed to the channel. */
    var handlers: seq<Gateway>

    constructor ()
      ensures handlers == []
    {
      handlers := [];
    }

    /** Each gateway has a transport of its own, and its connection maps are inverse. */
    ghost predicate Valid()
      reads this, handlers
    {
      && (forall i :: 0 <= i < |handlers| ==> MapsInverse(handlers[i].State()))
      && (forall i, j :: 0 <= i < j < |handlers| ==> handlers[i].transport != handlers[j].transport)
    }

    /** Every subscriber delivers the message to its own connections. */
    method Publish(e: Envelope)
      requires Valid()
      modifies set g | g in handlers :: g.transport
      ensures forall g :: g in handlers ==>
                SentOnce(old(g.transport.sent), g.transport.sent, e.event, Targets(g.State(), e.audience))
    {
      for i := 0 to |handlers|
        invariant forall j :: 0 <= j < i ==>
                    SentOnce(old(handlers[j].transport.sent), handlers[j].transport.sent, e.event,
                             Targets(handlers[j].State(), e.audience))
        invariant forall j :: i <= j < |handlers| ==> handlers[j].transport.sent == old(handlers[j].transport.sent)
      {
        assert handlers[i] in handlers;
        handlers[i].DeliverLocal(e);
      }
    }
  }

  // ------------------------------------------------------------------ gateway

  class Gateway {
    const backplane: Backplane
    const transport: Transport
    var started: bool
    var connectionMember: map<Id, Id>
    var connectionsByMember: map<Id, set<Id>>
    var memberWorkspaces: map<Id, set<Id>>
    var memberVideos: map<Id, set<Id>>
    var typingTimers: map<string, nat>
    var departureTimers: map<Id, nat>
    /** The timer service: the callbacks still due, and the next handle. */
    var live: map<nat, Callback>
    var nextHandle: nat
    /** What this gateway gave to the backplane. */
    ghost var published: seq<Envelope>

    constructor (backplane: Backplane)
      ensures State() == NEW_NODE && !started && this.backplane == backplane && fresh(transport)
    {
      this.backplane := backplane;
      transport := new Transport();
      started := false;
      connectionMember, connectionsByMember, memberWorkspaces, memberVideos := map[], map[], map[], map[];
      typingTimers, departureTimers, live, nextHandle, published := map[], map[], map[], 0, [];
    }

    ghost function State(): Node
      reads this
    {
      Node(connectionMember, connectionsByMember, memberWorkspaces, memberVideos,
           typingTimers, departureTimers, live, nextHandle, published)
    }

    /** Subscribe to the channel; a second call does nothing. */
    method Start()
      requires backplane.Valid() && MapsInverse(State())
      requires !started ==> forall g :: g in backplane.handlers ==> g.transport != transport
      modifies this`started, backplane
      ensures started && backplane.Valid()
      ensures backplane.handlers == if old(started) then old(backplane.handlers) else old(backplane.handlers) + [this]
    {
      if started {
        return;
      }
      started := true;
      backplane.handlers := backplane.handlers + [this];
    }

    /** Send a message to the local connections of its audience. */
    method DeliverLocal(e: Envelope)
      requires MapsInverse(State())
      modifies transport
      ensures SentOnce(old(transport.sent), transport.sent, e.event, Targets(State(), e.audience))
    {
      hide Inverse, Targets, AudienceMembers, Served, Tagged;
      ghost var n := State();
      ServedBounds(n, e.audience);
      var exclude := Excluded(e.audience);
      var members := AudienceMembersOf(e.audience);
      ghost var connections: seq<Id> := [];
      NoneTagged(e.event);
      while members != {}
        invariant members <= AudienceMembers(n, e.audience)
        invariant multiset(connections) == multiset(Served(n, e.audience, members))
        invariant transport.sent == old(transport.sent) + Tagged(connections, e.event)
        decreases members
      {
        var memberId :| memberId in members;
        ServeOne(n, e.audience, members, memberId);
        if Some(memberId) != exclude && memberId in connectionsByMember {
          ghost var more := SendToAll(connectionsByMember[memberId], e.event);
          TaggedAppends(connections, more, e.event);
          connections := connections + more;
        }
        members := members - {memberId};
      }
    }

    /** Give an event to the backplane, which hands it to every subscriber. */
    method Emit(event: Event, audience: Audience)
      requires backplane.Valid()
      modifies this`published, set g | g in backplane.handlers :: g.transport
      ensures State() == Publish(old(State()), event, audience) && backplane.Valid()
      ensures Delivered(event, audience) && Heard(event, audience)
    {
      hide Inverse, SentOnce, Targets, Hears, NoTakeover, Run, TimesSent;
      published := published + [Envelope(event, audience)];
      backplane.Publish(Envelope(event, audience));
      assert backplane.handlers == old(backplane.handlers);
      forall i | 0 <= i < |backplane.handlers|
        ensures var g := backplane.handlers[i];
                SentOnce(old(g.transport.sent), g.transport.sent, event, Targets(g.State(), audience))
      {
        assert backplane.handlers[i] in backplane.handlers;
      }
      forall i, cs | 0 <= i < |backplane.handlers| && old(backplane.handlers[i].State()) == Run(NEW_NODE, cs) && NoTakeover(cs)
        ensures var g := backplane.handlers[i]; forall c, e ::
                  TimesSent(g.transport.sent, c, e) ==
                  TimesSent(old(g.transport.sent), c, e) + if e == event && Hears(cs, c, audience) then 1 else 0
      {
        var g := backplane.handlers[i];
        SentIsHeard(old(g.transport.sent), g.transport.sent, event, audience, cs, g.State());
      }
    }

    /**
     * Whatever the callers of each subscribed gateway did before: it sent the event one
     * time more to exactly the connections that hear it, and nothing else.
     */
    twostate predicate Heard(event: Event, audience: Audience)
      reads this, backplane, backplane.handlers, set g | g in backplane.handlers :: g.transport
    {
      backplane.handlers == old(backplane.handlers) &&
      forall i, cs, c, e ::
        0 <= i < |backplane.handlers| && old(backplane.handlers[i].State()) == Run(NEW_NODE, cs) && NoTakeover(cs) ==>
          TimesSent(backplane.handlers[i].transport.sent, c, e) ==
          TimesSent(old(backplane.handlers[i].transport.sent), c, e) + if e == event && Hears(cs, c, audience) then 1 else 0
    }

    /** Every subscribed gateway sent the event once to each of its targets and to no other connection. */
    twostate predicate Delivered(event: Event, audience: Audience)
      reads this, backplane, backplane.handlers, set g | g in backplane.handlers :: g.transport
    {
      backplane.handlers == old(backplane.handlers) &&
      forall i :: 0 <= i < |backplane.handlers| ==>
        var g := backplane.handlers[i];
        SentOnce(old(g.transport.sent), g.transport.sent, event, Targets(g.State(), audience))
    }

    /** Every subscribed gateway sent the member's leave once for each workspace to each target, and nothing else. */
    twostate predicate LeavesDelivered(memberId: Id, workspaces: set<Id>)
      reads this, backplane, backplane.handlers, set g | g in backplane.handlers :: g.transport
    {
      backplane.handlers == old(backplane.handlers) &&
      forall i :: 0 <= i < |backplane.handlers| ==>
        var g := backplane.handlers[i];
        SentLeaves(old(g.transport.sent), g.transport.sent, Hearing(old(g.State())), memberId, workspaces)
    }

    /** No subscribed gateway sent anything. */
    twostate predicate NothingSent()
      reads this, backplane, backplane.handlers, set g | g in backplane.handlers :: g.transport
    {
      backplane.handlers == old(backplane.handlers) &&
      forall i :: 0 <= i < |backplane.handlers| ==>
        old(backplane.handlers[i].transport.sent) == backplane.handlers[i].transport.sent
    }

    // ------------------------------------------------- connection lifecycle

    method Connect(memberId: Id, connectionId: Id)
      modifies this
      ensures State() == Step(old(State()), Command.Connect(memberId, connectionId))
      ensures old(Good(State())) ==> (Good(State()) <==> Allowed(old(State()), Command.Connect(memberId, connectionId)))
      ensures started == old(started)
    {
      hide Good, CancelDeparture;
      ghost var before := State();
      CheckGood(before, Command.Connect(memberId, connectionId));
      connectionMember := connectionMember[connectionId := memberId];
      AddConnection(memberId, connectionId);
      CancelPendingDeparture(memberId);
    }

    /** Put a connection on its member's list, starting one if there is none. */
    method AddConnection(memberId: Id, connectionId: Id)
      modifies this`connectionsByMember
      ensures connectionsByMember == AddToSet(old(connectionsByMember), memberId, connectionId)
    {
      if memberId in connectionsByMember {
        connectionsByMember := connectionsByMember[memberId := connectionsByMember[memberId] + {connectionId}];
      } else {
        connectionsByMember := connectionsByMember[memberId := {connectionId}];
        assert {connectionId} == {} + {connectionId};
      }
    }

    method Disconnect(connectionId: Id)
      modifies this
      ensures State() == Step(old(State()), Command.Disconnect(connectionId))
      ensures old(Good(State())) ==> Good(State())
      // When its last connection goes, the member is left a departure timer that starts now.
      ensures connectionMember == old(connectionMember) - {connectionId}
      ensures connectionId in old(connectionMember) && old(connectionMember)[connectionId] !in connectionsByMember ==>
                old(connectionMember)[connectionId] in departureTimers &&
                departureTimers[old(connectionMember)[connectionId]] == old(nextHandle) &&
                old(nextHandle) in live && live[old(nextHandle)] == FireDepartureOf(old(connectionMember)[connectionId])
      ensures started == old(started)
    {
      hide Good, ScheduleDeparture, RemoveFromSet, Disconnected, Allowed;
      ghost var before := State();
      CheckGood(before, Command.Disconnect(connectionId));
      DisconnectedIs(before, connectionId);
      if connectionId !in connectionMember {
        return;
      }
      var memberId := connectionMember[connectionId];
      connectionMember := connectionMember - {connectionId};
      DropConnection(memberId, connectionId);
      assert State() == before.(connectionMember := connectionMember, connectionsByMember := connectionsByMember);
      if memberId !in connectionsByMember {
        ScheduledTimer(State(), memberId);
        SchedulePendingDeparture(memberId);
      }
    }

    /** Take a connection off its member's list, and the list away with the last one. */
    method DropConnection(memberId: Id, connectionId: Id)
      modifies this`connectionsByMember
      ensures connectionsByMember == RemoveFromSet(old(connectionsByMember), memberId, connectionId)
    {
      if memberId in connectionsByMember {
        var connections := connectionsByMember[memberId] - {connectionId};
        if connections == {} {
          connectionsByMember := connectionsByMember - {memberId};
        } else {
          connectionsByMember := connectionsByMember[memberId := connections];
        }
      }
    }

    method SchedulePendingDeparture(memberId: Id)
      modifies this`live, this`departureTimers, this`nextHandle
      ensures State() == ScheduleDeparture(old(State()), memberId)
    {
      CancelPendingDeparture(memberId);
      departureTimers := departureTimers[memberId := nextHandle];
      live := live[nextHandle := FireDepartureOf(memberId)];
      nextHandle := nextHandle + 1;
    }

    method CancelPendingDeparture(memberId: Id)
      modifies this`live, this`departureTimers
      ensures State() == CancelDeparture(old(State()), memberId)
    {
      if memberId in departureTimers {
        live := live - {departureTimers[memberId]};
        departureTimers := departureTimers - {memberId};
      }
    }

    // -------------------------------------------------- presence and viewing

    method Join(memberId: Id, workspaceId: Id)
      requires backplane.Valid()
      modifies this, set g | g in backplane.handlers :: g.transport
      ensures State() == Step(old(State()), Command.Join(memberId, workspaceId)) && backplane.Valid()
      ensures Delivered(PresenceJoin(memberId, workspaceId), ToWorkspace(workspaceId, Some(memberId)))
      ensures started == old(started)
    {
      CancelPendingDeparture(memberId);
      memberWorkspaces := AddToSet(memberWorkspaces, memberId, workspaceId);
      Emit(PresenceJoin(memberId, workspaceId), ToWorkspace(workspaceId, Some(memberId)));
    }

    method Leave(memberId: Id, workspaceId: Id)
      requires backplane.Valid()
      modifies this, set g | g in backplane.handlers :: g.transport
      ensures State() == Step(old(State()), Command.Leave(memberId, workspaceId)) && backplane.Valid()
      ensures Delivered(PresenceLeave(memberId, workspaceId), ToWorkspace(workspaceId, Some(memberId)))
      ensures started == old(started)
    {
      memberWorkspaces := RemoveFromSet(memberWorkspaces, memberId, workspaceId);
      Emit(PresenceLeave(memberId, workspaceId), ToWorkspace(workspaceId, Some(memberId)));
    }

    method OpenVideo(memberId: Id, videoId: Id)
      modifies this`memberVideos
      ensures State() == Step(old(State()), Command.OpenVideo(memberId, videoId))
    {
      memberVideos := AddToSet(memberVideos, memberId, videoId);
    }

    method CloseVideo(memberId: Id, videoId: Id)
      modifies this`memberVideos
      ensures State() == Step(old(State()), Command.CloseVideo(memberId, videoId))
    {
      memberVideos := RemoveFromSet(memberVideos, memberId, videoId);
    }

    // ----------------------------------------------------------------- typing

    /** Announce typing on its first signal, and re-arm the inactivity timer on every one. */
    method StartTyping(memberId: Id, videoId: Id)
      requires backplane.Valid()
      modifies this, set g | g in backplane.handlers :: g.transport
      ensures State() == Step(old(State()), Command.StartTyping(memberId, videoId)) && backplane.Valid()
      ensures if TypingKey(memberId, videoId) !in old(typingTimers)
              then Delivered(TypingStart(memberId, videoId), ToVideo(videoId, Some(memberId))) else NothingSent()
      // Every signal leaves a new timer running, and no older one.
      ensures TypingKey(memberId, videoId) in typingTimers && typingTimers[TypingKey(memberId, videoId)] == old(nextHandle)
      ensures old(nextHandle) in live && live[old(nextHandle)] == StopTypingOf(memberId, videoId)
      ensures TypingKey(memberId, videoId) in old(typingTimers) && old(typingTimers)[TypingKey(memberId, videoId)] != old(nextHandle) ==>
                old(typingTimers)[TypingKey(memberId, videoId)] !in live
      ensures started == old(started)
    {
      hide TypingKey, Inverse, SentOnce, Targets;
      var firstSignal := TypingKey(memberId, videoId) !in typingTimers;
      ArmTypingTimer(memberId, videoId);
      if firstSignal {
        Emit(TypingStart(memberId, videoId), ToVideo(videoId, Some(memberId)));
      }
    }

    /** Cancel a pending inactivity timer and schedule a new one. */
    method ArmTypingTimer(memberId: Id, videoId: Id)
      modifies this`typingTimers, this`live, this`nextHandle
      ensures var key := TypingKey(memberId, videoId);
              var kept := if key in old(typingTimers) then old(live) - {old(typingTimers)[key]} else old(live);
              State() == old(State()).(typingTimers := old(typingTimers)[key := old(nextHandle)],
                                       live := kept[old(nextHandle) := StopTypingOf(memberId, videoId)],
                                       nextHandle := old(nextHandle) + 1)
    {
      var key := TypingKey(memberId, videoId);
      if key in typingTimers {
        live := live - {typingTimers[key]};
      }
      typingTimers := typingTimers[key := nextHandle];
      live := live[nextHandle := StopTypingOf(memberId, videoId)];
      nextHandle := nextHandle + 1;
    }

    method StopTyping(memberId: Id, videoId: Id)
      requires backplane.Valid()
      modifies this, set g | g in backplane.handlers :: g.transport
      ensures State() == TypingStopped(old(State()), memberId, videoId) && backplane.Valid()
      ensures if TypingKey(memberId, videoId) in old(typingTimers)
              then Delivered(TypingStop(memberId, videoId), ToVideo(videoId, Some(memberId))) else NothingSent()
      ensures started == old(started)
    {
      var key := TypingKey(memberId, videoId);
      if key !in typingTimers {
        return;
      }
      live := live - {typingTimers[key]};
      typingTimers := typingTimers - {key};
      Emit(TypingStop(memberId, videoId), ToVideo(videoId, Some(memberId)));
    }

    // ----------------------------------------------------------------- timers

    /**
     * What a callback makes the gateways send: the stop of typing that was on, or
     * the leaves of a member that has not come back; otherwise nothing.
     */
    twostate predicate Told(n: Node, callback: Callback)
      reads this, backplane, backplane.handlers, set g | g in backplane.handlers :: g.transport
    {
      match callback
      case StopTypingOf(m, v) =>
        if TypingKey(m, v) in n.typingTimers then Delivered(TypingStop(m, v), ToVideo(v, Some(m))) else NothingSent()
      case FireDepartureOf(m) =>
        if m in n.connectionsByMember then NothingSent() else LeavesDelivered(m, SetOf(n.memberWorkspaces, m))
    }

    /** A live timer is spent and its callback runs. `order` is the order in which a departed member's workspaces are told. */
    method RunCallback(handle: nat) returns (ghost order: seq<Id>)
      requires backplane.Valid() && handle in live
      modifies this, set g | g in backplane.handlers :: g.transport
      ensures State() == CallbackRun(old(State()).(live := old(live) - {handle}), old(live)[handle], order) && backplane.Valid()
      ensures TellsAll(old(State()), old(live)[handle], order) && Told(old(State()), old(live)[handle])
      ensures started == old(started)
    {
      hide Inverse, TypingStopped, DepartureFired, Targets, AudienceMembers, SentOnce, Tagged, SentLeaves, TypingKey;
      order := [];
      var callback := live[handle];
      live := live - {handle};
      match callback {
        case StopTypingOf(m, v) => StopTyping(m, v);
        case FireDepartureOf(m) => order := FireDeparture(m);
      }
    }

    /** A timer that is due fires. */
    method FireTimer(handle: nat) returns (ghost order: seq<Id>)
      requires backplane.Valid()
      modifies this, set g | g in backplane.handlers :: g.transport
      ensures State() == Step(old(State()), Fire(handle, order)) && backplane.Valid()
      ensures if handle in old(live)
              then TellsAll(old(State()), old(live)[handle], order) && Told(old(State()), old(live)[handle])
              else NothingSent()
      ensures old(Good(State())) ==> Good(State())
      ensures started == old(started)
    {
      hide Inverse, Good, CallbackRun, Step, Allowed, Targets, AudienceMembers, SentOnce, Tagged, SentLeaves, TypingKey,
           TellsAll;
      order := [];
      ghost var before := State();
      if handle in live {
        order := RunCallback(handle);
      }
      FiredIs(before, handle, order);
      CheckGood(before, Fire(handle, order));
    }

    /** Tell every workspace the member was present in, then forget the member's presence and viewing. */
    method FireDeparture(memberId: Id) returns (ghost order: seq<Id>)
      requires backplane.Valid()
      modifies this, set g | g in backplane.handlers :: g.transport
      ensures State() == DepartureFired(old(State()), memberId, order) && backplane.Valid()
      ensures multiset(order) == multiset(SetOf(old(memberWorkspaces), memberId)) || memberId in old(connectionsByMember)
      ensures if memberId in old(connectionsByMember) then NothingSent()
              else LeavesDelivered(memberId, SetOf(old(memberWorkspaces), memberId))
      ensures started == old(started)
    {
      hide Inverse, Targets, AudienceMembers, SentOnce, Tagged, Leaves, SentLeaves;
      order := [];
      departureTimers := departureTimers - {memberId};
      if memberId in connectionsByMember {
        return;
      }
      order := TellDeparture(memberId);
    }

    /** Tell every workspace of the member, then forget its presence and viewing. */
    method TellDeparture(memberId: Id) returns (ghost order: seq<Id>)
      requires backplane.Valid()
      modifies this`published, this`memberWorkspaces, this`memberVideos, set g | g in backplane.handlers :: g.transport
      ensures multiset(order) == multiset(SetOf(old(memberWorkspaces), memberId)) && backplane.Valid()
      ensures published == old(published) + Leaves(memberId, order)
      ensures memberWorkspaces == old(memberWorkspaces) - {memberId} && memberVideos == old(memberVideos) - {memberId}
      ensures LeavesDelivered(memberId, SetOf(old(memberWorkspaces), memberId))
    {
      hide Inverse, Targets, AudienceMembers, SentOnce, Tagged, Leaves, SentLeaves, SetOf;
      order := EmitLeaves(memberId, SetOf(memberWorkspaces, memberId));
      memberWorkspaces := memberWorkspaces - {memberId};
      memberVideos := memberVideos - {memberId};
    }

    /** Emit one presence-leave for each workspace. */
    method EmitLeaves(memberId: Id, workspaces: set<Id>) returns (ghost order: seq<Id>)
      requires backplane.Valid()
      modifies this`published, set g | g in backplane.handlers :: g.transport
      ensures multiset(order) == multiset(workspaces) && backplane.Valid()
      ensures published == old(published) + Leaves(memberId, order)
      ensures LeavesDelivered(memberId, workspaces)
    {
      hide Inverse, Targets, AudienceMembers, SentOnce, Tagged, Leaves, SentLeaves;
      order := [];
      var pending := workspaces;
      NoLeaves(published, memberId);
      forall i | 0 <= i < |backplane.handlers|
        ensures var g := backplane.handlers[i]; SentLeaves(g.transport.sent, g.transport.sent, Hearing(g.State()), memberId, {})
      {
        NoLeaveSent(backplane.handlers[i].transport.sent, Hearing(backplane.handlers[i].State()), memberId);
      }
      assert workspaces - pending == {};
      while pending != {}
        invariant pending <= workspaces && multiset(order) == multiset(workspaces - pending)
        invariant published == old(published) + Leaves(memberId, order)
        invariant backplane.Valid() && LeavesDelivered(memberId, workspaces - pending)
        decreases pending
      {
        var workspaceId :| workspaceId in pending;
        label Before:
        Emit(PresenceLeave(memberId, workspaceId), ToWorkspace(workspaceId, Some(memberId)));
        forall i | 0 <= i < |backplane.handlers|
          ensures var g := backplane.handlers[i];
                  SentLeaves(old(g.transport.sent), g.transport.sent, Hearing(old(g.State())), memberId,
                             workspaces - pending + {workspaceId})
        {
          var g := backplane.handlers[i];
          HearingTargets(g.State(), ToWorkspace(workspaceId, Some(memberId)));
          assert Hearing(g.State()) == Hearing(old(g.State()));
          OneMoreLeaveSent(old(g.transport.sent), old@Before(g.transport.sent), g.transport.sent, Hearing(old(g.State())),
                           memberId, workspaces - pending, workspaceId);
        }
        assert workspaces - (pending - {workspaceId}) == (workspaces - pending) + {workspaceId};
        pending := pending - {workspaceId};
        OneMoreLeave(old(published), memberId, order, workspaceId);
        order := order + [workspaceId];
      }
      assert workspaces - pending == workspaces;
    }

    // ------------------------------------------------------------- internals

    /** `resolveAudience`, by scanning the presence or viewership map. */
    method AudienceMembersOf(a: Audience) returns (members: set<Id>)
      ensures members == AudienceMembers(State(), a)
    {
      match a {
        case ToWorkspace(w, _) => members := ScanMembers(memberWorkspaces, w);
        case ToVideo(v, _) => members := ScanMembers(memberVideos, v);
        case ToMember(m) => members := {m};
      }
    }

    /** Send the event to each connection of one member. */
    method SendToAll(targets: set<Id>, event: Event) returns (ghost connections: seq<Id>)
      modifies transport
      ensures multiset(connections) == multiset(targets)
      ensures transport.sent == old(transport.sent) + Tagged(connections, event)
    {
      hide Tagged;
      connections := [];
      NoneTagged(event);
      var pending := targets;
      while pending != {}
        invariant pending <= targets
        invariant multiset(connections) == multiset(targets - pending)
        invariant transport.sent == old(transport.sent) + Tagged(connections, event)
        decreases pending
      {
        var c :| c in pending;
        var _ := transport.Send(c, event);
        assert targets - (pending - {c}) == (targets - pending) + {c};
        OneTagged(connections, c, event);
        pending := pending - {c};
        connections := connections + [c];
      }
      assert targets - pending == targets;
    }
  }

  lemma CheckGood(n: Node, c: Command)
    ensures Good(n) ==> (Good(Step(n, c)) <==> Allowed(n, c))
  {
    if Good(n) {
      StepGoodIffAllowed(n, c);
    }
  }

  function CallbackRun(n: Node, callback: Callback, order: seq<Id>): Node {
    match callback
    case StopTypingOf(m, v) => TypingStopped(n, m, v)
    case FireDepartureOf(m) => DepartureFired(n, m, order)
  }

  /** A departed member's workspaces are all told. */
  predicate TellsAll(n: Node, callback: Callback, order: seq<Id>) {
    callback.FireDepartureOf? && callback.memberId !in n.connectionsByMember ==>
      multiset(order) == multiset(SetOf(n.memberWorkspaces, callback.memberId))
  }

  lemma ScheduledTimer(n: Node, m: Id)
    ensures var r := ScheduleDeparture(n, m);
            m in r.departureTimers && r.departureTimers[m] == n.nextHandle &&
            n.nextHandle in r.live && r.live[n.nextHandle] == FireDepartureOf(m) && r.connectionMember == n.connectionMember &&
            r.connectionsByMember == n.connectionsByMember
  {
  }

  lemma DisconnectedIs(n: Node, connectionId: Id)
    ensures Allowed(n, Disconnect(connectionId))
    ensures Disconnected(n, connectionId) ==
            if connectionId !in n.connectionMember then n
            else
              var memberId := n.connectionMember[connectionId];
              var owned := RemoveFromSet(n.connectionsByMember, memberId, connectionId);
              var d := n.(connectionMember := n.connectionMember - {connectionId}, connectionsByMember := owned);
              if memberId in owned then d else ScheduleDeparture(d, memberId)
  {
    hide RemoveFromSet, ScheduleDeparture;
  }

  lemma FiredIs(n: Node, handle: nat, order: seq<Id>)
    ensures Allowed(n, Fire(handle, order))
    ensures Step(n, Fire(handle, order)) ==
            if handle !in n.live then n else CallbackRun(n.(live := n.live - {handle}), n.live[handle], order)
  {
  }

  lemma NoLeaves(published: seq<Envelope>, m: Id)
    ensures published + Leaves(m, []) == published
  {
  }

  lemma OneMoreLeave(published: seq<Envelope>, m: Id, order: seq<Id>, w: Id)
    ensures published + Leaves(m, order + [w]) ==
              (published + Leaves(m, order)) + [Envelope(PresenceLeave(m, w), ToWorkspace(w, Some(m)))]
  {
    assert (order + [w])[..|order|] == order;
  }

  /** Every member whose set contains the value. */
  method ScanMembers(index: map<Id, set<Id>>, value: Id) returns (members: set<Id>)
    ensures members == MembersWith(index, value)
  {
    members := {};
    var pending := index.Keys;
    while pending != {}
      invariant pending <= index.Keys
      invariant members == set m | m in index.Keys - pending && value in index[m]
      decreases pending
    {
      var m :| m in pending;
      pending := pending - {m};
      if value in index[m] {
        members := members + {m};
      }
    }
  }
}
