/**
 * One node of the realtime gateway as a state machine: connections, presence,
 * viewership, typing and the timers. Each method of the gateway and each firing
 * of a timer is one step.
 */
module Realtime {
  import opened Common

  type Id = string

  datatype Event =
    | PresenceJoin(memberId: Id, workspaceId: Id)
    | PresenceLeave(memberId: Id, workspaceId: Id)
    | TypingStart(memberId: Id, videoId: Id)
    | TypingStop(memberId: Id, videoId: Id)
    | Payload(kind: string, payload: string)

  datatype Audience =
    | ToWorkspace(workspaceId: Id, exclude: Option<Id>)
    | ToVideo(videoId: Id, exclude: Option<Id>)
    | ToMember(memberId: Id)

  datatype Envelope = Envelope(event: Event, audience: Audience)

  /** What a timer does when it fires. */
  datatype Callback = StopTypingOf(memberId: Id, videoId: Id) | FireDepartureOf(memberId: Id)

  datatype Node = Node(
    connectionMember: map<Id, Id>,
    connectionsByMember: map<Id, set<Id>>,
    memberWorkspaces: map<Id, set<Id>>,
    memberVideos: map<Id, set<Id>>,
    typingTimers: map<string, nat>,
    departureTimers: map<Id, nat>,
    live: map<nat, Callback>,
    nextHandle: nat,
    published: seq<Envelope>)

  const NEW_NODE := Node(map[], map[], map[], map[], map[], map[], map[], 0, [])

  function TypingKey(memberId: Id, videoId: Id): string {
    memberId + "::" + videoId
  }

  // -------------------------------------------------------------- the steps

  function Publish(n: Node, event: Event, audience: Audience): Node {
    n.(published := n.published + [Envelope(event, audience)])
  }

  function SetOf(index: map<Id, set<Id>>, key: Id): set<Id> {
    if key in index then index[key] else {}
  }

  function AddToSet(index: map<Id, set<Id>>, key: Id, value: Id): map<Id, set<Id>> {
    index[key := SetOf(index, key) + {value}]
  }

  function RemoveFromSet(index: map<Id, set<Id>>, key: Id, value: Id): map<Id, set<Id>> {
    if key !in index then index
    else if index[key] - {value} == {} then index - {key}
    else index[key := index[key] - {value}]
  }

  function CancelDeparture(n: Node, memberId: Id): Node {
    if memberId in n.departureTimers then
      n.(live := n.live - {n.departureTimers[memberId]}, departureTimers := n.departureTimers - {memberId})
    else n
  }

  function ScheduleDeparture(n: Node, memberId: Id): Node {
    var c := CancelDeparture(n, memberId);
    c.(live := c.live[c.nextHandle := FireDepartureOf(memberId)],
       departureTimers := c.departureTimers[memberId := c.nextHandle],
       nextHandle := c.nextHandle + 1)
  }

  function Connected(n: Node, memberId: Id, connectionId: Id): Node {
    CancelDeparture(
      n.(connectionMember := n.connectionMember[connectionId := memberId],
         connectionsByMember := AddToSet(n.connectionsByMember, memberId, connectionId)),
      memberId)
  }

  function Disconnected(n: Node, connectionId: Id): Node {
    if connectionId !in n.connectionMember then n
    else
      var memberId := n.connectionMember[connectionId];
      var d := n.(connectionMember := n.connectionMember - {connectionId},
                  connectionsByMember := RemoveFromSet(n.connectionsByMember, memberId, connectionId));
      if memberId in d.connectionsByMember then d else ScheduleDeparture(d, memberId)
  }

  function Joined(n: Node, memberId: Id, workspaceId: Id): Node {
    var c := CancelDeparture(n, memberId);
    Publish(c.(memberWorkspaces := AddToSet(c.memberWorkspaces, memberId, workspaceId)),
            PresenceJoin(memberId, workspaceId), ToWorkspace(workspaceId, Some(memberId)))
  }

  function Left(n: Node, memberId: Id, workspaceId: Id): Node {
    Publish(n.(memberWorkspaces := RemoveFromSet(n.memberWorkspaces, memberId, workspaceId)),
            PresenceLeave(memberId, workspaceId), ToWorkspace(workspaceId, Some(memberId)))
  }

  function VideoOpened(n: Node, memberId: Id, videoId: Id): Node {
    n.(memberVideos := AddToSet(n.memberVideos, memberId, videoId))
  }

  function VideoClosed(n: Node, memberId: Id, videoId: Id): Node {
    n.(memberVideos := RemoveFromSet(n.memberVideos, memberId, videoId))
  }

  function TypingStarted(n: Node, memberId: Id, videoId: Id): Node {
    var key := TypingKey(memberId, videoId);
    var c := if key in n.typingTimers then n.(live := n.live - {n.typingTimers[key]}) else n;
    var armed := c.(live := c.live[c.nextHandle := StopTypingOf(memberId, videoId)],
                    typingTimers := c.typingTimers[key := c.nextHandle],
                    nextHandle := c.nextHandle + 1);
    if key in n.typingTimers then armed
    else Publish(armed, TypingStart(memberId, videoId), ToVideo(videoId, Some(memberId)))
  }

  function TypingStopped(n: Node, memberId: Id, videoId: Id): Node {
    var key := TypingKey(memberId, videoId);
    if key !in n.typingTimers then n
    else
      Publish(n.(live := n.live - {n.typingTimers[key]}, typingTimers := n.typingTimers - {key}),
              TypingStop(memberId, videoId), ToVideo(videoId, Some(memberId)))
  }

  /** One presence-leave for each workspace, in the given order. */
  function Leaves(memberId: Id, workspaces: seq<Id>): seq<Envelope> {
    if workspaces == [] then []
    else
      Leaves(memberId, workspaces[..|workspaces| - 1]) +
      [Envelope(PresenceLeave(memberId, workspaces[|workspaces| - 1]),
                ToWorkspace(workspaces[|workspaces| - 1], Some(memberId)))]
  }

  /** The departure timer fired; `order` is the order in which the member's workspaces are told. */
  function DepartureFired(n: Node, memberId: Id, order: seq<Id>): Node {
    var d := n.(departureTimers := n.departureTimers - {memberId});
    if memberId in n.connectionsByMember then d
    else
      d.(published := d.published + Leaves(memberId, order),
         memberWorkspaces := d.memberWorkspaces - {memberId},
         memberVideos := d.memberVideos - {memberId})
  }

  /** A live timer fires: it is spent, and its callback runs. */
  function TimerFired(n: Node, handle: nat, order: seq<Id>): Node {
    if handle !in n.live then n
    else
      var spent := n.(live := n.live - {handle});
      match n.live[handle]
      case StopTypingOf(m, v) => TypingStopped(spent, m, v)
      case FireDepartureOf(m) => DepartureFired(spent, m, order)
  }

  datatype Command =
    | Connect(memberId: Id, connectionId: Id)
    | Disconnect(connectionId: Id)
    | Join(memberId: Id, workspaceId: Id)
    | Leave(memberId: Id, workspaceId: Id)
    | OpenVideo(memberId: Id, videoId: Id)
    | CloseVideo(memberId: Id, videoId: Id)
    | StartTyping(memberId: Id, videoId: Id)
    | StopTyping(memberId: Id, videoId: Id)
    | Emit(kind: string, payload: string, audience: Audience)
    | Fire(handle: nat, order: seq<Id>)

  function Step(n: Node, c: Command): Node {
    match c
    case Connect(m, conn) => Connected(n, m, conn)
    case Disconnect(conn) => Disconnected(n, conn)
    case Join(m, w) => Joined(n, m, w)
    case Leave(m, w) => Left(n, m, w)
    case OpenVideo(m, v) => VideoOpened(n, m, v)
    case CloseVideo(m, v) => VideoClosed(n, m, v)
    case StartTyping(m, v) => TypingStarted(n, m, v)
    case StopTyping(m, v) => TypingStopped(n, m, v)
    case Emit(kind, payload, audience) => Publish(n, Payload(kind, payload), audience)
    case Fire(handle, order) => TimerFired(n, handle, order)
  }

  function Run(n: Node, cs: seq<Command>): Node
    decreases |cs|
  {
    if cs == [] then n else Run(Step(n, cs[0]), cs[1..])
  }

  // ---------------------------------------------------------- the invariants

  /** The two connection maps are inverse to each other, and no member is listed without a connection. */
  ghost predicate MapsInverse(n: Node) {
    Inverse(n.connectionMember, n.connectionsByMember)
  }

  ghost predicate Inverse(owner: map<Id, Id>, owned: map<Id, set<Id>>) {
    && (forall c :: c in owner ==> c in SetOf(owned, owner[c]))
    && (forall m, c :: m in owned && c in owned[m] ==> c in owner && owner[c] == m)
    && (forall m :: m in owned ==> owned[m] != {})
  }

  /** No departure is pending for a connected member; whoever is present or viewing is connected or departing. */
  ghost predicate PresenceBacked(n: Node) {
    && n.departureTimers.Keys !! n.connectionsByMember.Keys
    && n.memberWorkspaces.Keys + n.memberVideos.Keys <= n.connectionsByMember.Keys + n.departureTimers.Keys
  }

  /** The live timers are exactly those the two timer maps hold. */
  ghost predicate TimersTied(n: Node) {
    Tied(n.live, n.nextHandle, n.typingTimers, n.departureTimers)
  }

  ghost predicate Tied(live: map<nat, Callback>, nextHandle: nat, typing: map<string, nat>, departures: map<Id, nat>) {
    && (forall h :: h in live ==> h < nextHandle && Held(live[h], h, typing, departures))
    && (forall k :: k in typing ==> typing[k] in live && live[typing[k]].StopTypingOf? && KeyOf(live[typing[k]]) == k)
    && (forall m :: m in departures ==> departures[m] in live && live[departures[m]] == FireDepartureOf(m))
  }

  function KeyOf(c: Callback): string
    requires c.StopTypingOf?
  {
    TypingKey(c.memberId, c.videoId)
  }

  ghost predicate Held(c: Callback, h: nat, typing: map<string, nat>, departures: map<Id, nat>) {
    match c
    case StopTypingOf(_, _) => KeyOf(c) in typing && typing[KeyOf(c)] == h
    case FireDepartureOf(m) => m in departures && departures[m] == h
  }

  ghost predicate Good(n: Node) {
    MapsInverse(n) && PresenceBacked(n) && TimersTied(n)
  }

  /**
   * What a caller must see to: a live connection id is not taken over by another
   * member, and a member joins or opens a video only while online, joining only
   * while connected.
   */
  predicate Allowed(n: Node, c: Command) {
    match c
    case Connect(m, conn) => conn !in n.connectionMember || n.connectionMember[conn] == m
    case Join(m, _) => m in n.connectionsByMember
    case OpenVideo(m, _) => m in n.connectionsByMember || m in n.departureTimers
    case _ => true
  }

  // ------------------------------------------------------ one step at a time

  lemma DropTyping(live: map<nat, Callback>, next: nat, typing: map<string, nat>, departures: map<Id, nat>, key: string)
    requires Tied(live, next, typing, departures) && key in typing
    ensures Tied(live - {typing[key]}, next, typing - {key}, departures)
  {
    hide KeyOf;
  }

  lemma ArmTyping(live: map<nat, Callback>, next: nat, typing: map<string, nat>, departures: map<Id, nat>, c: Callback)
    requires Tied(live, next, typing, departures) && c.StopTypingOf? && KeyOf(c) !in typing
    ensures Tied(live[next := c], next + 1, typing[KeyOf(c) := next], departures)
  {
    hide KeyOf;
  }

  lemma DropDeparture(live: map<nat, Callback>, next: nat, typing: map<string, nat>, departures: map<Id, nat>, m: Id)
    requires Tied(live, next, typing, departures) && m in departures
    ensures Tied(live - {departures[m]}, next, typing, departures - {m})
  {
    hide KeyOf;
  }

  lemma ArmDeparture(live: map<nat, Callback>, next: nat, typing: map<string, nat>, departures: map<Id, nat>, m: Id)
    requires Tied(live, next, typing, departures) && m !in departures
    ensures Tied(live[next := FireDepartureOf(m)], next + 1, typing, departures[m := next])
  {
    hide KeyOf;
  }

  lemma CancelKeepsTimers(n: Node, m: Id)
    requires TimersTied(n)
    ensures TimersTied(CancelDeparture(n, m)) && m !in CancelDeparture(n, m).departureTimers
  {
    hide Tied;
    if m in n.departureTimers {
      DropDeparture(n.live, n.nextHandle, n.typingTimers, n.departureTimers, m);
    }
  }

  lemma ScheduleKeepsTimers(n: Node, m: Id)
    requires TimersTied(n)
    ensures TimersTied(ScheduleDeparture(n, m))
  {
    hide Tied, CancelDeparture;
    CancelKeepsTimers(n, m);
    var c := CancelDeparture(n, m);
    ArmDeparture(c.live, c.nextHandle, c.typingTimers, c.departureTimers, m);
  }

  lemma StartTypingKeepsTimers(n: Node, m: Id, v: Id)
    requires TimersTied(n)
    ensures TimersTied(TypingStarted(n, m, v))
  {
    hide Tied, TypingKey;
    var key, c := TypingKey(m, v), StopTypingOf(m, v);
    if key in n.typingTimers {
      DropTyping(n.live, n.nextHandle, n.typingTimers, n.departureTimers, key);
      ArmTyping(n.live - {n.typingTimers[key]}, n.nextHandle, n.typingTimers - {key}, n.departureTimers, c);
      assert (n.typingTimers - {key})[key := n.nextHandle] == n.typingTimers[key := n.nextHandle];
    } else {
      ArmTyping(n.live, n.nextHandle, n.typingTimers, n.departureTimers, c);
    }
  }

  lemma StopTypingKeepsTimers(n: Node, m: Id, v: Id)
    requires TimersTied(n)
    ensures TimersTied(TypingStopped(n, m, v))
  {
    hide Tied, TypingKey;
    if TypingKey(m, v) in n.typingTimers {
      DropTyping(n.live, n.nextHandle, n.typingTimers, n.departureTimers, TypingKey(m, v));
    }
  }

  lemma LiveTimerIsHeld(n: Node, h: nat)
    requires TimersTied(n) && h in n.live
    ensures Held(n.live[h], h, n.typingTimers, n.departureTimers)
  {
  }

  lemma FireKeepsTimers(n: Node, h: nat, order: seq<Id>)
    requires TimersTied(n)
    ensures TimersTied(TimerFired(n, h, order))
  {
    hide Tied, TypingKey, Leaves;
    if h in n.live {
      LiveTimerIsHeld(n, h);
      var spent := n.live - {h};
      assert spent - {h} == spent;
      match n.live[h]
      case StopTypingOf(m, v) =>
        DropTyping(n.live, n.nextHandle, n.typingTimers, n.departureTimers, TypingKey(m, v));
      case FireDepartureOf(m) =>
        DropDeparture(n.live, n.nextHandle, n.typingTimers, n.departureTimers, m);
    }
  }

  /** The timers are tied to the maps in every state, whatever the callers do. */
  lemma StepKeepsTimers(n: Node, c: Command)
    requires TimersTied(n)
    ensures TimersTied(Step(n, c))
  {
    hide Tied, CancelDeparture, ScheduleDeparture, TypingStarted, TypingStopped, TimerFired;
    match c
    case Connect(m, conn) =>
      CancelKeepsTimers(n.(connectionMember := n.connectionMember[conn := m],
                           connectionsByMember := AddToSet(n.connectionsByMember, m, conn)), m);
    case Disconnect(conn) =>
      if conn in n.connectionMember {
        var m := n.connectionMember[conn];
        ScheduleKeepsTimers(n.(connectionMember := n.connectionMember - {conn},
                               connectionsByMember := RemoveFromSet(n.connectionsByMember, m, conn)), m);
      }
    case Join(m, w) => CancelKeepsTimers(n, m);
    case StartTyping(m, v) => StartTypingKeepsTimers(n, m, v);
    case StopTyping(m, v) => StopTypingKeepsTimers(n, m, v);
    case Fire(h, order) => FireKeepsTimers(n, h, order);
    case _ =>
  }

  /** A new connection keeps the maps inverse exactly when it does not take over another member's connection. */
  lemma ConnectKeepsInverse(owner: map<Id, Id>, owned: map<Id, set<Id>>, m: Id, c: Id)
    requires Inverse(owner, owned)
    ensures Inverse(owner[c := m], AddToSet(owned, m, c)) <==> c !in owner || owner[c] == m
  {
    var owner', owned' := owner[c := m], AddToSet(owned, m, c);
    if c in owner && owner[c] != m {
      assert c in owned[owner[c]];
      assert owned'[owner[c]] == owned[owner[c]];
      assert owner'[c] == m;
    } else {
      forall m', c' | m' in owned' && c' in owned'[m']
        ensures c' in owner' && owner'[c'] == m'
      {
        if m' != m || c' != c {
          assert c' in SetOf(owned, m');
        }
      }
    }
  }

  lemma DisconnectKeepsInverse(owner: map<Id, Id>, owned: map<Id, set<Id>>, c: Id)
    requires Inverse(owner, owned) && c in owner
    ensures Inverse(owner - {c}, RemoveFromSet(owned, owner[c], c))
  {
    var m := owner[c];
    var owned' := RemoveFromSet(owned, m, c);
    forall c' | c' in owner - {c}
      ensures c' in SetOf(owned', owner[c'])
    {
      assert c' in owned[owner[c']];
      if owner[c'] == m {
        assert c' in owned[m] - {c};
      }
    }
  }

  lemma EditedKeys(index: map<Id, set<Id>>, k: Id, v: Id)
    ensures AddToSet(index, k, v).Keys == index.Keys + {k}
    ensures index.Keys - {k} <= RemoveFromSet(index, k, v).Keys <= index.Keys
  {
  }

  lemma CancelledKeys(n: Node, m: Id)
    ensures var r := CancelDeparture(n, m);
            r.departureTimers.Keys == n.departureTimers.Keys - {m} &&
            r.connectionMember == n.connectionMember && r.connectionsByMember == n.connectionsByMember &&
            r.memberWorkspaces == n.memberWorkspaces && r.memberVideos == n.memberVideos &&
            r.typingTimers == n.typingTimers && r.published == n.published
  {
  }

  lemma ScheduledKeys(n: Node, m: Id)
    ensures var r := ScheduleDeparture(n, m);
            r.departureTimers.Keys == n.departureTimers.Keys + {m} &&
            r.connectionMember == n.connectionMember && r.connectionsByMember == n.connectionsByMember &&
            r.memberWorkspaces == n.memberWorkspaces && r.memberVideos == n.memberVideos &&
            r.typingTimers == n.typingTimers && r.published == n.published
  {
    hide CancelDeparture;
    CancelledKeys(n, m);
  }

  lemma ConnectGood(n: Node, m: Id, conn: Id)
    requires Good(n)
    ensures Good(Connected(n, m, conn)) <==> Allowed(n, Connect(m, conn))
  {
    hide Inverse, Tied, CancelDeparture, AddToSet;
    StepKeepsTimers(n, Connect(m, conn));
    ConnectKeepsInverse(n.connectionMember, n.connectionsByMember, m, conn);
    EditedKeys(n.connectionsByMember, m, conn);
    CancelledKeys(n.(connectionMember := n.connectionMember[conn := m],
                     connectionsByMember := AddToSet(n.connectionsByMember, m, conn)), m);
  }

  /** A member that lost its last connection departs; others stay backed. */
  lemma StillBacked(departing: set<Id>, connected: set<Id>, left: set<Id>, present: set<Id>, m: Id)
    requires departing !! connected && present <= connected + departing && connected - {m} <= left <= connected
    ensures if m in left then departing !! left && present <= left + departing
            else (departing + {m}) !! left && present <= left + (departing + {m})
  {
  }

  lemma DisconnectGood(n: Node, conn: Id)
    requires Good(n)
    ensures Good(Disconnected(n, conn))
  {
    hide Inverse, Tied, ScheduleDeparture, RemoveFromSet;
    StepKeepsTimers(n, Disconnect(conn));
    if conn in n.connectionMember {
      var m := n.connectionMember[conn];
      var owned := RemoveFromSet(n.connectionsByMember, m, conn);
      DisconnectKeepsInverse(n.connectionMember, n.connectionsByMember, conn);
      EditedKeys(n.connectionsByMember, m, conn);
      ScheduledKeys(n.(connectionMember := n.connectionMember - {conn}, connectionsByMember := owned), m);
      StillBacked(n.departureTimers.Keys, n.connectionsByMember.Keys, owned.Keys,
                  n.memberWorkspaces.Keys + n.memberVideos.Keys, m);
    }
  }

  lemma JoinGood(n: Node, m: Id, w: Id)
    requires Good(n)
    ensures Good(Joined(n, m, w)) <==> Allowed(n, Join(m, w))
  {
    hide Inverse, Tied, CancelDeparture, AddToSet;
    StepKeepsTimers(n, Join(m, w));
    CancelledKeys(n, m);
    EditedKeys(n.memberWorkspaces, m, w);
    var r := Joined(n, m, w);
    assert m in r.memberWorkspaces.Keys && m !in r.departureTimers.Keys;
  }

  lemma FireGood(n: Node, h: nat, order: seq<Id>)
    requires Good(n)
    ensures Good(TimerFired(n, h, order))
  {
    hide Inverse, Tied, TypingKey, Leaves;
    StepKeepsTimers(n, Fire(h, order));
    if h in n.live {
      LiveTimerIsHeld(n, h);
    }
  }

  lemma ViewGood(n: Node, m: Id, v: Id)
    requires Good(n)
    ensures Good(VideoOpened(n, m, v)) <==> Allowed(n, OpenVideo(m, v))
    ensures Good(VideoClosed(n, m, v)) && Good(Left(n, m, v))
  {
    hide Inverse, Tied, AddToSet, RemoveFromSet;
    EditedKeys(n.memberVideos, m, v);
    EditedKeys(n.memberWorkspaces, m, v);
    var r := VideoOpened(n, m, v);
    assert m in r.memberVideos.Keys;
  }

  /**
   * A step from a good state leads to a good state exactly when the caller saw
   * to what it must; every other command is always safe.
   */
  lemma StepGoodIffAllowed(n: Node, c: Command)
    requires Good(n)
    ensures Good(Step(n, c)) <==> Allowed(n, c)
  {
    hide Inverse, Tied, Connected, Disconnected, Joined, TimerFired, VideoOpened, VideoClosed, Left, TypingKey;
    match c
    case Connect(m, conn) => ConnectGood(n, m, conn);
    case Disconnect(conn) => DisconnectGood(n, conn);
    case Join(m, w) => JoinGood(n, m, w);
    case Leave(m, w) => ViewGood(n, m, w);
    case OpenVideo(m, v) => ViewGood(n, m, v);
    case CloseVideo(m, v) => ViewGood(n, m, v);
    case Fire(h, order) => FireGood(n, h, order);
    case _ => StepKeepsTimers(n, c);
  }

  /** Every command of the run is allowed in the state it meets. */
  predicate AllowedRun(n: Node, cs: seq<Command>)
    decreases |cs|
  {
    cs == [] || (Allowed(n, cs[0]) && AllowedRun(Step(n, cs[0]), cs[1..]))
  }

  /** Every state of an allowed run of a new node is good, whenever the timers fire. */
  lemma {:induction false} AllowedRunsAreGood(n: Node, cs: seq<Command>)
    requires Good(n) && AllowedRun(n, cs)
    ensures Good(Run(n, cs))
    decreases |cs|
  {
    if cs != [] {
      StepGoodIffAllowed(n, cs[0]);
      AllowedRunsAreGood(Step(n, cs[0]), cs[1..]);
    }
  }

  lemma NewNodeIsGood()
    ensures Good(NEW_NODE)
  {
  }

  // ----------------------------------------------------------- typing events

  /** The typing events under one key, true for a start. */
  function TypingLog(published: seq<Envelope>, key: string): seq<bool> {
    if published == [] then []
    else
      TypingLog(published[..|published| - 1], key) +
      match published[|published| - 1].event
      case TypingStart(m, v) => if TypingKey(m, v) == key then [true] else []
      case TypingStop(m, v) => if TypingKey(m, v) == key then [false] else []
      case _ => []
  }

  /** Start, stop, start, stop, and so on. */
  ghost predicate Alternates(log: seq<bool>) {
    forall i :: 0 <= i < |log| ==> log[i] == (i % 2 == 0)
  }

  /** The log under one key alternates, with a start last exactly while a stop is pending. */
  ghost predicate AlternatesUnder(n: Node, key: string) {
    Alternates(TypingLog(n.published, key)) && (key in n.typingTimers <==> |TypingLog(n.published, key)| % 2 == 1)
  }

  /** Under every key the typing events alternate, the last one a start exactly while a stop is pending. */
  ghost predicate TypingAlternates(n: Node) {
    forall key :: AlternatesUnder(n, key)
  }

  lemma LogGrows(published: seq<Envelope>, e: Envelope, key: string)
    ensures TypingLog(published + [e], key) ==
              TypingLog(published, key) +
              match e.event
              case TypingStart(m, v) => if TypingKey(m, v) == key then [true] else []
              case TypingStop(m, v) => if TypingKey(m, v) == key then [false] else []
              case _ => []
  {
    assert (published + [e])[..|published|] == published;
  }

  lemma {:induction false} LeavesAreNotTyping(published: seq<Envelope>, m: Id, order: seq<Id>, key: string)
    ensures TypingLog(published + Leaves(m, order), key) == TypingLog(published, key)
  {
    if order == [] {
      assert published + [] == published;
    } else {
      var front, last := order[..|order| - 1], order[|order| - 1];
      var e := Envelope(PresenceLeave(m, last), ToWorkspace(last, Some(m)));
      LeavesAreNotTyping(published, m, front, key);
      LogGrows(published + Leaves(m, front), e, key);
      assert published + Leaves(m, order) == (published + Leaves(m, front)) + [e];
      assert TypingLog(published, key) + [] == TypingLog(published, key);
    }
  }

  lemma SilentEvent(published: seq<Envelope>, e: Envelope)
    requires !e.event.TypingStart? && !e.event.TypingStop?
    ensures forall key :: TypingLog(published + [e], key) == TypingLog(published, key)
  {
    forall key
      ensures TypingLog(published + [e], key) == TypingLog(published, key)
    {
      LogGrows(published, e, key);
      assert TypingLog(published, key) + [] == TypingLog(published, key);
    }
  }

  lemma StartLogged(log: seq<bool>)
    requires Alternates(log) && |log| % 2 == 0
    ensures Alternates(log + [true]) && |log + [true]| % 2 == 1
  {
  }

  lemma StartedLog(n: Node, m: Id, v: Id, key: string)
    ensures TypingLog(TypingStarted(n, m, v).published, key) ==
            TypingLog(n.published, key) + if key == TypingKey(m, v) && key !in n.typingTimers then [true] else []
  {
    hide TypingLog, TypingKey;
    LogGrows(n.published, Envelope(TypingStart(m, v), ToVideo(v, Some(m))), key);
    assert TypingLog(n.published, key) + [] == TypingLog(n.published, key);
  }

  lemma StartedTimers(n: Node, m: Id, v: Id, key: string)
    ensures key in TypingStarted(n, m, v).typingTimers <==> key == TypingKey(m, v) || key in n.typingTimers
  {
    hide TypingKey;
  }

  lemma StartAlternatesUnder(n: Node, m: Id, v: Id, key: string)
    requires AlternatesUnder(n, key)
    ensures AlternatesUnder(TypingStarted(n, m, v), key)
  {
    hide TypingLog, TypingKey, Alternates, TypingStarted;
    var log := TypingLog(n.published, key);
    StartedLog(n, m, v, key);
    StartedTimers(n, m, v, key);
    assert log + [] == log;
    if key !in n.typingTimers {
      StartLogged(log);
    }
  }

  lemma StartAlternates(n: Node, m: Id, v: Id)
    requires TypingAlternates(n)
    ensures TypingAlternates(TypingStarted(n, m, v))
  {
    hide TypingLog, TypingKey, TypingStarted, Alternates;
    forall key
      ensures AlternatesUnder(TypingStarted(n, m, v), key)
    {
      assert AlternatesUnder(n, key);
      StartAlternatesUnder(n, m, v, key);
    }
  }

  lemma StopAlternatesUnder(n: Node, m: Id, v: Id, key: string)
    requires AlternatesUnder(n, key)
    ensures AlternatesUnder(TypingStopped(n, m, v), key)
  {
    hide TypingLog, TypingKey;
    var log := TypingLog(n.published, key);
    LogGrows(n.published, Envelope(TypingStop(m, v), ToVideo(v, Some(m))), key);
    assert log + [] == log;
  }

  lemma StopAlternates(n: Node, m: Id, v: Id)
    requires TypingAlternates(n)
    ensures TypingAlternates(TypingStopped(n, m, v))
  {
    hide TypingLog, TypingKey, TypingStopped, Alternates;
    forall key
      ensures AlternatesUnder(TypingStopped(n, m, v), key)
    {
      assert AlternatesUnder(n, key);
      StopAlternatesUnder(n, m, v, key);
    }
  }

  /** What signals no typing leaves the alternation as it is. */
  lemma SameTyping(n: Node, next: Node)
    requires TypingAlternates(n) && next.typingTimers == n.typingTimers
    requires forall key :: TypingLog(next.published, key) == TypingLog(n.published, key)
    ensures TypingAlternates(next)
  {
    hide TypingLog, Alternates;
    forall key
      ensures AlternatesUnder(next, key)
    {
      assert AlternatesUnder(n, key);
    }
  }

  /** No command, allowed or not, breaks the alternation under a key. */
  lemma StepAlternates(n: Node, c: Command)
    requires TypingAlternates(n)
    ensures TypingAlternates(Step(n, c))
  {
    hide TypingLog, TypingKey, CancelDeparture, ScheduleDeparture, Leaves, TypingStarted, TypingStopped, TypingAlternates;
    match c
    case Connect(m, conn) =>
      CancelledKeys(n.(connectionMember := n.connectionMember[conn := m],
                       connectionsByMember := AddToSet(n.connectionsByMember, m, conn)), m);
      SameTyping(n, Step(n, c));
    case Disconnect(conn) =>
      if conn in n.connectionMember {
        var m := n.connectionMember[conn];
        ScheduledKeys(n.(connectionMember := n.connectionMember - {conn},
                         connectionsByMember := RemoveFromSet(n.connectionsByMember, m, conn)), m);
      }
      SameTyping(n, Step(n, c));
    case Join(m, w) =>
      CancelledKeys(n, m);
      SilentEvent(n.published, Envelope(PresenceJoin(m, w), ToWorkspace(w, Some(m))));
      SameTyping(n, Step(n, c));
    case Leave(m, w) =>
      SilentEvent(n.published, Envelope(PresenceLeave(m, w), ToWorkspace(w, Some(m))));
      SameTyping(n, Step(n, c));
    case OpenVideo(_, _) => SameTyping(n, Step(n, c));
    case CloseVideo(_, _) => SameTyping(n, Step(n, c));
    case StartTyping(m, v) => StartAlternates(n, m, v);
    case StopTyping(m, v) => StopAlternates(n, m, v);
    case Emit(kind, payload, audience) =>
      SilentEvent(n.published, Envelope(Payload(kind, payload), audience));
      SameTyping(n, Step(n, c));
    case Fire(h, order) => FireAlternates(n, h, order);
  }

  lemma FireAlternates(n: Node, h: nat, order: seq<Id>)
    requires TypingAlternates(n)
    ensures TypingAlternates(TimerFired(n, h, order))
  {
    hide TypingLog, TypingKey, Leaves, TypingStopped, TypingAlternates;
    if h in n.live {
      var spent := n.(live := n.live - {h});
      match n.live[h]
      case StopTypingOf(m, v) =>
        SameTyping(n, spent);
        StopAlternates(spent, m, v);
      case FireDepartureOf(m) =>
        forall key
          ensures TypingLog(n.published + Leaves(m, order), key) == TypingLog(n.published, key)
        {
          LeavesAreNotTyping(n.published, m, order, key);
        }
        SameTyping(n, TimerFired(n, h, order));
    }
  }

  // ------------------------------------------ typing events of one member

  /** The typing events of one member on one video, true for a start. */
  function PairLog(published: seq<Envelope>, memberId: Id, videoId: Id): seq<bool> {
    if published == [] then []
    else
      PairLog(published[..|published| - 1], memberId, videoId) +
      match published[|published| - 1].event
      case TypingStart(m, v) => if m == memberId && v == videoId then [true] else []
      case TypingStop(m, v) => if m == memberId && v == videoId then [false] else []
      case _ => []
  }

  /** Members paired with the videos they may type on. */
  type Pairs = iset<(Id, Id)>

  /** No two of the pairs share a key. */
  ghost predicate KeysTell(pairs: Pairs) {
    forall p, q :: p in pairs && q in pairs && TypingKey(p.0, p.1) == TypingKey(q.0, q.1) ==> p == q
  }

  ghost predicate EventIn(pairs: Pairs, e: Event) {
    match e
    case TypingStart(m, v) => (m, v) in pairs
    case TypingStop(m, v) => (m, v) in pairs
    case _ => true
  }

  ghost predicate CommandIn(pairs: Pairs, c: Command) {
    match c
    case StartTyping(m, v) => (m, v) in pairs
    case StopTyping(m, v) => (m, v) in pairs
    case _ => true
  }

  /** Typing is only ever signalled for these pairs. */
  ghost predicate TypingWithin(pairs: Pairs, cs: seq<Command>) {
    forall i :: 0 <= i < |cs| ==> CommandIn(pairs, cs[i])
  }

  ghost predicate TypistsIn(pairs: Pairs, n: Node) {
    && (forall e :: e in n.published ==> EventIn(pairs, e.event))
    && (forall h :: h in n.live && n.live[h].StopTypingOf? ==> (n.live[h].memberId, n.live[h].videoId) in pairs)
  }

  lemma {:induction false} PairLogIsTypingLog(pairs: Pairs, published: seq<Envelope>, m: Id, v: Id)
    requires KeysTell(pairs) && forall e :: e in published ==> EventIn(pairs, e.event)
    ensures if (m, v) in pairs then PairLog(published, m, v) == TypingLog(published, TypingKey(m, v))
            else PairLog(published, m, v) == []
  {
    hide TypingKey;
    if published != [] {
      var last := published[|published| - 1];
      assert last in published;
      PairLogIsTypingLog(pairs, published[..|published| - 1], m, v);
      if (m, v) in pairs && (last.event.TypingStart? || last.event.TypingStop?) {
        var p := (last.event.memberId, last.event.videoId);
        assert p in pairs && (TypingKey(p.0, p.1) == TypingKey(m, v) ==> p == (m, v));
      }
    }
  }

  lemma {:induction false} LeavesIn(pairs: Pairs, m: Id, order: seq<Id>)
    ensures forall e :: e in Leaves(m, order) ==> EventIn(pairs, e.event)
  {
    if order != [] {
      LeavesIn(pairs, m, order[..|order| - 1]);
    }
  }

  /** The timers of a departure are not typing timers. */
  lemma DepartureTimersOnly(n: Node, m: Id)
    ensures forall h :: h in CancelDeparture(n, m).live ==> h in n.live && CancelDeparture(n, m).live[h] == n.live[h]
    ensures forall h :: h in ScheduleDeparture(n, m).live && ScheduleDeparture(n, m).live[h].StopTypingOf? ==>
              h in n.live && ScheduleDeparture(n, m).live[h] == n.live[h]
  {
  }

  lemma TypingKeepsPairs(pairs: Pairs, n: Node, m: Id, v: Id)
    requires TypistsIn(pairs, n) && (m, v) in pairs
    ensures TypistsIn(pairs, TypingStarted(n, m, v)) && TypistsIn(pairs, TypingStopped(n, m, v))
  {
    hide TypingKey;
  }

  lemma FireKeepsPairs(pairs: Pairs, n: Node, h: nat, order: seq<Id>)
    requires TypistsIn(pairs, n)
    ensures TypistsIn(pairs, TimerFired(n, h, order))
  {
    hide TypingKey, Leaves, TypingStopped;
    if h in n.live {
      match n.live[h]
      case StopTypingOf(m, v) => TypingKeepsPairs(pairs, n.(live := n.live - {h}), m, v);
      case FireDepartureOf(m) => LeavesIn(pairs, m, order);
    }
  }

  lemma StepKeepsPairs(pairs: Pairs, n: Node, c: Command)
    requires TypistsIn(pairs, n) && CommandIn(pairs, c)
    ensures TypistsIn(pairs, Step(n, c))
  {
    hide CancelDeparture, ScheduleDeparture, AddToSet, RemoveFromSet, TypingStarted, TypingStopped, TimerFired;
    match c
    case Connect(m, conn) =>
      var r := n.(connectionMember := n.connectionMember[conn := m],
                  connectionsByMember := AddToSet(n.connectionsByMember, m, conn));
      CancelledKeys(r, m);
      DepartureTimersOnly(r, m);
    case Disconnect(conn) =>
      if conn in n.connectionMember {
        var m := n.connectionMember[conn];
        var r := n.(connectionMember := n.connectionMember - {conn},
                    connectionsByMember := RemoveFromSet(n.connectionsByMember, m, conn));
        ScheduledKeys(r, m);
        DepartureTimersOnly(r, m);
      }
    case Join(m, w) =>
      CancelledKeys(n, m);
      DepartureTimersOnly(n, m);
    case StartTyping(m, v) => TypingKeepsPairs(pairs, n, m, v);
    case StopTyping(m, v) => TypingKeepsPairs(pairs, n, m, v);
    case Fire(h, order) => FireKeepsPairs(pairs, n, h, order);
    case _ =>
  }

  lemma {:induction false} RunAlternates(pairs: Pairs, n: Node, cs: seq<Command>)
    requires TypingAlternates(n) && TypistsIn(pairs, n) && TypingWithin(pairs, cs)
    ensures TypingAlternates(Run(n, cs)) && TypistsIn(pairs, Run(n, cs))
    decreases |cs|
  {
    hide TypingAlternates, TypistsIn, Step, CommandIn;
    if cs != [] {
      StepAlternates(n, cs[0]);
      StepKeepsPairs(pairs, n, cs[0]);
      RunAlternates(pairs, Step(n, cs[0]), cs[1..]);
    }
  }

  lemma NothingTyped(pairs: Pairs)
    ensures TypingAlternates(NEW_NODE) && TypistsIn(pairs, NEW_NODE)
  {
  }

  /** Where keys tell the pairs apart, the typing events of each pair alternate. */
  lemma PairsAlternate(pairs: Pairs, cs: seq<Command>, m: Id, v: Id)
    requires KeysTell(pairs) && TypingWithin(pairs, cs)
    ensures Alternates(PairLog(Run(NEW_NODE, cs).published, m, v))
  {
    hide KeysTell, Run, TypingKey, TypingLog, PairLog;
    NothingTyped(pairs);
    RunAlternates(pairs, NEW_NODE, cs);
    PairLogIsTypingLog(pairs, Run(NEW_NODE, cs).published, m, v);
    assert AlternatesUnder(Run(NEW_NODE, cs), TypingKey(m, v));
  }

  lemma RunOfThree(n: Node, a: Command, b: Command, c: Command)
    ensures Run(n, [a, b, c]) == Step(Step(Step(n, a), b), c)
  {
    assert [a, b, c][1..] == [b, c] && [b, c][1..] == [c] && [c][1..] == [];
    assert Run(Step(n, a), [b, c]) == Run(Step(Step(n, a), b), [c]);
  }

  lemma StopWithoutStart(start: Envelope, stop: Envelope, m: Id, v: Id)
    requires start.event.TypingStart? && (start.event.memberId, start.event.videoId) != (m, v) && stop.event == TypingStop(m, v)
    ensures !Alternates(PairLog([start, stop], m, v))
  {
    assert [start, stop][..1] == [start] && [start][..0] == [];
    assert PairLog([start], m, v) == [];
    var log := PairLog([start, stop], m, v);
    assert log == [false] && log[0] != (0 % 2 == 0);
  }

  /** When two pairs share a key, a stop can be announced for one whose start was announced for the other. */
  lemma SharedKeyBreaksAlternation(p: (Id, Id), q: (Id, Id)) returns (cs: seq<Command>)
    requires p != q && TypingKey(p.0, p.1) == TypingKey(q.0, q.1)
    ensures TypingWithin(iset{p, q}, cs) && !Alternates(PairLog(Run(NEW_NODE, cs).published, q.0, q.1))
  {
    hide TypingKey, Alternates, PairLog, Run;
    var first, second, third := StartTyping(p.0, p.1), StartTyping(q.0, q.1), Fire(1, []);
    cs := [first, second, third];
    RunOfThree(NEW_NODE, first, second, third);
    var key := TypingKey(q.0, q.1);
    var n1 := Step(NEW_NODE, first);
    var n2 := Step(n1, second);
    var start := Envelope(TypingStart(p.0, p.1), ToVideo(p.1, Some(p.0)));
    var stop := Envelope(TypingStop(q.0, q.1), ToVideo(q.1, Some(q.0)));
    assert n1.published == [start] && n1.typingTimers == map[key := 0];
    assert n2.published == [start] && n2.live[1] == StopTypingOf(q.0, q.1);
    assert Step(n2, third).published == [start, stop];
    StopWithoutStart(start, stop, q.0, q.1);
  }

  /** Every run over these pairs announces, for each member on each video, a start, a stop, a start, and so on. */
  ghost predicate AlwaysAlternate(pairs: Pairs) {
    forall cs, m, v :: TypingWithin(pairs, cs) ==> Alternates(PairLog(Run(NEW_NODE, cs).published, m, v))
  }

  /**
   * Whatever pairs of members and videos may type, all runs alternate for each
   * pair exactly when no two of the pairs share a key.
   */
  lemma AlternateIffKeysTell(pairs: Pairs)
    ensures AlwaysAlternate(pairs) <==> KeysTell(pairs)
  {
    hide Alternates, PairLog, Run, TypingKey;
    if KeysTell(pairs) {
      forall cs, m, v | TypingWithin(pairs, cs)
        ensures Alternates(PairLog(Run(NEW_NODE, cs).published, m, v))
      {
        PairsAlternate(pairs, cs, m, v);
      }
    } else {
      var p, q :| p in pairs && q in pairs && TypingKey(p.0, p.1) == TypingKey(q.0, q.1) && p != q;
      var cs := SharedKeyBreaksAlternation(p, q);
      forall i | 0 <= i < |cs|
        ensures CommandIn(pairs, cs[i])
      {
        assert CommandIn(iset{p, q}, cs[i]);
      }
      assert TypingWithin(pairs, cs) && !Alternates(PairLog(Run(NEW_NODE, cs).published, q.0, q.1));
    }
  }

  // -------------------------------------------------- ids without colons

  predicate ColonFree(memberId: Id) {
    ':' !in memberId
  }

  /** Under ids without colons the key tells the pair. */
  lemma TypingKeyInjective(m: Id, v: Id, m': Id, v': Id)
    requires ColonFree(m) && ColonFree(m')
    ensures TypingKey(m, v) == TypingKey(m', v') <==> m == m' && v == v'
  {
    var s, t := TypingKey(m, v), TypingKey(m', v');
    assert s == m + ([':', ':'] + v) && t == m' + ([':', ':'] + v');
    assert s[|m|] == ':' && t[|m'|] == ':';
    assert forall i :: 0 <= i < |m| ==> s[i] == m[i] && m[i] != ':';
    assert forall i :: 0 <= i < |m'| ==> t[i] == m'[i] && m'[i] != ':';
    if s == t {
      assert |m| == |m'|;
      assert m == s[..|m|] && m' == t[..|m'|];
      assert v == s[|m| + 2..] && v' == t[|m'| + 2..];
    }
  }

  /**
   * In particular all runs alternate whose typists have ids without colons, such
   * as UUIDs; two pairs of others can share a key.
   */
  lemma TypingEventsAlternate()
    ensures AlwaysAlternate(iset p: (Id, Id) | ColonFree(p.0))
    ensures !AlwaysAlternate(iset{("a", "b::c"), ("a::b", "c")})
  {
    hide AlwaysAlternate, TypingKey, ColonFree;
    var colonFree := iset p: (Id, Id) | ColonFree(p.0);
    forall p, q | p in colonFree && q in colonFree && TypingKey(p.0, p.1) == TypingKey(q.0, q.1)
      ensures p == q
    {
      TypingKeyInjective(p.0, p.1, q.0, q.1);
    }
    AlternateIffKeysTell(colonFree);
    var shared: Pairs := iset{("a", "b::c"), ("a::b", "c")};
    TwoWithOneKey();
    assert ("a", "b::c") in shared && ("a::b", "c") in shared;
    AlternateIffKeysTell(shared);
  }

  lemma TwoWithOneKey()
    ensures TypingKey("a", "b::c") == TypingKey("a::b", "c") && ("a", "b::c") != ("a::b", "c")
  {
  }
}
