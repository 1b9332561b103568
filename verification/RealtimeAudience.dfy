/** Who hears an event, read off what the callers of a gateway did. */
module RealtimeAudience {
  import opened Common
  import opened Realtime

  // ----------------------------------------------------- read off the commands

  /** The last thing done with the connection was to connect it for the member. */
  ghost predicate Live(cs: seq<Command>, m: Id, conn: Id) {
    exists i :: 0 <= i < |cs| && cs[i] == Connect(m, conn) &&
      forall j :: i < j < |cs| ==> cs[j] != Disconnect(conn) && !(cs[j].Connect? && cs[j].connectionId == conn)
  }

  /** No connection that is live for one member is connected for another. */
  ghost predicate NoTakeover(cs: seq<Command>) {
    forall i, m :: 0 <= i < |cs| && cs[i].Connect? && Live(cs[..i], m, cs[i].connectionId) ==> m == cs[i].memberId
  }

  /** After these commands, the next one lets the departure timer of the member fire while none of its connections is live. */
  ghost predicate Departs(before: seq<Command>, next: Command, m: Id) {
    && next.Fire?
    && next.handle in Run(NEW_NODE, before).live
    && Run(NEW_NODE, before).live[next.handle] == FireDepartureOf(m)
    && forall conn :: !Live(before, m, conn)
  }

  /** The member joined the workspace and neither left it nor departed since. */
  ghost predicate Present(cs: seq<Command>, m: Id, w: Id) {
    exists i :: 0 <= i < |cs| && cs[i] == Join(m, w) &&
      forall j :: i < j < |cs| ==> cs[j] != Leave(m, w) && !Departs(cs[..j], cs[j], m)
  }

  /** The member opened the video and neither closed it nor departed since. */
  ghost predicate Viewing(cs: seq<Command>, m: Id, v: Id) {
    exists i :: 0 <= i < |cs| && cs[i] == OpenVideo(m, v) &&
      forall j :: i < j < |cs| ==> cs[j] != CloseVideo(m, v) && !Departs(cs[..j], cs[j], m)
  }

  /** The audience names the member and does not exclude it. */
  ghost predicate Addressed(cs: seq<Command>, m: Id, a: Audience) {
    match a
    case ToWorkspace(w, exclude) => Present(cs, m, w) && exclude != Some(m)
    case ToVideo(v, exclude) => Viewing(cs, m, v) && exclude != Some(m)
    case ToMember(member) => m == member
  }

  /** The connection is live for a member that is addressed. */
  ghost predicate Hears(cs: seq<Command>, conn: Id, a: Audience) {
    exists m :: Live(cs, m, conn) && Addressed(cs, m, a)
  }

  // ------------------------------------------------------- one command more

  lemma {:induction false} RunSnoc(n: Node, cs: seq<Command>, c: Command)
    ensures Run(n, cs + [c]) == Step(Run(n, cs), c)
    decreases |cs|
  {
    hide Step;
    if cs == [] {
      assert [] + [c] == [c] && [c][1..] == [];
    } else {
      assert (cs + [c])[1..] == cs[1..] + [c];
      RunSnoc(Step(n, cs[0]), cs[1..], c);
    }
  }

  lemma LiveSnoc(cs: seq<Command>, c: Command, m: Id, conn: Id)
    ensures Live(cs + [c], m, conn) <==>
              c == Connect(m, conn) ||
              (Live(cs, m, conn) && c != Disconnect(conn) && !(c.Connect? && c.connectionId == conn))
  {
    var all := cs + [c];
    assert forall j :: 0 <= j < |cs| ==> all[j] == cs[j];
    if c == Connect(m, conn) {
      assert all[|cs|] == Connect(m, conn);
    } else if Live(cs, m, conn) && c != Disconnect(conn) && !(c.Connect? && c.connectionId == conn) {
      var i :| 0 <= i < |cs| && cs[i] == Connect(m, conn) &&
        forall j :: i < j < |cs| ==> cs[j] != Disconnect(conn) && !(cs[j].Connect? && cs[j].connectionId == conn);
      assert all[i] == Connect(m, conn);
    }
    if Live(all, m, conn) && c != Connect(m, conn) {
      var i :| 0 <= i < |all| && all[i] == Connect(m, conn) &&
        forall j :: i < j < |all| ==> all[j] != Disconnect(conn) && !(all[j].Connect? && all[j].connectionId == conn);
      assert cs[i] == Connect(m, conn);
      assert all[|cs|] == c;
    }
  }

  lemma PresentSnoc(cs: seq<Command>, c: Command, m: Id, w: Id)
    ensures Present(cs + [c], m, w) <==>
              c == Join(m, w) || (Present(cs, m, w) && c != Leave(m, w) && !Departs(cs, c, m))
  {
    hide Departs;
    var all := cs + [c];
    assert all[..|cs|] == cs && all[|cs|] == c;
    forall j | 0 <= j < |cs|
      ensures all[j] == cs[j] && all[..j] == cs[..j]
    {
    }
    if Present(cs, m, w) && c != Leave(m, w) && !Departs(cs, c, m) {
      var i :| 0 <= i < |cs| && cs[i] == Join(m, w) &&
        forall j :: i < j < |cs| ==> cs[j] != Leave(m, w) && !Departs(cs[..j], cs[j], m);
      assert all[i] == Join(m, w);
    }
    if Present(all, m, w) && c != Join(m, w) {
      var i :| 0 <= i < |all| && all[i] == Join(m, w) &&
        forall j :: i < j < |all| ==> all[j] != Leave(m, w) && !Departs(all[..j], all[j], m);
      assert cs[i] == Join(m, w);
    }
  }

  lemma ViewingSnoc(cs: seq<Command>, c: Command, m: Id, v: Id)
    ensures Viewing(cs + [c], m, v) <==>
              c == OpenVideo(m, v) || (Viewing(cs, m, v) && c != CloseVideo(m, v) && !Departs(cs, c, m))
  {
    hide Departs;
    var all := cs + [c];
    assert all[..|cs|] == cs && all[|cs|] == c;
    forall j | 0 <= j < |cs|
      ensures all[j] == cs[j] && all[..j] == cs[..j]
    {
    }
    if Viewing(cs, m, v) && c != CloseVideo(m, v) && !Departs(cs, c, m) {
      var i :| 0 <= i < |cs| && cs[i] == OpenVideo(m, v) &&
        forall j :: i < j < |cs| ==> cs[j] != CloseVideo(m, v) && !Departs(cs[..j], cs[j], m);
      assert all[i] == OpenVideo(m, v);
    }
    if Viewing(all, m, v) && c != OpenVideo(m, v) {
      var i :| 0 <= i < |all| && all[i] == OpenVideo(m, v) &&
        forall j :: i < j < |all| ==> all[j] != CloseVideo(m, v) && !Departs(all[..j], all[j], m);
      assert cs[i] == OpenVideo(m, v);
    }
  }

  lemma NoTakeoverFront(cs: seq<Command>, c: Command)
    requires NoTakeover(cs + [c])
    ensures NoTakeover(cs)
    ensures c.Connect? ==> forall m :: Live(cs, m, c.connectionId) ==> m == c.memberId
  {
    hide Live;
    var all := cs + [c];
    assert all[..|cs|] == cs && all[|cs|] == c;
    forall i, m | 0 <= i < |cs| && cs[i].Connect? && Live(cs[..i], m, cs[i].connectionId)
      ensures m == cs[i].memberId
    {
      assert all[i] == cs[i] && all[..i] == cs[..i];
    }
  }

  // ------------------------------------------------------------ over every run

  /** The connections, the presence and the viewership are the same. */
  predicate SameMembers(n: Node, r: Node) {
    && r.connectionMember == n.connectionMember && r.connectionsByMember == n.connectionsByMember
    && r.memberWorkspaces == n.memberWorkspaces && r.memberVideos == n.memberVideos
  }

  lemma StartKeepsMembers(n: Node, m: Id, v: Id)
    ensures SameMembers(n, TypingStarted(n, m, v))
  {
    hide TypingKey;
  }

  lemma StopKeepsMembers(n: Node, m: Id, v: Id)
    ensures SameMembers(n, TypingStopped(n, m, v))
  {
    hide TypingKey;
  }

  /** A timer that fires leaves the connections alone. */
  lemma FireKeepsConnections(n: Node, h: nat, order: seq<Id>)
    ensures TimerFired(n, h, order).connectionMember == n.connectionMember
    ensures TimerFired(n, h, order).connectionsByMember == n.connectionsByMember
  {
    hide Leaves, TypingStopped;
    if h in n.live && n.live[h].StopTypingOf? {
      StopKeepsMembers(n.(live := n.live - {h}), n.live[h].memberId, n.live[h].videoId);
    }
  }

  lemma StepOwners(n: Node, c: Command, conn: Id)
    ensures var r := Step(n, c);
            if c.Connect? && c.connectionId == conn then conn in r.connectionMember && r.connectionMember[conn] == c.memberId
            else if c == Disconnect(conn) then conn !in r.connectionMember
            else (conn in r.connectionMember <==> conn in n.connectionMember) &&
                 (conn in n.connectionMember ==> r.connectionMember[conn] == n.connectionMember[conn])
  {
    hide TypingKey, RemoveFromSet, AddToSet, CancelDeparture, ScheduleDeparture, TypingStarted, TypingStopped, TimerFired;
    match c
    case Connect(m, o) =>
      CancelledKeys(n.(connectionMember := n.connectionMember[o := m],
                       connectionsByMember := AddToSet(n.connectionsByMember, m, o)), m);
    case Disconnect(o) =>
      if o in n.connectionMember {
        var m := n.connectionMember[o];
        ScheduledKeys(n.(connectionMember := n.connectionMember - {o},
                         connectionsByMember := RemoveFromSet(n.connectionsByMember, m, o)), m);
      }
    case Join(m, _) => CancelledKeys(n, m);
    case StartTyping(m, v) => StartKeepsMembers(n, m, v);
    case StopTyping(m, v) => StopKeepsMembers(n, m, v);
    case Fire(h, order) => FireKeepsConnections(n, h, order);
    case _ =>
  }

  lemma {:induction false} OwnersAreLive(cs: seq<Command>, m: Id, conn: Id)
    ensures Live(cs, m, conn) <==>
              conn in Run(NEW_NODE, cs).connectionMember && Run(NEW_NODE, cs).connectionMember[conn] == m
    decreases |cs|
  {
    hide Step, Live;
    if cs == [] {
      NobodyYet(m, conn, conn);
    } else {
      var front, c := cs[..|cs| - 1], cs[|cs| - 1];
      assert cs == front + [c];
      OwnersAreLive(front, m, conn);
      RunSnoc(NEW_NODE, front, c);
      LiveSnoc(front, c, m, conn);
      StepOwners(Run(NEW_NODE, front), c, conn);
    }
  }

  lemma NobodyYet(m: Id, conn: Id, x: Id)
    ensures !Live([], m, conn) && !Present([], m, x) && !Viewing([], m, x)
  {
  }

  lemma StepInverse(n: Node, c: Command)
    requires MapsInverse(n)
    requires c.Connect? && c.connectionId in n.connectionMember ==> n.connectionMember[c.connectionId] == c.memberId
    ensures MapsInverse(Step(n, c))
  {
    hide Inverse, AddToSet, RemoveFromSet, CancelDeparture, ScheduleDeparture, TypingStarted, TypingStopped, TimerFired;
    match c
    case Connect(m, conn) =>
      ConnectKeepsInverse(n.connectionMember, n.connectionsByMember, m, conn);
      CancelledKeys(n.(connectionMember := n.connectionMember[conn := m],
                       connectionsByMember := AddToSet(n.connectionsByMember, m, conn)), m);
    case Disconnect(conn) =>
      if conn in n.connectionMember {
        var m := n.connectionMember[conn];
        DisconnectKeepsInverse(n.connectionMember, n.connectionsByMember, conn);
        ScheduledKeys(n.(connectionMember := n.connectionMember - {conn},
                         connectionsByMember := RemoveFromSet(n.connectionsByMember, m, conn)), m);
      }
    case Join(m, _) => CancelledKeys(n, m);
    case StartTyping(m, v) => StartKeepsMembers(n, m, v);
    case StopTyping(m, v) => StopKeepsMembers(n, m, v);
    case Fire(h, order) => FireKeepsConnections(n, h, order);
    case _ =>
  }

  lemma {:induction false} RunInverse(cs: seq<Command>)
    requires NoTakeover(cs)
    ensures MapsInverse(Run(NEW_NODE, cs))
    decreases |cs|
  {
    hide Step, Inverse, NoTakeover, Live;
    if cs == [] {
      NewMapsInverse();
    } else {
      var front, c := cs[..|cs| - 1], cs[|cs| - 1];
      assert cs == front + [c];
      NoTakeoverFront(front, c);
      RunInverse(front);
      RunSnoc(NEW_NODE, front, c);
      if c.Connect? && c.connectionId in Run(NEW_NODE, front).connectionMember {
        OwnersAreLive(front, Run(NEW_NODE, front).connectionMember[c.connectionId], c.connectionId);
      }
      StepInverse(Run(NEW_NODE, front), c);
    }
  }

  lemma NewMapsInverse()
    ensures MapsInverse(NEW_NODE)
  {
  }

  /** A member is listed with connections exactly while one of them is live. */
  lemma ListedIsOnline(cs: seq<Command>, m: Id)
    requires NoTakeover(cs)
    ensures m in Run(NEW_NODE, cs).connectionsByMember <==> exists conn :: Live(cs, m, conn)
  {
    hide Live, Run, NoTakeover;
    var n := Run(NEW_NODE, cs);
    RunInverse(cs);
    if m in n.connectionsByMember {
      var conn :| conn in n.connectionsByMember[m];
      OwnersAreLive(cs, m, conn);
    }
    if conn :| Live(cs, m, conn) {
      OwnersAreLive(cs, m, conn);
    }
  }

  lemma EditedSet(index: map<Id, set<Id>>, k: Id, v: Id, m: Id, x: Id)
    ensures x in SetOf(AddToSet(index, k, v), m) <==> (m == k && x == v) || x in SetOf(index, m)
    ensures x in SetOf(RemoveFromSet(index, k, v), m) <==> x in SetOf(index, m) && !(m == k && x == v)
  {
    if m == k && k in index && x in index[k] && x != v {
      assert x in index[k] - {v};
    }
  }

  /** The member departs in the step: its departure timer fires and it is listed with no connection. */
  predicate Departing(n: Node, c: Command, m: Id) {
    c.Fire? && c.handle in n.live && n.live[c.handle] == FireDepartureOf(m) && m !in n.connectionsByMember
  }

  /** What a step does to the audiences that a member is in. */
  lemma StepAudiences(n: Node, c: Command, m: Id, x: Id)
    ensures var r := Step(n, c);
            && (x in SetOf(r.memberWorkspaces, m) <==>
                  c == Join(m, x) || (x in SetOf(n.memberWorkspaces, m) && c != Leave(m, x) && !Departing(n, c, m)))
            && (x in SetOf(r.memberVideos, m) <==>
                  c == OpenVideo(m, x) || (x in SetOf(n.memberVideos, m) && c != CloseVideo(m, x) && !Departing(n, c, m)))
  {
    hide TypingKey, Leaves, RemoveFromSet, AddToSet, CancelDeparture, ScheduleDeparture, TypingStarted, TypingStopped, TimerFired;
    match c
    case Connect(o, conn) =>
      CancelledKeys(n.(connectionMember := n.connectionMember[conn := o],
                       connectionsByMember := AddToSet(n.connectionsByMember, o, conn)), o);
    case Disconnect(conn) =>
      if conn in n.connectionMember {
        var o := n.connectionMember[conn];
        ScheduledKeys(n.(connectionMember := n.connectionMember - {conn},
                         connectionsByMember := RemoveFromSet(n.connectionsByMember, o, conn)), o);
      }
    case Join(o, w) =>
      CancelledKeys(n, o);
      EditedSet(n.memberWorkspaces, o, w, m, x);
    case Leave(o, w) => EditedSet(n.memberWorkspaces, o, w, m, x);
    case OpenVideo(o, v) => EditedSet(n.memberVideos, o, v, m, x);
    case CloseVideo(o, v) => EditedSet(n.memberVideos, o, v, m, x);
    case StartTyping(o, v) => StartKeepsMembers(n, o, v);
    case StopTyping(o, v) => StopKeepsMembers(n, o, v);
    case Fire(h, order) => FireAudiences(n, h, order, m, x);
    case Emit(_, _, _) =>
  }

  lemma FireAudiences(n: Node, h: nat, order: seq<Id>, m: Id, x: Id)
    ensures var r := TimerFired(n, h, order);
            && (x in SetOf(r.memberWorkspaces, m) <==>
                  x in SetOf(n.memberWorkspaces, m) && !Departing(n, Fire(h, order), m))
            && (x in SetOf(r.memberVideos, m) <==> x in SetOf(n.memberVideos, m) && !Departing(n, Fire(h, order), m))
  {
    hide Leaves, TypingStopped;
    if h in n.live && n.live[h].StopTypingOf? {
      StopKeepsMembers(n.(live := n.live - {h}), n.live[h].memberId, n.live[h].videoId);
    }
  }

  /** Over every run: the node knows for a member exactly the workspaces it is present in and the videos it is viewing. */
  lemma {:induction false} AudiencesAreRead(cs: seq<Command>, m: Id, x: Id)
    requires NoTakeover(cs)
    ensures x in SetOf(Run(NEW_NODE, cs).memberWorkspaces, m) <==> Present(cs, m, x)
    ensures x in SetOf(Run(NEW_NODE, cs).memberVideos, m) <==> Viewing(cs, m, x)
    decreases |cs|
  {
    hide Step, NoTakeover, Live, Present, Viewing;
    if cs == [] {
      NobodyYet(m, x, x);
    } else {
      var front, c := cs[..|cs| - 1], cs[|cs| - 1];
      assert cs == front + [c];
      NoTakeoverFront(front, c);
      AudiencesAreRead(front, m, x);
      RunSnoc(NEW_NODE, front, c);
      ListedIsOnline(front, m);
      StepAudiences(Run(NEW_NODE, front), c, m, x);
      PresentSnoc(front, c, m, x);
      ViewingSnoc(front, c, m, x);
    }
  }
}
