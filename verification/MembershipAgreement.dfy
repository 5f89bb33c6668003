/** When followers agree on the order of nodes, exactly. Joins append to the agreed list and
    drops erase from it; the one event that can break the agreement is a join, and the leader
    can tell before it accepts one. */
module MembershipAgreement {
  import opened Membership
  import opened MembershipNodes
  import opened MembershipRuns
  import opened MembershipOrder

  // ----- What a follower will hold

  /** The changes of the heartbeats from k on. */
  function Logs(h: seq<Cut>, k: nat): Log
    requires k <= |h|
  {
    if k == |h| then [] else Logs(h[..|h| - 1], k) + h[|h| - 1].log
  }

  function LogsFrom(s: System, k: nat): Log
    requires k <= |s.history|
  {
    Logs(s.history, k) + s.log
  }

  /** The list of a follower once it has all changes recorded so far. */
  function Eventual(s: System, p: Peer): seq<Address>
    requires p.next <= |s.history|
  {
    Replay(p.nodes, LogsFrom(s, p.next))
  }

  /** The changes that a node joining now will be sent. */
  function Pending(s: System): Log
    requires s.sent <= |s.history|
  {
    LogsFrom(s, s.sent)
  }

  // ----- The agreed list, from the events alone

  function Kept(nodes: seq<Address>, up: set<Address>): seq<Address> {
    if nodes == [] then []
    else (if nodes[0] in up then [nodes[0]] else []) + Kept(nodes[1..], up)
  }

  function AgreedNext(l: seq<Address>, e: Event): seq<Address> {
    match e
    case Join(a) => l + [a]
    case Send(up) => Kept(l, up)
    case _ => l
  }

  function Agreed(events: seq<Event>): seq<Address> {
    if events == [] then [] else AgreedNext(Agreed(events[..|events| - 1]), events[|events| - 1])
  }

  /** The agreed list at every cut. */
  function AgreedCuts(events: seq<Event>): seq<seq<Address>> {
    if events == [] then []
    else
      var front := events[..|events| - 1];
      AgreedCuts(front) + if events[|events| - 1].CutHeartbeat? then [Agreed(front)] else []
  }

  /** The leader's test before it accepts a join: replaying the changes it has yet to send on
      its own connections gives the agreed list. */
  ghost predicate Passes(s: System, l: seq<Address>) {
    s.sent <= |s.history| && Replay(s.others, Pending(s)) == l
  }

  ghost predicate LeadsOrderly(events: seq<Event>, s: System) {
    if events == [] then s == INIT
    else
      var front, e := events[..|events| - 1], events[|events| - 1];
      exists before :: LeadsOrderly(front, before) && Enabled(before, e) && s == Next(before, e)
        && (e.Join? ==> Passes(before, Agreed(front)))
  }

  // ----- Replay and logs

  lemma {:induction false} ReplayAppend(nodes: seq<Address>, log: Log, more: Log)
    ensures Replay(nodes, log + more) == Replay(Replay(nodes, log), more)
  {
    if more == [] {
      assert log + more == log;
    } else {
      ReplayAppend(nodes, log, more[..|more| - 1]);
      assert (log + more)[..|log + more| - 1] == log + more[..|more| - 1];
    }
  }

  lemma ReplayAdd(nodes: seq<Address>, log: Log, a: Address)
    ensures Replay(nodes, log + [Add(a)]) == Apply(Replay(nodes, log), Add(a))
  {
    assert (log + [Add(a)])[..|log|] == log;
  }

  lemma LogsPush(h: seq<Cut>, c: Cut, k: nat)
    requires k <= |h|
    ensures Logs(h + [c], k) == Logs(h, k) + c.log
  {
    assert (h + [c])[..|h|] == h;
  }

  lemma {:induction false} LogsFront(h: seq<Cut>, k: nat)
    requires k < |h|
    ensures Logs(h, k) == h[k].log + Logs(h, k + 1)
  {
    var n := |h| - 1;
    if k < n {
      LogsFront(h[..n], k);
      assert h[..n][k] == h[k];
    } else {
      assert Logs(h[..n], k) == [];
    }
  }

  // ----- Erasing what is dropped

  function Erase(nodes: seq<Address>, gone: set<Address>): seq<Address> {
    if nodes == [] then []
    else (if nodes[0] in gone then [] else [nodes[0]]) + Erase(nodes[1..], gone)
  }

  lemma {:induction false} EraseOne(nodes: seq<Address>, a: Address, gone: set<Address>)
    ensures Erase(Without(nodes, a), gone) == Erase(nodes, gone + {a})
  {
    if nodes != [] {
      EraseOne(nodes[1..], a, gone);
      var rest := Without(nodes[1..], a);
      if nodes[0] == a {
        assert Without(nodes, a) == rest;
      } else {
        assert Without(nodes, a) == [nodes[0]] + rest && ([nodes[0]] + rest)[1..] == rest;
      }
      assert nodes[0] in gone + {a} <==> nodes[0] in gone || nodes[0] == a;
    }
  }

  lemma {:induction false} EraseNone(nodes: seq<Address>)
    ensures Erase(nodes, {}) == nodes
  {
    if nodes != [] {
      EraseNone(nodes[1..]);
    }
  }

  lemma {:induction false} EraseIsKept(nodes: seq<Address>, gone: set<Address>, up: set<Address>)
    requires forall a :: a in nodes ==> (a in gone <==> a !in up)
    ensures Erase(nodes, gone) == Kept(nodes, up)
  {
    if nodes != [] {
      assert nodes[0] in nodes;
      EraseIsKept(nodes[1..], gone, up);
    }
  }

  lemma {:induction false} KeptMembers(nodes: seq<Address>, up: set<Address>, a: Address)
    ensures a in Kept(nodes, up) <==> a in nodes && a in up
  {
    if nodes != [] {
      KeptMembers(nodes[1..], up, a);
      assert nodes == [nodes[0]] + nodes[1..];
    }
  }

  lemma {:induction false} KeptDistinct(nodes: seq<Address>, up: set<Address>)
    requires NoDuplicates(nodes)
    ensures NoDuplicates(Kept(nodes, up))
  {
    if nodes != [] {
      assert nodes == [nodes[0]] + nodes[1..];
      assert NoDuplicates(nodes[1..]) && nodes[0] !in nodes[1..];
      KeptDistinct(nodes[1..], up);
      KeptMembers(nodes[1..], up, nodes[0]);
      var rest := Kept(nodes[1..], up);
      assert Kept(nodes, up) == if nodes[0] in up then [nodes[0]] + rest else rest;
    }
  }

  lemma {:induction false} KeptAll(nodes: seq<Address>, up: set<Address>)
    requires forall a :: a in nodes ==> a in up
    ensures Kept(nodes, up) == nodes
  {
    if nodes != [] {
      assert nodes[0] in nodes;
      KeptAll(nodes[1..], up);
    }
  }

  /** A round of sending adds to the log the removal of every connection that is down. */
  lemma {:induction false} SendErases(
    others: seq<Address>, log: Log, i: nat, up: set<Address>, nodes: seq<Address>)
    requires i <= |others|
    ensures Replay(nodes, SendDown(others, log, i, up).1) == Erase(Replay(nodes, log), Members(others[..i]) - up)
    decreases i
  {
    if i == 0 {
      assert Members(others[..0]) - up == {};
      EraseNone(Replay(nodes, log));
    } else {
      var c := others[i - 1];
      assert others[..i] == others[..i - 1] + [c];
      if c in up {
        SendErases(others, log, i - 1, up, nodes);
        assert Members(others[..i]) - up == Members(others[..i - 1]) - up;
      } else {
        var next, log1 := SwapRemove(others, i - 1), log + [Remove(c)];
        SendErases(next, log1, i - 1, up, nodes);
        assert next[..i - 1] == others[..i - 1];
        assert log1[..|log|] == log;
        EraseOne(Replay(nodes, log), c, Members(others[..i - 1]) - up);
        assert Members(others[..i]) - up == (Members(others[..i - 1]) - up) + {c};
      }
    }
  }

  // ----- Every follower will hold the leader's connections

  lemma {:induction false} CatchesUp(s: System, nodes: seq<Address>, next: nat, joined: nat, k: nat)
    requires LeaderInv(s) && next <= k <= |s.history| && joined <= |s.history| && joined <= next + 1
    requires NodesInStep(s, nodes, next, joined)
    ensures NodesInStep(s, Replay(nodes, Logs(s.history[..k], next)), k, joined)
    decreases k
  {
    hide NodesInStep, LeaderInv, Replay;
    if k == next {
      NothingReplayed(nodes);
    } else {
      CatchesUp(s, nodes, next, joined, k - 1);
      var h, c := s.history[..k - 1], s.history[k - 1];
      assert s.history[..k] == h + [c];
      LogsPush(h, c, next);
      ReplayAppend(nodes, Logs(h, next), c.log);
      NodesStayInStep(s, Replay(nodes, Logs(h, next)), k - 1, joined);
    }
  }

  lemma NothingReplayed(nodes: seq<Address>)
    ensures Replay(nodes, []) == nodes
  {}

  lemma EventualMembers(s: System, nodes: seq<Address>, next: nat, joined: nat)
    requires LeaderInv(s) && next <= |s.history| && joined <= |s.history| && joined <= next + 1
    requires NodesInStep(s, nodes, next, joined)
    ensures var l := Replay(nodes, LogsFrom(s, next)); Members(l) == Members(s.others) && NoDuplicates(l)
  {
    hide LeaderInv, Replay, NoDuplicates, ReplaySet, Logs, AgreeOff, CleanLog, CleanNodes;
    var n := |s.history|;
    CatchesUp(s, nodes, next, joined, n);
    assert s.history[..n] == s.history;
    var now := Replay(nodes, Logs(s.history, next));
    ExplainedAt(s, n);
    ReplayAppend(nodes, Logs(s.history, next), s.log);
    ReplayIsReplaySet(now, s.log);
    if n == joined {
      ReplayConverges(Members(now), Members(Base(s, n)), s.log);
    }
  }

  // ----- One step

  ghost predicate Same(s: System, l: seq<Address>) {
    forall a :: a in s.others ==>
      a in s.peers && s.peers[a].next <= |s.history| && Eventual(s, s.peers[a]) == l
  }

  ghost predicate AgreeInv(s: System, l: seq<Address>) {
    Inv(s) && Same(s, l) && NoDuplicates(l) && Members(l) == Members(s.others)
  }

  lemma ConnectedPeer(s: System, a: Address)
    requires Inv(s) && a in s.others
    ensures a in s.peers
    ensures var p := s.peers[a];
      && p.next <= |s.history| && p.joined <= |s.history| && p.joined <= p.next + 1
      && p.next + |p.inbox| == s.sent <= |s.history| && NodesInStep(s, p.nodes, p.next, p.joined)
  {
    hide LeaderInv, NodesInStep, Text;
    assert PeerInv(s, a, s.peers[a]);
  }

  /** Cutting, receiving and crawl ids leave what followers will hold as it is. */
  lemma QuietStep(s: System, e: Event, a: Address)
    requires Inv(s) && Enabled(s, e) && (e.CutHeartbeat? || e.Receive? || e.SetCrawlID?) && a in s.others
    ensures var s' := Next(s, e);
      && s'.others == s.others && a in s'.peers && s'.peers[a].next <= |s'.history|
      && Eventual(s', s'.peers[a]) == Eventual(s, s.peers[a])
      && s'.peers[a].joined == s.peers[a].joined
  {
    hide Replay, Delivered, LeaderInv, PeerInv, Logs;
    ConnectedPeer(s, a);
    var p := s.peers[a];
    if e.CutHeartbeat? {
      LogsPush(s.history, Cut(s.crawlID, s.log, s.others), p.next);
      assert LogsFrom(Next(s, e), p.next) == LogsFrom(s, p.next);
    } else if e.Receive? && e.node == a {
      var c := s.history[p.next];
      DeliveredAt(s, a);
      LogsFront(s.history, p.next);
      assert LogsFrom(s, p.next) == c.log + LogsFrom(s, p.next + 1);
      ReplayAppend(p.nodes, c.log, LogsFrom(s, p.next + 1));
    }
  }

  lemma DeliveredAt(s: System, a: Address)
    requires Inv(s) && Enabled(s, Receive(a))
    ensures var p := s.peers[a];
      && p.next < |s.history|
      && var c := s.history[p.next];
         Delivered(p) == Peer(Replay(p.nodes, c.log), c.crawlID, p.inbox[1..], p.joined, p.next + 1)
  {
    hide LeaderInv, Delivered, Replay, Text, InStep, IsCounted;
    assert PeerInv(s, a, s.peers[a]);
    DeliveredIs(s, s.peers[a]);
  }

  /** A round of sending erases the dropped connections from what every follower will hold. */
  lemma SendStep(s: System, up: set<Address>, a: Address)
    requires Inv(s) && Enabled(s, Send(up)) && a in s.others
    ensures var s' := Next(s, Send(up));
      && a in s'.peers && s'.peers[a].next <= |s'.history|
      && Eventual(s', s'.peers[a]) == Kept(Eventual(s, s.peers[a]), up)
      && s'.peers[a].joined == s.peers[a].joined
  {
    hide Replay, LeaderInv, PeerInv, Logs, SendDown, Served, Text, NodesInStep;
    ConnectedPeer(s, a);
    var p, n := s.peers[a], |s.others|;
    var logs := Logs(s.history, p.next);
    var now, l := Replay(p.nodes, logs), Eventual(s, p);
    ReplayAppend(p.nodes, logs, s.log);
    ReplayAppend(p.nodes, logs, Next(s, Send(up)).log);
    SendErases(s.others, s.log, n, up, now);
    assert s.others[..n] == s.others;
    InvLeader(s);
    EventualMembers(s, p.nodes, p.next, p.joined);
    forall b | b in l ensures b in Members(s.others) - up <==> b !in up {
      assert b in Members(l);
    }
    EraseIsKept(l, Members(s.others) - up, up);
  }

  lemma InvLeader(s: System)
    requires Inv(s)
    ensures LeaderInv(s) && s.sent <= |s.history|
  {
    hide PeerInv, Explained;
  }

  /** A join appends to what the others will hold; the newcomer starts from the leader's own
      connections and will be sent what is pending. */
  lemma JoinStep(s: System, a: Address, b: Address)
    requires Inv(s) && Enabled(s, Join(a)) && b in s.others + [a]
    ensures s.sent <= |s.history| && a !in Replay(s.others, Pending(s))
    ensures var s' := Next(s, Join(a));
      && b in s'.peers && s'.peers[b].next <= |s'.history|
      && (b == a ==> Eventual(s', s'.peers[b]) == Replay(s.others, Pending(s)) + [a])
      && (b != a ==> b in s.others && b in s.peers && s.peers[b].next <= |s.history|)
      && (b != a ==> Eventual(s', s'.peers[b]) == Eventual(s, s.peers[b]) + [a])
  {
    hide Replay, LeaderInv, PeerInv, Logs, Joined, CleanAddress, NodesInStep;
    InvLeader(s);
    SnapshotInStep(s);
    EventualMembers(s, s.others, s.sent, |s.history|);
    NotIn(s.others, Replay(s.others, Pending(s)), a);
    if b == a {
      JoinedIs(s, a);
      assert LogsFrom(Next(s, Join(a)), s.sent) == Pending(s) + [Add(a)];
      ReplayAdd(s.others, Pending(s), a);
    } else {
      ConnectedPeer(s, b);
      var p := s.peers[b];
      EventualMembers(s, p.nodes, p.next, p.joined);
      NotIn(s.others, Eventual(s, p), a);
      assert LogsFrom(Next(s, Join(a)), p.next) == LogsFrom(s, p.next) + [Add(a)];
      ReplayAdd(p.nodes, LogsFrom(s, p.next), a);
    }
  }

  lemma NotIn(others: seq<Address>, l: seq<Address>, a: Address)
    requires Members(l) == Members(others) && a !in others
    ensures a !in l
  {
    assert a in Members(l) <==> a in Members(others);
  }

  /** The leader's connections are in step as the snapshot of a node that joins now. */
  lemma SnapshotInStep(s: System)
    requires Inv(s)
    ensures s.sent <= |s.history| <= s.sent + 1
    ensures NodesInStep(s, s.others, s.sent, |s.history|)
  {
    hide PeerInv, NoDuplicates, ReplaySet, AgreeOff, CleanLog, CleanNodes;
    ExplainedAt(s, |s.history|);
    AgreeAfter(Members(Base(s, |s.history|)), s.log);
  }

  /** The agreed list is kept by every event, whatever drops, except that a join keeps it if
      and only if it passes the leader's test. */
  lemma StepAgrees(s: System, e: Event, l: seq<Address>)
    requires AgreeInv(s, l) && Enabled(s, e)
    ensures AgreeInv(Next(s, e), AgreedNext(l, e)) <==> (e.Join? ==> Passes(s, l))
    ensures Inv(Next(s, e)) && (s.others == [] ==> Passes(s, l))
  {
    hide Inv, Enabled, Next, NoDuplicates, Same, Kept, Eventual, Passes;
    StepInv(s, e);
    FirstJoinPasses(s, l);
    match e
    case Join(a) => JoinAgrees(s, a, l);
    case Send(up) => SendAgrees(s, up, l);
    case _ => QuietAgrees(s, e, l);
  }

  lemma FirstJoinPasses(s: System, l: seq<Address>)
    requires AgreeInv(s, l)
    ensures s.others == [] ==> Passes(s, l)
  {
    hide LeaderInv, PeerInv, Replay, Logs, NodesInStep;
    InvLeader(s);
    SnapshotInStep(s);
    EventualMembers(s, s.others, s.sent, |s.history|);
    if s.others == [] {
      HasMember(l);
      HasMember(Replay(s.others, Pending(s)));
    }
  }

  lemma HasMember(l: seq<Address>)
    ensures l != [] ==> Members(l) != {}
  {
    if l != [] {
      assert l[0] in Members(l);
    }
  }

  lemma QuietAgrees(s: System, e: Event, l: seq<Address>)
    requires AgreeInv(s, l) && Enabled(s, e) && (e.CutHeartbeat? || e.Receive? || e.SetCrawlID?) && Inv(Next(s, e))
    ensures AgreeInv(Next(s, e), l)
  {
    hide Inv, Enabled, Delivered, Eventual;
    forall a | a in Next(s, e).others
      ensures a in Next(s, e).peers && Next(s, e).peers[a].next <= |Next(s, e).history|
        && Eventual(Next(s, e), Next(s, e).peers[a]) == l
    {
      QuietStep(s, e, a);
    }
  }

  lemma SendAgrees(s: System, up: set<Address>, l: seq<Address>)
    requires AgreeInv(s, l) && Enabled(s, Send(up)) && Inv(Next(s, Send(up)))
    ensures AgreeInv(Next(s, Send(up)), Kept(l, up))
  {
    hide Inv, Enabled, Eventual, SendDown, Served, Posted, Kept, NoDuplicates;
    var s' := Next(s, Send(up));
    SentLeaves(s, up);
    forall a | a in s'.others
      ensures a in s'.peers && s'.peers[a].next <= |s'.history| && Eventual(s', s'.peers[a]) == Kept(l, up)
    {
      SendStep(s, up, a);
    }
    KeptDistinct(l, up);
    forall a ensures a in Kept(l, up) <==> a in s'.others {
      KeptMembers(l, up, a);
      assert a in l <==> a in Members(l);
    }
  }

  lemma SentLeaves(s: System, up: set<Address>)
    requires Inv(s) && Enabled(s, Send(up))
    ensures forall a :: a in Next(s, Send(up)).others <==> a in s.others && a in up
  {
    hide LeaderInv, PeerInv, SendDown, Served, NoDuplicates, ReplaySet, CleanLog, CleanNodes;
    var n := |s.others|;
    InvLeader(s);
    ExplainedAt(s, |s.history|);
    SendDownMembers(s.others, s.log, n, up);
    assert s.others[..n] == s.others;
    var (others, log) := SendDown(s.others, s.log, n, up);
    forall a ensures a in others <==> a in s.others && a in up {
      assert a in others <==> a in Members(others);
    }
  }

  lemma JoinAgrees(s: System, a: Address, l: seq<Address>)
    requires AgreeInv(s, l) && Enabled(s, Join(a)) && Inv(Next(s, Join(a)))
    ensures AgreeInv(Next(s, Join(a)), l + [a]) <==> Passes(s, l)
  {
    hide Inv, Eventual, Joined, CleanAddress, Replay, Pending;
    var s' := Next(s, Join(a));
    NotIn(s.others, l, a);
    forall b | b in s'.others
      ensures b in s'.peers && s'.peers[b].next <= |s'.history|
      ensures b != a ==> Eventual(s', s'.peers[b]) == l + [a]
    {
      JoinStep(s, a, b);
    }
    JoinStep(s, a, a);
    var mine := Replay(s.others, Pending(s));
    assert mine + [a] == l + [a] ==> mine == l by {
      assert (mine + [a])[..|mine + [a]| - 1] == mine && (l + [a])[..|l + [a]| - 1] == l;
    }
    assert s'.others[|s.others|] == a;
    forall b ensures b in l + [a] <==> b in s'.others {
      assert b in l <==> b in Members(l);
    }
  }

  /** After a join that fails the test, the newcomer and any other connection will hold
      different lists. */
  lemma FailedJoinDiffers(s: System, a: Address, b: Address, l: seq<Address>)
    requires AgreeInv(s, l) && Enabled(s, Join(a)) && b in s.others && !Passes(s, l)
    ensures var s' := Next(s, Join(a));
      && a in s'.others && b in s'.others && a in s'.peers && b in s'.peers
      && s'.peers[a].next <= |s'.history| && s'.peers[b].next <= |s'.history|
      && Eventual(s', s'.peers[a]) != Eventual(s', s'.peers[b])
  {
    hide Inv, Eventual, Joined, CleanAddress, Replay, Pending;
    JoinStep(s, a, a);
    JoinStep(s, a, b);
    var mine := Replay(s.others, Pending(s));
    assert (mine + [a])[..|mine + [a]| - 1] == mine && (l + [a])[..|l + [a]| - 1] == l;
    var s' := Next(s, Join(a));
    assert s'.others[|s.others|] == a;
  }
}
