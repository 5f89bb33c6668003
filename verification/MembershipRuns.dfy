/** Whole runs of membership replication: nodes join, the leader cuts a heartbeat, sends it
    (dropping the connections that fail), and followers receive. A node may join between a cut
    and its sending, so the first heartbeat it receives may be older than its snapshot. */
module MembershipRuns {
  import opened Codec
  import opened Membership
  import opened MembershipNodes

  // ----- The system

  /** A heartbeat that was cut: what it says, and the leader's connections at that moment. */
  datatype Cut = Cut(crawlID: int, log: Log, members: seq<Address>)

  /** A node that joined when `joined` heartbeats had been cut; next is the heartbeat it will
      process next and inbox the heartbeats in flight to it. */
  datatype Peer = Peer(nodes: seq<Address>, crawlID: int, inbox: seq<string>, joined: nat, next: nat)

  datatype System = System(
    history: seq<Cut>, others: seq<Address>, log: Log, crawlID: int, sent: nat, peers: map<Address, Peer>)

  datatype Event =
    | Join(node: Address)
    | SetCrawlID(id: int)
    | CutHeartbeat
    | Send(up: set<Address>)
    | Receive(node: Address)

  const INIT := System([], [], [], 0, 0, map[])

  function Text(c: Cut): string {
    HeartbeatText(c.crawlID, ChangesText(c.log))
  }

  ghost predicate Enabled(s: System, e: Event) {
    match e
    case Join(a) => CleanAddress(a) && a !in s.others
    case SetCrawlID(id) => IsInt32(id)
    case CutHeartbeat => s.sent == |s.history|
    case Send(_) => s.sent + 1 == |s.history|
    case Receive(a) => a in s.peers && s.peers[a].inbox != []
  }

  function Joined(s: System, a: Address): Peer {
    var (me, nodes) := Initialize(a, [], Split(ReplyText([a] + s.others), FIELD_DELIMITER));
    Peer(nodes, 0, [], |s.history|, s.sent)
  }

  function Delivered(p: Peer): Peer
    requires p.inbox != []
  {
    var fields := Split(p.inbox[0], FIELD_DELIMITER);
    var (id, nodes) := if HasWholeChanges(fields) then Beat(p.crawlID, p.nodes, fields) else (p.crawlID, p.nodes);
    p.(nodes := nodes, crawlID := id, inbox := p.inbox[1..], next := p.next + 1)
  }

  function Posted(s: System, up: set<Address>): map<Address, Peer>
    requires s.history != []
  {
    var served := Served(s.others, |s.others|, up);
    map a | a in s.peers ::
      if a in served then s.peers[a].(inbox := s.peers[a].inbox + [Text(s.history[|s.history| - 1])])
      else s.peers[a]
  }

  ghost function Next(s: System, e: Event): System
    requires Enabled(s, e)
  {
    match e
    case Join(a) => s.(others := s.others + [a], log := s.log + [Add(a)], peers := s.peers[a := Joined(s, a)])
    case SetCrawlID(id) => s.(crawlID := id)
    case CutHeartbeat => s.(history := s.history + [Cut(s.crawlID, s.log, s.others)], log := [])
    case Send(up) =>
      var (others, log) := SendDown(s.others, s.log, |s.others|, up);
      s.(others := others, log := log, sent := |s.history|, peers := Posted(s, up))
    case Receive(a) => s.(peers := s.peers[a := Delivered(s.peers[a])])
  }

  /** The states a run can reach by the given events. */
  ghost predicate Leads(events: seq<Event>, s: System) {
    if events == [] then s == INIT
    else
      var e := events[|events| - 1];
      exists before :: Leads(events[..|events| - 1], before) && Enabled(before, e) && s == Next(before, e)
  }

  // ----- The invariant

  function Base(s: System, k: nat): seq<Address>
    requires k <= |s.history|
  {
    if k == 0 then [] else s.history[k - 1].members
  }

  function LogAt(s: System, k: nat): Log
    requires k <= |s.history|
  {
    if k < |s.history| then s.history[k].log else s.log
  }

  function MembersAt(s: System, k: nat): seq<Address>
    requires k <= |s.history|
  {
    if k < |s.history| then s.history[k].members else s.others
  }

  /** Every log, cut or pending, explains how the connections changed since the last cut. */
  ghost predicate Explained(s: System, k: nat)
    requires k <= |s.history|
  {
    && CleanLog(LogAt(s, k))
    && CleanNodes(MembersAt(s, k))
    && NoDuplicates(MembersAt(s, k))
    && Members(MembersAt(s, k)) == ReplaySet(Members(Base(s, k)), LogAt(s, k))
  }

  ghost predicate LeaderInv(s: System) {
    && s.sent <= |s.history| <= s.sent + 1
    && (forall k: nat :: k <= |s.history| ==> Explained(s, k))
    && (forall c :: c in s.history ==> IsInt32(c.crawlID))
    && IsInt32(s.crawlID)
  }

  ghost predicate InFlight(s: System, p: Peer) {
    && p.next + |p.inbox| <= s.sent <= |s.history|
    && p.joined <= p.next + 1
    && p.joined <= |s.history|
    && forall i :: 0 <= i < |p.inbox| ==> p.inbox[i] == Text(s.history[p.next + i])
  }

  /** Before its first new heartbeat a node may differ from the leader's last cut, but only
      where the log it will then receive overrides; from that heartbeat on it agrees. */
  ghost predicate NodesInStep(s: System, nodes: seq<Address>, next: nat, joined: nat)
    requires next <= |s.history| && joined <= |s.history|
  {
    && NoDuplicates(nodes)
    && (next <= joined ==> AgreeOff(Members(nodes), Members(Base(s, joined)), LogAt(s, joined)))
    && (next > joined ==> Members(nodes) == Members(s.history[next - 1].members))
  }

  ghost predicate InStep(s: System, p: Peer)
    requires InFlight(s, p)
  {
    && NodesInStep(s, p.nodes, p.next, p.joined)
    && (p.next > p.joined ==> p.crawlID == s.history[p.next - 1].crawlID)
  }

  /** A node is in every cut it is sent, and a connected node is sent every cut. */
  ghost predicate IsCounted(s: System, a: Address, p: Peer) {
    && (a in s.others ==> p.next + |p.inbox| == s.sent)
    && forall k :: p.joined <= k < (if a in s.others then |s.history| else p.next + |p.inbox|) && k < |s.history| ==>
         a in s.history[k].members
  }

  ghost predicate PeerInv(s: System, a: Address, p: Peer) {
    InFlight(s, p) && InStep(s, p) && IsCounted(s, a, p)
  }

  ghost predicate Inv(s: System) {
    && LeaderInv(s)
    && (forall a :: a in s.others ==> a in s.peers)
    && (forall a :: a in s.peers ==> PeerInv(s, a, s.peers[a]))
  }

  // ----- Preservation

  lemma TouchesMore(s: set<Address>, t: set<Address>, log: Log, more: Log)
    requires log <= more && AgreeOff(s, t, log)
    ensures AgreeOff(s, t, more)
  {
    forall a | Touches(log, a) ensures Touches(more, a) {
      var c :| c in log && c.node == a;
      assert c in more;
    }
  }

  /** Replaying a log changes only what the log touches. */
  lemma AgreeAfter(s: set<Address>, log: Log)
    ensures AgreeOff(ReplaySet(s, log), s, log)
  {
    forall a | !Touches(log, a) ensures a in ReplaySet(s, log) <==> a in s {
      ReplayOverrides(s, s, log, a);
    }
  }

  /** A node that joined after the cut of old hears old first: that does no harm. */
  lemma OldNewsIsHarmless(nodes: set<Address>, base: set<Address>, stale: Log, log: Log)
    requires AgreeOff(nodes, ReplaySet(base, stale), log)
    ensures AgreeOff(ReplaySet(nodes, stale), ReplaySet(base, stale), log)
  {
    forall a | !Touches(log, a) ensures a in ReplaySet(nodes, stale) <==> a in ReplaySet(base, stale) {
      ReplayOverrides(nodes, base, stale, a);
      ReplayOverrides(base, nodes, stale, a);
    }
  }

  /** What a step may do around a peer: cut more, send to others, lengthen the pending log,
      and drop the peer's own connection. */
  lemma PeerStays(s: System, s': System, a: Address, p: Peer)
    requires PeerInv(s, a, p)
    requires s.history <= s'.history && s.sent <= s'.sent <= |s'.history|
    requires LogAt(s, p.joined) <= LogAt(s', p.joined)
    requires a in s'.others ==>
      && a in s.others && s.sent == s'.sent
      && forall k :: |s.history| <= k < |s'.history| ==> a in s'.history[k].members
    ensures PeerInv(s', a, p)
  {
    hide Text, AgreeOff, NoDuplicates;
    if p.next <= p.joined {
      TouchesMore(Members(p.nodes), Members(Base(s, p.joined)), LogAt(s, p.joined), LogAt(s', p.joined));
    }
  }

  lemma JoinInv(s: System, a: Address)
    requires Inv(s) && Enabled(s, Join(a))
    ensures Inv(Next(s, Join(a)))
  {
    hide Joined, ReplaySet, CleanAddress, PeerInv, NoDuplicates, CleanLog, CleanNodes;
    var s' := Next(s, Join(a));
    var n := |s.history|;
    forall k: nat | k <= n ensures Explained(s', k) {
      assert Explained(s, k);
      if k == n {
        JoinExplained(Base(s, n), s.others, s.log, a);
      }
    }
    JoinedPeer(s, a);
    forall b | b in s'.peers && b != a ensures PeerInv(s', b, s'.peers[b]) {
      assert PeerInv(s, b, s.peers[b]);
      InFlightJoined(s, b, s.peers[b]);
      PeerStays(s, s', b, s.peers[b]);
    }
  }

  lemma InFlightJoined(s: System, a: Address, p: Peer)
    requires PeerInv(s, a, p)
    ensures p.joined <= |s.history| && s.sent <= |s.history|
  {}

  lemma JoinedPeer(s: System, a: Address)
    requires Inv(s) && Enabled(s, Join(a))
    ensures PeerInv(Next(s, Join(a)), a, Joined(s, a))
  {
    hide Initialize, Split, ReplyText, ReplaySet, AgreeOff, CleanAddress, CleanLog, CleanNodes, NoDuplicates;
    var n := |s.history|;
    assert Explained(s, n);
    ReplyIsSnapshot(a, a, s.others);
    AgreeAfter(Members(Base(s, n)), s.log);
    TouchesMore(Members(s.others), Members(Base(s, n)), s.log, s.log + [Add(a)]);
  }

  lemma JoinExplained(base: seq<Address>, others: seq<Address>, log: Log, a: Address)
    requires NoDuplicates(others) && a !in others
    requires CleanLog(log) && CleanNodes(others) && CleanAddress(a)
    requires Members(others) == ReplaySet(Members(base), log)
    ensures NoDuplicates(others + [a]) && CleanLog(log + [Add(a)]) && CleanNodes(others + [a])
    ensures Members(others + [a]) == ReplaySet(Members(base), log + [Add(a)])
  {
    hide CleanAddress;
    var log' := log + [Add(a)];
    assert log'[..|log|] == log;
    assert ReplaySet(Members(base), log') == ReplaySet(Members(base), log) + {a};
  }

  lemma CutInv(s: System)
    requires Inv(s) && Enabled(s, CutHeartbeat)
    ensures Inv(Next(s, CutHeartbeat))
  {
    hide PeerInv, CleanNodes, NoDuplicates;
    var s' := Next(s, CutHeartbeat);
    var n := |s.history|;
    assert Explained(s, n);
    forall k: nat | k <= n + 1 ensures Explained(s', k) {
      if k <= n {
        assert Explained(s, k);
      }
    }
    forall b | b in s'.peers ensures PeerInv(s', b, s'.peers[b]) {
      assert PeerInv(s, b, s.peers[b]);
      InFlightJoined(s, b, s.peers[b]);
      PeerStays(s, s', b, s.peers[b]);
    }
  }

  lemma {:induction false} SendDownClean(others: seq<Address>, log: Log, i: nat, up: set<Address>)
    requires i <= |others| && CleanNodes(others) && CleanLog(log)
    ensures var (others', log') := SendDown(others, log, i, up); CleanNodes(others') && CleanLog(log')
    decreases i
  {
    hide CleanAddress;
    if i > 0 {
      if others[i - 1] in up {
        SendDownClean(others, log, i - 1, up);
      } else {
        SendDownClean(SwapRemove(others, i - 1), log + [Remove(others[i - 1])], i - 1, up);
      }
    }
  }

  /** Sending keeps exactly the connections that are served. */
  lemma SentAre(s: System, up: set<Address>)
    requires Explained(s, |s.history|)
    ensures var (others, log) := SendDown(s.others, s.log, |s.others|, up);
      && s.log <= log && CleanLog(log) && CleanNodes(others) && NoDuplicates(others)
      && Members(others) == ReplaySet(Members(Base(s, |s.history|)), log)
      && forall a :: a in others <==> a in s.others && a in Served(s.others, |s.others|, up)
  {
    hide SendDown, Served, CleanNodes, CleanLog, NoDuplicates, ReplaySet;
    var n := |s.others|;
    var (others, log) := SendDown(s.others, s.log, n, up);
    SendDownMembers(s.others, s.log, n, up);
    SendDownClean(s.others, s.log, n, up);
    ServedAre(s.others, n, up);
    assert s.others[..n] == s.others;
    var served := Served(s.others, n, up);
    forall a ensures a in others <==> a in s.others && a in served {
      assert a in others <==> a in Members(others);
      assert a in served <==> a in Members(served);
      assert a in s.others <==> a in Members(s.others);
    }
  }

  lemma PeerServed(s: System, s': System, a: Address, p: Peer)
    requires PeerInv(s, a, p) && a in s.others
    requires s.history == s'.history && |s.history| == s.sent + 1 == s'.sent
    requires LogAt(s, p.joined) <= LogAt(s', p.joined)
    ensures PeerInv(s', a, p.(inbox := p.inbox + [Text(s.history[s.sent])]))
  {
    hide Text, AgreeOff, NoDuplicates;
    if p.next <= p.joined {
      TouchesMore(Members(p.nodes), Members(Base(s, p.joined)), LogAt(s, p.joined), LogAt(s', p.joined));
    }
  }

  lemma SendInv(s: System, up: set<Address>)
    requires Inv(s) && Enabled(s, Send(up))
    ensures Inv(Next(s, Send(up)))
  {
    hide Text, PeerInv, CleanAddress, SendDown, Served, NoDuplicates, ReplaySet, CleanLog, CleanNodes;
    var s' := Next(s, Send(up));
    var n := |s.history|;
    assert Explained(s, n);
    SentAre(s, up);
    forall k: nat | k <= n ensures Explained(s', k) {
      assert Explained(s, k);
    }
    forall b | b in s'.peers ensures PeerInv(s', b, s'.peers[b]) {
      var p := s.peers[b];
      assert PeerInv(s, b, p);
      InFlightJoined(s, b, p);
      ServedAreOthers(s, up, b);
      if b in Served(s.others, |s.others|, up) {
        PeerServed(s, s', b, p);
      } else {
        PeerStays(s, s', b, p);
      }
    }
  }

  lemma ServedAreOthers(s: System, up: set<Address>, a: Address)
    requires NoDuplicates(s.others)
    ensures a in Served(s.others, |s.others|, up) ==> a in s.others
  {
    ServedAre(s.others, |s.others|, up);
    assert a in Served(s.others, |s.others|, up) <==> a in Members(Served(s.others, |s.others|, up));
    assert s.others[..|s.others|] == s.others;
  }

  lemma ReceiveInv(s: System, a: Address)
    requires Inv(s) && Enabled(s, Receive(a))
    ensures Inv(Next(s, Receive(a)))
  {
    hide PeerInv, NoDuplicates, ReplaySet, CleanLog, CleanNodes, Delivered;
    var s' := Next(s, Receive(a));
    forall k: nat | k <= |s.history| ensures Explained(s', k) {
      assert Explained(s, k);
    }
    ReceivedIs(s, a);
    forall b | b in s'.peers && b != a ensures PeerInv(s', b, s'.peers[b]) {
      assert PeerInv(s, b, s.peers[b]);
      InFlightJoined(s, b, s.peers[b]);
      PeerStays(s, s', b, s.peers[b]);
    }
  }

  /** Receiving replays the log of the next heartbeat on the follower's list. */
  lemma DeliveredIs(s: System, p: Peer)
    requires LeaderInv(s) && InFlight(s, p) && p.inbox != []
    ensures var c := s.history[p.next];
      Delivered(p) == Peer(Replay(p.nodes, c.log), c.crawlID, p.inbox[1..], p.joined, p.next + 1)
  {
    hide Split, HasWholeChanges, Beat, Replay, HeartbeatText, ChangesText;
    var c := s.history[p.next];
    assert p.inbox[0] == Text(c);
    assert Explained(s, p.next) && c in s.history;
    HeartbeatIsReplay(c.crawlID, c.log, p.crawlID, p.nodes);
  }

  lemma ExplainedAt(s: System, k: nat)
    requires LeaderInv(s) && k <= |s.history|
    ensures Explained(s, k)
  {}

  /** Replaying the next heartbeat keeps a list in step. */
  lemma NodesStayInStep(s: System, nodes: seq<Address>, k: nat, joined: nat)
    requires LeaderInv(s) && k < |s.history| && joined <= |s.history| && joined <= k + 1
    requires NodesInStep(s, nodes, k, joined)
    ensures NodesInStep(s, Replay(nodes, s.history[k].log), k + 1, joined)
  {
    hide NoDuplicates, ReplaySet, CleanLog, CleanNodes, AgreeOff, Replay, LeaderInv;
    var c := s.history[k];
    ExplainedAt(s, k);
    ReplayIsReplaySet(nodes, c.log);
    if k == joined {
      ReplayConverges(Members(nodes), Members(Base(s, k)), c.log);
    } else if k < joined {
      OldNewsIsHarmless(Members(nodes), Members(Base(s, k)), c.log, LogAt(s, joined));
    }
  }

  lemma ReceivedInStep(s: System, p: Peer)
    requires LeaderInv(s) && InFlight(s, p) && InStep(s, p) && p.inbox != []
    ensures InFlight(s, Delivered(p)) && InStep(s, Delivered(p))
  {
    hide Text, Delivered, Replay, LeaderInv, NodesInStep;
    DeliveredIs(s, p);
    NodesStayInStep(s, p.nodes, p.next, p.joined);
  }

  lemma ReceivedIs(s: System, a: Address)
    requires Inv(s) && Enabled(s, Receive(a))
    ensures PeerInv(Next(s, Receive(a)), a, Delivered(s.peers[a]))
  {
    hide NoDuplicates, AgreeOff, LeaderInv, Text, Delivered;
    var p := s.peers[a];
    assert PeerInv(s, a, p);
    ReceivedInStep(s, p);
    DeliveredIs(s, p);
  }

  lemma StepInv(s: System, e: Event)
    requires Inv(s) && Enabled(s, e)
    ensures Inv(Next(s, e))
  {
    hide PeerInv, Explained, Joined, Delivered, Posted;
    match e
    case Join(a) => JoinInv(s, a);
    case SetCrawlID(_) => CrawlInv(s, e);
    case CutHeartbeat => CutInv(s);
    case Send(up) => SendInv(s, up);
    case Receive(a) => ReceiveInv(s, a);
  }

  lemma CrawlInv(s: System, e: Event)
    requires Inv(s) && Enabled(s, e) && e.SetCrawlID?
    ensures Inv(Next(s, e))
  {
    hide PeerInv, NoDuplicates, ReplaySet, CleanLog, CleanNodes;
    var s' := Next(s, e);
    forall k: nat | k <= |s.history| ensures Explained(s', k) {
      assert Explained(s, k);
    }
    forall b | b in s'.peers ensures PeerInv(s', b, s'.peers[b]) {
      assert PeerInv(s, b, s.peers[b]);
      InFlightJoined(s, b, s.peers[b]);
      PeerStays(s, s', b, s.peers[b]);
    }
  }

  lemma {:induction false} RunInv(events: seq<Event>, s: System)
    requires Leads(events, s)
    ensures Inv(s)
    decreases |events|
  {
    hide Enabled, Next, PeerInv;
    if events != [] {
      var e := events[|events| - 1];
      var before :| Leads(events[..|events| - 1], before) && Enabled(before, e) && s == Next(before, e);
      RunInv(events[..|events| - 1], before);
      StepInv(before, e);
    }
  }

  // ----- Agreement

  /** Whenever a node has processed a heartbeat cut after it joined, it lists, without
      duplicates, exactly the connections the leader had at that cut, itself among them, and
      knows the leader's crawl id of that moment. */
  lemma FollowersAgreeWithTheCut(events: seq<Event>, s: System, a: Address)
    requires Leads(events, s) && a in s.peers && s.peers[a].next > s.peers[a].joined
    ensures var p := s.peers[a];
      && p.next <= |s.history|
      && NoDuplicates(p.nodes)
      && Members(p.nodes) == Members(s.history[p.next - 1].members)
      && a in p.nodes
      && p.crawlID == s.history[p.next - 1].crawlID
  {
    hide Leads, NoDuplicates, LeaderInv, AgreeOff, Text;
    RunInv(events, s);
    var p := s.peers[a];
    assert PeerInv(s, a, p);
    assert a in s.history[p.next - 1].members;
    assert a in Members(p.nodes);
  }
}
