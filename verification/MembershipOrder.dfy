/** Who succeeds the leader. While no connection drops, every follower that is up to date
    holds the same list, in join order, and so elects the same successor; once a connection
    drops, followers can hold the same nodes in different orders and elect different ones. */
module MembershipOrder {
  import opened Membership
  import opened MembershipNodes
  import opened MembershipRuns

  ghost predicate Drops(s: System, e: Event) {
    e.Send? && exists a :: a in s.others && a !in e.up
  }

  ghost predicate LeadsWithoutDrops(events: seq<Event>, s: System) {
    if events == [] then s == INIT
    else
      var e := events[|events| - 1];
      exists before :: LeadsWithoutDrops(events[..|events| - 1], before)
        && Enabled(before, e) && !Drops(before, e) && s == Next(before, e)
  }

  /** The nodes in the order they joined. */
  function Joins(events: seq<Event>): seq<Address> {
    if events == [] then []
    else
      Joins(events[..|events| - 1])
      + (if events[|events| - 1].Join? then [events[|events| - 1].node] else [])
  }

  function Added(log: Log): seq<Address> {
    if log == [] then [] else Added(log[..|log| - 1]) + [log[|log| - 1].node]
  }

  ghost predicate AddsOnly(log: Log) {
    forall c :: c in log ==> c.Add?
  }

  // ----- Replaying additions keeps the order

  lemma {:induction false} AddsExtend(nodes: seq<Address>, base: seq<Address>, log: Log)
    requires AddsOnly(log) && NoDuplicates(base + Added(log))
    requires base <= nodes <= base + Added(log)
    ensures Replay(nodes, log) == base + Added(log)
  {
    if log != [] {
      var all, last := base + Added(log), log[|log| - 1];
      assert last in log;
      var most := base + Added(log[..|log| - 1]);
      assert all == most + [last.node];
      assert forall i :: 0 <= i < |most| ==> most[i] == all[i];
      assert all[|most|] == last.node;
      if nodes <= most {
        AddsExtend(nodes, base, log[..|log| - 1]);
      } else {
        assert nodes == all;
        forall a | a in Added(log) ensures a in nodes {}
        AddsKnown(nodes, log);
      }
    }
  }

  lemma {:induction false} AddsKnown(nodes: seq<Address>, log: Log)
    requires AddsOnly(log) && forall a :: a in Added(log) ==> a in nodes
    ensures Replay(nodes, log) == nodes
  {
    if log != [] {
      assert log[|log| - 1] in log;
      assert Added(log)[|Added(log)| - 1] in nodes;
      AddsKnown(nodes, log[..|log| - 1]);
    }
  }

  // ----- The order invariant

  ghost predicate Ordered(s: System, k: nat)
    requires k <= |s.history|
  {
    AddsOnly(LogAt(s, k)) && MembersAt(s, k) == Base(s, k) + Added(LogAt(s, k))
  }

  ghost predicate PeerOrdered(s: System, p: Peer)
    requires InFlight(s, p)
  {
    && (p.next <= p.joined ==> Base(s, p.joined) <= p.nodes <= MembersAt(s, p.joined))
    && (p.next > p.joined ==> p.nodes == s.history[p.next - 1].members)
  }

  ghost predicate OrderInv(s: System) {
    && Inv(s)
    && (forall k: nat :: k <= |s.history| ==> Ordered(s, k))
    && (forall a :: a in s.peers ==> InFlight(s, s.peers[a]) && PeerOrdered(s, s.peers[a]))
  }

  lemma {:induction false} NothingDropped(others: seq<Address>, log: Log, i: nat, up: set<Address>)
    requires i <= |others| && forall a :: a in others ==> a in up
    ensures SendDown(others, log, i, up) == (others, log)
    decreases i
  {
    if i > 0 {
      NothingDropped(others, log, i - 1, up);
    }
  }

  lemma PeerOrderStays(s: System, s': System, p: Peer)
    requires InFlight(s, p) && PeerOrdered(s, p) && InFlight(s', p)
    requires s.history <= s'.history && MembersAt(s, p.joined) <= MembersAt(s', p.joined)
    ensures PeerOrdered(s', p)
  {
    hide InFlight;
    assert InFlight(s, p);
    FlightBounds(s, p);
  }

  lemma FlightBounds(s: System, p: Peer)
    requires InFlight(s, p)
    ensures p.joined <= |s.history| && p.next + |p.inbox| <= |s.history| && p.joined <= p.next + 1
  {}

  lemma ReceivedOrder(s: System, p: Peer)
    requires LeaderInv(s) && (forall k: nat :: k <= |s.history| ==> Ordered(s, k))
    requires InFlight(s, p) && PeerOrdered(s, p) && p.inbox != []
    ensures InFlight(s, Delivered(p)) && PeerOrdered(s, Delivered(p))
  {
    hide Text, Delivered, Replay, LeaderInv, AddsOnly, NoDuplicates, Added;
    var k := p.next;
    var c := s.history[k];
    DeliveredIs(s, p);
    ExplainedAt(s, k);
    assert Ordered(s, k);
    if k < p.joined {
      forall a | a in Added(c.log) ensures a in p.nodes {
        assert a in Base(s, p.joined);
      }
      AddsKnown(p.nodes, c.log);
    } else if k == p.joined {
      AddsExtend(p.nodes, Base(s, k), c.log);
    } else {
      AddsExtend(p.nodes, Base(s, k), c.log);
    }
  }

  lemma AddedNext(log: Log, a: Address)
    ensures Added(log + [Add(a)]) == Added(log) + [a]
    ensures AddsOnly(log) ==> AddsOnly(log + [Add(a)])
  {
    assert (log + [Add(a)])[..|log|] == log;
  }

  lemma NothingAdded()
    ensures Added([]) == [] && AddsOnly([])
  {}

  lemma OrderStepAt(s: System, e: Event, k: nat)
    requires Enabled(s, e) && forall i: nat :: i <= |s.history| ==> Ordered(s, i)
    requires e.Send? ==> SendDown(s.others, s.log, |s.others|, e.up) == (s.others, s.log)
    requires k <= |Next(s, e).history|
    ensures Ordered(Next(s, e), k)
  {
    hide Text, Delivered, Joined, SendDown, Served, Posted, CleanAddress, AddsOnly, Added;
    if k <= |s.history| {
      assert Ordered(s, k);
    }
    if e.Join? {
      AddedNext(s.log, e.node);
    }
    NothingAdded();
  }

  lemma OrderStep(s: System, e: Event)
    requires OrderInv(s) && Enabled(s, e) && !Drops(s, e)
    ensures OrderInv(Next(s, e))
    ensures Next(s, e).others == s.others + (if e.Join? then [e.node] else [])
  {
    hide Inv, InFlight, PeerOrdered, Ordered, Text, Delivered, Joined, SendDown, Served, CleanAddress;
    var s' := Next(s, e);
    StepInv(s, e);
    if e.Send? {
      NothingDropped(s.others, s.log, |s.others|, e.up);
    }
    forall k: nat | k <= |s'.history| ensures Ordered(s', k) {
      OrderStepAt(s, e, k);
    }
    forall a | a in s'.peers ensures InFlight(s', s'.peers[a]) && PeerOrdered(s', s'.peers[a]) {
      OrderStepPeer(s, e, a);
    }
  }

  lemma OrderStepPeer(s: System, e: Event, a: Address)
    requires OrderInv(s) && Enabled(s, e) && !Drops(s, e) && Inv(Next(s, e)) && a in Next(s, e).peers
    requires e.Send? ==> SendDown(s.others, s.log, |s.others|, e.up) == (s.others, s.log)
    ensures InFlight(Next(s, e), Next(s, e).peers[a]) && PeerOrdered(Next(s, e), Next(s, e).peers[a])
  {
    hide LeaderInv, Text, Delivered, Joined, SendDown, Served, InFlight, PeerOrdered, Ordered, InStep, IsCounted;
    var s' := Next(s, e);
    assert PeerInv(s', a, s'.peers[a]);
    if e.Join? && e.node == a {
      JoinedOrder(s, a);
    } else if e.Receive? && e.node == a {
      ReceivedOrder(s, s.peers[a]);
      SamePeerOrder(s, s', s'.peers[a], s'.peers[a]);
    } else {
      var p := s.peers[a];
      FlightBounds(s, p);
      assert InFlight(s', p) by {
        assert p.inbox <= s'.peers[a].inbox;
        ShorterInbox(s', p, s'.peers[a]);
      }
      PeerOrderStays(s, s', p);
      SamePeerOrder(s', s', p, s'.peers[a]);
    }
  }

  lemma ShorterInbox(s: System, p: Peer, q: Peer)
    requires InFlight(s, q) && p == q.(inbox := p.inbox) && p.inbox <= q.inbox
    ensures InFlight(s, p)
  {
    hide Text;
  }

  lemma SamePeerOrder(s: System, s': System, p: Peer, q: Peer)
    requires InFlight(s, p) && PeerOrdered(s, p) && InFlight(s', q)
    requires q == p.(inbox := q.inbox) && s.history == s'.history && s.others == s'.others
    ensures PeerOrdered(s', q)
  {
    hide Text;
  }

  lemma JoinedOrder(s: System, a: Address)
    requires OrderInv(s) && Enabled(s, Join(a)) && InFlight(Next(s, Join(a)), Joined(s, a))
    ensures PeerOrdered(Next(s, Join(a)), Joined(s, a))
  {
    hide CleanAddress, ReplyText, Initialize, InFlight, AddsOnly, Added;
    ExplainedAt(s, |s.history|);
    ReplyIsSnapshot(a, a, s.others);
    assert Ordered(s, |s.history|);
  }

  lemma {:induction false} OrderRun(events: seq<Event>, s: System)
    requires LeadsWithoutDrops(events, s)
    ensures Leads(events, s) && OrderInv(s) && s.others == Joins(events)
    decreases |events|
  {
    hide Enabled, Next, Inv, Drops, Ordered, PeerOrdered, InFlight;
    if events == [] {
      InitOrder();
    } else {
      var e := events[|events| - 1];
      var before :| LeadsWithoutDrops(events[..|events| - 1], before)
        && Enabled(before, e) && !Drops(before, e) && s == Next(before, e);
      OrderRun(events[..|events| - 1], before);
      OrderStep(before, e);
    }
  }

  lemma InitOrder()
    ensures OrderInv(INIT)
  {}

  // ----- Unique successor

  /** On losing the leader, a node turns to the head of its list, or leads if that is itself. */
  function Successor(p: Peer): Address
    requires p.nodes != []
  {
    p.nodes[0]
  }

  ghost predicate UpToDate(s: System, a: Address) {
    a in s.peers && s.peers[a].joined < s.peers[a].next == |s.history|
  }

  /** In a run without drops all up-to-date followers hold one and the same list - the nodes
      known at the last cut, in join order - so they all pick the node that joined first, and
      a node leads exactly when it is that one. */
  lemma UniqueSuccessor(events: seq<Event>, s: System, a: Address)
    requires LeadsWithoutDrops(events, s) && UpToDate(s, a)
    ensures var p := s.peers[a];
      && p.nodes == s.history[|s.history| - 1].members
      && [] < p.nodes <= Joins(events)
      && Successor(p) == Joins(events)[0]
      && Successor(p) in s.peers
  {
    hide LeadsWithoutDrops, Leads, OrderInv, Joins;
    OrderRun(events, s);
    HoldsLastCut(s, a);
    FollowersAgreeWithTheCut(events, s, a);
    assert s.peers[a].nodes[0] in s.others;
  }

  lemma HoldsLastCut(s: System, a: Address)
    requires OrderInv(s) && UpToDate(s, a)
    ensures s.peers[a].nodes == s.history[|s.history| - 1].members <= s.others
    ensures forall b :: b in s.others ==> b in s.peers
  {
    hide LeaderInv, PeerInv, AddsOnly, Added, Text;
    var n := |s.history|;
    assert InFlight(s, s.peers[a]) && PeerOrdered(s, s.peers[a]);
    assert Ordered(s, n);
  }

  /** Without drops nobody leaves, and only the first node to join has an empty list, until it
      hears of its own joining. */
  ghost predicate FirstInv(s: System) {
    forall a :: a in s.peers ==>
      && a in s.others
      && (s.peers[a].nodes == [] <==> a == s.others[0] && s.peers[a].next <= s.peers[a].joined)
  }

  lemma FirstStep(s: System, e: Event)
    requires OrderInv(s) && FirstInv(s) && Enabled(s, e) && !Drops(s, e)
    ensures FirstInv(Next(s, e))
  {
    hide Inv, InFlight, PeerOrdered, Ordered, Text, Delivered, Joined, SendDown, Served, CleanAddress;
    OrderStep(s, e);
    if e.Join? {
      JoinedIs(s, e.node);
    } else if e.Receive? {
      FirstReceived(s, e.node);
    }
  }

  /** Over the wire a joining node gets the leader's connections. */
  lemma JoinedIs(s: System, a: Address)
    requires Inv(s) && Enabled(s, Join(a))
    ensures Joined(s, a) == Peer(s.others, 0, [], |s.history|, s.sent) && s.sent <= |s.history|
  {
    hide PeerInv, ReplyText, Initialize, CleanAddress, NoDuplicates;
    ExplainedAt(s, |s.history|);
    ReplyIsSnapshot(a, a, s.others);
  }

  lemma FirstReceived(s: System, a: Address)
    requires OrderInv(s) && Enabled(s, Receive(a)) && OrderInv(Next(s, Receive(a)))
    ensures var p, p' := s.peers[a], Delivered(s.peers[a]);
      && p'.next == p.next + 1 && p'.joined == p.joined
      && if p'.next <= p'.joined then p'.nodes == p.nodes else a in p'.nodes
  {
    hide LeaderInv, Delivered, Replay, Text, AddsOnly, Added, InStep;
    var s', p := Next(s, Receive(a)), s.peers[a];
    var k := p.next;
    assert PeerInv(s, a, p);
    DeliveredIs(s, p);
    assert PeerInv(s', a, s'.peers[a]) && PeerOrdered(s', s'.peers[a]);
    if k < p.joined {
      assert Ordered(s, k) && PeerOrdered(s, p);
      forall b | b in Added(s.history[k].log) ensures b in p.nodes {
        EarlierMember(s, k + 1, p.joined, b);
      }
      AddsKnown(p.nodes, s.history[k].log);
    }
  }

  lemma {:induction false} EarlierMember(s: System, k: nat, n: nat, a: Address)
    requires k <= n <= |s.history| && a in Base(s, k)
    requires forall i: nat :: i <= |s.history| ==> Ordered(s, i)
    ensures a in Base(s, n)
    decreases n - k
  {
    if k < n {
      assert Ordered(s, k);
      EarlierMember(s, k + 1, n, a);
    }
  }

  lemma {:induction false} FirstRun(events: seq<Event>, s: System)
    requires LeadsWithoutDrops(events, s)
    ensures FirstInv(s)
    decreases |events|
  {
    hide Enabled, Next, OrderInv, Drops, FirstInv;
    if events == [] {
      NobodyFirst();
    } else {
      var e := events[|events| - 1];
      var before :| LeadsWithoutDrops(events[..|events| - 1], before)
        && Enabled(before, e) && !Drops(before, e) && s == Next(before, e);
      OrderRun(events[..|events| - 1], before);
      FirstRun(events[..|events| - 1], before);
      FirstStep(before, e);
    }
  }

  lemma NobodyFirst()
    ensures FirstInv(INIT)
  {}

  /** Without drops every follower, however far behind, has the node that joined first at the
      head of its list, except that node itself until it has processed a heartbeat cut after
      it joined: only its list is empty. */
  lemma HeadJoinedFirst(events: seq<Event>, s: System, a: Address)
    requires LeadsWithoutDrops(events, s) && a in s.peers
    ensures Joins(events) != []
    ensures var p := s.peers[a];
      && (p.nodes == [] <==> a == Joins(events)[0] && p.next <= p.joined)
      && (p.nodes != [] ==> Successor(p) == Joins(events)[0])
  {
    hide LeadsWithoutDrops, Leads, OrderInv, Joins;
    OrderRun(events, s);
    FirstRun(events, s);
    ListIsPrefix(s, a);
  }

  lemma ListIsPrefix(s: System, a: Address)
    requires OrderInv(s) && a in s.peers
    ensures s.peers[a].nodes <= s.others
  {
    hide Inv, Text, AddsOnly, Added;
    var p := s.peers[a];
    assert InFlight(s, p) && PeerOrdered(s, p);
    if p.next <= p.joined {
      MembersPrefix(s, p.joined);
    } else {
      MembersPrefix(s, p.next - 1);
    }
  }

  lemma {:induction false} MembersPrefix(s: System, k: nat)
    requires k <= |s.history|
    requires forall i: nat :: i <= |s.history| ==> Ordered(s, i)
    ensures MembersAt(s, k) <= s.others
    decreases |s.history| - k
  {
    if k < |s.history| {
      assert Ordered(s, k + 1);
      MembersPrefix(s, k + 1);
    }
  }

  // ----- Drops

  lemma LeadsOn(events: seq<Event>, s: System, e: Event)
    requires Leads(events, s) && Enabled(s, e)
    ensures Leads(events + [e], Next(s, e))
  {
    hide Enabled, Next;
    var more := events + [e];
    assert more[..|more| - 1] == events && more[|more| - 1] == e;
    assert Leads(more[..|more| - 1], s) && Enabled(s, e);
  }

  lemma NothingYet()
    ensures Leads([], INIT)
  {}

  lemma JoinIs(events: seq<Event>, s: System, a: Address)
    requires Leads(events, s) && Enabled(s, Join(a))
    ensures Leads(events + [Join(a)], Next(s, Join(a)))
    ensures Joined(s, a) == Peer(s.others, 0, [], |s.history|, s.sent)
  {
    hide Leads, Inv, CleanAddress, Joined;
    LeadsOn(events, s, Join(a));
    RunInv(events, s);
    JoinedIs(s, a);
  }

  lemma ReceiveIs(events: seq<Event>, s: System, a: Address)
    requires Leads(events, s) && Enabled(s, Receive(a))
    ensures Leads(events + [Receive(a)], Next(s, Receive(a)))
    ensures var p := s.peers[a];
      && p.next < |s.history|
      && var c := s.history[p.next];
         Delivered(p) == Peer(Replay(p.nodes, c.log), c.crawlID, p.inbox[1..], p.joined, p.next + 1)
  {
    hide Leads, Delivered, Replay, Text, InStep, IsCounted;
    LeadsOn(events, s, Receive(a));
    RunInv(events, s);
    assert PeerInv(s, a, s.peers[a]);
    DeliveredIs(s, s.peers[a]);
  }

  /** Three nodes join; the first drops while the first heartbeat is sent. The leader moves
      its last connection into the gap. */
  lemma DropFirst(a: Address, b: Address, c: Address) returns (events: seq<Event>, s: System)
    requires CleanAddress(a) && CleanAddress(b) && CleanAddress(c) && a != b && a != c && b != c
    ensures Leads(events, s) && s.others == [c, b] && s.log == [Remove(a)] && s.sent == |s.history| == 1
    ensures s.history[0].log == [Add(a), Add(b), Add(c)]
    ensures b in s.peers && s.peers[b].(inbox := []) == Peer([a], 0, [], 0, 0) && |s.peers[b].inbox| == 1
  {
    hide Leads, Joined, Text, CleanAddress;
    NothingYet();
    JoinIs([], INIT, a);
    var s1 := Next(INIT, Join(a));
    JoinIs([] + [Join(a)], s1, b);
    var s2 := Next(s1, Join(b));
    JoinIs([] + [Join(a)] + [Join(b)], s2, c);
    var s3 := Next(s2, Join(c));
    LeadsOn([] + [Join(a)] + [Join(b)] + [Join(c)], s3, CutHeartbeat);
    var s4 := Next(s3, CutHeartbeat);
    assert s4.others == [a, b, c] && s4.log == [];
    SendWithoutFirst(a, b, c);
    LeadsOn([] + [Join(a)] + [Join(b)] + [Join(c)] + [CutHeartbeat], s4, Send({b, c}));
    s := Next(s4, Send({b, c}));
    events := [] + [Join(a)] + [Join(b)] + [Join(c)] + [CutHeartbeat] + [Send({b, c})];
  }

  lemma SendWithoutFirst(a: Address, b: Address, c: Address)
    requires a != b && a != c && b != c
    ensures SendDown([a, b, c], [], 3, {b, c}) == ([c, b], [Remove(a)])
    ensures Served([a, b, c], 3, {b, c}) == [c, b]
  {
    var others := [a, b, c];
    assert SwapRemove(others, 0) == [c, b];
    assert SendDown(others, [], 3, {b, c}) == SendDown(others, [], 2, {b, c}) == SendDown(others, [], 1, {b, c});
    assert [] + [Remove(a)] == [Remove(a)];
    assert SendDown(others, [], 1, {b, c}) == SendDown([c, b], [Remove(a)], 0, {b, c});
    assert Served(others, 1, {b, c}) == [];
    assert Served(others, 2, {b, c}) == [b];
  }

  /** A drop can break the order: the next node to join starts from the swapped connections,
      and then, of two connected followers that are both up to date, one takes the lead while
      the other turns to a third node. */
  lemma DropsBreakTheOrder(a: Address, b: Address, c: Address, d: Address)
    requires CleanAddress(a) && CleanAddress(b) && CleanAddress(c) && CleanAddress(d)
    requires a != b && a != c && b != c && d !in {a, b, c}
    ensures exists events, s ::
      && Leads(events, s) && UpToDate(s, b) && UpToDate(s, d) && b in s.others && d in s.others
      && s.peers[b].nodes == [b, c, d] && s.peers[d].nodes == [c, b, d]
  {
    hide Leads, Joined, Text, CleanAddress, Delivered, SendDown, Served, Replay;
    var e0, s0 := DropFirst(a, b, c);
    ReceiveIs(e0, s0, b);
    var s1 := Next(s0, Receive(b));
    ReplayAdds(a, b, c);
    JoinIs(e0 + [Receive(b)], s1, d);
    var s2 := Next(s1, Join(d));
    var e2 := e0 + [Receive(b)] + [Join(d)];
    LeadsOn(e2, s2, CutHeartbeat);
    var s3 := Next(s2, CutHeartbeat);
    var up := {b, c, d};
    assert s3.others == [c, b, d];
    NothingDropped(s3.others, s3.log, 3, up);
    ServedWhenUp(b, c, d);
    LeadsOn(e2 + [CutHeartbeat], s3, Send(up));
    var s4 := Next(s3, Send(up));
    var e4 := e2 + [CutHeartbeat] + [Send(up)];
    ReceiveIs(e4, s4, b);
    var s5 := Next(s4, Receive(b));
    ReceiveIs(e4 + [Receive(b)], s5, d);
    var s6 := Next(s5, Receive(d));
    ReplayGap(a, b, c, d);
    assert Leads(e4 + [Receive(b)] + [Receive(d)], s6);
  }

  lemma ServedWhenUp(b: Address, c: Address, d: Address)
    ensures Served([c, b, d], 3, {b, c, d}) == [d, b, c]
  {
    assert Served([c, b, d], 1, {b, c, d}) == [c];
    assert Served([c, b, d], 2, {b, c, d}) == [b, c];
  }

  lemma ReplayAdds(a: Address, b: Address, c: Address)
    requires a != b && a != c && b != c
    ensures Replay([a], [Add(a), Add(b), Add(c)]) == [a, b, c]
  {
    var log := [Add(a), Add(b), Add(c)];
    assert log[..2] == [Add(a), Add(b)] && log[..2][..1] == [Add(a)] && log[..2][..1][..0] == [];
    assert Replay([a], log[..2][..1]) == [a];
    assert Replay([a], log[..2]) == [a, b];
  }

  lemma ReplayGap(a: Address, b: Address, c: Address, d: Address)
    requires a != b && a != c && b != c && d !in {a, b, c}
    ensures Replay([a, b, c], [Remove(a)] + [Add(d)]) == [b, c, d]
    ensures Replay([c, b], [Remove(a)] + [Add(d)]) == [c, b, d]
  {
    var log := [Remove(a)] + [Add(d)];
    assert log[..1] == [Remove(a)] && log[..1][..0] == [];
    assert [a, b, c][1..] == [b, c] && [b, c][1..] == [c] && [c, b][1..] == [b] && [c][1..] == [] && [b][1..] == [];
    assert Without([c], a) == [c] && Without([b], a) == [b];
    assert Without([b, c], a) == [b, c] && Without([c, b], a) == [c, b];
    assert Replay([a, b, c], log[..1]) == [b, c] && Replay([c, b], log[..1]) == [c, b];
  }
}
