/** Orderly runs, in which every join passes the leader's test: exactly those in which
    up-to-date followers hold one list, in one order, at every point. */
module MembershipOrderly {
  import opened Membership
  import opened MembershipNodes
  import opened MembershipRuns
  import opened MembershipOrder
  import opened MembershipAgreement

  /** A connected follower that has processed up to a cut will hold the list agreed there. */
  ghost predicate CutsAgree(s: System, cuts: seq<seq<Address>>) {
    && |cuts| == |s.history|
    && forall a, k ::
         a in s.others && a in s.peers && s.peers[a].joined <= k < |s.history| && s.peers[a].next <= k + 1 ==>
         Replay(s.peers[a].nodes, Logs(s.history[..k + 1], s.peers[a].next)) == cuts[k]
  }

  lemma CutsStep(s: System, e: Event, l: seq<Address>, cuts: seq<seq<Address>>)
    requires AgreeInv(s, l) && CutsAgree(s, cuts) && Enabled(s, e)
    ensures CutsAgree(Next(s, e), cuts + if e.CutHeartbeat? then [l] else [])
  {
    hide AgreeInv, Enabled, Next, Replay, Logs;
    var s', cuts' := Next(s, e), cuts + if e.CutHeartbeat? then [l] else [];
    CutsCount(s, e);
    forall a, k | a in s'.others && a in s'.peers && s'.peers[a].joined <= k < |s'.history| && s'.peers[a].next <= k + 1
      ensures Replay(s'.peers[a].nodes, Logs(s'.history[..k + 1], s'.peers[a].next)) == cuts'[k]
    {
      CutStep(s, e, l, cuts, a, k);
    }
  }

  lemma CutsCount(s: System, e: Event)
    requires Enabled(s, e)
    ensures |Next(s, e).history| == |s.history| + if e.CutHeartbeat? then 1 else 0
  {
    hide SendDown, Posted, Delivered, Joined, CleanAddress;
  }

  lemma CutStep(s: System, e: Event, l: seq<Address>, cuts: seq<seq<Address>>, a: Address, k: nat)
    requires AgreeInv(s, l) && CutsAgree(s, cuts) && Enabled(s, e)
    requires var s' := Next(s, e);
      && a in s'.others && a in s'.peers && s'.peers[a].joined <= k < |s'.history| && s'.peers[a].next <= k + 1
    requires |Next(s, e).history| == |s.history| + if e.CutHeartbeat? then 1 else 0
    ensures var s' := Next(s, e);
      Replay(s'.peers[a].nodes, Logs(s'.history[..k + 1], s'.peers[a].next))
      == (cuts + if e.CutHeartbeat? then [l] else [])[k]
  {
    hide LeaderInv, PeerInv, Replay, Logs, SendDown, Served, Delivered, Joined, CleanAddress, Text, NodesInStep;
    var s' := Next(s, e);
    match e
    case Join(b) =>
      if a == b {
        JoinedIs(s, a);
      }
    case SetCrawlID(_) =>
    case CutHeartbeat =>
      var p := s.peers[a];
      ConnectedPeer(s, a);
      if k < |s.history| {
        assert s'.history[..k + 1] == s.history[..k + 1];
      } else {
        assert s'.history[..k + 1] == s'.history;
        LogsPush(s.history, Cut(s.crawlID, s.log, s.others), p.next);
        assert Eventual(s, p) == l;
      }
    case Send(up) =>
      SentLeaves(s, up);
    case Receive(b) =>
      if a == b {
        var p := s.peers[a];
        var h := s.history[..k + 1];
        DeliveredAt(s, a);
        LogsFront(h, p.next);
        assert h[p.next] == s.history[p.next];
        ReplayAppend(p.nodes, s.history[p.next].log, Logs(h, p.next + 1));
      }
  }

  lemma {:induction false} OrderlyRun(events: seq<Event>, s: System)
    requires LeadsOrderly(events, s)
    ensures Leads(events, s) && AgreeInv(s, Agreed(events)) && CutsAgree(s, AgreedCuts(events))
    decreases |events|
  {
    hide Enabled, Next, AgreeInv, CutsAgree, AgreedNext, Passes;
    if events == [] {
      EmptyAgrees();
    } else {
      var front, e := events[..|events| - 1], events[|events| - 1];
      var before :| LeadsOrderly(front, before) && Enabled(before, e) && s == Next(before, e)
        && (e.Join? ==> Passes(before, Agreed(front)));
      OrderlyRun(front, before);
      StepAgrees(before, e, Agreed(front));
      CutsStep(before, e, Agreed(front), AgreedCuts(front));
    }
  }

  lemma EmptyAgrees()
    ensures AgreeInv(INIT, []) && CutsAgree(INIT, [])
  {
    InitOrder();
  }

  /** In an orderly run a connected follower that has processed a heartbeat cut after it
      joined holds exactly the list agreed at that cut: joins appended, drops erased. */
  lemma FollowersHoldTheAgreedList(events: seq<Event>, s: System, a: Address)
    requires LeadsOrderly(events, s) && a in s.others && a in s.peers && s.peers[a].next > s.peers[a].joined
    ensures var p := s.peers[a];
      && p.next <= |AgreedCuts(events)| && p.nodes == AgreedCuts(events)[p.next - 1] && a in p.nodes
      && Successor(p) == AgreedCuts(events)[p.next - 1][0]
  {
    hide LeadsOrderly, Inv, Same, AgreedCuts, Replay, NodesInStep;
    OrderlyRun(events, s);
    ConnectedPeer(s, a);
    var p := s.peers[a];
    var h := s.history[..p.next];
    assert Logs(h, p.next) == [];
    NothingReplayed(p.nodes);
    FollowersAgreeWithTheCut(events, s, a);
  }

  // ----- Exactly when

  ghost predicate AllAgree(s: System) {
    forall a, b :: a in s.others && b in s.others && UpToDate(s, a) && UpToDate(s, b) ==>
      s.peers[a].nodes == s.peers[b].nodes
  }

  ghost predicate NoJoins(events: seq<Event>) {
    forall e :: e in events ==> !e.Join?
  }

  /** However the run goes on while nobody joins, up-to-date followers hold one list. */
  ghost predicate KeepsOrder(events: seq<Event>) {
    forall more, s :: NoJoins(more) && Leads(events + more, s) ==> AllAgree(s)
  }

  lemma OrderlyAgrees(events: seq<Event>, s: System)
    requires LeadsOrderly(events, s)
    ensures AllAgree(s)
  {
    hide LeadsOrderly, AgreedCuts;
    forall a, b | a in s.others && b in s.others && UpToDate(s, a) && UpToDate(s, b)
      ensures s.peers[a].nodes == s.peers[b].nodes
    {
      FollowersHoldTheAgreedList(events, s, a);
      FollowersHoldTheAgreedList(events, s, b);
    }
  }

  lemma {:induction false} OneOutcome(events: seq<Event>, s: System, t: System)
    requires Leads(events, s) && Leads(events, t)
    ensures s == t
    decreases |events|
  {
    hide Enabled, Next;
    if events != [] {
      var front, e := events[..|events| - 1], events[|events| - 1];
      var s0 :| Leads(front, s0) && Enabled(s0, e) && s == Next(s0, e);
      var t0 :| Leads(front, t0) && Enabled(t0, e) && t == Next(t0, e);
      OneOutcome(front, s0, t0);
    }
  }

  lemma OrderlyOn(events: seq<Event>, s: System, e: Event)
    requires LeadsOrderly(events, s) && Enabled(s, e) && (e.Join? ==> Passes(s, Agreed(events)))
    ensures LeadsOrderly(events + [e], Next(s, e))
  {
    hide Enabled, Next, Passes, Agreed;
    var all := events + [e];
    assert all[..|all| - 1] == events && all[|all| - 1] == e;
    assert LeadsOrderly(all[..|all| - 1], s);
  }

  lemma {:induction false} OrderlyThrough(events: seq<Event>, s: System, more: seq<Event>, t: System)
    requires LeadsOrderly(events, s) && NoJoins(more) && Leads(events + more, t)
    ensures LeadsOrderly(events + more, t)
    decreases |more|
  {
    hide Enabled, Next, LeadsOrderly, Passes, Agreed;
    if more == [] {
      assert events + more == events;
      OrderlyLeads(events, s);
      OneOutcome(events, s, t);
    } else {
      var n := |more| - 1;
      var all := events + more;
      assert all[..|all| - 1] == events + more[..n] && all[|all| - 1] == more[n];
      var before :| Leads(events + more[..n], before) && Enabled(before, more[n]) && t == Next(before, more[n]);
      OrderlyThrough(events, s, more[..n], before);
      OrderlyOn(events + more[..n], before, more[n]);
      assert (events + more[..n]) + [more[n]] == all;
    }
  }

  lemma OrderlyLeads(events: seq<Event>, s: System)
    requires LeadsOrderly(events, s)
    ensures Leads(events, s)
  {
    hide LeadsOrderly, Leads, AgreeInv, CutsAgree;
    OrderlyRun(events, s);
  }

  lemma OrderlyKeepsOrder(events: seq<Event>, s: System)
    requires LeadsOrderly(events, s)
    ensures KeepsOrder(events)
  {
    hide LeadsOrderly, Leads, AllAgree, NoJoins;
    forall more, t | NoJoins(more) && Leads(events + more, t) ensures AllAgree(t) {
      OrderlyThrough(events, s, more, t);
      OrderlyAgrees(events + more, t);
    }
  }

  // ----- Letting a run settle

  /** From s to t nobody joined or dropped, and what connected followers will hold is the same. */
  ghost predicate Quiet(s: System, t: System) {
    && t.others == s.others
    && forall a :: a in s.others ==>
         && a in s.peers && a in t.peers && s.peers[a].next <= |s.history| && t.peers[a].next <= |t.history|
         && Eventual(t, t.peers[a]) == Eventual(s, s.peers[a])
         && t.peers[a].joined == s.peers[a].joined
  }

  lemma QuietThrough(s: System, t: System, u: System)
    requires Quiet(s, t) && Quiet(t, u)
    ensures Quiet(s, u)
  {
    hide Eventual;
  }

  lemma QuietOne(events: seq<Event>, s: System, e: Event)
    requires Leads(events, s) && Enabled(s, e)
    requires e.CutHeartbeat? || e.Receive? || e == Send(Members(s.others))
    ensures Leads(events + [e], Next(s, e)) && Quiet(s, Next(s, e))
    ensures e.Send? ==> Next(s, e).log == s.log
  {
    hide Leads, Inv, Eventual, Enabled, Delivered, Kept, SendDown, Served;
    LeadsOn(events, s, e);
    RunInv(events, s);
    if e.Send? {
      NothingDropped(s.others, s.log, |s.others|, Members(s.others));
    }
    forall a | a in s.others
      ensures && a in s.peers && a in Next(s, e).peers
        && s.peers[a].next <= |s.history| && Next(s, e).peers[a].next <= |Next(s, e).history|
        && Eventual(Next(s, e), Next(s, e).peers[a]) == Eventual(s, s.peers[a])
        && Next(s, e).peers[a].joined == s.peers[a].joined
    {
      ConnectedPeer(s, a);
      if e.Send? {
        SendStep(s, Members(s.others), a);
        EventualKept(s, a);
      } else {
        QuietStep(s, e, a);
      }
    }
  }

  lemma EventualKept(s: System, a: Address)
    requires Inv(s) && a in s.others && a in s.peers && s.peers[a].next <= |s.history|
    ensures Kept(Eventual(s, s.peers[a]), Members(s.others)) == Eventual(s, s.peers[a])
  {
    hide LeaderInv, PeerInv, Replay, Logs, NodesInStep;
    InvLeader(s);
    ConnectedPeer(s, a);
    var p := s.peers[a];
    EventualMembers(s, p.nodes, p.next, p.joined);
    assert forall b :: b in Eventual(s, p) <==> b in Members(Eventual(s, p));
    KeptAll(Eventual(s, p), Members(s.others));
  }

  /** A follower receives all that is in flight to it. */
  lemma {:induction false} Drain(events: seq<Event>, s: System, a: Address) returns (more: seq<Event>, t: System)
    requires Leads(events, s) && a in s.others && a in s.peers
    ensures Leads(events + more, t) && NoJoins(more) && Quiet(s, t)
    ensures a in t.peers && t.peers[a].inbox == []
    ensures t.history == s.history && t.sent == s.sent && t.log == s.log
    ensures forall b :: b != a && b in s.peers ==> b in t.peers && t.peers[b] == s.peers[b]
    decreases |s.peers[a].inbox|
  {
    hide Leads, Eventual, Delivered;
    if s.peers[a].inbox == [] {
      more, t := [], s;
      assert events + more == events;
      SelfQuiet(events, s);
    } else {
      var e := Receive(a);
      var mid := Next(s, e);
      QuietOne(events, s, e);
      ShorterAfter(events, s, a);
      var rest;
      rest, t := Drain(events + [e], mid, a);
      more := [e] + rest;
      assert events + more == (events + [e]) + rest;
      QuietThrough(s, mid, t);
    }
  }

  lemma SelfQuiet(events: seq<Event>, s: System)
    requires Leads(events, s)
    ensures Quiet(s, s)
  {
    hide Leads, Eventual, Inv;
    RunInv(events, s);
    forall a | a in s.others ensures a in s.peers && s.peers[a].next <= |s.history| {
      ConnectedPeer(s, a);
    }
  }

  lemma ShorterAfter(events: seq<Event>, s: System, a: Address)
    requires Leads(events, s) && Enabled(s, Receive(a))
    ensures |Delivered(s.peers[a]).inbox| < |s.peers[a].inbox|
  {
    hide Leads, Beat, HasWholeChanges;
  }

  /** All that is recorded is cut and sent. */
  lemma Flush(events: seq<Event>, s: System) returns (more: seq<Event>, t: System)
    requires Leads(events, s)
    ensures Leads(events + more, t) && NoJoins(more) && Quiet(s, t)
    ensures t.log == [] && t.sent == |t.history| > |s.history|
  {
    hide Leads, Eventual, Quiet, Members, Inv, SendDown, Posted;
    RunInv(events, s);
    InvBounds(s);
    var up := Send(Members(s.others));
    var s1 := s;
    more := [];
    if s.sent < |s.history| {
      QuietOne(events, s, up);
      s1, more := Next(s, up), [up];
      SameOthers(s, s1);
    } else {
      SelfQuiet(events, s);
      assert events + [] == events;
    }
    QuietOne(events + more, s1, CutHeartbeat);
    var s2 := Next(s1, CutHeartbeat);
    QuietThrough(s, s1, s2);
    SameOthers(s1, s2);
    QuietOne(events + more + [CutHeartbeat], s2, up);
    t := Next(s2, up);
    QuietThrough(s, s2, t);
    assert events + more + [CutHeartbeat] + [up] == events + (more + [CutHeartbeat, up]);
    more := more + [CutHeartbeat, up];
  }

  lemma SameOthers(s: System, t: System)
    requires Quiet(s, t)
    ensures t.others == s.others
  {}

  lemma InvBounds(s: System)
    requires Inv(s)
    ensures s.sent <= |s.history| <= s.sent + 1
  {
    hide PeerInv, Explained;
  }

  /** Any two connected followers can be brought up to date with what they will hold, without
      a join or a drop. */
  lemma SettleTo(events: seq<Event>, s: System, a: Address, b: Address) returns (more: seq<Event>, t: System)
    requires Leads(events, s) && a in s.others && b in s.others && a in s.peers && b in s.peers
    requires s.peers[a].next <= |s.history| && s.peers[b].next <= |s.history|
    ensures NoJoins(more) && Leads(events + more, t)
    ensures a in t.others && b in t.others && UpToDate(t, a) && UpToDate(t, b)
    ensures t.peers[a].nodes == Eventual(s, s.peers[a]) && t.peers[b].nodes == Eventual(s, s.peers[b])
  {
    hide Leads, Eventual;
    RunInv(events, s);
    ConnectedPeer(s, a);
    ConnectedPeer(s, b);
    var m1, t1 := Flush(events, s);
    var m2, t2 := Drain(events + m1, t1, a);
    var m3, t3 := Drain(events + m1 + m2, t2, b);
    QuietThrough(s, t1, t2);
    QuietThrough(s, t2, t3);
    more, t := m1 + m2 + m3, t3;
    assert events + m1 + m2 + m3 == events + more;
    RunInv(events + more, t3);
    SettledHolds(t3, a);
    SettledHolds(t3, b);
  }

  /** Followers that will hold different lists can be brought up to date holding them. */
  lemma Settle(events: seq<Event>, s: System, a: Address, b: Address)
    requires Leads(events, s) && a in s.others && b in s.others && a in s.peers && b in s.peers
    requires s.peers[a].next <= |s.history| && s.peers[b].next <= |s.history|
    requires Eventual(s, s.peers[a]) != Eventual(s, s.peers[b])
    ensures !KeepsOrder(events)
  {
    hide Leads, Eventual, NoJoins, KeepsOrder;
    var more, t := SettleTo(events, s, a, b);
    Refutes(events, more, t, a, b);
  }

  lemma SettledHolds(t: System, a: Address)
    requires Inv(t) && a in t.others && a in t.peers && t.peers[a].inbox == []
    requires t.log == [] && t.sent == |t.history| && t.peers[a].next <= |t.history|
    ensures t.peers[a].next == |t.history| && Eventual(t, t.peers[a]) == t.peers[a].nodes
  {
    hide Inv, NodesInStep;
    ConnectedPeer(t, a);
    NothingReplayed(t.peers[a].nodes);
    assert LogsFrom(t, t.peers[a].next) == [];
  }

  lemma Refutes(events: seq<Event>, more: seq<Event>, t: System, a: Address, b: Address)
    requires Leads(events + more, t) && NoJoins(more)
    requires a in t.others && b in t.others && UpToDate(t, a) && UpToDate(t, b)
    requires t.peers[a].nodes != t.peers[b].nodes
    ensures !KeepsOrder(events)
  {
    hide Leads, NoJoins;
    assert !AllAgree(t);
  }

  /** A join keeps agreement if and only if it passes the test: otherwise the run can go on,
      with no further join and no drop, to followers that are up to date and disagree. */
  lemma JoinKeepsOrderIff(events: seq<Event>, s: System, a: Address)
    requires LeadsOrderly(events, s) && Enabled(s, Join(a))
    ensures KeepsOrder(events + [Join(a)]) <==> Passes(s, Agreed(events))
  {
    hide LeadsOrderly, Leads, KeepsOrder, Inv, Same, CutsAgree, Passes, Joined, Agreed, NoDuplicates, Eventual;
    var s' := Next(s, Join(a));
    OrderlyRun(events, s);
    if Passes(s, Agreed(events)) {
      OrderlyOn(events, s, Join(a));
      OrderlyKeepsOrder(events + [Join(a)], s');
    } else {
      FirstJoinPasses(s, Agreed(events));
      var b := s.others[0];
      FailedJoinDiffers(s, a, b, Agreed(events));
      LeadsOn(events, s, Join(a));
      Settle(events + [Join(a)], s', a, b);
    }
  }

  /** Over whole runs: up-to-date followers agree on the order, now and whatever comes before
      the next join, at every point of the run if and only if every join passed the test. */
  lemma {:induction false} OrderIsKeptIff(events: seq<Event>, s: System)
    requires Leads(events, s)
    ensures LeadsOrderly(events, s) <==> forall n :: 0 <= n <= |events| ==> KeepsOrder(events[..n])
    decreases |events|
  {
    hide Enabled, Next, KeepsOrder, Passes, Agreed;
    assert events[..|events|] == events;
    if events == [] {
      OrderlyKeepsOrder(events, s);
    } else {
      var front, e := events[..|events| - 1], events[|events| - 1];
      var before :| Leads(front, before) && Enabled(before, e) && s == Next(before, e);
      OrderIsKeptIff(front, before);
      assert forall n :: 0 <= n < |events| ==> front[..n] == events[..n];
      assert front + [e] == events;
      if LeadsOrderly(front, before) {
        if e.Join? {
          JoinKeepsOrderIff(front, before, e.node);
        }
        if e.Join? ==> Passes(before, Agreed(front)) {
          OrderlyOn(front, before, e);
          OrderlyKeepsOrder(events, s);
        }
      }
      if LeadsOrderly(events, s) {
        OrderlyFront(events, s, before);
      }
    }
  }

  lemma OrderlyFront(events: seq<Event>, s: System, before: System)
    requires LeadsOrderly(events, s) && events != [] && Leads(events[..|events| - 1], before)
    ensures LeadsOrderly(events[..|events| - 1], before)
    ensures events[|events| - 1].Join? ==> Passes(before, Agreed(events[..|events| - 1]))
  {
    hide Enabled, Next, Passes, Agreed;
    var front, e := events[..|events| - 1], events[|events| - 1];
    var b :| LeadsOrderly(front, b) && Enabled(b, e) && s == Next(b, e) && (e.Join? ==> Passes(b, Agreed(front)));
    OrderlyLeads(front, b);
    OneOutcome(front, b, before);
  }

  // ----- Runs without drops

  /** Runs without drops are orderly: the agreed list is then the order of joining. */
  lemma {:induction false} WithoutDropsIsOrderly(events: seq<Event>, s: System)
    requires LeadsWithoutDrops(events, s)
    ensures LeadsOrderly(events, s) && Agreed(events) == Joins(events) == s.others
    decreases |events|
  {
    hide Enabled, Next, Drops, OrderInv, Passes, Kept;
    if events != [] {
      var front, e := events[..|events| - 1], events[|events| - 1];
      var before :| LeadsWithoutDrops(front, before) && Enabled(before, e) && !Drops(before, e) && s == Next(before, e);
      WithoutDropsIsOrderly(front, before);
      OrderRun(front, before);
      OrderRun(events, s);
      NothingNew(before);
      if e.Send? {
        AllUp(before, e);
      }
    }
  }

  lemma AllUp(s: System, e: Event)
    requires e.Send? && !Drops(s, e)
    ensures Kept(s.others, e.up) == s.others
  {
    KeptAll(s.others, e.up);
  }

  /** Without drops the pending changes add nothing to the leader's own connections. */
  lemma NothingNew(s: System)
    requires OrderInv(s)
    ensures Passes(s, s.others)
  {
    hide Inv, InFlight, Replay, AddsOnly, Added;
    var n := |s.history|;
    InvBounds(s);
    assert Ordered(s, n);
    KnownAdds(s.log, Base(s, n), s.others);
    if s.sent < n {
      assert Ordered(s, n - 1);
      var h, c := s.history[..n - 1], s.history[n - 1];
      assert s.history == h + [c];
      LogsPush(h, c, n - 1);
      assert Pending(s) == c.log + s.log;
      KnownAdds(c.log, Base(s, n - 1), c.members);
      forall a | a in Added(c.log) ensures a in s.others {
        assert a in c.members;
      }
      AddsKnown(s.others, c.log);
      ReplayAppend(s.others, c.log, s.log);
    } else {
      assert Pending(s) == s.log;
    }
    AddsKnown(s.others, s.log);
  }

  lemma KnownAdds(log: Log, base: seq<Address>, members: seq<Address>)
    requires members == base + Added(log)
    ensures forall a :: a in Added(log) ==> a in members
  {}
}
