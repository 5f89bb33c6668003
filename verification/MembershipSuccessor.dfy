/** The same for the successor alone: lists that differ might still share their head, but a
    join that fails the test can always be followed by drops after which the heads differ. */
module MembershipSuccessor {
  import opened Membership
  import opened MembershipNodes
  import opened MembershipRuns
  import opened MembershipOrder
  import opened MembershipAgreement
  import opened MembershipOrderly

  /** All connected up-to-date followers turn to the same node when the leader is lost. */
  ghost predicate HeadsAgree(s: System) {
    forall a, b :: a in s.others && b in s.others && UpToDate(s, a) && UpToDate(s, b) ==>
      s.peers[a].nodes != [] && s.peers[b].nodes != [] && Successor(s.peers[a]) == Successor(s.peers[b])
  }

  /** However the run goes on while nobody joins, the successor is unique. */
  ghost predicate KeepsSuccessor(events: seq<Event>) {
    forall more, s :: NoJoins(more) && Leads(events + more, s) ==> HeadsAgree(s)
  }

  lemma OrderlyKeepsSuccessor(events: seq<Event>, s: System)
    requires LeadsOrderly(events, s)
    ensures KeepsSuccessor(events)
  {
    hide LeadsOrderly, Leads, HeadsAgree, NoJoins;
    forall more, t | NoJoins(more) && Leads(events + more, t) ensures HeadsAgree(t) {
      OrderlyThrough(events, s, more, t);
      OrderlyHeads(events + more, t);
    }
  }

  lemma OrderlyHeads(events: seq<Event>, s: System)
    requires LeadsOrderly(events, s)
    ensures HeadsAgree(s)
  {
    hide LeadsOrderly, AgreedCuts;
    forall a, b | a in s.others && b in s.others && UpToDate(s, a) && UpToDate(s, b)
      ensures s.peers[a].nodes != [] && s.peers[b].nodes != [] && Successor(s.peers[a]) == Successor(s.peers[b])
    {
      FollowersHoldTheAgreedList(events, s, a);
      FollowersHoldTheAgreedList(events, s, b);
    }
  }

  // ----- From lists that differ to heads that differ

  /** Two orders of the same nodes have a first place where they differ. */
  lemma {:induction false} FirstDifference(l: seq<Address>, m: seq<Address>) returns (i: nat)
    requires l != m && NoDuplicates(l) && NoDuplicates(m) && Members(l) == Members(m)
    ensures i < |l| && i < |m| && l[..i] == m[..i] && l[i] != m[i]
  {
    SameLength(l, m);
    i := 0;
    while i < |l| && i < |m| && l[i] == m[i]
      invariant i <= |l| && i <= |m| && l[..i] == m[..i]
      decreases |l| - i
    {
      i := i + 1;
    }
    assert l == l[..|l|] && m == m[..|m|];
  }

  lemma SameLength(l: seq<Address>, m: seq<Address>)
    requires NoDuplicates(l) && NoDuplicates(m) && Members(l) == Members(m)
    ensures |l| == |m|
  {
    MembersCount(l);
    MembersCount(m);
  }

  lemma {:induction false} MembersCount(l: seq<Address>)
    requires NoDuplicates(l)
    ensures |Members(l)| == |l|
  {
    if l != [] {
      var n := |l| - 1;
      MembersCount(l[..n]);
      assert l == l[..n] + [l[n]] && l[n] !in l[..n];
      assert Members(l) == Members(l[..n]) + {l[n]};
    } else {
      assert Members(l) == {};
    }
  }

  /** Once its first i nodes are down, node i heads the list. */
  lemma {:induction false} KeptHead(l: seq<Address>, i: nat, up: set<Address>)
    requires i < |l| && l[i] in up && forall k :: 0 <= k < i ==> l[k] !in up
    ensures Kept(l, up) != [] && Kept(l, up)[0] == l[i]
  {
    if i > 0 {
      forall k | 0 <= k < i - 1 ensures l[1..][k] !in up {
        assert l[1..][k] == l[k + 1];
      }
      KeptHead(l[1..], i - 1, up);
    }
  }

  /** A heartbeat is ready to be sent. */
  lemma Ready(events: seq<Event>, s: System) returns (more: seq<Event>, t: System)
    requires Leads(events, s)
    ensures Leads(events + more, t) && NoJoins(more) && Quiet(s, t) && t.sent + 1 == |t.history|
  {
    hide Leads, Inv, Quiet;
    RunInv(events, s);
    InvBounds(s);
    if s.sent == |s.history| {
      QuietOne(events, s, CutHeartbeat);
      more, t := [CutHeartbeat], Next(s, CutHeartbeat);
    } else {
      SelfQuiet(events, s);
      more, t := [], s;
      assert events + more == events;
    }
  }

  /** Followers that will hold different orders can be brought, by dropping what comes before
      the first difference, to turn to different nodes. */
  lemma DropFront(events: seq<Event>, s: System, a: Address, b: Address, l: seq<Address>, m: seq<Address>, i: nat)
    requires Leads(events, s) && a in s.others && b in s.others && a in s.peers && b in s.peers
    requires s.peers[a].next <= |s.history| && s.peers[b].next <= |s.history|
    requires Eventual(s, s.peers[a]) == m && Eventual(s, s.peers[b]) == l
    requires i < |l| && i < |m| && l[..i] == m[..i] && l[i] != m[i]
    requires NoDuplicates(l) && NoDuplicates(m) && a !in l[..i] && b !in l[..i]
    ensures !KeepsSuccessor(events)
  {
    hide Leads, Eventual, KeepsSuccessor, NoJoins, NoDuplicates, Inv;
    var m1, t1 := Ready(events, s);
    var up := Others(s, l, m, i);
    RunInv(events + m1, t1);
    SendStep(t1, up, a);
    SendStep(t1, up, b);
    LeadsOn(events + m1, t1, Send(up));
    SentLeaves(t1, up);
    var t2 := Next(t1, Send(up));
    UpHeads(s, l, m, i);
    KeptHead(l, i, up);
    KeptHead(m, i, up);
    var m2, t3 := SettleTo(events + m1 + [Send(up)], t2, a, b);
    var more := m1 + [Send(up)] + m2;
    assert events + m1 + [Send(up)] + m2 == events + more;
    NoJoinsTogether(m1, Send(up), m2);
    RefutesHeads(events, more, t3, a, b);
  }

  function Others(s: System, l: seq<Address>, m: seq<Address>, i: nat): set<Address>
    requires i <= |l|
  {
    Members(s.others + l + m) - Members(l[..i])
  }

  lemma UpHeads(s: System, l: seq<Address>, m: seq<Address>, i: nat)
    requires i < |l| && i < |m| && l[..i] == m[..i] && NoDuplicates(l) && NoDuplicates(m)
    ensures var up := Others(s, l, m, i);
      && l[i] in up && m[i] in up
      && (forall k :: 0 <= k < i ==> l[k] !in up && m[k] !in up)
      && (forall a :: a in s.others && a !in l[..i] ==> a in up)
  {
    var front := l[..i];
    assert forall k :: 0 <= k < i ==> front[k] == l[k] && front[k] == m[k];
    assert l[i] !in front && m[i] !in front;
  }

  lemma NoJoinsTogether(m1: seq<Event>, e: Event, m2: seq<Event>)
    requires NoJoins(m1) && NoJoins(m2) && !e.Join?
    ensures NoJoins(m1 + [e] + m2)
  {
  }

  lemma RefutesHeads(events: seq<Event>, more: seq<Event>, t: System, a: Address, b: Address)
    requires Leads(events + more, t) && NoJoins(more)
    requires a in t.others && b in t.others && UpToDate(t, a) && UpToDate(t, b)
    requires t.peers[a].nodes != [] && t.peers[b].nodes != [] && t.peers[a].nodes[0] != t.peers[b].nodes[0]
    ensures !KeepsSuccessor(events)
  {
    hide Leads, NoJoins;
    assert !HeadsAgree(t);
  }

  // ----- Exactly when

  lemma FailedJoinSplits(events: seq<Event>, s: System, a: Address)
    requires LeadsOrderly(events, s) && Enabled(s, Join(a)) && !Passes(s, Agreed(events))
    ensures !KeepsSuccessor(events + [Join(a)])
  {
    hide LeadsOrderly, Leads, KeepsSuccessor, Inv, CutsAgree, Joined, Agreed, NoDuplicates, Eventual, Logs, Replay,
      CleanAddress;
    OrderlyRun(events, s);
    LeadsOn(events, s, Join(a));
    PendingMembers(s);
    var l, mine := Agreed(events), Replay(s.others, Pending(s));
    var i := FirstDifference(l, mine);
    var b := l[i];
    assert b in Members(l) && b in Members(s.others);
    JoinStep(s, a, a);
    JoinStep(s, a, b);
    NotIn(s.others, l, a);
    JoinedLists(l, mine, a, i);
    DropFront(events + [Join(a)], Next(s, Join(a)), a, b, l + [a], mine + [a], i);
  }

  lemma PendingMembers(s: System)
    requires Inv(s)
    ensures s.sent <= |s.history|
    ensures var l := Replay(s.others, Pending(s)); Members(l) == Members(s.others) && NoDuplicates(l)
  {
    hide LeaderInv, PeerInv, Replay, Logs, NodesInStep, NoDuplicates;
    InvLeader(s);
    SnapshotInStep(s);
    EventualMembers(s, s.others, s.sent, |s.history|);
  }

  lemma JoinedLists(l: seq<Address>, m: seq<Address>, a: Address, i: nat)
    requires i < |l| && i < |m| && l[..i] == m[..i] && l[i] != m[i] && NoDuplicates(l) && NoDuplicates(m)
    requires a !in l && a !in m
    ensures (l + [a])[..i] == (m + [a])[..i] == l[..i] && (l + [a])[i] == l[i] && (m + [a])[i] == m[i]
    ensures NoDuplicates(l + [a]) && NoDuplicates(m + [a]) && a !in l[..i] && l[i] !in l[..i] && a != l[i]
  {
    assert l[i] in l;
  }

  /** A join keeps the successor unique if and only if it passes the test. */
  lemma JoinKeepsSuccessorIff(events: seq<Event>, s: System, a: Address)
    requires LeadsOrderly(events, s) && Enabled(s, Join(a))
    ensures KeepsSuccessor(events + [Join(a)]) <==> Passes(s, Agreed(events))
  {
    hide LeadsOrderly, KeepsSuccessor, Passes, Agreed, Joined, CleanAddress;
    if Passes(s, Agreed(events)) {
      OrderlyOn(events, s, Join(a));
      OrderlyKeepsSuccessor(events + [Join(a)], Next(s, Join(a)));
    } else {
      FailedJoinSplits(events, s, a);
    }
  }

  /** Over whole runs: up-to-date connected followers turn to one node, now and whatever comes
      before the next join, at every point if and only if every join passed the test. */
  lemma {:induction false} SuccessorIsKeptIff(events: seq<Event>, s: System)
    requires Leads(events, s)
    ensures LeadsOrderly(events, s) <==> forall n :: 0 <= n <= |events| ==> KeepsSuccessor(events[..n])
    decreases |events|
  {
    hide Enabled, Next, KeepsSuccessor, Passes, Agreed;
    assert events[..|events|] == events;
    if events == [] {
      OrderlyKeepsSuccessor(events, s);
    } else {
      var front, e := events[..|events| - 1], events[|events| - 1];
      var before :| Leads(front, before) && Enabled(before, e) && s == Next(before, e);
      SuccessorIsKeptIff(front, before);
      assert forall n :: 0 <= n < |events| ==> front[..n] == events[..n];
      assert front + [e] == events;
      if LeadsOrderly(front, before) {
        if e.Join? {
          JoinKeepsSuccessorIff(front, before, e.node);
        }
        if e.Join? ==> Passes(before, Agreed(front)) {
          OrderlyOn(front, before, e);
          OrderlyKeepsSuccessor(events, s);
        }
      }
      if LeadsOrderly(events, s) {
        OrderlyFront(events, s, before);
      }
    }
  }
}
