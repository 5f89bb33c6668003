/** The membership change log: what the leader records, how it travels in a heartbeat, and
    what replaying it does to a list of nodes. */
module Membership {
  import opened Codec

  datatype Address = Address(ip: string, port: string)

  datatype Change = Add(node: Address) | Remove(node: Address)

  type Log = seq<Change>

  // ----- Replaying a log on a list and on a set

  function Without(nodes: seq<Address>, a: Address): seq<Address> {
    if nodes == [] then []
    else (if nodes[0] == a then [] else [nodes[0]]) + Without(nodes[1..], a)
  }

  /** Adding skips a node that is already listed; removing erases every occurrence. */
  function Apply(nodes: seq<Address>, c: Change): seq<Address> {
    match c
    case Add(a) => if a in nodes then nodes else nodes + [a]
    case Remove(a) => Without(nodes, a)
  }

  function Replay(nodes: seq<Address>, log: Log): seq<Address> {
    if log == [] then nodes else Apply(Replay(nodes, log[..|log| - 1]), log[|log| - 1])
  }

  function ReplaySet(members: set<Address>, log: Log): set<Address> {
    if log == [] then members
    else
      var before := ReplaySet(members, log[..|log| - 1]);
      match log[|log| - 1]
      case Add(a) => before + {a}
      case Remove(a) => before - {a}
  }

  function Members(nodes: seq<Address>): set<Address> {
    set a | a in nodes
  }

  ghost predicate NoDuplicates(nodes: seq<Address>) {
    forall i, j :: 0 <= i < j < |nodes| ==> nodes[i] != nodes[j]
  }

  ghost predicate Touches(log: Log, a: Address) {
    exists c :: c in log && c.node == a
  }

  lemma {:induction false} WithoutIs(nodes: seq<Address>, a: Address)
    ensures Members(Without(nodes, a)) == Members(nodes) - {a}
    ensures NoDuplicates(nodes) ==> NoDuplicates(Without(nodes, a))
  {
    if nodes != [] {
      WithoutIs(nodes[1..], a);
      assert nodes == [nodes[0]] + nodes[1..];
      assert forall x :: x in nodes <==> x == nodes[0] || x in nodes[1..];
      var rest := Without(nodes[1..], a);
      assert forall x :: x in rest <==> x in Members(rest);
      if NoDuplicates(nodes) {
        assert NoDuplicates(nodes[1..]) && nodes[0] !in nodes[1..];
        assert nodes[0] !in rest;
      }
    }
  }

  /** Replaying on a list gives a duplicate-free list of what replaying on the set gives. */
  lemma {:induction false} ReplayIsReplaySet(nodes: seq<Address>, log: Log)
    requires NoDuplicates(nodes)
    ensures Members(Replay(nodes, log)) == ReplaySet(Members(nodes), log)
    ensures NoDuplicates(Replay(nodes, log))
  {
    if log != [] {
      ReplayIsReplaySet(nodes, log[..|log| - 1]);
      var before := Replay(nodes, log[..|log| - 1]);
      WithoutIs(before, log[|log| - 1].node);
      assert forall x :: x in before <==> x in Members(before);
    }
  }

  /** The last change to a node decides; an untouched node keeps its status. So replaying a
      log on two sets that agree wherever the log is silent gives the same set - in
      particular replaying changes that a snapshot already contains does no harm. */
  lemma {:induction false} ReplayOverrides(s: set<Address>, t: set<Address>, log: Log, a: Address)
    ensures Touches(log, a) ==> (a in ReplaySet(s, log) <==> a in ReplaySet(t, log))
    ensures !Touches(log, a) ==> (a in ReplaySet(s, log) <==> a in s)
  {
    if log != [] {
      var before, last := log[..|log| - 1], log[|log| - 1];
      ReplayOverrides(s, t, before, a);
      assert last in log;
      assert forall c :: c in log <==> c in before || c == last;
    }
  }

  ghost predicate AgreeOff(s: set<Address>, t: set<Address>, log: Log) {
    forall a :: !Touches(log, a) ==> (a in s <==> a in t)
  }

  lemma ReplayConverges(s: set<Address>, t: set<Address>, log: Log)
    requires AgreeOff(s, t, log)
    ensures ReplaySet(s, log) == ReplaySet(t, log)
  {
    forall a ensures a in ReplaySet(s, log) <==> a in ReplaySet(t, log) {
      ReplayOverrides(s, t, log, a);
      ReplayOverrides(t, s, log, a);
    }
  }

  lemma {:induction false} ReplaySetAppend(s: set<Address>, log: Log, more: Log)
    ensures ReplaySet(s, log + more) == ReplaySet(ReplaySet(s, log), more)
  {
    if more == [] {
      assert log + more == log;
    } else {
      ReplaySetAppend(s, log, more[..|more| - 1]);
      assert (log + more)[..|log + more| - 1] == log + more[..|more| - 1];
    }
  }

  // ----- The wire format

  function ChangeFields(c: Change): (fields: seq<string>)
    ensures |fields| == 3
  {
    [if c.Add? then "A" else "R", c.node.ip, c.node.port]
  }

  function LogFields(log: Log): (fields: seq<string>)
    ensures |fields| == 3 * |log|
  {
    if log == [] then [] else LogFields(log[..|log| - 1]) + ChangeFields(log[|log| - 1])
  }

  function AddressFields(nodes: seq<Address>): (fields: seq<string>)
    ensures |fields| == 2 * |nodes|
  {
    if nodes == [] then [] else [nodes[0].ip, nodes[0].port] + AddressFields(nodes[1..])
  }

  /** Fields taken in pairs; an odd field at the end is ignored. */
  function Pairs(fields: seq<string>): seq<Address> {
    if |fields| < 2 then [] else [Address(fields[0], fields[1])] + Pairs(fields[2..])
  }

  lemma {:induction false} PairsOfAddressFields(nodes: seq<Address>)
    ensures Pairs(AddressFields(nodes)) == nodes
  {
    if nodes != [] {
      PairsOfAddressFields(nodes[1..]);
      assert AddressFields(nodes)[2..] == AddressFields(nodes[1..]);
    }
  }

  ghost predicate CleanAddress(a: Address) {
    a.ip != "" && a.port != "" && FIELD_DELIMITER !in a.ip && FIELD_DELIMITER !in a.port
  }

  ghost predicate CleanLog(log: Log) {
    forall c :: c in log ==> CleanAddress(c.node)
  }

  ghost predicate CleanNodes(nodes: seq<Address>) {
    forall a :: a in nodes ==> CleanAddress(a)
  }

  /** A heartbeat as a follower reads it, its final newline already stripped. */
  function HeartbeatText(crawlID: int, changes: string): string {
    Show(crawlID) + [FIELD_DELIMITER] + changes
  }

  function ChangesText(log: Log): string {
    Join(LogFields(log), FIELD_DELIMITER)
  }

  function ReplyText(nodes: seq<Address>): string {
    Join(["ok"] + AddressFields(nodes), FIELD_DELIMITER)
  }

  ghost predicate CleanFields(fields: seq<string>) {
    DelimiterFree(fields, FIELD_DELIMITER) && forall w :: w in fields ==> w != ""
  }

  lemma {:induction false} LogFieldsAreClean(log: Log)
    requires CleanLog(log)
    ensures CleanFields(LogFields(log))
  {
    if log != [] {
      LogFieldsAreClean(log[..|log| - 1]);
      assert log[|log| - 1] in log;
    }
  }

  lemma {:induction false} AddressFieldsAreClean(nodes: seq<Address>)
    requires CleanNodes(nodes)
    ensures CleanFields(AddressFields(nodes))
  {
    if nodes != [] {
      AddressFieldsAreClean(nodes[1..]);
      assert nodes[0] in nodes;
    }
  }

  /** A heartbeat is split into the crawl id and the fields of every change. */
  lemma SplitHeartbeat(crawlID: int, log: Log)
    requires CleanLog(log)
    ensures Split(HeartbeatText(crawlID, ChangesText(log)), FIELD_DELIMITER) == [Show(crawlID)] + LogFields(log)
  {
    LogFieldsAreClean(log);
    SplitWord(Show(crawlID), FIELD_DELIMITER, ChangesText(log));
    SplitJoin(LogFields(log), FIELD_DELIMITER);
    assert LogFields(log) != [] ==> LogFields(log)[|LogFields(log)| - 1] in LogFields(log);
  }

  /** A join reply is split into the acknowledgement and the address fields. */
  lemma SplitReply(nodes: seq<Address>)
    requires CleanNodes(nodes)
    ensures Split(ReplyText(nodes), FIELD_DELIMITER) == ["ok"] + AddressFields(nodes)
  {
    AddressFieldsAreClean(nodes);
    var fields := ["ok"] + AddressFields(nodes);
    assert forall w :: w in fields ==> w == "ok" || w in AddressFields(nodes);
    assert fields[|fields| - 1] in fields;
    SplitJoin(fields, FIELD_DELIMITER);
  }

  // ----- Removing a connection

  /** The last connection takes the place of the removed one. */
  function SwapRemove(nodes: seq<Address>, i: nat): seq<Address>
    requires i < |nodes|
  {
    nodes[i := nodes[|nodes| - 1]][..|nodes| - 1]
  }

  /** The leader keeps join order exactly when it drops one of the last two connections;
      followers always erase in order. */
  lemma SwapRemoveKeepsOrder(nodes: seq<Address>, i: nat)
    requires NoDuplicates(nodes) && i < |nodes|
    ensures SwapRemove(nodes, i) == nodes[..i] + nodes[i + 1..] <==> i + 2 >= |nodes|
  {
    if i + 2 < |nodes| {
      assert SwapRemove(nodes, i)[i] == nodes[|nodes| - 1];
      assert (nodes[..i] + nodes[i + 1..])[i] == nodes[i + 1];
    }
  }

  lemma SwapRemoveMembers(nodes: seq<Address>, i: nat)
    requires NoDuplicates(nodes) && i < |nodes|
    ensures NoDuplicates(SwapRemove(nodes, i))
    ensures Members(SwapRemove(nodes, i)) == Members(nodes) - {nodes[i]}
  {
    var rest := SwapRemove(nodes, i);
    forall a | a in nodes && a != nodes[i] ensures a in rest {
      var k :| 0 <= k < |nodes| && nodes[k] == a;
      assert rest[if k == |nodes| - 1 then i else k] == a;
    }
  }
}
