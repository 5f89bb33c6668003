/** The leader, with its connections and its pending change log as text, and a follower, with
    its list of the other nodes. */
module MembershipNodes {
  import opened Codec
  import opened Membership

  // ----- One round of sending

  /** Connections from i - 1 down to 0: a connection that is down is dropped, swapping in the
      last one, and its removal is logged. */
  function SendDown(others: seq<Address>, log: Log, i: nat, up: set<Address>): (seq<Address>, Log)
    requires i <= |others|
    decreases i
  {
    if i == 0 then (others, log)
    else if others[i - 1] in up then SendDown(others, log, i - 1, up)
    else SendDown(SwapRemove(others, i - 1), log + [Remove(others[i - 1])], i - 1, up)
  }

  /** The connections below i that are up, in the order they are served. */
  function Served(others: seq<Address>, i: nat, up: set<Address>): seq<Address>
    requires i <= |others|
  {
    if i == 0 then []
    else (if others[i - 1] in up then [others[i - 1]] else []) + Served(others, i - 1, up)
  }

  /** Whatever is swapped in, every original connection is either served or dropped: the
      members left are those that are up, and the log explains the difference. */
  lemma {:induction false} SendDownMembers(others: seq<Address>, log: Log, i: nat, up: set<Address>)
    requires NoDuplicates(others) && i <= |others|
    ensures var (others', log') := SendDown(others, log, i, up);
      && NoDuplicates(others')
      && Members(others') == Members(others) - (Members(others[..i]) - up)
      && log <= log'
      && forall s :: ReplaySet(s, log) == Members(others) ==> ReplaySet(s, log') == Members(others')
    decreases i
  {
    if i > 0 {
      assert others[..i] == others[..i - 1] + [others[i - 1]];
      if others[i - 1] in up {
        SendDownMembers(others, log, i - 1, up);
      } else {
        var next := SwapRemove(others, i - 1);
        var log1 := log + [Remove(others[i - 1])];
        SwapRemoveMembers(others, i - 1);
        assert next[..i - 1] == others[..i - 1];
        assert log1[..|log|] == log;
        SendDownMembers(next, log1, i - 1, up);
      }
    }
  }

  lemma {:induction false} ServedAre(others: seq<Address>, i: nat, up: set<Address>)
    requires NoDuplicates(others) && i <= |others|
    ensures NoDuplicates(Served(others, i, up)) && Members(Served(others, i, up)) == Members(others[..i]) * up
  {
    if i > 0 {
      ServedAre(others, i - 1, up);
      assert others[..i] == others[..i - 1] + [others[i - 1]];
      var rest := Served(others, i - 1, up);
      assert forall a :: a in rest <==> a in Members(rest);
      assert others[i - 1] !in others[..i - 1];
      if others[i - 1] in up {
        assert others[i - 1] !in rest;
        assert Served(others, i, up) == [others[i - 1]] + rest;
      } else {
        assert Served(others, i, up) == rest;
      }
    }
  }

  // ----- The leader

  class Leader {
    var others: seq<Address>
    var nodeConnectionChange: string
    var crawlID: int
    ghost var log: Log

    ghost predicate Valid()
      reads this
    {
      nodeConnectionChange == ChangesText(log)
    }

    constructor (crawlID: int)
      ensures Valid() && others == [] && log == [] && this.crawlID == crawlID
    {
      others, nodeConnectionChange, log := [], "", [];
      this.crawlID := crawlID;
    }

    method RecordChange(change: Change)
      requires Valid()
      modifies this`nodeConnectionChange, this`log
      ensures Valid() && log == old(log) + [change]
    {
      ghost var log' := log + [change];
      assert log'[..|log|] == log;
      JoinThree(log, change);
      if nodeConnectionChange != "" {
        nodeConnectionChange := nodeConnectionChange + [FIELD_DELIMITER];
      }
      nodeConnectionChange := nodeConnectionChange + Join(ChangeFields(change), FIELD_DELIMITER);
      log := log';
    }

    /** Registers a joining node; the reply is a snapshot of the connections before it. */
    method ConnectNewNode(request: string) returns (reply: string, conn: Address)
      requires Valid() && request != "" && |Split(request[..|request| - 1], FIELD_DELIMITER)| >= 2
      modifies this
      ensures Valid() && crawlID == old(crawlID)
      ensures var fields := Split(request[..|request| - 1], FIELD_DELIMITER); conn == Address(fields[0], fields[1])
      ensures others == old(others) + [conn] && log == old(log) + [Add(conn)]
      ensures reply == ReplyText([conn] + old(others)) + [ENTRY_DELIMITER]
    {
      hide Split, CleanAddress, ReplyText, CleanLog, ConnectionToString;
      var splitted := SplitStringOn(request[..|request| - 1], FIELD_DELIMITER);
      conn := Address(splitted[0], splitted[1]);
      var initialData := "";
      var snapshot := others;
      ReplyOne(conn);
      assert [conn] + snapshot[..0] == [conn];
      for i := 0 to |snapshot|
        invariant Valid() && others == snapshot && log == old(log) && crawlID == old(crawlID)
        invariant ReplyText([conn] + snapshot[..i]) == ReplyText([conn]) + initialData
      {
        ReplyNext([conn] + snapshot[..i], snapshot[i]);
        assert [conn] + snapshot[..i + 1] == [conn] + snapshot[..i] + [snapshot[i]];
        initialData := initialData + [FIELD_DELIMITER] + ConnectionToString(snapshot[i]);
      }
      assert snapshot[..|snapshot|] == snapshot;
      others := others + [conn];
      RecordChange(Add(conn));
      reply := "ok" + [FIELD_DELIMITER] + ConnectionToString(conn) + initialData + [ENTRY_DELIMITER];
    }

    method DropConnection(i: nat)
      requires Valid() && i < |others|
      modifies this
      ensures Valid() && crawlID == old(crawlID)
      ensures others == SwapRemove(old(others), i) && log == old(log) + [Remove(old(others)[i])]
    {
      var c := others[i];
      RecordChange(Remove(c));
      others := others[i := others[|others| - 1]];
      others := others[..|others| - 1];
    }

    /** Cuts a heartbeat: the pending changes leave with it. */
    method GetHeartbeat() returns (heartbeat: string)
      requires Valid()
      modifies this
      ensures Valid() && others == old(others) && crawlID == old(crawlID) && log == []
      ensures heartbeat == HeartbeatText(crawlID, ChangesText(old(log))) + [ENTRY_DELIMITER]
    {
      heartbeat := Show(crawlID) + [FIELD_DELIMITER] + nodeConnectionChange + [ENTRY_DELIMITER];
      nodeConnectionChange, log := "", [];
    }

    /** Sends from back to front, so that dropping does not disturb what is still to send;
        up are the connections on which sending succeeds. */
    method SendHeartbeats(up: set<Address>) returns (served: seq<Address>)
      requires Valid()
      modifies this
      ensures Valid() && crawlID == old(crawlID)
      ensures (others, log) == SendDown(old(others), old(log), |old(others)|, up)
      ensures served == Served(old(others), |old(others)|, up)
    {
      hide CleanAddress, CleanLog, CleanNodes, SendDown, Served, SwapRemove;
      NobodyServed(others, up);
      served := [];
      var i := |others| - 1;
      while i >= 0
        invariant -1 <= i < |others| && i < |old(others)|
        invariant Valid() && crawlID == old(crawlID)
        invariant others[..i + 1] == old(others)[..i + 1]
        invariant SendDown(others, log, i + 1, up) == SendDown(old(others), old(log), |old(others)|, up)
        invariant served + Served(old(others), i + 1, up) == Served(old(others), |old(others)|, up)
      {
        assert others[..i + 1][i] == old(others)[..i + 1][i];
        SendNext(others, log, i + 1, up);
        ServedNext(old(others), i + 1, up);
        if others[i] in up {
          served := served + [others[i]];
        } else {
          DropConnection(i);
        }
        i := i - 1;
      }
      SendNobody(others, log, up);
    }
  }

  lemma SendNobody(others: seq<Address>, log: Log, up: set<Address>)
    ensures SendDown(others, log, 0, up) == (others, log)
  {}

  lemma NobodyServed(others: seq<Address>, up: set<Address>)
    ensures Served(others, 0, up) == []
  {}

  lemma SendNext(others: seq<Address>, log: Log, i: nat, up: set<Address>)
    requires 0 < i <= |others|
    ensures SendDown(others, log, i, up)
         == if others[i - 1] in up then SendDown(others, log, i - 1, up)
            else SendDown(SwapRemove(others, i - 1), log + [Remove(others[i - 1])], i - 1, up)
    ensures |SwapRemove(others, i - 1)| == |others| - 1 && SwapRemove(others, i - 1)[..i - 1] == others[..i - 1]
  {}

  lemma ServedNext(others: seq<Address>, i: nat, up: set<Address>)
    requires 0 < i <= |others|
    ensures Served(others, i, up) == (if others[i - 1] in up then [others[i - 1]] else []) + Served(others, i - 1, up)
  {}

  function ConnectionToString(a: Address): string {
    a.ip + [FIELD_DELIMITER] + a.port
  }

  lemma {:induction false} JoinAppendAll(words: seq<string>, more: seq<string>, c: char)
    requires words != [] && more != []
    ensures Join(words + more, c) == Join(words, c) + [c] + Join(more, c)
  {
    if |words| == 1 {
      assert (words + more)[1..] == more;
    } else {
      assert (words + more)[1..] == words[1..] + more;
      JoinAppendAll(words[1..], more, c);
    }
  }

  lemma {:induction false} LogFieldsStart(log: Log)
    ensures log != [] ==> LogFields(log) != [] && LogFields(log)[0] != ""
  {
    if log != [] {
      LogFieldsStart(log[..|log| - 1]);
    }
  }

  lemma JoinThree(log: Log, change: Change)
    ensures ChangesText(log) == "" <==> log == []
    ensures ChangesText(log + [change])
         == ChangesText(log) + (if log == [] then "" else [FIELD_DELIMITER])
          + Join(ChangeFields(change), FIELD_DELIMITER)
  {
    var fields := LogFields(log);
    assert (log + [change])[..|log|] == log;
    LogFieldsStart(log);
    if log == [] {
      assert fields + ChangeFields(change) == ChangeFields(change);
    } else {
      JoinAppendAll(fields, ChangeFields(change), FIELD_DELIMITER);
    }
  }

  lemma JoinTwo(u: string, v: string, c: char)
    ensures Join([u, v], c) == u + [c] + v
  {
    assert [u, v][1..] == [v];
  }

  lemma ReplyOne(conn: Address)
    ensures ReplyText([conn]) == "ok" + [FIELD_DELIMITER] + ConnectionToString(conn)
  {
    assert [conn][1..] == [];
    assert AddressFields([conn]) == [conn.ip, conn.port];
    JoinTwo(conn.ip, conn.port, FIELD_DELIMITER);
    JoinAppendAll(["ok"], [conn.ip, conn.port], FIELD_DELIMITER);
  }

  lemma {:induction false} AddressFieldsAppend(nodes: seq<Address>, a: Address)
    ensures AddressFields(nodes + [a]) == AddressFields(nodes) + [a.ip, a.port]
  {
    if nodes == [] {
      assert nodes + [a] == [a] && [a][1..] == [];
    } else {
      assert (nodes + [a])[1..] == nodes[1..] + [a];
      AddressFieldsAppend(nodes[1..], a);
    }
  }

  lemma ReplyNext(nodes: seq<Address>, a: Address)
    ensures ReplyText(nodes + [a]) == ReplyText(nodes) + [FIELD_DELIMITER] + ConnectionToString(a)
  {
    AddressFieldsAppend(nodes, a);
    var words := ["ok"] + AddressFields(nodes);
    assert ["ok"] + AddressFields(nodes + [a]) == words + [a.ip, a.port];
    JoinTwo(a.ip, a.port, FIELD_DELIMITER);
    JoinAppendAll(words, [a.ip, a.port], FIELD_DELIMITER);
  }

  // ----- A follower

  class Follower {
    var myAddress: Address
    var crawlID: int
    var nonLeaderNodes: seq<Address>

    constructor ()
      ensures nonLeaderNodes == []
    {
      nonLeaderNodes := [];
      myAddress := Address("", "");
    }

    /** The reply to a join request: this node's own address, then the snapshot in pairs. */
    method HandleInitialData(initialData: seq<string>)
      modifies this
      ensures crawlID == old(crawlID)
      ensures (myAddress, nonLeaderNodes) == Initialize(old(myAddress), old(nonLeaderNodes), initialData)
    {
      if |initialData| < 3 {
        return;
      }
      myAddress := Address(initialData[1], initialData[2]);
      var i := 3;
      while i + 1 < |initialData|
        invariant 3 <= i <= |initialData|
        invariant crawlID == old(crawlID) && myAddress == Address(initialData[1], initialData[2])
        invariant nonLeaderNodes + Pairs(initialData[i..]) == old(nonLeaderNodes) + Pairs(initialData[3..])
      {
        assert initialData[i..][2..] == initialData[i + 2..];
        nonLeaderNodes := nonLeaderNodes + [Address(initialData[i], initialData[i + 1])];
        i := i + 2;
      }
      assert Pairs(initialData[i..]) == [] && nonLeaderNodes + [] == nonLeaderNodes;
    }

    /** Replays the changes of a heartbeat; fields come in threes after the crawl id. */
    method HandleHeartbeat(heartbeat: string)
      requires HasWholeChanges(Split(heartbeat, FIELD_DELIMITER))
      modifies this
      ensures myAddress == old(myAddress)
      ensures (crawlID, nonLeaderNodes) == Beat(old(crawlID), old(nonLeaderNodes), Split(heartbeat, FIELD_DELIMITER))
    {
      hide Split, ParseNumber, Without, ReplayFields;
      var hbSplitted := SplitStringOn(heartbeat, FIELD_DELIMITER);
      if |hbSplitted| == 0 {
        return;
      }
      var id := SafeStoi(hbSplitted[0]);
      if id.Value? {
        crawlID := id.value;
      }
      var i := 1;
      ghost var crawl := crawlID;
      ReplayNoFields(nonLeaderNodes);
      assert hbSplitted[1..1] == [];
      while i < |hbSplitted|
        invariant 1 <= i <= |hbSplitted| && (i - 1) % 3 == 0
        invariant crawlID == crawl && myAddress == old(myAddress)
        invariant nonLeaderNodes == ReplayFields(old(nonLeaderNodes), hbSplitted[1..i])
      {
        var received := Address(hbSplitted[i + 1], hbSplitted[i + 2]);
        assert hbSplitted[1..i + 3] == hbSplitted[1..i] + [hbSplitted[i], hbSplitted[i + 1], hbSplitted[i + 2]];
        ReplayNextFields(old(nonLeaderNodes), hbSplitted[1..i], hbSplitted[i], received);
        if hbSplitted[i] == "A" {
          var found := IsListed(received);
          if !found {
            nonLeaderNodes := nonLeaderNodes + [received];
          }
        } else if hbSplitted[i] == "R" {
          nonLeaderNodes := Without(nonLeaderNodes, received);
        }
        i := i + 3;
      }
      assert hbSplitted[1..|hbSplitted|] == hbSplitted[1..];
    }

    /** The connection to the leader broke: the head of the list is next, perhaps this node. */
    method LoseLeader() returns (newLeader: Address, leads: bool)
      requires nonLeaderNodes != []
      modifies this`nonLeaderNodes
      ensures newLeader == old(nonLeaderNodes)[0] && nonLeaderNodes == []
      ensures leads <==> newLeader == myAddress
    {
      newLeader := nonLeaderNodes[0];
      nonLeaderNodes := [];
      leads := newLeader.ip == myAddress.ip && newLeader.port == myAddress.port;
    }

    method IsListed(a: Address) returns (found: bool)
      ensures found <==> a in nonLeaderNodes
    {
      found := false;
      for i := 0 to |nonLeaderNodes|
        invariant !found && a !in nonLeaderNodes[..i]
      {
        if nonLeaderNodes[i] == a {
          return true;
        }
      }
    }
  }

  function Initialize(me: Address, nodes: seq<Address>, initialData: seq<string>): (Address, seq<Address>) {
    if |initialData| < 3 then (me, nodes)
    else (Address(initialData[1], initialData[2]), nodes + Pairs(initialData[3..]))
  }

  predicate HasWholeChanges(fields: seq<string>) {
    fields == [] || |fields| % 3 == 1
  }

  function Beat(crawlID: int, nodes: seq<Address>, fields: seq<string>): (int, seq<Address>)
    requires HasWholeChanges(fields)
  {
    if fields == [] then (crawlID, nodes)
    else
      var id := SafeStoi(fields[0]);
      (if id.Value? then id.value else crawlID, ReplayFields(nodes, fields[1..]))
  }

  function ApplyTagged(nodes: seq<Address>, tag: string, a: Address): seq<Address> {
    if tag == "A" then Apply(nodes, Add(a))
    else if tag == "R" then Apply(nodes, Remove(a))
    else nodes
  }

  /** Replaying raw fields in threes; an unknown tag changes nothing. */
  function ReplayFields(nodes: seq<Address>, fields: seq<string>): seq<Address>
    requires |fields| % 3 == 0
  {
    if fields == [] then nodes
    else
      var n := |fields| - 3;
      ApplyTagged(ReplayFields(nodes, fields[..n]), fields[n], Address(fields[n + 1], fields[n + 2]))
  }

  lemma ReplayNoFields(nodes: seq<Address>)
    ensures ReplayFields(nodes, []) == nodes
  {}

  lemma ReplayNextFields(nodes: seq<Address>, fields: seq<string>, tag: string, a: Address)
    requires |fields| % 3 == 0
    ensures ReplayFields(nodes, fields + [tag, a.ip, a.port]) == ApplyTagged(ReplayFields(nodes, fields), tag, a)
  {
    var more := fields + [tag, a.ip, a.port];
    assert more[..|more| - 3] == fields;
  }

  lemma {:induction false} ReplayFieldsIsReplay(nodes: seq<Address>, log: Log)
    ensures ReplayFields(nodes, LogFields(log)) == Replay(nodes, log)
  {
    if log != [] {
      var before := log[..|log| - 1];
      ReplayFieldsIsReplay(nodes, before);
      var fields := LogFields(log);
      assert fields[..|fields| - 3] == LogFields(before);
    }
  }

  /** A joining node ends up with its own address and the leader's snapshot. */
  lemma ReplyIsSnapshot(me: Address, conn: Address, others: seq<Address>)
    requires CleanAddress(conn) && CleanNodes(others)
    ensures Initialize(me, [], Split(ReplyText([conn] + others), FIELD_DELIMITER)) == (conn, others)
  {
    hide Split, ReplyText, Pairs;
    var nodes := [conn] + others;
    SplitReply(nodes);
    assert nodes[1..] == others;
    var data := ["ok"] + AddressFields(nodes);
    assert AddressFields(nodes) == [conn.ip, conn.port] + AddressFields(others);
    assert data[1] == conn.ip && data[2] == conn.port && data[3..] == AddressFields(others);
    PairsOfAddressFields(others);
    assert [] + others == others;
  }

  /** A heartbeat carries its log: the follower replays exactly the leader's changes. */
  lemma HeartbeatIsReplay(crawlID: int, log: Log, id: int, nodes: seq<Address>)
    requires CleanLog(log) && IsInt32(crawlID)
    ensures var fields := Split(HeartbeatText(crawlID, ChangesText(log)), FIELD_DELIMITER);
      HasWholeChanges(fields) && Beat(id, nodes, fields) == (crawlID, Replay(nodes, log))
  {
    hide Split, ParseNumber, Show, LogFields, HeartbeatText, ChangesText, ReplayFields, Replay, CleanLog;
    SplitHeartbeat(crawlID, log);
    ParseShow(crawlID, -0x8000_0000, 0x7fff_ffff);
    var fields := [Show(crawlID)] + LogFields(log);
    assert fields[1..] == LogFields(log);
    ReplayFieldsIsReplay(nodes, log);
  }
}
