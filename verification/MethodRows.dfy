/** What the workers leave in every column of every row, whatever they list and however often. */
module MethodRows {
  import opened MethodStore
  import opened MethodUpload
  import opened MethodHandler
  import opened MethodHistory
  import opened MethodIndex

  // ----- The listings of a method

  function FirstOf(entries: seq<MethodIn>, x: Member): MethodIn
    requires Count(entries, x) > 0
  {
    var n := |entries| - 1;
    if Count(entries[..n], x) > 0 then FirstOf(entries[..n], x) else entries[n]
  }

  function LastOf(entries: seq<MethodIn>, x: Member): MethodIn
    requires Count(entries, x) > 0
  {
    var n := |entries| - 1;
    if MemberOf(entries[n]) == x then entries[n] else LastOf(entries[..n], x)
  }

  /** The vulnerability code of the last listing that has one; the first listing of a method
      that continues does not count, as it extends a row. */
  function CodeOf(entries: seq<MethodIn>, x: Member, continues: bool): string {
    if entries == [] then ""
    else
      var front, m := entries[..|entries| - 1], entries[|entries| - 1];
      if MemberOf(m) == x && m.vulnCode != "" && (continues ==> Count(front, x) > 0) then m.vulnCode
      else CodeOf(front, x, continues)
  }

  lemma ListingsNext(entries: seq<MethodIn>, m: MethodIn, x: Member)
    ensures Count(entries + [m], x) == Count(entries, x) + if MemberOf(m) == x then 1 else 0
    ensures Count(entries + [m], x) > 0 ==>
      && FirstOf(entries + [m], x) == (if Count(entries, x) > 0 then FirstOf(entries, x) else m)
      && LastOf(entries + [m], x) == if MemberOf(m) == x then m else LastOf(entries, x)
  {
    assert (entries + [m])[..|entries|] == entries;
  }

  lemma CodeNext(entries: seq<MethodIn>, m: MethodIn, x: Member, continues: bool)
    ensures CodeOf(entries + [m], x, continues)
         == if MemberOf(m) == x && m.vulnCode != "" && (continues ==> Count(entries, x) > 0) then m.vulnCode
            else CodeOf(entries, x, continues)
  {
    assert (entries + [m])[..|entries|] == entries;
  }

  lemma {:induction false} ListingsAre(entries: seq<MethodIn>, x: Member)
    requires Count(entries, x) > 0
    ensures FirstOf(entries, x) in entries && MemberOf(FirstOf(entries, x)) == x
    ensures LastOf(entries, x) in entries && MemberOf(LastOf(entries, x)) == x
    ensures Count(entries, x) == 1 ==> FirstOf(entries, x) == LastOf(entries, x)
  {
    var n := |entries| - 1;
    assert entries == entries[..n] + [entries[n]];
    if Count(entries[..n], x) > 0 {
      ListingsAre(entries[..n], x);
    }
  }

  lemma {:induction false} NotListed(entries: seq<MethodIn>, x: Member, continues: bool)
    requires Count(entries, x) == 0 || (continues && Count(entries, x) == 1)
    ensures CodeOf(entries, x, continues) == ""
  {
    if entries != [] {
      var n := |entries| - 1;
      assert entries == entries[..n] + [entries[n]];
      NotListed(entries[..n], x, continues);
    }
  }

  // ----- The rows after a list of methods

  /** A row that is started is written anew by every listing and keeps what the last one says,
      but for a vulnerability code not given anew; a row that is extended takes name, line and
      more authors from the first listing only; any other row stays as it was. */
  ghost predicate IsRowAfter(
    methods: map<MethodKey, MethodRow>, k: MethodKey, row: MethodRow, entries: seq<MethodIn>, p: ProjectIn,
    prev: int, newProject: bool)
  {
    var x := RowMember(k);
    if k !in methods then
      && IsStarted(methods, k, entries, p, prev, newProject)
      && var m := LastOf(entries, x);
      && row.startHash == p.versionHash && row.end == p.version && row.endHash == p.versionHash
      && row.name == m.name && row.line == m.line && row.authors == ToSet(m.authors)
      && row.parserVersion == p.parserVersion
      && row.vulnCode == CodeOf(entries, x, Continues(methods, p.id, x, prev, newProject))
    else if IsHit(methods, k, entries, p.id, prev, newProject) then
      var m, was := FirstOf(entries, x), methods[k];
      && row.startHash == was.startHash && row.end == p.version && row.endHash == p.versionHash
      && row.name == m.name && row.line == m.line && row.authors == was.authors + ToSet(m.authors)
      && row.parserVersion == was.parserVersion && row.vulnCode == was.vulnCode
    else
      row == methods[k]
  }

  ghost predicate RowsAre(
    methods: map<MethodKey, MethodRow>, methods': map<MethodKey, MethodRow>, entries: seq<MethodIn>,
    p: ProjectIn, prev: int, newProject: bool)
  {
    forall k :: k in methods' ==> IsRowAfter(methods, k, methods'[k], entries, p, prev, newProject)
  }

  /** The row that an insertion writes over what was there before. */
  ghost predicate IsInserted(row: MethodRow, methods: map<MethodKey, MethodRow>, m: MethodIn, p: ProjectIn) {
    && row.startHash == p.versionHash && row.end == p.version && row.endHash == p.versionHash
    && row.name == m.name && row.line == m.line && row.authors == ToSet(m.authors)
    && row.parserVersion == p.parserVersion
    && row.vulnCode
       == if m.vulnCode != "" then m.vulnCode
          else if Key(m, p, p.version) in methods then methods[Key(m, p, p.version)].vulnCode
          else ""
  }

  lemma InsertRow(
    methods: map<MethodKey, MethodRow>, now: map<MethodKey, MethodRow>, entries: seq<MethodIn>, m: MethodIn,
    row: MethodRow, p: ProjectIn, prev: int, newProject: bool, k: MethodKey)
    requires IsLater(methods, p) && RowsAre(methods, now, entries, p, prev, newProject)
    requires IsAfter(methods, now, entries, p, prev, newProject)
    requires Count(entries, MemberOf(m)) > 0 || !Continues(methods, p.id, MemberOf(m), prev, newProject)
    requires IsAfter(methods, now[Key(m, p, p.version) := row], entries + [m], p, prev, newProject)
    requires IsInserted(row, now, m, p)
    requires k in now[Key(m, p, p.version) := row]
    ensures IsRowAfter(methods, k, now[Key(m, p, p.version) := row][k], entries + [m], p, prev, newProject)
  {
    hide Count, FirstOf, LastOf, CodeOf, Continues, ToSet;
    var x := RowMember(k);
    var continues := Continues(methods, p.id, x, prev, newProject);
    ListingsNext(entries, m, x);
    CodeNext(entries, m, x, continues);
    HitContinues(methods, k, p.id, prev, newProject);
    if Count(entries, x) == 0 || (continues && Count(entries, x) == 1) {
      NotListed(entries, x, continues);
    }
  }

  lemma TouchRow(
    methods: map<MethodKey, MethodRow>, now: map<MethodKey, MethodRow>, entries: seq<MethodIn>, m: MethodIn,
    keys: set<MethodKey>, p: ProjectIn, prev: int, newProject: bool, k: MethodKey)
    requires RowsAre(methods, now, entries, p, prev, newProject)
    requires IsAfter(methods, TouchRows(now, keys, m, p), entries + [m], p, prev, newProject)
    requires keys != {} && forall k :: k in keys <==>
      && k in methods && k.project == p.id && RowMember(k) == MemberOf(m) && !newProject && methods[k].end == prev
      && Count(entries, MemberOf(m)) == 0
    requires k in TouchRows(now, keys, m, p)
    ensures IsRowAfter(methods, k, TouchRows(now, keys, m, p)[k], entries + [m], p, prev, newProject)
  {
    hide Count, FirstOf, LastOf, CodeOf, Continues, ToSet;
    var x := RowMember(k);
    ListingsNext(entries, m, x);
    CodeNext(entries, m, x, Continues(methods, p.id, x, prev, newProject));
    var some :| some in keys;
    HitContinues(methods, some, p.id, prev, newProject);
  }

  lemma AddedRows(
    t: Tables, now: Tables, entries: seq<MethodIn>, m: MethodIn, p: ProjectIn, prev: int, newProject: bool)
    requires IsLater(t.methods, p) && (!newProject ==> prev < p.version)
    requires IsAfter(t.methods, now.methods, entries, p, prev, newProject)
    requires RowsAre(t.methods, now.methods, entries, p, prev, newProject)
    ensures RowsAre(t.methods, AddMethod(now, m, p, prev, p.parserVersion, newProject).methods, entries + [m], p,
                    prev, newProject)
  {
    hide IsAfter, IsLater, IsRowAfter, Continues, Count, Touched, InsertedRow, IsInserted;
    ExtendsWhat(t, now, entries, m, p, prev, newProject);
    AddedIsAfter(t, now, entries, m, p, prev, newProject);
    var next := AddMethod(now, m, p, prev, p.parserVersion, newProject).methods;
    var keys := Extends(now, m, p, prev, newProject);
    var row := InsertedRow(now.methods, m, p, p.parserVersion);
    InsertedColumns(now.methods, m, p);
    forall k | k in next ensures IsRowAfter(t.methods, k, next[k], entries + [m], p, prev, newProject) {
      if keys == {} {
        InsertRow(t.methods, now.methods, entries, m, row, p, prev, newProject, k);
      } else {
        TouchRow(t.methods, now.methods, entries, m, keys, p, prev, newProject, k);
      }
    }
  }

  lemma InsertedColumns(methods: map<MethodKey, MethodRow>, m: MethodIn, p: ProjectIn)
    ensures IsInserted(InsertedRow(methods, m, p, p.parserVersion), methods, m, p)
  {}

  lemma NobodyListed(methods: map<MethodKey, MethodRow>, p: ProjectIn, prev: int, newProject: bool)
    ensures RowsAre(methods, methods, [], p, prev, newProject)
  {}

  /** After any list of methods, repeats included: every column of every row. */
  lemma {:induction false} WorkersWriteRows(
    t: Tables, entries: seq<MethodIn>, p: ProjectIn, prev: int, newProject: bool)
    requires IsLater(t.methods, p) && (!newProject ==> prev < p.version)
    ensures RowsAre(t.methods, AfterMethods(t, entries, p, prev, newProject).methods, entries, p, prev, newProject)
  {
    hide RowsAre, IsLater, AddMethod, IsAfter;
    if entries == [] {
      NobodyListed(t.methods, p, prev, newProject);
    } else {
      var n := |entries| - 1;
      WorkersWriteRows(t, entries[..n], p, prev, newProject);
      WorkersLeave(t, entries[..n], p, prev, newProject);
      var now := AfterMethods(t, entries[..n], p, prev, newProject);
      AddedRows(t, now, entries[..n], entries[n], p, prev, newProject);
      assert entries[..n] + [entries[n]] == entries;
    }
  }
}
