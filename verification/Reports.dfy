/** The replies that list methods and projects: one line a row, methods from back to front,
    projects in order; a client recovers every record from the text. */
module Reports {
  import opened Codec
  import opened Wrappers

  datatype MethodOut = MethodOut(
    hash: string, projectID: int, startVersion: int, startVersionHash: string, endVersion: int,
    endVersionHash: string, name: string, file: string, line: int, parserVersion: int, vulnCode: string,
    license: string, authorIDs: seq<string>)

  datatype ProjectOut = ProjectOut(
    projectID: int, version: int, versionHash: string, license: string, name: string, url: string,
    ownerID: string, parserVersion: int)

  const NO_RESULTS := "No results found."

  function MethodRow(m: MethodOut): seq<string> {
    [m.hash, Show(m.projectID), Show(m.startVersion), m.startVersionHash, Show(m.endVersion), m.endVersionHash,
     m.name, m.file, Show(m.line), Show(m.parserVersion), m.vulnCode, m.license, Show(|m.authorIDs|)] + m.authorIDs
  }

  function ProjectRow(p: ProjectOut): seq<string> {
    [Show(p.projectID), Show(p.version), p.versionHash, p.license, p.name, p.url, p.ownerID, Show(p.parserVersion)]
  }

  function MethodRows(methods: seq<MethodOut>): (rows: seq<seq<string>>)
    ensures |rows| == |methods|
    ensures forall i :: 0 <= i < |methods| ==> rows[i] == MethodRow(methods[i])
  {
    seq(|methods|, i requires 0 <= i < |methods| => MethodRow(methods[i]))
  }

  function ProjectRows(projects: seq<ProjectOut>): (rows: seq<seq<string>>)
    ensures |rows| == |projects|
    ensures forall i :: 0 <= i < |projects| ==> rows[i] == ProjectRow(projects[i])
  {
    seq(|projects|, i requires 0 <= i < |projects| => ProjectRow(projects[i]))
  }

  function Reversed<T>(s: seq<T>): seq<T> {
    if s == [] then [] else [s[|s| - 1]] + Reversed(s[..|s| - 1])
  }

  lemma {:induction false} ReversedAt<T>(s: seq<T>, i: nat)
    requires i < |s|
    ensures |Reversed(s)| == |s| && Reversed(s)[i] == s[|s| - 1 - i]
  {
    if |s| > 1 {
      ReversedAt(s[..|s| - 1], if i == 0 then 0 else i - 1);
    }
  }

  // ----- Printing

  method MethodsToString(methods: seq<MethodOut>) returns (result: string)
    ensures result == Print(MethodRows(Reversed(methods)))
  {
    hide MethodRow;
    var chars := new CharVector();
    var todo := methods;
    ghost var done: seq<MethodOut> := [];
    while todo != []
      invariant done + Reversed(todo) == Reversed(methods)
      invariant chars.chars == Print(MethodRows(done))
    {
      var last := todo[|todo| - 1];
      AppendWords(chars, MethodRow(last), FIELD_DELIMITER, ENTRY_DELIMITER);
      PrintAppend(MethodRows(done), MethodRow(last));
      assert MethodRows(done + [last]) == MethodRows(done) + [MethodRow(last)];
      done := done + [last];
      todo := todo[..|todo| - 1];
    }
    assert done == Reversed(methods);
    result := chars.chars;
  }

  method ProjectsToString(projects: seq<ProjectOut>) returns (result: string)
    ensures result == if projects == [] then NO_RESULTS else Print(ProjectRows(projects))
  {
    hide ProjectRow;
    var chars := new CharVector();
    for i := 0 to |projects|
      invariant chars.chars == Print(ProjectRows(projects[..i]))
    {
      AppendWords(chars, ProjectRow(projects[i]), FIELD_DELIMITER, ENTRY_DELIMITER);
      PrintAppend(ProjectRows(projects[..i]), ProjectRow(projects[i]));
      assert ProjectRows(projects[..i + 1]) == ProjectRows(projects[..i]) + [ProjectRow(projects[i])];
    }
    assert projects[..|projects|] == projects;
    if chars.chars == "" {
      PrintIsEmpty(ProjectRows(projects));
      return NO_RESULTS;
    }
    return chars.chars;
  }

  lemma PrintIsEmpty(rows: seq<seq<string>>)
    ensures Print(rows) == "" <==> rows == []
  {}

  // ----- Reading back

  ghost predicate CleanText(s: string) {
    FIELD_DELIMITER !in s && ENTRY_DELIMITER !in s
  }

  ghost predicate CleanMethod(m: MethodOut) {
    && CleanText(m.hash) && CleanText(m.startVersionHash) && CleanText(m.endVersionHash) && CleanText(m.name)
    && CleanText(m.file) && CleanText(m.vulnCode) && CleanText(m.license)
    && (forall a :: a in m.authorIDs ==> a != "" && CleanText(a))
    && IsInt64(m.projectID) && IsInt64(m.startVersion) && IsInt64(m.endVersion) && IsInt64(m.parserVersion)
    && IsInt32(m.line)
  }

  ghost predicate CleanProject(p: ProjectOut) {
    && CleanText(p.versionHash) && CleanText(p.license) && CleanText(p.name) && CleanText(p.url)
    && CleanText(p.ownerID) && IsInt64(p.projectID) && IsInt64(p.version) && IsInt64(p.parserVersion)
  }

  /** The last fields are the authors, as many as the field before them says. */
  function ReadMethod(row: seq<string>): Option<MethodOut> {
    if |row| < 13 || ParseNumber(row[12], 0, |row|) != Value(|row| - 13) then None
    else
      var numbers := [SafeStoll(row[1]), SafeStoll(row[2]), SafeStoll(row[4]), SafeStoi(row[8]), SafeStoll(row[9])];
      if numbers[0].Value? && numbers[1].Value? && numbers[2].Value? && numbers[3].Value? && numbers[4].Value? then
        Some(MethodOut(row[0], numbers[0].value, numbers[1].value, row[3], numbers[2].value, row[5], row[6], row[7],
                       numbers[3].value, numbers[4].value, row[10], row[11], row[13..]))
      else None
  }

  function ReadProject(row: seq<string>): Option<ProjectOut> {
    if |row| != 8 then None
    else
      var id, version, parser := SafeStoll(row[0]), SafeStoll(row[1]), SafeStoll(row[7]);
      if id.Value? && version.Value? && parser.Value? then
        Some(ProjectOut(id.value, version.value, row[2], row[3], row[4], row[5], row[6], parser.value))
      else None
  }

  lemma ReadMethodRow(m: MethodOut)
    requires CleanMethod(m)
    ensures ReadMethod(MethodRow(m)) == Some(m)
    ensures CleanRow(MethodRow(m)) && EndsNonEmpty(MethodRow(m))
  {
    hide ParseNumber, Show;
    ParseShow(m.projectID, -0x8000_0000_0000_0000, 0x7fff_ffff_ffff_ffff);
    ParseShow(m.startVersion, -0x8000_0000_0000_0000, 0x7fff_ffff_ffff_ffff);
    ParseShow(m.endVersion, -0x8000_0000_0000_0000, 0x7fff_ffff_ffff_ffff);
    ParseShow(m.parserVersion, -0x8000_0000_0000_0000, 0x7fff_ffff_ffff_ffff);
    ParseShow(m.line, -0x8000_0000, 0x7fff_ffff);
    var row := MethodRow(m);
    ParseShow(|m.authorIDs|, 0, |row|);
    assert row[13..] == m.authorIDs;
    forall w | w in row ensures CleanText(w) {
      if w in m.authorIDs {
      } else {
        assert w in row[..13];
      }
    }
    if m.authorIDs != [] {
      assert row[|row| - 1] == m.authorIDs[|m.authorIDs| - 1];
      assert m.authorIDs[|m.authorIDs| - 1] in m.authorIDs;
    } else {
      assert row[|row| - 1] == Show(0);
    }
  }

  lemma ReadProjectRow(p: ProjectOut)
    requires CleanProject(p)
    ensures ReadProject(ProjectRow(p)) == Some(p)
    ensures CleanRow(ProjectRow(p)) && EndsNonEmpty(ProjectRow(p))
  {
    hide ParseNumber, Show;
    ParseShow(p.projectID, -0x8000_0000_0000_0000, 0x7fff_ffff_ffff_ffff);
    ParseShow(p.version, -0x8000_0000_0000_0000, 0x7fff_ffff_ffff_ffff);
    ParseShow(p.parserVersion, -0x8000_0000_0000_0000, 0x7fff_ffff_ffff_ffff);
  }

  /** Every method is recovered from the report, the last one first. */
  lemma MethodsAreRecovered(methods: seq<MethodOut>, i: nat)
    requires (forall m :: m in methods ==> CleanMethod(m)) && i < |methods|
    ensures var rows := Parse(Print(MethodRows(Reversed(methods))));
      |rows| == |methods| && ReadMethod(rows[i]) == Some(methods[|methods| - 1 - i])
  {
    hide ReadMethod, MethodRow, CleanMethod, Parse, Print, CleanRow, EndsNonEmpty;
    ReversedAt(methods, i);
    var reversed := Reversed(methods);
    var rows := MethodRows(reversed);
    forall row | row in rows ensures CleanRow(row) && EndsNonEmpty(row) {
      var j: nat :| j < |rows| && rows[j] == row;
      ReversedAt(methods, j);
      assert reversed[j] in methods;
      ReadMethodRow(reversed[j]);
    }
    ParsePrint(rows);
    assert reversed[i] in methods;
    ReadMethodRow(reversed[i]);
  }

  /** Every project is recovered from the report, in order; a report is never mistaken for the
      absence of results. */
  lemma ProjectsAreRecovered(projects: seq<ProjectOut>, i: nat)
    requires (forall p :: p in projects ==> CleanProject(p)) && i < |projects|
    ensures var rows := Parse(Print(ProjectRows(projects)));
      |rows| == |projects| && ReadProject(rows[i]) == Some(projects[i])
    ensures Print(ProjectRows(projects)) != NO_RESULTS
  {
    hide ReadProject, ProjectRow, CleanProject, Parse, CleanRow, EndsNonEmpty;
    var rows := ProjectRows(projects);
    forall row | row in rows ensures CleanRow(row) && EndsNonEmpty(row) {
      var j: nat :| j < |rows| && rows[j] == row;
      assert projects[j] in projects;
      ReadProjectRow(projects[j]);
    }
    ParsePrint(rows);
    assert projects[i] in projects;
    ReadProjectRow(projects[i]);
    ReportHasLine(rows);
  }

  lemma ReportHasLine(rows: seq<seq<string>>)
    requires rows != []
    ensures ENTRY_DELIMITER in Print(rows) && Print(rows) != NO_RESULTS
  {
    assert Print(rows)[|Join(rows[0], FIELD_DELIMITER)|] == ENTRY_DELIMITER;
  }
}
