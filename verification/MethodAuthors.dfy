/** The author index: it agrees with the rows after an upload exactly when every author named
    for a method is also named by its last listing, or by what was extended first. */
module MethodAuthors {
  import opened MethodStore
  import opened MethodUpload
  import opened MethodHandler
  import opened MethodHistory
  import opened MethodIndex
  import opened MethodRows
  import opened MethodUploads
  import opened Sequences
  import opened Wrappers

  /** Row k is one that lists the author of entry e at e's version. */
  ghost predicate IsRowOf(k: MethodKey, row: MethodRow, e: AuthorKey) {
    && k.hash == e.hash && k.project == e.project && k.file == e.file
    && k.start <= e.start <= row.end && e.author in row.authors
  }

  ghost predicate HasRow(methods: map<MethodKey, MethodRow>, e: AuthorKey) {
    exists k :: k in methods && IsRowOf(k, methods[k], e)
  }

  ghost predicate HasEntry(byAuthor: set<AuthorKey>, k: MethodKey, row: MethodRow, a: AuthorID) {
    exists e :: e in byAuthor && e.author == a && IsRowOf(k, row, e)
  }

  ghost predicate AuthorsAgree(t: Tables) {
    && (forall e :: e in t.byAuthor ==> HasRow(t.methods, e))
    && (forall k, a :: k in t.methods && a in t.methods[k].authors ==> HasEntry(t.byAuthor, k, t.methods[k], a))
  }

  /** A row may reach further and list more authors. */
  ghost predicate Grows(row: MethodRow, row': MethodRow) {
    row.end <= row'.end && row.authors <= row'.authors
  }

  lemma RowStays(methods: map<MethodKey, MethodRow>, methods': map<MethodKey, MethodRow>, e: AuthorKey)
    requires HasRow(methods, e)
    requires forall k :: k in methods ==> k in methods' && Grows(methods[k], methods'[k])
    ensures HasRow(methods', e)
  {
    var k :| k in methods && IsRowOf(k, methods[k], e);
    assert IsRowOf(k, methods'[k], e);
  }

  lemma EntryStays(t: Tables, byAuthor: set<AuthorKey>, k: MethodKey, row: MethodRow, a: AuthorID)
    requires AuthorsAgree(t) && t.byAuthor <= byAuthor
    requires k in t.methods && Grows(t.methods[k], row) && a in t.methods[k].authors
    ensures HasEntry(byAuthor, k, row, a)
  {
    assert HasEntry(t.byAuthor, k, t.methods[k], a);
    var e :| e in t.byAuthor && e.author == a && IsRowOf(k, t.methods[k], e);
    assert e in byAuthor && IsRowOf(k, row, e);
  }

  lemma RenewAgrees(t: Tables, keys: set<MethodKey>, p: ProjectIn)
    requires AuthorsAgree(t) && forall k :: k in keys ==> k in t.methods && t.methods[k].end <= p.version
    ensures AuthorsAgree(t.(methods := RenewRows(t.methods, keys, p)))
  {
    hide HasRow, HasEntry, IsRowOf;
    var methods' := RenewRows(t.methods, keys, p);
    forall e | e in t.byAuthor ensures HasRow(methods', e) {
      RowStays(t.methods, methods', e);
    }
    forall k, a | k in methods' && a in methods'[k].authors ensures HasEntry(t.byAuthor, k, methods'[k], a) {
      EntryStays(t, t.byAuthor, k, methods'[k], a);
    }
  }

  lemma SameRowsAgree(t: Tables, t': Tables)
    requires AuthorsAgree(t) && t.methods == t'.methods && t.byAuthor == t'.byAuthor
    ensures AuthorsAgree(t')
  {}

  // ----- The authors after a list of methods

  function EntriesOf(entries: seq<MethodIn>, p: ProjectIn): set<AuthorKey> {
    if entries == [] then {}
    else EntriesOf(entries[..|entries| - 1], p) + AuthorEntries(entries[|entries| - 1], p)
  }

  /** A row that is extended gains the authors of the first listing only; a row that is started
      is written anew by every listing and keeps the authors of the last. */
  ghost function AuthorsAfter(
    methods: map<MethodKey, MethodRow>, k: MethodKey, entries: seq<MethodIn>, p: ProjectIn, prev: int,
    newProject: bool): set<AuthorID>
    requires k in methods || IsStarted(methods, k, entries, p, prev, newProject)
  {
    var x := RowMember(k);
    if k !in methods then ToSet(LastOf(entries, x).authors)
    else if IsHit(methods, k, entries, p.id, prev, newProject) then
      methods[k].authors + ToSet(FirstOf(entries, x).authors)
    else methods[k].authors
  }

  ghost predicate AuthorsAre(
    methods: map<MethodKey, MethodRow>, methods': map<MethodKey, MethodRow>, entries: seq<MethodIn>,
    p: ProjectIn, prev: int, newProject: bool)
  {
    forall k :: k in methods' ==>
      && (k in methods || IsStarted(methods, k, entries, p, prev, newProject))
      && methods'[k].authors == AuthorsAfter(methods, k, entries, p, prev, newProject)
  }

  lemma RowsNameAuthors(
    methods: map<MethodKey, MethodRow>, methods': map<MethodKey, MethodRow>, entries: seq<MethodIn>,
    p: ProjectIn, prev: int, newProject: bool)
    requires RowsAre(methods, methods', entries, p, prev, newProject)
    ensures AuthorsAre(methods, methods', entries, p, prev, newProject)
  {
    hide Continues, IsHit, ToSet;
  }

  lemma {:induction false} WorkersMakeEntries(
    t: Tables, entries: seq<MethodIn>, p: ProjectIn, prev: int, newProject: bool)
    ensures AfterMethods(t, entries, p, prev, newProject).byAuthor == t.byAuthor + EntriesOf(entries, p)
  {
    hide AddMethod, AuthorEntries;
    if entries != [] {
      var n := |entries| - 1;
      WorkersMakeEntries(t, entries[..n], p, prev, newProject);
      AddMethodPuts(AfterMethods(t, entries[..n], p, prev, newProject), entries[n], p, prev, p.parserVersion,
                    newProject);
    }
  }

  /** After any list of methods, repeats included: the authors of every row and every entry. */
  lemma WorkersNameAuthors(t: Tables, entries: seq<MethodIn>, p: ProjectIn, prev: int, newProject: bool)
    requires IsLater(t.methods, p) && (!newProject ==> prev < p.version)
    ensures var t' := AfterMethods(t, entries, p, prev, newProject);
      && AuthorsAre(t.methods, t'.methods, entries, p, prev, newProject)
      && t'.byAuthor == t.byAuthor + EntriesOf(entries, p)
  {
    hide AuthorsAre, RowsAre, IsLater, AfterMethods;
    WorkersWriteRows(t, entries, p, prev, newProject);
    RowsNameAuthors(t.methods, AfterMethods(t, entries, p, prev, newProject).methods, entries, p, prev, newProject);
    WorkersMakeEntries(t, entries, p, prev, newProject);
  }

  lemma {:induction false} EntriesAre(entries: seq<MethodIn>, p: ProjectIn, e: AuthorKey)
    ensures e in EntriesOf(entries, p) <==> exists m :: m in entries && e in AuthorEntries(m, p)
  {
    if entries != [] {
      var n := |entries| - 1;
      EntriesAre(entries[..n], p, e);
      assert entries == entries[..n] + [entries[n]];
    }
  }

  // ----- Exactly when the author index agrees

  /** Author a of a listing of x is still named for x when all listings are through. */
  ghost predicate IsNamed(
    methods: map<MethodKey, MethodRow>, entries: seq<MethodIn>, project: int, prev: int, newProject: bool,
    x: Member, a: AuthorID)
  {
    && Count(entries, x) > 0
    && (a in LastOf(entries, x).authors
        || exists k :: k in methods && IsNamedFirst(methods, k, entries, project, prev, newProject, x, a))
  }

  /** Row k is extended by the first listing of x and then names author a. */
  ghost predicate IsNamedFirst(
    methods: map<MethodKey, MethodRow>, k: MethodKey, entries: seq<MethodIn>, project: int, prev: int,
    newProject: bool, x: Member, a: AuthorID)
    requires Count(entries, x) > 0 && k in methods
  {
    && IsHit(methods, k, entries, project, prev, newProject) && RowMember(k) == x
    && a in methods[k].authors + ToSet(FirstOf(entries, x).authors)
  }

  /** Every author of every listing is named by the last listing of the method or, when the
      previous version has the method, by its first listing or the row that extends. */
  ghost predicate AuthorsAreNamed(t: Tables, u: Upload, order: seq<MethodIn>) {
    forall m, a :: m in order && a in m.authors ==>
      IsNamed(t.methods, order, u.project.id, Previous(u), u.prev.None?, MemberOf(m), a)
  }

  lemma NamedHasRow(t: Tables, now: Tables, u: Upload, order: seq<MethodIn>, m: MethodIn, a: AuthorID)
    requires IsLater(t.methods, ProjectOf(u))
    requires IsAfter(t.methods, now.methods, order, ProjectOf(u), Previous(u), u.prev.None?)
    requires AuthorsAre(t.methods, now.methods, order, ProjectOf(u), Previous(u), u.prev.None?)
    requires m in order && a in m.authors && AuthorsAreNamed(t, u, order)
    ensures HasRow(now.methods, AuthorKey(a, m.hash, u.project.id, m.file, u.project.version))
  {
    hide Count, FirstOf, LastOf;
    var p, x := ProjectOf(u), MemberOf(m);
    var e := AuthorKey(a, m.hash, p.id, m.file, p.version);
    assert IsNamed(t.methods, order, p.id, Previous(u), u.prev.None?, x, a);
    if k :| k in t.methods && IsNamedFirst(t.methods, k, order, p.id, Previous(u), u.prev.None?, x, a) {
      assert IsRowOf(k, now.methods[k], e);
    } else {
      LastHasRow(t, now, u, order, x, a);
    }
  }

  /** The last listing's authors are on the row it wrote, or on the row the only listing extended. */
  lemma LastHasRow(t: Tables, now: Tables, u: Upload, order: seq<MethodIn>, x: Member, a: AuthorID)
    requires IsLater(t.methods, ProjectOf(u))
    requires IsAfter(t.methods, now.methods, order, ProjectOf(u), Previous(u), u.prev.None?)
    requires AuthorsAre(t.methods, now.methods, order, ProjectOf(u), Previous(u), u.prev.None?)
    requires Count(order, x) > 0 && a in LastOf(order, x).authors
    ensures HasRow(now.methods, AuthorKey(a, x.0, u.project.id, x.1, u.project.version))
  {
    hide FirstOf, LastOf;
    var p := ProjectOf(u);
    var e := AuthorKey(a, x.0, p.id, x.1, p.version);
    var k := RowKey(p.id, x, p.version);
    ListingsAre(order, x);
    if IsStarted(t.methods, k, order, p, Previous(u), u.prev.None?) {
      assert k in now.methods && k !in t.methods;
      assert IsRowOf(k, now.methods[k], e);
    } else {
      var k' :| k' in t.methods && k'.project == p.id && RowMember(k') == x && t.methods[k'].end == Previous(u);
      assert IsHit(t.methods, k', order, p.id, Previous(u), u.prev.None?);
      assert IsRowOf(k', now.methods[k'], e);
    }
  }

  lemma NamedAgrees(t: Tables, now: Tables, u: Upload, order: seq<MethodIn>)
    requires IsLater(t.methods, ProjectOf(u)) && AuthorsAgree(t) && AuthorsAreNamed(t, u, order)
    requires IsAfter(t.methods, now.methods, order, ProjectOf(u), Previous(u), u.prev.None?)
    requires AuthorsAre(t.methods, now.methods, order, ProjectOf(u), Previous(u), u.prev.None?)
    requires now.byAuthor == t.byAuthor + EntriesOf(order, ProjectOf(u))
    requires u.prev.Some? ==> u.prev.value < u.project.version
    ensures AuthorsAgree(now)
  {
    hide HasRow, HasEntry, AuthorsAreNamed, EntriesOf, Count, FirstOf, LastOf;
    var p := ProjectOf(u);
    forall e | e in now.byAuthor ensures HasRow(now.methods, e) {
      if e in t.byAuthor {
        RowsGrow(t, now, u, order);
        RowStays(t.methods, now.methods, e);
      } else {
        EntriesAre(order, p, e);
        var m :| m in order && e in AuthorEntries(m, p);
        NamedHasRow(t, now, u, order, m, e.author);
      }
    }
    forall k, a | k in now.methods && a in now.methods[k].authors ensures HasEntry(now.byAuthor, k, now.methods[k], a) {
      RowsGrow(t, now, u, order);
      if k in t.methods && a in t.methods[k].authors {
        EntryStays(t, now.byAuthor, k, now.methods[k], a);
      } else {
        ListedEntry(t, now, u, order, k, a);
      }
    }
  }

  lemma RowsGrow(t: Tables, now: Tables, u: Upload, order: seq<MethodIn>)
    requires IsLater(t.methods, ProjectOf(u))
    requires IsAfter(t.methods, now.methods, order, ProjectOf(u), Previous(u), u.prev.None?)
    requires AuthorsAre(t.methods, now.methods, order, ProjectOf(u), Previous(u), u.prev.None?)
    ensures forall k :: k in t.methods ==> k in now.methods && Grows(t.methods[k], now.methods[k])
  {
    hide Count, FirstOf, LastOf, ToSet, IsStarted;
  }

  /** An author new on a row was listed for it, and so has an entry at the new version. */
  lemma ListedEntry(t: Tables, now: Tables, u: Upload, order: seq<MethodIn>, k: MethodKey, a: AuthorID)
    requires IsLater(t.methods, ProjectOf(u))
    requires IsAfter(t.methods, now.methods, order, ProjectOf(u), Previous(u), u.prev.None?)
    requires AuthorsAre(t.methods, now.methods, order, ProjectOf(u), Previous(u), u.prev.None?)
    requires now.byAuthor == t.byAuthor + EntriesOf(order, ProjectOf(u))
    requires k in now.methods && a in now.methods[k].authors && !(k in t.methods && a in t.methods[k].authors)
    ensures HasEntry(now.byAuthor, k, now.methods[k], a)
  {
    hide Count, FirstOf, LastOf, EntriesOf;
    var p, x := ProjectOf(u), RowMember(k);
    var e := AuthorKey(a, k.hash, p.id, k.file, p.version);
    ListingsAre(order, x);
    var m := if k in t.methods then FirstOf(order, x) else LastOf(order, x);
    EntriesAre(order, p, e);
    assert m in order && e in AuthorEntries(m, p);
    assert IsRowOf(k, now.methods[k], e);
  }

  lemma HasRowNamed(t: Tables, now: Tables, u: Upload, order: seq<MethodIn>, m: MethodIn, a: AuthorID)
    requires IsLater(t.methods, ProjectOf(u)) && m in order
    requires IsAfter(t.methods, now.methods, order, ProjectOf(u), Previous(u), u.prev.None?)
    requires AuthorsAre(t.methods, now.methods, order, ProjectOf(u), Previous(u), u.prev.None?)
    requires HasRow(now.methods, AuthorKey(a, m.hash, u.project.id, m.file, u.project.version))
    ensures IsNamed(t.methods, order, u.project.id, Previous(u), u.prev.None?, MemberOf(m), a)
  {
    hide Count, FirstOf, LastOf;
    var p, x := ProjectOf(u), MemberOf(m);
    CountPositive(order, x);
    var k :| k in now.methods && IsRowOf(k, now.methods[k], AuthorKey(a, m.hash, p.id, m.file, p.version));
    assert RowMember(k) == x;
    if k in t.methods {
      assert IsHit(t.methods, k, order, p.id, Previous(u), u.prev.None?);
      assert IsNamedFirst(t.methods, k, order, p.id, Previous(u), u.prev.None?, x, a);
    }
  }

  /** The rows of listed methods are not renewed again. */
  lemma ListedNotRenewed(t: Tables, u: Upload, order: seq<MethodIn>, e: AuthorKey, m: MethodIn)
    requires IsLater(t.methods, ProjectOf(u)) && Finds(t, u) && u.prev.Some? && u.prev.value < u.project.version
    requires m in order && e.hash == m.hash && e.file == m.file && e.project == u.project.id
    requires IsAfter(t.methods, Listed(t, u, order).methods, order, ProjectOf(u), Previous(u), false)
    requires HasRow(RenewRows(Listed(t, u, order).methods, Unchanged(t, u, order), ProjectOf(u)), e)
    ensures HasRow(Listed(t, u, order).methods, e)
  {
    hide Count, Listed;
    var now := Listed(t, u, order).methods;
    var renewed := RenewRows(now, Unchanged(t, u, order), ProjectOf(u));
    var k :| k in renewed && IsRowOf(k, renewed[k], e);
    CountPositive(order, RowMember(k));
    assert MemberOf(m) == RowMember(k);
    assert k !in Unchanged(t, u, order);
    assert IsRowOf(k, now[k], e);
  }

  /** An upload keeps the author index in agreement with the rows if and only if every author
      it names is still named in the end. */
  lemma UploadAgreesIff(h: History, t: Tables, u: Upload, order: seq<MethodIn>)
    requires IsIndexed(h, t, u.project.id) && Follows(h, u) && Finds(t, u) && AuthorsAgree(t)
    ensures AuthorsAgree(Applied(t, u, order)) <==> AuthorsAreNamed(t, u, order)
  {
    hide AuthorsAgree, IsIndexed, Listed, RenewRows, AuthorsAreNamed, IsLater, IsAfter, AuthorsAre;
    var p, now := ProjectOf(u), Listed(t, u, order);
    LaterThanRows(h, t, u);
    WorkersLeaveListed(h, t, u, order);
    ListedAuthors(t, u, order);
    if AuthorsAreNamed(t, u, order) {
      NamedAgrees(t, now, u, order);
      if u.prev.Some? {
        var keys := Unchanged(t, u, order);
        RenewAgrees(now, keys, p);
        SameRowsAgree(now.(methods := RenewRows(now.methods, keys, p)), Applied(t, u, order));
      }
    }
    if AuthorsAgree(Applied(t, u, order)) {
      AgreedIsNamed(t, u, order);
    }
  }

  lemma ListedAuthors(t: Tables, u: Upload, order: seq<MethodIn>)
    requires IsLater(t.methods, ProjectOf(u)) && (u.prev.Some? ==> u.prev.value < u.project.version)
    ensures AuthorsAre(t.methods, Listed(t, u, order).methods, order, ProjectOf(u), Previous(u), u.prev.None?)
    ensures Listed(t, u, order).byAuthor == t.byAuthor + EntriesOf(order, ProjectOf(u))
  {
    hide AuthorsAre, IsLater, EntriesOf;
    var p := ProjectOf(u);
    WorkersNameAuthors(t.(projects := InsertProject(t.projects, p)), order, p, Previous(u), u.prev.None?);
  }

  lemma AgreedIsNamed(t: Tables, u: Upload, order: seq<MethodIn>)
    requires IsLater(t.methods, ProjectOf(u)) && Finds(t, u) && (u.prev.Some? ==> u.prev.value < u.project.version)
    requires IsAfter(t.methods, Listed(t, u, order).methods, order, ProjectOf(u), Previous(u), u.prev.None?)
    requires AuthorsAre(t.methods, Listed(t, u, order).methods, order, ProjectOf(u), Previous(u), u.prev.None?)
    requires Listed(t, u, order).byAuthor == t.byAuthor + EntriesOf(order, ProjectOf(u))
    requires AuthorsAgree(Applied(t, u, order))
    ensures AuthorsAreNamed(t, u, order)
  {
    hide IsLater, IsAfter, AuthorsAre, Listed, HasRow, HasEntry, RenewRows, Unchanged, EntriesOf, IsNamed;
    var p, t' := ProjectOf(u), Applied(t, u, order);
    forall m, a | m in order && a in m.authors
      ensures IsNamed(t.methods, order, u.project.id, Previous(u), u.prev.None?, MemberOf(m), a)
    {
      var e := AuthorKey(a, m.hash, p.id, m.file, p.version);
      EntriesAre(order, p, e);
      assert e in AuthorEntries(m, p);
      assert HasRow(t'.methods, e);
      if u.prev.Some? {
        ListedNotRenewed(t, u, order, e, m);
      }
      HasRowNamed(t, Listed(t, u, order), u, order, m, a);
    }
  }

  // ----- Whatever the order

  ghost predicate IsOldRow(t: Tables, u: Upload, k: MethodKey) {
    k in t.methods && k.project == u.project.id && u.prev.Some? && t.methods[k].end == u.prev.value
  }

  ghost predicate IsOldAuthor(t: Tables, u: Upload, k: MethodKey, x: Member, first: MethodIn, a: AuthorID) {
    IsOldRow(t, u, k) && RowMember(k) == x && (a in t.methods[k].authors || a in first.authors)
  }

  /** Author a of a method is still named if first is its first listing and last its last. */
  ghost predicate IsBorne(t: Tables, u: Upload, first: MethodIn, last: MethodIn, a: AuthorID) {
    a in last.authors || exists k :: IsOldAuthor(t, u, k, MemberOf(last), first, a)
  }

  /** Two listings of one method - possibly equal, but then listed twice. */
  ghost predicate AreTwoListings(u: Upload, first: MethodIn, last: MethodIn) {
    multiset{first, last} <= multiset(u.methods) && SameMethod(first, last)
  }

  /** Of a method listed more than once, whichever listings come first and last name every
      author: together with the old row, if the previous version has the method, or the last
      alone, if it is new. */
  ghost predicate EveryPairNames(t: Tables, u: Upload) {
    forall first, last, m, a ::
      AreTwoListings(u, first, last) && m in u.methods && SameMethod(m, last) && a in m.authors ==>
        IsBorne(t, u, first, last, a)
  }

  lemma SameElements(a: seq<MethodIn>, b: seq<MethodIn>)
    requires multiset(a) == multiset(b)
    ensures forall m :: m in a <==> m in b
  {
    forall m ensures m in a <==> m in b {
      assert m in a <==> m in multiset(a);
      assert m in b <==> m in multiset(b);
    }
  }

  lemma {:induction false} OnlyListing(entries: seq<MethodIn>, m: MethodIn)
    requires m in entries && Count(entries, MemberOf(m)) <= 1
    ensures Count(entries, MemberOf(m)) == 1 && LastOf(entries, MemberOf(m)) == m
  {
    var n := |entries| - 1;
    CountPositive(entries, MemberOf(m));
    CountPositive(entries[..n], MemberOf(m));
    assert entries == entries[..n] + [entries[n]];
    if entries[n] != m {
      assert m in entries[..n];
      OnlyListing(entries[..n], m);
    }
  }

  lemma {:induction false} TwoListings(entries: seq<MethodIn>, x: Member)
    requires Count(entries, x) >= 2
    ensures multiset{FirstOf(entries, x), LastOf(entries, x)} <= multiset(entries)
  {
    var n := |entries| - 1;
    var front := entries[..n];
    assert entries == front + [entries[n]];
    if MemberOf(entries[n]) == x {
      ListingsAre(front, x);
      assert FirstOf(front, x) in multiset(front);
    } else {
      TwoListings(front, x);
    }
  }

  lemma NamedInOrder(t: Tables, u: Upload, order: seq<MethodIn>)
    requires multiset(order) == multiset(u.methods) && EveryPairNames(t, u)
    ensures AuthorsAreNamed(t, u, order)
  {
    hide Count, FirstOf, LastOf;
    SameElements(order, u.methods);
    forall m, a | m in order && a in m.authors
      ensures IsNamed(t.methods, order, u.project.id, Previous(u), u.prev.None?, MemberOf(m), a)
    {
      var x := MemberOf(m);
      CountPositive(order, x);
      ListingsAre(order, x);
      if Count(order, x) <= 1 {
        OnlyListing(order, m);
      } else {
        var first, last := FirstOf(order, x), LastOf(order, x);
        TwoListings(order, x);
        assert IsBorne(t, u, first, last, a);
        if k :| IsOldAuthor(t, u, k, MemberOf(last), first, a) {
          assert IsNamedFirst(t.methods, k, order, u.project.id, Previous(u), u.prev.None?, x, a);
        }
      }
    }
  }

  /** An order in which two given listings come first and last. */
  lemma Arrange(methods: seq<MethodIn>, first: MethodIn, last: MethodIn) returns (middle: seq<MethodIn>)
    requires multiset{first, last} <= multiset(methods)
    ensures multiset([first] + middle + [last]) == multiset(methods)
  {
    assert first in multiset(methods);
    var i: nat :| i < |methods| && methods[i] == first;
    SplitAt(methods, i);
    var rest := methods[..i] + methods[i + 1..];
    assert multiset(rest)[last] >= 1 by {
      assert multiset(methods)[last] == multiset(rest)[last] + multiset{first}[last];
    }
    assert last in multiset(rest);
    var j: nat :| j < |rest| && rest[j] == last;
    SplitAt(rest, j);
    middle := rest[..j] + rest[j + 1..];
    assert multiset([first] + middle + [last]) == multiset{first} + multiset(middle) + multiset{last};
  }

  lemma {:induction false} FirstIsFirst(first: MethodIn, rest: seq<MethodIn>)
    ensures var x := MemberOf(first); Count([first] + rest, x) > 0 && FirstOf([first] + rest, x) == first
  {
    var x := MemberOf(first);
    if rest == [] {
      ListingsNext([], first, x);
      assert [first] + rest == [] + [first];
    } else {
      var n := |rest| - 1;
      FirstIsFirst(first, rest[..n]);
      ListingsNext([first] + rest[..n], rest[n], x);
      assert ([first] + rest[..n]) + [rest[n]] == [first] + rest;
    }
  }

  /** Some order finishes the given listings first and last. */
  lemma PairIsNamed(h: History, t: Tables, u: Upload, first: MethodIn, last: MethodIn, m: MethodIn, a: AuthorID)
    requires IsIndexed(h, t, u.project.id) && Follows(h, u) && Finds(t, u) && AuthorsAgree(t)
    requires forall order :: multiset(order) == multiset(u.methods) ==> AuthorsAgree(Applied(t, u, order))
    requires AreTwoListings(u, first, last) && m in u.methods && SameMethod(m, last) && a in m.authors
    ensures IsBorne(t, u, first, last, a)
  {
    hide AuthorsAgree, Applied, IsIndexed, Finds, Count, FirstOf, LastOf, Follows, Continues;
    var middle := Arrange(u.methods, first, last);
    var order := [first] + middle + [last];
    SameElements(order, u.methods);
    assert AuthorsAgree(Applied(t, u, order));
    UploadAgreesIff(h, t, u, order);
    var x := MemberOf(m);
    assert IsNamed(t.methods, order, u.project.id, Previous(u), u.prev.None?, x, a);
    FirstIsFirst(first, middle + [last]);
    assert [first] + (middle + [last]) == order;
    ListingsNext([first] + middle, last, x);
    if k :| k in t.methods && IsNamedFirst(t.methods, k, order, u.project.id, Previous(u), u.prev.None?, x, a) {
      assert IsOldAuthor(t, u, k, MemberOf(last), first, a);
    }
  }

  /** An upload agrees whatever order the workers finish in if and only if, of every method
      listed more than once, any two listings name all its authors. */
  lemma EveryOrderAgreesIff(h: History, t: Tables, u: Upload)
    requires IsIndexed(h, t, u.project.id) && Follows(h, u) && Finds(t, u) && AuthorsAgree(t)
    ensures (forall order :: multiset(order) == multiset(u.methods) ==> AuthorsAgree(Applied(t, u, order)))
       <==> EveryPairNames(t, u)
  {
    hide AuthorsAgree, Applied, IsIndexed, Follows, Finds, AuthorsAreNamed, IsBorne, AreTwoListings;
    if EveryPairNames(t, u) {
      forall order | multiset(order) == multiset(u.methods) ensures AuthorsAgree(Applied(t, u, order)) {
        NamedInOrder(t, u, order);
        UploadAgreesIff(h, t, u, order);
      }
    }
    if forall order :: multiset(order) == multiset(u.methods) ==> AuthorsAgree(Applied(t, u, order)) {
      forall first, last, m, a |
        AreTwoListings(u, first, last) && m in u.methods && SameMethod(m, last) && a in m.authors
        ensures IsBorne(t, u, first, last, a)
      {
        PairIsNamed(h, t, u, first, last, m, a);
      }
    }
  }

  /** All listings of a method that is new name the same authors. */
  ghost predicate NewListingsAgree(h: History, u: Upload) {
    forall m, n :: m in u.methods && n in u.methods && SameMethod(m, n) && MemberOf(m) !in Last(h) ==>
      ToSet(m.authors) == ToSet(n.authors)
  }

  /** Where no old member is listed twice that condition is about new methods only: all
      listings of each name the same authors. */
  lemma PairsNameIffListingsAgree(h: History, t: Tables, u: Upload)
    requires IsIndexed(h, t, u.project.id) && Follows(h, u) && ListsNoOldMemberTwice(h, u)
    ensures EveryPairNames(t, u) <==> NewListingsAgree(h, u)
  {
    hide IsIndexed, Follows, Count;
    if EveryPairNames(t, u) {
      forall m, n | m in u.methods && n in u.methods && SameMethod(m, n) && MemberOf(m) !in Last(h)
        ensures ToSet(m.authors) == ToSet(n.authors)
      {
        NewPair(h, t, u, m, n);
        NewPair(h, t, u, n, m);
      }
    }
    if NewListingsAgree(h, u) {
      forall first, last, m, a |
        AreTwoListings(u, first, last) && m in u.methods && SameMethod(m, last) && a in m.authors
        ensures IsBorne(t, u, first, last, a)
      {
        PairCounts(u, first, last);
        assert last in multiset(u.methods);
        assert a in ToSet(m.authors) && ToSet(m.authors) == ToSet(last.authors);
      }
    }
  }

  lemma PairCounts(u: Upload, first: MethodIn, last: MethodIn)
    requires AreTwoListings(u, first, last)
    ensures Count(u.methods, MemberOf(last)) >= 2
  {
    hide Count, FirstOf, LastOf;
    var middle := Arrange(u.methods, first, last);
    FirstIsFirst(first, middle);
    CountNext([first] + middle, last, MemberOf(last));
    CountInAnyOrder([first] + middle + [last], u.methods, MemberOf(last));
  }

  lemma NewPair(h: History, t: Tables, u: Upload, m: MethodIn, n: MethodIn)
    requires IsIndexed(h, t, u.project.id) && Follows(h, u) && EveryPairNames(t, u)
    requires m in u.methods && n in u.methods && SameMethod(m, n) && MemberOf(m) !in Last(h)
    ensures ToSet(m.authors) <= ToSet(n.authors)
  {
    hide IsIndexed, Follows;
    if m != n {
      assert m in multiset(u.methods) && n in multiset(u.methods);
      assert AreTwoListings(u, m, n);
      forall a | a in m.authors ensures a in n.authors {
        assert IsBorne(t, u, m, n, a);
        if k :| IsOldAuthor(t, u, k, MemberOf(n), m, a) {
          EndsLikeMember(h, t, u, k);
        }
      }
    }
  }

  /** It does happen: a first upload that lists a method twice, the second time without one of
      the authors, leaves that author an entry that no row bears out. */
  lemma RepeatedMethodLosesAuthor(p: ProjectIn, m: MethodIn, n: MethodIn, a: AuthorID)
    requires SameMethod(m, n) && a in m.authors && a !in n.authors
    ensures var u, t := Upload(p, None, [], [m, n]), Tables(map[], map[], {});
      && Follows([], u) && IsIndexed([], t, p.id) && AuthorsAgree(t)
      && AuthorKey(a, m.hash, p.id, m.file, p.version) in Applied(t, u, [m, n]).byAuthor
      && !AuthorsAgree(Applied(t, u, [m, n]))
  {
    var u, t, x := Upload(p, None, [], [m, n]), Tables(map[], map[], {}), MemberOf(m);
    NothingIndexed(p.id);
    hide AuthorsAgree, Applied, IsIndexed, Count, FirstOf, LastOf, AuthorEntries, AddMethod;
    UploadAgreesIff([], t, u, [m, n]);
    assert [m] + [n] == [m, n];
    ListingsNext([m], n, x);
    CountPositive([m, n], x);
    HasListed(t, u, m, n, a);
    assert !IsNamed(t.methods, [m, n], p.id, Previous(u), true, x, a);
  }

  lemma NothingIndexed(project: int)
    ensures IsIndexed([], Tables(map[], map[], {}), project) && AuthorsAgree(Tables(map[], map[], {}))
  {}

  lemma HasListed(t: Tables, u: Upload, m: MethodIn, n: MethodIn, a: AuthorID)
    requires u.prev.None? && t.methods == map[] && a in m.authors
    ensures AuthorKey(a, m.hash, u.project.id, m.file, u.project.version) in Applied(t, u, [m, n]).byAuthor
  {
    hide AuthorsAre, EntriesOf;
    var p := ProjectOf(u);
    WorkersNameAuthors(t.(projects := InsertProject(t.projects, p)), [m, n], p, Previous(u), true);
    var e := AuthorKey(a, m.hash, p.id, m.file, p.version);
    EntriesAre([m, n], p, e);
    assert m in [m, n] && e in AuthorEntries(m, p);
  }
}
