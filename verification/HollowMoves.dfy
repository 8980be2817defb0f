/**
 What the folder move does to a source that is no folder, which nothing checks. A file is destroyed; where
 nothing is, an empty folder appears at the target.
 */
module HollowMoves {
  import opened Options
  import opened Text
  import opened FileTree
  import opened KvRow
  import opened Visits
  import opened FileMoves
  import opened TreeMoves
  import opened FolderMove
  import opened StrayMoves
  import opened SingleMove
  import opened UploadTree
  import opened Folders

  // ----- A file -----

  /** The file's content stays behind under the tombstone of a folder, which no tree has. */
  lemma FileDestroyed(s: Columns, s': Columns, t: Tree, p: Path, d: Path)
    requires Stores(s, t) && ValidPath(p) && p in t && !t[p].Dir? && IsFolder(t, d) && HollowOutcome(s, s', p, d)
    ensures NoTree(s')
  {
    var k := ContentKind(t[p]);
    assert ValidCol(p, Marker) && ValidCol(p, k) && p != [];
    StoresWellFormed(s, t);
    hide *;
    hide Parent, Name;
    PathCols(t, p, d);
    var s1 := HollowSteps(s, s', p, d);
    var list := Join(Rebased(Items(s, p), PathStr(d + [Name(p)])), ',');
    StepKeeps(s, s1, p, d + [Name(p)], list, k);
    TwoListsTarget(s1, s', p, d, PathStr(p), PathStr(d + [Name(p)]));
    ContentThere(s, t, p);
    NotAList(t[p]);
    forall u ensures !Stores(s', u) { NoEntryThere(s', u, p, k); }
    NoTreeFrom(s');
  }

  /** A column that holds something of the file. */
  ghost function ContentKind(e: Entry): Kind {
    if e.Single? then Content else Chunk(1)
  }

  lemma NotAList(e: Entry)
    ensures ContentKind(e) != List && ContentKind(e) != Marker && Marker != List
  {
  }

  lemma ContentThere(s: Columns, t: Tree, p: Path)
    requires Stores(s, t) && ValidPath(p) && p in t && !t[p].Dir?
    ensures At(s, p, ContentKind(t[p])).Some?
  {
    assert ValidCol(p, ContentKind(t[p]));
    StoresWellFormed(s, t);
    hide Stores, NamesOk, At, WellFormed;
    StoresAt(s, t, p, ContentKind(t[p]));
    EntryFacts(t, p);
  }

  lemma HollowSteps(s: Columns, s': Columns, p: Path, d: Path) returns (s1: Columns)
    requires p != [] && HollowOutcome(s, s', p, d)
    ensures FolderStep(Over(s, d + [Name(p)], FOLDER), s1, p, d + [Name(p)], Join(Rebased(Items(s, p), PathStr(d + [Name(p)])), ','))
    ensures TwoLists(s1, s', p, d, PathStr(p), PathStr(d + [Name(p)]))
  {
    hide FolderStep, Over, TwoLists, PathStr, Items, Rebased, Join;
    var p' := d + [Name(p)];
    s1 :| && FolderStep(Over(s, p', FOLDER), s1, p, p', Join(Rebased(Items(s, p), PathStr(p')), ','))
          && TwoLists(s1, s', p, d, PathStr(p), PathStr(p'));
  }

  lemma StepKeeps(s: Columns, s1: Columns, p: Path, p': Path, list: string, k: Kind)
    requires FolderStep(Over(s, p', FOLDER), s1, p, p', list) && p != [] && ValidCol(p, Marker) && ValidCol(p, k) && k != Marker && k != List
    ensures At(s1, p, Marker) == Some(TOMBSTONE) && At(s1, p, k) == At(s, p, k)
  {
    AtOver(s, p', FOLDER);
    hide Over, At, ValidCol, Tidy;
  }

  lemma NoEntryThere(s': Columns, u: Tree, p: Path, k: Kind)
    requires ValidCol(p, Marker) && ValidCol(p, k) && k != Marker && At(s', p, Marker) == Some(TOMBSTONE) && At(s', p, k).Some?
    ensures !Stores(s', u)
  {
    MarkerTexts();
    hide At, ValidCol, Stores, FOLDER, FILE, TOMBSTONE, StartsWith, ListOf;
    if Stores(s', u) {
      StoresAt(s', u, p, k);
      StoresAt(s', u, p, Marker);
    }
  }

  // ----- Nothing -----

  lemma NothingThere(s: Columns, t: Tree, p: Path)
    requires Stores(s, t) && ValidPath(p) && p !in t
    ensures Items(s, p) == [] && Join(Rebased([], ""), ',') == "" && forall newAbs :: Rebased(Items(s, p), newAbs) == []
    ensures forall k :: ValidCol(p, k) && k != Marker ==> At(s, p, k) == None
  {
    assert ValidCol(p, List);
    hide Stores, NamesOk, WellFormed, PathStr, Split, Col;
    forall k | ValidCol(p, k) && k != Marker ensures At(s, p, k) == None { StoresAt(s, t, p, k); }
    StoresAt(s, t, p, List);
    SplitOfNone("", ',');
    assert Followed([""], PathStr(p)) == [];
  }

  /** What a read of the column gives in a row that has some. */
  function ReadText(v: Option<string>): string {
    match v case None => NO_COLUMN case Some(text) => text
  }

  lemma ReadHere(s: Columns, q: Path)
    requires s != map[]
    ensures ListText(s, q) == ReadText(At(s, q, List))
  {
    hide Col;
  }

  lemma NotEmptied(s: Columns, q: Path, k: Kind)
    requires At(s, q, k).Some?
    ensures s != map[]
  {
  }

  /** The columns after the move of nothing to a path below folder d that is not the source. */
  ghost predicate FolderAppears(s: Columns, s': Columns, p: Path, d: Path)
    requires p != []
  {
    var p' := d + [Name(p)];
    && Tidy(s')
    && forall q, k :: ValidCol(q, k) ==> At(s', q, k) == Appeared(s, p, d, q, k)
  }

  ghost function Appeared(s: Columns, p: Path, d: Path, q: Path, k: Kind): Option<string>
    requires p != []
  {
    var p' := d + [Name(p)];
    if q == Parent(p) && k == List then SourceList(if q == p' then "" else ReadText(At(s, q, List)), PathStr(p))
    else if q == d && k == List then Some(Appended(ReadText(At(s, q, List)), PathStr(p')))
    else if q == p && k == Marker then Some(TOMBSTONE)
    else if q == p && k == List then None
    else if q == p' && k == Marker then Some(FOLDER)
    else if q == p' && k == List then Some("")
    else At(s, q, k)
  }

  lemma PathsDiffer(p: Path, d: Path)
    requires p != [] && !(p <= d) && d != Parent(p)
    ensures
      var p' := d + [Name(p)];
      p' != d && p != d && Parent(p) != p && p' != p
  {
    LastPart(p, d);
  }

  lemma AppearsFrom(s: Columns, s1: Columns, s': Columns, p: Path, d: Path)
    requires ValidPath(p) && ValidPath(d + [Name(p)]) && ValidCol(d, List) && ValidCol(Parent(p), List)
    requires !(p <= d) && d != Parent(p)
    requires FolderStep(s, s1, p, d + [Name(p)], "") && TwoLists(s1, s', p, d, PathStr(p), PathStr(d + [Name(p)]))
    ensures FolderAppears(s, s', p, d)
  {
    var p', oldAbs, newAbs := d + [Name(p)], PathStr(p), PathStr(d + [Name(p)]);
    var s2 :| && Differs(s1, s2, d, List, Some(Appended(ListText(s1, d), newAbs)))
              && Differs(s2, s', Parent(p), List, SourceList(ListText(s2, Parent(p)), oldAbs)) && Tidy(s');
    hide *;
    hide Parent, Name;
    PathsDiffer(p, d);
    FirstStep(s, s1, p, d, p');
    ReadHere(s1, d);
    SecondStep(s1, s2, d, Some(Appended(ListText(s1, d), newAbs)), Parent(p));
    ReadHere(s2, Parent(p));
    forall q, k | ValidCol(q, k) ensures At(s', q, k) == Appeared(s, p, d, q, k) {
      AppearedColumn(s, s1, s2, s', p, d, q, k);
    }
    AllAppeared(s, s', p, d);
  }

  lemma AllAppeared(s: Columns, s': Columns, p: Path, d: Path)
    requires p != [] && Tidy(s') && forall q, k :: ValidCol(q, k) ==> At(s', q, k) == Appeared(s, p, d, q, k)
    ensures FolderAppears(s, s', p, d)
  {
    hide At, ValidCol, Tidy, Appeared;
  }

  lemma FirstStep(s: Columns, s1: Columns, p: Path, d: Path, p': Path)
    requires ValidPath(p) && ValidPath(p') && ValidCol(d, List) && d != p && d != p' && p != p' && FolderStep(s, s1, p, p', "")
    ensures At(s1, d, List) == At(s, d, List) && s1 != map[] && p != []
  {
    assert ValidCol(p', List);
    assert At(s1, p', List) == Some("") && At(s1, d, List) == At(s, d, List) by { hide At, ValidCol, NamesOk, Tidy; }
    NotEmptied(s1, p', List);
  }

  lemma SecondStep(s1: Columns, s2: Columns, d: Path, v: Option<string>, r: Path)
    requires Differs(s1, s2, d, List, v) && v.Some? && ValidCol(d, List) && ValidCol(r, List) && r != d
    ensures At(s2, r, List) == At(s1, r, List) && s2 != map[]
  {
    assert At(s2, d, List) == v && At(s2, r, List) == At(s1, r, List) by { hide At, ValidCol, Tidy; }
    NotEmptied(s2, d, List);
  }

  lemma AppearedColumn(s: Columns, s1: Columns, s2: Columns, s': Columns, p: Path, d: Path, q: Path, k: Kind)
    requires p != [] && d != Parent(p) && p != d && Parent(p) != p && d + [Name(p)] != d && d + [Name(p)] != p && ValidCol(q, k)
    requires ValidCol(d, List) && ValidCol(Parent(p), List)
    requires FolderStep(s, s1, p, d + [Name(p)], "") && ListText(s1, d) == ReadText(At(s1, d, List)) && ListText(s2, Parent(p)) == ReadText(At(s2, Parent(p), List))
    requires Differs(s1, s2, d, List, Some(Appended(ListText(s1, d), PathStr(d + [Name(p)]))))
    requires Differs(s2, s', Parent(p), List, SourceList(ListText(s2, Parent(p)), PathStr(p)))
    ensures At(s', q, k) == Appeared(s, p, d, q, k)
  {
    hide At, ValidCol, Tidy, Appended, SourceList, ListText, PathStr, Name, Parent;
  }

  lemma LastPart(p: Path, d: Path)
    requires p != []
    ensures d + [Name(p)] == p <==> d == Parent(p)
  {
    assert p == Parent(p) + [Name(p)];
    assert (d + [Name(p)])[..|d|] == d;
  }

  /** A path that is not in the tree is no item of its parent's list, whatever has that list. */
  lemma NotAnItem(s: Columns, t: Tree, p: Path)
    requires Stores(s, t) && ValidPath(p) && p !in t && ValidCol(Parent(p), List) && At(s, Parent(p), List).Some?
    ensures Parent(p) in t && PathStr(p) !in Split(At(s, Parent(p), List).value, ',')
  {
    assert p != [];
    hide *;
    hide Parent, ValidPath;
    StoresWellFormed(s, t);
    ListOwner(s, t, Parent(p));
    var text := At(s, Parent(p), List).value;
    if t[Parent(p)].Dir? {
      if PathStr(p) in Split(text, ',') {
        ItemIsKid(t, Parent(p), text, p);
      }
    } else {
      NotAChunk(Parent(p), |t[Parent(p)].chunks|, p);
    }
  }

  /** A list belongs to a folder or to a file in chunks. */
  lemma ListOwner(s: Columns, t: Tree, q: Path)
    requires Stores(s, t) && ValidCol(q, List) && At(s, q, List).Some?
    ensures q in t && (t[q].Dir? ==> ListOf(At(s, q, List), q, t[q].kids))
    ensures !t[q].Dir? ==> t[q].Chunked? && ValidPath(q) && t[q].chunks != [] && At(s, q, List).value == Join(ChunkNames(q, |t[q].chunks|), ',')
  {
    StoresWellFormed(s, t);
    hide Stores, NamesOk, At, WellFormed, ListOf, Join;
    StoresAt(s, t, q, List);
    RootOf(s, t);
    EntryFacts(t, q);
  }

  lemma NotAChunk(q: Path, n: nat, p: Path)
    requires ValidPath(q) && ValidPath(p) && n > 0
    ensures PathStr(p) !in Split(Join(ChunkNames(q, n), ','), ',')
  {
    hide NamesOk, PathStr, Split, Join, ChunkName;
    FileListSplits(Chunked(seq(n, i => "")), q);
    PathStrPlain(p);
    forall i | 0 <= i < n ensures ChunkNames(q, n)[i] != PathStr(p) { DashInName(q, i + 1); }
  }

  lemma DashInName(q: Path, i: nat)
    ensures '-' in ChunkName(q, i)
  {
    assert ChunkName(q, i)[|PathStr(q)|] == '-';
  }

  lemma ItemIsKid(t: Tree, q: Path, text: string, p: Path)
    requires WellFormed(t) && q in t && t[q].Dir? && ListOf(Some(text), q, t[q].kids) && ValidPath(p) && PathStr(p) in Split(text, ',')
    ensures p in t
  {
    hide WellFormed, NamesOk, PathStr, Split;
    PathStrPlain(p);
    assert PathStr(p) in NonEmpty(Split(text, ','));
    var i :| 0 <= i < |t[q].kids| && KidPaths(q, t[q].kids)[i] == PathStr(p);
    KidIsValid(t, q, i);
    PathStrInjective(p, q + [t[q].kids[i]]);
  }

  lemma {:induction false} WithoutNothing(xs: seq<string>, x: string)
    requires x !in xs
    ensures Without(xs, x) == xs
    decreases |xs|
  {
    if xs != [] {
      assert xs == [xs[0]] + xs[1..];
      WithoutNothing(xs[1..], x);
    }
  }

  lemma NothingRemoved(text: string, path: string)
    requires path !in Split(text, ',')
    ensures SourceList(text, path) == Some(text)
  {
    hide Split, Join, Without;
    WithoutNothing(Split(text, ','), path);
    JoinOfSplit(text, ',');
  }

  lemma EmptyKept(p: Path)
    requires ValidPath(p)
    ensures SourceList("", PathStr(p)) == Some("") && ListOf(Some(""), p, []) && forall q :: ListOf(Some(""), q, [])
  {
    hide PathStr, Split, SourceList, NamesOk;
    PathStrPlain(p);
    SplitOfNone("", ',');
    NothingRemoved("", PathStr(p));
    assert NonEmpty([""]) == [];
    assert forall q :: KidPaths(q, []) == [];
  }

  lemma MissingIsError()
    ensures StartsWith(NO_COLUMN, "ERR") && NO_COLUMN != "" && ',' !in NO_COLUMN
  {
    assert "ERR" <= NO_COLUMN;
    StatusTexts();
  }

  /** The parent of the source after the removal, where its list is there. */
  lemma ParentListStays(s: Columns, t: Tree, p: Path)
    requires Stores(s, t) && ValidPath(p) && p !in t && At(s, Parent(p), List).Some? && ValidCol(Parent(p), List)
    ensures SourceList(ReadText(At(s, Parent(p), List)), PathStr(p)) == At(s, Parent(p), List)
  {
    assert p != [];
    hide Stores, PathStr, NamesOk, At, SourceList, Parent;
    NotAnItem(s, t, p);
    NothingRemoved(At(s, Parent(p), List).value, PathStr(p));
  }

  /** The target's list after the new path. */
  lemma TargetListed(s: Columns, t: Tree, d: Path, leaf: string)
    requires Stores(s, t) && CanUpload(t, d, leaf) && !ErrText(At(s, d, List))
    ensures ListOf(Some(Appended(ReadText(At(s, d, List)), PathStr(d + [leaf]))), d, t[d].kids + [leaf])
  {
    MissingIsError();
    FolderCol(t, d);
    hide Stores, PathStr, NamesOk, At, Appended, WellFormed, ListOf, StartsWith, NO_COLUMN;
    StoresAt(s, t, d, List);
    AppendedList(At(s, d, List), ReadText(At(s, d, List)), d, t[d].kids, leaf);
  }

  lemma EntryWithFolder(t: Tree, d: Path, leaf: string, q: Path)
    requires d in t && t[d].Dir? && d + [leaf] !in t
    ensures
      var u := WithFolder(t, d, leaf);
      && (q in u <==> q in t || q == d + [leaf])
      && (q in u ==> u[q] == if q == d + [leaf] then Dir([]) else if q == d then Dir(t[d].kids + [leaf]) else t[q])
  {
  }

  lemma AtParent(s: Columns, t: Tree, p: Path, d: Path)
    requires Stores(s, t) && ValidPath(p) && p !in t && ValidCol(Parent(p), List) && ParentUntouched(s, p, d)
    ensures Appeared(s, p, d, Parent(p), List) == if Parent(p) == d + [Name(p)] then Some("") else At(s, Parent(p), List)
  {
    assert p != [];
    EmptyKept(p);
    if At(s, Parent(p), List).Some? {
      ParentListStays(s, t, p);
    } else {
      ErrorTextListed(s, t, p);
    }
    hide Stores, PathStr, NamesOk, At, SourceList, Parent, Name, NO_COLUMN, ListOf;
  }

  lemma AppearedShows(s: Columns, t: Tree, p: Path, d: Path, q: Path, k: Kind)
    requires Stores(s, t) && ValidPath(p) && p !in t && CanUpload(t, d, Name(p)) && d != Parent(p) && p != d && ValidCol(q, k)
    requires !ErrText(At(s, d, List)) && ParentUntouched(s, p, d) && ValidCol(Parent(p), List)
    ensures
      var u := WithFolder(t, d, Name(p));
      (q in u ==> Shows(Appeared(s, p, d, q, k), u[q], q, k)) && (q !in u ==> Vacant(Appeared(s, p, d, q, k), k))
  {
    assert p != [] && d in t && t[d].Dir? && d + [Name(p)] !in t;
    hide *;
    hide Parent, Name;
    LastPart(p, d);
    EntryWithFolder(t, d, Name(p), q);
    AtParent(s, t, p, d);
    StoresAt(s, t, q, k);
    if q == d + [Name(p)] {
      ShowsNew(s, t, p, d, k);
    } else if q == d {
      TargetListed(s, t, d, Name(p));
      ShowsTarget(s, t, p, d, k);
    } else {
      NothingThere(s, t, p);
      ShowsRest(s, t, p, d, q, k);
    }
  }

  lemma ShowsNew(s: Columns, t: Tree, p: Path, d: Path, k: Kind)
    requires p != [] && d + [Name(p)] != p && d + [Name(p)] != d && ValidCol(d + [Name(p)], k) && ValidPath(p) && Vacant(At(s, d + [Name(p)], k), k)
    requires Parent(p) == d + [Name(p)] ==> Appeared(s, p, d, Parent(p), List) == Some("")
    ensures Shows(Appeared(s, p, d, d + [Name(p)], k), Dir([]), d + [Name(p)], k)
  {
    EmptyKept(p);
    hide At, NamesOk, PathStr, ListOf, SourceList, Appended, ReadText, Parent, Name, FOLDER, TOMBSTONE, FILE;
  }

  lemma ShowsTarget(s: Columns, t: Tree, p: Path, d: Path, k: Kind)
    requires p != [] && d != Parent(p) && d != p && d != d + [Name(p)] && d in t && t[d].Dir? && Shows(At(s, d, k), t[d], d, k)
    requires ListOf(Some(Appended(ReadText(At(s, d, List)), PathStr(d + [Name(p)]))), d, t[d].kids + [Name(p)])
    ensures Shows(Appeared(s, p, d, d, k), Dir(t[d].kids + [Name(p)]), d, k)
  {
    hide At, NamesOk, PathStr, ListOf, SourceList, Appended, ReadText, Parent, Name, FOLDER, TOMBSTONE, FILE;
  }

  lemma ShowsRest(s: Columns, t: Tree, p: Path, d: Path, q: Path, k: Kind)
    requires p != [] && p !in t && q != d && q != d + [Name(p)] && ValidCol(q, k)
    requires (q in t ==> Shows(At(s, q, k), t[q], q, k)) && (q !in t ==> Vacant(At(s, q, k), k))
    requires Appeared(s, p, d, Parent(p), List) == if Parent(p) == d + [Name(p)] then Some("") else At(s, Parent(p), List)
    requires forall j :: ValidCol(p, j) && j != Marker ==> At(s, p, j) == None
    ensures (q in t ==> Shows(Appeared(s, p, d, q, k), t[q], q, k)) && (q !in t ==> Vacant(Appeared(s, p, d, q, k), k))
  {
    hide At, NamesOk, PathStr, ListOf, SourceList, Appended, ReadText, Parent, Name, FOLDER, FILE, ValidCol, Shows;
  }

  lemma AppearsStored(s: Columns, s': Columns, t: Tree, p: Path, d: Path)
    requires Stores(s, t) && ValidPath(p) && p !in t && CanUpload(t, d, Name(p)) && d != Parent(p) && p != d && ValidCol(Parent(p), List)
    requires !ErrText(At(s, d, List)) && ParentUntouched(s, p, d) && FolderAppears(s, s', p, d)
    ensures Stores(s', WithFolder(t, d, Name(p)))
  {
    var u := WithFolder(t, d, Name(p));
    WithFolderWellFormed(t, d, Name(p));
    assert Tidy(s');
    hide WithFolder, ValidCol, WellFormed, At, Shows, Vacant, CanUpload, Tidy, Appeared, ErrText, Parent, Name, NamesOk, ParentUntouched;
    forall q, k | ValidCol(q, k)
      ensures q in u ==> Shows(At(s', q, k), u[q], q, k)
      ensures q !in u ==> Vacant(At(s', q, k), k)
    {
      assert At(s', q, k) == Appeared(s, p, d, q, k);
      AppearedShows(s, t, p, d, q, k);
    }
  }

  /** A list that reads like an error is replaced by the one new path. */
  lemma ErrListReplaced(s: Columns, t: Tree, d: Path, leaf: string)
    requires Stores(s, t) && CanUpload(t, d, leaf) && ErrText(At(s, d, List))
    ensures !ListOf(Some(Appended(ReadText(At(s, d, List)), PathStr(d + [leaf]))), d, t[d].kids + [leaf])
  {
    var path := PathStr(d + [leaf]);
    FolderCol(t, d);
    assert Appended(ReadText(At(s, d, List)), path) == path;
    hide Stores, NamesOk, At, Appended, WellFormed, PathStr, Split;
    StoresAt(s, t, d, List);
    ErrListHasAKid(s, t, d);
    PathStrPlain(d + [leaf]);
    OneItem(path);
    assert |KidPaths(d, t[d].kids + [leaf])| >= 2;
  }

  /** The error text of the missing list is written where the list was missing. */
  lemma ErrorTextListed(s: Columns, t: Tree, p: Path)
    requires Stores(s, t) && ValidPath(p) && At(s, Parent(p), List) == None && ValidCol(Parent(p), List)
    ensures SourceList(NO_COLUMN, PathStr(p)) == if PathStr(p) == NO_COLUMN then None else Some(NO_COLUMN)
    ensures Parent(p) in t ==> !Shows(Some(NO_COLUMN), t[Parent(p)], Parent(p), List)
  {
    MissingIsError();
    StoresAt(s, t, Parent(p), List);
    hide Stores, NamesOk, At, PathStr, Split, NO_COLUMN, Parent, StartsWith;
    SplitOfNone(NO_COLUMN, ',');
    OneItem(NO_COLUMN);
    if PathStr(p) == NO_COLUMN {
      NothingKept(p);
    } else {
      NothingRemoved(NO_COLUMN, PathStr(p));
    }
  }

  /** The removal of the source's path leaves the list of its parent, or its absence, as it is. */
  ghost predicate ParentUntouched(s: Columns, p: Path, d: Path)
    requires p != []
  {
    At(s, Parent(p), List).Some? || Parent(p) == d + [Name(p)] || PathStr(p) == NO_COLUMN
  }

  lemma AppearsNotStored(s: Columns, s': Columns, t: Tree, p: Path, d: Path)
    requires Stores(s, t) && ValidPath(p) && p !in t && CanUpload(t, d, Name(p)) && d != Parent(p) && p != d && ValidCol(Parent(p), List)
    requires ErrText(At(s, d, List)) || !ParentUntouched(s, p, d)
    requires FolderAppears(s, s', p, d)
    ensures !Stores(s', WithFolder(t, d, Name(p)))
  {
    var u := WithFolder(t, d, Name(p));
    assert p != [] && d in t && t[d].Dir? && d + [Name(p)] !in t;
    FolderCol(t, d);
    AppearedAt(s, s', p, d, d, List);
    AppearedAt(s, s', p, d, Parent(p), List);
    hide *;
    hide Parent, Name;
    EntryWithFolder(t, d, Name(p), d);
    EntryWithFolder(t, d, Name(p), Parent(p));
    if ErrText(At(s, d, List)) {
      ErrListReplaced(s, t, d, Name(p));
      TargetTextIs(s, p, d);
      if Stores(s', u) {
        FolderListed(s', u, d);
      }
    } else {
      ErrorTextListed(s, t, p);
      ParentTextWritten(s, p, d);
      if Stores(s', u) {
        StoresAt(s', u, Parent(p), List);
        NotVacant(NO_COLUMN);
      }
    }
  }

  lemma AppearedAt(s: Columns, s': Columns, p: Path, d: Path, q: Path, k: Kind)
    requires p != [] && FolderAppears(s, s', p, d) && ValidCol(q, k)
    ensures At(s', q, k) == Appeared(s, p, d, q, k)
  {
    hide At, ValidCol, Appeared, Tidy;
  }

  lemma TargetTextIs(s: Columns, p: Path, d: Path)
    requires p != [] && d != Parent(p)
    ensures Appeared(s, p, d, d, List) == Some(Appended(ReadText(At(s, d, List)), PathStr(d + [Name(p)])))
  {
  }

  lemma ParentTextWritten(s: Columns, p: Path, d: Path)
    requires p != [] && !ParentUntouched(s, p, d) && SourceList(NO_COLUMN, PathStr(p)) == if PathStr(p) == NO_COLUMN then None else Some(NO_COLUMN)
    ensures Appeared(s, p, d, Parent(p), List) == Some(NO_COLUMN) && Parent(p) != d + [Name(p)]
  {
    hide SourceList, PathStr, At, Parent, Name, NO_COLUMN;
  }

  lemma FolderListed(s: Columns, u: Tree, d: Path)
    requires Stores(s, u) && d in u && u[d].Dir? && ValidCol(d, List)
    ensures ListOf(At(s, d, List), d, u[d].kids)
  {
    hide Stores, At, ListOf, ValidCol;
    StoresAt(s, u, d, List);
  }

  lemma NotVacant(text: string)
    ensures !Vacant(Some(text), List)
  {
  }

  // ----- Nothing, moved to where it would be -----

  lemma SameListAgain(v: Option<string>, d: Path, kids: seq<string>, p: Path)
    requires ListOf(v, d, kids) && ValidPath(p) && (v.Some? ==> PathStr(p) !in Split(v.value, ','))
    requires !ErrText(v)
    ensures ListOf(SourceList(Appended(ReadText(v), PathStr(p)), PathStr(p)), d, kids)
  {
    MissingIsError();
    hide PathStr, Split, NamesOk, NO_COLUMN, StartsWith;
    NothingKept(p);
    if v.Some? && v.value != "" {
      PutAndTaken(v.value, PathStr(p));
    } else if v.Some? {
      SplitOfNone("", ',');
      assert NonEmpty([""]) == [];
    }
  }

  lemma PutAndTaken(text: string, path: string)
    requires path !in Split(text, ',') && ',' !in path
    ensures SourceList(text + "," + path, path) == Some(text)
  {
    hide Split, Join;
    SplitConcat(text, path, ',');
    SplitOfNone(path, ',');
    assert text + "," + path == text + [','] + path;
    WithoutLast(Split(text, ','), path);
    JoinOfSplit(text, ',');
  }

  lemma {:induction false} WithoutLast(xs: seq<string>, x: string)
    requires x !in xs
    ensures Without(xs + [x], x) == xs
    decreases |xs|
  {
    if xs == [] {
      assert [] + [x] == [x] && [x][1..] == [];
    } else {
      assert (xs + [x])[0] == xs[0] && (xs + [x])[1..] == xs[1..] + [x] && xs == [xs[0]] + xs[1..];
      WithoutLast(xs[1..], x);
    }
  }

  lemma NothingStays(s: Columns, s1: Columns, s': Columns, t: Tree, p: Path)
    requires Stores(s, t) && ValidPath(p) && p !in t && IsFolder(t, Parent(p))
    requires FolderStep(s, s1, p, p, "") && TwoLists(s1, s', p, Parent(p), PathStr(p), PathStr(p))
    ensures Stores(s', t) <==> !ErrText(At(s, Parent(p), List))
  {
    var d := Parent(p);
    assert p != [] && ValidCol(p, List);
    hide *;
    hide Parent, Name;
    StoresWellFormed(s, t);
    FolderCol(t, d);
    SplitPath(p);
    NothingThere(s, t, p);
    OwnStep(s, s1, p);
    FolderListed(s, t, d);
    FolderListStep(s, s1, s', p, d);
    if ErrText(At(s, d, List)) {
      ErrListGone(s, t, d, p);
      if Stores(s', t) {
        FolderListed(s', t, d);
      }
    } else {
      if At(s, d, List).Some? {
        NotAnItem(s, t, p);
      }
      SameListAgain(At(s, d, List), d, t[d].kids, p);
      StoresAgain(s, s1, s', t, p, d);
    }
  }

  lemma OwnStep(s: Columns, s1: Columns, p: Path)
    requires FolderStep(s, s1, p, p, "") && ValidPath(p)
    ensures Tidy(s1) && s1 != map[]
    ensures forall q, k :: ValidCol(q, k) ==>
              At(s1, q, k) == if q == p && k == Marker then Some(TOMBSTONE) else if q == p && k == List then None else At(s, q, k)
  {
    assert ValidCol(p, Marker);
    assert At(s1, p, Marker) == Some(TOMBSTONE) by { hide At, NamesOk, Tidy; }
    NotEmptied(s1, p, Marker);
    hide At, NamesOk, Tidy, ValidCol;
  }

  lemma FolderListStep(s: Columns, s1: Columns, s': Columns, p: Path, d: Path)
    requires p != [] && d == Parent(p) && d != p && ValidCol(d, List) && s1 != map[] && TwoLists(s1, s', p, d, PathStr(p), PathStr(p))
    requires forall q, k :: ValidCol(q, k) && q != p ==> At(s1, q, k) == At(s, q, k)
    ensures At(s', d, List) == SourceList(Appended(ReadText(At(s, d, List)), PathStr(p)), PathStr(p)) && Tidy(s')
    ensures forall q, k :: ValidCol(q, k) && !(q == d && k == List) ==> At(s', q, k) == At(s1, q, k)
  {
    ReadHere(s1, d);
    TwoListsTarget(s1, s', p, d, PathStr(p), PathStr(p));
    hide At, ValidCol, TwoLists, SourceList, Appended, ListText, PathStr, Parent, Tidy;
  }

  lemma ErrListGone(s: Columns, t: Tree, d: Path, p: Path)
    requires Stores(s, t) && IsFolder(t, d) && ValidCol(d, List) && ErrText(At(s, d, List)) && NamesOk(p)
    ensures SourceList(Appended(ReadText(At(s, d, List)), PathStr(p)), PathStr(p)) == None && !ListOf(None, d, t[d].kids)
  {
    assert Appended(ReadText(At(s, d, List)), PathStr(p)) == PathStr(p);
    hide Stores, At, PathStr, NamesOk, ValidCol, Appended;
    StoresAt(s, t, d, List);
    ErrListHasAKid(s, t, d);
    NothingKept(p);
  }

  lemma StoresAgain(s: Columns, s1: Columns, s': Columns, t: Tree, p: Path, d: Path)
    requires Stores(s, t) && p !in t && IsFolder(t, d) && Tidy(s') && ListOf(At(s', d, List), d, t[d].kids)
    requires forall q, k :: ValidCol(q, k) && !(q == d && k == List) ==> At(s', q, k) == At(s1, q, k)
    requires forall q, k :: ValidCol(q, k) ==>
               At(s1, q, k) == if q == p && k == Marker then Some(TOMBSTONE) else if q == p && k == List then None else At(s, q, k)
    ensures Stores(s', t)
  {
    StoresWellFormed(s, t);
    hide ValidCol, WellFormed, At, Tidy, ListOf, FOLDER, FILE;
    forall q, k | ValidCol(q, k)
      ensures q in t ==> Shows(At(s', q, k), t[q], q, k)
      ensures q !in t ==> Vacant(At(s', q, k), k)
    {
      StoresAt(s, t, q, k);
    }
  }

  // ----- All of it -----

  /**
   A source that is no folder, moved to folder d. A file leaves no tree. Where nothing is, the tree gets an
   empty folder of that name, exactly when the target's list does not read like an error and the removal
   from the source's parent does no harm; a move to where it would be changes nothing.
   */
  ghost predicate Hollowed(s: Columns, s': Columns, t: Tree, p: Path, d: Path)
    requires p != [] && IsFolder(t, d)
  {
    var p' := d + [Name(p)];
    && HollowOutcome(s, s', p, d)
    && (p in t ==> NoTree(s'))
    && (p !in t ==>
          if p' == CLASH then RootLost(s', FOLDER)
          else if p' == p then Stores(s', t) <==> !ErrText(At(s, d, List))
          else if p' in t then SiblingsLost(s', d, Name(p))
          else Stores(s', WithFolder(t, d, Name(p))) <==> !ErrText(At(s, d, List)) && ParentUntouched(s, p, d))
  }

  lemma HollowResult(s: Columns, s': Columns, t: Tree, p: Path, d: Path)
    requires Stores(s, t) && ValidPath(p) && !IsFolder(t, p) && IsFolder(t, d) && !(p <= d) && HollowOutcome(s, s', p, d)
    requires Name(p) in t[d].kids ==> ErrText(At(s, d, List))
    ensures Hollowed(s, s', t, p, d)
  {
    var p' := d + [Name(p)];
    assert p in t ==> !t[p].Dir?;
    assert p != [] && (d + [Name(p)])[|d|] == Name(p);
    hide *;
    hide Parent, Name;
    StoresWellFormed(s, t);
    PathCols(t, p, d);
    SplitPath(p);
    LastPart(p, d);
    if p in t {
      FileDestroyed(s, s', t, p, d);
    } else {
      var s1 := HollowSteps(s, s', p, d);
      NothingThere(s, t, p);
      NoItemsJoined();
      if p' == CLASH {
        HollowClash(s, s1, s', p, d);
      } else {
        NoClash(s, p');
        if p' == p {
          NothingStays(s, s1, s', t, p);
        } else if p' in t {
          KidOfFolder(t, d, Name(p));
          HollowFramed(s, s', p, d);
          TakenName(s, s', p, d);
        } else {
          NewPlace(t, d, Name(p));
          PathsDiffer(p, d);
          AppearsFrom(s, s1, s', p, d);
          if !ErrText(At(s, d, List)) && ParentUntouched(s, p, d) {
            AppearsStored(s, s', t, p, d);
          } else {
            AppearsNotStored(s, s', t, p, d);
          }
        }
      }
    }
    HollowedFrom(s, s', t, p, d);
  }

  lemma NoItemsJoined()
    ensures Join([], ',') == ""
  {
  }

  lemma KidOfFolder(t: Tree, d: Path, n: string)
    requires WellFormed(t) && d + [n] in t
    ensures d in t && t[d].Dir? && n in t[d].kids
  {
    hide WellFormed;
    ParentLists(t, d + [n]);
    assert (d + [n])[..|d|] == d;
  }

  lemma NewPlace(t: Tree, d: Path, n: string)
    requires WellFormed(t) && IsFolder(t, d) && NamesOk(d + [n]) && d + [n] != CLASH && d + [n] !in t
    ensures CanUpload(t, d, n) && ValidPath(d + [n])
  {
    hide WellFormed, NamesOk;
  }

  lemma HollowFramed(s: Columns, s': Columns, p: Path, d: Path)
    requires p != [] && HollowOutcome(s, s', p, d)
    ensures FramedOutcome(s, s', p, d)
  {
    var p', list := d + [Name(p)], Join(Rebased(Items(s, p), PathStr(d + [Name(p)])), ',');
    hide FolderStep, TwoLists, Over, PathStr, Framed;
    var s1 := HollowSteps(s, s', p, d);
    FolderStepFramed(Over(s, p', FOLDER), s1, p, p', list);
  }

  lemma HollowClash(s: Columns, s1: Columns, s': Columns, p: Path, d: Path)
    requires ValidPath(p) && d + [Name(p)] == CLASH && Parent(p) + [Name(p)] == p
    requires FolderStep(Over(s, CLASH, FOLDER), s1, p, CLASH, "") && TwoLists(s1, s', p, d, PathStr(p), PathStr(CLASH))
    ensures RootLost(s', FOLDER)
  {
    hide *;
    hide Parent, Name;
    ClashIsAtRoot(p, d);
    ClashStr();
    RootListStep(s, s1, p);
    TextThere(s1, []);
    TwoListsTarget(s1, s', p, [], PathStr(p), "metadata");
    NotEmptyMarker();
    NoTreeLeft(s', FOLDER);
  }

  lemma ClashIsAtRoot(p: Path, d: Path)
    requires ValidPath(p) && d + [Name(p)] == CLASH
    ensures d == [] && Parent(p) != [] && p != []
  {
    assert |d + [Name(p)]| == |d| + 1 && (d + [Name(p)])[|d|] == Name(p);
    assert p == Parent(p) + [Name(p)];
  }

  lemma RootListStep(s: Columns, s1: Columns, p: Path)
    requires FolderStep(Over(s, CLASH, FOLDER), s1, p, CLASH, "") && p != []
    ensures At(s1, [], List) == Some(FOLDER) && ValidCol([], List)
  {
    assert ValidCol([], List) && CLASH != [];
    assert At(Over(s, CLASH, FOLDER), [], List) == Some(FOLDER);
    hide At, Tidy, Over, FOLDER, ValidCol, CLASH;
  }

  lemma HollowedFrom(s: Columns, s': Columns, t: Tree, p: Path, d: Path)
    requires p != [] && IsFolder(t, d) && HollowOutcome(s, s', p, d) && (p in t ==> NoTree(s'))
    requires p !in t && d + [Name(p)] == CLASH ==> RootLost(s', FOLDER)
    requires p !in t && d + [Name(p)] != CLASH && d + [Name(p)] == p ==> (Stores(s', t) <==> !ErrText(At(s, d, List)))
    requires p !in t && d + [Name(p)] != CLASH && d + [Name(p)] != p && d + [Name(p)] in t ==> SiblingsLost(s', d, Name(p))
    requires p !in t && d + [Name(p)] != CLASH && d + [Name(p)] != p && d + [Name(p)] !in t ==>
               (Stores(s', WithFolder(t, d, Name(p))) <==> !ErrText(At(s, d, List)) && ParentUntouched(s, p, d))
    ensures Hollowed(s, s', t, p, d)
  {
    hide HollowOutcome, NoTree, RootLost, Stores, ErrText, At, SiblingsLost, WithFolder, ParentUntouched, Name, CLASH;
  }
}
