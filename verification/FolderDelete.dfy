/**
 Recursive deletion. It ends on every store, whatever the child lists say; on a stored tree the
 columns it leaves are known one by one.
 */
module FolderDelete {
  import opened Options
  import opened Text
  import opened FileTree
  import opened KvRow
  import opened Visits
  import opened FileMoves
  import opened TreeMoves

  // ----- What is left -----

  ghost predicate VisitedBy(s: Columns, s': Columns, t: Tree, p: Path) {
    && Tidy(s')
    && forall q, k :: ValidCol(q, k) ==>
         At(s', q, k) == if q in t && Seen(s, p, q) then Gone(s, t[q], q, k) else At(s, q, k)
  }

  /** Everything at or below p is gone but for the tombstones of folders; nothing else has changed. */
  ghost predicate Deleted(s: Columns, s': Columns, t: Tree, p: Path) {
    && Tidy(s')
    && forall q, k :: ValidCol(q, k) ==>
         At(s', q, k) == if q in t && p <= q then Left(t[q], k) else At(s, q, k)
  }

  ghost predicate Holds(s: Columns, t: Tree, p: Path, absPath: string) {
    WellFormed(t) && p in t && p != [] && absPath == PathStr(p) && Tidy(s) && Below(s, t, p)
  }

  /** The columns that say they are a folder; deletion only ever makes them fewer. */
  function Folders(cols: Columns): set<string> {
    set c | c in cols && cols[c] == FOLDER
  }

  // ----- Exactly when deletion deletes -----

  /** A chunk list that reads like an error is left behind. */
  lemma ErrFileSurvives(s: Columns, s': Columns, t: Tree, p: Path, q: Path)
    requires VisitedBy(s, s', t, p) && q in t && p <= q && ErrText(At(s, q, List)) && t[q].Chunked? && ValidCol(q, List)
    ensures !Deleted(s, s', t, p)
  {
    hide At, ValidCol, Tidy, Seen;
  }

  /** The children of a folder whose list reads like an error are left behind. */
  lemma ErrKidSurvives(s: Columns, s': Columns, t: Tree, p: Path, q: Path, n: string)
    requires VisitedBy(s, s', t, p) && p <= q && ErrText(At(s, q, List)) && q + [n] in t && ValidPath(q + [n])
    requires Shows(At(s, q + [n], Marker), t[q + [n]], q + [n], Marker)
    ensures !Deleted(s, s', t, p)
  {
    assert ValidCol(q + [n], Marker);
    hide At, ValidPath, NamesOk, Tidy, ValidCol;
    var c := q + [n];
    assert ValidCol(c, Marker) && p <= c && c[..|q|] == q;
    assert !Seen(s, p, c);
    hide Seen, ErrText;
    assert At(s', c, Marker) == At(s, c, Marker);
    assert FOLDER[0] == 'K' && TOMBSTONE[0] == 'D';
  }

  /** An error list on the way to q, or at q itself, shows in what deletion leaves behind. */
  lemma ErrListSurvives(s: Columns, s': Columns, t: Tree, p: Path, q: Path)
    requires Holds(s, t, p, PathStr(p)) && VisitedBy(s, s', t, p)
    requires q in t && p <= q && ErrText(At(s, q, List))
    ensures !Deleted(s, s', t, p)
  {
    assert WellFormed(t) && ValidPath(q) && Below(s, t, p);
    hide PathStr, At, WellFormed, VisitedBy, Deleted, ErrText, Below, ValidPath;
    EntryKept(s, t, p, q, List);
    if t[q].Chunked? {
      ErrFileSurvives(s, s', t, p, q);
    } else {
      ErrListHasAKid(s, t, q);
      KidIsValid(t, q, 0);
      var c := q + [t[q].kids[0]];
      assert p <= c;
      EntryKept(s, t, p, c, Marker);
      ErrKidSurvives(s, s', t, p, q, t[q].kids[0]);
    }
  }

  /** Deletion removes the whole subtree exactly when no list in it starts with the text ERR. */
  lemma DeletesExactly(s: Columns, s': Columns, t: Tree, p: Path)
    requires Holds(s, t, p, PathStr(p)) && VisitedBy(s, s', t, p)
    ensures Deleted(s, s', t, p) <==> NoErrLists(s, t, p)
  {
    if NoErrLists(s, t, p) {
      hide PathStr, At, Below, Left, ErrText, ValidPath;
      forall q | q in t && p <= q ensures Seen(s, p, q) && !ErrText(At(s, q, List)) {
        forall n | |p| <= n < |q| ensures !ErrText(At(s, q[..n], List)) {
          assert p <= q[..n];
          BelowAKid(t, q[..n], q);
        }
      }
    } else {
      var q :| q in t && p <= q && ErrText(At(s, q, List));
      ErrListSurvives(s, s', t, p, q);
    }
  }

  /** A list that starts with the error text has a first path that does. */
  lemma ErrListErrName(s: Columns, t: Tree, p: Path)
    requires WellFormed(t) && p in t && p != [] && t[p].Dir? && ListOf(At(s, p, List), p, t[p].kids) && ErrText(At(s, p, List))
    ensures !NotErrNamed(p)
  {
    hide PathStr, NotErrNamed;
    var v := At(s, p, List).value;
    var items := Split(v, ',');
    JoinOfSplit(v, ',');
    JoinStartsWithErr(items);
    assert items[0] in NonEmpty(items);
    var i :| 0 <= i < |t[p].kids| && KidPaths(p, t[p].kids)[i] == items[0];
    KidIsValid(t, p, i);
    ErrNamedKid(p, t[p].kids[i]);
  }

  lemma ErrNamedKid(p: Path, n: string)
    requires p != [] && ValidPath(p + [n]) && StartsWith(PathStr(p + [n]), "ERR")
    ensures !NotErrNamed(p)
  {
    if NotErrNamed(p + [n]) {
      StartsWithErr(p + [n]);
    }
    assert (p + [n])[0] == p[0];
  }

  /** That is always so below a top-level name that does not start with ERR. */
  lemma PlainNamesHaveNoErrLists(s: Columns, t: Tree, p: Path)
    requires Holds(s, t, p, PathStr(p)) && NotErrNamed(p)
    ensures NoErrLists(s, t, p)
  {
    hide PathStr, StartsWith, At;
    forall q | q in t && p <= q ensures !ErrText(At(s, q, List)) {
      assert ValidPath(q) && q[0] == p[0];
      EntryKept(s, t, p, q, List);
      if t[q].Dir? {
        if ErrText(At(s, q, List)) {
          ErrListErrName(s, t, q);
        }
      } else if t[q].Chunked? {
        FileListSplits(t[q], q);
      }
    }
  }

  // ----- The code: a file -----

  ghost predicate ChunksGone(s: Columns, s': Columns, p: Path, n: nat) {
    && Tidy(s')
    && forall q, k :: ValidCol(q, k) ==>
         At(s', q, k) == if q == p && k.Chunk? && 1 <= k.i <= n then None else At(s, q, k)
  }

  method DeleteChunks(kv: Row, chunks: seq<string>, ghost p: Path)
    modifies kv
    ensures Folders(kv.cols) <= Folders(old(kv.cols))
    ensures ValidPath(p) && Tidy(old(kv.cols)) && chunks == ChunkNames(p, |chunks|) ==>
              ChunksGone(old(kv.cols), kv.cols, p, |chunks|)
  {
    hide PathStr, Dec, Tidy, ValidPath, NamesOk, ValidCol, Col, At;
    for j := 0 to |chunks|
      invariant Folders(kv.cols) <= Folders(old(kv.cols))
      invariant ValidPath(p) && Tidy(old(kv.cols)) && chunks == ChunkNames(p, |chunks|) ==>
                  ChunksGone(old(kv.cols), kv.cols, p, j)
    {
      if ValidPath(p) && chunks == ChunkNames(p, |chunks|) {
        ValidIsNamesOk(p);
        ChunkStrings(p, j + 1);
      }
      kv.Delete(chunks[j] + "-content", p, Chunk(j + 1));
    }
  }

  ghost predicate FileGone(s: Columns, s': Columns, e: Entry, p: Path) {
    Tidy(s') && forall q, k :: ValidCol(q, k) ==> At(s', q, k) == if q == p then Gone(s, e, q, k) else At(s, q, k)
  }

  /** The chunk list and the chunks are gone; the content column and the marker are still to come. */
  ghost predicate BodyGone(s: Columns, s': Columns, e: Entry, p: Path) {
    && Tidy(s')
    && forall q, k :: ValidCol(q, k) ==>
         At(s', q, k) == if q == p && (k.List? || k.Chunk?) then Gone(s, e, q, k) else At(s, q, k)
  }

  lemma RestGone(s: Columns, s1: Columns, s2: Columns, s': Columns, e: Entry, p: Path)
    requires BodyGone(s, s1, e, p) && Differs(s1, s2, p, Content, None) && Differs(s2, s', p, Marker, None)
    requires !e.Dir?
    ensures FileGone(s, s', e, p)
  {
    hide Tidy, At, ValidCol;
  }

  method DeleteFileBody(kv: Row, absPath: string, ghost e: Entry, ghost p: Path)
    modifies kv
    ensures Folders(kv.cols) <= Folders(old(kv.cols))
    ensures Tidy(old(kv.cols)) && absPath == "" ==> kv.cols == old(kv.cols)
    ensures ValidPath(p) && Tidy(old(kv.cols)) && absPath == PathStr(p) && HasFile(old(kv.cols), e, p) ==>
              BodyGone(old(kv.cols), kv.cols, e, p)
  {
    ghost var s := kv.cols;
    ghost var ok := ValidPath(p) && Tidy(s) && absPath == PathStr(p) && HasFile(s, e, p);
    hide HasFile, Tidy, PathStr, ValidPath, ValidCol, At, Col, Differs, BodyGone, ChunksGone, StartsWith;
    if ok {
      ListStrings(p);
      ListTextRead(s, e, p);
    }
    NoStrayColumns(s);
    assert absPath == "" ==> absPath + "-metadata" == "-metadata";
    var fileMeta := kv.Get(absPath + "-metadata");
    if fileMeta != "" && !StartsWith(fileMeta, "ERR") {
      var chunks := SplitString(fileMeta, ',');
      DeleteChunks(kv, chunks, p);
      ghost var s1 := kv.cols;
      kv.Delete(absPath + "-metadata", p, List);
      if ok {
        ChunksAndListGone(s, s1, kv.cols, e, p);
      }
    } else if ok {
      NothingGone(s, e, p);
    }
  }

  /** What the list column of a file says. */
  lemma ListTextRead(s: Columns, e: Entry, p: Path)
    requires ValidPath(p) && HasFile(s, e, p)
    ensures
      var v := Fetch(s, Col(p, List));
      if e.Chunked? then v != "" && Split(v, ',') == ChunkNames(p, |e.chunks|) && (StartsWith(v, "ERR") <==> ErrText(At(s, p, List)))
      else StartsWith(v, "ERR") && At(s, p, List) == None
  {
    hide PathStr, Split, Join, Col, StartsWith;
    assert ValidCol(p, List);
    if e.Chunked? {
      FileListSplits(e, p);
    }
  }

  lemma ChunksAndListGone(s: Columns, s1: Columns, s': Columns, e: Entry, p: Path)
    requires HasFile(s, e, p) && e.Chunked? && !ErrText(At(s, p, List)) && ChunksGone(s, s1, p, |e.chunks|)
    requires Differs(s1, s', p, List, None)
    ensures BodyGone(s, s', e, p)
  {
    hide At, ValidCol, Tidy, ListOf, Join, ErrText;
  }

  /** A single-column file has no list and no chunks; a list that reads like an error is passed over. */
  lemma NothingGone(s: Columns, e: Entry, p: Path)
    requires HasFile(s, e, p) && Tidy(s) && (e.Chunked? ==> ErrText(At(s, p, List)))
    ensures BodyGone(s, s, e, p)
  {
    hide At, ValidCol, Tidy, ListOf, Join, ErrText;
  }

  lemma NoStrayColumns(s: Columns)
    ensures Tidy(s) ==> "" !in s && "-metadata" !in s && "-content" !in s
  {
    forall c | c in s && Named(c) ensures c != "" && c != "-metadata" && c != "-content" {
      var p, k :| ValidCol(p, k) && c == Col(p, k);
      if p != [] {
        ColSplits(p, k);
        PathStrPlain(p);
      }
    }
  }

  /** Everything but a live folder is deleted like a file, which does nothing for the empty path. */
  method DeleteFile(kv: Row, absPath: string, ghost e: Entry, ghost p: Path)
    modifies kv
    ensures Folders(kv.cols) <= Folders(old(kv.cols))
    ensures Tidy(old(kv.cols)) && absPath == "" ==> kv.cols == old(kv.cols)
    ensures ValidPath(p) && Tidy(old(kv.cols)) && absPath == PathStr(p) && HasFile(old(kv.cols), e, p) ==>
              FileGone(old(kv.cols), kv.cols, e, p)
  {
    ghost var s := kv.cols;
    ghost var ok := ValidPath(p) && Tidy(s) && absPath == PathStr(p) && HasFile(s, e, p);
    if ok {
      ListStrings(p);
    }
    assert ok ==> !e.Dir?;
    NoStrayColumns(s);
    assert absPath == "" ==> absPath + "-content" == "-content";
    hide PathStr, Tidy, ValidPath, ValidCol, Col, HasFile, FileGone, BodyGone, Differs;
    DeleteFileBody(kv, absPath, e, p);
    ghost var s1 := kv.cols;
    kv.Delete(absPath + "-content", p, Content);
    ghost var s2 := kv.cols;
    kv.Delete(absPath, p, Marker);
    if ok {
      RestGone(s, s1, s2, kv.cols, e, p);
    }
  }

  // ----- The code: a folder -----

  /** Deleting leaves what moving onto itself leaves. */
  lemma VisitedIsRelocated(s: Columns, s': Columns, t: Tree, p: Path)
    ensures VisitedBy(s, s', t, p) <==> Relocated(s, s', t, p, p)
  {
    hide At, Gone, Landed, Seen, ValidCol, Tidy;
    forall q, k | ValidCol(q, k)
      ensures AfterVisit(s, t, p, p, q, k) == if q in t && Seen(s, p, q) then Gone(s, t[q], q, k) else At(s, q, k)
    {
      SeenIsBelow(s, p, q);
      if p <= q {
        KidArith(p, p, "", q);
      }
    }
  }

  lemma KidHolds(s: Columns, s1: Columns, t: Tree, p: Path, j: nat)
    requires Holds(s, t, p, PathStr(p)) && t[p].Dir? && KidsLanded(s, s1, t, p, p, t[p].kids, j) && j < |t[p].kids|
    ensures Distinct(t[p].kids) && Holds(s1, t, p + [t[p].kids[j]], PathStr(p + [t[p].kids[j]])) && Tidy(s1)
  {
    var c := p + [t[p].kids[j]];
    KidIsValid(t, p, j);
    assert Distinct(t[p].kids) && Tidy(s1) && WellFormed(t) && Below(s, t, p) && Exact(t, p, p);
    hide PathStr, KidsLanded, WellFormed, Below, Distinct, Exact, ValidPath;
    KidBelow(s, s1, t, p, p, t[p].kids, j);
  }

  /** Item i of the list is empty, or it is the next child. */
  lemma NextItem(items: seq<string>, i: nat, p: Path, ks: seq<string>)
    requires NonEmpty(items) == KidPaths(p, ks) && i < |items|
    ensures
      var j := |NonEmpty(items[..i])|;
      && j <= |ks| && (items[i] == "" ==> |NonEmpty(items[..i + 1])| == j)
      && (items[i] != "" ==> j < |ks| && items[i] == PathStr(p + [ks[j]]) && |NonEmpty(items[..i + 1])| == j + 1)
  {
    hide PathStr, NonEmpty;
    var j := |NonEmpty(items[..i])|;
    NonEmptyConcat(items[..i], items[i..]);
    NonEmptyConcat(items[..i], [items[i]]);
    assert items == items[..i] + items[i..] && items[..i + 1] == items[..i] + [items[i]];
    NonEmptyHead(items[i..]);
    NonEmptyHead([items[i]]);
    if items[i] != "" {
      assert NonEmpty(items)[j] == items[i];
    }
  }

  lemma NonEmptyHead(items: seq<string>)
    requires items != []
    ensures items[0] != "" ==> NonEmpty(items) != [] && NonEmpty(items)[0] == items[0]
    ensures |items| == 1 ==> |NonEmpty(items)| == if items[0] == "" then 0 else 1
  {
  }

  lemma FileGoneIsVisited(s: Columns, s': Columns, t: Tree, p: Path)
    requires WellFormed(t) && p in t && !t[p].Dir? && FileGone(s, s', t[p], p)
    ensures VisitedBy(s, s', t, p)
  {
    hide At, ErrText, Tidy, Gone, ValidPath, Seen;
    forall q, k | ValidCol(q, k) ensures At(s', q, k) == if q in t && Seen(s, p, q) then Gone(s, t[q], q, k) else At(s, q, k) {
      SeenIsBelow(s, p, q);
      SeenSelf(s, p);
      if q in t && p <= q && q != p {
        BelowAKid(t, p, q);
      }
    }
  }

  /** What the code reads at a path of the tree. */
  lemma Markers(s: Columns, t: Tree, p: Path)
    requires Holds(s, t, p, PathStr(p))
    ensures ValidPath(p) && PathStr(p) == Col(p, Marker) && PathStr(p) + "-metadata" == Col(p, List)
    ensures Fetch(s, PathStr(p)) == FOLDER <==> t[p].Dir?
    ensures !t[p].Dir? ==> HasFile(s, t[p], p)
    ensures t[p].Dir? ==> ListOf(At(s, p, List), p, t[p].kids)
  {
    hide *;
    HoldsFacts(s, t, p);
    ListStrings(p);
    EntryRead(s, t, p);
    EntryKept(s, t, p, p, List);
    MarkersDiffer();
    if t[p].Dir? {
      ShowsKids(At(s, p, List), t[p], p);
    }
  }

  lemma HoldsFacts(s: Columns, t: Tree, p: Path)
    requires Holds(s, t, p, PathStr(p))
    ensures WellFormed(t) && p in t && p != [] && ValidPath(p) && NamesOk(p) && ValidCol(p, List) && Below(s, t, p)
  {
    hide PathStr, Below, Tidy;
  }

  lemma MarkersDiffer()
    ensures FOLDER != FILE
  {
    assert FOLDER[3] == 'F' && FOLDER[4] == 'o' && FILE[4] == 'i';
  }

  lemma ShowsKids(v: Option<string>, e: Entry, q: Path)
    requires Shows(v, e, q, List) && e.Dir?
    ensures ListOf(v, q, e.kids)
  {
    hide ListOf;
  }

  /** The folder's own columns: the tombstone is written and the list is gone. */
  lemma FolderVisited(s: Columns, s1: Columns, s2: Columns, t: Tree, p: Path, ks: seq<string>)
    requires Holds(s, t, p, PathStr(p)) && t[p].Dir?
    requires Differs(s, s1, p, Marker, Some(TOMBSTONE)) && Differs(s1, s2, p, List, None)
    ensures KidsLanded(s, s2, t, p, p, ks, 0)
  {
    assert Tidy(s2);
    hide Holds, At, Tidy, ValidCol, AfterKids, Differs;
    forall q, k | ValidCol(q, k) ensures At(s2, q, k) == AfterKids(s, t, p, p, ks, 0, q, k) {
      FolderColumnVisited(s, s1, s2, t, p, ks, q, k);
    }
  }

  lemma FolderColumnVisited(s: Columns, s1: Columns, s2: Columns, t: Tree, p: Path, ks: seq<string>, q: Path, k: Kind)
    requires Holds(s, t, p, PathStr(p)) && t[p].Dir? && ValidCol(q, k)
    requires Differs(s, s1, p, Marker, Some(TOMBSTONE)) && Differs(s1, s2, p, List, None)
    ensures At(s2, q, k) == AfterKids(s, t, p, p, ks, 0, q, k)
  {
    assert p in t && p != [] && Below(s, t, p);
    hide Holds, At, Tidy, ValidCol, Seen, PathStr, Below, ErrText;
    assert ks[..0] == [];
    if q == p {
      FolderColumns(s, t, p, k);
    }
    if p <= q {
      KidArith(p, p, "", q);
    }
  }

  /** The loop over the child list, empty items included. */
  lemma ItemVisited(s: Columns, s1: Columns, s2: Columns, t: Tree, p: Path, items: seq<string>, i: nat)
    requires Holds(s, t, p, PathStr(p)) && t[p].Dir? && NonEmpty(items) == KidPaths(p, t[p].kids) && i < |items|
    requires KidsLanded(s, s1, t, p, p, t[p].kids, |NonEmpty(items[..i])|)
    requires items[i] == "" ==> s2 == s1
    requires items[i] != "" ==>
               var c := ItemPath(t, p, items, i);
               Holds(s1, t, c, items[i]) ==> VisitedBy(s1, s2, t, c)
    ensures KidsLanded(s, s2, t, p, p, t[p].kids, |NonEmpty(items[..i + 1])|)
  {
    hide *;
    ItemIsKid(s, t, p, items, i);
    if items[i] != "" {
      KidVisited(s, s1, s2, t, p, |NonEmpty(items[..i])|);
    }
  }

  lemma ItemIsKid(s: Columns, t: Tree, p: Path, items: seq<string>, i: nat)
    requires Holds(s, t, p, PathStr(p)) && t[p].Dir? && NonEmpty(items) == KidPaths(p, t[p].kids) && i < |items|
    ensures
      var j := |NonEmpty(items[..i])|;
      && (items[i] == "" ==> |NonEmpty(items[..i + 1])| == j)
      && (items[i] != "" ==> j < |t[p].kids| && ItemPath(t, p, items, i) == p + [t[p].kids[j]]
                             && items[i] == PathStr(p + [t[p].kids[j]]) && |NonEmpty(items[..i + 1])| == j + 1)
  {
    HoldsFacts(s, t, p);
    hide PathStr, NonEmpty, WellFormed, Holds, ValidPath, NamesOk, Below, ValidCol, KidPaths;
    NextItem(items, i, p, t[p].kids);
  }

  lemma KidVisited(s: Columns, s1: Columns, s2: Columns, t: Tree, p: Path, j: nat)
    requires Holds(s, t, p, PathStr(p)) && t[p].Dir? && j < |t[p].kids| && KidsLanded(s, s1, t, p, p, t[p].kids, j)
    requires
      var c := p + [t[p].kids[j]];
      Holds(s1, t, c, PathStr(c)) ==> VisitedBy(s1, s2, t, c)
    ensures KidsLanded(s, s2, t, p, p, t[p].kids, j + 1)
  {
    assert Exact(t, p, p);
    hide PathStr, KidsLanded, VisitedBy, WellFormed, Below, Tidy, Distinct, Relocated, Exact;
    KidHolds(s, s1, t, p, j);
    VisitedIsRelocated(s1, s2, t, p + [t[p].kids[j]]);
    NextKidLanded(s, s1, s2, t, p, p, t[p].kids, j);
  }

  /** The path that item i of the list of folder p stands for. */
  ghost function ItemPath(t: Tree, p: Path, items: seq<string>, i: nat): Path
    requires i < |items|
  {
    var j := |NonEmpty(items[..i])|;
    if p in t && t[p].Dir? && j < |t[p].kids| then p + [t[p].kids[j]] else []
  }

  /** What the code makes of the list, once the folder itself is marked. */
  lemma ListSeen(s: Columns, s1: Columns, t: Tree, p: Path, v: string)
    requires Holds(s, t, p, PathStr(p)) && t[p].Dir? && Differs(s, s1, p, Marker, Some(TOMBSTONE))
    requires v == Fetch(s1, PathStr(p) + "-metadata")
    ensures StartsWith(v, "ERR") || v == "" ==> Live(s, t, p) == []
    ensures !StartsWith(v, "ERR") ==> Live(s, t, p) == t[p].kids && NonEmpty(Split(v, ',')) == KidPaths(p, t[p].kids)
  {
    Markers(s, t, p);
    assert At(s1, p, List) == At(s, p, List);
    hide Tidy, Seen, PathStr, WellFormed, Below, HasFile, Split;
    assert v == "" ==> NonEmpty(Split("", ',')) == [] by { assert Split("", ',') == [""]; assert NonEmpty([""]) == []; }
  }

  /**
   Deleting a folder or a file. There is no precondition: the recursion ends on every store, because
   a folder loses its marker before its children are followed.
   */
  method DeleteRec(kv: Row, absPath: string, ghost t: Tree, ghost p: Path)
    modifies kv
    ensures Folders(kv.cols) <= Folders(old(kv.cols))
    ensures Tidy(old(kv.cols)) && absPath == "" ==> kv.cols == old(kv.cols)
    ensures Holds(old(kv.cols), t, p, absPath) ==> VisitedBy(old(kv.cols), kv.cols, t, p)
    decreases Folders(kv.cols), 1
  {
    ghost var s := kv.cols;
    ghost var ok := Holds(s, t, p, absPath);
    NoStrayColumns(s);
    if ok {
      Markers(s, t, p);
    }
    hide Holds, PathStr, Tidy, ValidPath, WellFormed, HasFile, VisitedBy, Below, FileGone, Gone, ListOf, At, KidsLanded, Differs, Split;
    var marker := kv.Get(absPath);
    if marker != FOLDER {
      DeleteFile(kv, absPath, if ok then t[p] else Single(""), p);
      if ok {
        FileGoneIsVisited(s, kv.cols, t, p);
      }
      return;
    }
    DeleteFolder(kv, absPath, ok, t, p);
  }

  method DeleteFolder(kv: Row, absPath: string, ghost ok: bool, ghost t: Tree, ghost p: Path)
    requires Fetch(kv.cols, absPath) == FOLDER
    requires ok ==> Holds(kv.cols, t, p, absPath) && t[p].Dir?
    modifies kv
    ensures Folders(kv.cols) <= Folders(old(kv.cols))
    ensures ok ==> VisitedBy(old(kv.cols), kv.cols, t, p)
    decreases Folders(kv.cols), 0
  {
    ghost var s := kv.cols;
    ghost var ks: seq<string> := [];
    if ok {
      Markers(s, t, p);
      ks := Live(s, t, p);
    }
    hide Holds, PathStr, Tidy, ValidPath, ValidCol, HasFile, VisitedBy, Below, ListOf, At, KidsLanded, Differs, Live, Folders, Gone, Left, Col;
    kv.Put(absPath, TOMBSTONE, p, Marker);
    ghost var s1 := kv.cols;
    MarkedIsSmaller(s, absPath);
    var children := kv.Get(absPath + "-metadata");
    kv.Delete(absPath + "-metadata", p, List);
    ErasedIsNoLarger(s1, absPath + "-metadata");
    if ok {
      ListSeen(s, s1, t, p, children);
      FolderVisited(s, s1, kv.cols, t, p, ks);
    }
    if children != "" && !StartsWith(children, "ERR") {
      DeleteItems(kv, children, ok, s, s1, t, p);
    }
    if ok {
      AllKidsLanded(s, kv.cols, t, p, p);
      VisitedIsRelocated(s, kv.cols, t, p);
    }
  }

  lemma ErasedIsNoLarger(s: Columns, c: string)
    ensures Folders(s - {c}) <= Folders(s)
  {
  }

  method DeleteItems(kv: Row, children: string, ghost ok: bool, ghost s: Columns, ghost s1: Columns, ghost t: Tree, ghost p: Path)
    requires Folders(kv.cols) <= Folders(s1) < Folders(s)
    requires ok ==> Holds(s, t, p, PathStr(p)) && p in t && t[p].Dir? && NonEmpty(Split(children, ',')) == KidPaths(p, t[p].kids)
    requires ok ==> KidsLanded(s, kv.cols, t, p, p, t[p].kids, 0)
    modifies kv
    ensures Folders(kv.cols) <= Folders(s1)
    ensures ok ==> KidsLanded(s, kv.cols, t, p, p, t[p].kids, |t[p].kids|)
    decreases Folders(s1), 2
  {
    hide Holds, PathStr, Tidy, VisitedBy, KidsLanded, Split, Folders, ItemPath;
    var items := SplitString(children, ',');
    assert items[..0] == [] && NonEmpty([]) == [];
    hide NonEmpty;
    for i := 0 to |items|
      invariant Folders(kv.cols) <= Folders(s1)
      invariant ok ==> KidsLanded(s, kv.cols, t, p, p, t[p].kids, |NonEmpty(items[..i])|)
    {
      ghost var s2 := kv.cols;
      if ok {
        LandedTidy(s, s2, t, p, |NonEmpty(items[..i])|);
      }
      DeleteRec(kv, items[i], t, ItemPath(t, p, items, i));
      if ok {
        ItemVisited(s, s2, kv.cols, t, p, items, i);
      }
    }
    assert items[..|items|] == items;
  }

  lemma LandedTidy(s: Columns, s': Columns, t: Tree, p: Path, j: nat)
    requires p in t && t[p].Dir? && KidsLanded(s, s', t, p, p, t[p].kids, j)
    ensures Tidy(s')
  {
  }

  lemma MarkedIsSmaller(s: Columns, c: string)
    requires Fetch(s, c) == FOLDER
    ensures Folders(s[c := TOMBSTONE]) < Folders(s)
  {
    assert FOLDER[0] == 'K' && TOMBSTONE[0] == 'D' && Fetch(map[], c)[0] == 'E';
    assert c in s && c in Folders(s) && c !in Folders(s[c := TOMBSTONE]);
  }
}
