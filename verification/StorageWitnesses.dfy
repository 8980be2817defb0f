/**
 Requests that a user can make, one after the other from an empty row, after which the storage service
 no longer holds what it should. Each one meets the failing side of a condition proved elsewhere.
 */
module StorageWitnesses {
  import opened Options
  import opened Text
  import opened FileTree
  import opened KvRow
  import opened Visits
  import opened FolderMove
  import opened StrayMoves
  import opened MoveHandler
  import opened FolderDelete
  import U = Upload
  import opened UploadNames
  import opened UploadTree
  import opened Folders

  const ROOT: Tree := map[[] := Dir([])]

  /** A user who lists the root for the first time. */
  method FirstVisit() returns (kv: Row)
    ensures fresh(kv) && Stores(kv.cols, ROOT) && At(kv.cols, [], List) == Some("")
  {
    NoColumnsIsEmptyTree();
    kv := new Row(map[]);
    assert At(map[], [], List) == None && PathStr([]) == "" && ValidCol([], List);
    assert StartsWith(ListText(map[], []), "ERR");
    hide Stores, At, ErrText, ListText;
    assert !ErrText(None) by { NoText(); }
    RepairList(kv, "", ROOT, []);
  }

  lemma NoText()
    ensures !ErrText(None)
  {
  }

  /** A folder created where nothing is, in a folder that has a list. */
  method NewFolder(kv: Row, parent: string, name: string, ghost t: Tree, ghost d: Path)
    requires Stores(kv.cols, t) && d in t && t[d].Dir? && parent == PathStr(d) && At(kv.cols, d, List).Some?
    requires NamesOk(d + [name]) && d + [name] != CLASH && d + [name] !in t
    modifies kv
    ensures Stores(kv.cols, WithFolder(t, d, name)) && FolderCreated(old(kv.cols), kv.cols, d, name)
  {
    assert Col(d, List) in kv.cols;
    hide *;
    var created := WebCreateFolder(kv, parent, name, t, d);
  }

  /** What the lists say after a folder was created. */
  lemma ListsAfter(s: Columns, s': Columns, d: Path, name: string, q: Path)
    requires FolderCreated(s, s', d, name) && ValidCol(q, List) && d + [name] != d
    ensures At(s', q, List) == if q == d + [name] then Some("") else if q == d then Some(ListWith(ListText(s, d), PathStr(d + [name]))) else At(s, q, List)
    ensures q == d && At(s, d, List) == Some("") ==> At(s', q, List) == Some(PathStr(d + [name]))
  {
    assert At(s', q, List) == if q == d + [name] then Some("") else if q == d then Some(ListWith(ListText(s, d), PathStr(d + [name]))) else At(s, q, List);
    hide FolderCreated, ValidCol, PathStr;
  }

  const E: Path := ["ERRATA"]
  const B: Path := ["b"]

  lemma PlainPaths()
    ensures NamesOk(E) && NamesOk(B) && NamesOk(E + ["a"]) && NamesOk(B + ["a"]) && [] + ["ERRATA"] == E && [] + ["b"] == B
    ensures PathStr(E) == "ERRATA" && PathStr(B) == "b" && PathStr([]) == "" && PathStr(E + ["a"]) == "ERRATA/a" && PathStr(B + ["a"]) == "b/a"
    ensures ValidCol(E, List) && ValidCol(B, List) && ValidCol([], List)
  {
    PathStrChild(E, "a");
    PathStrChild(B, "a");
    assert "ERRATA" + "/" + "a" == "ERRATA/a" && "b" + "/" + "a" == "b/a";
    assert (E + ["a"])[0] == "ERRATA" && (E + ["a"])[1] == "a" && (B + ["a"])[0] == "b" && (B + ["a"])[1] == "a";
    assert ValidName("ERRATA") && ValidName("a") && ValidName("b");
  }

  ghost function ErrataTree(): Tree {
    var t1 := WithFolder(ROOT, [], "ERRATA");
    var t2 := WithFolder(t1, [], "b");
    assert [] + ["ERRATA"] == E && [] + ["b"] == B && E[0] != B[0];
    WithFolder(t2, E, "a")
  }

  /** Folders ERRATA, b and ERRATA/a: the list of ERRATA is the text ERRATA/a, which starts with ERR. */
  method MakeErrata() returns (kv: Row)
    ensures fresh(kv) && Stores(kv.cols, ErrataTree()) && At(kv.cols, E, List) == Some("ERRATA/a") && At(kv.cols, B, List) == Some("")
  {
    PlainPaths();
    ghost var t1 := WithFolder(ROOT, [], "ERRATA");
    ghost var t2 := WithFolder(t1, [], "b");
    assert E != B && [] != E && [] != B && E + ["a"] != E && E != CLASH && B != CLASH;
    assert [] in t1 && t1[[]].Dir? && B !in t1 && E in t2 && t2[E].Dir? && E + ["a"] !in t2;
    hide *;
    kv := FirstVisit();
    ghost var s0 := kv.cols;
    NewFolder(kv, "", "ERRATA", ROOT, []);
    ghost var s1 := kv.cols;
    ListsAfter(s0, s1, [], "ERRATA", []);
    ListsAfter(s0, s1, [], "ERRATA", E);
    NewFolder(kv, "", "b", t1, []);
    ghost var s2 := kv.cols;
    ListsAfter(s1, s2, [], "b", E);
    ListsAfter(s1, s2, [], "b", B);
    NewFolder(kv, "ERRATA", "a", t2, E);
    ListsAfter(s2, kv.cols, E, "a", E);
    ListsAfter(s2, kv.cols, E, "a", B);
  }

  lemma ErrataFacts()
    ensures
      var t := ErrataTree();
      && E in t && t[E] == Dir(["a"]) && B in t && t[B] == Dir([]) && E + ["a"] in t && t[E + ["a"]] == Dir([])
      && Name(E) == "ERRATA" && Name(E + ["a"]) == "a" && B + ["a"] !in t
  {
    var t1 := WithFolder(ROOT, [], "ERRATA");
    var t2 := WithFolder(t1, [], "b");
    assert [] + ["ERRATA"] == E && [] + ["b"] == B && E != B && [] != E && [] != B && |E + ["a"]| == 2 && |B + ["a"]| == 2;
    assert (E + ["a"])[0] != (B + ["a"])[0];
    assert t1[E] == Dir([]) && t2[E] == Dir([]) && t2[B] == Dir([]);
    assert [] + ["a"] == ["a"];
  }

  lemma ErrataReadsLikeAnError(s: Columns)
    requires At(s, E, List) == Some("ERRATA/a")
    ensures ErrText(At(s, E, List)) && !NoErrLists(s, ErrataTree(), E)
  {
    ErrataFacts();
    assert "ERR" <= "ERRATA/a";
    assert E <= E;
    hide At, ErrataTree;
  }

  /** Moving ERRATA into b passes every guard and does not give the moved tree. */
  method MoveErrata() returns (kv: Row, answer: Answer)
    ensures CanMove(ErrataTree(), E, B) && answer == Done && !Stores(kv.cols, MoveTree(ErrataTree(), E, B))
  {
    PlainPaths();
    ErrataFacts();
    assert IsFolder(ErrataTree(), B) && ValidPath(E);
    hide *;
    kv := MakeErrata();
    ErrataCanMove(kv.cols);
    NotGuarded(kv.cols, ErrataTree(), E, B);
    ErrataReadsLikeAnError(kv.cols);
    answer := WebMoveFolder(kv, "ERRATA", "b", ErrataTree(), E, B);
  }

  lemma ErrataCanMove(s: Columns)
    requires Stores(s, ErrataTree())
    ensures CanMove(ErrataTree(), E, B)
  {
    ErrataFacts();
    hide ErrataTree, Stores, WellFormed;
    StoresWellFormed(s, ErrataTree());
    var p' := B + [Name(E)];
    assert |p'| == 2 && p'[0] == "b" && p'[1] == "ERRATA";
    assert ValidName("b") && ValidName("ERRATA");
  }

  lemma NotGuarded(s: Columns, t: Tree, p: Path, d: Path)
    requires CanMove(t, p, d)
    ensures !Guarded(s, t, p, d) && p != []
  {
  }

  /** Deleting ERRATA does not delete what is in it. */
  method DeleteErrata() returns (kv: Row, ghost s: Columns)
    ensures Stores(s, ErrataTree()) && !Deleted(s, kv.cols, ErrataTree(), E)
  {
    PlainPaths();
    ErrataFacts();
    kv := MakeErrata();
    s := kv.cols;
    StoresBelow(s, ErrataTree(), E);
    ErrataReadsLikeAnError(s);
    assert Holds(s, ErrataTree(), E, "ERRATA") by { hide Stores, WellFormed, Below, ErrataTree, PathStr, Tidy; }
    hide *;
    DeleteRec(kv, "ERRATA", ErrataTree(), E);
    DeletesExactly(s, kv.cols, ErrataTree(), E);
  }

  /** With a second folder a in b, moving b/a into ERRATA passes the name guard, and replaces ERRATA's list. */
  method MoveOntoTaken() returns (kv: Row, answer: Answer, ghost t: Tree)
    ensures E in t && t[E].Dir? && "a" in t[E].kids && answer == Done && SiblingsLost(kv.cols, E, "a")
  {
    PlainPaths();
    ErrataFacts();
    ghost var t0 := ErrataTree();
    t := WithFolder(t0, B, "a");
    kv := MakeErrata();
    ghost var s := kv.cols;
    assert B + ["a"] in t && t[B + ["a"]] == Dir([]) && E in t && t[E] == t0[E] && Name(B + ["a"]) == "a" by {
      assert |B + ["a"]| == 2 && B != E && |E| == 1;
    }
    assert !(B + ["a"] <= E) && B + ["a"] != [] && E + ["a"] != CLASH && E + ["a"] != B + ["a"] && !(E + ["a"] <= B + ["a"]) by {
      assert (E + ["a"])[0] != (B + ["a"])[0] && |E + ["a"]| == 2 == |B + ["a"]|;
    }
    assert B + ["a"] != CLASH by { assert |B + ["a"]| == 2; }
    hide *;
    NewFolder(kv, "b", "a", t0, B);
    ListsAfter(s, kv.cols, B, "a", E);
    ErrataText(kv.cols);
    ghost var s1 := kv.cols;
    LetThrough(s1, t, B + ["a"], E);
    answer := WebMoveFolder(kv, "b/a", "ERRATA", t, B + ["a"], E);
    TakenAnswer(s1, kv.cols, t, B + ["a"], E, answer);
  }

  lemma LetThrough(s: Columns, t: Tree, p: Path, d: Path)
    requires p != [] && d in t && t[d].Dir? && !(p <= d) && ErrText(At(s, d, List)) && Name(p) in t[d].kids
    ensures !Guarded(s, t, p, d) && !CanMove(t, p, d)
  {
    hide ErrText, At;
  }

  lemma TakenAnswer(s: Columns, s': Columns, t: Tree, p: Path, d: Path, answer: Answer)
    requires Stray(s, s', t, p, d, answer) && p != [] && answer != Refused
    requires d + [Name(p)] != CLASH && d + [Name(p)] != p && !(d + [Name(p)] <= p)
    ensures answer == Done && SiblingsLost(s', d, Name(p))
  {
    hide SiblingsLost, KnownOutcome;
  }

  lemma ErrataText(s: Columns)
    requires At(s, E, List) == Some("ERRATA/a")
    ensures ErrText(At(s, E, List))
  {
    assert "ERR" <= "ERRATA/a";
  }

  // ----- A folder that a move has emptied -----

  const F: Path := ["f"]
  const H: Path := ["h"]

  lemma MorePaths()
    ensures NamesOk(F) && NamesOk(H) && NamesOk(F + ["g"]) && NamesOk(H + ["g"]) && NamesOk(F + ["x"]) && [] + ["f"] == F && [] + ["h"] == H
    ensures PathStr(F) == "f" && PathStr(H) == "h" && PathStr([]) == "" && PathStr(F + ["g"]) == "f/g"
    ensures ValidCol(F, List) && ValidCol(H, List) && ValidCol([], List)
    ensures F != H && F != CLASH && H != CLASH && F + ["g"] != F && F + ["g"] != CLASH && F + ["x"] != CLASH && Parent(F + ["g"]) == F && Name(F + ["g"]) == "g"
  {
    PathStrChild(F, "g");
    assert "f" + "/" + "g" == "f/g";
    assert |F + ["g"]| == 2 && |F + ["x"]| == 2 && |H + ["g"]| == 2 && F[0] != H[0];
    assert (F + ["g"])[0] == "f" && (F + ["g"])[1] == "g" && (F + ["x"])[0] == "f" && (F + ["x"])[1] == "x" && (H + ["g"])[0] == "h" && (H + ["g"])[1] == "g";
    assert ValidName("f") && ValidName("g") && ValidName("h") && ValidName("x");
    assert F[0] != CLASH[0] && H[0] != CLASH[0];
  }

  ghost function FullTree(): Tree {
    var t1 := WithFolder(ROOT, [], "f");
    var t2 := WithFolder(t1, [], "h");
    assert [] + ["f"] == F && [] + ["h"] == H && F[0] != H[0];
    WithFolder(t2, F, "g")
  }

  lemma FullFacts()
    ensures
      var t := FullTree();
      && F in t && t[F] == Dir(["g"]) && H in t && t[H] == Dir([]) && F + ["g"] in t && t[F + ["g"]] == Dir([]) && F + ["x"] !in t
  {
    var t1 := WithFolder(ROOT, [], "f");
    var t2 := WithFolder(t1, [], "h");
    assert [] + ["f"] == F && [] + ["h"] == H && F[0] != H[0] && |F + ["g"]| == 2 && |F + ["x"]| == 2;
    assert (F + ["g"])[1] != (F + ["x"])[1];
    assert t1[F] == Dir([]) && t2[F] == Dir([]) && t2[H] == Dir([]);
    assert [] + ["g"] == ["g"];
  }

  /** Folders f, h and f/g. */
  method MakeFull() returns (kv: Row)
    ensures fresh(kv) && Stores(kv.cols, FullTree()) && At(kv.cols, F, List) == Some("f/g")
  {
    MorePaths();
    ghost var t1 := WithFolder(ROOT, [], "f");
    ghost var t2 := WithFolder(t1, [], "h");
    assert [] in t1 && t1[[]].Dir? && H !in t1 && F in t2 && t2[F].Dir? && F + ["g"] !in t2 by { assert |F + ["g"]| == 2; }
    hide *;
    kv := FirstVisit();
    ghost var s0 := kv.cols;
    NewFolder(kv, "", "f", ROOT, []);
    ghost var s1 := kv.cols;
    ListsAfter(s0, s1, [], "f", []);
    ListsAfter(s0, s1, [], "f", F);
    NewFolder(kv, "", "h", t1, []);
    ghost var s2 := kv.cols;
    ListsAfter(s1, s2, [], "h", F);
    NewFolder(kv, "f", "g", t2, F);
    ListsAfter(s2, kv.cols, F, "g", F);
  }

  lemma FullCanMove(s: Columns)
    requires Stores(s, FullTree()) && At(s, F, List) == Some("f/g")
    ensures CanMove(FullTree(), F + ["g"], H) && NoErrLists(s, FullTree(), F + ["g"]) && !ErrText(At(s, H, List))
  {
    MorePaths();
    FullFacts();
    var t, p := FullTree(), F + ["g"];
    StoresBelow(s, t, p);
    StoresAt(s, t, H, List);
    hide FullTree, Stores, WellFormed, Below, PathStr, NamesOk, Tidy, ValidCol;
    assert p[0] == "f" && "f"[0] == 'f' && "ERR"[0] == 'E';
    assert NotErrNamed(p);
    assert Holds(s, t, p, PathStr(p));
    PlainNamesHaveNoErrLists(s, t, p);
    if ErrText(At(s, H, List)) {
      ErrListHasAKid(s, t, H);
    }
    assert !(p <= H) by { assert |p| == 2 && |H| == 1; }
    assert H + [Name(p)] == H + ["g"];
    assert ValidPath(H + ["g"]) by { assert |H + ["g"]| == 2; }
  }

  /** Moving f/g into h works, and takes the list column of f with it; a folder then created in f is lost. */
  method EmptyThenCreate() returns (kv: Row, created: bool, ghost s: Columns, ghost t: Tree)
    ensures Stores(s, t) && F in t && t[F].Dir? && Col(F, List) !in s
    ensures F + ["x"] !in t && created && !Stores(kv.cols, WithFolder(t, F, "x"))
  {
    MorePaths();
    FullFacts();
    ghost var p := F + ["g"];
    assert IsFolder(FullTree(), H);
    hide *;
    kv := MakeFull();
    ghost var s0 := kv.cols;
    FullCanMove(s0);
    CanMoveFacts(FullTree(), p, H);
    var threw := MoveFolder(kv, "f/g", "h", FullTree(), p, H);
    s, t := kv.cols, MoveTree(FullTree(), p, H);
    ListGone(s0, s);
    EmptiedFacts();
    created := WebCreateFolder(kv, "f", "x", t, F);
  }

  lemma ListGone(s0: Columns, s: Columns)
    requires At(s0, F, List) == Some("f/g") && ColumnsMoved(s0, s, FullTree(), F + ["g"], H)
    ensures Col(F, List) !in s
  {
    MorePaths();
    TextThere(s0, F);
    assert At(s, F, List) == SourceList("f/g", "f/g") by { hide Tidy, PathStr, AfterMove, SourceList, ListText, Appended, ValidCol, NamesOk; }
    hide ColumnsMoved, MoveDone, SourceList, NamesOk;
    NothingKept(F + ["g"]);
  }

  lemma EmptiedFacts()
    requires CanMove(FullTree(), F + ["g"], H)
    ensures
      var t := MoveTree(FullTree(), F + ["g"], H);
      F in t && t[F].Dir? && F + ["x"] !in t
  {
    MorePaths();
    FullFacts();
    hide FullTree, NamesOk, PathStr, MoveTree, WellFormed;
    MoveTreeAt(FullTree(), F + ["g"], H, F);
    MoveTreeAt(FullTree(), F + ["g"], H, F + ["x"]);
    assert !(F + ["g"] <= F) by { assert |F + ["g"]| > |F|; }
    assert !(H + ["g"] <= F + ["x"]) by { assert (H + ["g"])[0] != (F + ["x"])[0]; }
  }

  // ----- A path that says "not found" -----

  /** A file of one byte more than a chunk under such a name does not come back. */
  method UploadNotFound() returns (kv: Row, data: string, content: string)
    ensures |data| == U.CHUNK_SIZE + 1 && content != data
  {
    assert PathStr([]) == "" && [] + ["not found.txt"] == ["not found.txt"] && PathStr(["not found.txt"]) == "not found.txt";
    assert ValidName("not found.txt") && NamesOk(["not found.txt"]);
    assert ["not found.txt"] !in ROOT && [] in ROOT;
    assert Contains("not found.txt", U.NOT_FOUND) by { assert U.NOT_FOUND <= "not found.txt"; }
    hide *;
    kv := FirstVisit();
    data := seq(U.CHUNK_SIZE + 1, i => 'x');
    ghost var s := kv.cols;
    var _, _ := WebUpload(kv, "", "not found.txt", data, ROOT, []);
    content := U.Download(kv, "not found.txt");
    TooLong(s, "not found.txt", data);
  }

  lemma TooLong(s: Columns, path: string, data: string)
    requires |data| > U.CHUNK_SIZE && Contains(path, U.NOT_FOUND)
    ensures !ComesBack(s, path, data)
  {
    hide Contains, U.Lead, U.Silent, U.Chunks;
  }

  // ----- A second upload into a folder whose name has a dot -----

  const AB: Path := ["a.b"]

  lemma DottedPaths()
    ensures PathStr([]) == "" && PathStr(AB) == "a.b" && [] + ["a.b"] == AB && NamesOk(AB) && NamesOk(AB + ["x"]) && AB != CLASH && AB + ["x"] != CLASH
    ensures ValidCol(AB, List) && ValidCol([], List) && DotAt(AB + ["x"]) == 0
    ensures PathStr(AB + ["x"]) == "a.b/x" && AB + ["x"] != AB
  {
    PathStrChild(AB, "x");
    assert "a.b" + "/" + "x" == "a.b/x" && ValidName("a.b") && ValidName("x");
    assert (AB + ["x"])[0] == "a.b" && (AB + ["x"])[1] == "x" && "a.b"[1] == DOT;
  }

  lemma DottedTarget(n: nat)
    requires n > 0
    ensures
      var q := Target(AB + ["x"], n);
      q[..|AB|] != AB
  {
    DottedPaths();
    assert ValidName("a.b") && (AB + ["x"])[0] == "a.b";
    hide Renamed, NamesOk, DotAt;
    RenamedValid("a.b", n);
    assert Target(AB + ["x"], n)[0] == Renamed("a.b", n);
  }

  /** The file is stored under a(1).b/x, outside the folder, and listed in the folder: no tree is left. */
  method UploadOutside() returns (kv: Row, threw: bool)
    ensures !threw && NoTree(kv.cols)
  {
    DottedPaths();
    ghost var t1 := WithFolder(ROOT, [], "a.b");
    ghost var t2 := WithFile(t1, AB, "x", U.Chunks("1"));
    assert [] in ROOT && ROOT[[]].Dir? && AB !in ROOT && AB in t1 && t1[AB] == Dir([]) && AB + ["x"] !in t1;
    assert AB in t2 && t2[AB].Dir? && IsFile(t2, AB + ["x"]);
    hide *;
    kv := FirstVisit();
    ghost var s0 := kv.cols;
    NewFolder(kv, "", "a.b", ROOT, []);
    ghost var s1 := kv.cols;
    ListsAfter(s0, s1, [], "a.b", AB);
    var n;
    threw, n := WebUpload(kv, "a.b", "x", "1", t1, AB);
    FirstUpload(s1, kv.cols, t1, n);
    ghost var s2 := kv.cols;
    threw, n := WebUpload(kv, "a.b", "x", "2", t2, AB);
    SecondUpload(s2, kv.cols, t2, n);
  }

  lemma FirstUpload(s: Columns, s': Columns, t: Tree, n: nat)
    requires Stores(s, t) && AB in t && t[AB] == Dir([]) && AB + ["x"] !in t && At(s, AB, List) == Some("")
    requires ChosenIn(t, AB + ["x"], n) && UploadDone(s, s', t, AB, Target(AB + ["x"], n), ShownName("x", n), "1")
    ensures Stores(s', WithFile(t, AB, "x", U.Chunks("1")))
  {
    DottedPaths();
    TargetSelf(AB + ["x"]);
    assert n == 0 && Col(AB, List) in s && |"1"| <= U.CHUNK_SIZE && (AB + ["x"])[|AB|] == "x" && (AB + ["x"])[..|AB|] == AB;
    hide Stores, Target, WithFile, U.Chunks, NoTree, ComesBack, U.Downloaded, Contains, PathStr, DotAt, NamesOk, Col, WellFormed;
    StoresWellFormed(s, t);
    NotInTheRoot(t, AB, ShownName("x", n));
  }

  lemma SecondUpload(s: Columns, s': Columns, t: Tree, n: nat)
    requires AB in t && t[AB].Dir? && IsFile(t, AB + ["x"]) && ChosenIn(t, AB + ["x"], n)
    requires UploadDone(s, s', t, AB, Target(AB + ["x"], n), ShownName("x", n), "2")
    ensures NoTree(s')
  {
    assert n > 0;
    DottedTarget(n);
    hide Stores, Target, WithFile, U.Chunks, NoTree, ComesBack, U.Downloaded, Contains, PathStr, DotAt, CanUpload;
  }
}
