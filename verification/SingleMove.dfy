/**
 Moving one file into a folder: finding a free name, moving the columns, updating the two lists.
 */
module SingleMove {
  import opened Options
  import opened Text
  import opened FileTree
  import opened KvRow
  import opened Visits
  import opened FileMoves
  import opened TreeMoves
  import opened FolderMove
  import opened StrayMoves

  // ----- A free name -----

  function LeafBase(fileName: string): string {
    var dot := LastIndexOf(fileName, '.');
    if dot < 0 then fileName else fileName[..dot]
  }

  function LeafExt(fileName: string): string {
    var dot := LastIndexOf(fileName, '.');
    if dot < 0 then "" else fileName[dot..]
  }

  /** The n-th name tried: the file's own, then the same with (1), (2), ... before the extension. */
  function Leaf(fileName: string, n: nat): string {
    if n == 0 then fileName else LeafBase(fileName) + "(" + Dec(n) + ")" + LeafExt(fileName)
  }

  function Under(folder: string, leaf: string): string {
    if folder == "" then leaf else folder + "/" + leaf
  }

  predicate Taken(cols: Columns, path: string) {
    Fetch(cols, path) == FILE || Fetch(cols, path) == FOLDER
  }

  lemma LeafInjective(fileName: string, m: nat, n: nat)
    requires 1 <= m && 1 <= n && Leaf(fileName, m) == Leaf(fileName, n)
    ensures m == n
  {
    hide Dec, LeafBase, LeafExt;
    var a, b, x, y := LeafBase(fileName), LeafExt(fileName), Dec(m), Dec(n);
    var s := a + "(" + x + ")" + b;
    assert |s| == |a| + 1 + |x| + 1 + |b| && |a + "(" + y + ")" + b| == |a| + 1 + |y| + 1 + |b|;
    assert s[|a| + 1..|a| + 1 + |x|] == x;
    assert (a + "(" + y + ")" + b)[|a| + 1..|a| + 1 + |y|] == y;
    DecInjective(m, n);
  }

  lemma UnderInjective(folder: string, a: string, b: string)
    requires Under(folder, a) == Under(folder, b)
    ensures a == b
  {
    if folder != "" {
      assert (folder + "/" + a)[|folder| + 1..] == a && (folder + "/" + b)[|folder| + 1..] == b;
    }
  }

  lemma TakenIsThere(cols: Columns, path: string)
    requires Taken(cols, path)
    ensures path in cols
  {
    assert FILE[0] == 'K' && FOLDER[0] == 'K' && "ERR"[0] == 'E';
    assert !StartsWith(FILE, "ERR") && !StartsWith(FOLDER, "ERR");
  }

  /** A store with n different names taken has at least n columns. */
  lemma {:induction false} TriedAreFew(cols: Columns, folder: string, fileName: string, n: nat)
    requires forall i :: 1 <= i <= n ==> Under(folder, Leaf(fileName, i)) in cols
    ensures n <= |cols|
  {
    if n > 0 {
      var c := Under(folder, Leaf(fileName, n));
      forall i | 1 <= i < n ensures Under(folder, Leaf(fileName, i)) in cols - {c} {
        if Under(folder, Leaf(fileName, i)) == c {
          UnderInjective(folder, Leaf(fileName, i), Leaf(fileName, n));
          LeafInjective(fileName, i, n);
        }
      }
      TriedAreFew(cols - {c}, folder, fileName, n - 1);
      assert (cols - {c}).Keys == cols.Keys - {c};
    }
  }

  /** Finitely many columns leave some name free; the first free one is taken. */
  method FreeName(kv: Row, folder: string, fileName: string) returns (newAbs: string, n: nat)
    ensures newAbs == Under(folder, Leaf(fileName, n)) && !Taken(kv.cols, newAbs)
    ensures forall i :: 0 <= i < n ==> Taken(kv.cols, Under(folder, Leaf(fileName, i)))
  {
    assert Leaf(fileName, 0) == fileName;
    hide Leaf, Under;
    newAbs := Under(folder, fileName);
    var existing := kv.Get(newAbs);
    var suffix := 1;
    while existing == FILE || existing == FOLDER
      invariant suffix >= 1 && newAbs == Under(folder, Leaf(fileName, suffix - 1)) && existing == Fetch(kv.cols, newAbs)
      invariant forall i :: 0 <= i < suffix - 1 ==> Taken(kv.cols, Under(folder, Leaf(fileName, i)))
      decreases |kv.cols| + 2 - suffix
    {
      forall i | 1 <= i <= suffix - 1 ensures Under(folder, Leaf(fileName, i)) in kv.cols {
        TakenIsThere(kv.cols, Under(folder, Leaf(fileName, i)));
      }
      TriedAreFew(kv.cols, folder, fileName, suffix - 1);
      newAbs := Under(folder, Leaf(fileName, suffix));
      existing := kv.Get(newAbs);
      suffix := suffix + 1;
    }
    n := suffix - 1;
  }

  lemma LeafValid(name: string, n: nat)
    requires ValidName(name)
    ensures ValidName(Leaf(name, n)) && (n > 0 ==> Leaf(name, n) != "metadata")
  {
    if n > 0 {
      var leaf := Leaf(name, n);
      assert leaf[|LeafBase(name)|] == '(';
      forall i | 0 <= i < |leaf| ensures leaf[i] != '-' && leaf[i] != ',' && leaf[i] != '/' {
        assert leaf[i] in LeafBase(name) || leaf[i] == '(' || leaf[i] in Dec(n) || leaf[i] == ')' || leaf[i] in LeafExt(name);
        assert forall x :: x in LeafBase(name) || x in LeafExt(name) ==> x in name;
      }
      assert '(' !in "metadata";
    }
  }

  /** The path that the name found stands for is valid and nothing is there. */
  lemma NewPlaceIsFree(s: Columns, t: Tree, p: Path, d: Path, n: nat)
    requires Stores(s, t) && p in t && p != [] && d in t && ValidPath(d + [Name(p)])
    requires !Taken(s, Under(PathStr(d), Leaf(Name(p), n)))
    ensures
      var p' := d + [Leaf(Name(p), n)];
      ValidPath(p') && PathStr(p') == Under(PathStr(d), Leaf(Name(p), n)) && p' !in t && p' != p
  {
    hide *;
    var leaf := Leaf(Name(p), n);
    var p' := d + [leaf];
    NewPathValid(d, Name(p), n);
    assert PathStr(p') == Under(PathStr(d), leaf) by { NewPathStr(s, t, d, leaf); }
    if p' in t {
      EntryIsTaken(s, t, p');
    }
  }

  lemma NewPathValid(d: Path, name: string, n: nat)
    requires ValidPath(d + [name])
    ensures ValidPath(d + [Leaf(name, n)])
  {
    var p' := d + [Leaf(name, n)];
    assert ValidName(name) by { assert (d + [name])[|d|] == name; }
    LeafValid(name, n);
    assert n == 0 ==> Leaf(name, n) == name;
    hide Leaf, ValidName;
    assert forall i :: 0 <= i < |d| ==> p'[i] == (d + [name])[i];
  }

  lemma NewPathStr(s: Columns, t: Tree, d: Path, leaf: string)
    requires Stores(s, t) && d in t
    ensures PathStr(d + [leaf]) == Under(PathStr(d), leaf)
  {
    assert PathStr([]) == "";
    hide PathStr, WellFormed, NamesOk;
    PathStrChild(d, leaf);
    if d != [] {
      EntryFacts(t, d);
      PathStrPlain(d);
    }
  }

  lemma EntryIsTaken(s: Columns, t: Tree, p: Path)
    requires Stores(s, t) && p in t && ValidPath(p)
    ensures Taken(s, PathStr(p))
  {
    hide PathStr, Stores, ListOf;
    assert Col(p, Marker) == PathStr(p);
    StoresAt(s, t, p, Marker);
  }

  // ----- The tree after the move -----

  ghost predicate CanMoveFile(t: Tree, p: Path, d: Path, leaf: string) {
    && WellFormed(t) && p in t && p != [] && !t[p].Dir? && d in t && t[d].Dir?
    && ValidPath(d + [leaf]) && d + [leaf] !in t
  }

  /** The children of folder q after the file has moved; source and target may be the same folder. */
  ghost function KidsAfter(kids: seq<string>, p: Path, d: Path, leaf: string, q: Path): seq<string>
    requires p != []
  {
    var added := if q == d then kids + [leaf] else kids;
    if q == Parent(p) then Without(added, Name(p)) else added
  }

  ghost function Rehung(e: Entry, p: Path, d: Path, leaf: string, q: Path): Entry
    requires p != []
  {
    if e.Dir? then Dir(KidsAfter(e.kids, p, d, leaf, q)) else e
  }

  /** The tree with the file at p under folder d, called leaf. */
  ghost function MoveFileTree(t: Tree, p: Path, d: Path, leaf: string): Tree
    requires p != [] && p in t
  {
    (map q | q in t && q != p :: Rehung(t[q], p, d, leaf, q))[d + [leaf] := t[p]]
  }

  lemma MovedFileListed(t: Tree, p: Path, d: Path, leaf: string, q: Path)
    requires CanMoveFile(t, p, d, leaf) && q in MoveFileTree(t, p, d, leaf) && q != []
    ensures ValidPath(q) && Listed(MoveFileTree(t, p, d, leaf), q)
  {
    hide WellFormed, NamesOk;
    EntryFacts(t, p);
    if q == d + [leaf] {
      assert Parent(q) == d && Name(q) == leaf;
      assert p == Parent(p) + [Name(p)];
    } else {
      EntryFacts(t, q);
      assert q == Parent(q) + [Name(q)] && p == Parent(p) + [Name(p)];
      assert Parent(q) != d + [leaf];
    }
  }

  lemma MovedFileKids(t: Tree, p: Path, d: Path, leaf: string, q: Path, n: string)
    requires CanMoveFile(t, p, d, leaf) && q in t && q != p && t[q].Dir? && n in KidsAfter(t[q].kids, p, d, leaf, q)
    ensures q + [n] in MoveFileTree(t, p, d, leaf)
  {
    hide WellFormed, NamesOk;
    EntryFacts(t, q);
    assert Parent(q + [n]) == q && Name(q + [n]) == n;
  }

  lemma MovedFileDistinct(t: Tree, p: Path, d: Path, leaf: string, q: Path)
    requires CanMoveFile(t, p, d, leaf) && q in t && t[q].Dir?
    ensures Distinct(KidsAfter(t[q].kids, p, d, leaf, q))
  {
    hide WellFormed, NamesOk, Without;
    EntryFacts(t, q);
    var added := if q == d then t[q].kids + [leaf] else t[q].kids;
    assert q == d ==> leaf !in t[q].kids;
    assert Distinct(added);
    WithoutDistinct(added, Name(p));
  }

  lemma MovedFileWellFormed(t: Tree, p: Path, d: Path, leaf: string)
    requires CanMoveFile(t, p, d, leaf)
    ensures WellFormed(MoveFileTree(t, p, d, leaf))
  {
    var u := MoveFileTree(t, p, d, leaf);
    assert [] in u && u[[]].Dir?;
    assert t[p].Chunked? ==> t[p].chunks != [] by { EntryFacts(t, p); }
    hide WellFormed, NamesOk, Listed, KidsAfter, Distinct;
    forall q | q in u && q != [] ensures ValidPath(q) && Listed(u, q) { MovedFileListed(t, p, d, leaf, q); }
    forall q, n | q in u && u[q].Dir? && n in u[q].kids ensures q + [n] in u { MovedFileKids(t, p, d, leaf, q, n); }
    forall q | q in u ensures u[q].Dir? ==> Distinct(u[q].kids)
                      ensures u[q].Chunked? ==> u[q].chunks != []
    {
      if q != d + [leaf] {
        EntryFacts(t, q);
        if t[q].Dir? {
          MovedFileDistinct(t, p, d, leaf, q);
        }
      }
    }
    WellFormedFrom(u);
  }

  // ----- The two lists -----

  /** The target's list after the push: its items, whatever they are, and the new path. */
  function Pushed(list: string, path: string): string {
    Join(Split(list, ',') + [path], ',')
  }

  lemma SplitOfPushed(list: string, path: string)
    requires ',' !in path
    ensures NonEmpty(Split(Pushed(list, path), ',')) == NonEmpty(Split(list, ',')) + NonEmpty([path])
  {
    hide Split, Join, NonEmpty;
    var items := Split(list, ',');
    SplitOfJoin(items + [path], ',');
    NonEmptyConcat(items, [path]);
  }

  /** A present list takes the new path up; for a missing one the error text becomes an item. */
  lemma PushedList(s: Columns, d: Path, kids: seq<string>, leaf: string)
    requires ListOf(At(s, d, List), d, kids) && ValidPath(d + [leaf])
    ensures ListOf(Some(Pushed(ListText(s, d), PathStr(d + [leaf]))), d, kids + [leaf]) <==> Col(d, List) in s
  {
    var text, path := ListText(s, d), PathStr(d + [leaf]);
    var was, now := NonEmpty(Split(text, ',')), NonEmpty(Split(Pushed(text, path), ','));
    assert now == was + [path] by {
      hide PathStr, Split, Join, Fetch, Pushed, Col;
      PathStrPlain(d + [leaf]);
      SplitOfPushed(text, path);
      assert NonEmpty([path]) == [path];
    }
    assert KidPaths(d, kids + [leaf]) == KidPaths(d, kids) + [path];
    assert Col(d, List) in s ==> was == KidPaths(d, kids);
    assert Col(d, List) !in s ==> kids == [] && |was| == 1 by { MissingText(s, d); }
    hide PathStr, Split, Pushed, NonEmpty, Col, ListText, At;
    assert Col(d, List) !in s ==> |now| == 2;
  }

  lemma MissingText(s: Columns, d: Path)
    ensures Col(d, List) !in s ==> |NonEmpty(Split(ListText(s, d), ','))| == 1
  {
    hide Split, Col, PathStr;
    var text := ListText(s, d);
    StatusTexts();
    assert Col(d, List) !in s ==> text != "" && ',' !in text;
    hide Fetch;
    if Col(d, List) !in s {
      SplitOfNone(text, ',');
      assert NonEmpty([text]) == [text];
    }
  }

  lemma StatusTexts()
    ensures NO_COLUMN != "" && ',' !in NO_COLUMN
    ensures "ERR 5: Row key not found\n" != "" && ',' !in "ERR 5: Row key not found\n"
  {
  }

  method PushToList(kv: Row, folder: string, path: string, ghost d: Path)
    requires ValidCol(d, List) && folder == PathStr(d)
    modifies kv
    ensures Differs(old(kv.cols), kv.cols, d, List, Some(Pushed(ListText(old(kv.cols), d), path)))
  {
    ListColumnOf(d);
    hide PathStr, Tidy, NamesOk, ListColumn, Differs, Split, Join;
    var destMetaCol := ListColumn(folder);
    var destMeta := kv.Get(destMetaCol);
    var destItems := SplitString(destMeta, ',');
    destItems := destItems + [path];
    var list := JoinStrings(destItems, ',');
    kv.Put(destMetaCol, list, d, List);
  }

  // ----- The columns after the move -----

  /** The text of the source's list when the removal starts. */
  ghost function SourceText(s: Columns, p: Path, d: Path, leaf: string): string
    requires p != []
  {
    if d == Parent(p) then Pushed(ListText(s, d), PathStr(d + [leaf])) else ListText(s, Parent(p))
  }

  /** The lists of the two folders are updated; the other columns are those of s1. */
  ghost predicate ListsUpdated(s: Columns, s1: Columns, s': Columns, p: Path, d: Path, leaf: string)
    requires p != []
  {
    && Tidy(s')
    && forall q, k :: ValidCol(q, k) ==>
         At(s', q, k) ==
         if q == Parent(p) && k == List then SourceList(SourceText(s, p, d, leaf), PathStr(p))
         else if q == d && k == List then Some(Pushed(ListText(s, d), PathStr(d + [leaf])))
         else At(s1, q, k)
  }

  /** One column of an entry that did not move. */
  lemma StayingEntry(s: Columns, t: Tree, p: Path, d: Path, leaf: string, q: Path, k: Kind, v: Option<string>)
    requires Stores(s, t) && CanMoveFile(t, p, d, leaf) && ValidCol(q, k) && q in t && q != p
    requires v == if q == Parent(p) && k == List then SourceList(SourceText(s, p, d, leaf), PathStr(p))
                  else if q == d && k == List then Some(Pushed(ListText(s, d), PathStr(d + [leaf])))
                  else At(s, q, k)
    requires Col(d, List) in s
    ensures Shows(v, Rehung(t[q], p, d, leaf, q), q, k)
  {
    assert q == d && d != Parent(p) ==> KidsAfter(t[q].kids, p, d, leaf, q) == t[q].kids + [leaf];
    hide *;
    hide Stores, WellFormed, ListOf, NamesOk;
    StoresAt(s, t, q, k);
    CanMoveFileFacts(t, p, d, leaf);
    if k == List && (q == Parent(p) || q == d) {
      ParentHasList(s, t, p);
      if q == d {
        assert ListOf(At(s, d, List), d, t[d].kids) by { ShowsList(At(s, d, List), t[d], d); }
        PushedList(s, d, t[d].kids, leaf);
      }
      if q == Parent(p) {
        SourceListAfter(s, t, p, d, leaf);
      }
      ShowsRehung(v, t[q], p, d, leaf, q);
    } else {
      ShowsSame(v, t[q], p, d, leaf, q, k);
    }
  }

  lemma CanMoveFileFacts(t: Tree, p: Path, d: Path, leaf: string)
    requires CanMoveFile(t, p, d, leaf)
    ensures WellFormed(t) && p in t && p != [] && !t[p].Dir? && d in t && t[d].Dir? && ValidPath(d + [leaf]) && d + [leaf] !in t
  {
  }

  lemma ShowsList(v: Option<string>, e: Entry, q: Path)
    requires Shows(v, e, q, List) && e.Dir?
    ensures ListOf(v, q, e.kids)
  {
  }

  lemma ShowsRehung(v: Option<string>, e: Entry, p: Path, d: Path, leaf: string, q: Path)
    requires p != [] && e.Dir? && ListOf(v, q, KidsAfter(e.kids, p, d, leaf, q))
    ensures Shows(v, Rehung(e, p, d, leaf, q), q, List)
  {
  }

  lemma ShowsSame(v: Option<string>, e: Entry, p: Path, d: Path, leaf: string, q: Path, k: Kind)
    requires p != [] && Shows(v, e, q, k) && (k != List || (q != d && q != Parent(p)))
    ensures Shows(v, Rehung(e, p, d, leaf, q), q, k)
  {
    hide ListOf;
  }

  /** The source folder's list names what is left, also when it is the target as well. */
  lemma SourceListAfter(s: Columns, t: Tree, p: Path, d: Path, leaf: string)
    requires Stores(s, t) && CanMoveFile(t, p, d, leaf)
    ensures Parent(p) in t && t[Parent(p)].Dir?
    ensures ListOf(SourceList(SourceText(s, p, d, leaf), PathStr(p)), Parent(p), KidsAfter(t[Parent(p)].kids, p, d, leaf, Parent(p)))
  {
    hide PathStr, Split, Join, Without, ListOf, WellFormed, NamesOk, Pushed, Col, ListText;
    ParentHasList(s, t, p);
    var par := Parent(p);
    var kids := if d == par then t[par].kids + [leaf] else t[par].kids;
    var text := SourceText(s, p, d, leaf);
    assert ListOf(Some(text), par, kids) by {
      if d == par {
        PushedList(s, d, t[d].kids, leaf);
      } else {
        TextOfList(s, par);
      }
    }
    forall i | 0 <= i < |kids| ensures ValidPath(par + [kids[i]]) {
      if i < |t[par].kids| {
        KidIsValid(t, par, i);
      }
    }
    assert p == par + [Name(p)];
    assert ValidPath(p) by { EntryFacts(t, p); }
    RemovedList(text, par, kids, Name(p));
  }

  lemma TextOfList(s: Columns, d: Path)
    requires Col(d, List) in s
    ensures At(s, d, List) == Some(ListText(s, d))
  {
  }

  lemma MovedFileColumn(s: Columns, s1: Columns, s': Columns, t: Tree, p: Path, d: Path, leaf: string, q: Path, k: Kind)
    requires Stores(s, t) && CanMoveFile(t, p, d, leaf) && Col(d, List) in s && ValidCol(q, k)
    requires FileMoved(s, s1, t[p], p, d + [leaf]) && ListsUpdated(s, s1, s', p, d, leaf)
    ensures
      var u := MoveFileTree(t, p, d, leaf);
      (q in u ==> Shows(At(s', q, k), u[q], q, k)) && (q !in u ==> Vacant(At(s', q, k), k))
  {
    hide *;
    hide CanMoveFile, Stores, MoveFileTree, ValidCol, Vacant, Parent;
    CanMoveFileFacts(t, p, d, leaf);
    var p', u := d + [leaf], MoveFileTree(t, p, d, leaf);
    StoresAt(s, t, q, k);
    ParentHasList(s, t, p);
    MoveFileTreeAt(t, p, d, leaf, q);
    ColumnAfter(s, s1, s', t, p, d, leaf, q, k);
    if q == p' {
      ArrivedShows(At(s, q, k), t[p], q, k);
    } else if q in t && q != p {
      StayingEntry(s, t, p, d, leaf, q, k, At(s', q, k));
    } else {
      NothingThere(k);
    }
  }

  lemma NothingThere(k: Kind)
    ensures Vacant(None, k)
  {
  }

  lemma MoveFileTreeAt(t: Tree, p: Path, d: Path, leaf: string, q: Path)
    requires CanMoveFile(t, p, d, leaf)
    ensures
      var u := MoveFileTree(t, p, d, leaf);
      && (q in u <==> q == d + [leaf] || (q in t && q != p))
      && d + [leaf] in u && u[d + [leaf]] == t[p] && d + [leaf] != p
      && (q in t && q != p ==> u[q] == Rehung(t[q], p, d, leaf, q))
  {
    hide Rehung, WellFormed, NamesOk;
  }

  lemma ColumnAfter(s: Columns, s1: Columns, s': Columns, t: Tree, p: Path, d: Path, leaf: string, q: Path, k: Kind)
    requires p in t && p != [] && d in t && Parent(p) in t && d + [leaf] !in t && ValidCol(q, k)
    requires FileMoved(s, s1, t[p], p, d + [leaf]) && ListsUpdated(s, s1, s', p, d, leaf) && t[d].Dir? && t[Parent(p)].Dir? && !t[p].Dir?
    ensures At(s', q, k) ==
         if q == Parent(p) && k == List then SourceList(SourceText(s, p, d, leaf), PathStr(p))
         else if q == d && k == List then Some(Pushed(ListText(s, d), PathStr(d + [leaf])))
         else if q == p then None
         else if q == d + [leaf] then Arrived(t[p], q, k, At(s, q, k)) else At(s, q, k)
    ensures q == d + [leaf] ==> At(s', q, k) == Arrived(t[p], q, k, At(s, q, k))
    ensures q == p ==> At(s', q, k) == None
  {
    hide At, ValidCol, Tidy, SourceList, SourceText, Pushed, ListText, PathStr, Arrived;
  }

  lemma MovedFileStored(s: Columns, s1: Columns, s': Columns, t: Tree, p: Path, d: Path, leaf: string)
    requires Stores(s, t) && CanMoveFile(t, p, d, leaf) && Col(d, List) in s
    requires FileMoved(s, s1, t[p], p, d + [leaf]) && ListsUpdated(s, s1, s', p, d, leaf)
    ensures Stores(s', MoveFileTree(t, p, d, leaf))
  {
    MovedFileWellFormed(t, p, d, leaf);
    var u := MoveFileTree(t, p, d, leaf);
    assert Tidy(s');
    hide MoveFileTree, ValidCol, WellFormed, At, Shows, Vacant, FileMoved, ListsUpdated, CanMoveFile, Tidy;
    forall q, k | ValidCol(q, k)
      ensures q in u ==> Shows(At(s', q, k), u[q], q, k)
      ensures q !in u ==> Vacant(At(s', q, k), k)
    {
      MovedFileColumn(s, s1, s', t, p, d, leaf, q, k);
    }
  }

  /** Without the target's list column, the error text is taken for a child. */
  lemma StatusTextListed(s: Columns, s1: Columns, s': Columns, t: Tree, p: Path, d: Path, leaf: string)
    requires Stores(s, t) && CanMoveFile(t, p, d, leaf) && Col(d, List) !in s && ListsUpdated(s, s1, s', p, d, leaf)
    ensures !Stores(s', MoveFileTree(t, p, d, leaf))
  {
    hide *;
    CanMoveFileFacts(t, p, d, leaf);
    var u := MoveFileTree(t, p, d, leaf);
    assert ValidCol(d, List) by { FolderCol(t, d); }
    ParentHasList(s, t, p);
    TargetText(s, s1, s', p, d, leaf);
    StoresAt(s, t, d, List);
    ShowsList(At(s, d, List), t[d], d);
    PushedList(s, d, t[d].kids, leaf);
    assert u[d] == Dir(t[d].kids + [leaf]) && d in u by { TargetEntry(t, p, d, leaf); }
    ShowsListIff(At(s', d, List), d, t[d].kids + [leaf]);
    if Stores(s', u) {
      StoresAt(s', u, d, List);
    }
  }

  lemma ShowsListIff(v: Option<string>, q: Path, kids: seq<string>)
    ensures Shows(v, Dir(kids), q, List) <==> ListOf(v, q, kids)
  {
  }

  lemma FolderCol(t: Tree, d: Path)
    requires WellFormed(t) && d in t
    ensures ValidCol(d, List)
  {
    hide WellFormed, NamesOk;
    EntryFacts(t, d);
  }

  lemma TargetText(s: Columns, s1: Columns, s': Columns, p: Path, d: Path, leaf: string)
    requires p != [] && d != Parent(p) && ValidCol(d, List) && ListsUpdated(s, s1, s', p, d, leaf)
    ensures At(s', d, List) == Some(Pushed(ListText(s, d), PathStr(d + [leaf])))
  {
    hide At, ValidCol, Tidy, SourceList, SourceText, Pushed, ListText, PathStr;
  }

  lemma TargetEntry(t: Tree, p: Path, d: Path, leaf: string)
    requires CanMoveFile(t, p, d, leaf) && d != Parent(p)
    ensures d in MoveFileTree(t, p, d, leaf) && MoveFileTree(t, p, d, leaf)[d] == Dir(t[d].kids + [leaf])
  {
    hide WellFormed, NamesOk;
  }

  /** File e has moved from p to p', and nothing else has changed. */
  ghost predicate FileMoved(s: Columns, s': Columns, e: Entry, p: Path, p': Path) {
    && Tidy(s')
    && forall q, k :: ValidCol(q, k) ==>
         At(s', q, k) == if q == p then None else if q == p' then Arrived(e, q, k, At(s, q, k)) else At(s, q, k)
  }

  lemma LandedIsMoved(s: Columns, s': Columns, e: Entry, p: Path, p': Path)
    requires FileLanded(s, s', e, p, p') && !e.Dir? && !ErrText(At(s, p, List))
    ensures FileMoved(s, s', e, p, p')
  {
    hide At, ValidCol, Tidy, Join, ErrText;
  }

  /** A chunked file whose list reads like an error arrives without its chunks. */
  lemma BrokenFile(s: Columns, s1: Columns, s': Columns, t: Tree, p: Path, d: Path, leaf: string)
    requires CanMoveFile(t, p, d, leaf) && t[p].Chunked? && ErrText(At(s, p, List)) && FileLanded(s, s1, t[p], p, d + [leaf])
    requires ListsUpdated(s, s1, s', p, d, leaf)
    ensures !Stores(s', MoveFileTree(t, p, d, leaf))
  {
    hide *;
    hide Parent;
    CanMoveFileFacts(t, p, d, leaf);
    var u, p' := MoveFileTree(t, p, d, leaf), d + [leaf];
    MoveFileTreeAt(t, p, d, leaf, p');
    ValidIsNamesOk(p');
    LandedContent(s, s1, t[p], p, p');
    ListsLeaveContent(s, s1, s', p, d, leaf);
    if Stores(s', u) {
      StoresContent(s', u, p');
    }
  }

  lemma LandedContent(s: Columns, s': Columns, e: Entry, p: Path, p': Path)
    requires FileLanded(s, s', e, p, p') && p != p' && NamesOk(p')
    ensures e.Chunked? && ErrText(At(s, p, List)) ==> At(s', p', Content).Some?
    ensures p' != CLASH ==> At(s', p', Marker).Some?
    ensures Tidy(s')
  {
    assert ValidCol(p', Content) && (p' != CLASH ==> ValidCol(p', Marker));
    hide At, ValidCol, Tidy, ErrText, NamesOk;
  }

  lemma ListsLeaveContent(s: Columns, s1: Columns, s': Columns, p: Path, d: Path, leaf: string)
    requires p != [] && NamesOk(d + [leaf]) && ListsUpdated(s, s1, s', p, d, leaf)
    ensures At(s', d + [leaf], Content) == At(s1, d + [leaf], Content)
  {
    assert ValidCol(d + [leaf], Content);
    hide At, ValidCol, Tidy, NamesOk, SourceList, SourceText, Pushed, ListText, PathStr;
  }

  lemma StoresContent(s: Columns, u: Tree, q: Path)
    requires Stores(s, u) && q in u && NamesOk(q) && u[q].Chunked?
    ensures At(s, q, Content) == None
  {
    assert ValidCol(q, Content);
    hide Stores, NamesOk, At;
    StoresAt(s, u, q, Content);
  }

  // ----- The code -----

  /** The two list updates that follow the move of the columns. */
  method UpdateLists(kv: Row, oldAbs: string, newAbs: string, srcFolder: string, newFolder: string,
                     ghost s: Columns, ghost t: Tree, ghost p: Path, ghost d: Path, ghost leaf: string)
    requires p != [] && ValidCol(d, List) && ValidCol(Parent(p), List) && Tidy(kv.cols)
    requires srcFolder == PathStr(Parent(p)) && newFolder == PathStr(d) && oldAbs == PathStr(p) && newAbs == PathStr(d + [leaf])
    requires ListText(kv.cols, d) == ListText(s, d) && ListText(kv.cols, Parent(p)) == ListText(s, Parent(p))
    requires Col(Parent(p), List) in kv.cols
    modifies kv
    ensures ListsUpdated(s, old(kv.cols), kv.cols, p, d, leaf)
  {
    hide *;
    ghost var s1 := kv.cols;
    PushToList(kv, newFolder, newAbs, d);
    ghost var s2 := kv.cols;
    RemoveFromList(kv, srcFolder, oldAbs, Parent(p));
    BothUpdated(s, s1, s2, kv.cols, p, d, leaf);
  }

  lemma BothUpdated(s: Columns, s1: Columns, s2: Columns, s': Columns, p: Path, d: Path, leaf: string)
    requires p != [] && ValidCol(d, List) && ValidCol(Parent(p), List) && Tidy(s1) && Col(Parent(p), List) in s1
    requires ListText(s1, d) == ListText(s, d) && ListText(s1, Parent(p)) == ListText(s, Parent(p))
    requires Differs(s1, s2, d, List, Some(Pushed(ListText(s1, d), PathStr(d + [leaf]))))
    requires Differs(s2, s', Parent(p), List, SourceList(ListText(s2, Parent(p)), PathStr(p)))
    ensures ListsUpdated(s, s1, s', p, d, leaf)
  {
    hide Pushed, PathStr, Tidy, Col, ValidCol, At, SourceList, ListText;
    SecondText(s1, s2, d, Parent(p), Pushed(ListText(s1, d), PathStr(d + [leaf])));
  }

  /** The text that the second update reads. */
  lemma SecondText(s1: Columns, s2: Columns, d: Path, e: Path, v: string)
    requires ValidCol(d, List) && ValidCol(e, List) && Col(e, List) in s1 && Differs(s1, s2, d, List, Some(v))
    ensures ListText(s2, e) == if d == e then v else ListText(s1, e)
  {
    hide PathStr, Tidy, Col, ValidCol;
    assert At(s2, e, List) == if e == d then Some(v) else At(s1, e, List);
    TextOfList(s2, e);
    TextOfList(s1, e);
  }

  /** Moving the columns leaves the lists of folders as they were. */
  lemma ListsKept(s: Columns, s1: Columns, e: Entry, p: Path, p': Path, q: Path)
    requires FileLanded(s, s1, e, p, p') && q != p && q != p' && ValidCol(q, List) && s1 != map[] && s != map[]
    ensures ListText(s1, q) == ListText(s, q) && (Col(q, List) in s1 <==> Col(q, List) in s)
  {
    assert At(s1, q, List) == At(s, q, List) by { hide At, Col, PathStr, Tidy, Gone, Landed, ValidCol; }
    hide FileLanded, Col, ValidCol, PathStr;
  }

  /** What the code computes from the two path strings, and what holds when the columns are moved. */
  lemma MoveFileReady(s: Columns, t: Tree, p: Path, d: Path)
    requires Stores(s, t) && p in t && p != [] && !t[p].Dir? && d in t && t[d].Dir?
    ensures AfterLast(PathStr(p), '/') == Name(p) && BeforeLast(PathStr(p), '/') == PathStr(Parent(p))
    ensures ValidPath(p) && ValidCol(d, List) && ValidCol(Parent(p), List) && Confined(s) && HasFile(s, t[p], p) && WellFormed(t)
    ensures Parent(p) in t && t[Parent(p)].Dir? && Col(Parent(p), List) in s
  {
    hide *;
    hide Parent, Name;
    StoresBelow(s, t, p);
    StoresConfined(s, t);
    PathOfTree(t, p);
    ParentHasList(s, t, p);
    ParentCols(s, t, p, d);
    NameAndParent(p);
    EntryRead(s, t, p);
  }

  lemma TakenIsEntry(s: Columns, t: Tree, d: Path, name: string, n: nat)
    requires Stores(s, t) && d in t && ValidPath(d + [name]) && Taken(s, Under(PathStr(d), Leaf(name, n)))
    ensures d + [Leaf(name, n)] in t
  {
    var leaf := Leaf(name, n);
    NewPathValid(d, name, n);
    NewPathStr(s, t, d, leaf);
    hide Leaf, PathStr, Stores, Under, NamesOk;
    TakenIsThere(s, PathStr(d + [leaf]));
    assert Col(d + [leaf], Marker) == PathStr(d + [leaf]);
    StoresAt(s, t, d + [leaf], Marker);
    assert TOMBSTONE[0] == 'D' && FILE[0] == 'K' && FOLDER[0] == 'K';
  }

  /** Nothing that a root's list can say reads like a marker. */
  lemma RootListIsNoMarker(s: Columns, t: Tree)
    requires Stores(s, t)
    ensures !Taken(s, Col([], List))
  {
    var c := Col([], List);
    if Taken(s, c) {
      TakenIsThere(s, c);
      MarkerText(s[c]);
      hide Stores, Split, FILE, FOLDER, NonEmpty, Col;
      RootOf(s, t);
      FirstRootEntry(s, t, s[c]);
    }
  }

  lemma MarkerText(m: string)
    requires m == FILE || m == FOLDER
    ensures '-' in m && NonEmpty(Split(m, ',')) == [m]
  {
    assert FILE[2] == '-' && FOLDER[2] == '-';
    assert ',' !in m && m != "";
    hide FILE, FOLDER, Split;
    SplitOfNone(m, ',');
  }

  /** The name of the root's list is never found taken. */
  lemma ClashIsFirst(s: Columns, t: Tree, p: Path, d: Path, n: nat)
    requires Stores(s, t) && p in t && p != [] && d in t && d + [Name(p)] == CLASH
    requires forall i :: 0 <= i < n ==> Taken(s, Under(PathStr(d), Leaf(Name(p), i)))
    ensures n == 0 && d == [] && Leaf(Name(p), 0) == "metadata" && d + [Leaf(Name(p), 0)] == CLASH && Under(PathStr(d), Leaf(Name(p), 0)) == PathStr(CLASH) == "metadata"
  {
    assert |d + [Name(p)]| == 1 && d == [] && (d + [Name(p)])[0] == "metadata";
    assert PathStr([]) == "" && PathStr(CLASH) == "metadata" && Col([], List) == "metadata";
    assert Leaf(Name(p), 0) == "metadata" && Under("", "metadata") == "metadata";
    hide Leaf, Under, PathStr, Taken, Stores, Col;
    RootListIsNoMarker(s, t);
    assert !Taken(s, Under(PathStr(d), Leaf(Name(p), 0)));
  }

  /** The root's list after a file of its column's name has arrived. */
  lemma FileAtClash(s: Columns, s1: Columns, s': Columns, e: Entry, p: Path)
    requires p != [] && Parent(p) != [] && ListsUpdated(Over(s, CLASH, FILE), s1, s', p, [], "metadata")
    ensures RootLost(s', FILE)
  {
    var b := Over(s, CLASH, FILE);
    assert ListText(b, []) == FILE && ValidCol([], List);
    assert [] + ["metadata"] == CLASH && PathStr(CLASH) == "metadata";
    hide Over, At, Tidy, SourceList, SourceText, Pushed, ListText, PathStr, FILE, ValidCol;
    PushedMarker();
    assert At(s', [], List) == Some(FILE + ",metadata");
    hide ListsUpdated;
    NoTreeLeft(s', FILE);
  }

  lemma PushedMarker()
    ensures Pushed(FILE, "metadata") == FILE + ",metadata"
  {
    assert ',' !in FILE;
    PushedAfter(FILE, "metadata");
    assert FILE + [','] + "metadata" == FILE + ",metadata";
  }

  lemma PushedAfter(list: string, path: string)
    requires ',' !in list
    ensures Pushed(list, path) == list + [','] + path
  {
    hide Split, Join;
    SplitOfNone(list, ',');
    JoinSnoc([list], path, ',');
    assert Join([list], ',') == list by { OneJoined(list); }
  }

  lemma OneJoined(x: string)
    ensures Join([x], ',') == x
  {
  }

  /**
   Moving a file. It gets the first free name, so no entry is overwritten; its bytes and all other
   entries are kept exactly when the target folder has a list column and the file's own list does
   not read like an error. A file called like the root's list column, moved to the root, destroys that list.
   */
  method MoveFile(kv: Row, oldAbs: string, newFolder: string, ghost t: Tree, ghost p: Path, ghost d: Path) returns (n: nat)
    requires Stores(kv.cols, t) && p in t && p != [] && !t[p].Dir? && d in t && t[d].Dir?
    requires oldAbs == PathStr(p) && newFolder == PathStr(d)
    modifies kv
    ensures d + [Leaf(Name(p), n)] !in t && forall i :: 0 <= i < n ==> d + [Leaf(Name(p), i)] in t
    ensures d + [Name(p)] != CLASH ==>
              (Stores(kv.cols, MoveFileTree(t, p, d, Leaf(Name(p), n))) <==>
                 Col(d, List) in old(kv.cols) && !ErrText(At(old(kv.cols), p, List)))
    ensures d + [Name(p)] == CLASH ==> RootLost(kv.cols, FILE)
  {
    ghost var s := kv.cols;
    MoveFileReady(s, t, p, d);
    var fileName, srcFolder := AfterLast(oldAbs, '/'), BeforeLast(oldAbs, '/');
    hide *;
    var newAbs;
    newAbs, n := FreeName(kv, newFolder, fileName);
    ghost var leaf := Leaf(fileName, n);
    ghost var p' := d + [leaf];
    NewPlace(s, t, p, d, n);
    ghost var b := Over(s, p', FILE);
    var threw := MoveFileColumns(kv, oldAbs, newAbs, true, t[p], p, p');
    ghost var s1 := kv.cols;
    FileArrived(s, s1, t, p, d, leaf);
    UpdateLists(kv, oldAbs, newAbs, srcFolder, newFolder, b, t, p, d, leaf);
    MoveFileOutcome(s, s1, kv.cols, t, p, d, n);
  }

  /** The new path: nothing of the tree is there. */
  lemma NewPlace(s: Columns, t: Tree, p: Path, d: Path, n: nat)
    requires Stores(s, t) && p in t && p != [] && d in t && t[d].Dir?
    requires !Taken(s, Under(PathStr(d), Leaf(Name(p), n)))
    requires forall i :: 0 <= i < n ==> Taken(s, Under(PathStr(d), Leaf(Name(p), i)))
    ensures
      var p' := d + [Leaf(Name(p), n)];
      && NamesOk(p') && PathStr(p') == Under(PathStr(d), Leaf(Name(p), n)) && p' !in t && p' != p
      && (p' == CLASH <==> d + [Name(p)] == CLASH)
      && forall i :: 0 <= i < n ==> d + [Leaf(Name(p), i)] in t
  {
    hide *;
    hide Name;
    StoresWellFormed(s, t);
    ParentCols(s, t, p, d);
    if d + [Name(p)] == CLASH {
      ClashIsFirst(s, t, p, d, n);
      NoClashEntry(t);
    } else {
      ValidFrom(d + [Name(p)]);
      NewPlaceIsFree(s, t, p, d, n);
      ValidIsNamesOk(d + [Leaf(Name(p), n)]);
      forall i | 0 <= i < n ensures d + [Leaf(Name(p), i)] in t { TakenIsEntry(s, t, d, Name(p), i); }
    }
  }

  lemma NoClashEntry(t: Tree)
    requires WellFormed(t)
    ensures CLASH !in t
  {
    hide NamesOk;
    assert CLASH != [] && !ValidPath(CLASH);
  }

  lemma ValidFrom(p: Path)
    requires NamesOk(p) && p != CLASH
    ensures ValidPath(p)
  {
  }

  /** What the list updates rely on. */
  lemma FileArrived(s: Columns, s1: Columns, t: Tree, p: Path, d: Path, leaf: string)
    requires Stores(s, t) && p in t && p != [] && !t[p].Dir? && d in t && t[d].Dir? && NamesOk(d + [leaf]) && d + [leaf] !in t
    requires FileLanded(Over(s, d + [leaf], FILE), s1, t[p], p, d + [leaf])
    ensures
      var b := Over(s, d + [leaf], FILE);
      && Tidy(s1) && ListText(s1, d) == ListText(b, d) && ListText(s1, Parent(p)) == ListText(b, Parent(p))
      && Col(Parent(p), List) in s1
  {
    hide *;
    hide Parent, Name;
    var p', b := d + [leaf], Over(s, d + [leaf], FILE);
    ParentCols(s, t, p, d);
    ParentHasList(s, t, p);
    StoresWellFormed(s, t);
    LandedContent(b, s1, t[p], p, p');
    NonEmptyRows(s, s1, t, p, p', Parent(p));
    ListsKept(b, s1, t[p], p, p', d);
    ListsKept(b, s1, t[p], p, p', Parent(p));
  }

  lemma NonEmptyRows(s: Columns, s1: Columns, t: Tree, p: Path, p': Path, par: Path)
    requires p in t && Col(par, List) in s && FileLanded(Over(s, p', FILE), s1, t[p], p, p') && par != p && par != p' && ValidCol(par, List)
    ensures Over(s, p', FILE) != map[] && s1 != map[] && Col(par, List) in Over(s, p', FILE)
  {
    assert Col(par, List) in Over(s, p', FILE);
    assert At(s1, par, List).Some? by { hide Col, Over, Gone, Landed, Tidy, ValidCol; }
    hide FileLanded, Over, Col;
  }

  lemma MoveFileOutcome(s: Columns, s1: Columns, s': Columns, t: Tree, p: Path, d: Path, n: nat)
    requires Stores(s, t) && p in t && p != [] && !t[p].Dir? && d in t && t[d].Dir?
    requires NamesOk(d + [Leaf(Name(p), n)]) && d + [Leaf(Name(p), n)] !in t && (d + [Leaf(Name(p), n)] == CLASH <==> d + [Name(p)] == CLASH)
    requires FileLanded(Over(s, d + [Leaf(Name(p), n)], FILE), s1, t[p], p, d + [Leaf(Name(p), n)])
    requires ListsUpdated(Over(s, d + [Leaf(Name(p), n)], FILE), s1, s', p, d, Leaf(Name(p), n))
    ensures d + [Name(p)] != CLASH ==>
              (Stores(s', MoveFileTree(t, p, d, Leaf(Name(p), n))) <==> Col(d, List) in s && !ErrText(At(s, p, List)))
    ensures d + [Name(p)] == CLASH ==> RootLost(s', FILE)
  {
    var leaf := Leaf(Name(p), n);
    assert d + [leaf] != CLASH ==> Over(s, d + [leaf], FILE) == s;
    assert d + [leaf] == CLASH ==> d == [] && leaf == "metadata" by { assert |d + [leaf]| == |d| + 1 && (d + [leaf])[|d|] == leaf; }
    hide *;
    hide Name, Parent;
    StoresWellFormed(s, t);
    if d + [leaf] == CLASH {
      PathOfTree(t, p);
      ParentOfLonger(p, d);
      FileAtClash(s, s1, s', t[p], p);
    } else {
      ValidFrom(d + [leaf]);
      CanMoveFileFrom(t, p, d, leaf);
      MoveFileResult(s, s1, s', t, p, d, leaf);
    }
  }

  lemma ParentOfLonger(p: Path, d: Path)
    requires p != [] && ValidPath(p) && d + [Name(p)] == CLASH
    ensures Parent(p) != []
  {
    assert |d + [Name(p)]| == 1 && (d + [Name(p)])[0] == Name(p);
    assert p == Parent(p) + [Name(p)];
  }

  lemma CanMoveFileFrom(t: Tree, p: Path, d: Path, leaf: string)
    requires WellFormed(t) && p in t && p != [] && !t[p].Dir? && d in t && t[d].Dir? && ValidPath(d + [leaf]) && d + [leaf] !in t
    ensures CanMoveFile(t, p, d, leaf)
  {
  }

  lemma MoveFileResult(s: Columns, s1: Columns, s': Columns, t: Tree, p: Path, d: Path, leaf: string)
    requires Stores(s, t) && CanMoveFile(t, p, d, leaf) && ListsUpdated(s, s1, s', p, d, leaf)
    requires FileLanded(s, s1, t[p], p, d + [leaf])
    ensures Stores(s', MoveFileTree(t, p, d, leaf)) <==> Col(d, List) in s && !ErrText(At(s, p, List))
  {
    hide *;
    CanMoveFileFacts(t, p, d, leaf);
    PathOfTree(t, p);
    if ErrText(At(s, p, List)) {
      ErrIsChunked(s, t, p);
      BrokenFile(s, s1, s', t, p, d, leaf);
    } else {
      LandedIsMoved(s, s1, t[p], p, d + [leaf]);
      if Col(d, List) in s {
        MovedFileStored(s, s1, s', t, p, d, leaf);
      } else {
        StatusTextListed(s, s1, s', t, p, d, leaf);
      }
    }
  }

  lemma ErrIsChunked(s: Columns, t: Tree, p: Path)
    requires Stores(s, t) && p in t && !t[p].Dir? && ValidPath(p) && ErrText(At(s, p, List))
    ensures t[p].Chunked?
  {
    assert ValidCol(p, List);
    hide Stores, NamesOk, At;
    StoresAt(s, t, p, List);
  }
}
