/**
 How trees come about: an empty row, the repair that listing a folder does, and creating a folder.
 */
module Folders {
  import opened Options
  import opened Text
  import opened FileTree
  import opened KvRow
  import opened Visits
  import opened FileMoves
  import opened FolderMove
  import opened SingleMove
  import opened StrayMoves
  import opened UploadTree

  /** A user without any column has the tree that is only a root. */
  lemma NoColumnsIsEmptyTree()
    ensures Stores(map[], map[[] := Dir([])])
  {
  }

  // ----- Listing -----

  /**
   Listing a folder writes an empty list where reading the list failed. The list column is there
   afterwards; the tree is still stored exactly when a list that is there does not start with ERR.
   */
  method RepairList(kv: Row, folder: string, ghost t: Tree, ghost d: Path)
    requires Stores(kv.cols, t) && d in t && t[d].Dir? && folder == PathStr(d)
    modifies kv
    ensures Col(d, List) in kv.cols
    ensures Stores(kv.cols, t) <==> !ErrText(At(old(kv.cols), d, List))
    ensures if StartsWith(ListText(old(kv.cols), d), "ERR") then Differs(old(kv.cols), kv.cols, d, List, Some("")) else kv.cols == old(kv.cols)
  {
    ghost var s := kv.cols;
    assert WellFormed(t);
    FolderCol(t, d);
    ListColumnOf(d) by { EntryFacts(t, d); }
    StoresAt(s, t, d, List);
    hide PathStr, Stores, WellFormed, NamesOk, ListColumn, Differs;
    var metaCol := ListColumn(folder);
    var metadata := kv.Get(metaCol);
    if StartsWith(metadata, "ERR") {
      kv.Put(metaCol, "", d, List);
      Repaired(s, kv.cols, t, d);
    }
  }

  lemma Repaired(s: Columns, s': Columns, t: Tree, d: Path)
    requires Stores(s, t) && d in t && t[d].Dir? && ValidCol(d, List)
    requires StartsWith(ListText(s, d), "ERR") && Differs(s, s', d, List, Some(""))
    ensures Stores(s', t) <==> Col(d, List) !in s
  {
    hide PathStr, WellFormed, NamesOk, ListOf, Col;
    StoresAt(s, t, d, List);
    assert t[d].kids == [] <==> ListOf(Some(""), d, t[d].kids) by { EmptyList(d, t[d].kids); }
    if Col(d, List) in s {
      ErrListHasAKid(s, t, d);
      if Stores(s', t) {
        StoresAt(s', t, d, List);
      }
    } else {
      assert t[d].kids == [] by { NoneIsEmpty(d, t[d].kids); }
      hide At, ValidCol;
      forall q, k | q in t && [] <= q && ValidCol(q, k) ensures Shows(At(s', q, k), t[q], q, k) { StoresAt(s, t, q, k); }
      forall q, k | q !in t && ValidCol(q, k) ensures Vacant(At(s', q, k), k) { StoresAt(s, t, q, k); }
    }
  }

  lemma EmptyList(d: Path, kids: seq<string>)
    ensures kids == [] <==> ListOf(Some(""), d, kids)
  {
    hide Split, PathStr;
    SplitOfNone("", ',');
    assert NonEmpty([""]) == [] && |KidPaths(d, kids)| == |kids|;
  }

  lemma NoneIsEmpty(d: Path, kids: seq<string>)
    requires ListOf(None, d, kids)
    ensures kids == []
  {
  }

  // ----- Creating -----

  ghost function WithFolder(t: Tree, d: Path, leaf: string): Tree
    requires d in t && t[d].Dir?
  {
    t[d := Dir(t[d].kids + [leaf])][d + [leaf] := Dir([])]
  }

  lemma WithFolderWellFormed(t: Tree, d: Path, leaf: string)
    requires CanUpload(t, d, leaf)
    ensures WellFormed(WithFolder(t, d, leaf))
  {
    var u, v := WithFolder(t, d, leaf), WithFile(t, d, leaf, [""]);
    WithFileWellFormed(t, d, leaf, [""]);
    assert u.Keys == v.Keys && forall q :: q in u && q != d + [leaf] ==> u[q] == v[q];
    hide WithFolder, WithFile, CanUpload, NamesOk, Distinct;
    forall q | q in u && q != [] ensures ValidPath(q) && Listed(u, q) { assert Listed(v, q); }
    forall q, n | q in u && u[q].Dir? && n in u[q].kids ensures q + [n] in u { assert q in v && v[q].Dir? && n in v[q].kids; }
    forall q | q in u ensures u[q].Dir? ==> Distinct(u[q].kids)
                      ensures u[q].Chunked? ==> u[q].chunks != []
    {
    }
    WellFormedFrom(u);
  }

  /** The folder's list after the new path was added; whatever was read is taken for the old list. */
  method AddChild(kv: Row, parentFolder: string, newFolder: string, path: string, ghost d: Path)
    requires ValidCol(d, List) && parentFolder == PathStr(d)
    modifies kv
    ensures newFolder !in Split(ListText(old(kv.cols), d), ',') ==>
              Differs(old(kv.cols), kv.cols, d, List, Some(ListWith(ListText(old(kv.cols), d), path)))
    ensures newFolder in Split(ListText(old(kv.cols), d), ',') ==> kv.cols == old(kv.cols)
  {
    ListColumnAt(d);
    assert Fetch(kv.cols, Col(d, List)) == ListText(kv.cols, d);
    hide *;
    var parentMetaCol := ListColumn(parentFolder);
    var parentMeta := kv.Get(parentMetaCol);
    var items := SplitString(parentMeta, ',');
    var exists_ := HasItem(items, newFolder);
    if !exists_ {
      parentMeta := ListWith(parentMeta, path);
      kv.Put(parentMetaCol, parentMeta, d, List);
    }
  }

  lemma NewNameNotListed(s: Columns, t: Tree, d: Path, leaf: string)
    requires Stores(s, t) && CanUpload(t, d, leaf) && Col(d, List) in s
    ensures leaf !in Split(ListText(s, d), ',')
  {
    hide PathStr, WellFormed, NamesOk, Split, Stores, CanUpload;
    assert d in t && t[d].Dir? && WellFormed(t) by { CanUploadFacts(t, d, leaf); }
    FolderCol(t, d);
    StoresAt(s, t, d, List);
    NewIsNotShadowed(t, d, leaf);
    NameListed(t, d, leaf, ListText(s, d));
  }

  lemma CanUploadFacts(t: Tree, d: Path, leaf: string)
    requires CanUpload(t, d, leaf)
    ensures WellFormed(t) && d in t && t[d].Dir? && ValidPath(d + [leaf]) && d + [leaf] !in t
  {
  }

  /** The new folder's two columns, over s. */
  ghost predicate FolderAdded(s: Columns, s': Columns, p: Path) {
    && (Tidy(s) ==> Tidy(s'))
    && forall q, k :: ValidCol(q, k) ==>
         At(s', q, k) == if q == p && k == Marker then Some(FOLDER) else if q == p && k == List then Some("") else At(s, q, k)
  }

  method AddFolderColumns(kv: Row, path: string, ghost p: Path)
    requires NamesOk(p) && path == PathStr(p)
    modifies kv
    ensures FolderAdded(Over(old(kv.cols), p, FOLDER), kv.cols, p)
  {
    ghost var s := kv.cols;
    ListStrings(p);
    hide *;
    PutMarker(kv, path, FOLDER, p);
    ghost var s1 := kv.cols;
    kv.Put(path + "-metadata", "", p, List);
    MarkerThenList(s, s1, kv.cols, p);
  }

  lemma MarkerThenList(s: Columns, s1: Columns, s': Columns, p: Path)
    requires NamesOk(p) && MarkerWritten(s, s1, p, FOLDER) && Differs(s1, s', p, List, Some(""))
    ensures FolderAdded(Over(s, p, FOLDER), s', p)
  {
    assert p != [] && !ValidCol(CLASH, Marker);
    AtOver(s, p, FOLDER);
    assert Tidy(Over(s, p, FOLDER)) ==> Tidy(s1) by {
      if p == CLASH && Tidy(Over(s, p, FOLDER)) {
        TidyUnder(s);
      }
      hide At, ValidCol, NamesOk;
    }
    hide At, ValidCol, NamesOk, Tidy, Over;
  }

  lemma TidyUnder(s: Columns)
    requires Tidy(Over(s, CLASH, FOLDER))
    ensures Tidy(s)
  {
    hide Named;
    forall c | c in s ensures Named(c) { assert c in Over(s, CLASH, FOLDER); }
  }

  lemma CreatedColumn(s: Columns, s1: Columns, s': Columns, t: Tree, d: Path, leaf: string, q: Path, k: Kind)
    requires Stores(s, t) && CanUpload(t, d, leaf) && Col(d, List) in s && ValidCol(q, k)
    requires Differs(s, s1, d, List, Some(ListWith(ListText(s, d), PathStr(d + [leaf])))) && FolderAdded(s1, s', d + [leaf])
    ensures
      var u := WithFolder(t, d, leaf);
      (q in u ==> Shows(At(s', q, k), u[q], q, k)) && (q !in u ==> Vacant(At(s', q, k), k))
  {
    hide WellFormed, NamesOk, Stores, ListOf, PathStr, ListWith, ListText, ValidCol, At, Tidy, Col;
    StoresAt(s, t, q, k);
    EmptyList(d + [leaf], []);
    if q == d && k == List {
      ListWithFile(s, d, t[d].kids, leaf);
    }
  }

  lemma CreatedStored(s: Columns, s1: Columns, s': Columns, t: Tree, d: Path, leaf: string)
    requires Stores(s, t) && CanUpload(t, d, leaf) && Col(d, List) in s
    requires Differs(s, s1, d, List, Some(ListWith(ListText(s, d), PathStr(d + [leaf])))) && FolderAdded(s1, s', d + [leaf])
    ensures Stores(s', WithFolder(t, d, leaf))
  {
    WithFolderWellFormed(t, d, leaf);
    var u := WithFolder(t, d, leaf);
    assert Tidy(s');
    hide WithFolder, ValidCol, WellFormed, At, Shows, Vacant, FolderAdded, Differs, CanUpload, Tidy;
    forall q, k | ValidCol(q, k)
      ensures q in u ==> Shows(At(s', q, k), u[q], q, k)
      ensures q !in u ==> Vacant(At(s', q, k), k)
    {
      CreatedColumn(s, s1, s', t, d, leaf, q, k);
    }
  }

  /** Without a list column the error text becomes an entry, or the new folder is not listed at all. */
  lemma CreatedNotStored(s: Columns, s1: Columns, s': Columns, t: Tree, d: Path, leaf: string)
    requires Stores(s, t) && CanUpload(t, d, leaf) && Col(d, List) !in s && FolderAdded(s1, s', d + [leaf])
    requires s1 == s || Differs(s, s1, d, List, Some(ListWith(ListText(s, d), PathStr(d + [leaf]))))
    ensures !Stores(s', WithFolder(t, d, leaf))
  {
    var u := WithFolder(t, d, leaf);
    assert d in u && u[d] == Dir(t[d].kids + [leaf]);
    FolderCol(t, d);
    StoresAt(s, t, d, List);
    BadParentList(s, d, t[d].kids, leaf);
    hide WithFolder, WellFormed, NamesOk, PathStr, ListWith, ListText, Split, Stores, Tidy;
    assert At(s', d, List) == At(s1, d, List);
    ShowsListIff(At(s', d, List), d, t[d].kids + [leaf]);
    hide At, ValidCol, ListOf, FolderAdded;
    if Stores(s', u) {
      StoresAt(s', u, d, List);
    }
  }

  lemma BadParentList(s: Columns, d: Path, kids: seq<string>, leaf: string)
    requires Col(d, List) !in s && ListOf(None, d, kids) && ValidPath(d + [leaf])
    ensures !ListOf(None, d, kids + [leaf])
    ensures !ListOf(Some(ListWith(ListText(s, d), PathStr(d + [leaf]))), d, kids + [leaf])
  {
    var text, path := ListText(s, d), PathStr(d + [leaf]);
    assert StartsWith(text, "ERR") && text != "";
    hide Fetch, Col, PathStr, Split, ListText;
    PathStrPlain(d + [leaf]);
    SplitConcat(text, path, ',');
    assert text + "," + path == text + [','] + path;
    SplitOfNone(path, ',');
    NonEmptyConcat(Split(text, ','), [path]);
    MissingText(s, d);
    assert NonEmpty([path]) == [path];
    assert |KidPaths(d, kids + [leaf])| == 1;
  }

  /** The columns after a folder was created where its parent has a list. */
  ghost predicate FolderCreated(s: Columns, s': Columns, d: Path, leaf: string) {
    forall q, k :: ValidCol(q, k) ==>
      At(s', q, k) ==
      if q == d + [leaf] && k == Marker then Some(FOLDER) else if q == d + [leaf] && k == List then Some("")
      else if q == d && k == List then Some(ListWith(ListText(s, d), PathStr(d + [leaf])))
      else At(s, q, k)
  }

  /** The root's list has become a marker: no tree is stored any more. */
  ghost predicate RootIsMarker(s': Columns) {
    At(s', [], List) == Some(FOLDER) && forall u :: !Stores(s', u)
  }

  /**
   Creating a folder. It is refused exactly when something is there already, and then nothing changes;
   a tombstone does not count. Otherwise the store holds the tree with the new folder exactly when
   the parent has a list column. A root folder with the name of the root's list is created exactly when
   that list is empty or reads like an error, and destroys it.
   */
  method WebCreateFolder(kv: Row, parentFolder: string, newFolder: string, ghost t: Tree, ghost d: Path) returns (created: bool)
    requires Stores(kv.cols, t) && d in t && t[d].Dir? && parentFolder == PathStr(d) && NamesOk(d + [newFolder])
    modifies kv
    ensures d + [newFolder] != CLASH ==> (created <==> d + [newFolder] !in t)
    ensures d + [newFolder] == CLASH ==> (created <==> ListText(old(kv.cols), d) == "" || StartsWith(ListText(old(kv.cols), d), "ERR"))
    ensures !created ==> kv.cols == old(kv.cols)
    ensures created && d + [newFolder] != CLASH ==> (Stores(kv.cols, WithFolder(t, d, newFolder)) <==> Col(d, List) in old(kv.cols))
    ensures created && d + [newFolder] != CLASH && Col(d, List) in old(kv.cols) ==> FolderCreated(old(kv.cols), kv.cols, d, newFolder)
    ensures created && d + [newFolder] == CLASH ==> RootIsMarker(kv.cols)
  {
    ghost var s, p := kv.cols, d + [newFolder];
    CreateReady(s, t, d, newFolder);
    var path := if parentFolder == "" then newFolder else parentFolder + "/" + newFolder;
    hide *;
    hide StartsWith;
    var marker := kv.Get(path);
    if marker != "" && !StartsWith(marker, "ERR") && marker != TOMBSTONE {
      return false;
    }
    AddChild(kv, parentFolder, newFolder, path, d);
    ghost var s1 := kv.cols;
    AddFolderColumns(kv, path, p);
    CreateOutcome(s, s1, kv.cols, t, d, newFolder);
    return true;
  }

  lemma CreateReady(s: Columns, t: Tree, d: Path, leaf: string)
    requires Stores(s, t) && d in t && t[d].Dir? && NamesOk(d + [leaf])
    ensures PathStr(d + [leaf]) == if PathStr(d) == "" then leaf else PathStr(d) + "/" + leaf
    ensures ValidCol(d, List) && (d + [leaf] != CLASH && d + [leaf] !in t ==> CanUpload(t, d, leaf))
    ensures
      var marker := Fetch(s, PathStr(d + [leaf]));
      var blocked := marker != "" && !StartsWith(marker, "ERR") && marker != TOMBSTONE;
      && (d + [leaf] != CLASH ==> (blocked <==> d + [leaf] in t))
      && (d + [leaf] == CLASH ==> d == [] && (blocked <==> ListText(s, d) != "" && !StartsWith(ListText(s, d), "ERR")))
  {
    NewPathStr(s, t, d, leaf);
    assert Under(PathStr(d), leaf) == if PathStr(d) == "" then leaf else PathStr(d) + "/" + leaf;
    hide *;
    StoresWellFormed(s, t);
    FolderCol(t, d);
    if d + [leaf] == CLASH {
      ClashMarker(s, t, d, leaf);
    } else {
      ValidFrom(d + [leaf]);
      PlainMarker(s, t, d, leaf);
      if d + [leaf] !in t {
        CanUploadFrom(t, d, leaf);
      }
    }
  }

  lemma CanUploadFrom(t: Tree, d: Path, leaf: string)
    requires WellFormed(t) && d in t && t[d].Dir? && ValidPath(d + [leaf]) && d + [leaf] !in t
    ensures CanUpload(t, d, leaf)
  {
  }

  lemma PlainMarker(s: Columns, t: Tree, d: Path, leaf: string)
    requires Stores(s, t) && ValidPath(d + [leaf])
    ensures
      var marker := Fetch(s, PathStr(d + [leaf]));
      (marker != "" && !StartsWith(marker, "ERR") && marker != TOMBSTONE) <==> d + [leaf] in t
  {
    ListStrings(d + [leaf]);
    assert ValidCol(d + [leaf], Marker);
    hide PathStr, Stores, WellFormed, NamesOk, ListOf;
    StoresAt(s, t, d + [leaf], Marker);
    assert FOLDER[0] == 'K' && FILE[0] == 'K' && TOMBSTONE[0] == 'D' && "ERR"[0] == 'E';
  }

  lemma ClashMarker(s: Columns, t: Tree, d: Path, leaf: string)
    requires Stores(s, t) && d + [leaf] == CLASH
    ensures d == [] && Fetch(s, PathStr(d + [leaf])) == ListText(s, d)
    ensures ListText(s, d) != TOMBSTONE
  {
    assert |d + [leaf]| == |d| + 1 && d == [];
    assert PathStr(CLASH) == "metadata" == Col([], List);
    hide PathStr, Stores;
    NotATombstone(s, t);
  }

  lemma NotATombstone(s: Columns, t: Tree)
    requires Stores(s, t)
    ensures ListText(s, []) != TOMBSTONE
  {
    var c := Col([], List);
    TombstoneText();
    hide Stores, Split, NonEmpty, TOMBSTONE, Col;
    if c in s && s[c] == TOMBSTONE {
      RootOf(s, t);
      FirstRootEntry(s, t, s[c]);
    }
  }

  lemma TombstoneText()
    ensures '-' in TOMBSTONE && !StartsWith(TOMBSTONE, "ERR") && NonEmpty(Split(TOMBSTONE, ',')) == [TOMBSTONE]
  {
    assert TOMBSTONE[6] == '-' && TOMBSTONE[0] == 'D' && "ERR"[0] == 'E';
    assert ',' !in TOMBSTONE;
    OneItem(TOMBSTONE);
  }

  lemma CreateOutcome(s: Columns, s1: Columns, s': Columns, t: Tree, d: Path, leaf: string)
    requires Stores(s, t) && d in t && t[d].Dir? && NamesOk(d + [leaf]) && ValidCol(d, List)
    requires leaf !in Split(ListText(s, d), ',') ==> Differs(s, s1, d, List, Some(ListWith(ListText(s, d), PathStr(d + [leaf]))))
    requires leaf in Split(ListText(s, d), ',') ==> s1 == s
    requires FolderAdded(Over(s1, d + [leaf], FOLDER), s', d + [leaf])
    requires d + [leaf] != CLASH ==> CanUpload(t, d, leaf)
    ensures d + [leaf] != CLASH ==> (Stores(s', WithFolder(t, d, leaf)) <==> Col(d, List) in s)
    ensures d + [leaf] != CLASH && Col(d, List) in s ==> FolderCreated(s, s', d, leaf)
    ensures d + [leaf] == CLASH ==> RootIsMarker(s')
  {
    assert d + [leaf] != CLASH ==> Over(s1, d + [leaf], FOLDER) == s1;
    assert d + [leaf] == CLASH ==> d == [] by { assert |d + [leaf]| == |d| + 1; }
    hide *;
    if d + [leaf] == CLASH {
      MarkerAtRoot(s1, s');
    } else if Col(d, List) in s {
      NewNameNotListed(s, t, d, leaf);
      CreatedStored(s, s1, s', t, d, leaf);
      CreatedExactly(s, s1, s', d, leaf);
    } else {
      CreatedNotStored(s, s1, s', t, d, leaf);
    }
  }

  lemma CreatedExactly(s: Columns, s1: Columns, s': Columns, d: Path, leaf: string)
    requires Differs(s, s1, d, List, Some(ListWith(ListText(s, d), PathStr(d + [leaf])))) && FolderAdded(s1, s', d + [leaf])
    ensures FolderCreated(s, s', d, leaf)
  {
    hide At, ValidCol, Tidy, ListWith, ListText, PathStr;
  }

  lemma MarkerAtRoot(s1: Columns, s': Columns)
    requires FolderAdded(Over(s1, CLASH, FOLDER), s', CLASH)
    ensures RootIsMarker(s')
  {
    assert ValidCol([], List) && At(Over(s1, CLASH, FOLDER), [], List) == Some(FOLDER);
    assert At(s', [], List) == Some(FOLDER) by { hide At, NamesOk, Tidy, Over; }
    hide FolderAdded, Over;
    MarkerText(FOLDER);
    hide At, Stores, Split, NonEmpty, FOLDER;
    forall u | true ensures !Stores(s', u) {
      if Stores(s', u) {
        RootOf(s', u);
        FirstRootEntry(s', u, FOLDER);
      }
    }
  }
}
