/**
 An upload seen on the tree: the handler adds one file to one folder.
 */
module UploadTree {
  import opened Options
  import opened Text
  import opened FileTree
  import opened KvRow
  import opened Visits
  import opened FileMoves
  import opened TreeMoves
  import opened FolderMove
  import opened StrayMoves
  import opened SingleMove
  import opened UploadNames
  import U = Upload

  // ----- The tree after the upload -----

  ghost predicate CanUpload(t: Tree, d: Path, leaf: string) {
    WellFormed(t) && d in t && t[d].Dir? && ValidPath(d + [leaf]) && d + [leaf] !in t
  }

  ghost function WithFile(t: Tree, d: Path, leaf: string, cs: seq<string>): Tree
    requires d in t && t[d].Dir?
  {
    t[d := Dir(t[d].kids + [leaf])][d + [leaf] := Chunked(cs)]
  }

  lemma WithFileListed(t: Tree, d: Path, leaf: string, cs: seq<string>, q: Path)
    requires CanUpload(t, d, leaf) && q in WithFile(t, d, leaf, cs) && q != []
    ensures ValidPath(q) && Listed(WithFile(t, d, leaf, cs), q)
  {
    hide WellFormed, NamesOk;
    if q == d + [leaf] {
      assert Parent(q) == d && Name(q) == leaf;
    } else {
      EntryFacts(t, q);
      assert Parent(q) != d + [leaf];
    }
  }

  lemma WithFileWellFormed(t: Tree, d: Path, leaf: string, cs: seq<string>)
    requires CanUpload(t, d, leaf) && cs != []
    ensures WellFormed(WithFile(t, d, leaf, cs))
  {
    var u := WithFile(t, d, leaf, cs);
    assert [] in u && u[[]].Dir?;
    hide WellFormed, NamesOk, Listed, Distinct, CanUpload, WithFile;
    forall q | q in u && q != [] ensures ValidPath(q) && Listed(u, q) { WithFileListed(t, d, leaf, cs, q); }
    forall q, n | q in u && u[q].Dir? && n in u[q].kids ensures q + [n] in u { WithFileEntry(t, d, leaf, cs, q); }
    forall q | q in u ensures u[q].Dir? ==> Distinct(u[q].kids)
                      ensures u[q].Chunked? ==> u[q].chunks != []
    {
      WithFileEntry(t, d, leaf, cs, q);
    }
    WellFormedFrom(u);
  }

  lemma WithFileEntry(t: Tree, d: Path, leaf: string, cs: seq<string>, q: Path)
    requires CanUpload(t, d, leaf) && cs != [] && q in WithFile(t, d, leaf, cs)
    ensures
      var u := WithFile(t, d, leaf, cs);
      && (u[q].Dir? ==> Distinct(u[q].kids) && forall n :: n in u[q].kids ==> q + [n] in u)
      && (u[q].Chunked? ==> u[q].chunks != [])
  {
    hide WellFormed, NamesOk;
    if q != d + [leaf] {
      EntryFacts(t, q);
    }
  }

  // ----- The file's columns -----

  /** The column of a file that was uploaded to p over the columns s, where the loop found the list lead. */
  ghost function Uploaded(s: Columns, p: Path, lead: Option<string>, cs: seq<string>, k: Kind): Option<string>
    requires cs != []
  {
    match k
    case Marker => Some(FILE)
    case List => Some(U.ListAfter(PathStr(p), lead, |cs|))
    case Content => At(s, p, k)
    case Chunk(i) => if 1 <= i <= |cs| then Some(cs[i - 1]) else At(s, p, k)
  }

  /** The file is at p, and no other column has changed. */
  ghost predicate FileAdded(s: Columns, s': Columns, p: Path, lead: Option<string>, cs: seq<string>)
    requires cs != []
  {
    && Tidy(s')
    && forall q, k :: ValidCol(q, k) ==> At(s', q, k) == if q != p then At(s, q, k) else Uploaded(s, p, lead, cs, k)
  }

  lemma ColumnNames(p: Path, i: nat)
    requires NamesOk(p)
    ensures Col(p, Marker) == PathStr(p) && Col(p, List) == U.ChunkList(PathStr(p))
    ensures Col(p, Chunk(i)) == U.ChunkColumn(PathStr(p), i)
    ensures ValidCol(p, List) && ValidCol(p, Chunk(i))
  {
    hide PathStr, Dec;
    assert PathStr(p) + "-" + Dec(i) + "-content" == PathStr(p) + ("-" + Dec(i) + "-content");
  }

  /** A column that the upload writes is the list or a chunk of the file, and conversely. */
  lemma OwnColumn(p: Path, n: nat, q: Path, k: Kind)
    requires NamesOk(p) && ValidCol(q, k)
    ensures Col(q, k) == U.ChunkList(PathStr(p)) <==> q == p && k == List
    ensures U.OwnChunk(PathStr(p), n, Col(q, k)) <==> q == p && k.Chunk? && 1 <= k.i <= n
  {
    hide PathStr, Col, ValidCol, NamesOk, U.ChunkColumn, U.ChunkList;
    ColumnNames(p, 0);
    if Col(q, k) == Col(p, List) {
      ColInjective(q, k, p, List);
    }
    forall i | 1 <= i <= n && Col(q, k) == U.ChunkColumn(PathStr(p), i) ensures q == p && k == Chunk(i) {
      ColumnNames(p, i);
      ColInjective(q, k, p, Chunk(i));
    }
    if q == p && k.Chunk? && 1 <= k.i <= n {
      ColumnNames(p, k.i);
    }
  }

  lemma FileColumn(s: Columns, s': Columns, p: Path, cs: seq<string>, q: Path, k: Kind)
    requires NamesOk(p) && ValidCol(q, k) && cs != [] && U.Stored(s, s', PathStr(p), cs, |cs|)
    ensures At(s', q, k) == if q != p || k == Marker then At(s, q, k) else Uploaded(s, p, U.Lead(s, PathStr(p)), cs, k)
  {
    hide PathStr, Col, ValidCol, NamesOk, U.ChunkColumn, U.ChunkList, U.OwnChunk, U.ListAfter, U.Lead, Dec, FILE, Contains;
    OwnColumn(p, |cs|, q, k);
    ColumnNames(p, if k.Chunk? then k.i else 0);
  }

  lemma StoredIsTidy(s: Columns, s': Columns, p: Path, cs: seq<string>)
    requires NamesOk(p) && cs != [] && U.Stored(s, s', PathStr(p), cs, |cs|) && Tidy(s)
    ensures Tidy(s')
  {
    hide PathStr, Col, ValidCol, NamesOk, U.ChunkColumn, U.ChunkList, U.ListAfter, U.Lead;
    ColumnNames(p, 0);
    forall c | c in s' ensures Named(c) {
      if U.OwnChunk(PathStr(p), |cs|, c) {
        forall i | 1 <= i <= |cs| && c == U.ChunkColumn(PathStr(p), i) ensures Named(c) { ColumnNames(p, i); }
      }
    }
  }

  lemma MarkerThenChunks(s: Columns, s1: Columns, s': Columns, p: Path, cs: seq<string>)
    requires NamesOk(p) && cs != [] && MarkerWritten(s, s1, p, FILE) && Tidy(s)
    requires U.Stored(s1, s', PathStr(p), cs, |cs|)
    ensures FileAdded(Over(s, p, FILE), s', p, U.Lead(s1, PathStr(p)), cs)
  {
    assert Tidy(s1) && p != [];
    AtOver(s, p, FILE);
    hide PathStr, ValidCol, NamesOk, U.Stored, At, Tidy, U.ListAfter, Over, U.Lead;
    StoredIsTidy(s1, s', p, cs);
    hide MarkerWritten, Uploaded;
    forall q, k | ValidCol(q, k)
      ensures At(s', q, k) == if q != p then At(Over(s, p, FILE), q, k) else Uploaded(Over(s, p, FILE), p, U.Lead(s1, PathStr(p)), cs, k)
    {
      FileColumn(s1, s', p, cs, q, k);
      ColumnAfterMarker(s, s1, p, U.Lead(s1, PathStr(p)), cs, q, k);
    }
  }

  lemma ColumnAfterMarker(s: Columns, s1: Columns, p: Path, lead: Option<string>, cs: seq<string>, q: Path, k: Kind)
    requires NamesOk(p) && cs != [] && MarkerWritten(s, s1, p, FILE) && ValidCol(q, k)
    ensures q != p ==> At(s1, q, k) == At(Over(s, p, FILE), q, k)
    ensures q == p && k == Marker ==> At(s1, q, k) == Uploaded(Over(s, p, FILE), p, lead, cs, k)
    ensures q == p && k != Marker ==> Uploaded(s1, p, lead, cs, k) == Uploaded(Over(s, p, FILE), p, lead, cs, k)
  {
    assert p != [];
    AtOver(s, p, FILE);
    NoClashMarker(q, k);
    hide PathStr, ValidCol, NamesOk, At, Tidy, U.ListAfter, Over;
  }

  lemma NoClashMarker(q: Path, k: Kind)
    ensures ValidCol(q, k) && q == CLASH ==> k != Marker
  {
  }

  // ----- The parent's list -----

  /** The folder's list with the new file: it is not checked for an error text. */
  function ListWith(list: string, path: string): string {
    if list == "" then path else list + "," + path
  }

  lemma ItemsWith(text: string, path: string)
    requires path != "" && ',' !in path
    ensures NonEmpty(Split(ListWith(text, path), ',')) == NonEmpty(Split(text, ',')) + [path]
  {
    hide Split;
    SplitOfNone(path, ',');
    assert NonEmpty([path]) == [path];
    if text == "" {
      SplitOfNone("", ',');
      assert NonEmpty([""]) == [];
    } else {
      SplitConcat(text, path, ',');
      assert text + "," + path == text + [','] + path;
      NonEmptyConcat(Split(text, ','), [path]);
    }
  }

  lemma ListWithFile(s: Columns, d: Path, kids: seq<string>, leaf: string)
    requires Col(d, List) in s && ListOf(At(s, d, List), d, kids) && ValidPath(d + [leaf])
    ensures ListOf(Some(ListWith(ListText(s, d), PathStr(d + [leaf]))), d, kids + [leaf])
  {
    var text, path := ListText(s, d), PathStr(d + [leaf]);
    assert ListOf(Some(text), d, kids);
    hide PathStr, Split, Col, Fetch, ListText, ListWith;
    PathStrPlain(d + [leaf]);
    ItemsWith(text, path);
    assert KidPaths(d, kids + [leaf]) == KidPaths(d, kids) + [path];
  }

  method HasItem(items: seq<string>, item: string) returns (found: bool)
    ensures found <==> item in items
  {
    found := false;
    for i := 0 to |items|
      invariant found <==> item in items[..i]
    {
      assert items[..i + 1] == items[..i] + [items[i]];
      if items[i] == item {
        found := true;
      }
    }
    assert items[..|items|] == items;
  }

  /** The bare name is among the items of the list, which are full paths, only in the root. */
  ghost predicate Shadowed(t: Tree, d: Path, name: string) {
    d == [] && d in t && t[d].Dir? && name in t[d].kids
  }

  lemma NameListed(t: Tree, d: Path, name: string, text: string)
    requires WellFormed(t) && d in t && t[d].Dir? && ValidName(name) && ListOf(Some(text), d, t[d].kids)
    ensures name in Split(text, ',') <==> Shadowed(t, d, name)
  {
    hide WellFormed, PathStr, Split, NamesOk;
    var kids := t[d].kids;
    forall i | 0 <= i < |kids| ensures KidPaths(d, kids)[i] == name <==> d == [] && kids[i] == name { BareName(d, kids[i], name); }
    assert name in KidPaths(d, kids) <==> Shadowed(t, d, name);
    assert name in NonEmpty(Split(text, ',')) <==> name in Split(text, ',');
  }

  lemma BareName(d: Path, kid: string, name: string)
    requires ValidName(name)
    ensures PathStr(d + [kid]) == name <==> d == [] && kid == name
  {
    PathStrChild(d, kid);
    hide PathStr;
    if d != [] {
      assert PathStr(d + [kid])[|PathStr(d)|] == '/';
    }
  }

  lemma NewIsNotShadowed(t: Tree, d: Path, leaf: string)
    requires CanUpload(t, d, leaf)
    ensures !Shadowed(t, d, leaf) && ValidName(leaf)
  {
    assert ValidName(leaf) by { assert (d + [leaf])[|d|] == leaf; }
  }

  /** What the parent's list becomes: the bare name is looked for among the items, which are full paths. */
  function ParentText(text: string, fileName: string, path: string): string {
    if text == "" then path else if fileName in Split(text, ',') then text else text + "," + path
  }

  /** The read, the change and the conditional write of the parent's list. */
  method AddToParent(kv: Row, folder: string, fileName: string, path: string)
    modifies kv
    ensures
      var c := ListColumn(folder);
      kv.cols == if c in old(kv.cols) then old(kv.cols)[c := ParentText(old(kv.cols)[c], fileName, path)] else old(kv.cols)
  {
    hide Split, ListColumn;
    var metaCol := ListColumn(folder);
    var parentMeta := kv.Get(metaCol);
    var oldParentMeta := parentMeta;
    if parentMeta == "" {
      parentMeta := path;
    } else {
      var items := SplitString(parentMeta, ',');
      var found := HasItem(items, fileName);
      if !found {
        parentMeta := parentMeta + "," + path;
      }
    }
    kv.CPut(metaCol, oldParentMeta, parentMeta, [], List);
  }

  /** That is the list with the path, unless the name is found in it or there is no list. */
  lemma NewInParent(s: Columns, s2: Columns, s': Columns, t: Tree, d: Path, name: string, path: string)
    requires WellFormed(t) && d in t && t[d].Dir? && ValidName(name)
    requires At(s2, d, List) == At(s, d, List) && ListOf(At(s, d, List), d, t[d].kids)
    requires
      var c := ListColumn(PathStr(d));
      s' == if c in s2 then s2[c := ParentText(s2[c], name, path)] else s2
    ensures Col(d, List) in s && !Shadowed(t, d, name) ==> Differs(s2, s', d, List, Some(ListWith(ListText(s, d), path)))
    ensures Col(d, List) !in s || Shadowed(t, d, name) ==> s' == s2
  {
    FolderCol(t, d);
    ListColumnAt(d);
    TextThere(s, d);
    assert Col(d, List) in s <==> Col(d, List) in s2;
    assert Col(d, List) in s ==> s2[Col(d, List)] == At(s, d, List).value;
    hide PathStr, NamesOk, Split, WellFormed, ListColumn, Col, ListText, ListOf, ValidCol;
    if Col(d, List) in s {
      ParentTextIs(t, d, name, ListText(s, d), path);
      AtPut(s2, d, List, ParentText(ListText(s, d), name, path));
    }
  }

  lemma ParentTextIs(t: Tree, d: Path, name: string, text: string, path: string)
    requires WellFormed(t) && d in t && t[d].Dir? && ValidName(name) && ListOf(Some(text), d, t[d].kids)
    ensures ParentText(text, name, path) == if Shadowed(t, d, name) then text else ListWith(text, path)
  {
    hide WellFormed, Split, ListOf, Shadowed;
    NameListed(t, d, name, text);
    EmptyNamesNothing(name);
  }

  lemma EmptyNamesNothing(name: string)
    requires name != ""
    ensures name !in Split("", ',')
  {
    SplitOfNone("", ',');
  }

  // ----- A new file -----

  lemma SameNames(p: Path, n: nat)
    ensures U.Names(PathStr(p), n) == ChunkNames(p, n)
  {
    hide PathStr, Dec;
  }

  /** The chunk list is the one a stored file has, unless it was started over. */
  lemma ListAfterIsWhole(p: Path, n: nat)
    requires n >= 1 && ValidPath(p)
    ensures U.ListAfter(PathStr(p), None, n) == Join(ChunkNames(p, n), ',') <==> n == 1 || !Contains(PathStr(p), U.NOT_FOUND)
  {
    var path, names := PathStr(p), ChunkNames(p, n);
    SameNames(p, n);
    PathStrPlain(p);
    hide PathStr, Contains, Split;
    if n > 1 {
      U.NameHasNoComma(path, n);
      hide U.NameOf;
      assert names == names[..n - 1] + [names[n - 1]];
      JoinSnoc(names[..n - 1], names[n - 1], ',');
      var whole, head := Join(names, ','), Join(names[..n - 1], ',');
      assert whole[|head|] == ',';
    }
  }

  lemma UploadedColumn(s: Columns, s2: Columns, s': Columns, t: Tree, d: Path, leaf: string, cs: seq<string>, q: Path, k: Kind)
    requires Stores(s, t) && CanUpload(t, d, leaf) && cs != [] && FileAdded(s, s2, d + [leaf], None, cs) && ValidCol(q, k)
    requires Col(d, List) in s && Differs(s2, s', d, List, Some(ListWith(ListText(s, d), PathStr(d + [leaf]))))
    requires U.ListAfter(PathStr(d + [leaf]), None, |cs|) == Join(ChunkNames(d + [leaf], |cs|), ',')
    ensures
      var u := WithFile(t, d, leaf, cs);
      (q in u ==> Shows(At(s', q, k), u[q], q, k)) && (q !in u ==> Vacant(At(s', q, k), k))
  {
    hide WellFormed, NamesOk, Stores, ListOf, PathStr, ListWith, ListText, ValidCol, At, Join, Tidy, U.ListAfter, Col;
    StoresAt(s, t, q, k);
    if q == d && k == List {
      assert ListOf(At(s, d, List), d, t[d].kids);
      ListWithFile(s, d, t[d].kids, leaf);
    }
  }

  lemma UploadStored(s: Columns, s2: Columns, s': Columns, t: Tree, d: Path, leaf: string, cs: seq<string>)
    requires Stores(s, t) && CanUpload(t, d, leaf) && cs != [] && FileAdded(s, s2, d + [leaf], None, cs)
    requires Col(d, List) in s && Differs(s2, s', d, List, Some(ListWith(ListText(s, d), PathStr(d + [leaf]))))
    requires U.ListAfter(PathStr(d + [leaf]), None, |cs|) == Join(ChunkNames(d + [leaf], |cs|), ',')
    ensures Stores(s', WithFile(t, d, leaf, cs))
  {
    WithFileWellFormed(t, d, leaf, cs);
    var u := WithFile(t, d, leaf, cs);
    assert Tidy(s');
    hide WithFile, ValidCol, WellFormed, At, Shows, Vacant, FileAdded, Differs, CanUpload, Tidy;
    forall q, k | ValidCol(q, k)
      ensures q in u ==> Shows(At(s', q, k), u[q], q, k)
      ensures q !in u ==> Vacant(At(s', q, k), k)
    {
      UploadedColumn(s, s2, s', t, d, leaf, cs, q, k);
    }
  }

  /** The ways an upload goes wrong show in a list column. */
  lemma UploadNotStored(s: Columns, s2: Columns, s': Columns, t: Tree, d: Path, leaf: string, cs: seq<string>)
    requires Stores(s, t) && CanUpload(t, d, leaf) && cs != [] && FileAdded(s, s2, d + [leaf], None, cs)
    requires s' == s2 || (Differs(s2, s', d, List, Some(ListWith(ListText(s, d), PathStr(d + [leaf])))) &&
                          U.ListAfter(PathStr(d + [leaf]), None, |cs|) != Join(ChunkNames(d + [leaf], |cs|), ','))
    ensures !Stores(s', WithFile(t, d, leaf, cs))
  {
    var u, p := WithFile(t, d, leaf, cs), d + [leaf];
    BadLists(s, s2, s', t, d, leaf, cs);
    assert d in u && u[d] == Dir(t[d].kids + [leaf]) && p in u && u[p] == Chunked(cs);
    hide WithFile, CanUpload, ListOf, Col;
    hide WellFormed, NamesOk, Stores, PathStr, ListWith, ListText, ValidCol, At, Join, Tidy, U.ListAfter, FileAdded, Differs, Split;
    if Stores(s', u) {
      StoresAt(s', u, d, List);
      StoresAt(s', u, p, List);
      StoresAt(s, t, d, List);
      OneList(At(s, d, List), d, t[d].kids, leaf);
    }
  }

  lemma OneList(v: Option<string>, d: Path, kids: seq<string>, leaf: string)
    ensures !(ListOf(v, d, kids) && ListOf(v, d, kids + [leaf]))
  {
    hide Split;
    assert |KidPaths(d, kids)| != |KidPaths(d, kids + [leaf])|;
  }

  lemma BadLists(s: Columns, s2: Columns, s': Columns, t: Tree, d: Path, leaf: string, cs: seq<string>)
    requires CanUpload(t, d, leaf) && cs != [] && FileAdded(s, s2, d + [leaf], None, cs)
    requires s' == s2 || Differs(s2, s', d, List, Some(ListWith(ListText(s, d), PathStr(d + [leaf]))))
    ensures ValidCol(d, List) && ValidCol(d + [leaf], List)
    ensures s' == s2 ==> At(s', d, List) == At(s, d, List)
    ensures At(s', d + [leaf], List) == Some(U.ListAfter(PathStr(d + [leaf]), None, |cs|))
  {
    hide WellFormed, PathStr, ListWith, ListText, Tidy, U.ListAfter, Col, NamesOk;
    EntryFacts(t, d);
    assert ValidCol(d, List) && ValidCol(d + [leaf], List);
  }

  lemma NewUploadResult(s: Columns, s2: Columns, s': Columns, t: Tree, d: Path, leaf: string, name: string, cs: seq<string>)
    requires Stores(s, t) && CanUpload(t, d, leaf) && ValidName(name) && cs != [] && FileAdded(s, s2, d + [leaf], None, cs)
    requires
      var c := ListColumn(PathStr(d));
      s' == if c in s2 then s2[c := ParentText(s2[c], name, PathStr(d + [leaf]))] else s2
    ensures Stores(s', WithFile(t, d, leaf, cs)) <==>
              Col(d, List) in s && (|cs| == 1 || !Contains(PathStr(d + [leaf]), U.NOT_FOUND)) && !Shadowed(t, d, name)
  {
    ListAfterIsWhole(d + [leaf], |cs|);
    ParentListKept(s, s2, t, d, leaf, cs);
    hide ListColumn, ParentText, Shadowed;
    NewInParent(s, s2, s', t, d, name, PathStr(d + [leaf]));
    hide Stores, FileAdded, Differs, WellFormed, PathStr, Contains, Join, ListWith, ListText, U.ListAfter, Col, WithFile, NamesOk;
    if Col(d, List) in s && (|cs| == 1 || !Contains(PathStr(d + [leaf]), U.NOT_FOUND)) && !Shadowed(t, d, name) {
      UploadStored(s, s2, s', t, d, leaf, cs);
    } else {
      UploadNotStored(s, s2, s', t, d, leaf, cs);
    }
  }

  lemma ParentListKept(s: Columns, s2: Columns, t: Tree, d: Path, leaf: string, cs: seq<string>)
    requires Stores(s, t) && CanUpload(t, d, leaf) && cs != [] && FileAdded(s, s2, d + [leaf], None, cs)
    ensures At(s2, d, List) == At(s, d, List) && ListOf(At(s, d, List), d, t[d].kids)
  {
    EntryFacts(t, d);
    assert At(s2, d, List) == At(s, d, List);
    hide Stores, PathStr, WellFormed, Tidy, FileAdded, Col, ListOf, NamesOk;
    StoresAt(s, t, d, List);
  }

  // ----- The upload -----

  /** The name that the handler looks for in the folder's list and shows to the user. */
  function ShownName(fileName: string, n: nat): string {
    if n == 0 then fileName else fileName + Number(n)
  }

  /**
   What an upload to target q leaves behind: s are the columns before, s' after it. A target in the folder
   that is new adds the file to the stored tree, exactly when the folder had a list column, the chunk list was not
   started over and the shown name was not found in the root's list. On the name of a folder the folder's
   children are lost; on the name of the root's list, outside the folder, or with no data, every tree.
   */
  ghost predicate UploadDone(s: Columns, s': Columns, t: Tree, d: Path, q: Path, shown: string, data: string)
    requires d in t && t[d].Dir? && |q| == |d| + 1
  {
    && (data == "" || q[..|d|] != d ==> NoTree(s'))
    && (q == CLASH ==> RootLost(s', FILE))
    && (data != "" && q[..|d|] == d ==>
          && (CanUpload(t, d, q[|d|]) ==>
                (Stores(s', WithFile(t, d, q[|d|], U.Chunks(data))) <==>
                   Col(d, List) in s && (|data| <= U.CHUNK_SIZE || !Contains(PathStr(q), U.NOT_FOUND)) && !Shadowed(t, d, shown)))
          && (q in t ==> forall u, m :: Stores(s', u) ==> q + [m] !in u))
    && (data != "" ==> (U.Downloaded(s', PathStr(q)) == data <==> ComesBack(s, PathStr(q), data)))
  }

  /**
   Uploading a file. On the name of a file the name is changed before its first dot, counted from the start of
   the path, until no file has it; without a dot the handler throws before it writes anything.
   */
  method WebUpload(kv: Row, folder: string, fileName: string, data: string, ghost t: Tree, ghost d: Path) returns (threw: bool, n: nat)
    requires Stores(kv.cols, t) && d in t && t[d].Dir? && NamesOk(d + [fileName]) && folder == PathStr(d)
    modifies kv
    ensures threw <==> IsFile(t, d + [fileName]) && DotAt(d + [fileName]) > |d|
    ensures threw ==> kv.cols == old(kv.cols)
    ensures !threw ==>
              && ChosenIn(t, d + [fileName], n)
              && UploadDone(old(kv.cols), kv.cols, t, d, Target(d + [fileName], n), ShownName(fileName, n), data)
  {
    ghost var s, p, cs := kv.cols, d + [fileName], U.Chunks(data);
    UploadReady(s, t, d, fileName);
    var path := if folder == "" then fileName else folder + "/" + fileName;
    hide *;
    ghost var q: Path;
    var newPath;
    threw, newPath, n := ChooseName(kv, path);
    ThrowsWithoutDot(s, t, p);
    if threw { return; }
    q := Target(p, n);
    ChosenOnTree(s, t, p, n);
    PutMarker(kv, newPath, FILE, q);
    ghost var s1 := kv.cols;
    U.StoreChunks(kv, newPath, data);
    ghost var s2 := kv.cols;
    AddToParent(kv, folder, ShownName(fileName, n), newPath);
    UploadResult(s, s1, s2, kv.cols, t, d, fileName, n, data);
  }

  /** The condition for a download to return what was uploaded. */
  ghost predicate ComesBack(s: Columns, path: string, data: string) {
    && (|data| <= U.CHUNK_SIZE || !Contains(path, U.NOT_FOUND))
    && (U.Lead(s, path).Some? ==> U.Silent(s, path, |U.Chunks(data)|, Split(U.Lead(s, path).value, ',')))
  }

  lemma UploadReady(s: Columns, t: Tree, d: Path, leaf: string)
    requires Stores(s, t) && d in t && NamesOk(d + [leaf])
    ensures PathStr(d + [leaf]) == if PathStr(d) == "" then leaf else PathStr(d) + "/" + leaf
    ensures Tidy(s) && ',' !in PathStr(d + [leaf]) && '-' !in PathStr(d + [leaf])
  {
    assert Tidy(s);
    hide PathStr, WellFormed, Stores, NamesOk;
    PathStrPlain(d + [leaf]);
    NewPathStr(s, t, d, leaf);
  }

  /** The update of the folder's list leaves the download alone. */
  lemma DownloadKept(s1: Columns, s2: Columns, s': Columns, d: Path, q: Path, cs: seq<string>)
    requires cs != [] && NamesOk(q) && ValidCol(d, List) && d != q && U.Stored(s1, s2, PathStr(q), cs, |cs|)
    requires
      var c := ListColumn(PathStr(d));
      s' == s2 || (c in s' && s' == s2[c := s'[c]])
    ensures U.Downloaded(s', PathStr(q)) == U.Downloaded(s2, PathStr(q))
  {
    var c, path := ListColumn(PathStr(d)), PathStr(q);
    assert U.ChunkList(path) in s2;
    assert |c| > 0 && c[|c| - 1] == 'a' by { LastOfListColumn(PathStr(d)); }
    assert c != U.ChunkList(path) by { ListColumnsDiffer(d, q); }
    hide U.Stored, ListColumn, U.ChunkList, PathStr, NamesOk, U.Downloaded;
    if s' != s2 {
      U.SameDownload(s2, c, s'[c], path);
    }
  }

  lemma LastOfListColumn(folder: string)
    ensures |ListColumn(folder)| > 0 && ListColumn(folder)[|ListColumn(folder)| - 1] == 'a'
  {
    var c := ListColumn(folder);
    assert folder == "" ==> c[7] == 'a';
    assert folder != "" ==> c[|folder| + 8] == 'a';
  }

  lemma ListColumnsDiffer(d: Path, q: Path)
    requires NamesOk(q) && ValidCol(d, List) && d != q
    ensures ListColumn(PathStr(d)) != U.ChunkList(PathStr(q))
  {
    ListColumnAt(d);
    ColumnNames(q, 0);
    hide PathStr, NamesOk, ListColumn, U.ChunkList, Col, ValidCol;
    if Col(d, List) == Col(q, List) {
      ColInjective(d, List, q, List);
    }
  }

  /** The marker that is written first does not matter for the condition. */
  lemma ComesBackSame(s: Columns, s1: Columns, p: Path, data: string)
    requires s1 == s[PathStr(p) := FILE] && '-' !in PathStr(p)
    ensures ComesBack(s1, PathStr(p), data) <==> ComesBack(s, PathStr(p), data)
  {
    var path := PathStr(p);
    LeadSame(s, s1, path);
    hide PathStr, Contains, Split, U.Lead, U.Chunks;
    forall piece: string ensures piece + "-content" != path { assert (piece + "-content")[|piece|] == '-'; }
    if U.Lead(s, path).Some? {
      SilentSame(s, s1, path, |U.Chunks(data)|, Split(U.Lead(s, path).value, ','));
    }
  }

  lemma SilentSame(s: Columns, s1: Columns, path: string, n: nat, pieces: seq<string>)
    requires s1 == s[path := FILE] && forall piece: string :: piece + "-content" != path
    ensures U.Silent(s1, path, n, pieces) <==> U.Silent(s, path, n, pieces)
  {
    hide U.OwnChunk;
    forall i | 0 <= i < |pieces|
      ensures
        var c := pieces[i] + "-content";
        (c in s1 <==> c in s) && (c in s ==> s1[c] == s[c])
    {
      assert pieces[i] + "-content" != path;
    }
  }

  lemma LeadSame(s: Columns, s1: Columns, path: string)
    requires s1 == s[path := FILE]
    ensures U.Lead(s1, path) == U.Lead(s, path)
  {
    var c := U.ChunkList(path);
    assert c != path;
    hide Contains;
    if c !in s {
      U.MissingSaysNotFound(s, c);
      U.MissingSaysNotFound(s1, c);
    }
  }

  lemma UploadOutcome(s: Columns, s1: Columns, s2: Columns, s': Columns, t: Tree, d: Path, leaf: string, name: string, cs: seq<string>)
    requires Stores(s, t) && d in t && t[d].Dir? && NamesOk(d + [leaf]) && ValidName(name) && cs != [] && s1 == s[PathStr(d + [leaf]) := FILE]
    requires FileAdded(Over(s, d + [leaf], FILE), s2, d + [leaf], U.Lead(s1, PathStr(d + [leaf])), cs)
    requires
      var c := ListColumn(PathStr(d));
      s' == if c in s2 then s2[c := ParentText(s2[c], name, PathStr(d + [leaf]))] else s2
    ensures CanUpload(t, d, leaf) ==>
              (Stores(s', WithFile(t, d, leaf, cs)) <==>
                 Col(d, List) in s && (|cs| == 1 || !Contains(PathStr(d + [leaf]), U.NOT_FOUND)) && !Shadowed(t, d, name))
    ensures d + [leaf] in t ==> forall u, m :: Stores(s', u) ==> d + [leaf] + [m] !in u
  {
    var p := d + [leaf];
    assert p != CLASH ==> Over(s, p, FILE) == s;
    assert CanUpload(t, d, leaf) ==> p != CLASH && p !in t && WellFormed(t);
    hide *;
    StoresWellFormed(s, t);
    FolderCol(t, d);
    ListColumnAt(d);
    if CanUpload(t, d, leaf) {
      NoLead(s, s1, t, d, leaf);
      NewUploadResult(s, s2, s', t, d, leaf, name, cs);
    }
    if p in t {
      PathOfTree(t, p);
      ChildrenLost(s, s2, s', d, leaf, U.Lead(s1, PathStr(p)), cs);
    }
  }

  lemma ListColumnAt(d: Path)
    requires ValidCol(d, List)
    ensures ListColumn(PathStr(d)) == Col(d, List)
  {
    hide NamesOk;
    ListColumnOf(d);
  }

  lemma NoLead(s: Columns, s1: Columns, t: Tree, d: Path, leaf: string)
    requires Stores(s, t) && CanUpload(t, d, leaf) && s1 == s[PathStr(d + [leaf]) := FILE]
    ensures U.Lead(s1, PathStr(d + [leaf])) == None
  {
    var p := d + [leaf];
    ColumnNames(p, 0);
    hide Stores, PathStr, WellFormed, Contains, NamesOk, Col;
    StoresAt(s, t, p, List);
    LeadSame(s, s1, PathStr(p));
    U.MissingSaysNotFound(s, U.ChunkList(PathStr(p)));
  }

  /** A path that is marked as a file has no children in any stored tree. */
  lemma ChildrenLost(s: Columns, s2: Columns, s': Columns, d: Path, leaf: string, lead: Option<string>, cs: seq<string>)
    requires ValidPath(d + [leaf]) && ValidCol(d, List) && cs != [] && FileAdded(s, s2, d + [leaf], lead, cs)
    requires s' == s2 || (Col(d, List) in s' && s' == s2[Col(d, List) := s'[Col(d, List)]])
    ensures forall u, m :: Stores(s', u) ==> d + [leaf] + [m] !in u
  {
    var p := d + [leaf];
    assert At(s', p, Marker) == Some(FILE) by {
      assert ValidCol(p, Marker);
      if s' != s2 {
        AtPut(s2, d, List, s'[Col(d, List)]);
      }
      hide At, NamesOk, Tidy, Col;
    }
    assert ValidCol(p, Marker) && FILE[4] == 'i' && FOLDER[4] == 'o';
    hide FileAdded, Stores, At, NamesOk, ValidCol, ListOf, Col;
    forall u, m | Stores(s', u) ensures p + [m] !in u {
      if p + [m] in u {
        OnlyListed(s', u, p, m);
        StoresAt(s', u, p, Marker);
      }
    }
  }

  lemma UploadClash(s2: Columns, s': Columns, d: Path, q: Path, name: string)
    requires q == CLASH && |q| == |d| + 1 && At(s2, [], List) == Some(FILE) && name == "metadata"
    requires s' == if Col(d, List) in s2 then s2[Col(d, List) := ParentText(s2[Col(d, List)], name, PathStr(q))] else s2
    ensures RootLost(s', FILE)
  {
    assert d == [] && PathStr(CLASH) == "metadata";
    hide PathStr;
    ClashText();
    assert At(s', [], List) == Some(FILE + ",metadata");
    hide At, FILE;
    NoTreeLeft(s', FILE);
  }

  lemma ClashText()
    ensures ParentText(FILE, "metadata", "metadata") == FILE + ",metadata"
  {
    assert ',' !in FILE && |FILE| == 7 && |"metadata"| == 8;
    hide Split;
    SplitOfNone(FILE, ',');
    assert [FILE][0] == FILE;
    assert FILE + "," + "metadata" == FILE + ",metadata";
  }

  // ----- The name that was chosen -----

  /** A file is where its marker says so. */
  lemma FileMarker(s: Columns, t: Tree, p: Path)
    requires Stores(s, t) && NamesOk(p)
    ensures Fetch(s, PathStr(p)) == FILE <==> IsFile(t, p)
  {
    hide Stores, NamesOk, PathStr, Fetch, FILE;
    if p == CLASH {
      assert PathStr(CLASH) == "metadata" by { ClashStr(); }
      RootListIsNoMarker(s, t);
      NoClashEntry(s, t);
    } else {
      PlainMarker(s, t, p);
    }
  }

  lemma ClashStr()
    ensures PathStr(CLASH) == "metadata"
  {
  }

  lemma NoClashEntry(s: Columns, t: Tree)
    requires Stores(s, t)
    ensures CLASH !in t
  {
    assert !ValidPath(CLASH) && CLASH != [];
    hide Stores, ValidPath, CLASH;
    StoresWellFormed(s, t);
  }

  lemma MarkerTexts()
    ensures FILE != FOLDER && FILE != TOMBSTONE && FOLDER != TOMBSTONE && !StartsWith(FILE, "ERR")
  {
    assert FILE[0] == 'K' && "ERR"[0] == 'E' && FILE[4] == 'i' && FOLDER[0] == 'K' && FOLDER[4] == 'o' && TOMBSTONE[0] == 'D';
  }

  lemma PlainMarker(s: Columns, t: Tree, p: Path)
    requires Stores(s, t) && ValidPath(p)
    ensures Fetch(s, PathStr(p)) == FILE <==> IsFile(t, p)
  {
    assert PathStr(p) == Col(p, Marker) && ValidCol(p, Marker);
    MarkerTexts();
    hide PathStr, NamesOk, Stores, Col, FILE, FOLDER, TOMBSTONE, ValidCol, StartsWith;
    StoresAt(s, t, p, Marker);
  }

  lemma RootListIsNoMarker(s: Columns, t: Tree)
    requires Stores(s, t)
    ensures Fetch(s, "metadata") != FILE
  {
    assert Col([], List) == "metadata";
    hide Stores, FILE;
    if Fetch(s, "metadata") == FILE {
      FileIsThere(s, "metadata");
      NotTheMarker(s, t);
    }
  }

  lemma NotTheMarker(s: Columns, t: Tree)
    requires Stores(s, t)
    ensures At(s, [], List) != Some(FILE)
  {
    hide *;
    FileText();
    RootOf(s, t);
    OneItem(FILE);
    if At(s, [], List) == Some(FILE) {
      FirstRootEntry(s, t, FILE);
    }
  }

  lemma FileText()
    ensures ',' !in FILE && FILE != "" && '-' in FILE
  {
    assert FILE[2] == '-';
  }

  lemma OneItem(item: string)
    requires item != "" && ',' !in item
    ensures NonEmpty(Split(item, ',')) == [item]
  {
    hide Split;
    SplitOfNone(item, ',');
  }

  lemma ThrowsWithoutDot(s: Columns, t: Tree, p: Path)
    requires Stores(s, t) && NamesOk(p)
    ensures Fetch(s, PathStr(p)) == FILE <==> IsFile(t, p)
    ensures DOT !in PathStr(p) <==> DotAt(p) > |p| - 1
  {
    hide Stores, NamesOk, PathStr, Fetch;
    FileMarker(s, t, p);
    DotInPath(p);
  }

  lemma ChosenOnTree(s: Columns, t: Tree, p: Path, n: nat)
    requires Stores(s, t) && NamesOk(p) && Chosen(s, PathStr(p), n)
    ensures ChosenIn(t, p, n) && NamesOk(Target(p, n)) && (n > 0 ==> Target(p, n) != CLASH)
    ensures PathStr(Target(p, n)) == if n == 0 then PathStr(p) else Renamed(PathStr(p), n)
  {
    hide Stores, NamesOk, PathStr, Fetch, Renamed, Target;
    FileMarker(s, t, p);
    DotInPath(p);
    assert Target(p, 0) == p by { TargetSelf(p); }
    if n > 0 {
      forall i | 1 <= i <= n ensures Fetch(s, Renamed(PathStr(p), i)) == FILE <==> IsFile(t, Target(p, i)) { TargetMarker(s, t, p, i); }
      TargetStr(p, n);
      NumberedIsNoClash(p, n);
    }
    TargetValid(p, n);
  }

  lemma TargetSelf(p: Path)
    ensures Target(p, 0) == p
  {
  }

  lemma NumberedIsNoClash(p: Path, n: nat)
    requires n > 0 && NamesOk(p) && DotAt(p) < |p|
    ensures Target(p, n) != CLASH
  {
    hide Renamed;
    RenamedValid(p[DotAt(p)], n);
    assert '(' in Target(p, n)[DotAt(p)] && '(' !in CLASH[0];
  }

  lemma TargetMarker(s: Columns, t: Tree, p: Path, i: nat)
    requires Stores(s, t) && NamesOk(p) && i > 0 && DOT in PathStr(p)
    ensures Fetch(s, Renamed(PathStr(p), i)) == FILE <==> IsFile(t, Target(p, i))
  {
    hide Stores, NamesOk, PathStr, Fetch, Renamed, Target;
    TargetStr(p, i);
    TargetValid(p, i);
    FileMarker(s, t, Target(p, i));
  }

  lemma ShownIsValid(fileName: string, n: nat)
    requires ValidName(fileName)
    ensures ValidName(ShownName(fileName, n))
  {
    assert forall x :: x in Number(n) ==> x == '(' || x == ')' || x in Dec(n);
    hide Number;
  }

  // ----- What is left behind -----

  /** The columns that matter for what a tree says about folder d and target q. */
  ghost predicate OneFolderTouched(s: Columns, s2: Columns, d: Path, q: Path)
  {
    && Tidy(s2) && At(s2, q, Marker) == Some(FILE)
    && forall k :: ValidCol(d, k) ==> At(s2, d, k) == At(s, d, k)
  }

  /** A target outside the folder is listed in the folder all the same, and no tree has such a list. */
  lemma Misplaced(s: Columns, s2: Columns, s': Columns, t: Tree, d: Path, q: Path, name: string)
    requires Stores(s, t) && d in t && t[d].Dir? && d != [] && t[d].kids != [] && NamesOk(q) && |q| == |d| + 1 && q[..|d|] != d && ValidName(name)
    requires OneFolderTouched(s, s2, d, q)
    requires
      var c := ListColumn(PathStr(d));
      s' == if c in s2 then s2[c := ParentText(s2[c], name, PathStr(q))] else s2
    ensures NoTree(s')
  {
    var text := ListText(s, d);
    hide *;
    StoresWellFormed(s, t);
    ListIsThere(s, s2, t, d, q);
    NewInParent(s, s2, s', t, d, name, PathStr(q));
    NotInTheRoot(t, d, name);
    forall u ensures !Stores(s', u) { StrayItem(s, s2, s', u, d, q); }
    NoTreeFrom(s');
  }

  lemma NotInTheRoot(t: Tree, d: Path, name: string)
    requires d != []
    ensures !Shadowed(t, d, name)
  {
  }

  lemma ListIsThere(s: Columns, s2: Columns, t: Tree, d: Path, q: Path)
    requires Stores(s, t) && d in t && t[d].Dir? && d != [] && t[d].kids != [] && OneFolderTouched(s, s2, d, q)
    ensures Col(d, List) in s && ValidPath(d) && At(s2, d, List) == At(s, d, List) && ListOf(At(s, d, List), d, t[d].kids)
    ensures At(s2, d, Marker) == Some(FOLDER)
  {
    EntryFacts(t, d);
    assert ValidCol(d, List) && ValidCol(d, Marker);
    hide Stores, WellFormed, NamesOk, Tidy, Col, PathStr;
    StoresAt(s, t, d, List);
    StoresAt(s, t, d, Marker);
  }

  lemma StrayItem(s: Columns, s2: Columns, s': Columns, u: Tree, d: Path, q: Path)
    requires ValidPath(d) && NamesOk(q) && |q| > |d| && q[..|d|] != d && At(s2, d, Marker) == Some(FOLDER)
    requires Differs(s2, s', d, List, Some(ListWith(ListText(s, d), PathStr(q))))
    ensures !Stores(s', u)
  {
    var text := ListText(s, d);
    assert ValidCol(d, List) && ValidCol(d, Marker) && At(s', d, Marker) == Some(FOLDER);
    assert At(s', d, List) == Some(ListWith(text, PathStr(q)));
    hide *;
    if Stores(s', u) {
      FolderStays(s', u, d);
      LastListed(s', u, d, q, text);
    }
  }

  lemma FolderStays(s: Columns, u: Tree, d: Path)
    requires Stores(s, u) && ValidPath(d) && At(s, d, Marker) == Some(FOLDER)
    ensures d in u && u[d].Dir?
  {
    assert ValidCol(d, Marker);
    MarkerTexts();
    hide NamesOk, At, Stores, FOLDER, FILE, TOMBSTONE, ValidCol, StartsWith;
    StoresAt(s, u, d, Marker);
  }

  /** The path that was put at the end of a folder's list is that of its last child. */
  lemma LastListed(s: Columns, u: Tree, d: Path, q: Path, text: string)
    requires Stores(s, u) && ValidPath(d) && NamesOk(q) && d in u && u[d].Dir? && At(s, d, List) == Some(ListWith(text, PathStr(q)))
    ensures u[d].kids != [] && d + [u[d].kids[|u[d].kids| - 1]] == q
  {
    assert ValidCol(d, List);
    hide NamesOk, At, Stores, ListWith, PathStr, Split, WellFormed;
    StoresAt(s, u, d, List);
    StoresWellFormed(s, u);
    PathStrPlain(q);
    ItemsWith(text, PathStr(q));
    var kids := u[d].kids;
    var last := |kids| - 1;
    assert |KidPaths(d, kids)| > 0;
    assert KidPaths(d, kids)[last] == PathStr(q);
    KidIsValid(u, d, last);
    PathStrInjective(d + [kids[last]], q);
  }

  /** Without data the target is a file with neither chunks nor content, which no tree has. */
  lemma EmptyUpload(s: Columns, s2: Columns, s': Columns, t: Tree, d: Path, q: Path)
    requires Stores(s, t) && ValidPath(q) && !IsFile(t, q) && ValidCol(d, List) && d != q
    requires MarkerWritten(s, s2, q, FILE)
    requires s' == s2 || (Col(d, List) in s' && s' == s2[Col(d, List) := s'[Col(d, List)]])
    ensures NoTree(s')
  {
    assert ValidCol(q, Marker) && ValidCol(q, List) && ValidCol(q, Content);
    EmptyColumns(s, s2, s', d, q);
    hide *;
    forall u ensures !Stores(s', u) { NoSuchFile(s, s', t, u, q); }
    NoTreeFrom(s');
  }

  lemma EmptyColumns(s: Columns, s2: Columns, s': Columns, d: Path, q: Path)
    requires ValidPath(q) && ValidCol(d, List) && d != q && MarkerWritten(s, s2, q, FILE)
    requires s' == s2 || (Col(d, List) in s' && s' == s2[Col(d, List) := s'[Col(d, List)]])
    ensures At(s', q, Marker) == Some(FILE) && At(s', q, List) == At(s, q, List) && At(s', q, Content) == At(s, q, Content)
  {
    assert ValidCol(q, Marker) && ValidCol(q, List) && ValidCol(q, Content);
    if s' != s2 {
      AtPut(s2, d, List, s'[Col(d, List)]);
    }
    hide At, ValidCol, NamesOk, Tidy, Col;
  }

  lemma NoSuchFile(s: Columns, s': Columns, t: Tree, u: Tree, q: Path)
    requires Stores(s, t) && ValidPath(q) && !IsFile(t, q)
    requires At(s', q, Marker) == Some(FILE) && At(s', q, List) == At(s, q, List) && At(s', q, Content) == At(s, q, Content)
    ensures !Stores(s', u)
  {
    assert ValidCol(q, Marker) && ValidCol(q, List) && ValidCol(q, Content);
    MarkerTexts();
    hide At, NamesOk, Stores, Col, ValidCol, FOLDER, FILE, TOMBSTONE, Tidy, ListOf, WellFormed;
    StoresAt(s, t, q, List);
    StoresAt(s, t, q, Content);
    if Stores(s', u) {
      StoresAt(s', u, q, Marker);
      StoresAt(s', u, q, List);
      StoresAt(s', u, q, Content);
      StoresWellFormed(s', u);
      StoresWellFormed(s, t);
      EntryFacts(u, q);
      if q in t {
        ChunksAreNoKids(t, q, |u[q].chunks|);
      }
    }
  }

  lemma ChunksAreNoKids(t: Tree, q: Path, n: nat)
    requires WellFormed(t) && q in t && t[q].Dir? && ValidPath(q) && n > 0
    ensures !ListOf(Some(Join(ChunkNames(q, n), ',')), q, t[q].kids)
  {
    var kids := t[q].kids;
    var text := Join(ChunkNames(q, n), ',');
    FileListSplits(Chunked(seq(n, i => "")), q);
    assert Split(text, ',')[0] == ChunkName(q, 1);
    assert '-' in ChunkName(q, 1) by { assert ChunkName(q, 1)[|PathStr(q)|] == '-'; }
    hide Split, Join, ChunkName, WellFormed, NamesOk;
    if ListOf(Some(text), q, kids) {
      assert Split(text, ',')[0] in NonEmpty(Split(text, ','));
      var i :| 0 <= i < |kids| && KidPaths(q, kids)[i] == ChunkName(q, 1);
      hide PathStr;
      KidIsValid(t, q, i);
      PathStrPlain(q + [kids[i]]);
    }
  }

  lemma TidyStore(s: Columns, t: Tree)
    requires Stores(s, t)
    ensures Tidy(s)
  {
    hide WellFormed, Below;
  }

  lemma TargetIsFree(t: Tree, d: Path, fileName: string, n: nat)
    requires d in t && t[d].Dir? && ChosenIn(t, d + [fileName], n) && NamesOk(Target(d + [fileName], n))
    ensures
      var q := Target(d + [fileName], n);
      && !IsFile(t, q) && d != q && |q| == |d| + 1 && (q != CLASH ==> ValidPath(q))
  {
    TargetSelf(d + [fileName]);
    hide Target, DotAt;
  }

  /** A target outside the folder is one with a number, in a folder that has the file it was uploaded as. */
  lemma OutsideFacts(t: Tree, d: Path, fileName: string, n: nat)
    requires WellFormed(t) && d in t && t[d].Dir? && ChosenIn(t, d + [fileName], n) && Target(d + [fileName], n)[..|d|] != d
    ensures d != [] && t[d].kids != []
  {
    var p := d + [fileName];
    assert n > 0 by { assert n == 0 ==> Target(p, n) == p; }
    hide Target, DotAt, Renamed;
    assert IsFile(t, p) && Parent(p) == d && Name(p) == fileName;
    hide WellFormed;
    EntryFacts(t, p);
  }

  lemma StoredNothing(s1: Columns, s2: Columns, path: string, cs: seq<string>)
    requires cs == [] && U.Stored(s1, s2, path, cs, |cs|)
    ensures s2 == s1
  {
  }

  lemma LostIsNoTree(s: Columns)
    requires RootLost(s, FILE)
    ensures NoTree(s)
  {
    hide Stores, FILE;
  }

  lemma LastName(d: Path, q: Path)
    requires |q| == |d| + 1 && q[..|d|] == d
    ensures q == d + [q[|d|]]
  {
  }

  lemma ClashMarker(s: Columns, s1: Columns, s2: Columns, cs: seq<string>)
    requires MarkerWritten(s, s1, CLASH, FILE) && Tidy(s) && U.Stored(s1, s2, PathStr(CLASH), cs, |cs|)
    ensures At(s2, [], List) == Some(FILE)
  {
    hide *;
    RootListWritten(s, s1);
    if cs == [] {
      StoredNothing(s1, s2, PathStr(CLASH), cs);
    } else {
      FileColumn(s1, s2, CLASH, cs, [], List);
    }
  }

  lemma RootListWritten(s: Columns, s1: Columns)
    requires MarkerWritten(s, s1, CLASH, FILE)
    ensures At(s1, [], List) == Some(FILE) && NamesOk(CLASH) && ValidCol([], List) && CLASH != []
  {
    assert NamesOk(CLASH) && ValidCol([], List) && CLASH != [];
    hide At, Tidy, FILE, CLASH, NamesOk, ValidCol;
  }

  lemma ClashIsTheName(d: Path, fileName: string)
    requires d + [fileName] == CLASH
    ensures fileName == "metadata"
  {
    assert (d + [fileName])[|d|] == fileName && |d + [fileName]| == |d| + 1;
  }

  lemma TouchedOnce(s: Columns, s1: Columns, s2: Columns, d: Path, q: Path, cs: seq<string>)
    requires Tidy(s) && MarkerWritten(s, s1, q, FILE) && ValidPath(q) && q != d && d != [] && U.Stored(s1, s2, PathStr(q), cs, |cs|)
    ensures OneFolderTouched(s, s2, d, q)
  {
    assert ValidCol(q, Marker);
    if cs == [] {
      StoredNothing(s1, s2, PathStr(q), cs);
      hide At, NamesOk, U.Stored, FILE;
    } else {
      MarkerThenChunks(s, s1, s2, q, cs);
      assert Over(s, q, FILE) == s;
      hide At, NamesOk, U.Stored, FILE, MarkerWritten, Over;
    }
  }

  lemma DownloadResult(s: Columns, s1: Columns, s2: Columns, s': Columns, d: Path, q: Path, data: string)
    requires data != "" && NamesOk(q) && ValidCol(d, List) && d != q && s1 == s[PathStr(q) := FILE]
    requires U.Stored(s1, s2, PathStr(q), U.Chunks(data), |U.Chunks(data)|)
    requires
      var c := ListColumn(PathStr(d));
      s' == s2 || (c in s' && s' == s2[c := s'[c]])
    ensures U.Downloaded(s', PathStr(q)) == data <==> ComesBack(s, PathStr(q), data)
  {
    var cs := U.Chunks(data);
    assert cs != [];
    hide U.Stored, U.Downloaded, U.Chunks, U.Lead, U.Silent, Split, Contains, PathStr, NamesOk, ListColumn, ValidCol, FILE;
    PathStrPlain(q);
    U.UploadThenDownload(s1, s2, PathStr(q), data);
    DownloadKept(s1, s2, s', d, q, cs);
    ComesBackSame(s, s1, q, data);
  }

  /** All of it together. */
  lemma UploadResult(s: Columns, s1: Columns, s2: Columns, s': Columns, t: Tree, d: Path, fileName: string, n: nat, data: string)
    requires Stores(s, t) && d in t && t[d].Dir? && NamesOk(d + [fileName]) && ChosenIn(t, d + [fileName], n)
    requires
      var q, cs := Target(d + [fileName], n), U.Chunks(data);
      && NamesOk(q) && (n > 0 ==> q != CLASH) && (n == 0 ==> q == d + [fileName])
      && s1 == s[PathStr(q) := FILE] && MarkerWritten(s, s1, q, FILE) && U.Stored(s1, s2, PathStr(q), cs, |cs|)
      && (var c := ListColumn(PathStr(d));
          s' == if c in s2 then s2[c := ParentText(s2[c], ShownName(fileName, n), PathStr(q))] else s2)
    ensures UploadDone(s, s', t, d, Target(d + [fileName], n), ShownName(fileName, n), data)
  {
    var q, cs, name := Target(d + [fileName], n), U.Chunks(data), ShownName(fileName, n);
    assert data == "" <==> cs == [];
    assert |cs| == 1 <==> data != "" && |data| <= U.CHUNK_SIZE;
    assert |q| == |d| + 1 && (n == 0 ==> name == fileName);
    assert ValidName(fileName) by { assert (d + [fileName])[|d|] == fileName; }
    hide *;
    ShownIsValid(fileName, n);
    StoresWellFormed(s, t);
    FolderCol(t, d);
    ListColumnAt(d);
    TidyStore(s, t);
    TargetIsFree(t, d, fileName, n);
    if q == CLASH {
      ClashIsTheName(d, fileName);
      ClashMarker(s, s1, s2, cs);
      UploadClash(s2, s', d, q, name);
      LostIsNoTree(s');
    } else {
      if data == "" {
        StoredNothing(s1, s2, PathStr(q), cs);
        EmptyUpload(s, s2, s', t, d, q);
      }
      if q[..|d|] != d {
        OutsideFacts(t, d, fileName, n);
        TouchedOnce(s, s1, s2, d, q, cs);
        Misplaced(s, s2, s', t, d, q, name);
      }
    }
    if data != "" {
      DownloadResult(s, s1, s2, s', d, q, data);
      if q[..|d|] == d {
        LastName(d, q);
        MarkerThenChunks(s, s1, s2, q, cs);
        UploadOutcome(s, s1, s2, s', t, d, q[|d|], name, cs);
      }
    }
    DoneFrom(s, s', t, d, q, name, data);
  }

  lemma DoneFrom(s: Columns, s': Columns, t: Tree, d: Path, q: Path, shown: string, data: string)
    requires d in t && t[d].Dir? && |q| == |d| + 1
    requires data == "" || q[..|d|] != d ==> NoTree(s')
    requires q == CLASH ==> RootLost(s', FILE)
    requires data != "" && q[..|d|] == d ==>
               && (CanUpload(t, d, q[|d|]) ==>
                     (Stores(s', WithFile(t, d, q[|d|], U.Chunks(data))) <==>
                        Col(d, List) in s && (|data| <= U.CHUNK_SIZE || !Contains(PathStr(q), U.NOT_FOUND)) && !Shadowed(t, d, shown)))
               && (q in t ==> forall u, m :: Stores(s', u) ==> q + [m] !in u)
    requires data != "" ==> (U.Downloaded(s', PathStr(q)) == data <==> ComesBack(s, PathStr(q), data))
    ensures UploadDone(s, s', t, d, q, shown, data)
  {
    hide Stores, WithFile, CanUpload, Contains, Col, NoTree, RootLost, PathStr, Shadowed, ComesBack, U.Downloaded, U.Chunks;
  }
}
