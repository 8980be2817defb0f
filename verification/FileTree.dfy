/**
 How a tree of folders and files lies in the columns of one row.

 A path is the sequence of names from the root. Folder p has a marker column and a comma-joined list
 of its children's paths; a file has a marker, a comma-joined list of chunk names, and one content
 column per chunk. `Stores` is the invariant that ties the columns to an abstract tree.
 */
module FileTree {
  import opened Options
  import opened Text

  type Columns = map<string, string>
  type Path = seq<string>

  /** A folder with its children in list order, a file kept in chunks, or a file kept in one column. */
  datatype Entry = Dir(kids: seq<string>) | Chunked(chunks: seq<string>) | Single(content: string)

  type Tree = map<Path, Entry>

  const FOLDER := "KV-Folder"
  const FILE := "KV-File"
  const TOMBSTONE := "DEL KV-Folder"

  // ----- Names of columns -----

  ghost predicate ValidName(n: string) {
    n != "" && '-' !in n && ',' !in n && '/' !in n
  }

  /** The root entry whose marker column is the root's child list. */
  const CLASH: Path := ["metadata"]

  ghost predicate NamesOk(p: Path) {
    p != [] && forall i :: 0 <= i < |p| ==> ValidName(p[i])
  }

  /** A path below the root whose columns cannot be taken for the root's child list. */
  ghost predicate ValidPath(p: Path) {
    NamesOk(p) && p != CLASH
  }

  function PathStr(p: Path): string {
    Join(p, '/')
  }

  datatype Kind = Marker | List | Content | Chunk(i: nat)

  function Suffix(k: Kind): string {
    match k
    case Marker => ""
    case List => "-metadata"
    case Content => "-content"
    case Chunk(i) => "-" + Dec(i) + "-content"
  }

  /** The root's child list is the column "metadata"; every other column is a path and a suffix. */
  function Col(p: Path, k: Kind): string {
    if p == [] && k == List then "metadata" else PathStr(p) + Suffix(k)
  }

  ghost predicate ValidCol(p: Path, k: Kind) {
    (NamesOk(p) && !(p == CLASH && k == Marker)) || (p == [] && k == List)
  }

  function ChunkName(p: Path, i: nat): string {
    PathStr(p) + "-" + Dec(i)
  }

  lemma PathStrChild(p: Path, n: string)
    ensures PathStr(p + [n]) == if p == [] then n else PathStr(p) + "/" + n
  {
    JoinSnoc(p, n, '/');
  }

  lemma PathStrPlain(p: Path)
    requires NamesOk(p)
    ensures '-' !in PathStr(p) && ',' !in PathStr(p) && PathStr(p) != ""
    ensures Split(PathStr(p), '/') == p
  {
    JoinLacks(p, '/', '-');
    JoinLacks(p, '/', ',');
    assert Split("", '/') == [""];
    SplitOfJoin(p, '/');
  }

  lemma PathStrInjective(p: Path, q: Path)
    requires NamesOk(p) && NamesOk(q) && PathStr(p) == PathStr(q)
    ensures p == q
  {
    PathStrPlain(p);
    PathStrPlain(q);
  }

  lemma SuffixInjective(j: Kind, k: Kind)
    requires Suffix(j) == Suffix(k)
    ensures j == k
  {
    if j.Chunk? {
      assert Suffix(j)[1] == Dec(j.i)[0];
    }
    if k.Chunk? {
      assert Suffix(k)[1] == Dec(k.i)[0];
    }
    if j.Chunk? && k.Chunk? {
      assert |Dec(j.i)| == |Suffix(j)| - 9 && |Dec(k.i)| == |Suffix(k)| - 9;
      assert Suffix(j)[1..|Suffix(j)| - 8] == Dec(j.i) && Suffix(k)[1..|Suffix(k)| - 8] == Dec(k.i);
      DecInjective(j.i, k.i);
    }
  }

  /** The part of a column name before its first dash is the path. */
  lemma ColSplits(p: Path, k: Kind)
    requires NamesOk(p)
    ensures
      var c := Col(p, k);
      IndexOf(c, '-') == |PathStr(p)| && c[..|PathStr(p)|] == PathStr(p) && c[|PathStr(p)|..] == Suffix(k)
  {
    var a, b := PathStr(p), Suffix(k);
    PathStrPlain(p);
    assert forall i :: 0 <= i < |a| ==> (a + b)[i] == a[i] && a[i] in a;
    assert k != Marker ==> (a + b)[|a|] == '-';
  }

  lemma NotTheRootList(p: Path, k: Kind)
    requires NamesOk(p) && !(p == CLASH && k == Marker)
    ensures Col(p, k) != "metadata"
  {
    hide PathStr, Col;
    ColSplits(p, k);
    if Col(p, k) == "metadata" {
      var c := Col(p, k);
      assert '-' !in c && '/' !in c;
      assert k == Marker by { assert |c| == |PathStr(p)| && Suffix(k) == ""; }
      hide IndexOf, Suffix;
      assert c[..|PathStr(p)|] == c;
      PathStrPlain(p);
      SplitOfNone(c, '/');
    }
  }

  /** Different paths or different kinds never share a column. */
  lemma ColInjective(p: Path, j: Kind, q: Path, k: Kind)
    requires ValidCol(p, j) && ValidCol(q, k) && Col(p, j) == Col(q, k)
    ensures p == q && j == k
  {
    assert Col([], List) == "metadata" && !NamesOk([]);
    hide PathStr, Suffix, Col, NamesOk;
    if p == [] || q == [] {
      if p != [] {
        NotTheRootList(p, j);
      }
      if q != [] {
        NotTheRootList(q, k);
      }
    } else {
      ColSplits(p, j);
      ColSplits(q, k);
      PathStrInjective(p, q);
      SuffixInjective(j, k);
    }
  }

  // ----- Reading columns by path and kind -----

  ghost function At(cols: Columns, p: Path, k: Kind): Option<string> {
    if Col(p, k) in cols then Some(cols[Col(p, k)]) else None
  }

  /** Every column belongs to some path. */
  ghost predicate Tidy(cols: Columns) {
    forall c :: c in cols ==> Named(c)
  }

  ghost predicate Named(c: string) {
    exists p, k :: ValidCol(p, k) && c == Col(p, k)
  }

  lemma AtPut(cols: Columns, p: Path, k: Kind, v: string)
    requires ValidCol(p, k)
    ensures forall q, j :: ValidCol(q, j) ==>
              At(cols[Col(p, k) := v], q, j) == if q == p && j == k then Some(v) else At(cols, q, j)
    ensures Tidy(cols) ==> Tidy(cols[Col(p, k) := v])
  {
    hide Col, ValidCol;
    forall q, j | ValidCol(q, j)
      ensures At(cols[Col(p, k) := v], q, j) == if q == p && j == k then Some(v) else At(cols, q, j)
    {
      if Col(q, j) == Col(p, k) {
        ColInjective(q, j, p, k);
      }
    }
    assert Named(Col(p, k));
  }

  lemma AtDelete(cols: Columns, p: Path, k: Kind)
    requires ValidCol(p, k)
    ensures forall q, j :: ValidCol(q, j) ==>
              At(cols - {Col(p, k)}, q, j) == if q == p && j == k then None else At(cols, q, j)
    ensures Tidy(cols) ==> Tidy(cols - {Col(p, k)})
  {
    hide Col, ValidCol;
    forall q, j | ValidCol(q, j)
      ensures At(cols - {Col(p, k)}, q, j) == if q == p && j == k then None else At(cols, q, j)
    {
      if Col(q, j) == Col(p, k) {
        ColInjective(q, j, p, k);
      }
    }
  }

  // ----- Trees -----

  ghost predicate Distinct(xs: seq<string>) {
    forall i, j :: 0 <= i < j < |xs| ==> xs[i] != xs[j]
  }

  /** Folders name exactly their children, and every path has a folder above it that names it. */
  ghost predicate WellFormed(t: Tree) {
    && [] in t && t[[]].Dir?
    && (forall p :: p in t && p != [] ==> ValidPath(p) && Listed(t, p))
    && (forall p :: p in t && t[p].Dir? ==> Distinct(t[p].kids))
    && (forall p, n :: p in t && t[p].Dir? && n in t[p].kids ==> p + [n] in t)
    && (forall p :: p in t && t[p].Chunked? ==> t[p].chunks != [])
  }

  ghost predicate Listed(t: Tree, p: Path)
    requires p != []
  {
    var parent := p[..|p| - 1];
    parent in t && t[parent].Dir? && p[|p| - 1] in t[parent].kids
  }

  ghost function KidPaths(p: Path, kids: seq<string>): (ps: seq<string>)
    ensures |ps| == |kids| && forall i :: 0 <= i < |kids| ==> ps[i] == PathStr(p + [kids[i]])
  {
    seq(|kids|, i requires 0 <= i < |kids| => PathStr(p + [kids[i]]))
  }

  ghost function ChunkNames(p: Path, n: nat): (cs: seq<string>)
    ensures |cs| == n && forall i :: 0 <= i < n ==> cs[i] == ChunkName(p, i + 1)
  {
    seq(n, i requires 0 <= i < n => ChunkName(p, i + 1))
  }

  function NonEmpty(items: seq<string>): (r: seq<string>)
    ensures forall i :: 0 <= i < |items| && items[i] != "" ==> items[i] in r
    ensures forall x :: x in r ==> x != "" && x in items
  {
    if items == [] then []
    else if items[0] == "" then NonEmpty(items[1..])
    else [items[0]] + NonEmpty(items[1..])
  }

  lemma {:induction false} NonEmptyConcat(xs: seq<string>, ys: seq<string>)
    ensures NonEmpty(xs + ys) == NonEmpty(xs) + NonEmpty(ys)
    decreases |xs|
  {
    if xs == [] {
      assert xs + ys == ys;
    } else {
      assert (xs + ys)[1..] == xs[1..] + ys;
      NonEmptyConcat(xs[1..], ys);
    }
  }

  /** A child list: the column may be missing for an empty folder, and empty items do not count. */
  ghost predicate ListOf(v: Option<string>, p: Path, kids: seq<string>) {
    match v
    case None => kids == []
    case Some(text) => NonEmpty(Split(text, ',')) == KidPaths(p, kids)
  }

  /** The value of column k of a path that holds entry e. */
  ghost predicate Shows(v: Option<string>, e: Entry, p: Path, k: Kind) {
    match k
    case Marker => v == Some(if e.Dir? then FOLDER else FILE)
    case List =>
      (match e
       case Dir(kids) => ListOf(v, p, kids)
       case Chunked(cs) => v == Some(Join(ChunkNames(p, |cs|), ','))
       case Single(_) => v == None)
    case Content => v == if e.Single? then Some(e.content) else None
    case Chunk(i) => v == if e.Chunked? && 1 <= i <= |e.chunks| then Some(e.chunks[i - 1]) else None
  }

  /** The columns of everything at or below path p are as the tree says. */
  ghost predicate Below(cols: Columns, t: Tree, p: Path) {
    forall q, k :: q in t && p <= q && ValidCol(q, k) ==> Shows(At(cols, q, k), t[q], q, k)
  }

  /** A path that is not in the tree has no columns, but for the tombstone of a folder that was there. */
  ghost predicate Vacant(v: Option<string>, k: Kind) {
    v == None || (k == Marker && v == Some(TOMBSTONE))
  }

  /** The columns hold exactly the tree. */
  ghost predicate Stores(cols: Columns, t: Tree) {
    && WellFormed(t) && Tidy(cols)
    && Below(cols, t, [])
    && forall q, k :: q !in t && ValidCol(q, k) ==> Vacant(At(cols, q, k), k)
  }

  /** The top-level name does not start with the text that marks a failed read. */
  ghost predicate NotErrNamed(p: Path) {
    p != [] && !StartsWith(p[0], "ERR")
  }

  lemma StartsWithErr(p: Path)
    requires NamesOk(p) && NotErrNamed(p)
    ensures !StartsWith(PathStr(p), "ERR")
  {
    var n, s := p[0], PathStr(p);
    if |p| > 1 {
      assert s == n + ['/'] + PathStr(p[1..]);
      assert s[|n|] == '/' && forall i :: 0 <= i < |n| ==> s[i] == n[i];
    }
    assert "ERR"[0] == 'E' && "ERR"[1] == 'R' && "ERR"[2] == 'R';
  }

  /** A joined list starts as its first item does. */
  lemma JoinStartsWithErr(items: seq<string>)
    requires |items| >= 1 && StartsWith(Join(items, ','), "ERR") && ',' !in items[0]
    ensures StartsWith(items[0], "ERR")
  {
    var s := Join(items, ',');
    assert s[..3] == "ERR";
    if |items| > 1 {
      assert forall i :: 0 <= i < |items[0]| ==> s[i] == items[0][i];
      assert s[|items[0]|] == ',';
    }
    assert items[0][..3] == s[..3];
  }
}
