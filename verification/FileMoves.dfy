/**
 Moving one file's columns to new names, on its own or as part of a folder.

 On a stored file the result is known column by column. On any store whose lists name only their own
 path's children and chunks, the move at least stays within the two paths, or throws.
 */
module FileMoves {
  import opened Options
  import opened Text
  import opened FileTree
  import opened KvRow
  import opened Visits

  // ----- Lists that stay within their path -----

  ghost predicate IsKid(q: Path, item: string) {
    exists n :: ValidName(n) && item == PathStr(q + [n])
  }

  ghost predicate IsChunk(q: Path, item: string) {
    exists i: nat :: item == ChunkName(q, i)
  }

  ghost predicate OwnItem(q: Path, item: string) {
    item == "" || IsKid(q, item) || IsChunk(q, item)
  }

  ghost predicate OwnItems(q: Path, items: seq<string>) {
    forall i :: 0 <= i < |items| ==> OwnItem(q, items[i])
  }

  ghost predicate KidItems(q: Path, items: seq<string>) {
    forall i :: 0 <= i < |items| ==> items[i] == "" || IsKid(q, items[i])
  }

  ghost predicate OwnList(q: Path, v: Option<string>) {
    v.Some? ==> OwnItems(q, Split(v.value, ','))
  }

  ghost predicate KidList(q: Path, v: Option<string>) {
    v.Some? ==> KidItems(q, Split(v.value, ','))
  }

  /** Below the root every list names only its own path's children and chunks, and a folder's only children. */
  ghost predicate Confined(s: Columns) {
    && Tidy(s)
    && (forall q :: NamesOk(q) ==> OwnList(q, At(s, q, List)))
    && (forall q :: ValidPath(q) && At(s, q, Marker) == Some(FOLDER) ==> KidList(q, At(s, q, List)))
  }

  lemma ConfinedAt(s: Columns, q: Path)
    requires Confined(s) && NamesOk(q)
    ensures OwnList(q, At(s, q, List))
    ensures ValidPath(q) && At(s, q, Marker) == Some(FOLDER) ==> KidList(q, At(s, q, List))
    ensures Tidy(s)
  {
  }

  /** The target may be the one path whose marker is the root's list; writing the marker then changes that list. */
  ghost function Over(s: Columns, p': Path, v: string): Columns {
    if p' == CLASH then s[Col([], List) := v] else s
  }

  lemma AtOver(s: Columns, p': Path, v: string)
    ensures forall q, k :: ValidCol(q, k) ==>
              At(Over(s, p', v), q, k) == if p' == CLASH && q == [] then Some(v) else At(s, q, k)
    ensures Tidy(s) ==> Tidy(Over(s, p', v))
  {
    assert ValidCol([], List);
    AtPut(s, [], List, v);
    hide Col, NamesOk, Tidy;
  }

  /** The marker column of p' was written. */
  ghost predicate MarkerWritten(s: Columns, s': Columns, p': Path, v: string) {
    && (Tidy(s) ==> Tidy(s'))
    && forall q, k :: ValidCol(q, k) ==>
         At(s', q, k) == if p' == CLASH && q == [] then Some(v)
                         else if p' != CLASH && q == p' && k == Marker then Some(v)
                         else At(s, q, k)
  }

  method PutMarker(kv: Row, newAbs: string, v: string, ghost p': Path)
    requires NamesOk(p') && newAbs == PathStr(p')
    modifies kv
    ensures kv.cols == old(kv.cols)[newAbs := v] && MarkerWritten(old(kv.cols), kv.cols, p', v)
  {
    ghost var s := kv.cols;
    ListStrings(p');
    assert p' == CLASH ==> newAbs == Col([], List) && ValidCol([], List);
    hide PathStr, Col, NamesOk, Tidy, At;
    kv.Put(newAbs, v, if p' == CLASH then [] else p', if p' == CLASH then List else Marker);
  }

  /** Nothing outside p and p' has changed. */
  ghost predicate Framed(s: Columns, s': Columns, p: Path, p': Path) {
    && Tidy(s')
    && forall q, k :: ValidCol(q, k) && !(p <= q) && !(p' <= q) ==> At(s', q, k) == At(s, q, k)
  }

  // ----- What becomes of a file -----

  /** The columns at q of entry e, which landed there from path r, over what was there. */
  ghost function Landed(s: Columns, e: Entry, r: Path, q: Path, k: Kind): Option<string> {
    var err := ErrText(At(s, r, List));
    match k
    case Marker => Some(if e.Dir? then FOLDER else FILE)
    case List =>
      (match e
       case Dir(kids) => Some(Join(KidPaths(q, if err then [] else kids), ','))
       case Chunked(cs) => if err then At(s, q, k) else Some(Join(ChunkNames(q, |cs|), ','))
       case Single(_) => At(s, q, k))
    case Content =>
      if e.Single? then Some(e.content) else if e.Chunked? && err then Some(NO_COLUMN) else At(s, q, k)
    case Chunk(i) =>
      if e.Chunked? && !err && 1 <= i <= |e.chunks| then Some(e.chunks[i - 1]) else At(s, q, k)
  }

  /** File e has gone from p and landed at p'; moved onto itself, it is just gone. */
  ghost predicate FileLanded(s: Columns, s': Columns, e: Entry, p: Path, p': Path) {
    && Tidy(s')
    && forall q, k :: ValidCol(q, k) ==>
         At(s', q, k) == if q == p then Gone(s, e, q, k) else if q == p' then Landed(s, e, p, q, k) else At(s, q, k)
  }

  /** As FileLanded, with the markers still to come. */
  ghost predicate BodyLanded(s: Columns, s': Columns, e: Entry, p: Path, p': Path) {
    && Tidy(s')
    && forall q, k :: ValidCol(q, k) ==>
         At(s', q, k) ==
         if k == Marker then At(s, q, k)
         else if q == p then Gone(s, e, q, k) else if q == p' then Landed(s, e, p, q, k) else At(s, q, k)
  }

  // ----- The chunks -----

  ghost function AfterChunks(s: Columns, e: Entry, p: Path, p': Path, n: nat, q: Path, k: Kind): Option<string>
    requires e.Chunked? && n <= |e.chunks|
  {
    if k.Chunk? && 1 <= k.i <= n && q == p then None
    else if k.Chunk? && 1 <= k.i <= n && q == p' then Some(e.chunks[k.i - 1])
    else At(s, q, k)
  }

  ghost predicate ChunksMoved(s: Columns, s': Columns, e: Entry, p: Path, p': Path, n: nat) {
    && e.Chunked? && n <= |e.chunks| && Tidy(s')
    && forall q, k :: ValidCol(q, k) ==> At(s', q, k) == AfterChunks(s, e, p, p', n, q, k)
  }

  /** Only contents have changed, and only within p and p'. */
  ghost predicate ContentsOnly(s: Columns, s': Columns, p: Path, p': Path) {
    && Tidy(s')
    && forall q, k :: ValidCol(q, k) && !((p <= q || p' <= q) && (k.Content? || k.Chunk?)) ==> At(s', q, k) == At(s, q, k)
  }

  lemma ChunkItem(p: Path, p': Path, i: nat)
    requires NamesOk(p) && NamesOk(p')
    ensures
      var item, newItem := ChunkName(p, i), ChunkName(p', i);
      && |PathStr(p)| <= |item| && PathStr(p') + item[|PathStr(p)|..] == newItem
      && item + "-content" == Col(p, Chunk(i)) && newItem + "-content" == Col(p', Chunk(i))
      && OwnItem(p', newItem) && newItem != "" && ',' !in newItem
  {
    hide Col, Dec, NamesOk;
    ChunkStrings(p, i);
    ChunkStrings(p', i);
    PathStrPlain(p');
    assert IsChunk(p', ChunkName(p', i));
    hide PathStr;
  }

  lemma KidItem(p: Path, p': Path, n: string)
    requires NamesOk(p) && NamesOk(p') && ValidName(n)
    ensures
      var item, newItem := PathStr(p + [n]), PathStr(p' + [n]);
      && NamesOk(p + [n]) && NamesOk(p' + [n])
      && |PathStr(p)| <= |item| && PathStr(p') + item[|PathStr(p)|..] == newItem
      && item + "-content" == Col(p + [n], Content) && newItem + "-content" == Col(p' + [n], Content)
      && OwnItem(p', newItem) && newItem != "" && ',' !in newItem
  {
    assert NamesOk(p + [n]) && NamesOk(p' + [n]);
    hide Col, NamesOk, PathStr, ValidName;
    ListStrings(p + [n]);
    ListStrings(p' + [n]);
    PathStrPlain(p' + [n]);
    assert IsKid(p', PathStr(p' + [n]));
    PathStrChild(p, n);
    PathStrChild(p', n);
    Slash(PathStr(p), PathStr(p'), n) by { assert p != [] && p' != [] by { NotTheRoot(p); NotTheRoot(p'); } }
  }

  lemma NotTheRoot(p: Path)
    requires NamesOk(p)
    ensures p != []
  {
  }

  lemma Slash(a: string, b: string, n: string)
    ensures |a| <= |a + "/" + n| && b + (a + "/" + n)[|a|..] == b + "/" + n
  {
    assert (a + "/" + n)[|a|..] == "/" + n;
  }

  /** The content columns that an item stands for, before and after. */
  lemma ItemColumns(p: Path, p': Path, item: string) returns (q: Path, q': Path, k: Kind)
    requires NamesOk(p) && NamesOk(p') && OwnItem(p, item) && item != ""
    ensures |PathStr(p)| <= |item| && p <= q && p' <= q' && (k.Content? || k.Chunk?)
    ensures NamesOk(q) && NamesOk(q') && item + "-content" == Col(q, k)
    ensures
      var newItem := PathStr(p') + item[|PathStr(p)|..];
      newItem + "-content" == Col(q', k) && OwnItem(p', newItem) && newItem != "" && ',' !in newItem
    ensures IsChunk(p, item) ==> q == p && q' == p'
  {
    hide PathStr, Col, NamesOk, ValidName;
    if IsChunk(p, item) {
      var i: nat :| item == ChunkName(p, i);
      ChunkItem(p, p', i);
      q, q', k := p, p', Chunk(i);
    } else {
      var n :| ValidName(n) && item == PathStr(p + [n]);
      KidItem(p, p', n);
      q, q', k := p + [n], p' + [n], Content;
    }
    hide OwnItem, ChunkName;
  }

  lemma ContentsStep(s: Columns, s1: Columns, s2: Columns, s': Columns, p: Path, p': Path, q: Path, q': Path, k: Kind, v: string)
    requires ContentsOnly(s, s1, p, p') && p <= q && p' <= q' && (k.Content? || k.Chunk?)
    requires Differs(s1, s2, q', k, Some(v)) && Differs(s2, s', q, k, None)
    ensures ContentsOnly(s, s', p, p')
  {
    hide At, ValidCol, Tidy;
  }

  /** The chunk loop; an item that is too short makes the code throw. */
  method MoveChunks(kv: Row, oldAbs: string, newAbs: string, chunks: seq<string>,
                    ghost ok: bool, ghost e: Entry, ghost p: Path, ghost p': Path) returns (threw: bool, newChunks: seq<string>)
    requires NamesOk(p) && NamesOk(p') && oldAbs == PathStr(p) && newAbs == PathStr(p') && Tidy(kv.cols) && OwnItems(p, chunks)
    requires ok ==> HasFile(kv.cols, e, p) && e.Chunked? && chunks == ChunkNames(p, |e.chunks|)
    modifies kv
    ensures ContentsOnly(old(kv.cols), kv.cols, p, p')
    ensures !threw ==> |newChunks| == |chunks| && NewItems(p', newChunks)
    ensures ok ==> !threw && newChunks == ChunkNames(p', |chunks|) && ChunksMoved(old(kv.cols), kv.cols, e, p, p', |chunks|)
  {
    assert OwnItems(p, chunks) ==> forall i :: 0 <= i < |chunks| ==> OwnItem(p, chunks[i]);
    hide *;
    PathStrPlain(p);
    ghost var s := kv.cols;
    StartChunks(s, e, p, p');
    newChunks := [];
    NoNewItems(p');
    for j := 0 to |chunks|
      invariant ContentsOnly(s, kv.cols, p, p')
      invariant |newChunks| == j && NewItems(p', newChunks)
      invariant ok ==> newChunks == ChunkNames(p', j) && ChunksMoved(s, kv.cols, e, p, p', j)
    {
      if ok {
        ChunkStrings(p, j + 1);
      }
      if |chunks[j]| < |oldAbs| {
        return true, newChunks;
      }
      var newChunk := MoveChunk(kv, oldAbs, newAbs, chunks[j], ok, s, e, p, p', j);
      NewItemsSnoc(p', newChunks, newChunk);
      newChunks := newChunks + [newChunk];
    }
    threw := false;
  }

  /** Items of a list that is to be written at p'. */
  ghost predicate NewItems(p': Path, items: seq<string>) {
    forall i :: 0 <= i < |items| ==> OwnItem(p', items[i]) && ',' !in items[i]
  }

  lemma NoNewItems(p': Path)
    ensures NewItems(p', [])
  {
  }

  lemma NewItemsSnoc(p': Path, items: seq<string>, item: string)
    requires NewItems(p', items) && OwnItem(p', item) && ',' !in item
    ensures NewItems(p', items + [item])
    ensures forall j: nat :: items == ChunkNames(p', j) && item == ChunkName(p', j + 1) ==> items + [item] == ChunkNames(p', j + 1)
  {
    hide OwnItem, ChunkName;
  }

  method MoveChunk(kv: Row, oldAbs: string, newAbs: string, chunk: string,
                   ghost ok: bool, ghost s: Columns, ghost e: Entry, ghost p: Path, ghost p': Path, ghost j: nat) returns (newChunk: string)
    requires NamesOk(p) && NamesOk(p') && oldAbs == PathStr(p) && newAbs == PathStr(p') && OwnItem(p, chunk) && chunk != ""
    requires |oldAbs| <= |chunk| && ContentsOnly(s, kv.cols, p, p')
    requires ok ==> HasFile(s, e, p) && e.Chunked? && j < |e.chunks| && chunk == ChunkName(p, j + 1) && ChunksMoved(s, kv.cols, e, p, p', j)
    modifies kv
    ensures ContentsOnly(s, kv.cols, p, p') && OwnItem(p', newChunk) && ',' !in newChunk
    ensures ok ==> newChunk == ChunkName(p', j + 1) && ChunksMoved(s, kv.cols, e, p, p', j + 1)
  {
    hide *;
    ghost var s1 := kv.cols;
    newChunk := newAbs + chunk[|oldAbs|..];
    var content := kv.Get(chunk + "-content");
    ghost var q, q', k := ItemColumns(p, p', chunk);
    ColumnIsValid(q, q', k);
    kv.Put(newChunk + "-content", content, q', k);
    ghost var s2 := kv.cols;
    kv.Delete(chunk + "-content", q, k);
    ContentsStep(s, s1, s2, kv.cols, p, p', q, q', k, content);
    if ok {
      ChunkStep(s, s1, s2, kv.cols, e, p, p', j, content, q, q', k);
    }
  }

  lemma ColumnIsValid(q: Path, q': Path, k: Kind)
    requires NamesOk(q) && NamesOk(q') && (k.Content? || k.Chunk?)
    ensures ValidCol(q, k) && ValidCol(q', k)
  {
  }

  lemma StartChunks(s: Columns, e: Entry, p: Path, p': Path)
    requires Tidy(s)
    ensures ContentsOnly(s, s, p, p') && (e.Chunked? ==> ChunksMoved(s, s, e, p, p', 0))
  {
    hide Tidy, At;
  }

  /** One chunk of a stored file. */
  lemma ChunkStep(s: Columns, s1: Columns, s2: Columns, s': Columns, e: Entry, p: Path, p': Path, j: nat,
                  content: string, q: Path, q': Path, k: Kind)
    requires NamesOk(p) && NamesOk(p') && HasFile(s, e, p) && ChunksMoved(s, s1, e, p, p', j) && j < |e.chunks|
    requires content == Fetch(s1, ChunkName(p, j + 1) + "-content")
    requires NamesOk(q) && ChunkName(p, j + 1) + "-content" == Col(q, k) && (k.Content? || k.Chunk?)
    requires IsChunk(p, ChunkName(p, j + 1)) ==> q == p && q' == p'
    requires Differs(s1, s2, q', k, Some(content)) && Differs(s2, s', q, k, None)
    ensures ChunksMoved(s, s', e, p, p', j + 1)
    ensures PathStr(p') + ChunkName(p, j + 1)[|PathStr(p)|..] == ChunkName(p', j + 1)
  {
    assert IsChunk(p, ChunkName(p, j + 1));
    hide PathStr, Dec, Col, NamesOk, ChunkName, HasFile, ChunksMoved, Differs;
    ChunkItem(p, p', j + 1);
    assert k == Chunk(j + 1) by { ColumnIsValid(q, q, k); ColumnIsValid(p, p, Chunk(j + 1)); ColInjective(q, k, p, Chunk(j + 1)); }
    ChunkStillThere(s, s1, e, p, p', j);
    NextChunkMoved(s, s1, s2, s', e, p, p', j);
  }

  lemma ChunkStillThere(s: Columns, s1: Columns, e: Entry, p: Path, p': Path, j: nat)
    requires NamesOk(p) && HasFile(s, e, p) && ChunksMoved(s, s1, e, p, p', j) && j < |e.chunks|
    ensures Fetch(s1, Col(p, Chunk(j + 1))) == e.chunks[j]
  {
    assert ValidCol(p, Chunk(j + 1));
    hide Col, ValidCol, Tidy, ListOf, NamesOk;
    assert Shows(At(s, p, Chunk(j + 1)), e, p, Chunk(j + 1));
    assert At(s1, p, Chunk(j + 1)) == AfterChunks(s, e, p, p', j, p, Chunk(j + 1));
  }

  lemma NextChunkMoved(s: Columns, s1: Columns, s2: Columns, s': Columns, e: Entry, p: Path, p': Path, j: nat)
    requires ChunksMoved(s, s1, e, p, p', j) && j < |e.chunks|
    requires Differs(s1, s2, p', Chunk(j + 1), Some(e.chunks[j])) && Differs(s2, s', p, Chunk(j + 1), None)
    ensures ChunksMoved(s, s', e, p, p', j + 1)
  {
    hide At, ValidCol, Tidy;
  }

  // ----- The body -----

  /** Lists and markers elsewhere are untouched; the new list names what belongs to p'. */
  ghost predicate BodyFramed(s: Columns, s': Columns, p: Path, p': Path) {
    && Tidy(s')
    && (forall q, k :: ValidCol(q, k) && !(p <= q) && !(p' <= q) ==> At(s', q, k) == At(s, q, k))
    && (forall q :: ValidCol(q, Marker) ==> At(s', q, Marker) == At(s, q, Marker))
    && (forall q :: NamesOk(q) ==> At(s', q, List) == At(s, q, List) || (q == p && At(s', q, List) == None) || (q == p' && OwnList(p', At(s', q, List))))
  }

  lemma ListsPut(s: Columns, s1: Columns, s2: Columns, s': Columns, p: Path, p': Path, list: string)
    requires NamesOk(p) && NamesOk(p') && ContentsOnly(s, s1, p, p') && OwnList(p', Some(list))
    requires Differs(s1, s2, p', List, Some(list)) && Differs(s2, s', p, List, None)
    ensures BodyFramed(s, s', p, p')
  {
    hide At, Tidy, OwnList;
    assert forall q :: NamesOk(q) ==> ValidCol(q, List);
    hide NamesOk, ValidCol;
  }

  lemma NewListIsOwn(p': Path, items: seq<string>)
    requires items != [] && NewItems(p', items)
    ensures OwnList(p', Some(Join(items, ',')))
  {
    hide OwnItem;
    SplitOfJoin(items, ',');
  }

  lemma ListAndChunksLanded(s: Columns, s1: Columns, s2: Columns, s': Columns, e: Entry, p: Path, p': Path)
    requires HasFile(s, e, p) && e.Chunked? && !ErrText(At(s, p, List)) && ChunksMoved(s, s1, e, p, p', |e.chunks|)
    requires Differs(s1, s2, p', List, Some(Join(ChunkNames(p', |e.chunks|), ','))) && Differs(s2, s', p, List, None)
    ensures BodyLanded(s, s', e, p, p')
  {
    hide At, ValidCol, Tidy, Join, ListOf, ErrText;
  }

  method MoveListedBody(kv: Row, oldAbs: string, newAbs: string, fileMeta: string,
                        ghost ok: bool, ghost e: Entry, ghost p: Path, ghost p': Path) returns (threw: bool)
    requires ValidPath(p) && NamesOk(p') && oldAbs == PathStr(p) && newAbs == PathStr(p') && Tidy(kv.cols)
    requires At(kv.cols, p, List) == Some(fileMeta) && OwnList(p, Some(fileMeta))
    requires ok ==> HasFile(kv.cols, e, p) && e.Chunked? && !ErrText(At(kv.cols, p, List))
    modifies kv
    ensures Framed(old(kv.cols), kv.cols, p, p')
    ensures !threw ==> BodyFramed(old(kv.cols), kv.cols, p, p')
    ensures ok ==> !threw && BodyLanded(old(kv.cols), kv.cols, e, p, p')
  {
    ListStrings(p);
    ListStrings(p');
    if ok {
      ChunkListRead(kv.cols, e, p);
    }
    ghost var s := kv.cols;
    hide HasFile, ChunksMoved, Tidy, PathStr, NamesOk, ValidCol, At, Col, Differs, BodyLanded, OwnItem, BodyFramed, ContentsOnly, ErrText, Framed;
    var chunks := SplitString(fileMeta, ',');
    var newChunks;
    threw, newChunks := MoveChunks(kv, oldAbs, newAbs, chunks, ok, e, p, p');
    ghost var s1 := kv.cols;
    OnlyContentsFramed(s, s1, p, p');
    if threw {
      return;
    }
    NewListIsOwn(p', newChunks);
    var list := JoinStrings(newChunks, ',');
    kv.Put(newAbs + "-metadata", list, p', List);
    ghost var s2 := kv.cols;
    kv.Delete(oldAbs + "-metadata", p, List);
    ListsPut(s, s1, s2, kv.cols, p, p', list);
    BodyFramedIsFramed(s, kv.cols, p, p');
    if ok {
      ListAndChunksLanded(s, s1, s2, kv.cols, e, p, p');
    }
  }

  lemma OnlyContentsFramed(s: Columns, s': Columns, p: Path, p': Path)
    requires ContentsOnly(s, s', p, p')
    ensures Framed(s, s', p, p')
  {
    hide At, ValidCol, Tidy;
  }

  lemma BodyFramedIsFramed(s: Columns, s': Columns, p: Path, p': Path)
    requires BodyFramed(s, s', p, p')
    ensures Framed(s, s', p, p')
  {
    hide At, ValidCol, Tidy, OwnList, NamesOk;
  }

  ghost predicate ContentMoved(s: Columns, s': Columns, p: Path, p': Path) {
    && Tidy(s')
    && forall q, k :: ValidCol(q, k) ==>
         At(s', q, k) ==
         if k == Content && q == p then None
         else if k == Content && q == p' then Some(Fetch(s, Col(p, Content)))
         else At(s, q, k)
  }

  method MoveContent(kv: Row, oldAbs: string, newAbs: string, ghost p: Path, ghost p': Path)
    requires NamesOk(p) && NamesOk(p') && oldAbs == PathStr(p) && newAbs == PathStr(p') && Tidy(kv.cols)
    modifies kv
    ensures ContentMoved(old(kv.cols), kv.cols, p, p')
  {
    ListStrings(p);
    ListStrings(p');
    hide *;
    ghost var s := kv.cols;
    var content := kv.Get(oldAbs + "-content");
    kv.Put(newAbs + "-content", content, p', Content);
    ghost var s1 := kv.cols;
    kv.Delete(oldAbs + "-content", p, Content);
    TwoDiffer(s, s1, kv.cols, p, p');
  }

  lemma TwoDiffer(s: Columns, s1: Columns, s': Columns, p: Path, p': Path)
    requires Tidy(s) && Differs(s, s1, p', Content, Some(Fetch(s, Col(p, Content)))) && Differs(s1, s', p, Content, None)
    ensures ContentMoved(s, s', p, p')
  {
    hide Tidy, ValidCol, At, Fetch, Col;
  }

  lemma ContentFramed(s: Columns, s': Columns, p: Path, p': Path)
    requires ContentMoved(s, s', p, p')
    ensures BodyFramed(s, s', p, p')
  {
    hide At, Tidy, OwnList, Fetch, Col;
    assert forall q :: NamesOk(q) ==> ValidCol(q, List);
    hide NamesOk, ValidCol;
  }

  /** A file in one column, or a chunked one whose list is not read: what is found at the content column moves. */
  lemma ContentLanded(s: Columns, s': Columns, e: Entry, p: Path, p': Path)
    requires ValidPath(p) && HasFile(s, e, p) && (e.Single? || ErrText(At(s, p, List))) && ContentMoved(s, s', p, p')
    ensures BodyLanded(s, s', e, p, p')
  {
    assert ValidCol(p, Content) && ValidCol(p, Marker) && ValidCol(p, List);
    assert Shows(At(s, p, Content), e, p, Content) && Shows(At(s, p, Marker), e, p, Marker) && Shows(At(s, p, List), e, p, List);
    assert s != map[];
    assert Fetch(s, Col(p, Content)) == if e.Single? then e.content else NO_COLUMN;
    hide Tidy, ValidPath, ValidCol, At, Fetch, Col, Join, ListOf, ErrText;
  }

  // ----- The whole file -----

  /**
   The part that moving a file on its own and moving it with its folder have in common. `ok` says
   that p holds file e.
   */
  method MoveFileColumns(kv: Row, oldAbs: string, newAbs: string, ghost ok: bool, ghost e: Entry, ghost p: Path, ghost p': Path)
    returns (threw: bool)
    requires ValidPath(p) && NamesOk(p') && oldAbs == PathStr(p) && newAbs == PathStr(p') && Confined(kv.cols)
    requires ok ==> HasFile(kv.cols, e, p)
    modifies kv
    ensures !threw ==> Confined(kv.cols)
    ensures Framed(Over(old(kv.cols), p', FILE), kv.cols, p, p') || (threw && Framed(old(kv.cols), kv.cols, p, p'))
    ensures !threw ==> NoNewFolders(old(kv.cols), kv.cols)
    ensures ok ==> !threw && FileLanded(Over(old(kv.cols), p', FILE), kv.cols, e, p, p')
  {
    ListStrings(p);
    ListStrings(p');
    ConfinedAt(kv.cols, p);
    ghost var s := kv.cols;
    if ok {
      FileListRead(s, e, p);
    }
    hide *;
    hide StartsWith, ErrText;
    var fileMeta := kv.Get(oldAbs + "-metadata");
    if fileMeta != "" && !StartsWith(fileMeta, "ERR") {
      ListIsThere(s, p, fileMeta);
      threw := MoveListedBody(kv, oldAbs, newAbs, fileMeta, ok, e, p, p');
      if threw {
        return;
      }
    } else {
      MoveContent(kv, oldAbs, newAbs, p, p');
      ContentFramed(s, kv.cols, p, p');
      if ok {
        ContentLanded(s, kv.cols, e, p, p');
      }
    }
    ghost var s1 := kv.cols;
    PutMarker(kv, newAbs, FILE, p');
    ghost var s2 := kv.cols;
    kv.Delete(oldAbs, p, Marker);
    FileFramed(s, s1, s2, kv.cols, p, p');
    if ok {
      MarkersLanded(s, s1, s2, kv.cols, e, p, p');
    }
    threw := false;
  }

  lemma ListIsThere(s: Columns, p: Path, v: string)
    requires v == Fetch(s, Col(p, List)) && !StartsWith(v, "ERR") && OwnList(p, At(s, p, List))
    ensures At(s, p, List) == Some(v) && OwnList(p, Some(v)) && !ErrText(At(s, p, List))
  {
    hide Col, OwnList;
  }

  ghost predicate NoNewFolders(s: Columns, s': Columns) {
    forall q :: ValidPath(q) && At(s', q, Marker) == Some(FOLDER) ==> At(s, q, Marker) == Some(FOLDER)
  }

  /** The lists after the file has moved. */
  lemma ListAfterFile(s: Columns, s1: Columns, s2: Columns, s': Columns, p: Path, p': Path, q: Path)
    requires Confined(s) && NamesOk(q) && BodyFramed(s, s1, p, p')
    requires MarkerWritten(s1, s2, p', FILE) && Differs(s2, s', p, Marker, None)
    ensures OwnList(q, At(s', q, List))
    ensures q != p && q != p' ==> At(s', q, List) == At(s, q, List)
  {
    ConfinedAt(s, q);
    assert ValidCol(q, List) && q != [];
    hide Confined, OwnList, Tidy, At, NamesOk, ValidCol;
    NoListIsOwn(q);
  }

  lemma MarkerAfterFile(s: Columns, s1: Columns, s2: Columns, s': Columns, p: Path, p': Path, q: Path)
    requires ValidPath(q) && BodyFramed(s, s1, p, p') && NamesOk(p')
    requires MarkerWritten(s1, s2, p', FILE) && Differs(s2, s', p, Marker, None)
    ensures At(s', q, Marker) == if q == p then None else if q == p' then Some(FILE) else At(s, q, Marker)
  {
    assert ValidCol(q, Marker) && q != [];
    hide OwnList, Tidy, At, NamesOk, ValidCol;
  }

  lemma FramedOver(s: Columns, s1: Columns, s2: Columns, s': Columns, p: Path, p': Path)
    requires Tidy(s) && NamesOk(p) && NamesOk(p') && BodyFramed(s, s1, p, p')
    requires MarkerWritten(s1, s2, p', FILE) && Differs(s2, s', p, Marker, None)
    ensures Framed(Over(s, p', FILE), s', p, p')
  {
    AtOver(s, p', FILE);
    hide Over, OwnList, Tidy, At, NamesOk;
  }

  lemma FileFramed(s: Columns, s1: Columns, s2: Columns, s': Columns, p: Path, p': Path)
    requires Confined(s) && ValidPath(p) && NamesOk(p') && BodyFramed(s, s1, p, p')
    requires MarkerWritten(s1, s2, p', FILE) && Differs(s2, s', p, Marker, None)
    ensures Confined(s') && Framed(Over(s, p', FILE), s', p, p') && NoNewFolders(s, s')
  {
    assert Tidy(s') && FILE[4] == 'i' && FOLDER[4] == 'o';
    FramedOver(s, s1, s2, s', p, p');
    hide BodyFramed, MarkerWritten, Differs, Framed, OwnList, KidList, Tidy, At, NamesOk, FILE, FOLDER;
    forall q | NamesOk(q) ensures OwnList(q, At(s', q, List)) { ListAfterFile(s, s1, s2, s', p, p', q); }
    forall q | ValidPath(q) && At(s', q, Marker) == Some(FOLDER)
      ensures KidList(q, At(s', q, List)) && At(s, q, Marker) == Some(FOLDER)
    {
      MarkerAfterFile(s, s1, s2, s', p, p', q);
      ListAfterFile(s, s1, s2, s', p, p', q);
      ConfinedAt(s, q);
    }
  }

  lemma NoListIsOwn(p: Path)
    ensures OwnList(p, None) && KidList(p, None)
  {
  }

  lemma MarkersLanded(s: Columns, s1: Columns, s2: Columns, s': Columns, e: Entry, p: Path, p': Path)
    requires ValidPath(p) && NamesOk(p') && HasFile(s, e, p) && BodyLanded(s, s1, e, p, p') && Tidy(s)
    requires MarkerWritten(s1, s2, p', FILE) && Differs(s2, s', p, Marker, None)
    ensures FileLanded(Over(s, p', FILE), s', e, p, p')
  {
    assert !e.Dir? && Tidy(s');
    hide HasFile, BodyLanded, MarkerWritten, Differs, Tidy, Over, At, ValidPath, NamesOk, ValidCol, Gone, Landed;
    forall q, k | ValidCol(q, k)
      ensures At(s', q, k) == if q == p then Gone(Over(s, p', FILE), e, q, k)
                              else if q == p' then Landed(Over(s, p', FILE), e, p, q, k) else At(Over(s, p', FILE), q, k)
    {
      MarkerColumn(s, s1, s2, s', e, p, p', q, k);
    }
  }

  lemma MarkerColumn(s: Columns, s1: Columns, s2: Columns, s': Columns, e: Entry, p: Path, p': Path, q: Path, k: Kind)
    requires ValidPath(p) && NamesOk(p') && !e.Dir? && BodyLanded(s, s1, e, p, p') && ValidCol(q, k)
    requires MarkerWritten(s1, s2, p', FILE) && Differs(s2, s', p, Marker, None)
    ensures At(s', q, k) == if q == p then Gone(Over(s, p', FILE), e, q, k)
                            else if q == p' then Landed(Over(s, p', FILE), e, p, q, k) else At(Over(s, p', FILE), q, k)
  {
    assert ValidCol(p, List) && p != [] && p' != [];
    AtOver(s, p', FILE);
    SameBase(s, Over(s, p', FILE), e, p, q, k);
    hide NamesOk, Tidy, Over, At, Join, ErrText, ValidCol;
    assert k == Marker ==> Gone(s, e, q, k) == None && Landed(s, e, p, q, k) == Some(FILE);
    hide Gone, Landed;
  }

  /** What depends on the columns of p and q alone is the same for stores that agree there. */
  lemma SameBase(s: Columns, b: Columns, e: Entry, p: Path, q: Path, k: Kind)
    ensures At(b, p, List) == At(s, p, List) && At(b, q, k) == At(s, q, k) && (q == p ==> At(b, q, List) == At(s, q, List)) ==>
              Landed(b, e, p, q, k) == Landed(s, e, p, q, k) && (q == p ==> Gone(b, e, q, k) == Gone(s, e, q, k))
  {
    hide At, Join, ErrText;
  }
}
