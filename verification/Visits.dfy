/**
 What a recursion over the child lists sees of a stored tree, shared by moving and deleting.
 */
module Visits {
  import opened Options
  import opened Text
  import opened FileTree
  import opened KvRow

  // ----- Lists that read like an error -----

  /** The list column is there and its text starts as an error does. */
  ghost predicate ErrText(v: Option<string>) {
    v.Some? && StartsWith(v.value, "ERR")
  }

  /** No list at or below p starts with the text that the code takes for a failed read. */
  ghost predicate NoErrLists(s: Columns, t: Tree, p: Path) {
    forall q :: q in t && p <= q ==> !ErrText(At(s, q, List))
  }

  lemma ErrListHasAKid(s: Columns, t: Tree, q: Path)
    requires q in t && ErrText(At(s, q, List)) && Shows(At(s, q, List), t[q], q, List) && !t[q].Chunked?
    ensures t[q].Dir? && t[q].kids != []
  {
    var text := At(s, q, List).value;
    var items := Split(text, ',');
    JoinOfSplit(text, ',');
    JoinStartsWithErr(items);
    assert items[0] in NonEmpty(items);
  }

  // ----- Paths and children -----

  ghost predicate Apart(p: Path, p': Path) {
    !(p <= p') && !(p' <= p)
  }

  lemma ApartDiffer(p: Path, p': Path)
    requires Apart(p, p')
    ensures p != p' && !(p <= p') && !(p' <= p)
  {
  }

  lemma PrefixesMeet(p: Path, p': Path, q: Path)
    ensures p <= q && p' <= q ==> p <= p' || p' <= p
  {
    if p <= q && p' <= q {
      assert p == q[..|p|] && p' == q[..|p'|];
      if |p| <= |p'| {
        assert p'[..|p|] == p;
      } else {
        assert p[..|p'|] == p';
      }
    }
  }

  lemma PrefixOfKid(p: Path, n: string, q: Path)
    ensures p + [n] <= q ==> p <= q && |p| < |q| && q[|p|] == n && q != p
  {
    if p + [n] <= q {
      assert q[..|p| + 1] == p + [n];
      assert q[|p|] == (p + [n])[|p|];
      assert q[..|p|] == (p + [n])[..|p|];
    }
  }

  lemma ParentLists(t: Tree, q: Path)
    requires WellFormed(t) && q in t && q != []
    ensures
      var parent := q[..|q| - 1];
      parent in t && t[parent].Dir? && q[|q| - 1] in t[parent].kids
  {
    hide ValidPath, Distinct;
    assert Listed(t, q);
  }

  /** Everything below a folder lies below one of its children. */
  lemma {:induction false} BelowAKid(t: Tree, p: Path, q: Path)
    requires WellFormed(t) && q in t && p <= q && p != q
    ensures p in t && t[p].Dir? && q[|p|] in t[p].kids && p + [q[|p|]] in t && p + [q[|p|]] <= q
    decreases |q|
  {
    hide WellFormed;
    var parent := q[..|q| - 1];
    ParentLists(t, q);
    if parent != p {
      assert p <= parent && parent[|p|] == q[|p|];
      BelowAKid(t, p, parent);
    } else {
      assert q == parent + [q[|p|]];
    }
    assert q[..|p| + 1] == p + [q[|p|]];
  }

  lemma OnlyItself(t: Tree, p: Path, q: Path)
    requires WellFormed(t) && p in t && !t[p].Dir? && q in t && p <= q
    ensures q == p
  {
    hide WellFormed;
    if q != p {
      BelowAKid(t, p, q);
    }
  }

  lemma KidIsValid(t: Tree, p: Path, i: nat)
    requires WellFormed(t) && p in t && t[p].Dir? && i < |t[p].kids|
    ensures
      var c := p + [t[p].kids[i]];
      c in t && ValidPath(c) && ValidName(t[p].kids[i]) && (p != [] ==> c[0] == p[0])
  {
    var c := p + [t[p].kids[i]];
    assert c in t && ValidPath(c);
    assert c[|p|] == t[p].kids[i];
  }

  // ----- Files -----

  ghost predicate HasFile(s: Columns, e: Entry, p: Path) {
    !e.Dir? && (e.Chunked? ==> e.chunks != []) && forall k :: ValidCol(p, k) ==> Shows(At(s, p, k), e, p, k)
  }

  lemma FileListSplits(e: Entry, p: Path)
    requires ValidPath(p) && e.Chunked? && e.chunks != []
    ensures Split(Join(ChunkNames(p, |e.chunks|), ','), ',') == ChunkNames(p, |e.chunks|)
    ensures NotErrNamed(p) ==> !StartsWith(Join(ChunkNames(p, |e.chunks|), ','), "ERR")
    ensures Join(ChunkNames(p, |e.chunks|), ',') != ""
  {
    var cs := ChunkNames(p, |e.chunks|);
    PathStrPlain(p);
    forall i | 0 <= i < |cs| ensures ',' !in cs[i] { }
    SplitOfJoin(cs, ',');
    assert Split("", ',') == [""];
    assert cs[0] != "";
    if NotErrNamed(p) && StartsWith(Join(cs, ','), "ERR") {
      JoinStartsWithErr(cs);
      ChunkNameErr(p);
    }
  }

  lemma ChunkNameErr(p: Path)
    requires ValidPath(p) && StartsWith(ChunkName(p, 1), "ERR")
    ensures !NotErrNamed(p)
  {
    PathStrPlain(p);
    var a, c := PathStr(p), ChunkName(p, 1);
    assert c[..3] == "ERR" && forall i :: 0 <= i < |a| ==> c[i] == a[i];
    assert c[|a|] == '-';
    assert a[..3] == c[..3];
    if NotErrNamed(p) {
      StartsWithErr(p);
    }
  }

  lemma ListStrings(p: Path)
    requires NamesOk(p)
    ensures PathStr(p) + "-metadata" == Col(p, List) && ValidCol(p, List)
    ensures PathStr(p) == Col(p, Marker) && (p != CLASH ==> ValidCol(p, Marker))
    ensures PathStr(p) + "-content" == Col(p, Content) && ValidCol(p, Content)
  {
    hide PathStr;
  }

  lemma ChunkStrings(p: Path, i: nat)
    requires NamesOk(p)
    ensures |PathStr(p)| <= |ChunkName(p, i)| && ChunkName(p, i)[|PathStr(p)|..] == "-" + Dec(i)
    ensures ChunkName(p, i) == PathStr(p) + ("-" + Dec(i))
    ensures ChunkName(p, i) + "-content" == Col(p, Chunk(i)) && ValidCol(p, Chunk(i))
  {
    hide PathStr, Dec;
    assert PathStr(p) + ("-" + Dec(i)) + "-content" == PathStr(p) + ("-" + Dec(i) + "-content");
  }

  lemma ChunkListRead(s: Columns, e: Entry, p: Path)
    requires ValidPath(p) && HasFile(s, e, p) && e.Chunked?
    ensures At(s, p, List).Some? && Split(At(s, p, List).value, ',') == ChunkNames(p, |e.chunks|)
  {
    hide PathStr, Split, Join;
    FileListSplits(e, p);
    assert ValidCol(p, List);
  }

  /** The code tells a chunked file from a single one by reading its list. */
  lemma FileListRead(s: Columns, e: Entry, p: Path)
    requires ValidPath(p) && HasFile(s, e, p)
    ensures
      var v, err := Fetch(s, Col(p, List)), ErrText(At(s, p, List));
      && (v != "" && !StartsWith(v, "ERR") <==> e.Chunked? && !err)
      && (err ==> e.Chunked?) && (!err ==> e.Chunked? || e.Single?)
      && (e.Chunked? ==> At(s, p, List) == Some(v))
  {
    hide PathStr, Split, Join, Col, StartsWith;
    assert ValidCol(p, List);
    if e.Chunked? {
      FileListSplits(e, p);
    }
  }

  /** What the code reads at a path of the tree. */
  lemma EntryRead(s: Columns, t: Tree, c: Path)
    requires WellFormed(t) && c in t && ValidPath(c) && Below(s, t, c)
    ensures Fetch(s, PathStr(c)) == (if t[c].Dir? then FOLDER else FILE)
    ensures !t[c].Dir? ==> HasFile(s, t[c], c)
  {
    hide PathStr, ListOf, Join;
    assert c <= c && ValidCol(c, Marker) && Col(c, Marker) == PathStr(c);
    assert Shows(At(s, c, Marker), t[c], c, Marker);
    assert forall k :: ValidCol(c, k) ==> Shows(At(s, c, k), t[c], c, k);
  }

  // ----- What a recursion comes to -----

  /** The old columns of an entry that moved away: a folder leaves a tombstone. */
  ghost function Left(e: Entry, k: Kind): Option<string> {
    if e.Dir? && k == Marker then Some(TOMBSTONE) else None
  }

  /** The recursion from p comes to q: no folder on the way has a list that reads like an error. */
  ghost predicate Seen(s: Columns, p: Path, q: Path) {
    p <= q && forall n :: |p| <= n < |q| ==> !ErrText(At(s, q[..n], List))
  }

  /** The columns of an entry that was deleted; a chunk list that reads like an error stays, with its chunks. */
  ghost function Gone(s: Columns, e: Entry, q: Path, k: Kind): Option<string> {
    if e.Chunked? && ErrText(At(s, q, List)) && (k.List? || k.Chunk?) then At(s, q, k) else Left(e, k)
  }

  /** The children that the recursion follows. */
  ghost function Live(s: Columns, t: Tree, p: Path): seq<string>
    requires p in t && t[p].Dir?
  {
    if ErrText(At(s, p, List)) then [] else t[p].kids
  }

  lemma SeenSelf(s: Columns, p: Path)
    ensures Seen(s, p, p)
  {
  }

  lemma SeenIsBelow(s: Columns, p: Path, q: Path)
    ensures Seen(s, p, q) ==> p <= q
  {
  }

  lemma SeenThroughKid(s: Columns, p: Path, q: Path)
    requires p <= q && p != q
    ensures Seen(s, p, q) <==> !ErrText(At(s, p, List)) && Seen(s, p + [q[|p|]], q)
  {
    hide At;
    assert q[..|p|] == p && q[..|p| + 1] == p + [q[|p|]];
  }

  ghost predicate Passed(s: Columns, t: Tree, p: Path, ks: seq<string>, j: nat, q: Path)
    requires j <= |ks|
  {
    q in t && p <= q && (q == p || (q[|p|] in ks[..j] && Seen(s, p + [q[|p|]], q)))
  }

  lemma KidNotPassed(s: Columns, t: Tree, p: Path, ks: seq<string>, j: nat, q: Path)
    requires j < |ks| && Distinct(ks) && p + [ks[j]] <= q
    ensures p <= q && q != p && q[|p|] == ks[j] && !Passed(s, t, p, ks, j, q)
  {
    assert q[..|p| + 1] == p + [ks[j]];
    assert q[..|p|] == p;
    assert ks[j] !in ks[..j];
  }

  lemma PassedNext(s: Columns, t: Tree, p: Path, ks: seq<string>, j: nat, q: Path)
    requires j < |ks|
    ensures Passed(s, t, p, ks, j + 1, q) <==> Passed(s, t, p, ks, j, q) || (q in t && Seen(s, p + [ks[j]], q))
  {
    hide At, ErrText;
    assert ks[..j + 1] == ks[..j] + [ks[j]];
    if p + [ks[j]] <= q {
      assert q[..|p| + 1] == p + [ks[j]];
      assert q[..|p|] == p;
    }
  }

  lemma EntryKept(s: Columns, t: Tree, p: Path, q: Path, k: Kind)
    requires WellFormed(t) && Below(s, t, p) && q in t && p <= q && q != [] && ValidCol(q, k)
    ensures Shows(At(s, q, k), t[q], q, k)
  {
  }

}
