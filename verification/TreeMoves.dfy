/**
 The recursive move of a folder: the columns of a whole subtree are rewritten under new names.

 On a stored tree, when the two paths lie apart or are the same, or nothing lands on what is still to
 be moved, the result is known column by column. In every case that the self-move guard lets through the recursion ends, or throws, and
 stays within the two paths.
 */
module TreeMoves {
  import opened Options
  import opened Text
  import opened FileTree
  import opened KvRow
  import opened Visits
  import opened FileMoves

  // ----- What becomes of a tree -----

  /** Column k of path q after the recursion from p to p': gone where it came by, landed where it brought something. */
  ghost function AfterVisit(s: Columns, t: Tree, p: Path, p': Path, q: Path, k: Kind): Option<string> {
    if q in t && Seen(s, p, q) then Gone(s, t[q], q, k)
    else if p' <= q && p + q[|p'|..] in t && Seen(s, p, p + q[|p'|..]) then Landed(s, t[p + q[|p'|..]], p + q[|p'|..], q, k)
    else At(s, q, k)
  }

  ghost predicate Relocated(s: Columns, s': Columns, t: Tree, p: Path, p': Path) {
    Tidy(s') && forall q, k :: ValidCol(q, k) ==> At(s', q, k) == AfterVisit(s, t, p, p', q, k)
  }

  ghost function AfterKids(s: Columns, t: Tree, p: Path, p': Path, ks: seq<string>, j: nat, q: Path, k: Kind): Option<string>
    requires j <= |ks|
  {
    if Passed(s, t, p, ks, j, q) then Gone(s, t[q], q, k)
    else if p' <= q && Passed(s, t, p, ks, j, p + q[|p'|..]) then Landed(s, t[p + q[|p'|..]], p + q[|p'|..], q, k)
    else At(s, q, k)
  }

  /** Folder p itself is done, and so are the first j of the children ks. */
  ghost predicate KidsLanded(s: Columns, s': Columns, t: Tree, p: Path, p': Path, ks: seq<string>, j: nat) {
    && j <= |ks| && Tidy(s')
    && forall q, k :: ValidCol(q, k) ==> At(s', q, k) == AfterKids(s, t, p, p', ks, j, q, k)
  }

  /**
   The paths that the recursion is proved exact for. Onto an ancestor nothing may land on the way that is
   still to be moved: no entry lies as far below p as p lies below p', by the same names.
   */
  ghost predicate Exact(t: Tree, p: Path, p': Path) {
    Apart(p, p') || p == p' || (p' <= p && p + p[|p'|..] !in t)
  }

  lemma AboveInTree(t: Tree, p: Path, q: Path)
    requires WellFormed(t) && p !in t && p <= q
    ensures q !in t
  {
    hide WellFormed;
    if q in t {
      BelowAKid(t, p, q);
    }
  }

  /** What is at or below p is no target of a move from p, unless it is its own. */
  lemma SourceIsNoTarget(t: Tree, p: Path, p': Path, x: Path)
    requires WellFormed(t) && Exact(t, p, p') && p <= x && p' <= x
    ensures if p == p' then p + x[|p'|..] == x else p + x[|p'|..] !in t
  {
    hide WellFormed;
    PrefixesMeet(p, p', x);
    if p == p' {
      KidArith(p, p', "", x);
    } else if p' <= p {
      assert x[|p'|..] == p[|p'|..] + x[|p|..];
      assert p + p[|p'|..] <= p + x[|p'|..];
      AboveInTree(t, p + p[|p'|..], p + x[|p'|..]);
    }
  }

  // ----- One more child -----

  lemma KidArith(p: Path, p': Path, n: string, q: Path)
    requires p' <= q
    ensures p' + [n] <= q <==> p + [n] <= p + q[|p'|..]
    ensures p' + [n] <= q ==> p + [n] + q[|p' + [n]|..] == p + q[|p'|..]
    ensures p == p' ==> p + q[|p'|..] == q
  {
    var rest := q[|p'|..];
    assert q == p' + rest;
    PrefixOfKid(p', n, q);
    PrefixOfKid(p, n, p + rest);
    if p' + [n] <= q {
      assert rest == [n] + q[|p'| + 1..];
      assert p + rest == p + [n] + q[|p'| + 1..];
    }
    if p + [n] <= p + rest {
      assert rest[0] == n && rest == [n] + rest[1..];
      assert q == p' + [n] + rest[1..];
    }
  }

  lemma BelowIsNotTarget(t: Tree, p: Path, p': Path, c: Path, x: Path)
    requires WellFormed(t) && Exact(t, p, p') && p <= c && c <= x
    ensures p' <= x ==> if p == p' then p + x[|p'|..] == x else p + x[|p'|..] !in t
  {
    hide WellFormed, Exact;
    assert p <= x by { assert x[..|c|] == c && c[..|p|] == p; }
    if p' <= x {
      SourceIsNoTarget(t, p, p', x);
    }
  }

  /** Below the next child nothing has changed yet. */
  lemma KidAsBefore(s: Columns, s1: Columns, t: Tree, p: Path, p': Path, ks: seq<string>, j: nat, x: Path, k: Kind)
    requires WellFormed(t) && KidsLanded(s, s1, t, p, p', ks, j) && j < |ks| && Distinct(ks) && Exact(t, p, p')
    requires p + [ks[j]] <= x && ValidCol(x, k)
    ensures At(s1, x, k) == At(s, x, k)
  {
    assert At(s1, x, k) == AfterKids(s, t, p, p', ks, j, x, k);
    hide At, ValidCol, KidsLanded, Passed, Gone, Landed, Exact, WellFormed, Distinct;
    KidNotPassed(s, t, p, ks, j, x);
    BelowIsNotTarget(t, p, p', p + [ks[j]], x);
    if p' <= x {
      PassedIsBelow(s, t, p, ks, j, p + x[|p'|..]);
    }
  }

  /** So the recursion sees there what it saw at first. */
  lemma KidSeenAsBefore(s: Columns, s1: Columns, t: Tree, p: Path, p': Path, ks: seq<string>, j: nat, x: Path)
    requires WellFormed(t) && KidsLanded(s, s1, t, p, p', ks, j) && j < |ks| && Distinct(ks) && Exact(t, p, p')
    requires p + [ks[j]] <= x && NamesOk(x)
    ensures Seen(s1, p + [ks[j]], x) <==> Seen(s, p + [ks[j]], x)
    ensures At(s1, x, List) == At(s, x, List)
  {
    var c := p + [ks[j]];
    forall n | |c| <= n <= |x| ensures At(s1, x[..n], List) == At(s, x[..n], List) {
      assert c <= x[..n] && ValidCol(x[..n], List);
      hide KidsLanded;
      KidAsBefore(s, s1, t, p, p', ks, j, x[..n], List);
    }
    hide At, ErrText, KidsLanded, Exact;
    assert x[..|x|] == x;
  }

  lemma NextColumn(s: Columns, s1: Columns, s2: Columns, t: Tree, p: Path, p': Path, ks: seq<string>, j: nat, q: Path, k: Kind)
    requires WellFormed(t) && KidsLanded(s, s1, t, p, p', ks, j) && j < |ks| && Distinct(ks) && Exact(t, p, p') && p != []
    requires Relocated(s1, s2, t, p + [ks[j]], p' + [ks[j]]) && ValidCol(q, k)
    ensures At(s2, q, k) == AfterKids(s, t, p, p', ks, j + 1, q, k)
  {
    var c, c' := p + [ks[j]], p' + [ks[j]];
    assert At(s1, q, k) == AfterKids(s, t, p, p', ks, j, q, k);
    assert At(s2, q, k) == AfterVisit(s1, t, c, c', q, k);
    hide At, ErrText, Passed, Tidy, Seen, WellFormed, Relocated, Gone, Landed, ValidCol;
    PassedNext(s, t, p, ks, j, q);
    SeenIsBelow(s, c, q);
    SeenIsBelow(s1, c, q);
    PrefixOfKid(p', ks[j], q);
    if c <= q {
      SourceSame(s, s1, t, p, p', ks, j, q, k);
    }
    if p' <= q {
      var r := p + q[|p'|..];
      KidArith(p, p', ks[j], q);
      PassedNext(s, t, p, ks, j, r);
      SeenIsBelow(s, c, r);
      SeenIsBelow(s1, c, r);
      if c' <= q && r in t {
        TargetSame(s, s1, t, p, p', ks, j, q, k);
      }
    }
  }

  lemma SourceSame(s: Columns, s1: Columns, t: Tree, p: Path, p': Path, ks: seq<string>, j: nat, q: Path, k: Kind)
    requires WellFormed(t) && KidsLanded(s, s1, t, p, p', ks, j) && j < |ks| && Distinct(ks) && Exact(t, p, p') && p != []
    requires p + [ks[j]] <= q && ValidCol(q, k)
    ensures Seen(s1, p + [ks[j]], q) <==> Seen(s, p + [ks[j]], q)
    ensures q in t ==> Gone(s1, t[q], q, k) == Gone(s, t[q], q, k)
    ensures !Passed(s, t, p, ks, j, q) && At(s1, q, k) == At(s, q, k)
  {
    hide KidsLanded, At, Exact, Seen, ErrText, Distinct;
    assert NamesOk(q);
    KidNotPassed(s, t, p, ks, j, q);
    KidSeenAsBefore(s, s1, t, p, p', ks, j, q);
    KidAsBefore(s, s1, t, p, p', ks, j, q, k);
  }

  lemma TargetSame(s: Columns, s1: Columns, t: Tree, p: Path, p': Path, ks: seq<string>, j: nat, q: Path, k: Kind)
    requires WellFormed(t) && KidsLanded(s, s1, t, p, p', ks, j) && j < |ks| && Distinct(ks) && Exact(t, p, p') && p != []
    requires p' + [ks[j]] <= q && ValidCol(q, k) && p' <= q && p + q[|p'|..] in t
    ensures
      var r := p + q[|p'|..];
      && p + [ks[j]] <= r && !Passed(s, t, p, ks, j, r)
      && (Seen(s1, p + [ks[j]], r) <==> Seen(s, p + [ks[j]], r))
      && (p == p' ==> q == r)
      && (p != p' ==> !(p <= q) && Landed(s1, t[r], r, q, k) == Landed(s, t[r], r, q, k))
  {
    hide KidsLanded, WellFormed, At, Passed, Seen, ErrText, Exact, NamesOk, ValidCol, Distinct, Landed, Gone;
    var r := p + q[|p'|..];
    KidArith(p, p', ks[j], q);
    PathOfTree(t, r);
    KidNotPassed(s, t, p, ks, j, r);
    KidSeenAsBefore(s, s1, t, p, p', ks, j, r);
    if p != p' {
      if p <= q {
        SourceIsNoTarget(t, p, p', q);
      }
      TargetAsBefore(s, s1, t, p, p', ks, j, q, k);
      SameBase(s, s1, t[r], r, q, k);
      assert r != q;
    }
  }

  lemma PathOfTree(t: Tree, q: Path)
    requires WellFormed(t) && q in t && q != []
    ensures ValidPath(q) && NamesOk(q)
  {
  }

  /** Where the next child is to land nothing has changed yet. */
  lemma TargetAsBefore(s: Columns, s1: Columns, t: Tree, p: Path, p': Path, ks: seq<string>, j: nat, q: Path, k: Kind)
    requires KidsLanded(s, s1, t, p, p', ks, j) && ValidCol(q, k) && !(p <= q) && p' <= q && !Passed(s, t, p, ks, j, p + q[|p'|..])
    ensures At(s1, q, k) == At(s, q, k)
  {
    assert At(s1, q, k) == AfterKids(s, t, p, p', ks, j, q, k);
    hide At, ValidCol, Passed, Gone, Landed, KidsLanded;
    PassedIsBelow(s, t, p, ks, j, q);
  }

  lemma PassedIsBelow(s: Columns, t: Tree, p: Path, ks: seq<string>, j: nat, q: Path)
    requires j <= |ks|
    ensures Passed(s, t, p, ks, j, q) ==> q in t && p <= q
  {
  }

  /** Moving the next child's subtree extends the children done so far. */
  lemma NextKidLanded(s: Columns, s1: Columns, s2: Columns, t: Tree, p: Path, p': Path, ks: seq<string>, j: nat)
    requires WellFormed(t) && KidsLanded(s, s1, t, p, p', ks, j) && j < |ks| && Distinct(ks) && Exact(t, p, p') && p != []
    requires Relocated(s1, s2, t, p + [ks[j]], p' + [ks[j]])
    ensures KidsLanded(s, s2, t, p, p', ks, j + 1)
  {
    assert Tidy(s2);
    forall q, k | ValidCol(q, k) ensures At(s2, q, k) == AfterKids(s, t, p, p', ks, j + 1, q, k) {
      hide *;
      NextColumn(s, s1, s2, t, p, p', ks, j, q, k);
    }
  }

  // ----- The first and the last step -----

  lemma AllKidsLanded(s: Columns, s': Columns, t: Tree, p: Path, p': Path)
    requires WellFormed(t) && p in t && t[p].Dir? && KidsLanded(s, s', t, p, p', Live(s, t, p), |Live(s, t, p)|)
    ensures Relocated(s, s', t, p, p')
  {
    var ks := Live(s, t, p);
    assert ks[..|ks|] == ks;
    assert forall q, k :: ValidCol(q, k) ==> At(s', q, k) == AfterKids(s, t, p, p', ks, |ks|, q, k);
    hide At, Gone, Landed, Seen, ValidCol, Passed, KidsLanded;
    forall q, k | ValidCol(q, k) ensures At(s', q, k) == AfterVisit(s, t, p, p', q, k) {
      AllPassed(s, t, p, q);
      if p' <= q {
        AllPassed(s, t, p, p + q[|p'|..]);
      }
    }
  }

  lemma AllPassed(s: Columns, t: Tree, p: Path, q: Path)
    requires WellFormed(t) && p in t && t[p].Dir?
    ensures Passed(s, t, p, Live(s, t, p), |Live(s, t, p)|, q) <==> q in t && Seen(s, p, q)
  {
    hide At, ErrText, Seen, WellFormed;
    var ks := Live(s, t, p);
    assert ks[..|ks|] == ks;
    SeenSelf(s, p);
    SeenIsBelow(s, p, q);
    if q in t && p <= q && q != p {
      BelowAKid(t, p, q);
      SeenThroughKid(s, p, q);
    }
  }

  lemma FileRelocated(s: Columns, s': Columns, t: Tree, p: Path, p': Path)
    requires WellFormed(t) && p in t && !t[p].Dir? && FileLanded(s, s', t[p], p, p')
    ensures Relocated(s, s', t, p, p')
  {
    hide At, Gone, Landed, Seen, ValidCol, WellFormed;
    forall q, k | ValidCol(q, k) ensures At(s', q, k) == AfterVisit(s, t, p, p', q, k) {
      OnlySelfSeen(s, t, p, q);
      if p' <= q {
        OnlySelfSeen(s, t, p, p + q[|p'|..]);
        assert p + q[|p'|..] == p <==> q == p' by { assert q == p' + q[|p'|..]; }
      }
    }
  }

  lemma OnlySelfSeen(s: Columns, t: Tree, p: Path, q: Path)
    requires WellFormed(t) && p in t && !t[p].Dir?
    ensures q in t && Seen(s, p, q) <==> q == p
  {
    hide At, ErrText, WellFormed, Seen;
    SeenSelf(s, p);
    SeenIsBelow(s, p, q);
    if q in t && p <= q {
      OnlyItself(t, p, q);
    }
  }

  /** The folder's own four columns. */
  ghost predicate FolderStep(s: Columns, s': Columns, p: Path, p': Path, list: string) {
    && Tidy(s')
    && forall q, k :: ValidCol(q, k) ==>
         At(s', q, k) ==
         if q == p && k == Marker then Some(TOMBSTONE) else if q == p && k == List then None
         else if q == p' && k == Marker then Some(FOLDER) else if q == p' && k == List then Some(list)
         else At(s, q, k)
  }

  lemma FolderSteps(s: Columns, s1: Columns, s2: Columns, s3: Columns, s': Columns, p: Path, p': Path, list: string)
    requires NamesOk(p) && NamesOk(p') && Tidy(s) && MarkerWritten(s, s1, p', FOLDER) && Differs(s1, s2, p', List, Some(list))
    requires Differs(s2, s3, p, Marker, Some(TOMBSTONE)) && Differs(s3, s', p, List, None)
    ensures FolderStep(Over(s, p', FOLDER), s', p, p', list)
  {
    assert p != [] && p' != [] && !ValidCol(CLASH, Marker) && ValidCol([], List);
    AtOver(s, p', FOLDER);
    hide Over, Tidy, At, NamesOk, ValidCol;
  }

  lemma FolderItselfLanded(s: Columns, s': Columns, t: Tree, p: Path, p': Path)
    requires WellFormed(t) && p in t && p != [] && t[p].Dir? && Below(s, t, p)
    requires FolderStep(s, s', p, p', Join(KidPaths(p', Live(s, t, p)), ','))
    ensures KidsLanded(s, s', t, p, p', Live(s, t, p), 0)
  {
    var ks := Live(s, t, p);
    assert Tidy(s');
    forall q, k | ValidCol(q, k) ensures At(s', q, k) == AfterKids(s, t, p, p', ks, 0, q, k) {
      hide *;
      FolderColumnLanded(s, s', t, p, p', q, k);
    }
  }

  lemma FolderColumnLanded(s: Columns, s': Columns, t: Tree, p: Path, p': Path, q: Path, k: Kind)
    requires WellFormed(t) && p in t && p != [] && t[p].Dir? && Below(s, t, p) && ValidCol(q, k)
    requires FolderStep(s, s', p, p', Join(KidPaths(p', Live(s, t, p)), ','))
    ensures At(s', q, k) == AfterKids(s, t, p, p', Live(s, t, p), 0, q, k)
  {
    hide Below, Tidy, Join, At, ValidCol, Seen, WellFormed, ErrText;
    var ks := Live(s, t, p);
    assert ks[..0] == [];
    if q == p {
      FolderColumns(s, t, p, k);
    }
    if p' <= q {
      assert p + q[|p'|..] == p <==> q == p' by { assert q == p' + q[|p'|..]; }
    }
  }

  lemma FolderColumns(s: Columns, t: Tree, p: Path, k: Kind)
    requires p in t && p != [] && t[p].Dir? && Below(s, t, p) && ValidCol(p, k)
    ensures k.Content? || k.Chunk? ==> At(s, p, k) == None
  {
    hide ListOf, At, ValidCol;
    assert p <= p;
  }

  // ----- Reading the child list -----

  /** The items of a child list that recursion follows. */
  function Followed(items: seq<string>, self: string): seq<string> {
    if items == [] then []
    else if items[0] == "" || items[0] == self then Followed(items[1..], self)
    else [items[0]] + Followed(items[1..], self)
  }

  method RemoveEmptyAndSelf(items: seq<string>, self: string) returns (kept: seq<string>)
    ensures kept == Followed(items, self)
  {
    kept := [];
    for i := 0 to |items|
      invariant kept + Followed(items[i..], self) == Followed(items, self)
    {
      assert items[i..][0] == items[i] && items[i..][1..] == items[i + 1..];
      if items[i] != "" && items[i] != self {
        kept := kept + [items[i]];
      }
    }
  }

  /** The last segments of the items. */
  function NamesIn(items: seq<string>): (ns: seq<string>)
    ensures |ns| == |items| && forall i :: 0 <= i < |items| ==> ns[i] == AfterLast(items[i], '/')
  {
    seq(|items|, i requires 0 <= i < |items| => AfterLast(items[i], '/'))
  }

  lemma {:induction false} FollowedMembers(items: seq<string>, self: string)
    ensures forall x :: x in Followed(items, self) ==> x in items && x != "" && x != self
    decreases |items|
  {
    if items != [] {
      FollowedMembers(items[1..], self);
    }
  }

  lemma NameOfKid(q: Path, n: string)
    requires NamesOk(q) && ValidName(n)
    ensures AfterLast(PathStr(q + [n]), '/') == n
  {
    PathStrChild(q, n);
    LastOfAppend(PathStr(q), n, '/');
  }

  /** The items of the list of p that the code follows. */
  ghost function Items(s: Columns, p: Path): seq<string> {
    var v := Fetch(s, Col(p, List));
    Followed(Split(if StartsWith(v, "ERR") then "" else v, ','), PathStr(p))
  }

  /** The children that the code follows from folder p. */
  ghost function Follows(s: Columns, p: Path): seq<string> {
    NamesIn(Items(s, p))
  }

  /** They are children, whatever else is in the store. */
  lemma FollowsKids(s: Columns, p: Path)
    requires Confined(s) && ValidPath(p) && At(s, p, Marker) == Some(FOLDER)
    ensures Items(s, p) == KidPaths(p, Follows(s, p))
    ensures forall i :: 0 <= i < |Follows(s, p)| ==> ValidName(Follows(s, p)[i])
  {
    var v := Fetch(s, Col(p, List));
    var text := if StartsWith(v, "ERR") then "" else v;
    assert KidItems(p, Split(text, ',')) by {
      ConfinedAt(s, p);
      SplitOfNone("", ',');
      hide Confined, Split;
    }
    var items := Followed(Split(text, ','), PathStr(p));
    FollowedMembers(Split(text, ','), PathStr(p));
    hide Confined, Split, Followed, AfterLast, PathStr, Fetch, At;
    forall i | 0 <= i < |items| ensures ValidName(AfterLast(items[i], '/')) && items[i] == PathStr(p + [AfterLast(items[i], '/')]) {
      assert items[i] in items && IsKid(p, items[i]);
      var n :| ValidName(n) && items[i] == PathStr(p + [n]);
      NameOfKid(p, n);
    }
  }

  /** In a stored tree they are the children, or none when the list reads like an error. */
  lemma FollowsLive(s: Columns, t: Tree, p: Path)
    requires WellFormed(t) && p in t && p != [] && t[p].Dir? && Below(s, t, p)
    ensures Follows(s, p) == Live(s, t, p)
  {
    assert p <= p && ValidPath(p) && ValidCol(p, List);
    assert ListOf(At(s, p, List), p, t[p].kids) by { assert Shows(At(s, p, List), t[p], p, List); }
    var v := Fetch(s, Col(p, List));
    forall i | 0 <= i < |t[p].kids| ensures AfterLast(PathStr(p + [t[p].kids[i]]), '/') == t[p].kids[i] && PathStr(p + [t[p].kids[i]]) != PathStr(p) {
      KidIsValid(t, p, i);
      NameOfKid(p, t[p].kids[i]);
      if PathStr(p + [t[p].kids[i]]) == PathStr(p) {
        PathStrInjective(p, p + [t[p].kids[i]]);
      }
    }
    hide WellFormed, PathStr, AfterLast, Split, Below, Col;
    SplitOfNone("", ',');
    assert Followed([""], PathStr(p)) == [];
    if !StartsWith(v, "ERR") {
      FollowedIsNonEmpty(Split(v, ','), PathStr(p));
    }
  }

  lemma {:induction false} FollowedIsNonEmpty(items: seq<string>, self: string)
    requires self !in NonEmpty(items)
    ensures Followed(items, self) == NonEmpty(items)
    decreases |items|
  {
    if items != [] {
      FollowedIsNonEmpty(items[1..], self);
    }
  }

  /** The path of a child under its new parent, taken from its last segment. */
  function Rebase(child: string, newAbs: string): string {
    var local := AfterLast(child, '/');
    if local == "" then newAbs else newAbs + "/" + local
  }

  function Rebased(children: seq<string>, newAbs: string): (items: seq<string>)
    ensures |items| == |children| && forall i :: 0 <= i < |items| ==> items[i] == Rebase(children[i], newAbs)
  {
    seq(|children|, i requires 0 <= i < |children| => Rebase(children[i], newAbs))
  }

  method RebaseAll(children: seq<string>, newAbs: string) returns (items: seq<string>)
    ensures items == Rebased(children, newAbs)
  {
    items := [];
    for i := 0 to |children|
      invariant |items| == i && forall j :: 0 <= j < i ==> items[j] == Rebase(children[j], newAbs)
    {
      items := items + [Rebase(children[i], newAbs)];
    }
  }

  lemma RebaseKid(p: Path, p': Path, n: string)
    requires p != [] && p' != [] && ValidName(n)
    ensures Rebase(PathStr(p + [n]), PathStr(p')) == PathStr(p' + [n])
  {
    PathStrChild(p, n);
    PathStrChild(p', n);
    LastOfAppend(PathStr(p), n, '/');
  }

  /** What the list of p names, without empty items and the folder itself. */
  method OldChildren(kv: Row, oldAbs: string, ghost p: Path) returns (oldChildren: seq<string>)
    requires NamesOk(p) && oldAbs == PathStr(p)
    ensures oldChildren == Items(kv.cols, p)
  {
    ListStrings(p);
    hide PathStr, NamesOk, Col, Fetch, Split, Followed, ValidCol;
    var folderMeta := kv.Get(oldAbs + "-metadata");
    if StartsWith(folderMeta, "ERR") {
      folderMeta := "";
    }
    var items := SplitString(folderMeta, ',');
    oldChildren := RemoveEmptyAndSelf(items, oldAbs);
  }

  /** The list of the folder at its new place. */
  method NewList(oldChildren: seq<string>, newAbs: string) returns (newMeta: string)
    ensures newMeta == Join(Rebased(oldChildren, newAbs), ',')
  {
    hide Rebased, Join;
    var newChildren := RebaseAll(oldChildren, newAbs);
    newMeta := JoinStrings(newChildren, ',');
  }

  lemma RebasedKids(p: Path, p': Path, ks: seq<string>)
    requires NamesOk(p) && NamesOk(p') && forall i :: 0 <= i < |ks| ==> ValidName(ks[i])
    ensures Rebased(KidPaths(p, ks), PathStr(p')) == KidPaths(p', ks)
  {
    hide *;
    NotTheRoot(p);
    NotTheRoot(p');
    forall i | 0 <= i < |ks| ensures Rebase(PathStr(p + [ks[i]]), PathStr(p')) == PathStr(p' + [ks[i]]) { RebaseKid(p, p', ks[i]); }
  }

  // ----- A source that is no folder -----

  /** The items are chunk names of p, as in the list of a file; a path without a list has none. */
  ghost predicate ChunksOnly(items: seq<string>, p: Path) {
    forall x :: x in items ==> IsChunk(p, x)
  }

  /** A chunk name is not a column, so the recursion passes it by. */
  lemma ChunkIsNoColumn(s: Columns, p: Path, x: string)
    requires Tidy(s) && NamesOk(p) && IsChunk(p, x)
    ensures x !in s && Fetch(s, x) != FOLDER && Fetch(s, x) != FILE
  {
    assert FOLDER[0] == 'K' && FILE[0] == 'K' && "ERR"[0] == 'E';
    var i: nat :| x == ChunkName(p, i);
    if x in s {
      var q, k :| ValidCol(q, k) && x == Col(q, k);
      hide *;
      ChunkNameIsNoCol(p, i, q, k);
    }
  }

  lemma ChunkNameIsNoCol(p: Path, i: nat, q: Path, k: Kind)
    requires NamesOk(p) && ValidCol(q, k)
    ensures ChunkName(p, i) != Col(q, k)
  {
    var x := ChunkName(p, i);
    PathStrPlain(p);
    FirstDash(p, i);
    assert '-' in x by { assert x[|PathStr(p)|] == '-'; }
    assert '-' !in "metadata";
    NoSuchSuffix(k, i);
    if x == Col(q, k) && q != [] {
      ColSplits(q, k);
    }
  }

  lemma FirstDash(p: Path, i: nat)
    requires NamesOk(p)
    ensures
      var x := ChunkName(p, i);
      IndexOf(x, '-') == |PathStr(p)| && x[|PathStr(p)|..] == "-" + Dec(i)
  {
    PathStrPlain(p);
    hide PathStr, Dec;
    var a, x := PathStr(p), ChunkName(p, i);
    assert x[|a|] == '-' && forall j :: 0 <= j < |a| ==> x[j] == a[j] && a[j] in a;
  }

  lemma NoSuchSuffix(k: Kind, i: nat)
    ensures Suffix(k) != "-" + Dec(i)
  {
    var x := "-" + Dec(i);
    assert x[1] == Dec(i)[0] && forall j :: 1 <= j < |x| ==> x[j] == Dec(i)[j - 1];
    if k.Chunk? {
      assert Suffix(k)[1 + |Dec(k.i)|] == '-';
    }
  }

  // ----- Staying within bounds -----

  /** No folder at or below p0 lies deeper than depth: this is what makes the recursion end. */
  ghost predicate Bounded(s: Columns, p0: Path, depth: nat) {
    forall q :: ValidPath(q) && p0 <= q && At(s, q, Marker) == Some(FOLDER) ==> |q| <= depth
  }

  /** p lies as far below p0 as p' below p0', by the same names; p0' is not below p0. */
  ghost predicate Paired(p0: Path, p0': Path, p: Path, p': Path) {
    && (p0 <= p0' ==> p0 == p0')
    && p0 <= p && p0' <= p' && p[|p0|..] == p'[|p0'|..]
  }

  lemma PairedKid(p0: Path, p0': Path, p: Path, p': Path, n: string)
    requires Paired(p0, p0', p, p')
    ensures Paired(p0, p0', p + [n], p' + [n])
  {
    assert (p + [n])[|p0|..] == p[|p0|..] + [n] && (p' + [n])[|p0'|..] == p'[|p0'|..] + [n];
  }

  /** So what lands at or below p0 lands no deeper than it was. */
  lemma PairedDepth(p0: Path, p0': Path, p: Path, p': Path)
    requires Paired(p0, p0', p, p')
    ensures p0 <= p' ==> |p'| <= |p|
  {
    PrefixesMeet(p0, p0', p');
    assert |p| - |p0| == |p'| - |p0'|;
  }

  lemma KidListOfPaths(p': Path, ks: seq<string>)
    requires NamesOk(p') && forall i :: 0 <= i < |ks| ==> ValidName(ks[i])
    ensures KidList(p', Some(Join(KidPaths(p', ks), ','))) && OwnList(p', Some(Join(KidPaths(p', ks), ',')))
  {
    var ps := KidPaths(p', ks);
    if ks == [] {
      SplitOfNone("", ',');
    } else {
      forall i | 0 <= i < |ps| ensures ',' !in ps[i] && IsKid(p', ps[i]) {
        assert NamesOk(p' + [ks[i]]);
        PathStrPlain(p' + [ks[i]]);
      }
      SplitOfJoin(ps, ',');
    }
    hide Split, IsKid, IsChunk, Join;
    assert KidItems(p', Split(Join(ps, ','), ','));
  }

  lemma FolderStepAt(s: Columns, s': Columns, p: Path, p': Path, list: string, q: Path)
    requires FolderStep(s, s', p, p', list) && NamesOk(q)
    ensures At(s', q, List) == if q == p then None else if q == p' then Some(list) else At(s, q, List)
    ensures q != CLASH ==> At(s', q, Marker) == if q == p then Some(TOMBSTONE) else if q == p' then Some(FOLDER) else At(s, q, Marker)
  {
    assert ValidCol(q, List) && (q != CLASH ==> ValidCol(q, Marker));
    hide At, NamesOk, ValidCol, Tidy;
  }

  lemma FolderStepConfined(s: Columns, s': Columns, p: Path, p': Path, ks: seq<string>)
    requires Confined(s) && NamesOk(p') && forall i :: 0 <= i < |ks| ==> ValidName(ks[i])
    requires FolderStep(Over(s, p', FOLDER), s', p, p', Join(KidPaths(p', ks), ','))
    ensures Confined(s')
  {
    var b, list := Over(s, p', FOLDER), Join(KidPaths(p', ks), ',');
    assert Tidy(s') && FOLDER[0] == 'K' && TOMBSTONE[0] == 'D';
    KidListOfPaths(p', ks);
    NoListIsOwn(p);
    hide *;
    hide ValidPath;
    forall q | NamesOk(q) ensures OwnList(q, At(s', q, List)) {
      FolderStepAt(b, s', p, p', list, q);
      OverBelowRoot(s, p', FOLDER, q);
      ConfinedAt(s, q);
      NoListIsOwn(q);
    }
    forall q | ValidPath(q) && At(s', q, Marker) == Some(FOLDER) ensures KidList(q, At(s', q, List)) {
      ValidIsNamesOk(q);
      FolderStepAt(b, s', p, p', list, q);
      OverBelowRoot(s, p', FOLDER, q);
      ConfinedAt(s, q);
    }
    ConfinedFrom(s');
  }

  lemma ConfinedFrom(s: Columns)
    requires Tidy(s) && forall q :: NamesOk(q) ==> OwnList(q, At(s, q, List))
    requires forall q :: ValidPath(q) && At(s, q, Marker) == Some(FOLDER) ==> KidList(q, At(s, q, List))
    ensures Confined(s)
  {
    hide Tidy, NamesOk, OwnList, KidList, At;
  }

  lemma ValidIsNamesOk(q: Path)
    requires ValidPath(q)
    ensures NamesOk(q) && q != CLASH && q != []
  {
  }

  lemma OverBelowRoot(s: Columns, p': Path, v: string, q: Path)
    requires NamesOk(q)
    ensures At(Over(s, p', v), q, List) == At(s, q, List)
    ensures q != CLASH ==> At(Over(s, p', v), q, Marker) == At(s, q, Marker)
  {
    assert q != [] && ValidCol(q, List) && (q != CLASH ==> ValidCol(q, Marker));
    AtOver(s, p', v);
    hide Over, At, NamesOk, ValidCol;
  }

  lemma FolderStepBounded(s: Columns, s': Columns, p0: Path, p0': Path, p: Path, p': Path, list: string, depth: nat)
    requires Bounded(s, p0, depth) && Paired(p0, p0', p, p') && |p| <= depth
    requires FolderStep(Over(s, p', FOLDER), s', p, p', list)
    ensures Bounded(s', p0, depth)
  {
    assert FOLDER[0] == 'K' && TOMBSTONE[0] == 'D';
    PairedDepth(p0, p0', p, p');
    hide FolderStep, Paired, Over, At, ValidPath, FOLDER, TOMBSTONE;
    forall q | ValidPath(q) && p0 <= q && At(s', q, Marker) == Some(FOLDER) ensures |q| <= depth {
      ValidIsNamesOk(q);
      FolderStepAt(Over(s, p', FOLDER), s', p, p', list, q);
      OverBelowRoot(s, p', FOLDER, q);
    }
  }

  lemma FolderStepFramed(s: Columns, s': Columns, p: Path, p': Path, list: string)
    requires FolderStep(s, s', p, p', list)
    ensures Framed(s, s', p, p')
  {
    hide At, ValidCol, Tidy;
  }

  lemma FramedNext(s: Columns, s1: Columns, s2: Columns, p: Path, p': Path, n: string)
    requires Framed(s, s1, p, p') && Framed(s1, s2, p + [n], p' + [n])
    ensures Framed(s, s2, p, p')
  {
    hide At, ValidCol, Tidy;
    forall q, k | ValidCol(q, k) && !(p <= q) && !(p' <= q) ensures At(s2, q, k) == At(s, q, k) {
      PrefixOfKid(p, n, q);
      PrefixOfKid(p', n, q);
    }
  }

  lemma NoNewFoldersBounded(s: Columns, s': Columns, p0: Path, depth: nat)
    requires Bounded(s, p0, depth) && NoNewFolders(s, s')
    ensures Bounded(s', p0, depth)
  {
    hide At, ValidPath;
  }

  /** A store that the recursion can work on. */
  ghost predicate Loose(s: Columns, p0: Path, depth: nat) {
    Confined(s) && Bounded(s, p0, depth)
  }

  // ----- The code -----

  /** The folder's own four columns. */
  method MoveFolderItself(kv: Row, oldAbs: string, newAbs: string, newMeta: string, ghost p: Path, ghost p': Path)
    requires ValidPath(p) && NamesOk(p') && oldAbs == PathStr(p) && newAbs == PathStr(p') && Tidy(kv.cols)
    modifies kv
    ensures FolderStep(Over(old(kv.cols), p', FOLDER), kv.cols, p, p', newMeta)
  {
    ListStrings(p);
    ListStrings(p');
    assert p != CLASH;
    ghost var s := kv.cols;
    hide *;
    PutMarker(kv, newAbs, FOLDER, p');
    ghost var s1 := kv.cols;
    kv.Put(newAbs + "-metadata", newMeta, p', List);
    ghost var s2 := kv.cols;
    kv.Put(oldAbs, TOMBSTONE, p, Marker);
    ghost var s3 := kv.cols;
    kv.Delete(oldAbs + "-metadata", p, List);
    FolderSteps(s, s1, s2, s3, kv.cols, p, p', newMeta);
  }

  /** Folder p of tree t, to be moved to p' with an outcome that is known column by column. */
  ghost predicate Movable(s: Columns, t: Tree, p: Path, p': Path) {
    WellFormed(t) && p in t && t[p].Dir? && Below(s, t, p) && Exact(t, p, p')
  }

  /**
   The recursive move. The tree, and the paths that the strings stand for, are ghost arguments. `ok`
   says that p is a folder of tree t; p0 and p0' are the paths of the outermost call. Where p is no folder,
   `dead` says that its list, if any, names chunks: then nothing is followed.
   */
  method RenameFolderMoveRec(kv: Row, oldAbs: string, newAbs: string, ghost dead: bool, ghost ok: bool, ghost t: Tree,
                             ghost p: Path, ghost p': Path, ghost p0: Path, ghost p0': Path, ghost depth: nat) returns (threw: bool)
    requires ValidPath(p) && NamesOk(p') && oldAbs == PathStr(p) && newAbs == PathStr(p') && Tidy(kv.cols)
    requires dead ==> ChunksOnly(Items(kv.cols, p), p) && !ok
    requires !dead ==> Paired(p0, p0', p, p') && Loose(kv.cols, p0, depth) && At(kv.cols, p, Marker) == Some(FOLDER)
    requires ok ==> Movable(kv.cols, t, p, p')
    modifies kv
    ensures dead ==> !threw && FolderStep(Over(old(kv.cols), p', FOLDER), kv.cols, p, p', Join(Rebased(Items(old(kv.cols), p), newAbs), ','))
    ensures !dead ==> Framed(Over(old(kv.cols), p', FOLDER), kv.cols, p, p')
    ensures !dead && !threw ==> Loose(kv.cols, p0, depth)
    ensures ok ==> !threw && Relocated(Over(old(kv.cols), p', FOLDER), kv.cols, t, p, p')
    decreases depth - |p|, 3
  {
    ghost var s, b := kv.cols, Over(kv.cols, p', FOLDER);
    ghost var ks := Follows(s, p);
    assert !dead ==> |p| <= depth && Confined(s);
    hide *;
    ValidIsNamesOk(p);
    var oldChildren := OldChildren(kv, oldAbs, p);
    var newMeta := NewList(oldChildren, newAbs);
    MoveFolderItself(kv, oldAbs, newAbs, newMeta, p, p');
    if dead {
      StepIsTidy(b, kv.cols, p, p', newMeta);
    } else {
      FollowsKids(s, p);
      RebasedKids(p, p', ks);
      FolderStepLoose(s, kv.cols, p0, p0', p, p', ks, depth);
    }
    if ok {
      MovableStart(s, kv.cols, t, p, p');
    }
    threw := MoveKids(kv, oldChildren, newAbs, dead, ok, b, t, p, p', ks, p0, p0', depth);
    if ok {
      MovableEnd(s, kv.cols, t, p, p');
    }
  }

  lemma StepIsTidy(s: Columns, s': Columns, p: Path, p': Path, list: string)
    requires FolderStep(s, s', p, p', list)
    ensures Tidy(s')
  {
  }

  lemma FolderStepLoose(s: Columns, s': Columns, p0: Path, p0': Path, p: Path, p': Path, ks: seq<string>, depth: nat)
    requires Loose(s, p0, depth) && NamesOk(p') && Paired(p0, p0', p, p') && |p| <= depth && forall i :: 0 <= i < |ks| ==> ValidName(ks[i])
    requires FolderStep(Over(s, p', FOLDER), s', p, p', Join(KidPaths(p', ks), ','))
    ensures Loose(s', p0, depth) && Framed(Over(s, p', FOLDER), s', p, p')
  {
    hide Confined, Bounded, FolderStep, Framed, Join, Paired, NamesOk, ValidName;
    FolderStepConfined(s, s', p, p', ks);
    FolderStepBounded(s, s', p0, p0', p, p', Join(KidPaths(p', ks), ','), depth);
    FolderStepFramed(Over(s, p', FOLDER), s', p, p', Join(KidPaths(p', ks), ','));
  }

  /** Writing over the root's list changes nothing below it. */
  lemma MovableOver(s: Columns, t: Tree, p: Path, p': Path)
    requires Movable(s, t, p, p') && p != []
    ensures Movable(Over(s, p', FOLDER), t, p, p') && Live(Over(s, p', FOLDER), t, p) == Live(s, t, p)
  {
    AtOver(s, p', FOLDER);
    assert ValidPath(p) && ValidCol(p, List);
    hide At, Over, Shows, ErrText, Exact;
    forall q, k | q in t && p <= q && ValidCol(q, k) ensures Shows(At(Over(s, p', FOLDER), q, k), t[q], q, k) {
      assert q != [];
    }
  }

  lemma MovableStart(s: Columns, s': Columns, t: Tree, p: Path, p': Path)
    requires Movable(s, t, p, p') && p != []
    requires FolderStep(Over(s, p', FOLDER), s', p, p', Join(KidPaths(p', Follows(s, p)), ','))
    ensures KidsLanded(Over(s, p', FOLDER), s', t, p, p', Follows(s, p), 0)
    ensures Follows(s, p) == Live(Over(s, p', FOLDER), t, p) && Movable(Over(s, p', FOLDER), t, p, p')
  {
    MovableOver(s, t, p, p');
    assert WellFormed(t) && p in t && t[p].Dir? && Below(s, t, p) && Below(Over(s, p', FOLDER), t, p);
    hide *;
    FollowsLive(s, t, p);
    FolderItselfLanded(Over(s, p', FOLDER), s', t, p, p');
  }

  lemma MovableEnd(s: Columns, s': Columns, t: Tree, p: Path, p': Path)
    requires Movable(s, t, p, p') && p != []
    requires KidsLanded(Over(s, p', FOLDER), s', t, p, p', Follows(s, p), |Follows(s, p)|)
    ensures Relocated(Over(s, p', FOLDER), s', t, p, p')
  {
    MovableOver(s, t, p, p');
    assert WellFormed(t) && p in t && t[p].Dir? && Below(s, t, p);
    hide *;
    FollowsLive(s, t, p);
    AllKidsLanded(Over(s, p', FOLDER), s', t, p, p');
  }

  /** The recursion into the children. */
  method MoveKids(kv: Row, oldChildren: seq<string>, newAbs: string, ghost dead: bool, ghost ok: bool, ghost b: Columns, ghost t: Tree,
                  ghost p: Path, ghost p': Path, ghost ks: seq<string>, ghost p0: Path, ghost p0': Path, ghost depth: nat) returns (threw: bool)
    requires dead ==> NamesOk(p) && ChunksOnly(oldChildren, p) && Tidy(kv.cols) && !ok
    requires !dead ==>
               && ValidPath(p) && NamesOk(p') && newAbs == PathStr(p') && oldChildren == KidPaths(p, ks)
               && (forall i :: 0 <= i < |ks| ==> ValidName(ks[i]))
               && Paired(p0, p0', p, p') && Loose(kv.cols, p0, depth) && Framed(b, kv.cols, p, p') && |p| <= depth
    requires ok ==> Movable(b, t, p, p') && p in t && t[p].Dir? && ks == Live(b, t, p) && KidsLanded(b, kv.cols, t, p, p', ks, 0)
    modifies kv
    ensures dead ==> !threw && kv.cols == old(kv.cols)
    ensures !dead ==> Framed(b, kv.cols, p, p')
    ensures !dead && !threw ==> Loose(kv.cols, p0, depth)
    ensures ok ==> !threw && KidsLanded(b, kv.cols, t, p, p', ks, |ks|)
    decreases depth - |p|, 2
  {
    hide *;
    for i := 0 to |oldChildren|
      invariant dead ==> kv.cols == old(kv.cols)
      invariant !dead ==> Loose(kv.cols, p0, depth) && Framed(b, kv.cols, p, p')
      invariant ok ==> KidsLanded(b, kv.cols, t, p, p', ks, i)
    {
      if dead {
        ChunkItem(oldChildren, p, i);
      }
      threw := MoveKidOf(kv, oldChildren[i], newAbs, dead, ok, b, t, p, p', ks, i, p0, p0', depth);
      if threw {
        return;
      }
    }
    threw := false;
  }

  lemma ChunkItem(items: seq<string>, p: Path, i: nat)
    requires ChunksOnly(items, p) && i < |items|
    ensures IsChunk(p, items[i])
  {
    hide IsChunk;
  }

  /** One round of the loop over the children. */
  method MoveKidOf(kv: Row, childOld: string, newAbs: string, ghost dead: bool, ghost ok: bool, ghost b: Columns, ghost t: Tree,
                   ghost p: Path, ghost p': Path, ghost ks: seq<string>, ghost i: nat, ghost p0: Path, ghost p0': Path, ghost depth: nat)
    returns (threw: bool)
    requires dead ==> NamesOk(p) && IsChunk(p, childOld) && Tidy(kv.cols) && !ok
    requires !dead ==>
               && ValidPath(p) && NamesOk(p') && newAbs == PathStr(p') && i < |ks| && ValidName(ks[i]) && childOld == PathStr(p + [ks[i]])
               && Paired(p0, p0', p, p') && Loose(kv.cols, p0, depth) && Framed(b, kv.cols, p, p') && |p| <= depth
    requires ok ==> Movable(b, t, p, p') && p in t && t[p].Dir? && ks == Live(b, t, p) && KidsLanded(b, kv.cols, t, p, p', ks, i)
    modifies kv
    ensures dead ==> !threw && kv.cols == old(kv.cols)
    ensures !dead ==> Framed(b, kv.cols, p, p')
    ensures !dead && !threw ==> Loose(kv.cols, p0, depth)
    ensures ok ==> !threw && KidsLanded(b, kv.cols, t, p, p', ks, i + 1)
    decreases depth - |p|, 1
  {
    hide *;
    ghost var n, s1 := if dead then "" else ks[i], kv.cols;
    if dead {
      ChunkIsNoColumn(s1, p, childOld);
    } else {
      ValidIsNamesOk(p);
      NotTheRoot(p');
      RebaseKid(p, p', n);
      PairedKid(p0, p0', p, p', n);
      KidNames(p, n);
      KidNames(p', n);
    }
    if ok {
      KidMovable(b, s1, t, p, p', ks, i);
    }
    var childNew := Rebase(childOld, newAbs);
    threw := MoveKid(kv, childOld, childNew, dead, ok, t, p + [n], p' + [n], p0, p0', depth);
    if !dead {
      FramedNext(b, s1, kv.cols, p, p', n);
    }
    if ok {
      KidMoved(b, s1, kv.cols, t, p, p', ks, i);
    }
  }

  lemma KidNames(p: Path, n: string)
    requires NamesOk(p) && ValidName(n)
    ensures ValidPath(p + [n]) && NamesOk(p + [n]) && |p + [n]| == |p| + 1
  {
    assert |p + [n]| >= 2;
  }

  /** A child of the tree, with everything below it as it was. */
  ghost predicate MovableKid(s: Columns, t: Tree, c: Path, c': Path) {
    && WellFormed(t) && c in t && Below(s, t, c) && Exact(t, c, c')
    && Fetch(s, PathStr(c)) == (if t[c].Dir? then FOLDER else FILE)
    && (!t[c].Dir? ==> HasFile(s, t[c], c))
  }

  lemma KidMovable(b: Columns, s1: Columns, t: Tree, p: Path, p': Path, ks: seq<string>, i: nat)
    requires Movable(b, t, p, p') && p != [] && ks == Live(b, t, p) && KidsLanded(b, s1, t, p, p', ks, i) && i < |ks|
    ensures MovableKid(s1, t, p + [ks[i]], p' + [ks[i]])
  {
    var c := p + [ks[i]];
    assert WellFormed(t) && p in t && t[p].Dir? && Below(b, t, p) && Exact(t, p, p') && ks == t[p].kids && Distinct(ks);
    hide WellFormed, KidsLanded, At, Live, Distinct, Below, Movable, ErrText;
    KidIsValid(t, p, i);
    assert Below(s1, t, c) by { KidBelow(b, s1, t, p, p', ks, i); }
    assert Exact(t, c, p' + [ks[i]]) by { KidExact(t, p, p', ks[i]); }
    hide PathStr, ValidPath, Exact;
    EntryRead(s1, t, c);
  }

  lemma KidExact(t: Tree, p: Path, p': Path, n: string)
    requires WellFormed(t) && Exact(t, p, p') && p + [n] in t
    ensures Exact(t, p + [n], p' + [n])
  {
    hide WellFormed;
    var c, c' := p + [n], p' + [n];
    if Apart(p, p') {
      PrefixesMeet(p, p', c');
      PrefixesMeet(p, p', c);
      PrefixOfKid(p, n, c');
      PrefixOfKid(p', n, c);
    } else if p != p' {
      var x := p[|p'|..];
      assert p == p' + x && |c| > |c'|;
      if c' <= c {
        PrefixOfKid(p', n, c);
        assert x[0] == n && c == c' + (x[1..] + [n]) && c[|c'|..] == x[1..] + [n];
        assert p + x <= c + (x[1..] + [n]) by { assert c + (x[1..] + [n]) == p + x + [n]; }
        AboveInTree(t, p + x, c + (x[1..] + [n]));
      }
    }
  }

  lemma KidBelow(b: Columns, s1: Columns, t: Tree, p: Path, p': Path, ks: seq<string>, i: nat)
    requires WellFormed(t) && Below(b, t, p) && KidsLanded(b, s1, t, p, p', ks, i) && i < |ks| && Distinct(ks) && Exact(t, p, p')
    ensures Below(s1, t, p + [ks[i]])
  {
    hide At, Shows, KidsLanded, Exact, Distinct, ValidCol;
    forall q, k | q in t && p + [ks[i]] <= q && ValidCol(q, k) ensures Shows(At(s1, q, k), t[q], q, k) {
      KidAsBefore(b, s1, t, p, p', ks, i, q, k);
      PrefixOfKid(p, ks[i], q);
    }
  }

  lemma KidMoved(b: Columns, s1: Columns, s2: Columns, t: Tree, p: Path, p': Path, ks: seq<string>, i: nat)
    requires Movable(b, t, p, p') && p != [] && ks == Live(b, t, p) && KidsLanded(b, s1, t, p, p', ks, i) && i < |ks|
    requires Relocated(s1, s2, t, p + [ks[i]], p' + [ks[i]])
    ensures KidsLanded(b, s2, t, p, p', ks, i + 1)
  {
    assert WellFormed(t) && Exact(t, p, p') && Distinct(ks);
    hide *;
    NextKidLanded(b, s1, s2, t, p, p', ks, i);
  }

  method MoveKid(kv: Row, childOld: string, childNew: string, ghost dead: bool, ghost ok: bool, ghost t: Tree,
                 ghost c: Path, ghost c': Path, ghost p0: Path, ghost p0': Path, ghost depth: nat) returns (threw: bool)
    requires dead ==> Fetch(kv.cols, childOld) != FOLDER && Fetch(kv.cols, childOld) != FILE && !ok
    requires !dead ==>
               && ValidPath(c) && ValidPath(c') && childOld == PathStr(c) && childNew == PathStr(c')
               && Paired(p0, p0', c, c') && Loose(kv.cols, p0, depth) && |c| <= depth + 1
    requires ok ==> MovableKid(kv.cols, t, c, c')
    modifies kv
    ensures dead ==> !threw && kv.cols == old(kv.cols)
    ensures !dead ==> Framed(old(kv.cols), kv.cols, c, c')
    ensures !dead && !threw ==> Loose(kv.cols, p0, depth)
    ensures ok ==> !threw && Relocated(old(kv.cols), kv.cols, t, c, c')
    decreases depth - |c| + 1, 0
  {
    ghost var s := kv.cols;
    if !dead {
      KidFacts(s, ok, t, c, c', p0, depth);
    }
    threw := false;
    var marker := kv.Get(childOld);
    hide *;
    if marker == FOLDER {
      threw := RenameFolderMoveRec(kv, childOld, childNew, false, ok, t, c, c', p0, p0', depth);
    } else if marker == FILE {
      threw := MoveFileColumns(kv, childOld, childNew, ok, if ok then t[c] else Single(""), c, c');
      if !threw {
        LooseAfterFile(s, kv.cols, p0, depth);
      }
      if ok {
        FileRelocated(s, kv.cols, t, c, c');
      }
    } else if !dead {
      Unchanged(s, c, c', p0, depth);
    }
  }

  /** What the recursion needs for a child, by its marker. */
  lemma KidFacts(s: Columns, ok: bool, t: Tree, c: Path, c': Path, p0: Path, depth: nat)
    requires ValidPath(c) && ValidPath(c') && Loose(s, p0, depth) && p0 <= c && (ok ==> MovableKid(s, t, c, c'))
    ensures NamesOk(c) && NamesOk(c') && Over(s, c', FOLDER) == s == Over(s, c', FILE) && Confined(s) && Tidy(s)
    ensures Fetch(s, PathStr(c)) == FOLDER ==> At(s, c, Marker) == Some(FOLDER) && |c| <= depth && (ok ==> Movable(s, t, c, c'))
    ensures Fetch(s, PathStr(c)) == FILE && ok ==> WellFormed(t) && c in t && HasFile(s, t[c], c) && !t[c].Dir?
    ensures ok ==> Fetch(s, PathStr(c)) in {FOLDER, FILE}
  {
    ListStrings(c);
    assert FOLDER != FILE && FOLDER[0] == 'K' && FILE[0] == 'K' && "ERR"[0] == 'E';
    hide WellFormed, HasFile, Below, Exact, PathStr, NamesOk, Col, OwnList, KidList;
  }

  lemma LooseAfterFile(s: Columns, s': Columns, p0: Path, depth: nat)
    requires Loose(s, p0, depth) && Confined(s') && NoNewFolders(s, s')
    ensures Loose(s', p0, depth)
  {
    hide Confined, Bounded, NoNewFolders;
    NoNewFoldersBounded(s, s', p0, depth);
  }

  lemma Unchanged(s: Columns, p: Path, p': Path, p0: Path, depth: nat)
    requires Loose(s, p0, depth)
    ensures Framed(s, s, p, p')
  {
  }
}
