/**
 Moving a folder into another one: the recursion, and the lists of the two parents.
 */
module FolderMove {
  import opened Options
  import opened Text
  import opened FileTree
  import opened KvRow
  import opened Visits
  import opened FileMoves
  import opened TreeMoves

  // ----- The tree after the move -----

  function Without(xs: seq<string>, x: string): (r: seq<string>)
    ensures forall y :: y in r <==> y in xs && y != x
  {
    if xs == [] then [] else if xs[0] == x then Without(xs[1..], x) else [xs[0]] + Without(xs[1..], x)
  }

  ghost function Name(p: Path): string
    requires p != []
  {
    p[|p| - 1]
  }

  ghost function Parent(p: Path): Path
    requires p != []
  {
    p[..|p| - 1]
  }

  /** A move the guards let through: not into itself, and no name clash at the target. */
  ghost predicate CanMove(t: Tree, p: Path, d: Path) {
    && WellFormed(t) && p in t && p != [] && t[p].Dir? && d in t && t[d].Dir?
    && !(p <= d) && Name(p) !in t[d].kids && ValidPath(d + [Name(p)])
  }

  /** An entry that stays, with the two parents' lists brought up to date. */
  ghost function Relisted(t: Tree, p: Path, d: Path, q: Path): Entry
    requires p != [] && q in t
  {
    if !t[q].Dir? then t[q]
    else if q == d then Dir(t[q].kids + [Name(p)])
    else if q == Parent(p) then Dir(Without(t[q].kids, Name(p)))
    else t[q]
  }

  ghost function Targets(t: Tree, p: Path, p': Path): (ts: set<Path>)
    ensures forall q :: q in ts ==> p' <= q
  {
    set r | r in t && p <= r :: p' + r[|p|..]
  }

  /** The tree with the subtree of p hung below folder d. */
  ghost function MoveTree(t: Tree, p: Path, d: Path): Tree
    requires p != []
  {
    var p' := d + [Name(p)];
    (map q | q in t && !(p <= q) :: Relisted(t, p, d, q)) +
    (map q | q in Targets(t, p, p') && p + q[|p'|..] in t :: t[p + q[|p'|..]])
  }

  lemma MoveIsApart(t: Tree, p: Path, d: Path)
    requires CanMove(t, p, d)
    ensures
      var p' := d + [Name(p)];
      Apart(p, p') && p' !in t && (forall q :: q in t ==> !(p' <= q)) && Parent(p) != d && !(p <= Parent(p))
  {
    var p' := d + [Name(p)];
    forall q | q in t && p' <= q ensures false {
      assert d <= q && q[|d|] == Name(p);
      BelowAKid(t, d, q);
    }
    PrefixesMeet(p, d, p');
    assert p <= p' && d <= p' ==> d <= p && |p| <= |d| + 1;
    assert d <= p && d != p && p <= p' ==> p == p';
    assert Listed(t, p);
  }

  /** Which paths the moved tree has, and what is there. */
  lemma MoveTreeAt(t: Tree, p: Path, d: Path, q: Path)
    requires CanMove(t, p, d)
    ensures
      var p', u := d + [Name(p)], MoveTree(t, p, d);
      && (q in u <==> (q in t && !(p <= q)) || (p' <= q && p + q[|p'|..] in t))
      && (p' <= q && p + q[|p'|..] in t ==> u[q] == t[p + q[|p'|..]])
      && (q in t && !(p <= q) ==> u[q] == Relisted(t, p, d, q) && !(p' <= q))
  {
    hide WellFormed, Relisted, NamesOk, Listed, Apart;
    MoveIsApart(t, p, d);
    var p' := d + [Name(p)];
    var u := MoveTree(t, p, d);
    if p' <= q {
      var r := p + q[|p'|..];
      assert q == p' + q[|p'|..] && r[|p|..] == q[|p'|..] && p <= r;
      assert q == p' + r[|p|..];
    }
    forall r | r in t && p <= r && q == p' + r[|p|..] ensures p' <= q && p + q[|p'|..] == r {
      assert q[|p'|..] == r[|p|..] && r == p + r[|p|..];
    }
  }

  lemma {:induction false} WithoutDistinct(xs: seq<string>, x: string)
    requires Distinct(xs)
    ensures Distinct(Without(xs, x))
    decreases |xs|
  {
    if xs != [] {
      assert Distinct(xs[1..]) && xs[0] !in xs[1..];
      WithoutDistinct(xs[1..], x);
    }
  }

  lemma ValidBelow(p': Path, rest: Path)
    requires ValidPath(p') && forall i :: 0 <= i < |rest| ==> ValidName(rest[i])
    ensures ValidPath(p' + rest)
  {
    assert rest == [] ==> p' + rest == p';
    assert p' != [] && rest != [] ==> |p' + rest| >= 2;
  }

  /** Parents and children of a path that moved along, here and in the old tree. */
  lemma Shift(p: Path, p': Path, q: Path, n: string)
    requires p != [] && p' != [] && p' <= q
    ensures q != p' ==> p' <= Parent(q) && p + Parent(q)[|p'|..] == Parent(p + q[|p'|..]) && Name(q) == Name(p + q[|p'|..])
    ensures p' <= q + [n] && p + (q + [n])[|p'|..] == p + q[|p'|..] + [n]
    ensures q == p' ==> p + q[|p'|..] == p
  {
    var rest := q[|p'|..];
    assert q == p' + rest;
    assert (q + [n])[|p'|..] == rest + [n];
    if q != p' {
      assert Parent(q)[|p'|..] == rest[..|rest| - 1];
      assert Parent(p + rest) == p + rest[..|rest| - 1];
    }
  }

  lemma EntryFacts(t: Tree, q: Path)
    requires WellFormed(t) && q in t
    ensures q != [] ==> ValidPath(q) && Listed(t, q)
    ensures t[q].Dir? ==> Distinct(t[q].kids) && forall n :: n in t[q].kids ==> q + [n] in t
    ensures t[q].Chunked? ==> t[q].chunks != []
  {
  }

  lemma ShiftedValid(t: Tree, p: Path, p': Path, q: Path)
    requires WellFormed(t) && p != [] && ValidPath(p') && p' <= q && p + q[|p'|..] in t
    ensures ValidPath(q)
  {
    EntryFacts(t, p + q[|p'|..]);
    hide WellFormed;
    var rest := q[|p'|..];
    assert forall i :: 0 <= i < |rest| ==> rest[i] == (p + rest)[|p| + i];
    ValidBelow(p', rest);
    assert q == p' + rest;
  }

  lemma MovedTreeListed(t: Tree, p: Path, d: Path, q: Path)
    requires CanMove(t, p, d) && q in MoveTree(t, p, d) && q != []
    ensures ValidPath(q) && Listed(MoveTree(t, p, d), q)
  {
    hide MoveTree, NamesOk, WellFormed;
    var p' := d + [Name(p)];
    MoveTreeAt(t, p, d, q);
    MoveTreeAt(t, p, d, Parent(q));
    if q in t && !(p <= q) {
      EntryFacts(t, q);
      assert !(p <= Parent(q));
      assert q == Parent(q) + [Name(q)] && p == Parent(p) + [Name(p)];
    } else {
      Shift(p, p', q, "");
      ShiftedValid(t, p, p', q);
      if q == p' {
        assert Parent(q) == d;
      } else {
        EntryFacts(t, p + q[|p'|..]);
      }
    }
  }

  lemma MovedTreeKids(t: Tree, p: Path, d: Path, q: Path, n: string)
    requires CanMove(t, p, d) && q in MoveTree(t, p, d) && MoveTree(t, p, d)[q].Dir? && n in MoveTree(t, p, d)[q].kids
    ensures q + [n] in MoveTree(t, p, d)
  {
    hide MoveTree, NamesOk, WellFormed;
    var p' := d + [Name(p)];
    MoveTreeAt(t, p, d, q);
    MoveTreeAt(t, p, d, q + [n]);
    if q in t && !(p <= q) {
      EntryFacts(t, q);
      assert (q + [n])[|q| + 1..] == [] && p + [] == p;
      assert p <= q + [n] ==> p == q + [n];
      assert Parent(q + [n]) == q && Name(q + [n]) == n;
    } else {
      EntryFacts(t, p + q[|p'|..]);
      Shift(p, p', q, n);
    }
  }

  lemma MovedTreeEntry(t: Tree, p: Path, d: Path, q: Path)
    requires CanMove(t, p, d) && q in MoveTree(t, p, d)
    ensures MoveTree(t, p, d)[q].Dir? ==> Distinct(MoveTree(t, p, d)[q].kids)
    ensures MoveTree(t, p, d)[q].Chunked? ==> MoveTree(t, p, d)[q].chunks != []
  {
    hide MoveTree, NamesOk, WellFormed;
    MoveTreeAt(t, p, d, q);
    if q in t && !(p <= q) {
      EntryFacts(t, q);
      if t[q].Dir? {
        WithoutDistinct(t[q].kids, Name(p));
      }
    } else {
      EntryFacts(t, p + q[|d| + 1..]);
    }
  }

  /** Moving a folder keeps the tree well formed. */
  lemma MovedTreeWellFormed(t: Tree, p: Path, d: Path)
    requires CanMove(t, p, d)
    ensures WellFormed(MoveTree(t, p, d))
  {
    var u := MoveTree(t, p, d);
    hide MoveTree, NamesOk, Listed, Distinct, WellFormed;
    assert [] in u && u[[]].Dir? by { RootStays(t, p, d); }
    hide CanMove;
    forall q | q in u && q != [] ensures ValidPath(q) && Listed(u, q) { MovedTreeListed(t, p, d, q); }
    forall q, n | q in u && u[q].Dir? && n in u[q].kids ensures q + [n] in u { MovedTreeKids(t, p, d, q, n); }
    forall q | q in u ensures u[q].Dir? ==> Distinct(u[q].kids)
                      ensures u[q].Chunked? ==> u[q].chunks != []
    {
      MovedTreeEntry(t, p, d, q);
    }
    WellFormedFrom(u);
  }

  lemma RootStays(t: Tree, p: Path, d: Path)
    requires CanMove(t, p, d)
    ensures [] in MoveTree(t, p, d) && MoveTree(t, p, d)[[]].Dir?
  {
    hide MoveTree;
    MoveTreeAt(t, p, d, []);
  }

  lemma WellFormedFrom(t: Tree)
    requires [] in t && t[[]].Dir?
    requires forall p :: p in t && p != [] ==> ValidPath(p) && Listed(t, p)
    requires forall p :: p in t && t[p].Dir? ==> Distinct(t[p].kids)
    requires forall p, n :: p in t && t[p].Dir? && n in t[p].kids ==> p + [n] in t
    requires forall p :: p in t && t[p].Chunked? ==> t[p].chunks != []
    ensures WellFormed(t)
  {
    hide NamesOk, Listed, Distinct;
  }

  // ----- A subtree that moved as a whole -----

  /** The columns of an entry that arrived at path q, over what was there. */
  ghost function Arrived(e: Entry, q: Path, k: Kind, was: Option<string>): Option<string> {
    match k
    case Marker => Some(if e.Dir? then FOLDER else FILE)
    case List =>
      (match e
       case Dir(kids) => Some(Join(KidPaths(q, kids), ','))
       case Chunked(cs) => Some(Join(ChunkNames(q, |cs|), ','))
       case Single(_) => was)
    case Content => if e.Single? then Some(e.content) else was
    case Chunk(i) => if e.Chunked? && 1 <= i <= |e.chunks| then Some(e.chunks[i - 1]) else was
  }

  /** Column k of path q after everything at or below p has moved to p'. */
  ghost function AfterMove(s: Columns, t: Tree, p: Path, p': Path, q: Path, k: Kind): Option<string> {
    if q in t && p <= q then Left(t[q], k)
    else if p' <= q && p + q[|p'|..] in t then Arrived(t[p + q[|p'|..]], q, k, At(s, q, k))
    else At(s, q, k)
  }

  /** Everything at or below p has moved to p', and nothing else has changed. */
  ghost predicate Moved(s: Columns, s': Columns, t: Tree, p: Path, p': Path) {
    Tidy(s') && forall q, k :: ValidCol(q, k) ==> At(s', q, k) == AfterMove(s, t, p, p', q, k)
  }

  /** Columns that no entry e can have at path r: content beside chunks, or a list without the children. */
  ghost predicate BrokenAt(s: Columns, e: Entry, r: Path) {
    || (e.Chunked? && At(s, r, Content).Some?)
    || (e.Dir? && e.kids != [] && At(s, r, List) == Some(""))
  }

  /** Something that was at or below p is broken at its new place. */
  ghost predicate Broken(s: Columns, t: Tree, p: Path, p': Path) {
    exists q :: q in t && p <= q && BrokenAt(s, t[q], p' + q[|p|..])
  }

  /** Where no list reads like an error, the recursion comes to everything. */
  lemma AllSeen(s: Columns, t: Tree, p: Path, q: Path)
    requires WellFormed(t) && NoErrLists(s, t, p) && q in t && p <= q
    ensures Seen(s, p, q) && !ErrText(At(s, q, List))
  {
    hide At, ErrText, WellFormed;
    forall n | |p| <= n < |q| ensures !ErrText(At(s, q[..n], List)) {
      assert p <= q[..n] && q[..n] <= q;
      BelowAKid(t, q[..n], q);
    }
  }

  lemma RelocatedMoves(s: Columns, s': Columns, t: Tree, p: Path, p': Path)
    requires WellFormed(t) && Relocated(s, s', t, p, p') && NoErrLists(s, t, p)
    ensures Moved(s, s', t, p, p')
  {
    hide At, ErrText, ValidCol, WellFormed, Seen, NoErrLists, Join;
    forall q, k | ValidCol(q, k) ensures At(s', q, k) == AfterMove(s, t, p, p', q, k) {
      SeenIsBelow(s, p, q);
      if q in t && p <= q {
        AllSeen(s, t, p, q);
      }
      if p' <= q && p + q[|p'|..] in t {
        AllSeen(s, t, p, p + q[|p'|..]);
      }
    }
  }

  /** The topmost list that reads like an error is one that the recursion comes to. */
  lemma {:induction false} TopmostErr(s: Columns, t: Tree, p: Path, q: Path) returns (r: Path)
    requires WellFormed(t) && q in t && p <= q && ErrText(At(s, q, List))
    ensures r in t && p <= r && Seen(s, p, r) && ErrText(At(s, r, List))
    decreases |q|
  {
    hide At, ErrText, WellFormed;
    if Seen(s, p, q) {
      r := q;
    } else {
      var n :| |p| <= n < |q| && ErrText(At(s, q[..n], List));
      assert p <= q[..n] && q[..n] <= q;
      BelowAKid(t, q[..n], q);
      r := TopmostErr(s, t, p, q[..n]);
    }
  }

  /** An error list below a folder shows where the folder arrives. */
  lemma RelocatedBreaks(s: Columns, s': Columns, t: Tree, p: Path, p': Path)
    requires WellFormed(t) && p != [] && NamesOk(p') && Below(s, t, p) && Relocated(s, s', t, p, p') && Apart(p, p') && !NoErrLists(s, t, p)
    ensures Broken(s', t, p, p')
  {
    hide WellFormed, At, Below, ErrText, Apart, NamesOk, Relocated, Seen;
    var q :| q in t && p <= q && ErrText(At(s, q, List));
    var r := TopmostErr(s, t, p, q);
    BrokenThere(s, s', t, p, p', r);
  }

  lemma BrokenThere(s: Columns, s': Columns, t: Tree, p: Path, p': Path, r: Path)
    requires WellFormed(t) && p != [] && NamesOk(p') && Below(s, t, p) && Relocated(s, s', t, p, p') && Apart(p, p')
    requires r in t && p <= r && Seen(s, p, r) && ErrText(At(s, r, List))
    ensures BrokenAt(s', t[r], p' + r[|p|..])
  {
    hide WellFormed, Below, Relocated, Apart, NamesOk, Seen, ErrText, At;
    ArrivalNames(t, p, p', r);
    LandedThere(s, s', t, p, p', r, List);
    LandedThere(s, s', t, p, p', r, Content);
    if !t[r].Chunked? {
      PathOfTree(t, r);
      EntryKept(s, t, p, r, List);
      ErrListHasAKid(s, t, r);
      assert KidPaths(p' + r[|p|..], []) == [];
    }
  }

  lemma LandedThere(s: Columns, s': Columns, t: Tree, p: Path, p': Path, r: Path, k: Kind)
    requires Relocated(s, s', t, p, p') && Apart(p, p') && r in t && p <= r && Seen(s, p, r) && NamesOk(p' + r[|p|..]) && k != Marker
    ensures At(s', p' + r[|p|..], k) == Landed(s, t[r], r, p' + r[|p|..], k)
  {
    var q := p' + r[|p|..];
    assert ValidCol(q, k);
    assert q[|p'|..] == r[|p|..] && p + r[|p|..] == r && p' <= q;
    hide At, Landed, Gone, Tidy, NamesOk, ValidCol, Seen;
    SeenIsBelow(s, p, q);
    PrefixesMeet(p, p', q);
  }

  lemma ArrivalNames(t: Tree, p: Path, p': Path, q: Path)
    requires WellFormed(t) && NamesOk(p') && q in t && p <= q && q != []
    ensures NamesOk(p' + q[|p|..])
  {
    assert ValidPath(q);
    hide WellFormed;
    var r := p' + q[|p|..];
    forall i | 0 <= i < |r| ensures ValidName(r[i]) {
      assert r[i] == if i < |p'| then p'[i] else q[i - |p'| + |p|];
    }
  }

  lemma ArrivalValid(t: Tree, p: Path, p': Path, q: Path)
    requires WellFormed(t) && ValidPath(p') && q in t && p <= q && q != []
    ensures ValidPath(p' + q[|p|..])
  {
    ArrivalNames(t, p, p', q);
    hide WellFormed;
    assert q[|p|..] == [] ==> p' + q[|p|..] == p';
    assert q[|p|..] != [] ==> |p' + q[|p|..]| >= 2;
  }

  lemma RelocatedFramed(s: Columns, s': Columns, t: Tree, p: Path, p': Path)
    requires Relocated(s, s', t, p, p')
    ensures Framed(s, s', p, p')
  {
    hide At, ValidCol, Gone, Landed, Tidy, Seen;
    forall q | true ensures Seen(s, p, q) ==> p <= q { SeenIsBelow(s, p, q); }
  }

  // ----- The two parent lists -----

  lemma {:induction false} NonEmptyWithout(xs: seq<string>, x: string)
    ensures NonEmpty(Without(xs, x)) == Without(NonEmpty(xs), x)
    decreases |xs|
  {
    if xs != [] {
      NonEmptyWithout(xs[1..], x);
    }
  }

  lemma {:induction false} KidPathsWithout(d: Path, kids: seq<string>, n: string)
    requires ValidPath(d + [n]) && forall i :: 0 <= i < |kids| ==> ValidPath(d + [kids[i]])
    ensures Without(KidPaths(d, kids), PathStr(d + [n])) == KidPaths(d, Without(kids, n))
    decreases |kids|
  {
    if kids != [] {
      KidPathsWithout(d, kids[1..], n);
      assert KidPaths(d, kids)[1..] == KidPaths(d, kids[1..]);
      assert (d + [kids[0]])[|d|] == kids[0] && (d + [n])[|d|] == n;
      if PathStr(d + [kids[0]]) == PathStr(d + [n]) {
        PathStrInjective(d + [kids[0]], d + [n]);
      }
    }
  }

  /** A joined list of comma-free paths reads back as those paths. */
  lemma JoinedList(q: Path, kids: seq<string>)
    requires forall i :: 0 <= i < |kids| ==> ValidPath(q + [kids[i]])
    ensures ListOf(Some(Join(KidPaths(q, kids), ',')), q, kids)
  {
    var ps := KidPaths(q, kids);
    if kids == [] {
      assert Split("", ',') == [""];
      assert NonEmpty([""]) == [];
    } else {
      forall i | 0 <= i < |ps| ensures ',' !in ps[i] && ps[i] != "" { PathStrPlain(q + [kids[i]]); }
      SplitOfJoin(ps, ',');
      NothingEmpty(ps);
    }
  }

  lemma {:induction false} NothingEmpty(xs: seq<string>)
    requires "" !in xs
    ensures NonEmpty(xs) == xs
    decreases |xs|
  {
    if xs != [] {
      NothingEmpty(xs[1..]);
    }
  }

  /** The list text after a path is appended to it. */
  function Appended(list: string, path: string): string {
    if StartsWith(list, "ERR") || list == "" then path else list + "," + path
  }

  /** Appending the new path to the target's list, unless that list reads like an error. */
  lemma AppendedList(v: Option<string>, read: string, d: Path, kids: seq<string>, n: string)
    requires ListOf(v, d, kids) && ValidPath(d + [n])
    requires read == (match v case None => read case Some(text) => text)
    requires v.None? <==> StartsWith(read, "ERR")
    ensures ListOf(Some(Appended(read, PathStr(d + [n]))), d, kids + [n])
  {
    var path := PathStr(d + [n]);
    PathStrPlain(d + [n]);
    assert Split(path, ',') == [path];
    assert NonEmpty([path]) == [path];
    assert KidPaths(d, kids + [n]) == KidPaths(d, kids) + [path];
    if v.Some? && read != "" {
      SplitConcat(read, path, ',');
      assert read + "," + path == read + [','] + path;
      NonEmptyConcat(Split(read, ','), [path]);
    } else if v.Some? {
      assert Split("", ',') == [""];
      assert NonEmpty([""]) == [];
    }
  }

  /** Removing the old path from its parent's list; an emptied list loses its column. */
  lemma RemovedList(text: string, d: Path, kids: seq<string>, n: string)
    requires ListOf(Some(text), d, kids) && ValidPath(d + [n]) && forall i :: 0 <= i < |kids| ==> ValidPath(d + [kids[i]])
    ensures
      var kept := Without(Split(text, ','), PathStr(d + [n]));
      ListOf(if kept == [] then None else Some(Join(kept, ',')), d, Without(kids, n))
  {
    var items, path := Split(text, ','), PathStr(d + [n]);
    var kept := Without(items, path);
    NonEmptyWithout(items, path);
    KidPathsWithout(d, kids, n);
    if kept != [] {
      forall i | 0 <= i < |kept| ensures ',' !in kept[i] { assert kept[i] in items; }
      SplitOfJoin(kept, ',');
    }
  }

  // ----- The columns after the move -----

  lemma ArrivedShows(was: Option<string>, e: Entry, q: Path, k: Kind)
    requires Vacant(was, k)
    requires e.Dir? ==> forall i :: 0 <= i < |e.kids| ==> ValidPath(q + [e.kids[i]])
    ensures Shows(Arrived(e, q, k, was), e, q, k)
  {
    if e.Dir? {
      JoinedList(q, e.kids);
    }
    hide ListOf;
  }

  /** The store after a move: the subtree's columns, and the two lists. */
  ghost predicate MoveDone(s: Columns, s': Columns, t: Tree, p: Path, d: Path, target: Option<string>, source: Option<string>)
    requires p != []
  {
    && Tidy(s')
    && forall q, k :: ValidCol(q, k) ==>
         At(s', q, k) ==
         if q == Parent(p) && k == List then source
         else if q == d && k == List then target
         else AfterMove(s, t, p, d + [Name(p)], q, k)
  }

  lemma StoresAt(s: Columns, t: Tree, q: Path, k: Kind)
    requires Stores(s, t) && ValidCol(q, k)
    ensures q in t ==> Shows(At(s, q, k), t[q], q, k)
    ensures q !in t ==> Vacant(At(s, q, k), k)
  {
    assert q in t ==> [] <= q;
  }

  lemma ArrivedColumn(t: Tree, p: Path, d: Path, was: Option<string>, q: Path, k: Kind)
    requires CanMove(t, p, d) && d + [Name(p)] <= q && p + q[|d| + 1..] in t && Vacant(was, k)
    ensures Shows(Arrived(t[p + q[|d| + 1..]], q, k, was), t[p + q[|d| + 1..]], q, k)
  {
    var p' := d + [Name(p)];
    var r := p + q[|p'|..];
    var e := t[r];
    hide WellFormed, Arrived, Shows, NamesOk;
    if e.Dir? {
      forall i | 0 <= i < |e.kids| ensures ValidPath(q + [e.kids[i]]) {
        EntryFacts(t, r);
        Shift(p, p', q, e.kids[i]);
        assert e.kids[i] in e.kids;
        ShiftedValid(t, p, p', q + [e.kids[i]]);
      }
    }
    ArrivedShows(was, e, q, k);
  }

  lemma StayingColumn(s: Columns, t: Tree, p: Path, d: Path, target: Option<string>, source: Option<string>, q: Path, k: Kind)
    requires Stores(s, t) && CanMove(t, p, d) && ValidCol(q, k) && q in t && !(p <= q)
    requires ListOf(target, d, t[d].kids + [Name(p)])
    requires Parent(p) in t && t[Parent(p)].Dir? && ListOf(source, Parent(p), Without(t[Parent(p)].kids, Name(p)))
    ensures Shows(if q == Parent(p) && k == List then source else if q == d && k == List then target else At(s, q, k), Relisted(t, p, d, q), q, k)
  {
    hide WellFormed, NamesOk, ListOf, Stores, At, ValidCol;
    StoresAt(s, t, q, k);
    assert Parent(p) != d by { MoveIsApart(t, p, d); }
  }

  /** One column of the moved tree. */
  lemma MovedColumn(s: Columns, s': Columns, t: Tree, p: Path, d: Path, target: Option<string>, source: Option<string>, q: Path, k: Kind)
    requires Stores(s, t) && CanMove(t, p, d) && MoveDone(s, s', t, p, d, target, source) && ValidCol(q, k)
    requires ListOf(target, d, t[d].kids + [Name(p)])
    requires Parent(p) in t && t[Parent(p)].Dir? && ListOf(source, Parent(p), Without(t[Parent(p)].kids, Name(p)))
    ensures
      var u := MoveTree(t, p, d);
      (q in u ==> Shows(At(s', q, k), u[q], q, k)) && (q !in u ==> Vacant(At(s', q, k), k))
  {
    var p', u := d + [Name(p)], MoveTree(t, p, d);
    hide MoveTree, NamesOk, WellFormed, ListOf, Stores, At, Arrived, ValidCol, Shows, Relisted, Tidy;
    MoveTreeAt(t, p, d, q);
    MoveIsApart(t, p, d);
    StoresAt(s, t, q, k);
    PrefixesMeet(p, p', q);
    assert At(s', q, k) == if q == Parent(p) && k == List then source else if q == d && k == List then target else AfterMove(s, t, p, p', q, k);
    hide MoveDone;
    if p' <= q && p + q[|p'|..] in t {
      assert q !in t;
      ArrivedColumn(t, p, d, At(s, q, k), q, k);
    } else if q in t && !(p <= q) {
      StayingColumn(s, t, p, d, target, source, q, k);
    }
  }

  lemma MoveStores(s: Columns, s': Columns, t: Tree, p: Path, d: Path, target: Option<string>, source: Option<string>)
    requires Stores(s, t) && CanMove(t, p, d) && MoveDone(s, s', t, p, d, target, source)
    requires ListOf(target, d, t[d].kids + [Name(p)])
    requires Parent(p) in t && t[Parent(p)].Dir? && ListOf(source, Parent(p), Without(t[Parent(p)].kids, Name(p)))
    ensures Stores(s', MoveTree(t, p, d))
  {
    MovedTreeWellFormed(t, p, d);
    var u := MoveTree(t, p, d);
    assert Tidy(s');
    hide MoveTree, ValidCol, WellFormed, ListOf, At, Shows, Vacant, MoveDone, CanMove, Tidy;
    forall q, k | ValidCol(q, k)
      ensures q in u ==> Shows(At(s', q, k), u[q], q, k)
      ensures q !in u ==> Vacant(At(s', q, k), k)
    {
      MovedColumn(s, s', t, p, d, target, source, q, k);
    }
  }

  // ----- The code -----

  method RemoveItem(items: seq<string>, item: string) returns (kept: seq<string>)
    ensures kept == Without(items, item)
  {
    kept := [];
    for i := 0 to |items|
      invariant kept + Without(items[i..], item) == Without(items, item)
    {
      assert items[i..][0] == items[i] && items[i..][1..] == items[i + 1..];
      if items[i] != item {
        kept := kept + [items[i]];
      }
    }
  }

  function ListColumn(folder: string): string {
    if folder == "" then "metadata" else folder + "-metadata"
  }

  lemma ListColumnOf(d: Path)
    requires d == [] || NamesOk(d)
    ensures ListColumn(PathStr(d)) == Col(d, List)
  {
    if d != [] {
      PathStrPlain(d);
    }
  }

  lemma NameAndParent(p: Path)
    requires ValidPath(p)
    ensures AfterLast(PathStr(p), '/') == Name(p) && BeforeLast(PathStr(p), '/') == PathStr(Parent(p))
    ensures PathStr(p) == PathStr(Parent(p) + [Name(p)])
  {
    assert p == Parent(p) + [Name(p)];
    PathStrChild(Parent(p), Name(p));
    if Parent(p) == [] {
      LastOfNone(Name(p), '/');
    } else {
      LastOfAppend(PathStr(Parent(p)), Name(p), '/');
    }
  }

  /** The list text of folder d, as the code reads it. */
  ghost function ListText(s: Columns, d: Path): string {
    Fetch(s, Col(d, List))
  }

  /** The source parent's list column after the removal: gone when nothing is left in it. */
  ghost function SourceList(text: string, path: string): Option<string> {
    var kept := Without(Split(text, ','), path);
    if kept == [] then None else Some(Join(kept, ','))
  }

  method AppendToList(kv: Row, folder: string, path: string, ghost d: Path)
    requires ValidCol(d, List) && folder == PathStr(d)
    modifies kv
    ensures Differs(old(kv.cols), kv.cols, d, List, Some(Appended(ListText(old(kv.cols), d), path)))
  {
    ListColumnOf(d);
    hide PathStr, Tidy, NamesOk, ListColumn, Appended, Differs;
    var metaCol := ListColumn(folder);
    var meta := kv.Get(metaCol);
    kv.Put(metaCol, Appended(meta, path), d, List);
  }

  method RemoveFromList(kv: Row, folder: string, path: string, ghost d: Path)
    requires ValidCol(d, List) && folder == PathStr(d)
    modifies kv
    ensures Differs(old(kv.cols), kv.cols, d, List, SourceList(ListText(old(kv.cols), d), path))
  {
    ListColumnOf(d);
    hide PathStr, Tidy, NamesOk, ListColumn, Split, Join, Differs;
    var metaCol := ListColumn(folder);
    var meta := kv.Get(metaCol);
    var items := SplitString(meta, ',');
    var kept := RemoveItem(items, path);
    if kept == [] {
      kv.Delete(metaCol, d, List);
    } else {
      var rebuilt := JoinStrings(kept, ',');
      kv.Put(metaCol, rebuilt, d, List);
    }
  }

  /** The two list updates, one after the other. */
  ghost predicate TwoLists(s1: Columns, s': Columns, p: Path, d: Path, oldAbs: string, newAbs: string)
    requires p != []
  {
    exists s2 :: && Differs(s1, s2, d, List, Some(Appended(ListText(s1, d), newAbs)))
                 && Differs(s2, s', Parent(p), List, SourceList(ListText(s2, Parent(p)), oldAbs))
                 && Tidy(s')
  }

  /** The two list updates that follow the recursive move. */
  method UpdateParents(kv: Row, oldAbs: string, newAbs: string, srcParent: string, newParent: string,
                       ghost p: Path, ghost d: Path)
    requires p != [] && ValidCol(d, List) && ValidCol(Parent(p), List)
    requires srcParent == PathStr(Parent(p)) && newParent == PathStr(d) && Tidy(kv.cols)
    modifies kv
    ensures TwoLists(old(kv.cols), kv.cols, p, d, oldAbs, newAbs)
  {
    hide PathStr, ValidCol, Appended, SourceList, Col, At, ListText;
    AppendToList(kv, newParent, newAbs, d);
    RemoveFromList(kv, srcParent, oldAbs, Parent(p));
    hide Tidy;
  }

  /** With the source's list in place and two different folders, the updates do not meet. */
  lemma TwoListsApart(s1: Columns, s': Columns, p: Path, d: Path, oldAbs: string, newAbs: string)
    requires p != [] && ValidCol(d, List) && ValidCol(Parent(p), List) && d != Parent(p) && Col(Parent(p), List) in s1
    requires TwoLists(s1, s', p, d, oldAbs, newAbs)
    ensures ParentsUpdated(s1, s', p, d, oldAbs, newAbs)
  {
    hide PathStr, Tidy, ValidCol, Appended, SourceList;
    var s2 :| && Differs(s1, s2, d, List, Some(Appended(ListText(s1, d), newAbs)))
              && Differs(s2, s', Parent(p), List, SourceList(ListText(s2, Parent(p)), oldAbs)) && Tidy(s');
    assert At(s2, Parent(p), List) == At(s1, Parent(p), List);
    assert ListText(s2, Parent(p)) == ListText(s1, Parent(p));
    hide Col, At, ListText;
  }

  /** A folder that names a child has a list column. */
  lemma ParentHasList(s: Columns, t: Tree, p: Path)
    requires Stores(s, t) && p in t && p != []
    ensures Parent(p) in t && t[Parent(p)].Dir? && Name(p) in t[Parent(p)].kids
    ensures Col(Parent(p), List) in s && (Parent(p) == [] || ValidPath(Parent(p)))
    ensures ListOf(At(s, Parent(p), List), Parent(p), t[Parent(p)].kids)
  {
    EntryFacts(t, p);
    EntryFacts(t, Parent(p));
    StoresAt(s, t, Parent(p), List);
  }

  /** The recursion leaves the list of a folder outside the two subtrees as it was. */
  lemma ListKept(s: Columns, s1: Columns, t: Tree, p: Path, d: Path, e: Path)
    requires CanMove(t, p, d) && Framed(s, s1, p, d + [Name(p)])
    requires e in t && !(p <= e) && ValidCol(e, List)
    ensures At(s1, e, List) == At(s, e, List)
    ensures Col(e, List) in s ==> ListText(s1, e) == ListText(s, e)
    ensures Col(e, List) !in s ==> StartsWith(ListText(s1, e), "ERR")
  {
    MoveIsApart(t, p, d);
    hide WellFormed, Col, ValidCol, Tidy;
  }

  /** With a good target list, the appended text lists the children and the newcomer. */
  lemma TargetListed(s: Columns, t: Tree, p: Path, d: Path)
    requires Stores(s, t) && CanMove(t, p, d) && !ErrText(At(s, d, List))
    ensures ListOf(Some(Appended(ListText(s, d), PathStr(d + [Name(p)]))), d, t[d].kids + [Name(p)])
  {
    EntryFacts(t, d);
    StoresAt(s, t, d, List);
    hide Stores, CanMove, WellFormed, Appended, PathStr, Split, ListOf;
    AppendedList(At(s, d, List), ListText(s, d), d, t[d].kids, Name(p));
  }

  lemma SourceListed(s: Columns, t: Tree, p: Path)
    requires Stores(s, t) && p in t && p != []
    ensures Parent(p) in t && t[Parent(p)].Dir?
    ensures ListOf(SourceList(ListText(s, Parent(p)), PathStr(p)), Parent(p), Without(t[Parent(p)].kids, Name(p)))
  {
    hide PathStr, Split, Join, Without, ListOf, At, SourceList, NamesOk, WellFormed;
    ParentHasList(s, t, p);
    SourceTextListed(s, t, p);
  }

  lemma SourceTextListed(s: Columns, t: Tree, p: Path)
    requires WellFormed(t) && p in t && p != [] && Parent(p) in t && t[Parent(p)].Dir?
    requires Col(Parent(p), List) in s && ListOf(At(s, Parent(p), List), Parent(p), t[Parent(p)].kids)
    ensures ListOf(SourceList(ListText(s, Parent(p)), PathStr(p)), Parent(p), Without(t[Parent(p)].kids, Name(p)))
  {
    hide PathStr, Split, Join, Without, ListOf, NamesOk, WellFormed, Col;
    var par := Parent(p);
    EntryFacts(t, p);
    forall i | 0 <= i < |t[par].kids| ensures ValidPath(par + [t[par].kids[i]]) { KidIsValid(t, par, i); }
    assert p == par + [Name(p)];
    RemovedList(ListText(s, par), par, t[par].kids, Name(p));
  }

  /** A column that no entry can have shows that the tree did not arrive. */
  lemma BrokenIsNotStored(s': Columns, t: Tree, p: Path, d: Path)
    requires CanMove(t, p, d) && Broken(s', t, p, d + [Name(p)])
    ensures !Stores(s', MoveTree(t, p, d))
  {
    hide WellFormed, MoveTree, At, NamesOk, Stores, BrokenAt;
    var p', u := d + [Name(p)], MoveTree(t, p, d);
    var q :| q in t && p <= q && BrokenAt(s', t[q], p' + q[|p|..]);
    var r := p' + q[|p|..];
    assert r[|p'|..] == q[|p|..] && p + q[|p|..] == q;
    MoveTreeAt(t, p, d, r);
    ArrivalValid(t, p, p', q);
    if Stores(s', u) {
      StoresAt(s', u, r, List);
      StoresAt(s', u, r, Content);
      NotBroken(s', t[q], r);
    }
  }

  lemma NotBroken(s: Columns, e: Entry, r: Path)
    requires Shows(At(s, r, List), e, r, List) && Shows(At(s, r, Content), e, r, Content)
    ensures !BrokenAt(s, e, r)
  {
    hide At, Split, PathStr;
    SplitOfNone("", ',');
    assert NonEmpty([""]) == [];
    if e.Dir? {
      assert |KidPaths(r, e.kids)| == |e.kids|;
    }
  }

  /** When the target's list reads like an error, the newcomer replaces everything in it. */
  lemma LosesSiblings(s: Columns, s': Columns, t: Tree, p: Path, d: Path)
    requires Stores(s, t) && CanMove(t, p, d) && t[d].kids != []
    requires At(s', d, List) == Some(PathStr(d + [Name(p)]))
    ensures !Stores(s', MoveTree(t, p, d))
  {
    hide WellFormed, MoveTree, Split, PathStr, At, NamesOk;
    var u := MoveTree(t, p, d);
    MoveTreeAt(t, p, d, d);
    EntryFacts(t, d);
    var path := PathStr(d + [Name(p)]);
    PathStrPlain(d + [Name(p)]);
    SplitOfNone(path, ',');
    assert |NonEmpty([path])| <= 1 && |KidPaths(d, t[d].kids + [Name(p)])| > 1;
    hide NonEmpty;
    if Stores(s', u) {
      StoresAt(s', u, d, List);
    }
  }

  /** The columns after both list updates, in terms of the columns before them. */
  ghost predicate ParentsUpdated(s1: Columns, s': Columns, p: Path, d: Path, oldAbs: string, newAbs: string)
    requires p != []
  {
    && Tidy(s')
    && forall q, k :: ValidCol(q, k) ==>
         At(s', q, k) ==
         if q == Parent(p) && k == List then SourceList(ListText(s1, Parent(p)), oldAbs)
         else if q == d && k == List then Some(Appended(ListText(s1, d), newAbs))
         else At(s1, q, k)
  }

  lemma StoresWellFormed(s: Columns, t: Tree)
    requires Stores(s, t)
    ensures WellFormed(t)
  {
  }

  /** The list columns that the updates start from are those from before the recursion. */
  lemma ParentsKept(s: Columns, s1: Columns, s': Columns, t: Tree, p: Path, d: Path)
    requires Stores(s, t) && CanMove(t, p, d)
    requires Framed(s, s1, p, d + [Name(p)])
    requires ParentsUpdated(s1, s', p, d, PathStr(p), PathStr(d + [Name(p)]))
    ensures ParentsUpdatedFrom(s, s1, s', p, d)
  {
    hide WellFormed, Tidy, PathStr, SourceList, At, Framed, Stores, StartsWith, NamesOk;
    assert WellFormed(t) by { StoresWellFormed(s, t); }
    EntryFacts(t, d);
    MoveIsApart(t, p, d);
    ParentHasList(s, t, p);
    ParentCols(s, t, p, d);
    ListKept(s, s1, t, p, d, d);
    ListKept(s, s1, t, p, d, Parent(p));
  }

  ghost predicate ParentsUpdatedFrom(s: Columns, s1: Columns, s': Columns, p: Path, d: Path)
    requires p != []
  {
    && Tidy(s')
    && forall q, k :: ValidCol(q, k) ==>
         At(s', q, k) ==
         if q == Parent(p) && k == List then SourceList(ListText(s, Parent(p)), PathStr(p))
         else if q == d && k == List then Some(Appended(ListText(s, d), PathStr(d + [Name(p)])))
         else At(s1, q, k)
  }

  /** What the recursion left broken stays so when the two lists are updated. */
  lemma BrokenAfterParents(s: Columns, s1: Columns, s': Columns, t: Tree, p: Path, d: Path)
    requires CanMove(t, p, d) && Broken(s1, t, p, d + [Name(p)]) && ParentsUpdatedFrom(s, s1, s', p, d)
    ensures Broken(s', t, p, d + [Name(p)])
  {
    hide WellFormed, BrokenAt, NamesOk, ParentsUpdatedFrom, Apart;
    var p' := d + [Name(p)];
    MoveIsApart(t, p, d);
    var q :| q in t && p <= q && BrokenAt(s1, t[q], p' + q[|p|..]);
    ArrivalValid(t, p, p', q);
    assert !(p' <= p) by { ApartDiffer(p, p'); }
    BrokenStays(s, s1, s', t[q], p, d, q[|p|..]);
  }

  lemma BrokenStays(s: Columns, s1: Columns, s': Columns, e: Entry, p: Path, d: Path, rest: Path)
    requires p != [] && ParentsUpdatedFrom(s, s1, s', p, d) && ValidPath(d + [Name(p)] + rest) && !(d + [Name(p)] <= p)
    requires BrokenAt(s1, e, d + [Name(p)] + rest)
    ensures BrokenAt(s', e, d + [Name(p)] + rest)
  {
    hide At, NamesOk, SourceList, Appended, ListText, Tidy;
    var p', r := d + [Name(p)], d + [Name(p)] + rest;
    assert ValidCol(r, List) && ValidCol(r, Content);
    assert r != d by { assert |r| > |d|; }
    assert r != Parent(p) by { assert Parent(p) <= p && p' <= r; }
  }

  lemma GoodSource(s: Columns, s1: Columns, s': Columns, t: Tree, p: Path, d: Path)
    requires CanMove(t, p, d) && Moved(s, s1, t, p, d + [Name(p)]) && ParentsUpdatedFrom(s, s1, s', p, d)
    ensures MoveDone(s, s', t, p, d, Some(Appended(ListText(s, d), PathStr(d + [Name(p)]))), SourceList(ListText(s, Parent(p)), PathStr(p)))
  {
    hide WellFormed, Tidy, PathStr, SourceList, At, AfterMove, ListText, Appended, ValidCol, CanMove;
  }

  /** Every column after the move: the subtree's by their new and old paths, the two lists, and no others. */
  ghost predicate ColumnsMoved(s: Columns, s': Columns, t: Tree, p: Path, d: Path)
    requires p != []
  {
    MoveDone(s, s', t, p, d, Some(Appended(ListText(s, d), PathStr(d + [Name(p)]))), SourceList(ListText(s, Parent(p)), PathStr(p)))
  }

  lemma DoneIsMoved(s: Columns, s': Columns, t: Tree, p: Path, d: Path)
    requires p != []
    requires MoveDone(s, s', t, p, d, Some(Appended(ListText(s, d), PathStr(d + [Name(p)]))), SourceList(ListText(s, Parent(p)), PathStr(p)))
    ensures ColumnsMoved(s, s', t, p, d)
  {
    hide MoveDone;
  }

  /** Putting the recursion and the list updates together. */
  lemma MoveFolderResult(s: Columns, s1: Columns, s': Columns, t: Tree, p: Path, d: Path)
    requires Stores(s, t) && CanMove(t, p, d) && Relocated(s, s1, t, p, d + [Name(p)])
    requires ParentsUpdated(s1, s', p, d, PathStr(p), PathStr(d + [Name(p)]))
    ensures Stores(s', MoveTree(t, p, d)) <==> NoErrLists(s, t, p) && !ErrText(At(s, d, List))
    ensures NoErrLists(s, t, p) ==> ColumnsMoved(s, s', t, p, d)
  {
    hide *;
    hide Parent, Name;
    CanMoveFacts(t, p, d);
    MoveIsApart(t, p, d);
    assert Below(s, t, p) by { StoresBelow(s, t, p); }
    assert NamesOk(d + [Name(p)]) by { ValidIsNamesOk(d + [Name(p)]); }
    RelocatedFramed(s, s1, t, p, d + [Name(p)]);
    ParentsKept(s, s1, s', t, p, d);
    if !NoErrLists(s, t, p) {
      RelocatedBreaks(s, s1, t, p, d + [Name(p)]);
      BrokenAfterParents(s, s1, s', t, p, d);
      BrokenIsNotStored(s', t, p, d);
    } else {
      RelocatedMoves(s, s1, t, p, d + [Name(p)]);
      GoodSource(s, s1, s', t, p, d);
      assert ColumnsMoved(s, s', t, p, d) by { DoneIsMoved(s, s', t, p, d); }
      if ErrText(At(s, d, List)) {
        ErrTarget(s, s', t, p, d);
      } else {
        TargetListed(s, t, p, d);
        SourceListed(s, t, p);
        MoveStores(s, s', t, p, d, Some(Appended(ListText(s, d), PathStr(d + [Name(p)]))), SourceList(ListText(s, Parent(p)), PathStr(p)));
      }
    }
  }

  lemma StoresBelow(s: Columns, t: Tree, p: Path)
    requires Stores(s, t)
    ensures Below(s, t, p) && WellFormed(t) && Tidy(s)
  {
    assert forall q :: q in t && p <= q ==> [] <= q;
    hide WellFormed, Tidy, Shows;
  }

  lemma CanMoveFacts(t: Tree, p: Path, d: Path)
    requires CanMove(t, p, d)
    ensures WellFormed(t) && p in t && p != [] && t[p].Dir? && d in t && t[d].Dir? && ValidPath(d + [Name(p)]) && !(p <= d)
  {
  }

  lemma ErrTarget(s: Columns, s': Columns, t: Tree, p: Path, d: Path)
    requires Stores(s, t) && CanMove(t, p, d) && ErrText(At(s, d, List))
    requires MoveDone(s, s', t, p, d, Some(Appended(ListText(s, d), PathStr(d + [Name(p)]))), SourceList(ListText(s, Parent(p)), PathStr(p)))
    ensures !Stores(s', MoveTree(t, p, d))
  {
    hide *;
    hide Parent, Name;
    CanMoveFacts(t, p, d);
    MoveIsApart(t, p, d);
    ParentCols(s, t, p, d);
    StoresAt(s, t, d, List);
    ErrListHasAKid(s, t, d);
    NewTargetList(s, s', t, p, d, SourceList(ListText(s, Parent(p)), PathStr(p)));
    LosesSiblings(s, s', t, p, d);
  }

  /** A target's list that reads like an error is replaced by the new path. */
  lemma NewTargetList(s: Columns, s': Columns, t: Tree, p: Path, d: Path, source: Option<string>)
    requires p != [] && d != Parent(p) && ValidCol(d, List) && ErrText(At(s, d, List))
    requires MoveDone(s, s', t, p, d, Some(Appended(ListText(s, d), PathStr(d + [Name(p)]))), source)
    ensures At(s', d, List) == Some(PathStr(d + [Name(p)]))
  {
    hide Tidy, PathStr, AfterMove, ValidCol, Col;
  }

  // ----- Every store of a tree is one that the recursion can work on -----

  lemma StoredListIsOwn(s: Columns, t: Tree, q: Path)
    requires Stores(s, t) && NamesOk(q)
    ensures OwnList(q, At(s, q, List))
    ensures ValidPath(q) && At(s, q, Marker) == Some(FOLDER) ==> q in t && t[q].Dir? && KidList(q, At(s, q, List))
  {
    assert FOLDER[0] == 'K' && TOMBSTONE[0] == 'D' && FOLDER[4] == 'o' && FILE[4] == 'i';
    assert ValidCol(q, List) && (ValidPath(q) ==> ValidCol(q, Marker)) && q != [];
    hide Stores, NamesOk, ValidCol, Split, PathStr, FOLDER, FILE, TOMBSTONE;
    StoresAt(s, t, q, List);
    if ValidPath(q) {
      StoresAt(s, t, q, Marker);
    }
    if q in t {
      StoresWellFormed(s, t);
      match t[q]
      case Dir(kids) => KidListIsOwn(t, q, At(s, q, List));
      case Chunked(cs) => ChunkListIsOwn(t, q);
      case Single(_) =>
    }
  }

  lemma KidListIsOwn(t: Tree, q: Path, v: Option<string>)
    requires WellFormed(t) && q in t && t[q].Dir? && ListOf(v, q, t[q].kids)
    ensures KidList(q, v) && OwnList(q, v)
  {
    hide WellFormed, PathStr, Split;
    if v.Some? {
      var items := Split(v.value, ',');
      forall i | 0 <= i < |items| ensures items[i] == "" || IsKid(q, items[i]) {
        if items[i] != "" {
          assert items[i] in KidPaths(q, t[q].kids);
          var j :| 0 <= j < |t[q].kids| && KidPaths(q, t[q].kids)[j] == items[i];
          KidIsValid(t, q, j);
        }
      }
    }
  }

  lemma ChunkListIsOwn(t: Tree, q: Path)
    requires WellFormed(t) && q in t && q != [] && t[q].Chunked?
    ensures OwnList(q, Some(Join(ChunkNames(q, |t[q].chunks|), ',')))
  {
    EntryFacts(t, q);
    hide WellFormed, PathStr, Split, Join;
    FileListSplits(t[q], q);
    var cs := ChunkNames(q, |t[q].chunks|);
    forall i | 0 <= i < |cs| ensures IsChunk(q, cs[i]) { assert cs[i] == ChunkName(q, i + 1); }
  }

  lemma StoresConfined(s: Columns, t: Tree)
    requires Stores(s, t)
    ensures Confined(s)
  {
    assert Tidy(s);
    hide *;
    forall q | NamesOk(q) ensures OwnList(q, At(s, q, List)) { StoredListIsOwn(s, t, q); }
    forall q | ValidPath(q) && At(s, q, Marker) == Some(FOLDER) ensures KidList(q, At(s, q, List)) {
      ValidIsNamesOk(q);
      StoredListIsOwn(s, t, q);
    }
    ConfinedFrom(s);
  }

  /** A finite tree has a depth. */
  lemma {:induction false} DepthOf(paths: set<Path>) returns (depth: nat)
    ensures forall q :: q in paths ==> |q| <= depth
    decreases |paths|
  {
    if paths == {} {
      depth := 0;
    } else {
      var q :| q in paths;
      depth := DepthOf(paths - {q});
      depth := if |q| <= depth then depth else |q|;
    }
  }

  lemma StoresLoose(s: Columns, t: Tree, p0: Path) returns (depth: nat)
    requires Stores(s, t)
    ensures Loose(s, p0, depth)
  {
    StoresConfined(s, t);
    depth := DepthOf(t.Keys);
    hide Confined, Stores, At;
    forall q | ValidPath(q) && p0 <= q && At(s, q, Marker) == Some(FOLDER) ensures |q| <= depth {
      ValidIsNamesOk(q);
      StoredListIsOwn(s, t, q);
    }
  }

  // ----- Moving a folder -----

  /** The code ran to the end with a recursion that is known column by column, then the two list updates. */
  ghost predicate KnownOutcome(s: Columns, s': Columns, t: Tree, p: Path, d: Path)
    requires p != []
  {
    exists s1 :: && Relocated(Over(s, d + [Name(p)], FOLDER), s1, t, p, d + [Name(p)])
                 && TwoLists(s1, s', p, d, PathStr(p), PathStr(d + [Name(p)]))
  }

  /** The code ran to the end, and apart from the two lists it stayed within the two paths. */
  ghost predicate FramedOutcome(s: Columns, s': Columns, p: Path, d: Path)
    requires p != []
  {
    exists s1 :: && Framed(Over(s, d + [Name(p)], FOLDER), s1, p, d + [Name(p)])
                 && TwoLists(s1, s', p, d, PathStr(p), PathStr(d + [Name(p)]))
  }

  /** The code ran to the end without following anything: only the two paths' own columns and the two lists have changed. */
  ghost predicate HollowOutcome(s: Columns, s': Columns, p: Path, d: Path)
    requires p != []
  {
    var p' := d + [Name(p)];
    exists s1 :: && FolderStep(Over(s, p', FOLDER), s1, p, p', Join(Rebased(Items(s, p), PathStr(p')), ','))
                 && TwoLists(s1, s', p, d, PathStr(p), PathStr(p'))
  }

  ghost predicate IsFolder(t: Tree, p: Path) {
    p in t && t[p].Dir?
  }

  /**
   Moving a folder anywhere but into itself or below itself. Where nothing of its name is at the target,
   every name, every byte and every other folder is kept, exactly when no list at or below the moved
   folder, nor the target's list, starts with the text ERR, which the code takes for a failed read. That the
   source is a folder is not checked; where it is none, an entry of its name appears at the target.
   */
  method MoveFolder(kv: Row, oldAbs: string, newParentFolder: string, ghost t: Tree, ghost p: Path, ghost d: Path) returns (threw: bool)
    requires Stores(kv.cols, t) && ValidPath(p) && IsFolder(t, d) && !(p <= d)
    requires oldAbs == PathStr(p) && newParentFolder == PathStr(d)
    modifies kv
    ensures !IsFolder(t, p) ==> !threw && HollowOutcome(old(kv.cols), kv.cols, p, d)
    ensures IsFolder(t, p) && !threw ==> FramedOutcome(old(kv.cols), kv.cols, p, d)
    ensures IsFolder(t, p) && Exact(t, p, d + [Name(p)]) ==> !threw && KnownOutcome(old(kv.cols), kv.cols, t, p, d)
    ensures CanMove(t, p, d) ==>
              (Stores(kv.cols, MoveTree(t, p, d)) <==> NoErrLists(old(kv.cols), t, p) && !ErrText(At(old(kv.cols), d, List)))
    ensures CanMove(t, p, d) && NoErrLists(old(kv.cols), t, p) ==> ColumnsMoved(old(kv.cols), kv.cols, t, p, d)
  {
    ghost var s, p' := kv.cols, d + [Name(p)];
    ghost var depth := StoresLoose(s, t, p);
    MoveReady(s, t, p, d);
    var name, srcParent := AfterLast(oldAbs, '/'), BeforeLast(oldAbs, '/');
    var newAbs := if newParentFolder == "" then name else newParentFolder + "/" + name;
    ghost var dead, ok := !IsFolder(t, p), IsFolder(t, p) && Exact(t, p, p');
    hide *;
    threw := RenameFolderMoveRec(kv, oldAbs, newAbs, dead, ok, t, p, p', p, p', depth);
    ghost var s1 := kv.cols;
    if threw {
      NotExactIsNotCanMove(t, p, d);
      return;
    }
    if dead {
      StepIsTidy(Over(s, p', FOLDER), s1, p, p', Join(Rebased(Items(s, p), newAbs), ','));
    } else {
      FramedTidy(Over(s, p', FOLDER), s1, p, p');
    }
    UpdateParents(kv, oldAbs, newAbs, srcParent, newParentFolder, p, d);
    if dead {
      Hollow(s, s1, kv.cols, p, d);
      NotAFolderCannotMove(t, p, d);
    } else {
      Outcomes(s, s1, kv.cols, t, p, d, ok);
      if CanMove(t, p, d) {
        MoveSucceeds(s, s1, kv.cols, t, p, d);
      }
    }
  }

  lemma Hollow(s: Columns, s1: Columns, s': Columns, p: Path, d: Path)
    requires p != []
    requires FolderStep(Over(s, d + [Name(p)], FOLDER), s1, p, d + [Name(p)], Join(Rebased(Items(s, p), PathStr(d + [Name(p)])), ','))
    requires TwoLists(s1, s', p, d, PathStr(p), PathStr(d + [Name(p)]))
    ensures HollowOutcome(s, s', p, d)
  {
    hide FolderStep, TwoLists, Over, PathStr, Items, Rebased, Join;
  }

  lemma NotAFolderCannotMove(t: Tree, p: Path, d: Path)
    requires !IsFolder(t, p)
    ensures !CanMove(t, p, d)
  {
    hide WellFormed;
  }

  lemma FramedTidy(s: Columns, s': Columns, p: Path, p': Path)
    requires Framed(s, s', p, p')
    ensures Tidy(s')
  {
  }

  lemma Outcomes(s: Columns, s1: Columns, s': Columns, t: Tree, p: Path, d: Path, ok: bool)
    requires p != [] && Framed(Over(s, d + [Name(p)], FOLDER), s1, p, d + [Name(p)])
    requires TwoLists(s1, s', p, d, PathStr(p), PathStr(d + [Name(p)]))
    requires ok ==> Relocated(Over(s, d + [Name(p)], FOLDER), s1, t, p, d + [Name(p)])
    ensures FramedOutcome(s, s', p, d) && (ok ==> KnownOutcome(s, s', t, p, d))
  {
    hide Framed, TwoLists, Relocated, Over, PathStr;
  }

  lemma NotExactIsNotCanMove(t: Tree, p: Path, d: Path)
    requires p != []
    ensures CanMove(t, p, d) ==> Exact(t, p, d + [Name(p)])
  {
    if CanMove(t, p, d) {
      MoveIsApart(t, p, d);
    }
  }

  lemma MoveSucceeds(s: Columns, s1: Columns, s': Columns, t: Tree, p: Path, d: Path)
    requires Stores(s, t) && CanMove(t, p, d) && Exact(t, p, d + [Name(p)]) ==> Relocated(Over(s, d + [Name(p)], FOLDER), s1, t, p, d + [Name(p)])
    requires Stores(s, t) && CanMove(t, p, d) && TwoLists(s1, s', p, d, PathStr(p), PathStr(d + [Name(p)]))
    ensures Stores(s', MoveTree(t, p, d)) <==> NoErrLists(s, t, p) && !ErrText(At(s, d, List))
    ensures NoErrLists(s, t, p) ==> ColumnsMoved(s, s', t, p, d)
  {
    NotExactIsNotCanMove(t, p, d);
    MoveIsApart(t, p, d);
    CanMoveFacts(t, p, d);
    assert Over(s, d + [Name(p)], FOLDER) == s;
    hide *;
    MoveReady(s, t, p, d);
    RelocatedFramed(s, s1, t, p, d + [Name(p)]);
    RecursionKeepsParentList(s, s1, t, p, d);
    TwoListsApart(s1, s', p, d, PathStr(p), PathStr(d + [Name(p)]));
    MoveFolderResult(s, s1, s', t, p, d);
  }

  lemma RecursionKeepsParentList(s: Columns, s1: Columns, t: Tree, p: Path, d: Path)
    requires Stores(s, t) && CanMove(t, p, d) && Framed(s, s1, p, d + [Name(p)])
    ensures Tidy(s1) && Col(Parent(p), List) in s1
  {
    ParentHasList(s, t, p);
    MoveIsApart(t, p, d);
    ListKept(s, s1, t, p, d, Parent(p));
  }

  /** What the code computes from the two path strings before it starts. */
  lemma MoveReady(s: Columns, t: Tree, p: Path, d: Path)
    requires Stores(s, t) && ValidPath(p) && IsFolder(t, d) && !(p <= d)
    ensures ValidCol(Parent(p), List) && ValidCol(d, List) && Tidy(s)
    ensures NamesOk(d + [Name(p)]) && Paired(p, d + [Name(p)], p, d + [Name(p)])
    ensures IsFolder(t, p) ==> At(s, p, Marker) == Some(FOLDER) && (Exact(t, p, d + [Name(p)]) ==> Movable(s, t, p, d + [Name(p)]))
    ensures !IsFolder(t, p) ==> ChunksOnly(Items(s, p), p)
    ensures BeforeLast(PathStr(p), '/') == PathStr(Parent(p))
    ensures PathStr(d + [Name(p)]) ==
            (if PathStr(d) == "" then AfterLast(PathStr(p), '/') else PathStr(d) + "/" + AfterLast(PathStr(p), '/'))
  {
    assert PathStr([]) == "" && p != [];
    assert IsFolder(t, p) ==> p in t && t[p].Dir?;
    assert d in t;
    hide *;
    hide Parent, Name;
    StoresBelow(s, t, p);
    PathCols(t, p, d);
    PrefixOfLonger(p, d, Name(p));
    NameAndParent(p);
    PathStrChild(d, Name(p));
    if d != [] {
      PathOfTree(t, d);
      PathStrPlain(d);
    }
    PairedWithItself(p, d + [Name(p)]);
    if IsFolder(t, p) {
      FolderMarker(s, t, p);
      MovableFrom(s, t, p, d + [Name(p)]);
    } else {
      NoFolderItems(s, t, p);
    }
  }

  lemma PathCols(t: Tree, p: Path, d: Path)
    requires WellFormed(t) && ValidPath(p) && d in t
    ensures p != [] && ValidCol(Parent(p), List) && ValidCol(d, List) && NamesOk(d + [Name(p)])
  {
    hide WellFormed;
    EntryFacts(t, d);
    assert ValidName(Name(p));
  }

  /** The list of a path that is no folder is missing, or reads like an error, or names chunks. */
  lemma NoFolderItems(s: Columns, t: Tree, p: Path)
    requires Stores(s, t) && ValidPath(p) && !IsFolder(t, p)
    ensures ChunksOnly(Items(s, p), p)
  {
    assert ValidCol(p, List);
    StoresWellFormed(s, t);
    var v := Fetch(s, Col(p, List));
    hide Stores, NamesOk, WellFormed, PathStr, Split, Join, Col, Shows;
    NoFolderList(s, t, p);
    SplitOfNone("", ',');
    assert Followed([""], PathStr(p)) == [];
    if !StartsWith(v, "ERR") {
      FileListSplits(t[p], p);
      FollowedMembers(ChunkNames(p, |t[p].chunks|), PathStr(p));
      hide Followed;
    }
  }

  lemma NoFolderList(s: Columns, t: Tree, p: Path)
    requires Stores(s, t) && ValidPath(p) && !IsFolder(t, p)
    ensures
      var v := Fetch(s, Col(p, List));
      !StartsWith(v, "ERR") ==> p in t && t[p].Chunked? && t[p].chunks != [] && v == Join(ChunkNames(p, |t[p].chunks|), ',')
  {
    assert ValidCol(p, List);
    StoresWellFormed(s, t);
    hide Stores, NamesOk, WellFormed, PathStr, Join, Col, ChunkNames;
    StoresAt(s, t, p, List);
    if p in t {
      EntryFacts(t, p);
    }
  }

  lemma PairedWithItself(p: Path, p': Path)
    requires p <= p' ==> p == p'
    ensures Paired(p, p', p, p')
  {
    assert p[|p|..] == [] && p'[|p'|..] == [];
  }

  lemma MovableFrom(s: Columns, t: Tree, p: Path, p': Path)
    requires WellFormed(t) && p in t && t[p].Dir? && Below(s, t, p)
    ensures Exact(t, p, p') ==> Movable(s, t, p, p')
  {
    hide WellFormed, Below, Exact;
  }

  lemma FolderMarker(s: Columns, t: Tree, p: Path)
    requires Stores(s, t) && p in t && p != [] && t[p].Dir?
    ensures At(s, p, Marker) == Some(FOLDER) && ValidPath(p)
  {
    StoresWellFormed(s, t);
    PathOfTree(t, p);
    assert ValidCol(p, Marker);
    hide Stores, WellFormed, NamesOk, At;
    StoresAt(s, t, p, Marker);
  }

  lemma ParentCols(s: Columns, t: Tree, p: Path, d: Path)
    requires Stores(s, t) && p in t && p != [] && d in t
    ensures ValidCol(Parent(p), List) && ValidCol(d, List) && NamesOk(d + [Name(p)])
  {
    hide WellFormed, Stores, Below;
    StoresWellFormed(s, t);
    EntryFacts(t, p);
    EntryFacts(t, d);
    EntryFacts(t, Parent(p));
    assert ValidName(Name(p));
  }

  lemma PrefixOfLonger(p: Path, d: Path, n: string)
    requires !(p <= d)
    ensures p <= d + [n] ==> p == d + [n]
  {
    if |p| <= |d| {
      assert d[..|p|] == (d + [n])[..|p|];
    }
  }
}
