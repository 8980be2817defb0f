/**
 What the moves do that the handler lets through although something of the name is at the target, or
 although the name is that of the root's list column. Each of them loses entries.
 */
module StrayMoves {
  import opened Options
  import opened Text
  import opened FileTree
  import opened KvRow
  import opened Visits
  import opened FileMoves
  import opened TreeMoves
  import opened FolderMove

  // ----- What is lost -----

  /** The target names only the newcomer; whatever tree is stored now has none of its other children. */
  ghost predicate SiblingsLost(s': Columns, d: Path, n: string) {
    && At(s', d, List) == Some(PathStr(d + [n]))
    && forall u, m :: Stores(s', u) && m != n ==> d + [m] !in u
  }

  /** The folder is gone as far as deleting it would go, and its parent's list with it. */
  ghost predicate FolderLost(s: Columns, s': Columns, t: Tree, p: Path)
    requires p != []
  {
    && Tidy(s')
    && (forall q, k :: ValidCol(q, k) ==>
          At(s', q, k) ==
          if q == Parent(p) && k == List then None
          else if q in t && Seen(s, p, q) then Gone(s, t[q], q, k) else At(s, q, k))
    && forall u, m :: Stores(s', u) ==> Parent(p) + [m] !in u
  }

  ghost predicate NoTree(s: Columns) {
    forall u :: !Stores(s, u)
  }

  lemma NoTreeFrom(s: Columns)
    requires forall u :: !Stores(s, u)
    ensures NoTree(s)
  {
    hide Stores;
  }

  /** The root's list is overwritten: no tree at all is stored any more. */
  ghost predicate RootLost(s': Columns, marker: string) {
    At(s', [], List) == Some(marker + ",metadata") && NoTree(s')
  }

  // ----- The children that a list still names -----

  lemma OnlyListed(s': Columns, u: Tree, d: Path, m: string)
    requires Stores(s', u) && d + [m] in u
    ensures d in u && u[d].Dir? && m in u[d].kids && ValidCol(d, List) && ListOf(At(s', d, List), d, u[d].kids)
  {
    hide Stores, WellFormed, At, ListOf;
    StoresWellFormed(s', u);
    EntryFacts(u, d + [m]);
    assert Parent(d + [m]) == d && Name(d + [m]) == m;
    assert ValidCol(d, List) by { EntryFacts(u, d); }
    StoresAt(s', u, d, List);
  }

  lemma OneName(d: Path, n: string, u: Tree)
    requires WellFormed(u) && d in u && u[d].Dir? && NamesOk(d + [n]) && ListOf(Some(PathStr(d + [n])), d, u[d].kids)
    ensures u[d].kids == [n]
  {
    hide WellFormed, PathStr, Split, NamesOk;
    var path := PathStr(d + [n]);
    PathStrPlain(d + [n]);
    SplitOfNone(path, ',');
    assert NonEmpty([path]) == [path];
    assert |KidPaths(d, u[d].kids)| == 1 && KidPaths(d, u[d].kids)[0] == path;
    KidIsValid(u, d, 0);
    ValidIsNamesOk(d + [u[d].kids[0]]);
    PathStrInjective(d + [n], d + [u[d].kids[0]]);
    assert (d + [n])[|d|] == (d + [u[d].kids[0]])[|d|];
  }

  lemma OthersLost(s': Columns, d: Path, n: string)
    requires NamesOk(d + [n]) && At(s', d, List) == Some(PathStr(d + [n]))
    ensures SiblingsLost(s', d, n)
  {
    hide Stores, NamesOk, PathStr, ListOf, At;
    forall u, m | Stores(s', u) && m != n ensures d + [m] !in u {
      if d + [m] in u {
        OnlyListed(s', u, d, m);
        StoresWellFormed(s', u);
        OneName(d, n, u);
      }
    }
  }

  lemma AllLost(s': Columns, d: Path)
    requires At(s', d, List) == None
    ensures forall u, m :: Stores(s', u) ==> d + [m] !in u
  {
    hide Stores, At;
    forall u, m | Stores(s', u) ensures d + [m] !in u {
      if d + [m] in u {
        OnlyListed(s', u, d, m);
      }
    }
  }

  // ----- A name that is taken, under a list that reads like an error -----

  lemma TargetText(s: Columns, s1: Columns, d: Path, p: Path, p': Path)
    requires Framed(s, s1, p, p') && !(p <= d) && !(p' <= d) && ValidCol(d, List)
    ensures At(s1, d, List) == At(s, d, List)
    ensures ErrText(At(s, d, List)) ==> StartsWith(ListText(s1, d), "ERR")
  {
    hide Tidy, ValidCol, Col;
  }

  /** The target's list after both updates, and the columns that they leave alone. */
  lemma TwoListsTarget(s1: Columns, s': Columns, p: Path, d: Path, oldAbs: string, newAbs: string)
    requires p != [] && ValidCol(d, List) && TwoLists(s1, s', p, d, oldAbs, newAbs)
    ensures
      var added := Appended(ListText(s1, d), newAbs);
      At(s', d, List) == if d == Parent(p) then SourceList(added, oldAbs) else Some(added)
    ensures Tidy(s') && forall q, k :: ValidCol(q, k) && !(k == List && (q == d || q == Parent(p))) ==> At(s', q, k) == At(s1, q, k)
  {
    hide SourceList, Appended, Tidy, Col, ValidCol;
    var s2 :| && Differs(s1, s2, d, List, Some(Appended(ListText(s1, d), newAbs)))
              && Differs(s2, s', Parent(p), List, SourceList(ListText(s2, Parent(p)), oldAbs)) && Tidy(s');
    TextThere(s2, d);
    hide At, ListText;
  }

  /** Onto another folder or file: the target's list is replaced by the one new path. */
  lemma TakenName(s: Columns, s': Columns, p: Path, d: Path)
    requires p != [] && !(p <= d) && ValidCol(d, List) && d != Parent(p) && NamesOk(d + [Name(p)]) && d + [Name(p)] != CLASH
    requires ErrText(At(s, d, List)) && FramedOutcome(s, s', p, d)
    ensures SiblingsLost(s', d, Name(p))
  {
    var p' := d + [Name(p)];
    assert Over(s, p', FOLDER) == s;
    hide Over, PathStr, Framed, TwoLists, ErrText, At, NamesOk, ListText, ValidCol;
    var s1 :| Framed(s, s1, p, p') && TwoLists(s1, s', p, d, PathStr(p), PathStr(p'));
    TargetText(s, s1, d, p, p');
    TwoListsTarget(s1, s', p, d, PathStr(p), PathStr(p'));
    OthersLost(s', d, Name(p));
  }

  /** Onto itself: what is written is deleted at once, and the list that is left empty goes too. */
  lemma OntoItself(s: Columns, s': Columns, t: Tree, p: Path)
    requires p != [] && p in t && NamesOk(p) && p != CLASH && ValidCol(Parent(p), List) && ErrText(At(s, Parent(p), List))
    requires KnownOutcome(s, s', t, p, Parent(p))
    ensures FolderLost(s, s', t, p)
  {
    hide *;
    hide Parent, Name;
    var s1 := OutcomeSteps(s, s', t, p, Parent(p));
    assert Parent(p) + [Name(p)] == p && Over(s, p, FOLDER) == s by { SplitPath(p); NoClash(s, p); }
    OntoItselfFrom(s, s1, s', t, p);
  }

  lemma SplitPath(p: Path)
    requires p != []
    ensures Parent(p) + [Name(p)] == p && !(p <= Parent(p))
  {
  }

  lemma NoClash(s: Columns, p: Path)
    requires p != CLASH
    ensures Over(s, p, FOLDER) == s
  {
  }

  lemma OutcomeSteps(s: Columns, s': Columns, t: Tree, p: Path, d: Path) returns (s1: Columns)
    requires p != [] && KnownOutcome(s, s', t, p, d)
    ensures Relocated(Over(s, d + [Name(p)], FOLDER), s1, t, p, d + [Name(p)])
    ensures TwoLists(s1, s', p, d, PathStr(p), PathStr(d + [Name(p)]))
  {
    hide Relocated, Over, TwoLists, PathStr;
    s1 :| && Relocated(Over(s, d + [Name(p)], FOLDER), s1, t, p, d + [Name(p)])
          && TwoLists(s1, s', p, d, PathStr(p), PathStr(d + [Name(p)]));
  }

  lemma OntoItselfFrom(s: Columns, s1: Columns, s': Columns, t: Tree, p: Path)
    requires p != [] && NamesOk(p) && ValidCol(Parent(p), List) && ErrText(At(s, Parent(p), List))
    requires Relocated(s, s1, t, p, p) && TwoLists(s1, s', p, Parent(p), PathStr(p), PathStr(p))
    ensures FolderLost(s, s', t, p)
  {
    hide PathStr, Relocated, TwoLists, ErrText, At, NamesOk, ListText, ValidCol, SourceList, Tidy, Parent, Gone, Seen;
    SplitPath(p);
    RelocatedFramed(s, s1, t, p, p);
    TargetText(s, s1, Parent(p), p, p);
    TwoListsTarget(s1, s', p, Parent(p), PathStr(p), PathStr(p));
    NothingKept(p);
    OntoItselfColumns(s, s1, t, p);
    AllLost(s', Parent(p));
  }

  lemma NothingKept(p: Path)
    requires NamesOk(p)
    ensures SourceList(PathStr(p), PathStr(p)) == None
  {
    hide PathStr, Split, NamesOk;
    PathStrPlain(p);
    SplitOfNone(PathStr(p), ',');
    var path := PathStr(p);
    assert [path][0] == path && [path][1..] == [];
    assert Without([path], path) == Without([], path) == [];
  }

  lemma OntoItselfColumns(s: Columns, s1: Columns, t: Tree, p: Path)
    requires Relocated(s, s1, t, p, p)
    ensures forall q, k :: ValidCol(q, k) ==>
              At(s1, q, k) == if q in t && Seen(s, p, q) then Gone(s, t[q], q, k) else At(s, q, k)
  {
    hide At, Gone, Landed, Seen, ValidCol, Tidy;
    forall q, k | ValidCol(q, k)
      ensures AfterVisit(s, t, p, p, q, k) == if q in t && Seen(s, p, q) then Gone(s, t[q], q, k) else At(s, q, k)
    {
      SeenIsBelow(s, p, q);
      if p <= q {
        KidArith(p, p, "", q);
      }
    }
  }

  // ----- The name of the root's list -----

  /** A list that a marker has become part of names no child of any tree. */
  lemma MarkerInList(s': Columns, marker: string, u: Tree)
    requires (marker == FOLDER || marker == FILE) && At(s', [], List) == Some(marker + ",metadata")
    ensures !Stores(s', u)
  {
    assert ',' !in marker && '-' in marker && marker != "";
    MarkerFirst(marker);
    hide Split, FOLDER, FILE, Stores, At, NonEmpty;
    if Stores(s', u) {
      RootOf(s', u);
      FirstRootEntry(s', u, marker);
    }
  }

  lemma MarkerFirst(marker: string)
    requires ',' !in marker && marker != ""
    ensures
      var names := NonEmpty(Split(marker + ",metadata", ','));
      names != [] && names[0] == marker
  {
    hide Split, NonEmpty;
    assert marker + ",metadata" == marker + [','] + "metadata";
    FirstOfSplit(marker, "metadata");
  }

  lemma FirstOfSplit(a: string, b: string)
    requires ',' !in a && a != ""
    ensures
      var names := NonEmpty(Split(a + [','] + b, ','));
      names != [] && names[0] == a
  {
    hide Split;
    SplitAppend(a, b, ',');
    assert ([a] + Split(b, ','))[0] == a;
  }

  lemma RootOf(s: Columns, u: Tree)
    requires Stores(s, u)
    ensures [] in u && u[[]].Dir? && WellFormed(u)
  {
  }

  lemma FirstRootEntry(s: Columns, u: Tree, first: string)
    requires Stores(s, u) && [] in u && u[[]].Dir? && At(s, [], List).Some?
    requires NonEmpty(Split(At(s, [], List).value, ',')) != [] && NonEmpty(Split(At(s, [], List).value, ','))[0] == first
    ensures '-' !in first
  {
    hide Stores, Split, At, WellFormed;
    assert ValidCol([], List);
    StoresAt(s, u, [], List);
    RootOf(s, u);
    KidIsValid(u, [], 0);
    assert KidPaths([], u[[]].kids)[0] == PathStr([] + [u[[]].kids[0]]) && [] + [u[[]].kids[0]] == [u[[]].kids[0]];
    assert PathStr([u[[]].kids[0]]) == u[[]].kids[0];
  }

  lemma ClashName(s: Columns, s': Columns, t: Tree, p: Path, d: Path)
    requires p != [] && NamesOk(p) && p != CLASH && d + [Name(p)] == CLASH && KnownOutcome(s, s', t, p, d)
    ensures RootLost(s', FOLDER)
  {
    assert |d + [Name(p)]| == 1 && d == [] && (d + [Name(p)])[0] == "metadata";
    hide *;
    hide Parent, Name;
    SplitPath(p);
    var s1 := OutcomeSteps(s, s', t, p, d);
    ClashFrom(s, s1, s', t, p);
  }

  lemma ClashFrom(s: Columns, s1: Columns, s': Columns, t: Tree, p: Path)
    requires p != [] && Parent(p) != [] && Relocated(Over(s, CLASH, FOLDER), s1, t, p, CLASH)
    requires TwoLists(s1, s', p, [], PathStr(p), PathStr(CLASH))
    ensures RootLost(s', FOLDER)
  {
    assert PathStr(CLASH) == "metadata" && ValidCol([], List);
    assert At(Over(s, CLASH, FOLDER), [], List) == Some(FOLDER);
    hide *;
    hide Parent;
    RelocatedFramed(Over(s, CLASH, FOLDER), s1, t, p, CLASH);
    TargetText(Over(s, CLASH, FOLDER), s1, [], p, CLASH);
    TextThere(s1, []);
    TwoListsTarget(s1, s', p, [], PathStr(p), "metadata");
    NotEmptyMarker();
    NoTreeLeft(s', FOLDER);
  }

  lemma NoTreeLeft(s': Columns, marker: string)
    requires (marker == FOLDER || marker == FILE) && At(s', [], List) == Some(marker + ",metadata")
    ensures RootLost(s', marker)
  {
    hide Stores, At, FOLDER, FILE;
    forall u | true ensures !Stores(s', u) { MarkerInList(s', marker, u); }
  }

  lemma TextThere(s: Columns, d: Path)
    ensures At(s, d, List).Some? ==> ListText(s, d) == At(s, d, List).value
  {
    hide Col;
  }

  lemma NotEmptyMarker()
    ensures FOLDER != "" && !StartsWith(FOLDER, "ERR") && Appended(FOLDER, "metadata") == FOLDER + ",metadata"
  {
    assert FOLDER[0] == 'K' && "ERR"[0] == 'E';
    assert FOLDER + "," + "metadata" == FOLDER + ",metadata";
  }
}
