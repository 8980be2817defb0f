/**
 The request handler for moving a folder: which moves it lets through, and what they do.
 */
module MoveHandler {
  import opened Options
  import opened Text
  import opened FileTree
  import opened KvRow
  import opened Visits
  import opened TreeMoves
  import opened FolderMove
  import opened StrayMoves
  import opened HollowMoves

  lemma BelowStartsWith(p: Path, d: Path)
    requires p <= d && p != d && p != []
    ensures StartsWith(PathStr(d), PathStr(p) + "/")
  {
    hide Join;
    JoinConcat(p, d[|p|..], '/');
    assert d == p + d[|p|..];
    assert PathStr(d) == (PathStr(p) + "/") + PathStr(d[|p|..]);
  }

  lemma StartsWithBelow(p: Path, d: Path)
    requires ValidPath(p) && ValidPath(d) && StartsWith(PathStr(d), PathStr(p) + "/")
    ensures p <= d
  {
    hide PathStr, Split, NamesOk;
    PathStrPlain(p);
    PathStrPlain(d);
    var a, b := PathStr(p), PathStr(d);
    var rest := b[|a| + 1..];
    assert b == b[..|a| + 1] + rest && b[..|a| + 1] == a + ['/'];
    SplitConcat(a, rest, '/');
  }

  /** The string test for moving a folder into itself or below itself is the prefix test on paths. */
  lemma SelfMoveGuard(p: Path, d: Path)
    requires ValidPath(p) && (d == [] || ValidPath(d))
    ensures PathStr(d) == PathStr(p) || StartsWith(PathStr(d), PathStr(p) + "/") <==> p <= d
  {
    assert d == [] ==> PathStr(d) == "";
    hide PathStr, Split, NamesOk;
    PathStrPlain(p);
    if p <= d && p != d {
      BelowStartsWith(p, d);
    }
    if d != [] {
      PathStrPlain(d);
      if StartsWith(PathStr(d), PathStr(p) + "/") {
        StartsWithBelow(p, d);
      }
    }
  }

  ghost predicate SomeEntryNamed(entries: seq<string>, name: string) {
    exists i :: 0 <= i < |entries| && AfterLast(entries[i], '/') == name
  }

  method NameTaken(entries: seq<string>, name: string) returns (taken: bool)
    ensures taken <==> SomeEntryNamed(entries, name)
  {
    taken := false;
    for i := 0 to |entries|
      invariant !taken ==> forall j :: 0 <= j < i ==> AfterLast(entries[j], '/') != name
      invariant taken ==> SomeEntryNamed(entries, name)
    {
      if AfterLast(entries[i], '/') == name {
        taken := true;
      }
    }
  }

  /** An entry of the child list has the name exactly when a child has it. */
  lemma CollisionGuard(t: Tree, d: Path, text: string, name: string)
    requires WellFormed(t) && d in t && t[d].Dir? && ListOf(Some(text), d, t[d].kids) && name != ""
    ensures SomeEntryNamed(Split(text, ','), name) <==> name in t[d].kids
  {
    hide WellFormed, PathStr, Split, AfterLast;
    var entries, ks := Split(text, ','), t[d].kids;
    if name in ks {
      var i :| 0 <= i < |ks| && ks[i] == name;
      KidName(t, d, i);
      assert KidPaths(d, ks)[i] in entries;
    }
    if SomeEntryNamed(entries, name) {
      var i :| 0 <= i < |entries| && AfterLast(entries[i], '/') == name;
      LastOfNone("", '/');
      assert entries[i] in KidPaths(d, ks);
      var j :| 0 <= j < |ks| && KidPaths(d, ks)[j] == entries[i];
      KidName(t, d, j);
    }
  }

  lemma KidName(t: Tree, d: Path, i: nat)
    requires WellFormed(t) && d in t && t[d].Dir? && i < |t[d].kids|
    ensures AfterLast(PathStr(d + [t[d].kids[i]]), '/') == t[d].kids[i]
  {
    hide WellFormed, PathStr, AfterLast, BeforeLast, NamesOk;
    KidIsValid(t, d, i);
    NameAndParent(d + [t[d].kids[i]]);
  }

  /** The name guard reads an absent list, or one that looks like an error, as empty. */
  method GuardName(kv: Row, sourceFolder: string, targetFolder: string, ghost t: Tree, ghost p: Path, ghost d: Path)
    returns (taken: bool)
    requires Stores(kv.cols, t) && (p == [] || ValidPath(p)) && d in t && t[d].Dir? && sourceFolder == PathStr(p) && targetFolder == PathStr(d)
    ensures p != [] ==> (taken <==> Name(p) in t[d].kids && !ErrText(At(kv.cols, d, List)))
  {
    EntryFacts(t, d);
    ListColumnOf(d);
    StoresAt(kv.cols, t, d, List);
    if p != [] {
      NameAndParent(p);
    }
    ghost var there := Col(d, List) in kv.cols;
    var name := AfterLast(sourceFolder, '/');
    var meta := kv.Get(ListColumn(targetFolder));
    assert p != [] && !StartsWith(meta, "ERR") ==> ListOf(Some(meta), d, t[d].kids) && name != "";
    hide PathStr, Tidy, NamesOk, ListColumn, Stores, WellFormed, Split, AfterLast, ListOf, At, SomeEntryNamed;
    if StartsWith(meta, "ERR") {
      meta := "";
      if name != "" {
        EmptyText(meta, name);
      }
    } else if p != [] {
      CollisionGuard(t, d, meta, name);
    }
    var entries := SplitString(meta, ',');
    taken := NameTaken(entries, name);
  }

  lemma EmptyText(text: string, name: string)
    requires text == "" && name != ""
    ensures !SomeEntryNamed(Split(text, ','), name)
  {
    hide Split, AfterLast;
    SplitOfNone(text, ',');
    LastOfNone(text, '/');
  }

  datatype Answer = Refused | Done | Threw

  /** The guards refuse the root, the folder itself and what is below it, and a name that the target's list names. */
  ghost predicate Guarded(s: Columns, t: Tree, p: Path, d: Path)
    requires d in t && t[d].Dir?
  {
    p == [] || p <= d || (Name(p) in t[d].kids && !ErrText(At(s, d, List)))
  }

  /**
   The handler. A refusal changes nothing. The move of a folder to a free name does what `MoveFolder` says. The
   moves of a folder that the guards miss are those onto a name under a list that reads like an error, and
   a folder with the name of the root's list moved to the root; each loses entries, and only a move onto an
   ancestor of the same name can make the code throw. A source that is no folder is not refused.
   */
  method WebMoveFolder(kv: Row, sourceFolder: string, targetFolder: string, ghost t: Tree, ghost p: Path, ghost d: Path)
    returns (answer: Answer)
    requires Stores(kv.cols, t) && (p == [] || ValidPath(p)) && IsFolder(t, d)
    requires sourceFolder == PathStr(p) && targetFolder == PathStr(d)
    modifies kv
    ensures answer == Refused <==> Guarded(old(kv.cols), t, p, d)
    ensures answer == Refused ==> kv.cols == old(kv.cols)
    ensures answer != Refused && CanMove(t, p, d) ==>
              && answer == Done
              && (Stores(kv.cols, MoveTree(t, p, d)) <==> NoErrLists(old(kv.cols), t, p) && !ErrText(At(old(kv.cols), d, List)))
              && (NoErrLists(old(kv.cols), t, p) ==> ColumnsMoved(old(kv.cols), kv.cols, t, p, d))
    ensures answer != Refused && IsFolder(t, p) && !CanMove(t, p, d) ==> Stray(old(kv.cols), kv.cols, t, p, d, answer)
    ensures answer != Refused && !IsFolder(t, p) ==> answer == Done && Hollowed(old(kv.cols), kv.cols, t, p, d)
  {
    ghost var s := kv.cols;
    GuardFacts(s, t, p, d);
    hide *;
    hide Guarded;
    if targetFolder == sourceFolder || StartsWith(targetFolder, sourceFolder + "/") {
      return Refused;
    }
    var taken := GuardName(kv, sourceFolder, targetFolder, t, p, d);
    GuardedIff(s, t, p, d, taken);
    if taken || sourceFolder == "" {
      return Refused;
    }
    var threw := MoveFolder(kv, sourceFolder, targetFolder, t, p, d);
    answer := if threw then Threw else Done;
    if CanMove(t, p, d) {
      NotExactIsNotCanMove(t, p, d);
      MovedIsFolder(t, p, d);
    } else if IsFolder(t, p) {
      StrayOutcome(s, kv.cols, t, p, d, threw);
    } else {
      HollowResult(s, kv.cols, t, p, d);
    }
  }

  lemma MovedIsFolder(t: Tree, p: Path, d: Path)
    requires CanMove(t, p, d)
    ensures IsFolder(t, p)
  {
    hide WellFormed;
  }

  /** What an accepted move of a folder does when it is not one to a free name. */
  ghost predicate Stray(s: Columns, s': Columns, t: Tree, p: Path, d: Path, answer: Answer) {
    && p != []
    && var p' := d + [Name(p)];
       if p' == CLASH then answer == Done && RootLost(s', FOLDER)
       else if p' == p then answer == Done && FolderLost(s, s', t, p)
       else if answer == Done then SiblingsLost(s', d, Name(p)) && (Exact(t, p, p') ==> KnownOutcome(s, s', t, p, d))
       else answer == Threw && p' <= p && p + p[|p'|..] in t
  }

  lemma GuardFacts(s: Columns, t: Tree, p: Path, d: Path)
    requires Stores(s, t) && (p == [] || ValidPath(p)) && IsFolder(t, d)
    ensures d in t && t[d].Dir?
    ensures PathStr(d) == PathStr(p) || StartsWith(PathStr(d), PathStr(p) + "/") ==> p == [] || p <= d
    ensures p != [] && p <= d ==> PathStr(d) == PathStr(p) || StartsWith(PathStr(d), PathStr(p) + "/")
    ensures PathStr(p) == "" <==> p == []
  {
    StoresWellFormed(s, t);
    assert PathStr([]) == "";
    hide Stores, WellFormed, PathStr, StartsWith, NamesOk;
    EntryFacts(t, d);
    if p != [] {
      SelfMoveGuard(p, d);
      ValidIsNamesOk(p);
      PathStrPlain(p);
    }
  }

  lemma GuardedIff(s: Columns, t: Tree, p: Path, d: Path, taken: bool)
    requires d in t && t[d].Dir? && (p != [] ==> (taken <==> Name(p) in t[d].kids && !ErrText(At(s, d, List))))
    ensures p == [] || p <= d ==> Guarded(s, t, p, d)
    ensures p != [] && !(p <= d) ==> (Guarded(s, t, p, d) <==> taken)
  {
    hide ErrText, At, Name;
  }

  lemma StrayOutcome(s: Columns, s': Columns, t: Tree, p: Path, d: Path, threw: bool)
    requires Stores(s, t) && p != [] && IsFolder(t, p) && IsFolder(t, d) && !Guarded(s, t, p, d) && !CanMove(t, p, d)
    requires Exact(t, p, d + [Name(p)]) ==> !threw && KnownOutcome(s, s', t, p, d)
    requires !threw ==> FramedOutcome(s, s', p, d)
    ensures Stray(s, s', t, p, d, if threw then Threw else Done)
  {
    var p' := d + [Name(p)];
    StrayIsTaken(s, t, p, d);
    hide *;
    hide Parent, Name;
    StoresWellFormed(s, t);
    PathOfTree(t, p);
    ParentCols(s, t, p, d);
    SplitPath(p);
    if p' == CLASH {
      ApartClash(t, p, d);
      ClashName(s, s', t, p, d);
    } else if p' == p {
      LastPart(p, d);
      OntoItself(s, s', t, p);
    } else {
      LastPart(p, d);
      if !threw {
        TakenName(s, s', p, d);
      }
    }
    StrayFrom(s, s', t, p, d, threw);
  }

  lemma StrayFrom(s: Columns, s': Columns, t: Tree, p: Path, d: Path, threw: bool)
    requires p != [] && !(p <= d)
    requires Exact(t, p, d + [Name(p)]) ==> !threw && KnownOutcome(s, s', t, p, d)
    requires d + [Name(p)] == CLASH ==> !threw && RootLost(s', FOLDER)
    requires d + [Name(p)] != CLASH && d + [Name(p)] == p ==> !threw && FolderLost(s, s', t, p)
    requires d + [Name(p)] != CLASH && d + [Name(p)] != p && !threw ==> SiblingsLost(s', d, Name(p))
    ensures Stray(s, s', t, p, d, if threw then Threw else Done)
  {
    hide KnownOutcome, RootLost, FolderLost, SiblingsLost;
    PrefixOfLonger(p, d, Name(p));
  }

  /** A move that is let through and not to a free name is onto a taken one, or onto the root's list. */
  lemma StrayIsTaken(s: Columns, t: Tree, p: Path, d: Path)
    requires Stores(s, t) && p != [] && IsFolder(t, p) && IsFolder(t, d) && !Guarded(s, t, p, d) && !CanMove(t, p, d)
    ensures !(p <= d) && (d + [Name(p)] != CLASH ==> ErrText(At(s, d, List)))
  {
    hide Stores, WellFormed, ErrText, At, NamesOk;
    StoresWellFormed(s, t);
    ParentCols(s, t, p, d);
  }

  /** Nothing of a tree lies below the name of the root's list. */
  lemma ApartClash(t: Tree, p: Path, d: Path)
    requires WellFormed(t) && p in t && p != [] && d + [Name(p)] == CLASH && !(p <= d)
    ensures Exact(t, p, d + [Name(p)])
  {
    hide WellFormed;
    BelowAKid(t, [], p);
    assert [] + [p[0]] == [p[0]];
    PathOfTree(t, [p[0]]);
    assert [p[0]] != CLASH;
    hide NamesOk;
    assert p[0] != CLASH[0];
    PrefixOfLonger(p, d, Name(p));
  }
}
