/**
 The name an upload ends up with when a file is already there: the text "(n)" is put before the first dot
 of the whole path, which may lie in the name of a folder.
 */
module UploadNames {
  import opened Text
  import opened FileTree
  import opened KvRow

  const DOT := '.'

  function Number(n: nat): string {
    "(" + Dec(n) + ")"
  }

  /** The n-th name tried; without a dot the code throws. */
  function Renamed(path: string, n: nat): string {
    var dot := IndexOf(path, DOT);
    path[..dot] + Number(n) + path[dot..]
  }

  lemma RenamedInjective(path: string, m: nat, n: nat)
    requires Renamed(path, m) == Renamed(path, n)
    ensures m == n
  {
    hide Dec, IndexOf, Number;
    var dot, x, y := IndexOf(path, DOT), Number(m), Number(n);
    var a, b := path[..dot], path[dot..];
    assert |a + x + b| == |a| + |x| + |b| && |a + y + b| == |a| + |y| + |b|;
    assert (a + x + b)[|a|..|a| + |x|] == x && (a + y + b)[|a|..|a| + |y|] == y;
    NumberInjective(m, n);
  }

  lemma NumberInjective(m: nat, n: nat)
    requires Number(m) == Number(n)
    ensures m == n
  {
    hide Dec;
    var x, y := Dec(m), Dec(n);
    assert |Number(m)| == |x| + 2 && |Number(n)| == |y| + 2;
    assert Number(m)[1..|x| + 1] == x && Number(n)[1..|y| + 1] == y;
    DecInjective(m, n);
  }

  /** A store with n of these names taken has at least n columns. */
  lemma {:induction false} RenamedAreFew(cols: Columns, path: string, n: nat)
    requires forall i :: 1 <= i <= n ==> Renamed(path, i) in cols
    ensures n <= |cols|
  {
    hide Renamed;
    if n > 0 {
      var c := Renamed(path, n);
      forall i | 1 <= i < n ensures Renamed(path, i) in cols - {c} {
        if Renamed(path, i) == c {
          RenamedInjective(path, i, n);
        }
      }
      RenamedAreFew(cols - {c}, path, n - 1);
      assert (cols - {c}).Keys == cols.Keys - {c};
    }
  }

  lemma FileIsThere(cols: Columns, path: string)
    requires Fetch(cols, path) == FILE
    ensures path in cols
  {
    assert FILE[0] == 'K' && "ERR"[0] == 'E';
  }

  /** The name found: the path itself, or the first of the changed ones that no file has. */
  ghost predicate Chosen(cols: Columns, path: string, n: nat) {
    && (n == 0 <==> Fetch(cols, path) != FILE)
    && (n > 0 ==> DOT in path && Fetch(cols, Renamed(path, n)) != FILE
                  && forall i :: 1 <= i < n ==> Fetch(cols, Renamed(path, i)) == FILE)
  }

  /** The renaming loop. */
  method ChooseName(kv: Row, path: string) returns (threw: bool, newPath: string, n: nat)
    ensures threw <==> Fetch(kv.cols, path) == FILE && DOT !in path
    ensures !threw ==> Chosen(kv.cols, path, n) && newPath == if n == 0 then path else Renamed(path, n)
  {
    threw, newPath, n := false, path, 0;
    var resp := kv.Get(path);
    if resp != FILE {
      return;
    }
    if IndexOf(path, DOT) == |path| {
      return true, path, 0;
    }
    hide Renamed;
    n := 1;
    newPath := Renamed(path, n);
    resp := kv.Get(newPath);
    while resp == FILE
      invariant n >= 1 && newPath == Renamed(path, n) && resp == Fetch(kv.cols, newPath)
      invariant forall i :: 1 <= i < n ==> Fetch(kv.cols, Renamed(path, i)) == FILE
      decreases |kv.cols| + 1 - n
    {
      forall i | 1 <= i <= n ensures Renamed(path, i) in kv.cols { FileIsThere(kv.cols, Renamed(path, i)); }
      RenamedAreFew(kv.cols, path, n);
      n := n + 1;
      newPath := Renamed(path, n);
      resp := kv.Get(newPath);
    }
  }

  // ----- On paths -----

  /** The first name of the path that has a dot; the length if none has. */
  ghost function DotAt(p: Path): (j: nat)
    ensures j <= |p| && (forall i :: 0 <= i < j ==> DOT !in p[i]) && (j < |p| ==> DOT in p[j])
  {
    if p == [] || DOT in p[0] then 0
    else
      var j := 1 + DotAt(p[1..]);
      assert forall i :: 1 <= i < j ==> p[i] == p[1..][i - 1];
      j
  }

  /** The path that the n-th name tried stands for. */
  ghost function Target(p: Path, n: nat): (q: Path)
    ensures |q| == |p|
  {
    if n == 0 || DotAt(p) == |p| then p else p[DotAt(p) := Renamed(p[DotAt(p)], n)]
  }

  lemma RenamedInFirst(a: string, b: string, n: nat)
    requires DOT in a
    ensures Renamed(a + b, n) == Renamed(a, n) + b
  {
    hide Number;
    var i, x := IndexOf(a, DOT), Number(n);
    FirstIndex(a + b, i);
    hide IndexOf;
    assert (a + b)[..i] == a[..i] && (a + b)[i..] == a[i..] + b;
    assert a[..i] + x + (a[i..] + b) == a[..i] + x + a[i..] + b;
  }

  lemma RenamedInSecond(a: string, b: string, n: nat)
    requires DOT !in a && DOT in b
    ensures Renamed(a + b, n) == a + Renamed(b, n)
  {
    hide Number;
    var i, x := IndexOf(b, DOT), Number(n);
    FirstIndex(a + b, |a| + i);
    hide IndexOf;
    assert (a + b)[..|a| + i] == a + b[..i] && (a + b)[|a| + i..] == b[i..];
    assert a + b[..i] + x + b[i..] == a + (b[..i] + x + b[i..]);
  }

  lemma FirstIndex(s: string, i: nat)
    requires i < |s| && s[i] == DOT && forall j :: 0 <= j < i ==> s[j] != DOT
    ensures IndexOf(s, DOT) == i
  {
    hide IndexOf;
    assert IndexOf(s, DOT) <= i;
  }

  lemma {:induction false} DotInPath(p: Path)
    ensures DOT in PathStr(p) <==> DotAt(p) < |p|
    decreases |p|
  {
    if |p| > 1 {
      DotInPath(p[1..]);
      assert PathStr(p) == p[0] + ['/'] + PathStr(p[1..]);
    }
  }

  lemma PathStrCons(p: Path)
    requires |p| > 1
    ensures PathStr(p) == p[0] + (['/'] + PathStr(p[1..]))
  {
  }

  lemma TargetCons(p: Path, n: nat)
    requires |p| > 1 && n > 0 && DotAt(p) < |p|
    ensures Target(p, n) == if DOT in p[0] then [Renamed(p[0], n)] + p[1..] else [p[0]] + Target(p[1..], n)
  {
    var rest := p[1..];
    assert DotAt(p) == if DOT in p[0] then 0 else 1 + DotAt(rest);
    hide Renamed, DotAt;
    if DOT in p[0] {
      assert p[0 := Renamed(p[0], n)] == [Renamed(p[0], n)] + rest;
    } else {
      ReplaceInRest(p, DotAt(rest), Renamed(rest[DotAt(rest)], n));
    }
  }

  lemma ReplaceInRest(p: Path, j: nat, name: string)
    requires j + 1 < |p|
    ensures p[j + 1 := name] == [p[0]] + p[1..][j := name]
  {
  }

  /** What happens to the string happens to one name of the path. */
  lemma {:induction false} TargetStr(p: Path, n: nat)
    requires DOT in PathStr(p) && n > 0
    ensures PathStr(Target(p, n)) == Renamed(PathStr(p), n)
    decreases |p|
  {
    DotInPath(p);
    if |p| == 1 {
      assert Target(p, n) == [Renamed(p[0], n)];
    } else {
      hide Renamed, PathStr, DotAt, Target;
      var a, rest := p[0], p[1..];
      var b, q := PathStr(rest), Target(p, n);
      PathStrCons(p);
      PathStrCons(q);
      TargetCons(p, n);
      if DOT in a {
        assert q[1..] == rest;
        RenamedInFirst(a, ['/'] + b, n);
      } else {
        TargetStr(rest, n);
        assert q[1..] == Target(rest, n);
        RenamedInSecond(a, ['/'] + b, n);
        RenamedInSecond(['/'], b, n);
      }
    }
  }

  lemma RenamedValid(name: string, n: nat)
    requires ValidName(name)
    ensures ValidName(Renamed(name, n)) && '(' in Renamed(name, n) && Renamed(name, n) != name
  {
    var r, dot := Renamed(name, n), IndexOf(name, DOT);
    assert Number(n)[0] == '(' && |Number(n)| >= 2;
    assert forall x :: x in Number(n) ==> x == '(' || x == ')' || x in Dec(n);
    hide Number;
    assert r[dot] == Number(n)[0] && |r| > |name|;
    forall i | 0 <= i < |r| ensures r[i] != '-' && r[i] != ',' && r[i] != '/' {
      assert r[i] in name[..dot] || r[i] in Number(n) || r[i] in name[dot..];
      assert forall x :: x in name[..dot] || x in name[dot..] ==> x in name;
    }
  }

  lemma TargetValid(p: Path, n: nat)
    requires NamesOk(p)
    ensures NamesOk(Target(p, n)) && (Target(p, n) == CLASH ==> Target(p, n) == p)
  {
    var j, q := DotAt(p), Target(p, n);
    hide Renamed;
    if n > 0 && j < |p| {
      RenamedValid(p[j], n);
      assert forall i :: 0 <= i < |q| ==> ValidName(q[i]);
      assert '(' in q[j] && '(' !in CLASH[0] && |CLASH| == 1;
    }
  }

  // ----- On stored trees -----

  ghost predicate IsFile(t: Tree, p: Path) {
    p in t && !t[p].Dir?
  }

  /** The name found, as the tree sees it. */
  ghost predicate ChosenIn(t: Tree, p: Path, n: nat) {
    && (n == 0 <==> !IsFile(t, p))
    && (n > 0 ==> DotAt(p) < |p| && !IsFile(t, Target(p, n)) && forall i :: 1 <= i < n ==> IsFile(t, Target(p, i)))
  }
}
