/**
 The string operations the services are written with: search, split, join, decimal numbers.
 */
module Text {

  /** The first position of c in s, or |s|: the end plays the part of `npos`. */
  function IndexOf(s: string, c: char): (i: nat)
    ensures i <= |s| && forall j :: 0 <= j < i ==> s[j] != c
    ensures i < |s| ==> s[i] == c
  {
    if s == [] || s[0] == c then 0 else 1 + IndexOf(s[1..], c)
  }

  function Split(s: string, d: char): (parts: seq<string>)
    ensures |parts| >= 1
    ensures forall i :: 0 <= i < |parts| ==> d !in parts[i]
    decreases |s|
  {
    var i := IndexOf(s, d);
    assert d !in s[..i];
    if i == |s| then [s] else [s[..i]] + Split(s[i + 1..], d)
  }

  function Join(parts: seq<string>, d: char): string {
    if |parts| == 0 then ""
    else if |parts| == 1 then parts[0]
    else parts[0] + [d] + Join(parts[1..], d)
  }

  /** The splitting loop. */
  method SplitString(str: string, delimiter: char) returns (tokens: seq<string>)
    ensures tokens == Split(str, delimiter)
  {
    hide Split, IndexOf;
    tokens := [];
    var start := 0;
    assert str[0..] == str;
    var pos := IndexOf(str, delimiter);
    while pos < |str|
      invariant 0 <= start <= pos <= |str|
      invariant pos == start + IndexOf(str[start..], delimiter)
      invariant tokens + Split(str[start..], delimiter) == Split(str, delimiter)
      decreases |str| - start
    {
      SplitStep(str, start, pos, delimiter);
      ghost var rest := Split(str[pos + 1..], delimiter);
      assert tokens + ([str[start..pos]] + rest) == tokens + [str[start..pos]] + rest;
      tokens := tokens + [str[start..pos]];
      start := pos + 1;
      pos := start + IndexOf(str[start..], delimiter);
    }
    SplitStep(str, start, pos, delimiter);
    tokens := tokens + [str[start..]];
  }

  lemma SplitStep(str: string, start: nat, pos: nat, d: char)
    requires start <= pos <= |str| && pos == start + IndexOf(str[start..], d)
    ensures Split(str[start..], d) == if pos == |str| then [str[start..]] else [str[start..pos]] + Split(str[pos + 1..], d)
  {
    var rest := str[start..];
    if pos < |str| {
      assert rest[..pos - start] == str[start..pos] && rest[pos - start + 1..] == str[pos + 1..];
    }
  }

  /** The rebuilding loop: items with a delimiter between them. */
  method JoinStrings(items: seq<string>, delimiter: char) returns (str: string)
    ensures str == Join(items, delimiter)
  {
    assert Join(items[..0], delimiter) == "";
    hide Join;
    str := "";
    for i := 0 to |items|
      invariant str == Join(items[..i], delimiter)
    {
      JoinSnoc(items[..i], items[i], delimiter);
      assert items[..i + 1] == items[..i] + [items[i]];
      if i > 0 {
        str := str + [delimiter];
      }
      str := str + items[i];
    }
    assert items[..|items|] == items;
  }

  lemma JoinCons(x: string, parts: seq<string>, d: char)
    requires parts != []
    ensures Join([x] + parts, d) == x + [d] + Join(parts, d)
  {
    assert ([x] + parts)[1..] == parts;
  }

  lemma {:induction false} JoinSnoc(parts: seq<string>, x: string, d: char)
    ensures Join(parts + [x], d) == if parts == [] then x else Join(parts, d) + [d] + x
    decreases |parts|
  {
    if |parts| > 0 {
      assert (parts + [x])[1..] == parts[1..] + [x];
      JoinSnoc(parts[1..], x, d);
    } else {
      assert parts + [x] == [x];
    }
  }

  lemma IndexOfAppend(a: string, b: string, d: char)
    requires d !in a
    ensures IndexOf(a + [d] + b, d) == |a|
  {
    var s := a + [d] + b;
    assert s[|a|] == d && forall j :: 0 <= j < |a| ==> s[j] == a[j] && a[j] in a;
  }

  lemma SplitAppend(a: string, b: string, d: char)
    requires d !in a
    ensures Split(a + [d] + b, d) == [a] + Split(b, d)
  {
    IndexOfAppend(a, b, d);
    var s := a + [d] + b;
    assert s[..|a|] == a && s[|a| + 1..] == b;
  }

  lemma SplitOfNone(s: string, d: char)
    requires d !in s
    ensures Split(s, d) == [s]
  {
  }

  /** Splitting undoes joining, for items without the delimiter. */
  lemma {:induction false} SplitOfJoin(parts: seq<string>, d: char)
    requires |parts| >= 1 && forall i :: 0 <= i < |parts| ==> d !in parts[i]
    ensures Split(Join(parts, d), d) == parts
    decreases |parts|
  {
    if |parts| > 1 {
      SplitOfJoin(parts[1..], d);
      SplitAppend(parts[0], Join(parts[1..], d), d);
      assert parts == [parts[0]] + parts[1..];
    } else {
      assert Join(parts, d) == parts[0];
    }
  }

  lemma {:induction false} JoinOfSplit(s: string, d: char)
    ensures Join(Split(s, d), d) == s
    decreases |s|
  {
    var i := IndexOf(s, d);
    if i == |s| {
      SplitOfNone(s, d);
    } else {
      hide Split, Join, IndexOf;
      var x, y := s[..i], s[i + 1..];
      assert d !in x && s == x + [d] + y;
      JoinOfSplit(y, d);
      SplitAppend(x, y, d);
      JoinCons(x, Split(y, d), d);
    }
  }

  /** A delimiter between two strings splits them apart, whatever else they contain. */
  lemma {:induction false} SplitConcat(a: string, b: string, d: char)
    ensures Split(a + [d] + b, d) == Split(a, d) + Split(b, d)
    decreases |a|
  {
    hide Split;
    var i := IndexOf(a, d);
    if i == |a| {
      SplitAppend(a, b, d);
      SplitOfNone(a, d);
    } else {
      var x, y := a[..i], a[i + 1..];
      assert d !in x && a == x + [d] + y;
      assert x + [d] + y + [d] + b == x + [d] + (y + [d] + b);
      SplitConcat(y, b, d);
      SplitAppend(x, y + [d] + b, d);
      SplitAppend(x, y, d);
    }
  }

  lemma {:induction false} JoinConcat(xs: seq<string>, ys: seq<string>, d: char)
    requires xs != [] && ys != []
    ensures Join(xs + ys, d) == Join(xs, d) + [d] + Join(ys, d)
    decreases |xs|
  {
    if |xs| == 1 {
      assert (xs + ys)[1..] == ys;
    } else {
      assert (xs + ys)[1..] == xs[1..] + ys;
      JoinConcat(xs[1..], ys, d);
    }
  }

  lemma {:induction false} JoinLacks(parts: seq<string>, d: char, c: char)
    requires c != d && forall i :: 0 <= i < |parts| ==> c !in parts[i]
    ensures c !in Join(parts, d)
    decreases |parts|
  {
    if |parts| > 1 {
      JoinLacks(parts[1..], d, c);
    }
  }

  /** The pieces one after the other, with nothing between them. */
  function Concat(parts: seq<string>): string {
    if parts == [] then "" else Concat(parts[..|parts| - 1]) + parts[|parts| - 1]
  }

  lemma ConcatSnoc(parts: seq<string>, x: string)
    ensures Concat(parts + [x]) == Concat(parts) + x
  {
    assert (parts + [x])[..|parts|] == parts;
  }

  lemma {:induction false} ConcatCons(x: string, parts: seq<string>)
    ensures Concat([x] + parts) == x + Concat(parts)
    decreases |parts|
  {
    if parts == [] {
      assert [x] + parts == [] + [x];
      ConcatSnoc([], x);
    } else {
      var front, last := parts[..|parts| - 1], parts[|parts| - 1];
      ConcatCons(x, front);
      assert [x] + parts == ([x] + front) + [last] && parts == front + [last];
      ConcatSnoc([x] + front, last);
    }
  }

  // ----- Last separator -----

  /** The last position of c in s, or -1. */
  function LastIndexOf(s: string, c: char): (i: int)
    ensures -1 <= i < |s|
    ensures i >= 0 ==> s[i] == c
    ensures forall j :: i < j < |s| ==> s[j] != c
  {
    if s == [] then -1 else if s[|s| - 1] == c then |s| - 1 else LastIndexOf(s[..|s| - 1], c)
  }

  function AfterLast(s: string, c: char): string {
    s[LastIndexOf(s, c) + 1..]
  }

  function BeforeLast(s: string, c: char): string {
    var i := LastIndexOf(s, c);
    if i < 0 then "" else s[..i]
  }

  lemma LastOfAppend(a: string, b: string, c: char)
    requires c !in b
    ensures LastIndexOf(a + [c] + b, c) == |a|
    ensures AfterLast(a + [c] + b, c) == b && BeforeLast(a + [c] + b, c) == a
  {
    var s := a + [c] + b;
    LastIsHere(s, |a|, c, b);
    hide LastIndexOf;
    assert s[|a| + 1..] == b && s[..|a|] == a;
  }

  lemma LastIsHere(s: string, n: nat, c: char, b: string)
    requires n < |s| && s[n] == c && s[n + 1..] == b && c !in b
    ensures LastIndexOf(s, c) == n
  {
    forall j | n < j < |s| ensures s[j] != c {
      assert s[j] == b[j - n - 1];
    }
  }

  lemma LastOfNone(s: string, c: char)
    requires c !in s
    ensures AfterLast(s, c) == s && BeforeLast(s, c) == ""
  {
  }

  // ----- Prefixes and substrings -----

  predicate StartsWith(s: string, p: string) {
    p <= s
  }

  /** Some position of s begins with p. */
  predicate Contains(s: string, p: string) {
    p <= s || (s != [] && Contains(s[1..], p))
  }

  // ----- Decimal numbers -----

  function Digit(n: nat): (c: char)
    requires n < 10
    ensures '0' <= c <= '9'
  {
    ('0' as int + n) as char
  }

  function Dec(n: nat): (s: string)
    ensures |s| >= 1
    ensures forall i :: 0 <= i < |s| ==> '0' <= s[i] <= '9'
  {
    if n < 10 then [Digit(n)] else Dec(n / 10) + [Digit(n % 10)]
  }

  function UnDec(s: string): int {
    if s == [] then 0 else UnDec(s[..|s| - 1]) * 10 + (s[|s| - 1] as int - '0' as int)
  }

  lemma {:induction false} UnDecOfDec(n: nat)
    ensures UnDec(Dec(n)) == n
  {
    if n >= 10 {
      UnDecOfDec(n / 10);
      assert Dec(n)[..|Dec(n)| - 1] == Dec(n / 10);
    } else {
      assert [Digit(n)][..0] == [];
    }
  }

  lemma DecInjective(m: nat, n: nat)
    requires Dec(m) == Dec(n)
    ensures m == n
  {
    UnDecOfDec(m);
    UnDecOfDec(n);
  }
}
