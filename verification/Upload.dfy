/**
 Uploading a file in chunks and downloading it again.
 */
module Upload {
  import opened Options
  import opened Text
  import opened FileTree
  import opened KvRow

  const CHUNK_SIZE: nat := 1000000

  // ----- Substrings -----

  lemma {:induction false} ContainsIff(s: string, pat: string)
    ensures Contains(s, pat) <==> exists i :: 0 <= i <= |s| && pat <= s[i..]
    decreases |s|
  {
    assert s[0..] == s;
    if s != [] {
      ContainsIff(s[1..], pat);
      forall i | 0 <= i <= |s[1..]| && pat <= s[1..][i..] ensures pat <= s[i + 1..] { assert s[1..][i..] == s[i + 1..]; }
      forall i | 1 <= i <= |s| && pat <= s[i..] ensures pat <= s[1..][i - 1..] { assert s[1..][i - 1..] == s[i..]; }
      assert Contains(s[1..], pat) ==> exists j :: 0 <= j <= |s| && pat <= s[j..] by {
        if i :| 0 <= i <= |s[1..]| && pat <= s[1..][i..] {
          assert pat <= s[i + 1..];
        }
      }
    }
  }

  lemma ContainsAt(s: string, i: nat, pat: string)
    requires i <= |s| && pat <= s[i..]
    ensures Contains(s, pat)
  {
    ContainsIff(s, pat);
  }

  lemma MatchStaysOnOneSide(a: string, c: char, b: string, pat: string, i: nat)
    requires pat != "" && c !in pat && i <= |a| + 1 + |b| && pat <= (a + [c] + b)[i..]
    ensures if i <= |a| then pat <= a[i..] else pat <= b[i - |a| - 1..]
  {
    var s := a + [c] + b;
    if i > |a| {
      assert s[i..] == b[i - |a| - 1..];
    } else {
      assert s[i..][|a| - i] == c;
      forall j | 0 <= j < |pat| ensures s[i..][j] != c { assert pat[j] == s[i..][j] && pat[j] in pat; }
      assert |pat| <= |a| - i;
      assert forall j :: 0 <= j < |pat| ==> pat[j] == s[i..][j] == a[i..][j];
      assert a[i..][..|pat|] == pat;
    }
  }

  lemma MatchCarriesOver(a: string, c: char, b: string, pat: string, i: nat)
    ensures i <= |a| && pat <= a[i..] ==> pat <= (a + [c] + b)[i..]
    ensures i <= |b| && pat <= b[i..] ==> pat <= (a + [c] + b)[|a| + 1 + i..]
  {
    var s := a + [c] + b;
    if i <= |a| {
      assert s[i..] == a[i..] + ([c] + b);
    }
    if i <= |b| {
      assert s[|a| + 1 + i..] == b[i..];
    }
  }

  /** A pattern without c cannot reach across a c. */
  lemma ContainsAcross(a: string, c: char, b: string, pat: string)
    requires pat != "" && c !in pat
    ensures Contains(a + [c] + b, pat) <==> Contains(a, pat) || Contains(b, pat)
  {
    hide Contains;
    var s := a + [c] + b;
    ContainsIff(s, pat);
    ContainsIff(a, pat);
    ContainsIff(b, pat);
    if Contains(s, pat) {
      var i :| 0 <= i <= |s| && pat <= s[i..];
      MatchStaysOnOneSide(a, c, b, pat, i);
    }
    if Contains(a, pat) {
      var i :| 0 <= i <= |a| && pat <= a[i..];
      MatchCarriesOver(a, c, b, pat, i);
    }
    if Contains(b, pat) {
      var i :| 0 <= i <= |b| && pat <= b[i..];
      MatchCarriesOver(a, c, b, pat, i);
    }
  }

  const NOT_FOUND := "not found"

  lemma NoMatchInDigits(i: nat)
    ensures !Contains(Dec(i), NOT_FOUND)
  {
    ContainsIff(Dec(i), NOT_FOUND);
    var s := Dec(i);
    assert NOT_FOUND[0] == 'n';
    forall j | 0 <= j <= |s| ensures !(NOT_FOUND <= s[j..]) {
      assert j < |s| ==> s[j..][0] == s[j];
    }
  }

  // ----- Chunks -----

  function Chunks(data: string): (cs: seq<string>)
    ensures |cs| == (|data| + CHUNK_SIZE - 1) / CHUNK_SIZE
    ensures forall i :: 0 <= i < |cs| ==> 0 < |cs[i]| <= CHUNK_SIZE
    decreases |data|
  {
    if data == "" then []
    else if |data| <= CHUNK_SIZE then [data]
    else [data[..CHUNK_SIZE]] + Chunks(data[CHUNK_SIZE..])
  }

  lemma {:induction false} ConcatOfChunks(data: string)
    ensures Concat(Chunks(data)) == data
    decreases |data|
  {
    if data != "" {
      FirstChunk(data);
      hide Chunks, Concat;
      if |data| > CHUNK_SIZE {
        ConcatOfChunks(data[CHUNK_SIZE..]);
        ConcatCons(data[..CHUNK_SIZE], Chunks(data[CHUNK_SIZE..]));
        assert data == data[..CHUNK_SIZE] + data[CHUNK_SIZE..];
      } else {
        ConcatSnoc([], data);
        assert [] + [data] == [data] && Concat([]) == "" by { NoPieces(); }
      }
    }
  }

  lemma NoPieces()
    ensures Concat([]) == ""
  {
  }

  // ----- Columns -----

  function NameOf(path: string, i: nat): string {
    path + "-" + Dec(i)
  }

  function ChunkColumn(path: string, i: nat): string {
    NameOf(path, i) + "-content"
  }

  function ChunkList(path: string): string {
    path + "-metadata"
  }

  function Names(path: string, n: nat): (names: seq<string>)
    ensures |names| == n && forall i :: 0 <= i < n ==> names[i] == NameOf(path, i + 1)
  {
    if n == 0 then [] else Names(path, n - 1) + [NameOf(path, n)]
  }

  lemma ColumnsDiffer(path: string, i: nat, j: nat)
    ensures ChunkColumn(path, i) != ChunkList(path) && ChunkColumn(path, i) != path && ChunkList(path) != path
    ensures ChunkColumn(path, i) == ChunkColumn(path, j) ==> i == j
  {
    hide Dec;
    var a, b := Dec(i), Dec(j);
    assert ChunkColumn(path, i)[|path| + 1] == a[0];
    assert ChunkList(path)[|path| + 1] == 'm';
    assert |ChunkColumn(path, i)| == |path| + |a| + 9 && |ChunkColumn(path, j)| == |path| + |b| + 9;
    if ChunkColumn(path, i) == ChunkColumn(path, j) {
      assert ChunkColumn(path, i)[|path| + 1..|path| + 1 + |a|] == a;
      assert ChunkColumn(path, j)[|path| + 1..|path| + 1 + |b|] == b;
      DecInjective(i, j);
    }
  }

  /** The list that the loop finds and keeps; none when it is missing or says "not found" itself. */
  function Lead(cols: Columns, path: string): (lead: Option<string>)
    ensures lead.Some? ==> !Contains(lead.value, NOT_FOUND)
  {
    var v := Fetch(cols, ChunkList(path));
    if Contains(v, NOT_FOUND) then None else Some(v)
  }

  function Led(lead: Option<string>, list: string): string {
    match lead case None => list case Some(v) => v + "," + list
  }

  /** The chunk list after n chunks: started over each time when the path itself says "not found". */
  function ListAfter(path: string, lead: Option<string>, n: nat): string
    requires n >= 1
  {
    if Contains(path, NOT_FOUND) && n > 1 then NameOf(path, n) else Led(lead, Join(Names(path, n), ','))
  }

  lemma NameContains(path: string, i: nat)
    ensures Contains(NameOf(path, i), NOT_FOUND) <==> Contains(path, NOT_FOUND)
  {
    hide Contains, Dec;
    assert path + "-" + Dec(i) == path + ['-'] + Dec(i);
    ContainsAcross(path, '-', Dec(i), NOT_FOUND);
    NoMatchInDigits(i);
  }

  lemma {:induction false} ListContains(path: string, n: nat)
    requires n >= 1
    ensures Contains(Join(Names(path, n), ','), NOT_FOUND) <==> Contains(path, NOT_FOUND)
    decreases n
  {
    hide Contains, NameOf;
    NameContains(path, n);
    if n == 1 {
      assert Names(path, 1) == [NameOf(path, 1)];
    } else {
      ListContains(path, n - 1);
      JoinSnoc(Names(path, n - 1), NameOf(path, n), ',');
      ContainsAcross(Join(Names(path, n - 1), ','), ',', NameOf(path, n), NOT_FOUND);
    }
  }

  lemma LedContains(lead: Option<string>, list: string)
    requires lead.Some? ==> !Contains(lead.value, NOT_FOUND)
    ensures Contains(Led(lead, list), NOT_FOUND) <==> Contains(list, NOT_FOUND)
  {
    hide Contains;
    if lead.Some? {
      assert lead.value + "," + list == lead.value + [','] + list;
      ContainsAcross(lead.value, ',', list, NOT_FOUND);
    }
  }

  /** What the loop makes of the list it reads back. */
  lemma NextList(path: string, lead: Option<string>, n: nat)
    requires n >= 1 && (lead.Some? ==> !Contains(lead.value, NOT_FOUND))
    ensures
      var v := ListAfter(path, lead, n);
      ListAfter(path, lead, n + 1) == if Contains(v, NOT_FOUND) then NameOf(path, n + 1) else v + "," + NameOf(path, n + 1)
  {
    hide Contains, NameOf;
    NameContains(path, n);
    ListContains(path, n);
    LedContains(lead, Join(Names(path, n), ','));
    JoinSnoc(Names(path, n), NameOf(path, n + 1), ',');
    if lead.Some? {
      var a, b, c := lead.value, Join(Names(path, n), ','), NameOf(path, n + 1);
      assert a + "," + (b + [','] + c) == a + "," + b + "," + c;
    }
  }

  lemma MissingSaysNotFound(cols: Columns, col: string)
    requires col !in cols
    ensures Contains(Fetch(cols, col), NOT_FOUND)
  {
    var v := Fetch(cols, col);
    if cols == map[] {
      assert v[15..] == "not found\n";
      ContainsAt(v, 15, NOT_FOUND);
    } else {
      assert v[18..] == "not found\n";
      ContainsAt(v, 18, NOT_FOUND);
    }
  }

  // ----- Storing -----

  ghost predicate OwnChunk(path: string, n: nat, c: string) {
    exists i :: 1 <= i <= n && c == ChunkColumn(path, i)
  }

  /** The first n chunks are stored and listed. */
  ghost predicate HasChunks(s: Columns, path: string, lead: Option<string>, cs: seq<string>, n: nat)
    requires 1 <= n <= |cs|
  {
    && ChunkList(path) in s && s[ChunkList(path)] == ListAfter(path, lead, n)
    && (forall i :: 1 <= i <= n ==> ChunkColumn(path, i) in s && s[ChunkColumn(path, i)] == cs[i - 1])
  }

  /** The first n chunks are stored and listed, and no other column has changed. */
  ghost predicate Stored(s: Columns, s': Columns, path: string, cs: seq<string>, n: nat)
    requires n <= |cs|
  {
    if n == 0 then s' == s
    else
      && HasChunks(s', path, Lead(s, path), cs, n)
      && (forall c :: c != ChunkList(path) && !OwnChunk(path, n, c) ==> (c in s' <==> c in s) && (c in s ==> s'[c] == s[c]))
  }

  lemma StoreNext(s: Columns, s1: Columns, s': Columns, path: string, cs: seq<string>, n: nat)
    requires n < |cs| && Stored(s, s1, path, cs, n)
    requires s' == s1[ChunkList(path) := ListAfter(path, Lead(s, path), n + 1)][ChunkColumn(path, n + 1) := cs[n]]
    ensures Stored(s, s', path, cs, n + 1)
  {
    hide ChunkList, ChunkColumn, ListAfter, Lead, Contains;
    ColumnsDiffer(path, n + 1, n + 1);
    forall i | 1 <= i <= n + 1 ensures ChunkColumn(path, i) in s' && s'[ChunkColumn(path, i)] == cs[i - 1] {
      ColumnsDiffer(path, i, n + 1);
    }
    forall c | c != ChunkList(path) && !OwnChunk(path, n + 1, c) ensures (c in s' <==> c in s) && (c in s ==> s'[c] == s[c]) {
      assert c != ChunkColumn(path, n + 1);
      assert !OwnChunk(path, n, c);
    }
  }

  /** The data from offset on is what the remaining chunks hold. */
  lemma {:induction false} ChunkAt(data: string, n: nat)
    requires n * CHUNK_SIZE < |data|
    ensures n < |Chunks(data)|
    ensures
      var len := if CHUNK_SIZE < |data| - n * CHUNK_SIZE then CHUNK_SIZE else |data| - n * CHUNK_SIZE;
      Chunks(data)[n] == data[n * CHUNK_SIZE..n * CHUNK_SIZE + len]
    decreases n
  {
    if n > 0 {
      hide Chunks;
      var rest, m := data[CHUNK_SIZE..], (n - 1) * CHUNK_SIZE;
      assert n * CHUNK_SIZE == m + CHUNK_SIZE;
      assert |data| > CHUNK_SIZE;
      var len := if CHUNK_SIZE < |rest| - m then CHUNK_SIZE else |rest| - m;
      ChunkAt(rest, n - 1);
      FirstChunk(data);
      SliceOfRest(data, CHUNK_SIZE, m, len);
    } else {
      FirstChunk(data);
    }
  }

  lemma FirstChunk(data: string)
    requires data != ""
    ensures Chunks(data) == if |data| <= CHUNK_SIZE then [data] else [data[..CHUNK_SIZE]] + Chunks(data[CHUNK_SIZE..])
  {
  }

  lemma SliceOfRest(s: string, c: nat, m: nat, len: nat)
    requires c + m + len <= |s|
    ensures s[c..][m..m + len] == s[m + c..m + c + len]
  {
  }

  /** The chunk loop. */
  method StoreChunks(kv: Row, path: string, data: string)
    modifies kv
    ensures Stored(old(kv.cols), kv.cols, path, Chunks(data), |Chunks(data)|)
  {
    hide Stored, ListAfter, Contains, Chunks, NameOf, Offset;
    ghost var s, cs := kv.cols, Chunks(data);
    var i, offset := 1, 0;
    assert Stored(s, s, path, cs, 0) by { NothingStored(s, path, cs); }
    assert offset == Offset(data, 0) by { StartOffset(data); }
    while offset < |data|
      invariant i >= 1 && i - 1 <= |cs| && Stored(s, kv.cols, path, cs, i - 1)
      invariant offset == Offset(data, i - 1) <= |data|
      decreases |data| - offset
    {
      OffsetNext(data, i - 1);
      ChunkAt(data, i - 1);
      var len := if CHUNK_SIZE < |data| - offset then CHUNK_SIZE else |data| - offset;
      var chunkName := NameOf(path, i);
      var chunk := data[offset..offset + len];
      offset := offset + len;
      ghost var s1 := kv.cols;
      var list := kv.Get(ChunkList(path));
      ListReadBack(s, s1, path, cs, i - 1);
      if Contains(list, NOT_FOUND) {
        list := chunkName;
      } else {
        list := list + "," + chunkName;
      }
      kv.Put(ChunkList(path), list, [], Content);
      kv.Put(chunkName + "-content", chunk, [], Content);
      StoreNext(s, s1, kv.cols, path, cs, i - 1);
      i := i + 1;
    }
    AllStored(data, i - 1);
  }

  lemma StartOffset(data: string)
    ensures Offset(data, 0) == 0
  {
  }

  lemma OffsetNext(data: string, n: nat)
    requires Offset(data, n) < |data|
    ensures Offset(data, n + 1) == if CHUNK_SIZE < |data| - Offset(data, n) then Offset(data, n) + CHUNK_SIZE else |data|
    ensures Offset(data, n) == n * CHUNK_SIZE
  {
  }

  lemma AllStored(data: string, n: nat)
    requires n <= |Chunks(data)| && Offset(data, n) == |data|
    ensures n == |Chunks(data)|
  {
    var size := |data|;
    assert |Chunks(data)| == (size + CHUNK_SIZE - 1) / CHUNK_SIZE;
    hide Chunks;
  }

  /** Where chunk n starts: the loop's offset after n rounds. */
  function Offset(data: string, n: nat): nat {
    if n * CHUNK_SIZE < |data| then n * CHUNK_SIZE else |data|
  }

  lemma NothingStored(s: Columns, path: string, cs: seq<string>)
    ensures Stored(s, s, path, cs, 0)
  {
  }

  lemma ListReadBack(s: Columns, s1: Columns, path: string, cs: seq<string>, n: nat)
    requires n <= |cs| && Stored(s, s1, path, cs, n)
    ensures
      var v := Fetch(s1, ChunkList(path));
      ListAfter(path, Lead(s, path), n + 1) == if Contains(v, NOT_FOUND) then NameOf(path, n + 1) else v + "," + NameOf(path, n + 1)
  {
    hide Contains, NameOf;
    if n == 0 {
      assert Names(path, 1) == [NameOf(path, 1)];
    } else {
      hide ChunkColumn, OwnChunk, ListAfter, Fetch;
      assert Fetch(s1, ChunkList(path)) == ListAfter(path, Lead(s, path), n) by { ReadThere(s1, ChunkList(path)); }
      NextList(path, Lead(s, path), n);
    }
  }

  lemma ReadThere(s: Columns, c: string)
    ensures c in s ==> Fetch(s, c) == s[c]
    ensures c !in s ==> Fetch(s, c) != ""
  {
  }

  // ----- Reading back -----

  function Contents(cols: Columns, names: seq<string>): string {
    if names == [] then "" else Contents(cols, names[..|names| - 1]) + Fetch(cols, names[|names| - 1] + "-content")
  }

  /** The file as a download puts it together. */
  function Downloaded(cols: Columns, path: string): string {
    Contents(cols, Split(Fetch(cols, ChunkList(path)), ','))
  }

  method Download(kv: Row, path: string) returns (content: string)
    ensures content == Downloaded(kv.cols, path)
  {
    hide Split;
    var list := kv.Get(ChunkList(path));
    var names := SplitString(list, ',');
    content := "";
    for i := 0 to |names|
      invariant content == Contents(kv.cols, names[..i])
    {
      var chunk := kv.Get(names[i] + "-content");
      assert names[..i + 1][..i] == names[..i];
      content := content + chunk;
    }
    assert names[..|names|] == names;
  }

  lemma {:induction false} ContentsConcat(s: Columns, xs: seq<string>, ys: seq<string>)
    ensures Contents(s, xs + ys) == Contents(s, xs) + Contents(s, ys)
    decreases |ys|
  {
    hide Fetch;
    if ys == [] {
      assert xs + ys == xs;
    } else {
      var front, y := ys[..|ys| - 1], ys[|ys| - 1];
      assert (xs + ys)[..|xs + ys| - 1] == xs + front && (xs + ys)[|xs + ys| - 1] == y;
      ContentsConcat(s, xs, front);
    }
  }

  lemma {:induction false} ContentsOfNames(s: Columns, path: string, lead: Option<string>, cs: seq<string>, n: nat)
    requires n <= |cs| && cs != [] && HasChunks(s, path, lead, cs, |cs|)
    ensures Contents(s, Names(path, n)) == Concat(cs[..n])
    decreases n
  {
    hide *;
    if n > 0 {
      ContentsOfNames(s, path, lead, cs, n - 1);
      assert cs[..n] == cs[..n - 1] + [cs[n - 1]];
      ConcatSnoc(cs[..n - 1], cs[n - 1]);
      LastName(s, path, n);
      StoredChunk(s, path, lead, cs, n);
    } else {
      NoContents(s, path);
      assert cs[..0] == [];
    }
  }

  lemma NoContents(s: Columns, path: string)
    ensures Concat([]) == "" && Contents(s, Names(path, 0)) == ""
  {
  }

  lemma StoredChunk(s: Columns, path: string, lead: Option<string>, cs: seq<string>, i: nat)
    requires cs != [] && HasChunks(s, path, lead, cs, |cs|) && 1 <= i <= |cs|
    ensures Fetch(s, ChunkColumn(path, i)) == cs[i - 1]
  {
    hide ChunkColumn, ChunkList, ListAfter;
  }

  lemma LastName(s: Columns, path: string, n: nat)
    requires n > 0
    ensures Contents(s, Names(path, n)) == Contents(s, Names(path, n - 1)) + Fetch(s, ChunkColumn(path, n))
  {
    hide NameOf, Fetch;
    assert Names(path, n)[..n - 1] == Names(path, n - 1);
  }

  lemma NameHasNoComma(path: string, i: nat)
    requires ',' !in path
    ensures ',' !in NameOf(path, i)
  {
  }

  /** The pieces of a leftover list that add nothing to a download: columns that are there, empty and not overwritten. */
  ghost predicate Silent(s: Columns, path: string, n: nat, pieces: seq<string>) {
    forall i :: 0 <= i < |pieces| ==>
      var c := pieces[i] + "-content";
      c in s && s[c] == "" && !OwnChunk(path, n, c)
  }

  lemma ContentIsNoList(piece: string, path: string)
    ensures piece + "-content" != ChunkList(path)
  {
    var a, b := piece + "-content", ChunkList(path);
    assert a[|a| - 1] == 't' && b[|b| - 1] == 'a';
  }

  /** A piece reads as nothing after the upload exactly when it did before and is none of the new chunks. */
  lemma PieceReads(s: Columns, s': Columns, path: string, cs: seq<string>, piece: string)
    requires cs != [] && Stored(s, s', path, cs, |cs|) && forall i :: 0 <= i < |cs| ==> cs[i] != ""
    ensures
      var c := piece + "-content";
      Fetch(s', c) == "" <==> c in s && s[c] == "" && !OwnChunk(path, |cs|, c)
  {
    var c := piece + "-content";
    ContentIsNoList(piece, path);
    hide ChunkList, ChunkColumn, ListAfter, Lead, Fetch;
    ReadThere(s', c);
    if OwnChunk(path, |cs|, c) {
      var i :| 1 <= i <= |cs| && c == ChunkColumn(path, i);
      assert s'[c] == cs[i - 1];
    }
  }

  lemma {:induction false} LeftoverReads(s: Columns, s': Columns, path: string, cs: seq<string>, pieces: seq<string>)
    requires cs != [] && Stored(s, s', path, cs, |cs|) && forall i :: 0 <= i < |cs| ==> cs[i] != ""
    ensures Contents(s', pieces) == "" <==> Silent(s, path, |cs|, pieces)
    decreases |pieces|
  {
    hide *;
    if pieces == [] {
      NothingToRead(s, s', path, |cs|);
    } else {
      var front, last := pieces[..|pieces| - 1], pieces[|pieces| - 1];
      assert pieces == front + [last];
      LeftoverReads(s, s', path, cs, front);
      PieceReads(s, s', path, cs, last);
      SilentSnoc(s, path, |cs|, front, last);
      ContentsSnoc(s', front, last);
    }
  }

  lemma NothingToRead(s: Columns, s': Columns, path: string, n: nat)
    ensures Contents(s', []) == "" && Silent(s, path, n, [])
  {
  }

  lemma ContentsSnoc(s: Columns, front: seq<string>, last: string)
    ensures Contents(s, front + [last]) == Contents(s, front) + Fetch(s, last + "-content")
  {
    hide Fetch;
    assert (front + [last])[..|front|] == front;
  }

  lemma SilentSnoc(s: Columns, path: string, n: nat, front: seq<string>, last: string)
    ensures Silent(s, path, n, front + [last]) <==>
              Silent(s, path, n, front) && last + "-content" in s && s[last + "-content"] == "" && !OwnChunk(path, n, last + "-content")
  {
    hide OwnChunk;
    var pieces := front + [last];
    assert pieces[|front|] == last;
    assert forall i :: 0 <= i < |front| ==> pieces[i] == front[i];
  }

  /** With one chunk or a harmless path, a download is what the leftover list gives, then the data. */
  lemma DownloadOfLed(s': Columns, path: string, lead: Option<string>, cs: seq<string>)
    requires cs != [] && HasChunks(s', path, lead, cs, |cs|) && ',' !in path && (|cs| == 1 || !Contains(path, NOT_FOUND))
    ensures Downloaded(s', path) == (if lead.Some? then Contents(s', Split(lead.value, ',')) else "") + Concat(cs)
  {
    var n, names := |cs|, Names(path, |cs|);
    assert Fetch(s', ChunkList(path)) == Led(lead, Join(names, ','));
    ContentsOfNames(s', path, lead, cs, n);
    assert cs[..n] == cs;
    hide Contains, HasChunks, Contents, Split, Join, Concat, NameOf, Fetch;
    forall i | 0 <= i < n ensures ',' !in names[i] { NameHasNoComma(path, i + 1); }
    SplitOfJoin(names, ',');
    if lead.Some? {
      assert lead.value + "," + Join(names, ',') == lead.value + [','] + Join(names, ',');
      SplitConcat(lead.value, Join(names, ','), ',');
      ContentsConcat(s', Split(lead.value, ','), names);
    }
  }

  /**
   Upload, then download. For a path without a comma, a non-empty file comes back exactly when it fits in
   one chunk or its path does not contain "not found", and the list that was left at the path, if
   any, is dropped or adds nothing.
   */
  lemma UploadThenDownload(s: Columns, s': Columns, path: string, data: string)
    requires data != "" && Stored(s, s', path, Chunks(data), |Chunks(data)|) && ',' !in path
    ensures Downloaded(s', path) == data <==>
              && (|data| <= CHUNK_SIZE || !Contains(path, NOT_FOUND))
              && (Lead(s, path).Some? ==> Silent(s, path, |Chunks(data)|, Split(Lead(s, path).value, ',')))
  {
    var cs, lead := Chunks(data), Lead(s, path);
    assert cs != [] && (|cs| == 1 <==> |data| <= CHUNK_SIZE) && HasChunks(s', path, lead, cs, |cs|);
    assert forall i :: 0 <= i < |cs| ==> cs[i] != "";
    ConcatOfChunks(data);
    hide *;
    if |cs| > 1 && Contains(path, NOT_FOUND) {
      LastChunkOnly(s', path, lead, cs);
      LastIsShort(data);
    } else {
      DownloadOfLed(s', path, lead, cs);
      if lead.Some? {
        LeftoverReads(s, s', path, cs, Split(lead.value, ','));
      }
    }
  }

  lemma LastIsShort(data: string)
    requires |Chunks(data)| > 1
    ensures Chunks(data)[|Chunks(data)| - 1] != data
  {
    FirstChunk(data);
    assert |data| > CHUNK_SIZE;
  }

  /** With such a path, only the last chunk comes back. */
  lemma LastChunkOnly(s: Columns, path: string, lead: Option<string>, cs: seq<string>)
    requires |cs| > 1 && HasChunks(s, path, lead, cs, |cs|) && ',' !in path && Contains(path, NOT_FOUND)
    ensures Downloaded(s, path) == cs[|cs| - 1]
  {
    var n := |cs|;
    var name := NameOf(path, n);
    assert Fetch(s, ChunkList(path)) == name;
    hide Contains, NameOf, Split;
    NameHasNoComma(path, n);
    SplitOfNone(name, ',');
    StoredChunk(s, path, lead, cs, n);
    hide HasChunks;
    assert Contents(s, [name][..0]) == "";
    assert Contents(s, [name]) == "" + Fetch(s, name + "-content");
  }

  /** A download reads the path's list and content columns only. */
  lemma {:induction false} SameContents(s: Columns, c: string, v: string, names: seq<string>)
    requires s != map[] && forall n :: n + "-content" != c
    ensures Contents(s[c := v], names) == Contents(s, names)
    decreases |names|
  {
    if names != [] {
      SameContents(s, c, v, names[..|names| - 1]);
      assert names[|names| - 1] + "-content" != c;
    }
  }

  lemma SameDownload(s: Columns, c: string, v: string, path: string)
    requires s != map[] && c != ChunkList(path) && |c| > 0 && c[|c| - 1] != 't'
    ensures Downloaded(s[c := v], path) == Downloaded(s, path)
  {
    forall n: string ensures n + "-content" != c { assert (n + "-content")[|n| + 7] == 't'; }
    assert Fetch(s[c := v], ChunkList(path)) == Fetch(s, ChunkList(path));
    hide Split, ChunkList, Fetch;
    SameContents(s, c, v, Split(Fetch(s, ChunkList(path)), ','));
  }
}
