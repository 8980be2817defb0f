/**
 The binary form of a tablet. An `unordered_map` is walked in an unspecified order, so one tablet
 has many encodings: `Encodes` relates a tablet to the encoding of any listing of it.
 */
module Serializer {
  import opened Wire
  import opened Text
  import opened Tablets

  type Entries = seq<(Bytes, Bytes)>
  type Rows = seq<(Bytes, Entries)>

  const CHUNK_SIZE: nat := 1024 * 1024

  // ----- Encoding -----

  function EncodeEntries(es: Entries): Bytes {
    if es == [] then [] else WriteString(es[0].0) + WriteString(es[0].1) + EncodeEntries(es[1..])
  }

  function EncodeRow(row: Bytes, es: Entries): Bytes {
    WriteString(row) + Le32(|es| % LIMIT32) + EncodeEntries(es)
  }

  function EncodeRows(rs: Rows): Bytes {
    if rs == [] then [] else EncodeRow(rs[0].0, rs[0].1) + EncodeRows(rs[1..])
  }

  function EncodeTable(rs: Rows): Bytes {
    Le32(|rs| % LIMIT32) + EncodeRows(rs)
  }

  /** The list visits every entry of the map once, in some order. */
  ghost predicate Lists<V>(m: map<Bytes, V>, es: seq<(Bytes, V)>) {
    && |es| == |m|
    && (forall i :: 0 <= i < |es| ==> es[i].0 in m && m[es[i].0] == es[i].1)
    && (forall i, j :: 0 <= i < j < |es| ==> es[i].0 != es[j].0)
    && (forall k :: k in m ==> HasKey(es, k))
  }

  ghost predicate HasKey<V>(es: seq<(Bytes, V)>, k: Bytes) {
    exists i :: 0 <= i < |es| && es[i].0 == k
  }

  ghost predicate ListsTable(t: Tablet, rs: Rows) {
    && |rs| == |t|
    && (forall i :: 0 <= i < |rs| ==> rs[i].0 in t && Lists(t[rs[i].0], rs[i].1))
    && (forall i, j :: 0 <= i < j < |rs| ==> rs[i].0 != rs[j].0)
    && (forall r :: r in t ==> HasKey(rs, r))
  }

  ghost predicate Encodes(t: Tablet, b: Bytes) {
    exists rs :: ListsTable(t, rs) && b == EncodeTable(rs)
  }

  /** Every count and every string length is a `uint32_t`. */
  ghost predicate Fits(t: Tablet) {
    && |t| < LIMIT32
    && forall r :: r in t ==>
         && Short(r) && |t[r]| < LIMIT32
         && forall c :: c in t[r] ==> Short(c) && Short(t[r][c])
  }

  ghost predicate EntriesFit(es: Entries) {
    |es| < LIMIT32 && forall i :: 0 <= i < |es| ==> Short(es[i].0) && Short(es[i].1)
  }

  ghost predicate RowsFit(rs: Rows) {
    |rs| < LIMIT32 && forall i :: 0 <= i < |rs| ==> Short(rs[i].0) && EntriesFit(rs[i].1)
  }

  // ----- Decoding -----

  /** The flag the reader returns, the table as filled so far, and the unread bytes. */
  datatype Decoded = Decoded(ok: bool, table: Tablet, rest: Bytes)

  function DecodeEntries(b: Bytes, n: nat, t: Tablet, row: Bytes): Decoded
    decreases n
  {
    if n == 0 then Decoded(true, t, b)
    else
      match ReadString(b)
      case Fail => Decoded(false, t, b)
      case Got(col, b1) =>
        match ReadString(b1)
        case Fail => Decoded(false, t, b1)
        case Got(val, b2) => DecodeEntries(b2, n - 1, SetCell(t, row, col, val), row)
  }

  function DecodeRows(b: Bytes, n: nat, t: Tablet): Decoded
    decreases n
  {
    if n == 0 then Decoded(true, t, b)
    else
      match ReadString(b)
      case Fail => Decoded(false, t, b)
      case Got(row, b1) =>
        if |b1| < 4 then Decoded(false, t, b1)
        else
          var d := DecodeEntries(b1[4..], UnLe32(b1[..4]), t, row);
          if d.ok then DecodeRows(d.rest, n - 1, d.table) else d
  }

  /** What the reader makes of a buffer, starting from an empty table. */
  function Deserialize(b: Bytes): Decoded {
    if b == [] then Decoded(true, map[], [])
    else if |b| < 4 then Decoded(false, map[], b)
    else DecodeRows(b[4..], UnLe32(b[..4]), map[])
  }

  method DeserializeTablet(buffer: Bytes) returns (ok: bool, table: Tablet)
    ensures ok == Deserialize(buffer).ok && table == Deserialize(buffer).table
  {
    hide UnLe32, ReadString, SetCell;
    table := map[];
    if buffer == [] { return true, table; }
    if |buffer| < 4 { return false, table; }
    var outerSize, input := UnLe32(buffer[..4]), buffer[4..];
    for i := 0 to outerSize
      invariant DecodeRows(input, outerSize - i, table) == Deserialize(buffer)
    {
      var row := ReadString(input);
      if row.Fail? { return false, table; }
      input := row.rest;
      if |input| < 4 { return false, table; }
      var innerSize := UnLe32(input[..4]);
      input := input[4..];
      ghost var inner := DecodeEntries(input, innerSize, table, row.value);
      for j := 0 to innerSize
        invariant DecodeEntries(input, innerSize - j, table, row.value) == inner
      {
        var col := ReadString(input);
        if col.Fail? { return false, table; }
        var val := ReadString(col.rest);
        if val.Fail? { return false, table; }
        input := val.rest;
        table := SetCell(table, row.value, col.value, val.value);
      }
    }
    return true, table;
  }

  method SerializeRow(row: Row) returns (out: Bytes, ghost es: Entries)
    ensures Lists(row, es) && out == EncodeEntries(es)
  {
    hide WriteString, HasKey;
    out, es := [], [];
    var todo := row.Keys;
    while todo != {}
      invariant WalkedRow(row, todo, es)
      invariant out == EncodeEntries(es)
      decreases todo
    {
      var col :| col in todo;
      out := out + (WriteString(col) + WriteString(row[col]));
      EncodeEntriesSnoc(es, (col, row[col]));
      WalkedRowStep(row, todo, es, col);
      es := es + [(col, row[col])];
      todo := todo - {col};
    }
  }

  /** The columns walked so far, when the columns of `todo` are still to come. */
  ghost predicate WalkedRow(row: Row, todo: set<Bytes>, es: Entries) {
    && todo <= row.Keys
    && |es| == |row| - |todo|
    && (forall i :: 0 <= i < |es| ==> es[i].0 in row && es[i].0 !in todo && row[es[i].0] == es[i].1)
    && (forall i, j :: 0 <= i < j < |es| ==> es[i].0 != es[j].0)
    && (forall k :: k in row && k !in todo ==> HasKey(es, k))
  }

  lemma WalkedRowStep(row: Row, todo: set<Bytes>, es: Entries, col: Bytes)
    requires WalkedRow(row, todo, es) && col in todo
    ensures WalkedRow(row, todo - {col}, es + [(col, row[col])])
  {
    HasKeySnoc(es, (col, row[col]));
  }

  /** The rows walked so far, when the rows of `todo` are still to come. */
  ghost predicate Walked(t: Tablet, todo: set<Bytes>, rs: Rows) {
    && todo <= t.Keys
    && |rs| == |t| - |todo|
    && (forall i :: 0 <= i < |rs| ==> rs[i].0 in t && rs[i].0 !in todo && Lists(t[rs[i].0], rs[i].1))
    && (forall i, j :: 0 <= i < j < |rs| ==> rs[i].0 != rs[j].0)
    && (forall r :: r in t && r !in todo ==> HasKey(rs, r))
  }

  lemma WalkedStep(t: Tablet, todo: set<Bytes>, rs: Rows, row: Bytes, es: Entries)
    requires Walked(t, todo, rs) && row in todo && Lists(t[row], es)
    ensures Walked(t, todo - {row}, rs + [(row, es)])
  {
    hide Lists;
    HasKeySnoc(rs, (row, es));
  }

  method SerializeTablet(table: Tablet) returns (out: Bytes)
    ensures Encodes(table, out)
  {
    hide Le32, WriteString, Lists, HasKey, EncodeEntries;
    ghost var rs: Rows := [];
    out := Le32(|table| % LIMIT32);
    assert EncodeRows(rs) == [];
    hide EncodeRows;
    var todo := table.Keys;
    while todo != {}
      invariant Walked(table, todo, rs)
      invariant out == Le32(|table| % LIMIT32) + EncodeRows(rs)
      decreases todo
    {
      var row :| row in todo;
      var body, es := SerializeRow(table[row]);
      assert |table[row]| == |es| by { ListsSize(table[row], es); }
      out := out + (WriteString(row) + Le32(|table[row]| % LIMIT32) + body);
      hide EncodeRow, Walked;
      RowAppended(Le32(|table| % LIMIT32), rs, row, es);
      WalkedStep(table, todo, rs, row, es);
      rs := rs + [(row, es)];
      todo := todo - {row};
    }
    assert ListsTable(table, rs);
  }

  lemma RowAppended(head: Bytes, rs: Rows, row: Bytes, es: Entries)
    ensures head + EncodeRows(rs) + EncodeRow(row, es) == head + EncodeRows(rs + [(row, es)])
  {
    hide EncodeRow, EncodeRows;
    EncodeRowsSnoc(rs, (row, es));
  }

  lemma ListsSize<V>(m: map<Bytes, V>, es: seq<(Bytes, V)>)
    requires Lists(m, es)
    ensures |es| == |m|
  {
  }

  lemma HasKeySnoc<V>(es: seq<(Bytes, V)>, e: (Bytes, V))
    ensures forall k :: HasKey(es, k) || k == e.0 ==> HasKey(es + [e], k)
  {
    var fs := es + [e];
    assert fs[|es|] == e;
    forall k | HasKey(es, k) ensures HasKey(fs, k) {
      var i :| 0 <= i < |es| && es[i].0 == k;
      assert fs[i] == es[i];
    }
  }

  lemma {:induction false} EncodeEntriesSnoc(es: Entries, e: (Bytes, Bytes))
    ensures EncodeEntries(es + [e]) == EncodeEntries(es) + (WriteString(e.0) + WriteString(e.1))
  {
    hide WriteString;
    if es == [] {
      assert es + [e] == [e] && [e][1..] == [];
    } else {
      assert (es + [e])[1..] == es[1..] + [e];
      EncodeEntriesSnoc(es[1..], e);
    }
  }

  lemma {:induction false} EncodeRowsSnoc(rs: Rows, r: (Bytes, Entries))
    ensures EncodeRows(rs + [r]) == EncodeRows(rs) + EncodeRow(r.0, r.1)
  {
    hide EncodeRow;
    if rs == [] {
      assert rs + [r] == [r] && [r][1..] == [];
    } else {
      assert (rs + [r])[1..] == rs[1..] + [r];
      EncodeRowsSnoc(rs[1..], r);
    }
  }

  // ----- Decoding what was encoded -----

  ghost function AddEntries(t: Tablet, row: Bytes, es: Entries): Tablet
    decreases |es|
  {
    if es == [] then t else AddEntries(SetCell(t, row, es[0].0, es[0].1), row, es[1..])
  }

  ghost function AddRows(t: Tablet, rs: Rows): Tablet
    decreases |rs|
  {
    if rs == [] then t else AddRows(AddEntries(t, rs[0].0, rs[0].1), rs[1..])
  }

  lemma {:induction false} DecodeEncodedEntries(es: Entries, rest: Bytes, t: Tablet, row: Bytes)
    requires EntriesFit(es)
    ensures DecodeEntries(EncodeEntries(es) + rest, |es|, t, row) == Decoded(true, AddEntries(t, row, es), rest)
    decreases |es|
  {
    hide Le32, UnLe32, WriteString, ReadString;
    if es == [] {
      assert EncodeEntries(es) + rest == rest;
    } else {
      var tail := EncodeEntries(es[1..]) + rest;
      assert EncodeEntries(es) + rest == WriteString(es[0].0) + (WriteString(es[0].1) + tail);
      ReadWritten(es[0].0, WriteString(es[0].1) + tail);
      ReadWritten(es[0].1, tail);
      DecodeEncodedEntries(es[1..], rest, SetCell(t, row, es[0].0, es[0].1), row);
    }
  }

  lemma DecodeRowHeader(row: Bytes, es: Entries, body: Bytes)
    requires Short(row) && EntriesFit(es)
    ensures
      var b := WriteString(row) + Le32(|es|) + body;
      && ReadString(b) == Got(row, Le32(|es|) + body)
      && UnLe32((Le32(|es|) + body)[..4]) == |es| && (Le32(|es|) + body)[4..] == body
  {
    assert WriteString(row) + Le32(|es|) + body == WriteString(row) + (Le32(|es|) + body);
    ReadWritten(row, Le32(|es|) + body);
    Le32RoundTrip(|es|);
    assert (Le32(|es|) + body)[..4] == Le32(|es|);
  }

  lemma DecodeOneRow(row: Bytes, es: Entries, rest: Bytes, n: nat, t: Tablet)
    requires Short(row) && EntriesFit(es) && n > 0
    ensures DecodeRows(EncodeRow(row, es) + rest, n, t) == DecodeRows(rest, n - 1, AddEntries(t, row, es))
  {
    hide Le32, UnLe32, WriteString, ReadString, EncodeEntries, DecodeEntries, AddEntries, Short;
    var body := EncodeEntries(es) + rest;
    assert EncodeRow(row, es) + rest == WriteString(row) + Le32(|es|) + body;
    DecodeRowHeader(row, es, body);
    DecodeEncodedEntries(es, rest, t, row);
  }

  lemma NoRows(rest: Bytes, t: Tablet)
    ensures DecodeRows(EncodeRows([]) + rest, 0, t) == Decoded(true, AddRows(t, []), rest)
  {
    assert EncodeRows([]) + rest == rest;
  }

  lemma FirstRow(rs: Rows, rest: Bytes)
    requires rs != []
    ensures EncodeRows(rs) + rest == EncodeRow(rs[0].0, rs[0].1) + (EncodeRows(rs[1..]) + rest)
  {
    hide EncodeRow;
  }

  lemma FirstRowFits(rs: Rows)
    requires RowsFit(rs) && rs != []
    ensures Short(rs[0].0) && EntriesFit(rs[0].1) && RowsFit(rs[1..])
  {
    hide Short, EntriesFit;
  }

  lemma {:induction false} DecodeEncodedRows(rs: Rows, rest: Bytes, t: Tablet)
    requires RowsFit(rs)
    ensures DecodeRows(EncodeRows(rs) + rest, |rs|, t) == Decoded(true, AddRows(t, rs), rest)
    decreases |rs|
  {
    hide *;
    if rs == [] {
      NoRows(rest, t);
    } else {
      FirstRowFits(rs);
      FirstRow(rs, rest);
      var row, es, tail := rs[0].0, rs[0].1, EncodeRows(rs[1..]) + rest;
      DecodeOneRow(row, es, tail, |rs|, t);
      DecodeEncodedRows(rs[1..], rest, AddEntries(t, row, es));
      assert AddRows(t, rs) == AddRows(AddEntries(t, row, es), rs[1..]) by { FirstRowAdded(t, rs); }
    }
  }

  lemma FirstRowAdded(t: Tablet, rs: Rows)
    requires rs != []
    ensures AddRows(t, rs) == AddRows(AddEntries(t, rs[0].0, rs[0].1), rs[1..])
  {
  }

  // ----- The table a listing adds up to -----

  ghost function Merge(m: Row, es: Entries): Row
    decreases |es|
  {
    if es == [] then m else Merge(m[es[0].0 := es[0].1], es[1..])
  }

  lemma {:induction false} AddEntriesIsMerge(t: Tablet, row: Bytes, es: Entries)
    ensures AddEntries(t, row, es) == if es == [] then t else t[row := Merge(RowOf(t, row), es)]
    decreases |es|
  {
    if es != [] {
      AddEntriesIsMerge(SetCell(t, row, es[0].0, es[0].1), row, es[1..]);
    }
  }

  lemma {:induction false} MergeAt(m: Row, es: Entries, k: Bytes)
    requires forall i, j :: 0 <= i < j < |es| ==> es[i].0 != es[j].0
    ensures !HasKey(es, k) ==> (k in Merge(m, es) <==> k in m) && (k in m ==> Merge(m, es)[k] == m[k])
    ensures forall i :: 0 <= i < |es| && es[i].0 == k ==> k in Merge(m, es) && Merge(m, es)[k] == es[i].1
    decreases |es|
  {
    if es != [] {
      var m', es' := m[es[0].0 := es[0].1], es[1..];
      MergeAt(m', es', k);
      if HasKey(es', k) {
        var i :| 0 <= i < |es'| && es'[i].0 == k;
        assert es[i + 1].0 == k;
      }
      forall i | 0 <= i < |es| && es[i].0 == k
        ensures k in Merge(m, es) && Merge(m, es)[k] == es[i].1
      {
        if i > 0 {
          assert es'[i - 1] == es[i];
        }
      }
    }
  }

  lemma MergeListed(m: Row, es: Entries)
    requires Lists(m, es)
    ensures Merge(map[], es) == m
  {
    forall k ensures k in Merge(map[], es) <==> k in m
             ensures k in m ==> k in Merge(map[], es) && Merge(map[], es)[k] == m[k]
    {
      MergeAt(map[], es, k);
      if k in m {
        var i :| 0 <= i < |es| && es[i].0 == k;
      }
    }
  }

  /** Rows without columns have no bytes to come back from. */
  ghost function WithoutEmptyRows(t: Tablet): Tablet {
    map r | r in t && t[r] != map[] :: t[r]
  }

  /** What adding the rows i.. of a listing to table u must give. */
  lemma {:induction false} AddRowsAt(u: Tablet, rs: Rows, r: Bytes)
    requires forall i, j :: 0 <= i < j < |rs| ==> rs[i].0 != rs[j].0
    requires forall i :: 0 <= i < |rs| ==> rs[i].0 !in u
    ensures !HasKey(rs, r) ==> (r in AddRows(u, rs) <==> r in u) && (r in u ==> AddRows(u, rs)[r] == u[r])
    ensures forall i :: 0 <= i < |rs| && rs[i].0 == r ==>
              && (r in AddRows(u, rs) <==> rs[i].1 != [])
              && (rs[i].1 != [] ==> AddRows(u, rs)[r] == Merge(map[], rs[i].1))
    decreases |rs|
  {
    if rs != [] {
      var u', rs' := AddEntries(u, rs[0].0, rs[0].1), rs[1..];
      AddEntriesIsMerge(u, rs[0].0, rs[0].1);
      assert forall i :: 0 <= i < |rs'| ==> rs'[i] == rs[i + 1];
      AddRowsAt(u', rs', r);
      if HasKey(rs', r) {
        var i :| 0 <= i < |rs'| && rs'[i].0 == r;
        assert rs[i + 1].0 == r;
      }
      forall i | 0 <= i < |rs| && rs[i].0 == r
        ensures r in AddRows(u, rs) <==> rs[i].1 != []
        ensures rs[i].1 != [] ==> AddRows(u, rs)[r] == Merge(map[], rs[i].1)
      {
        if i > 0 {
          assert rs'[i - 1] == rs[i];
        }
      }
    }
  }

  lemma AddListedRows(t: Tablet, rs: Rows)
    requires ListsTable(t, rs)
    ensures AddRows(map[], rs) == WithoutEmptyRows(t)
  {
    var u := AddRows(map[], rs);
    forall r
      ensures r in u <==> r in t && t[r] != map[]
      ensures r in u ==> u[r] == t[r]
    {
      AddRowsAt(map[], rs, r);
      if r in t {
        var i :| 0 <= i < |rs| && rs[i].0 == r;
        MergeListed(t[r], rs[i].1);
        assert rs[i].1 == [] <==> t[r] == map[];
      }
    }
  }

  lemma ListingFits(t: Tablet, rs: Rows)
    requires Fits(t) && ListsTable(t, rs)
    ensures RowsFit(rs)
  {
    forall i | 0 <= i < |rs| ensures Short(rs[i].0) && EntriesFit(rs[i].1) {
      var row := t[rs[i].0];
      forall j | 0 <= j < |rs[i].1| ensures Short(rs[i].1[j].0) && Short(rs[i].1[j].1) {
        assert rs[i].1[j].0 in row;
      }
    }
  }

  // ----- Round trip -----

  lemma DecodeEncodedTable(rs: Rows)
    requires RowsFit(rs)
    ensures Deserialize(EncodeTable(rs)) == Decoded(true, AddRows(map[], rs), [])
  {
    hide Le32, UnLe32, EncodeRows, DecodeRows, AddRows;
    var b := EncodeTable(rs);
    Le32RoundTrip(|rs|);
    assert b[..4] == Le32(|rs|) && b[4..] == EncodeRows(rs) + [];
    DecodeEncodedRows(rs, [], map[]);
  }

  lemma DecodeCutTable(rs: Rows, k: nat)
    requires RowsFit(rs) && 0 < k < |EncodeTable(rs)|
    ensures !Deserialize(EncodeTable(rs)[..k]).ok
  {
    hide Le32, UnLe32, EncodeRows, DecodeRows;
    if k >= 4 {
      var b := EncodeTable(rs);
      Le32RoundTrip(|rs|);
      assert b[..k][..4] == Le32(|rs|) && b[..k][4..] == EncodeRows(rs)[..k - 4];
      DecodeCutRows(rs, k - 4, map[]);
    }
  }

  /**
   Reading back any encoding of a tablet with 32-bit sizes succeeds and gives the tablet without
   its empty rows: the same tablet exactly when it has none.
   */
  lemma RoundTrip(t: Tablet, b: Bytes)
    requires Fits(t) && Encodes(t, b)
    ensures Deserialize(b) == Decoded(true, WithoutEmptyRows(t), [])
    ensures Deserialize(b).table == t <==> NoEmptyRow(t)
  {
    hide Deserialize, EncodeTable, Fits, ListsTable;
    var rs :| ListsTable(t, rs) && b == EncodeTable(rs);
    ListingFits(t, rs);
    DecodeEncodedTable(rs);
    AddListedRows(t, rs);
    var d := WithoutEmptyRows(t);
    if NoEmptyRow(t) {
      assert d == t;
    }
    if d == t {
      assert forall r :: r in t ==> r in d;
    }
  }

  lemma {:induction false} DecodeCutEntries(es: Entries, k: nat, t: Tablet, row: Bytes)
    requires EntriesFit(es) && k < |EncodeEntries(es)|
    ensures !DecodeEntries(EncodeEntries(es)[..k], |es|, t, row).ok
    decreases |es|
  {
    hide Le32, UnLe32, WriteString, ReadString;
    var b := EncodeEntries(es)[..k];
    var key, val, tail := WriteString(es[0].0), WriteString(es[0].1), EncodeEntries(es[1..]);
    assert EncodeEntries(es) == key + (val + tail);
    if k < |key| {
      assert b == key[..k];
      ReadCut(es[0].0, k);
    } else {
      assert b == key + (val + tail)[..k - |key|];
      ReadWritten(es[0].0, (val + tail)[..k - |key|]);
      var k' := k - |key|;
      if k' < |val| {
        assert (val + tail)[..k'] == val[..k'];
        ReadCut(es[0].1, k');
      } else {
        assert (val + tail)[..k'] == val + tail[..k' - |val|];
        ReadWritten(es[0].1, tail[..k' - |val|]);
        DecodeCutEntries(es[1..], k' - |val|, SetCell(t, row, es[0].0, es[0].1), row);
      }
    }
  }

  lemma DecodeCutRow(row: Bytes, es: Entries, k: nat, n: nat, t: Tablet)
    requires Short(row) && EntriesFit(es) && k < |EncodeRow(row, es)| && n > 0
    ensures !DecodeRows(EncodeRow(row, es)[..k], n, t).ok
  {
    hide UnLe32, WriteString, ReadString, EncodeEntries, DecodeEntries, Short;
    assert |Le32(|es|)| == 4;
    hide Le32;
    var b, name, body := EncodeRow(row, es)[..k], WriteString(row), EncodeEntries(es);
    if k < |name| {
      assert b == name[..k];
      ReadCut(row, k);
    } else if k < |name| + 4 {
      assert b == name + Le32(|es|)[..k - |name|];
      ReadWritten(row, Le32(|es|)[..k - |name|]);
    } else {
      var k' := k - |name| - 4;
      assert b == name + Le32(|es|) + body[..k'];
      DecodeRowHeader(row, es, body[..k']);
      DecodeCutEntries(es, k', t, row);
    }
  }

  lemma {:induction false} DecodeCutRows(rs: Rows, k: nat, t: Tablet)
    requires RowsFit(rs) && k < |EncodeRows(rs)|
    ensures !DecodeRows(EncodeRows(rs)[..k], |rs|, t).ok
    decreases |rs|
  {
    hide EncodeRow, AddEntries, DecodeRows, Short, EntriesFit;
    var row, es, tail := rs[0].0, rs[0].1, EncodeRows(rs[1..]);
    var head := EncodeRow(row, es);
    if k < |head| {
      assert EncodeRows(rs)[..k] == head[..k];
      DecodeCutRow(row, es, k, |rs|, t);
    } else {
      assert EncodeRows(rs)[..k] == head + tail[..k - |head|];
      DecodeOneRow(row, es, tail[..k - |head|], |rs|, t);
      DecodeCutRows(rs[1..], k - |head|, AddEntries(t, row, es));
    }
  }

  /** Every proper non-empty prefix of an encoding is rejected. */
  lemma TruncationRejected(t: Tablet, b: Bytes, k: nat)
    requires Fits(t) && Encodes(t, b)
    requires 0 < k < |b|
    ensures !Deserialize(b[..k]).ok
  {
    hide Deserialize, EncodeTable, Fits, ListsTable;
    var rs :| ListsTable(t, rs) && b == EncodeTable(rs);
    ListingFits(t, rs);
    DecodeCutTable(rs, k);
  }

  // ----- Streaming a tablet in 1 MB pieces -----

  /** The sender cuts the bytes into full chunks and one shorter last chunk. */
  method CutIntoChunks(data: Bytes) returns (chunks: seq<Bytes>)
    ensures Concat(chunks) == data
    ensures forall i :: 0 <= i < |chunks| ==> 0 < |chunks[i]| <= CHUNK_SIZE
    ensures forall i :: 0 <= i < |chunks| - 1 ==> |chunks[i]| == CHUNK_SIZE
  {
    chunks := [];
    var i := 0;
    while i < |data|
      invariant 0 <= i && Concat(chunks) == data[..if i < |data| then i else |data|]
      invariant forall j :: 0 <= j < |chunks| ==> 0 < |chunks[j]| <= CHUNK_SIZE
      invariant forall j :: 0 <= j < |chunks| && (j < |chunks| - 1 || i < |data|) ==> |chunks[j]| == CHUNK_SIZE
    {
      var end := if i + CHUNK_SIZE <= |data| then i + CHUNK_SIZE else |data|;
      assert data[..i] + data[i..end] == data[..end];
      chunks := chunks + [data[i..end]];
      assert chunks[..|chunks| - 1] + [data[i..end]] == chunks;
      i := i + CHUNK_SIZE;
    }
    assert data[..|data|] == data;
  }

  method JoinChunks(chunks: seq<Bytes>) returns (data: Bytes)
    ensures data == Concat(chunks)
  {
    data := [];
    for i := 0 to |chunks|
      invariant data == Concat(chunks[..i])
    {
      assert chunks[..i + 1][..i] == chunks[..i];
      data := data + chunks[i];
    }
    assert chunks[..|chunks|] == chunks;
  }
}
