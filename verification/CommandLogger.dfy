/**
 The command log of one tablet: a file of records, each five length-prefixed strings.
 */
module CommandLogger {
  import opened Wire
  import opened Tablets

  ghost predicate CommandFits(c: Command) {
    Short(c.op) && Short(c.row) && Short(c.column) && Short(c.value1) && Short(c.value2)
  }

  ghost predicate AllFit(cs: seq<Command>) {
    forall i :: 0 <= i < |cs| ==> CommandFits(cs[i])
  }

  function EncodeCommand(c: Command): (b: Bytes) {
    WriteString(c.op) + WriteString(c.row) + WriteString(c.column) + WriteString(c.value1) + WriteString(c.value2)
  }

  function EncodeLog(cs: seq<Command>): Bytes {
    if cs == [] then [] else EncodeCommand(cs[0]) + EncodeLog(cs[1..])
  }

  /** The strings of `b` read one after the other, or Fail at the first that is cut short. */
  function ReadStrings(b: Bytes, n: nat): (r: Parsed<seq<Bytes>>)
    ensures r.Got? ==> |r.value| == n && |r.rest| <= |b| && (n > 0 ==> |r.rest| < |b|)
    decreases n
  {
    if n == 0 then Got([], b)
    else
      match ReadString(b)
      case Fail => Fail
      case Got(s, b1) =>
        match ReadStrings(b1, n - 1)
        case Fail => Fail
        case Got(ss, b2) => Got([s] + ss, b2)
  }

  function ReadCommand(b: Bytes): (r: Parsed<Command>)
    ensures r.Got? ==> |r.rest| < |b|
  {
    match ReadStrings(b, 5)
    case Fail => Fail
    case Got(ss, rest) => Got(Command(ss[0], ss[1], ss[2], ss[3], ss[4]), rest)
  }

  function ParseLog(b: Bytes): seq<Command>
    decreases |b|
  {
    match ReadCommand(b)
    case Fail => []
    case Got(c, rest) => [c] + ParseLog(rest)
  }

  lemma Regroup(file: Bytes, a: Bytes, b: Bytes, c: Bytes, d: Bytes, e: Bytes)
    ensures file + a + b + c + d + e == file + (a + b + c + d + e)
  {
    Reassociate(file, a, b);
    Reassociate(file, a + b, c);
    Reassociate(file, a + b + c, d);
    Reassociate(file, a + b + c + d, e);
  }

  lemma Reassociate(a: Bytes, b: Bytes, c: Bytes)
    ensures a + b + c == a + (b + c)
  {
  }

  class Logger {
    var file: Bytes

    constructor (contents: Bytes)
      ensures file == contents
    {
      file := contents;
    }

    method LogCommand(c: Command)
      modifies this
      ensures file == old(file) + EncodeCommand(c)
    {
      hide WriteString;
      Regroup(file, WriteString(c.op), WriteString(c.row), WriteString(c.column), WriteString(c.value1), WriteString(c.value2));
      file := file + WriteString(c.op);
      file := file + WriteString(c.row);
      file := file + WriteString(c.column);
      file := file + WriteString(c.value1);
      file := file + WriteString(c.value2);
    }

    method GetLogs() returns (logs: seq<Command>)
      ensures logs == ParseLog(file)
    {
      logs := [];
      var unread := file;
      var next := ReadCommand(unread);
      while next.Got?
        invariant next == ReadCommand(unread)
        invariant logs + ParseLog(unread) == ParseLog(file)
        decreases |unread|
      {
        logs := logs + [next.value];
        unread := next.rest;
        next := ReadCommand(unread);
      }
    }

    method ClearLog()
      modifies this
      ensures file == []
    {
      file := [];
    }
  }

  // ----- Reading back what was written -----

  ghost function Fields(c: Command): seq<Bytes> {
    [c.op, c.row, c.column, c.value1, c.value2]
  }

  ghost function WriteStrings(ss: seq<Bytes>): Bytes {
    if ss == [] then [] else WriteString(ss[0]) + WriteStrings(ss[1..])
  }

  lemma EncodeCommandFields(c: Command)
    ensures EncodeCommand(c) == WriteStrings(Fields(c))
  {
    hide WriteString;
    var f4, f3, f2, f1 := [c.value2], [c.value1, c.value2], [c.column, c.value1, c.value2],
                          [c.row, c.column, c.value1, c.value2];
    assert f4[1..] == [] && f3[1..] == f4 && f2[1..] == f3 && f1[1..] == f2 && Fields(c)[1..] == f1;
    assert WriteStrings(f4) == WriteString(c.value2);
    assert WriteStrings(f3) == WriteString(c.value1) + WriteString(c.value2);
    assert WriteStrings(f2) == WriteString(c.column) + WriteString(c.value1) + WriteString(c.value2);
    assert WriteStrings(f1) == WriteString(c.row) + WriteString(c.column) + WriteString(c.value1) + WriteString(c.value2);
  }

  lemma {:induction false} ReadStringsWritten(ss: seq<Bytes>, rest: Bytes)
    requires forall i :: 0 <= i < |ss| ==> Short(ss[i])
    ensures ReadStrings(WriteStrings(ss) + rest, |ss|) == Got(ss, rest)
    decreases |ss|
  {
    hide WriteString, ReadString;
    if ss == [] {
      assert WriteStrings(ss) + rest == rest;
    } else {
      assert WriteStrings(ss) + rest == WriteString(ss[0]) + (WriteStrings(ss[1..]) + rest);
      ReadWritten(ss[0], WriteStrings(ss[1..]) + rest);
      ReadStringsWritten(ss[1..], rest);
      assert [ss[0]] + ss[1..] == ss;
    }
  }

  lemma {:induction false} ReadStringsCut(ss: seq<Bytes>, k: nat)
    requires forall i :: 0 <= i < |ss| ==> Short(ss[i])
    requires k < |WriteStrings(ss)|
    ensures ReadStrings(WriteStrings(ss)[..k], |ss|) == Fail
    decreases |ss|
  {
    hide WriteString, ReadString;
    var head, tail := WriteString(ss[0]), WriteStrings(ss[1..]);
    if k < |head| {
      assert WriteStrings(ss)[..k] == head[..k];
      ReadCut(ss[0], k);
    } else {
      assert WriteStrings(ss)[..k] == head + tail[..k - |head|];
      ReadWritten(ss[0], tail[..k - |head|]);
      ReadStringsCut(ss[1..], k - |head|);
    }
  }

  lemma FieldsFit(c: Command)
    requires CommandFits(c)
    ensures |Fields(c)| == 5 && forall i :: 0 <= i < 5 ==> Short(Fields(c)[i])
  {
  }

  lemma ReadCommandWritten(c: Command, rest: Bytes)
    requires CommandFits(c)
    ensures ReadCommand(EncodeCommand(c) + rest) == Got(c, rest)
  {
    hide EncodeCommand, ReadStrings, WriteStrings;
    FieldsFit(c);
    EncodeCommandFields(c);
    ReadStringsWritten(Fields(c), rest);
  }

  lemma ReadCommandCut(c: Command, k: nat)
    requires CommandFits(c) && k < |EncodeCommand(c)|
    ensures ReadCommand(EncodeCommand(c)[..k]) == Fail
  {
    hide EncodeCommand, ReadStrings, WriteStrings;
    FieldsFit(c);
    EncodeCommandFields(c);
    ReadStringsCut(Fields(c), k);
  }

  lemma {:induction false} ParseWritten(cs: seq<Command>, rest: Bytes)
    requires AllFit(cs)
    ensures ParseLog(EncodeLog(cs) + rest) == cs + ParseLog(rest)
    decreases |cs|
  {
    hide EncodeCommand, ReadCommand;
    if cs == [] {
      assert EncodeLog(cs) + rest == rest;
    } else {
      assert EncodeLog(cs) + rest == EncodeCommand(cs[0]) + (EncodeLog(cs[1..]) + rest);
      ReadCommandWritten(cs[0], EncodeLog(cs[1..]) + rest);
      ParseWritten(cs[1..], rest);
    }
  }

  lemma {:induction false} EncodeLogConcat(cs: seq<Command>, ds: seq<Command>)
    ensures EncodeLog(cs + ds) == EncodeLog(cs) + EncodeLog(ds)
    decreases |cs|
  {
    hide EncodeCommand;
    if cs == [] {
      assert cs + ds == ds;
    } else {
      assert (cs + ds)[1..] == cs[1..] + ds;
      EncodeLogConcat(cs[1..], ds);
    }
  }

  /** One record appended to a well-formed log reads back as one command more. */
  lemma ParseAppended(cs: seq<Command>, c: Command)
    requires AllFit(cs) && CommandFits(c)
    ensures EncodeLog(cs + [c]) == EncodeLog(cs) + EncodeCommand(c)
    ensures ParseLog(EncodeLog(cs)) == cs
    ensures ParseLog(EncodeLog(cs) + EncodeCommand(c)) == cs + [c]
  {
    hide EncodeCommand, ReadCommand;
    EncodeLogConcat(cs, [c]);
    assert EncodeLog([c]) == EncodeCommand(c) by { assert [c][1..] == []; }
    ParseWritten(cs, []);
    assert EncodeLog(cs) + [] == EncodeLog(cs);
    ReadCommandShort([]);
    ParseWritten(cs + [c], []);
    assert EncodeLog(cs + [c]) + [] == EncodeLog(cs + [c]);
  }

  lemma ReadCommandShort(b: Bytes)
    requires |b| < 4
    ensures ReadCommand(b) == Fail && ParseLog(b) == []
  {
  }

  /**
   Every byte prefix of a log file reads back as the longest list of records it holds completely.
   */
  lemma {:induction false} PrefixOfLog(cs: seq<Command>, k: nat) returns (n: nat)
    requires AllFit(cs) && k <= |EncodeLog(cs)|
    ensures n <= |cs|
    ensures |EncodeLog(cs[..n])| <= k
    ensures n < |cs| ==> k < |EncodeLog(cs[..n + 1])|
    ensures ParseLog(EncodeLog(cs)[..k]) == cs[..n]
    decreases |cs|
  {
    hide EncodeCommand, ReadCommand;
    if cs == [] {
      ReadCommandShort([]);
      n := 0;
    } else {
      var head, tail := EncodeCommand(cs[0]), EncodeLog(cs[1..]);
      assert cs[..1][1..] == [];
      if k < |head| {
        assert EncodeLog(cs)[..k] == head[..k];
        ReadCommandCut(cs[0], k);
        n := 0;
      } else {
        assert EncodeLog(cs)[..k] == head + tail[..k - |head|];
        ReadCommandWritten(cs[0], tail[..k - |head|]);
        n := PrefixOfLog(cs[1..], k - |head|);
        assert cs[..n + 1][1..] == cs[1..][..n];
        if n < |cs[1..]| {
          assert cs[..n + 2][1..] == cs[1..][..n + 1];
        }
        n := n + 1;
      }
    }
  }

  // ----- The tail a crash leaves behind -----

  /** The length prefix of a short name fixes the first byte of a record. */
  lemma FirstByte(b: Bytes, c: Command)
    requires ReadCommand(b).Got? && ReadCommand(b).value == c && |c.op| < 256
    ensures b[0] as int == |c.op|
  {
    var s := ReadString(b);
    assert s.Got? && s.value == c.op by {
      hide ReadString;
      assert ReadStrings(b, 5).Got?;
      assert ReadStrings(b, 5).value[0] == ReadString(b).value;
    }
    assert UnLe32(b[..4]) == |c.op|;
  }

  /**
   Recovery reads past a torn last record but does not cut it off, and the next record is appended
   behind it. Whatever update is logged next stays readable exactly when nothing torn was left.
   */
  lemma AppendAfterTear(complete: seq<Command>, torn: Bytes)
    requires AllFit(complete)
    ensures (forall c :: IsUpdate(c) && CommandFits(c) ==> ParseLog(EncodeLog(complete) + torn + EncodeCommand(c)) == complete + [c])
            <==> torn == []
  {
    hide EncodeCommand, ReadCommand, EncodeLog;
    if torn == [] {
      forall c | IsUpdate(c) && CommandFits(c)
        ensures ParseLog(EncodeLog(complete) + torn + EncodeCommand(c)) == complete + [c]
      {
        ParseAppended(complete, c);
        assert EncodeLog(complete) + torn == EncodeLog(complete);
      }
    } else {
      var c, d := PutCommand("r", "c", "v"), DeleteCommand("r", "c");
      if ParseLog(EncodeLog(complete) + torn + EncodeCommand(c)) == complete + [c] &&
         ParseLog(EncodeLog(complete) + torn + EncodeCommand(d)) == complete + [d] {
        NextReadable(complete, torn, c);
        NextReadable(complete, torn, d);
      }
    }
  }

  lemma NextReadable(complete: seq<Command>, torn: Bytes, c: Command)
    requires AllFit(complete) && torn != [] && |c.op| < 256
    requires ParseLog(EncodeLog(complete) + torn + EncodeCommand(c)) == complete + [c]
    ensures torn[0] as int == |c.op|
  {
    hide EncodeCommand, ReadCommand, EncodeLog;
    var b := torn + EncodeCommand(c);
    assert EncodeLog(complete) + torn + EncodeCommand(c) == EncodeLog(complete) + b;
    ParseWritten(complete, b);
    assert complete + ParseLog(b) == complete + [c];
    assert ParseLog(b) == (complete + ParseLog(b))[|complete|..] == [c];
    assert ReadCommand(b).Got? && ReadCommand(b).value == ParseLog(b)[0];
    FirstByte(b, c);
  }
}
