/**
 A tablet is a map of rows to columns to values. This module holds the effect of one logged
 command, the replay of a command list, and what replaying a list on top of its own result does.
 */
module Tablets {
  import opened Options
  import opened Wire

  type Row = map<Bytes, Bytes>
  type Tablet = map<Bytes, Row>

  /** The five strings of a log record. */
  datatype Command = Command(op: Bytes, row: Bytes, column: Bytes, value1: Bytes, value2: Bytes)

  function PutCommand(row: Bytes, column: Bytes, value: Bytes): Command {
    Command("PUT", row, column, value, "NULL")
  }

  function CPutCommand(row: Bytes, column: Bytes, current: Bytes, next: Bytes): Command {
    Command("CPUT", row, column, current, next)
  }

  function DeleteCommand(row: Bytes, column: Bytes): Command {
    Command("DELETE", row, column, "NULL", "NULL")
  }

  /** The commands that handlers log. */
  predicate IsUpdate(c: Command) {
    c.op == "PUT" || c.op == "CPUT" || c.op == "DELETE"
  }

  function Cell(t: Tablet, row: Bytes, column: Bytes): Option<Bytes> {
    if row in t && column in t[row] then Some(t[row][column]) else None
  }

  function RowOf(t: Tablet, row: Bytes): Row {
    if row in t then t[row] else map[]
  }

  ghost predicate NoEmptyRow(t: Tablet) {
    forall r :: r in t ==> t[r] != map[]
  }

  function SetCell(t: Tablet, row: Bytes, column: Bytes, value: Bytes): (u: Tablet)
    ensures NoEmptyRow(t) ==> NoEmptyRow(u)
  {
    var u := t[row := RowOf(t, row)[column := value]];
    assert column in u[row];
    u
  }

  /** A row that loses its last column goes away with it. */
  function EraseCell(t: Tablet, row: Bytes, column: Bytes): (u: Tablet)
    ensures NoEmptyRow(t) ==> NoEmptyRow(u)
  {
    if Cell(t, row, column).None? then t
    else if t[row] - {column} == map[] then t - {row}
    else t[row := t[row] - {column}]
  }

  /** The effect of one command, or None where a handler or the replay rejects it. */
  function Apply(t: Tablet, c: Command): (r: Option<Tablet>)
    ensures r.Some? && NoEmptyRow(t) ==> NoEmptyRow(r.value)
  {
    if c.op == "PUT" then
      Some(SetCell(t, c.row, c.column, c.value1))
    else if c.op == "CPUT" then
      if Cell(t, c.row, c.column) == Some(c.value1) then Some(SetCell(t, c.row, c.column, c.value2)) else None
    else if c.op == "DELETE" then
      Some(EraseCell(t, c.row, c.column))
    else None
  }

  function Replay(t: Tablet, cs: seq<Command>): (r: Option<Tablet>)
    ensures r.Some? && NoEmptyRow(t) ==> NoEmptyRow(r.value)
    decreases |cs|
  {
    if cs == [] then Some(t)
    else
      match Apply(t, cs[0])
      case None => None
      case Some(u) => Replay(u, cs[1..])
  }

  lemma {:induction false} ReplayConcat(t: Tablet, cs: seq<Command>, ds: seq<Command>)
    ensures Replay(t, cs + ds) == match Replay(t, cs) case None => None case Some(u) => Replay(u, ds)
    decreases |cs|
  {
    if cs == [] {
      assert cs + ds == ds;
    } else {
      assert (cs + ds)[1..] == cs[1..] + ds;
      match Apply(t, cs[0])
      case None =>
      case Some(u) => ReplayConcat(u, cs[1..], ds);
    }
  }

  lemma ReplayExtend(t: Tablet, cs: seq<Command>, c: Command)
    ensures Replay(t, cs + [c]) == match Replay(t, cs) case None => None case Some(u) => Apply(u, c)
  {
    ReplayConcat(t, cs, [c]);
    match Replay(t, cs)
    case None =>
    case Some(u) =>
      match Apply(u, c)
      case None =>
      case Some(v) => assert Replay(v, []) == Some(v);
  }

  /** The replay loop: it edits the tablet in place and gives up at the first command it cannot apply. */
  method ReplayLogs(logs: seq<Command>, start: Tablet) returns (ok: bool, tablet: Tablet)
    ensures ok <==> Replay(start, logs).Some?
    ensures ok ==> Some(tablet) == Replay(start, logs)
  {
    tablet := start;
    for i := 0 to |logs|
      invariant Replay(start, logs) == Replay(tablet, logs[i..])
    {
      var c := logs[i];
      ghost var before := tablet;
      assert logs[i..][0] == c && logs[i..][1..] == logs[i + 1..];
      if c.op == "PUT" {
        if c.row !in tablet {
          tablet := tablet[c.row := map[]];
        }
        tablet := tablet[c.row := tablet[c.row][c.column := c.value1]];
        assert tablet == SetCell(before, c.row, c.column, c.value1);
      } else if c.op == "CPUT" {
        if c.row !in tablet || c.column !in tablet[c.row] || tablet[c.row][c.column] != c.value1 {
          return false, tablet;
        }
        tablet := tablet[c.row := tablet[c.row][c.column := c.value2]];
      } else if c.op == "DELETE" {
        if c.row in tablet && c.column in tablet[c.row] {
          tablet := tablet[c.row := tablet[c.row] - {c.column}];
          if tablet[c.row] == map[] {
            tablet := tablet - {c.row};
          }
          assert tablet == EraseCell(before, c.row, c.column);
        }
      } else {
        return false, tablet;
      }
    }
    return true, tablet;
  }

  // ----- Replaying a list on top of the state it produced -----

  ghost predicate Touches(c: Command, row: Bytes, column: Bytes) {
    c.row == row && c.column == column
  }

  ghost predicate Touched(cs: seq<Command>, row: Bytes, column: Bytes) {
    exists i :: 0 <= i < |cs| && Touches(cs[i], row, column)
  }

  /** Command i is the first of the list that names its cell. */
  ghost predicate FirstOnItsCell(cs: seq<Command>, i: nat)
    requires i < |cs|
  {
    forall j :: 0 <= j < i ==> !Touches(cs[j], cs[i].row, cs[i].column)
  }

  /**
   Every cell whose first command is a CPUT holds in `final` the value that CPUT expects,
   that is, the value the cell had before the list ran.
   */
  ghost predicate CPutCellsEndWhereTheyStarted(cs: seq<Command>, final: Tablet) {
    forall i :: 0 <= i < |cs| && cs[i].op == "CPUT" && FirstOnItsCell(cs, i) ==>
      Cell(final, cs[i].row, cs[i].column) == Some(cs[i].value1)
  }

  /** What an accepted command leaves in its cell. */
  ghost function Written(c: Command): Option<Bytes> {
    if c.op == "PUT" then Some(c.value1) else if c.op == "CPUT" then Some(c.value2) else None
  }

  lemma ApplyCells(t: Tablet, c: Command, row: Bytes, column: Bytes)
    requires Apply(t, c).Some?
    ensures !Touches(c, row, column) ==> Cell(Apply(t, c).value, row, column) == Cell(t, row, column)
    ensures Touches(c, row, column) ==> Cell(Apply(t, c).value, row, column) == Written(c)
  {
    if c.op == "DELETE" && Cell(t, c.row, c.column).Some? {
      assert forall k :: k in t[c.row] && k != c.column ==> k in t[c.row] - {c.column};
    }
  }

  lemma SharedRow(t: Tablet, u: Tablet, r: Bytes)
    requires r in t && NoEmptyRow(t)
    requires forall r, c :: Cell(t, r, c) == Cell(u, r, c)
    ensures r in u && t[r].Keys <= u[r].Keys
  {
    forall c | c in t[r] ensures r in u && c in u[r] {
      assert Cell(t, r, c) == Cell(u, r, c);
    }
    var c :| c in t[r];
  }

  lemma SameCellsSameTablet(t: Tablet, u: Tablet)
    requires NoEmptyRow(t) && NoEmptyRow(u)
    requires forall r, c :: Cell(t, r, c) == Cell(u, r, c)
    ensures t == u
  {
    forall r | r in t ensures r in u && t[r].Keys <= u[r].Keys { SharedRow(t, u, r); }
    forall r | r in u ensures r in t && u[r].Keys <= t[r].Keys { SharedRow(u, t, r); }
    forall r | r in t ensures t[r] == u[r] {
      assert forall c :: c in t[r] ==> Cell(t, r, c) == Cell(u, r, c);
    }
    assert t.Keys == u.Keys;
  }

  lemma ReplayPrefix(t: Tablet, cs: seq<Command>, k: nat)
    requires k < |cs| && Replay(t, cs).Some?
    ensures Replay(t, cs[..k]).Some?
    ensures Apply(Replay(t, cs[..k]).value, cs[k]).Some?
    ensures Replay(t, cs[..k + 1]) == Apply(Replay(t, cs[..k]).value, cs[k])
  {
    assert cs[..k + 1] == cs[..k] + [cs[k]];
    assert cs == cs[..k + 1] + cs[k + 1..];
    ReplayConcat(t, cs[..k + 1], cs[k + 1..]);
    ReplayExtend(t, cs[..k], cs[k]);
  }

  /** After k commands of the second pass a touched cell is as in the first pass, any other as at the end of it. */
  ghost predicate SecondPassAt(t0: Tablet, t1: Tablet, cs: seq<Command>, k: nat)
    requires k <= |cs|
  {
    && Replay(t0, cs[..k]).Some?
    && Replay(t1, cs[..k]).Some?
    && forall r, c :: Cell(Replay(t1, cs[..k]).value, r, c) ==
                      if Touched(cs[..k], r, c) then Cell(Replay(t0, cs[..k]).value, r, c) else Cell(t1, r, c)
  }

  lemma SecondPassStep(t0: Tablet, t1: Tablet, cs: seq<Command>, k: nat)
    requires k < |cs| && Replay(t0, cs).Some?
    requires SecondPassAt(t0, t1, cs, k)
    requires cs[k].op == "CPUT" && FirstOnItsCell(cs, k) ==> Cell(t1, cs[k].row, cs[k].column) == Some(cs[k].value1)
    ensures SecondPassAt(t0, t1, cs, k + 1)
  {
    ReplayPrefix(t0, cs, k);
    var first, second := Replay(t0, cs[..k]).value, Replay(t1, cs[..k]).value;
    assert cs[..k + 1] == cs[..k] + [cs[k]];
    ReplayExtend(t1, cs[..k], cs[k]);
    if cs[k].op == "CPUT" && !Touched(cs[..k], cs[k].row, cs[k].column) {
      forall j | 0 <= j < k ensures !Touches(cs[j], cs[k].row, cs[k].column) {
        assert cs[..k][j] == cs[j];
      }
    }
    assert Apply(second, cs[k]).Some?;
    forall r, c
      ensures Cell(Apply(second, cs[k]).value, r, c) ==
              if Touched(cs[..k + 1], r, c) then Cell(Apply(first, cs[k]).value, r, c) else Cell(t1, r, c)
    {
      ApplyCells(first, cs[k], r, c);
      ApplyCells(second, cs[k], r, c);
      if Touches(cs[k], r, c) {
        assert cs[..k + 1][k] == cs[k];
      } else {
        assert Touched(cs[..k + 1], r, c) <==> Touched(cs[..k], r, c) by {
          if Touched(cs[..k], r, c) {
            var j :| 0 <= j < k && Touches(cs[..k][j], r, c);
            assert cs[..k + 1][j] == cs[..k][j];
          }
          if Touched(cs[..k + 1], r, c) {
            var j :| 0 <= j < k + 1 && Touches(cs[..k + 1][j], r, c);
            assert j < k && cs[..k][j] == cs[..k + 1][j];
          }
        }
      }
    }
  }

  /** A cell that no command names keeps its value. */
  lemma {:induction false} UntouchedCell(t: Tablet, cs: seq<Command>, row: Bytes, column: Bytes)
    requires Replay(t, cs).Some?
    requires forall j :: 0 <= j < |cs| ==> !Touches(cs[j], row, column)
    ensures Cell(Replay(t, cs).value, row, column) == Cell(t, row, column)
    decreases |cs|
  {
    if cs != [] {
      ApplyCells(t, cs[0], row, column);
      UntouchedCell(Apply(t, cs[0]).value, cs[1..], row, column);
    }
  }

  /**
   Replaying a list on the tablet it already produced succeeds exactly when every cell first named
   by a CPUT ended with the value it started with; and when it succeeds it changes nothing.
   */
  lemma ReplayTwice(t0: Tablet, cs: seq<Command>, t1: Tablet)
    requires NoEmptyRow(t0)
    requires Replay(t0, cs) == Some(t1)
    ensures Replay(t1, cs).Some? <==> CPutCellsEndWhereTheyStarted(cs, t1)
    ensures Replay(t1, cs).Some? ==> Replay(t1, cs) == Some(t1)
  {
    if Replay(t1, cs).Some? {
      forall i | 0 <= i < |cs| && cs[i].op == "CPUT" && FirstOnItsCell(cs, i)
        ensures Cell(t1, cs[i].row, cs[i].column) == Some(cs[i].value1)
      {
        ReplayPrefix(t1, cs, i);
        UntouchedCell(t1, cs[..i], cs[i].row, cs[i].column);
      }
    }
    if CPutCellsEndWhereTheyStarted(cs, t1) {
      for k := 0 to |cs|
        invariant SecondPassAt(t0, t1, cs, k)
      {
        SecondPassStep(t0, t1, cs, k);
      }
      assert cs[..|cs|] == cs;
      SameCellsSameTablet(Replay(t1, cs).value, t1);
    }
  }

  /** Lists of PUT and DELETE only are always safe to replay twice. */
  lemma ReplayTwiceWithoutCPut(t0: Tablet, cs: seq<Command>, t1: Tablet)
    requires NoEmptyRow(t0)
    requires Replay(t0, cs) == Some(t1)
    requires forall i :: 0 <= i < |cs| ==> cs[i].op != "CPUT"
    ensures Replay(t1, cs) == Some(t1)
  {
    ReplayTwice(t0, cs, t1);
  }
}
