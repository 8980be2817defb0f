/**
 One tablet on one worker: its live table, command log, checkpoint file and update counter, as a
 step machine. The theorems say what the two files are worth at every boundary between handlers.
 */
module Durability {
  import opened Options
  import opened Wire
  import opened Tablets
  import opened Serializer
  import opened CommandLogger

  const MAX_UPDATE_COUNT: nat := 10

  datatype Slot = Slot(tablet: Tablet, log: Bytes, checkpoint: Bytes, count: nat)

  /** A missing checkpoint file and an empty one are treated alike. */
  const EMPTY_SLOT := Slot(map[], [], [], 0)

  /** What local recovery rebuilds from the two files; None where the process exits instead. */
  function Recovered(checkpoint: Bytes, log: Bytes): Option<Tablet> {
    var d := Deserialize(checkpoint);
    if d.ok then Replay(d.table, ParseLog(log)) else None
  }

  /** The effect of an accepted command: apply, log, count, and checkpoint on every tenth update. */
  ghost predicate Updated(s: Slot, c: Command, s': Slot) {
    && Apply(s.tablet, c) == Some(s'.tablet)
    && if s.count + 1 >= MAX_UPDATE_COUNT then
         s'.log == [] && s'.count == 0 && Encodes(s'.tablet, s'.checkpoint)
       else
         s'.log == s.log + EncodeCommand(c) && s'.count == s.count + 1 && s'.checkpoint == s.checkpoint
  }

  /** A slot and whether its worker is serving. */
  datatype State = State(slot: Slot, up: bool)

  datatype Event =
    | Stay
    | Accept(c: Command)   // an update handler, primary or replica, accepted c
    | Stop                 // SHUTDOWN: memory stays, requests are refused
    | Crash                // the process dies: memory is lost, the files stay
    | Local                // restart, no live holder: rebuild from the files
    | Copy(t: Tablet)      // restart with a live primary: take over its table, keep the files

  ghost predicate Next(s: State, e: Event, s': State) {
    match e
    case Stay => s' == s
    case Accept(c) => s.up && s'.up && CommandFits(c) && Fits(s'.slot.tablet) && Updated(s.slot, c, s'.slot)
    case Stop => s.up && s' == s.(up := false)
    case Crash => s' == State(s.slot.(tablet := map[], count := 0), false)
    case Local => !s.up && s'.up && Recovered(s.slot.checkpoint, s.slot.log) == Some(s'.slot.tablet)
                  && s'.slot == s.slot.(tablet := s'.slot.tablet)
    case Copy(t) => !s.up && s' == State(s.slot.(tablet := t), true) && NoEmptyRow(t) && Fits(t)
  }

  ghost predicate Run(states: seq<State>, events: seq<Event>) {
    && |states| == |events| + 1
    && forall i :: 0 <= i < |events| ==> Next(states[i], events[i], states[i + 1])
  }

  /** The log file holds complete records only. */
  ghost predicate WholeRecords(log: Bytes) {
    AllFit(ParseLog(log)) && log == EncodeLog(ParseLog(log))
  }

  /** The counter is below ten, the log is whole, and the live table has no empty row. */
  ghost predicate Sound(s: State) {
    s.slot.count < MAX_UPDATE_COUNT && WholeRecords(s.slot.log) && (s.up ==> NoEmptyRow(s.slot.tablet))
  }

  /** Local recovery would succeed, and while the worker serves it would give exactly the live table. */
  ghost predicate Durable(s: State) {
    var r := Recovered(s.slot.checkpoint, s.slot.log);
    r.Some? && NoEmptyRow(r.value) && (s.up ==> r == Some(s.slot.tablet))
  }

  // ----- One step -----

  lemma WholeEmpty()
    ensures ParseLog([]) == [] && WholeRecords([])
  {
    ReadCommandShort([]);
  }

  lemma WholeAppended(log: Bytes, c: Command)
    requires WholeRecords(log) && CommandFits(c)
    ensures WholeRecords(log + EncodeCommand(c))
    ensures ParseLog(log + EncodeCommand(c)) == ParseLog(log) + [c]
  {
    hide EncodeCommand, ParseLog, EncodeLog, CommandFits;
    ParseAppended(ParseLog(log), c);
  }

  lemma {:induction false} DecodeEntriesKeepsRows(b: Bytes, n: nat, t: Tablet, row: Bytes)
    requires NoEmptyRow(t)
    ensures NoEmptyRow(DecodeEntries(b, n, t, row).table)
    decreases n
  {
    hide ReadString, SetCell;
    if n > 0 && ReadString(b).Got? {
      var col := ReadString(b);
      var val := ReadString(col.rest);
      if val.Got? {
        DecodeEntriesKeepsRows(val.rest, n - 1, SetCell(t, row, col.value, val.value), row);
      }
    }
  }

  lemma {:induction false} DecodeRowsKeepsRows(b: Bytes, n: nat, t: Tablet)
    requires NoEmptyRow(t)
    ensures NoEmptyRow(DecodeRows(b, n, t).table)
    decreases n
  {
    hide ReadString, UnLe32, DecodeEntries;
    if n > 0 && ReadString(b).Got? {
      var name := ReadString(b);
      if |name.rest| >= 4 {
        var d := DecodeEntries(name.rest[4..], UnLe32(name.rest[..4]), t, name.value);
        DecodeEntriesKeepsRows(name.rest[4..], UnLe32(name.rest[..4]), t, name.value);
        if d.ok {
          DecodeRowsKeepsRows(d.rest, n - 1, d.table);
        }
      }
    }
  }

  /** Whatever bytes it is given, the reader never builds an empty row; nor does recovery. */
  lemma RecoveredHasNoEmptyRow(checkpoint: Bytes, log: Bytes)
    ensures NoEmptyRow(Deserialize(checkpoint).table)
    ensures Recovered(checkpoint, log).Some? ==> NoEmptyRow(Recovered(checkpoint, log).value)
  {
    hide DecodeRows, UnLe32, ParseLog;
    if |checkpoint| >= 4 {
      DecodeRowsKeepsRows(checkpoint[4..], UnLe32(checkpoint[..4]), map[]);
    }
  }

  /** A checkpoint with an empty log is the table it was taken from. */
  lemma CheckpointRecovers(t: Tablet, checkpoint: Bytes)
    requires NoEmptyRow(t) && Fits(t) && Encodes(t, checkpoint)
    ensures Recovered(checkpoint, []) == Some(t)
  {
    hide Encodes, Fits, Deserialize;
    RoundTrip(t, checkpoint);
    WholeEmpty();
  }

  /** Logging one more accepted command moves the recoverable table along with the live one. */
  lemma LoggingRecovers(s: Slot, c: Command)
    requires WholeRecords(s.log) && CommandFits(c)
    requires Recovered(s.checkpoint, s.log) == Some(s.tablet)
    ensures Recovered(s.checkpoint, s.log + EncodeCommand(c)) == Apply(s.tablet, c)
  {
    hide Deserialize, EncodeCommand, ParseLog, Apply, CommandFits;
    WholeAppended(s.log, c);
    ReplayExtend(Deserialize(s.checkpoint).table, ParseLog(s.log), c);
  }

  lemma SoundStep(s: State, e: Event, s': State)
    requires Sound(s) && Next(s, e, s')
    ensures Sound(s')
  {
    hide Deserialize, ParseLog, EncodeLog, EncodeCommand, Encodes, Fits, CommandFits;
    match e
    case Accept(c) =>
      WholeEmpty();
      WholeAppended(s.slot.log, c);
    case Local =>
      RecoveredHasNoEmptyRow(s.slot.checkpoint, s.slot.log);
    case _ =>
  }

  lemma DurableStep(s: State, e: Event, s': State)
    requires Sound(s) && Durable(s) && Next(s, e, s') && !e.Copy?
    ensures Durable(s')
  {
    hide Deserialize, ParseLog, EncodeLog, EncodeCommand, Encodes, Fits, CommandFits, Recovered, Apply, WholeRecords;
    match e
    case Accept(c) =>
      if s.slot.count + 1 >= MAX_UPDATE_COUNT {
        CheckpointRecovers(s'.slot.tablet, s'.slot.checkpoint);
      } else {
        LoggingRecovers(s.slot, c);
      }
    case _ =>
  }

  lemma {:induction false} SoundRun(states: seq<State>, events: seq<Event>, i: nat)
    requires Run(states, events) && Sound(states[0]) && i < |states|
    ensures Sound(states[i])
  {
    hide Sound, Next;
    if i > 0 {
      SoundRun(states, events, i - 1);
      SoundStep(states[i - 1], events[i - 1], states[i]);
    }
  }

  // ----- Whole runs -----

  /**
   In every run whose recoveries are all local, at every handler boundary the checkpoint and the log
   recover, without a rejected CPUT, exactly the live table.
   */
  lemma {:induction false} LocalRunsAreDurable(states: seq<State>, events: seq<Event>, i: nat)
    requires Run(states, events) && states[0] == State(EMPTY_SLOT, true) && i < |states|
    requires forall j :: 0 <= j < i ==> !events[j].Copy?
    ensures Durable(states[i])
  {
    hide Next;
    assert Sound(states[0]) && Durable(states[0]) by { WholeEmpty(); }
    hide Sound, Durable;
    if i > 0 {
      LocalRunsAreDurable(states, events, i - 1);
      SoundRun(states, events, i - 1);
      DurableStep(states[i - 1], events[i - 1], states[i]);
    }
  }

  ghost function Accepts(events: seq<Event>): nat {
    if events == [] then 0 else Accepts(events[..|events| - 1]) + if events[|events| - 1].Accept? then 1 else 0
  }

  ghost function Crashes(events: seq<Event>): nat {
    if events == [] then 0 else Crashes(events[..|events| - 1]) + if events[|events| - 1].Crash? then 1 else 0
  }

  /** Either the files are good, or the process has been up since and the counter is still on its way to ten. */
  ghost predicate CatchingUp(s: State, accepts: nat) {
    Durable(s) || s.slot.count >= accepts || !s.up
  }

  /** Not durable and down at once only before the next local recovery, which makes the slot durable. */
  lemma CatchUpStep(s: State, e: Event, s': State, accepts: nat)
    requires Sound(s) && Next(s, e, s') && !e.Copy?
    requires CatchingUp(s, accepts)
    ensures CatchingUp(s', accepts + if e.Accept? then 1 else 0)
  {
    hide Deserialize, ParseLog, EncodeLog, EncodeCommand, Encodes, Fits, CommandFits, Recovered, Apply, WholeRecords;
    if Durable(s) {
      DurableStep(s, e, s');
    } else {
      match e
      case Accept(c) =>
        if s.slot.count + 1 >= MAX_UPDATE_COUNT {
          CheckpointRecovers(s'.slot.tablet, s'.slot.checkpoint);
        }
      case Local => RecoveredHasNoEmptyRow(s.slot.checkpoint, s.slot.log);
      case _ =>
    }
  }

  lemma {:induction false} CatchUpRun(states: seq<State>, events: seq<Event>, i: nat)
    requires Run(states, events) && Sound(states[0]) && i < |states|
    requires forall j :: 0 <= j < i ==> !events[j].Copy?
    ensures CatchingUp(states[i], Accepts(events[..i]))
  {
    hide Sound, Next, Durable;
    if i > 0 {
      CatchUpRun(states, events, i - 1);
      SoundRun(states, events, i - 1);
      CatchUpStep(states[i - 1], events[i - 1], states[i], Accepts(events[..i - 1]));
      assert events[..i][..i - 1] == events[..i - 1];
    }
  }

  /**
   From any sound state, in particular right after a remote copy, the files are good again after at
   most ten accepted updates, as long as no further copy intervenes.
   */
  lemma DurableAgainAfterTenUpdates(states: seq<State>, events: seq<Event>, i: nat)
    requires Run(states, events) && Sound(states[0]) && i < |states|
    requires forall j :: 0 <= j < i ==> !events[j].Copy?
    requires Accepts(events[..i]) >= MAX_UPDATE_COUNT && states[i].up
    ensures Durable(states[i])
  {
    hide Durable;
    CatchUpRun(states, events, i);
    SoundRun(states, events, i);
  }

  /** After r crashes the log holds at most 9 * (r + 1) commands, and the counter is always below ten. */
  lemma {:induction false} LogStaysShort(states: seq<State>, events: seq<Event>, i: nat)
    requires Run(states, events) && states[0] == State(EMPTY_SLOT, true) && i < |states|
    ensures states[i].slot.count < MAX_UPDATE_COUNT
    ensures |ParseLog(states[i].slot.log)| <= 9 * Crashes(events[..i]) + states[i].slot.count
    ensures |ParseLog(states[i].slot.log)| <= 9 * (Crashes(events[..i]) + 1)
  {
    hide EncodeCommand, ParseLog, EncodeLog, Recovered, Encodes, Fits, Apply, CommandFits;
    assert Sound(states[0]) by { WholeEmpty(); }
    SoundRun(states, events, i);
    WholeEmpty();
    if i > 0 {
      LogStaysShort(states, events, i - 1);
      SoundRun(states, events, i - 1);
      assert events[..i][..i - 1] == events[..i - 1];
      assert Next(states[i - 1], events[i - 1], states[i]);
      if events[i - 1].Accept? {
        WholeAppended(states[i - 1].slot.log, events[i - 1].c);
      }
    }
  }

  /** A remote copy really can break the invariant: the files still describe the old table. */
  lemma CopyCanLeaveFilesBehind()
    ensures exists s, t, s' :: Sound(s) && Durable(s) && Next(s, Copy(t), s') && !Durable(s')
  {
    WholeEmpty();
    var t: Tablet := map["r" := map["c" := "v"]];
    var s := State(EMPTY_SLOT, false);
    var s' := State(EMPTY_SLOT.(tablet := t), true);
    assert Recovered([], []) == Some(map[]);
    assert t["r"]["c"] == "v" && t != map[];
    assert Sound(s) && Durable(s) && Next(s, Copy(t), s') && !Durable(s');
  }

  // ----- Crashes inside a handler -----

  /**
   A crash before or anywhere inside the log write leaves files that recover the table from just
   before the operation, or, once the record is complete, from just after it.
   */
  lemma CrashInsideLogCommand(s: Slot, c: Command, k: nat)
    requires WholeRecords(s.log) && CommandFits(c)
    requires Recovered(s.checkpoint, s.log) == Some(s.tablet) && Apply(s.tablet, c).Some?
    requires k <= |EncodeCommand(c)|
    ensures Recovered(s.checkpoint, s.log + EncodeCommand(c)[..k]) ==
            if k < |EncodeCommand(c)| then Some(s.tablet) else Apply(s.tablet, c)
  {
    hide Deserialize, EncodeCommand, EncodeLog, ReadCommand, Apply, CommandFits;
    if k == |EncodeCommand(c)| {
      assert EncodeCommand(c)[..k] == EncodeCommand(c);
      LoggingRecovers(s, c);
    } else {
      ReadCommandCut(c, k);
      ParseWritten(ParseLog(s.log), EncodeCommand(c)[..k]);
      assert ParseLog(s.log) + [] == ParseLog(s.log);
    }
  }

  /**
   A crash after the checkpoint is written and before the log is cleared: recovery replays the log on
   top of its own result, and gives the live table exactly when every cell first named by a CPUT
   ended with the value it started with.
   */
  lemma CrashBeforeClearLog(s: Slot, c: Command, t': Tablet, checkpoint': Bytes)
    requires WholeRecords(s.log) && CommandFits(c)
    requires Recovered(s.checkpoint, s.log) == Some(s.tablet) && Apply(s.tablet, c) == Some(t')
    requires Fits(t') && Encodes(t', checkpoint')
    ensures Recovered(checkpoint', s.log + EncodeCommand(c)) == Some(t')
            <==> CPutCellsEndWhereTheyStarted(ParseLog(s.log) + [c], t')
    ensures Recovered(checkpoint', s.log + EncodeCommand(c)) in {None, Some(t')}
  {
    hide EncodeCommand, EncodeLog, ParseLog, Apply, CommandFits, Fits, Encodes, CPutCellsEndWhereTheyStarted;
    var base := Deserialize(s.checkpoint).table;
    RecoveredHasNoEmptyRow(s.checkpoint, s.log);
    hide Deserialize;
    RoundTrip(t', checkpoint');
    WholeAppended(s.log, c);
    ReplayExtend(base, ParseLog(s.log), c);
    ReplayTwice(base, ParseLog(s.log) + [c], t');
  }
}
