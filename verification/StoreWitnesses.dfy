/**
 Crashes and outages after which the tablet store no longer has what it acknowledged. Each one meets the
 failing side of a condition proved elsewhere.
 */
module StoreWitnesses {
  import opened Options
  import opened Wire
  import opened Tablets
  import opened Serializer
  import opened CommandLogger
  import D = Durability
  import opened Ring
  import opened Worker
  import opened Cluster

  /** After a torn record, some update that is logged next cannot be read back. */
  lemma TearLosesTheNext(complete: seq<Command>, c: Command, k: nat) returns (next: Command)
    requires AllFit(complete) && CommandFits(c) && 0 < k < |EncodeCommand(c)|
    ensures IsUpdate(next) && CommandFits(next)
    ensures ParseLog(EncodeLog(complete) + EncodeCommand(c)[..k] + EncodeCommand(next)) != complete + [next]
  {
    var torn := EncodeCommand(c)[..k];
    assert torn != [];
    hide EncodeCommand, EncodeLog, ParseLog, CommandFits, IsUpdate;
    AppendAfterTear(complete, torn);
    next :| IsUpdate(next) && CommandFits(next) && ParseLog(EncodeLog(complete) + torn + EncodeCommand(next)) != complete + [next];
  }

  // ----- A conditional update caught between checkpoint and log -----

  /**
   The tenth update is a CPUT that changes its cell, and no command of the log names that cell: a crash between
   the checkpoint and the clearing of the log makes recovery give up.
   */
  lemma CPutCaught(s: D.Slot, row: Bytes, column: Bytes, v1: Bytes, v2: Bytes, checkpoint': Bytes)
    requires s.count + 1 == D.MAX_UPDATE_COUNT && D.WholeRecords(s.log) && D.Recovered(s.checkpoint, s.log) == Some(s.tablet)
    requires forall i :: 0 <= i < |ParseLog(s.log)| ==> !Touches(ParseLog(s.log)[i], row, column)
    requires Cell(s.tablet, row, column) == Some(v1) && v1 != v2 && CommandFits(CPutCommand(row, column, v1, v2))
    requires Fits(SetCell(s.tablet, row, column, v2)) && Encodes(SetCell(s.tablet, row, column, v2), checkpoint')
    ensures D.Recovered(checkpoint', s.log + EncodeCommand(CPutCommand(row, column, v1, v2))) == None
  {
    hide *;
    var c, t' := CPutCommand(row, column, v1, v2), SetCell(s.tablet, row, column, v2);
    CPutFacts(s.tablet, row, column, v1, v2);
    FirstCPut(ParseLog(s.log), c, t');
    D.CrashBeforeClearLog(s, c, t', checkpoint');
  }

  lemma CPutFacts(t: Tablet, row: Bytes, column: Bytes, v1: Bytes, v2: Bytes)
    requires Cell(t, row, column) == Some(v1) && v1 != v2
    ensures
      var c, t' := CPutCommand(row, column, v1, v2), SetCell(t, row, column, v2);
      Apply(t, c) == Some(t') && c.op == "CPUT" && c.row == row && c.column == column && Cell(t', row, column) != Some(c.value1)
  {
  }

  lemma FirstCPut(cs: seq<Command>, c: Command, t: Tablet)
    requires c.op == "CPUT" && Cell(t, c.row, c.column) != Some(c.value1)
    requires forall i :: 0 <= i < |cs| ==> !Touches(cs[i], c.row, c.column)
    ensures !CPutCellsEndWhereTheyStarted(cs + [c], t)
  {
    hide Cell, Touches;
    assert (cs + [c])[|cs|] == c && FirstOnItsCell(cs + [c], |cs|);
  }

  const PUT := PutCommand("r", "c", "v")
  const ERASE := DeleteCommand("s", "c")
  const CPUT := CPutCommand("r", "c", "v", "w")
  const FULL: Tablet := map["r" := map["c" := "v"]]
  const CHANGED: Tablet := map["r" := map["c" := "w"]]

  function CheckpointOf(value: Bytes): Bytes {
    EncodeTable([("r", [("c", value)])])
  }

  lemma OneRowEncodes(value: Bytes)
    ensures Encodes(map["r" := map["c" := value]], CheckpointOf(value))
  {
    var rs: Rows := [("r", [("c", value)])];
    assert HasKey(rs[0].1, "c") by { assert rs[0].1[0].0 == "c"; }
    assert HasKey(rs, "r") by { assert rs[0].0 == "r"; }
    assert ListsTable(map["r" := map["c" := value]], rs);
  }

  lemma SmallTables()
    ensures Fits(map[]) && Fits(FULL) && Fits(CHANGED)
  {
    OneCellFits("v");
    OneCellFits("w");
    hide Fits;
    assert Fits(map[]) by { NoRowFits(); }
  }

  lemma NoRowFits()
    ensures Fits(map[])
  {
  }

  lemma OneCellFits(value: Bytes)
    requires |value| == 1
    ensures Fits(map["r" := map["c" := value]])
  {
    var row: Row := map["c" := value];
    assert row.Keys == {"c"} && |row| == 1;
    var t: Tablet := map["r" := row];
    assert t.Keys == {"r"} && |t| == 1;
  }

  lemma PutApplies()
    ensures Apply(map[], PUT) == Some(FULL) && Apply(FULL, PUT) == Some(FULL) && Apply(FULL, ERASE) == Some(FULL)
    ensures IsUpdate(PUT) && IsUpdate(ERASE) && IsUpdate(CPUT) && CommandFits(PUT) && CommandFits(ERASE) && CommandFits(CPUT)
    ensures Outcome(map[], PUT) == OK
    ensures Cell(FULL, "r", "c") == Some("v") && SetCell(FULL, "r", "c", "w") == CHANGED && !Touches(ERASE, "r", "c")
  {
    var row: Row := map["c" := "v"];
    assert RowOf(FULL, "r") == row && row["c" := "v"] == row && row["c" := "w"] == map["c" := "w"];
    assert FULL["r" := row] == FULL && FULL["r" := map["c" := "w"]] == CHANGED;
  }

  /** A log of k equal records. */
  ghost function Repeated(c: Command, k: nat): Bytes {
    if k == 0 then [] else Repeated(c, k - 1) + EncodeCommand(c)
  }

  lemma {:induction false} RepeatedParses(c: Command, k: nat)
    requires CommandFits(c)
    ensures D.WholeRecords(Repeated(c, k)) && forall i :: 0 <= i < |ParseLog(Repeated(c, k))| ==> ParseLog(Repeated(c, k))[i] == c
  {
    hide EncodeCommand, ParseLog, CommandFits, D.WholeRecords;
    if k == 0 {
      D.WholeEmpty();
    } else {
      RepeatedParses(c, k - 1);
      D.WholeAppended(Repeated(c, k - 1), c);
    }
  }

  /** The slot after k updates: ten times the same PUT, then deletions of a cell that is not there. */
  ghost function SlotAfter(k: nat): D.Slot {
    if k == 0 then D.EMPTY_SLOT
    else if k < 10 then D.Slot(FULL, Repeated(PUT, k), [], k)
    else D.Slot(FULL, Repeated(ERASE, k - 10), CheckpointOf("v"), k - 10)
  }

  ghost function CommandAt(k: nat): Command {
    if k < 10 then PUT else ERASE
  }

  lemma AcceptLogs(s: D.Slot, c: Command, t': Tablet)
    requires Apply(s.tablet, c) == Some(t') && s.count < 9 && Fits(t') && CommandFits(c)
    ensures D.Next(D.State(s, true), D.Accept(c), D.State(D.Slot(t', s.log + EncodeCommand(c), s.checkpoint, s.count + 1), true))
  {
    hide Apply, Fits, CommandFits, EncodeCommand, Encodes;
  }

  lemma AcceptCheckpoints(s: D.Slot, c: Command, t': Tablet, checkpoint': Bytes)
    requires Apply(s.tablet, c) == Some(t') && s.count == 9 && Fits(t') && CommandFits(c) && Encodes(t', checkpoint')
    ensures D.Next(D.State(s, true), D.Accept(c), D.State(D.Slot(t', [], checkpoint', 0), true))
  {
    hide Apply, Fits, CommandFits, EncodeCommand, Encodes;
  }

  lemma RepeatedStep(c: Command, k: nat)
    ensures Repeated(c, 0) == [] && Repeated(c, k + 1) == Repeated(c, k) + EncodeCommand(c)
  {
    hide EncodeCommand;
  }

  lemma SlotStep(k: nat)
    requires k < 19
    ensures D.Next(D.State(SlotAfter(k), true), D.Accept(CommandAt(k)), D.State(SlotAfter(k + 1), true))
  {
    var s := SlotAfter(k);
    PutApplies();
    SmallTables();
    hide Apply, Fits, Encodes, CommandFits, IsUpdate, Outcome, Touches, SetCell, Cell, D.Next, EncodeCommand, Repeated, CheckpointOf, CHANGED, PUT, ERASE, CPUT;
    RepeatedStep(PUT, k);
    if k == 9 {
      OneRowEncodes("v");
      RepeatedStep(ERASE, 0);
      AcceptCheckpoints(s, PUT, FULL, CheckpointOf("v"));
    } else if k < 9 {
      AcceptLogs(s, PUT, FULL);
    } else {
      RepeatedStep(ERASE, k - 10);
      AcceptLogs(s, ERASE, FULL);
    }
  }

  ghost function CaughtStates(): (states: seq<D.State>)
    ensures |states| == 20 && forall k :: 0 <= k < 20 ==> states[k] == D.State(SlotAfter(k), true)
  {
    seq(20, k requires 0 <= k => D.State(SlotAfter(k), true))
  }

  ghost function CaughtEvents(): (events: seq<D.Event>)
    ensures |events| == 19 && forall k :: 0 <= k < 19 ==> events[k] == D.Accept(CommandAt(k))
  {
    seq(19, k requires 0 <= k => D.Accept(CommandAt(k)))
  }

  /**
   A run from the empty slot into that window: after nineteen updates the counter stands at nine, and a crash
   of the twentieth, a CPUT, behind its checkpoint leaves files that cannot be recovered.
   */
  lemma CaughtInARun()
    ensures D.Run(CaughtStates(), CaughtEvents()) && CaughtStates()[0] == D.State(D.EMPTY_SLOT, true)
    ensures
      var s := CaughtStates()[19].slot;
      && s.count + 1 == D.MAX_UPDATE_COUNT && Apply(s.tablet, CPUT) == Some(CHANGED) && IsUpdate(CPUT) && CommandFits(CPUT)
      && (exists checkpoint' :: Encodes(CHANGED, checkpoint'))
      && (forall checkpoint' :: Encodes(CHANGED, checkpoint') ==> D.Recovered(checkpoint', s.log + EncodeCommand(CPUT)) == None)
  {
    hide *;
    var states, events := CaughtStates(), CaughtEvents();
    forall i | 0 <= i < 19 ensures D.Next(states[i], events[i], states[i + 1]) { SlotStep(i); }
    FirstAndLast();
    PutApplies();
    SmallTables();
    RunIsDurable(states, events);
    RepeatedParses(ERASE, 9);
    CPutFacts(FULL, "r", "c", "v", "w");
    OneRowEncodes("w");
    assert Encodes(CHANGED, CheckpointOf("w"));
    forall checkpoint' | Encodes(CHANGED, checkpoint')
      ensures D.Recovered(checkpoint', SlotAfter(19).log + EncodeCommand(CPUT)) == None
    {
      CPutCaught(SlotAfter(19), "r", "c", "v", "w", checkpoint');
    }
  }

  lemma FirstAndLast()
    ensures D.MAX_UPDATE_COUNT == 10 && CPUT == CPutCommand("r", "c", "v", "w") && CHANGED == map["r" := map["c" := "w"]]
    ensures SlotAfter(0) == D.EMPTY_SLOT && SlotAfter(19) == D.Slot(FULL, Repeated(ERASE, 9), CheckpointOf("v"), 9)
  {
    hide Repeated;
  }

  lemma RunIsDurable(states: seq<D.State>, events: seq<D.Event>)
    requires |states| == 20 && |events| == 19 && states[0] == D.State(D.EMPTY_SLOT, true) && states[19].up
    requires forall i :: 0 <= i < 19 ==> events[i].Accept? && D.Next(states[i], events[i], states[i + 1])
    ensures D.Run(states, events)
    ensures D.Recovered(states[19].slot.checkpoint, states[19].slot.log) == Some(states[19].slot.tablet)
  {
    hide D.Next, D.Recovered, NoEmptyRow;
    D.LocalRunsAreDurable(states, events, 19);
  }

  // ----- An outage that is not safe -----

  /** The tablet that the row of PUT belongs to. */
  ghost function Home(cfg: Config): (t: int)
    requires cfg.n >= 3
    ensures OnRing(cfg.n, t)
  {
    Bucket(cfg, PUT.row)
  }

  /** The j-th holder of that tablet. */
  ghost function Holder(cfg: Config, j: nat): (w: int)
    requires cfg.n >= 3 && j < 3
    ensures OnRing(cfg.n, w)
  {
    Candidates(cfg.n, Home(cfg))[j]
  }

  lemma Holders(cfg: Config)
    requires cfg.n >= 3
    ensures Holder(cfg, 0) != Holder(cfg, 1) && Holder(cfg, 0) != Holder(cfg, 2) && Holder(cfg, 1) != Holder(cfg, 2)
    ensures forall j :: 0 <= j < 3 ==> TabletNumber(cfg.n, Holder(cfg, j), Home(cfg)) == j + 1
    ensures Replicas(cfg.n, Holder(cfg, 0), Home(cfg)) == [Holder(cfg, 1), Holder(cfg, 2)]
  {
    var t := Home(cfg);
    hide TabletNumber, Replicas, Candidates, Home;
    CandidatesDistinct(cfg.n, t);
    forall j | 0 <= j < 3 ensures TabletNumber(cfg.n, Holder(cfg, j), t) == j + 1 { StoredWhereRouted(cfg.n, Holder(cfg, j), t, j); }
    ForwardsToLaterCandidates(cfg.n, Holder(cfg, 0), t, 0);
  }

  ghost function Full(): D.Slot {
    D.Slot(FULL, EncodeCommand(PUT), [], 1)
  }

  ghost function Fresh(up: bool): Node {
    Node(up, [D.EMPTY_SLOT, D.EMPTY_SLOT, D.EMPTY_SLOT])
  }

  /** The first holder keeps the tablet in its first place, the second in its second. */
  ghost function First(up: bool): Node {
    Node(up, [Full(), D.EMPTY_SLOT, D.EMPTY_SLOT])
  }

  ghost function Second(up: bool): Node {
    Node(up, [D.EMPTY_SLOT, Full(), D.EMPTY_SLOT])
  }

  /** The three holders as given, all other workers up and empty. */
  ghost function Nodes(cfg: Config, a: Node, b: Node, c: Node): (s: State)
    requires cfg.n >= 3
    ensures forall w :: w in s <==> OnRing(cfg.n, w)
    ensures s[Holder(cfg, 0)] == a && s[Holder(cfg, 1)] == b && s[Holder(cfg, 2)] == c
    ensures forall w :: w in s && w != Holder(cfg, 0) && w != Holder(cfg, 1) && w != Holder(cfg, 2) ==> s[w] == Fresh(true)
  {
    Holders(cfg);
    var h0, h1, h2 := Holder(cfg, 0), Holder(cfg, 1), Holder(cfg, 2);
    map w | OnRing(cfg.n, w) && 1 <= w <= cfg.n :: if w == h0 then a else if w == h1 then b else if w == h2 then c else Fresh(true)
  }

  ghost predicate NodeFits(n: Node) {
    |n.slots| == 3 && forall k :: 0 <= k < 3 ==> Fits(n.slots[k].tablet)
  }

  lemma AllFitHere(up: bool)
    ensures NodeFits(Fresh(up)) && NodeFits(First(up)) && NodeFits(Second(up))
  {
    SmallTables();
    hide Fits, EncodeCommand;
  }

  lemma GoodNodes(cfg: Config, a: Node, b: Node, c: Node)
    requires cfg.n >= 3 && NodeFits(a) && NodeFits(b) && NodeFits(c)
    ensures WellFormed(cfg, Nodes(cfg, a, b, c)) && SizesFit(Nodes(cfg, a, b, c))
    ensures forall w :: w in Up(Nodes(cfg, a, b, c)) <==> OnRing(cfg.n, w) && Nodes(cfg, a, b, c)[w].up
  {
    AllFitHere(true);
    hide Fits, Nodes, Fresh, Holder;
    var s := Nodes(cfg, a, b, c);
    forall w | w in s ensures NodeFits(s[w]) {}
  }

  lemma PutUpdates()
    ensures D.Updated(D.EMPTY_SLOT, PUT, Full())
  {
    PutApplies();
    hide Apply, EncodeCommand, Encodes;
    assert [] + EncodeCommand(PUT) == EncodeCommand(PUT);
  }

  /** A worker that is up and has the tablet in place k takes an update that the table accepts. */
  lemma Takes(cfg: Config, w: int, k: nat, c: Command, n: Node, n': Node)
    requires OnRing(cfg.n, w) && k < 3 && TabletNumber(cfg.n, w, Bucket(cfg, c.row)) == k + 1 && n.up && |n.slots| == 3 && IsUpdate(c)
    requires Outcome(n.slots[k].tablet, c) == OK && |n'.slots| == 3 && n' == n.(slots := n.slots[k := n'.slots[k]])
    requires D.Updated(n.slots[k], c, n'.slots[k])
    ensures Reply(cfg, w, n, c) == OK && Effect(cfg, w, n, c, n')
  {
    hide D.Updated, Outcome, Bucket, TabletNumber, IsUpdate;
  }

  lemma IsDown(cfg: Config, w: int, c: Command, n: Node)
    requires OnRing(cfg.n, w) && !n.up && |n.slots| == 3 && IsUpdate(c)
    ensures Effect(cfg, w, n, c, n)
  {
    hide Outcome, Bucket, TabletNumber, IsUpdate;
  }

  lemma LeaderIs(cfg: Config, s: State, i: nat)
    requires WellFormed(cfg, s) && i < 3 && Holder(cfg, i) in Up(s) && forall j :: 0 <= j < i ==> Holder(cfg, j) !in Up(s)
    ensures Leader(cfg, s, Home(cfg)) == Some(Holder(cfg, i))
  {
    hide Candidates, TabletNumber, WellFormed, Up, Home;
    assert forall j :: 0 <= j < 3 ==> Holder(cfg, j) == Candidates(cfg.n, Home(cfg))[j];
  }

  /** The first holder leads, the second follows, and nobody else changes. */
  lemma ThreeSteps(cfg: Config, c: Command, s: State, s': State)
    requires WellFormed(cfg, s) && WellFormed(cfg, s') && IsUpdate(c) && Bucket(cfg, c.row) == Home(cfg)
    requires Leader(cfg, s, Home(cfg)) == Some(Holder(cfg, 0)) && Reply(cfg, Holder(cfg, 0), s[Holder(cfg, 0)], c) == OK
    requires Replicas(cfg.n, Holder(cfg, 0), Home(cfg)) == [Holder(cfg, 1), Holder(cfg, 2)]
    requires forall j :: 0 <= j < 3 ==> Effect(cfg, Holder(cfg, j), s[Holder(cfg, j)], c, s'[Holder(cfg, j)])
    requires forall w :: w in s && w != Holder(cfg, 0) && w != Holder(cfg, 1) && w != Holder(cfg, 2) ==> s'[w] == s[w]
    ensures UpdateStep(cfg, s, c, OK, s')
  {
    hide Leader, Reply, Effect, WellFormed, Bucket, Replicas, IsUpdate, Holder, Home;
    var h1, h2 := Holder(cfg, 1), Holder(cfg, 2);
    assert forall w :: w in [h1, h2] <==> w == h1 || w == h2;
  }

  lemma Shapes()
    ensures Fresh(true).up && First(true).up && Second(true).up && !Fresh(false).up && !First(false).up && !Second(false).up
    ensures |First(true).slots| == |Second(true).slots| == |Second(false).slots| == 3
    ensures Fresh(true).slots == Fresh(false).slots && |Fresh(true).slots| == 3
    ensures forall i :: 0 <= i < 3 ==> Fresh(true).slots[i] == D.EMPTY_SLOT
    ensures First(true) == Fresh(true).(slots := Fresh(true).slots[0 := First(true).slots[0]]) && First(true).slots[0] == Full()
    ensures Second(true) == Fresh(true).(slots := Fresh(true).slots[1 := Second(true).slots[1]]) && Second(true).slots[1] == Full()
    ensures Second(false).slots[1] == Full() && D.EMPTY_SLOT.tablet == map[]
    ensures Fresh(true).(up := false) == Fresh(false) && First(true).(up := false) == First(false) && Second(true).(up := false) == Second(false)
  {
    hide Full;
  }

  /** The first two holders take the update, the third is down. */
  lemma Acknowledged(cfg: Config, s: State, s': State)
    requires cfg.n >= 3
    requires s == Nodes(cfg, Fresh(true), Fresh(true), Fresh(false)) && s' == Nodes(cfg, First(true), Second(true), Fresh(false))
    ensures WellFormed(cfg, s) && WellFormed(cfg, s') && Next(cfg, s, Update(PUT, OK), s')
  {
    hide *;
    hide Fresh, First, Second, PUT;
    assert Bucket(cfg, PUT.row) == Home(cfg) by { HomeIs(cfg); }
    AllFitHere(true);
    AllFitHere(false);
    Shapes();
    GoodNodes(cfg, Fresh(true), Fresh(true), Fresh(false));
    GoodNodes(cfg, First(true), Second(true), Fresh(false));
    Holders(cfg);
    PutApplies();
    PutUpdates();
    LeaderIs(cfg, s, 0);
    Takes(cfg, Holder(cfg, 0), 0, PUT, Fresh(true), First(true));
    Takes(cfg, Holder(cfg, 1), 1, PUT, Fresh(true), Second(true));
    IsDown(cfg, Holder(cfg, 2), PUT, Fresh(false));
    ThreeSteps(cfg, PUT, s, s');
    UpdateIsNext(cfg, s, s');
  }

  lemma HomeIs(cfg: Config)
    requires cfg.n >= 3
    ensures Bucket(cfg, PUT.row) == Home(cfg)
  {
  }

  lemma UpdateIsNext(cfg: Config, s: State, s': State)
    requires WellFormed(cfg, s) && WellFormed(cfg, s') && IsUpdate(PUT) && UpdateStep(cfg, s, PUT, OK, s')
    ensures Next(cfg, s, Update(PUT, OK), s')
  {
    PutApplies();
    hide WellFormed, UpdateStep, CommandFits, IsUpdate, PUT;
  }

  lemma EmptyFiles()
    ensures D.Recovered([], []) == Some(map[]) && Encodes(map[], EncodeTable([])) && Deserialize(EncodeTable([])).table == map[]
  {
    D.WholeEmpty();
    assert ListsTable(map[], []);
    SmallTables();
    hide Fits, Deserialize, Encodes;
    RoundTrip(map[], EncodeTable([]));
  }

  /** Where every live worker is empty, an empty place of a restarting worker stays empty. */
  lemma PlaceStaysEmpty(cfg: Config, s: State, w: int, i: nat)
    requires WellFormed(cfg, s) && w in s && !s[w].up && i < 3 && forall v :: v in Up(s) ==> s[v] == Fresh(true)
    ensures PlaceRestored(cfg, s, w, i, D.EMPTY_SLOT, D.EMPTY_SLOT)
  {
    EmptyFiles();
    hide D.Recovered, TabletNumber, Up, RecoveryOrder, Encodes, Deserialize, EncodeTable, Candidates, Primary;
    var t := RecoveryOrder(cfg.n, w)[i];
    if Primary(cfg.n, Up(s), t).Some? {
      PrimaryHolds(cfg.n, Up(s), t);
    }
  }

  lemma OnlyAt(s: State, w: int, s': State)
    requires w in s && (forall v :: v in s' <==> v in s) && forall v :: v in s && v != w ==> s'[v] == s[v]
    ensures s' == s[w := s'[w]]
  {
    var s1 := s[w := s'[w]];
    assert forall v :: v in s1 <==> v in s';
    assert forall v :: v in s1 ==> s1[v] == s'[v];
  }

  /** The third holder finds no live holder of the tablet and comes back with its empty files. */
  lemma ComesBackEmpty(cfg: Config, s: State, s': State)
    requires cfg.n >= 3
    requires s == Nodes(cfg, First(false), Second(false), Fresh(false)) && s' == Nodes(cfg, First(false), Second(false), Fresh(true))
    ensures WellFormed(cfg, s) && WellFormed(cfg, s') && Next(cfg, s, Restart(Holder(cfg, 2)), s')
  {
    hide *;
    hide Fresh, First, Second;
    var w := Holder(cfg, 2);
    Shapes();
    AllFitHere(true);
    AllFitHere(false);
    Holders(cfg);
    GoodNodes(cfg, First(false), Second(false), Fresh(false));
    GoodNodes(cfg, First(false), Second(false), Fresh(true));
    forall i | 0 <= i < 3 ensures PlaceRestored(cfg, s, w, i, s[w].slots[i], s'[w].slots[i]) { PlaceStaysEmpty(cfg, s, w, i); }
    OnlyAt(s, w, s');
    RestartIsNext(cfg, s, w, s');
  }

  lemma RestartIsNext(cfg: Config, s: State, w: int, s': State)
    requires WellFormed(cfg, s) && WellFormed(cfg, s') && w in s && !s[w].up && s'[w].up && s' == s[w := s'[w]]
    requires forall i :: 0 <= i < 3 ==> PlaceRestored(cfg, s, w, i, s[w].slots[i], s'[w].slots[i])
    ensures Next(cfg, s, Restart(w), s')
  {
    hide PlaceRestored;
  }

  /** The third holder goes down, the update is acknowledged by the others, both go down, and the third comes back first. */
  ghost function States(cfg: Config): seq<State>
    requires cfg.n >= 3
  {
    [Nodes(cfg, Fresh(true), Fresh(true), Fresh(true)),
     Nodes(cfg, Fresh(true), Fresh(true), Fresh(false)),
     Nodes(cfg, First(true), Second(true), Fresh(false)),
     Nodes(cfg, First(false), Second(true), Fresh(false)),
     Nodes(cfg, First(false), Second(false), Fresh(false)),
     Nodes(cfg, First(false), Second(false), Fresh(true))]
  }

  ghost function Events(cfg: Config): seq<Event>
    requires cfg.n >= 3
  {
    [Shutdown(Holder(cfg, 2)), Update(PUT, OK), Shutdown(Holder(cfg, 0)), Shutdown(Holder(cfg, 1)), Restart(Holder(cfg, 2))]
  }

  lemma Listed(cfg: Config)
    requires cfg.n >= 3
    ensures
      var s, e := States(cfg), Events(cfg);
      && |s| == 6 && |e| == 5
      && s[0] == Nodes(cfg, Fresh(true), Fresh(true), Fresh(true)) && s[1] == Nodes(cfg, Fresh(true), Fresh(true), Fresh(false))
      && s[2] == Nodes(cfg, First(true), Second(true), Fresh(false)) && s[3] == Nodes(cfg, First(false), Second(true), Fresh(false))
      && s[4] == Nodes(cfg, First(false), Second(false), Fresh(false)) && s[5] == Nodes(cfg, First(false), Second(false), Fresh(true))
      && e[0] == Shutdown(Holder(cfg, 2)) && e[1] == Update(PUT, OK) && e[2] == Shutdown(Holder(cfg, 0))
      && e[3] == Shutdown(Holder(cfg, 1)) && e[4] == Restart(Holder(cfg, 2))
  {
    hide Fresh, First, Second, Nodes, PUT, Holder;
  }

  lemma ShutsDown(cfg: Config, s: State, w: int, s': State)
    requires WellFormed(cfg, s) && WellFormed(cfg, s') && w in s && s[w].up && s'[w] == s[w].(up := false)
    requires forall v :: v in s && v != w ==> s'[v] == s[v]
    ensures Next(cfg, s, Shutdown(w), s')
  {
    OnlyAt(s, w, s');
    hide WellFormed;
  }

  lemma StatesAreWell(cfg: Config)
    requires cfg.n >= 3
    ensures |States(cfg)| == 6 && forall i :: 0 <= i < 6 ==> WellFormed(cfg, States(cfg)[i]) && SizesFit(States(cfg)[i])
  {
    hide *;
    hide Fresh, First, Second;
    AllFitHere(true);
    AllFitHere(false);
    Listed(cfg);
    var f, g, a, a', b, b' := Fresh(true), Fresh(false), First(true), First(false), Second(true), Second(false);
    GoodNodes(cfg, f, f, f);
    GoodNodes(cfg, f, f, g);
    GoodNodes(cfg, a, b, g);
    GoodNodes(cfg, a', b, g);
    GoodNodes(cfg, a', b', g);
    GoodNodes(cfg, a', b', f);
  }

  lemma RunOfStates(cfg: Config)
    requires cfg.n >= 3
    ensures Run(cfg, States(cfg), Events(cfg))
  {
    hide *;
    hide Fresh, First, Second;
    Listed(cfg);
    Shapes();
    StatesAreWell(cfg);
    Holders(cfg);
    var s: seq<State> := States(cfg);
    ShutsDown(cfg, s[0], Holder(cfg, 2), s[1]);
    Acknowledged(cfg, s[1], s[2]);
    ShutsDown(cfg, s[2], Holder(cfg, 0), s[3]);
    ShutsDown(cfg, s[3], Holder(cfg, 1), s[4]);
    ComesBackEmpty(cfg, s[4], s[5]);
    StartsFresh(cfg, s[0]);
    SixStates(cfg, s, Events(cfg));
  }

  lemma StartsFresh(cfg: Config, s: State)
    requires WellFormed(cfg, s) && s == Nodes(cfg, Fresh(true), Fresh(true), Fresh(true))
    ensures Initial(cfg, s)
  {
    hide WellFormed, Nodes;
  }

  lemma SixStates(cfg: Config, s: seq<State>, e: seq<Event>)
    requires |s| == 6 && |e| == 5 && forall i :: 0 <= i < 6 ==> WellFormed(cfg, s[i]) && SizesFit(s[i])
    requires Initial(cfg, s[0]) && Next(cfg, s[0], e[0], s[1]) && Next(cfg, s[1], e[1], s[2]) && Next(cfg, s[2], e[2], s[3])
    requires Next(cfg, s[3], e[3], s[4]) && Next(cfg, s[4], e[4], s[5])
    ensures Run(cfg, s, e)
  {
    hide WellFormed, SizesFit, Initial, Next;
  }

  lemma SpecOfEvents(cfg: Config)
    requires cfg.n >= 3
    ensures Spec(Events(cfg)) == FULL && Spec(Events(cfg)[..4]) == FULL
  {
    PutApplies();
    var e := Events(cfg);
    assert e[..5] == e && e[..0] == [] && Spec([]) == map[];
    hide Apply, Spec, Holder;
    SpecAppend(e, 0);
    SpecAppend(e, 1);
    SpecAppend(e, 2);
    SpecAppend(e, 3);
    SpecAppend(e, 4);
    assert AppliedTo(map[], PUT) == FULL;
  }

  /**
   On every ring there is a run of the cluster in which an acknowledged update is lost: the holder that comes
   back first has stale files, and now leads the tablet with an empty table.
   */
  lemma StaleHolderReturns(cfg: Config)
    requires cfg.n >= 3
    ensures Run(cfg, States(cfg), Events(cfg)) && Spec(Events(cfg)) == FULL
    ensures Leader(cfg, States(cfg)[5], Home(cfg)) == Some(Holder(cfg, 2)) && Holds(cfg, Holder(cfg, 2), Home(cfg))
    ensures SlotOf(cfg, States(cfg)[5], Holder(cfg, 2), Home(cfg)).tablet == map[]
  {
    hide *;
    hide Fresh, First, Second;
    Shapes();
    Listed(cfg);
    RunOfStates(cfg);
    SpecOfEvents(cfg);
    Holders(cfg);
    AllFitHere(true);
    AllFitHere(false);
    GoodNodes(cfg, First(false), Second(false), Fresh(true));
    LeaderIs(cfg, States(cfg)[5], 2);
    HoldsPlace(cfg, States(cfg)[5], 2);
  }

  lemma HoldsPlace(cfg: Config, s: State, j: nat)
    requires WellFormed(cfg, s) && j < 3 && TabletNumber(cfg.n, Holder(cfg, j), Home(cfg)) == j + 1
    ensures Holds(cfg, Holder(cfg, j), Home(cfg)) && SlotOf(cfg, s, Holder(cfg, j), Home(cfg)) == s[Holder(cfg, j)].slots[j]
  {
    hide TabletNumber, Holder, Home;
  }

  /** So that run is on the failing side of the condition for agreement. */
  lemma OutageWasUnsafe(cfg: Config)
    requires cfg.n >= 3
    ensures Run(cfg, States(cfg), Events(cfg)) && !GoodReturns(cfg, States(cfg), Events(cfg), Home(cfg), 5)
  {
    hide *;
    AllEvents(cfg);
    StaleHolderReturns(cfg);
    RowIsHere(cfg);
    Listed(cfg);
    ReplicaAgreement(cfg, States(cfg), Events(cfg), Home(cfg), 5);
    if AlwaysAgreed(cfg, States(cfg), Events(cfg), Home(cfg), 5) {
      AgreesHere(cfg, States(cfg), Events(cfg));
    }
  }

  lemma AllEvents(cfg: Config)
    requires cfg.n >= 3
    ensures |Events(cfg)| == 5 && Events(cfg)[..5] == Events(cfg) && FULL != map[]
  {
    assert "r" in FULL;
    hide PUT, Holder;
  }

  lemma RowIsHere(cfg: Config)
    requires cfg.n >= 3
    ensures RowsOf(cfg, FULL, Home(cfg)) == FULL
  {
    assert Bucket(cfg, "r") == Home(cfg);
    hide Bucket, Home;
  }

  lemma AgreesHere(cfg: Config, states: seq<State>, events: seq<Event>)
    requires Run(cfg, states, events) && |states| == 6 && cfg.n >= 3 && AlwaysAgreed(cfg, states, events, Home(cfg), 5)
    requires Leader(cfg, states[5], Home(cfg)) == Some(Holder(cfg, 2)) && Holds(cfg, Holder(cfg, 2), Home(cfg))
    ensures SlotOf(cfg, states[5], Holder(cfg, 2), Home(cfg)).tablet == RowsOf(cfg, Spec(events[..5]), Home(cfg))
  {
    hide TabletNumber, RowsOf, Spec, Next, Initial, SizesFit, Home, Holder;
    assert LiveAgree(cfg, states[5], Home(cfg), RowsOf(cfg, Spec(events[..5]), Home(cfg)));
  }

  // ----- A primary that is named but down -----

  /**
   The same run one step earlier, when the coordinator has not yet noticed that the first holder went down. The
   second restarts and is sent to it: it ends with an empty tablet, though its own files hold the update.
   */
  lemma NamedButDown(cfg: Config, alive: set<int>, broken: bool, after: D.Slot)
    requires cfg.n >= 3 && Holder(cfg, 0) in alive
    ensures
      var s, w := States(cfg)[4], Holder(cfg, 1);
      && WellFormed(cfg, s) && !s[Holder(cfg, 0)].up && !s[w].up
      && RecoveryOrder(cfg.n, w)[1] == Home(cfg) && Survives(cfg, alive, w, 1, s[w].slots[1])
      && D.Recovered(s[w].slots[1].checkpoint, s[w].slots[1].log) == Some(FULL)
      && (Rebuilt(cfg, alive, w, s, 1, broken, s[w].slots[1], after) ==> after.tablet == map[])
  {
    hide *;
    hide Fresh, First, Second;
    Shapes();
    Listed(cfg);
    Holders(cfg);
    StatesAreWell(cfg);
    FilesAreGood();
    SecondVisited(cfg);
    SentToTheFirst(cfg, States(cfg)[4], alive, broken, Full(), after);
  }

  lemma SecondVisited(cfg: Config)
    requires cfg.n >= 3
    ensures RecoveryOrder(cfg.n, Holder(cfg, 1))[1] == Home(cfg)
  {
    hide Home;
  }

  lemma FilesAreGood()
    ensures D.Recovered(Full().checkpoint, Full().log) == Some(FULL)
  {
    PutApplies();
    D.WholeEmpty();
    EmptyFiles();
    hide D.Recovered, Apply, EncodeCommand, CommandFits, ParseLog;
    D.LoggingRecovers(D.EMPTY_SLOT, PUT);
    assert [] + EncodeCommand(PUT) == EncodeCommand(PUT);
  }

  lemma SentToTheFirst(cfg: Config, s: State, alive: set<int>, broken: bool, before: D.Slot, after: D.Slot)
    requires WellFormed(cfg, s) && Holder(cfg, 0) in alive && !s[Holder(cfg, 0)].up
    requires Holder(cfg, 0) != Holder(cfg, 1) && RecoveryOrder(cfg.n, Holder(cfg, 1))[1] == Home(cfg)
    ensures Survives(cfg, alive, Holder(cfg, 1), 1, before)
    ensures Rebuilt(cfg, alive, Holder(cfg, 1), s, 1, broken, before, after) ==> after.tablet == map[]
  {
    hide Restored, RecoveryOrder, TabletNumber, Candidates, SourceOf, Home, D.Recovered;
  }
}
