/**
 The replicated store as a step machine over the whole ring: client operations routed by the
 coordinator, workers going down, and workers coming back.

 Assumptions, none of which the code enforces: a handler is one atomic step; a lookup and the
 operation that follows it are one step; the coordinator's view of who is alive changes together with
 the worker; a recovering worker is marked dead until it has recovered.
 */
module Cluster {
  import opened Options
  import opened Wire
  import opened Tablets
  import opened Serializer
  import opened CommandLogger
  import D = Durability
  import opened Ring
  import opened Worker

  type State = map<int, Node>

  datatype Event =
    | Update(c: Command, status: Status)
    | Read(row: Bytes, column: Bytes, answer: Option<Bytes>)  // None: not found, or nobody to ask
    | Shutdown(w: int)
    | Kill(w: int)       // the process dies, also when its own recovery gives up
    | Restart(w: int)    // recovery succeeded, by RESTART or in a new process

  ghost predicate WellFormed(cfg: Config, s: State) {
    && cfg.n >= 3
    && (forall w :: w in s <==> OnRing(cfg.n, w))
    && (forall w :: w in s ==> |s[w].slots| == 3)
  }

  ghost function Up(s: State): set<int> {
    set w | w in s && s[w].up
  }

  /** The worker that the coordinator names for tablet t. */
  ghost function Leader(cfg: Config, s: State, t: int): (p: Option<int>)
    requires WellFormed(cfg, s) && OnRing(cfg.n, t)
    ensures p.Some? ==> p.value in s && s[p.value].up && Holds(cfg, p.value, t)
  {
    var p := Primary(cfg.n, Up(s), t);
    if p.Some? then PrimaryHolds(cfg.n, Up(s), t); p else p
  }

  ghost predicate Holds(cfg: Config, w: int, t: int) {
    OnRing(cfg.n, w) && OnRing(cfg.n, t) && TabletNumber(cfg.n, w, t) != TABLET_NOT_FOUND
  }

  /** Worker w's copy of tablet t, with its files. */
  ghost function SlotOf(cfg: Config, s: State, w: int, t: int): D.Slot
    requires WellFormed(cfg, s) && Holds(cfg, w, t)
  {
    s[w].slots[TabletNumber(cfg.n, w, t) - 1]
  }

  ghost predicate UpdateStep(cfg: Config, s: State, c: Command, status: Status, s': State)
    requires WellFormed(cfg, s) && WellFormed(cfg, s') && IsUpdate(c)
  {
    match Leader(cfg, s, Bucket(cfg, c.row))
    case None => s' == s && status == UNAVAILABLE
    case Some(p) =>
      && status == Reply(cfg, p, s[p], c)
      && Effect(cfg, p, s[p], c, s'[p])
      && forall w :: w in s && w != p ==>
           if status == OK && w in Replicas(cfg.n, p, Bucket(cfg, c.row))
           then Effect(cfg, w, s[w], c, s'[w]) else s'[w] == s[w]
  }

  ghost predicate RestartStep(cfg: Config, s: State, w: int, s': State)
    requires WellFormed(cfg, s) && WellFormed(cfg, s') && w in s && !s[w].up
  {
    && s' == s[w := s'[w]]
    && s'[w].up
    && forall i :: 0 <= i < 3 ==> PlaceRestored(cfg, s, w, i, s[w].slots[i], s'[w].slots[i])
  }

  /** Place i of restarting worker w: copied from the tablet's leader, or rebuilt from its own files. */
  ghost predicate PlaceRestored(cfg: Config, s: State, w: int, i: nat, before: D.Slot, after: D.Slot)
    requires WellFormed(cfg, s) && w in s && !s[w].up && i < 3
  {
    Restored(SourceOf(cfg, Up(s), w, s, i), before, after)
  }

  ghost predicate Next(cfg: Config, s: State, e: Event, s': State)
    requires WellFormed(cfg, s)
  {
    && WellFormed(cfg, s')
    && match e
       case Update(c, status) => IsUpdate(c) && CommandFits(c) && UpdateStep(cfg, s, c, status, s')
       case Read(row, column, answer) =>
         && s' == s
         && (match Leader(cfg, s, Bucket(cfg, row))
             case None => answer == None
             case Some(p) => answer == Cell(SlotOf(cfg, s, p, Bucket(cfg, row)).tablet, row, column))
       case Shutdown(w) => w in s && s[w].up && s' == s[w := s[w].(up := false)]
       case Kill(w) => w in s && s' == s[w := Node(false, Forgotten(s[w].slots))]
       case Restart(w) => w in s && !s[w].up && RestartStep(cfg, s, w, s')
  }

  /** What is left of three tablets when the process dies: the files. */
  ghost function Forgotten(slots: seq<D.Slot>): (r: seq<D.Slot>)
    requires |slots| == 3
    ensures |r| == 3 && forall i :: 0 <= i < 3 ==> r[i] == slots[i].(tablet := map[], count := 0)
  {
    [slots[0].(tablet := map[], count := 0), slots[1].(tablet := map[], count := 0), slots[2].(tablet := map[], count := 0)]
  }

  /** No table outgrows the 32-bit counts of its serialized form. */
  ghost predicate SizesFit(s: State) {
    forall w, k :: w in s && s[w].up && 0 <= k < |s[w].slots| ==> Fits(s[w].slots[k].tablet)
  }

  ghost predicate Initial(cfg: Config, s: State) {
    WellFormed(cfg, s) && forall w :: w in s ==> s[w] == Node(true, [D.EMPTY_SLOT, D.EMPTY_SLOT, D.EMPTY_SLOT])
  }

  ghost predicate Run(cfg: Config, states: seq<State>, events: seq<Event>) {
    && |states| == |events| + 1
    && Initial(cfg, states[0])
    && (forall i :: 0 <= i < |states| ==> WellFormed(cfg, states[i]) && SizesFit(states[i]))
    && (forall i :: 0 <= i < |events| ==> Next(cfg, states[i], events[i], states[i + 1]))
  }

  // ----- The single map that clients believe in -----

  ghost function AppliedTo(a: Tablet, c: Command): (b: Tablet)
    ensures NoEmptyRow(a) ==> NoEmptyRow(b)
  {
    match Apply(a, c) case None => a case Some(b) => b
  }

  /** All acknowledged updates, applied in order to one map. */
  ghost function Spec(events: seq<Event>): (a: Tablet)
    ensures NoEmptyRow(a)
  {
    if events == [] then map[]
    else
      var a, e := Spec(events[..|events| - 1]), events[|events| - 1];
      if e.Update? && e.status == OK then AppliedTo(a, e.c) else a
  }

  ghost function RowsOf(cfg: Config, a: Tablet, t: int): (b: Tablet)
    requires cfg.n >= 3
    ensures NoEmptyRow(a) ==> NoEmptyRow(b)
  {
    map r | r in a && Bucket(cfg, r) == t :: a[r]
  }

  lemma RowsOfApply(cfg: Config, a: Tablet, c: Command)
    requires cfg.n >= 3 && IsUpdate(c)
    ensures
      var t := Bucket(cfg, c.row);
      && Outcome(RowsOf(cfg, a, t), c) == Outcome(a, c)
      && (Outcome(a, c) == OK ==> Apply(RowsOf(cfg, a, t), c) == Some(RowsOf(cfg, AppliedTo(a, c), t)))
  {
    hide Bucket;
    var t := Bucket(cfg, c.row);
    var b := RowsOf(cfg, a, t);
    assert c.row in b <==> c.row in a;
    assert Cell(b, c.row, c.column) == Cell(a, c.row, c.column) && RowOf(b, c.row) == RowOf(a, c.row);
    if Outcome(a, c) == OK {
      assert Apply(b, c).value == RowsOf(cfg, Apply(a, c).value, t);
    }
  }

  lemma RowsOfOther(cfg: Config, a: Tablet, c: Command, t: int)
    requires cfg.n >= 3 && Bucket(cfg, c.row) != t
    ensures RowsOf(cfg, AppliedTo(a, c), t) == RowsOf(cfg, a, t)
  {
    hide Bucket;
  }

  // ----- Agreement -----

  ghost predicate Held(cfg: Config, s: State, t: int)
    requires WellFormed(cfg, s) && OnRing(cfg.n, t)
  {
    Leader(cfg, s, t).Some?
  }

  /** Every live holder of tablet t has table b. */
  ghost predicate LiveAgree(cfg: Config, s: State, t: int, b: Tablet)
    requires WellFormed(cfg, s)
  {
    forall w :: Holds(cfg, w, t) && s[w].up ==> SlotOf(cfg, s, w, t).tablet == b
  }

  /** The files of worker w's copy of t recover table b. */
  ghost predicate FilesGive(cfg: Config, s: State, w: int, t: int, b: Tablet)
    requires WellFormed(cfg, s) && OnRing(cfg.n, t)
  {
    Holds(cfg, w, t) && D.Recovered(SlotOf(cfg, s, w, t).checkpoint, SlotOf(cfg, s, w, t).log) == Some(b)
  }

  /** The table of t's leader; during an outage of t, the table its last leader had. */
  ghost function LastTable(cfg: Config, states: seq<State>, t: int, i: nat): Tablet
    requires i < |states| && OnRing(cfg.n, t) && forall j :: 0 <= j < |states| ==> WellFormed(cfg, states[j])
  {
    if Held(cfg, states[i], t) then SlotOf(cfg, states[i], Leader(cfg, states[i], t).value, t).tablet
    else if i == 0 then map[]
    else LastTable(cfg, states, t, i - 1)
  }

  /**
   Every outage of tablet t before state i ended with a worker whose files give the table that the last
   leader had. A tablet that always had a live holder meets this trivially.
   */
  ghost predicate GoodReturns(cfg: Config, states: seq<State>, events: seq<Event>, t: int, i: nat)
    requires Run(cfg, states, events) && OnRing(cfg.n, t) && i < |states|
  {
    forall j :: 0 <= j < i && !Held(cfg, states[j], t) && Held(cfg, states[j + 1], t) ==>
      events[j].Restart? && FilesGive(cfg, states[j], events[j].w, t, LastTable(cfg, states, t, j))
  }

  /** In every state up to i, all live holders of t have exactly the acknowledged updates of t, in order. */
  ghost predicate AlwaysAgreed(cfg: Config, states: seq<State>, events: seq<Event>, t: int, i: nat)
    requires Run(cfg, states, events) && OnRing(cfg.n, t) && i < |states|
  {
    forall k :: 0 <= k <= i ==> LiveAgree(cfg, states[k], t, RowsOf(cfg, Spec(events[..k]), t))
  }

  lemma HolderIsCandidate(cfg: Config, s: State, w: int, t: int) returns (i: nat)
    requires WellFormed(cfg, s) && Holds(cfg, w, t)
    ensures i < 3 && Candidates(cfg.n, t)[i] == w && TabletNumber(cfg.n, w, t) == i + 1
    ensures s[w].up ==> Held(cfg, s, t)
  {
    i := TabletNumber(cfg.n, w, t) - 1;
    StoredWhereRouted(cfg.n, w, t, i);
  }

  /** Every live holder other than the leader is among the workers the leader forwards to. */
  lemma LeaderReachesAll(cfg: Config, s: State, t: int, w: int)
    requires WellFormed(cfg, s) && Holds(cfg, w, t) && Held(cfg, s, t) && s[w].up
    requires w != Leader(cfg, s, t).value
    ensures w in Replicas(cfg.n, Leader(cfg, s, t).value, t)
  {
    var p := Leader(cfg, s, t).value;
    var i := HolderIsCandidate(cfg, s, p, t);
    var j := HolderIsCandidate(cfg, s, w, t);
    ForwardsToLaterCandidates(cfg.n, p, t, i);
    assert p == Candidates(cfg.n, t)[i] && forall k :: 0 <= k < i ==> Candidates(cfg.n, t)[k] !in Up(s);
    assert w in Up(s) && j > i;
    assert Candidates(cfg.n, t)[i + 1..][j - i - 1] == w;
  }

  /** An update of another tablet's row leaves tablet t alone everywhere. */
  lemma OtherTabletKept(cfg: Config, s: State, c: Command, status: Status, s': State, t: int, w: int)
    requires WellFormed(cfg, s) && WellFormed(cfg, s') && IsUpdate(c) && UpdateStep(cfg, s, c, status, s')
    requires Holds(cfg, w, t) && Bucket(cfg, c.row) != t
    ensures SlotOf(cfg, s', w, t) == SlotOf(cfg, s, w, t) && s'[w].up == s[w].up
  {
    hide Leader, Bucket, D.Updated, Outcome, Ahead, Behind, Replicas;
    var u := Bucket(cfg, c.row);
    if Leader(cfg, s, u).Some? && TabletNumber(cfg.n, w, u) != TABLET_NOT_FOUND {
      assert TabletNumber(cfg.n, w, u) != TabletNumber(cfg.n, w, t);
    }
  }

  lemma SameUpSameLeader(cfg: Config, s: State, s': State, t: int)
    requires WellFormed(cfg, s) && WellFormed(cfg, s') && OnRing(cfg.n, t)
    requires forall w :: w in s ==> s'[w].up == s[w].up
    ensures Leader(cfg, s', t) == Leader(cfg, s, t)
  {
    assert forall w :: w in Up(s') <==> w in Up(s);
    assert Up(s') == Up(s);
  }

  lemma UpdateKeepsUp(cfg: Config, s: State, c: Command, status: Status, s': State)
    requires WellFormed(cfg, s) && WellFormed(cfg, s') && IsUpdate(c) && UpdateStep(cfg, s, c, status, s')
    ensures forall w :: w in s ==> s'[w].up == s[w].up
  {
    hide Leader, D.Updated, Outcome, Replicas, TabletNumber;
  }

  /** A worker that agrees with the single map on tablet t answers and changes as the single map does. */
  lemma NodeAgrees(cfg: Config, w: int, s: Node, c: Command, s': Node, a: Tablet)
    requires cfg.n >= 3 && Holds(cfg, w, Bucket(cfg, c.row)) && |s.slots| == 3 && IsUpdate(c) && s.up
    requires s.slots[TabletNumber(cfg.n, w, Bucket(cfg, c.row)) - 1].tablet == RowsOf(cfg, a, Bucket(cfg, c.row))
    requires Effect(cfg, w, s, c, s')
    ensures Reply(cfg, w, s, c) == Outcome(a, c) && |s'.slots| == 3
    ensures s'.slots[TabletNumber(cfg.n, w, Bucket(cfg, c.row)) - 1].tablet ==
            RowsOf(cfg, if Outcome(a, c) == OK then AppliedTo(a, c) else a, Bucket(cfg, c.row))
  {
    hide Bucket, RowsOf, AppliedTo, Apply, Outcome, TabletNumber, Encodes, EncodeCommand;
    RowsOfApply(cfg, a, c);
  }

  /** One client update on tablet t: the reply is the single map's, and all live copies move with it. */
  lemma UpdateAgrees(cfg: Config, s: State, c: Command, status: Status, s': State, t: int, a: Tablet)
    requires WellFormed(cfg, s) && WellFormed(cfg, s') && IsUpdate(c) && UpdateStep(cfg, s, c, status, s')
    requires t == Bucket(cfg, c.row) && Held(cfg, s, t) && LiveAgree(cfg, s, t, RowsOf(cfg, a, t))
    ensures status == Outcome(a, c)
    ensures LiveAgree(cfg, s', t, RowsOf(cfg, if status == OK then AppliedTo(a, c) else a, t))
  {
    hide Bucket, RowsOf, AppliedTo, Outcome, Reply, Effect, Replicas, TabletNumber;
    var p := Leader(cfg, s, t).value;
    UpdateKeepsUp(cfg, s, c, status, s');
    SameUpSameLeader(cfg, s, s', t);
    NodeAgrees(cfg, p, s[p], c, s'[p], a);
    forall w | Holds(cfg, w, t) && s'[w].up
      ensures SlotOf(cfg, s', w, t).tablet == RowsOf(cfg, if status == OK then AppliedTo(a, c) else a, t)
    {
      if w != p {
        LeaderReachesAll(cfg, s, t, w);
        hide Leader;
        if status == OK {
          NodeAgrees(cfg, w, s[w], c, s'[w], a);
        }
      }
    }
  }

  /** Recovery reaches tablet t: from bytes of the leader's table, or from the copy's own files. */
  lemma RestartReaches(cfg: Config, s: State, w: int, s': State, t: int)
    requires WellFormed(cfg, s) && WellFormed(cfg, s') && w in s && !s[w].up && RestartStep(cfg, s, w, s')
    requires Holds(cfg, w, t)
    ensures s'[w].up
    ensures var before, after := SlotOf(cfg, s, w, t), SlotOf(cfg, s', w, t);
      && after == before.(tablet := after.tablet)
      && match Leader(cfg, s, t)
         case None => D.Recovered(before.checkpoint, before.log) == Some(after.tablet)
         case Some(p) => exists b :: Encodes(SlotOf(cfg, s, p, t).tablet, b) && after.tablet == Deserialize(b).table
  {
    hide Encodes, Deserialize, D.Recovered;
    var i := TabletNumber(cfg.n, w, t) - 1;
    RecoveryPairsUp(cfg.n, Up(s), w, i);
    assert RecoveryOrder(cfg.n, w)[i] == t;
    assert PlaceRestored(cfg, s, w, i, s[w].slots[i], s'[w].slots[i]);
  }

  /** What a restarting worker takes over from a live leader is the leader's table. */
  lemma RestartCopies(cfg: Config, s: State, w: int, s': State, t: int)
    requires WellFormed(cfg, s) && WellFormed(cfg, s') && w in s && !s[w].up && RestartStep(cfg, s, w, s')
    requires Holds(cfg, w, t) && Held(cfg, s, t)
    requires
      var b := SlotOf(cfg, s, Leader(cfg, s, t).value, t).tablet;
      Fits(b) && NoEmptyRow(b)
    ensures SlotOf(cfg, s', w, t).tablet == SlotOf(cfg, s, Leader(cfg, s, t).value, t).tablet
  {
    RestartReaches(cfg, s, w, s', t);
    hide Fits, Encodes, Deserialize, NoEmptyRow, Leader, TabletNumber, RestartStep;
    var b := SlotOf(cfg, s, Leader(cfg, s, t).value, t).tablet;
    var bytes :| Encodes(b, bytes) && SlotOf(cfg, s', w, t).tablet == Deserialize(bytes).table;
    RoundTrip(b, bytes);
  }

  ghost function SpecStep(a: Tablet, e: Event): Tablet {
    if e.Update? && e.status == OK then AppliedTo(a, e.c) else a
  }

  /** From a state with a live holder, every step keeps agreement. */
  lemma HeldStep(cfg: Config, s: State, e: Event, s': State, t: int, a: Tablet)
    requires WellFormed(cfg, s) && OnRing(cfg.n, t) && Next(cfg, s, e, s') && SizesFit(s) && NoEmptyRow(a)
    requires Held(cfg, s, t) && LiveAgree(cfg, s, t, RowsOf(cfg, a, t))
    ensures LiveAgree(cfg, s', t, RowsOf(cfg, SpecStep(a, e), t))
  {
    hide RowsOf, Leader, TabletNumber, UpdateStep, RestartStep;
    match e
    case Update(c, status) =>
      if Bucket(cfg, c.row) == t {
        UpdateAgrees(cfg, s, c, status, s', t, a);
      } else {
        RowsOfOther(cfg, a, c, t);
        forall w | Holds(cfg, w, t)
          ensures SlotOf(cfg, s', w, t) == SlotOf(cfg, s, w, t) && s'[w].up == s[w].up
        {
          OtherTabletKept(cfg, s, c, status, s', t, w);
        }
      }
    case Restart(w) => RestartAgrees(cfg, s, w, s', t, RowsOf(cfg, a, t));
    case _ =>
  }

  lemma RestartAgrees(cfg: Config, s: State, w: int, s': State, t: int, b: Tablet)
    requires WellFormed(cfg, s) && WellFormed(cfg, s') && OnRing(cfg.n, t) && SizesFit(s) && NoEmptyRow(b)
    requires w in s && !s[w].up && RestartStep(cfg, s, w, s')
    requires Held(cfg, s, t) && LiveAgree(cfg, s, t, b)
    ensures LiveAgree(cfg, s', t, b)
  {
    hide TabletNumber, PlaceRestored, Leader, NoEmptyRow, Fits;
    if Holds(cfg, w, t) {
      RestartCopies(cfg, s, w, s', t);
    }
  }

  /** During an outage no update of t is acknowledged, and the step that ends it is a restart. */
  lemma OutageStep(cfg: Config, s: State, e: Event, s': State, t: int, a: Tablet)
    requires WellFormed(cfg, s) && OnRing(cfg.n, t) && Next(cfg, s, e, s') && !Held(cfg, s, t)
    ensures RowsOf(cfg, SpecStep(a, e), t) == RowsOf(cfg, a, t)
    ensures Held(cfg, s', t) ==> e.Restart? && Holds(cfg, e.w, t)
  {
    hide RowsOf, Bucket, TabletNumber, RestartStep;
    match e
    case Update(c, status) =>
      UpdateKeepsUp(cfg, s, c, status, s');
      SameUpSameLeader(cfg, s, s', t);
      if Bucket(cfg, c.row) != t {
        RowsOfOther(cfg, a, c, t);
      }
    case Read(_, _, _) =>
    case _ =>
      if Held(cfg, s', t) {
        var p := Leader(cfg, s', t).value;
        hide Leader;
        if !s[p].up {
          assert e.Restart? && p == e.w by { OnlyOneChanged(cfg, s, e, s', p); }
        } else {
          var _ := HolderIsCandidate(cfg, s, p, t);
        }
      }
  }

  lemma OnlyOneChanged(cfg: Config, s: State, e: Event, s': State, p: int)
    requires WellFormed(cfg, s) && Next(cfg, s, e, s') && (e.Shutdown? || e.Kill? || e.Restart?)
    requires p in s && !s[p].up && s'[p].up
    ensures e.Restart? && p == e.w
  {
    hide PlaceRestored;
  }

  /** The worker whose restart ends an outage serves t afterwards with what its files give, and nobody else does. */
  lemma ReturnStep(cfg: Config, s: State, e: Event, s': State, t: int, b: Tablet)
    requires WellFormed(cfg, s) && OnRing(cfg.n, t) && Next(cfg, s, e, s') && !Held(cfg, s, t) && Held(cfg, s', t)
    ensures LiveAgree(cfg, s', t, b) <==> e.Restart? && FilesGive(cfg, s, e.w, t, b)
  {
    OutageStep(cfg, s, e, s', t, map[]);
    hide TabletNumber, D.Recovered, Leader, PlaceRestored;
    RestartReaches(cfg, s, e.w, s', t);
    forall v | Holds(cfg, v, t) && s'[v].up ensures v == e.w { OnlyRestarted(cfg, s, e.w, s', t, v); }
  }

  /** Without a live holder before the restart, the only one after it is the worker that restarted. */
  lemma OnlyRestarted(cfg: Config, s: State, w: int, s': State, t: int, v: int)
    requires WellFormed(cfg, s) && WellFormed(cfg, s') && w in s && !s[w].up && RestartStep(cfg, s, w, s')
    requires OnRing(cfg.n, t) && !Held(cfg, s, t) && Holds(cfg, v, t) && s'[v].up
    ensures v == w
  {
    hide Held, PlaceRestored, TabletNumber;
    if v != w {
      var _ := HolderIsCandidate(cfg, s, v, t);
    }
  }

  lemma SpecAppend(events: seq<Event>, i: nat)
    requires i < |events|
    ensures Spec(events[..i + 1]) == SpecStep(Spec(events[..i]), events[i])
  {
    assert events[..i + 1][..i] == events[..i];
  }

  lemma StartAgrees(cfg: Config, states: seq<State>, events: seq<Event>, t: int)
    requires Run(cfg, states, events) && OnRing(cfg.n, t)
    ensures LiveAgree(cfg, states[0], t, RowsOf(cfg, Spec(events[..0]), t)) && Held(cfg, states[0], t)
  {
    var s := states[0];
    assert Initial(cfg, s) && events[..0] == [] && Spec([]) == map[] && RowsOf(cfg, map[], t) == map[];
    assert Holds(cfg, t, t);
    hide Run, Spec, RowsOf, TabletNumber, Leader;
    var _ := HolderIsCandidate(cfg, s, t, t);
  }

  /** As long as the live holders agreed, the last leader's table is the one that clients believe in. */
  lemma {:induction false} LastTableIsSpec(cfg: Config, states: seq<State>, events: seq<Event>, t: int, i: nat)
    requires Run(cfg, states, events) && OnRing(cfg.n, t) && i < |states|
    requires AlwaysAgreed(cfg, states, events, t, i)
    ensures LastTable(cfg, states, t, i) == RowsOf(cfg, Spec(events[..i]), t)
  {
    hide Leader, RowsOf, Spec, TabletNumber, Next, Initial, SizesFit;
    assert LiveAgree(cfg, states[i], t, RowsOf(cfg, Spec(events[..i]), t));
    if !Held(cfg, states[i], t) {
      if i == 0 {
        StartAgrees(cfg, states, events, t);
      } else {
        LastTableIsSpec(cfg, states, events, t, i - 1);
        SpecAppend(events, i - 1);
        if Held(cfg, states[i - 1], t) {
          LastDeparture(cfg, states[i - 1], events[i - 1], states[i], t);
        } else {
          OutageStep(cfg, states[i - 1], events[i - 1], states[i], t, Spec(events[..i - 1]));
        }
      }
    }
  }

  /** The step that leaves t without a live holder is no update. */
  lemma LastDeparture(cfg: Config, s: State, e: Event, s': State, t: int)
    requires WellFormed(cfg, s) && OnRing(cfg.n, t) && Next(cfg, s, e, s') && Held(cfg, s, t) && !Held(cfg, s', t)
    ensures !e.Update?
  {
    hide TabletNumber, RestartStep, Leader;
    if e.Update? {
      UpdateKeepsUp(cfg, s, e.c, e.status, s');
      SameUpSameLeader(cfg, s, s', t);
    }
  }

  /**
   Replica agreement over whole runs, exactly. All live holders of tablet t have had the acknowledged
   updates of t applied in order, in every state up to i, if and only if every outage of t ended with a
   worker whose files still gave the last leader's table.
   */
  lemma {:induction false} ReplicaAgreement(cfg: Config, states: seq<State>, events: seq<Event>, t: int, i: nat)
    requires Run(cfg, states, events) && OnRing(cfg.n, t) && i < |states|
    ensures AlwaysAgreed(cfg, states, events, t, i) <==> GoodReturns(cfg, states, events, t, i)
  {
    hide Leader, RowsOf, Spec, SpecStep, LiveAgree, FilesGive, LastTable, Next, Initial, Held;
    if i == 0 {
      StartAgrees(cfg, states, events, t);
    } else {
      ReplicaAgreement(cfg, states, events, t, i - 1);
      if AlwaysAgreed(cfg, states, events, t, i - 1) {
        AgreementStep(cfg, states, events, t, i);
      }
    }
  }

  lemma AgreementStep(cfg: Config, states: seq<State>, events: seq<Event>, t: int, i: nat)
    requires Run(cfg, states, events) && OnRing(cfg.n, t) && 0 < i < |states|
    requires AlwaysAgreed(cfg, states, events, t, i - 1)
    ensures LiveAgree(cfg, states[i], t, RowsOf(cfg, Spec(events[..i]), t)) <==>
            (!Held(cfg, states[i - 1], t) && Held(cfg, states[i], t) ==>
               events[i - 1].Restart? && FilesGive(cfg, states[i - 1], events[i - 1].w, t, LastTable(cfg, states, t, i - 1)))
  {
    hide Leader, RowsOf, Spec, SpecStep, FilesGive, LastTable, Next, Initial, SizesFit, TabletNumber;
    var s, e, s', a := states[i - 1], events[i - 1], states[i], Spec(events[..i - 1]);
    assert LiveAgree(cfg, s, t, RowsOf(cfg, a, t));
    SpecAppend(events, i - 1);
    if Held(cfg, s, t) {
      HeldStep(cfg, s, e, s', t, a);
    } else {
      OutageStep(cfg, s, e, s', t, a);
      LastTableIsSpec(cfg, states, events, t, i - 1);
      if Held(cfg, s', t) {
        ReturnStep(cfg, s, e, s', t, RowsOf(cfg, a, t));
      } else {
        NobodyLive(cfg, s', t);
      }
    }
  }

  lemma NobodyLive(cfg: Config, s: State, t: int)
    requires WellFormed(cfg, s) && OnRing(cfg.n, t) && !Held(cfg, s, t)
    ensures forall w :: Holds(cfg, w, t) ==> !s[w].up
  {
    hide Held, TabletNumber;
    forall w | Holds(cfg, w, t) ensures !s[w].up { var _ := HolderIsCandidate(cfg, s, w, t); }
  }

  // ----- A sufficient condition: whoever leaves last is the first to return -----

  /** The last leader tablet t had: the current one, or the holder whose departure left it without one. */
  ghost function LastLeader(cfg: Config, states: seq<State>, t: int, i: nat): int
    requires i < |states| && OnRing(cfg.n, t) && forall j :: 0 <= j < |states| ==> WellFormed(cfg, states[j])
  {
    if Held(cfg, states[i], t) then Leader(cfg, states[i], t).value
    else if i == 0 then 0
    else LastLeader(cfg, states, t, i - 1)
  }

  /** The holder that leaves last has good files, and it is the first to come back. */
  ghost predicate SafeOutages(cfg: Config, states: seq<State>, events: seq<Event>, t: int, i: nat)
    requires Run(cfg, states, events) && OnRing(cfg.n, t) && i < |states|
  {
    forall j :: 0 <= j < i && !(Held(cfg, states[j], t) && Held(cfg, states[j + 1], t)) ==>
      if Held(cfg, states[j], t) then
        var p := LastLeader(cfg, states, t, j);
        Holds(cfg, p, t) && FilesGive(cfg, states[j], p, t, SlotOf(cfg, states[j], p, t).tablet)
      else
        Held(cfg, states[j + 1], t) ==> events[j] == Restart(LastLeader(cfg, states, t, j))
  }

  /** A step after which t has no live holder writes no file of t. */
  lemma FilesKept(cfg: Config, s: State, e: Event, s': State, t: int, w: int)
    requires WellFormed(cfg, s) && OnRing(cfg.n, t) && Next(cfg, s, e, s') && !Held(cfg, s', t) && Holds(cfg, w, t)
    ensures SlotOf(cfg, s', w, t).checkpoint == SlotOf(cfg, s, w, t).checkpoint && SlotOf(cfg, s', w, t).log == SlotOf(cfg, s, w, t).log
  {
    hide TabletNumber, Bucket;
    match e
    case Update(c, status) =>
      UpdateKeepsUp(cfg, s, c, status, s');
      SameUpSameLeader(cfg, s, s', t);
      hide Leader;
      if Bucket(cfg, c.row) != t {
        OtherTabletKept(cfg, s, c, status, s', t, w);
      }
    case Restart(v) =>
      hide Leader, PlaceRestored;
      NobodyLive(cfg, s', t);
    case _ =>
  }

  /** So no outage of t loses anything if whoever left last had good files and returns first. */
  lemma {:induction false} LastOutFirstIn(cfg: Config, states: seq<State>, events: seq<Event>, t: int, i: nat)
    requires Run(cfg, states, events) && OnRing(cfg.n, t) && i < |states|
    requires SafeOutages(cfg, states, events, t, i)
    ensures GoodReturns(cfg, states, events, t, i) && AlwaysAgreed(cfg, states, events, t, i)
    ensures !Held(cfg, states[i], t) ==> FilesGive(cfg, states[i], LastLeader(cfg, states, t, i), t, LastTable(cfg, states, t, i))
  {
    hide Leader, RowsOf, Spec, LiveAgree, Next, Initial, SizesFit, TabletNumber, D.Recovered;
    ReplicaAgreement(cfg, states, events, t, i);
    if i == 0 {
      StartAgrees(cfg, states, events, t);
    } else {
      LastOutFirstIn(cfg, states, events, t, i - 1);
      var last := LastLeader(cfg, states, t, i - 1);
      if !Held(cfg, states[i], t) {
        assert Holds(cfg, last, t);
        FilesKept(cfg, states[i - 1], events[i - 1], states[i], t, last);
      }
    }
  }

  /**
   Clients cannot tell the cluster from the single map: every reply on tablet t is the map's reply, or
   says that nobody is there.
   */
  lemma RepliesOfOneMap(cfg: Config, states: seq<State>, events: seq<Event>, t: int, i: nat)
    requires Run(cfg, states, events) && OnRing(cfg.n, t) && i < |events|
    requires GoodReturns(cfg, states, events, t, i)
    ensures events[i].Update? && Bucket(cfg, events[i].c.row) == t ==>
              && IsUpdate(events[i].c)
              && events[i].status == if Held(cfg, states[i], t) then Outcome(Spec(events[..i]), events[i].c) else UNAVAILABLE
    ensures events[i].Read? && Bucket(cfg, events[i].row) == t ==>
              events[i].answer == if Held(cfg, states[i], t) then Cell(Spec(events[..i]), events[i].row, events[i].column) else None
  {
    ReplicaAgreement(cfg, states, events, t, i);
    assert LiveAgree(cfg, states[i], t, RowsOf(cfg, Spec(events[..i]), t));
    assert Next(cfg, states[i], events[i], states[i + 1]);
    hide Spec, Leader, Bucket, TabletNumber, Outcome, GoodReturns, AlwaysAgreed, Run;
    ReplyOfOneMap(cfg, states[i], events[i], states[i + 1], t, Spec(events[..i]));
  }

  lemma ReplyOfOneMap(cfg: Config, s: State, e: Event, s': State, t: int, a: Tablet)
    requires WellFormed(cfg, s) && Next(cfg, s, e, s') && OnRing(cfg.n, t) && LiveAgree(cfg, s, t, RowsOf(cfg, a, t))
    ensures e.Update? && Bucket(cfg, e.c.row) == t ==>
              e.status == if Held(cfg, s, t) then Outcome(a, e.c) else UNAVAILABLE
    ensures e.Read? && Bucket(cfg, e.row) == t ==> e.answer == if Held(cfg, s, t) then Cell(a, e.row, e.column) else None
  {
    hide Leader, Bucket, TabletNumber, Outcome, Effect, Reply, Replicas;
    if e.Update? && Bucket(cfg, e.c.row) == t && Held(cfg, s, t) {
      UpdateAgrees(cfg, s, e.c, e.status, s', t, a);
    }
    if e.Read? && Bucket(cfg, e.row) == t && Held(cfg, s, t) {
      var p := Leader(cfg, s, t).value;
      assert SlotOf(cfg, s, p, t).tablet == RowsOf(cfg, a, t);
      assert Cell(RowsOf(cfg, a, t), e.row, e.column) == Cell(a, e.row, e.column);
    }
  }
}
