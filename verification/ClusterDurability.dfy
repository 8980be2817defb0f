/**
 Every tablet copy inside a run of the cluster is a run of the slot machine, so what is proved of one
 slot holds of all of them.
 */
module ClusterDurability {
  import opened Tablets
  import opened Serializer
  import opened CommandLogger
  import D = Durability
  import opened Ring
  import opened Worker
  import opened Cluster

  /** Worker w's copy of tablet t as a state of the slot machine. */
  ghost function CopyOf(cfg: Config, s: State, w: int, t: int): D.State
    requires WellFormed(cfg, s) && Holds(cfg, w, t)
  {
    D.State(SlotOf(cfg, s, w, t), s[w].up)
  }

  lemma StepOfCopy(cfg: Config, s: State, e: Event, s': State, w: int, t: int) returns (d: D.Event)
    requires WellFormed(cfg, s) && Next(cfg, s, e, s') && SizesFit(s') && Holds(cfg, w, t)
    ensures D.Next(CopyOf(cfg, s, w, t), d, CopyOf(cfg, s', w, t))
    ensures d.Crash? <==> e == Kill(w)
    ensures d.Copy? ==> e == Restart(w) && Held(cfg, s, t)
  {
    hide Leader, TabletNumber, UpdateStep, RestartStep, Fits, CommandFits, D.Recovered, D.Updated, NoEmptyRow;
    match e
    case Update(c, status) =>
      d := UpdateOfCopy(cfg, s, c, status, s', w, t);
    case Read(_, _, _) => d := D.Stay;
    case Shutdown(v) => d := if v == w then D.Stop else D.Stay;
    case Kill(v) => d := if v == w then D.Crash else D.Stay;
    case Restart(v) =>
      if v == w {
        d := RestartOfCopy(cfg, s, w, s', t);
      } else {
        assert s'[w] == s[w] by { OthersStay(cfg, s, v, s', w); }
        d := D.Stay;
      }
  }

  lemma OthersStay(cfg: Config, s: State, v: int, s': State, w: int)
    requires WellFormed(cfg, s) && WellFormed(cfg, s') && v in s && !s[v].up && RestartStep(cfg, s, v, s')
    requires w in s && w != v
    ensures s'[w] == s[w]
  {
  }

  lemma RestartOfCopy(cfg: Config, s: State, w: int, s': State, t: int) returns (d: D.Event)
    requires WellFormed(cfg, s) && WellFormed(cfg, s') && SizesFit(s')
    requires w in s && !s[w].up && RestartStep(cfg, s, w, s') && Holds(cfg, w, t)
    ensures D.Next(CopyOf(cfg, s, w, t), d, CopyOf(cfg, s', w, t))
    ensures d.Local? || (d.Copy? && Held(cfg, s, t))
  {
    hide Leader, TabletNumber, RestartStep, Fits, D.Recovered, NoEmptyRow, Deserialize, Encodes;
    RestartReaches(cfg, s, w, s', t);
    var table := SlotOf(cfg, s', w, t).tablet;
    if Held(cfg, s, t) {
      var b := SlotOf(cfg, s, Leader(cfg, s, t).value, t).tablet;
      var bytes :| Encodes(b, bytes) && table == Deserialize(bytes).table;
      D.RecoveredHasNoEmptyRow(bytes, []);
      assert Fits(table);
      d := D.Copy(table);
    } else {
      d := D.Local;
    }
  }

  lemma UpdateOfCopy(cfg: Config, s: State, c: Command, status: Status, s': State, w: int, t: int) returns (d: D.Event)
    requires WellFormed(cfg, s) && WellFormed(cfg, s') && IsUpdate(c) && CommandFits(c) && SizesFit(s')
    requires UpdateStep(cfg, s, c, status, s') && Holds(cfg, w, t)
    ensures D.Next(CopyOf(cfg, s, w, t), d, CopyOf(cfg, s', w, t))
    ensures d.Stay? || d.Accept?
  {
    if Bucket(cfg, c.row) != t {
      OtherTabletKept(cfg, s, c, status, s', t, w);
      d := D.Stay;
    } else {
      hide Leader, Bucket, TabletNumber, Outcome, Replicas, CommandFits, D.Updated;
      assert s'[w] == s[w] || Effect(cfg, w, s[w], c, s'[w]);
      if s'[w] == s[w] {
        d := D.Stay;
      } else {
        d := D.Accept(c);
        hide Fits;
        assert Fits(SlotOf(cfg, s', w, t).tablet);
      }
    }
  }

  ghost function CopiesOf(cfg: Config, states: seq<State>, w: int, t: int): (cs: seq<D.State>)
    requires Holds(cfg, w, t) && forall i :: 0 <= i < |states| ==> WellFormed(cfg, states[i])
    ensures |cs| == |states| && forall i :: 0 <= i < |states| ==> cs[i] == CopyOf(cfg, states[i], w, t)
  {
    seq(|states|, i requires 0 <= i < |states| => CopyOf(cfg, states[i], w, t))
  }

  ghost function Kills(events: seq<Event>, w: int): nat {
    if events == [] then 0 else Kills(events[..|events| - 1], w) + if events[|events| - 1] == Kill(w) then 1 else 0
  }

  /** Slot event d is what step i of the cluster does to the copy. */
  ghost predicate Mirrors(cfg: Config, s: State, e: Event, s': State, w: int, t: int, d: D.Event)
    requires WellFormed(cfg, s) && WellFormed(cfg, s') && Holds(cfg, w, t)
  {
    && D.Next(CopyOf(cfg, s, w, t), d, CopyOf(cfg, s', w, t))
    && (d.Crash? <==> e == Kill(w))
    && (d.Copy? ==> e == Restart(w) && Held(cfg, s, t))
  }

  lemma {:induction false} MirrorPrefix(cfg: Config, states: seq<State>, events: seq<Event>, w: int, t: int, n: nat)
    returns (ds: seq<D.Event>)
    requires Run(cfg, states, events) && Holds(cfg, w, t) && n <= |events|
    ensures |ds| == n && forall i :: 0 <= i < n ==> Mirrors(cfg, states[i], events[i], states[i + 1], w, t, ds[i])
  {
    hide Next, Leader, D.Next, CopyOf, Initial, SizesFit, Holds, WellFormed;
    if n == 0 {
      ds := [];
    } else {
      ds := MirrorPrefix(cfg, states, events, w, t, n - 1);
      var d := StepOfCopy(cfg, states[n - 1], events[n - 1], states[n], w, t);
      assert Mirrors(cfg, states[n - 1], events[n - 1], states[n], w, t, d);
      hide Mirrors;
      ds := ds + [d];
    }
  }

  /** The run of one copy, with its crashes and remote copies where the cluster had them. */
  lemma RunOfCopy(cfg: Config, states: seq<State>, events: seq<Event>, w: int, t: int) returns (ds: seq<D.Event>)
    requires Run(cfg, states, events) && Holds(cfg, w, t)
    ensures D.Run(CopiesOf(cfg, states, w, t), ds)
    ensures CopiesOf(cfg, states, w, t)[0] == D.State(D.EMPTY_SLOT, true)
    ensures forall i :: 0 <= i < |ds| ==> Mirrors(cfg, states[i], events[i], states[i + 1], w, t, ds[i])
  {
    assert CopyOf(cfg, states[0], w, t) == D.State(D.EMPTY_SLOT, true);
    hide Next, Leader, D.Next, CopyOf, Initial, SizesFit, Holds, WellFormed;
    ds := MirrorPrefix(cfg, states, events, w, t, |events|);
    var cs := CopiesOf(cfg, states, w, t);
    forall i | 0 <= i < |ds| ensures D.Next(cs[i], ds[i], cs[i + 1]) {
      assert Mirrors(cfg, states[i], events[i], states[i + 1], w, t, ds[i]);
    }
  }

  /**
   In every run of the cluster, a copy whose worker never came back while the tablet had a live
   leader is durable in every state: its files recover, and give the live table while it serves.
   */
  lemma LocalCopiesAreDurable(cfg: Config, states: seq<State>, events: seq<Event>, w: int, t: int, i: nat)
    requires Run(cfg, states, events) && Holds(cfg, w, t) && i < |states|
    requires forall j :: 0 <= j < i && events[j] == Restart(w) ==> !Held(cfg, states[j], t)
    ensures D.Durable(CopyOf(cfg, states[i], w, t))
  {
    hide D.Durable, D.Next, Next, Leader, CopyOf, Holds, WellFormed;
    var ds := RunOfCopy(cfg, states, events, w, t);
    forall j | 0 <= j < i ensures !ds[j].Copy? {
      assert Mirrors(cfg, states[j], events[j], states[j + 1], w, t, ds[j]);
    }
    D.LocalRunsAreDurable(CopiesOf(cfg, states, w, t), ds, i);
  }

  lemma {:induction false} CrashesAreKills(ds: seq<D.Event>, events: seq<Event>, w: int)
    requires |ds| == |events| && forall i :: 0 <= i < |ds| ==> (ds[i].Crash? <==> events[i] == Kill(w))
    ensures D.Crashes(ds) == Kills(events, w)
    decreases |ds|
  {
    if ds != [] {
      CrashesAreKills(ds[..|ds| - 1], events[..|ds| - 1], w);
    }
  }

  /** The log of a copy stays short in every run: at most nine commands for each process its worker has had. */
  lemma LogsStayShort(cfg: Config, states: seq<State>, events: seq<Event>, w: int, t: int, i: nat)
    requires Run(cfg, states, events) && Holds(cfg, w, t) && i < |states|
    ensures SlotOf(cfg, states[i], w, t).count < D.MAX_UPDATE_COUNT
    ensures |ParseLog(SlotOf(cfg, states[i], w, t).log)| <= 9 * (Kills(events[..i], w) + 1)
  {
    hide D.Next, Next, Leader, ParseLog;
    var ds := RunOfCopy(cfg, states, events, w, t);
    D.LogStaysShort(CopiesOf(cfg, states, w, t), ds, i);
    forall j | 0 <= j < i ensures ds[j].Crash? <==> events[j] == Kill(w) {
      assert Mirrors(cfg, states[j], events[j], states[j + 1], w, t, ds[j]);
    }
    CrashesAreKills(ds[..i], events[..i], w);
  }
}
