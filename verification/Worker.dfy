/**
 A worker: three tablets with their logs, checkpoints and counters, and the handlers that change them.
 The relations `Reply` and `Effect` say what a handler answers and leaves behind; the class below is
 proved against them.
 */
module Worker {
  import opened Options
  import opened Wire
  import opened Text
  import opened Tablets
  import opened Serializer
  import opened CommandLogger
  import opened Durability
  import opened Ring

  /** The ring size and the string hash; `std::hash` is left open. */
  datatype Config = Config(n: nat, hash: Bytes -> nat)

  datatype Status = OK | NOT_FOUND | FAILED_PRECONDITION | UNAVAILABLE | INTERNAL

  datatype Node = Node(up: bool, slots: seq<Slot>)

  function Bucket(cfg: Config, row: Bytes): (t: int)
    requires cfg.n >= 3
    ensures OnRing(cfg.n, t)
  {
    cfg.hash(row) % cfg.n + 1
  }

  /** The status a table gives a command. */
  function Outcome(t: Tablet, c: Command): (st: Status)
    requires IsUpdate(c)
    ensures st == OK <==> Apply(t, c).Some?
  {
    if c.op != "CPUT" then OK
    else
      match Cell(t, c.row, c.column)
      case None => NOT_FOUND
      case Some(v) => if v == c.value1 then OK else FAILED_PRECONDITION
  }

  /** The status a handler on worker w returns for an update. */
  function Reply(cfg: Config, w: int, s: Node, c: Command): Status
    requires OnRing(cfg.n, w) && |s.slots| == 3 && IsUpdate(c)
  {
    if !s.up then UNAVAILABLE
    else
      var k := TabletNumber(cfg.n, w, Bucket(cfg, c.row));
      if k == TABLET_NOT_FOUND then NOT_FOUND else Outcome(s.slots[k - 1].tablet, c)
  }

  /** The state a handler on worker w leaves for an update: only the tablet of the row may change. */
  ghost predicate Effect(cfg: Config, w: int, s: Node, c: Command, s': Node)
    requires OnRing(cfg.n, w) && |s.slots| == 3 && IsUpdate(c)
  {
    if Reply(cfg, w, s, c) != OK then s' == s
    else
      var k := TabletNumber(cfg.n, w, Bucket(cfg, c.row));
      s'.up && |s'.slots| == 3 && s'.slots == s.slots[k - 1 := s'.slots[k - 1]]
      && Updated(s.slots[k - 1], c, s'.slots[k - 1])
  }

  /** The slot a restarting worker ends up with: a copy of the primary's table, or what its files give. */
  ghost predicate Restored(source: Option<Tablet>, s: Slot, s': Slot) {
    && s' == s.(tablet := s'.tablet)
    && match source
       case None => Recovered(s.checkpoint, s.log) == Some(s'.tablet)
       case Some(t) => exists b :: Encodes(t, b) && s'.tablet == Deserialize(b).table
  }

  class Worker {
    const cfg: Config
    const id: int
    var up: bool
    var slots: seq<Slot>

    ghost predicate Valid()
      reads this
    {
      OnRing(cfg.n, id) && |slots| == 3
    }

    ghost function View(): Node
      reads this
    {
      Node(up, slots)
    }

    constructor (cfg: Config, id: int)
      requires OnRing(cfg.n, id)
      ensures Valid() && this.cfg == cfg && this.id == id
      ensures View() == Node(true, [EMPTY_SLOT, EMPTY_SLOT, EMPTY_SLOT])
    {
      this.cfg, this.id, up := cfg, id, true;
      slots := [EMPTY_SLOT, EMPTY_SLOT, EMPTY_SLOT];
    }

    method Get(row: Bytes, column: Bytes) returns (status: Status, value: Bytes)
      requires Valid()
      ensures !up ==> status == UNAVAILABLE
      ensures status == OK <==> up && TabletNumber(cfg.n, id, Bucket(cfg, row)) != TABLET_NOT_FOUND &&
                                Cell(slots[TabletNumber(cfg.n, id, Bucket(cfg, row)) - 1].tablet, row, column) == Some(value)
      ensures up && status != OK ==> status == NOT_FOUND
    {
      value := "";
      if !up { return UNAVAILABLE, value; }
      var k := TabletNumber(cfg.n, id, Bucket(cfg, row));
      if k == TABLET_NOT_FOUND { return NOT_FOUND, value; }
      var kvs := slots[k - 1].tablet;
      if row !in kvs { return NOT_FOUND, value; }
      if column !in kvs[row] { return NOT_FOUND, value; }
      return OK, kvs[row][column];
    }

    /** The part that all six update handlers share once the command is accepted. */
    method Commit(k: nat, c: Command, tablet: Tablet)
      requires Valid() && k < 3 && Apply(slots[k].tablet, c) == Some(tablet)
      modifies this`slots
      ensures |slots| == 3 && slots == old(slots)[k := slots[k]]
      ensures Updated(old(slots)[k], c, slots[k])
    {
      var s := slots[k].(tablet := tablet);
      var logger := new Logger(s.log);
      logger.LogCommand(c);
      s := s.(log := logger.file, count := s.count + 1);
      if s.count >= MAX_UPDATE_COUNT {
        var binaryData := SerializeTablet(tablet);
        logger.ClearLog();
        s := s.(checkpoint := binaryData, log := logger.file, count := 0);
      }
      slots := slots[k := s];
    }

    /** ReplicatePut, ReplicateCPut and ReplicateDelete, by the command they carry. */
    method Replicate(c: Command) returns (status: Status)
      requires Valid() && IsUpdate(c)
      modifies this`slots
      ensures Valid() && status == Reply(cfg, id, old(View()), c)
      ensures Effect(cfg, id, old(View()), c, View())
    {
      if !up { return UNAVAILABLE; }
      var k := TabletNumber(cfg.n, id, Bucket(cfg, c.row));
      if k == TABLET_NOT_FOUND { return NOT_FOUND; }
      var kvs := slots[k - 1].tablet;
      status := Outcome(kvs, c);
      if status == OK {
        Commit(k - 1, c, Apply(kvs, c).value);
      }
    }

    /** A client for every other worker of the ring. */
    ghost predicate Connected(peers: map<int, Worker>)
      reads this, peers.Values
    {
      && (forall w :: OnRing(cfg.n, w) && w != id ==> w in peers)
      && id !in peers
      && (forall w :: w in peers ==> peers[w].Valid() && peers[w].id == w && peers[w].cfg == cfg && peers[w] != this)
    }

    /** A peer after the forwarding: it handled the command itself, or nothing happened to it. */
    ghost predicate Forwarded(c: Command, handled: bool, before: Node)
      requires Valid() && |before.slots| == 3 && IsUpdate(c)
      reads this
    {
      if handled then Effect(cfg, id, before, c, View()) else View() == before
    }

    /** Put, CPut and Delete: the same, followed by the forwarding loop. */
    method Serve(c: Command, peers: map<int, Worker>) returns (status: Status)
      requires Valid() && IsUpdate(c) && Connected(peers)
      modifies this`slots, peers.Values`slots
      ensures Valid() && Connected(peers)
      ensures status == Reply(cfg, id, old(View()), c)
      ensures Effect(cfg, id, old(View()), c, View())
      ensures forall w :: w in peers ==>
                peers[w].Forwarded(c, status == OK && w in Replicas(cfg.n, id, Bucket(cfg, c.row)), old(peers[w].View()))
    {
      hide Reply, Effect, TabletNumber, Ahead, Behind;
      status := Replicate(c);
      if status != OK { return; }
      var replicas := Replicas(cfg.n, id, Bucket(cfg, c.row));
      ReplicasDistinct(cfg.n, id, Bucket(cfg, c.row));
      hide Replicas, Bucket;
      ghost var mine := View();
      for i := 0 to |replicas|
        invariant View() == mine && Connected(peers)
        invariant forall w :: w in peers ==> peers[w].Forwarded(c, w in replicas[..i], old(peers[w].View()))
      {
        var r := replicas[i];
        assert r !in replicas[..i] && replicas[..i + 1] == replicas[..i] + [r];
        var _ := peers[r].Replicate(c);
      }
      assert replicas[..|replicas|] == replicas;
    }

    /** The chunks of a tablet, streamed to a worker that recovers it; the stream may break. */
    method CopyTablet(t: int, broken: bool) returns (status: Status, chunks: seq<Bytes>)
      requires Valid()
      ensures status == OK <==> up && TabletNumber(cfg.n, id, t) != TABLET_NOT_FOUND && !broken
      ensures status == OK ==> Encodes(slots[TabletNumber(cfg.n, id, t) - 1].tablet, Concat(chunks))
      ensures up && TabletNumber(cfg.n, id, t) != TABLET_NOT_FOUND && broken ==> status == INTERNAL
      ensures !up ==> status == UNAVAILABLE
      ensures up && TabletNumber(cfg.n, id, t) == TABLET_NOT_FOUND ==> status == NOT_FOUND
    {
      chunks := [];
      if !up { return UNAVAILABLE, chunks; }
      var k := TabletNumber(cfg.n, id, t);
      if k == TABLET_NOT_FOUND { return NOT_FOUND, chunks; }
      var binaryData := SerializeTablet(slots[k - 1].tablet);
      chunks := CutIntoChunks(binaryData);
      if broken { return INTERNAL, chunks; }
      return OK, chunks;
    }

    method RecoverFromLocal(k: nat) returns (ok: bool)
      requires Valid() && k < 3
      modifies this`slots
      ensures |slots| == 3 && slots == old(slots)[k := slots[k]]
      ensures ok <==> Recovered(old(slots)[k].checkpoint, old(slots)[k].log).Some?
      ensures ok ==> Restored(None, old(slots)[k], slots[k])
    {
      var s := slots[k];
      var read, table := DeserializeTablet(s.checkpoint);
      if !read { return false; }
      var logger := new Logger(s.log);
      var logs := logger.GetLogs();
      ok, table := ReplayLogs(logs, table);
      slots := slots[k := s.(tablet := table)];
    }

    ghost function Views(peers: map<int, Worker>): (nodes: map<int, Node>)
      reads peers.Values
      ensures nodes.Keys == peers.Keys && forall w :: w in peers ==> nodes[w] == peers[w].View()
    {
      map w | w in peers :: peers[w].View()
    }

    /**
     One round of the recovery loop; the process dies where `ok` is false. A worker has no client for itself,
     so that a coordinator that names it makes it call through a null pointer.
     */
    method RecoverTablet(alive: set<int>, peers: map<int, Worker>, ghost i: nat, host: Option<int>, tablet: int, broken: bool)
      returns (ok: bool)
      requires Valid() && Connected(peers) && i < 3
      requires tablet == RecoveryOrder(cfg.n, id)[i] && host == Primary(cfg.n, alive, tablet)
      requires TabletNumber(cfg.n, id, tablet) == i + 1
      modifies this`slots
      ensures |slots| == 3 && slots == old(slots)[i := slots[i]]
      ensures ok <==> Survives(cfg, alive, id, i, old(slots)[i])
      ensures ok ==> Rebuilt(cfg, alive, id, Views(peers), i, broken, old(slots)[i], slots[i])
    {
      hide RecoveryOrder, TabletNumber, Recovered, Candidates, Encodes, Deserialize;
      var place := TabletNumber(cfg.n, id, tablet) - 1;
      if host == None {
        ok := RecoverFromLocal(place);
      } else {
        PrimaryHolds(cfg.n, alive, tablet);
        hide Primary;
        if host.value !in peers { return false; }
        var status, chunks := peers[host.value].CopyTablet(tablet, broken);
        var tabletString := JoinChunks(chunks);
        if status != OK {
          tabletString := CopyError(status);
          CopyErrorIsNoTable(status);
        }
        var _, table := DeserializeTablet(tabletString);
        slots := slots[place := slots[place].(tablet := table)];
        ok := true;
      }
    }

    /**
     The recovery loop: tablet by tablet, copy from the primary the coordinator names, or rebuild
     locally when it names none. A primary that is named but down, or whose stream breaks, costs the
     tablet: its error text is read as a table without rows.
     */
    method RecoverAllTablets(alive: set<int>, peers: map<int, Worker>, broken: seq<bool>) returns (ok: bool)
      requires Valid() && Connected(peers) && |broken| == 3
      modifies this`slots
      ensures Valid()
      ensures ok <==> forall i :: 0 <= i < 3 ==> Survives(cfg, alive, id, i, old(slots)[i])
      ensures ok ==> forall i :: 0 <= i < 3 ==> Rebuilt(cfg, alive, id, Views(peers), i, broken[i], old(slots)[i], slots[i])
    {
      hide Survives, Rebuilt, Primary, TabletNumber, Candidates, WorkerLookup, Behind;
      var hosts := WorkerLookup(cfg.n, alive, id);
      ghost var nodes := Views(peers);
      var tablet := id;
      for i := 0 to 3
        invariant |slots| == 3
        invariant tablet == if i < 3 then RecoveryOrder(cfg.n, id)[i] else Behind(cfg.n, RecoveryOrder(cfg.n, id)[2], 1)
        invariant Connected(peers) && Views(peers) == nodes
        invariant forall j :: i <= j < 3 ==> slots[j] == old(slots)[j]
        invariant forall j :: 0 <= j < i ==>
                    && Survives(cfg, alive, id, j, old(slots)[j])
                    && Rebuilt(cfg, alive, id, nodes, j, broken[j], old(slots)[j], slots[j])
      {
        RecoveryPairsUp(cfg.n, alive, id, i);
        ok := RecoverTablet(alive, peers, i, hosts[i], tablet, broken[i]);
        if !ok { return; }
        assert forall w :: w in peers ==> peers[w].View() == nodes[w];
        assert Views(peers) == nodes;
        tablet := Behind(cfg.n, tablet, 1);
      }
      return true;
    }
  }

  /** What the copying client returns in place of the bytes when the call failed. */
  function CopyError(status: Status): Bytes {
    match status
    case UNAVAILABLE => "ERR 14: Worker is shut down\n"
    case INTERNAL => "ERR 13: Stream write failed\n"
    case _ => "ERR 5: Key does not belong in this worker\n"
  }

  /** The reader takes the error text for a table, fails at the first row, and leaves the table empty. */
  lemma CopyErrorIsNoTable(status: Status)
    requires status == UNAVAILABLE || status == INTERNAL
    ensures Deserialize(CopyError(status)) == Decoded(false, map[], CopyError(status)[4..])
  {
    var b := CopyError(status);
    assert |b| == 28 && b[0] == 'E' && b[7] == ' ';
    TextIsNoTable(b);
  }

  /** A short text whose eighth byte makes the first row's name too long. */
  lemma TextIsNoTable(b: Bytes)
    requires 8 <= |b| < 100 && b[0] == 'E' && b[7] == ' '
    ensures Deserialize(b) == Decoded(false, map[], b[4..])
  {
    var rest := b[4..];
    assert b[..4][0] == 'E' && rest[..4][3] == ' ';
    assert UnLe32(b[..4]) >= 1 && UnLe32(rest[..4]) >= 16777216 * 32;
    hide UnLe32, SetCell, DecodeEntries;
  }

  /** Recovery of place i gets through: it is not sent to itself, and if it is sent to nobody its files are good. */
  ghost predicate Survives(cfg: Config, alive: set<int>, w: int, i: nat, s: Slot)
    requires OnRing(cfg.n, w) && i < 3
  {
    match Primary(cfg.n, alive, RecoveryOrder(cfg.n, w)[i])
    case None => Recovered(s.checkpoint, s.log).Some?
    case Some(p) => p != w
  }

  /** The primary that place i would be copied from, if one is named, is up and its stream holds. */
  ghost predicate Delivers(cfg: Config, alive: set<int>, w: int, nodes: map<int, Node>, i: nat, broken: bool)
    requires OnRing(cfg.n, w) && i < 3
    requires forall p :: OnRing(cfg.n, p) && p != w ==> p in nodes
  {
    match Primary(cfg.n, alive, RecoveryOrder(cfg.n, w)[i])
    case None => true
    case Some(p) => PrimaryHolds(cfg.n, alive, RecoveryOrder(cfg.n, w)[i]); p != w && nodes[p].up && !broken
  }

  /** The table that place i of restarting worker w is copied from, if another holder of its tablet is named. */
  ghost function SourceOf(cfg: Config, alive: set<int>, w: int, nodes: map<int, Node>, i: nat): Option<Tablet>
    requires OnRing(cfg.n, w) && i < 3
    requires forall p :: OnRing(cfg.n, p) && p != w ==> p in nodes && |nodes[p].slots| == 3
  {
    var t := RecoveryOrder(cfg.n, w)[i];
    match Primary(cfg.n, alive, t)
    case None => None
    case Some(p) =>
      PrimaryHolds(cfg.n, alive, t);
      if p == w then None else Some(nodes[p].slots[TabletNumber(cfg.n, p, t) - 1].tablet)
  }

  /** Place i after recovery: restored, or without rows where the named primary did not deliver. */
  ghost predicate Rebuilt(cfg: Config, alive: set<int>, w: int, nodes: map<int, Node>, i: nat, broken: bool, s: Slot, s': Slot)
    requires OnRing(cfg.n, w) && i < 3
    requires forall p :: OnRing(cfg.n, p) && p != w ==> p in nodes && |nodes[p].slots| == 3
  {
    if Delivers(cfg, alive, w, nodes, i, broken) then Restored(SourceOf(cfg, alive, w, nodes, i), s, s')
    else s' == s.(tablet := map[])
  }

  lemma ReplicasDistinct(n: nat, w: int, t: int)
    requires OnRing(n, w)
    ensures forall i :: 0 <= i < |Replicas(n, w, t)| ==> OnRing(n, Replicas(n, w, t)[i]) && Replicas(n, w, t)[i] != w
    ensures forall i, j :: 0 <= i < j < |Replicas(n, w, t)| ==> Replicas(n, w, t)[i] != Replicas(n, w, t)[j]
  {
  }

  lemma PrimaryHolds(n: nat, alive: set<int>, t: int)
    requires OnRing(n, t) && Primary(n, alive, t).Some?
    ensures
      var p := Primary(n, alive, t).value;
      OnRing(n, p) && p in alive && 1 <= TabletNumber(n, p, t) <= 3 && Candidates(n, t)[TabletNumber(n, p, t) - 1] == p
  {
    var p := Primary(n, alive, t).value;
    var i :| 0 <= i < 3 && Candidates(n, t)[i] == p;
    StoredWhereRouted(n, p, t, i);
  }
}
