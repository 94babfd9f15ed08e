/** Ownership of the field nodes at one gateway: registry, epochs, heartbeat merge, takeover, checkpoint. */
module GatewayOwnership {
  import opened Wrappers

  datatype Gateway = A1 | A2

  datatype Node = B1 | C1 | B2 | C2

  datatype Role = ACTIVE | STANDBY

  datatype Row = Row(owner: Gateway, epoch: int)

  type Registry = rows: map<Node, Row> | forall n: Node :: n in rows witness Seeded()

  const INITIAL := 1

  function Peer(g: Gateway): Gateway {
    if g == A1 then A2 else A1
  }

  function FourRows(zone1: Row, zone2: Row): (r: map<Node, Row>)
    ensures forall n: Node :: n in r && r[n] == if n == B1 || n == C1 then zone1 else zone2
  {
    var r := map[B1 := zone1, C1 := zone1, B2 := zone2, C2 := zone2];
    AllNodes(r.Keys);
    r
  }

  lemma AllNodes(s: set<Node>)
    requires B1 in s && C1 in s && B2 in s && C2 in s
    ensures forall n: Node :: n in s
  {
    forall n: Node ensures n in s {
      match n case B1 => case C1 => case B2 => case C2 =>
    }
  }

  /** Every gateway knows the same four nodes at start. */
  function Seeded(): map<Node, Row> {
    FourRows(Row(A1, INITIAL), Row(A2, INITIAL))
  }

  datatype Checkpoint = Checkpoint(id: Gateway, epoch: int, peerEpoch: int, role: Role, rows: map<Node, Row>)

  /** An authenticated heartbeat or handshake reply of the peer. */
  datatype Heartbeat = Heartbeat(epoch: int, role: Role, snapshot: map<Node, Row>)

  datatype State = State(id: Gateway, epoch: int, peerEpoch: int, role: Role, rows: Registry,
                         fault: bool, recovering: bool, savedRole: Role, disk: Option<Checkpoint>)

  predicate Owns(g: State, n: Node) {
    g.rows[n].owner == g.id
  }

  predicate MayControl(g: State, n: Node) {
    g.role == ACTIVE && Owns(g, n)
  }

  function OwnedBy(rows: map<Node, Row>, g: Gateway): set<Node> {
    set n | n in rows && rows[n].owner == g
  }

  function Moved(rows: Registry, nodes: set<Node>, row: Row): Registry {
    map n: Node | true :: if n in nodes then row else rows[n]
  }

  /** What a gateway tells its peer: its epoch, its role and the nodes it owns. */
  function Claim(g: State): Heartbeat {
    Heartbeat(g.epoch, g.role, map n | n in g.rows && g.rows[n].owner == g.id :: g.rows[n])
  }

  // ---- the checkpoint ------------------------------------------------------------------------------

  predicate Validates(saved: Checkpoint, id: Gateway) {
    && saved.id == id && saved.epoch >= 1 && saved.peerEpoch >= 0
    && (forall n: Node :: n in saved.rows)
    && (forall n :: n in saved.rows ==> saved.rows[n].epoch >= 1)
    && (forall n :: n in saved.rows && saved.rows[n].owner == id ==> saved.rows[n].epoch == saved.epoch)
    && saved.rows[B1] == saved.rows[C1] && saved.rows[B2] == saved.rows[C2]
  }

  function CheckpointOf(g: State): Checkpoint {
    Checkpoint(g.id, g.epoch, g.peerEpoch, g.role, g.rows)
  }

  /** A failed save demotes the gateway for good. */
  function Persisted(g: State, o: SaveOutcome): State {
    if g.fault then g
    else
      var d := if o == LostUnapplied then g.disk else Some(CheckpointOf(g));
      if o == Committed then g.(disk := d) else g.(disk := d, fault := true, role := STANDBY)
  }

  function Blank(id: Gateway, disk: Option<Checkpoint>): State {
    State(id, INITIAL, 0, ACTIVE, Seeded(), false, false, ACTIVE, disk)
  }

  /** A start of the gateway; a restored one waits for evidence before it controls anything. */
  function Started(id: Gateway, disk: Option<Checkpoint>, readable: bool, o: SaveOutcome): State {
    var g := Blank(id, disk);
    if !readable || (disk.Some? && !Validates(disk.value, id)) then g.(fault := true, role := STANDBY)
    else if disk == None then Persisted(g, o)
    else
      var saved := disk.value;
      g.(epoch := saved.epoch, peerEpoch := saved.peerEpoch, savedRole := saved.role, role := STANDBY,
         recovering := true, rows := saved.rows)
  }

  // ---- heartbeat -----------------------------------------------------------------------------------

  predicate Acceptable(id: Gateway, peerEpoch: int, h: Heartbeat) {
    && h.epoch >= 1 && h.epoch >= peerEpoch
    && (B1 in h.snapshot <==> C1 in h.snapshot) && (B2 in h.snapshot <==> C2 in h.snapshot)
    && (B1 in h.snapshot && C1 in h.snapshot ==> h.snapshot[B1] == h.snapshot[C1])
    && (B2 in h.snapshot && C2 in h.snapshot ==> h.snapshot[B2] == h.snapshot[C2])
    && forall n :: n in h.snapshot ==> h.snapshot[n].owner == Peer(id) && 1 <= h.snapshot[n].epoch <= h.epoch
  }

  /** Peer claims advance a known node, they never compete at the same epoch. */
  function Learned(rows: Registry, snapshot: map<Node, Row>): Registry {
    map n: Node | true :: if n in snapshot && rows[n].epoch < snapshot[n].epoch then snapshot[n] else rows[n]
  }

  /** Both gateways claim a node at one epoch and the peer is active. */
  predicate Conflict(g: State, h: Heartbeat) {
    h.role == ACTIVE && Overlap(g.id, g.rows, h.snapshot)
  }

  predicate Overlap(id: Gateway, rows: Registry, snapshot: map<Node, Row>) {
    exists n :: n in snapshot && Competes(id, rows[n], snapshot[n])
  }

  predicate Competes(id: Gateway, mine: Row, theirs: Row) {
    mine.owner == id && mine.epoch == theirs.epoch
  }

  /** Role after the merge; a restored gateway resumes its role unless the evidence forbids it. */
  function RoleAfter(g: State, conflict: bool): Role {
    var role := if conflict || g.peerEpoch > g.epoch then STANDBY else g.role;
    if g.recovering && !conflict && !g.fault && g.savedRole == ACTIVE && g.peerEpoch <= g.epoch then ACTIVE else role
  }

  function Merged(g: State, h: Heartbeat): State {
    var m := g.(rows := Learned(g.rows, h.snapshot), peerEpoch := h.epoch);
    m.(role := RoleAfter(m, Conflict(m, h)), recovering := false)
  }

  function Heard(g: State, h: Heartbeat, o: SaveOutcome): (State, bool) {
    if !Acceptable(g.id, g.peerEpoch, h) then (g, false) else (Persisted(Merged(g, h), o), true)
  }

  // ---- takeover ------------------------------------------------------------------------------------

  function TakenOver(g: State): State {
    var epoch := (if g.epoch > g.peerEpoch then g.epoch else g.peerEpoch) + 1;
    g.(epoch := epoch, role := ACTIVE, rows := FourRows(Row(g.id, epoch), Row(g.id, epoch)), recovering := false)
  }

  /** The peer is considered gone; a delayed timeout of a fenced peer creates no further epoch. */
  function Failover(g: State, o: SaveOutcome): State {
    if g.fault then g
    else if OwnedBy(g.rows, Peer(g.id)) == {} && g.role == ACTIVE && g.epoch > g.peerEpoch && !g.recovering then g
    else Persisted(TakenOver(g), o)
  }

  // ---- the objects ---------------------------------------------------------------------------------

  class OwnershipManager {
    const id: Gateway
    var epoch: int
    var peerEpoch: int
    var role: Role
    var rows: Registry

    constructor (id: Gateway)
      ensures this.id == id && epoch == INITIAL && peerEpoch == 0 && role == ACTIVE && rows == Seeded()
    {
      this.id := id;
      epoch, peerEpoch, role, rows := INITIAL, 0, ACTIVE, Seeded();
    }

    /** Nodes move to an owner at an epoch. */
    method Transfer(nodes: set<Node>, row: Row)
      modifies this`rows
      ensures rows == Moved(old(rows), nodes, row)
    {
      var todo := nodes;
      while todo != {}
        invariant todo <= nodes && rows == Moved(old(rows), nodes - todo, row)
        decreases todo
      {
        var n :| n in todo;
        rows, todo := rows[n := row], todo - {n};
      }
      assert nodes - {} == nodes;
    }

    /** Whether some node is claimed by both gateways at one epoch. */
    method Overlaps(snapshot: map<Node, Row>) returns (r: bool)
      ensures r <==> Overlap(id, rows, snapshot)
    {
      hide Competes;
      var todo := snapshot.Keys;
      r := false;
      while todo != {}
        invariant todo <= snapshot.Keys
        invariant r <==> exists n :: n in snapshot && n !in todo && Competes(id, rows[n], snapshot[n])
        decreases todo
      {
        var n :| n in todo;
        r, todo := r || Competes(id, rows[n], snapshot[n]), todo - {n};
      }
    }

    /** takeover: the peer's nodes at a new epoch. */
    method Takeover(nodes: set<Node>)
      modifies this
      ensures epoch == (if old(epoch) > old(peerEpoch) then old(epoch) else old(peerEpoch)) + 1
      ensures role == ACTIVE && peerEpoch == old(peerEpoch) && rows == Moved(old(rows), nodes, Row(id, epoch))
    {
      epoch := (if epoch > peerEpoch then epoch else peerEpoch) + 1;
      role := ACTIVE;
      Transfer(nodes, Row(id, epoch));
    }

    /** observe_peer: a peer that is offline never demotes, nothing here promotes. */
    method ObservePeer(online: bool, generation: Option<int>) returns (result: Role)
      modifies this`peerEpoch, this`role
      ensures peerEpoch == if generation.Some? && generation.value > old(peerEpoch) then generation.value
              else old(peerEpoch)
      ensures role == (if online && peerEpoch > epoch then STANDBY else old(role)) && result == role
    {
      if generation.Some? && generation.value > peerEpoch {
        peerEpoch := generation.value;
      }
      if online && peerEpoch > epoch {
        role := STANDBY;
      }
      result := role;
    }
  }

  class GatewayNode {
    const ownership: OwnershipManager
    var fault: bool
    var recovering: bool
    var savedRole: Role
    var disk: Option<Checkpoint>

    ghost function View(): State
      reads this, ownership
    {
      State(ownership.id, ownership.epoch, ownership.peerEpoch, ownership.role, ownership.rows,
            fault, recovering, savedRole, disk)
    }

    constructor (id: Gateway, disk: Option<Checkpoint>, readable: bool, o: SaveOutcome)
      ensures View() == Started(id, disk, readable, o) && fresh(ownership)
    {
      var own := new OwnershipManager(id);
      ownership, fault, recovering, savedRole, this.disk := own, false, false, ACTIVE, disk;
      new;
      if !readable || (disk.Some? && !Validates(disk.value, id)) {
        fault, own.role := true, STANDBY;
      } else if disk == None {
        Persist(o);
      } else {
        var saved := disk.value;
        own.epoch, own.peerEpoch, savedRole := saved.epoch, saved.peerEpoch, saved.role;
        own.role, recovering := STANDBY, true;
        RestoreRows(saved.rows);
      }
    }

    /** The rows of a checkpoint, transferred one by one. */
    method RestoreRows(saved: Registry)
      modifies ownership`rows
      ensures ownership.rows == saved
    {
      var todo := saved.Keys;
      while todo != {}
        invariant todo <= saved.Keys
        invariant forall n :: n in saved && n !in todo ==> ownership.rows[n] == saved[n]
        decreases todo
      {
        var n :| n in todo;
        ownership.Transfer({n}, saved[n]);
        todo := todo - {n};
      }
      assert ownership.rows == saved;
    }

    method Persist(o: SaveOutcome)
      modifies this, ownership`role
      ensures View() == Persisted(old(View()), o)
    {
      if fault {
        return;
      }
      if o != LostUnapplied {
        disk := Some(Checkpoint(ownership.id, ownership.epoch, ownership.peerEpoch, ownership.role, ownership.rows));
      }
      if o != Committed {
        fault, ownership.role := true, STANDBY;
      }
    }

    /** The claims of the peer that are newer than what the registry holds. */
    method Learn(snapshot: map<Node, Row>)
      modifies ownership`rows
      ensures ownership.rows == Learned(old(ownership.rows), snapshot)
    {
      ghost var was := ownership.rows;
      var todo := snapshot.Keys;
      while todo != {}
        invariant todo <= snapshot.Keys
        invariant forall n: Node :: ownership.rows[n] == if n in todo then was[n] else Learned(was, snapshot)[n]
        decreases todo
      {
        var n :| n in todo;
        if ownership.rows[n].epoch < snapshot[n].epoch {
          ownership.Transfer({n}, snapshot[n]);
        }
        todo := todo - {n};
      }
      assert ownership.rows == Learned(was, snapshot);
    }

    /** _on_peer_heartbeat. */
    method OnPeerHeartbeat(h: Heartbeat, o: SaveOutcome) returns (accepted: bool)
      modifies this, ownership
      ensures (View(), accepted) == Heard(old(View()), h, o)
    {
      hide Overlap, Learned, Persisted;
      if !Acceptable(ownership.id, ownership.peerEpoch, h) {
        return false;
      }
      Learn(h.snapshot);
      var conflict := false;
      if h.role == ACTIVE {
        conflict := ownership.Overlaps(h.snapshot);
      }
      var role := ownership.ObservePeer(true, Some(h.epoch));
      if conflict {
        ownership.role := STANDBY;
      }
      if recovering {
        if !conflict && !fault && savedRole == ACTIVE && ownership.peerEpoch <= ownership.epoch {
          ownership.role := ACTIVE;
        }
        recovering := false;
      }
      Persist(o);
      accepted := true;
    }

    /** _takeover. */
    method TakeOver(o: SaveOutcome)
      modifies this, ownership
      ensures View() == Failover(old(View()), o)
    {
      hide Persisted, OwnedBy, Moved, FourRows;
      if fault {
        return;
      }
      var nodes := OwnedBy(ownership.rows, Peer(ownership.id));
      if nodes == {} && ownership.role == ACTIVE && ownership.epoch > ownership.peerEpoch && !recovering {
        return;
      }
      ownership.Takeover(nodes);
      var mine := OwnedBy(ownership.rows, ownership.id);
      ownership.Transfer(mine, Row(ownership.id, ownership.epoch));
      AllMoved(old(ownership.rows), ownership.id, Row(ownership.id, ownership.epoch));
      recovering := false;
      Persist(o);
    }
  }

  /** Taking the peer's nodes and then renewing all own ones puts every node at the new epoch. */
  lemma AllMoved(rows: Registry, id: Gateway, row: Row)
    requires row.owner == id
    ensures var taken := Moved(rows, OwnedBy(rows, Peer(id)), row);
            Moved(taken, OwnedBy(taken, id), row) == FourRows(row, row)
  {
    var taken := Moved(rows, OwnedBy(rows, Peer(id)), row);
    var all := Moved(taken, OwnedBy(taken, id), row);
    forall n: Node ensures all[n] == row {
      assert n in rows && (rows[n].owner == id || rows[n].owner == Peer(id));
    }
  }
}
