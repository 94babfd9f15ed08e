/** Two gateways and their messages: what every reachable state keeps, and what an exchange settles. */
module GatewayTheorems {
  import opened Wrappers
  import opened GatewayOwnership

  // ---- one gateway -----------------------------------------------------------------------------------

  predicate Paired(rows: map<Node, Row>) {
    (forall n: Node :: n in rows) && rows[B1] == rows[C1] && rows[B2] == rows[C2]
  }

  function AtLeastOne(e: int): int {
    if e < INITIAL then INITIAL else e
  }

  /** Own rows carry the own epoch, rows of the peer an epoch the peer has announced. */
  predicate RowsFit(id: Gateway, epoch: int, peerEpoch: int, rows: map<Node, Row>) {
    forall n: Node :: n in rows && 1 <= rows[n].epoch
      && (if rows[n].owner == id then rows[n].epoch == epoch else rows[n].epoch <= AtLeastOne(peerEpoch))
  }

  predicate DiskFits(id: Gateway, d: Option<Checkpoint>) {
    d.Some? ==> Validates(d.value, id) && RowsFit(id, d.value.epoch, d.value.peerEpoch, d.value.rows)
  }

  function Durable(d: Option<Checkpoint>): int {
    if d.Some? then d.value.epoch else 0
  }

  ghost predicate GatewayInv(g: State) {
    && Paired(g.rows) && RowsFit(g.id, g.epoch, g.peerEpoch, g.rows) && g.epoch >= 1 && g.peerEpoch >= 0
    && DiskFits(g.id, g.disk)
    && if g.fault then g.role == STANDBY && !MayAct(g) else g.disk.Some? && g.disk.value.epoch == g.epoch
  }

  ghost predicate MayAct(g: State) {
    exists n: Node :: MayControl(g, n)
  }

  lemma SaveValidates(g: State)
    requires Paired(g.rows) && RowsFit(g.id, g.epoch, g.peerEpoch, g.rows) && g.epoch >= 1 && g.peerEpoch >= 0
    ensures DiskFits(g.id, Some(CheckpointOf(g)))
  {
  }

  /** Before and after a save that may fail either way. */
  lemma PersistKeeps(g: State, o: SaveOutcome)
    requires Paired(g.rows) && RowsFit(g.id, g.epoch, g.peerEpoch, g.rows) && g.epoch >= 1 && g.peerEpoch >= 0
    requires DiskFits(g.id, g.disk) && (g.fault ==> g.role == STANDBY)
    ensures GatewayInv(Persisted(g, o))
  {
    hide Paired, RowsFit, DiskFits;
    SaveValidates(g);
  }

  lemma StartKeeps(id: Gateway, d: Option<Checkpoint>, readable: bool, o: SaveOutcome)
    requires DiskFits(id, d)
    ensures GatewayInv(Started(id, d, readable, o))
    ensures Durable(d) <= Durable(Started(id, d, readable, o).disk)
    ensures Started(id, d, readable, o).peerEpoch == 0
            || (d.Some? && Started(id, d, readable, o).peerEpoch == d.value.peerEpoch)
    ensures Started(id, d, readable, o).disk == d
            || (d == None && Started(id, d, readable, o).disk.value.peerEpoch == 0)
  {
    hide Persisted;
    SeedFits(id);
    PersistKeeps(Blank(id, d), o);
    PersistBlank(id, d, o);
    if d.Some? {
      assert Validates(d.value, id);
    }
  }

  lemma SeedFits(id: Gateway)
    ensures Paired(Seeded()) && RowsFit(id, INITIAL, 0, Seeded())
  {
  }

  lemma PersistBlank(id: Gateway, d: Option<Checkpoint>, o: SaveOutcome)
    requires DiskFits(id, d)
    ensures var p := Persisted(Blank(id, d), o);
            p.peerEpoch == 0 && (p.disk == d || (p.disk.Some? && p.disk.value.peerEpoch == 0))
    ensures d == None ==> Durable(d) <= Durable(Persisted(Blank(id, d), o).disk)
  {
  }

  lemma LearnedFits(g: State, h: Heartbeat)
    requires Paired(g.rows) && RowsFit(g.id, g.epoch, g.peerEpoch, g.rows) && Acceptable(g.id, g.peerEpoch, h)
    ensures Paired(Learned(g.rows, h.snapshot))
    ensures RowsFit(g.id, g.epoch, h.epoch, Learned(g.rows, h.snapshot))
  {
  }

  lemma HeardKeeps(g: State, h: Heartbeat, o: SaveOutcome)
    requires GatewayInv(g)
    ensures GatewayInv(Heard(g, h, o).0)
  {
    hide Paired, RowsFit, DiskFits, Learned, Conflict;
    if Acceptable(g.id, g.peerEpoch, h) {
      LearnedFits(g, h);
      AcceptableEpoch(g, h);
      PersistKeeps(Merged(g, h), o);
    }
  }

  lemma AcceptableEpoch(g: State, h: Heartbeat)
    requires Acceptable(g.id, g.peerEpoch, h)
    ensures h.epoch >= 1 && h.epoch >= g.peerEpoch
  {
  }

  lemma FailoverKeeps(g: State, o: SaveOutcome)
    requires GatewayInv(g)
    ensures GatewayInv(Failover(g, o))
  {
    hide DiskFits, RowsFit, Paired;
    TakenOverFits(g);
    if !g.fault {
      PersistKeeps(TakenOver(g), o);
    }
  }

  lemma TakenOverFits(g: State)
    requires g.epoch >= 1
    ensures Paired(TakenOver(g).rows) && RowsFit(g.id, TakenOver(g).epoch, g.peerEpoch, TakenOver(g).rows)
  {
  }

  lemma PersistEpochs(g: State, o: SaveOutcome)
    ensures var p := Persisted(g, o);
            p.rows == g.rows && p.epoch == g.epoch && p.id == g.id && p.peerEpoch == g.peerEpoch
    ensures !g.fault && Durable(g.disk) <= g.epoch ==> Durable(g.disk) <= Durable(Persisted(g, o).disk)
    ensures g.fault ==> Persisted(g, o).disk == g.disk
  {
  }

  lemma DurableIsOwn(g: State)
    requires GatewayInv(g) && !g.fault
    ensures Durable(g.disk) == g.epoch
  {
  }

  lemma HeardEpochs(g: State, h: Heartbeat, o: SaveOutcome, n: Node)
    requires GatewayInv(g)
    ensures g.rows[n].epoch <= Heard(g, h, o).0.rows[n].epoch && g.epoch == Heard(g, h, o).0.epoch
    ensures Durable(g.disk) <= Durable(Heard(g, h, o).0.disk)
  {
    hide GatewayInv, Acceptable, Persisted, Conflict, Durable;
    PersistEpochs(Merged(g, h), o);
    if !g.fault { DurableIsOwn(g); }
  }

  lemma FailoverEpochs(g: State, o: SaveOutcome, n: Node)
    requires GatewayInv(g)
    ensures g.rows[n].epoch <= Failover(g, o).rows[n].epoch && g.epoch <= Failover(g, o).epoch
    ensures Durable(g.disk) <= Durable(Failover(g, o).disk)
  {
    hide Persisted, Durable, DiskFits, Paired;
    PersistEpochs(TakenOver(g), o);
    if !g.fault { DurableIsOwn(g); }
  }

  /** Within an incarnation the epoch of a row never decreases, and neither does the durable epoch. */
  lemma EpochsNeverDecrease(g: State, h: Heartbeat, o: SaveOutcome, n: Node)
    requires GatewayInv(g)
    ensures g.rows[n].epoch <= Heard(g, h, o).0.rows[n].epoch
    ensures g.rows[n].epoch <= Failover(g, o).rows[n].epoch
    ensures Durable(g.disk) <= Durable(Heard(g, h, o).0.disk) && Durable(g.disk) <= Durable(Failover(g, o).disk)
    ensures g.epoch == Heard(g, h, o).0.epoch && g.epoch <= Failover(g, o).epoch
  {
    hide GatewayInv, Heard, Failover, Durable;
    HeardEpochs(g, h, o, n);
    FailoverEpochs(g, o, n);
  }

  // ---- two gateways ----------------------------------------------------------------------------------

  datatype System = System(a1: State, a2: State, sent1: set<Heartbeat>, sent2: set<Heartbeat>)

  function At(s: System, g: Gateway): State {
    if g == A1 then s.a1 else s.a2
  }

  function Sent(s: System, g: Gateway): set<Heartbeat> {
    if g == A1 then s.sent1 else s.sent2
  }

  function With(s: System, g: Gateway, st: State): System {
    if g == A1 then s.(a1 := st) else s.(a2 := st)
  }

  datatype Event =
    | Send(g: Gateway)
    | Deliver(g: Gateway, h: Heartbeat, save: SaveOutcome)
    | Timeout(g: Gateway, save: SaveOutcome)
    | Restart(g: Gateway, readable: bool, save: SaveOutcome)

  function Announced(s: System, g: Gateway): System {
    var h := Claim(At(s, g));
    if g == A1 then s.(sent1 := s.sent1 + {h}) else s.(sent2 := s.sent2 + {h})
  }

  /** Any message ever sent may arrive at any time, again and again; a faulty gateway sends none. */
  function Step(s: System, e: Event): System {
    match e
    case Send(g) => if At(s, g).fault then s else Announced(s, g)
    case Deliver(g, h, o) => if h in Sent(s, Peer(g)) then With(s, g, Heard(At(s, g), h, o).0) else s
    case Timeout(g, o) => With(s, g, Failover(At(s, g), o))
    case Restart(g, readable, o) => With(s, g, Started(g, At(s, g).disk, readable, o))
  }

  /** g knows no epoch of its peer beyond what the peer has made durable. */
  ghost predicate KnowsDurable(g: State, peer: State) {
    && g.peerEpoch <= Durable(peer.disk)
    && (g.disk.Some? ==> g.disk.value.peerEpoch <= Durable(peer.disk))
  }

  ghost predicate Truthful(from: Gateway, h: Heartbeat, durable: int) {
    Acceptable(Peer(from), 0, h) && h.epoch <= durable
  }

  ghost predicate SystemInv(s: System) {
    && s.a1.id == A1 && s.a2.id == A2
    && forall g: Gateway ::
         && GatewayInv(At(s, g)) && KnowsDurable(At(s, g), At(s, Peer(g)))
         && forall h :: h in Sent(s, g) ==> Truthful(g, h, Durable(At(s, g).disk))
  }

  lemma ClaimTruthful(g: State)
    requires GatewayInv(g)
    ensures Acceptable(Peer(g.id), 0, Claim(g))
    ensures !g.fault ==> Claim(g).epoch == Durable(g.disk)
  {
  }

  /** One gateway moves on; its durable epoch does not decrease and its knowledge of the peer is covered. */
  lemma WithKeeps(s: System, g: Gateway, st: State)
    requires SystemInv(s) && GatewayInv(st) && st.id == g
    requires KnowsDurable(st, At(s, Peer(g))) && Durable(At(s, g).disk) <= Durable(st.disk)
    ensures SystemInv(With(s, g, st))
  {
    hide GatewayInv, Acceptable, Durable;
    var t := With(s, g, st);
    forall x: Gateway
      ensures GatewayInv(At(t, x)) && KnowsDurable(At(t, x), At(t, Peer(x)))
      ensures forall h :: h in Sent(t, x) ==> Truthful(x, h, Durable(At(t, x).disk))
    {
      if x == g {
        assert At(t, x) == st && At(t, Peer(x)) == At(s, Peer(x)) && Sent(t, x) == Sent(s, x);
      } else {
        assert At(t, x) == At(s, x) && At(t, g) == st && Peer(x) == g && Sent(t, x) == Sent(s, x);
        KnowsMore(At(s, x), At(s, g), st);
      }
    }
  }

  lemma HeardKnows(g: State, h: Heartbeat, o: SaveOutcome, peer: State)
    requires KnowsDurable(g, peer) && h.epoch <= Durable(peer.disk)
    ensures KnowsDurable(Heard(g, h, o).0, peer)
  {
  }

  lemma AnnounceKeeps(s: System, g: Gateway)
    requires SystemInv(s) && !At(s, g).fault
    ensures SystemInv(Announced(s, g))
  {
    hide GatewayInv, Acceptable, Durable, KnowsDurable;
    assert At(s, g).id == g;
    ClaimTruthful(At(s, g));
  }

  lemma StepKeeps(s: System, e: Event)
    requires SystemInv(s)
    ensures SystemInv(Step(s, e))
  {
    hide GatewayInv, Acceptable, KnowsDurable, Heard, Failover, Started, RowsFit;
    var g := e.g;
    var st := At(s, g);
    assert st.id == g && GatewayInv(st) && KnowsDurable(st, At(s, Peer(g)));
    match e
    case Send(_) =>
      if !st.fault {
        AnnounceKeeps(s, g);
      }
    case Deliver(_, h, o) =>
      if h in Sent(s, Peer(g)) {
        assert Truthful(Peer(g), h, Durable(At(s, Peer(g)).disk));
        HeardKeeps(st, h, o);
        EpochsNeverDecrease(st, h, o, B1);
        HeardKnows(st, h, o, At(s, Peer(g)));
        SameId(st, h, o);
        WithKeeps(s, g, Heard(st, h, o).0);
      }
    case Timeout(_, o) =>
      FailoverKeeps(st, o);
      EpochsNeverDecrease(st, Claim(st), o, B1);
      FailoverKnows(st, o, At(s, Peer(g)));
      SameId(st, Claim(st), o);
      WithKeeps(s, g, Failover(st, o));
    case Restart(_, readable, o) =>
      InvDisk(st);
      StartKeeps(g, st.disk, readable, o);
      StartKnows(st, readable, o, At(s, Peer(g)));
      WithKeeps(s, g, Started(g, st.disk, readable, o));
  }

  lemma InvDisk(g: State)
    requires GatewayInv(g)
    ensures DiskFits(g.id, g.disk)
  {
  }

  lemma SameId(g: State, h: Heartbeat, o: SaveOutcome)
    ensures Heard(g, h, o).0.id == g.id && Failover(g, o).id == g.id
  {
  }

  lemma FailoverKnows(g: State, o: SaveOutcome, peer: State)
    requires KnowsDurable(g, peer)
    ensures KnowsDurable(Failover(g, o), peer)
  {
  }

  lemma StartKnows(g: State, readable: bool, o: SaveOutcome, peer: State)
    requires KnowsDurable(g, peer) && GatewayInv(peer) && GatewayInv(g)
    ensures KnowsDurable(Started(g.id, g.disk, readable, o), peer)
    ensures Started(g.id, g.disk, readable, o).id == g.id
  {
    hide Validates, RowsFit, Paired;
  }

  /** Both gateways start for the first time. */
  function Initial(o1: SaveOutcome, o2: SaveOutcome): System {
    System(Started(A1, None, true, o1), Started(A2, None, true, o2), {}, {})
  }

  lemma InitialInv(o1: SaveOutcome, o2: SaveOutcome)
    ensures SystemInv(Initial(o1, o2))
  {
    hide GatewayInv;
    StartKeeps(A1, None, true, o1);
    StartKeeps(A2, None, true, o2);
    var s := Initial(o1, o2);
    forall g: Gateway ensures GatewayInv(At(s, g)) && KnowsDurable(At(s, g), At(s, Peer(g))) {}
  }

  function Run(s: System, events: seq<Event>): System
    decreases |events|
  {
    if events == [] then s else Run(Step(s, events[0]), events[1..])
  }

  /** Losses, repetitions, delays, crashes and failed saves included, the invariants hold for ever. */
  lemma {:induction false} RunKeeps(s: System, events: seq<Event>)
    requires SystemInv(s)
    ensures SystemInv(Run(s, events))
    decreases |events|
  {
    hide SystemInv, Step;
    if events != [] {
      StepKeeps(s, events[0]);
      RunKeeps(Step(s, events[0]), events[1..]);
    }
  }

  /** In every reachable state of a gateway, whatever the peer and the network did. */
  lemma ReachableGateways(o1: SaveOutcome, o2: SaveOutcome, events: seq<Event>, g: Gateway)
    ensures var s := Run(Initial(o1, o2), events);
            var (st, peer) := (At(s, g), At(s, Peer(g)));
            && st.id == g && Paired(st.rows) && RowsFit(g, st.epoch, st.peerEpoch, st.rows)
            && (st.disk.Some? ==> Validates(st.disk.value, g))
            && (MayAct(st) ==> !st.fault && Durable(st.disk) == st.epoch)
            && st.peerEpoch <= Durable(peer.disk)
            && (forall h :: h in Sent(s, g) ==> h.epoch <= Durable(st.disk))
  {
    hide Validates, RowsFit, Paired, Acceptable, MayControl;
    InitialInv(o1, o2);
    RunKeeps(Initial(o1, o2), events);
    var s := Run(Initial(o1, o2), events);
    assert GatewayInv(At(s, g)) && KnowsDurable(At(s, g), At(s, Peer(g)));
  }

  // ---- the exchange ----------------------------------------------------------------------------------

  /** What the other gateway states now is always accepted. */
  lemma CurrentClaimAccepted(g: State, h: State)
    requires GatewayInv(g) && !g.fault && KnowsDurable(h, g) && h.id == Peer(g.id)
    ensures Acceptable(h.id, h.peerEpoch, Claim(g))
  {
    hide GatewayInv;
    ClaimTruthful(g);
    InvAge(g);
  }

  lemma InvAge(g: State)
    requires GatewayInv(g) && !g.fault
    ensures g.epoch == Durable(g.disk)
  {
  }

  ghost predicate Exclusive(g: State, h: State) {
    forall n: Node :: !(MayControl(g, n) && MayControl(h, n))
  }

  /** Exclusive, and no message can change that: a gateway that failed never controls anything again. */
  ghost predicate Settled(g: State, h: State) {
    Exclusive(g, h) && ((!g.recovering && !h.recovering) || g.fault || h.fault)
  }

  /** A gateway that hears a newer epoch, or an active claim to a node it owns at its own epoch, steps back. */
  lemma StepsBack(g: State, h: Heartbeat, o: SaveOutcome)
    requires GatewayInv(g) && Acceptable(g.id, g.peerEpoch, h)
    ensures h.epoch > g.epoch ==> Heard(g, h, o).0.role == STANDBY
    ensures Conflict(Merged(g, h), h) ==> Heard(g, h, o).0.role == STANDBY
  {
    hide Overlap, Learned;
  }

  /** Nodes still owned after the merge were owned before, with the same row. */
  lemma KeepsOwn(g: State, h: Heartbeat, o: SaveOutcome, n: Node)
    requires GatewayInv(g) && Acceptable(g.id, g.peerEpoch, h) && Owns(Heard(g, h, o).0, n)
    ensures Owns(g, n) && Heard(g, h, o).0.rows[n] == g.rows[n] && g.rows[n].epoch == g.epoch
  {
    hide DiskFits, Paired, Conflict, Heard;
    HeardMerged(g, h, o);
  }

  lemma ClaimsOwn(g: State, n: Node)
    ensures n in Claim(g).snapshot <==> Owns(g, n)
    ensures Owns(g, n) ==> Claim(g).snapshot[n] == g.rows[n]
  {
  }

  lemma OverlapFound(g: State, h: Heartbeat, n: Node)
    requires GatewayInv(g) && Acceptable(g.id, g.peerEpoch, h)
    requires Owns(Merged(g, h), n) && n in h.snapshot && h.snapshot[n].epoch == g.epoch && h.role == ACTIVE
    ensures Conflict(Merged(g, h), h)
  {
    assert Competes(g.id, Merged(g, h).rows[n], h.snapshot[n]);
  }

  lemma HeardMerged(g: State, h: Heartbeat, o: SaveOutcome)
    requires Acceptable(g.id, g.peerEpoch, h)
    ensures Heard(g, h, o).0.rows == Merged(g, h).rows && Heard(g, h, o).0.epoch == g.epoch
    ensures Heard(g, h, o).0.id == g.id && Merged(g, h).id == g.id && !Heard(g, h, o).0.recovering
    ensures !Heard(g, h, o).0.fault ==> Heard(g, h, o).0.role == Merged(g, h).role
  {
  }

  /** Equal epochs: whoever of the two hears the active claim of the other steps back. */
  lemma OneStepsBack(g: State, h: State, o1: SaveOutcome, o2: SaveOutcome, n: Node)
    requires GatewayInv(g) && GatewayInv(h) && h.id == Peer(g.id)
    requires Acceptable(h.id, h.peerEpoch, Claim(g))
    requires var h' := Heard(h, Claim(g), o1).0;
             Acceptable(g.id, g.peerEpoch, Claim(h')) && GatewayInv(h') && h'.epoch == g.epoch
    ensures var h' := Heard(h, Claim(g), o1).0;
            !(MayControl(Heard(g, Claim(h'), o2).0, n) && MayControl(h', n))
  {
    hide GatewayInv, Acceptable, Heard, Claim, Merged, Conflict;
    var h' := Heard(h, Claim(g), o1).0;
    var g' := Heard(g, Claim(h'), o2).0;
    if Owns(g', n) && Owns(h', n) && h'.role == ACTIVE {
      KeepsOwn(g, Claim(h'), o2, n);
      KeepsOwn(h, Claim(g), o1, n);
      ClaimsOwn(h', n);
      HeardMerged(g, Claim(h'), o2);
      HeardMerged(h, Claim(g), o1);
      ClaimRole(h');
      OverlapFound(g, Claim(h'), n);
      StepsBack(g, Claim(h'), o2);
    }
  }

  lemma ClaimRole(g: State)
    ensures Claim(g).role == g.role && Claim(g).epoch == g.epoch
  {
  }

  /**
   * From any reachable state: when the current claim of g reaches h and then the current claim of h
   * reaches g, both are accepted, and no node may be controlled by both gateways, be they active,
   * standing by or recovering. If the save of h fails, h has nothing to say and stands by for good.
   */
  lemma ExchangeExcludes(s: System, x: Gateway, o1: SaveOutcome, o2: SaveOutcome)
    requires SystemInv(s) && !At(s, x).fault
    ensures var g, h := At(s, x), At(s, Peer(x));
            var (h', first) := Heard(h, Claim(g), o1);
            var (g', second) := Heard(g, Claim(h'), o2);
            first && (if h'.fault then Settled(g, h') else second && Settled(g', h'))
  {
    hide GatewayInv, Acceptable, Claim, KnowsDurable, Merged;
    var g, h := At(s, x), At(s, Peer(x));
    assert Peer(Peer(x)) == x && g.id == x && h.id == Peer(x);
    assert GatewayInv(g) && GatewayInv(h) && KnowsDurable(h, g) && KnowsDurable(g, h);
    CurrentClaimAccepted(g, h);
    HeardKeeps(h, Claim(g), o1);
    var h' := Heard(h, Claim(g), o1).0;
    HeardMerged(h, Claim(g), o1);
    if h'.fault {
      FaultyStandsBy(h');
    } else {
      EpochsNeverDecrease(h, Claim(g), o1, B1);
      KnowsMore(g, h, h');
      CurrentClaimAccepted(h', g);
      HeardMerged(g, Claim(h'), o2);
      SecondExcludes(g, h, o1, o2);
    }
  }

  lemma KnowsMore(g: State, h: State, h': State)
    requires KnowsDurable(g, h) && Durable(h.disk) <= Durable(h'.disk)
    ensures KnowsDurable(g, h')
  {
  }

  lemma FaultyStandsBy(g: State)
    requires GatewayInv(g) && g.fault
    ensures g.role == STANDBY
  {
  }

  lemma SecondExcludes(g: State, h: State, o1: SaveOutcome, o2: SaveOutcome)
    requires GatewayInv(g) && GatewayInv(h) && h.id == Peer(g.id)
    requires Acceptable(h.id, h.peerEpoch, Claim(g))
    requires var h' := Heard(h, Claim(g), o1).0; Acceptable(g.id, g.peerEpoch, Claim(h')) && GatewayInv(h')
    ensures var h' := Heard(h, Claim(g), o1).0; Exclusive(Heard(g, Claim(h'), o2).0, h')
  {
    hide GatewayInv, Acceptable, Claim, Merged, Heard;
    var h' := Heard(h, Claim(g), o1).0;
    var g' := Heard(g, Claim(h'), o2).0;
    ClaimRole(g);
    ClaimRole(h');
    StepsBack(h, Claim(g), o1);
    StepsBack(g, Claim(h'), o2);
    HeardMerged(h, Claim(g), o1);
    forall n: Node ensures !(MayControl(g', n) && MayControl(h', n)) {
      if g.epoch == h.epoch {
        OneStepsBack(g, h, o1, o2, n);
      }
    }
  }

  /** No message restores control: without a takeover or a restart, control is only ever given up. */
  lemma MessagesNeverGrant(g: State, h: Heartbeat, o: SaveOutcome, n: Node)
    requires !g.recovering
    ensures !Heard(g, h, o).0.recovering
    ensures MayControl(Heard(g, h, o).0, n) ==> MayControl(g, n)
  {
  }

  predicate Quiet(e: Event) {
    e.Send? || e.Deliver?
  }

  lemma FaultStays(g: State, h: Heartbeat, o: SaveOutcome)
    ensures g.fault ==> Heard(g, h, o).0.fault
  {
  }

  lemma FaultyExcludes(g: State, h: State)
    requires GatewayInv(g) && GatewayInv(h) && (g.fault || h.fault)
    ensures Settled(g, h) && Settled(h, g)
  {
  }

  /** What a gateway hears leaves a settled pair settled. */
  lemma HeardSettled(g: State, peer: State, h: Heartbeat, o: SaveOutcome)
    requires GatewayInv(g) && GatewayInv(peer) && Settled(g, peer)
    ensures Settled(Heard(g, h, o).0, peer) && Settled(peer, Heard(g, h, o).0)
  {
    hide GatewayInv, Heard, MayControl;
    HeardKeeps(g, h, o);
    FaultStays(g, h, o);
    var g' := Heard(g, h, o).0;
    if g'.fault || peer.fault {
      FaultyExcludes(g', peer);
    } else {
      forall n: Node ensures MayControl(g', n) ==> MayControl(g, n) {
        MessagesNeverGrant(g, h, o, n);
      }
      MessagesNeverGrant(g, h, o, B1);
    }
  }

  /** Exclusion lasts, whatever old messages arrive, until a gateway times out or restarts. */
  lemma {:induction false} ExclusionLasts(s: System, events: seq<Event>)
    requires SystemInv(s) && Settled(s.a1, s.a2)
    requires forall i :: 0 <= i < |events| ==> Quiet(events[i])
    ensures Exclusive(Run(s, events).a1, Run(s, events).a2)
    decreases |events|
  {
    hide GatewayInv, Acceptable, KnowsDurable, Heard, Exclusive, Claim;
    if events != [] {
      var e := events[0];
      assert GatewayInv(At(s, A1)) && GatewayInv(At(s, A2));
      StepKeeps(s, e);
      SettledEitherWay(s.a1, s.a2);
      if e.Deliver? && e.h in Sent(s, Peer(e.g)) {
        HeardSettled(At(s, e.g), At(s, Peer(e.g)), e.h, e.save);
      }
      ExclusionLasts(Step(s, e), events[1..]);
    }
  }

  lemma SettledEitherWay(g: State, h: State)
    requires Settled(g, h)
    ensures Settled(h, g)
  {
  }

  /** The exchange on the wire: each side states its claim and the other hears it. */
  function Exchange(s: System, x: Gateway, o1: SaveOutcome, o2: SaveOutcome): seq<Event> {
    var h := Heard(At(s, Peer(x)), Claim(At(s, x)), o1).0;
    [Send(x), Deliver(Peer(x), Claim(At(s, x)), o1), Send(Peer(x)), Deliver(x, Claim(h), o2)]
  }

  /**
   * From any reachable state, once a gateway that has not failed completes an exchange, no node is ever
   * controlled by both, whichever saves fail and whatever is delivered late or twice, until a gateway
   * times out or restarts.
   */
  lemma ExchangeEndsDualControl(s: System, x: Gateway, o1: SaveOutcome, o2: SaveOutcome, later: seq<Event>)
    requires SystemInv(s) && !At(s, x).fault
    requires forall i :: 0 <= i < |later| ==> Quiet(later[i])
    ensures var t := Run(s, Exchange(s, x, o1, o2) + later); Exclusive(t.a1, t.a2)
  {
    hide GatewayInv, Acceptable, KnowsDurable, Heard, Exclusive, Claim, SystemInv;
    var events := Exchange(s, x, o1, o2) + later;
    ExchangeExcludes(s, x, o1, o2);
    var s1 := Step(s, events[0]);
    StepKeeps(s, events[0]);
    var s2 := Step(s1, events[1]);
    StepKeeps(s1, events[1]);
    assert Peer(Peer(x)) == x;
    assert Run(s, events) == Run(s1, events[1..]);
    assert events[1..][0] == events[1] && events[1..][1..] == events[2..];
    assert Run(s1, events[1..]) == Run(s2, events[2..]);
    if At(s2, Peer(x)).fault {
      SettledEitherWay(At(s2, x), At(s2, Peer(x)));
      ExclusionLasts(s2, events[2..]);
    } else {
      var s3 := Step(s2, events[2]);
      StepKeeps(s2, events[2]);
      var s4 := Step(s3, events[3]);
      StepKeeps(s3, events[3]);
      assert events[2..][0] == events[2] && events[2..][1..] == events[3..];
      assert events[3..][0] == events[3] && events[3..][1..] == later;
      assert Run(s2, events[2..]) == Run(s4, later);
      SettledEitherWay(At(s4, x), At(s4, Peer(x)));
      ExclusionLasts(s4, later);
    }
  }

  /** Without an exchange there is no such exclusion: cut off from each other, both take over everything. */
  lemma PartitionGivesTwo()
    ensures var s := Run(Initial(Committed, Committed), [Timeout(A1, Committed), Timeout(A2, Committed)]);
            forall n: Node :: MayControl(s.a1, n) && MayControl(s.a2, n)
  {
    hide FourRows;
    var events := [Timeout(A1, Committed), Timeout(A2, Committed)];
    var s := Initial(Committed, Committed);
    FirstFailover(A1);
    FirstFailover(A2);
    assert Run(s, events) == Run(Step(s, events[0]), events[1..]);
    assert Run(Step(s, events[0]), events[1..]) == Run(Step(Step(s, events[0]), events[1]), events[1..][1..]);
  }

  lemma FirstFailover(g: Gateway)
    ensures var st := Failover(Started(g, None, true, Committed), Committed);
            forall n: Node :: MayControl(st, n)
  {
    var st := Started(g, None, true, Committed);
    assert (if g == A1 then C2 else C1) in OwnedBy(st.rows, Peer(g));
  }
}
