/** What a heartbeat teaches, what a takeover takes, and on what two gateways agree after an exchange. */
module GatewayAgreement {
  import opened Wrappers
  import opened GatewayOwnership
  import opened GatewayTheorems

  // ---- one heartbeat -----------------------------------------------------------------------------------

  /**
   * After an accepted heartbeat a claim that is newer than the known row has replaced it, so no claimed
   * node stays behind its claim; every other row is as it was.
   */
  lemma HeardRows(g: State, h: Heartbeat, o: SaveOutcome, n: Node)
    requires Acceptable(g.id, g.peerEpoch, h)
    ensures var r := Heard(g, h, o).0;
            if n in h.snapshot && g.rows[n].epoch < h.snapshot[n].epoch
            then r.rows[n] == h.snapshot[n] && r.rows[n].owner == Peer(g.id) && !MayControl(r, n)
            else r.rows[n] == g.rows[n]
    ensures Heard(g, h, o).0.peerEpoch == h.epoch && Heard(g, h, o).1
  {
    HeardMerged(g, h, o);
  }

  /** The heartbeat claims, at its own epoch, a node of this gateway. */
  predicate Contests(g: State, h: Heartbeat) {
    h.role == ACTIVE && exists n :: n in h.snapshot && Owns(g, n) && g.rows[n].epoch == h.snapshot[n].epoch
  }

  lemma ConflictContests(g: State, h: Heartbeat)
    requires Acceptable(g.id, g.peerEpoch, h)
    ensures Conflict(g.(rows := Learned(g.rows, h.snapshot), peerEpoch := h.epoch), h) <==> Contests(g, h)
  {
    var m := g.(rows := Learned(g.rows, h.snapshot), peerEpoch := h.epoch);
    if Conflict(m, h) {
      var n :| n in h.snapshot && Competes(g.id, m.rows[n], h.snapshot[n]);
      assert m.rows[n] == g.rows[n];
    }
    if Contests(g, h) {
      var n :| n in h.snapshot && Owns(g, n) && g.rows[n].epoch == h.snapshot[n].epoch;
      assert Competes(g.id, m.rows[n], h.snapshot[n]);
    }
  }

  /**
   * Whether a gateway acts after a heartbeat it could save: it acted before, or waits after a restart in
   * which it had acted, and the peer has neither a newer epoch nor a claim to its nodes.
   */
  lemma ActsAfterHearing(g: State, h: Heartbeat)
    requires Acceptable(g.id, g.peerEpoch, h) && !g.fault
    ensures var r := Heard(g, h, Committed).0;
            && !r.fault && !r.recovering
            && (r.role == ACTIVE <==>
                 && (g.role == ACTIVE || (g.recovering && g.savedRole == ACTIVE))
                 && h.epoch <= g.epoch && !Contests(g, h))
  {
    hide Conflict, Contests;
    ConflictContests(g, h);
  }

  /** What was saved last is what a restart goes on with, waiting for evidence. */
  lemma RestartRestores(g: State, h: Heartbeat, o: SaveOutcome)
    requires GatewayInv(g) && !g.fault && Acceptable(g.id, g.peerEpoch, h)
    ensures var r := Heard(g, h, Committed).0;
            var s := Started(g.id, r.disk, true, o);
            && s.rows == r.rows && s.epoch == r.epoch && s.peerEpoch == r.peerEpoch && s.savedRole == r.role
            && s.recovering && !s.fault && s.role == STANDBY
  {
    hide Learned, Conflict, Paired;
    HeardKeeps(g, h, Committed);
    var r := Heard(g, h, Committed).0;
    assert DiskFits(g.id, r.disk);
  }

  /**
   * Whatever the checkpoint holds: a start from one that it accepts waits with paired nodes and own rows at
   * the own epoch, and controls nothing; any other start refuses, save the first.
   */
  lemma StartIsSafe(id: Gateway, d: Option<Checkpoint>, readable: bool, o: SaveOutcome)
    ensures var s := Started(id, d, readable, o);
            && (d.Some? || !readable ==> !MayAct(s))
            && (!readable ==> s.fault)
            && (d.Some? && !s.fault ==>
                 && s.recovering && d.value.id == id && s.rows == d.value.rows && s.epoch == d.value.epoch >= 1
                 && s.peerEpoch == d.value.peerEpoch >= 0
                 && s.rows[B1] == s.rows[C1] && s.rows[B2] == s.rows[C2]
                 && forall n: Node :: s.rows[n].epoch >= 1 && (s.rows[n].owner == id ==> s.rows[n].epoch == s.epoch))
  {
  }

  // ---- takeover ------------------------------------------------------------------------------------------

  /** After a takeover that could be saved every node is controlled, at an epoch above all the peer announced. */
  lemma TakeoverControls(g: State, n: Node)
    requires GatewayInv(g) && !g.fault
    ensures var r := Failover(g, Committed);
            && MayControl(r, n) && r.rows[n].epoch == r.epoch && r.epoch > r.peerEpoch == g.peerEpoch
            && !r.recovering && !r.fault && r.disk.Some? && r.disk.value.epoch == r.epoch
            && (r.epoch == g.epoch || r.epoch == 1 + (if g.epoch > g.peerEpoch then g.epoch else g.peerEpoch))
  {
    hide DiskFits, Paired;
    assert RowsFit(g.id, g.epoch, g.peerEpoch, g.rows);
    if g.rows[n].owner != g.id {
      assert n in OwnedBy(g.rows, Peer(g.id));
    }
  }

  /** A takeover that would change nothing changes nothing, so a fenced peer causes no further epoch. */
  lemma TakeoverOnce(g: State, o: SaveOutcome)
    requires GatewayInv(g) && !g.fault
    ensures Failover(Failover(g, Committed), o) == Failover(g, Committed)
  {
    hide Paired, RowsFit, DiskFits;
    var r := Failover(g, Committed);
    assert forall n: Node :: r.rows[n].owner == g.id || r == g;
    assert OwnedBy(r.rows, Peer(g.id)) == {};
  }

  // ---- agreement -------------------------------------------------------------------------------------------

  /** A row that names the other gateway as owner is not ahead of it. */
  lemma PeerRows(g: State, h: State, n: Node)
    requires GatewayInv(g) && GatewayInv(h) && KnowsDurable(h, g) && h.id == Peer(g.id) && !g.fault
    requires h.rows[n].owner == g.id
    ensures h.rows[n].epoch <= g.epoch
  {
    hide DiskFits, Paired;
    assert RowsFit(h.id, h.epoch, h.peerEpoch, h.rows);
  }

  lemma OwnRow(g: State, n: Node)
    requires GatewayInv(g) && Owns(g, n)
    ensures g.rows[n] == Row(g.id, g.epoch)
  {
    hide DiskFits, Paired;
    assert RowsFit(g.id, g.epoch, g.peerEpoch, g.rows);
  }

  lemma HearsClaim(g: State, h: State, o: SaveOutcome, n: Node)
    requires GatewayInv(g) && Acceptable(h.id, h.peerEpoch, Claim(g))
    ensures var r := Heard(h, Claim(g), o).0;
            r.rows[n] == if Owns(g, n) && h.rows[n].epoch < g.epoch then Row(g.id, g.epoch) else h.rows[n]
  {
    hide GatewayInv, Acceptable, Heard, Claim;
    HeardRows(h, Claim(g), o, n);
    ClaimsOwn(g, n);
    if Owns(g, n) {
      OwnRow(g, n);
    }
  }

  /**
   * After an exchange of current heartbeats both gateways have the same row for every node that one of
   * them claimed, except exactly those both claimed at one epoch: for these neither gives way.
   */
  lemma AgreeAfterExchange(g: State, h: State, o1: SaveOutcome, o2: SaveOutcome, n: Node)
    requires GatewayInv(g) && GatewayInv(h) && KnowsDurable(g, h) && KnowsDurable(h, g) && h.id == Peer(g.id)
    requires !g.fault && (Owns(g, n) || Owns(h, n))
    requires !h.fault && !Heard(h, Claim(g), o1).0.fault
    ensures var h' := Heard(h, Claim(g), o1).0;
            var g' := Heard(g, Claim(h'), o2).0;
            g'.rows[n] == h'.rows[n] <==> !(Owns(g, n) && Owns(h, n) && g.epoch == h.epoch)
  {
    hide GatewayInv, Acceptable, KnowsDurable, Heard, Claim, MayControl, Durable;
    var h' := Heard(h, Claim(g), o1).0;
    CurrentClaimAccepted(g, h);
    HeardKeeps(h, Claim(g), o1);
    EpochsNeverDecrease(h, Claim(g), o1, n);
    KnowsMore(g, h, h');
    HeardMerged(h, Claim(g), o1);
    CurrentClaimAccepted(h', g);
    HearsClaim(g, h, o1, n);
    HearsClaim(h', g, o2, n);
    if Owns(g, n) { OwnRow(g, n); } else { PeerRows(h, g, n); }
    if Owns(h, n) { OwnRow(h, n); } else { PeerRows(g, h, n); }
  }

  /** The two deliveries of an exchange that the peer could save. */
  lemma ExchangeRuns(s: System, x: Gateway, o1: SaveOutcome, o2: SaveOutcome)
    requires SystemInv(s) && !At(s, x).fault && !Heard(At(s, Peer(x)), Claim(At(s, x)), o1).0.fault
    ensures var t := Run(s, Exchange(s, x, o1, o2));
            var h' := Heard(At(s, Peer(x)), Claim(At(s, x)), o1).0;
            At(t, Peer(x)) == h' && At(t, x) == Heard(At(s, x), Claim(h'), o2).0
  {
    hide GatewayInv, Heard, Claim, SystemInv;
    var events := Exchange(s, x, o1, o2);
    assert Peer(Peer(x)) == x;
    var s1 := Step(s, events[0]);
    var s2 := Step(s1, events[1]);
    var s3 := Step(s2, events[2]);
    var s4 := Step(s3, events[3]);
    assert Run(s, events) == Run(s1, events[1..]);
    assert events[1..][0] == events[1] && events[1..][1..] == events[2..];
    assert Run(s1, events[1..]) == Run(s2, events[2..]);
    assert events[2..][0] == events[2] && events[2..][1..] == events[3..];
    assert Run(s2, events[2..]) == Run(s3, events[3..]);
    assert events[3..][0] == events[3] && events[3..][1..] == [];
    assert Run(s3, events[3..]) == s4;
  }

  /**
   * From any reachable state in which neither gateway has failed: an exchange that the peer could save
   * leaves both with the same row for every node one of them claimed, unless both claimed it at one epoch.
   */
  lemma RegistriesAgree(s: System, x: Gateway, o1: SaveOutcome, o2: SaveOutcome, n: Node)
    requires SystemInv(s) && !s.a1.fault && !s.a2.fault && (Owns(s.a1, n) || Owns(s.a2, n))
    requires !Heard(At(s, Peer(x)), Claim(At(s, x)), o1).0.fault
    ensures var t := Run(s, Exchange(s, x, o1, o2));
            t.a1.rows[n] == t.a2.rows[n] <==> !(Owns(s.a1, n) && Owns(s.a2, n) && s.a1.epoch == s.a2.epoch)
  {
    hide GatewayInv, Heard, Claim, KnowsDurable, Run, Owns;
    assert Peer(Peer(x)) == x;
    assert At(s, x).id == x && GatewayInv(At(s, x)) && KnowsDurable(At(s, x), At(s, Peer(x)));
    assert GatewayInv(At(s, Peer(x))) && KnowsDurable(At(s, Peer(x)), At(s, x));
    ExchangeRuns(s, x, o1, o2);
    AgreeAfterExchange(At(s, x), At(s, Peer(x)), o1, o2, n);
  }
}
