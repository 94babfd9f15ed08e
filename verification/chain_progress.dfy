/** That messages move on: with nothing failing, every state of the chain leads to one that is empty. */
module ChainProgress {
  import opened Wrappers
  import opened Bytes
  import opened B1Record
  import opened OfflineQueues
  import opened Conservation
  import B1Outbox
  import B1Store
  import B1Progress
  import Cloud

  // ---- runs one after the other ----------------------------------------------------------------------------

  lemma {:induction false} ReachesBoth(s: System, l: Limits, a: seq<Event>, t: System, b: seq<Event>, u: System)
    requires Reaches(s, l, a, t) && Reaches(t, l, b, u)
    ensures Reaches(s, l, a + b, u)
    decreases |a|
  {
    hide Step;
    if a == [] {
      assert a + b == b;
    } else {
      ReachesBoth(Step(s, l, a[0]), l, a[1..], t, b, u);
      assert (a + b)[1..] == a[1..] + b;
    }
  }

  lemma ReachesOne(s: System, l: Limits, e: Event)
    requires Inv(s, l) && Named(e)
    ensures |s.device.flash| == |s.device.q.entries|
    ensures Reaches(s, l, [e], Step(s, l, e)) && Inv(Step(s, l, e), l)
  {
    hide Inv, Step, B1Store.Inv;
    StepKeeps(s, l, e);
    assert Reaches(Step(s, l, e), l, [], Step(s, l, e));
    assert [e][1..] == [];
  }

  // ---- one row ---------------------------------------------------------------------------------------------

  /** The row alone is gone, its message is in the cloud, and nothing was lost there or changed elsewhere. */
  ghost predicate Left(s: System, g: Site, r: Row, t: System) {
    && t.device == s.device && t.toDevice == s.toDevice
    && At(t, g).outbox == At(s, g).outbox.(rows := Removed(At(s, g).outbox.rows, r.queueId))
    && (forall x :: x != g ==> At(t, x) == At(s, x))
    && InCloud(t, r.upload.messageId) && s.cloud.durable.processed <= t.cloud.durable.processed
  }

  /** The upload of a row reaches the cloud, which confirms it whether it is new there or not. */
  lemma CloudConfirms(c: Cloud.State, e: Cloud.Entry)
    requires e.messageId != [] && Cloud.Keeps(c)
    ensures var (d, acked) := Cloud.Stored(c, Cloud.Upload(e, true, true), false, Committed);
            acked && e.messageId in d.durable.processed && c.durable.processed <= d.durable.processed
  {
  }

  /** One more step at the end of a run. */
  lemma ReachesNext(s: System, l: Limits, a: seq<Event>, t: System, e: Event)
    requires Reaches(s, l, a, t) && Inv(t, l) && Named(e)
    ensures |t.device.flash| == |t.device.q.entries|
    ensures Reaches(s, l, a + [e], Step(t, l, e)) && Inv(Step(t, l, e), l)
  {
    hide Inv, Step, Reaches;
    ReachesOne(t, l, e);
    ReachesBoth(s, l, a, t, [e], Step(t, l, e));
  }

  lemma Steps(s: System, l: Limits, g: Site, i: nat, u: Upload)
    requires |s.device.flash| == |s.device.q.entries|
    ensures Step(s, l, GiveUp(g)) == With(s, g, At(s, g).(flight := None))
    ensures Step(s, l, Replay(g, i)) == Replayed(s, g, i)
    ensures Step(s, l, Store(g, u, true, false, Committed)) == StoredAt(s, g, u, true, false, Committed)
    ensures Step(s, l, Receipt(g, u.messageId)) == ReceiptAt(s, g, u.messageId)
    ensures Step(s, l, Drop(g, Committed)) == DroppedAt(s, g, Committed)
  {
    hide Replayed, StoredAt, ReceiptAt, DroppedAt;
  }

  /** The row is under way and its receipt waits to be delivered. */
  ghost predicate Confirming(s: System, g: Site, r: Row, t: System) {
    && t.device == s.device && t.toDevice == s.toDevice
    && At(t, g) == At(s, g).(flight := Some(Flight(r, false))) && (forall x :: x != g ==> At(t, x) == At(s, x))
    && (g, r.upload.messageId) in t.receipts
    && InCloud(t, r.upload.messageId) && s.cloud.durable.processed <= t.cloud.durable.processed
  }

  function Storing(g: Site, i: nat, u: Upload): seq<Event> {
    [GiveUp(g)] + [Replay(g, i)] + [Store(g, u, true, false, Committed)]
  }

  lemma RowStored(s: System, l: Limits, g: Site, i: nat)
    requires Inv(s, l) && i < |At(s, g).outbox.rows|
    ensures var r := At(s, g).outbox.rows[i];
            exists t :: Reaches(s, l, Storing(g, i, r.upload), t) && Inv(t, l) && Confirming(s, g, r, t)
  {
    hide Inv, Cloud.Keeps, Reaches, Cloud.Stored, Sound, Step;
    var r := At(s, g).outbox.rows[i];
    var u := r.upload;
    NamedRow(s, l, g, i);
    ReachesOne(s, l, GiveUp(g));
    Steps(s, l, g, i, u);
    var s1 := Step(s, l, GiveUp(g));
    ReachesNext(s, l, [GiveUp(g)], s1, Replay(g, i));
    Steps(s1, l, g, i, u);
    var s2 := Step(s1, l, Replay(g, i));
    assert At(s2, g) == At(s, g).(flight := Some(Flight(r, false))) && (g, u) in s2.sent;
    ReachesNext(s, l, [GiveUp(g)] + [Replay(g, i)], s2, Store(g, u, true, false, Committed));
    Steps(s2, l, g, i, u);
    KeepsCloud(s2, l);
    CloudConfirms(s2.cloud, Cloud.Entry(u.messageId, if g == A1 then [65, 49] else [65, 50], u.payload));
    var t := Step(s2, l, Store(g, u, true, false, Committed));
    assert Confirming(s, g, r, t);
  }

  function Leaving(g: Site, i: nat, u: Upload): seq<Event> {
    Storing(g, i, u) + [Receipt(g, u.messageId)] + [Drop(g, Committed)]
  }

  /**
   * From every reachable state: a queued row is sent, stored, confirmed and deleted, be its message new to
   * the cloud or there already because an earlier receipt was lost.
   */
  lemma RowLeaves(s: System, l: Limits, g: Site, i: nat)
    requires Inv(s, l) && i < |At(s, g).outbox.rows|
    ensures var r := At(s, g).outbox.rows[i];
            exists t :: Reaches(s, l, Leaving(g, i, r.upload), t) && Inv(t, l) && Left(s, g, r, t)
  {
    hide Inv, Removed, Reaches, Storing, Step;
    var r := At(s, g).outbox.rows[i];
    var u := r.upload;
    RowStored(s, l, g, i);
    var s3 :| Reaches(s, l, Storing(g, i, u), s3) && Inv(s3, l) && Confirming(s, g, r, s3);
    ReachesNext(s, l, Storing(g, i, u), s3, Receipt(g, u.messageId));
    Steps(s3, l, g, i, u);
    var s4 := Step(s3, l, Receipt(g, u.messageId));
    assert At(s4, g) == At(s, g).(flight := Some(Flight(r, true)));
    ReachesNext(s, l, Storing(g, i, u) + [Receipt(g, u.messageId)], s4, Drop(g, Committed));
    Steps(s4, l, g, i, u);
    var t := Step(s4, l, Drop(g, Committed));
    assert Left(s, g, r, t);
  }

  lemma NamedRow(s: System, l: Limits, g: Site, i: nat)
    requires Inv(s, l) && i < |At(s, g).outbox.rows|
    ensures At(s, g).outbox.rows[i].upload.messageId != [] && Sound(At(s, g).outbox, l)
  {
    hide Sound, B1Store.Inv, Safe, Is, MarksOk, AllSafe;
    assert GatewayOk(s, l, g);
  }

  lemma KeepsCloud(s: System, l: Limits)
    requires Inv(s, l)
    ensures Cloud.Keeps(s.cloud)
  {
  }

  // ---- a gateway -------------------------------------------------------------------------------------------

  /** The outbox of g has drained into the cloud; ledgers, device and the other gateway are as before. */
  ghost predicate Drained(s: System, g: Site, t: System) {
    && t.device == s.device && t.toDevice == s.toDevice && At(t, g).outbox.rows == []
    && At(t, g).outbox.receipts == At(s, g).outbox.receipts && (forall x :: x != g ==> At(t, x) == At(s, x))
    && (forall id :: InCloud(s, id) || Queued(At(s, g).outbox.rows, id) ==> InCloud(t, id))
  }

  lemma {:induction false} OutboxDrains(s: System, l: Limits, g: Site)
    requires Inv(s, l)
    ensures exists events, t :: Reaches(s, l, events, t) && Inv(t, l) && Drained(s, g, t)
    decreases |At(s, g).outbox.rows|
  {
    hide Inv, Reaches, Leaving, Removed, Sound;
    var rows := At(s, g).outbox.rows;
    if rows == [] {
      ReachesItself(s, l);
      assert Drained(s, g, s);
    } else {
      var r := rows[0];
      RowLeaves(s, l, g, 0);
      var m :| Reaches(s, l, Leaving(g, 0, r.upload), m) && Inv(m, l) && Left(s, g, r, m);
      RemovedRows(rows, r.queueId);
      RemovedFirst(rows);
      NamedRow(s, l, g, 0);
      DeletedIdentity(At(s, g).outbox, l, r);
      OutboxDrains(m, l, g);
      var events, t :| Reaches(m, l, events, t) && Inv(t, l) && Drained(m, g, t);
      ReachesBoth(s, l, Leaving(g, 0, r.upload), m, events, t);
      assert Drained(s, g, t);
    }
  }

  lemma ReachesItself(s: System, l: Limits)
    ensures Reaches(s, l, [], s)
  {
  }

  lemma {:induction false} RemovedFirst(rows: seq<Row>)
    requires rows != []
    ensures |Removed(rows, rows[0].queueId)| < |rows|
  {
    RemovedLength(rows[1..], rows[0].queueId);
  }

  lemma {:induction false} RemovedLength(rows: seq<Row>, k: nat)
    ensures |Removed(rows, k)| <= |rows|
  {
    if rows != [] {
      RemovedLength(rows[1..], k);
    }
  }

  // ---- a message from the device ---------------------------------------------------------------------------

  lemma Arrives(s: System, l: Limits, g: Site, u: Upload, digest: seq<byte>)
    requires |s.device.flash| == |s.device.q.entries|
    ensures Step(s, l, Arrive(g, u, digest, Committed)) == Arrived(s, l, g, u, digest, Committed)
  {
    hide Arrived;
  }

  /** A repeated message with the same evidence is acknowledged again and changes nothing else. */
  lemma RepeatIsAcknowledged(s: System, l: Limits, g: Site, u: Upload, digest: seq<byte>)
    requires Inv(s, l) && u.messageId != []
    requires u.messageId in At(s, g).outbox.receipts && At(s, g).outbox.receipts[u.messageId] == digest
    ensures |s.device.flash| == |s.device.q.entries|
    ensures Step(s, l, Arrive(g, u, digest, Committed)) == s.(toDevice := s.toDevice + {u.messageId})
  {
    hide Inv, Step, Queued, HasRoom;
    ReachesOne(s, l, Arrive(g, u, digest, Committed));
    Arrives(s, l, g, u, digest);
  }

  /** Uploads that fit an empty outbox, one for each message id. */
  ghost predicate Fitting(l: Limits, upload: Name -> Upload) {
    forall id :: upload(id).messageId == id
      && |upload(id).payload| + (if upload(id).high then 0 else l.reservedBytes) <= l.maxBytes
  }

  /** The ledger knows no other evidence. */
  ghost predicate Consistent(w: Gateway, digest: Name -> seq<byte>) {
    forall id :: id in w.outbox.receipts ==> w.outbox.receipts[id] == digest(id)
  }

  ghost predicate Acknowledged(s: System, g: Site, id: Name, digest: Name -> seq<byte>, t: System) {
    && t.device == s.device && s.toDevice <= t.toDevice && id in t.toDevice && Consistent(At(t, g), digest)
    && |At(t, g).outbox.receipts| <= |At(s, g).outbox.receipts| + 1
  }

  lemma AnswerToNew(s: System, l: Limits, g: Site, u: Upload, digest: Name -> seq<byte>)
    requires ValidLimits(l) && At(s, g).outbox.rows == [] && Consistent(At(s, g), digest)
    requires |u.payload| + (if u.high then 0 else l.reservedBytes) <= l.maxBytes
    requires |At(s, g).outbox.receipts| < l.maxReceipts
    ensures Acknowledged(s, g, u.messageId, digest, Arrived(s, l, g, u, digest(u.messageId), Committed))
  {
    var q := At(s, g).outbox;
    assert q.receipts[u.messageId := digest(u.messageId)].Keys == q.receipts.Keys + {u.messageId};
  }

  /** A message, new or repeated, is acknowledged after the outbox has drained. */
  lemma MessageArrives(s: System, l: Limits, g: Site, id: Name, upload: Name -> Upload, digest: Name -> seq<byte>)
    requires Inv(s, l) && id != [] && Fitting(l, upload) && Consistent(At(s, g), digest)
    requires |At(s, g).outbox.receipts| < l.maxReceipts
    ensures exists events, t :: Reaches(s, l, events, t) && Inv(t, l) && Acknowledged(s, g, id, digest, t)
  {
    hide Inv, Reaches, Step, Arrived;
    OutboxDrains(s, l, g);
    var events, m :| Reaches(s, l, events, m) && Inv(m, l) && Drained(s, g, m);
    var u, d := upload(id), digest(id);
    ReachesNext(s, l, events, m, Arrive(g, u, d, Committed));
    Arrives(m, l, g, u, d);
    InvLimits(s, l);
    AnswerToNew(m, l, g, u, digest);
    assert Acknowledged(s, g, id, digest, Arrived(m, l, g, u, d, Committed));
  }

  lemma InvLimits(s: System, l: Limits)
    requires Inv(s, l)
    ensures ValidLimits(l) && |s.device.flash| == |s.device.q.entries|
  {
    InvCounts(s.device);
  }

  // ---- a record of the device --------------------------------------------------------------------------------

  function ActiveCount(entries: seq<B1Outbox.Entry>): nat {
    if entries == [] then 0
    else ActiveCount(entries[..|entries| - 1]) + (if entries[|entries| - 1].active then 1 else 0)
  }

  lemma {:induction false} FewerActive(p: seq<B1Outbox.Entry>, q: seq<B1Outbox.Entry>, i: nat)
    requires |p| == |q| && i < |p| && p[i].active && !q[i].active
    requires forall j :: 0 <= j < |p| && j != i ==> q[j].active == p[j].active
    ensures ActiveCount(q) + 1 == ActiveCount(p)
    decreases |p|
  {
    var n := |p| - 1;
    if i == n {
      SameActive(p[..n], q[..n]);
    } else {
      FewerActive(p[..n], q[..n], i);
    }
  }

  lemma {:induction false} SameActive(p: seq<B1Outbox.Entry>, q: seq<B1Outbox.Entry>)
    requires |p| == |q| && forall j :: 0 <= j < |p| ==> q[j].active == p[j].active
    ensures ActiveCount(q) == ActiveCount(p)
    decreases |p|
  {
    if p != [] {
      SameActive(p[..|p| - 1], q[..|p| - 1]);
    }
  }

  lemma {:induction false} NoneActive(entries: seq<B1Outbox.Entry>)
    ensures ActiveCount(entries) == 0 <==> B1Outbox.Empty(entries)
    decreases |entries|
  {
    if entries != [] {
      NoneActive(entries[..|entries| - 1]);
    }
  }

  /** What the way of one record to the cloud needs. */
  ghost predicate Open(s: System, l: Limits, g: Site, upload: Name -> Upload, digest: Name -> seq<byte>, k: nat) {
    && Inv(s, l) && B1Progress.Steady(s.device) && Fitting(l, upload) && Consistent(At(s, g), digest)
    && |At(s, g).outbox.receipts| + 2 * k <= l.maxReceipts
    && s.device.q.now + k * B1Progress.ROUND < U64_MAX
  }

  lemma DeviceEvent(s: System, l: Limits, e: B1Store.Event)
    requires |s.device.flash| == |s.device.q.entries|
    requires e.Acknowledgement? ==> e.id in s.toDevice
    ensures Step(s, l, Device(e)) == s.(device := B1Store.Step(s.device, e))
  {
    hide B1Store.Step;
  }

  /** The device is one round later and has a transmitted record. */
  ghost predicate HasSent(d: B1Store.Device, e: B1Store.Device) {
    && B1Progress.Steady(e) && e.q.now == d.q.now + B1Progress.ROUND && e.admitted == d.admitted
    && ActiveCount(e.q.entries) == ActiveCount(d.q.entries)
    && exists i :: 0 <= i < |e.q.entries| && e.q.entries[i].active && e.q.entries[i].totalAttempts > 0
  }

  lemma DeviceSends(d: B1Store.Device)
    requires B1Progress.Steady(d) && d.q.now + B1Progress.ROUND < U64_MAX && !B1Outbox.Empty(d.q.entries)
    ensures |d.flash| == |d.q.entries|
    ensures HasSent(d, B1Store.Step(d, B1Store.Poll(d.q.now + B1Progress.ROUND)))
  {
    hide B1Outbox.Next, B1Store.Inv, B1Progress.Near, B1Outbox.NormalCount;
    B1Progress.StepSteady(d, B1Store.Poll(d.q.now + B1Progress.ROUND));
    B1Progress.OldestIsSent(d.q);
    var (p, slot) := B1Outbox.Next(d.q, d.q.now + B1Progress.ROUND);
    assert forall j :: 0 <= j < |p.entries| ==> B1Store.SameSlot(d.q.entries[j], p.entries[j]);
    SameActive(d.q.entries, p.entries);
    assert p.entries[slot.value].active;
  }

  /** The device polls, and its oldest record goes out. */
  lemma RecordSent(s: System, l: Limits)
    requires Inv(s, l) && B1Progress.Steady(s.device) && s.device.q.now + B1Progress.ROUND < U64_MAX
    requires !B1Outbox.Empty(s.device.q.entries)
    ensures exists e, t :: Reaches(s, l, [e], t) && Inv(t, l) && t == s.(device := t.device)
              && HasSent(s.device, t.device)
  {
    hide Inv, Step, Reaches, B1Store.Step, B1Progress.Steady, HasSent, B1Outbox.Empty;
    var e := B1Store.Poll(s.device.q.now + B1Progress.ROUND);
    ReachesOne(s, l, Device(e));
    DeviceEvent(s, l, e);
    DeviceSends(s.device);
  }

  /** Both messages of a transmitted record are acknowledged. */
  ghost predicate Answering(s: System, i: nat) {
    && i < |s.device.q.entries| && s.device.q.entries[i].active && s.device.q.entries[i].totalAttempts > 0
    && MessageId(s.device.q.entries[i].record, 83) in s.toDevice
    && (s.device.q.entries[i].record.hasAlert == 1 ==> MessageId(s.device.q.entries[i].record, 65) in s.toDevice)
  }

  ghost predicate HasFreed(d: B1Store.Device, e: B1Store.Device) {
    && B1Progress.Steady(e) && e.q.now == d.q.now && e.admitted == d.admitted
    && ActiveCount(e.q.entries) + 1 == ActiveCount(d.q.entries)
  }

  lemma DeviceFrees(d: B1Store.Device, i: nat)
    requires B1Progress.Steady(d) && |d.flash| == |d.q.entries|
    requires i < |d.q.entries| && d.q.entries[i].active && d.q.entries[i].totalAttempts > 0
    ensures HasFreed(d, B1Progress.Released(d, i))
  {
    hide B1Progress.Confirmed, B1Progress.Steady;
    B1Progress.SlotBecomesFree(d, i);
    ReleasedSteady(d, i);
    FewerActive(d.q.entries, B1Progress.Released(d, i).q.entries, i);
  }

  lemma ConfirmedIsStep(d: B1Store.Device, i: nat, suffix: byte)
    requires |d.flash| == |d.q.entries| && i < |d.q.entries| && suffix != 0
    ensures B1Progress.Confirmed(d, i, suffix)
            == B1Store.Step(d, B1Store.Acknowledgement(MessageId(d.q.entries[i].record, suffix), B1Store.OK, true))
  {
    hide B1Store.Acked;
  }

  lemma ReleasedSteady(d: B1Store.Device, i: nat)
    requires B1Progress.Steady(d) && |d.flash| == |d.q.entries| && i < |d.q.entries|
    ensures B1Progress.Steady(B1Progress.Released(d, i))
  {
    hide B1Progress.Confirmed, B1Progress.Steady, B1Store.Step;
    var m := B1Progress.Confirmed(d, i, 83);
    ConfirmedIsStep(d, i, 83);
    B1Progress.StepSteady(d, B1Store.Acknowledgement(MessageId(d.q.entries[i].record, 83), B1Store.OK, true));
    ConfirmedIsStep(m, i, 65);
    B1Progress.StepSteady(m, B1Store.Acknowledgement(MessageId(m.q.entries[i].record, 65), B1Store.OK, true));
  }

  /** The acknowledgements reach the device, and the slot of the record is free. */
  lemma RecordFreed(s: System, l: Limits, i: nat)
    requires Inv(s, l) && B1Progress.Steady(s.device) && Answering(s, i)
    ensures exists events, t :: Reaches(s, l, events, t) && Inv(t, l) && t == s.(device := t.device)
              && HasFreed(s.device, t.device)
  {
    hide Inv, Step, Reaches, B1Store.Step, B1Progress.Steady, HasFreed, MessageId, B1Progress.Confirmed;
    var d := s.device;
    var a := B1Store.Acknowledgement(MessageId(d.q.entries[i].record, 83), B1Store.OK, true);
    ReachesOne(s, l, Device(a));
    DeviceEvent(s, l, a);
    ConfirmedIsStep(d, i, 83);
    B1Progress.SlotBecomesFree(d, i);
    DeviceFrees(d, i);
    var m := Step(s, l, Device(a));
    if m.device.q.entries[i].active {
      var b := B1Store.Acknowledgement(MessageId(m.device.q.entries[i].record, 65), B1Store.OK, true);
      ReachesNext(s, l, [Device(a)], m, Device(b));
      DeviceEvent(m, l, b);
      ConfirmedIsStep(m.device, i, 65);
      assert Reaches(s, l, [Device(a)] + [Device(b)], Step(m, l, Device(b)));
    }
  }

  // ---- everything ------------------------------------------------------------------------------------------

  lemma IdsNamed(r: Record)
    ensures MessageId(r, 83) != [] && MessageId(r, 65) != []
  {
  }

  /** Both messages of the record in slot i arrive. */
  lemma MessagesArrive(s: System, l: Limits, g: Site, i: nat, upload: Name -> Upload, digest: Name -> seq<byte>)
    requires Inv(s, l) && Fitting(l, upload) && Consistent(At(s, g), digest)
    requires |At(s, g).outbox.receipts| + 2 <= l.maxReceipts
    requires i < |s.device.q.entries| && s.device.q.entries[i].active && s.device.q.entries[i].totalAttempts > 0
    ensures exists events, t :: Reaches(s, l, events, t) && Inv(t, l) && t.device == s.device && Answering(t, i)
              && Consistent(At(t, g), digest) && |At(t, g).outbox.receipts| <= |At(s, g).outbox.receipts| + 2
  {
    hide Inv, Reaches, MessageId, Fitting, Consistent;
    var r := s.device.q.entries[i].record;
    IdsNamed(r);
    MessageArrives(s, l, g, MessageId(r, 83), upload, digest);
    var a, m :| Reaches(s, l, a, m) && Inv(m, l) && Acknowledged(s, g, MessageId(r, 83), digest, m);
    MessageArrives(m, l, g, MessageId(r, 65), upload, digest);
    var b, t :| Reaches(m, l, b, t) && Inv(t, l) && Acknowledged(m, g, MessageId(r, 65), digest, t);
    ReachesBoth(s, l, a, m, b, t);
    assert Answering(t, i);
  }

  lemma RecordGoes(s: System, l: Limits, g: Site, upload: Name -> Upload, digest: Name -> seq<byte>, k: nat)
    requires Open(s, l, g, upload, digest, k) && k > 0 && !B1Outbox.Empty(s.device.q.entries)
    ensures exists events, t :: Reaches(s, l, events, t) && Open(t, l, g, upload, digest, k - 1)
              && ActiveCount(t.device.q.entries) + 1 == ActiveCount(s.device.q.entries)
              && t.device.admitted == s.device.admitted
  {
    hide Inv, Reaches, Fitting, Consistent, B1Progress.Steady, Answering;
    RecordSent(s, l);
    var e, s1 :| Reaches(s, l, [e], s1) && Inv(s1, l) && s1 == s.(device := s1.device) && HasSent(s.device, s1.device);
    var i: nat :| i < |s1.device.q.entries| && s1.device.q.entries[i].active
      && s1.device.q.entries[i].totalAttempts > 0;
    MessagesArrive(s1, l, g, i, upload, digest);
    var a, s2 :| Reaches(s1, l, a, s2) && Inv(s2, l) && s2.device == s1.device && Answering(s2, i)
      && Consistent(At(s2, g), digest) && |At(s2, g).outbox.receipts| <= |At(s1, g).outbox.receipts| + 2;
    RecordFreed(s2, l, i);
    var b, t :| Reaches(s2, l, b, t) && Inv(t, l) && t == s2.(device := t.device) && HasFreed(s2.device, t.device);
    ReachesBoth(s, l, [e], s1, a, s2);
    ReachesBoth(s, l, [e] + a, s2, b, t);
    assert At(t, g) == At(s2, g);
  }

  lemma {:induction false} DeviceEmpties(s: System, l: Limits, g: Site, upload: Name -> Upload,
                                         digest: Name -> seq<byte>, k: nat)
    requires Open(s, l, g, upload, digest, k) && ActiveCount(s.device.q.entries) <= k
    ensures exists events, t :: Reaches(s, l, events, t) && Inv(t, l) && B1Outbox.Empty(t.device.q.entries)
              && t.device.admitted == s.device.admitted
    decreases k
  {
    hide Reaches, B1Outbox.Empty, B1Progress.Steady, Fitting, Consistent, Inv;
    NoneActive(s.device.q.entries);
    if B1Outbox.Empty(s.device.q.entries) {
      ReachesItself(s, l);
    } else {
      RecordGoes(s, l, g, upload, digest, k);
      var a, m :| Reaches(s, l, a, m) && Open(m, l, g, upload, digest, k - 1)
        && ActiveCount(m.device.q.entries) + 1 == ActiveCount(s.device.q.entries)
        && m.device.admitted == s.device.admitted;
      DeviceEmpties(m, l, g, upload, digest, k - 1);
      var b, t :| Reaches(m, l, b, t) && Inv(t, l) && B1Outbox.Empty(t.device.q.entries)
        && t.device.admitted == m.device.admitted;
      ReachesBoth(s, l, a, m, b, t);
    }
  }

  /** All messages are where they belong: nothing waits at the device or at a gateway. */
  ghost predicate Settled(s: System) {
    B1Outbox.Empty(s.device.q.entries) && s.a1.outbox.rows == [] && s.a2.outbox.rows == []
  }

  lemma SettledIsStored(s: System, l: Limits, r: Record, id: Name)
    requires Inv(s, l) && Settled(s) && r in s.device.admitted && MessageOf(r, id)
    ensures InCloud(s, id)
  {
    hide GatewayOk, AcksOk, MarksOk, B1Store.SlotsOk, B1Store.Distinct, B1Store.Below, MessageOf;
    assert r in s.device.completed;
    assert AllSafe(s, r);
  }

  lemma SteadyStep(s: System, l: Limits, e: Event)
    requires |s.device.flash| == |s.device.q.entries| && B1Progress.Steady(s.device)
    ensures B1Progress.Steady(Step(s, l, e).device)
  {
    hide B1Progress.Steady, B1Store.Step, Arrived, EnqueuedAt, Replayed, StoredAt, ReceiptAt, DroppedAt, SettledAt;
    SameDevice(s, l, e);
    if e.Device? {
      B1Progress.StepSteady(s.device, e.event);
    }
  }

  lemma SameDevice(s: System, l: Limits, e: Event)
    requires |s.device.flash| == |s.device.q.entries|
    ensures !e.Device? ==> Step(s, l, e).device == s.device
  {
    hide B1Store.Step, Attempted, Enqueued, Cloud.Stored, Removed;
  }

  lemma {:induction false} RunSteady(s: System, l: Limits, events: seq<Event>, t: System)
    requires B1Progress.Steady(s.device) && Reaches(s, l, events, t)
    ensures B1Progress.Steady(t.device)
    decreases |events|
  {
    hide B1Progress.Steady, Step;
    if events != [] {
      SteadyStep(s, l, events[0]);
      RunSteady(Step(s, l, events[0]), l, events[1..], t);
    }
  }

  /**
   * Nothing is stuck: from every reachable state, after whatever losses, failed saves and crashes, there is
   * a continuation without failures that empties the device and both gateways and after which the cloud
   * holds every message of every admitted record of high importance. It needs a gateway whose ledger has
   * room for two receipts a slot and knows no other evidence, messages that fit its outbox, and a clock
   * that is some hours from its end.
   */
  lemma EverythingArrives(l: Limits, events: seq<Event>, s: System, g: Site, upload: Name -> Upload,
                          digest: Name -> seq<byte>)
    requires ValidLimits(l) && Reaches(NewSystem(), l, events, s)
    requires Fitting(l, upload) && Consistent(At(s, g), digest)
    requires |At(s, g).outbox.receipts| + 2 * B1Outbox.CAPACITY <= l.maxReceipts
    requires s.device.q.now + B1Outbox.CAPACITY * B1Progress.ROUND < U64_MAX
    ensures exists more, t :: Reaches(s, l, more, t) && Settled(t)
              && forall r, id :: r in s.device.admitted && MessageOf(r, id) ==> InCloud(t, id)
  {
    hide Reaches, Inv, B1Progress.Steady, Fitting, Consistent, MessageOf;
    NewSystemInv(l);
    RunKeeps(NewSystem(), l, events, s);
    B1Progress.NewSteady();
    RunSteady(NewSystem(), l, events, s);
    AtMostSixteen(s.device);
    DeviceEmpties(s, l, g, upload, digest, B1Outbox.CAPACITY);
    var a, s1 :| Reaches(s, l, a, s1) && Inv(s1, l) && B1Outbox.Empty(s1.device.q.entries)
      && s1.device.admitted == s.device.admitted;
    OutboxDrains(s1, l, A1);
    var b, s2 :| Reaches(s1, l, b, s2) && Inv(s2, l) && Drained(s1, A1, s2);
    OutboxDrains(s2, l, A2);
    var c, t :| Reaches(s2, l, c, t) && Inv(t, l) && Drained(s2, A2, t);
    ReachesBoth(s, l, a, s1, b, s2);
    ReachesBoth(s, l, a + b, s2, c, t);
    assert At(t, A1) == At(s2, A1);
    forall r, id | r in s.device.admitted && MessageOf(r, id) ensures InCloud(t, id) {
      SettledIsStored(t, l, r, id);
    }
  }

  lemma AtMostSixteen(d: B1Store.Device)
    requires B1Progress.Steady(d)
    ensures ActiveCount(d.q.entries) <= B1Outbox.CAPACITY
  {
    B1Store.SlotCounts(d.q.entries, d.flash);
    ActiveAtMost(d.q.entries);
  }

  lemma {:induction false} ActiveAtMost(entries: seq<B1Outbox.Entry>)
    ensures ActiveCount(entries) <= |entries|
    decreases |entries|
  {
    if entries != [] {
      ActiveAtMost(entries[..|entries| - 1]);
    }
  }
}
