/** From the B1 device over two gateways to the cloud: no message of an admitted record is ever lost. */
module Conservation {
  import opened Wrappers
  import opened Bytes
  import opened B1Record
  import B1Outbox
  import B1Store
  import B1Checkpoint
  import opened OfflineQueues
  import Cloud

  datatype Site = A1 | A2

  /** The row whose receipt is awaited, and whether that receipt came. */
  datatype Flight = Flight(row: Row, received: bool)

  /** A gateway: its durable outbox, its replay in progress, and deletions whose commit is still open. */
  datatype Gateway = Gateway(outbox: Outbox, flight: Option<Flight>, doomed: set<nat>)

  /** toDevice and receipts hold every acknowledgement ever sent; any of them may arrive at any time. */
  datatype System = System(device: B1Store.Device, a1: Gateway, a2: Gateway, cloud: Cloud.State,
                           sent: set<(Site, Upload)>, toDevice: set<Name>, receipts: set<(Site, Name)>)

  function At(s: System, g: Site): Gateway {
    if g == A1 then s.a1 else s.a2
  }

  function With(s: System, g: Site, w: Gateway): System {
    if g == A1 then s.(a1 := w) else s.(a2 := w)
  }

  datatype Event =
    | Device(event: B1Store.Event)
    | Arrive(g: Site, u: Upload, digest: seq<byte>, save: SaveOutcome)
    | Enqueue(g: Site, u: Upload, save: SaveOutcome)
    | Replay(g: Site, i: nat)
    | Store(g: Site, u: Upload, valid: bool, broken: bool, save: SaveOutcome)
    | Receipt(g: Site, id: Name)
    | Drop(g: Site, save: SaveOutcome)
    | Settle(g: Site, queueId: nat)
    | GiveUp(g: Site)
    | CloudRestart

  /** admit_sensor and its acknowledgement, which repeats for a duplicate. */
  function Arrived(s: System, l: Limits, g: Site, u: Upload, digest: seq<byte>, o: SaveOutcome): System {
    var (q, v) := Attempted(At(s, g).outbox, l, u, digest, o);
    With(s, g, At(s, g).(outbox := q)).(toDevice := if v == Refused then s.toDevice else s.toDevice + {u.messageId})
  }

  /** enqueue: any other upload made durable. */
  function EnqueuedAt(s: System, l: Limits, g: Site, u: Upload, o: SaveOutcome): System {
    match Enqueued(At(s, g).outbox, l, u)
    case None => s
    case Some((q, _, _)) => if o == LostUnapplied then s else With(s, g, At(s, g).(outbox := q))
  }

  /** The next row of a batch goes to the cloud. */
  function Replayed(s: System, g: Site, i: nat): System {
    var w := At(s, g);
    if i >= |w.outbox.rows| || w.flight.Some? then s
    else
      var r := w.outbox.rows[i];
      With(s, g, w.(flight := Some(Flight(r, false)))).(sent := s.sent + {(g, r.upload)})
  }

  function StoredAt(s: System, g: Site, u: Upload, valid: bool, broken: bool, o: SaveOutcome): System {
    if (g, u) !in s.sent then s
    else
      var entry := Cloud.Entry(u.messageId, if g == A1 then [65, 49] else [65, 50], u.payload);
      var (c, acked) := Cloud.Stored(s.cloud, Cloud.Upload(entry, valid, true), broken, o);
      s.(cloud := c, receipts := if acked then s.receipts + {(g, u.messageId)} else s.receipts)
  }

  /** A receipt counts only for the message that is waiting for it. */
  function ReceiptAt(s: System, g: Site, id: Name): System {
    var w := At(s, g);
    if (g, id) !in s.receipts || w.flight == None || w.flight.value.row.upload.messageId != id then s
    else With(s, g, w.(flight := Some(w.flight.value.(received := true))))
  }

  /** The row is deleted once its receipt came; a deletion that fails may still take effect later. */
  function DroppedAt(s: System, g: Site, o: SaveOutcome): System {
    var w := At(s, g);
    if w.flight == None || !w.flight.value.received then s
    else
      var k := w.flight.value.row.queueId;
      With(s, g, if o == LostUnapplied then w.(flight := None, doomed := w.doomed + {k})
                 else w.(flight := None, outbox := w.outbox.(rows := Removed(w.outbox.rows, k))))
  }

  function SettledAt(s: System, g: Site, k: nat): System {
    var w := At(s, g);
    if k !in w.doomed then s else With(s, g, w.(outbox := w.outbox.(rows := Removed(w.outbox.rows, k))))
  }

  /** An acknowledgement reaches the device only if some gateway sent it. */
  ghost function DeviceStep(s: System, e: B1Store.Event): System
    requires |s.device.flash| == |s.device.q.entries|
  {
    if e.Acknowledgement? && e.id !in s.toDevice then s else s.(device := B1Store.Step(s.device, e))
  }

  ghost function Step(s: System, l: Limits, e: Event): System
    requires |s.device.flash| == |s.device.q.entries|
  {
    match e
    case Device(d) => DeviceStep(s, d)
    case Arrive(g, u, digest, o) => Arrived(s, l, g, u, digest, o)
    case Enqueue(g, u, o) => EnqueuedAt(s, l, g, u, o)
    case Replay(g, i) => Replayed(s, g, i)
    case Store(g, u, valid, broken, o) => StoredAt(s, g, u, valid, broken, o)
    case Receipt(g, id) => ReceiptAt(s, g, id)
    case Drop(g, o) => DroppedAt(s, g, o)
    case Settle(g, k) => SettledAt(s, g, k)
    case GiveUp(g) => With(s, g, At(s, g).(flight := None))
    case CloudRestart => s.(cloud := Cloud.Restarted(s.cloud))
  }

  // ---- the invariant -------------------------------------------------------------------------------------

  predicate InCloud(s: System, id: Name) {
    id in s.cloud.durable.processed
  }

  /** A gateway outbox or the cloud holds the message durably. */
  ghost predicate Safe(s: System, id: Name) {
    Queued(s.a1.outbox.rows, id) || Queued(s.a2.outbox.rows, id) || InCloud(s, id)
  }

  /** Rows with a queue id are the row it was given to. */
  predicate Is(rows: seq<Row>, r: Row) {
    forall i :: 0 <= i < |rows| && rows[i].queueId == r.queueId ==> rows[i] == r
  }

  ghost predicate GatewayOk(s: System, l: Limits, g: Site) {
    var w := At(s, g);
    && Sound(w.outbox, l)
    && (forall id :: id in w.outbox.receipts ==> Safe(s, id))
    && (w.flight.Some? ==>
          && w.flight.value.row.queueId < w.outbox.nextId && Is(w.outbox.rows, w.flight.value.row)
          && w.flight.value.row.upload.messageId != []
          && (w.flight.value.received ==> InCloud(s, w.flight.value.row.upload.messageId)))
    && (forall k :: k in w.doomed ==> k < w.outbox.nextId)
    && (forall i :: 0 <= i < |w.outbox.rows| ==> w.outbox.rows[i].upload.messageId != [])
    && (forall i :: 0 <= i < |w.outbox.rows| && w.outbox.rows[i].queueId in w.doomed ==>
          InCloud(s, w.outbox.rows[i].upload.messageId))
  }

  ghost predicate AcksOk(s: System) {
    && Cloud.Keeps(s.cloud)
    && (forall id :: id in s.toDevice ==> Safe(s, id))
    && (forall g, id :: (g, id) in s.receipts ==> InCloud(s, id))
    && (forall g, u :: (g, u) in s.sent ==> u.messageId != [])
  }

  /** The messages of a record. */
  ghost predicate MessageOf(r: Record, id: Name) {
    id == MessageId(r, 83) || (r.hasAlert == 1 && id == MessageId(r, 65))
  }

  ghost predicate AllSafe(s: System, r: Record) {
    forall id :: MessageOf(r, id) ==> Safe(s, id)
  }

  ghost predicate MarksOk(s: System, e: B1Outbox.Entry) {
    e.active ==>
      && (e.sampleAcked ==> Safe(s, MessageId(e.record, 83)))
      && (e.alertAcked ==> Safe(s, MessageId(e.record, 65)))
  }

  ghost predicate DeviceOk(s: System) {
    && B1Store.Inv(s.device)
    && (forall i :: 0 <= i < |s.device.q.entries| ==> MarksOk(s, s.device.q.entries[i]))
    && (forall r :: r in s.device.completed ==> AllSafe(s, r))
  }

  ghost predicate Inv(s: System, l: Limits) {
    ValidLimits(l) && GatewayOk(s, l, A1) && GatewayOk(s, l, A2) && AcksOk(s) && DeviceOk(s)
  }

  // ---- what is safe stays safe -----------------------------------------------------------------------------

  ghost predicate Grows(s: System, t: System) {
    forall id :: Safe(s, id) ==> Safe(t, id)
  }

  lemma DeviceGrows(s: System, t: System)
    requires DeviceOk(s) && Grows(s, t) && t.device == s.device
    ensures DeviceOk(t)
  {
    hide Safe, B1Store.Inv;
    forall i | 0 <= i < |t.device.q.entries| ensures MarksOk(t, t.device.q.entries[i]) {
      assert MarksOk(s, s.device.q.entries[i]);
    }
    forall r | r in t.device.completed ensures AllSafe(t, r) {
      assert AllSafe(s, r);
    }
  }

  /** One gateway changes its outbox so that nothing safe is lost and its invariant holds. */
  lemma GatewayChanges(s: System, l: Limits, g: Site, w: Gateway, toDevice: set<Name>, sent: set<(Site, Upload)>)
    requires Inv(s, l)
    requires var t := With(s, g, w).(toDevice := toDevice, sent := sent);
             Grows(s, t) && GatewayOk(t, l, g) && (forall id :: id in toDevice ==> id in s.toDevice || Safe(t, id))
    requires forall x, u :: (x, u) in sent ==> u.messageId != []
    ensures Inv(With(s, g, w).(toDevice := toDevice, sent := sent), l)
  {
    hide Safe, Sound, Is, B1Store.Inv, Cloud.Keeps, MarksOk, AllSafe;
    var t := With(s, g, w).(toDevice := toDevice, sent := sent);
    DeviceGrows(s, t);
    var other := if g == A1 then A2 else A1;
    assert At(t, other) == At(s, other);
  }

  /** More rows, all of the new ones at the end and with new queue ids. */
  lemma MoreRows(s: System, l: Limits, g: Site, q: Outbox)
    requires Inv(s, l) && Sound(q, l)
    requires At(s, g).outbox.rows <= q.rows && At(s, g).outbox.nextId <= q.nextId
    requires forall i :: |At(s, g).outbox.rows| <= i < |q.rows| ==>
               q.rows[i].queueId >= At(s, g).outbox.nextId && q.rows[i].upload.messageId != []
    requires forall id :: id in q.receipts && id !in At(s, g).outbox.receipts ==> Queued(q.rows, id)
    ensures var t := With(s, g, At(s, g).(outbox := q)); Grows(s, t) && GatewayOk(t, l, g)
  {
    hide Sound, B1Store.Inv, Cloud.Keeps, MarksOk, AllSafe, DeviceOk, AcksOk;
    var w := At(s, g);
    var t := With(s, g, w.(outbox := q));
    forall id | Queued(w.outbox.rows, id) ensures Queued(q.rows, id) {
      var i :| 0 <= i < |w.outbox.rows| && w.outbox.rows[i].upload.messageId == id;
      assert q.rows[i] == w.outbox.rows[i];
    }
    assert Grows(s, t);
    assert forall i :: 0 <= i < |w.outbox.rows| ==> q.rows[i] == w.outbox.rows[i];
  }

  lemma ArriveKeeps(s: System, l: Limits, g: Site, u: Upload, digest: seq<byte>, o: SaveOutcome)
    requires Inv(s, l) && u.messageId != []
    ensures Inv(Arrived(s, l, g, u, digest, o), l)
  {
    hide Sound, B1Store.Inv, Cloud.Keeps, MarksOk, AllSafe, DeviceOk, Queued, HasRoom, Safe, Is;
    var w := At(s, g);
    var (q, v) := Attempted(w.outbox, l, u, digest, o);
    AdmissionKeeps(w.outbox, l, u, digest, o);
    MoreRows(s, l, g, q);
    var t := Arrived(s, l, g, u, digest, o);
    var base := With(s, g, w.(outbox := q));
    SameSafe(base, t);
    ReceiptSafe(base, l, g, u.messageId);
    SafeStays(s, base);
    OkIgnoresAcks(base, t, l, g);
    GatewayChanges(s, l, g, w.(outbox := q), t.toDevice, s.sent);
  }

  lemma SameSafe(s: System, t: System)
    requires t.a1 == s.a1 && t.a2 == s.a2 && t.cloud == s.cloud
    ensures forall id :: Safe(s, id) <==> Safe(t, id)
  {
  }

  lemma SafeStays(s: System, t: System)
    requires Grows(s, t)
    ensures forall id :: Safe(s, id) ==> Safe(t, id)
  {
  }

  lemma ReceiptSafe(s: System, l: Limits, g: Site, id: Name)
    requires GatewayOk(s, l, g)
    ensures id in At(s, g).outbox.receipts ==> Safe(s, id)
  {
  }

  lemma OkIgnoresAcks(s: System, t: System, l: Limits, g: Site)
    requires GatewayOk(s, l, g) && t == s.(toDevice := t.toDevice, sent := t.sent, device := t.device,
                                         receipts := t.receipts)
    ensures GatewayOk(t, l, g)
  {
    SameSafe(s, t);
  }

  lemma EnqueueKeeps(s: System, l: Limits, g: Site, u: Upload, o: SaveOutcome)
    requires Inv(s, l) && u.messageId != []
    ensures Inv(EnqueuedAt(s, l, g, u, o), l)
  {
    hide Sound, B1Store.Inv, Cloud.Keeps, MarksOk, AllSafe, DeviceOk, Queued, HasRoom, Safe, Is;
    var w := At(s, g);
    if Enqueued(w.outbox, l, u).Some? && o != LostUnapplied {
      var q := Enqueued(w.outbox, l, u).value.0;
      if q != w.outbox {
        AppendSound(w.outbox, l, u);
      }
      MoreRows(s, l, g, q);
      GatewayChanges(s, l, g, w.(outbox := q), s.toDevice, s.sent);
      assert EnqueuedAt(s, l, g, u, o) == With(s, g, w.(outbox := q)).(toDevice := s.toDevice, sent := s.sent);
    }
  }

  // ---- replay --------------------------------------------------------------------------------------------

  /** A change of the replay in progress leaves everything safe. */
  lemma FlightChanges(s: System, l: Limits, g: Site, flight: Option<Flight>, sent: set<(Site, Upload)>)
    requires Inv(s, l)
    requires var t := With(s, g, At(s, g).(flight := flight)); GatewayOk(t, l, g)
    requires forall x, u :: (x, u) in sent ==> u.messageId != []
    ensures Inv(With(s, g, At(s, g).(flight := flight)).(sent := sent), l)
  {
    hide Sound, B1Store.Inv, Cloud.Keeps, MarksOk, AllSafe, DeviceOk, Queued, GatewayOk;
    var t := With(s, g, At(s, g).(flight := flight));
    var u := t.(toDevice := s.toDevice, sent := sent);
    OkIgnoresAcks(t, u, l, g);
    FlightGrows(s, g, flight, sent);
    GatewayChanges(s, l, g, At(s, g).(flight := flight), s.toDevice, sent);
    assert With(s, g, At(s, g).(flight := flight)).(sent := sent) == u;
  }

  lemma FlightGrows(s: System, g: Site, flight: Option<Flight>, sent: set<(Site, Upload)>)
    ensures Grows(s, With(s, g, At(s, g).(flight := flight)).(toDevice := s.toDevice, sent := sent))
  {
  }

  lemma FlightOk(s: System, l: Limits, g: Site, flight: Option<Flight>)
    requires GatewayOk(s, l, g)
    requires flight.Some? ==>
               && flight.value.row.queueId < At(s, g).outbox.nextId && Is(At(s, g).outbox.rows, flight.value.row)
               && flight.value.row.upload.messageId != []
               && (flight.value.received ==> InCloud(s, flight.value.row.upload.messageId))
    ensures GatewayOk(With(s, g, At(s, g).(flight := flight)), l, g)
  {
    hide Sound, Is;
    var t := With(s, g, At(s, g).(flight := flight));
    FlightGrows(s, g, flight, s.sent);
    assert Grows(s, t) by { assert t == t.(toDevice := s.toDevice, sent := s.sent); }
  }

  lemma ReplayKeeps(s: System, l: Limits, g: Site, i: nat)
    requires Inv(s, l)
    ensures Inv(Replayed(s, g, i), l)
  {
    hide B1Store.Inv, Cloud.Keeps, MarksOk, AllSafe, DeviceOk, Queued, Safe, Size;
    var w := At(s, g);
    if i < |w.outbox.rows| && w.flight == None {
      var r := w.outbox.rows[i];
      FlightOk(s, l, g, Some(Flight(r, false)));
      FlightChanges(s, l, g, Some(Flight(r, false)), s.sent + {(g, r.upload)});
    }
  }

  lemma ReceiptKeeps(s: System, l: Limits, g: Site, id: Name)
    requires Inv(s, l)
    ensures Inv(ReceiptAt(s, g, id), l)
  {
    hide B1Store.Inv, Cloud.Keeps, MarksOk, AllSafe, DeviceOk, Queued, Safe, Sound, Is;
    var w := At(s, g);
    if (g, id) in s.receipts && w.flight.Some? && w.flight.value.row.upload.messageId == id {
      var flight := Some(w.flight.value.(received := true));
      FlightOk(s, l, g, flight);
      FlightChanges(s, l, g, flight, s.sent);
      assert ReceiptAt(s, g, id) == With(s, g, w.(flight := flight)).(sent := s.sent);
    }
  }

  lemma GiveUpKeeps(s: System, l: Limits, g: Site)
    requires Inv(s, l)
    ensures Inv(With(s, g, At(s, g).(flight := None)), l)
  {
    hide B1Store.Inv, Cloud.Keeps, MarksOk, AllSafe, DeviceOk, Queued, Safe, Sound, Is;
    FlightOk(s, l, g, None);
    FlightChanges(s, l, g, None, s.sent);
    assert With(s, g, At(s, g).(flight := None)) == With(s, g, At(s, g).(flight := None)).(sent := s.sent);
  }

  /** Rows whose message the cloud holds may go. */
  lemma RowsGo(s: System, l: Limits, g: Site, k: nat, flight: Option<Flight>)
    requires Inv(s, l) && flight in {None, At(s, g).flight}
    requires forall i :: 0 <= i < |At(s, g).outbox.rows| && At(s, g).outbox.rows[i].queueId == k ==>
               InCloud(s, At(s, g).outbox.rows[i].upload.messageId)
    ensures var w := At(s, g).(outbox := At(s, g).outbox.(rows := Removed(At(s, g).outbox.rows, k)), flight := flight);
            Inv(With(s, g, w), l)
  {
    hide B1Store.Inv, Cloud.Keeps, MarksOk, AllSafe, DeviceOk, Sound, Removed, AcksOk;
    var w := At(s, g);
    var rows := Removed(w.outbox.rows, k);
    var x := w.(outbox := w.outbox.(rows := rows), flight := flight);
    var t := With(s, g, x);
    DeletionKeeps(w.outbox, l, k);
    RemovedRows(w.outbox.rows, k);
    forall id | Queued(w.outbox.rows, id) ensures Queued(rows, id) || InCloud(s, id) {
      var i :| 0 <= i < |w.outbox.rows| && w.outbox.rows[i].upload.messageId == id;
      if w.outbox.rows[i].queueId != k {
        assert w.outbox.rows[i] in rows;
        var j :| 0 <= j < |rows| && rows[j] == w.outbox.rows[i];
      }
    }
    assert Grows(s, t);
    forall i | 0 <= i < |rows| ensures exists j :: 0 <= j < |w.outbox.rows| && w.outbox.rows[j] == rows[i] {
      assert rows[i] in w.outbox.rows;
    }
    assert GatewayOk(t, l, g);
    assert t == t.(toDevice := s.toDevice, sent := s.sent);
    SentNamed(s);
    GatewayChanges(s, l, g, x, s.toDevice, s.sent);
  }

  lemma SentNamed(s: System)
    requires AcksOk(s)
    ensures forall x, u :: (x, u) in s.sent ==> u.messageId != []
  {
  }

  lemma DropKeeps(s: System, l: Limits, g: Site, o: SaveOutcome)
    requires Inv(s, l)
    ensures Inv(DroppedAt(s, g, o), l)
  {
    hide B1Store.Inv, Cloud.Keeps, MarksOk, AllSafe, DeviceOk, Sound, Removed, Queued, Safe, AcksOk;
    var w := At(s, g);
    if w.flight.Some? && w.flight.value.received {
      var k := w.flight.value.row.queueId;
      if o == LostUnapplied {
        var x := w.(flight := None, doomed := w.doomed + {k});
        var t := With(s, g, x);
        SameRowsSafe(s, g, x);
        assert GatewayOk(t, l, g);
        assert t == t.(toDevice := s.toDevice, sent := s.sent);
        SentNamed(s);
        GatewayChanges(s, l, g, x, s.toDevice, s.sent);
      } else {
        RowsGo(s, l, g, k, None);
      }
    }
  }

  lemma SameRowsSafe(s: System, g: Site, x: Gateway)
    requires x.outbox == At(s, g).outbox
    ensures Grows(s, With(s, g, x)) && forall id :: Safe(s, id) <==> Safe(With(s, g, x), id)
  {
  }

  lemma SettleKeeps(s: System, l: Limits, g: Site, k: nat)
    requires Inv(s, l)
    ensures Inv(SettledAt(s, g, k), l)
  {
    hide B1Store.Inv, Cloud.Keeps, MarksOk, AllSafe, DeviceOk, Sound, Removed, Queued, Safe, Is;
    if k in At(s, g).doomed {
      RowsGo(s, l, g, k, At(s, g).flight);
    }
  }

  // ---- cloud and device ------------------------------------------------------------------------------------

  lemma CloudGrows(s: System, t: System, l: Limits)
    requires Inv(s, l) && t == s.(cloud := t.cloud, receipts := t.receipts) && Cloud.Keeps(t.cloud)
    requires s.cloud.durable.processed <= t.cloud.durable.processed
    requires forall g, id :: (g, id) in t.receipts && (g, id) !in s.receipts ==> InCloud(t, id)
    ensures Inv(t, l)
  {
    hide B1Store.Inv, Cloud.Keeps, MarksOk, AllSafe, DeviceOk, Sound, Queued, Is;
    assert Grows(s, t);
    DeviceGrows(s, t);
    forall g: Site ensures GatewayOk(t, l, g) {
      assert GatewayOk(s, l, g) && At(t, g) == At(s, g);
    }
  }

  lemma StoreKeeps(s: System, l: Limits, g: Site, u: Upload, valid: bool, broken: bool, o: SaveOutcome)
    requires Inv(s, l)
    ensures Inv(StoredAt(s, g, u, valid, broken, o), l)
  {
    hide B1Store.Inv, Cloud.Keeps, MarksOk, AllSafe, DeviceOk, GatewayOk, Cloud.Stored;
    if (g, u) in s.sent {
      var entry := Cloud.Entry(u.messageId, if g == A1 then [65, 49] else [65, 50], u.payload);
      Cloud.StoredKeeps(s.cloud, Cloud.Upload(entry, valid, true), broken, o);
      CloudGrows(s, StoredAt(s, g, u, valid, broken, o), l);
    }
  }

  lemma CloudRestartKeeps(s: System, l: Limits)
    requires Inv(s, l)
    ensures Inv(s.(cloud := Cloud.Restarted(s.cloud)), l)
  {
    hide B1Store.Inv, Cloud.Keeps, MarksOk, AllSafe, DeviceOk, GatewayOk;
    Cloud.StoredKeeps(s.cloud, Cloud.Upload(Cloud.Entry([], [], []), false, false), false, Committed);
    CloudGrows(s, s.(cloud := Cloud.Restarted(s.cloud)), l);
  }

  /** What a device step does to the marks of an entry: nothing, a fresh start, or a mark for an acknowledged id. */
  lemma MarkSafe(s: System, e: B1Outbox.Entry, id: Text)
    requires MarksOk(s, e) && Safe(s, id) && B1Outbox.Answers(e, id)
    ensures MarksOk(s, B1Outbox.Marked(e, id))
    ensures B1Outbox.Complete(B1Outbox.Marked(e, id)) ==> AllSafe(s, e.record)
  {
    hide Safe;
  }

  lemma AckedDevice(s: System, l: Limits, id: Text, call: B1Store.CallResult, commit: bool)
    requires Inv(s, l) && id in s.toDevice
    ensures |s.device.flash| == |s.device.q.entries|
    ensures var d := B1Store.Acked(s.device, id, call, commit);
            && (forall i :: 0 <= i < |d.q.entries| ==> MarksOk(s, d.q.entries[i]))
            && (forall r :: r in d.completed ==> AllSafe(s, r))
  {
    hide B1Store.Inv, AllSafe, MarksOk, GatewayOk, Safe, Cloud.Keeps, B1Outbox.Answers, B1Outbox.Marked,
         B1Outbox.Complete;
    InvCounts(s.device);
    var q := s.device.q;
    var i := B1Outbox.Answered(q.entries, id, 0);
    if i < |q.entries| {
      var e := q.entries[i];
      assert MarksOk(s, e);
      MarkSafe(s, e, id);
      B1Store.MarkedRecord(e, id);
      Inactive(s, B1Outbox.Marked(e, id));
    }
  }

  lemma InvCounts(d: B1Store.Device)
    requires B1Store.Inv(d)
    ensures |d.flash| == |d.q.entries|
  {
  }

  lemma Inactive(s: System, e: B1Outbox.Entry)
    ensures MarksOk(s, e.(active := false))
  {
  }

  lemma MarksSame(s: System, p: seq<B1Outbox.Entry>, q: seq<B1Outbox.Entry>)
    requires B1Store.SameHolding(p, q)
    requires forall i :: 0 <= i < |p| ==> MarksOk(s, p[i])
    ensures forall i :: 0 <= i < |q| ==> MarksOk(s, q[i])
  {
    hide Safe;
    forall i | 0 <= i < |q| ensures MarksOk(s, q[i]) {
      assert B1Store.SameSlot(p[i], q[i]) && MarksOk(s, p[i]);
    }
  }

  lemma FreshMarks(s: System, r: Record)
    ensures MarksOk(s, B1Outbox.Fresh(r)) && MarksOk(s, B1Outbox.Reserved(r)) && MarksOk(s, B1Outbox.UNUSED)
  {
  }

  lemma OtherDeviceSteps(s: System, l: Limits, e: B1Store.Event)
    requires Inv(s, l) && !e.Acknowledgement?
    ensures |s.device.flash| == |s.device.q.entries|
    ensures var d := B1Store.Step(s.device, e);
            d.completed == s.device.completed && forall i :: 0 <= i < |d.q.entries| ==> MarksOk(s, d.q.entries[i])
  {
    hide B1Store.Inv, AllSafe, MarksOk, GatewayOk, Safe, AcksOk, B1Outbox.Known, B1Outbox.NormalCount, Valid,
         B1Store.Save, B1Outbox.Numbered, B1Outbox.Fresh, B1Outbox.Reserved, B1Outbox.Next, B1Outbox.Tick,
         B1Store.SameHolding, B1Store.LoadFrom;
    InvCounts(s.device);
    var q := s.device.q;
    match e
    case Admission(r, call, commit) =>
      FreshMarks(s, B1Outbox.Numbered(r, q.nextOrder));
    case Clock(now) =>
      B1Store.TimeKeepsHolding(q, now);
      MarksSame(s, q.entries, B1Outbox.Tick(q, now).entries);
    case Poll(now) =>
      B1Store.TimeKeepsHolding(q, now);
      MarksSame(s, q.entries, B1Outbox.Next(q, now).0.entries);
    case Crash(contents) =>
      if B1Store.Possible(s.device.flash, contents) {
        CrashMarks(s, l, contents);
      }
  }

  lemma CrashMarks(s: System, l: Limits, contents: seq<Option<B1Store.Blob>>)
    requires Inv(s, l) && B1Store.Possible(s.device.flash, contents)
    ensures var d := B1Store.Rebooted(s.device, contents);
            forall i :: 0 <= i < |d.q.entries| ==> MarksOk(s, d.q.entries[i])
  {
    hide B1Store.Inv, AllSafe, MarksOk, GatewayOk, Safe, AcksOk, B1Store.LoadFrom, B1Outbox.Fresh;
    B1Store.ReloadSucceeds(s.device, contents);
    var d := B1Store.Rebooted(s.device, contents);
    forall i | 0 <= i < |d.q.entries| ensures MarksOk(s, d.q.entries[i]) {
      FreshMarks(s, s.device.q.entries[i].record);
    }
  }

  lemma DeviceStepKeeps(s: System, l: Limits, e: B1Store.Event)
    requires Inv(s, l)
    ensures |s.device.flash| == |s.device.q.entries| && Inv(DeviceStep(s, e), l)
  {
    hide B1Store.Inv, AllSafe, MarksOk, GatewayOk, Safe, B1Store.Step, Cloud.Keeps;
    InvCounts(s.device);
    if !(e.Acknowledgement? && e.id !in s.toDevice) {
      var t := DeviceStep(s, e);
      B1Store.StepKeeps(s.device, e);
      match e {
        case Acknowledgement(id, call, commit) =>
          AckedDevice(s, l, id, call, commit);
          AckStep(s.device, id, call, commit);
        case _ =>
          OtherDeviceSteps(s, l, e);
      }
      SameSafe(s, t);
      OkIgnoresAcks(s, t, l, A1);
      OkIgnoresAcks(s, t, l, A2);
      DeviceMarks(s, t);
    }
  }

  lemma AckStep(d: B1Store.Device, id: Text, call: B1Store.CallResult, commit: bool)
    requires |d.flash| == |d.q.entries|
    ensures B1Store.Step(d, B1Store.Acknowledgement(id, call, commit)) == B1Store.Acked(d, id, call, commit)
  {
    hide B1Store.Acked;
  }

  lemma DeviceMarks(s: System, t: System)
    requires t == s.(device := t.device) && B1Store.Inv(t.device)
    requires forall i :: 0 <= i < |t.device.q.entries| ==> MarksOk(s, t.device.q.entries[i])
    requires forall r :: r in t.device.completed ==> AllSafe(s, r)
    ensures DeviceOk(t)
  {
    hide Safe, B1Store.Inv;
    SameSafe(s, t);
    forall i | 0 <= i < |t.device.q.entries| ensures MarksOk(t, t.device.q.entries[i]) {
      assert MarksOk(s, t.device.q.entries[i]);
    }
    forall r | r in t.device.completed ensures AllSafe(t, r) {
      assert AllSafe(s, r);
    }
  }

  // ---- whole runs ------------------------------------------------------------------------------------------

  /** Every message has an identity. */
  predicate Named(e: Event) {
    match e
    case Arrive(_, u, _, _) => u.messageId != []
    case Enqueue(_, u, _) => u.messageId != []
    case _ => true
  }

  lemma StepKeeps(s: System, l: Limits, e: Event)
    requires Inv(s, l) && Named(e)
    ensures |s.device.flash| == |s.device.q.entries| && Inv(Step(s, l, e), l)
  {
    hide GatewayOk, AcksOk, B1Store.Inv, DeviceStep, Arrived, EnqueuedAt, Replayed, StoredAt, ReceiptAt, DroppedAt,
         SettledAt;
    InvCounts(s.device);
    match e
    case Device(d) => DeviceStepKeeps(s, l, d);
    case Arrive(g, u, digest, o) => ArriveKeeps(s, l, g, u, digest, o);
    case Enqueue(g, u, o) => EnqueueKeeps(s, l, g, u, o);
    case Replay(g, i) => ReplayKeeps(s, l, g, i);
    case Store(g, u, valid, broken, o) => StoreKeeps(s, l, g, u, valid, broken, o);
    case Receipt(g, id) => ReceiptKeeps(s, l, g, id);
    case Drop(g, o) => DropKeeps(s, l, g, o);
    case Settle(g, k) => SettleKeeps(s, l, g, k);
    case GiveUp(g) => GiveUpKeeps(s, l, g);
    case CloudRestart => CloudRestartKeeps(s, l);
  }

  ghost predicate Reaches(s: System, l: Limits, events: seq<Event>, t: System)
    decreases |events|
  {
    if events == [] then s == t
    else
      && |s.device.flash| == |s.device.q.entries| && Named(events[0])
      && Reaches(Step(s, l, events[0]), l, events[1..], t)
  }

  lemma {:induction false} RunKeeps(s: System, l: Limits, events: seq<Event>, t: System)
    requires Inv(s, l) && Reaches(s, l, events, t)
    ensures Inv(t, l)
    decreases |events|
  {
    hide Inv, Step;
    if events != [] {
      StepKeeps(s, l, events[0]);
      RunKeeps(Step(s, l, events[0]), l, events[1..], t);
    }
  }

  const NEW_GATEWAY := Gateway(Outbox([], 1, map[]), None, {})
  const NEW_TABLES := Cloud.Tables({}, [])

  function NewSystem(): System {
    System(B1Store.NewDevice(), NEW_GATEWAY, NEW_GATEWAY, Cloud.State(NEW_TABLES, NEW_TABLES), {}, {}, {})
  }

  lemma NewSystemInv(l: Limits)
    requires ValidLimits(l)
    ensures Inv(NewSystem(), l)
  {
    hide B1Store.Inv;
    B1Store.NewDeviceInv();
  }

  /** The device holds the record durably: its slot is in use and its flash holds nothing else. */
  ghost predicate InDevice(d: B1Store.Device, r: Record) {
    exists i :: 0 <= i < |d.q.entries| && i < |d.flash| && d.q.entries[i].record == r
      && B1Checkpoint.Encode(r).Some? && d.flash[i] == {B1Checkpoint.Encode(r)}
  }

  /**
   * Conservation over every run, with lost, repeated and delayed messages, failed saves, and crashes
   * of device, gateways and cloud: each message of an admitted record of high importance is in the
   * device's durable store, in a gateway outbox, or in the cloud, which has at most one row of it.
   */
  lemma NothingIsLost(l: Limits, events: seq<Event>, s: System, r: Record, id: Name)
    requires ValidLimits(l) && Reaches(NewSystem(), l, events, s)
    requires r in s.device.admitted && MessageOf(r, id)
    ensures InDevice(s.device, r) || Safe(s, id)
    ensures id != [] && Cloud.Rows(s.cloud.durable.history, id) == if InCloud(s, id) then 1 else 0
  {
    hide GatewayOk, Cloud.Rows, Safe, Step;
    NewSystemInv(l);
    RunKeeps(NewSystem(), l, events, s);
    if r in s.device.completed {
      assert AllSafe(s, r);
    } else {
      OwedIsStored(s.device, r);
    }
  }

  /** No message, of whatever kind, has two rows in the cloud. */
  lemma CloudHasOneRow(l: Limits, events: seq<Event>, s: System, id: Name)
    requires ValidLimits(l) && Reaches(NewSystem(), l, events, s) && id != []
    ensures Cloud.Rows(s.cloud.durable.history, id) <= 1
  {
    hide GatewayOk, Cloud.Rows, Safe, Step, B1Store.Inv;
    NewSystemInv(l);
    RunKeeps(NewSystem(), l, events, s);
  }

  lemma OwedIsStored(d: B1Store.Device, r: Record)
    requires B1Store.Inv(d) && r in d.admitted && r !in d.completed
    ensures InDevice(d, r)
  {
    hide Valid, B1Checkpoint.Image, B1Outbox.Complete;
    var i :| 0 <= i < |d.q.entries| && d.q.entries[i].active && d.q.entries[i].record == r;
    assert B1Store.SlotOk(d.q.entries[i], d.flash[i]);
    B1Store.HighIncomplete(d, i);
  }
}
