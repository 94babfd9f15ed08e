/** What is kept along the chain from device to cloud is kept with its contents. */
module ConservationContents {
  import opened Wrappers
  import opened Bytes
  import opened B1Record
  import B1Store
  import opened OfflineQueues
  import opened Conservation
  import Cloud

  /** Which payloads belong to a message id. */
  type Contents = (Name, seq<byte>) -> bool

  predicate Carries(content: Contents, u: Upload) {
    content(u.messageId, u.payload)
  }

  /** Uploads offered to a gateway carry what belongs to their id. */
  predicate Genuine(content: Contents, e: Event) {
    match e
    case Arrive(_, u, _, _) => Carries(content, u)
    case Enqueue(_, u, _) => Carries(content, u)
    case _ => true
  }

  predicate AllGenuine(content: Contents, events: seq<Event>) {
    forall e :: e in events ==> Genuine(content, e)
  }

  ghost predicate GatewayIntact(content: Contents, w: Gateway) {
    && (forall r :: r in w.outbox.rows ==> Carries(content, r.upload))
    && (w.flight.Some? ==> Carries(content, w.flight.value.row.upload))
  }

  ghost predicate HistoryIntact(content: Contents, t: Cloud.Tables) {
    forall e :: e in t.history ==> content(e.messageId, e.payload)
  }

  /** Whatever is queued, under way or in the cloud has contents that belong to its id. */
  ghost predicate Intact(content: Contents, s: System) {
    && GatewayIntact(content, s.a1) && GatewayIntact(content, s.a2)
    && (forall g, u :: (g, u) in s.sent ==> Carries(content, u))
    && HistoryIntact(content, s.cloud.working) && HistoryIntact(content, s.cloud.durable)
  }

  lemma AppendIntact(content: Contents, rows: seq<Row>, r: Row)
    requires (forall x :: x in rows ==> Carries(content, x.upload)) && Carries(content, r.upload)
    ensures forall x :: x in rows + [r] ==> Carries(content, x.upload)
  {
  }

  lemma ArriveIntact(content: Contents, s: System, l: Limits, g: Site, u: Upload, digest: seq<byte>, o: SaveOutcome)
    requires Intact(content, s) && Carries(content, u)
    ensures Intact(content, Arrived(s, l, g, u, digest, o))
  {
    hide Carries, HasRoom, Queued, HistoryIntact;
    AppendIntact(content, At(s, g).outbox.rows, Row(At(s, g).outbox.nextId, u));
  }

  lemma EnqueueIntact(content: Contents, s: System, l: Limits, g: Site, u: Upload, o: SaveOutcome)
    requires Intact(content, s) && Carries(content, u)
    ensures Intact(content, EnqueuedAt(s, l, g, u, o))
  {
    hide Carries, HasRoom, Queued, HistoryIntact;
    AppendIntact(content, At(s, g).outbox.rows, Row(At(s, g).outbox.nextId, u));
  }

  lemma RowsRemoved(content: Contents, s: System, g: Site, k: nat)
    requires Intact(content, s)
    ensures forall r :: r in Removed(At(s, g).outbox.rows, k) ==> Carries(content, r.upload)
  {
    hide Carries, HistoryIntact;
    RemovedRows(At(s, g).outbox.rows, k);
  }

  lemma StoreIntact(content: Contents, s: System, g: Site, u: Upload, valid: bool, broken: bool, o: SaveOutcome)
    requires Intact(content, s)
    ensures Intact(content, StoredAt(s, g, u, valid, broken, o))
  {
    hide GatewayIntact;
  }

  lemma StepIntact(content: Contents, s: System, l: Limits, e: Event)
    requires Intact(content, s) && Genuine(content, e) && |s.device.flash| == |s.device.q.entries|
    ensures Intact(content, Step(s, l, e))
  {
    hide Carries, HistoryIntact, Arrived, EnqueuedAt, StoredAt, Removed, B1Store.Step;
    match e
    case Arrive(g, u, digest, o) => ArriveIntact(content, s, l, g, u, digest, o);
    case Enqueue(g, u, o) => EnqueueIntact(content, s, l, g, u, o);
    case Store(g, u, valid, broken, o) => StoreIntact(content, s, g, u, valid, broken, o);
    case Drop(g, o) =>
      if At(s, g).flight.Some? {
        RowsRemoved(content, s, g, At(s, g).flight.value.row.queueId);
      }
    case Settle(g, k) => RowsRemoved(content, s, g, k);
    case _ =>
  }

  lemma {:induction false} RunIntact(content: Contents, s: System, l: Limits, events: seq<Event>, t: System)
    requires Intact(content, s) && AllGenuine(content, events) && Reaches(s, l, events, t)
    ensures Intact(content, t)
    decreases |events|
  {
    hide Intact, Step, Genuine;
    if events != [] {
      StepIntact(content, s, l, events[0]);
      RunIntact(content, Step(s, l, events[0]), l, events[1..], t);
    }
  }

  lemma {:induction false} RowExists(history: seq<Cloud.Entry>, id: Name)
    requires Cloud.Rows(history, id) > 0
    ensures exists e :: e in history && e.messageId == id
    decreases |history|
  {
    var n := |history| - 1;
    assert history[n] in history;
    if history[n].messageId != id {
      RowExists(history[..n], id);
    }
  }

  /** A gateway row or a durable row of the cloud holds the id with contents that belong to it. */
  ghost predicate Delivered(content: Contents, s: System, id: Name) {
    || (exists r :: r in s.a1.outbox.rows + s.a2.outbox.rows && r.upload.messageId == id && Carries(content, r.upload))
    || (exists e :: e in s.cloud.durable.history && e.messageId == id && content(id, e.payload))
  }

  /**
   * Over every run whose uploads carry what belongs to their ids: each message of an admitted record of
   * high importance is still in the device's durable store, or it is kept beyond it with such contents,
   * and every row of the cloud has contents that belong to its id.
   */
  lemma ContentsAreKept(content: Contents, l: Limits, events: seq<Event>, s: System, r: Record, id: Name)
    requires ValidLimits(l) && Reaches(NewSystem(), l, events, s) && AllGenuine(content, events)
    requires r in s.device.admitted && MessageOf(r, id)
    ensures InDevice(s.device, r) || Delivered(content, s, id)
    ensures forall e :: e in s.cloud.durable.history ==> content(e.messageId, e.payload)
  {
    hide Step, Reaches, MessageOf, InDevice, Cloud.Rows;
    RunIntact(content, NewSystem(), l, events, s);
    NothingIsLost(l, events, s, r, id);
    if InCloud(s, id) {
      RowExists(s.cloud.durable.history, id);
    } else if Safe(s, id) {
      var rows := if Queued(s.a1.outbox.rows, id) then s.a1.outbox.rows else s.a2.outbox.rows;
      var i :| 0 <= i < |rows| && rows[i].upload.messageId == id;
      assert rows[i] in s.a1.outbox.rows + s.a2.outbox.rows;
    }
  }
}
