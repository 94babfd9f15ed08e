/** The cloud server's history: deduplication and insertion in one transaction, acknowledged after its commit. */
module Cloud {
  import opened Wrappers
  import opened Bytes

  type Name = seq<byte>

  /** One row of a history table. */
  datatype Entry = Entry(messageId: Name, gateway: Name, payload: seq<byte>)

  datatype Tables = Tables(processed: set<Name>, history: seq<Entry>)

  /** What the connection sees, and what survives a crash. */
  datatype State = State(working: Tables, durable: Tables)

  /** An upload; valid and tracked stand for the checks of its content and for its type being no ACK. */
  datatype Upload = Upload(entry: Entry, valid: bool, tracked: bool)

  predicate Repeated(t: Tables, id: Name) {
    id != [] && id in t.processed
  }

  /** _store_validated: nothing for a repeated message id, else its id and its row. */
  function Inserted(t: Tables, e: Entry): Tables {
    if Repeated(t, e.messageId) then t
    else Tables(if e.messageId == [] then t.processed else t.processed + {e.messageId}, t.history + [e])
  }

  /**
   * _store: broken stands for an exception inside the transaction, o for the way its commit ends.
   * A commit that fails leaves the transaction open on the connection.
   */
  function Stored(s: State, u: Upload, broken: bool, o: SaveOutcome): (State, bool) {
    if !u.valid || !u.tracked then (s, false)
    else if broken then (State(s.durable, s.durable), false)
    else
      var t := Inserted(s.working, u.entry);
      (State(t, if o == LostUnapplied then s.durable else t), o == Committed)
  }

  function Restarted(s: State): State {
    State(s.durable, s.durable)
  }

  // ---- what the history keeps --------------------------------------------------------------------------

  /** Number of rows of a message id. */
  function Rows(history: seq<Entry>, id: Name): nat {
    if history == [] then 0
    else Rows(history[..|history| - 1], id) + (if history[|history| - 1].messageId == id then 1 else 0)
  }

  /** A message id is processed when it has a row, and it never has two. */
  ghost predicate Deduplicated(t: Tables) {
    forall id: Name :: id != [] ==> Rows(t.history, id) == if id in t.processed then 1 else 0
  }

  ghost predicate Keeps(s: State) {
    Deduplicated(s.working) && Deduplicated(s.durable) && s.durable.processed <= s.working.processed
  }

  lemma InsertedRows(t: Tables, e: Entry)
    requires Deduplicated(t)
    ensures Deduplicated(Inserted(t, e)) && t.processed <= Inserted(t, e).processed
    ensures e.messageId != [] ==> e.messageId in Inserted(t, e).processed
  {
    hide Rows;
    var r := Inserted(t, e);
    if !Repeated(t, e.messageId) {
      forall id: Name | id != [] ensures Rows(r.history, id) == if id in r.processed then 1 else 0 {
        LastRow(t.history, e, id);
      }
    }
  }

  lemma LastRow(history: seq<Entry>, e: Entry, id: Name)
    ensures Rows(history + [e], id) == Rows(history, id) + (if e.messageId == id then 1 else 0)
  {
    assert (history + [e])[..|history|] == history;
  }

  /**
   * Whatever fails, a message id never gets a second row, durable rows stay, and only a durable
   * row is acknowledged.
   */
  lemma StoredKeeps(s: State, u: Upload, broken: bool, o: SaveOutcome)
    requires Keeps(s)
    ensures var (r, acked) := Stored(s, u, broken, o);
            && Keeps(r) && s.durable.processed <= r.durable.processed
            && (acked && u.entry.messageId != [] ==>
                  u.entry.messageId in r.durable.processed && Rows(r.durable.history, u.entry.messageId) == 1)
    ensures Keeps(Restarted(s)) && Restarted(s).durable == s.durable
  {
    hide Rows, Inserted;
    InsertedRows(s.working, u.entry);
  }

  /**
   * Every tracked valid upload whose transaction commits is acknowledged, new or repeated, and nothing else
   * is. Without an acknowledgement or a late commit nothing durable changes; otherwise at most its one row
   * is added, at the end.
   */
  lemma AnswersExactly(s: State, u: Upload, broken: bool, o: SaveOutcome)
    requires s.working == s.durable
    ensures var (r, acked) := Stored(s, u, broken, o);
            && (acked <==> u.valid && u.tracked && !broken && o == Committed)
            && (!u.valid || !u.tracked || broken || o == LostUnapplied ==> r.durable == s.durable)
            && (u.valid && u.tracked && !broken && o != LostUnapplied ==>
                 r.durable.history == if u.entry.messageId != [] && u.entry.messageId in s.durable.processed
                                      then s.durable.history else s.durable.history + [u.entry])
  {
  }

  // ---- the objects -------------------------------------------------------------------------------------

  class Database {
    var working: Tables
    var durable: Tables
    var depth: nat

    ghost function View(): State
      reads this
    {
      State(working, durable)
    }

    constructor (durable: Tables)
      ensures View() == State(durable, durable) && depth == 0
    {
      working, this.durable, depth := durable, durable, 0;
    }

    /** The connection's commit; false stands for its exception. */
    method ConnCommit(o: SaveOutcome) returns (ok: bool)
      modifies this`durable
      ensures durable == (if o == LostUnapplied then old(durable) else working) && ok == (o == Committed)
    {
      if o != LostUnapplied {
        durable := working;
      }
      ok := o == Committed;
    }

    /** _commit: inside a transaction it does nothing. */
    method Commit(o: SaveOutcome) returns (ok: bool)
      modifies this`durable
      ensures durable == (if depth > 0 || o == LostUnapplied then old(durable) else working)
      ensures ok == (depth > 0 || o == Committed)
    {
      ok := true;
      if depth == 0 {
        ok := ConnCommit(o);
      }
    }

    /** Any of the insert methods: one history row, committed when no transaction is open. */
    method Insert(e: Entry, o: SaveOutcome) returns (ok: bool)
      modifies this`working, this`durable
      ensures working == old(working).(history := old(working.history) + [e])
      ensures depth > 0 ==> ok && durable == old(durable)
    {
      working := working.(history := working.history + [e]);
      ok := Commit(o);
    }
  }

  class Deduplicator {
    const db: Database
    const autoCommit: bool
    var processed: nat
    var ignored: nat

    constructor (db: Database, autoCommit: bool)
      ensures this.db == db && this.autoCommit == autoCommit && processed == 0 && ignored == 0
    {
      this.db, this.autoCommit := db, autoCommit;
      processed, ignored := 0, 0;
    }

    /** is_new without its own commit, as the server uses it. */
    method IsNew(id: Name) returns (r: bool)
      requires !autoCommit
      modifies this, db`working
      ensures r == !Repeated(old(db.working), id)
      ensures processed == old(processed) + (if r && id != [] then 1 else 0)
      ensures ignored == old(ignored) + (if r then 0 else 1)
      ensures db.working.history == old(db.working.history)
      ensures db.working.processed == if id == [] then old(db.working.processed) else old(db.working.processed) + {id}
    {
      if id == [] {
        return true;
      }
      if id in db.working.processed {
        ignored := ignored + 1;
        assert db.working.processed + {id} == db.working.processed;
        return false;
      }
      db.working := db.working.(processed := db.working.processed + {id});
      processed := processed + 1;
      r := true;
    }
  }

  class Server {
    const db: Database
    const dedup: Deduplicator

    constructor (db: Database)
      ensures this.db == db && fresh(dedup) && dedup.db == db && !dedup.autoCommit
    {
      this.db := db;
      dedup := new Deduplicator(db, false);
    }

    /** _store, with the counters put back when it fails. */
    method Store(u: Upload, broken: bool, o: SaveOutcome) returns (acked: bool)
      requires dedup.db == db && !dedup.autoCommit && db.depth == 0
      modifies db, dedup
      ensures db.depth == 0 && (db.View(), acked) == Stored(old(db.View()), u, broken, o)
      ensures !acked ==> dedup.processed == old(dedup.processed) && dedup.ignored == old(dedup.ignored)
      ensures acked ==> dedup.processed + dedup.ignored ==
                        old(dedup.processed + dedup.ignored) + (if u.entry.messageId == [] then 0 else 1)
    {
      var processed, ignored := dedup.processed, dedup.ignored;
      if !u.valid || !u.tracked {
        return false;
      }
      db.depth := db.depth + 1;
      var isNew := dedup.IsNew(u.entry.messageId);
      if isNew {
        var ok := db.Insert(u.entry, o);
      }
      assert db.working == Inserted(old(db.working), u.entry);
      if broken {
        db.working := db.durable;
        acked := false;
      } else {
        acked := db.ConnCommit(o);
      }
      db.depth := db.depth - 1;
      if !acked {
        dedup.processed, dedup.ignored := processed, ignored;
      }
    }
  }
}
