/** A run in which every store call succeeds and the controller nevertheless refuses all commands after a restart. */
module ControllerLockout {
  import opened Wrappers
  import opened RecentCommands
  import opened SafetyGuards
  import opened CommandWindow
  import opened Controller
  import opened ControllerTheorems

  /** A window of one row and one pending result. */
  const SETUP := Setup(Limits(map["IRRIGATION" := 60.0], map[], 10.0), 1)

  const BOOT := Boot(true, true, Committed, [])

  /** A command that is admitted, and one of an unknown type. */
  const ADMITTED := Command(Some("X"), Some("IRRIGATION"), Some(1.0), 0.0, Absent, "A1")
  const REFUSED := Command(Some("Y"), None, None, 0.0, Absent, "A1")

  const INTENT_ROW := Row("X", INTENT, None, Some(ContextOf(ADMITTED)), Some(10.0), None)
  const UNKNOWN_WIRE := Wire("A1", 0.0, Interrupted(INTENT_ROW))
  const REJECTED_WIRE := Wire("A1", 0.0, Refused(REFUSED, INVALID_TYPE))

  /** A controller at rest with the given window in memory and on disk. */
  function Resting(m: Memory, log: seq<Admission>, confirmed: set<Identity>): Node {
    Node(Guard(Ids(m.entries), map[], None, INITIAL_EPOCH, false), None, Some(m), Some(Checkpoint(VERSION, 1, m)),
         None, log, confirmed)
  }

  const EMPTY := Memory([], map[])
  const STARTED := Memory([INTENT_ROW], map[])
  const REPORTED := Memory([INTENT_ROW], map[IdentityOf(UNKNOWN_WIRE.result) := UNKNOWN_WIRE])
  const FILLED := Memory([INTENT_ROW], map[IdentityOf(REJECTED_WIRE.result) := REJECTED_WIRE])
  const CONFIRMED: set<Identity> := {IdentityOf(UNKNOWN_WIRE.result)}
  const LOG := [Log(ADMITTED)]

  /** Start; admission and crash; restart and acknowledgement of UNKNOWN; a refusal; restart. */
  const EVENTS: seq<Event> := [
    Restart(BOOT, 0.0, 0.0),
    Deliver(ADMITTED, 0.0, 0.0, Committed, Committed, Committed),
    Restart(BOOT, 0.0, 0.0),
    Ack(IdentityOf(UNKNOWN_WIRE.result), 0.0, Committed),
    Deliver(REFUSED, 0.0, 0.0, Committed, Committed, Committed),
    Restart(BOOT, 0.0, 0.0)]

  function Zero(id: string): real {
    0.0
  }

  lemma FirstStart()
    ensures Ready(BLANK) && Step(BLANK, SETUP, EVENTS[0]) == Resting(EMPTY, [], {})
  {
    assert Ids([]) == {};
  }

  lemma Admission()
    ensures var n := Resting(EMPTY, [], {});
            Ready(n) && Step(n, SETUP, EVENTS[1]) == Resting(STARTED, LOG, {}).(running := Some(ADMITTED))
  {
    var n := Resting(EMPTY, [], {});
    assert Ids([]) == {} && Ids([INTENT_ROW]) == {"X"};
    assert Refusal(n.guard, SETUP.limits, ADMITTED, 0.0, 0.0) == None;
    assert [] + [INTENT_ROW] == [INTENT_ROW];
    assert NewRow(ParamsOf(SETUP), "X", ContextOf(ADMITTED)) == INTENT_ROW;
    assert Begun(Store(EMPTY, n.commandDisk), ParamsOf(SETUP), "X", ContextOf(ADMITTED), 0.0, Committed)
           == (Store(STARTED, Some(Checkpoint(VERSION, 1, STARTED))), Done);
  }

  lemma StartedLoads()
    ensures Loaded(Some(Checkpoint(VERSION, 1, STARTED)), ParamsOf(SETUP), true, 0.0, Committed)
            == (Some(STARTED), Some(Checkpoint(VERSION, 1, STARTED)))
  {
    assert AllMigrated([INTENT_ROW], 0.0, 10.0) == [INTENT_ROW];
    assert RowValid(INTENT_ROW);
  }

  lemma Crash()
    ensures var n := Resting(STARTED, LOG, {}).(running := Some(ADMITTED));
            Ready(n) && Step(n, SETUP, EVENTS[2]) == Resting(REPORTED, LOG, {})
  {
    hide Loaded;
    var n := Resting(STARTED, LOG, {}).(running := Some(ADMITTED));
    StartedLoads();
    var m := Reloaded(n, SETUP, BOOT, 0.0, 0.0);
    assert m == Resting(STARTED, LOG, {});
    assert Ids([INTENT_ROW]) == {"X"} && Protected(map[]) == {};
    assert Unreported(INTENT_ROW, map[]);
    assert ResultMessage(STARTED, Interrupted(INTENT_ROW), "A1", 0.0) == UNKNOWN_WIRE;
    assert Upgraded([INTENT_ROW], UNKNOWN_WIRE) == [INTENT_ROW];
    var (s, v) := Queued(Store(STARTED, m.commandDisk), ParamsOf(SETUP), UNKNOWN_WIRE, Committed);
    assert v == Done && s == Store(REPORTED, Some(Checkpoint(VERSION, 1, REPORTED)));
    assert Padded([], 1) == [Committed];
    assert [INTENT_ROW][1..] == [];
    assert Recovered(WithStore(m, s), SETUP, [], 0.0, [Committed][1..]) == WithStore(m, s);
  }

  lemma Acknowledged()
    ensures var n := Resting(REPORTED, LOG, {});
            Ready(n) && Step(n, SETUP, EVENTS[3]) == Resting(STARTED, LOG, CONFIRMED)
  {
    var k := IdentityOf(UNKNOWN_WIRE.result);
    assert REPORTED.pending - {k} == map[];
    assert {} + {k} == CONFIRMED;
  }

  lemma Refusing()
    ensures var n := Resting(STARTED, LOG, CONFIRMED);
            Ready(n) && Step(n, SETUP, EVENTS[4]) == Resting(FILLED, LOG, CONFIRMED)
  {
    var n := Resting(STARTED, LOG, CONFIRMED);
    assert Refusal(n.guard, SETUP.limits, REFUSED, 0.0, 0.0) == Some(INVALID_TYPE);
    assert IndexOf([INTENT_ROW], Some("Y")) == 1;
    assert Reported(STARTED, REFUSED, INVALID_TYPE) == Refused(REFUSED, INVALID_TYPE);
    assert ResultMessage(STARTED, Refused(REFUSED, INVALID_TYPE), "A1", 0.0) == REJECTED_WIRE;
    assert Upgraded([INTENT_ROW], REJECTED_WIRE) == [INTENT_ROW];
    assert map[][IdentityOf(REJECTED_WIRE.result) := REJECTED_WIRE] == FILLED.pending;
  }

  lemma NoRoom()
    ensures |FILLED.pending| + CountUnreported(FILLED.entries, FILLED.pending) == 2
  {
    assert [INTENT_ROW][1..] == [];
    assert forall k :: k in FILLED.pending ==> FILLED.pending[k] == REJECTED_WIRE;
    assert Some("X") !in Protected(FILLED.pending);
    assert FILLED.pending.Keys == {IdentityOf(REJECTED_WIRE.result)};
    assert CountUnreported([INTENT_ROW], FILLED.pending) == CountUnreported([], FILLED.pending) + 1;
  }

  /**
   * The failing family is real: after these events, with every read and save succeeding, the restarted
   * controller refuses all commands, because the result of the interrupted one found no place.
   */
  lemma FullWindowLocksOut()
    ensures var n := Resting(FILLED, LOG, CONFIRMED);
            && Reaches(BLANK, SETUP, EVENTS[..5], n) && Orderly(EVENTS[..5], 0.0, Zero)
            && Step(n, SETUP, EVENTS[5]).guard.fault
  {
    hide Step, Resting, Inv;
    FirstStart();
    Admission();
    Crash();
    Acknowledged();
    Refusing();
    NoRoom();
    var n := Resting(FILLED, LOG, CONFIRMED);
    RunOfFive(n);
    OrderlyFive();
    BlankInv(SETUP, Zero, 0.0);
    RunKeeps(BLANK, SETUP, Zero, 0.0, EVENTS[..5], n);
    InvReady(n, SETUP, Zero, 0.0);
    LastRestart(n);
  }

  lemma RunOfFive(n: Node)
    requires Ready(BLANK) && Ready(Step(BLANK, SETUP, EVENTS[0]))
    requires var a := Step(Step(BLANK, SETUP, EVENTS[0]), SETUP, EVENTS[1]);
             Ready(a) && Ready(Step(a, SETUP, EVENTS[2]))
    requires var b := Step(Step(Step(BLANK, SETUP, EVENTS[0]), SETUP, EVENTS[1]), SETUP, EVENTS[2]);
             Ready(Step(b, SETUP, EVENTS[3])) && Step(Step(b, SETUP, EVENTS[3]), SETUP, EVENTS[4]) == n
    ensures Reaches(BLANK, SETUP, EVENTS[..5], n)
  {
    hide Step, Ready;
    var a := Step(BLANK, SETUP, EVENTS[0]);
    var b := Step(a, SETUP, EVENTS[1]);
    var c := Step(b, SETUP, EVENTS[2]);
    var d := Step(c, SETUP, EVENTS[3]);
    Tails();
    assert Reaches(n, SETUP, [], n);
    assert Reaches(d, SETUP, EVENTS[4..5], n);
    assert Reaches(c, SETUP, EVENTS[3..5], n);
    assert Reaches(b, SETUP, EVENTS[2..5], n);
    assert Reaches(a, SETUP, EVENTS[1..5], n);
  }

  lemma Tails()
    ensures EVENTS[..5][1..] == EVENTS[1..5] && EVENTS[1..5][1..] == EVENTS[2..5] && EVENTS[2..5][1..] == EVENTS[3..5]
    ensures EVENTS[3..5][1..] == EVENTS[4..5] && EVENTS[4..5][1..] == []
    ensures EVENTS[..5][0] == EVENTS[0] && EVENTS[1..5][0] == EVENTS[1] && EVENTS[2..5][0] == EVENTS[2]
    ensures EVENTS[3..5][0] == EVENTS[3] && EVENTS[4..5][0] == EVENTS[4]
  {
  }

  lemma OrderlyFive()
    ensures Orderly(EVENTS[..5], 0.0, Zero) && Last(EVENTS[..5], 0.0) == 0.0
  {
    Tails();
    assert Orderly([], 0.0, Zero);
    assert Orderly(EVENTS[4..5], 0.0, Zero);
    assert Orderly(EVENTS[3..5], 0.0, Zero);
    assert Orderly(EVENTS[2..5], 0.0, Zero);
    assert Orderly(EVENTS[1..5], 0.0, Zero);
  }

  lemma LastRestart(n: Node)
    requires n == Resting(FILLED, LOG, CONFIRMED) && Inv(n, SETUP, Zero, 0.0) && Ready(n)
    requires |FILLED.pending| + CountUnreported(FILLED.entries, FILLED.pending) == 2
    ensures Step(n, SETUP, EVENTS[5]).guard.fault
  {
    hide Inv, Restarted;
    RestartSucceeds(n, SETUP, Zero, 0.0, BOOT, 0.0, 0.0);
  }
}
