/** The communication windows of the outbox: half a minute of attempts, a minute of silence. */
module B1Windows {
  import opened Wrappers
  import opened Bytes
  import opened B1Record
  import opened B1Outbox
  import opened B1Pacing

  /** Two attempts belong to one window of thirty seconds, or lie at least a minute apart. */
  ghost predicate Windowed(log: seq<Attempt>) {
    forall i, j :: 0 <= i < j < |log| ==> log[j].time < log[i].time + 30000 || log[j].time >= log[i].time + 60000
  }

  ghost predicate FromStart(t: Trace) {
    t.q.windowOpen ==> t.q.windowEnd <= t.start + 30000
  }

  ghost predicate Kept(t: Trace) {
    Inv(t) && FromStart(t) && (!t.emptied ==> Windowed(t.log))
  }

  lemma TickStart(t: Trace, now: u64)
    requires FromStart(t)
    ensures FromStart(t.(q := Tick(t.q, now)))
  {
  }

  lemma LaunchWindowed(t: Trace, i: nat, now: u64)
    requires Inv(t) && FromStart(t) && (!t.emptied ==> Windowed(t.log)) && t.q.now == now < U64_MAX
    requires i < |t.q.entries| && now >= t.q.pauseUntil
    ensures var (q, slot) := Launch(t.q, i, now);
            var e := t.q.entries[i];
            var next := if slot == None then t.(q := q)
                        else Trace(q, t.log + [Attempt(now, e.record.order, e.state == FAILED)],
                                   if t.q.windowOpen then t.start else now, t.emptied);
            FromStart(next) && (!next.emptied ==> Windowed(next.log))
  {
    hide EntriesOk, OrdersDiffer, OneFlies, ProbesApart, Sorted, Spaced, Rapid, Launched;
    if !t.emptied {
      OpenedSeparated(t.q, t.log, t.start, now);
    }
  }

  lemma PollKept(t: Trace, now: u64)
    requires Kept(t)
    ensures Kept(Polled(t, now))
  {
    hide Inv, Launch, Tick, SomethingFlies, Best, Windowed, FromStart;
    PollKeeps(t, now);
    TickKeeps(t, now);
    TickStart(t, now);
    if !Ignores(t.q, now) {
      var ticked := t.(q := Tick(t.q, now));
      var i := Best(ticked.q.entries, |ticked.q.entries|, now);
      if !SomethingFlies(ticked.q.entries) && i < |ticked.q.entries| && now >= ticked.q.pauseUntil {
        LaunchWindowed(ticked, i, now);
        LaunchSlot(ticked.q, i, now);
      }
    }
  }

  lemma StepKept(t: Trace, e: Event)
    requires Kept(t)
    ensures Kept(Step(t, e))
  {
    hide Inv, Polled, Tick, Windowed, Refuses, Numbered, Answers, Marked, Complete, Empty;
    StepKeeps(t, e);
    match e
    case Clock(now) => TickStart(t, now);
    case Poll(now) => PollKept(t, now);
    case _ =>
  }

  lemma {:induction false} RunKept(t: Trace, events: seq<Event>)
    requires Kept(t)
    ensures Kept(Run(t, events))
    decreases |events|
  {
    hide Kept, Step;
    if events != [] {
      StepKept(t, events[0]);
      RunKept(Step(t, events[0]), events[1..]);
    }
  }

  /**
   * In every run of a boot in which no acknowledgement empties the outbox in an open window, two attempts
   * are less than thirty seconds or at least a minute apart.
   */
  lemma WindowsAndPauses(q: Outbox, events: seq<Event>)
    requires Booted(q) && !Run(Boot(q), events).emptied
    ensures Windowed(Run(Boot(q), events).log)
  {
    hide Inv, Step;
    BootInv(q);
    RunKept(Boot(q), events);
  }
}
