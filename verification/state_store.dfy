/** The two-slot checkpoint of a host process: what a load may return after saves, failures and damage. */
module StateStore {
  import opened Wrappers
  import opened Bytes

  type Raw = seq<byte>

  /** SHA-256, taken to be injective. */
  datatype Digest = Sha(raw: Raw)

  datatype Slot = Slot(raw: Raw, sum: Digest)

  /** The rows of one namespace: the current checkpoint in slot 0, the one before in slot 1. */
  datatype Rows = Rows(current: Option<Slot>, previous: Option<Slot>)

  datatype Loaded = Nothing | Found(raw: Raw) | Failed

  predicate Intact(s: Option<Slot>) {
    s.Some? && s.value.sum == Sha(s.value.raw)
  }

  function SlotOf(raw: Raw): Slot {
    Slot(raw, Sha(raw))
  }

  /** An equal checkpoint is kept, an intact one moves to slot 1, a damaged one is overwritten. */
  function Saved(r: Rows, raw: Raw): Rows {
    if r.current == Some(SlotOf(raw)) then r
    else Rows(Some(SlotOf(raw)), if Intact(r.current) then r.current else r.previous)
  }

  function Accepted(s: Option<Slot>, valid: Raw -> bool): bool {
    Intact(s) && valid(s.value.raw)
  }

  /** Only a caller that allows it gets the previous checkpoint; no row at all is no checkpoint. */
  function Load(r: Rows, valid: Raw -> bool, allowPrevious: bool): Loaded {
    if r.current == None && r.previous == None then Nothing
    else if Accepted(r.current, valid) then Found(r.current.value.raw)
    else if allowPrevious && Accepted(r.previous, valid) then Found(r.previous.value.raw)
    else Failed
  }

  // ---- runs --------------------------------------------------------------------------------------------

  /** Damage leaves a slot whose checksum does not match, or no slot. */
  datatype Event = Save(raw: Raw, outcome: SaveOutcome) | Damage(first: bool, slot: Option<Slot>)

  /** Rows and the checkpoints that took effect, oldest first. */
  datatype History = History(rows: Rows, effective: seq<Raw>)

  function Step(h: History, e: Event): History {
    match e
    case Save(raw, o) => if o == LostUnapplied then h else History(Saved(h.rows, raw), h.effective + [raw])
    case Damage(first, slot) =>
      if Intact(slot) then h
      else h.(rows := if first then h.rows.(current := slot) else h.rows.(previous := slot))
  }

  function Run(h: History, events: seq<Event>): History
    decreases |events|
  {
    if events == [] then h else Run(Step(h, events[0]), events[1..])
  }

  ghost predicate Faithful(h: History) {
    && (Intact(h.rows.current) ==> h.effective != [] && h.rows.current.value.raw == h.effective[|h.effective| - 1])
    && (Intact(h.rows.previous) ==> h.rows.previous.value.raw in h.effective)
  }

  lemma {:induction false} RunKeeps(h: History, events: seq<Event>)
    requires Faithful(h)
    ensures Faithful(Run(h, events))
    decreases |events|
  {
    if events != [] {
      var next := Step(h, events[0]);
      assert forall raw :: raw in h.effective ==> raw in next.effective;
      RunKeeps(next, events[1..]);
    }
  }

  /**
   * However saves end and slots are damaged, an epoch is never loaded from an older checkpoint: a
   * load that does not allow the previous slot finds the last effective checkpoint, fails, or finds
   * no rows. A load that allows it still returns only what was saved.
   */
  lemma NeverStale(events: seq<Event>, valid: Raw -> bool)
    ensures var h := Run(History(Rows(None, None), []), events);
            && (Load(h.rows, valid, false).Found? ==>
                  h.effective != [] && Load(h.rows, valid, false) == Found(h.effective[|h.effective| - 1]))
            && (Load(h.rows, valid, true).Found? ==> Load(h.rows, valid, true).raw in h.effective)
  {
    RunKeeps(History(Rows(None, None), []), events);
  }

  /** Without damage a valid checkpoint that took effect is the one loaded. */
  lemma SavedIsLoaded(r: Rows, raw: Raw, valid: Raw -> bool, allowPrevious: bool)
    ensures Load(Saved(r, raw), valid, allowPrevious) == Found(raw) <==> valid(raw)
    ensures Saved(Saved(r, raw), raw) == Saved(r, raw)
  {
  }

  /**
   * Whatever the slots held before two saves that took effect: when the newer checkpoint is damaged later, a
   * load that may use the previous slot finds the older one, and any other load fails. Saving over the
   * damage does not push the older one out.
   */
  lemma PreviousRescues(r: Rows, a: Raw, b: Raw, c: Raw, damaged: Option<Slot>, valid: Raw -> bool)
    requires a != b && !Intact(damaged) && valid(a)
    ensures var s := Saved(Saved(r, a), b).(current := damaged);
            && Load(s, valid, true) == Found(a) && Load(s, valid, false) == Failed
            && Load(Saved(s, c).(current := damaged), valid, true) == Found(a)
  {
  }

  class Store {
    var rows: Rows

    constructor ()
      ensures rows == Rows(None, None)
    {
      rows := Rows(None, None);
    }

    /** save: both slots change in one transaction. */
    method SaveRaw(raw: Raw, o: SaveOutcome) returns (ok: bool)
      modifies this
      ensures rows == (if o == LostUnapplied then old(rows) else Saved(old(rows), raw)) && ok == (o == Committed)
    {
      var before := rows;
      var current := rows.current;
      if current.Some? && current.value.raw == raw && current.value.sum == Sha(raw) {
        return o == Committed;
      }
      if current.Some? && Sha(current.value.raw) == current.value.sum {
        rows := rows.(previous := current);
      }
      rows := rows.(current := Some(SlotOf(raw)));
      if o == LostUnapplied {
        rows := before;
      }
      ok := o == Committed;
    }

    /** load: the candidates in order. */
    method LoadRaw(valid: Raw -> bool, allowPrevious: bool) returns (r: Loaded)
      ensures r == Load(rows, valid, allowPrevious)
    {
      if rows.current == None && rows.previous == None {
        return Nothing;
      }
      var candidates := if allowPrevious then [rows.current, rows.previous] else [rows.current];
      for i := 0 to |candidates|
        invariant forall j :: 0 <= j < i ==> !Accepted(candidates[j], valid)
      {
        var slot := candidates[i];
        assert i > 0 ==> !Accepted(candidates[0], valid);
        if slot.Some? && slot.value.sum == Sha(slot.value.raw) && valid(slot.value.raw) {
          return Found(slot.value.raw);
        }
      }
      assert !Accepted(candidates[0], valid) && (allowPrevious ==> !Accepted(candidates[1], valid));
      r := Failed;
    }
  }
}
