// The queue's status table: task id -> status, with the two rules that
// shrink it: a terminal status is evicted the first time `Queue::status`
// reads it, or at completion time when it was broadcast to a notifier.
module StatusTable {
  import opened FixedWidth

  datatype Status = Unknown | Pending | Succeeded | Failed

  predicate IsTerminal(s: Status)
  {
    s == Succeeded || s == Failed
  }

  type StatusMap = map<Index32, Status>

  /** UNKNOWN is only ever an answer; the table never stores it. */
  ghost predicate Tracked(t: StatusMap)
  {
    forall id :: id in t ==> t[id] != Unknown
  }

  /** Every stored status is terminal: no task is in flight. */
  ghost predicate AllTerminal(t: StatusMap)
  {
    forall id :: id in t ==> IsTerminal(t[id])
  }

  /** `Queue::status(id)`: the stored status (UNKNOWN when untracked) and the
      table left behind, without the entry when the status was terminal. */
  function Read(t: StatusMap, id: Index32): (Status, StatusMap)
  {
    if id in t then
      var s := t[id];
      (s, if IsTerminal(s) then t - {id} else t)
    else (Unknown, t)
  }

  /** `Impl::setStatusWithNotification` on the table: store `st`, then drop
      the entry again when `st` is terminal and some notifier received it. */
  function Complete(t: StatusMap, id: Index32, st: Status, notified: bool): StatusMap
  {
    var t' := t[id := st];
    if IsTerminal(st) && notified then t' - {id} else t'
  }

  /** On a table that stores no UNKNOWN, `status` answers UNKNOWN exactly for
      ids it does not track, and otherwise the stored status. */
  lemma ReadAnswersStoredStatus(t: StatusMap, id: Index32)
    requires Tracked(t)
    ensures Read(t, id).0 == Unknown <==> id !in t
    ensures id in t ==> Read(t, id).0 == t[id]
  {
  }

  /** A terminal status is reported once: the very next read of the same id
      answers UNKNOWN. A PENDING status is reported and left in place. */
  lemma ReadOnce(t: StatusMap, id: Index32)
    ensures IsTerminal(Read(t, id).0) ==> Read(Read(t, id).1, id).0 == Unknown
    ensures Read(t, id).0 == Pending ==> Read(t, id).1 == t
    ensures Read(t, id).0 == Unknown ==> Read(t, id).1 == t
  {
  }

  /** A read touches no other task's entry. */
  lemma ReadTouchesOnlyItsId(t: StatusMap, id: Index32, other: Index32)
    requires other != id
    ensures other in Read(t, id).1 <==> other in t
    ensures other in t ==> Read(t, id).1[other] == t[other]
  {
  }

  /** With no notifier registered, a completed task's status waits in the
      table: the first read returns it, every later read answers UNKNOWN. */
  lemma UnobservedCompletionIsReadOnce(t: StatusMap, id: Index32, st: Status)
    requires IsTerminal(st)
    ensures Read(Complete(t, id, st, false), id).0 == st
    ensures Read(Read(Complete(t, id, st, false), id).1, id).0 == Unknown
  {
  }

  /** A completion that was broadcast leaves nothing to read. */
  lemma NotifiedCompletionIsEvicted(t: StatusMap, id: Index32, st: Status)
    requires IsTerminal(st)
    ensures Read(Complete(t, id, st, true), id).0 == Unknown
  {
  }

  /** Completion and reads keep the table free of UNKNOWN, and free of
      PENDING when it was before. */
  lemma TableShapesPreserved(t: StatusMap, id: Index32, st: Status, notified: bool)
    ensures Tracked(t) && st != Unknown ==> Tracked(Complete(t, id, st, notified))
    ensures AllTerminal(t) && IsTerminal(st) ==> AllTerminal(Complete(t, id, st, notified))
    ensures Tracked(t) ==> Tracked(Read(t, id).1)
    ensures AllTerminal(t) ==> AllTerminal(Read(t, id).1)
  {
  }

  /** An admission writes PENDING and the inline execution then completes the
      task: the PENDING entry never survives, whatever the id held before. */
  lemma InlineRunOverwritesPending(t: StatusMap, id: Index32, st: Status, notified: bool)
    requires IsTerminal(st)
    ensures Complete(t[id := Pending], id, st, notified) == Complete(t, id, st, notified)
    ensures AllTerminal(t) ==> AllTerminal(Complete(t[id := Pending], id, st, notified))
  {
  }
}
