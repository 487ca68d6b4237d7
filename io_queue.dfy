// The asynchronous output queue of `openvdb/io/Queue.cc`, as built without
// TBB: a submitted task runs inline, on the submitting thread, inside
// `enqueue`, before the active-task counter is incremented. The whole
// protocol is then sequential.
//
// Callbacks are not run: each delivery, together with every status write,
// eviction and change of the active-task counter, is appended to a ghost
// event log, in the order the code performs them. The archive write is an input saying how it ended.
module IoQueue {
  import opened FixedWidth
  import opened NotifierRegistry
  import opened StatusTable

  /** The default timeout declared in Queue.h, which is not part of this
      model. (The default capacity, used by `Impl` and as the default
      argument of the `Queue` constructor, is not modelled: the constructor
      here always takes its capacity explicitly.) */
  const DEFAULT_TIMEOUT: Index32 := 120

  /** How `Archive::write` ended: normally, with a `std::exception`, or with
      anything else thrown. */
  datatype WriteResult = Written | ThrewException(what: string) | ThrewOther

  /** A grid handed to the queue; its contents do not matter here. */
  type GridRef = nat

  /** An `OutputTask`: its id, its grids, and how writing them will end. */
  datatype OutputTask = OutputTask(id: Index32, grids: seq<GridRef>, write: WriteResult)

  /** The status `OutputTask::execute` reports: SUCCEEDED when the write
      returned normally, FAILED when it threw anything at all. */
  function Outcome(w: WriteResult): (s: Status)
    ensures IsTerminal(s)
    ensures s == Succeeded <==> w.Written?
    ensures s == Failed <==> (w.ThrewException? || w.ThrewOther?)
  {
    if w.Written? then Succeeded else Failed
  }

  /** The error `enqueue` throws when no slot frees up within the time limit. */
  datatype QueueError = TimeLimitExpired(seconds: Index32)

  datatype Result<T> = Ok(value: T) | Err(error: QueueError)

  /** What the queue does to its table and to its clients, in order. */
  datatype Event =
    | StatusSet(task: Index32, status: Status)
    | Delivered(notifier: Index32, task: Index32, status: Status)
    | Evicted(task: Index32)
    | Released(task: Index32)
    | Counted(task: Index32)

  /** One call per registered notifier, in the registry's order, each with
      the same task id and status. */
  function Broadcast(r: Registry, id: Index32, st: Status): (b: seq<Event>)
  {
    seq(|r|, i requires 0 <= i < |r| => Delivered(r[i].id, id, st))
  }

  /** Every registered notifier hears about a completion exactly once, all
      with the same (id, status), in ascending notifier-id order, and nobody
      else hears anything. */
  lemma BroadcastReachesEachOnce(r: Registry, id: Index32, st: Status)
    requires Ascending(r)
    ensures |Broadcast(r, id, st)| == |AsMap(r)|
    ensures forall i :: 0 <= i < |Broadcast(r, id, st)| ==>
      Broadcast(r, id, st)[i].Delivered? && Broadcast(r, id, st)[i].notifier in AsMap(r) &&
      Broadcast(r, id, st)[i].task == id && Broadcast(r, id, st)[i].status == st
    ensures forall k :: k in AsMap(r) ==>
      exists i :: 0 <= i < |Broadcast(r, id, st)| && Broadcast(r, id, st)[i] == Delivered(k, id, st)
    ensures forall i, j :: 0 <= i < j < |Broadcast(r, id, st)| ==>
      Broadcast(r, id, st)[i].notifier < Broadcast(r, id, st)[j].notifier
    ensures forall i, j ::
      (0 <= i < |Broadcast(r, id, st)| && 0 <= j < |Broadcast(r, id, st)| &&
       Broadcast(r, id, st)[i].notifier == Broadcast(r, id, st)[j].notifier) ==> i == j
  {
    var b := Broadcast(r, id, st);
    AscendingKeyCount(r);
    forall i | 0 <= i < |b|
      ensures b[i].Delivered? && b[i].notifier in AsMap(r) && b[i].task == id && b[i].status == st
    {
      RegisteredAt(r, r[i].id);
    }
    forall k | k in AsMap(r)
      ensures exists i :: 0 <= i < |b| && b[i] == Delivered(k, id, st)
    {
      RegisteredAt(r, k);
      var i :| 0 <= i < |r| && r[i].id == k;
      assert b[i] == Delivered(k, id, st);
    }
  }

  /** The events of one completion: the status write, the broadcast, the
      eviction of a terminal status that someone was told about, and last
      the release of a terminal task's slot. */
  function CompletionEvents(r: Registry, id: Index32, st: Status): seq<Event>
  {
    [StatusSet(id, st)] + Broadcast(r, id, st)
      + (if IsTerminal(st) && r != [] then [Evicted(id)] else [])
      + (if IsTerminal(st) then [Released(id)] else [])
  }

  class Queue {
    var timeout: Index32
    var capacity: Index32
    /** Tasks admitted and not yet completed (`mNumTasks`). */
    var numTasks: Int32
    var nextId: Index32
    var statusTable: StatusMap
    var notifiers: Registry
    var nextNotifierId: Index32
    ghost var events: seq<Event>

    ghost predicate Valid()
      reads this
    {
      Ascending(notifiers) && Tracked(statusTable)
    }

    /** The state between public calls: nothing in flight, and (the task
        having run inline) no entry left PENDING. */
    ghost predicate Idle()
      reads this
    {
      Valid() && numTasks == 0 && AllTerminal(statusTable)
    }

    /** Every tracked task id and registered notifier id lies below the
        counter that hands out the next one. It holds until a counter wraps. */
    ghost predicate FreshIds()
      reads this
    {
      && (forall id :: id in statusTable ==> id < nextId)
      && (forall k :: k in AsMap(notifiers) ==> k < nextNotifierId)
    }

    /** `Queue(capacity)`: the capacity is stored as given, even 0. */
    constructor (capacity: Index32)
      ensures Idle() && FreshIds()
      ensures this.capacity == capacity && timeout == DEFAULT_TIMEOUT
      ensures nextId == 1 && nextNotifierId == 1
      ensures statusTable == map[] && notifiers == [] && events == []
    {
      timeout := DEFAULT_TIMEOUT;
      this.capacity := capacity;
      numTasks := 0;
      nextId := 1;
      statusTable := map[];
      notifiers := [];
      nextNotifierId := 1;
      events := [];
    }

    function Capacity(): Index32
      reads this
    {
      capacity
    }

    /** `setCapacity(n)`: a capacity below 1 is raised to 1. */
    method SetCapacity(n: Index32)
      modifies this`capacity
      ensures capacity >= 1
      ensures n >= 1 ==> capacity == n
      ensures n == 0 ==> capacity == 1
    {
      capacity := if n < 1 then 1 else n;
    }

    function Timeout(): Index32
      reads this
    {
      timeout
    }

    /** `setTimeout(sec)`: stored as given. */
    method SetTimeout(sec: Index32)
      modifies this`timeout
      ensures timeout == sec
    {
      timeout := sec;
    }

    /** `size()`: the active count, read as 0 while it is transiently
        negative (inline completion decrements before admission increments). */
    function Size(): (n: Index32)
      reads this
      ensures n == 0 <==> numTasks <= 0
      ensures numTasks >= 0 ==> n == numTasks
    {
      if numTasks < 0 then 0 else numTasks
    }

    /** `empty()`: the active count is exactly zero. */
    predicate Empty()
      reads this
    {
      numTasks == 0
    }

    /** An empty queue has size 0, but size 0 does not make it empty: the
        count may be transiently negative. */
    lemma EmptyHasNoSize()
      ensures Empty() ==> Size() == 0
      ensures Size() == 0 && !Empty() ==> numTasks < 0
    {
    }

    /** `Impl::canEnqueue`: a slot is free. */
    predicate CanEnqueue()
      reads this
    {
      numTasks < capacity
    }

    /** `Impl::setStatus`: store a status, replacing any earlier one. */
    method SetStatus(id: Index32, st: Status)
      requires Valid() && st != Unknown
      modifies this`statusTable, this`events
      ensures Valid()
      ensures statusTable == old(statusTable)[id := st]
      ensures events == old(events) + [StatusSet(id, st)]
    {
      statusTable := statusTable[id := st];
      events := events + [StatusSet(id, st)];
    }

    /** `Impl::setStatusWithNotification`, the completion trampoline: write
        the status, call every notifier, evict a terminal status that was
        broadcast, and release the task's slot when it is terminal. */
    method SetStatusWithNotification(id: Index32, st: Status)
      requires Valid() && st != Unknown
      modifies this`statusTable, this`numTasks, this`events
      ensures Valid()
      ensures statusTable == Complete(old(statusTable), id, st, notifiers != [])
      ensures events == old(events) + CompletionEvents(notifiers, id, st)
      ensures numTasks == if IsTerminal(st) then Dec32(old(numTasks)) else old(numTasks)
    {
      var completed := IsTerminal(st);
      SetStatus(id, st);
      var didNotify := false;
      if notifiers != [] {
        didNotify := true;
        var i := 0;
        while i < |notifiers|
          invariant 0 <= i <= |notifiers|
          invariant events == old(events) + [StatusSet(id, st)] + Broadcast(notifiers[..i], id, st)
          invariant statusTable == old(statusTable)[id := st] && numTasks == old(numTasks)
        {
          assert Broadcast(notifiers[..i + 1], id, st)
              == Broadcast(notifiers[..i], id, st) + [Delivered(notifiers[i].id, id, st)];
          events := events + [Delivered(notifiers[i].id, id, st)];
          i := i + 1;
        }
        assert notifiers[..i] == notifiers;
      }
      if completed {
        if didNotify {
          statusTable := statusTable - {id};
          events := events + [Evicted(id)];
        }
        numTasks := Dec32(numTasks);
        events := events + [Released(id)];
      }
    }

    /** `OutputTask::execute`: run the write, turn its ending into a status
        and report that status, once, through the trampoline. */
    method Execute(task: OutputTask)
      requires Valid()
      modifies this`statusTable, this`numTasks, this`events
      ensures Valid()
      ensures statusTable == Complete(old(statusTable), task.id, Outcome(task.write), notifiers != [])
      ensures events == old(events) + CompletionEvents(notifiers, task.id, Outcome(task.write))
      ensures numTasks == Dec32(old(numTasks))
    {
      var status := Failed;
      match task.write {
        case Written => status := Succeeded;
        case ThrewException(_) =>
        case ThrewOther =>
      }
      SetStatusWithNotification(task.id, status);
    }

    /** `Impl::enqueue`: refuse when no slot is free (the polling loop can
        only end by timing out, since nothing runs while it waits);
        otherwise record PENDING, run the task, and count it. */
    method Enqueue(task: OutputTask) returns (admitted: bool)
      requires Valid()
      modifies this`statusTable, this`numTasks, this`events
      ensures Valid()
      ensures admitted == old(CanEnqueue())
      ensures numTasks == old(numTasks)
      ensures !admitted ==> statusTable == old(statusTable) && events == old(events)
      ensures admitted ==>
        statusTable == Complete(old(statusTable)[task.id := Pending], task.id, Outcome(task.write), notifiers != [])
      ensures admitted ==>
        events == old(events) + [StatusSet(task.id, Pending)] + CompletionEvents(notifiers, task.id, Outcome(task.write))
                  + [Counted(task.id)]
    {
      if !CanEnqueue() {
        return false;
      }
      SetStatus(task.id, Pending);
      Execute(task);
      IncUndoesDec(old(numTasks));
      numTasks := Inc32(numTasks);
      events := events + [Counted(task.id)];
      admitted := true;
    }

    /** `writeGridVec`: draw the next task id (even when admission then
        fails), and submit a task writing `grids`. */
    method WriteGridVec(grids: seq<GridRef>, write: WriteResult) returns (r: Result<Index32>)
      requires Valid()
      modifies this`nextId, this`statusTable, this`numTasks, this`events
      ensures Valid()
      ensures nextId == NextIndex32(old(nextId))
      ensures r.Ok? <==> old(CanEnqueue())
      ensures r.Ok? ==> r.value == old(nextId)
      ensures r.Err? ==> r.error == TimeLimitExpired(timeout)
      ensures numTasks == old(numTasks)
      ensures r.Err? ==> statusTable == old(statusTable) && events == old(events)
      ensures r.Ok? ==>
        statusTable == Complete(old(statusTable), r.value, Outcome(write), notifiers != [])
      ensures r.Ok? ==>
        events == old(events) + [StatusSet(r.value, Pending)] + CompletionEvents(notifiers, r.value, Outcome(write))
                  + [Counted(r.value)]
      ensures old(Idle()) ==> Idle()
      ensures old(FreshIds()) && old(nextId) < INDEX32_LIMIT - 1 ==> FreshIds()
    {
      var taskId := nextId;
      nextId := NextIndex32(nextId);
      var task := OutputTask(taskId, grids, write);
      var admitted := Enqueue(task);
      if !admitted {
        return Err(TimeLimitExpired(timeout));
      }
      InlineRunOverwritesPending(old(statusTable), taskId, Outcome(write), notifiers != []);
      r := Ok(taskId);
    }

    /** `writeGrid`: a submission of one grid. */
    method WriteGrid(grid: GridRef, write: WriteResult) returns (r: Result<Index32>)
      requires Valid()
      modifies this`nextId, this`statusTable, this`numTasks, this`events
      ensures Valid()
      ensures nextId == NextIndex32(old(nextId))
      ensures r.Ok? <==> old(CanEnqueue())
      ensures r.Ok? ==> r.value == old(nextId)
      ensures r.Err? ==> r.error == TimeLimitExpired(timeout)
      ensures numTasks == old(numTasks)
      ensures r.Err? ==> statusTable == old(statusTable) && events == old(events)
      ensures r.Ok? ==>
        statusTable == Complete(old(statusTable), r.value, Outcome(write), notifiers != [])
      ensures r.Ok? ==>
        events == old(events) + [StatusSet(r.value, Pending)] + CompletionEvents(notifiers, r.value, Outcome(write))
                  + [Counted(r.value)]
      ensures old(Idle()) ==> Idle()
      ensures old(FreshIds()) && old(nextId) < INDEX32_LIMIT - 1 ==> FreshIds()
    {
      r := WriteGridVec([grid], write);
    }

    /** `status(id)`: UNKNOWN for an untracked id; a terminal status is
        returned and forgotten; PENDING is returned and kept. */
    method Status(id: Index32) returns (st: Status)
      requires Valid()
      modifies this`statusTable, this`events
      ensures Valid()
      ensures (st, statusTable) == Read(old(statusTable), id)
      ensures st == Unknown <==> id !in old(statusTable)
      ensures events == old(events) + (if IsTerminal(st) then [Evicted(id)] else [])
      ensures old(Idle()) ==> Idle()
      ensures old(FreshIds()) ==> FreshIds()
    {
      if id in statusTable {
        st := statusTable[id];
        if IsTerminal(st) {
          statusTable := statusTable - {id};
          events := events + [Evicted(id)];
        }
        return;
      }
      st := Unknown;
    }

    /** `addNotifier`: register a callback under a fresh id. */
    method AddNotifier(n: Notifier) returns (id: Index32)
      requires Valid()
      modifies this`notifiers, this`nextNotifierId
      ensures Valid()
      ensures id == old(nextNotifierId) && nextNotifierId == NextIndex32(id)
      ensures notifiers == Put(old(notifiers), id, n)
      ensures AsMap(notifiers) == old(AsMap(notifiers))[id := n]
      ensures old(FreshIds()) ==> notifiers == old(notifiers) + [Registration(id, n)]
      ensures old(FreshIds()) && id < INDEX32_LIMIT - 1 ==> FreshIds()
    {
      id := nextNotifierId;
      nextNotifierId := NextIndex32(nextNotifierId);
      if forall k :: k in AsMap(notifiers) ==> k < id {
        PutFreshAppends(notifiers, id, n);
      }
      notifiers := Put(notifiers, id, n);
    }

    /** `removeNotifier`: drop the callback registered under `id`, if any. */
    method RemoveNotifier(id: Index32)
      requires Valid()
      modifies this`notifiers
      ensures Valid()
      ensures notifiers == Erase(old(notifiers), id)
      ensures AsMap(notifiers) == old(AsMap(notifiers)) - {id}
      ensures id !in old(AsMap(notifiers)) ==> notifiers == old(notifiers)
      ensures old(FreshIds()) ==> FreshIds()
    {
      if id !in AsMap(notifiers) {
        EraseUnknownIsNoOp(notifiers, id);
      }
      notifiers := Erase(notifiers, id);
    }

    /** `clearNotifiers`: drop every callback. */
    method ClearNotifiers()
      requires Valid()
      modifies this`notifiers
      ensures Valid()
      ensures notifiers == [] && AsMap(notifiers) == map[]
      ensures old(FreshIds()) ==> FreshIds()
    {
      notifiers := [];
    }
  }
}
