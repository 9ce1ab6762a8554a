/** Actions under the same id run one after another. */
module SyncedProcs {
  import opened Wrappers

  type Id = string

  /** An action, that is not started yet, and a promise that was given for it. */
  datatype Task = Task(action: nat, deferred: nat)

  datatype Outcome = Resolved(value: nat) | Rejected(error: nat)

  datatype Settlement = Settlement(deferred: nat, outcome: Outcome)

  /** A queue. Waiting for an action splits the code's loop into methods: what goes before
    * the wait, and what is done when action completes. */
  class SingleProc {
    var actions: seq<Task>
    var running: bool

    constructor ()
      ensures actions == [] && !running
    {
      actions, running := [], false;
    }

    ghost predicate Valid()
      reads this
    {
      running <==> |actions| > 0
    }

    predicate IsProcessing()
      reads this
    {
      |actions| > 0
    }

    /** First action is started at once. */
    method StartOrChain(task: Task) returns (started: Option<nat>)
      requires Valid()
      modifies this
      ensures Valid() && actions == old(actions) + [task]
      ensures started == if old(actions) == [] then Some(task.action) else None
    {
      actions := actions + [task];
      if running {
        return None;
      }
      running := true;
      started := Some(actions[0].action);
    }

    /** Completion of the first action settles its promise, and lets the next action start.
      * Synchronously thrown error is a completion, too. */
    method Complete(outcome: Outcome) returns (settled: Settlement, started: Option<nat>)
      requires Valid() && running
      modifies this
      ensures Valid() && actions == old(actions)[1..]
      ensures settled == Settlement(old(actions)[0].deferred, outcome)
      ensures started == if actions == [] then None else Some(actions[0].action)
    {
      settled := Settlement(actions[0].deferred, outcome);
      actions := actions[1..];
      if |actions| > 0 {
        started := Some(actions[0].action);
      } else {
        running := false;
        started := None;
      }
    }
  }

  /** All that happened under one id. */
  datatype History = History(
    submitted: seq<Task>, started: seq<nat>, outcomes: seq<Outcome>, settled: seq<Settlement>)

  const NOTHING := History([], [], [], [])

  function Actions(tasks: seq<Task>): (actions: seq<nat>)
    ensures |actions| == |tasks|
  {
    seq(|tasks|, i requires 0 <= i < |tasks| => tasks[i].action)
  }

  function Called(started: Option<nat>): seq<nat> {
    if started.Some? then [started.value] else []
  }

  /** Actions run one at a time, in order of their submission, each once, and every promise is settled
    * with an outcome of its own action. Queue has all that is not completed, and the first is running. */
  ghost predicate InOrder(h: History, queue: seq<Task>) {
    && |h.settled| == |h.outcomes| <= |h.submitted|
    && h.submitted[|h.outcomes|..] == queue
    && h.started == Actions(h.submitted[..|h.outcomes| + if |queue| > 0 then 1 else 0])
    && forall i :: 0 <= i < |h.outcomes| ==>
         h.settled[i] == Settlement(h.submitted[i].deferred, h.outcomes[i])
  }

  lemma SubmittedKeepsOrder(h: History, queue: seq<Task>, task: Task)
    requires InOrder(h, queue)
    ensures InOrder(
              History(h.submitted + [task], h.started + if queue == [] then [task.action] else [],
                      h.outcomes, h.settled),
              queue + [task])
  {
    var submitted := h.submitted + [task];
    assert submitted[|h.outcomes|..] == queue + [task];
    assert submitted[..|h.outcomes| + 1]
        == if queue == [] then h.submitted + [task] else h.submitted[..|h.outcomes| + 1];
    assert queue == [] ==> h.submitted[..|h.outcomes|] == h.submitted;
  }

  lemma CompletedKeepsOrder(h: History, queue: seq<Task>, outcome: Outcome)
    requires InOrder(h, queue) && |queue| > 0
    ensures InOrder(
              History(h.submitted, h.started + if |queue| > 1 then [queue[1].action] else [],
                      h.outcomes + [outcome], h.settled + [Settlement(queue[0].deferred, outcome)]),
              queue[1..])
  {
    assert h.submitted[|h.outcomes|] == queue[0];
    assert h.submitted[|h.outcomes| + 1..] == queue[1..];
    if |queue| > 1 {
      assert h.submitted[|h.outcomes| + 1] == queue[1];
      assert h.submitted[..|h.outcomes| + 2] == h.submitted[..|h.outcomes| + 1] + [queue[1]];
    }
  }

  class NamedProcs {
    var processes: map<Id, SingleProc>
    // ids that queues, which were ever made, have in their callbacks
    var names: map<SingleProc, Id>
    ghost var histories: map<Id, History>

    ghost function HistoryOf(id: Id): History
      reads this
    {
      if id in histories then histories[id] else NOTHING
    }

    ghost function QueueOf(id: Id): seq<Task>
      reads this, processes.Values
    {
      if id in processes then processes[id].actions else []
    }

    ghost predicate InMapWithIds()
      reads this, names.Keys, processes.Values
    {
      && (forall p :: p in names ==> p.Valid())
      && (forall id :: id in processes ==> processes[id] in names && names[processes[id]] == id)
    }

    ghost predicate IsInMap(p: SingleProc)
      requires p in names
      reads this
    {
      names[p] in processes && processes[names[p]] == p
    }

    /** Exactly busy queues are in the map, so that two busy queues for one id never coexist. */
    ghost predicate BusyAreInMap()
      reads this, names.Keys, processes.Values
    {
      InMapWithIds() && forall p :: p in names ==> (|p.actions| > 0 <==> IsInMap(p))
    }

    ghost predicate Valid()
      reads this, names.Keys, processes.Values
    {
      BusyAreInMap() && forall id: Id :: InOrder(HistoryOf(id), QueueOf(id))
    }

    constructor ()
      ensures Valid() && processes == map[] && histories == map[]
    {
      processes, names, histories := map[], map[], map[];
    }

    method IsProcessing(id: Id) returns (r: bool)
      requires Valid()
      ensures r <==> |QueueOf(id)| > 0
      ensures r <==> id in processes
    {
      r := id in processes && processes[id].IsProcessing();
    }

    method StartOrChain(id: Id, task: Task) returns (started: Option<nat>)
      requires Valid()
      modifies this, processes.Values
      ensures Valid() && fresh(names.Keys - old(names.Keys))
      ensures QueueOf(id) == old(QueueOf(id)) + [task]
      ensures started == if old(QueueOf(id)) == [] then Some(task.action) else None
      ensures HistoryOf(id).submitted == old(HistoryOf(id).submitted) + [task]
      ensures HistoryOf(id).outcomes == old(HistoryOf(id).outcomes)
      ensures HistoryOf(id).settled == old(HistoryOf(id).settled)
      ensures forall other: Id :: other != id ==>
                HistoryOf(other) == old(HistoryOf(other)) && QueueOf(other) == old(QueueOf(other))
    {
      ghost var h, queue := HistoryOf(id), QueueOf(id);
      SubmittedKeepsOrder(h, queue, task);
      started := AddToQueue(id, task);
      forall other: Id | other != id ensures InOrder(HistoryOf(other), QueueOf(other)) {
        assert old(InOrder(HistoryOf(other), QueueOf(other)));
      }
      Record(id, History(
        h.submitted + [task], h.started + Called(started), h.outcomes, h.settled));
    }

    ghost method Record(id: Id, h: History)
      requires forall other: Id :: other != id ==> InOrder(HistoryOf(other), QueueOf(other))
      requires InOrder(h, QueueOf(id))
      modifies this`histories
      ensures HistoryOf(id) == h
      ensures forall other: Id :: other != id ==> HistoryOf(other) == old(HistoryOf(other))
      ensures forall other: Id :: InOrder(HistoryOf(other), QueueOf(other))
    {
      histories := histories[id := h];
    }

    method AddToQueue(id: Id, task: Task) returns (started: Option<nat>)
      requires BusyAreInMap()
      modifies this`processes, this`names, processes.Values
      ensures BusyAreInMap() && fresh(names.Keys - old(names.Keys))
      ensures QueueOf(id) == old(QueueOf(id)) + [task]
      ensures started == if old(QueueOf(id)) == [] then Some(task.action) else None
      ensures forall other: Id :: other != id ==> QueueOf(other) == old(QueueOf(other))
    {
      var p := GetOrMake(id);
      started := p.StartOrChain(task);
      forall other: Id | other != id ensures QueueOf(other) == old(QueueOf(other)) {
        assert other in processes ==> processes[other] != p;
      }
    }

    /** A new queue is idle in the map only till an action is put into it. */
    method GetOrMake(id: Id) returns (p: SingleProc)
      requires BusyAreInMap()
      modifies this`processes, this`names
      ensures InMapWithIds() && id in processes && p == processes[id]
      ensures forall q :: q in names && q != p ==> (|q.actions| > 0 <==> IsInMap(q))
      ensures p.actions == old(QueueOf(id))
      ensures p in old(processes.Values) || fresh(p)
      ensures fresh(names.Keys - old(names.Keys))
      ensures forall other: Id :: other != id ==> (other in processes <==> other in old(processes))
      ensures forall other: Id :: other != id && other in processes ==> processes[other] == old(processes)[other]
    {
      if id in processes {
        p := processes[id];
      } else {
        p := new SingleProc();
        processes := processes[id := p];
        names := names[p := id];
        assert forall q :: q in names && q != p ==> (IsInMap(q) <==> old(q in names && IsInMap(q)));
      }
    }

    method Start(id: Id, task: Task) returns (ok: bool, started: Option<nat>)
      requires Valid()
      modifies this, processes.Values
      ensures Valid()
      ensures ok <==> old(QueueOf(id)) == []
      ensures ok ==> started == Some(task.action) && QueueOf(id) == [task]
      ensures ok ==> HistoryOf(id).submitted == old(HistoryOf(id).submitted) + [task]
      ensures !ok ==> histories == old(histories) && forall other: Id :: QueueOf(other) == old(QueueOf(other))
    {
      var isProcessing := IsProcessing(id);
      if isProcessing {
        return false, None;
      }
      started := StartOrChain(id, task);
      ok := true;
    }

    /** A queue that goes idle takes its id out of the map. */
    method Complete(p: SingleProc, outcome: Outcome) returns (settled: Settlement, started: Option<nat>)
      requires Valid() && p in names && p.running
      modifies this, p
      ensures Valid() && names == old(names)
      ensures old(|QueueOf(names[p])|) > 0 && QueueOf(names[p]) == old(QueueOf(names[p]))[1..]
      ensures settled == Settlement(old(QueueOf(names[p]))[0].deferred, outcome)
      ensures started == if QueueOf(names[p]) == [] then None else Some(QueueOf(names[p])[0].action)
      ensures HistoryOf(names[p]).submitted == old(HistoryOf(names[p]).submitted)
      ensures HistoryOf(names[p]).outcomes == old(HistoryOf(names[p]).outcomes) + [outcome]
      ensures forall other: Id :: other != names[p] ==>
                HistoryOf(other) == old(HistoryOf(other)) && QueueOf(other) == old(QueueOf(other))
    {
      var id := names[p];
      ghost var h, queue := HistoryOf(id), QueueOf(id);
      CompletedKeepsOrder(h, queue, outcome);
      settled, started := p.Complete(outcome);
      if started.None? {
        processes := processes - {id};
      }
      forall other: Id | other != id
        ensures InOrder(HistoryOf(other), QueueOf(other)) && QueueOf(other) == old(QueueOf(other))
      {
        assert old(InOrder(HistoryOf(other), QueueOf(other)));
      }
      Record(id, History(
        h.submitted, h.started + Called(started), h.outcomes + [outcome], h.settled + [settled]));
    }
  }
}
