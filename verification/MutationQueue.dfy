/** The queue that runs one configuration mutation at a time: every submitted
    operation waits for the promise that was the tail when it was submitted. */
module MutationQueue {
  import opened Results
  import opened EndpointIds
  import Cfg = EndpointConfig

  /** A delete carries the endpoint that was shown as selected when it was submitted. */
  datatype Mutation =
    | Save(target: Option<EndpointId>, draft: Cfg.Draft, uuid: EndpointId)
    | Delete(id: EndpointId, selected: EndpointId)

  /** How an operation ended. A write can fail before the file is replaced, or
      after it, when the directory cannot be synced; and publishing the new
      configuration can throw after the write. */
  datatype End = Succeeded | FailedBefore | FailedAfter | PublishThrew

  datatype Phase =
    | Waiting
    | Started
    | HasRead(read: Cfg.Config)
    | Written(next: Cfg.Config)
    | Persisted(next: Cfg.Config)   // a delete, behind its call that may move the selection
    | Published
    | Cleaning                      // a delete, behind its call that closes the sessions
    | Done(end: End)

  /** What a delete has done to the stored selection. */
  datatype Persisting = NotAsked | Cleared | Refused

  /** One submitted operation and what it waits for. `landed` and `groupClosed` say
      whether its write and its group close have taken effect; `complete` is the
      `cleanupComplete` of a delete. */
  datatype Task = Task(mutation: Mutation, after: Option<nat>, phase: Phase, landed: bool,
                       persist: Persisting, groupClosed: bool, complete: bool)

  /** `started` remembers the order in which operations were started. */
  datatype Queue = Queue(tasks: seq<Task>, tail: Option<nat>, started: seq<nat>)

  const NO_TASKS := Queue([], None, [])

  function Asked(m: Mutation, after: Option<nat>): Task { Task(m, after, Waiting, false, NotAsked, false, true) }

  /** `run`: the operation waits for the tail, and its own settling is the new tail. */
  function Submitted(q: Queue, m: Mutation): Queue {
    q.(tasks := q.tasks + [Asked(m, q.tail)], tail := Some(|q.tasks|))
  }

  predicate Settled(t: Task) { t.phase.Done? }

  /** Both reactions of `then` are the operation, so it starts once what it waits
      for has settled, either way. */
  predicate CanStart(q: Queue, i: nat) {
    && i < |q.tasks| && q.tasks[i].phase.Waiting?
    && match q.tasks[i].after
       case None => true
       case Some(j) => j < |q.tasks| && Settled(q.tasks[j])
  }

  function Begun(q: Queue, i: nat): Queue
    requires i < |q.tasks|
  {
    q.(tasks := q.tasks[i := q.tasks[i].(phase := Started)], started := q.started + [i])
  }

  predicate Running(t: Task) { !t.phase.Waiting? && !t.phase.Done? }

  /** A running operation moves on. */
  function Moved(q: Queue, i: nat, t: Task): Queue
    requires i < |q.tasks|
  {
    q.(tasks := q.tasks[i := t])
  }

  class EndpointMutationQueue {
    var tasks: seq<Task>
    var tail: Option<nat>
    ghost var started: seq<nat>

    ghost function State(): Queue reads this { Queue(tasks, tail, started) }

    constructor ()
      ensures State() == NO_TASKS
    {
      tasks, tail, started := [], None, [];
    }

    method Run(m: Mutation) returns (result: nat)
      modifies this
      ensures result == |old(tasks)| && State() == Submitted(old(State()), m)
      ensures old(Chained(State())) ==> Chained(State())
    {
      ghost var before := State();
      result := |tasks|;
      tasks := tasks + [Asked(m, tail)];
      tail := Some(result);
      if Chained(before) { SubmittedChained(before, m); }
    }

    /** The reaction of a settled tail: the operation that waits for it starts, and
        it is the first one that has not started. */
    method React(i: nat) returns (ran: bool)
      modifies this
      ensures ran == old(CanStart(State(), i))
      ensures State() == if ran then Begun(old(State()), i) else old(State())
      ensures old(Chained(State())) ==> Chained(State()) && (ran ==> i == |old(started)|)
    {
      ghost var before := State();
      ran := i < |tasks| && tasks[i].phase.Waiting?
             && (tasks[i].after.None? || (tasks[i].after.value < |tasks| && Settled(tasks[tasks[i].after.value])));
      if ran {
        if Chained(before) { StartIsNext(before, i); }
        tasks := tasks[i := tasks[i].(phase := Started)];
        started := started + [i];
      }
    }
  }

  // ----- what the chain keeps -----

  predicate PastPersist(p: Phase) {
    p.Persisted? || p.Published? || p.Cleaning? || p == Done(Succeeded) || p == Done(PublishThrew)
  }

  predicate PastClose(p: Phase) { p.Cleaning? || p == Done(Succeeded) }

  /** A delete of the endpoint that was shown as selected when it was submitted. */
  predicate OfSelected(m: Mutation) { m.Delete? && Cfg.Reselect(m.selected, m.id) != m.selected }

  /** What a task remembers follows from how far it got: a write has landed exactly
      when the phase says so; the selection was asked about exactly behind that call
      and when the deleted endpoint was the selected one; and a delete that is past
      its close with nothing failed has closed the group. */
  predicate Recorded(t: Task) {
    && (t.landed <==> t.phase.Written? || PastPersist(t.phase) || t.phase == Done(FailedAfter))
    && (t.phase.Persisted? || t.phase.Cleaning? ==> t.mutation.Delete?)
    && (!t.persist.NotAsked? <==> OfSelected(t.mutation) && PastPersist(t.phase))
    && (t.persist.Refused? ==> !t.complete)
    && (t.groupClosed ==> t.mutation.Delete? && PastClose(t.phase))
    && (t.mutation.Delete? && PastClose(t.phase) && t.complete ==> t.groupClosed)
  }

  /** Operations wait for their predecessor, start in the order of submission, and
      all but the last one started have settled. */
  ghost predicate Chained(q: Queue) {
    && q.tail == (if q.tasks == [] then None else Some(|q.tasks| - 1))
    && (forall i :: 0 <= i < |q.tasks| ==> q.tasks[i].after == if i == 0 then None else Some(i - 1))
    && |q.started| <= |q.tasks|
    && (forall k :: 0 <= k < |q.started| ==> q.started[k] == k)
    && (forall i :: 0 <= i < |q.tasks| ==> (q.tasks[i].phase.Waiting? <==> |q.started| <= i))
    && (forall i :: 0 <= i < |q.started| - 1 ==> Settled(q.tasks[i]))
    && (forall i :: 0 <= i < |q.tasks| ==> Recorded(q.tasks[i]))
  }

  lemma SubmittedChained(q: Queue, m: Mutation)
    requires Chained(q)
    ensures Chained(Submitted(q, m))
  {
  }

  /** Only the first operation that has not started can start. */
  lemma StartIsNext(q: Queue, i: nat)
    requires Chained(q) && CanStart(q, i)
    ensures i == |q.started| && Chained(Begun(q, i))
    ensures forall j :: 0 <= j < i ==> Settled(q.tasks[j])
  {
    assert !q.tasks[i].phase.Done?;
    if i > 0 { assert q.tasks[i].after == Some(i - 1) && Settled(q.tasks[i - 1]); }
  }

  /** The running operation is the last one that was started. */
  lemma RunningIsLast(q: Queue, i: nat)
    requires Chained(q) && i < |q.tasks| && Running(q.tasks[i])
    ensures i == |q.started| - 1
  {
  }

  lemma MovedChained(q: Queue, i: nat, t: Task)
    requires Chained(q) && i < |q.tasks| && Running(q.tasks[i])
    requires !t.phase.Waiting? && t.after == q.tasks[i].after && Recorded(t)
    ensures Chained(Moved(q, i, t))
  {
    RunningIsLast(q, i);
  }

  /** Whatever the outcome of the operations before it, the queue never gets stuck:
      the first operation that has not settled is running or can start. */
  lemma NeverStuck(q: Queue, i: nat)
    requires Chained(q) && i < |q.tasks| && !Settled(q.tasks[i])
    requires forall j :: 0 <= j < i ==> Settled(q.tasks[j])
    ensures Running(q.tasks[i]) || CanStart(q, i)
  {
  }
}
