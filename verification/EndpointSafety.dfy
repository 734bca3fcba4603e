/** What every run of the endpoint system keeps: serialised configuration
    changes, one place for every session, and deletion that is final. */
module EndpointSafety {
  import opened Results
  import opened EndpointIds
  import opened Pool
  import opened EndpointSystem
  import opened MutationQueue
  import Cfg = EndpointConfig

  // ----- configuration changes take effect one at a time -----

  /** The mutations whose write has landed, applied one after the other. */
  ghost function Replay(rules: Cfg.Rules, start: Cfg.Config, tasks: seq<Task>): Option<Cfg.Config>
    decreases |tasks|
  {
    if tasks == [] then Some(start)
    else
      var n := |tasks| - 1;
      match Replay(rules, start, tasks[..n])
      case None => None
      case Some(c) => if tasks[n].landed then Outcome(rules, tasks[n].mutation, c) else Some(c)
  }

  predicate HoldsConfig(p: Phase) { p.HasRead? || p.Written? || p.Persisted? }

  function HeldConfig(p: Phase): Cfg.Config
    requires HoldsConfig(p)
  {
    if p.HasRead? then p.read else p.next
  }

  /** What the running operation has read, or has written and will publish, is the
      current configuration. */
  ghost predicate HeldIsCurrent(s: System) {
    forall i :: 0 <= i < |s.queue.tasks| && HoldsConfig(s.queue.tasks[i].phase) ==> HeldConfig(s.queue.tasks[i].phase) == s.config
  }

  ghost predicate Serialised(rules: Cfg.Rules, start: Cfg.Config, s: System) {
    && Chained(s.queue)
    && Cfg.Valid(rules, s.config)
    && HeldIsCurrent(s)
    && Replay(rules, start, s.queue.tasks) == Some(s.config)
  }

  lemma {:induction false} ReplaySame(rules: Cfg.Rules, start: Cfg.Config, tasks: seq<Task>, other: seq<Task>)
    requires |tasks| == |other|
    requires forall i :: 0 <= i < |tasks| ==> tasks[i].mutation == other[i].mutation && tasks[i].landed == other[i].landed
    ensures Replay(rules, start, tasks) == Replay(rules, start, other)
    decreases |tasks|
  {
    hide Outcome;
    if tasks != [] {
      var n := |tasks| - 1;
      ReplaySame(rules, start, tasks[..n], other[..n]);
    }
  }

  /** Operations whose write has not landed do not matter. */
  lemma {:induction false} ReplayUnlanded(rules: Cfg.Rules, start: Cfg.Config, tasks: seq<Task>, n: nat)
    requires n <= |tasks| && forall i :: n <= i < |tasks| ==> !tasks[i].landed
    ensures Replay(rules, start, tasks) == Replay(rules, start, tasks[..n])
    decreases |tasks|
  {
    hide Outcome;
    if n == |tasks| {
      assert tasks[..n] == tasks;
    } else {
      var front := tasks[..|tasks| - 1];
      ReplayUnlanded(rules, start, front, n);
      assert front[..n] == tasks[..n];
    }
  }

  lemma LaterWait(q: Queue, i: nat)
    requires Chained(q) && i < |q.tasks| && Running(q.tasks[i])
    ensures forall j :: i < j < |q.tasks| ==> q.tasks[j].phase.Waiting? && !q.tasks[j].landed
  {
    RunningIsLast(q, i);
  }

  /** The write of the running operation comes after all that have landed. */
  lemma ReplayLanding(rules: Cfg.Rules, start: Cfg.Config, q: Queue, i: nat, t: Task)
    requires Chained(q) && i < |q.tasks| && Running(q.tasks[i]) && !q.tasks[i].landed
    requires t.landed && t.mutation == q.tasks[i].mutation
    requires Replay(rules, start, q.tasks).Some?
    ensures Replay(rules, start, Moved(q, i, t).tasks)
         == Outcome(rules, q.tasks[i].mutation, Replay(rules, start, q.tasks).value)
  {
    LaterWait(q, i);
    hide Outcome, Chained, Replay;
    var after := Moved(q, i, t).tasks;
    assert forall j :: 0 <= j < |after| && j != i ==> after[j] == q.tasks[j];
    ReplayUnlanded(rules, start, q.tasks, i);
    ReplayUnlanded(rules, start, after, i + 1);
    assert after[..i + 1] == q.tasks[..i] + [t];
    ReplayNext(rules, start, q.tasks[..i], t);
  }

  lemma ReplayNext(rules: Cfg.Rules, start: Cfg.Config, tasks: seq<Task>, t: Task)
    requires t.landed && Replay(rules, start, tasks).Some?
    ensures Replay(rules, start, tasks + [t]) == Outcome(rules, t.mutation, Replay(rules, start, tasks).value)
  {
    hide Outcome;
    assert (tasks + [t])[..|tasks|] == tasks;
  }

  lemma OutcomeValid(rules: Cfg.Rules, m: Mutation, c: Cfg.Config)
    requires Cfg.Stable(rules) && Cfg.Valid(rules, c) && Outcome(rules, m, c).Some?
    ensures Cfg.Valid(rules, Outcome(rules, m, c).value)
  {
    match m
    case Save(target, draft, uuid) => Cfg.SavedIds(rules, c, target, draft, uuid);
    case Delete(id, _) => Cfg.DeletedIds(rules, c, id);
  }

  predicate Lands(a: Action) { a.WriteConfig? || a.WriteFailsAfter? }

  lemma SerialisedStep(rules: Cfg.Rules, start: Cfg.Config, s: System, a: Action)
    requires Cfg.Stable(rules) && Serialised(rules, start, s) && Enabled(rules, s, a)
    ensures Serialised(rules, start, Apply(rules, s, a))
  {
    hide Cfg.Valid, Cfg.Stable, Outcome, Replay, Chained;
    if Lands(a) {
      LandingSerialised(rules, start, s, a);
    } else if Moves(a) {
      MoveSerialised(rules, start, s, a);
    } else if a.Submit? {
      SubmittedChained(s.queue, a.m);
      var after := Submitted(s.queue, a.m).tasks;
      assert after[..|s.queue.tasks|] == s.queue.tasks;
      ReplayUnlanded(rules, start, after, |s.queue.tasks|);
    } else if a.Start? {
      StartIsNext(s.queue, a.i);
      StartKeepsLanded(s.queue, a.i);
      ReplaySame(rules, start, s.queue.tasks, Begun(s.queue, a.i).tasks);
      assert HeldIsCurrent(s);
    } else {
      QueueUntouched(rules, s, a);
      hide Apply, Enabled;
    }
  }

  lemma StartKeepsLanded(q: Queue, i: nat)
    requires i < |q.tasks|
    ensures forall j :: 0 <= j < |q.tasks| ==>
      Begun(q, i).tasks[j].mutation == q.tasks[j].mutation && Begun(q, i).tasks[j].landed == q.tasks[j].landed
  {
  }

  /** While one operation runs, no other does. */
  lemma OnlyRunner(q: Queue, i: nat, j: nat)
    requires Chained(q) && i < |q.tasks| && j < |q.tasks| && Running(q.tasks[i]) && Running(q.tasks[j])
    ensures i == j
  {
  }

  lemma RecordedNow(q: Queue, i: nat)
    requires Chained(q) && i < |q.tasks|
    ensures Recorded(q.tasks[i])
  {
  }

  lemma LandingSerialised(rules: Cfg.Rules, start: Cfg.Config, s: System, a: Action)
    requires Cfg.Stable(rules) && Serialised(rules, start, s) && Enabled(rules, s, a) && Lands(a)
    ensures Serialised(rules, start, Apply(rules, s, a))
  {
    hide Cfg.Valid, Cfg.Stable, Outcome, Replay, Chained;
    var i, q := a.i, Apply(rules, s, a);
    var t := q.queue.tasks[i];
    RecordedNow(s.queue, i);
    ReplayLanding(rules, start, s.queue, i, t);
    OutcomeValid(rules, s.queue.tasks[i].mutation, s.config);
    MovedChained(s.queue, i, t);
    forall j | 0 <= j < |q.queue.tasks| && HoldsConfig(q.queue.tasks[j].phase)
      ensures HeldConfig(q.queue.tasks[j].phase) == q.config
    {
      if j != i { OnlyRunner(s.queue, i, j); }
    }
  }

  /** A move changes its own operation and leaves the file alone. */
  lemma MoveIs(rules: Cfg.Rules, s: System, a: Action)
    requires Enabled(rules, s, a) && Moves(a)
    ensures CanMove(s, a)
    ensures Apply(rules, s, a).config == s.config
    ensures Apply(rules, s, a).queue == Moved(s.queue, a.i, MovedTask(s, a))
  {
    if a.CloseDeleted? { GroupCloseMoves(s, a); }
    hide Outcome, MovedTask, Moved;
  }

  lemma GroupCloseMoves(s: System, a: Action)
    requires Moves(a) && CanMove(s, a) && a.CloseDeleted?
    ensures var c := CloseGroupOf(s, s.queue.tasks[a.i].mutation.id);
      c.config == s.config && c.queue == s.queue && CanMove(c, a) && MovedTask(c, a) == MovedTask(s, a)
  {
  }

  lemma TaskKeeps(s: System, a: Action)
    requires Moves(a) && CanMove(s, a)
    ensures var t, next := s.queue.tasks[a.i], MovedTask(s, a);
      && Running(t) && next.mutation == t.mutation && next.after == t.after && next.landed == t.landed && !next.phase.Waiting?
      && (Recorded(t) ==> Recorded(next))
      && (HoldsConfig(next.phase) ==> if a.ReadConfig? then HeldConfig(next.phase) == s.config
                                      else HoldsConfig(t.phase) && HeldConfig(next.phase) == HeldConfig(t.phase))
  {
    hide Cfg.Reselect;
  }

  lemma MoveSerialised(rules: Cfg.Rules, start: Cfg.Config, s: System, a: Action)
    requires Serialised(rules, start, s) && Enabled(rules, s, a) && Moves(a)
    ensures Serialised(rules, start, Apply(rules, s, a))
  {
    MoveIs(rules, s, a);
    TaskKeeps(s, a);
    RecordedNow(s.queue, a.i);
    hide Cfg.Valid, Outcome, Replay, Chained, Apply, Enabled, MovedTask, CanMove, Recorded;
    MovedChained(s.queue, a.i, MovedTask(s, a));
    ReplaySame(rules, start, s.queue.tasks, Moved(s.queue, a.i, MovedTask(s, a)).tasks);
  }

  /** Opens, closes and shutdown leave the queue and the configuration alone. */
  lemma QueueUntouched(rules: Cfg.Rules, s: System, a: Action)
    requires Enabled(rules, s, a) && !a.Submit? && !a.Start? && !Lands(a) && !Moves(a)
    ensures Apply(rules, s, a).config == s.config && Apply(rules, s, a).queue == s.queue
  {
    hide Outcome, InsertCurrent, Insert, Allocate, CloseGroup, Remove, Drain, Taken, Move;
  }

  // ----- which endpoints are configured -----

  predicate Creates(m: Mutation, e: EndpointId) { m.Save? && m.target.None? && m.uuid == e }

  predicate Deletes(m: Mutation, e: EndpointId) { m.Delete? && m.id == e }

  /** The last landed word on `e`: a new endpoint with that id puts it in, a delete
      takes it out, and nothing else matters. */
  predicate LastWord(start: Cfg.Config, tasks: seq<Task>, e: EndpointId)
    decreases |tasks|
  {
    if tasks == [] then Cfg.Has(start, e)
    else
      var t := tasks[|tasks| - 1];
      if t.landed && Deletes(t.mutation, e) then false
      else if t.landed && Creates(t.mutation, e) then true
      else LastWord(start, tasks[..|tasks| - 1], e)
  }

  lemma OutcomeIds(rules: Cfg.Rules, m: Mutation, c: Cfg.Config, e: EndpointId)
    requires Cfg.Stable(rules) && Cfg.Valid(rules, c) && Outcome(rules, m, c).Some?
    ensures Cfg.Has(Outcome(rules, m, c).value, e)
            <==> !Deletes(m, e) && (Creates(m, e) || Cfg.Has(c, e))
  {
    match m
    case Save(target, draft, uuid) => SavedHas(rules, c, target, draft, uuid, e);
    case Delete(id, _) => DeletedHas(rules, c, id, e);
  }

  lemma SavedHas(rules: Cfg.Rules, c: Cfg.Config, target: Option<EndpointId>, draft: Cfg.Draft, uuid: EndpointId, e: EndpointId)
    requires Cfg.Stable(rules) && Cfg.Valid(rules, c) && Cfg.Saved(rules, c, target, draft, uuid).Some?
    ensures Cfg.Has(Cfg.Saved(rules, c, target, draft, uuid).value, e) <==> (target.None? && uuid == e) || Cfg.Has(c, e)
  {
    Cfg.SavedIds(rules, c, target, draft, uuid);
    hide Cfg.Saved, Cfg.Has, Cfg.Valid, Cfg.Stable;
    Cfg.HasById(c, e);
    Cfg.HasById(Cfg.Saved(rules, c, target, draft, uuid).value, e);
  }

  lemma DeletedHas(rules: Cfg.Rules, c: Cfg.Config, id: EndpointId, e: EndpointId)
    requires Cfg.Stable(rules) && Cfg.Valid(rules, c) && Cfg.Deleted(rules, c, id).Some?
    ensures Cfg.Has(Cfg.Deleted(rules, c, id).value, e) <==> id != e && Cfg.Has(c, e)
  {
    var next := Cfg.Deleted(rules, c, id).value;
    Cfg.DeletedIds(rules, c, id);
    hide Cfg.Deleted, Cfg.Valid, Cfg.Stable;
    if i :| 0 <= i < |next| && next[i].Id() == e { assert next[i] in c; }
    if id != e {
      if i :| 0 <= i < |c| && c[i].Id() == e { assert c[i] in next; }
    }
  }

  /** An endpoint is configured exactly when the last landed word on it says so. */
  lemma {:induction false} ConfiguredIff(rules: Cfg.Rules, start: Cfg.Config, tasks: seq<Task>, e: EndpointId)
    requires Cfg.Stable(rules) && Cfg.Valid(rules, start) && Replay(rules, start, tasks).Some?
    ensures Cfg.Valid(rules, Replay(rules, start, tasks).value)
    ensures Cfg.Has(Replay(rules, start, tasks).value, e) <==> LastWord(start, tasks, e)
    decreases |tasks|
  {
    hide Cfg.Valid, Cfg.Has, Outcome, Creates, Cfg.Stable;
    if tasks != [] {
      var n := |tasks| - 1;
      ConfiguredIff(rules, start, tasks[..n], e);
      if tasks[n].landed {
        var c := Replay(rules, start, tasks[..n]).value;
        OutcomeValid(rules, tasks[n].mutation, c);
        OutcomeIds(rules, tasks[n].mutation, c, e);
      }
    }
  }

  /** Operation `i` has taken `e` out of the configuration. */
  predicate ErasedAt(tasks: seq<Task>, i: nat, e: EndpointId) {
    i < |tasks| && tasks[i].landed && Deletes(tasks[i].mutation, e)
  }

  /** No later operation has put a new endpoint with the same id in. */
  ghost predicate NotRecreatedSince(tasks: seq<Task>, i: nat, e: EndpointId) {
    forall j :: i < j < |tasks| && tasks[j].landed ==> !Creates(tasks[j].mutation, e)
  }

  lemma {:induction false} LastWordIsOut(start: Cfg.Config, tasks: seq<Task>, i: nat, e: EndpointId)
    requires ErasedAt(tasks, i, e) && NotRecreatedSince(tasks, i, e)
    ensures !LastWord(start, tasks, e)
    decreases |tasks|
  {
    var n := |tasks| - 1;
    if i < n {
      var front := tasks[..n];
      assert forall j :: 0 <= j < n ==> front[j] == tasks[j];
      LastWordIsOut(start, front, i, e);
    }
  }

  /** Queued saves never bring a deleted endpoint back: only a new endpoint that is
      given the same id can, whatever created `e` before the delete. */
  lemma ErasedStaysOut(rules: Cfg.Rules, start: Cfg.Config, tasks: seq<Task>, i: nat, e: EndpointId)
    requires Cfg.Stable(rules) && Cfg.Valid(rules, start) && Replay(rules, start, tasks).Some?
    requires ErasedAt(tasks, i, e) && NotRecreatedSince(tasks, i, e)
    ensures !Cfg.Has(Replay(rules, start, tasks).value, e)
  {
    hide Cfg.Valid, Cfg.Has, Cfg.Stable, Replay, LastWord;
    ConfiguredIff(rules, start, tasks, e);
    LastWordIsOut(start, tasks, i, e);
  }

  lemma {:induction false} LandedDeleteIsRemote(rules: Cfg.Rules, start: Cfg.Config, tasks: seq<Task>, i: nat, e: EndpointId)
    requires Replay(rules, start, tasks).Some? && ErasedAt(tasks, i, e)
    ensures e != LOCAL
    decreases |tasks|
  {
    var n := |tasks| - 1;
    if i < n {
      assert tasks[..n][i] == tasks[i];
      LandedDeleteIsRemote(rules, start, tasks[..n], i, e);
    }
  }

  // ----- deletion -----

  /** The generation of an endpoint counts its group closes modulo 2^64, and every
      open remembers the count at which it captured it. */
  ghost predicate Counted(s: System) {
    && (forall e :: Generation(s.pool, e) == Closes(s, e) % GENERATIONS)
    && (forall task :: task in s.opens && Remote(s.opens[task]) ==>
          s.opens[task].gen == s.opens[task].closes % GENERATIONS && s.opens[task].closes <= Closes(s, s.opens[task].e))
  }

  predicate Remote(o: Open) { o.Captured? || o.Handshaking? || o.Established? }

  /** An open that found the endpoint in the configuration. */
  predicate PastRead(o: Open) { o.Handshaking? || o.Established? }

  lemma CountedStep(rules: Cfg.Rules, s: System, a: Action)
    requires Counted(s) && Enabled(rules, s, a)
    ensures Counted(Apply(rules, s, a))
    ensures forall e :: Closes(s, e) <= Closes(Apply(rules, s, a), e)
  {
    var q := Apply(rules, s, a);
    if a.CloseDeleted? {
      hide Counted, Outcome;
      GroupCounted(s, s.queue.tasks[a.i].mutation.id);
    } else if a.CloseEndpoint? {
      hide Counted, Outcome;
      GroupCounted(s, a.e);
    } else {
      OpensKept(rules, s, a);
      hide Counted, Outcome, Apply, Enabled;
      CountedSame(s, q);
    }
  }

  /** What an open remembers is never changed, and captured from the current state. */
  lemma OpensKept(rules: Cfg.Rules, s: System, a: Action)
    requires Enabled(rules, s, a) && !a.CloseDeleted? && !a.CloseEndpoint?
    ensures var q := Apply(rules, s, a);
      && q.groupCloses == s.groupCloses && q.pool.generations == s.pool.generations
      && forall task :: task in q.opens && Remote(q.opens[task]) ==>
           var o := q.opens[task];
           || (task in s.opens && Remote(s.opens[task]) && s.opens[task].e == o.e
               && s.opens[task].gen == o.gen && s.opens[task].closes == o.closes)
           || (o.gen == Generation(s.pool, o.e) && o.closes == Closes(s, o.e))
  {
    if OfQueue(a) {
      QueueActions(rules, s, a);
      hide Apply, Enabled, Outcome;
    } else {
      hide Outcome, Generation, Closes, Move, Taken, WithoutId;
    }
  }

  lemma CountedSame(s: System, q: System)
    requires Counted(s)
    requires q.groupCloses == s.groupCloses && q.pool.generations == s.pool.generations
    requires forall task :: task in q.opens && Remote(q.opens[task]) ==>
               var o := q.opens[task];
               || (task in s.opens && Remote(s.opens[task]) && s.opens[task].e == o.e
                   && s.opens[task].gen == o.gen && s.opens[task].closes == o.closes)
               || (o.gen == Generation(s.pool, o.e) && o.closes == Closes(s, o.e))
    ensures Counted(q) && forall e :: Closes(q, e) == Closes(s, e)
  {
    assert forall e :: Generation(q.pool, e) == Generation(s.pool, e) && Closes(q, e) == Closes(s, e);
  }

  lemma GroupCounted(s: System, e: EndpointId)
    requires Counted(s)
    ensures Counted(CloseGroupOf(s, e))
    ensures forall k :: Closes(CloseGroupOf(s, e), k) == Closes(s, k) + (if k == e then 1 else 0)
  {
    var q := CloseGroupOf(s, e);
    assert Generation(s.pool, e) == Closes(s, e) % GENERATIONS;
    forall k ensures Generation(q.pool, k) == Closes(q, k) % GENERATIONS {
      if k != e { assert Generation(q.pool, k) == Generation(s.pool, k); }
    }
  }

  /** A finished open is let into the pool exactly when the number of group closes
      since its capture is a multiple of 2^64. */
  lemma AdmittedIffNoCloseSince(s: System, task: TaskId)
    requires Counted(s) && task in s.opens && s.opens[task].Established?
    ensures var o := s.opens[task];
      InsertCurrent(s.pool, o.token, o.e, o.gen).Some? <==> (Closes(s, o.e) - o.closes) % GENERATIONS == 0
  {
    var o := s.opens[task];
    var c, d := Closes(s, o.e), o.closes;
    ModuloEqual(c, d);
  }

  lemma ModuloEqual(c: nat, d: nat)
    requires d <= c
    ensures c % GENERATIONS == d % GENERATIONS <==> (c - d) % GENERATIONS == 0
  {
  }

  /** What a finished delete of `e` leaves behind. */
  ghost predicate Gone(s: System, e: EndpointId) {
    && e != LOCAL
    && (forall task :: task in s.opens && PastRead(s.opens[task]) && s.opens[task].e == e ==>
          s.opens[task].closes < Closes(s, e))
    && (Closes(s, e) < GENERATIONS ==> forall id :: id in s.pool.owners ==> s.pool.owners[id] != e)
  }

  lemma GoneStep(rules: Cfg.Rules, s: System, a: Action, e: EndpointId)
    requires Counted(s) && Indexed(s.pool) && Enabled(rules, s, a)
    requires Gone(s, e) && !Cfg.Has(s.config, e)
    ensures Gone(Apply(rules, s, a), e)
  {
    if a.InsertSession? {
      AdmittedIffNoCloseSince(s, a.task);
      hide Counted, Indexed;
    } else if a.OpenRead? {
      hide Counted, Indexed;
      if i :| 0 <= i < |s.config| && s.config[i].Ssh? && s.config[i].uuid == s.opens[a.task].e {
        assert s.config[i].Id() == s.opens[a.task].e;
      }
    } else {
      CountedStep(rules, s, a);
      hide Counted, Indexed, Outcome;
      GoneShrinks(rules, s, a, e);
    }
  }

  lemma GoneShrinks(rules: Cfg.Rules, s: System, a: Action, e: EndpointId)
    requires Enabled(rules, s, a) && Gone(s, e) && !a.InsertSession? && !a.OpenRead?
    requires Closes(s, e) <= Closes(Apply(rules, s, a), e)
    ensures Gone(Apply(rules, s, a), e)
  {
    hide Outcome;
    var q := Apply(rules, s, a);
    if OfQueue(a) {
      QueueActions(rules, s, a);
      hide Apply, Enabled;
    } else if a.CloseSession? {
      assert q.pool.owners == s.pool.owners - {a.id};
    } else if a.CloseEndpoint? {
      assert q.pool.owners == s.pool.owners - Group(s.pool, a.e);
    } else if a.CloseDeleted? {
      assert q.pool.owners == s.pool.owners - Group(s.pool, s.queue.tasks[a.i].mutation.id);
    }
  }

  /** The locked section of the delete's group close establishes it. */
  lemma CloseDeletedGone(rules: Cfg.Rules, s: System, i: nat, ok: bool)
    requires Counted(s) && Indexed(s.pool) && Enabled(rules, s, CloseDeleted(i, ok)) && s.queue.tasks[i].mutation.id != LOCAL
    ensures Gone(Apply(rules, s, CloseDeleted(i, ok)), s.queue.tasks[i].mutation.id)
  {
    var e := s.queue.tasks[i].mutation.id;
    CloseGroupIndexed(s.pool, e);
    GroupCounted(s, e);
  }

  // ----- whole runs -----

  /** Everything a reachable state satisfies. */
  ghost predicate Safe(rules: Cfg.Rules, start: Cfg.Config, s: System) {
    && Serialised(rules, start, s)
    && Indexed(s.pool) && IdsFresh(s) && Conserved(s) && Counted(s)
    && DeletesFinal(s)
  }

  /** Operation `i` deletes, its group close has run, and no new endpoint has landed
      under the same id since. */
  ghost predicate ClosedForGood(tasks: seq<Task>, i: nat) {
    && i < |tasks| && tasks[i].groupClosed && tasks[i].mutation.Delete?
    && NotRecreatedSince(tasks, i, tasks[i].mutation.id)
  }

  ghost predicate DeletesFinal(s: System) {
    forall i: nat :: ClosedForGood(s.queue.tasks, i) ==> Gone(s, s.queue.tasks[i].mutation.id)
  }

  lemma InitialSafe(rules: Cfg.Rules, start: Cfg.Config, selected: EndpointId)
    requires Cfg.Valid(rules, start)
    ensures Safe(rules, start, Initial(start, selected))
  {
    assert forall e :: Generation(EMPTY, e) == 0 && Closes(Initial(start, selected), e) == 0;
    NothingPlaced();
  }

  lemma NothingPlaced()
    ensures AwaitingPlaced(map[], map[]) && PooledPlaced(map[], map[]) && ClosingPlaced({}, map[]) && ClosedPlaced([], map[])
  {
    var place: Places := map[];
    assert forall t :: t !in place;
  }

  /** Operations are never forgotten, and a write that landed stays landed. */
  lemma TasksGrow(rules: Cfg.Rules, s: System, a: Action)
    requires Chained(s.queue) && Enabled(rules, s, a)
    ensures var q := Apply(rules, s, a).queue;
      && |s.queue.tasks| <= |q.tasks|
      && forall i :: 0 <= i < |s.queue.tasks| ==>
           q.tasks[i].mutation == s.queue.tasks[i].mutation && (s.queue.tasks[i].landed ==> q.tasks[i].landed)
  {
    if Moves(a) {
      MoveIs(rules, s, a);
      TaskKeeps(s, a);
      hide Apply, Enabled, Chained, MovedTask, CanMove;
    } else if !a.Submit? && !a.Start? && !Lands(a) {
      QueueUntouched(rules, s, a);
      hide Apply, Enabled;
    } else {
      hide Outcome, Chained;
    }
  }

  /** Only a delete's own step marks its group close. */
  lemma ClosesMarked(rules: Cfg.Rules, s: System, a: Action, i: nat)
    requires Enabled(rules, s, a) && i < |Apply(rules, s, a).queue.tasks| && Apply(rules, s, a).queue.tasks[i].groupClosed
    ensures (a.CloseDeleted? && a.i == i && i < |s.queue.tasks|) || (i < |s.queue.tasks| && s.queue.tasks[i].groupClosed)
  {
    if Moves(a) {
      MoveIs(rules, s, a);
      hide Apply, Enabled, Cfg.Reselect;
    } else if !a.Submit? && !a.Start? && !Lands(a) {
      QueueUntouched(rules, s, a);
      hide Apply, Enabled;
    } else {
      hide Outcome;
    }
  }

  lemma SafeStep(rules: Cfg.Rules, start: Cfg.Config, s: System, a: Action)
    requires Cfg.Stable(rules) && Cfg.Valid(rules, start)
    requires Safe(rules, start, s) && Enabled(rules, s, a)
    ensures Safe(rules, start, Apply(rules, s, a))
  {
    var q := Apply(rules, s, a);
    SerialisedStep(rules, start, s, a);
    IndexedStep(rules, s, a);
    IdsFreshStep(rules, s, a);
    ConservedStep(rules, s, a);
    CountedStep(rules, s, a);
    hide Indexed, IdsFresh, Conserved, Counted, Serialised, DeletesFinal, Cfg.Valid, Cfg.Stable, Outcome, Apply, Enabled;
    DeletedStep(rules, start, s, a);
  }

  lemma DeletedStep(rules: Cfg.Rules, start: Cfg.Config, s: System, a: Action)
    requires Cfg.Stable(rules) && Cfg.Valid(rules, start)
    requires Safe(rules, start, s) && Enabled(rules, s, a)
    ensures DeletesFinal(Apply(rules, s, a))
  {
    hide Indexed, IdsFresh, Conserved, Counted, Gone, Chained, Cfg.Valid, Cfg.Stable, Replay, Outcome, Cfg.Has, NotRecreatedSince,
         Apply, Enabled;
    var q := Apply(rules, s, a);
    TasksGrow(rules, s, a);
    forall i: nat | ClosedForGood(q.queue.tasks, i) ensures Gone(q, q.queue.tasks[i].mutation.id) {
      ClosesMarked(rules, s, a, i);
      var e := s.queue.tasks[i].mutation.id;
      if a.CloseDeleted? && a.i == i {
        CloseRemote(rules, start, s, a);
        CloseDeletedGone(rules, s, i, a.ok);
      } else {
        EarlierNotRecreated(s.queue.tasks, q.queue.tasks, i, e);
        RecordedNow(s.queue, i);
        ErasedStaysOut(rules, start, s.queue.tasks, i, e);
        GoneStep(rules, s, a, e);
      }
    }
  }

  /** A delete that has got to its group close is not of the local endpoint. */
  lemma CloseRemote(rules: Cfg.Rules, start: Cfg.Config, s: System, a: Action)
    requires Serialised(rules, start, s) && Enabled(rules, s, a) && a.CloseDeleted?
    ensures s.queue.tasks[a.i].mutation.id != LOCAL
  {
    hide Replay, Chained, Outcome;
    RecordedNow(s.queue, a.i);
    LandedDeleteIsRemote(rules, start, s.queue.tasks, a.i, s.queue.tasks[a.i].mutation.id);
  }

  lemma EarlierNotRecreated(tasks: seq<Task>, later: seq<Task>, i: nat, e: EndpointId)
    requires |tasks| <= |later| && NotRecreatedSince(later, i, e)
    requires forall j :: 0 <= j < |tasks| ==> later[j].mutation == tasks[j].mutation && (tasks[j].landed ==> later[j].landed)
    ensures NotRecreatedSince(tasks, i, e)
  {
    hide Creates;
  }

  lemma {:induction false} RunSafe(rules: Cfg.Rules, start: Cfg.Config, s: System, run: seq<Action>)
    requires Cfg.Stable(rules) && Cfg.Valid(rules, start) && Safe(rules, start, s)
    requires Exec(rules, s, run).Some?
    ensures Safe(rules, start, Exec(rules, s, run).value)
    decreases |run|
  {
    hide Safe;
    if run != [] {
      SafeStep(rules, start, s, run[0]);
      RunSafe(rules, start, Apply(rules, s, run[0]), run[1..]);
    }
  }

  /** The state a run from the start leads to, when every action was enabled. */
  ghost function Reached(rules: Cfg.Rules, start: Cfg.Config, selected: EndpointId, run: seq<Action>): Option<System> {
    Exec(rules, Initial(start, selected), run)
  }

  lemma ReachedSafe(rules: Cfg.Rules, start: Cfg.Config, selected: EndpointId, run: seq<Action>)
    requires Cfg.Stable(rules) && Cfg.Valid(rules, start) && Reached(rules, start, selected, run).Some?
    ensures Safe(rules, start, Reached(rules, start, selected, run).value)
  {
    InitialSafe(rules, start, selected);
    RunSafe(rules, start, Initial(start, selected), run);
  }

  /** What holds of an endpoint once it is deleted for good: it is not in the
      configuration, the pool holds no session of it, and no open of it that is still
      in flight can be inserted. */
  ghost predicate LeftNothing(s: System, e: EndpointId) {
    && !Cfg.Has(s.config, e)
    && Group(s.pool, e) == {}
    && (forall id :: id in s.pool.owners ==> s.pool.owners[id] != e)
    && (forall task :: task in s.opens && s.opens[task].Established? && s.opens[task].e == e ==>
          InsertCurrent(s.pool, s.opens[task].token, e, s.opens[task].gen).None?)
  }

  /** Deletion is final. Once the group close of a delete has run, in any interleaving
      of submissions, saves, failures, opens, closes and shutdown, and whatever created
      the endpoint before, nothing of it is left. No new endpoint may land under the
      same id after that delete, and fewer than 2^64 group closes of it may happen. */
  lemma DeletionIsFinal(rules: Cfg.Rules, start: Cfg.Config, selected: EndpointId, run: seq<Action>, i: nat)
    requires Cfg.Stable(rules) && Cfg.Valid(rules, start)
    requires Reached(rules, start, selected, run).Some?
    ensures var s := Reached(rules, start, selected, run).value;
      ClosedForGood(s.queue.tasks, i) && Closes(s, s.queue.tasks[i].mutation.id) < GENERATIONS ==>
        LeftNothing(s, s.queue.tasks[i].mutation.id)
  {
    ReachedSafe(rules, start, selected, run);
    hide Safe, Reached;
    var s := Reached(rules, start, selected, run).value;
    if ClosedForGood(s.queue.tasks, i) && Closes(s, s.queue.tasks[i].mutation.id) < GENERATIONS {
      DeletedState(rules, start, s, i);
    }
  }

  /** The answer a delete gives its caller. */
  predicate Answered(t: Task, cleanupComplete: bool) {
    t.mutation.Delete? && t.phase == Done(Succeeded) && t.complete == cleanupComplete
  }

  /** A delete that answers that its cleanup is complete has closed its group and has
      moved the stored selection if it was the one selected; so nothing is left of the
      endpoint as long as no new one lands under its id. */
  lemma CompleteMeansClosed(rules: Cfg.Rules, start: Cfg.Config, selected: EndpointId, run: seq<Action>, i: nat)
    requires Cfg.Stable(rules) && Cfg.Valid(rules, start)
    requires Reached(rules, start, selected, run).Some?
    ensures var s := Reached(rules, start, selected, run).value;
      i < |s.queue.tasks| && Answered(s.queue.tasks[i], true) ==>
        var t := s.queue.tasks[i];
        && t.landed && t.groupClosed && (OfSelected(t.mutation) ==> t.persist.Cleared?)
        && (NotRecreatedSince(s.queue.tasks, i, t.mutation.id) && Closes(s, t.mutation.id) < GENERATIONS ==>
              LeftNothing(s, t.mutation.id))
  {
    ReachedSafe(rules, start, selected, run);
    DeletionIsFinal(rules, start, selected, run, i);
    hide Reached, LeftNothing;
    var s := Reached(rules, start, selected, run).value;
    if i < |s.queue.tasks| { RecordedNow(s.queue, i); }
  }

  /** A call of operation `i` that goes wrong behind its write. */
  predicate GoesWrong(a: Action, i: nat, m: Mutation) {
    || (a.Persist? && a.i == i && !a.ok && OfSelected(m)) || (a.CloseDeleted? && a.i == i && !a.ok)
    || (a.CloseFails? && a.i == i) || (a.Settle? && a.i == i && !a.ok)
  }

  predicate StillComplete(s: System, i: nat) { i < |s.queue.tasks| ==> s.queue.tasks[i].complete }

  predicate AsksFor(s: System, i: nat, m: Mutation) { i < |s.queue.tasks| ==> s.queue.tasks[i].mutation == m }

  lemma CompleteStep(rules: Cfg.Rules, s: System, a: Action, i: nat, m: Mutation)
    requires Enabled(rules, s, a) && AsksFor(Apply(rules, s, a), i, m)
    ensures AsksFor(s, i, m)
    ensures StillComplete(Apply(rules, s, a), i) <==> StillComplete(s, i) && !GoesWrong(a, i, m)
  {
    if Moves(a) {
      MoveIs(rules, s, a);
      MovedComplete(s, a);
      hide Apply, Enabled, MovedTask, CanMove, OfSelected;
    } else if a.Submit? || a.Start? || Lands(a) {
      hide MovedTask, Outcome, Displayed, CanMove, OfSelected;
    } else {
      QueueUntouched(rules, s, a);
      hide Apply, Enabled, OfSelected;
    }
  }

  lemma MovedComplete(s: System, a: Action)
    requires Moves(a) && CanMove(s, a)
    ensures var t, next := s.queue.tasks[a.i], MovedTask(s, a);
      next.mutation == t.mutation && (next.complete <==> t.complete && !GoesWrong(a, a.i, t.mutation))
  {
    hide OfSelected;
  }

  lemma {:induction false} CompleteRun(rules: Cfg.Rules, s: System, run: seq<Action>, i: nat, m: Mutation)
    requires Exec(rules, s, run).Some? && AsksFor(Exec(rules, s, run).value, i, m)
    ensures AsksFor(s, i, m)
    ensures StillComplete(Exec(rules, s, run).value, i)
            <==> StillComplete(s, i) && forall k :: 0 <= k < |run| ==> !GoesWrong(run[k], i, m)
    decreases |run|
  {
    hide Apply, Enabled, GoesWrong, StillComplete, AsksFor;
    if run != [] {
      CompleteRun(rules, Apply(rules, s, run[0]), run[1..], i, m);
      CompleteStep(rules, s, run[0], i, m);
      assert forall k :: 0 < k < |run| ==> run[k] == run[1..][k - 1];
      if forall k :: 0 <= k < |run| ==> !GoesWrong(run[k], i, m) {
        forall k | 0 <= k < |run[1..]| ensures !GoesWrong(run[1..][k], i, m) { assert !GoesWrong(run[k + 1], i, m); }
      }
    }
  }

  /** A delete answers that its cleanup is complete exactly when none of its calls
      behind the write went wrong. */
  lemma CompleteIff(rules: Cfg.Rules, start: Cfg.Config, selected: EndpointId, run: seq<Action>, i: nat)
    requires Reached(rules, start, selected, run).Some? && i < |Reached(rules, start, selected, run).value.queue.tasks|
    ensures var t := Reached(rules, start, selected, run).value.queue.tasks[i];
      t.complete <==> forall k :: 0 <= k < |run| ==> !GoesWrong(run[k], i, t.mutation)
  {
    CompleteRun(rules, Initial(start, selected), run, i, Reached(rules, start, selected, run).value.queue.tasks[i].mutation);
  }

  lemma GroupOwned(p: PoolState, e: EndpointId, id: SessionId)
    requires Indexed(p) && id in Group(p, e)
    ensures id in p.owners && p.owners[id] == e
  {
  }

  lemma DeletedState(rules: Cfg.Rules, start: Cfg.Config, s: System, i: nat)
    requires Cfg.Stable(rules) && Cfg.Valid(rules, start) && Safe(rules, start, s)
    requires ClosedForGood(s.queue.tasks, i) && Closes(s, s.queue.tasks[i].mutation.id) < GENERATIONS
    ensures LeftNothing(s, s.queue.tasks[i].mutation.id)
  {
    hide IdsFresh, Conserved, Chained, Cfg.Valid, Cfg.Has, Cfg.Stable, NotRecreatedSince;
    var e := s.queue.tasks[i].mutation.id;
    RecordedNow(s.queue, i);
    ErasedStaysOut(rules, start, s.queue.tasks, i, e);
    assert Gone(s, e);
    forall id ensures id !in Group(s.pool, e) {
      if id in Group(s.pool, e) { GroupOwned(s.pool, e, id); }
    }
    hide Indexed, ErasedAt, Replay, InsertCurrent, Counted;
    forall task | task in s.opens && s.opens[task].Established? && s.opens[task].e == e
      ensures InsertCurrent(s.pool, s.opens[task].token, e, s.opens[task].gen).None?
    {
      AdmittedIffNoCloseSince(s, task);
    }
  }

  /** The chain of the queue runs one mutation at a time, in the order of submission,
      and a rejected one does not stop the next. */
  lemma OneMutationAtATime(rules: Cfg.Rules, start: Cfg.Config, selected: EndpointId, run: seq<Action>)
    requires Cfg.Stable(rules) && Cfg.Valid(rules, start)
    requires Reached(rules, start, selected, run).Some?
    ensures var q := Reached(rules, start, selected, run).value.queue;
      && (forall i, j :: 0 <= i < |q.tasks| && 0 <= j < |q.tasks| && Running(q.tasks[i]) && Running(q.tasks[j]) ==> i == j)
      && (forall k :: 0 <= k < |q.started| ==> q.started[k] == k)
      && (forall i :: 0 <= i < |q.tasks| && !Settled(q.tasks[i]) && (forall j :: 0 <= j < i ==> Settled(q.tasks[j])) ==>
            Running(q.tasks[i]) || CanStart(q, i))
  {
    ReachedSafe(rules, start, selected, run);
    var q := Reached(rules, start, selected, run).value.queue;
    hide Reached;
    assert Chained(q);
    forall i | 0 <= i < |q.tasks| && !Settled(q.tasks[i]) && (forall j :: 0 <= j < i ==> Settled(q.tasks[j]))
      ensures Running(q.tasks[i]) || CanStart(q, i)
    {
      NeverStuck(q, i);
    }
  }

  /** Configuration mutations serialise: in every run the stored configuration is
      valid and equals the mutations whose write landed, applied one at a time in
      the order of submission. */
  lemma MutationsSerialise(rules: Cfg.Rules, start: Cfg.Config, selected: EndpointId, run: seq<Action>)
    requires Cfg.Stable(rules) && Cfg.Valid(rules, start)
    requires Reached(rules, start, selected, run).Some?
    ensures var s := Reached(rules, start, selected, run).value;
      Cfg.Valid(rules, s.config) && Replay(rules, start, s.queue.tasks) == Some(s.config)
  {
    ReachedSafe(rules, start, selected, run);
  }

  /** What the caller is told: the operation went through. */
  predicate Reported(t: Task) { t.phase == Done(Succeeded) }

  predicate EndedWith(s: System, i: nat, end: End) { i < |s.queue.tasks| && s.queue.tasks[i].phase == Done(end) }

  lemma EndStep(rules: Cfg.Rules, s: System, a: Action, i: nat)
    requires Enabled(rules, s, a)
    ensures var q := Apply(rules, s, a);
      && (EndedWith(q, i, FailedAfter) <==> EndedWith(s, i, FailedAfter) || a == WriteFailsAfter(i))
      && (EndedWith(q, i, PublishThrew) <==> EndedWith(s, i, PublishThrew) || a == PublishThrows(i))
  {
    if Moves(a) {
      MoveIs(rules, s, a);
      hide Apply, Enabled, Cfg.Reselect;
    } else if !a.Submit? && !a.Start? && !Lands(a) {
      QueueUntouched(rules, s, a);
      hide Apply, Enabled;
    } else {
      hide Outcome;
    }
  }

  lemma {:induction false} EndRun(rules: Cfg.Rules, s: System, run: seq<Action>, i: nat)
    requires Exec(rules, s, run).Some?
    ensures var q := Exec(rules, s, run).value;
      && (EndedWith(q, i, FailedAfter) <==> EndedWith(s, i, FailedAfter) || WriteFailsAfter(i) in run)
      && (EndedWith(q, i, PublishThrew) <==> EndedWith(s, i, PublishThrew) || PublishThrows(i) in run)
    decreases |run|
  {
    hide Apply, Enabled, EndedWith;
    if run != [] {
      EndStep(rules, s, run[0], i);
      EndRun(rules, Apply(rules, s, run[0]), run[1..], i);
      assert forall a :: a in run <==> a == run[0] || a in run[1..];
    }
  }

  /** What is reported has landed. For an operation that has settled, landed and
      reported agree exactly when, in the run, its write did not fail after the file
      was replaced and publishing did not throw. */
  lemma LandedIffReported(rules: Cfg.Rules, start: Cfg.Config, selected: EndpointId, run: seq<Action>, i: nat)
    requires Cfg.Stable(rules) && Cfg.Valid(rules, start)
    requires Reached(rules, start, selected, run).Some?
    requires i < |Reached(rules, start, selected, run).value.queue.tasks|
    requires Settled(Reached(rules, start, selected, run).value.queue.tasks[i])
    ensures var t := Reached(rules, start, selected, run).value.queue.tasks[i];
      && (Reported(t) ==> t.landed)
      && ((t.landed <==> Reported(t)) <==> WriteFailsAfter(i) !in run && PublishThrows(i) !in run)
  {
    ReachedSafe(rules, start, selected, run);
    EndRun(rules, Initial(start, selected), run, i);
    hide Exec;
    RecordedNow(Reached(rules, start, selected, run).value.queue, i);
  }

  /** In every run the pool's indexes agree, every established session is in
      exactly one place, and no session is closed twice. */
  lemma SessionsConserved(rules: Cfg.Rules, start: Cfg.Config, selected: EndpointId, run: seq<Action>)
    requires Cfg.Stable(rules) && Cfg.Valid(rules, start)
    requires Reached(rules, start, selected, run).Some?
    ensures var s := Reached(rules, start, selected, run).value; Indexed(s.pool) && Conserved(s)
  {
    ReachedSafe(rules, start, selected, run);
  }

  /** Where a session goes: into the pool when it is ready, unless the number of group
      closes since the capture forbids it; out of it by the closes that mean it, by a
      shutdown, and not otherwise. */
  function NextPlace(s: System, a: Action, t: Token): Place
    requires t in s.place
  {
    var p := s.place[t];
    match a
    case InsertSession(task) =>
      if p != Awaiting(task) || task !in s.opens || !s.opens[task].Established? then p
      else if (Closes(s, s.opens[task].e) - s.opens[task].closes) % GENERATIONS == 0 then Pooled(s.pool.nextId + 1) else Closing
    case InsertLocal(task) =>
      if p != Awaiting(task) || task !in s.opens || !s.opens[task].LocalAllocated? then p else Pooled(s.opens[task].id)
    case CloseSession(id) => if p == Pooled(id) then Closing else p
    case CloseEndpoint(e) => if InPoolFor(s, p, e) then Closing else p
    case CloseDeleted(i, _) => if i < |s.queue.tasks| && s.queue.tasks[i].mutation.Delete? && InPoolFor(s, p, s.queue.tasks[i].mutation.id) then Closing else p
    case ClearAll => if p.Pooled? then Closing else p
    case FinishClose(token) => if token == t then Closed else p
    case _ => p
  }

  predicate InPoolFor(s: System, p: Place, e: EndpointId) { p.Pooled? && p.id in s.pool.owners && s.pool.owners[p.id] == e }

  /** The token that a finished handshake or a started local session gets. */
  predicate Mints(a: Action) { a.Handshake? || a.OpenLocal? }

  ghost predicate PlacedRight(rules: Cfg.Rules, s: System, a: Action)
    requires Enabled(rules, s, a)
  {
    var q := Apply(rules, s, a);
    && (forall t: Token :: t in q.place <==> t in s.place || (Mints(a) && t == s.minted))
    && (forall t: Token :: t in s.place ==> t in q.place && q.place[t] == NextPlace(s, a, t))
    && (Mints(a) ==> s.minted in q.place && q.place[s.minted] == Awaiting(a.task))
  }

  lemma TakenTokens(s: System, ids: set<SessionId>)
    requires PooledPlaced(s.pool.sessions, s.place)
    ensures forall t :: t in s.place ==> (t in Taken(s.pool, ids).Values <==> s.place[t].Pooled? && s.place[t].id in ids)
  {
    forall t | t in s.place ensures t in Taken(s.pool, ids).Values <==> s.place[t].Pooled? && s.place[t].id in ids {
      if s.place[t].Pooled? && s.place[t].id in ids {
        assert s.place[t].id in Taken(s.pool, ids) && Taken(s.pool, ids)[s.place[t].id] == t;
      }
    }
  }

  lemma GroupIff(p: PoolState, e: EndpointId)
    requires Indexed(p)
    ensures forall id :: id in Group(p, e) <==> id in p.owners && p.owners[id] == e
  {
  }

  lemma GroupClosePlaces(s: System, e: EndpointId)
    requires PooledPlaced(s.pool.sessions, s.place) && Indexed(s.pool)
    ensures var q := CloseGroupOf(s, e);
      && q.place.Keys == s.place.Keys && q.queue == s.queue
      && forall t :: t in s.place ==> q.place[t] == if InPoolFor(s, s.place[t], e) then Closing else s.place[t]
  {
    TakenTokens(s, Group(s.pool, e));
    GroupIff(s.pool, e);
    hide Indexed, Group, Taken, CloseGroup;
  }

  lemma DeletePlaces(rules: Cfg.Rules, s: System, a: Action)
    requires PooledPlaced(s.pool.sessions, s.place) && Indexed(s.pool) && Enabled(rules, s, a) && a.CloseDeleted?
    ensures PlacedRight(rules, s, a)
  {
    GroupClosePlaces(s, s.queue.tasks[a.i].mutation.id);
    hide Indexed, CloseGroupOf, MovedTask, PooledPlaced;
  }

  lemma ClosePlaces(rules: Cfg.Rules, s: System, a: Action)
    requires PooledPlaced(s.pool.sessions, s.place) && Indexed(s.pool) && Enabled(rules, s, a) && a.CloseEndpoint?
    ensures PlacedRight(rules, s, a)
  {
    GroupClosePlaces(s, a.e);
    hide Indexed, CloseGroupOf, PooledPlaced;
  }

  lemma SessionPlaces(rules: Cfg.Rules, s: System, a: Action)
    requires PooledPlaced(s.pool.sessions, s.place) && Enabled(rules, s, a) && a.CloseSession?
    ensures PlacedRight(rules, s, a)
  {
    TakenTokens(s, {a.id});
    hide Taken, Remove, PooledPlaced;
  }

  lemma ClearPlaces(rules: Cfg.Rules, s: System, a: Action)
    requires PooledPlaced(s.pool.sessions, s.place) && Enabled(rules, s, a) && a.ClearAll?
    ensures PlacedRight(rules, s, a)
  {
    PooledTokens(s);
    hide PooledPlaced;
  }

  lemma PooledTokens(s: System)
    requires PooledPlaced(s.pool.sessions, s.place)
    ensures forall t :: t in s.place ==> (t in s.pool.sessions.Values <==> s.place[t].Pooled?)
  {
    forall t | t in s.place && s.place[t].Pooled? ensures t in s.pool.sessions.Values { assert s.pool.sessions[s.place[t].id] == t; }
  }

  lemma ArrivalPlaces(rules: Cfg.Rules, s: System, a: Action)
    requires AwaitingPlaced(s.opens, s.place) && Counted(s) && Enabled(rules, s, a) && a.InsertSession?
    ensures PlacedRight(rules, s, a)
  {
    AdmittedIffNoCloseSince(s, a.task);
    hide Insert, Allocate, Counted;
  }

  lemma LocalPlaces(rules: Cfg.Rules, s: System, a: Action)
    requires AwaitingPlaced(s.opens, s.place) && Enabled(rules, s, a) && a.InsertLocal?
    ensures PlacedRight(rules, s, a)
  {
    hide Insert;
  }

  lemma OtherPlaces(rules: Cfg.Rules, s: System, a: Action)
    requires AllPlaced(s.place, s.minted) && Enabled(rules, s, a) && !OfQueue(a)
    requires !a.CloseDeleted? && !a.CloseEndpoint? && !a.CloseSession? && !a.ClearAll? && !a.InsertSession? && !a.InsertLocal?
    requires a.FinishClose? ==> a.token in s.place
    ensures PlacedRight(rules, s, a)
  {
    hide Allocate;
  }

  lemma PlacesMove(rules: Cfg.Rules, s: System, a: Action)
    requires Conserved(s) && Indexed(s.pool) && Counted(s) && Enabled(rules, s, a)
    ensures PlacedRight(rules, s, a)
  {
    hide Indexed, Counted;
    if OfQueue(a) {
      QueueActions(rules, s, a);
      hide Apply, Enabled;
    } else if a.CloseDeleted? {
      DeletePlaces(rules, s, a);
    } else if a.CloseEndpoint? {
      ClosePlaces(rules, s, a);
    } else if a.CloseSession? {
      SessionPlaces(rules, s, a);
    } else if a.ClearAll? {
      ClearPlaces(rules, s, a);
    } else if a.InsertSession? {
      ArrivalPlaces(rules, s, a);
    } else if a.InsertLocal? {
      LocalPlaces(rules, s, a);
    } else {
      assert a.FinishClose? ==> a.token in s.place;
      OtherPlaces(rules, s, a);
    }
    hide PlacedRight;
  }

  predicate BeginsOpen(a: Action, task: TaskId) { (a.OpenEndpoint? || a.OpenLocal?) && a.task == task }

  /** An open that is in flight ends by failing, or when its session was let in or turned away. */
  predicate EndsOpen(a: Action, task: TaskId) { (a.OpenFail? || a.InsertSession? || a.InsertLocal?) && a.task == task }

  ghost predicate OpensRight(rules: Cfg.Rules, s: System, a: Action)
    requires Enabled(rules, s, a)
  {
    forall task: TaskId :: task in Apply(rules, s, a).opens <==> BeginsOpen(a, task) || (task in s.opens && !EndsOpen(a, task))
  }

  lemma OpensMove(rules: Cfg.Rules, s: System, a: Action)
    requires Enabled(rules, s, a)
    ensures OpensRight(rules, s, a)
  {
    if OfQueue(a) {
      QueueActions(rules, s, a);
      hide Apply, Enabled;
    } else {
      hide Outcome, InsertCurrent, Insert, Allocate, CloseGroup, Remove, Drain, Taken, Move, MovedTask;
    }
  }

  /** In every run, each action moves exactly the sessions it should, and begins and
      ends exactly the opens it should. */
  lemma SessionsMove(rules: Cfg.Rules, start: Cfg.Config, selected: EndpointId, run: seq<Action>, a: Action)
    requires Cfg.Stable(rules) && Cfg.Valid(rules, start)
    requires Reached(rules, start, selected, run).Some?
    requires Enabled(rules, Reached(rules, start, selected, run).value, a)
    ensures PlacedRight(rules, Reached(rules, start, selected, run).value, a)
    ensures OpensRight(rules, Reached(rules, start, selected, run).value, a)
  {
    ReachedSafe(rules, start, selected, run);
    hide Indexed, Conserved, Counted, Serialised, IdsFresh, Enabled, PlacedRight, OpensRight;
    OpensMove(rules, Reached(rules, start, selected, run).value, a);
    PlacesMove(rules, Reached(rules, start, selected, run).value, a);
  }

  /** No session id is ever used for two sessions. */
  lemma IdsNeverReused(rules: Cfg.Rules, start: Cfg.Config, selected: EndpointId, run: seq<Action>, a: Action)
    requires Cfg.Stable(rules) && Cfg.Valid(rules, start)
    requires Reached(rules, start, selected, run).Some?
    requires Enabled(rules, Reached(rules, start, selected, run).value, a)
    ensures var s := Reached(rules, start, selected, run).value;
      var q := Apply(rules, s, a);
      forall id :: id in q.pool.sessions && (id !in s.pool.sessions || q.pool.sessions[id] != s.pool.sessions[id]) ==> id !in s.used
  {
    ReachedSafe(rules, start, selected, run);
    hide Indexed, Conserved, Counted, Serialised, Outcome, IdsFresh;
    FreshId(rules, Reached(rules, start, selected, run).value, a);
  }

  lemma FreshId(rules: Cfg.Rules, s: System, a: Action)
    requires IdsFresh(s) && Enabled(rules, s, a)
    ensures var q := Apply(rules, s, a);
      forall id :: id in q.pool.sessions && (id !in s.pool.sessions || q.pool.sessions[id] != s.pool.sessions[id]) ==> id !in s.used
  {
    if OfQueue(a) {
      QueueActions(rules, s, a);
      hide Apply, Enabled;
    } else {
      hide Outcome, CloseGroup, Remove;
      if a.CloseSession? { RemovalKeeps(s.pool, a.id, LOCAL); }
      if a.CloseEndpoint? { RemovalKeeps(s.pool, 0, a.e); }
      if a.CloseDeleted? { RemovalKeeps(s.pool, 0, s.queue.tasks[a.i].mutation.id); }
    }
  }

  lemma RemovalKeeps(p: PoolState, id: SessionId, e: EndpointId)
    ensures forall k :: k in Remove(p, id).sessions ==> k in p.sessions && Remove(p, id).sessions[k] == p.sessions[k]
    ensures forall k :: k in CloseGroup(p, e).sessions ==> k in p.sessions && CloseGroup(p, e).sessions[k] == p.sessions[k]
  {
  }
}
