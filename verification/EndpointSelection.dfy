/** The stored selection beside the configuration it points into: when it names a
    configured endpoint, and what the front end shows in its place. */
module EndpointSelection {
  import opened Results
  import opened EndpointIds
  import opened Pool
  import opened MutationQueue
  import opened EndpointSystem
  import opened EndpointSafety
  import Cfg = EndpointConfig

  // ----- what is kept -----

  /** The selection after a list of writes. */
  function LastWrite(first: EndpointId, writes: seq<SelectionWrite>): EndpointId {
    if writes == [] then first
    else match writes[|writes| - 1]
      case Chosen(e) => e
      case ClearedBy(_) => LOCAL
      case Repaired => LOCAL
  }

  ghost predicate Logged(writes: seq<SelectionWrite>, i: nat) { ClearedBy(i) in writes }

  /** The selection is what was written last, and a delete that moved it is in the log. */
  ghost predicate SelectionLogged(first: EndpointId, s: System) {
    && s.selected == LastWrite(first, s.writes)
    && forall i :: 0 <= i < |s.queue.tasks| && s.queue.tasks[i].persist.Cleared? ==> Logged(s.writes, i)
  }

  /** The front end was told what the operation wrote. */
  predicate Told(t: Task) { t.phase.Published? || t.phase.Cleaning? || t.phase == Done(Succeeded) }

  /** Operation `i` has landed, and since then the front end was told of nothing. */
  ghost predicate Unseen(tasks: seq<Task>, i: nat) {
    i < |tasks| && tasks[i].landed && forall j :: i <= j < |tasks| ==> !Told(tasks[j])
  }

  /** What is shown is valid, and current unless something has landed unseen. */
  ghost predicate ShownRight(rules: Cfg.Rules, s: System) {
    s.shown.Some? ==>
      Cfg.Valid(rules, s.shown.value) && (s.shown.value == s.config || exists i: nat :: Unseen(s.queue.tasks, i))
  }

  ghost predicate Kept(rules: Cfg.Rules, start: Cfg.Config, first: EndpointId, s: System) {
    Safe(rules, start, s) && SelectionLogged(first, s) && ShownRight(rules, s)
  }

  /** What an action does to the configuration that is shown. */
  lemma ShownIs(rules: Cfg.Rules, s: System, a: Action)
    requires Enabled(rules, s, a)
    ensures var q := Apply(rules, s, a);
      q.shown == if a.Load? then (if a.ok then Some(s.config) else None)
                 else if a.Publish? && CanMove(s, a) then Some(s.queue.tasks[a.i].phase.next) else s.shown
  {
    if OfQueue(a) {
      hide MovedTask, Outcome, Displayed;
    } else {
      hide MovedTask, Outcome, InsertCurrent, CloseGroup, Remove, Drain, Taken, Move, Displayed;
    }
  }

  /** What an action does to the stored selection. */
  lemma SelectionIs(rules: Cfg.Rules, s: System, a: Action)
    requires Chained(s.queue) && Enabled(rules, s, a)
    ensures var q := Apply(rules, s, a);
      if a.Select? then q.selected == a.e && q.writes == s.writes + [Chosen(a.e)]
      else if a.Repair? then q.selected == LOCAL && q.writes == s.writes + [Repaired]
      else if a.Persist? && CanMove(s, a) && MovedTask(s, a).persist.Cleared?
      then q.selected == LOCAL && q.writes == s.writes + [ClearedBy(a.i)]
      else q.selected == s.selected && q.writes == s.writes
  {
    if a.Persist? {
      RecordedNow(s.queue, a.i);
      PersistIs(s, a);
      hide MovedTask, Cfg.Reselect;
    } else if OfQueue(a) {
      hide MovedTask, Outcome;
    } else {
      hide MovedTask, Outcome, InsertCurrent, CloseGroup, Remove, Drain, Taken, Move, Displayed;
    }
  }

  lemma PersistIs(s: System, a: Action)
    requires Moves(a) && CanMove(s, a) && a.Persist? && Recorded(s.queue.tasks[a.i])
    ensures var m, next := s.queue.tasks[a.i].mutation, MovedTask(s, a);
      next.persist.Cleared? ==> Cfg.Reselect(m.selected, m.id) == LOCAL
  {
  }

  /** Only its own call marks what a delete did to the selection. */
  lemma ClearsMarked(rules: Cfg.Rules, s: System, a: Action, i: nat)
    requires Enabled(rules, s, a) && i < |Apply(rules, s, a).queue.tasks| && Apply(rules, s, a).queue.tasks[i].persist.Cleared?
    ensures (a.Persist? && a.i == i && CanMove(s, a) && MovedTask(s, a).persist.Cleared?)
         || (i < |s.queue.tasks| && s.queue.tasks[i].persist.Cleared?)
  {
    if Moves(a) {
      MoveIs(rules, s, a);
      hide Apply, Enabled, Cfg.Reselect;
    } else if !a.Submit? && !a.Start? && !Lands(a) {
      QueueUntouched(rules, s, a);
      hide Apply, Enabled;
    } else {
      hide Outcome;
    }
  }

  lemma LoggedStep(rules: Cfg.Rules, first: EndpointId, s: System, a: Action)
    requires Chained(s.queue) && SelectionLogged(first, s) && Enabled(rules, s, a)
    ensures SelectionLogged(first, Apply(rules, s, a))
  {
    hide Chained, Apply, Enabled, MovedTask;
    var q := Apply(rules, s, a);
    SelectionIs(rules, s, a);
    assert q.selected == LastWrite(first, q.writes);
    forall i | 0 <= i < |q.queue.tasks| && q.queue.tasks[i].persist.Cleared? ensures Logged(q.writes, i) {
      ClearsMarked(rules, s, a, i);
      if i < |s.queue.tasks| && s.queue.tasks[i].persist.Cleared? {
        assert Logged(s.writes, i);
      } else {
        assert q.writes[|s.writes|] == ClearedBy(i);
      }
    }
  }

  // ----- what is shown -----

  lemma LandedUnseen(s: System, i: nat, t: Task)
    requires Chained(s.queue) && i < |s.queue.tasks| && Running(s.queue.tasks[i]) && t.landed && !Told(t)
    ensures Unseen(Moved(s.queue, i, t).tasks, i)
  {
    LaterWait(s.queue, i);
  }

  /** A move that is not a publication leaves what was unseen unseen. */
  lemma StillUnseen(s: System, i: nat, t: Task, k: nat)
    requires i < |s.queue.tasks| && Unseen(s.queue.tasks, k)
    requires Told(t) ==> Told(s.queue.tasks[i])
    requires s.queue.tasks[i].landed ==> t.landed
    ensures Unseen(Moved(s.queue, i, t).tasks, k)
  {
  }

  lemma MoveTells(s: System, a: Action)
    requires Moves(a) && CanMove(s, a)
    ensures Told(MovedTask(s, a)) ==> a.Publish? || Told(s.queue.tasks[a.i])
  {
  }

  lemma SubmittedUnseen(q: Queue, m: Mutation, k: nat)
    requires Unseen(q.tasks, k)
    ensures Unseen(Submitted(q, m).tasks, k)
  {
  }

  lemma BegunUnseen(q: Queue, i: nat, k: nat)
    requires CanStart(q, i) && Unseen(q.tasks, k)
    ensures Unseen(Begun(q, i).tasks, k)
  {
  }

  /** Whatever is unseen stays so until something is published. */
  lemma UnseenStep(rules: Cfg.Rules, s: System, a: Action, k: nat)
    requires Chained(s.queue) && Enabled(rules, s, a) && !a.Publish? && Unseen(s.queue.tasks, k)
    ensures Unseen(Apply(rules, s, a).queue.tasks, k)
  {
    hide Unseen, Chained, Outcome, Told;
    if Moves(a) {
      MoveIs(rules, s, a);
      MoveTells(s, a);
      TaskKeeps(s, a);
      StillUnseen(s, a.i, MovedTask(s, a), k);
    } else if a.Submit? {
      SubmittedUnseen(s.queue, a.m, k);
    } else if a.Start? {
      BegunUnseen(s.queue, a.i, k);
    } else if Lands(a) {
      NotTold(s, a.i);
      StillUnseen(s, a.i, Apply(rules, s, a).queue.tasks[a.i], k);
    } else {
      QueueUntouched(rules, s, a);
    }
  }

  lemma NotTold(s: System, i: nat)
    ensures PhaseOf(s, i).HasRead? ==> forall next: Cfg.Config :: !Told(s.queue.tasks[i].(phase := Written(next), landed := true))
    ensures PhaseOf(s, i).HasRead? ==> !Told(s.queue.tasks[i].(phase := Done(FailedAfter), landed := true))
  {
  }

  lemma ShownStep(rules: Cfg.Rules, start: Cfg.Config, s: System, a: Action)
    requires Cfg.Stable(rules) && Safe(rules, start, s) && ShownRight(rules, s) && Enabled(rules, s, a)
    ensures ShownRight(rules, Apply(rules, s, a))
  {
    var q := Apply(rules, s, a);
    ShownIs(rules, s, a);
    if a.Publish? {
      MoveIs(rules, s, a);
      hide Cfg.Valid, Chained, Replay, Apply, MovedTask, Indexed, IdsFresh, Conserved, Counted, DeletesFinal;
      assert HeldIsCurrent(s) && HoldsConfig(s.queue.tasks[a.i].phase);
    } else if Lands(a) {
      hide Cfg.Valid, Replay, Indexed, IdsFresh, Conserved, Counted, DeletesFinal, Outcome, Unseen, Chained;
      NotTold(s, a.i);
      LandedUnseen(s, a.i, q.queue.tasks[a.i]);
    } else {
      hide Cfg.Valid, Replay, Indexed, IdsFresh, Conserved, Counted, DeletesFinal, Unseen, Chained, Apply, Enabled;
      ConfigStays(rules, s, a);
      if k: nat :| Unseen(s.queue.tasks, k) { UnseenStep(rules, s, a, k); }
    }
  }

  lemma ConfigStays(rules: Cfg.Rules, s: System, a: Action)
    requires Enabled(rules, s, a) && !Lands(a)
    ensures Apply(rules, s, a).config == s.config
  {
    if Moves(a) {
      MoveIs(rules, s, a);
      hide Apply, Enabled;
    } else if !a.Submit? && !a.Start? {
      QueueUntouched(rules, s, a);
      hide Apply, Enabled;
    }
  }

  lemma KeptStep(rules: Cfg.Rules, start: Cfg.Config, first: EndpointId, s: System, a: Action)
    requires Cfg.Stable(rules) && Cfg.Valid(rules, start) && Kept(rules, start, first, s) && Enabled(rules, s, a)
    ensures Kept(rules, start, first, Apply(rules, s, a))
  {
    SafeStep(rules, start, s, a);
    ShownStep(rules, start, s, a);
    hide ShownRight, Chained, Apply, Enabled;
    LoggedStep(rules, first, s, a);
  }

  lemma {:induction false} KeptRun(rules: Cfg.Rules, start: Cfg.Config, first: EndpointId, s: System, run: seq<Action>)
    requires Cfg.Stable(rules) && Cfg.Valid(rules, start) && Kept(rules, start, first, s)
    requires Exec(rules, s, run).Some?
    ensures Kept(rules, start, first, Exec(rules, s, run).value)
    decreases |run|
  {
    hide Kept, Apply, Enabled;
    if run != [] {
      KeptStep(rules, start, first, s, run[0]);
      KeptRun(rules, start, first, Apply(rules, s, run[0]), run[1..]);
    }
  }

  lemma ReachedKept(rules: Cfg.Rules, start: Cfg.Config, first: EndpointId, run: seq<Action>)
    requires Cfg.Stable(rules) && Cfg.Valid(rules, start) && Reached(rules, start, first, run).Some?
    ensures Kept(rules, start, first, Reached(rules, start, first, run).value)
  {
    InitialSafe(rules, start, first);
    hide Safe;
    KeptRun(rules, start, first, Initial(start, first), run);
  }

  // ----- when the stored selection is configured -----

  /** The endpoint was configured at the start, or a landed save created it. */
  ghost predicate EverConfigured(start: Cfg.Config, tasks: seq<Task>, e: EndpointId) {
    Cfg.Has(start, e) || exists j :: 0 <= j < |tasks| && tasks[j].landed && Creates(tasks[j].mutation, e)
  }

  ghost predicate ErasedForGood(tasks: seq<Task>, i: nat, e: EndpointId) {
    ErasedAt(tasks, i, e) && NotRecreatedSince(tasks, i, e)
  }

  lemma {:induction false} LastWordOut(start: Cfg.Config, tasks: seq<Task>, e: EndpointId)
    ensures !LastWord(start, tasks, e) <==> (exists i: nat :: ErasedForGood(tasks, i, e)) || !EverConfigured(start, tasks, e)
    decreases |tasks|
  {
    if tasks != [] {
      var n := |tasks| - 1;
      var front := tasks[..n];
      LastWordOut(start, front, e);
      LongerEver(start, tasks, e);
      LongerErased(tasks, e);
      hide EverConfigured, ErasedForGood, Creates, Deletes;
    }
  }

  lemma LongerEver(start: Cfg.Config, tasks: seq<Task>, e: EndpointId)
    requires tasks != []
    ensures var n := |tasks| - 1;
      EverConfigured(start, tasks, e)
      <==> EverConfigured(start, tasks[..n], e) || (tasks[n].landed && Creates(tasks[n].mutation, e))
  {
    hide Creates, Cfg.Has;
    var n := |tasks| - 1;
    if j :| 0 <= j < n && tasks[..n][j].landed && Creates(tasks[..n][j].mutation, e) { assert tasks[j] == tasks[..n][j]; }
    if j :| 0 <= j < |tasks| && tasks[j].landed && Creates(tasks[j].mutation, e) && j < n { assert tasks[j] == tasks[..n][j]; }
  }

  lemma LongerErased(tasks: seq<Task>, e: EndpointId)
    requires tasks != []
    ensures var n := |tasks| - 1;
      (exists i: nat :: ErasedForGood(tasks, i, e))
      <==> (tasks[n].landed && Deletes(tasks[n].mutation, e))
           || (!(tasks[n].landed && Creates(tasks[n].mutation, e)) && exists i: nat :: ErasedForGood(tasks[..n], i, e))
  {
    var n := |tasks| - 1;
    if tasks[n].landed && Deletes(tasks[n].mutation, e) { assert ErasedForGood(tasks, n, e); }
    if i: nat :| ErasedForGood(tasks[..n], i, e) && !(tasks[n].landed && Creates(tasks[n].mutation, e)) {
      assert forall j :: 0 <= j < n ==> tasks[j] == tasks[..n][j];
      assert ErasedForGood(tasks, i, e);
    }
    if i: nat :| ErasedForGood(tasks, i, e) && i < n {
      assert forall j :: 0 <= j < n ==> tasks[j] == tasks[..n][j];
      assert ErasedForGood(tasks[..n], i, e);
    }
  }

  /** A landed delete that has not moved the stored selection: its write failed after
      the replacement, it has not got to that call yet, the call failed, or another
      endpoint was shown as selected when it was submitted. */
  predicate PassedBy(t: Task) {
    t.phase == Done(FailedAfter) || t.phase.Written? || t.persist.Refused? || !OfSelected(t.mutation)
  }

  /** The user chose the endpoint after the delete had moved the selection, from a list
      that still showed it. */
  ghost predicate ChosenAgain(writes: seq<SelectionWrite>, i: nat, e: EndpointId) {
    exists j, k :: 0 <= j < k < |writes| && writes[j] == ClearedBy(i) && writes[k] == Chosen(e)
  }

  lemma ClearedOrPassedBy(t: Task)
    requires Recorded(t) && t.landed && t.mutation.Delete? && !t.persist.Cleared?
    ensures PassedBy(t)
  {
  }

  lemma ChosenSince(first: EndpointId, s: System, i: nat)
    requires SelectionLogged(first, s) && Logged(s.writes, i) && s.selected != LOCAL
    ensures ChosenAgain(s.writes, i, s.selected)
  {
    var j :| 0 <= j < |s.writes| && s.writes[j] == ClearedBy(i);
    var k := |s.writes| - 1;
    assert s.writes[k] == Chosen(s.selected);
  }

  /** In every run the stored selection names a configured endpoint exactly when it
      ever was one and no delete of it that landed for good has passed the selection
      by, or has been followed by choosing the endpoint again. */
  lemma SelectedIff(rules: Cfg.Rules, start: Cfg.Config, first: EndpointId, run: seq<Action>)
    requires Cfg.Stable(rules) && Cfg.Valid(rules, start)
    requires Reached(rules, start, first, run).Some?
    ensures var s := Reached(rules, start, first, run).value;
      Cfg.Has(s.config, s.selected)
      <==> EverConfigured(start, s.queue.tasks, s.selected)
           && !exists i: nat :: ErasedForGood(s.queue.tasks, i, s.selected)
                                && (PassedBy(s.queue.tasks[i]) || ChosenAgain(s.writes, i, s.selected))
  {
    ReachedKept(rules, start, first, run);
    var s := Reached(rules, start, first, run).value;
    hide Reached, Cfg.Valid, Cfg.Stable, Cfg.Has, Chained, EverConfigured, PassedBy, ChosenAgain, LastWord, Replay, ShownRight,
         Indexed, IdsFresh, Conserved, Counted, DeletesFinal, NotRecreatedSince;
    ConfiguredIff(rules, start, s.queue.tasks, s.selected);
    LastWordOut(start, s.queue.tasks, s.selected);
    forall i: nat | ErasedForGood(s.queue.tasks, i, s.selected)
      ensures PassedBy(s.queue.tasks[i]) || ChosenAgain(s.writes, i, s.selected)
    {
      RecordedNow(s.queue, i);
      LandedDeleteIsRemote(rules, start, s.queue.tasks, i, s.selected);
      if s.queue.tasks[i].persist.Cleared? { ChosenSince(first, s, i); } else { ClearedOrPassedBy(s.queue.tasks[i]); }
    }
  }

  // ----- what is shown as selected -----

  lemma LocalIsThere(rules: Cfg.Rules, c: Cfg.Config)
    requires Cfg.Valid(rules, c)
    ensures Cfg.Has(c, LOCAL)
  {
    assert c[0].Id() == LOCAL;
  }

  /** In every run what is shown as selected is one of the endpoints that are shown:
      the stored selection, or else the local endpoint. */
  lemma DisplayedIsMember(rules: Cfg.Rules, start: Cfg.Config, first: EndpointId, run: seq<Action>)
    requires Cfg.Stable(rules) && Cfg.Valid(rules, start)
    requires Reached(rules, start, first, run).Some?
    ensures var s := Reached(rules, start, first, run).value;
      s.shown.Some? ==> Cfg.Has(s.shown.value, Displayed(s)) && (Displayed(s) == s.selected || Displayed(s) == LOCAL)
  {
    ReachedKept(rules, start, first, run);
    hide Reached, Safe, SelectionLogged, Cfg.Has, Cfg.Valid;
    var s := Reached(rules, start, first, run).value;
    if s.shown.Some? { LocalIsThere(rules, s.shown.value); }
  }

  /** In every run the shown configuration is the stored one, and what is shown as
      selected is configured, unless a mutation has landed and nothing has been
      published since: it is on its way, its write failed after the replacement, or
      publishing threw. And then the stored selection is configured too as soon as the
      repair has nothing to do. */
  lemma ShownIsCurrent(rules: Cfg.Rules, start: Cfg.Config, first: EndpointId, run: seq<Action>)
    requires Cfg.Stable(rules) && Cfg.Valid(rules, start)
    requires Reached(rules, start, first, run).Some?
    ensures var s := Reached(rules, start, first, run).value;
      s.shown.Some? && (forall i: nat :: !Unseen(s.queue.tasks, i)) ==>
        && s.shown.value == s.config && Cfg.Has(s.config, Displayed(s))
        && (!Enabled(rules, s, Repair) ==> Cfg.Has(s.config, s.selected))
  {
    ReachedKept(rules, start, first, run);
    DisplayedIsMember(rules, start, first, run);
    hide Reached, Safe, SelectionLogged, Cfg.Has, Cfg.Valid, Unseen, Displayed;
  }
}
