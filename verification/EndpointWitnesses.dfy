/** Runs that show where the conditions of the endpoint theorems matter: the inputs
    on which a plain reading of the promises fails. */
module EndpointWitnesses {
  import opened Results
  import opened EndpointIds
  import opened Pool
  import opened MutationQueue
  import opened EndpointSystem
  import opened EndpointSafety
  import Selection = EndpointSelection
  import Cfg = EndpointConfig

  // ----- putting runs together -----

  lemma {:induction false} ExecAppend(rules: Cfg.Rules, s: System, a: seq<Action>, b: seq<Action>)
    requires Exec(rules, s, a).Some?
    ensures Exec(rules, s, a + b) == Exec(rules, Exec(rules, s, a).value, b)
    decreases |a|
  {
    hide Enabled, Apply;
    if a == [] {
      assert [] + b == b;
    } else {
      assert (a + b)[1..] == a[1..] + b;
      ExecAppend(rules, Apply(rules, s, a[0]), a[1..], b);
    }
  }

  lemma ExecOne(rules: Cfg.Rules, s: System, a: Action)
    requires Enabled(rules, s, a)
    ensures Exec(rules, s, [a]) == Some(Apply(rules, s, a))
  {
    hide Enabled, Apply;
    assert [a][1..] == [];
    assert Exec(rules, Apply(rules, s, a), []) == Some(Apply(rules, s, a));
  }

  /** One more action at the end of a run. */
  lemma Then(rules: Cfg.Rules, s: System, run: seq<Action>, q: System, a: Action)
    requires Exec(rules, s, run) == Some(q) && Enabled(rules, q, a)
    ensures Exec(rules, s, run + [a]) == Some(Apply(rules, q, a))
  {
    hide Enabled, Apply, Exec;
    ExecAppend(rules, s, run, [a]);
    ExecOne(rules, q, a);
  }

  lemma Nothing(rules: Cfg.Rules, s: System)
    ensures Exec(rules, s, []) == Some(s)
  {
  }

  // ----- an open session -----

  /** The configuration is loaded. */
  function Loaded(start: Cfg.Config, selected: EndpointId): System { Initial(start, selected).(shown := Some(start)) }

  /** One open has finished its handshake. */
  function WithOpen(start: Cfg.Config, selected: EndpointId, e: EndpointId): System {
    Loaded(start, selected).(opens := map[0 := Established(e, 0, 0, 0)], minted := 1, place := map[0 := Awaiting(0)])
  }

  /** And its session is in the pool. */
  function WithSession(start: Cfg.Config, selected: EndpointId, e: EndpointId): System {
    Loaded(start, selected).(pool := Insert(Allocate(EMPTY), 1, 0, e), minted := 1, used := {1}, place := map[0 := Pooled(1)])
  }

  function Opening(e: EndpointId): seq<Action> { [Load(true)] + [OpenEndpoint(0, e)] + [OpenRead(0)] + [Handshake(0)] }

  /** A configured remote endpoint, one that can be deleted. */
  ghost predicate Deletable(rules: Cfg.Rules, c: Cfg.Config, e: EndpointId) {
    Cfg.Valid(rules, c) && Cfg.Deleted(rules, c, e).Some?
  }

  lemma DeletableIsThere(rules: Cfg.Rules, c: Cfg.Config, e: EndpointId)
    requires Deletable(rules, c, e)
    ensures Cfg.Has(c, e) && Cfg.HasRemote(c, e) && e != LOCAL && AcceptedByBridge(e)
    ensures Cfg.Has(c, LOCAL) && !Cfg.Has(Cfg.Deleted(rules, c, e).value, e)
  {
    Cfg.DeletedIds(rules, c, e);
    var i :| 0 <= i < |c| && c[i].Ssh? && c[i].uuid == e;
    assert c[i].Id() == e;
    assert Cfg.ValidateEndpoint(rules, c[i]) == Some(c[i]);
    ChecksAgree(e);
    Selection.LocalIsThere(rules, c);
  }

  lemma LoadSteps(rules: Cfg.Rules, start: Cfg.Config, selected: EndpointId)
    ensures Exec(rules, Initial(start, selected), [Load(true)]) == Some(Loaded(start, selected))
  {
    ExecOne(rules, Initial(start, selected), Load(true));
  }

  lemma OpenSteps(rules: Cfg.Rules, start: Cfg.Config, selected: EndpointId, e: EndpointId)
    requires Deletable(rules, start, e)
    ensures Exec(rules, Initial(start, selected), Opening(e)) == Some(WithOpen(start, selected, e))
  {
    var s0, s1 := Initial(start, selected), Loaded(start, selected);
    var s2 := s1.(opens := map[0 := Captured(e, 0, 0)]);
    var s3 := s1.(opens := map[0 := Handshaking(e, 0, 0)]);
    DeletableIsThere(rules, start, e);
    LoadSteps(rules, start, selected);
    OpenIs(rules, start, selected, e);
    hide Cfg.HasRemote, AcceptedByBridge, Exec, Enabled, Apply, Initial, Loaded, WithOpen;
    Then(rules, s0, [Load(true)], s1, OpenEndpoint(0, e));
    Then(rules, s0, [Load(true)] + [OpenEndpoint(0, e)], s2, OpenRead(0));
    Then(rules, s0, [Load(true)] + [OpenEndpoint(0, e)] + [OpenRead(0)], s3, Handshake(0));
  }

  lemma OpenIs(rules: Cfg.Rules, start: Cfg.Config, selected: EndpointId, e: EndpointId)
    requires Cfg.HasRemote(start, e) && AcceptedByBridge(e)
    ensures var s1 := Loaded(start, selected);
      var s2, s3 := s1.(opens := map[0 := Captured(e, 0, 0)]), s1.(opens := map[0 := Handshaking(e, 0, 0)]);
      && Enabled(rules, s1, OpenEndpoint(0, e)) && Apply(rules, s1, OpenEndpoint(0, e)) == s2
      && Enabled(rules, s2, OpenRead(0)) && Apply(rules, s2, OpenRead(0)) == s3
      && Enabled(rules, s3, Handshake(0)) && Apply(rules, s3, Handshake(0)) == WithOpen(start, selected, e)
  {
    hide Cfg.HasRemote, AcceptedByBridge;
    assert map[][0 := Captured(e, 0, 0)] == map[0 := Captured(e, 0, 0)];
    assert map[0 := Captured(e, 0, 0)][0 := Handshaking(e, 0, 0)] == map[0 := Handshaking(e, 0, 0)];
    assert map[0 := Handshaking(e, 0, 0)][0 := Established(e, 0, 0, 0)] == map[0 := Established(e, 0, 0, 0)];
    var place: map<Token, Place> := map[];
    assert place[0 := Awaiting(0)] == map[0 := Awaiting(0)];
  }

  lemma PoolSteps(rules: Cfg.Rules, start: Cfg.Config, selected: EndpointId, e: EndpointId)
    requires Deletable(rules, start, e)
    ensures Exec(rules, Initial(start, selected), Opening(e) + [InsertSession(0)]) == Some(WithSession(start, selected, e))
  {
    OpenSteps(rules, start, selected, e);
    InsertIs(rules, start, selected, e);
    hide Exec, Enabled, Apply, Initial, Opening, WithOpen, WithSession;
    Then(rules, Initial(start, selected), Opening(e), WithOpen(start, selected, e), InsertSession(0));
  }

  lemma InsertIs(rules: Cfg.Rules, start: Cfg.Config, selected: EndpointId, e: EndpointId)
    ensures var s := WithOpen(start, selected, e);
      Enabled(rules, s, InsertSession(0)) && Apply(rules, s, InsertSession(0)) == WithSession(start, selected, e)
  {
    var opens: map<TaskId, Open> := map[];
    assert map[0 := Established(e, 0, 0, 0)] - {0} == opens;
    assert map[0 := Awaiting(0)][0 := Pooled(1)] == map[0 := Pooled(1)];
    assert {} + {1} == {1};
  }

  // ----- one delete -----

  /** A state in which one mutation was submitted, and how far it has got. */
  function With(s: System, t: Task): System { s.(queue := Queue([t], Some(0), if t.phase.Waiting? then [] else [0])) }

  function Deleting(m: Mutation): seq<Action> { [Submit(m)] + [Start(0)] + [ReadConfig(0)] }

  function Read(s: System, m: Mutation): Task { Asked(m, None).(phase := HasRead(s.config)) }

  lemma SubmitIs(rules: Cfg.Rules, s: System, m: Mutation)
    requires s.queue == NO_TASKS && s.shown.Some? && (m.Delete? ==> m.selected == Displayed(s))
    ensures Enabled(rules, s, Submit(m)) && Apply(rules, s, Submit(m)) == With(s, Asked(m, None))
  {
    assert [] + [Asked(m, None)] == [Asked(m, None)];
  }

  lemma StartIs(rules: Cfg.Rules, s: System, m: Mutation)
    ensures var s1, s2 := With(s, Asked(m, None)), With(s, Asked(m, None).(phase := Started));
      && Enabled(rules, s1, Start(0)) && Apply(rules, s1, Start(0)) == s2
      && Enabled(rules, s2, ReadConfig(0)) && Apply(rules, s2, ReadConfig(0)) == With(s, Read(s, m))
  {
    var t := Asked(m, None).(phase := Started);
    assert [Asked(m, None)][0 := t] == [t] && [] + [0] == [0];
    assert [t][0 := Read(s, m)] == [Read(s, m)];
  }

  lemma DeleteSteps(rules: Cfg.Rules, s: System, m: Mutation)
    requires s.queue == NO_TASKS && s.shown.Some? && (m.Delete? ==> m.selected == Displayed(s))
    ensures Exec(rules, s, Deleting(m)) == Some(With(s, Read(s, m)))
  {
    SubmitIs(rules, s, m);
    StartIs(rules, s, m);
    hide Exec, Enabled, Apply, With, Displayed;
    Nothing(rules, s);
    Then(rules, s, [], s, Submit(m));
    assert [] + [Submit(m)] == [Submit(m)];
    Then(rules, s, [Submit(m)], With(s, Asked(m, None)), Start(0));
    Then(rules, s, [Submit(m)] + [Start(0)], With(s, Asked(m, None).(phase := Started)), ReadConfig(0));
  }

  /** The write lands, and the write itself may then fail. */
  lemma WriteIs(rules: Cfg.Rules, s: System, e: EndpointId, selected: EndpointId)
    requires Cfg.Deleted(rules, s.config, e).Some?
    ensures var m, next := Delete(e, selected), Cfg.Deleted(rules, s.config, e).value;
      var r, q := With(s, Read(s, m)), s.(config := next);
      && Enabled(rules, r, WriteFailsAfter(0))
      && Apply(rules, r, WriteFailsAfter(0)) == With(q, Asked(m, None).(phase := Done(FailedAfter), landed := true))
      && Enabled(rules, r, WriteConfig(0))
      && Apply(rules, r, WriteConfig(0)) == With(q, Asked(m, None).(phase := Written(next), landed := true))
  {
    hide Cfg.Deleted;
    var m, next := Delete(e, selected), Cfg.Deleted(rules, s.config, e).value;
    var t := Read(s, m);
    assert forall u: Task :: [t][0 := u] == [u];
  }

  // ----- the runs -----

  function UnreportedRun(e: EndpointId): seq<Action> {
    (Opening(e) + [InsertSession(0)]) + Deleting(Delete(e, e)) + [WriteFailsAfter(0)]
  }

  /** A delete of the selected endpoint whose write fails after the replacement, while
      a session of it is open: it is answered as not deleted, yet the endpoint is gone
      from the configuration, its session stays in the pool, and it stays both the
      stored and the shown selection, with nothing left to repair it. */
  lemma LandedUnreported(rules: Cfg.Rules, start: Cfg.Config, e: EndpointId)
    requires Cfg.Stable(rules) && Deletable(rules, start, e)
    ensures Reached(rules, start, e, UnreportedRun(e)).Some?
    ensures var s := Reached(rules, start, e, UnreportedRun(e)).value;
      && |s.queue.tasks| == 1 && Settled(s.queue.tasks[0]) && !Reported(s.queue.tasks[0])
      && Cfg.Has(start, e) && !Cfg.Has(s.config, e)
      && 1 in s.pool.sessions && 1 in s.pool.owners && s.pool.owners[1] == e && Closes(s, e) == 0
      && s.selected == e && Displayed(s) == e && !Enabled(rules, s, Repair)
  {
    var s := WithSession(start, e, e);
    var m := Delete(e, e);
    DeletableIsThere(rules, start, e);
    PoolSteps(rules, start, e, e);
    PooledFacts(start, e, e);
    WriteIs(rules, s, e, e);
    hide Exec, Enabled, Apply, Opening, Deleting, Cfg.Deleted, Cfg.Has, Cfg.HasRemote, Cfg.Valid, WithSession;
    DeleteSteps(rules, s, m);
    ExecAppend(rules, Initial(start, e), Opening(e) + [InsertSession(0)], Deleting(m));
    Then(rules, Initial(start, e), Opening(e) + [InsertSession(0)] + Deleting(m), With(s, Read(s, m)), WriteFailsAfter(0));
    NoRepair(rules, Reached(rules, start, e, UnreportedRun(e)).value);
  }

  lemma PooledFacts(start: Cfg.Config, selected: EndpointId, e: EndpointId)
    ensures var s := WithSession(start, selected, e);
      && s.config == start && s.selected == selected && s.shown == Some(start) && s.queue == NO_TASKS
      && 1 in s.pool.sessions && 1 in s.pool.owners && s.pool.owners[1] == e && Closes(s, e) == 0
  {
  }

  lemma NoRepair(rules: Cfg.Rules, s: System)
    ensures Enabled(rules, s, Repair) <==> Displayed(s) != s.selected
  {
  }

  function RefusedRun(e: EndpointId): seq<Action> {
    [Load(true)] + Deleting(Delete(e, e)) + [WriteConfig(0)] + [Persist(0, false)]
  }

  /** A delete of the selected endpoint whose call to move the selection fails. */
  lemma PersistRefused(rules: Cfg.Rules, start: Cfg.Config, e: EndpointId)
    requires Cfg.Stable(rules) && Deletable(rules, start, e)
    ensures Reached(rules, start, e, RefusedRun(e)).Some?
    ensures var s := Reached(rules, start, e, RefusedRun(e)).value;
      && s.selected == e && Cfg.Has(start, e) && !Cfg.Has(s.config, e)
      && |s.queue.tasks| == 1 && s.queue.tasks[0].persist.Refused?
  {
    var s, m := Loaded(start, e), Delete(e, e);
    var next := Cfg.Deleted(rules, start, e).value;
    var written := Asked(m, None).(phase := Written(next), landed := true);
    DeletableIsThere(rules, start, e);
    LoadSteps(rules, start, e);
    WriteIs(rules, s, e, e);
    PersistIs(rules, s.(config := next), m, next, false);
    hide Exec, Enabled, Apply, Deleting, Cfg.Deleted, Cfg.Has, Cfg.HasRemote, Cfg.Valid;
    DeleteSteps(rules, s, m);
    ExecAppend(rules, Initial(start, e), [Load(true)], Deleting(m));
    Then(rules, Initial(start, e), [Load(true)] + Deleting(m), With(s, Read(s, m)), WriteConfig(0));
    Then(rules, Initial(start, e), [Load(true)] + Deleting(m) + [WriteConfig(0)], With(s.(config := next), written), Persist(0, false));
  }

  lemma PersistIs(rules: Cfg.Rules, s: System, m: Mutation, next: Cfg.Config, ok: bool)
    requires OfSelected(m)
    ensures var t := Asked(m, None).(phase := Written(next), landed := true);
      && Enabled(rules, With(s, t), Persist(0, ok))
      && Apply(rules, With(s, t), Persist(0, ok)) ==
         if ok then With(s, t.(phase := Persisted(next), persist := Cleared)).(
                      selected := LOCAL, writes := s.writes + [ClearedBy(0)])
         else With(s, t.(phase := Persisted(next), persist := Refused, complete := false))
  {
    var t := Asked(m, None).(phase := Written(next), landed := true);
    assert forall u: Task :: [t][0 := u] == [u];
  }

  function LateChoiceRun(e: EndpointId): seq<Action> {
    [Load(true)] + [Submit(Delete(e, LOCAL))] + [Select(e)] + [Start(0)] + [ReadConfig(0)] + [WriteConfig(0)] + [Persist(0, true)]
  }

  /** No call fails at all: the endpoint is selected while its delete waits in the
      queue, and the delete goes by what was selected when it was submitted. */
  lemma ChosenWhileWaiting(rules: Cfg.Rules, start: Cfg.Config, e: EndpointId)
    requires Cfg.Stable(rules) && Deletable(rules, start, e)
    ensures Reached(rules, start, LOCAL, LateChoiceRun(e)).Some?
    ensures var s := Reached(rules, start, LOCAL, LateChoiceRun(e)).value;
      && s.selected == e && Cfg.Has(start, e) && !Cfg.Has(s.config, e)
      && |s.queue.tasks| == 1 && s.queue.tasks[0].complete
  {
    var first, s, m := Initial(start, LOCAL), Loaded(start, LOCAL), Delete(e, LOCAL);
    var next := Cfg.Deleted(rules, start, e).value;
    var q := s.(selected := e, writes := [Chosen(e)]);
    var written := Asked(m, None).(phase := Written(next), landed := true);
    DeletableIsThere(rules, start, e);
    LoadSteps(rules, start, LOCAL);
    LateChoiceIs(rules, start, e, next);
    SubmitIs(rules, s, m);
    StartIs(rules, q, m);
    WriteIs(rules, q, e, LOCAL);
    hide Exec, Enabled, Apply, Cfg.Deleted, Cfg.Has, Cfg.HasRemote, Cfg.Valid;
    Then(rules, first, [Load(true)], s, Submit(m));
    var run := [Load(true)] + [Submit(m)];
    Then(rules, first, run, With(s, Asked(m, None)), Select(e));
    Then(rules, first, run + [Select(e)], With(q, Asked(m, None)), Start(0));
    Then(rules, first, run + [Select(e)] + [Start(0)], With(q, Asked(m, None).(phase := Started)), ReadConfig(0));
    Then(rules, first, run + [Select(e)] + [Start(0)] + [ReadConfig(0)], With(q, Read(q, m)), WriteConfig(0));
    Then(rules, first, run + [Select(e)] + [Start(0)] + [ReadConfig(0)] + [WriteConfig(0)], With(q.(config := next), written),
         Persist(0, true));
  }

  lemma LateChoiceIs(rules: Cfg.Rules, start: Cfg.Config, e: EndpointId, next: Cfg.Config)
    requires Cfg.Has(start, e) && e != LOCAL
    ensures var s, m := Loaded(start, LOCAL), Delete(e, LOCAL);
      var q := s.(selected := e, writes := [Chosen(e)]);
      var t := Asked(m, None).(phase := Written(next), landed := true);
      && Displayed(s) == LOCAL
      && Enabled(rules, With(s, Asked(m, None)), Select(e))
      && Apply(rules, With(s, Asked(m, None)), Select(e)) == With(q, Asked(m, None))
      && Enabled(rules, With(q.(config := next), t), Persist(0, true))
      && Apply(rules, With(q.(config := next), t), Persist(0, true))
         == With(q.(config := next), t.(phase := Persisted(next)))
  {
    hide Cfg.Has;
    var t := Asked(Delete(e, LOCAL), None).(phase := Written(next), landed := true);
    assert forall u: Task :: [t][0 := u] == [u];
    assert [] + [Chosen(e)] == [Chosen(e)];
  }

  // ----- the generation comes round -----

  /** The state after `n` group closes of an endpoint without sessions. */
  function Bumped(s: System, e: EndpointId, n: nat): System {
    s.(pool := s.pool.(generations := s.pool.generations[e := (Generation(s.pool, e) + n) % GENERATIONS]),
       groupCloses := s.groupCloses[e := Closes(s, e) + n])
  }

  predicate NoSessions(p: PoolState) { p.sessions == map[] && p.owners == map[] && p.endpointSessions == map[] }

  lemma CloseEmpty(s: System, e: EndpointId)
    requires NoSessions(s.pool)
    ensures CloseGroupOf(s, e) == Bumped(s, e, 1)
  {
    assert Group(s.pool, e) == {} && Taken(s.pool, {}) == map[];
    assert Taken(s.pool, {}).Values == {} && s.closing + {} == s.closing;
    assert Move(s.place, {}, Closing) == s.place;
    assert CloseGroup(s.pool, e) == s.pool.(generations := s.pool.generations[e := (Generation(s.pool, e) + 1) % GENERATIONS]);
  }

  function Closings(e: EndpointId, n: nat): seq<Action> { seq(n, _ => CloseEndpoint(e)) }

  lemma {:induction false} CloseMany(rules: Cfg.Rules, s: System, e: EndpointId, n: nat)
    requires NoSessions(s.pool) && AcceptedByBridge(e) && e != LOCAL && n > 0
    ensures Exec(rules, s, Closings(e, n)) == Some(Bumped(s, e, n))
  {
    hide AcceptedByBridge, Exec;
    if n == 1 {
      assert Closings(e, 1) == [CloseEndpoint(e)];
      CloseEmpty(s, e);
      ExecOne(rules, s, CloseEndpoint(e));
    } else {
      var q := Bumped(s, e, n - 1);
      CloseMany(rules, s, e, n - 1);
      assert Closings(e, n) == Closings(e, n - 1) + [CloseEndpoint(e)];
      CloseEmpty(q, e);
      BumpedTwice(s, e, n - 1);
      hide CloseGroupOf, Bumped, Closings;
      Then(rules, s, Closings(e, n - 1), q, CloseEndpoint(e));
    }
  }

  lemma BumpedTwice(s: System, e: EndpointId, n: nat)
    ensures Bumped(Bumped(s, e, n), e, 1) == Bumped(s, e, n + 1)
    ensures NoSessions(s.pool) ==> NoSessions(Bumped(s, e, n).pool)
  {
    assert ((Generation(s.pool, e) + n) % GENERATIONS + 1) % GENERATIONS == (Generation(s.pool, e) + n + 1) % GENERATIONS;
  }

  function CompleteDelete(e: EndpointId): seq<Action> {
    Deleting(Delete(e, e)) + [WriteConfig(0)] + [Persist(0, true)] + [Publish(0)] + [CloseDeleted(0, true)] + [Settle(0, true)]
  }

  /** The front end behind a delete of the selected endpoint that got as far as its
      call that moved the selection. */
  function WithCleared(start: Cfg.Config, next: Cfg.Config, e: EndpointId): System {
    WithOpen(start, e, e).(config := next, selected := LOCAL, writes := [ClearedBy(0)])
  }

  function Finished(start: Cfg.Config, next: Cfg.Config, e: EndpointId): System {
    With(Bumped(WithCleared(start, next, e), e, 1).(shown := Some(next)),
         Task(Delete(e, e), None, Done(Succeeded), true, Cleared, true, true))
  }

  lemma PublishIs(rules: Cfg.Rules, s: System, t: Task)
    requires t.phase.Persisted?
    ensures Enabled(rules, With(s, t), Publish(0))
    ensures Apply(rules, With(s, t), Publish(0)) == With(s.(shown := Some(t.phase.next)), t.(phase := Published))
  {
    assert [t][0 := t.(phase := Published)] == [t.(phase := Published)];
  }

  lemma CloseIs(rules: Cfg.Rules, s: System, t: Task)
    requires t.phase.Published? && t.mutation.Delete? && NoSessions(s.pool)
    ensures Enabled(rules, With(s, t), CloseDeleted(0, true))
    ensures Apply(rules, With(s, t), CloseDeleted(0, true))
         == With(Bumped(s, t.mutation.id, 1), t.(phase := Cleaning, groupClosed := true))
  {
    var u := t.(phase := Cleaning, groupClosed := true);
    assert [t][0 := u] == [u];
    CloseEmpty(With(s, t), t.mutation.id);
    hide CloseGroupOf;
  }

  lemma SettleIs(rules: Cfg.Rules, s: System, t: Task)
    requires t.phase.Cleaning?
    ensures Enabled(rules, With(s, t), Settle(0, true))
    ensures Apply(rules, With(s, t), Settle(0, true)) == With(s, t.(phase := Done(Succeeded)))
  {
    assert [t][0 := t.(phase := Done(Succeeded))] == [t.(phase := Done(Succeeded))];
  }

  lemma FinishIs(rules: Cfg.Rules, start: Cfg.Config, next: Cfg.Config, e: EndpointId)
    ensures var s, t := WithCleared(start, next, e), Task(Delete(e, e), None, Persisted(next), true, Cleared, false, true);
      var s1 := With(s.(shown := Some(next)), t.(phase := Published));
      var s2 := With(Bumped(s, e, 1).(shown := Some(next)), t.(phase := Cleaning, groupClosed := true));
      && Enabled(rules, With(s, t), Publish(0)) && Apply(rules, With(s, t), Publish(0)) == s1
      && Enabled(rules, s1, CloseDeleted(0, true)) && Apply(rules, s1, CloseDeleted(0, true)) == s2
      && Enabled(rules, s2, Settle(0, true)) && Apply(rules, s2, Settle(0, true)) == Finished(start, next, e)
  {
    var s, t := WithCleared(start, next, e), Task(Delete(e, e), None, Persisted(next), true, Cleared, false, true);
    var shown := s.(shown := Some(next));
    PublishIs(rules, s, t);
    CloseIs(rules, shown, t.(phase := Published));
    assert Bumped(shown, e, 1) == Bumped(s, e, 1).(shown := Some(next));
    SettleIs(rules, Bumped(shown, e, 1), t.(phase := Cleaning, groupClosed := true));
    hide Enabled, Apply, Bumped, With;
  }

  lemma CompleteSteps(rules: Cfg.Rules, start: Cfg.Config, e: EndpointId)
    requires Deletable(rules, start, e)
    ensures Exec(rules, WithOpen(start, e, e), CompleteDelete(e)) == Some(Finished(start, Cfg.Deleted(rules, start, e).value, e))
  {
    var s, m := WithOpen(start, e, e), Delete(e, e);
    var next := Cfg.Deleted(rules, start, e).value;
    var q, written := s.(config := next), Asked(m, None).(phase := Written(next), landed := true);
    var c, t := WithCleared(start, next, e), Task(m, None, Persisted(next), true, Cleared, false, true);
    var s1 := With(c.(shown := Some(next)), t.(phase := Published));
    var s2 := With(Bumped(c, e, 1).(shown := Some(next)), t.(phase := Cleaning, groupClosed := true));
    DeletableIsThere(rules, start, e);
    WriteIs(rules, s, e, e);
    PersistIs(rules, q, m, next, true);
    assert [] + [ClearedBy(0)] == [ClearedBy(0)];
    FinishIs(rules, start, next, e);
    hide Exec, Enabled, Apply, Deleting, Cfg.Deleted, Cfg.Has, Cfg.HasRemote, Cfg.Valid, Bumped, Finished;
    DeleteSteps(rules, s, m);
    var run := Deleting(m);
    Then(rules, s, run, With(s, Read(s, m)), WriteConfig(0));
    Then(rules, s, run + [WriteConfig(0)], With(q, written), Persist(0, true));
    Then(rules, s, run + [WriteConfig(0)] + [Persist(0, true)], With(c, t), Publish(0));
    Then(rules, s, run + [WriteConfig(0)] + [Persist(0, true)] + [Publish(0)], s1, CloseDeleted(0, true));
    Then(rules, s, run + [WriteConfig(0)] + [Persist(0, true)] + [Publish(0)] + [CloseDeleted(0, true)], s2, Settle(0, true));
  }

  function LetInRun(e: EndpointId): seq<Action> {
    (Opening(e) + CompleteDelete(e)) + Closings(e, GENERATIONS - 1) + [InsertSession(0)]
  }

  /** After exactly 2^64 group closes the generation is the captured one again: an open
      that was in flight all the time lets its session into the pool, of an endpoint
      whose delete has answered that its cleanup is complete. */
  lemma LetBackIn(rules: Cfg.Rules, start: Cfg.Config, e: EndpointId)
    requires Cfg.Stable(rules) && Deletable(rules, start, e)
    ensures Reached(rules, start, e, LetInRun(e)).Some?
    ensures var s := Reached(rules, start, e, LetInRun(e)).value;
      && |s.queue.tasks| == 1 && Answered(s.queue.tasks[0], true) && ClosedForGood(s.queue.tasks, 0)
      && Closes(s, e) == GENERATIONS && !Cfg.Has(s.config, e)
      && 1 in s.pool.sessions && 1 in s.pool.owners && s.pool.owners[1] == e
  {
    var next := Cfg.Deleted(rules, start, e).value;
    var first, d, n := Initial(start, e), Finished(start, next, e), GENERATIONS - 1;
    DeletableIsThere(rules, start, e);
    OpenSteps(rules, start, e, e);
    CompleteSteps(rules, start, e);
    FinishedFacts(start, next, e);
    AroundFacts(rules, start, next, e);
    hide Exec, Enabled, Apply, Opening, CompleteDelete, Closings, Cfg.Deleted, Cfg.Has, Cfg.HasRemote, Cfg.Valid, Finished, Bumped,
         AcceptedByBridge, NoSessions, WithOpen, Admit;
    ExecAppend(rules, first, Opening(e), CompleteDelete(e));
    CloseMany(rules, d, e, n);
    ExecAppend(rules, first, Opening(e) + CompleteDelete(e), Closings(e, n));
    Then(rules, first, Opening(e) + CompleteDelete(e) + Closings(e, n), Bumped(d, e, n), InsertSession(0));
  }

  lemma FinishedFacts(start: Cfg.Config, next: Cfg.Config, e: EndpointId)
    ensures var d := Finished(start, next, e);
      && NoSessions(d.pool) && Generation(d.pool, e) == 1 && Closes(d, e) == 1
      && d.opens == map[0 := Established(e, 0, 0, 0)] && d.config == next
      && d.queue.tasks == [Task(Delete(e, e), None, Done(Succeeded), true, Cleared, true, true)]
  {
  }

  lemma AroundFacts(rules: Cfg.Rules, start: Cfg.Config, next: Cfg.Config, e: EndpointId)
    ensures var q := Bumped(Finished(start, next, e), e, GENERATIONS - 1);
      && Enabled(rules, q, InsertSession(0))
      && var s := Apply(rules, q, InsertSession(0));
         && s.config == next && s.queue.tasks == [Task(Delete(e, e), None, Done(Succeeded), true, Cleared, true, true)]
         && Closes(s, e) == GENERATIONS
         && 1 in s.pool.sessions && 1 in s.pool.owners && s.pool.owners[1] == e
  {
    var d := Finished(start, next, e);
    var q := Bumped(d, e, GENERATIONS - 1);
    FinishedFacts(start, next, e);
    hide Finished;
    assert q.opens == d.opens && q.config == d.config && q.queue == d.queue;
    assert Generation(q.pool, e) == 0 && Closes(q, e) == GENERATIONS;
    hide Bumped;
  }
}
