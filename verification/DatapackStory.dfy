/** What every run of the datapack controller answers and shows, told by the events it
    has seen. */
module DatapackStory {
  import opened Results
  import opened DatapackController

  // ----- what a run answers, and what it shows -----

  /** The events of one run, in order, but for progress. */
  function EventsOf(run: seq<Action>, r: RunId): seq<Action>
    decreases |run|
  {
    if run == [] then []
    else
      var n := |run| - 1;
      EventsOf(run[..n], r) + if HasRun(run[n]) && !run[n].Progress? && run[n].run == r then [run[n]] else []
  }

  function LastProgress(run: seq<Action>, r: RunId): Option<string>
    decreases |run|
  {
    if run == [] then None
    else if run[|run| - 1].Progress? && run[|run| - 1].run == r then Some(run[|run| - 1].text)
    else LastProgress(run[..|run| - 1], r)
  }

  /** The session was opened, the world is not locked, and the action was sent. */
  predicate Sent(r: RunId, tr: seq<Action>) {
    |tr| >= 3 && tr[0].Opened? && tr[1] == WorldReply(r, Success(false)) && tr[2] == Proceed(r, None)
  }

  /** The event that the run fails with: no session, a failed or unfavourable world
      check, a rejected argument, or the action's own failure. */
  predicate FailsWith(action: bool, r: RunId, tr: seq<Action>, e: string) {
    || (|tr| > 0 && tr[0] == OpenFailed(r, e))
    || (action && |tr| > 1 && tr[0].Opened? && tr[1] == WorldReply(r, Failure(e)))
    || (action && |tr| > 2 && tr[0].Opened? && tr[1] == WorldReply(r, Success(true)) && tr[2].Proceed? && e == "WORLD_LOCKED")
    || (action && |tr| > 2 && tr[0].Opened? && tr[1] == WorldReply(r, Success(false)) && tr[2] == Proceed(r, Some(e)))
    || (action && |tr| > 3 && Sent(r, tr) && tr[3] == ActionReply(r, Some(e)))
  }

  /** The event that makes the run a success: the action's answer, or for a load the session. */
  predicate SucceedsBy(action: bool, r: RunId, tr: seq<Action>) {
    if action then |tr| > 3 && Sent(r, tr) && tr[3] == ActionReply(r, None) else |tr| > 0 && tr[0].Opened?
  }

  /** The refresh has begun: at once in a load, after the action in the same session, or
      in a session opened afresh. */
  predicate Began(action: bool, freshRefresh: bool, tr: seq<Action>) {
    && |tr| > 0 && tr[0].Opened?
    && (action ==> exists k :: 0 < k < |tr| && if freshRefresh then tr[k].Opened? else tr[k].EnterFinally?)
  }

  /** An answer about the world after a list, as opposed to the check before the action. */
  predicate Rechecked(r: RunId, tr: seq<Action>, reply: Result<bool, string>) {
    exists k :: 3 <= k < |tr| && tr[k] == WorldReply(r, reply)
  }

  predicate RefreshFailsWith(r: RunId, tr: seq<Action>, e: string) {
    || ListReply(r, Failure(e)) in tr || Rechecked(r, tr, Failure(e))
    || exists k :: 1 <= k < |tr| && tr[k] == OpenFailed(r, e)
  }

  /** The body of a run is over: nothing that follows is its failure or its success. */
  predicate BodyOver(action: bool, r: RunId, tr: seq<Action>) {
    || (|tr| >= 1 && (!action || tr[0].OpenFailed?))
    || (|tr| >= 2 && tr[0].Opened? && tr[1].WorldReply? && tr[1].reply.Failure?)
    || (|tr| >= 3 && tr[0].Opened? && tr[1].WorldReply? && tr[1].reply.Success? && tr[2].Proceed?
        && (tr[1].reply.value || tr[2].rejected.Some?))
    || (|tr| >= 4 && Sent(r, tr) && tr[3].ActionReply?)
  }

  /** How far the events of a current run have got in each phase. */
  predicate Shape(run: Run, r: RunId, tr: seq<Action>) {
    && (forall k :: 0 <= k < |tr| ==> HasRun(tr[k]) && tr[k].run == r)
    && (run.session.Some? <==> |tr| > 0 && tr[0].Opened?)
    && (NeedsSession(run.phase) && !run.phase.Closing? ==> run.session.Some?)
    && match run.phase
       case Opening => tr == []
       case Checking => run.action && |tr| == 1
       case Checked(locked) => run.action && |tr| == 2 && tr[0].Opened? && tr[1] == WorldReply(r, Success(locked))
       case Acting => run.action && |tr| == 3 && Sent(r, tr)
       case Listing => BodyOver(run.action, r, tr) && (run.action ==> |tr| >= 3)
       case Listed => BodyOver(run.action, r, tr) && |tr| >= 2
       case Rechecking => BodyOver(run.action, r, tr) && |tr| >= 3
       case Reclosing => run.action && run.freshRefresh && BodyOver(run.action, r, tr) && |tr| >= 2
       case Reopening => run.action && run.freshRefresh && BodyOver(run.action, r, tr) && |tr| >= 2
       case _ => BodyOver(run.action, r, tr)
  }

  predicate InRefresh(p: Phase) { p.Listing? || p.Listed? || p.Rechecking? }

  predicate BeforeRefresh(run: Run) {
    || run.phase.Opening? || run.phase.Checking? || run.phase.Checked? || run.phase.Acting?
    || run.phase.Reclosing? || run.phase.Reopening? || (run.phase.Ending? && run.action)
  }

  /** Nothing of the refresh has been answered yet. */
  predicate Unanswered(r: RunId, tr: seq<Action>) {
    && (forall k :: 0 <= k < |tr| ==> !tr[k].ListReply?)
    && (forall k :: 3 <= k < |tr| ==> !tr[k].WorldReply?)
    && (forall k :: 1 <= k < |tr| ==> !tr[k].OpenFailed?)
  }

  /** No world check after a list has been answered, and nothing has failed. */
  predicate Unchecked(r: RunId, tr: seq<Action>) {
    && (forall k :: 3 <= k < |tr| ==> !tr[k].WorldReply?)
    && (forall k :: 1 <= k < |tr| ==> !tr[k].OpenFailed?)
    && (forall k :: 0 <= k < |tr| && tr[k].ListReply? ==> tr[k].listing.Success?)
  }

  /** The list was answered, and when it was a list, so was the world check behind it. */
  predicate Listened(r: RunId, tr: seq<Action>) {
    exists k :: 0 <= k < |tr| && tr[k].ListReply? && (tr[k].listing.Success? ==> exists j :: 3 <= j < |tr| && tr[j].WorldReply?)
  }

  predicate GotList(tr: seq<Action>) { exists k :: 0 <= k < |tr| && tr[k].ListReply? && tr[k].listing.Success? }

  /** Every run with a session has refreshed, unless the session afresh did not come. */
  predicate Complete(action: bool, freshRefresh: bool, r: RunId, tr: seq<Action>) {
    |tr| > 0 && tr[0].Opened? ==>
      if Began(action, freshRefresh, tr) then Listened(r, tr) else exists k :: 1 <= k < |tr| && tr[k].OpenFailed?
  }

  ghost predicate Stage(run: Run, r: RunId, tr: seq<Action>) {
    && (run.phase.Listed? || run.phase.Rechecking? ==> GotList(tr))
    && (!BeforeRefresh(run) && !InRefresh(run.phase) ==> Complete(run.action, run.freshRefresh, r, tr))
    && (BeforeRefresh(run) ==> !Began(run.action, run.freshRefresh, tr) && Unanswered(r, tr))
    && (InRefresh(run.phase) ==> Began(run.action, run.freshRefresh, tr) && Unchecked(r, tr))
    && (run.phase.Listing? ==> Unanswered(r, tr))
  }

  /** The answer so far follows from the events. */
  predicate Result(run: Run, r: RunId, tr: seq<Action>) {
    && (run.action ==> (run.succeeded <==> SucceedsBy(true, r, tr)))
    && (!run.action && !InRefresh(run.phase) ==> (run.succeeded <==> SucceedsBy(false, r, tr)))
    && (run.phase.Done? ==> run.phase.result == run.succeeded)
  }

  /** What is shown follows from the events: the error is that of the failing event,
      and from the beginning of the refresh on content and lock are what it answered. */
  ghost predicate Tells(action: bool, freshRefresh: bool, r: RunId, tr: seq<Action>, snap: Snapshot) {
    && (forall e :: snap.error == Some(e) <==> FailsWith(action, r, tr, e))
    && (forall e :: snap.refreshError == Some(e) <==> RefreshFailsWith(r, tr, e))
    && (Began(action, freshRefresh, tr) ==>
          && (forall c :: snap.content == Some(c) <==> ListReply(r, Success(c)) in tr)
          && (forall l :: snap.locked == Some(l) <==> Rechecked(r, tr, Success(l))))
    && (!Began(action, freshRefresh, tr) && action && |tr| > 1 && tr[0].Opened? && tr[1].WorldReply? && tr[1].reply.Success? ==>
          snap.locked == Some(tr[1].reply.value))
  }

  ghost predicate Shows(run: Run, r: RunId, tr: seq<Action>, snap: Snapshot) {
    (snap.pending <==> !run.phase.Done?) && Tells(run.action, run.freshRefresh, r, tr, snap)
  }

  ghost predicate Story(run: Run, r: RunId, tr: seq<Action>, snap: Snapshot) {
    Shape(run, r, tr) && Stage(run, r, tr) && Result(run, r, tr) && Shows(run, r, tr, snap)
  }

  // ----- one more event -----

  lemma FailsLonger(action: bool, r: RunId, tr: seq<Action>, a: Action)
    requires BodyOver(action, r, tr)
    ensures BodyOver(action, r, tr + [a])
    ensures forall e :: FailsWith(action, r, tr + [a], e) <==> FailsWith(action, r, tr, e)
    ensures SucceedsBy(action, r, tr + [a]) <==> SucceedsBy(action, r, tr)
  {
    var more := tr + [a];
    assert forall k :: 0 <= k < |tr| ==> more[k] == tr[k];
  }

  lemma RecheckedLonger(r: RunId, tr: seq<Action>, a: Action)
    ensures forall reply :: Rechecked(r, tr + [a], reply) <==> Rechecked(r, tr, reply) || (|tr| >= 3 && a == WorldReply(r, reply))
  {
    var more := tr + [a];
    assert more[|tr|] == a && forall k :: 0 <= k < |tr| ==> more[k] == tr[k];
    forall reply | Rechecked(r, tr, reply) ensures Rechecked(r, more, reply) {
      var k :| 3 <= k < |tr| && tr[k] == WorldReply(r, reply);
      assert more[k] == WorldReply(r, reply);
    }
  }

  lemma OpenFailedLonger(r: RunId, tr: seq<Action>, a: Action, e: string)
    ensures (exists k :: 1 <= k < |tr + [a]| && (tr + [a])[k] == OpenFailed(r, e))
       <==> (exists k :: 1 <= k < |tr| && tr[k] == OpenFailed(r, e)) || (|tr| >= 1 && a == OpenFailed(r, e))
  {
    var more := tr + [a];
    assert more[|tr|] == a && forall k :: 0 <= k < |tr| ==> more[k] == tr[k];
    if k :| 1 <= k < |tr| && tr[k] == OpenFailed(r, e) { assert more[k] == OpenFailed(r, e); }
  }

  predicate FailsNow(r: RunId, tr: seq<Action>, a: Action, e: string) {
    || RefreshFailsWith(r, tr, e) || a == ListReply(r, Failure(e))
    || (|tr| >= 3 && a == WorldReply(r, Failure(e))) || (|tr| >= 1 && a == OpenFailed(r, e))
  }

  lemma RefreshFailsLonger(r: RunId, tr: seq<Action>, a: Action)
    ensures forall e :: RefreshFailsWith(r, tr + [a], e) <==> FailsNow(r, tr, a, e)
  {
    RecheckedLonger(r, tr, a);
    hide Rechecked;
    forall e ensures RefreshFailsWith(r, tr + [a], e) <==> FailsNow(r, tr, a, e) {
      OpenFailedLonger(r, tr, a, e);
      assert ListReply(r, Failure(e)) in tr + [a] <==> ListReply(r, Failure(e)) in tr || a == ListReply(r, Failure(e));
    }
  }

  lemma BeganLonger(action: bool, freshRefresh: bool, tr: seq<Action>, a: Action)
    ensures Began(action, freshRefresh, tr + [a])
       <==> Began(action, freshRefresh, tr)
            || (tr == [] && a.Opened? && !action)
            || (|tr| > 0 && tr[0].Opened? && action && if freshRefresh then a.Opened? else a.EnterFinally?)
  {
    var more := tr + [a];
    assert more[|tr|] == a && forall k :: 0 <= k < |tr| ==> more[k] == tr[k];
    if k :| 0 < k < |tr| && if freshRefresh then tr[k].Opened? else tr[k].EnterFinally? {
      assert if freshRefresh then more[k].Opened? else more[k].EnterFinally?;
    }
  }

  /** Nothing was answered, so there is nothing that the answers so far say. */
  lemma NothingAnswered(r: RunId, tr: seq<Action>)
    requires Unanswered(r, tr)
    ensures Unchecked(r, tr)
    ensures forall c :: ListReply(r, Success(c)) !in tr
  {
  }

  lemma NothingFailed(r: RunId, tr: seq<Action>)
    requires Unchecked(r, tr)
    ensures forall reply :: !Rechecked(r, tr, reply)
    ensures forall e :: !RefreshFailsWith(r, tr, e)
  {
  }

  lemma UnansweredLonger(r: RunId, tr: seq<Action>, a: Action)
    ensures Unanswered(r, tr) && !a.ListReply? && !(|tr| >= 3 && a.WorldReply?) && !(|tr| >= 1 && a.OpenFailed?) ==> Unanswered(r, tr + [a])
    ensures Unchecked(r, tr) && !(a.ListReply? && a.listing.Failure?) && !(|tr| >= 3 && a.WorldReply?) && !(|tr| >= 1 && a.OpenFailed?)
            ==> Unchecked(r, tr + [a])
  {
    var more := tr + [a];
    assert more[|tr|] == a && forall k :: 0 <= k < |tr| ==> more[k] == tr[k];
  }

  predicate CompletesWith(action: bool, freshRefresh: bool, tr: seq<Action>, a: Action) {
    |tr| > 0 && (Began(action, freshRefresh, tr + [a]) ==> Began(action, freshRefresh, tr))
  }

  lemma CompleteLonger(action: bool, freshRefresh: bool, r: RunId, tr: seq<Action>, a: Action)
    requires |tr| > 0 && (Began(action, freshRefresh, tr + [a]) ==> Began(action, freshRefresh, tr))
    ensures Complete(action, freshRefresh, r, tr) ==> Complete(action, freshRefresh, r, tr + [a])
    ensures GotList(tr) ==> GotList(tr + [a])
    ensures a.ListReply? && a.listing.Success? ==> GotList(tr + [a])
    ensures a.ListReply? && a.listing.Failure? && Began(action, freshRefresh, tr) ==> Complete(action, freshRefresh, r, tr + [a])
    ensures a.WorldReply? && |tr| >= 3 && GotList(tr) && Began(action, freshRefresh, tr) ==> Complete(action, freshRefresh, r, tr + [a])
    ensures a.OpenFailed? && !Began(action, freshRefresh, tr) ==> Complete(action, freshRefresh, r, tr + [a])
  {
    var more, n := tr + [a], |tr|;
    BeganLonger(action, freshRefresh, tr, a);
    assert more[n] == a && forall k :: 0 <= k < n ==> more[k] == tr[k];
    hide Began;
    if Complete(action, freshRefresh, r, tr) && tr[0].Opened? {
      if Began(action, freshRefresh, tr) {
        var k :| 0 <= k < n && tr[k].ListReply? && (tr[k].listing.Success? ==> exists j :: 3 <= j < n && tr[j].WorldReply?);
        assert more[k].ListReply?;
        if tr[k].listing.Success? {
          var j :| 3 <= j < n && tr[j].WorldReply?;
          assert more[j].WorldReply?;
        }
      } else {
        var k :| 1 <= k < n && tr[k].OpenFailed?;
        assert more[k].OpenFailed?;
      }
    }
    if GotList(tr) {
      var k :| 0 <= k < n && tr[k].ListReply? && tr[k].listing.Success?;
      assert more[k].ListReply? && more[k].listing.Success?;
    }
  }

  /** The events so far, with everything that one more changes about what they say. */
  lemma Longer(action: bool, freshRefresh: bool, r: RunId, tr: seq<Action>, a: Action)
    ensures forall reply :: Rechecked(r, tr + [a], reply) <==> Rechecked(r, tr, reply) || (|tr| >= 3 && a == WorldReply(r, reply))
    ensures forall e :: RefreshFailsWith(r, tr + [a], e) <==> FailsNow(r, tr, a, e)
    ensures Began(action, freshRefresh, tr + [a])
       <==> Began(action, freshRefresh, tr)
            || (tr == [] && a.Opened? && !action)
            || (|tr| > 0 && tr[0].Opened? && action && if freshRefresh then a.Opened? else a.EnterFinally?)
    ensures forall c :: ListReply(r, Success(c)) in tr + [a] <==> ListReply(r, Success(c)) in tr || a == ListReply(r, Success(c))
    ensures BodyOver(action, r, tr) ==>
              && BodyOver(action, r, tr + [a])
              && (forall e :: FailsWith(action, r, tr + [a], e) <==> FailsWith(action, r, tr, e))
              && (SucceedsBy(action, r, tr + [a]) <==> SucceedsBy(action, r, tr))
  {
    RecheckedLonger(r, tr, a);
    RefreshFailsLonger(r, tr, a);
    BeganLonger(action, freshRefresh, tr, a);
    if BodyOver(action, r, tr) { FailsLonger(action, r, tr, a); }
  }

  lemma OwnLonger(r: RunId, tr: seq<Action>, a: Action)
    requires HasRun(a) && a.run == r && forall k :: 0 <= k < |tr| ==> HasRun(tr[k]) && tr[k].run == r
    ensures forall k :: 0 <= k < |tr + [a]| ==> HasRun((tr + [a])[k]) && (tr + [a])[k].run == r
    ensures |tr + [a]| > 0 && (|tr| > 0 ==> (tr + [a])[0] == tr[0]) && (tr == [] ==> (tr + [a])[0] == a)
  {
  }

  /** What an event of the refresh, or of the body, adds to what is shown. */
  function Cleared(snap: Snapshot): Snapshot { snap.(content := None, locked := None, refreshError := None) }

  lemma TellsPending(action: bool, freshRefresh: bool, r: RunId, tr: seq<Action>, snap: Snapshot, pending: bool)
    requires Tells(action, freshRefresh, r, tr, snap)
    ensures Tells(action, freshRefresh, r, tr, snap.(pending := pending))
  {
  }

  /** Events that nothing is shown for. */
  predicate Silent(a: Action) { a.AfterList? || a.EnterFinally? || a.Resume? }

  lemma TellsSilent(action: bool, freshRefresh: bool, r: RunId, tr: seq<Action>, a: Action, snap: Snapshot)
    requires Tells(action, freshRefresh, r, tr, snap) && BodyOver(action, r, tr) && Silent(a)
    requires Began(action, freshRefresh, tr + [a]) ==> Began(action, freshRefresh, tr)
    ensures Tells(action, freshRefresh, r, tr + [a], snap)
  {
    Longer(action, freshRefresh, r, tr, a);
    hide Began, RefreshFailsWith, Rechecked, FailsWith;
    assert |tr| > 0 && forall k :: 0 <= k < |tr| ==> (tr + [a])[k] == tr[k];
  }

  /** The refresh begins: with a load's session, with a session opened afresh, or with
      `finally`. */
  lemma TellsRefresh(action: bool, freshRefresh: bool, r: RunId, tr: seq<Action>, a: Action, snap: Snapshot)
    requires Tells(action, freshRefresh, r, tr, snap) && Unanswered(r, tr) && (tr != [] ==> BodyOver(action, r, tr))
    requires (a.Opened? || a.EnterFinally?) && (tr == [] ==> !action && a.Opened?)
    requires Began(action, freshRefresh, tr + [a])
    ensures Tells(action, freshRefresh, r, tr + [a], Cleared(snap))
  {
    Longer(action, freshRefresh, r, tr, a);
    NothingAnswered(r, tr);
    NothingFailed(r, tr);
    hide Began, RefreshFailsWith, Rechecked, Unanswered, Unchecked;
  }

  /** The first session does not come. */
  lemma TellsNoSession(action: bool, freshRefresh: bool, r: RunId, snap: Snapshot, e: string)
    requires Tells(action, freshRefresh, r, [], snap)
    ensures Tells(action, freshRefresh, r, [OpenFailed(r, e)], snap.(error := Some(e)))
  {
  }

  lemma TellsBody(action: bool, freshRefresh: bool, r: RunId, tr: seq<Action>, a: Action, snap: Snapshot, next: Snapshot)
    requires Tells(action, freshRefresh, r, tr, snap) && Unanswered(r, tr) && action && |tr| <= 3
    requires (tr == [] && a.Opened? && next == snap)
          || (|tr| == 1 && tr[0].Opened? && a.WorldReply? && a.run == r
              && next == match a.reply case Success(l) => snap.(locked := Some(l)) case Failure(e) => snap.(error := Some(e)))
          || (|tr| == 2 && tr[0].Opened? && tr[1].WorldReply? && tr[1].run == r && tr[1].reply.Success? && a.Proceed? && a.run == r
              && next == if tr[1].reply.value then snap.(error := Some("WORLD_LOCKED"))
                         else if a.rejected.Some? then snap.(error := a.rejected) else snap)
          || (|tr| == 3 && Sent(r, tr) && a.ActionReply? && a.run == r
              && next == if a.failed.Some? then snap.(error := a.failed) else snap)
    requires !Began(action, freshRefresh, tr)
    ensures Tells(action, freshRefresh, r, tr + [a], next)
  {
    Longer(action, freshRefresh, r, tr, a);
    NothingAnswered(r, tr);
    NothingFailed(r, tr);
    hide Began, RefreshFailsWith, Rechecked, Unanswered, Unchecked;
    assert forall k :: 0 <= k < |tr| ==> (tr + [a])[k] == tr[k];
  }

  /** The answers to the refresh. */
  lemma TellsList(action: bool, freshRefresh: bool, r: RunId, tr: seq<Action>, listing: Result<string, string>, snap: Snapshot)
    requires Tells(action, freshRefresh, r, tr, snap) && BodyOver(action, r, tr) && Unanswered(r, tr) && |tr| >= 1
    requires Began(action, freshRefresh, tr)
    ensures Tells(action, freshRefresh, r, tr + [ListReply(r, listing)],
                  match listing case Success(c) => snap.(content := Some(c)) case Failure(e) => snap.(refreshError := Some(e)))
  {
    var a := ListReply(r, listing);
    Longer(action, freshRefresh, r, tr, a);
    NothingAnswered(r, tr);
    NothingFailed(r, tr);
    hide Began, RefreshFailsWith, Rechecked, Unanswered, Unchecked, FailsWith, SucceedsBy, BodyOver;
    assert forall k :: 0 <= k < |tr| ==> (tr + [a])[k] == tr[k];
  }

  lemma TellsRecheck(action: bool, freshRefresh: bool, r: RunId, tr: seq<Action>, reply: Result<bool, string>, snap: Snapshot)
    requires Tells(action, freshRefresh, r, tr, snap) && BodyOver(action, r, tr) && Unchecked(r, tr) && |tr| >= 3
    requires Began(action, freshRefresh, tr)
    ensures Tells(action, freshRefresh, r, tr + [WorldReply(r, reply)],
                  match reply case Success(l) => snap.(locked := Some(l)) case Failure(e) => snap.(refreshError := Some(e)))
  {
    var a := WorldReply(r, reply);
    Longer(action, freshRefresh, r, tr, a);
    NothingFailed(r, tr);
    hide Began, RefreshFailsWith, Rechecked, Unanswered, Unchecked, FailsWith, SucceedsBy, BodyOver;
    assert forall k :: 0 <= k < |tr| ==> (tr + [a])[k] == tr[k];
  }

  lemma TellsNotReopened(action: bool, freshRefresh: bool, r: RunId, tr: seq<Action>, error: string, snap: Snapshot)
    requires Tells(action, freshRefresh, r, tr, snap) && BodyOver(action, r, tr) && Unanswered(r, tr) && |tr| >= 2
    requires !Began(action, freshRefresh, tr)
    ensures Tells(action, freshRefresh, r, tr + [OpenFailed(r, error)], snap.(refreshError := Some(error)))
  {
    var a := OpenFailed(r, error);
    Longer(action, freshRefresh, r, tr, a);
    NothingAnswered(r, tr);
    NothingFailed(r, tr);
    hide Began, RefreshFailsWith, Rechecked, Unanswered, Unchecked, FailsWith, SucceedsBy, BodyOver;
    assert forall k :: 0 <= k < |tr| ==> (tr + [a])[k] == tr[k];
  }

  // ----- the steps of a current run -----

  /** The end of a run, and the way there, change neither its answer nor what is shown. */
  lemma WindsDown(s: State, r: RunId, tr: seq<Action>)
    requires r in s.runs && Current(s, r) && !s.runs[r].phase.Done?
    requires Shape(s.runs[r], r, tr) && BodyOver(s.runs[r].action, r, tr)
    requires s.runs[r].succeeded <==> SucceedsBy(s.runs[r].action, r, tr)
    requires Complete(s.runs[r].action, s.runs[r].freshRefresh, r, tr)
    requires Shows(s.runs[r], r, tr, s.shared.snapshot)
    ensures var q := BeginClose(s, r); Story(q.runs[r], r, tr, q.shared.snapshot)
  {
    hide Complete, GotList, Tells, Began, CallClose, BodyOver, SucceedsBy, Unanswered, Unchecked, Winding;
    if s.runs[r].session.Some? {
      hide EndRun;
    } else {
      RunEnds(s, r, tr);
      hide EndRun;
    }
  }

  /** The last lines of a run whose events are all told. */
  lemma RunEnds(s: State, r: RunId, tr: seq<Action>)
    requires r in s.runs && Current(s, r)
    requires Shape(s.runs[r].(phase := Ending), r, tr) && BodyOver(s.runs[r].action, r, tr)
    requires s.runs[r].succeeded <==> SucceedsBy(s.runs[r].action, r, tr)
    requires Complete(s.runs[r].action, s.runs[r].freshRefresh, r, tr)
    requires Tells(s.runs[r].action, s.runs[r].freshRefresh, r, tr, s.shared.snapshot)
    ensures var q := EndRun(s, r); Story(q.runs[r], r, tr, q.shared.snapshot)
  {
    TellsPending(s.runs[r].action, s.runs[r].freshRefresh, r, tr, s.shared.snapshot, false);
    hide Complete, GotList, Tells, Began, BodyOver, SucceedsBy, Unanswered, Unchecked;
  }

  lemma RefreshEnds(s: State, r: RunId, tr: seq<Action>)
    requires r in s.runs && Current(s, r) && InRefresh(s.runs[r].phase) && Shape(s.runs[r], r, tr) && Result(s.runs[r], r, tr)
    requires Complete(s.runs[r].action, s.runs[r].freshRefresh, r, tr)
    requires Shows(s.runs[r], r, tr, s.shared.snapshot)
    ensures var q := EndRefresh(s, r); Story(q.runs[r], r, tr, q.shared.snapshot)
  {
    hide Complete, GotList, Tells, Began, Unanswered, Unchecked;
    if s.runs[r].action {
      hide BeginClose, Winding;
      WindsDown(s, r, tr);
    }
  }

  lemma StoryOpened(s: State, r: RunId, id: SessionId, tr: seq<Action>)
    requires Enabled(s, Opened(r, id)) && Current(s, r) && Story(s.runs[r], r, tr, s.shared.snapshot)
    ensures var q := OnOpened(s, r, id); Story(q.runs[r], r, tr + [Opened(r, id)], q.shared.snapshot)
  {
    var a, run := Opened(r, id), s.runs[r];
    Longer(run.action, run.freshRefresh, r, tr, a);
    OwnLonger(r, tr, a);
    UnansweredLonger(r, tr, a);
    if CompletesWith(run.action, run.freshRefresh, tr, a) { CompleteLonger(run.action, run.freshRefresh, r, tr, a); }
    if tr == [] && run.action {
      TellsBody(run.action, run.freshRefresh, r, tr, a, s.shared.snapshot, s.shared.snapshot);
    } else {
      TellsRefresh(run.action, run.freshRefresh, r, tr, a, s.shared.snapshot);
    }
    hide Complete, GotList, Tells, Began, SessionsKept, StepOf, SameSession, CallClose, Winding, Unanswered, Unchecked, Rechecked, RefreshFailsWith, FailsWith;
  }

  lemma StoryOpenFailed(s: State, r: RunId, error: string, tr: seq<Action>)
    requires Enabled(s, OpenFailed(r, error)) && Current(s, r) && Story(s.runs[r], r, tr, s.shared.snapshot)
    ensures var q := OnOpenFailed(s, r, error); Story(q.runs[r], r, tr + [OpenFailed(r, error)], q.shared.snapshot)
  {
    var a, run := OpenFailed(r, error), s.runs[r];
    Longer(run.action, run.freshRefresh, r, tr, a);
    OwnLonger(r, tr, a);
    UnansweredLonger(r, tr, a);
    if CompletesWith(run.action, run.freshRefresh, tr, a) { CompleteLonger(run.action, run.freshRefresh, r, tr, a); }
    if run.phase.Opening? {
      TellsNoSession(run.action, run.freshRefresh, r, s.shared.snapshot, error);
      assert [] + [a] == [a];
      hide Complete, GotList, Tells, Began, SessionsKept, StepOf, SameSession, Winding, Unanswered, Unchecked, Rechecked, RefreshFailsWith;
    } else {
      TellsNotReopened(run.action, run.freshRefresh, r, tr, error, s.shared.snapshot);
      hide Complete, GotList, Tells, Began, SessionsKept, StepOf, SameSession, Winding, Unanswered, Unchecked, Rechecked, RefreshFailsWith, FailsWith,
           BeginClose, BodyOver, SucceedsBy;
      WindsDown(Show(s, r, s.shared.snapshot.(refreshError := Some(error))), r, tr + [a]);
    }
  }

  lemma StoryWorldReply(s: State, r: RunId, reply: Result<bool, string>, tr: seq<Action>)
    requires Enabled(s, WorldReply(r, reply)) && Current(s, r) && Story(s.runs[r], r, tr, s.shared.snapshot)
    ensures var q := OnWorldReply(s, r, reply); Story(q.runs[r], r, tr + [WorldReply(r, reply)], q.shared.snapshot)
  {
    if s.runs[r].phase.Checking? { StoryChecked(s, r, reply, tr); } else { StoryRechecked(s, r, reply, tr); }
    hide OnWorldReply, Story;
  }

  lemma StoryChecked(s: State, r: RunId, reply: Result<bool, string>, tr: seq<Action>)
    requires Enabled(s, WorldReply(r, reply)) && Current(s, r) && Story(s.runs[r], r, tr, s.shared.snapshot)
    requires s.runs[r].phase.Checking?
    ensures var q := OnWorldReply(s, r, reply); Story(q.runs[r], r, tr + [WorldReply(r, reply)], q.shared.snapshot)
  {
    var a, run, snap := WorldReply(r, reply), s.runs[r], s.shared.snapshot;
    Longer(run.action, run.freshRefresh, r, tr, a);
    OwnLonger(r, tr, a);
    UnansweredLonger(r, tr, a);
    if CompletesWith(run.action, run.freshRefresh, tr, a) { CompleteLonger(run.action, run.freshRefresh, r, tr, a); }
    TellsBody(run.action, run.freshRefresh, r, tr, a, snap,
              match reply case Success(l) => snap.(locked := Some(l)) case Failure(e) => snap.(error := Some(e)));
    hide Complete, GotList, Tells, Began, SessionsKept, StepOf, SameSession, Winding, Unanswered, Unchecked, Rechecked, RefreshFailsWith, FailsWith;
  }

  lemma StoryRechecked(s: State, r: RunId, reply: Result<bool, string>, tr: seq<Action>)
    requires Enabled(s, WorldReply(r, reply)) && Current(s, r) && Story(s.runs[r], r, tr, s.shared.snapshot)
    requires !s.runs[r].phase.Checking?
    ensures var q := OnWorldReply(s, r, reply); Story(q.runs[r], r, tr + [WorldReply(r, reply)], q.shared.snapshot)
  {
    var a, run, snap := WorldReply(r, reply), s.runs[r], s.shared.snapshot;
    Longer(run.action, run.freshRefresh, r, tr, a);
    OwnLonger(r, tr, a);
    UnansweredLonger(r, tr, a);
    if CompletesWith(run.action, run.freshRefresh, tr, a) { CompleteLonger(run.action, run.freshRefresh, r, tr, a); }
    TellsRecheck(run.action, run.freshRefresh, r, tr, reply, snap);
    hide Complete, GotList, Tells, Began, SessionsKept, StepOf, SameSession, Winding, Unanswered, Unchecked, Rechecked, RefreshFailsWith, FailsWith,
         BodyOver, SucceedsBy, EndRefresh;
    var next := match reply case Success(l) => snap.(locked := Some(l)) case Failure(e) => snap.(refreshError := Some(e));
    RefreshEnds(s.(shared := s.shared.(snapshot := next), log := OnWorldReply(s, r, reply).log), r, tr + [a]);
  }

  lemma StoryProceed(s: State, r: RunId, rejected: Option<string>, tr: seq<Action>)
    requires Enabled(s, Proceed(r, rejected)) && Current(s, r) && Story(s.runs[r], r, tr, s.shared.snapshot)
    ensures var q := OnProceed(s, r, rejected); Story(q.runs[r], r, tr + [Proceed(r, rejected)], q.shared.snapshot)
  {
    var a, run, snap := Proceed(r, rejected), s.runs[r], s.shared.snapshot;
    Longer(run.action, run.freshRefresh, r, tr, a);
    OwnLonger(r, tr, a);
    UnansweredLonger(r, tr, a);
    if CompletesWith(run.action, run.freshRefresh, tr, a) { CompleteLonger(run.action, run.freshRefresh, r, tr, a); }
    TellsBody(run.action, run.freshRefresh, r, tr, a, snap,
              if run.phase.locked then snap.(error := Some("WORLD_LOCKED")) else if rejected.Some? then snap.(error := rejected) else snap);
    hide Complete, GotList, Tells, Began, SessionsKept, StepOf, SameSession, Winding, Unanswered, Unchecked, Rechecked, RefreshFailsWith, FailsWith;
  }

  lemma StoryActionReply(s: State, r: RunId, failed: Option<string>, tr: seq<Action>)
    requires Enabled(s, ActionReply(r, failed)) && Current(s, r) && Story(s.runs[r], r, tr, s.shared.snapshot)
    ensures var q := OnActionReply(s, r, failed); Story(q.runs[r], r, tr + [ActionReply(r, failed)], q.shared.snapshot)
  {
    var a, run, snap := ActionReply(r, failed), s.runs[r], s.shared.snapshot;
    Longer(run.action, run.freshRefresh, r, tr, a);
    OwnLonger(r, tr, a);
    UnansweredLonger(r, tr, a);
    if CompletesWith(run.action, run.freshRefresh, tr, a) { CompleteLonger(run.action, run.freshRefresh, r, tr, a); }
    TellsBody(run.action, run.freshRefresh, r, tr, a, snap, if failed.Some? then snap.(error := failed) else snap);
    hide Complete, GotList, Tells, Began, SessionsKept, StepOf, SameSession, Winding, Unanswered, Unchecked, Rechecked, RefreshFailsWith, FailsWith;
  }

  lemma StoryListReply(s: State, r: RunId, listing: Result<string, string>, tr: seq<Action>)
    requires Enabled(s, ListReply(r, listing)) && Current(s, r) && Story(s.runs[r], r, tr, s.shared.snapshot)
    ensures var q := OnListReply(s, r, listing); Story(q.runs[r], r, tr + [ListReply(r, listing)], q.shared.snapshot)
  {
    var a, run := ListReply(r, listing), s.runs[r];
    ListTold(run, r, listing, tr, s.shared.snapshot);
    hide Complete, GotList, Tells, Began, SessionsKept, StepOf, SameSession, Winding, Unanswered, Unchecked, Rechecked, RefreshFailsWith, FailsWith,
         BodyOver, SucceedsBy, EndRefresh;
    if listing.Failure? {
      RefreshEnds(Show(s, r, s.shared.snapshot.(refreshError := Some(listing.error))), r, tr + [a]);
    }
  }

  /** A list in the refresh, before the phase moves on. */
  lemma ListTold(run: Run, r: RunId, listing: Result<string, string>, tr: seq<Action>, snap: Snapshot)
    requires run.phase.Listing? && Story(run, r, tr, snap)
    ensures var tr2 := tr + [ListReply(r, listing)];
      && Shape(run, r, tr2) && Result(run, r, tr2) && |tr2| >= 2 && BodyOver(run.action, r, tr2)
      && Began(run.action, run.freshRefresh, tr2) && (listing.Success? ==> Unchecked(r, tr2))
      && Shows(run, r, tr2, match listing case Success(c) => snap.(content := Some(c)) case Failure(e) => snap.(refreshError := Some(e)))
  {
    var a := ListReply(r, listing);
    Longer(run.action, run.freshRefresh, r, tr, a);
    OwnLonger(r, tr, a);
    UnansweredLonger(r, tr, a);
    if CompletesWith(run.action, run.freshRefresh, tr, a) { CompleteLonger(run.action, run.freshRefresh, r, tr, a); }
    NothingAnswered(r, tr);
    TellsList(run.action, run.freshRefresh, r, tr, listing, snap);
    hide Complete, GotList, Tells, Began, Unanswered, Unchecked, Rechecked, RefreshFailsWith, FailsWith, BodyOver, SucceedsBy;
  }

  lemma ListedStory(run: Run, r: RunId, tr: seq<Action>, snap: Snapshot)
    requires run.phase.Listed? && Story(run, r, tr, snap)
    ensures Story(run.(phase := Rechecking), r, tr + [AfterList(r)], snap)
  {
    var a := AfterList(r);
    Longer(run.action, run.freshRefresh, r, tr, a);
    OwnLonger(r, tr, a);
    UnansweredLonger(r, tr, a);
    if CompletesWith(run.action, run.freshRefresh, tr, a) { CompleteLonger(run.action, run.freshRefresh, r, tr, a); }
    TellsSilent(run.action, run.freshRefresh, r, tr, a, snap);
    hide Complete, GotList, Tells, Began, Winding, Unanswered, Unchecked, Rechecked, RefreshFailsWith, FailsWith, BodyOver, SucceedsBy;
  }

  lemma StoryAfterList(s: State, r: RunId, tr: seq<Action>)
    requires Enabled(s, AfterList(r)) && Current(s, r) && Story(s.runs[r], r, tr, s.shared.snapshot)
    ensures var q := OnAfterList(s, r); Story(q.runs[r], r, tr + [AfterList(r)], q.shared.snapshot)
  {
    ListedStory(s.runs[r], r, tr, s.shared.snapshot);
    hide Story, StepOf, SameSession, SessionsKept, EndRefresh;
  }

  lemma StoryFinally(s: State, r: RunId, tr: seq<Action>)
    requires Enabled(s, EnterFinally(r)) && Current(s, r) && Story(s.runs[r], r, tr, s.shared.snapshot)
    ensures var q := OnFinally(s, r); Story(q.runs[r], r, tr + [EnterFinally(r)], q.shared.snapshot)
  {
    if s.runs[r].session.Some? && s.runs[r].action { FinallyRefreshes(s, r, tr); } else { FinallyCloses(s, r, tr); }
    hide OnFinally, Story;
  }

  lemma FinallyRefreshes(s: State, r: RunId, tr: seq<Action>)
    requires Enabled(s, EnterFinally(r)) && Current(s, r) && Story(s.runs[r], r, tr, s.shared.snapshot)
    requires s.runs[r].session.Some? && s.runs[r].action
    ensures var q := OnFinally(s, r); Story(q.runs[r], r, tr + [EnterFinally(r)], q.shared.snapshot)
  {
    var a, run, snap := EnterFinally(r), s.runs[r], s.shared.snapshot;
    Longer(run.action, run.freshRefresh, r, tr, a);
    OwnLonger(r, tr, a);
    UnansweredLonger(r, tr, a);
    if CompletesWith(run.action, run.freshRefresh, tr, a) { CompleteLonger(run.action, run.freshRefresh, r, tr, a); }
    if run.freshRefresh {
      TellsSilent(run.action, run.freshRefresh, r, tr, a, snap);
    } else {
      TellsRefresh(run.action, run.freshRefresh, r, tr, a, snap);
    }
    hide Complete, GotList, Tells, Began, SessionsKept, StepOf, SameSession, Winding, Unanswered, Unchecked, Rechecked, RefreshFailsWith, FailsWith,
         BodyOver, SucceedsBy, BeginClose, CallClose;
  }

  lemma FinallyCloses(s: State, r: RunId, tr: seq<Action>)
    requires Enabled(s, EnterFinally(r)) && Current(s, r) && Story(s.runs[r], r, tr, s.shared.snapshot)
    requires !(s.runs[r].session.Some? && s.runs[r].action)
    ensures var q := OnFinally(s, r); Story(q.runs[r], r, tr + [EnterFinally(r)], q.shared.snapshot)
  {
    var a, run, snap := EnterFinally(r), s.runs[r], s.shared.snapshot;
    Longer(run.action, run.freshRefresh, r, tr, a);
    OwnLonger(r, tr, a);
    UnansweredLonger(r, tr, a);
    if CompletesWith(run.action, run.freshRefresh, tr, a) { CompleteLonger(run.action, run.freshRefresh, r, tr, a); }
    TellsSilent(run.action, run.freshRefresh, r, tr, a, snap);
    hide Complete, GotList, Tells, Began, SessionsKept, StepOf, SameSession, Winding, Unanswered, Unchecked, Rechecked, RefreshFailsWith, FailsWith,
         BodyOver, SucceedsBy, BeginClose, CallClose;
    WindsDown(s, r, tr + [a]);
  }

  /** The last close has returned: the run is over. */
  lemma StoryEnd(s: State, r: RunId, tr: seq<Action>)
    requires Enabled(s, Resume(r)) && Current(s, r) && Story(s.runs[r], r, tr, s.shared.snapshot) && s.runs[r].phase.Closing?
    ensures var q := EndRun(s, r); Story(q.runs[r], r, tr + [Resume(r)], q.shared.snapshot)
  {
    var a, run, snap := Resume(r), s.runs[r], s.shared.snapshot;
    Longer(run.action, run.freshRefresh, r, tr, a);
    OwnLonger(r, tr, a);
    UnansweredLonger(r, tr, a);
    if CompletesWith(run.action, run.freshRefresh, tr, a) { CompleteLonger(run.action, run.freshRefresh, r, tr, a); }
    TellsSilent(run.action, run.freshRefresh, r, tr, a, snap);
    hide Complete, GotList, Tells, Began, Unanswered, Unchecked, Rechecked, RefreshFailsWith, FailsWith, BodyOver, SucceedsBy, EndRun;
    RunEnds(s, r, tr + [a]);
  }

  /** The close before the fresh session has returned. */
  lemma StoryReopen(s: State, r: RunId, tr: seq<Action>)
    requires Enabled(s, Resume(r)) && Current(s, r) && Story(s.runs[r], r, tr, s.shared.snapshot) && s.runs[r].phase.Reclosing?
    ensures Story(s.runs[r].(phase := Reopening), r, tr + [Resume(r)], s.shared.snapshot)
  {
    var a, run, snap := Resume(r), s.runs[r], s.shared.snapshot;
    Longer(run.action, run.freshRefresh, r, tr, a);
    OwnLonger(r, tr, a);
    UnansweredLonger(r, tr, a);
    if CompletesWith(run.action, run.freshRefresh, tr, a) { CompleteLonger(run.action, run.freshRefresh, r, tr, a); }
    TellsSilent(run.action, run.freshRefresh, r, tr, a, snap);
    hide Complete, GotList, Tells, Began, SessionsKept, StepOf, SameSession, Winding, Unanswered, Unchecked, Rechecked, RefreshFailsWith, FailsWith,
         BodyOver, SucceedsBy, BeginClose, CallClose;
  }

  lemma StoryClosed(s: State, r: RunId, tr: seq<Action>)
    requires Enabled(s, Resume(r)) && Current(s, r) && Story(s.runs[r], r, tr, s.shared.snapshot)
    ensures var q := OnClosed(s, r); Story(q.runs[r], r, tr + [Resume(r)], q.shared.snapshot)
  {
    if s.runs[r].phase.Closing? { StoryEnd(s, r, tr); } else { StoryReopen(s, r, tr); }
    hide Story, SessionsKept, StepOf, BeginClose, EndRun;
  }

  // ----- whole runs -----

  lemma {:induction false} ExecAppend(s: State, a: seq<Action>, b: seq<Action>)
    requires Exec(s, a).Some?
    ensures Exec(s, a + b) == Exec(Exec(s, a).value, b)
    decreases |a|
  {
    hide Enabled, Apply;
    if a == [] {
      assert [] + b == b;
    } else {
      assert (a + b)[1..] == a[1..] + b;
      ExecAppend(Apply(s, a[0]), a[1..], b);
    }
  }

  lemma {:induction false} ExecPrefix(s: State, run: seq<Action>, n: nat)
    requires n <= |run| && Exec(s, run).Some?
    ensures Exec(s, run[..n]).Some?
    decreases |run|
  {
    hide Enabled, Apply;
    if n > 0 {
      assert run[..n][1..] == run[1..][..n - 1];
      ExecPrefix(Apply(s, run[0]), run[1..], n - 1);
    }
  }

  lemma ExecOne(s: State, a: Action)
    ensures Exec(s, [a]) == if Enabled(s, a) then Some(Apply(s, a)) else None
  {
    hide Enabled, Apply;
    assert [a][1..] == [];
    assert Enabled(s, a) ==> Exec(Apply(s, a), []) == Some(Apply(s, a));
  }

  lemma LastStep(run: seq<Action>)
    requires run != [] && Exec(INITIAL, run).Some?
    ensures var n := |run| - 1;
      && Exec(INITIAL, run[..n]).Some?
      && Enabled(Exec(INITIAL, run[..n]).value, run[n])
      && Exec(INITIAL, run) == Some(Apply(Exec(INITIAL, run[..n]).value, run[n]))
  {
    hide *;
    var n := |run| - 1;
    ExecPrefix(INITIAL, run, n);
    ExecAppend(INITIAL, run[..n], [run[n]]);
    assert run == run[..n] + [run[n]];
    ExecOne(Exec(INITIAL, run[..n]).value, run[n]);
  }

  /** A run that got past the guard, and is still the latest. */
  predicate Latest(s: State, r: RunId) { r in s.runs && s.runs[r].generation > 0 && Current(s, r) }

  /** No two runs that got past the guard have the same generation, and runs that did
      not are over. */
  ghost predicate Generations(s: State) {
    && (forall r, q :: r in s.runs && q in s.runs && s.runs[r].generation == s.runs[q].generation > 0 ==> r == q)
    && (forall r :: r in s.runs && s.runs[r].generation == 0 ==> s.runs[r].phase.Done? && !s.runs[r].acted)
  }

  ghost predicate Told(s: State, run: seq<Action>) {
    && Inv(s) && Generations(s)
    && (forall r :: Latest(s, r) ==> Story(s.runs[r], r, EventsOf(run, r), s.shared.snapshot))
    && (forall r :: Latest(s, r) ==> s.shared.snapshot.progress == LastProgress(run, r))
    && (forall r :: r !in s.runs ==> EventsOf(run, r) == [] && LastProgress(run, r) == None)
  }

  lemma EventsNext(run: seq<Action>, a: Action, r: RunId)
    ensures EventsOf(run + [a], r)
         == if HasRun(a) && !a.Progress? && a.run == r then EventsOf(run, r) + [a] else EventsOf(run, r)
    ensures LastProgress(run + [a], r) == if a.Progress? && a.run == r then Some(a.text) else LastProgress(run, r)
  {
    assert (run + [a])[..|run|] == run;
    assert EventsOf(run, r) + [] == EventsOf(run, r);
  }

  /** An event of the latest run. */
  lemma OwnStory(s: State, a: Action, tr: seq<Action>)
    requires Enabled(s, a) && HasRun(a) && !a.Progress? && a.run in s.runs && Current(s, a.run)
    requires Story(s.runs[a.run], a.run, tr, s.shared.snapshot)
    ensures var q := Apply(s, a); Story(q.runs[a.run], a.run, tr + [a], q.shared.snapshot)
  {
    hide Story, OnOpened, OnOpenFailed, OnWorldReply, OnProceed, OnActionReply, OnListReply, OnAfterList, OnFinally, OnClosed;
    match a
    case Opened(r, id) => StoryOpened(s, r, id, tr);
    case OpenFailed(r, error) => StoryOpenFailed(s, r, error, tr);
    case WorldReply(r, reply) => StoryWorldReply(s, r, reply, tr);
    case Proceed(r, rejected) => StoryProceed(s, r, rejected, tr);
    case ActionReply(r, failed) => StoryActionReply(s, r, failed, tr);
    case ListReply(r, listing) => StoryListReply(s, r, listing, tr);
    case AfterList(r) => StoryAfterList(s, r, tr);
    case EnterFinally(r) => StoryFinally(s, r, tr);
    case Resume(r) => StoryClosed(s, r, tr);
  }

  /** No event of a run, progress included, touches what is shown for a later one. */
  lemma OtherStory(s: State, a: Action, r: RunId)
    requires Generations(s) && Enabled(s, a) && HasRun(a) && Latest(s, r) && a.run != r
    ensures var q := Apply(s, a); r in q.runs && q.runs[r] == s.runs[r] && q.shared.snapshot == s.shared.snapshot
  {
    RunStep(s, a);
    assert !Current(s, a.run) by { Acts(s, a); }
    hide Apply, Enabled;
  }

  lemma Acts(s: State, a: Action)
    requires Enabled(s, a) && HasRun(a)
    ensures a.run in s.runs && (!s.runs[a.run].phase.Done? || s.runs[a.run].acted)
  {
  }

  /** Progress is shown and nothing else. */
  lemma ProgressStep(s: State, r: RunId, text: string)
    requires Enabled(s, Progress(r, text))
    ensures var q := Apply(s, Progress(r, text));
      && q.runs == s.runs && q.shared.generation == s.shared.generation
      && q.shared.snapshot == if Current(s, r) then s.shared.snapshot.(progress := Some(text)) else s.shared.snapshot
  {
  }

  lemma StoryProgress(run: Run, r: RunId, tr: seq<Action>, snap: Snapshot, text: Option<string>)
    requires Story(run, r, tr, snap)
    ensures Story(run, r, tr, snap.(progress := text))
  {
    hide Shape, Stage, Result;
  }

  /** A run that has just got past the guard. */
  lemma StoryStart(s: State, r: RunId, action: bool, freshRefresh: bool)
    requires Enabled(s, Start(r, action, freshRefresh)) && !s.shared.pending
    ensures var q := Apply(s, Start(r, action, freshRefresh));
      Story(q.runs[r], r, [], q.shared.snapshot) && q.shared.snapshot.progress.None?
  {
  }

  lemma GenerationsStep(s: State, a: Action)
    requires Generations(s) && Dated(s) && Enabled(s, a)
    ensures Generations(Apply(s, a))
  {
    if HasRun(a) {
      GenerationsEvent(s, a);
    } else if a.Start? {
      GenerationsStart(s, a);
    } else {
      SharedStep(s, a);
      hide Apply, Enabled;
    }
  }

  lemma GenerationsEvent(s: State, a: Action)
    requires Generations(s) && Enabled(s, a) && HasRun(a)
    ensures Generations(Apply(s, a))
  {
    hide Apply, Enabled;
    RunStep(s, a);
    Acts(s, a);
    ActedStays(s, a);
  }

  lemma GenerationsStart(s: State, a: Action)
    requires Generations(s) && Dated(s) && Enabled(s, a) && a.Start?
    ensures Generations(Apply(s, a))
  {
    hide Begun;
    var q := Apply(s, a);
    BegunGeneration(s.shared);
    forall r | r in q.runs && r != a.run ensures r in s.runs && q.runs[r] == s.runs[r] {}
  }

  lemma BegunGeneration(sh: Shared)
    ensures Begun(sh).generation == sh.generation + 1
  {
  }

  lemma ActedStays(s: State, a: Action)
    requires Enabled(s, a) && HasRun(a)
    ensures a.run in s.runs && a.run in Apply(s, a).runs
    ensures Apply(s, a).runs[a.run].acted ==> s.runs[a.run].acted || s.runs[a.run].phase.Checked?
  {
  }

  lemma ToldStep(s: State, run: seq<Action>, a: Action)
    requires Told(s, run) && Enabled(s, a)
    ensures Told(Apply(s, a), run + [a])
  {
    hide Apply, Enabled, Generations, Story, EventsOf, LastProgress;
    var q := Apply(s, a);
    InvStep(s, a);
    ToldDated(s);
    GenerationsStep(s, a);
    hide Inv;
    forall r | r !in q.runs ensures EventsOf(run + [a], r) == [] && LastProgress(run + [a], r) == None {
      EventsNext(run, a, r);
      RunsGrow(s, a, r);
    }
    forall r | Latest(q, r)
      ensures Story(q.runs[r], r, EventsOf(run + [a], r), q.shared.snapshot) && q.shared.snapshot.progress == LastProgress(run + [a], r)
    {
      LatestStep(s, run, a, r);
    }
  }

  lemma ToldDated(s: State)
    requires Inv(s)
    ensures Dated(s)
  {
  }

  lemma RunsGrow(s: State, a: Action, r: RunId)
    requires Enabled(s, a)
    ensures r in s.runs ==> r in Apply(s, a).runs
    ensures HasRun(a) ==> a.run in s.runs
  {
    if HasRun(a) { RunStep(s, a); hide Apply, Enabled; }
  }

  /** What is told of one run, before and after. */
  ghost predicate ToldOf(s: State, run: seq<Action>, r: RunId)
    requires r in s.runs
  {
    Story(s.runs[r], r, EventsOf(run, r), s.shared.snapshot) && s.shared.snapshot.progress == LastProgress(run, r)
  }

  lemma LatestStep(s: State, run: seq<Action>, a: Action, r: RunId)
    requires Told(s, run) && Enabled(s, a) && Latest(Apply(s, a), r)
    ensures ToldOf(Apply(s, a), run + [a], r)
  {
    if HasRun(a) {
      WasLatest(s, a, r);
      hide Apply, Enabled, Inv;
      assert ToldOf(s, run, r);
      LatestEvent(s, run, a, r);
    } else if a.Start? && a.run == r && !s.shared.pending {
      EventsNext(run, a, r);
      hide Story, Inv, Generations;
      StoryStart(s, r, a.action, a.freshRefresh);
    } else {
      hide Story, Generations;
      LatestOther(s, run, a, r);
    }
  }

  lemma WasLatest(s: State, a: Action, r: RunId)
    requires Enabled(s, a) && HasRun(a) && Latest(Apply(s, a), r)
    ensures Latest(s, r)
  {
    RunStep(s, a);
    hide Apply, Enabled;
  }

  lemma LatestEvent(s: State, run: seq<Action>, a: Action, r: RunId)
    requires Generations(s) && Enabled(s, a) && HasRun(a) && Latest(s, r) && ToldOf(s, run, r)
    ensures r in Apply(s, a).runs && ToldOf(Apply(s, a), run + [a], r)
  {
    EventsNext(run, a, r);
    hide Story, Apply, Enabled, EventsOf, LastProgress;
    if a.run != r {
      OtherStory(s, a, r);
    } else if a.Progress? {
      ProgressStep(s, r, a.text);
      StoryProgress(s.runs[r], r, EventsOf(run, r), s.shared.snapshot, Some(a.text));
    } else {
      OwnStory(s, a, EventsOf(run, r));
      ProgressKept(s, a);
      RunStep(s, a);
    }
  }

  lemma LatestOther(s: State, run: seq<Action>, a: Action, r: RunId)
    requires Inv(s) && Enabled(s, a) && !HasRun(a) && !(a.Start? && a.run == r && !s.shared.pending) && Latest(Apply(s, a), r)
    requires Latest(s, r) ==> ToldOf(s, run, r)
    ensures ToldOf(Apply(s, a), run + [a], r)
  {
    EventsNext(run, a, r);
    SharedStep(s, a);
    assert Dated(s);
    hide Story, EventsOf, LastProgress, Guarded, Memoised, Owned, MutationsChecked, CheckedRuns;
  }

  predicate BeforeAction(a: Action) { a.Opened? || a.OpenFailed? || a.WorldReply? || a.Proceed? }

  lemma ProgressKept(s: State, a: Action)
    requires Enabled(s, a) && HasRun(a) && !a.Progress?
    ensures Apply(s, a).shared.snapshot.progress == s.shared.snapshot.progress
  {
    if a.Opened? || a.OpenFailed? { ProgressAtOpening(s, a); }
    else if a.WorldReply? || a.Proceed? { ProgressAtCheck(s, a); }
    else { ProgressAfter(s, a); }
    hide Apply, Enabled;
  }

  lemma ProgressAtOpening(s: State, a: Action)
    requires Enabled(s, a) && (a.Opened? || a.OpenFailed?)
    ensures Apply(s, a).shared.snapshot.progress == s.shared.snapshot.progress
  {
    hide SessionsKept, SameSession, StepOf, CallClose, OnWorldReply, OnProceed, OnActionReply, OnListReply, OnAfterList, OnFinally, OnClosed;
  }

  lemma ProgressAtCheck(s: State, a: Action)
    requires Enabled(s, a) && (a.WorldReply? || a.Proceed?)
    ensures Apply(s, a).shared.snapshot.progress == s.shared.snapshot.progress
  {
    hide SessionsKept, SameSession, StepOf, CallClose, OnOpened, OnOpenFailed, OnActionReply, OnListReply, OnAfterList, OnFinally, OnClosed;
  }

  lemma ProgressAfter(s: State, a: Action)
    requires Enabled(s, a) && HasRun(a) && !BeforeAction(a) && !a.Progress?
    ensures Apply(s, a).shared.snapshot.progress == s.shared.snapshot.progress
  {
    hide SessionsKept, SameSession, StepOf, CallClose, OnOpened, OnOpenFailed, OnWorldReply, OnProceed;
  }

  lemma SharedStep(s: State, a: Action)
    requires Enabled(s, a) && !HasRun(a)
    ensures !a.Start? ==> Apply(s, a).runs == s.runs
    ensures a.InvokeClose? || a.SettleClose? ==> Apply(s, a).shared == s.shared
  {
  }

  lemma ToldNothing()
    ensures Told(INITIAL, [])
  {
    InitialInv();
  }

  lemma {:induction false} ToldRun(run: seq<Action>)
    requires Exec(INITIAL, run).Some?
    ensures Told(Exec(INITIAL, run).value, run)
    decreases |run|
  {
    hide Told, Apply, Enabled;
    if run == [] {
      ToldNothing();
    } else {
      var n := |run| - 1;
      LastStep(run);
      hide Exec;
      ToldRun(run[..n]);
      assert run == run[..n] + [run[n]];
      ToldStep(Exec(INITIAL, run[..n]).value, run[..n], run[n]);
    }
  }

  /** While a run is the latest, what is shown is what its events say, and if it is
      over, it has answered what they say: an action succeeds exactly by its own answer
      after an unlocked check, a load exactly by its session. And then, unless it got no
      session, it has listed again, and checked the world behind a list. */
  lemma AnswersAndShows(run: seq<Action>, r: RunId)
    requires Exec(INITIAL, run).Some? && Latest(Exec(INITIAL, run).value, r)
    ensures var s := Exec(INITIAL, run).value;
      var (p, tr) := (s.runs[r], EventsOf(run, r));
      && Tells(p.action, p.freshRefresh, r, tr, s.shared.snapshot)
      && s.shared.snapshot.progress == LastProgress(run, r)
      && (s.shared.snapshot.pending <==> Live(s, r))
      && (p.phase.Done? ==> (p.phase.result <==> SucceedsBy(p.action, r, tr)) && Complete(p.action, p.freshRefresh, r, tr))
  {
    ToldRun(run);
    hide Complete, Tells, Exec, EventsOf, Inv, Generations;
    var s := Exec(INITIAL, run).value;
    assert Story(s.runs[r], r, EventsOf(run, r), s.shared.snapshot);
  }

  /** A run answers true exactly when it is still the latest at its end and its events
      make it a success; and it answers once. */
  lemma EndsRight(run: seq<Action>, a: Action, r: RunId)
    requires Exec(INITIAL, run).Some? && Enabled(Exec(INITIAL, run).value, a)
    requires Live(Exec(INITIAL, run).value, r) && !Live(Apply(Exec(INITIAL, run).value, a), r)
    ensures var s := Exec(INITIAL, run).value;
      var q := Apply(s, a);
      && r in q.runs && q.runs[r].phase.Done?
      && (q.runs[r].phase.result <==> Current(s, r) && SucceedsBy(s.runs[r].action, r, EventsOf(run + [a], r)))
  {
    hide Exec, Apply, Enabled, SucceedsBy, EventsOf, Inv, Complete, Tells;
    ToldRun(run);
    var s := Exec(INITIAL, run).value;
    ToldStep(s, run, a);
    LiveEnds(s, a, r);
    var q := Apply(s, a);
    if Current(s, r) {
      assert Latest(q, r);
      assert Story(q.runs[r], r, EventsOf(run + [a], r), q.shared.snapshot);
    }
  }

  lemma LiveEnds(s: State, a: Action, r: RunId)
    requires Enabled(s, a) && Live(s, r) && !Live(Apply(s, a), r)
    ensures var q := Apply(s, a);
      && r in q.runs && q.runs[r].phase.Done? && q.runs[r].action == s.runs[r].action
      && q.runs[r].generation == s.runs[r].generation && q.shared.generation == s.shared.generation
      && (!Current(s, r) ==> !q.runs[r].phase.result)
  {
    if HasRun(a) {
      RunStep(s, a);
      if a.run == r && !Current(s, r) { StaleEnds(s, a); }
      hide Apply, Enabled;
    } else {
      SharedStep(s, a);
    }
  }

  lemma StaleEnds(s: State, a: Action)
    requires Enabled(s, a) && HasRun(a) && a.run in s.runs && !s.runs[a.run].phase.Done? && !Current(s, a.run)
    ensures var q := Apply(s, a);
      a.run in q.runs && (q.runs[a.run].phase.Done? ==> !q.runs[a.run].phase.result)
  {
    if BeforeAction(a) { StaleEndsBefore(s, a); } else { StaleEndsAfter(s, a); }
    hide Apply, Enabled;
  }

  lemma StaleEndsBefore(s: State, a: Action)
    requires Enabled(s, a) && BeforeAction(a) && a.run in s.runs && !s.runs[a.run].phase.Done? && !Current(s, a.run)
    ensures var q := Apply(s, a);
      a.run in q.runs && (q.runs[a.run].phase.Done? ==> !q.runs[a.run].phase.result)
  {
    hide SessionsKept, SameSession, StepOf, CallClose, Finished, OnActionReply, OnListReply, OnAfterList, OnFinally, OnClosed;
  }

  lemma StaleEndsAfter(s: State, a: Action)
    requires Enabled(s, a) && HasRun(a) && !BeforeAction(a) && a.run in s.runs && !s.runs[a.run].phase.Done? && !Current(s, a.run)
    ensures var q := Apply(s, a);
      a.run in q.runs && (q.runs[a.run].phase.Done? ==> !q.runs[a.run].phase.result)
  {
    hide SessionsKept, SameSession, StepOf, CallClose, Finished, OnOpened, OnOpenFailed, OnWorldReply, OnProceed;
  }

  lemma AnswerStays(s: State, a: Action, r: RunId)
    requires Enabled(s, a) && r in s.runs && s.runs[r].phase.Done?
    ensures r in Apply(s, a).runs && Apply(s, a).runs[r] == s.runs[r]
  {
  }
}
