/** The save and delete transactions as the front end runs them, step by step.
    The `Ok` parameters say which of the awaited calls succeed, and `fault` when
    the write fails. */
module EndpointTransactions {
  import opened Results
  import opened EndpointIds
  import Cfg = EndpointConfig

  /** The stored configuration. Every write validates once more. */
  class Repository {
    var stored: Cfg.Config

    method Read(ok: bool) returns (r: Option<Cfg.Config>)
      ensures r == if ok then Some(stored) else None
    {
      r := if ok then Some(stored) else None;
    }

    /** The file is replaced, unless the write fails before that. It may also fail
        afterwards, when the directory cannot be synced. */
    method Write(rules: Cfg.Rules, c: Cfg.Config, fault: WriteFault) returns (reported: bool)
      modifies this
      ensures reported <==> fault.NoFault? && Cfg.Validate(rules, c).Some?
      ensures stored == if !fault.Before? && Cfg.Validate(rules, c).Some? then Cfg.Validate(rules, c).value else old(stored)
    {
      var valid := Cfg.Validate(rules, c);
      if valid.None? || fault.Before? {
        return false;
      }
      stored := valid.value;
      return fault.NoFault?;
    }
  }

  datatype WriteFault = NoFault | Before | After

  /** Calls a delete makes after its write. */
  datatype Effect =
    | PersistSelected(id: EndpointId)
    | Publish(config: Cfg.Config)
    | Prepare(id: EndpointId)
    | CloseSessions(id: EndpointId)
    | CleanCache(id: EndpointId)

  /** The calls made so far, and the stored selection that one of them moves. */
  class Effects {
    var log: seq<Effect>
    var selected: EndpointId

    method Run(e: Effect, ok: bool) returns (done: bool)
      modifies this
      ensures log == old(log) + [e] && done == ok
      ensures selected == if ok && e.PersistSelected? then e.id else old(selected)
    {
      log := log + [e];
      if ok && e.PersistSelected? { selected := e.id; }
      done := ok;
    }
  }

  /** A save stores what its draft makes of the latest configuration, unless a call
      fails before the file is replaced; it is reported exactly when it was stored
      and the write did not fail afterwards. */
  method SaveEndpoint(rules: Cfg.Rules, repository: Repository, target: Option<EndpointId>, draft: Cfg.Draft, uuid: EndpointId,
                      readOk: bool, fault: WriteFault) returns (r: Option<Cfg.Config>)
    requires Cfg.Stable(rules) && Cfg.Valid(rules, repository.stored)
    modifies repository
    ensures var saved := Cfg.Saved(rules, old(repository.stored), target, draft, uuid);
      && r == (if readOk && fault.NoFault? then saved else None)
      && repository.stored == if readOk && !fault.Before? && saved.Some? then saved.value else old(repository.stored)
    ensures Cfg.Valid(rules, repository.stored)
    ensures var before := old(repository.stored);
      var lands := readOk && !fault.Before? && Cfg.Savable(rules, before, target, draft, uuid);
      && (lands ==> Cfg.Stores(rules, before, target, draft, uuid, repository.stored))
      && (!lands ==> repository.stored == before)
      && r == if lands && fault.NoFault? then Some(repository.stored) else None
  {
    hide Cfg.Stores, Cfg.Savable;
    Cfg.SavedStores(rules, repository.stored, target, draft, uuid);
    var read := repository.Read(readOk);
    if read.None? {
      return None;
    }
    var latest := Cfg.Validate(rules, read.value).value;
    var next: Option<Cfg.Config>;
    match target {
      case None =>
        var endpoint := Cfg.ValidateEndpoint(rules, Cfg.Ssh(uuid, Cfg.Patch(Cfg.NO_FIELDS, draft)));
        next := if endpoint.Some? then Cfg.Validate(rules, latest + [endpoint.value]) else None;
      case Some(id) =>
        if !Cfg.Has(latest, id) || latest[Cfg.IndexOf(latest, id)].Local? {
          return None;
        }
        var i := Cfg.IndexOf(latest, id);
        var endpoint := Cfg.ValidateEndpoint(rules, Cfg.Ssh(id, Cfg.Patch(latest[i].fields, draft)));
        next := if endpoint.Some? then Cfg.Validate(rules, latest[i := endpoint.value]) else None;
    }
    if next.None? {
      return None;
    }
    Cfg.SavedIds(rules, read.value, target, draft, uuid);
    var written := repository.Write(rules, next.value, fault);
    return if written then next else None;
  }

  /** What a delete tells its caller, unless publishing throws. */
  datatype Answer = Deleted(cleanupComplete: bool) | NotDeleted | Threw

  function Effective(selected: EndpointId, id: EndpointId, next: Cfg.Config): seq<Effect> {
    (if selected == id then [PersistSelected(LOCAL)] else []) + [Publish(next)]
  }

  /** A delete commits first. After a reported commit the new configuration is
      published, and then every cleanup call runs whatever the earlier ones did,
      exactly when publishing did not throw. A write that fails after the
      replacement has landed, but is answered like one that has not. So a selection that
      named a configured endpoint names one afterwards, unless the endpoint it names is
      deleted by such a write, or its move to the local endpoint fails. */
  method DeleteEndpoint(rules: Cfg.Rules, repository: Repository, effects: Effects, id: EndpointId, selected: EndpointId,
                        readOk: bool, fault: WriteFault, persistOk: bool, publishOk: bool, prepareOk: bool, closeOk: bool,
                        cleanupOk: bool)
    returns (answer: Answer)
    requires Cfg.Stable(rules) && Cfg.Valid(rules, repository.stored)
    modifies repository, effects
    ensures var before := old(repository.stored);
      var possible := readOk && Cfg.Deleted(rules, before, id).Some?;
      && repository.stored == (if possible && !fault.Before? then Cfg.Without(before, id) else before)
      && (answer.NotDeleted? <==> !(possible && fault.NoFault?))
      && (answer.NotDeleted? ==> effects.log == old(effects.log))
      && (answer.Threw? <==> possible && fault.NoFault? && !publishOk)
      && (answer.Threw? ==> effects.log == old(effects.log) + Effective(selected, id, repository.stored))
      && (answer.Deleted? ==>
            && effects.log == old(effects.log) + Effective(selected, id, repository.stored)
                              + [Prepare(id), CloseSessions(id), CleanCache(id)]
            && (answer.cleanupComplete <==> (selected == id ==> persistOk) && prepareOk && closeOk && cleanupOk))
    ensures var before := old(repository.stored);
      var possible := readOk && Cfg.Deleted(rules, before, id).Some?;
      && effects.selected == (if possible && fault.NoFault? && selected == id && persistOk then LOCAL else old(effects.selected))
      && (Cfg.Has(before, selected) && old(effects.selected) == selected ==>
            (Cfg.Has(repository.stored, effects.selected)
             <==> !(possible && selected == id && (fault.After? || (fault.NoFault? && !persistOk)))))
    ensures Cfg.Valid(rules, repository.stored)
  {
    hide Cfg.Stable, Cfg.Without, Cfg.HasRemote, Cfg.ValidateAll;
    var read := repository.Read(readOk);
    if read.None? || id == LOCAL {
      return NotDeleted;
    }
    var latest := Cfg.Validate(rules, read.value).value;
    if !Cfg.HasRemote(latest, id) {
      return NotDeleted;
    }
    var next := Cfg.Without(latest, id);
    if Cfg.Deleted(rules, read.value, id).Some? {
      Cfg.DeletedIds(rules, read.value, id);
      if Cfg.Has(read.value, selected) { Cfg.SelectionKept(rules, read.value, id, selected); }
    }
    var reported := repository.Write(rules, next, fault);
    if !reported {
      return NotDeleted;
    }
    answer := CleanUp(effects, next, id, selected, persistOk, publishOk, prepareOk, closeOk, cleanupOk);
  }

  /** The calls after the write. Only publishing is not caught. */
  method CleanUp(effects: Effects, next: Cfg.Config, id: EndpointId, selected: EndpointId, persistOk: bool, publishOk: bool,
                 prepareOk: bool, closeOk: bool, cleanupOk: bool) returns (answer: Answer)
    requires id != LOCAL
    modifies effects
    ensures answer == if !publishOk then Threw
                      else Deleted((selected == id ==> persistOk) && prepareOk && closeOk && cleanupOk)
    ensures effects.log == old(effects.log) + Effective(selected, id, next)
                           + if publishOk then [Prepare(id), CloseSessions(id), CleanCache(id)] else []
    ensures effects.selected == if persistOk && selected == id then LOCAL else old(effects.selected)
  {
    var cleanupComplete := true;
    var done: bool;
    var reselected := Cfg.Reselect(selected, id);
    if reselected != selected {
      done := effects.Run(PersistSelected(reselected), persistOk);
      if !done { cleanupComplete := false; }
    }
    done := effects.Run(Publish(next), publishOk);
    if !done { return Threw; }
    done := effects.Run(Prepare(id), prepareOk);
    if !done { cleanupComplete := false; }
    done := effects.Run(CloseSessions(id), closeOk);
    if !done { cleanupComplete := false; }
    done := effects.Run(CleanCache(id), cleanupOk);
    if !done { cleanupComplete := false; }
    return Deleted(cleanupComplete);
  }
}
