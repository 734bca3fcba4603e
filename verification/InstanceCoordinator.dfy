/** The registry that lets one mutating operation at a time work on an instance. */
module InstanceCoordinator {
  import opened Results

  datatype InstanceMutation =
    | PackActivation | Create | Validate | Install | Launch | Delete
    | ContentInstall | ContentSetVersion | ContentEnable | ContentDisable | ContentRemove | ContentAdopt
    | WorldRename | WorldDuplicate | WorldDelete | WorldImport | WorldExport | WorldBackup | WorldRestore
    | WorldBackupDelete

  datatype InstanceBusyError = InstanceBusyError(instanceId: string, operation: InstanceMutation)

  /** What `tryAcquire` hands out: the right to release once. */
  class Lease {
    const instanceId: string
    const operation: InstanceMutation
    var released: bool

    constructor (instanceId: string, operation: InstanceMutation)
      ensures this.instanceId == instanceId && this.operation == operation && !released
    {
      this.instanceId := instanceId;
      this.operation := operation;
      released := false;
    }
  }

  class InstanceOperationCoordinator {
    var active: map<string, InstanceMutation>
    /** Every lease handed out so far. */
    ghost var issued: set<Lease>

    /** The active instances are exactly those with a lease that is not released,
        and no instance has two of them. */
    ghost predicate Valid()
      reads this, issued
    {
      && (forall l :: l in issued && !l.released ==> l.instanceId in active && active[l.instanceId] == l.operation)
      && (forall l, m :: l in issued && m in issued && !l.released && !m.released && l.instanceId == m.instanceId ==> l == m)
      && (forall id :: id in active ==> exists l :: l in issued && !l.released && l.instanceId == id)
    }

    constructor ()
      ensures Valid() && active == map[] && issued == {}
    {
      active := map[];
      issued := {};
    }

    predicate IsBusy(instanceId: string) reads this { instanceId in active }

    method TryAcquire(instanceId: string, operation: InstanceMutation) returns (r: Result<Lease, InstanceBusyError>)
      requires Valid()
      modifies this
      ensures Valid()
      ensures r.Failure? <==> old(IsBusy(instanceId))
      ensures r.Failure? ==> r.error == InstanceBusyError(instanceId, operation) && active == old(active) && issued == old(issued)
      ensures r.Success? ==>
        && fresh(r.value) && !r.value.released && r.value.instanceId == instanceId && r.value.operation == operation
        && active == old(active)[instanceId := operation] && issued == old(issued) + {r.value}
    {
      if instanceId in active {
        return Failure(InstanceBusyError(instanceId, operation));
      }
      var lease := new Lease(instanceId, operation);
      active := active[instanceId := operation];
      issued := issued + {lease};
      forall id | id in active ensures exists l :: l in issued && !l.released && l.instanceId == id {
        if id == instanceId {
          assert lease in issued;
        } else {
          var l :| l in old(issued) && !old(l.released) && l.instanceId == id;
          assert l in issued;
        }
      }
      return Success(lease);
    }

    /** Releasing frees the instance the first time and does nothing afterwards, even
        when someone else, or the same kind of operation, holds the instance by then. */
    method Release(lease: Lease)
      requires Valid() && lease in issued
      modifies this, lease
      ensures Valid() && issued == old(issued) && lease.released
      ensures active == if old(lease.released) then old(active) else old(active) - {lease.instanceId}
    {
      if lease.released { return; }
      lease.released := true;
      if lease.instanceId in active && active[lease.instanceId] == lease.operation {
        active := active - {lease.instanceId};
      }
      forall id | id in active ensures exists l :: l in issued && !l.released && l.instanceId == id {
        var l :| l in issued && !old(l.released) && l.instanceId == id;
        assert !l.released;
      }
    }
  }
}
