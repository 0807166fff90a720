/** The tracker of protected workers and children as an object: one method per locked section, and
    the two loops over its tables. */
module ProtectedOperationsTracker {
  import opened Wrappers
  import Operations

  class Event {
    var isSet: bool

    constructor ()
      ensures !isSet
    {
      isSet := false;
    }
  }

  /** A process handle.  `unreadable` means that polling it raises. */
  class Process {
    var exited: bool
    var unreadable: bool

    constructor ()
    {
    }

    predicate Gone()
      reads this
    {
      exited && !unreadable
    }
  }

  class ProtectedOperations {
    var accepting: bool
    var workers: map<nat, Event?>
    var children: map<nat, Process>

    constructor ()
      ensures accepting && workers == map[] && children == map[]
    {
      accepting, workers, children := true, map[], map[];
    }

    /** Each worker's cancel flag, as the transition system sees it. */
    ghost function Flags(): map<nat, Option<bool>>
      reads this, workers.Values
    {
      map t | t in workers :: if workers[t] == null then None else Some(workers[t].isSet)
    }

    predicate IsIdle()
      reads this
    {
      workers == map[] && children == map[]
    }

    method Enter(ticket: nat, cancellable: bool) returns (admitted: bool, cancelled: Event?)
      requires ticket !in workers
      modifies this`workers
      ensures admitted == accepting
      ensures !admitted ==> workers == old(workers) && cancelled == null
      ensures admitted ==> workers == old(workers)[ticket := cancelled]
      ensures cancelled != null ==> fresh(cancelled) && !cancelled.isSet
      ensures admitted ==> (cancelled != null <==> cancellable)
    {
      cancelled := null;
      if !accepting {
        return false, null;
      }
      if cancellable {
        cancelled := new Event();
      }
      workers := workers[ticket := cancelled];
      return true, cancelled;
    }

    method Leave(ticket: nat)
      requires ticket in workers
      modifies this
      ensures accepting == old(accepting)
      ensures workers == old(workers) - {ticket}
      ensures children == map k | k in old(children) && !old(children)[k].Gone() :: old(children)[k]
    {
      workers := workers - {ticket};
      ReapChildren();
    }

    /** Refuses new workers and cancels every cancellable one that is inside. */
    method CloseAdmission()
      modifies this`accepting, set t | t in workers && workers[t] != null :: workers[t]
      ensures !accepting
      ensures Flags() == Operations.CancelAll(old(Flags()))
      ensures forall t <- workers :: workers[t] != null ==> workers[t].isSet
    {
      accepting := false;
      var pending := workers.Keys;
      while pending != {}
        invariant pending <= workers.Keys && !accepting
        invariant forall t <- workers :: t !in pending && workers[t] != null ==> workers[t].isSet
        decreases pending
      {
        var t :| t in pending;
        var cancelled := workers[t];
        if cancelled != null {
          cancelled.isSet := true;
        }
        pending := pending - {t};
      }
    }

    method OwnChild(key: nat, process: Process)
      modifies this`children
      ensures var owned := old(children)[key := process];
        children == map k | k in owned && !owned[k].Gone() :: owned[k]
    {
      children := children[key := process];
      ReapChildren();
    }

    /** Forgets exactly the children that are known to have exited; one that cannot be polled stays. */
    method ReapChildren()
      modifies this`children
      ensures children == map k | k in old(children) && !old(children)[k].Gone() :: old(children)[k]
    {
      var snapshot := children;
      var pending := snapshot.Keys;
      while pending != {}
        invariant pending <= snapshot.Keys
        invariant children == map k | k in snapshot && (k in pending || !snapshot[k].Gone()) :: snapshot[k]
        decreases pending
      {
        var key :| key in pending;
        var exited := snapshot[key].Gone();
        pending := pending - {key};
        if exited {
          children := children - {key};
        }
      }
    }

    /** Answers whether it saw no worker and no child; `rounds` is how often it may look again. */
    method WaitIdle(rounds: nat) returns (idle: bool)
      modifies this`children
      ensures idle == IsIdle()
      ensures children == map k | k in old(children) && !old(children)[k].Gone() :: old(children)[k]
    {
      var left := rounds;
      ReapChildren();
      while !(workers == map[] && children == map[]) && left > 0
        invariant children == map k | k in old(children) && !old(children)[k].Gone() :: old(children)[k]
        decreases left
      {
        left := left - 1;
        ReapChildren();
      }
      return workers == map[] && children == map[];
    }
  }
}
