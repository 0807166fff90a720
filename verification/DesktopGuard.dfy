/** The named mutex and the desktop host as objects: acquiring, stopping, releasing and retaining the
    guard, as one thread runs them, with what else may happen while it waits. */
module DesktopGuard {
  import opened Wrappers
  import opened ProtectedOperationsTracker

  /** The handles that any process of this user has open on the named mutex. */
  class Kernel {
    var handles: set<nat>

    constructor ()
      ensures handles == {}
    {
      handles := {};
    }

    /** Always opens a handle, and tells whether the name existed before. */
    method CreateMutex(handle: nat) returns (existed: bool)
      requires handle !in handles
      modifies this
      ensures handles == old(handles) + {handle} && existed == (old(handles) != {})
    {
      existed := handles != {};
      handles := handles + {handle};
    }

    method CloseHandle(handle: nat)
      modifies this
      ensures handles == old(handles) - {handle}
    {
      handles := handles - {handle};
    }
  }

  /** Which of the two waits of a stop an interruption breaks, if any. */
  datatype Interruption = Uninterrupted | InJoin | InWait

  datatype AcquireError = LockFailed | AlreadyRunning

  class WindowsInstanceMutex {
    const kernel: Kernel
    var handle: Option<nat>

    constructor (kernel: Kernel)
      ensures this.kernel == kernel && handle.None?
    {
      this.kernel := kernel;
      handle := None;
    }

    /** Succeeds exactly when nobody has the name open; a loser closes its duplicate again. */
    method Acquire(newHandle: nat, fails: bool) returns (error: Option<AcquireError>)
      requires newHandle !in kernel.handles
      modifies this, kernel
      ensures old(handle).Some? ==> error.None? && handle == old(handle) && kernel.handles == old(kernel.handles)
      ensures old(handle).None? ==>
        && (error.None? <==> !fails && old(kernel.handles) == {})
        && (error.None? ==> handle == Some(newHandle) && kernel.handles == {newHandle})
        && (error.Some? ==> handle.None? && kernel.handles == old(kernel.handles))
        && (error == Some(AlreadyRunning) <==> !fails && old(kernel.handles) != {})
    {
      if handle.Some? {
        return None;
      }
      if fails {
        return Some(LockFailed);
      }
      var existed := kernel.CreateMutex(newHandle);
      if existed {
        kernel.CloseHandle(newHandle);
        return Some(AlreadyRunning);
      }
      handle := Some(newHandle);
      return None;
    }

    /** Closes the handle once; a second release does nothing. */
    method Release()
      modifies this, kernel
      ensures handle.None?
      ensures kernel.handles
        == old(kernel.handles) - (if old(handle).Some? then {old(handle).value} else {})
    {
      if handle.Some? {
        kernel.CloseHandle(handle.value);
        handle := None;
      }
    }
  }

  class ServerThread {
    var alive: bool

    constructor ()
      ensures alive
    {
      alive := true;
    }
  }

  class DesktopHost {
    const kernel: Kernel
    const operations: ProtectedOperations
    var stopping: bool
    var url: Option<string>
    var thread: ServerThread?
    var listenerOpen: bool
    var engineOpen: bool
    var instance: WindowsInstanceMutex?
    var guardWaiter: bool

    constructor (kernel: Kernel, operations: ProtectedOperations)
      ensures this.kernel == kernel && this.operations == operations
      ensures !stopping && url.None? && thread == null && instance == null
      ensures !listenerOpen && !engineOpen && !guardWaiter
    {
      this.kernel, this.operations := kernel, operations;
      stopping, url, thread, instance := false, None, null, null;
      listenerOpen, engineOpen, guardWaiter := false, false, false;
    }

    /** An instance that the host refers to is an acquired one. */
    ghost predicate Valid()
      reads this, instance
    {
      instance != null ==> instance.kernel == kernel && instance.handle.Some?
    }

    /** The handle by which this host owns the mutex. */
    ghost function OwnHandle(): set<nat>
      reads this, instance
    {
      if instance != null && instance.handle.Some? then {instance.handle.value} else {}
    }

    predicate ServerRuns()
      reads this, thread
    {
      thread != null && thread.alive
    }

    /** Gives the mutex up, its engine first, unless the server or protected work is alive. */
    method ReleaseInstance() returns (released: bool)
      requires Valid()
      modifies this, operations`children, instance, kernel
      ensures Valid() && operations.accepting == old(operations.accepting)
      ensures stopping == old(stopping) && url == old(url) && thread == old(thread) && listenerOpen == old(listenerOpen)
      ensures guardWaiter == old(guardWaiter)
      ensures released <==> !ServerRuns() && operations.IsIdle()
      ensures old(!ServerRuns() && operations.IsIdle()) ==> released
      ensures released ==> instance == null && !engineOpen && kernel.handles == old(kernel.handles) - old(OwnHandle())
      ensures !released ==>
        instance == old(instance) && engineOpen == old(engineOpen) && kernel.handles == old(kernel.handles)
    {
      if thread != null && thread.alive {
        return false;
      }
      var idle := operations.WaitIdle(0);
      if !idle {
        return false;
      }
      engineOpen := false;
      if instance != null {
        instance.Release();
        instance := null;
      }
      return true;
    }

    /** Starts at most one waiter, and only when there is a guard to retain. */
    method RetainGuard() returns (started: bool)
      modifies this`guardWaiter
      ensures started == (!old(guardWaiter) && instance != null)
      ensures guardWaiter == (old(guardWaiter) || instance != null)
    {
      if guardWaiter || instance == null {
        return false;
      }
      guardWaiter := true;
      return true;
    }

    /** Every child has exited or does so now, and can be polled. */
    ghost predicate ChildrenEnd(exiting: set<Process>)
      reads operations`children, operations.children.Values
    {
      forall k <- operations.children ::
        !operations.children[k].unreadable && (operations.children[k].exited || operations.children[k] in exiting)
    }

    /** The first part of a stop: the host is marked, nobody is admitted any more, and workers are cancelled. */
    method CloseDoors()
      modifies this, operations`accepting
      modifies set t | t in operations.workers && operations.workers[t] != null :: operations.workers[t]
      ensures stopping && url.None? && !operations.accepting
      ensures thread == old(thread) && instance == old(instance) && engineOpen == old(engineOpen)
      ensures listenerOpen == old(listenerOpen) && guardWaiter == old(guardWaiter)
      ensures forall t <- operations.workers :: operations.workers[t] != null ==> operations.workers[t].isSet
    {
      stopping, url := true, None;
      operations.CloseAdmission();
    }

    /** What the rest of the process does while a stop waits: the server may end, workers leave, and
        children exit.  Admission is closed, so nothing is added. */
    method Meanwhile(serverExits: bool, leaving: set<nat>, exiting: set<Process>)
      modifies thread, operations`workers, exiting
      ensures operations.workers == old(operations.workers) - leaving
      ensures operations.workers == map[] <==> old(operations.workers).Keys <= leaving
      ensures thread != null ==> thread.alive == (old(thread.alive) && !serverExits)
      ensures ChildrenEnd({}) <==> old(ChildrenEnd(exiting))
    {
      if thread != null && serverExits {
        thread.alive := false;
      }
      ghost var tickets := operations.workers.Keys;
      operations.workers := operations.workers - leaving;
      assert operations.workers.Keys == tickets - leaving;
      if !(tickets <= leaving) {
        ghost var t :| t in tickets && t !in leaving;
        assert t in operations.workers;
      }
      forall p <- exiting {
        p.exited := true;
      }
      assert forall k <- operations.children ::
        && operations.children[k].unreadable == old(operations.children[k].unreadable)
        && operations.children[k].exited == old(operations.children[k].exited || operations.children[k] in exiting);
    }

    /** The two waits of a stop, for the server and then for protected work: true when both came to their
        end, with nothing left. */
    method AwaitEnd(interruption: Interruption) returns (ended: bool)
      modifies this`thread, operations`children
      ensures ended <==>
        interruption.Uninterrupted? && !old(ServerRuns()) && operations.workers == map[] && old(ChildrenEnd({}))
      ensures ended ==> thread == null && operations.children == map[]
    {
      if interruption.InJoin? {
        return false;
      }
      if thread != null {
        if thread.alive {
          return false;
        }
        thread := null;
      }
      ghost var owned := operations.children;
      var idle := operations.WaitIdle(0);
      if !(forall k <- owned :: owned[k].Gone()) {
        ghost var k :| k in owned && !owned[k].Gone();
        assert k in operations.children;
      }
      return idle && !interruption.InWait?;
    }

    /** The last part of a stop: the mutex is given up if everything ended, and kept with a waiter if not. */
    method Finish(ended: bool) returns (raised: bool)
      requires Valid() && (ended ==> !ServerRuns() && operations.IsIdle())
      modifies this, operations`children, instance, kernel
      ensures Valid() && raised == !ended
      ensures stopping == old(stopping) && url == old(url) && thread == old(thread) && !listenerOpen
      ensures ended ==>
        && instance == null && !engineOpen && operations.IsIdle()
        && kernel.handles == old(kernel.handles) - old(OwnHandle())
      ensures !ended ==>
        && instance == old(instance) && engineOpen == old(engineOpen) && kernel.handles == old(kernel.handles)
        && (instance != null ==> guardWaiter)
    {
      listenerOpen := false;
      if !ended {
        var _ := RetainGuard();
        return true;
      }
      var released := ReleaseInstance();
      return !released;
    }

    /** Stops the host, while the server may end, the workers of `leaving` leave and the children of
        `exiting` exit.  It returns exactly when nothing interrupts it and these are the server, every
        worker and every child that is left; otherwise it keeps the guard, with a waiter. */
    method Stop(serverExits: bool, leaving: set<nat>, exiting: set<Process>, interruption: Interruption)
          returns (raised: bool)
      requires Valid()
      modifies this, operations, exiting
      modifies set t | t in operations.workers && operations.workers[t] != null :: operations.workers[t]
      modifies thread, instance, kernel
      ensures Valid() && stopping && url.None? && !listenerOpen && !operations.accepting
      ensures forall t <- old(operations.workers) ::
        old(operations.workers)[t] != null ==> old(operations.workers)[t].isSet
      ensures operations.workers == old(operations.workers) - leaving
      ensures !raised <==>
        && interruption.Uninterrupted? && (old(ServerRuns()) ==> serverExits)
        && old(operations.workers).Keys <= leaving && old(ChildrenEnd(exiting))
      ensures !raised ==>
        && thread == null && operations.children == map[]
        && instance == null && !engineOpen && kernel.handles == old(kernel.handles) - old(OwnHandle())
      ensures raised ==>
        && instance == old(instance) && engineOpen == old(engineOpen) && kernel.handles == old(kernel.handles)
        && (instance != null ==> guardWaiter)
    {
      CloseDoors();
      Meanwhile(serverExits, leaving, exiting);
      var ended := AwaitEnd(interruption);
      raised := Finish(ended);
    }
  }
}
