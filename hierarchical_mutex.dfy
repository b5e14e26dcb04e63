/** `hierarchical_mutex`: a mutex with a level. A thread may lock it only
    while its own current level is strictly higher; locking lowers the
    thread's level to the mutex's and remembers the old one, unlocking
    restores it. Violations raise `std::logic_error`. One thread is
    modelled, with its thread-local level in a `ThreadContext` object; the
    internal `std::mutex` is the `held` flag. */
module HierarchicalMutex {
  import opened Common

  /** What a call ended with: normally, or by throwing `std::logic_error`. */
  datatype Status = Ok | LogicError

  /** The thread-local `this_thread_hierarchy_value`. */
  class ThreadContext {
    var hierarchyValue: u64

    /** Every thread starts at `ULONG_MAX`, above every mutex. */
    constructor ()
      ensures hierarchyValue == U64Max
    {
      hierarchyValue := U64Max;
    }
  }

  class Mutex {
    const hierarchyValue: u64
    var previousHierarchyValue: u64
    var held: bool

    constructor (value: u64)
      ensures hierarchyValue == value && previousHierarchyValue == 0 && !held
    {
      hierarchyValue := value;
      previousHierarchyValue := 0;
      held := false;
    }

    /** `check_for_hierarchy_violation`: the thread must be strictly above
        the mutex. */
    method CheckForHierarchyViolation(t: ThreadContext) returns (status: Status)
      ensures status == LogicError <==> t.hierarchyValue <= hierarchyValue
    {
      if t.hierarchyValue <= hierarchyValue {
        return LogicError;
      }
      return Ok;
    }

    /** `update_hierarchy_value`: remember the thread's level, then take the
        mutex's. */
    method UpdateHierarchyValue(t: ThreadContext)
      modifies this, t
      ensures previousHierarchyValue == old(t.hierarchyValue)
      ensures t.hierarchyValue == hierarchyValue
      ensures held == old(held)
    {
      previousHierarchyValue := t.hierarchyValue;
      t.hierarchyValue := hierarchyValue;
    }

    /** `lock`: a violation throws before the mutex is touched and changes
        nothing; otherwise the mutex is taken (a single thread cannot wait
        for a mutex it holds, so it must be free) and the levels updated. */
    method Lock(t: ThreadContext) returns (status: Status)
      requires t.hierarchyValue > hierarchyValue ==> !held
      modifies this, t
      ensures status == LogicError <==> old(t.hierarchyValue) <= hierarchyValue
      ensures status == LogicError ==> unchanged(this, t)
      ensures status == Ok ==>
                held && previousHierarchyValue == old(t.hierarchyValue) && t.hierarchyValue == hierarchyValue
    {
      status := CheckForHierarchyViolation(t);
      if status == LogicError {
        return;
      }
      held := true;
      UpdateHierarchyValue(t);
    }

    /** `unlock`: throws unless the thread is at the mutex's level (this
        mutex was the last one it locked); otherwise restores the thread's
        previous level and releases the mutex. */
    method Unlock(t: ThreadContext) returns (status: Status)
      requires t.hierarchyValue == hierarchyValue ==> held
      modifies this, t
      ensures status == LogicError <==> old(t.hierarchyValue) != hierarchyValue
      ensures status == LogicError ==> unchanged(this, t)
      ensures status == Ok ==> !held && t.hierarchyValue == old(previousHierarchyValue)
      ensures previousHierarchyValue == old(previousHierarchyValue)
    {
      if t.hierarchyValue != hierarchyValue {
        return LogicError;
      }
      t.hierarchyValue := previousHierarchyValue;
      held := false;
      return Ok;
    }

    /** `try_lock`: the same violation check; a held mutex gives `false`
        without touching the levels; a free one is taken as by `lock`. */
    method TryLock(t: ThreadContext) returns (status: Status, locked: bool)
      modifies this, t
      ensures status == LogicError <==> old(t.hierarchyValue) <= hierarchyValue
      ensures status == LogicError ==> unchanged(this, t) && !locked
      ensures status == Ok && old(held) ==> !locked && unchanged(this, t)
      ensures status == Ok && !old(held) ==>
                locked && held && previousHierarchyValue == old(t.hierarchyValue) && t.hierarchyValue == hierarchyValue
    {
      status := CheckForHierarchyViolation(t);
      if status == LogicError {
        return status, false;
      }
      if held {
        return Ok, false;
      }
      held := true;
      UpdateHierarchyValue(t);
      return Ok, true;
    }
  }

  /** A successful lock followed by an unlock of the same mutex leaves the
      thread at the level it had before and the mutex free. */
  method LockUnlockRestores(m: Mutex, t: ThreadContext)
    requires t.hierarchyValue > m.hierarchyValue && !m.held
    modifies m, t
    ensures t.hierarchyValue == old(t.hierarchyValue) && !m.held
  {
    var s := m.Lock(t);
    s := m.Unlock(t);
  }

  /** The demonstration: one thread locks the 10000 mutex and then the 5000
      one and releases both; then, holding the 6000 mutex, it tries to lock
      the 10000 one, which throws, and the guard of the 6000 mutex releases
      it during unwinding. */
  method Demo() returns (highLevel: Status, lowLevel: Status, other: Status, violation: Status, finalLevel: u64)
    ensures highLevel == Ok && lowLevel == Ok && other == Ok
    ensures violation == LogicError
    ensures finalLevel == U64Max
  {
    var t := new ThreadContext();
    var highLevelMutex := new Mutex(10000);
    var lowLevelMutex := new Mutex(5000);
    var otherMutex := new Mutex(6000);
    // thread_a: high_level_func, which calls low_level_func
    highLevel := highLevelMutex.Lock(t);
    lowLevel := lowLevelMutex.Lock(t);
    var s := lowLevelMutex.Unlock(t);
    s := highLevelMutex.Unlock(t);
    // thread_b: other_mutex, then high_level_func
    other := otherMutex.Lock(t);
    violation := highLevelMutex.Lock(t);
    s := otherMutex.Unlock(t);
    finalLevel := t.hierarchyValue;
  }
}
