/** The bounded counter of permits, and the semaphores of the command groups. */
module Semaphore {

  /** The value of a semaphore. */
  datatype Permits = Permits(capacity: nat, held: nat)

  class Semaphore {
    const capacity: nat
    var held: nat

    ghost predicate Valid()
      reads this
    {
      held <= capacity
    }

    ghost function Value(): Permits
      reads this
    {
      Permits(capacity, held)
    }

    constructor (capacity: nat)
      ensures Valid() && this.capacity == capacity && held == 0
    {
      this.capacity := capacity;
      held := 0;
    }

    method TryAcquire() returns (ok: bool)
      requires Valid()
      modifies this
      ensures Valid()
      ensures ok <==> old(held) < capacity
      ensures held == old(held) + if ok then 1 else 0
    {
      if held < capacity {
        held := held + 1;
        return true;
      }
      return false;
    }

    /** Releasing an empty semaphore panics. */
    method Release() returns (panics: bool)
      requires Valid()
      modifies this
      ensures Valid()
      ensures panics <==> old(held) == 0
      ensures held == old(held) - if panics then 0 else 1
    {
      if held > 0 {
        held := held - 1;
        return false;
      }
      return true;
    }
  }

  datatype Entry = Entry(sem: Semaphore, capacity: nat)

  /** The semaphore of a group once it has been asked for with a maximum. */
  function GroupPermits(semaphores: map<string, Permits>, group: string, maxConcurrentRequests: nat): (p: Permits)
    ensures p.capacity == maxConcurrentRequests
  {
    if group in semaphores && semaphores[group].capacity == maxConcurrentRequests then semaphores[group]
    else Permits(maxConcurrentRequests, 0)
  }

  class SemaphoreFactory {
    var semaphores: map<string, Entry>

    ghost function Objects(): set<object>
      reads this
    {
      set key | key in semaphores :: semaphores[key].sem
    }

    ghost function Value(): (permits: map<string, Permits>)
      reads this, Objects()
      ensures forall key :: key in permits <==> key in semaphores
      ensures forall key :: key in permits ==> permits[key] == semaphores[key].sem.Value()
    {
      map key | key in semaphores :: semaphores[key].sem.Value()
    }

    ghost predicate Valid()
      reads this
    {
      && (forall key :: key in semaphores ==> semaphores[key].sem.capacity == semaphores[key].capacity)
      && (forall a, b :: a in semaphores && b in semaphores && a != b ==> semaphores[a].sem != semaphores[b].sem)
    }

    constructor ()
      ensures Valid() && semaphores == map[]
    {
      semaphores := map[];
    }

    method Install(key: string, maxConcurrentRequests: nat) returns (sem: Semaphore)
      requires Valid()
      modifies this
      ensures Valid() && key in semaphores && sem == semaphores[key].sem && sem.capacity == maxConcurrentRequests
      ensures fresh(sem) && sem.held == 0 && semaphores == old(semaphores)[key := Entry(sem, maxConcurrentRequests)]
      ensures Value() == old(Value())[key := Permits(maxConcurrentRequests, 0)]
    {
      hide Value;
      sem := new Semaphore(maxConcurrentRequests);
      semaphores := semaphores[key := Entry(sem, maxConcurrentRequests)];
    }

    /** A group keeps its semaphore while the maximum asked for stays the same; otherwise
        it gets a new one, and the old one is left to the runs that hold its permits. */
    method Get(key: string, maxConcurrentRequests: nat) returns (sem: Semaphore)
      requires Valid()
      modifies this
      ensures Valid() && key in semaphores && sem == semaphores[key].sem && sem.capacity == maxConcurrentRequests
      ensures if key in old(semaphores) && old(semaphores)[key].capacity == maxConcurrentRequests
              then semaphores == old(semaphores)
              else fresh(sem) && sem.held == 0
                   && semaphores == old(semaphores)[key := Entry(sem, maxConcurrentRequests)]
      ensures Value() == old(Value())[key := GroupPermits(old(Value()), key, maxConcurrentRequests)]
    {
      if key in semaphores && maxConcurrentRequests == semaphores[key].capacity {
        return semaphores[key].sem;
      }
      sem := Install(key, maxConcurrentRequests);
    }
  }
}
