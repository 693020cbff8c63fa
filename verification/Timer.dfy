/** src/utils/timer.ts: a source of promises that resolve at a regular interval. */
module Timer {
  import opened Wrappers

  /** A promise together with its resolver: the first resolution is the one that counts. */
  class Deferred {
    var value: Option<bool>
    ghost var resolutions: nat

    constructor ()
      ensures value == None && resolutions == 0
    {
      value := None;
      resolutions := 0;
    }

    method Resolve(done: bool)
      modifies this
      ensures value == if old(value).None? then Some(done) else old(value)
      ensures resolutions == old(resolutions) + 1
    {
      if value.None? { value := Some(done); }
      resolutions := resolutions + 1;
    }
  }

  class Timer {
    var interval: bool              // `timer`: an interval is set
    var currentPromise: Deferred?
    var currentResolver: Deferred?
    var isCompleted: bool
    ghost var issued: set<Deferred> // every promise handed out

    /** Every promise handed out was resolved at most once, and only the current one,
        which a completed timer does not have, is still unresolved. */
    ghost predicate Valid()
      reads this, issued
    {
      && currentPromise == currentResolver
      && (currentPromise != null ==> currentPromise in issued && currentPromise.value == None && !isCompleted)
      && (forall p :: p in issued ==>
            p.resolutions <= 1 && (p.resolutions == 1 <==> p.value.Some?) && (p.value == None ==> p == currentPromise))
    }

    constructor ()
      ensures Valid() && !interval && !isCompleted && currentPromise == null && issued == {}
    {
      interval, isCompleted := false, false;
      currentPromise, currentResolver := null, null;
      issued := {};
    }

    method Start()
      requires Valid()
      modifies this`interval
      ensures Valid() && interval
    {
      if interval { return; }
      interval := true;
    }

    /** The callback of `setInterval`. */
    method OnInterval()
      requires Valid()
      modifies this, issued
      ensures Valid() && issued == old(issued) && interval == old(interval) && isCompleted == old(isCompleted)
      ensures currentPromise == null
      ensures old(currentPromise) != null ==> old(currentPromise).value == Some(false)
      ensures forall p :: p in issued && p != old(currentPromise) ==> p.value == old(p.value)
    {
      if currentResolver != null {
        currentResolver.Resolve(false);
        currentResolver := null;
        currentPromise := null;
      }
    }

    /** The same promise within one interval, a new one after it, and on a completed timer
        one that is true at once. */
    method NextTimeout() returns (promise: Deferred)
      requires Valid()
      modifies this
      ensures Valid() && interval == old(interval) && isCompleted == old(isCompleted)
      ensures issued == old(issued) + {promise} && fresh(issued - old(issued))
      ensures isCompleted ==> promise.value == Some(true) && currentPromise == null
      ensures !isCompleted ==> promise == currentPromise
      ensures old(currentPromise) != null ==> promise == old(currentPromise)
      ensures old(currentPromise) == null ==> fresh(promise)
    {
      if isCompleted {
        promise := new Deferred();
        promise.Resolve(true);
      } else {
        if currentPromise == null {
          currentPromise := new Deferred();
          currentResolver := currentPromise;
        }
        promise := currentPromise;
      }
      issued := issued + {promise};
    }

    /** Stops the interval and resolves what is pending: afterwards no promise ever handed
        out is unresolved. */
    method Complete()
      requires Valid()
      modifies this, issued
      ensures Valid() && issued == old(issued) && isCompleted && !interval && currentPromise == null
      ensures forall p :: p in issued ==> p.value.Some? && p.resolutions == 1
      ensures old(currentPromise) != null ==> old(currentPromise).value == Some(true)
      ensures forall p :: p in issued && p != old(currentPromise) ==> p.value == old(p.value)
    {
      isCompleted := true;
      if interval { interval := false; }
      var resolver := currentResolver;
      currentResolver := null;
      currentPromise := null;
      if resolver != null {
        resolver.Resolve(true);
      }
    }
  }
}
