/**
 How the lifecycle coalesces calls of `reconcile()`: at most one run at a time,
 and a call that arrives during a run asks for one more after it.
 */
module LifecycleCoalescing {

  datatype Coalescer = Coalescer(running: bool, requested: bool, started: nat)

  /** A call of `reconcile()`, or the running promise settling, in whichever way. */
  datatype Signal = Request | Settle

  const FIRST := Coalescer(false, false, 0)

  function Step(c: Coalescer, signal: Signal): Coalescer {
    match signal
    case Request => if c.running then c.(requested := true) else c.(running := true, started := c.started + 1)
    case Settle =>
      if !c.running then c
      else if c.requested then Coalescer(true, false, c.started + 1)
      else c.(running := false)
  }

  function After(signals: seq<Signal>, n: nat): Coalescer
    requires n <= |signals|
  {
    if n == 0 then FIRST else Step(After(signals, n - 1), signals[n - 1])
  }

  lemma {:induction false} ServedOrPending(signals: seq<Signal>, i: nat, n: nat)
    requires i < n <= |signals| && signals[i].Request?
    ensures After(signals, n).started >= After(signals, i).started
    ensures After(signals, n).started > After(signals, i).started || (After(signals, n).running && After(signals, n).requested)
  {
    if n > i + 1 {
      ServedOrPending(signals, i, n - 1);
    }
  }

  /** Whenever the lifecycle is idle, a run has started at or after every call made so far: no call is lost. */
  lemma NoRequestLost(signals: seq<Signal>, i: nat, n: nat)
    requires i < n <= |signals| && signals[i].Request? && !After(signals, n).running
    ensures After(signals, n).started > After(signals, i).started
  {
    ServedOrPending(signals, i, n);
  }

  /** A burst of calls during one run costs one more run, not one each. */
  lemma {:induction false} BurstCostsOneRun(signals: seq<Signal>, i: nat, n: nat)
    requires i <= n <= |signals| && After(signals, i).running
    requires forall k :: i <= k < n ==> signals[k].Request?
    ensures After(signals, n) == if n == i then After(signals, i) else After(signals, i).(requested := true)
  {
    if n > i {
      BurstCostsOneRun(signals, i, n - 1);
    }
  }

  function Requests(signals: seq<Signal>, n: nat): nat
    requires n <= |signals|
  {
    if n == 0 then 0 else Requests(signals, n - 1) + if signals[n - 1].Request? then 1 else 0
  }

  /** No run starts on its own: the runs started and the one still asked for are at most as many as the calls. */
  lemma {:induction false} NoIdleRuns(signals: seq<Signal>, n: nat)
    requires n <= |signals|
    ensures var c := After(signals, n);
            && c.started + (if c.requested then 1 else 0) <= Requests(signals, n)
            && (c.requested ==> c.running)
  {
    if n > 0 {
      NoIdleRuns(signals, n - 1);
    }
  }

  class ViewedReelLifecycle {
    var running: bool
    var requested: bool
    ghost var started: nat

    ghost function State(): Coalescer
      reads this
    {
      Coalescer(running, requested, started)
    }

    constructor ()
      ensures State() == FIRST
    {
      running, requested, started := false, false, 0;
    }

    method Reconcile()
      modifies this
      ensures State() == Step(old(State()), Request)
    {
      if running {
        requested := true;
        return;
      }
      running := true;
      started := started + 1;
    }

    /** The `finally` of the running promise. */
    method RunSettled()
      requires running
      modifies this
      ensures State() == Step(old(State()), Settle)
    {
      running := false;
      if requested {
        requested := false;
        Reconcile();
      }
    }
  }
}
