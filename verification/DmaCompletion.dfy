/**
 * Whether the hardware can still be at work when its buffers are freed. The driver learns that a
 * launch has finished only from a wait that succeeds; unbinding does not ask.
 */
module DmaCompletion {
  import opened DmaDriver
  import opened DmaSessions
  import opened Options

  // ---------------------------------------------------------------------------------------------
  // Launches and successful waits

  predicate Succeeded(polls: seq<Poll>, n: nat) {
    n <= |polls| && AnyDone(polls[..n])
  }

  predicate AnyDone(polls: seq<Poll>) {
    exists k | 0 <= k < |polls| :: DoneStatus(polls[k]) != 0
  }

  /** This is what WaitDone returns 0 for. */
  lemma SucceededIsDone(polls: seq<Poll>, n: nat)
    requires n <= |polls|
    ensures Succeeded(polls, n) <==> exists k :: 0 <= k < n && polls[k].AllDone()
  {
    hide DoneStatus;
    forall k | 0 <= k < n
      ensures DoneStatus(polls[..n][k]) != 0 <==> polls[k].AllDone()
    {
      StatusMeansDone(polls[k]);
    }
  }

  /** Call i starts the hardware. */
  predicate LaunchesAt(calls: seq<Command>, i: nat)
    requires i < |calls|
  {
    Play(calls[..i]).bound && (StartsBare(calls[i]) || (calls[i].RunCall? && Fits(calls[i].cfg)))
  }

  /** Call i waits for the hardware, after starting it in a RUN, and returns 0. */
  predicate WaitsAt(calls: seq<Command>, i: nat)
    requires i < |calls|
  {
    && Play(calls[..i]).bound
    && match calls[i] {
         case RunCall(cfg, polls) => Fits(cfg) && Succeeded(polls, Polls(cfg))
         case WaitCall(polls) => Succeeded(polls, DEFAULT_TIMEOUT)
         case _ => false
       }
  }

  predicate RemovesAt(calls: seq<Command>, i: nat)
    requires i < |calls|
  {
    Play(calls[..i]).bound && calls[i].RemoveCall?
  }

  // ---------------------------------------------------------------------------------------------
  // The hardware's side

  /** ends[i] is the call during which the launch of call i finishes; past the last call it has not. */
  predicate Consistent(calls: seq<Command>, ends: seq<nat>) {
    && |ends| == |calls|
    && (forall i, j :: 0 <= i <= j < |calls| && LaunchesAt(calls, i) && WaitsAt(calls, j) ==> ends[i] <= j)
  }

  /** Before call n some launch is still unfinished. */
  predicate WorkingAt(calls: seq<Command>, ends: seq<nat>, n: nat)
    requires |ends| == |calls| && n <= |calls|
  {
    exists i | 0 <= i < n :: LaunchesAt(calls, i) && ends[i] >= n
  }

  /** Some remove frees the buffers while a launch is unfinished. */
  predicate FreesUnderWork(calls: seq<Command>, ends: seq<nat>)
    requires |ends| == |calls|
  {
    exists n | 0 <= n < |calls| :: RemovesAt(calls, n) && WorkingAt(calls, ends, n)
  }

  /** Whenever the hardware finishes, as far as the waits allow, no remove frees buffers it works on. */
  ghost predicate SafeToRemove(calls: seq<Command>) {
    forall ends :: Consistent(calls, ends) ==> !FreesUnderWork(calls, ends)
  }

  // ---------------------------------------------------------------------------------------------
  // The driver's side

  /** The last launch, if any, was followed by a wait that succeeded. */
  predicate Answered(calls: seq<Command>)
    decreases |calls|
  {
    calls == [] ||
    var n := |calls| - 1;
    WaitsAt(calls, n) || (!LaunchesAt(calls, n) && Answered(calls[..n]))
  }

  predicate WaitedFor(calls: seq<Command>, i: nat, n: nat)
    requires n <= |calls|
  {
    exists j | i <= j < n :: WaitsAt(calls, j)
  }

  predicate AllWaitedFor(calls: seq<Command>, n: nat)
    requires n <= |calls|
  {
    forall i | 0 <= i < n :: LaunchesAt(calls, i) ==> WaitedFor(calls, i, n)
  }

  lemma Prefix(calls: seq<Command>, n: nat, i: nat)
    requires i < n <= |calls|
    ensures LaunchesAt(calls[..n], i) == LaunchesAt(calls, i) && WaitsAt(calls[..n], i) == WaitsAt(calls, i)
  {
    hide Play;
    assert calls[..n][..i] == calls[..i];
  }

  /** One wait answers every launch before it, so asking for the last one is enough. */
  lemma {:induction false} AnsweredMeansAll(calls: seq<Command>, n: nat)
    requires n <= |calls|
    ensures Answered(calls[..n]) <==> AllWaitedFor(calls, n)
    decreases n
  {
    hide LaunchesAt, WaitsAt;
    if n > 0 {
      Prefix(calls, n, n - 1);
      assert calls[..n][..n - 1] == calls[..n - 1];
      AnsweredMeansAll(calls, n - 1);
      if !WaitsAt(calls, n - 1) {
        forall i | 0 <= i < n - 1
          ensures WaitedFor(calls, i, n) == WaitedFor(calls, i, n - 1)
        {
        }
        assert !WaitedFor(calls, n - 1, n);
        assert LaunchesAt(calls, n - 1) ==> !AllWaitedFor(calls, n);
      }
    }
  }

  /** The first successful wait from call i on, or the number of calls. */
  function FirstWait(calls: seq<Command>, i: nat): (j: nat)
    requires i <= |calls|
    ensures i <= j <= |calls| && (j < |calls| ==> WaitsAt(calls, j))
    ensures forall k | i <= k < j :: !WaitsAt(calls, k)
    decreases |calls| - i
  {
    if i == |calls| || WaitsAt(calls, i) then i else FirstWait(calls, i + 1)
  }

  /** Every launch works until the first wait that proves it finished. */
  function Latest(calls: seq<Command>): seq<nat> {
    seq(|calls|, i requires 0 <= i < |calls| => FirstWait(calls, i))
  }

  lemma LatestConsistent(calls: seq<Command>)
    ensures Consistent(calls, Latest(calls))
  {
    hide LaunchesAt, WaitsAt;
  }

  /** A launch without a successful wait can still be at work. */
  lemma UnansweredWorks(calls: seq<Command>, n: nat)
    requires n <= |calls| && !AllWaitedFor(calls, n)
    ensures WorkingAt(calls, Latest(calls), n)
  {
    hide LaunchesAt, WaitsAt;
    var i :| 0 <= i < n && LaunchesAt(calls, i) && !WaitedFor(calls, i, n);
    assert FirstWait(calls, i) >= n;
    assert Latest(calls)[i] >= n;
  }

  lemma AnsweredRests(calls: seq<Command>, ends: seq<nat>, n: nat)
    requires Consistent(calls, ends) && n <= |calls| && AllWaitedFor(calls, n)
    ensures !WorkingAt(calls, ends, n)
  {
    hide LaunchesAt, WaitsAt;
    forall i | 0 <= i < n && LaunchesAt(calls, i)
      ensures ends[i] < n
    {
      assert WaitedFor(calls, i, n);
    }
  }

  /** Every remove of a bound driver finds the last launch answered. */
  predicate Patient(calls: seq<Command>) {
    forall n | 0 <= n < |calls| :: RemovesAt(calls, n) ==> Answered(calls[..n])
  }

  /**
   * No remove frees buffers under the hardware's work exactly when before every remove the last
   * launch was followed by a wait that returned 0.
   */
  lemma RemoveSafe(calls: seq<Command>)
    ensures SafeToRemove(calls) <==> Patient(calls)
  {
    hide LaunchesAt, WaitsAt, RemovesAt, Answered, AllWaitedFor, WorkingAt;
    LatestConsistent(calls);
    if Patient(calls) {
      forall ends | Consistent(calls, ends)
        ensures !FreesUnderWork(calls, ends)
      {
        Rests(calls, ends);
      }
    } else {
      var n :| 0 <= n < |calls| && RemovesAt(calls, n) && !Answered(calls[..n]);
      AnsweredMeansAll(calls, n);
      UnansweredWorks(calls, n);
      assert |Latest(calls)| == |calls|;
      assert FreesUnderWork(calls, Latest(calls));
    }
  }

  lemma Rests(calls: seq<Command>, ends: seq<nat>)
    requires Patient(calls) && Consistent(calls, ends)
    ensures |ends| == |calls| && !FreesUnderWork(calls, ends)
  {
    hide LaunchesAt, WaitsAt, RemovesAt, Answered, AllWaitedFor, WorkingAt;
    forall n | 0 <= n < |calls| && RemovesAt(calls, n)
      ensures !WorkingAt(calls, ends, n)
    {
      AnsweredMeansAll(calls, n);
      AnsweredRests(calls, ends, n);
    }
  }

  // ---------------------------------------------------------------------------------------------
  // A RUN that times out

  /** The driver is unbound after a RUN that returned -ETIMEDOUT. */
  const TIMED_OUT := [ProbeAt(0), RunCall(SMALL_RUN, NO_ANSWER), RemoveCall]

  lemma TimeoutFreesUnderWork()
    ensures AllPossible(TIMED_OUT) && !SafeToRemove(TIMED_OUT)
  {
    hide Promised;
    ProbePossible(0);
    hide Play, Succeeds, BlocksAt, Possible, DoneStatus;
    assert TIMED_OUT[..0] == [];
    AtReset();
    OneMore(TIMED_OUT, 0);
    OneMore(TIMED_OUT, 1);
    assert TIMED_OUT[..2][..1] == TIMED_OUT[..1];
    RemoveSafe(TIMED_OUT);
    NoneDone();
    assert RemovesAt(TIMED_OUT, 2) && !Answered(TIMED_OUT[..2]);
  }

  lemma AtReset()
    ensures Play([]) == AT_RESET
  {
  }

  lemma NoneDone()
    ensures DoneStatus(NO_ANSWER[0]) == 0
  {
  }
}
