/**
 The bounded job scheduler of scripts/run_analysis_worker.py.  Whenever the scheduler
 awaits, any of its jobs may end and the stop signal may arrive.
 */
module AnalysisScheduler {
  import opened Options

  // How one claim ends: the stop signal wins, it fails, there is no job, or a job arrives.
  datatype Claimed = StopWins | ClaimFails | NoJob | Job

  // What happens while the scheduler awaits: jobs end, and the stop signal may arrive.
  datatype Moment = Moment(ended: seq<nat>, stop: bool)

  // One claim: the wait for the slot, the answer, and what happened while it was awaited.
  datatype ClaimEvent = ClaimEvent(before: Moment, claimed: Claimed, during: Moment)

  // One turn of the loop: its claims, and the wait at its end.
  datatype Turn = Turn(claims: nat -> ClaimEvent, idle: Moment)

  function Ending(active: map<nat, bool>, ended: seq<nat>): (after: map<nat, bool>)
    ensures after.Keys == active.Keys
  {
    map t | t in active :: active[t] || t in ended
  }

  lemma EndingSize(active: map<nat, bool>, ended: seq<nat>)
    ensures |Ending(active, ended)| == |active|
  {
    assert |Ending(active, ended).Keys| == |active.Keys|;
  }

  lemma EndingTwice(active: map<nat, bool>, ended: seq<nat>, more: seq<nat>)
    ensures Ending(Ending(active, ended), more) == Ending(active, ended + more)
  {
  }

  // A claim is started only if no stop was seen while waiting for the slot.
  predicate Attempts(e: ClaimEvent) {
    !e.before.stop
  }

  predicate Stops(e: ClaimEvent) {
    e.before.stop || e.during.stop || e.claimed.StopWins?
  }

  predicate StartsJob(e: ClaimEvent) {
    Attempts(e) && e.claimed.Job? && !e.during.stop
  }

  // Nothing to do for now: the claim failed, or there was no job.
  predicate FindsNothing(e: ClaimEvent) {
    Attempts(e) && (e.claimed.ClaimFails? || (e.claimed.NoJob? && !e.during.stop))
  }

  // The last of so many claims of a turn found nothing to do.
  predicate LastFoundNothing(turn: Turn, made: nat) {
    made > 0 && FindsNothing(turn.claims(made - 1))
  }

  // What was so when a claim was started.
  datatype ClaimStart = ClaimStart(live: nat, stopSeen: bool)

  function Running(active: map<nat, bool>): set<nat> {
    set t | t in active && !active[t]
  }

  lemma RunningIsSmaller(active: map<nat, bool>)
    ensures |Running(active)| <= |active|
  {
    assert Running(active) <= active.Keys;
    Larger(Running(active), active.Keys);
  }

  lemma Larger(small: set<nat>, large: set<nat>)
    requires small <= large
    ensures |small| <= |large|
  {
    assert large == small + (large - small);
  }

  class Scheduler {
    const concurrency: nat
    var free: nat

    // The tasks that the scheduler knows, and whether they have ended.
    var active: map<nat, bool>
    var stopping: bool
    var claimAttempts: nat
    var nextTask: nat

    ghost var claims: seq<ClaimStart>

    // For each wait between two rounds of claims, whether the idle time bounds it.
    ghost var idles: seq<bool>

    // Every slot is free, held by a running job, or held by the scheduler itself.
    ghost predicate Valid(held: nat)
      reads this
    {
      && free + |Running(active)| + held == concurrency
      && |active| + held <= concurrency
      && (forall t | t in active :: t < nextTask)
      && |claims| == claimAttempts
      && (forall c | c in claims :: c.live < concurrency && !c.stopSeen)
    }

    constructor (concurrency: nat)
      requires concurrency >= 1
      ensures Valid(0) && this.concurrency == concurrency && claims == [] && idles == [] && active == map[]
    {
      this.concurrency, free, active, stopping := concurrency, concurrency, map[], false;
      claimAttempts, nextTask, claims, idles := 0, 0, [], [];
    }

    // Waits for a job to end or for the stop signal; an idle time bounds the wait if the last
    // claim found nothing to do.
    method WaitForProgress(idle: bool, m: Moment)
      requires Valid(0)
      modifies this`free, this`active, this`stopping, this`idles
      ensures Valid(0) && idles == old(idles) + [idle]
      ensures active == (map t | t in Ending(old(active), m.ended) && !Ending(old(active), m.ended)[t] :: false)
      ensures stopping == (old(stopping) || m.stop)
    {
      idles := idles + [idle];
      Await(m, 0);
      Forget();
    }

    // A job ends and gives its slot back.
    method Finish(task: nat, ghost held: nat)
      requires Valid(held) && task in Running(active)
      modifies this`free, this`active
      ensures Valid(held) && active == old(active)[task := true] && free == old(free) + 1
    {
      ghost var before := active;
      active := active[task := true];
      free := free + 1;
      assert Running(active) == Running(before) - {task} && |Running(before) - {task}| == |Running(before)| - 1;
      assert active.Keys == before.Keys && |active| == |active.Keys|;
      assert |before| == |before.Keys|;
    }

    method SeeStop(ghost held: nat)
      requires Valid(held)
      modifies this`stopping
      ensures Valid(held) && stopping
    {
      stopping := true;
    }

    // The scheduler awaits: jobs end, and the stop signal may arrive.
    method Await(m: Moment, ghost held: nat)
      requires Valid(held)
      modifies this`free, this`active, this`stopping
      ensures Valid(held) && free >= old(free)
      ensures active == Ending(old(active), m.ended) && stopping == (old(stopping) || m.stop)
    {
      hide Valid;
      assert Ending(active, m.ended[..0]) == active;
      for k := 0 to |m.ended|
        invariant Valid(held) && free >= old(free) && stopping == old(stopping)
        invariant active == Ending(old(active), m.ended[..k])
      {
        assert m.ended[..k + 1] == m.ended[..k] + [m.ended[k]];
        if m.ended[k] in Running(active) {
          Finish(m.ended[k], held);
        }
      }
      assert m.ended[..|m.ended|] == m.ended;
      if m.stop {
        SeeStop(held);
      }
    }

    // A free slot is at hand whenever fewer jobs than slots are active.
    lemma SlotIsFree()
      requires Valid(0) && |active| < concurrency
      ensures free > 0
    {
      RunningIsSmaller(active);
    }

    method Acquire()
      requires Valid(0) && |active| < concurrency && free > 0
      modifies this`free
      ensures Valid(1) && free == old(free) - 1
    {
      free := free - 1;
    }

    method Release()
      requires Valid(1)
      modifies this`free
      ensures Valid(0) && free == old(free) + 1
    {
      free := free + 1;
    }

    // The acquired slot passes to the new job.
    method Start()
      requires Valid(1)
      modifies this`active, this`nextTask
      ensures Valid(0) && |active| == |old(active)| + 1 && active == old(active)[old(nextTask) := false]
    {
      ghost var before := active;
      var task := nextTask;
      active := active[task := false];
      nextTask := nextTask + 1;
      assert active.Keys == before.Keys + {task};
      assert Running(active) == Running(before) + {task} && task !in Running(before);
    }

    method Forget()
      requires Valid(0)
      modifies this`active
      ensures Valid(0) && active == map t | t in old(active) && !old(active)[t] :: false
    {
      ghost var before := active;
      active := map t | t in active && !active[t] :: active[t];
      assert Running(active) == Running(before);
      assert active.Keys <= before.Keys;
      Larger(active.Keys, before.Keys);
    }

    predicate LimitReached(maxIterations: Option<nat>)
      reads this`claimAttempts
    {
      maxIterations.Some? && claimAttempts >= maxIterations.value
    }

    // One claim, from taking the slot to starting the job or giving the slot back.
    method ClaimOne(e: ClaimEvent) returns (wait: bool, fill: bool)
      requires Valid(0) && |active| < concurrency && !stopping
      modifies this
      ensures Valid(0) && fill == StartsJob(e) && wait == FindsNothing(e) && idles == old(idles)
      ensures claimAttempts == old(claimAttempts) + (if Attempts(e) then 1 else 0)
      ensures claims == old(claims) + (if Attempts(e) then [ClaimStart(|old(active)|, false)] else [])
      ensures (!fill && !wait ==> stopping) && (fill ==> !wait && |active| == |old(active)| + 1)
      ensures stopping ==> Stops(e)
      ensures var ended := e.before.ended + (if Attempts(e) then e.during.ended else []);
        active == if fill then Ending(old(active), ended)[old(nextTask) := false] else Ending(old(active), ended)
    {
      hide Valid, Running;
      SlotIsFree();
      Acquire();
      Await(e.before, 1);
      if stopping {
        assert e.before.ended + [] == e.before.ended;
        Release();
        return false, false;
      }
      EndingSize(old(active), e.before.ended);
      StartClaim();
      Await(e.during, 1);
      EndingTwice(old(active), e.before.ended, e.during.ended);
      EndingSize(old(active), e.before.ended + e.during.ended);
      if e.claimed.ClaimFails? {
        Release();
        return true, false;
      }
      if e.claimed.StopWins? || stopping {
        Release();
        SeeStop(0);
        return false, false;
      }
      if e.claimed.NoJob? {
        Release();
        return true, false;
      }
      Start();
      return false, true;
    }

    method StartClaim()
      requires Valid(1) && |active| < concurrency && !stopping
      modifies this`claims, this`claimAttempts
      ensures Valid(1) && claimAttempts == old(claimAttempts) + 1
        && claims == old(claims) + [ClaimStart(|active|, false)]
    {
      claims := claims + [ClaimStart(|active|, stopping)];
      claimAttempts := claimAttempts + 1;
    }

    // Fills the free slots, one claim at a time; it goes on until every slot is taken, a stop
    // was seen, the limit is reached, or a claim found nothing to do.
    method Fill(maxIterations: Option<nat>, events: nat -> ClaimEvent) returns (wait: bool, made: nat)
      requires Valid(0)
      modifies this
      ensures Valid(0) && old(claimAttempts) <= claimAttempts <= old(claimAttempts) + made && idles == old(idles)
      ensures maxIterations.Some? && old(claimAttempts) <= maxIterations.value ==> claimAttempts <= maxIterations.value
      ensures !wait ==>
        || |active| >= concurrency || stopping
        || (maxIterations.Some? && claimAttempts >= maxIterations.value)
      ensures wait <==> made > 0 && FindsNothing(events(made - 1))
      ensures forall k | 0 <= k < made - 1 :: StartsJob(events(k))
      ensures !old(stopping) && stopping ==> made > 0 && Stops(events(made - 1))
    {
      hide Valid, StartsJob, FindsNothing, Stops, Ending;
      wait, made := false, 0;
      var fill := true;
      while fill && |active| < concurrency && !stopping && !LimitReached(maxIterations)
        invariant Valid(0) && old(claimAttempts) <= claimAttempts <= old(claimAttempts) + made && idles == old(idles)
        invariant maxIterations.Some? && old(claimAttempts) <= maxIterations.value ==>
          claimAttempts <= maxIterations.value
        invariant fill ==> !wait && forall k | 0 <= k < made :: StartsJob(events(k))
        invariant !fill && !wait ==> stopping
        invariant wait <==> made > 0 && FindsNothing(events(made - 1))
        invariant forall k | 0 <= k < made - 1 :: StartsJob(events(k))
        invariant !old(stopping) && stopping ==> made > 0 && Stops(events(made - 1))
        decreases fill, concurrency - |active|
      {
        wait, fill := ClaimOne(events(made));
        made := made + 1;
      }
    }

    /** The scheduler, for the given turns.  Every claim starts with a free slot and before a
        stop was seen; taking a slot never blocks; it ends early only for a stop or at the
        limit; and when the loop has drained, every slot is free again. */
    method Run(maxIterations: Option<nat>, turns: seq<Turn>) returns (taken: nat, ghost rounds: seq<nat>)
      requires Valid(0) && (maxIterations.Some? ==> claimAttempts <= maxIterations.value)
      modifies this
      ensures Valid(0) && active == map[] && free == concurrency
      ensures maxIterations.Some? ==> claimAttempts <= maxIterations.value
      ensures forall c | c in claims :: c.live < concurrency && !c.stopSeen
      ensures taken <= |turns| && (taken < |turns| ==> stopping || LimitReached(maxIterations))
      ensures |rounds| == taken && old(idles) <= idles && taken <= |idles| - |old(idles)| + 1 <= taken + 1
      ensures forall n | 0 <= n < |idles| - |old(idles)| ::
        idles[|old(idles)| + n] <==> LastFoundNothing(turns[n], rounds[n])
    {
      hide FindsNothing, Running, Ending;
      taken, rounds := 0, [];
      var limited := false;
      while taken < |turns| && !stopping && !limited && !LimitReached(maxIterations)
        invariant Valid(0) && taken <= |turns| && (maxIterations.Some? ==> claimAttempts <= maxIterations.value)
        invariant limited ==> LimitReached(maxIterations)
        invariant |rounds| == taken && old(idles) <= idles
        invariant |idles| == |old(idles)| + if limited then taken - 1 else taken
        invariant limited ==> taken > 0
        invariant forall n | 0 <= n < |idles| - |old(idles)| ::
          idles[|old(idles)| + n] <==> LastFoundNothing(turns[n], rounds[n])
        decreases |turns| - taken
      {
        var wait, made := Fill(maxIterations, turns[taken].claims);
        limited := LimitReached(maxIterations);
        rounds := rounds + [made];
        if !limited {
          WaitForProgress(wait, turns[taken].idle);
        }
        taken := taken + 1;
      }
      Drain();
    }

    // Jobs get the rest of the grace period; the others are cancelled, and every job gives
    // its slot back as it ends.
    method Drain()
      requires Valid(0)
      modifies this`free, this`active, this`stopping
      ensures Valid(0) && active == map[] && free == concurrency && stopping == old(stopping)
    {
      while Running(active) != {}
        invariant Valid(0) && stopping == old(stopping)
        decreases |Running(active)|
      {
        var task :| task in Running(active);
        ghost var before := Running(active);
        ghost var tasks := active;
        Finish(task, 0);
        assert Running(active) == Running(tasks) - {task};
        assert before == Running(active) + {task};
      }
      active := map[];
      assert Running(active) == {};
    }
  }
}
