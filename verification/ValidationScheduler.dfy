/**
 The job scheduler of scripts/run_validation_worker.py: slots before claims, failures that
 slow the next claim down, and draining at the end.
 */
module ValidationScheduler {
  import opened Options

  const MAX_BACKOFF_SECONDS := 60.0
  const MAX_EXPONENT: nat := 30

  // ----- the delay after failures ------------------------------------------------------

  function Min(a: real, b: real): real {
    if b < a then b else a
  }

  function Max(a: real, b: real): real {
    if b > a then b else a
  }

  function Doubled(base: real, times: nat): real {
    if times == 0 then base else 2.0 * Doubled(base, times - 1)
  }

  function BackoffSeconds(base: real, failures: nat): real {
    Min(Doubled(base, if failures < MAX_EXPONENT then failures else MAX_EXPONENT), Max(MAX_BACKOFF_SECONDS, base))
  }

  lemma {:induction false} DoubledGrows(base: real, m: nat, n: nat)
    requires base > 0.0 && m <= n
    ensures base <= Doubled(base, m) <= Doubled(base, n)
    decreases n
  {
    if m < n {
      DoubledGrows(base, m, n - 1);
    } else if n > 0 {
      DoubledGrows(base, m - 1, n - 1);
    }
  }

  /** The delay never shrinks as failures add up, is never below the base, and is capped. */
  lemma BackoffIsMonotone(base: real, few: nat, many: nat)
    requires base > 0.0 && few <= many
    ensures base <= BackoffSeconds(base, few) <= BackoffSeconds(base, many) <= Max(MAX_BACKOFF_SECONDS, base)
  {
    DoubledGrows(base, if few < MAX_EXPONENT then few else MAX_EXPONENT, if many < MAX_EXPONENT then many
      else MAX_EXPONENT);
  }

  /** Without a failure the delay is the base; each further one doubles it, up to the cap. */
  lemma BackoffDoubles(base: real, failures: nat)
    requires base > 0.0
    ensures BackoffSeconds(base, 0) == base
    ensures failures < MAX_EXPONENT ==>
      BackoffSeconds(base, failures + 1) == Min(2.0 * BackoffSeconds(base, failures), Max(MAX_BACKOFF_SECONDS, base))
    ensures failures >= MAX_EXPONENT ==> BackoffSeconds(base, failures) == BackoffSeconds(base, MAX_EXPONENT)
  {
    DoubledGrows(base, 0, if failures < MAX_EXPONENT then failures else MAX_EXPONENT);
  }

  // ----- the scheduler ---------------------------------------------------------------------

  // How a job's task ends: well, with a failure of the job, or with something that the
  // scheduler raises itself (cancellation, or an exit request).
  datatype Ending = Succeeded | JobFailed | Fatal

  datatype Claimed = NoJob | Job | ClaimFails | ClaimCancelled

  // What happens while the scheduler awaits: jobs end, and reasons to stop may appear.
  datatype Moment = Moment(endings: seq<Option<Ending>>, stop: bool, close: bool, should: bool)

  // One turn of the loop: a claim, waits for a free slot, and waits for the delay.
  datatype Turn = Turn(claimed: Claimed, claiming: Moment, slots: seq<Moment>, delay: seq<Moment>)

  function Ended(active: seq<Option<Ending>>, endings: seq<Option<Ending>>): (after: seq<Option<Ending>>)
    ensures |after| == |active|
  {
    seq(|active|, i requires 0 <= i < |active| => if active[i].None? && i < |endings| then endings[i] else active[i])
  }

  datatype ClaimStart = ClaimStart(live: nat, stopSeen: bool)

  // A sleep that was asked for, and the failures counted then.
  datatype Delay = Delay(failures: nat, seconds: real)

  // The failures counted after observing the endings in order; a closing worker counts none.
  function FailuresAfter(tasks: seq<Option<Ending>>, failures: nat, closing: bool): nat {
    if tasks == [] then failures
    else
      var before, last := FailuresAfter(tasks[..|tasks| - 1], failures, closing), tasks[|tasks| - 1];
      if last == Some(Succeeded) then 0 else if last == Some(JobFailed) && !closing then before + 1 else before
  }

  lemma FailuresOneMore(tasks: seq<Option<Ending>>, i: nat, failures: nat, closing: bool)
    requires i < |tasks|
    ensures var before := FailuresAfter(tasks[..i], failures, closing);
      FailuresAfter(tasks[..i + 1], failures, closing) ==
        if tasks[i] == Some(Succeeded) then 0
        else if tasks[i] == Some(JobFailed) && !closing then before + 1 else before
  {
    assert tasks[..i + 1][..i] == tasks[..i];
  }

  // The place of the first fatal ending, if there is one; reaping stops there.
  function FirstFatal(tasks: seq<Option<Ending>>): (k: nat)
    ensures k <= |tasks| && (k < |tasks| ==> tasks[k] == Some(Fatal))
    ensures forall i | 0 <= i < k :: tasks[i] != Some(Fatal)
  {
    if tasks == [] || tasks[0] == Some(Fatal) then 0 else 1 + FirstFatal(tasks[1..])
  }

  // The jobs that have not ended, in order.
  function Running(tasks: seq<Option<Ending>>): seq<Option<Ending>> {
    if tasks == [] then []
    else Running(tasks[..|tasks| - 1]) + if tasks[|tasks| - 1].None? then [None] else []
  }

  lemma {:induction false} RunningMembers(tasks: seq<Option<Ending>>)
    ensures |Running(tasks)| <= |tasks| && forall task | task in Running(tasks) :: task.None?
  {
    if tasks != [] { RunningMembers(tasks[..|tasks| - 1]); }
  }

  lemma RunningOneMore(tasks: seq<Option<Ending>>, i: nat)
    requires i < |tasks|
    ensures Running(tasks[..i + 1]) == Running(tasks[..i]) + if tasks[i].None? then [None] else []
  {
    assert tasks[..i + 1][..i] == tasks[..i];
  }

  // What is left of the active jobs by reaping.
  function Reaped(tasks: seq<Option<Ending>>): seq<Option<Ending>> {
    var k := FirstFatal(tasks);
    Running(tasks[..k]) + if k < |tasks| then tasks[k + 1..] else []
  }

  // Reaping in front of task i: what is still active, and what the endings so far have done.
  ghost predicate Reaping(tasks: seq<Option<Ending>>, i: nat, running: seq<Option<Ending>>, active: seq<Option<Ending>>,
                          failures: nat, closed: bool, before: nat, wasClosed: bool, closing: bool)
    requires i <= |tasks|
  {
    && active == running + tasks[i..] && running == Running(tasks[..i]) && |running| <= i
    && failures == FailuresAfter(tasks[..i], before, closing)
    && (closed <==> wasClosed || (closing && Some(JobFailed) in tasks[..i]))
    && Some(Fatal) !in tasks[..i]
  }

  lemma NothingReaped(tasks: seq<Option<Ending>>, failures: nat, closed: bool, closing: bool)
    ensures Reaping(tasks, 0, [], tasks, failures, closed, failures, closed, closing)
  {
  }

  lemma ReapingOneMore(tasks: seq<Option<Ending>>, i: nat, running: seq<Option<Ending>>, active: seq<Option<Ending>>,
                       failures: nat, closed: bool, before: nat, wasClosed: bool, closing: bool)
    requires i < |tasks| && Reaping(tasks, i, running, active, failures, closed, before, wasClosed, closing)
    ensures |active| == |running| + |tasks| - i
    ensures match tasks[i]
      case None => Reaping(tasks, i + 1, running + [None], active, failures, closed, before, wasClosed, closing)
      case Some(Succeeded) =>
        Reaping(tasks, i + 1, running, running + tasks[i + 1..], 0, closed, before, wasClosed, closing)
      case Some(JobFailed) =>
        Reaping(tasks, i + 1, running, running + tasks[i + 1..], if closing then failures else failures + 1,
                closed || closing, before, wasClosed, closing)
      case Some(Fatal) =>
        && tasks[i] in tasks && FirstFatal(tasks) == i && running + tasks[i + 1..] == Reaped(tasks)
        && failures == FailuresAfter(tasks[..i], before, closing)
        && (closed <==> wasClosed || (closing && Some(JobFailed) in tasks[..i]))
  {
    hide FailuresAfter, Running, FirstFatal;
    var task := tasks[i];
    assert tasks[i..] == [task] + tasks[i + 1..] && tasks[..i + 1] == tasks[..i] + [task];
    FailuresOneMore(tasks, i, before, closing);
    RunningOneMore(tasks, i);
    assert running + [] == running;
    if task.None? {
      assert running + tasks[i..] == running + [task] + tasks[i + 1..];
    } else if task.value == Fatal {
      FatalIsFirst(tasks, i);
    }
  }

  lemma ReapingEnds(tasks: seq<Option<Ending>>, running: seq<Option<Ending>>, active: seq<Option<Ending>>,
                    failures: nat, closed: bool, before: nat, wasClosed: bool, closing: bool)
    requires Reaping(tasks, |tasks|, running, active, failures, closed, before, wasClosed, closing)
    ensures active == Reaped(tasks) && FirstFatal(tasks) == |tasks| && Some(Fatal) !in tasks
    ensures failures == FailuresAfter(tasks[..|tasks|], before, closing)
    ensures closed <==> wasClosed || (closing && Some(JobFailed) in tasks[..|tasks|])
    ensures |active| <= |tasks| && forall task | task in active :: task.None?
  {
    hide FailuresAfter, Running, FirstFatal;
    assert tasks[|tasks|..] == [] && running + [] == running && tasks[..|tasks|] == tasks;
    NoneIsFatal(tasks);
    RunningMembers(tasks);
  }

  lemma FatalIsFirst(tasks: seq<Option<Ending>>, i: nat)
    requires i < |tasks| && tasks[i] == Some(Fatal) && Some(Fatal) !in tasks[..i]
    ensures FirstFatal(tasks) == i
  {
    assert forall j | 0 <= j < i :: tasks[..i][j] == tasks[j];
  }

  lemma NoneIsFatal(tasks: seq<Option<Ending>>)
    requires Some(Fatal) !in tasks
    ensures FirstFatal(tasks) == |tasks|
  {
  }

  class JobScheduler {
    const concurrency: nat
    const base: real

    // The jobs in claim order, each with its ending once it has ended.
    var active: seq<Option<Ending>>
    var failures: nat
    var closed: bool

    // The stop event, the worker closing, and an outside reason to stop.
    var stopping: bool
    var closing: bool
    var shouldStop: bool

    ghost var claims: seq<ClaimStart>
    ghost var delays: seq<Delay>

    // How many jobs were started, had their ending observed, and were cancelled; and how
    // many of the observed endings were fatal.
    ghost var started: nat
    ghost var observed: nat
    ghost var cancelled: nat
    ghost var fatal: nat

    ghost predicate Valid()
      reads this
    {
      && concurrency >= 1 && |active| <= concurrency && base > 0.0
      && (forall c | c in claims :: c.live < concurrency && !c.stopSeen)
      && (forall d | d in delays :: d.seconds == BackoffSeconds(base, d.failures))
      && started == observed + cancelled + |active|
    }

    constructor (concurrency: nat, pollSeconds: Option<real>)
      requires concurrency >= 1
      ensures Valid() && active == [] && claims == [] && delays == [] && this.concurrency == concurrency
      ensures started == observed == cancelled == fatal == 0
    {
      this.concurrency := concurrency;
      base := if pollSeconds.Some? && pollSeconds.value > 0.0 then pollSeconds.value else 1.0;
      active, failures, closed, stopping, closing, shouldStop, claims := [], 0, false, false, false, false, [];
      delays, started, observed, cancelled, fatal := [], 0, 0, 0, 0;
    }

    predicate StopRequested()
      reads this
    {
      closed || closing || stopping || shouldStop
    }

    // The scheduler awaits: jobs end, and reasons to stop may appear.
    method Await(m: Moment)
      requires Valid()
      modifies this`active, this`stopping, this`closing, this`shouldStop
      ensures Valid() && active == Ended(old(active), m.endings)
      ensures stopping == (old(stopping) || m.stop) && closing == (old(closing) || m.close)
        && shouldStop == (old(shouldStop) || m.should)
    {
      for i := 0 to |active|
        invariant Valid() && |active| == |old(active)|
        invariant forall j | 0 <= j < |active| ::
          active[j] == if j < i then Ended(old(active), m.endings)[j] else old(active)[j]
        invariant stopping == old(stopping) && closing == old(closing) && shouldStop == old(shouldStop)
      {
        if active[i].None? && i < |m.endings| {
          active := active[i := m.endings[i]];
        }
      }
      stopping, closing, shouldStop := stopping || m.stop, closing || m.close, shouldStop || m.should;
    }

    // A failure slows claiming down, unless the worker is closing: then it ends the loop.
    method Failed()
      modifies this`failures, this`closed
      ensures if closing then closed && failures == old(failures)
        else closed == old(closed) && failures == old(failures) + 1
    {
      if closing {
        closed := true;
        return;
      }
      failures := failures + 1;
    }

    // Takes an ended job out; the others stay active.
    method Observe(ending: Ending, others: seq<Option<Ending>>) returns (raised: bool)
      requires Valid() && |active| == |others| + 1
      modifies this`active, this`failures, this`closed, this`observed, this`fatal
      ensures Valid() && active == others && raised == ending.Fatal?
      ensures fatal == old(fatal) + if raised then 1 else 0
      ensures failures == match ending
        case Succeeded => 0
        case JobFailed => if closing then old(failures) else old(failures) + 1
        case Fatal => old(failures)
      ensures closed == (old(closed) || (closing && ending.JobFailed?))
    {
      active, observed, raised := others, observed + 1, false;
      match ending {
        case Succeeded => failures := 0;
        case JobFailed => Failed();
        case Fatal => fatal, raised := fatal + 1, true;
      }
    }

    /** Reaping observes the ended jobs in claim order: a success clears the failures, a
        failure adds one or, with the worker closing, ends the loop, and the first fatal
        ending is raised at once. */
    method Reap() returns (raised: bool)
      requires Valid()
      modifies this`active, this`failures, this`closed, this`observed, this`fatal
      ensures Valid() && active == Reaped(old(active)) && (raised <==> Some(Fatal) in old(active))
      ensures fatal == old(fatal) + if raised then 1 else 0
      ensures var seen := old(active)[..FirstFatal(old(active))];
        && failures == FailuresAfter(seen, old(failures), closing)
        && (closed <==> old(closed) || (closing && Some(JobFailed) in seen))
      ensures |active| <= |old(active)| && (!raised ==> forall task | task in active :: task.None?)
    {
      hide Valid, FailuresAfter, Running, FirstFatal, Reaped, Reaping;
      var tasks := active;
      var running: seq<Option<Ending>> := [];
      NothingReaped(tasks, failures, closed, closing);
      for i := 0 to |tasks|
        invariant Valid() && fatal == old(fatal) && |active| == |running| + |tasks| - i && |running| <= i
        invariant Reaping(tasks, i, running, active, failures, closed, old(failures), old(closed), closing)
      {
        ReapingOneMore(tasks, i, running, active, failures, closed, old(failures), old(closed), closing);
        if tasks[i].None? {
          running := running + [tasks[i]];
        } else {
          raised := Observe(tasks[i].value, running + tasks[i + 1..]);
          if raised { return; }
        }
      }
      ReapingEnds(tasks, running, active, failures, closed, old(failures), old(closed), closing);
      raised := false;
    }

    // One claim; the job it returns starts at once.
    method Claim(claimed: Claimed, m: Moment) returns (raised: bool)
      requires Valid() && |active| < concurrency && !StopRequested()
      modifies this
      ensures Valid() && claims == old(claims) + [ClaimStart(|old(active)|, false)] && raised == claimed.ClaimCancelled?
      ensures active == Ended(old(active), m.endings) + (if claimed.Job? then [None] else [])
      ensures match claimed
        case NoJob => failures == 0 && !closed
        case ClaimFails => if closing then closed && failures == old(failures)
          else !closed && failures == old(failures) + 1
        case _ => failures == old(failures) && !closed
      ensures stopping == m.stop && closing == m.close && shouldStop == m.should
      ensures started == old(started) + (if claimed.Job? then 1 else 0)
      ensures observed == old(observed) && cancelled == old(cancelled) && fatal == old(fatal) && delays == old(delays)
    {
      claims := claims + [ClaimStart(|active|, StopRequested())];
      Await(m);
      assert active + [] == active;
      if claimed.ClaimCancelled? {
        return true;
      }
      if claimed.ClaimFails? {
        Failed();
      } else if claimed.NoJob? {
        failures := 0;
      } else {
        active, started := active + [None], started + 1;
      }
      raised := false;
    }

    // Waits while every slot is taken, for as long as the given moments last.
    method WaitForFreeSlot(moments: seq<Moment>) returns (raised: bool, used: nat)
      requires Valid()
      modifies this`active, this`failures, this`closed, this`stopping, this`closing, this`shouldStop, this`observed,
        this`fatal
      ensures Valid() && used <= |moments| && |active| <= |old(active)| && fatal == old(fatal) + if raised then 1 else 0
      ensures !raised ==> forall task | task in active :: task.None?
      ensures !raised && used < |moments| ==> |active| < concurrency || closed || stopping
      ensures old(stopping) ==> stopping && used == 0
    {
      raised := Reap();
      used := 0;
      while !raised && |active| >= concurrency && !closed && !stopping && used < |moments|
        invariant Valid() && used <= |moments| && |active| <= |old(active)|
        invariant fatal == old(fatal) + if raised then 1 else 0
        invariant !raised ==> forall task | task in active :: task.None?
        invariant old(stopping) ==> stopping && used == 0
        decreases |moments| - used
      {
        Await(moments[used]);
        raised := Reap();
        used := used + 1;
      }
    }

    // The delay before the next claim.
    method NextDelay() returns (seconds: real)
      requires Valid()
      ensures seconds == BackoffSeconds(base, failures)
    {
      BackoffDoubles(base, failures);
      if failures == 0 {
        return base;
      }
      seconds := BackoffSeconds(base, failures);
    }

    // Sleeps while jobs keep running, for as long as the given moments last.
    method Sleep(seconds: real, moments: seq<Moment>) returns (raised: bool, used: nat)
      requires Valid() && seconds == BackoffSeconds(base, failures)
      modifies this`active, this`failures, this`closed, this`stopping, this`closing, this`shouldStop, this`observed,
        this`fatal, this`delays
      ensures delays == old(delays) + if old(stopping) then [] else [Delay(old(failures), seconds)]
      ensures Valid() && |active| <= |old(active)| && (old(stopping) ==> stopping && used == 0)
        && (old(closed) ==> closed)
      ensures used <= |moments| && (!raised && used < |moments| ==> closed || stopping)
      ensures fatal == old(fatal) + if raised then 1 else 0
    {
      raised, used := false, 0;
      if !stopping {
        delays := delays + [Delay(failures, seconds)];
      }
      ghost var asked := delays;
      while !raised && !stopping && !closed && used < |moments|
        invariant delays == asked
        invariant Valid() && |active| <= |old(active)| && (old(stopping) ==> stopping && used == 0)
          && (old(closed) ==> closed)
        invariant used <= |moments| && fatal == old(fatal) + if raised then 1 else 0
        decreases |moments| - used
      {
        Await(moments[used]);
        raised := Reap();
        used := used + 1;
      }
    }

    // Cancels the jobs that are active.
    method CancelActive()
      requires Valid()
      modifies this`active, this`cancelled
      ensures Valid() && active == [] && cancelled == old(cancelled) + |old(active)|
    {
      active, cancelled := [], cancelled + |active|;
    }

    /** Draining: ended jobs are observed until none is left or the grace period, which lasts
        as long as the given moments, is over; only then are jobs cancelled, and only such as are
        still running.  Exactly a fatal ending that is observed meanwhile is raised. */
    method Drain(moments: seq<Moment>) returns (raised: bool, used: nat)
      requires Valid() && moments != []
      modifies this`active, this`failures, this`closed, this`stopping, this`closing, this`shouldStop, this`observed,
        this`cancelled, this`fatal
      ensures Valid() && started == old(started) && fatal == old(fatal) + if raised then 1 else 0
      ensures !raised ==> active == []
      ensures cancelled > old(cancelled) ==> !raised && used == |moments|
      ensures old(StopRequested()) ==> StopRequested()
    {
      raised, used := false, 0;
      while !raised && active != [] && used < |moments|
        invariant Valid() && used <= |moments| && cancelled == old(cancelled)
        invariant fatal == old(fatal) + if raised then 1 else 0
        invariant !raised && used > 0 ==> forall task | task in active :: task.None?
        invariant old(StopRequested()) ==> StopRequested()
        decreases |moments| - used
      {
        Await(moments[used]);
        raised := Reap();
        used := used + 1;
      }
      if !raised && active != [] {
        assert forall task | task in active :: task.None?;
        CancelActive();
      }
    }

    /** The loop, for the given turns, and the drain.  Jobs never exceed the concurrency, and
        every claim starts with a free slot and before any reason to stop was seen; between
        two claims the loop asks for one delay, as long as the failures demand.  Every
        job that was started has its ending observed or is cancelled, unless the given turns
        are over before the loop is.  The loop raises exactly a cancelled claim or the first
        fatal ending that is observed, even while draining. */
    method Run(turns: seq<Turn>, grace: seq<Moment>) returns (taken: nat, raised: bool, unfinished: bool)
      requires Valid() && active == [] && grace != []
      modifies this
      ensures Valid() && forall c | c in claims :: c.live < concurrency && !c.stopSeen
      ensures |claims| == |old(claims)| + taken && taken <= |turns|
      ensures |old(delays)| + taken <= |delays| + 1 && |delays| <= |old(delays)| + taken
      ensures forall d | d in delays :: d.seconds == BackoffSeconds(base, d.failures)
      ensures unfinished || (active == [] && started == observed + cancelled)
      ensures !unfinished ==> raised || StopRequested()
      ensures raised <==>
        fatal == old(fatal) + 1 || (taken > 0 && turns[taken - 1].claimed.ClaimCancelled?)
      ensures !raised ==> fatal == old(fatal)
      ensures !raised && unfinished ==> taken == |turns| || |active| == concurrency
    {
      taken, raised, unfinished := 0, false, false;
      while taken < |turns| && !raised && !unfinished && !StopRequested()
        invariant Valid() && (!raised && !unfinished ==> |active| < concurrency || closed || stopping)
        invariant |claims| == |old(claims)| + taken && taken <= |turns|
        invariant |old(delays)| + taken <= |delays| + 1 && |delays| <= |old(delays)| + taken
        invariant |delays| < |old(delays)| + taken ==> raised || unfinished || closed || stopping
        invariant unfinished ==> !raised && |active| == concurrency
        invariant raised <==> fatal == old(fatal) + 1 || (taken > 0 && turns[taken - 1].claimed.ClaimCancelled?)
        invariant !raised ==> fatal == old(fatal)
        decreases |turns| - taken
      {
        var turn, used := turns[taken], 0;
        raised := Claim(turn.claimed, turn.claiming);
        taken := taken + 1;
        if !raised && !closed {
          raised, used := WaitForFreeSlot(turn.slots);
          // The moments ran out while every slot was taken.
          unfinished := !raised && |active| >= concurrency && !closed && !stopping;
        }
        if !raised && !unfinished && !closed {
          var seconds := NextDelay();
          raised, used := Sleep(seconds, turn.delay);
        }
      }
      if unfinished {
        return;
      }
      if !raised {
        if !StopRequested() {
          // The given turns are over, the loop is not.
          unfinished := true;
          return;
        }
        var used;
        raised, used := Drain(grace);
      }
      if raised {
        CancelActive();
      }
    }
  }
}
