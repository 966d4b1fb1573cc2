/**
 Which calls the batch driver of app/analysis/character_fact_comparison_pipeline.py makes: in
 front of the first open candidate, about the longest fitting list up to the next split
 point, and again about single candidates that a rejected reply left without a decision.
 */
module CharacterBatchPlan {
  import opened Options
  import opened Sequences
  import opened CharacterProjection
  import opened CharacterComparator
  import opened CharacterBatchReports

  // ----- segments ------------------------------------------------------------------

  ghost predicate FitsMonotone(g: Setting, entries: map<SnapshotRef, Entry>, cursor: nat, limit: nat)
    requires limit <= |g.candidates|
  {
    forall i, j | cursor < i <= j <= limit && g.world.fits(entries, g.candidates[cursor..j]) ::
      g.world.fits(entries, g.candidates[cursor..i])
  }

  ghost predicate NothingLonger(g: Setting, entries: map<SnapshotRef, Entry>, cursor: nat, end: nat, limit: nat)
    requires limit <= |g.candidates| && cursor <= end
  {
    forall j | end < j <= limit :: !g.world.fits(entries, g.candidates[cursor..j])
  }

  // Candidates at..end are what fits in front of the limit: everything if that fits, nothing
  // only if the first candidate does not, and the longest list if fitting is monotone.
  ghost predicate LongestFitting(g: Setting, entries: map<SnapshotRef, Entry>, at: nat, end: nat, limit: nat)
    requires at < limit <= |g.candidates|
  {
    && at <= end <= limit
    && (if end == at then !g.world.fits(entries, [g.candidates[at]]) else g.world.fits(entries, g.candidates[at..end]))
    && (g.world.fits(entries, g.candidates[at..limit]) ==> end == limit)
    && (FitsMonotone(g, entries, at, limit) ==> NothingLonger(g, entries, at, end, limit))
  }

  // A call of several candidates whose reply is cut off is halved: its middle and its end
  // are where segments end from then on.
  ghost predicate SplitPoint(log: seq<Event>, x: nat) {
    exists e :: e in log && SplitsAt(e, x)
  }

  predicate SplitsAt(e: Event, x: nat) {
    e.Asked? && e.kind == Halved && (x == e.at + (e.end - e.at) / 2 || x == e.end)
  }

  // The end of the segment in front of candidate k: the next split point, or the end of the list.
  ghost predicate SegmentEnd(g: Setting, log: seq<Event>, k: nat, end: nat) {
    && k < end <= |g.candidates| && (end == |g.candidates| || SplitPoint(log, end))
    && forall x: nat | k < x < end :: !SplitPoint(log, x)
  }

  // The log has grown by these split points.
  ghost predicate SplitsMore(log: seq<Event>, more: seq<Event>, points: set<nat>) {
    forall x: nat :: SplitPoint(more, x) <==> SplitPoint(log, x) || x in points
  }

  function PointsOf(e: Event): set<nat> {
    if e.Asked? && e.kind == Halved && e.at <= e.end then {e.at + (e.end - e.at) / 2, e.end} else {}
  }

  lemma EventSplits(log: seq<Event>, e: Event)
    requires e.Asked? ==> e.at <= e.end
    ensures SplitsMore(log, log + [e], PointsOf(e))
  {
    forall x: nat ensures SplitPoint(log + [e], x) <==> SplitPoint(log, x) || x in PointsOf(e) {
      if SplitPoint(log, x) {
        var e0 :| e0 in log && SplitsAt(e0, x);
        assert e0 in log + [e];
      }
      if x in PointsOf(e) { assert e in log + [e] && SplitsAt(e, x); }
    }
  }

  lemma SplitsCompose(a: seq<Event>, b: seq<Event>, c: seq<Event>, points: set<nat>)
    requires SplitsMore(a, b, points) && SplitsMore(b, c, {})
    ensures SplitsMore(a, c, points)
  {
    hide SplitPoint;
  }

  // ----- where the driver stands ------------------------------------------------------

  // The first candidate that may still be open after the event.
  function Behind(g: Setting, e: Event): nat {
    match e
    case Asked(_, at, end, kind) => if kind == Halved then at else end
    case TooLong(_, at) => at + 1
    case NoRoom(_, _) => |g.candidates|
  }

  // Candidate k is the first one that the events leave open.
  ghost predicate Frontier(g: Setting, log: seq<Event>, k: nat) {
    && (forall e | e in log :: Behind(g, e) <= k)
    && (k == 0 || exists e :: e in log && Behind(g, e) == k)
  }

  lemma NoFrontier(g: Setting)
    ensures Frontier(g, [], 0)
  {
  }

  lemma FrontierMoves(g: Setting, log: seq<Event>, k: nat, e: Event)
    requires Frontier(g, log, k) && k <= Behind(g, e)
    ensures Frontier(g, log + [e], Behind(g, e))
  {
    assert e in log + [e];
  }

  lemma FrontierStays(g: Setting, log: seq<Event>, k: nat, e: Event)
    requires Frontier(g, log, k) && Behind(g, e) <= k
    ensures Frontier(g, log + [e], k)
  {
    if k != 0 {
      var e0 :| e0 in log && Behind(g, e0) == k;
      assert e0 in log + [e];
    }
  }

  // All retries so far were about candidates in front of k.
  ghost predicate RetriesBefore(log: seq<Event>, k: nat) {
    forall e | e in log && e.Asked? && e.kind == Retry :: e.at < k
  }

  lemma RetriesInFront(g: Setting, log: seq<Event>, k: nat)
    requires Frontier(g, log, k) && forall e | e in log && e.Asked? :: e.at < e.end
    ensures RetriesBefore(log, k)
  {
    forall e | e in log && e.Asked? && e.kind == Retry ensures e.at < k { assert Behind(g, e) <= k; }
  }

  // ----- what justifies an event ------------------------------------------------------

  // What a call of the main loop is to the log: only a list whose reply is cut off is halved.
  function KindOf(g: Setting, s: Snapshot, at: nat, end: nat): CallKind
    requires at <= end <= |g.candidates|
  {
    if end - at >= 2 && Heard(g, s, g.candidates[at..end]).CutOff? then Halved else Whole
  }

  // The main loop deals with candidates at..end, the longest fitting list of the segment in
  // front of the first open candidate.
  ghost predicate MainTurn(g: Setting, s: Snapshot, before: seq<Event>, at: nat, end: nat) {
    && Frontier(g, before, at)
    && exists limit: nat :: SegmentEnd(g, before, at, limit) && LongestFitting(g, s.entries, at, end, limit)
  }

  // The reply to this call of several candidates was rejected and leaves candidate k without
  // a decision.
  ghost predicate LeftBy(g: Setting, initial: Snapshot, rs: seq<Reported>, e: Event, k: nat) {
    && e.Asked? && e.kind == Whole && e.made <= |rs| && e.at <= k < e.end <= |g.candidates| && e.end - e.at >= 2
    && var heard := Heard(g, StateAfter(g, initial, rs, e.made), g.candidates[e.at..e.end]);
       heard.Invalid? && heard.retained[k - e.at].None?
  }

  // Candidate k is retried: a rejected reply left it, and no later one was retried before.
  ghost predicate RetryTurn(g: Setting, initial: Snapshot, rs: seq<Reported>, before: seq<Event>, k: nat) {
    RetriesBefore(before, k) && exists e :: e in before && LeftBy(g, initial, rs, e, k)
  }

  // The last call, for candidate k alone, was too large.
  ghost predicate RetryTooLarge(g: Setting, s: Snapshot, before: seq<Event>, made: nat, k: nat)
    requires k < |g.candidates|
  {
    && before != [] && before[|before| - 1] == Asked(made, k, k + 1, Retry)
    && Heard(g, s, [g.candidates[k]]).Invalid? && Heard(g, s, [g.candidates[k]]).tooLarge
  }

  ghost predicate WellGrounded(g: Setting, initial: Snapshot, rs: seq<Reported>, before: seq<Event>, e: Event) {
    && e.made <= |rs| && e.at < |g.candidates|
    && var s := StateAfter(g, initial, rs, e.made);
       match e
       case Asked(_, at, end, Retry) => end == at + 1 && RetryTurn(g, initial, rs, before, at)
       case Asked(_, at, end, kind) =>
         at < end <= |g.candidates| && kind == KindOf(g, s, at, end) && MainTurn(g, s, before, at, end)
       case TooLong(_, at) => MainTurn(g, s, before, at, at) && !ContextFails(g, s, at)
       case NoRoom(made, at) =>
         ContextFails(g, s, at) && (MainTurn(g, s, before, at, at) || RetryTooLarge(g, s, before, made, at))
  }

  // Each event has its grounds in the state it took place in and in the events before it.
  ghost predicate Planned(g: Setting, initial: Snapshot, rs: seq<Reported>, log: seq<Event>) {
    forall m | 0 <= m < |log| :: WellGrounded(g, initial, rs, log[..m], log[m])
  }

  lemma PlannedMore(g: Setting, initial: Snapshot, rs: seq<Reported>, log: seq<Event>, e: Event)
    requires Planned(g, initial, rs, log) && WellGrounded(g, initial, rs, log, e)
    ensures Planned(g, initial, rs, log + [e])
  {
    hide WellGrounded;
    var more := log + [e];
    forall m | 0 <= m < |more| ensures WellGrounded(g, initial, rs, more[..m], more[m]) {
      assert more[..m] == log[..m];
      assert m == |log| ==> log[..m] == log;
    }
  }

  lemma StillLeft(g: Setting, initial: Snapshot, rs: seq<Reported>, r: Reported, e: Event, k: nat)
    requires LeftBy(g, initial, rs, e, k)
    ensures LeftBy(g, initial, rs + [r], e, k)
  {
    hide Heard, StateAfter;
    StateAfterPrefix(g, initial, rs, r, e.made);
  }

  lemma StillWellGrounded(g: Setting, initial: Snapshot, rs: seq<Reported>, r: Reported, before: seq<Event>, e: Event)
    requires WellGrounded(g, initial, rs, before, e)
    ensures WellGrounded(g, initial, rs + [r], before, e)
  {
    hide LeftBy, StateAfter, MainTurn, RetryTooLarge, ContextFails, KindOf;
    StateAfterPrefix(g, initial, rs, r, e.made);
    if e.Asked? && e.kind == Retry {
      var e0 :| e0 in before && LeftBy(g, initial, rs, e0, e.at);
      StillLeft(g, initial, rs, r, e0, e.at);
    }
  }

  lemma StillPlanned(g: Setting, initial: Snapshot, rs: seq<Reported>, r: Reported, log: seq<Event>)
    requires Planned(g, initial, rs, log)
    ensures Planned(g, initial, rs + [r], log)
  {
    hide WellGrounded;
    forall m | 0 <= m < |log| ensures WellGrounded(g, initial, rs + [r], log[..m], log[m]) {
      StillWellGrounded(g, initial, rs, r, log[..m], log[m]);
    }
  }

  lemma PlannedCalls(g: Setting, initial: Snapshot, rs: seq<Reported>, log: seq<Event>)
    requires Planned(g, initial, rs, log)
    ensures forall e | e in log && e.Asked? :: e.at < e.end
  {
    forall e | e in log && e.Asked? ensures e.at < e.end {
      var m :| 0 <= m < |log| && log[m] == e;
      assert WellGrounded(g, initial, rs, log[..m], log[m]);
    }
  }
}
