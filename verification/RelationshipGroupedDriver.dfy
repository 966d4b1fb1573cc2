/**
 The driver of app/analysis/relationship_grouped_comparator.py: planning batches of
 pair groups, one repair call for each batch, and the final combined validation.
 */
module RelationshipGroupedDriver {
  import opened Options
  import opened RelationshipValidation
  import opened Sequences
  import opened RelationshipGrouped

  const MAX_BATCHES := 16
  const MAX_GROUPS_PER_BATCH := 24
  const PLANNED_OUTPUT_TOKENS_PER_GROUP := 512
  const MAX_OBSERVATIONS := 384

  // ----- planning -----------------------------------------------------------------

  // The output tokens of one call, and which requests fit the input limit.
  datatype Limits = Limits(outputTokens: nat, fitsInput: seq<nat> -> bool)

  function GroupLimit(outputTokens: nat): nat {
    var planned := outputTokens * 4 / 5 / PLANNED_OUTPUT_TOKENS_PER_GROUP;
    if planned < 1 then 1 else if planned > MAX_GROUPS_PER_BATCH then MAX_GROUPS_PER_BATCH else planned
  }

  predicate Fits(ids: seq<nat>, limits: Limits) {
    |ids| <= GroupLimit(limits.outputTokens) && limits.fitsInput(ids)
  }

  /** A request fits exactly if the input limit admits it and it is for one group, or for at
      most 24 that leave a fifth of the output tokens. */
  lemma FitsMeans(ids: seq<nat>, limits: Limits)
    ensures Fits(ids, limits) <==>
      limits.fitsInput(ids) && (|ids| <= 1 || (|ids| <= 24 && 5 * (512 * |ids|) <= 4 * limits.outputTokens))
  {
    var tokens := limits.outputTokens * 4;
    assert |ids| <= tokens / 5 / 512 <==> 512 * |ids| <= tokens / 5;
    assert 512 * |ids| <= tokens / 5 <==> 5 * (512 * |ids|) <= tokens;
  }

  // The plan: a group that does not fit alone is passed over, the others are packed in
  // order, and a batch is closed by the first group that does not fit beside it.
  function Packed(ids: seq<nat>, limits: Limits, pending: seq<nat>): seq<seq<nat>> {
    if ids == [] then if pending == [] then [] else [pending]
    else if !Fits([ids[0]], limits) then Packed(ids[1..], limits, pending)
    else if pending != [] && !Fits(pending + [ids[0]], limits) then [pending] + Packed(ids[1..], limits, [ids[0]])
    else Packed(ids[1..], limits, pending + [ids[0]])
  }

  // The groups that fit alone, and those that do not.
  function Fitting(ids: seq<nat>, limits: Limits): seq<nat> {
    if ids == [] then [] else (if Fits([ids[0]], limits) then [ids[0]] else []) + Fitting(ids[1..], limits)
  }

  function Misfits(ids: seq<nat>, limits: Limits): seq<nat> {
    if ids == [] then [] else (if Fits([ids[0]], limits) then [] else [ids[0]]) + Misfits(ids[1..], limits)
  }

  lemma PackedUnfolds(ids: seq<nat>, limits: Limits, pending: seq<nat>)
    ensures Packed(ids, limits, pending) ==
      if ids == [] then if pending == [] then [] else [pending]
      else if !Fits([ids[0]], limits) then Packed(ids[1..], limits, pending)
      else if pending != [] && !Fits(pending + [ids[0]], limits) then [pending] + Packed(ids[1..], limits, [ids[0]])
      else Packed(ids[1..], limits, pending + [ids[0]])
    ensures Misfits(ids, limits) ==
      if ids == [] then [] else (if Fits([ids[0]], limits) then [] else [ids[0]]) + Misfits(ids[1..], limits)
  {
    hide Fits;
  }

  lemma {:induction false} FittingOrNot(ids: seq<nat>, limits: Limits)
    ensures multiset(Fitting(ids, limits)) + multiset(Misfits(ids, limits)) == multiset(ids)
    ensures forall id | id in Misfits(ids, limits) :: !Fits([id], limits)
  {
    hide Fits;
    if ids != [] {
      FittingOrNot(ids[1..], limits);
      assert ids == [ids[0]] + ids[1..];
    }
  }

  /** The batches together are the groups that fit, in the order of the groups. */
  lemma {:induction false} PackingKeepsOrder(ids: seq<nat>, limits: Limits, pending: seq<nat>)
    ensures Flatten(Packed(ids, limits, pending)) == pending + Fitting(ids, limits)
    decreases |ids|
  {
    hide Fits;
    if ids == [] {
    } else if !Fits([ids[0]], limits) {
      PackingKeepsOrder(ids[1..], limits, pending);
    } else if pending != [] && !Fits(pending + [ids[0]], limits) {
      PackingKeepsOrder(ids[1..], limits, [ids[0]]);
    } else {
      PackingKeepsOrder(ids[1..], limits, pending + [ids[0]]);
      assert pending + [ids[0]] + Fitting(ids[1..], limits) == pending + ([ids[0]] + Fitting(ids[1..], limits));
    }
  }

  // Batches that fit, none of which had room for the first group of the next.
  ghost predicate Tight(batches: seq<seq<nat>>, limits: Limits) {
    && (forall k | 0 <= k < |batches| :: batches[k] != [] && Fits(batches[k], limits))
    && (forall k | 0 < k < |batches| :: !Fits(batches[k - 1] + [batches[k][0]], limits))
  }

  lemma TightOneMore(batch: seq<nat>, batches: seq<seq<nat>>, limits: Limits)
    requires Tight(batches, limits) && batch != [] && Fits(batch, limits)
    requires batches != [] && !Fits(batch + [batches[0][0]], limits)
    ensures Tight([batch] + batches, limits)
  {
    hide Fits;
  }

  /** No batch could have taken the first group of the next one, so none is closed early. */
  lemma {:induction false} PackingIsTight(ids: seq<nat>, limits: Limits, pending: seq<nat>)
    requires pending != [] ==> Fits(pending, limits)
    ensures Tight(Packed(ids, limits, pending), limits)
    ensures pending != [] ==> Packed(ids, limits, pending) != [] && pending <= Packed(ids, limits, pending)[0]
    decreases |ids|
  {
    hide Fits, Tight;
    if ids == [] {
      SingleIsTight(pending, limits);
    } else if !Fits([ids[0]], limits) {
      PackingIsTight(ids[1..], limits, pending);
    } else if pending != [] && !Fits(pending + [ids[0]], limits) {
      PackingIsTight(ids[1..], limits, [ids[0]]);
      TightOneMore(pending, Packed(ids[1..], limits, [ids[0]]), limits);
    } else {
      assert [] + [ids[0]] == [ids[0]];
      PackingIsTight(ids[1..], limits, pending + [ids[0]]);
    }
  }

  lemma SingleIsTight(pending: seq<nat>, limits: Limits)
    requires pending != [] ==> Fits(pending, limits)
    ensures Tight([], limits) && (pending != [] ==> Tight([pending], limits))
  {
  }

  // Only sixteen batches are sent; the groups of the others are given up.
  function Sent(batches: seq<seq<nat>>): seq<seq<nat>> {
    if |batches| <= MAX_BATCHES then batches else batches[..MAX_BATCHES]
  }

  function Unsent(batches: seq<seq<nat>>): seq<seq<nat>> {
    if |batches| <= MAX_BATCHES then [] else batches[MAX_BATCHES..]
  }

  /** Planning loses no group and plans none twice.  A group is given up only if it
      does not fit alone, or all sixteen batches are in use. */
  method Plan(available: seq<nat>, limits: Limits) returns (batches: seq<seq<nat>>, oversized: seq<nat>)
    ensures batches == Sent(Packed(available, limits, []))
    ensures oversized == Misfits(available, limits) + Flatten(Unsent(Packed(available, limits, [])))
    ensures multiset(Flatten(batches)) + multiset(oversized) == multiset(available)
    ensures |batches| <= MAX_BATCHES && Tight(batches, limits)
    ensures forall id | id in oversized :: !Fits([id], limits) || |batches| == MAX_BATCHES
  {
    hide Fits, Flatten, Tight, Packed, Misfits, Sent, Unsent;
    var all: seq<seq<nat>> := [];
    var pending: seq<nat> := [];
    oversized := [];
    for i := 0 to |available|
      invariant all + Packed(available[i..], limits, pending) == Packed(available, limits, [])
      invariant oversized + Misfits(available[i..], limits) == Misfits(available, limits)
    {
      var id := available[i];
      assert available[i..][0] == id && available[i..][1..] == available[i + 1..];
      PackedUnfolds(available[i..], limits, pending);
      if !Fits([id], limits) {
        oversized := oversized + [id];
      } else {
        if pending != [] && !Fits(pending + [id], limits) {
          all, pending := all + [pending], [];
        }
        assert [] + [id] == [id];
        pending := pending + [id];
      }
    }
    assert available[|available|..] == [];
    PackedUnfolds([], limits, pending);
    if pending != [] {
      all := all + [pending];
    }
    assert all == Packed(available, limits, []) && oversized == Misfits(available, limits);
    PlannedOnce(available, limits);
    return Sent(all), oversized + Flatten(Unsent(all));
  }

  lemma PlannedOnce(available: seq<nat>, limits: Limits)
    ensures var all := Packed(available, limits, []);
      var oversized := Misfits(available, limits) + Flatten(Unsent(all));
      && multiset(Flatten(Sent(all))) + multiset(oversized) == multiset(available)
      && |Sent(all)| <= MAX_BATCHES && Tight(Sent(all), limits)
      && forall id | id in oversized :: !Fits([id], limits) || |Sent(all)| == MAX_BATCHES
  {
    hide Fits, Packed, Misfits, Fitting, Flatten, Tight;
    var all := Packed(available, limits, []);
    PackingKeepsOrder(available, limits, []);
    assert [] + Fitting(available, limits) == Fitting(available, limits);
    PackingIsTight(available, limits, []);
    FirstAreTight(all, limits);
    FittingOrNot(available, limits);
    FlattenConcat(Sent(all), Unsent(all));
    assert Sent(all) + Unsent(all) == all;
    FlattenUnfolds(Unsent(all));
  }

  lemma FirstAreTight(batches: seq<seq<nat>>, limits: Limits)
    requires Tight(batches, limits)
    ensures Tight(Sent(batches), limits)
  {
    hide Fits;
  }

  // The reply to a request for some groups, the first time or as a repair.  No two batches
  // share a group, so a function covers every provider.
  type Provider = (seq<nat>, bool) -> RawReply

  // ----- one batch and its repair -----------------------------------------------------

  function Chosen(ids: seq<nat>, keys: set<nat>): seq<nat> {
    if ids == [] then [] else (if ids[0] in keys then [ids[0]] else []) + Chosen(ids[1..], keys)
  }

  lemma {:induction false} ChosenMembers(ids: seq<nat>, keys: set<nat>)
    ensures forall id :: id in Chosen(ids, keys) <==> id in ids && id in keys
    ensures Distinct(ids) ==> Distinct(Chosen(ids, keys))
  {
    if ids != [] {
      ChosenMembers(ids[1..], keys);
      assert ids == [ids[0]] + ids[1..];
      if Distinct(ids) {
        assert ids[0] !in ids[1..];
        assert Distinct(ids[1..]);
      }
    }
  }

  datatype Failed = Failed(id: nat, reason: FailureReason)

  function Ids(failed: seq<Failed>): seq<nat> {
    seq(|failed|, k requires 0 <= k < |failed| => failed[k].id)
  }

  // The groups are split into answered ones and failed ones, each group once.
  ghost predicate Settled(accepted: map<nat, seq<Decision>>, failed: seq<Failed>, ids: set<nat>) {
    && Distinct(Ids(failed))
    && (forall id :: id in ids <==> id in accepted || id in Ids(failed))
    && (forall id :: !(id in accepted && id in Ids(failed)))
  }

  lemma ChosenDistinct(ids: seq<nat>, keys: set<nat>)
    requires Distinct(ids)
    ensures Distinct(Chosen(ids, keys)) && SetOf(Chosen(ids, keys)) == SetOf(ids) * keys
  {
    ChosenMembers(ids, keys);
  }

  // The failures of a call, in the order of the request.
  function FailuresOf(ids: seq<nat>, invalid: map<nat, FailureReason>): (failed: seq<Failed>)
    ensures Ids(failed) == Chosen(ids, invalid.Keys)
  {
    if ids == [] then []
    else (if ids[0] in invalid then [Failed(ids[0], invalid[ids[0]])] else []) + FailuresOf(ids[1..], invalid)
  }

  // The decisions are the expansion of the one item of the reply that names the group.
  ghost predicate Supplied(id: nat, ds: seq<Decision>, reply: RawReply, c: Context, groups: seq<Group>) {
    id < |groups| && reply.Envelope? && exists rows ::
      OnlyItem(reply.items, id, Some(rows)) && Expands(rows, groups[id], c, ds)
  }

  lemma {:induction false} FailuresHaveReasons(ids: seq<nat>, invalid: map<nat, FailureReason>)
    ensures forall f | f in FailuresOf(ids, invalid) :: f.id in ids && f.id in invalid && f.reason == invalid[f.id]
  {
    if ids != [] {
      FailuresHaveReasons(ids[1..], invalid);
      assert ids == [ids[0]] + ids[1..];
    }
  }

  ghost function Undeserving(batch: seq<nat>, reply: RawReply, c: Context, groups: seq<Group>): set<nat> {
    set id | id in batch && !Deserves(id, reply, c, groups, batch)
  }

  ghost function Retried(batch: seq<nat>, c: Context, groups: seq<Group>, provider: Provider): seq<nat> {
    Chosen(batch, Undeserving(batch, provider(batch, false), c, groups))
  }

  // The answers of one call, and the groups that its reply does not deserve.
  method CallOnce(c: Context, groups: seq<Group>, ids: seq<nat>, reply: RawReply)
    returns (valid: map<nat, seq<Decision>>, invalid: map<nat, FailureReason>)
    requires ValidContext(c) && forall id | id in ids :: id < |groups|
    ensures invalid.Keys == Undeserving(ids, reply, c, groups) && valid.Keys == SetOf(ids) - invalid.Keys
    ensures AnswersAre(valid, groups, c) && forall id | id in valid :: Supplied(id, valid[id], reply, c, groups)
    ensures forall id | id in invalid :: CallFault(invalid[id], id, reply, c, groups, ids)
  {
    hide ValidContext, ValidDecisions, Project, Deserves, OnlyItem, Expands, AnswersAre, CallFault;
    valid, invalid := Call(c, groups, ids, reply);
    forall id ensures id in invalid <==> id in Undeserving(ids, reply, c, groups) {
      assert id in SetOf(ids) <==> id in ids;
    }
  }

  lemma AnswersTogether(a: map<nat, seq<Decision>>, b: map<nat, seq<Decision>>, groups: seq<Group>, c: Context)
    requires AnswersAre(a, groups, c) && AnswersAre(b, groups, c)
    ensures AnswersAre(a + b, groups, c)
  {
    hide ValidDecisions, Project;
  }

  // The answer of a group is supplied by the reply to the batch if that deserves the group,
  // and otherwise by the repair of the batch.
  ghost predicate AnswerOf(id: nat, ds: seq<Decision>, batch: seq<nat>, c: Context, groups: seq<Group>,
                           provider: Provider)
  {
    && id in batch
    && var first := provider(batch, false);
       if Deserves(id, first, c, groups, batch) then Supplied(id, ds, first, c, groups)
       else
         var retry := Retried(batch, c, groups, provider);
         var second := provider(retry, true);
         Deserves(id, second, c, groups, retry) && Supplied(id, ds, second, c, groups)
  }

  // The batch asked for the group; neither its reply nor its repair deserves the group, and
  // the reason is a fault of the repair.
  ghost predicate Unrepaired(f: Failed, batch: seq<nat>, c: Context, groups: seq<Group>, provider: Provider) {
    && f.id in batch && !Deserves(f.id, provider(batch, false), c, groups, batch)
    && var retry := Retried(batch, c, groups, provider);
       var second := provider(retry, true);
       f.id in retry && !Deserves(f.id, second, c, groups, retry) && CallFault(f.reason, f.id, second, c, groups, retry)
  }

  // One call for the batch, and a second one if there is something to repair.
  ghost function CallsOf(batch: seq<nat>, c: Context, groups: seq<Group>, provider: Provider): nat {
    if Retried(batch, c, groups, provider) == [] then 1 else 2
  }

  /** One call, and one repair call for exactly the groups it left unanswered: a group is
      answered if the first reply deserves it, or else the second does, and fails with a
      fault of the second reply. */
  method RunBatch(c: Context, groups: seq<Group>, batch: seq<nat>, provider: Provider)
    returns (accepted: map<nat, seq<Decision>>, failed: seq<Failed>, calls: nat)
    requires ValidContext(c) && Distinct(batch) && forall id | id in batch :: id < |groups|
    ensures Settled(accepted, failed, SetOf(batch)) && AnswersAre(accepted, groups, c)
    ensures calls == CallsOf(batch, c, groups, provider)
    ensures forall id | id in accepted :: AnswerOf(id, accepted[id], batch, c, groups, provider)
    ensures forall f | f in failed :: Unrepaired(f, batch, c, groups, provider)
  {
    hide ValidContext, ValidDecisions, Project, Distinct, Deserves, Supplied, Settled, AnswersAre, Chosen, FailuresOf,
      CallFault;
    var valid, invalid := CallOnce(c, groups, batch, provider(batch, false));
    ChosenMembers(batch, invalid.Keys);
    if invalid.Keys == {} {
      NothingChosen(batch, invalid.Keys);
      NoneFailed(valid, SetOf(batch));
      return valid, [], 1;
    }
    SomethingChosen(batch, invalid.Keys);
    var again := Chosen(batch, invalid.Keys);
    ChosenDistinct(batch, invalid.Keys);
    var repaired, remaining := CallOnce(c, groups, again, provider(again, true));
    ChosenDistinct(again, remaining.Keys);
    BatchSettled(valid, repaired, remaining, batch, again);
    AnswersTogether(valid, repaired, groups, c);
    FailuresHaveReasons(again, remaining);
    return valid + repaired, FailuresOf(again, remaining), 2;
  }

  lemma {:induction false} NothingChosen(ids: seq<nat>, keys: set<nat>)
    requires keys == {}
    ensures Chosen(ids, keys) == []
  {
    if ids != [] { NothingChosen(ids[1..], keys); }
  }

  lemma SomethingChosen(ids: seq<nat>, keys: set<nat>)
    requires keys != {} && keys <= SetOf(ids)
    ensures Chosen(ids, keys) != []
  {
    ChosenMembers(ids, keys);
    var id :| id in keys;
    assert id in Chosen(ids, keys);
  }

  lemma NoneFailed(accepted: map<nat, seq<Decision>>, ids: set<nat>)
    requires accepted.Keys == ids
    ensures Settled(accepted, [], ids)
  {
  }

  lemma BatchSettled(valid: map<nat, seq<Decision>>, repaired: map<nat, seq<Decision>>,
                     remaining: map<nat, FailureReason>, batch: seq<nat>, retry: seq<nat>)
    requires valid.Keys !! SetOf(retry) && valid.Keys + SetOf(retry) == SetOf(batch)
    requires repaired.Keys !! remaining.Keys && repaired.Keys + remaining.Keys == SetOf(retry)
    requires Distinct(Chosen(retry, remaining.Keys)) && SetOf(Chosen(retry, remaining.Keys)) ==
      SetOf(retry) * remaining.Keys
    ensures Settled(valid + repaired, FailuresOf(retry, remaining), SetOf(batch))
  {
    hide Distinct;
    var left := Chosen(retry, remaining.Keys);
    assert forall id :: id in left <==> id in SetOf(left);
  }

  // ----- every batch ---------------------------------------------------------------------

  lemma PlanSplits(batches: seq<seq<nat>>, i: nat)
    requires i < |batches|
    ensures Flatten(batches) == Flatten(batches[..i]) + (batches[i] + Flatten(batches[i + 1..]))
    ensures Flatten(batches[..i + 1]) == Flatten(batches[..i]) + batches[i]
  {
    assert batches == batches[..i] + batches[i..] && batches[i..] == [batches[i]] + batches[i + 1..];
    FlattenConcat(batches[..i], batches[i..]);
    assert batches[..i + 1] == batches[..i] + [batches[i]] && Flatten([batches[i]]) == batches[i];
    FlattenConcat(batches[..i], [batches[i]]);
  }

  lemma PartsAreOnce(before: seq<nat>, batch: seq<nat>, after: seq<nat>, oversized: seq<nat>, available: seq<nat>)
    requires Distinct(available)
    requires multiset(before + (batch + after)) + multiset(oversized) == multiset(available)
    ensures Distinct(oversized) && Distinct(batch)
    ensures forall id | id in batch :: id !in before && id !in oversized && id in available
  {
    hide Distinct;
    DistinctIsMultiplicity(available);
    DistinctIsMultiplicity(oversized);
    DistinctIsMultiplicity(batch);
    assert forall id ::
      multiset(available)[id] == multiset(before)[id] + multiset(batch)[id] + multiset(after)[id]
        + multiset(oversized)[id];
    forall id | id in batch ensures id !in before && id !in oversized && id in available {
      assert multiset(batch)[id] >= 1 && multiset(available)[id] <= 1;
    }
  }

  // Failed groups counted first, then the planned batches: together each group once.
  lemma PlanIsOnce(batches: seq<seq<nat>>, oversized: seq<nat>, available: seq<nat>, i: nat)
    requires Distinct(available) && i < |batches|
    requires multiset(Flatten(batches)) + multiset(oversized) == multiset(available)
    ensures Distinct(oversized) && Distinct(batches[i])
    ensures SetOf(batches[i]) !! SetOf(oversized) + SetOf(Flatten(batches[..i]))
    ensures SetOf(Flatten(batches[..i + 1])) == SetOf(Flatten(batches[..i])) + SetOf(batches[i])
    ensures SetOf(batches[i]) <= SetOf(available)
  {
    hide Distinct, Flatten;
    PlanSplits(batches, i);
    PartsAreOnce(Flatten(batches[..i]), batches[i], Flatten(batches[i + 1..]), oversized, available);
  }

  function AllFailed(ids: seq<nat>, reason: FailureReason): (failed: seq<Failed>)
    ensures Ids(failed) == ids
  {
    seq(|ids|, k requires 0 <= k < |ids| => Failed(ids[k], reason))
  }

  lemma SettledTogether(a: map<nat, seq<Decision>>, f: seq<Failed>, s: set<nat>, b: map<nat, seq<Decision>>,
                        g: seq<Failed>, t: set<nat>)
    requires Settled(a, f, s) && Settled(b, g, t) && s !! t
    ensures Settled(a + b, f + g, s + t)
  {
    assert Ids(f + g) == Ids(f) + Ids(g);
    forall i, j | 0 <= i < j < |f + g| ensures Ids(f + g)[i] != Ids(f + g)[j] {
      if i < |f| && |f| <= j {
        assert Ids(f)[i] in s && Ids(g)[j - |f|] in t;
      }
    }
  }

  function Indices(n: nat): seq<nat> {
    seq(n, i => i)
  }

  lemma IndicesOnce(n: nat)
    ensures Distinct(Indices(n)) && forall id: nat :: id in SetOf(Indices(n)) <==> id < n
  {
    forall id: nat | id < n ensures id in Indices(n) { assert Indices(n)[id] == id; }
  }

  ghost predicate AnswersAllOf(accepted: map<nat, seq<Decision>>, failed: seq<Failed>, n: nat) {
    Settled(accepted, failed, SetOf(Indices(n)))
  }

  // What the requests that were made say: the batches, and the repair of each.
  ghost predicate UnrepairedIn(f: Failed, batches: seq<seq<nat>>, c: Context, groups: seq<Group>, provider: Provider) {
    exists k :: 0 <= k < |batches| && Unrepaired(f, batches[k], c, groups, provider)
  }

  ghost predicate AnsweredIn(id: nat, ds: seq<Decision>, batches: seq<seq<nat>>, c: Context, groups: seq<Group>,
                             provider: Provider)
  {
    exists k :: 0 <= k < |batches| && AnswerOf(id, ds, batches[k], c, groups, provider)
  }

  // Not asked for: the group does not fit alone, or all the batches are in use.
  ghost predicate LeftOut(id: nat, batches: seq<seq<nat>>, limits: Limits) {
    id !in Flatten(batches) && (!Fits([id], limits) || |batches| == MAX_BATCHES)
  }

  // Why a group may fail: its pair is blocked, it is left out, or its batch did not answer it.
  ghost predicate Excused(f: Failed, c: Context, groups: seq<Group>, blocked: set<Pair>, limits: Limits,
                          batches: seq<seq<nat>>, provider: Provider)
  {
    && f.id < |groups|
    && if groups[f.id].pair in blocked then f.reason == PREDECESSOR_INCOMPLETE
       else
         || (f.reason == INPUT_TOO_LARGE && LeftOut(f.id, batches, limits))
         || UnrepairedIn(f, batches, c, groups, provider)
  }

  ghost predicate AllExcused(failed: seq<Failed>, c: Context, groups: seq<Group>, blocked: set<Pair>, limits: Limits,
                             batches: seq<seq<nat>>, provider: Provider)
  {
    forall f | f in failed :: Excused(f, c, groups, blocked, limits, batches, provider)
  }

  ghost predicate AllAnswered(accepted: map<nat, seq<Decision>>, batches: seq<seq<nat>>, c: Context, groups: seq<Group>,
                              provider: Provider)
  {
    forall id | id in accepted :: AnsweredIn(id, accepted[id], batches, c, groups, provider)
  }

  // The groups that may be sent, and the calls that a list of batches takes.
  ghost function Available(groups: seq<Group>, blocked: set<Pair>): seq<nat> {
    Chosen(Indices(|groups|), set id: nat | id < |groups| && groups[id].pair !in blocked)
  }

  ghost function Planned(groups: seq<Group>, blocked: set<Pair>, limits: Limits): seq<seq<nat>> {
    Sent(Packed(Available(groups, blocked), limits, []))
  }

  ghost function CallsFor(batches: seq<seq<nat>>, c: Context, groups: seq<Group>, provider: Provider): nat {
    if batches == [] then 0
    else CallsFor(batches[..|batches| - 1], c, groups, provider) + CallsOf(batches[|batches| - 1], c, groups, provider)
  }

  lemma CallsOneMore(batches: seq<seq<nat>>, i: nat, c: Context, groups: seq<Group>, provider: Provider)
    requires i < |batches|
    ensures CallsFor(batches[..i + 1], c, groups, provider) ==
      CallsFor(batches[..i], c, groups, provider) + CallsOf(batches[i], c, groups, provider)
    ensures 1 <= CallsOf(batches[i], c, groups, provider) <= 2
  {
    hide Retried;
    assert batches[..i + 1][..i] == batches[..i];
  }

  lemma BatchIsExcused(failed: seq<Failed>, batches: seq<seq<nat>>, i: nat, c: Context, groups: seq<Group>,
                       blocked: set<Pair>, limits: Limits, provider: Provider)
    requires i < |batches|
    requires forall id | id in batches[i] :: id < |groups| && groups[id].pair !in blocked
    requires forall f | f in failed :: f.id in batches[i] && Unrepaired(f, batches[i], c, groups, provider)
    ensures AllExcused(failed, c, groups, blocked, limits, batches, provider)
  {
    hide Unrepaired, LeftOut;
    forall f | f in failed ensures Excused(f, c, groups, blocked, limits, batches, provider) {
      assert UnrepairedIn(f, batches, c, groups, provider);
    }
  }

  lemma ExcusedMore(failed: seq<Failed>, more: seq<Failed>, c: Context, groups: seq<Group>, blocked: set<Pair>,
                    limits: Limits, batches: seq<seq<nat>>, provider: Provider)
    requires AllExcused(failed, c, groups, blocked, limits, batches, provider)
    requires AllExcused(more, c, groups, blocked, limits, batches, provider)
    ensures AllExcused(failed + more, c, groups, blocked, limits, batches, provider)
  {
    hide Excused;
  }

  lemma UnsentAreExcused(ids: seq<nat>, reason: FailureReason, c: Context, groups: seq<Group>, blocked: set<Pair>,
                         limits: Limits, batches: seq<seq<nat>>, provider: Provider)
    requires forall id | id in ids :: id < |groups|
    requires if reason == PREDECESSOR_INCOMPLETE then forall id | id in ids :: groups[id].pair in blocked
      else reason == INPUT_TOO_LARGE && forall id | id in ids ::
        groups[id].pair !in blocked && LeftOut(id, batches, limits)
    ensures AllExcused(AllFailed(ids, reason), c, groups, blocked, limits, batches, provider)
  {
    hide Unrepaired, LeftOut;
    var failed := AllFailed(ids, reason);
    forall f | f in failed ensures Excused(f, c, groups, blocked, limits, batches, provider) {
      var k :| 0 <= k < |failed| && failed[k] == f;
      assert f.id == ids[k] && ids[k] in ids;
    }
  }

  /** All provider calls: every group is answered or has failed, exactly one of the two,
      after one or two calls for each of the planned batches; blocked pairs fail without
      being sent; an answer is the reply's to the batch of its group, or its repair's; and a
      group that was sent fails only with a fault of its own repair. */
  method RunAll(c: Context, groups: seq<Group>, blocked: set<Pair>, limits: Limits, provider: Provider)
    returns (accepted: map<nat, seq<Decision>>, failed: seq<Failed>, calls: nat, ghost batches: seq<seq<nat>>)
    requires ValidContext(c)
    ensures AnswersAllOf(accepted, failed, |groups|) && AnswersAre(accepted, groups, c)
    ensures batches == Planned(groups, blocked, limits) && |batches| <= MAX_BATCHES
    ensures calls == CallsFor(batches, c, groups, provider) && |batches| <= calls <= 2 * |batches|
    ensures forall id | 0 <= id < |groups| && groups[id].pair in blocked :: Failed(id, PREDECESSOR_INCOMPLETE) in failed
    ensures AllExcused(failed, c, groups, blocked, limits, batches, provider)
      && AllAnswered(accepted, batches, c, groups, provider)
  {
    hide ValidContext, ValidDecisions, Project, Distinct, Settled, Fits, AllExcused, AllAnswered, Flatten, Chosen,
      Unrepaired, AnswerOf, AllFailed, Packed, Misfits, Sent, Unsent, CallsFor, CallsOf, Tight, AnswersAre,
      Deserves, Below;
    var order := Indices(|groups|);
    IndicesOnce(|groups|);
    var blockedIds := Chosen(order, set id: nat | id < |groups| && groups[id].pair in blocked);
    ChosenDistinct(order, set id: nat | id < |groups| && groups[id].pair in blocked);
    var available := Chosen(order, set id: nat | id < |groups| && groups[id].pair !in blocked);
    ChosenDistinct(order, set id: nat | id < |groups| && groups[id].pair !in blocked);
    BlockedFail(groups, blocked, blockedIds);
    var planned, oversized := Plan(available, limits);
    batches := planned;
    PlanStartsSettled(blockedIds, planned, oversized, available);
    failed := AllFailed(blockedIds, PREDECESSOR_INCOMPLETE) + AllFailed(oversized, INPUT_TOO_LARGE);
    accepted, calls := map[], 0;
    assert AnswersAre(accepted, groups, c) by { NoAnswers(groups, c); }
    assert AllAnswered(accepted, planned, c, groups, provider) by { NothingAnswered(planned, c, groups, provider); }
    StartIsExcused(blockedIds, oversized, available, planned, c, groups, blocked, limits, provider);
    NoCalls(planned, c, groups, provider);
    for i := 0 to |planned|
      invariant Settled(accepted, failed, SetOf(blockedIds) + (SetOf(oversized) + SetOf(Flatten(planned[..i]))))
      invariant AnswersAre(accepted, groups, c)
      invariant calls == CallsFor(planned[..i], c, groups, provider) && i <= calls <= 2 * i
      invariant AllFailed(blockedIds, PREDECESSOR_INCOMPLETE) <= failed
      invariant AllExcused(failed, c, groups, blocked, limits, planned, provider)
        && AllAnswered(accepted, planned, c, groups, provider)
    {
      BatchIsAvailable(planned, oversized, available, groups, blocked, i);
      var more, lost, made := RunBatch(c, groups, planned[i], provider);
      SettledMore(accepted, failed, blockedIds, oversized, available, planned, i, more, lost);
      AnswersTogether(accepted, more, groups, c);
      AllAnsweredMore(accepted, more, planned, i, c, groups, provider);
      AskedOf(lost, planned[i], c, groups, provider);
      BatchIsExcused(lost, planned, i, c, groups, blocked, limits, provider);
      ExcusedMore(failed, lost, c, groups, blocked, limits, planned, provider);
      CallsOneMore(planned, i, c, groups, provider);
      accepted, failed, calls := accepted + more, failed + lost, calls + made;
    }
    assert planned[..|planned|] == planned;
    PlanIsEverything(blockedIds, planned, oversized, available, order);
    assert forall f | f in AllFailed(blockedIds, PREDECESSOR_INCOMPLETE) :: f in failed;
  }

  lemma NoAnswers(groups: seq<Group>, c: Context)
    ensures AnswersAre(map[], groups, c)
  {
  }

  lemma NothingAnswered(batches: seq<seq<nat>>, c: Context, groups: seq<Group>, provider: Provider)
    ensures AllAnswered(map[], batches, c, groups, provider)
  {
  }

  lemma NoCalls(batches: seq<seq<nat>>, c: Context, groups: seq<Group>, provider: Provider)
    ensures CallsFor(batches[..0], c, groups, provider) == 0
  {
  }

  lemma AskedOf(failed: seq<Failed>, batch: seq<nat>, c: Context, groups: seq<Group>, provider: Provider)
    requires forall f | f in failed :: Unrepaired(f, batch, c, groups, provider)
    ensures forall f | f in failed :: f.id in batch
  {
    hide Deserves, CallFault;
  }

  lemma BatchIsAvailable(batches: seq<seq<nat>>, oversized: seq<nat>, available: seq<nat>, groups: seq<Group>,
                         blocked: set<Pair>, i: nat)
    requires Distinct(available) && i < |batches|
    requires SetOf(available) == SetOf(Indices(|groups|)) * (set id: nat | id < |groups| && groups[id].pair !in blocked)
    requires multiset(Flatten(batches)) + multiset(oversized) == multiset(available)
    ensures Distinct(batches[i]) && forall id | id in batches[i] :: id < |groups| && groups[id].pair !in blocked
  {
    hide Distinct, Flatten;
    PlanIsOnce(batches, oversized, available, i);
    assert forall id | id in batches[i] :: id in SetOf(batches[i]) && id in SetOf(available);
  }

  lemma SettledMore(accepted: map<nat, seq<Decision>>, failed: seq<Failed>, blockedIds: seq<nat>, oversized: seq<nat>,
                    available: seq<nat>, batches: seq<seq<nat>>, i: nat, more: map<nat, seq<Decision>>,
                    lost: seq<Failed>)
    requires Distinct(available) && SetOf(blockedIds) !! SetOf(available) && i < |batches|
    requires multiset(Flatten(batches)) + multiset(oversized) == multiset(available)
    requires Settled(accepted, failed, SetOf(blockedIds) + (SetOf(oversized) + SetOf(Flatten(batches[..i]))))
    requires Settled(more, lost, SetOf(batches[i]))
    ensures Settled(accepted + more, failed + lost, SetOf(blockedIds)
      + (SetOf(oversized) + SetOf(Flatten(batches[..i + 1]))))
  {
    hide Distinct, Flatten, Settled;
    PlanIsOnce(batches, oversized, available, i);
    SettledTogether(accepted, failed, SetOf(blockedIds) + (SetOf(oversized) + SetOf(Flatten(batches[..i]))), more, lost,
      SetOf(batches[i]));
    SetsRegroup(SetOf(blockedIds), SetOf(oversized), SetOf(Flatten(batches[..i])), SetOf(batches[i]));
  }

  lemma AllAnsweredMore(accepted: map<nat, seq<Decision>>, more: map<nat, seq<Decision>>, batches: seq<seq<nat>>,
                        i: nat, c: Context, groups: seq<Group>, provider: Provider)
    requires i < |batches| && AllAnswered(accepted, batches, c, groups, provider)
    requires forall id | id in more :: AnswerOf(id, more[id], batches[i], c, groups, provider)
    ensures AllAnswered(accepted + more, batches, c, groups, provider)
  {
    hide AnswerOf;
  }

  lemma PartsAreApart(sent: seq<nat>, oversized: seq<nat>, available: seq<nat>)
    requires Distinct(available) && multiset(sent) + multiset(oversized) == multiset(available)
    ensures forall id | id in oversized :: id !in sent && id in available
  {
    hide Distinct;
    DistinctIsMultiplicity(available);
    assert forall id :: multiset(available)[id] == multiset(sent)[id] + multiset(oversized)[id];
    forall id | id in oversized ensures id !in sent && id in available {
      assert multiset(oversized)[id] >= 1;
    }
  }

  lemma StartIsExcused(blockedIds: seq<nat>, oversized: seq<nat>, available: seq<nat>, batches: seq<seq<nat>>,
                       c: Context, groups: seq<Group>, blocked: set<Pair>, limits: Limits, provider: Provider)
    requires SetOf(blockedIds) == SetOf(Indices(|groups|)) * (set id: nat | id < |groups| && groups[id].pair in blocked)
    requires SetOf(available) == SetOf(Indices(|groups|)) * (set id: nat | id < |groups| && groups[id].pair !in blocked)
    requires Distinct(available) && multiset(Flatten(batches)) + multiset(oversized) == multiset(available)
    requires forall id | id in oversized :: !Fits([id], limits) || |batches| == MAX_BATCHES
    ensures AllExcused(AllFailed(blockedIds, PREDECESSOR_INCOMPLETE) + AllFailed(oversized, INPUT_TOO_LARGE),
                       c, groups, blocked, limits, batches, provider)
  {
    hide AllExcused, Fits, Flatten, Distinct;
    forall id | id in blockedIds ensures id < |groups| && groups[id].pair in blocked { assert id in SetOf(blockedIds); }
    PartsAreApart(Flatten(batches), oversized, available);
    forall id | id in oversized ensures id < |groups| && groups[id].pair !in blocked && LeftOut(id, batches, limits) {
      assert id in SetOf(available);
    }
    UnsentAreExcused(blockedIds, PREDECESSOR_INCOMPLETE, c, groups, blocked, limits, batches, provider);
    UnsentAreExcused(oversized, INPUT_TOO_LARGE, c, groups, blocked, limits, batches, provider);
    ExcusedMore(AllFailed(blockedIds, PREDECESSOR_INCOMPLETE), AllFailed(oversized, INPUT_TOO_LARGE), c, groups,
      blocked, limits,
                batches, provider);
  }

  lemma SetsRegroup(a: set<nat>, b: set<nat>, c: set<nat>, d: set<nat>)
    ensures a + (b + c) + d == a + (b + (c + d))
  {
  }

  lemma BlockedFail(groups: seq<Group>, blocked: set<Pair>, blockedIds: seq<nat>)
    requires SetOf(blockedIds) == SetOf(Indices(|groups|)) * (set id: nat | id < |groups| && groups[id].pair in blocked)
    ensures forall id | 0 <= id < |groups| && groups[id].pair in blocked ::
      Failed(id, PREDECESSOR_INCOMPLETE) in AllFailed(blockedIds, PREDECESSOR_INCOMPLETE)
  {
    IndicesOnce(|groups|);
    forall id | 0 <= id < |groups| && groups[id].pair in blocked
      ensures Failed(id, PREDECESSOR_INCOMPLETE) in AllFailed(blockedIds, PREDECESSOR_INCOMPLETE)
    {
      assert id in SetOf(blockedIds);
      var k :| 0 <= k < |blockedIds| && blockedIds[k] == id;
      assert AllFailed(blockedIds, PREDECESSOR_INCOMPLETE)[k] == Failed(id, PREDECESSOR_INCOMPLETE);
    }
  }

  lemma PlanStartsSettled(blockedIds: seq<nat>, batches: seq<seq<nat>>, oversized: seq<nat>, available: seq<nat>)
    requires Distinct(blockedIds) && Distinct(available) && SetOf(blockedIds) !! SetOf(available)
    requires multiset(Flatten(batches)) + multiset(oversized) == multiset(available)
    ensures Settled(map[], AllFailed(blockedIds, PREDECESSOR_INCOMPLETE) + AllFailed(oversized, INPUT_TOO_LARGE),
                    SetOf(blockedIds) + (SetOf(oversized) + SetOf(Flatten(batches[..0]))))
  {
    hide Distinct;
    FlattenUnfolds(batches[..0]);
    DistinctIsMultiplicity(available);
    DistinctIsMultiplicity(oversized);
    assert forall id :: multiset(oversized)[id] <= multiset(available)[id];
    forall id | id in oversized ensures id in available {
      assert multiset(oversized)[id] >= 1;
      assert id in multiset(available);
    }
    SettledTogether(map[], AllFailed(blockedIds, PREDECESSOR_INCOMPLETE), SetOf(blockedIds),
                    map[], AllFailed(oversized, INPUT_TOO_LARGE), SetOf(oversized));
    var none: map<nat, seq<Decision>> := map[];
    assert none + none == none;
    assert SetOf(blockedIds) + (SetOf(oversized) + SetOf([])) == SetOf(blockedIds) + SetOf(oversized);
  }

  lemma PlanIsEverything(blockedIds: seq<nat>, batches: seq<seq<nat>>, oversized: seq<nat>, available: seq<nat>,
                         order: seq<nat>)
    requires multiset(Flatten(batches)) + multiset(oversized) == multiset(available)
    requires SetOf(blockedIds) + SetOf(available) == SetOf(order)
    ensures SetOf(blockedIds) + (SetOf(oversized) + SetOf(Flatten(batches))) == SetOf(order)
  {
    forall id ensures id in available <==> id in oversized || id in Flatten(batches) {
      assert multiset(available)[id] == multiset(Flatten(batches))[id] + multiset(oversized)[id];
      assert id in available <==> multiset(available)[id] > 0;
    }
  }
}
