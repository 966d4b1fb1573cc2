/**
 The request-local character snapshot of app/analysis/character_fact_projection.py.

 A snapshot holds the active entries by reference, the reference that occupies
 each canonical slot, and, for a slot that an earlier decision emptied, the
 candidates that emptied it.  `Step` is the value-level meaning of one call of
 `CharacterProjectionState.apply`; the class at the end mutates its three maps
 the way the program does and is proved against `Step`.
 */
module CharacterProjection {
  import opened Options
  import opened Sequences

  // ----- entities ---------------------------------------------------------

  // Candidate Cn owns the projected reference Qn, so one number names both.
  type CandidateRef = nat

  datatype SnapshotRef = Persisted(number: nat) | Projected(number: nat)

  datatype FactType = STATUS | OtherType(name: string)

  datatype Slot = Slot(factType: FactType, factKey: string)

  datatype KeyResolution = EXACT | ALIAS | PATTERN

  datatype ValueType = STRING | NUMBER | BOOLEAN | JSON | UNKNOWN_TYPE

  datatype ActiveField = NoActive | ActiveTrue | ActiveFalse | ActiveNotBoolean

  // The "value" member of a JSON object; a number carries its canonical JSON text.
  datatype TypedField =
    NoField | TextField(text: string) | NumberField(json: string) | BooleanField(flag: bool) | OtherField

  datatype ValueJson = ValueJson(active: ActiveField, typed: TypedField)

  datatype Proposal = Proposal(factValue: string, valueJson: ValueJson)

  type Provenance(==, !new)

  datatype Entry = Entry(
    reference: SnapshotRef,
    slot: Slot,
    proposal: Option<Proposal>,
    source: Option<CandidateRef>,
    dependencies: set<CandidateRef>,
    provenance: Option<Provenance>)

  datatype Candidate = Candidate(
    index: CandidateRef,
    factType: FactType,
    initialKey: string,
    resolution: KeyResolution,
    valueType: ValueType,
    valueJson: Option<ValueJson>,
    fromBook: bool,
    hasReferenceTime: bool,
    referenceTimeLocated: bool)

  datatype Operation = ADD | UPDATE | MERGE | REMOVE | HISTORY_ONLY | EXCLUDE | REVIEW_REQUIRED

  datatype TemporalScope = PRESENT | PAST | HYPOTHETICAL | UNKNOWN

  datatype Decision = Decision(
    operation: Operation,
    target: Option<SnapshotRef>,
    removed: seq<SnapshotRef>,
    resolvedKey: string,
    proposal: Option<Proposal>,
    scope: TemporalScope,
    advancesTime: bool,
    effectiveFrom: Option<nat>,
    reason: string)

  // What the model does not look into: chronology and provenance of sources, the
  // protected slots of the work, the status.* key form and the wording of reasons.
  datatype Policy = Policy(
    changeAllowed: (Candidate, TemporalScope, Option<nat>) -> bool,
    replaceAllowed: (Candidate, TemporalScope, Option<nat>, Option<Provenance>, Operation) -> bool,
    protectedSlots: set<Slot>,
    provenanceOf: (Candidate, Option<nat>, Operation, Option<Provenance>) -> Provenance,
    canonicalStatusKey: string -> bool,
    reasonAllowed: (string, string, set<SnapshotRef>, set<string>) -> bool,
    displayReason: (string, map<SnapshotRef, Entry>) -> string)

  datatype Snapshot = Snapshot(
    entries: map<SnapshotRef, Entry>,
    refBySlot: map<Slot, SnapshotRef>,
    absence: map<Slot, set<CandidateRef>>)

  // ----- validation of one decision ----------------------------------------

  predicate Projects(operation: Operation) {
    operation == ADD || operation == UPDATE || operation == MERGE
  }

  // The schema's own rules (character_fact_comparison_schemas.py).
  predicate SchemaValid(d: Decision) {
    && Distinct(d.removed)
    && (d.operation == UPDATE || d.operation == MERGE ==> d.target.Some?)
    && (d.operation == REVIEW_REQUIRED && d.target.Some? ==> d.scope == PRESENT)
    && (d.target.Some? ==> d.operation == UPDATE || d.operation == MERGE || d.operation == REVIEW_REQUIRED)
    && (d.operation == REMOVE ==> d.removed != [])
    && (Projects(d.operation) <==> d.proposal.Some?)
    && (d.scope == PAST || d.scope == HYPOTHETICAL ==> d.operation == HISTORY_ONLY || d.operation == REVIEW_REQUIRED)
    && (d.scope == UNKNOWN ==> d.operation == REVIEW_REQUIRED)
    && (d.removed != [] ==> d.scope == PRESENT && (Projects(d.operation) || d.operation == REMOVE))
  }

  function OwnSlot(c: Candidate, d: Decision): Slot {
    Slot(c.factType, d.resolvedKey)
  }

  function RemovedSet(d: Decision): set<SnapshotRef> {
    SetOf(d.removed)
  }

  function Requested(d: Decision): set<SnapshotRef> {
    RemovedSet(d) + (if d.target.Some? then {d.target.value} else {})
  }

  // The references that leave the snapshot when the decision is applied.
  function Retired(d: Decision): set<SnapshotRef> {
    if Projects(d.operation) then Requested(d) else RemovedSet(d)
  }

  predicate StatusActiveOk(t: FactType, value: Option<ValueJson>) {
    t == STATUS && value.Some? ==> value.value.active != ActiveNotBoolean
  }

  predicate ExplicitlyInactive(t: FactType, value: Option<ValueJson>) {
    t == STATUS && value.Some? && value.value.active == ActiveFalse
  }

  // normalize_setting_display_value: None stands for the ValueError.
  function DisplayValue(t: ValueType, value: ValueJson, fallback: string): Option<string> {
    match t
    case NUMBER => if value.typed.NumberField? then Some(value.typed.json) else None
    case BOOLEAN =>
      if value.typed.BooleanField? then Some(if value.typed.flag then "true" else "false") else None
    case _ => Some(fallback)
  }

  predicate ProposalOk(c: Candidate, p: Proposal) {
    && StatusActiveOk(c.factType, Some(p.valueJson))
    && !ExplicitlyInactive(c.factType, c.valueJson)
    && !ExplicitlyInactive(c.factType, Some(p.valueJson))
    && (c.valueType == STRING ==> p.valueJson.typed.TextField?)
    && DisplayValue(c.valueType, p.valueJson, p.factValue).Some?
  }

  // References exist and name the resolved slot; an ADD finds its slot empty.
  predicate WellAimed(entries: map<SnapshotRef, Entry>, c: Candidate, d: Decision) {
    && SchemaValid(d)
    && Requested(d) <= entries.Keys
    && (d.target.Some? ==> entries[d.target.value].slot == OwnSlot(c, d) && d.target.value !in d.removed)
    && (d.operation == ADD ==> forall r | r in entries :: entries[r].slot != OwnSlot(c, d))
  }

  // Chronology and protection of what the decision would change.
  predicate Permitted(p: Policy, entries: map<SnapshotRef, Entry>, c: Candidate, d: Decision)
    requires Requested(d) <= entries.Keys
  {
    && (d.operation == EXCLUDE || (d.operation == REVIEW_REQUIRED && d.target.Some?) ==>
      p.changeAllowed(c, d.scope, d.effectiveFrom))
    && (Projects(d.operation) || d.operation == REMOVE ==>
      && (c.fromBook ==>
        && OwnSlot(c, d) !in p.protectedSlots
        && forall r | r in Requested(d) :: entries[r].slot !in p.protectedSlots)
      && p.changeAllowed(c, d.scope, d.effectiveFrom)
      && forall r | r in Requested(d) ::
        p.replaceAllowed(c, d.scope, d.effectiveFrom, entries[r].provenance, if r in d.removed then REMOVE
          else d.operation))
  }

  // Only STATUS entries are removed, and only by a STATUS candidate; proposals are typed.
  predicate ContentOk(entries: map<SnapshotRef, Entry>, c: Candidate, d: Decision)
    requires Requested(d) <= entries.Keys && SchemaValid(d)
  {
    && StatusActiveOk(c.factType, c.valueJson)
    && (d.operation == REMOVE ==> c.factType == STATUS)
    && (forall r | r in RemovedSet(d) :: entries[r].slot.factType == STATUS)
    && (d.removed != [] ==> c.factType == STATUS)
    && (Projects(d.operation) ==> ProposalOk(c, d.proposal.value))
  }

  // validate_character_fact_decision, preceded by the schema.
  predicate Accepts(p: Policy, entries: map<SnapshotRef, Entry>, c: Candidate, d: Decision) {
    WellAimed(entries, c, d) && Permitted(p, entries, c, d) && ContentOk(entries, c, d)
  }

  // ----- validation, check by check --------------------------------------------

  // Why a decision is refused.
  datatype Fault =
    | BrokenSchema | ActiveIsNoBoolean | UnknownReference(r: SnapshotRef) | TargetInAnotherSlot | TargetIsRemoved
    | SlotIsTaken | TimeNeedsReview | ProtectedState(slot: Slot) | EntryNeedsReview(r: SnapshotRef)
    | InactiveValue | OnlyStatusRemoves | OnlyStatusIsRemoved(r: SnapshotRef) | NotAString | NotOfItsType

  function Replacing(d: Decision, r: SnapshotRef): Operation {
    if r in d.removed then REMOVE else d.operation
  }

  // What each refusal says about the candidate, the decision and the entries it names.
  ghost predicate RefusedFor(f: Fault, p: Policy, entries: map<SnapshotRef, Entry>, c: Candidate, d: Decision) {
    match f
    case BrokenSchema => !SchemaValid(d)
    case ActiveIsNoBoolean =>
      c.factType == STATUS
        && (NotBoolean(c.valueJson) || (d.proposal.Some? && NotBoolean(Some(d.proposal.value.valueJson))))
    case UnknownReference(r) => (r in d.removed || d.target == Some(r)) && r !in entries
    case TargetInAnotherSlot =>
      d.target.Some? && d.target.value in entries && entries[d.target.value].slot != Slot(c.factType, d.resolvedKey)
    case TargetIsRemoved => d.target.Some? && d.target.value in d.removed
    case SlotIsTaken =>
      d.operation == ADD && exists r :: r in entries && entries[r].slot == Slot(c.factType, d.resolvedKey)
    case TimeNeedsReview => !p.changeAllowed(c, d.scope, d.effectiveFrom) && d.operation != HISTORY_ONLY
    case ProtectedState(slot) =>
      && c.fromBook && slot in p.protectedSlots && (Projects(d.operation) || d.operation == REMOVE)
      && (slot == Slot(c.factType, d.resolvedKey)
        || exists r :: r in entries && (r in d.removed || d.target == Some(r)) && entries[r].slot == slot)
    case EntryNeedsReview(r) =>
      && r in entries && (r in d.removed || d.target == Some(r))
      && !p.replaceAllowed(c, d.scope, d.effectiveFrom, entries[r].provenance, Replacing(d, r))
    case InactiveValue =>
      c.factType == STATUS && d.proposal.Some? && (Inactive(c.valueJson) || Inactive(Some(d.proposal.value.valueJson)))
    case OnlyStatusRemoves => c.factType != STATUS && (d.operation == REMOVE || d.removed != [])
    case OnlyStatusIsRemoved(r) => r in d.removed && r in entries && entries[r].slot.factType != STATUS
    case NotAString => c.valueType == STRING && d.proposal.Some? && !d.proposal.value.valueJson.typed.TextField?
    case NotOfItsType =>
      && d.proposal.Some?
      && var typed := d.proposal.value.valueJson.typed;
         (c.valueType == NUMBER && !typed.NumberField?) || (c.valueType == BOOLEAN && !typed.BooleanField?)
  }

  ghost predicate NotBoolean(value: Option<ValueJson>) {
    value.Some? && value.value.active == ActiveNotBoolean
  }

  ghost predicate Inactive(value: Option<ValueJson>) {
    value.Some? && value.value.active == ActiveFalse
  }

  // The checks of the schema, in order.
  method CheckSchema(d: Decision) returns (ok: bool)
    ensures ok <==> SchemaValid(d)
  {
    for i := 0 to |d.removed|
      invariant forall k, j :: 0 <= k < j < i ==> d.removed[k] != d.removed[j]
    {
      if d.removed[i] in d.removed[..i] {
        return false;
      }
    }
    var targetRequired := d.operation in {UPDATE, MERGE};
    if targetRequired && d.target.None? {
      return false;
    }
    if d.operation == REVIEW_REQUIRED && d.target.Some? && d.scope != PRESENT {
      return false;
    }
    if !targetRequired && d.operation != REVIEW_REQUIRED && d.target.Some? {
      return false;
    }
    if d.operation == REMOVE && d.removed == [] {
      return false;
    }
    if d.operation in {ADD, UPDATE, MERGE} && d.proposal.None? {
      return false;
    }
    if d.scope in {PAST, HYPOTHETICAL} && d.operation !in {HISTORY_ONLY, REVIEW_REQUIRED} {
      return false;
    }
    if d.scope == UNKNOWN && d.operation != REVIEW_REQUIRED {
      return false;
    }
    if d.scope != PRESENT && d.removed != [] {
      return false;
    }
    if d.operation in {HISTORY_ONLY, EXCLUDE, REVIEW_REQUIRED} && d.removed != [] {
      return false;
    }
    ok := d.operation !in {HISTORY_ONLY, EXCLUDE, REVIEW_REQUIRED, REMOVE} || d.proposal.None?;
  }

  // The references exist, and the target and the slot are as the operation needs them.
  method CheckReferences(entries: map<SnapshotRef, Entry>, c: Candidate, d: Decision) returns (fault: Option<Fault>)
    requires SchemaValid(d)
    ensures fault.None? <==> WellAimed(entries, c, d)
    ensures fault.Some? ==> forall p :: RefusedFor(fault.value, p, entries, c, d)
  {
    var named := d.removed + (if d.target.Some? then [d.target.value] else []);
    for i := 0 to |named|
      invariant forall k | 0 <= k < i :: named[k] in entries
    {
      if named[i] !in entries {
        assert named[i] in Requested(d);
        return Some(UnknownReference(named[i]));
      }
    }
    forall r | r in Requested(d) ensures r in entries { assert r in named; }
    if d.target.Some? {
      if entries[d.target.value].slot != Slot(c.factType, d.resolvedKey) {
        return Some(TargetInAnotherSlot);
      }
      if d.target.value in d.removed {
        return Some(TargetIsRemoved);
      }
    }
    if d.operation == ADD && exists r | r in entries.Keys :: entries[r].slot == Slot(c.factType, d.resolvedKey) {
      return Some(SlotIsTaken);
    }
    fault := None;
  }

  // A setting book may not touch protected slots, and chronology must allow each change.
  method CheckChange(p: Policy, entries: map<SnapshotRef, Entry>, c: Candidate, d: Decision)
    returns (fault: Option<Fault>)
    requires WellAimed(entries, c, d)
    ensures fault.None? <==> Permitted(p, entries, c, d)
    ensures fault.Some? ==> RefusedFor(fault.value, p, entries, c, d)
  {
    if d.operation == EXCLUDE || (d.operation == REVIEW_REQUIRED && d.target.Some?) {
      if !p.changeAllowed(c, d.scope, d.effectiveFrom) {
        return Some(TimeNeedsReview);
      }
    }
    if d.operation !in {ADD, UPDATE, MERGE, REMOVE} {
      return None;
    }
    var named := d.removed + (if d.target.Some? then [d.target.value] else []);
    forall r ensures r in named <==> r in Requested(d) {}
    if c.fromBook {
      if Slot(c.factType, d.resolvedKey) in p.protectedSlots {
        return Some(ProtectedState(Slot(c.factType, d.resolvedKey)));
      }
      for i := 0 to |named|
        invariant forall k | 0 <= k < i :: entries[named[k]].slot !in p.protectedSlots
      {
        if entries[named[i]].slot in p.protectedSlots {
          assert named[i] in Requested(d);
          return Some(ProtectedState(entries[named[i]].slot));
        }
      }
    }
    if !p.changeAllowed(c, d.scope, d.effectiveFrom) {
      return Some(TimeNeedsReview);
    }
    fault := CheckReplaced(p, entries, c, d, named);
  }

  // Each named entry may be replaced.
  method CheckReplaced(p: Policy, entries: map<SnapshotRef, Entry>, c: Candidate, d: Decision, named: seq<SnapshotRef>)
    returns (fault: Option<Fault>)
    requires WellAimed(entries, c, d) && forall r :: r in named <==> r in Requested(d)
    ensures fault.None? <==> forall r | r in Requested(d) ::
      p.replaceAllowed(c, d.scope, d.effectiveFrom, entries[r].provenance, Replacing(d, r))
    ensures fault.Some? ==> RefusedFor(fault.value, p, entries, c, d)
  {
    for i := 0 to |named|
      invariant forall k | 0 <= k < i ::
        p.replaceAllowed(c, d.scope, d.effectiveFrom, entries[named[k]].provenance, Replacing(d, named[k]))
    {
      var operation := if named[i] in d.removed then REMOVE else d.operation;
      if !p.replaceAllowed(c, d.scope, d.effectiveFrom, entries[named[i]].provenance, operation) {
        assert named[i] in Requested(d);
        return Some(EntryNeedsReview(named[i]));
      }
    }
    fault := None;
  }

  // STATUS rules and the type of the proposed value.
  method CheckContent(p: Policy, entries: map<SnapshotRef, Entry>, c: Candidate, d: Decision)
    returns (fault: Option<Fault>)
    requires WellAimed(entries, c, d) && StatusActiveOk(c.factType, c.valueJson)
    ensures fault.None? <==> ContentOk(entries, c, d)
    ensures fault.Some? ==> RefusedFor(fault.value, p, entries, c, d)
  {
    if d.operation in {ADD, UPDATE, MERGE} {
      var value := d.proposal.value.valueJson;
      if c.factType == STATUS {
        if value.active == ActiveNotBoolean {
          return Some(ActiveIsNoBoolean);
        }
        if (c.valueJson.Some? && c.valueJson.value.active == ActiveFalse) || value.active == ActiveFalse {
          return Some(InactiveValue);
        }
      }
    }
    if d.operation == REMOVE && c.factType != STATUS {
      return Some(OnlyStatusRemoves);
    }
    for i := 0 to |d.removed|
      invariant forall k | 0 <= k < i :: entries[d.removed[k]].slot.factType == STATUS
    {
      assert d.removed[i] in RemovedSet(d);
      if entries[d.removed[i]].slot.factType != STATUS {
        return Some(OnlyStatusIsRemoved(d.removed[i]));
      }
    }
    if d.removed != [] && c.factType != STATUS {
      return Some(OnlyStatusRemoves);
    }
    if d.operation in {ADD, UPDATE, MERGE} {
      var typed := d.proposal.value.valueJson.typed;
      if c.valueType == STRING && !typed.TextField? {
        return Some(NotAString);
      }
      if (c.valueType == NUMBER && !typed.NumberField?) || (c.valueType == BOOLEAN && !typed.BooleanField?) {
        return Some(NotOfItsType);
      }
    }
    fault := None;
  }

  /** The validator runs its checks one after the other and stops at the first that fails. */
  method ValidateDecision(p: Policy, entries: map<SnapshotRef, Entry>, c: Candidate, d: Decision)
    returns (fault: Option<Fault>)
    ensures fault.None? <==> Accepts(p, entries, c, d)
    ensures fault.Some? ==> RefusedFor(fault.value, p, entries, c, d)
  {
    hide SchemaValid, Permitted;
    var ok := CheckSchema(d);
    if !ok {
      return Some(BrokenSchema);
    }
    if c.factType == STATUS && c.valueJson.Some? && c.valueJson.value.active == ActiveNotBoolean {
      return Some(ActiveIsNoBoolean);
    }
    fault := CheckReferences(entries, c, d);
    if fault.None? {
      fault := CheckChange(p, entries, c, d);
    }
    if fault.None? {
      fault := CheckContent(p, entries, c, d);
    }
  }

  // ----- one call of apply ---------------------------------------------------

  function Support(e: Entry): set<CandidateRef> {
    e.dependencies + (if e.source.Some? then {e.source.value} else {})
  }

  function SupportOf(entries: map<SnapshotRef, Entry>, refs: set<SnapshotRef>): set<CandidateRef> {
    set r, x | r in refs && r in entries && x in Support(entries[r]) :: x
  }

  function AbsenceOf(s: Snapshot, t: Slot): set<CandidateRef> {
    if t in s.absence then s.absence[t] else {}
  }

  function DependenciesFor(s: Snapshot, c: Candidate, d: Decision): set<CandidateRef> {
    SupportOf(s.entries, Requested(d)) + (if d.operation == ADD then AbsenceOf(s, OwnSlot(c, d)) else {})
  }

  function SlotsOf(entries: map<SnapshotRef, Entry>, refs: set<SnapshotRef>): set<Slot> {
    set r | r in refs && r in entries :: entries[r].slot
  }

  function Emptied(slots: set<Slot>, cause: set<CandidateRef>): map<Slot, set<CandidateRef>> {
    map t | t in slots :: cause
  }

  function Removing(s: Snapshot, refs: set<SnapshotRef>, cause: set<CandidateRef>): Snapshot {
    var slots := SlotsOf(s.entries, refs);
    Snapshot(s.entries - refs, s.refBySlot - slots, s.absence + Emptied(slots, cause))
  }

  function Inserting(s: Snapshot, e: Entry): Snapshot {
    Snapshot(s.entries[e.reference := e], s.refBySlot[e.slot := e.reference], s.absence - {e.slot})
  }

  datatype Outcome =
    | Applied(entry: Option<Entry>, dependencies: set<CandidateRef>)
    | Rejected            // validation refused; nothing has changed
    | RefAlreadyActive    // the late checks, after entries were removed
    | SlotOccupied

  function NewEntry(p: Policy, s: Snapshot, c: Candidate, d: Decision): Entry {
    var previous := if d.target.Some? && d.target.value in s.entries then s.entries[d.target.value].provenance
      else None;
    Entry(Projected(c.index), OwnSlot(c, d), d.proposal, Some(c.index),
          DependenciesFor(s, c, d) + {c.index}, Some(p.provenanceOf(c, d.effectiveFrom, d.operation, previous)))
  }

  // What apply does once validation has passed.
  function Effect(s: Snapshot, d: Decision, e: Entry, dependencies: set<CandidateRef>,
                  cause: set<CandidateRef>): (Snapshot, Outcome)
  {
    var s1 := Removing(s, Retired(d), cause);
    if !Projects(d.operation) then (s1, Applied(None, dependencies))
    else if e.reference in s1.entries then (s1, RefAlreadyActive)
    else if e.slot in s1.refBySlot then (s1, SlotOccupied)
    else (Inserting(s1, e), Applied(Some(e), dependencies))
  }

  function Step(p: Policy, s: Snapshot, c: Candidate, d: Decision): (Snapshot, Outcome) {
    if !Accepts(p, s.entries, c, d) then (s, Rejected)
    else
      var dependencies := DependenciesFor(s, c, d);
      Effect(s, d, NewEntry(p, s, c, d), dependencies, dependencies + {c.index})
  }

  // ----- the snapshot invariant ----------------------------------------------

  // Entry map and slot map are mutually inverse; absence is recorded only for empty slots.
  ghost predicate Coherent(s: Snapshot) {
    && (forall r | r in s.entries ::
      && s.entries[r].reference == r
      && s.entries[r].slot in s.refBySlot
      && s.refBySlot[s.entries[r].slot] == r)
    && (forall t | t in s.refBySlot :: s.refBySlot[t] in s.entries && s.entries[s.refBySlot[t]].slot == t)
    && s.absence.Keys !! s.refBySlot.Keys
  }

  // What a snapshot says about one slot.
  datatype Cell = Occupied(entry: Entry) | Vacant(cause: set<CandidateRef>)

  ghost function CellAt(s: Snapshot, t: Slot): Cell
    requires Coherent(s)
  {
    if t in s.refBySlot then Occupied(s.entries[s.refBySlot[t]]) else Vacant(AbsenceOf(s, t))
  }

  ghost function CellSupport(cell: Cell): set<CandidateRef> {
    match cell
    case Occupied(e) => Support(e)
    case Vacant(cause) => cause
  }

  // The slots a decision reads, and hence the only ones it may change.
  ghost function Reads(s: Snapshot, c: Candidate, d: Decision): set<Slot> {
    SlotsOf(s.entries, Requested(d))
    + (if d.operation == ADD then {OwnSlot(c, d)} else {})
  }

  // The slots it does change.
  ghost function Touched(s: Snapshot, c: Candidate, d: Decision): set<Slot> {
    SlotsOf(s.entries, Retired(d))
    + (if Projects(d.operation) then {OwnSlot(c, d)} else {})
  }

  ghost function CellAfter(s: Snapshot, d: Decision, e: Entry, touched: set<Slot>, cause: set<CandidateRef>,
                           t: Slot): Cell
    requires Coherent(s)
  {
    if t !in touched then CellAt(s, t)
    else if Projects(d.operation) && t == e.slot then Occupied(e)
    else Vacant(cause)
  }

  // The cells after an accepted decision.
  ghost function NextCell(p: Policy, s: Snapshot, c: Candidate, d: Decision, t: Slot): Cell
    requires Coherent(s)
  {
    CellAfter(s, d, NewEntry(p, s, c, d), Touched(s, c, d), DependenciesFor(s, c, d) + {c.index}, t)
  }

  lemma RemovingKeepsCoherence(s: Snapshot, refs: set<SnapshotRef>, cause: set<CandidateRef>)
    requires Coherent(s)
    ensures var s' := Removing(s, refs, cause);
      && Coherent(s')
      && forall t :: CellAt(s', t) ==
          (if t in s.refBySlot && s.refBySlot[t] in refs then Vacant(cause) else CellAt(s, t))
  {
    var s' := Removing(s, refs, cause);
    var slots := SlotsOf(s.entries, refs);
    forall t ensures t in slots <==> t in s.refBySlot && s.refBySlot[t] in refs {
      if t in s.refBySlot && s.refBySlot[t] in refs {
        assert s.entries[s.refBySlot[t]].slot == t;
      }
    }
    assert Coherent(s');
  }

  lemma InsertingKeepsCoherence(s: Snapshot, e: Entry)
    requires Coherent(s) && e.reference !in s.entries && e.slot !in s.refBySlot
    ensures var s' := Inserting(s, e);
      && Coherent(s')
      && forall t :: CellAt(s', t) == (if t == e.slot then Occupied(e) else CellAt(s, t))
  {
  }

  lemma RetiredSlots(s: Snapshot, d: Decision, t: Slot)
    requires Coherent(s)
    ensures (t in s.refBySlot && s.refBySlot[t] in Retired(d))
        <==> t in SlotsOf(s.entries, Retired(d))
  {
    if t in s.refBySlot && s.refBySlot[t] in Retired(d) {
      assert s.entries[s.refBySlot[t]].slot == t;
    }
  }

  lemma OwnSlotIsFreed(s: Snapshot, c: Candidate, d: Decision)
    requires Coherent(s) && WellAimed(s.entries, c, d) && Projects(d.operation)
    ensures OwnSlot(c, d) in s.refBySlot ==> s.refBySlot[OwnSlot(c, d)] in Retired(d)
  {
    var t := OwnSlot(c, d);
    if t in s.refBySlot {
      var r := s.refBySlot[t];
      assert s.entries[r].slot == t;
      assert d.operation != ADD;
      assert d.target.Some? && s.entries[d.target.value].slot == t;
    }
  }

  // The slot of the projected entry is empty by the time it is inserted.
  lemma SlotIsFree(s: Snapshot, c: Candidate, d: Decision, e: Entry, cause: set<CandidateRef>)
    requires Coherent(s) && WellAimed(s.entries, c, d) && Projects(d.operation) && e.slot == OwnSlot(c, d)
    ensures Coherent(Removing(s, Retired(d), cause)) && e.slot !in Removing(s, Retired(d), cause).refBySlot
  {
    hide Removing, WellAimed;
    RemovingKeepsCoherence(s, Retired(d), cause);
    OwnSlotIsFreed(s, c, d);
    assert CellAt(Removing(s, Retired(d), cause), e.slot).Vacant?;
  }

  lemma EffectCoheres(s: Snapshot, c: Candidate, d: Decision, e: Entry, deps: set<CandidateRef>,
                      cause: set<CandidateRef>)
    requires Coherent(s) && WellAimed(s.entries, c, d)
    requires e.slot == OwnSlot(c, d) && e.reference !in s.entries
    ensures var s' := Effect(s, d, e, deps, cause).0; Coherent(s') && s'.entries.Keys <= s.entries.Keys + {e.reference}
    ensures Effect(s, d, e, deps, cause).1 == Applied(if Projects(d.operation) then Some(e) else None, deps)
  {
    hide Coherent, WellAimed;
    RemovingKeepsCoherence(s, Retired(d), cause);
    if Projects(d.operation) {
      SlotIsFree(s, c, d, e, cause);
      InsertingKeepsCoherence(Removing(s, Retired(d), cause), e);
    }
  }

  lemma EffectCell(s: Snapshot, c: Candidate, d: Decision, e: Entry, deps: set<CandidateRef>, cause: set<CandidateRef>,
                   t: Slot)
    requires Coherent(s) && WellAimed(s.entries, c, d) && e.slot == OwnSlot(c, d) && e.reference !in s.entries
    requires Coherent(Effect(s, d, e, deps, cause).0)
    ensures CellAt(Effect(s, d, e, deps, cause).0, t) == CellAfter(s, d, e, Touched(s, c, d), cause, t)
  {
    hide Coherent, WellAimed, CellAt, SlotsOf;
    RemovingKeepsCoherence(s, Retired(d), cause);
    RetiredSlots(s, d, t);
    if Projects(d.operation) {
      SlotIsFree(s, c, d, e, cause);
      EffectCoheres(s, c, d, e, deps, cause);
      InsertingKeepsCoherence(Removing(s, Retired(d), cause), e);
    }
  }

  lemma EffectIsAtomic(s: Snapshot, c: Candidate, d: Decision, e: Entry, deps: set<CandidateRef>,
                       cause: set<CandidateRef>)
    requires Coherent(s) && WellAimed(s.entries, c, d)
    requires e.slot == OwnSlot(c, d) && e.reference !in s.entries
    ensures var (s', o) := Effect(s, d, e, deps, cause);
      && Coherent(s')
      && o == Applied(if Projects(d.operation) then Some(e) else None, deps)
      && s'.entries.Keys <= s.entries.Keys + {e.reference}
      && forall t :: CellAt(s', t) == CellAfter(s, d, e, Touched(s, c, d), cause, t)
  {
    hide Coherent, WellAimed, CellAt, CellAfter, Effect;
    EffectCoheres(s, c, d, e, deps, cause);
    forall t ensures CellAt(Effect(s, d, e, deps, cause).0, t) == CellAfter(s, d, e, Touched(s, c, d), cause, t) {
      EffectCell(s, c, d, e, deps, cause, t);
    }
  }

  /** A fresh projected reference makes every accepted decision go through, with
      exactly the cells it names changed; everything else is a refusal that
      leaves the snapshot as it was.  The late raises of apply are unreachable. */
  lemma StepIsAtomic(p: Policy, s: Snapshot, c: Candidate, d: Decision)
    requires Coherent(s) && Projected(c.index) !in s.entries
    ensures var (s', o) := Step(p, s, c, d);
      && Coherent(s')
      && s'.entries.Keys <= s.entries.Keys + {Projected(c.index)}
      && (Accepts(p, s.entries, c, d) ==>
        && o == Applied(if Projects(d.operation) then Some(NewEntry(p, s, c, d)) else None, DependenciesFor(s, c, d))
        && forall t :: CellAt(s', t) == NextCell(p, s, c, d, t))
      && (!Accepts(p, s.entries, c, d) ==> s' == s && o == Rejected)
  {
    if Accepts(p, s.entries, c, d) {
      var deps := DependenciesFor(s, c, d);
      EffectIsAtomic(s, c, d, NewEntry(p, s, c, d), deps, deps + {c.index});
    }
  }

  /** A setting book never changes a protected slot. */
  lemma ProtectedSlotsStay(p: Policy, s: Snapshot, c: Candidate, d: Decision, t: Slot)
    requires Coherent(s) && Projected(c.index) !in s.entries && c.fromBook && t in p.protectedSlots
    ensures Coherent(Step(p, s, c, d).0) && CellAt(Step(p, s, c, d).0, t) == CellAt(s, t)
  {
    hide Step;
    StepIsAtomic(p, s, c, d);
    assert Retired(d) <= Requested(d);
  }

  /** Every entry that leaves the snapshot was one that the chronology lets the candidate
      replace, under the operation that took it out; it is a STATUS entry or the target whose
      slot the new entry takes. */
  lemma LeavingWasAllowed(p: Policy, s: Snapshot, c: Candidate, d: Decision, r: SnapshotRef)
    requires Coherent(s) && Projected(c.index) !in s.entries && r in s.entries && r !in Step(p, s, c, d).0.entries
    ensures p.changeAllowed(c, d.scope, d.effectiveFrom)
    ensures p.replaceAllowed(c, d.scope, d.effectiveFrom, s.entries[r].provenance,
                             if d.target == Some(r) then d.operation else REMOVE)
    ensures if d.target == Some(r) then d.operation == UPDATE || d.operation == MERGE
      else r in d.removed && d.scope == PRESENT && c.factType == s.entries[r].slot.factType == STATUS
    ensures d.target == Some(r) ==> s.entries[r].slot == Slot(c.factType, d.resolvedKey)
  {
    assert r in Retired(d) && r in Requested(d);
  }

  /** What enters the snapshot takes the resolved slot, carries the proposed value in the type
      of its candidate, is not an inactive STATUS, and continues the provenance of the entry
      whose place it takes. */
  lemma EnteringIsProposed(p: Policy, s: Snapshot, c: Candidate, d: Decision, r: SnapshotRef)
    requires Coherent(s) && Projected(c.index) !in s.entries && r !in s.entries && r in Step(p, s, c, d).0.entries
    ensures var e := Step(p, s, c, d).0.entries[r]; var t := Slot(c.factType, d.resolvedKey);
      && r == Projected(c.index) && e.slot == t && d.proposal.Some? && e.proposal == d.proposal
      && e.source == Some(c.index) && c.index in e.dependencies
      && (t in s.refBySlot <==> d.operation == UPDATE || d.operation == MERGE)
      && e.provenance == Some(p.provenanceOf(c, d.effectiveFrom, d.operation,
        if t in s.refBySlot then s.entries[s.refBySlot[t]].provenance else None))
    ensures var typed := d.proposal.value.valueJson.typed;
      && (c.valueType == STRING ==> typed.TextField?) && (c.valueType == NUMBER ==> typed.NumberField?)
      && (c.valueType == BOOLEAN ==> typed.BooleanField?)
    ensures c.factType == STATUS ==> !Inactive(c.valueJson) && !Inactive(Some(d.proposal.value.valueJson))
    ensures d.scope == PRESENT && p.changeAllowed(c, d.scope, d.effectiveFrom)
  {
    hide SchemaValid, Permitted;
    EnteringIsScoped(p, s.entries, c, d);
    if d.operation == ADD { AddFindsEmptySlot(s, c, d); }
  }

  lemma EnteringIsScoped(p: Policy, entries: map<SnapshotRef, Entry>, c: Candidate, d: Decision)
    requires Accepts(p, entries, c, d) && Projects(d.operation)
    ensures d.proposal.Some? && d.scope == PRESENT && p.changeAllowed(c, d.scope, d.effectiveFrom)
    ensures d.target.Some? <==> d.operation == UPDATE || d.operation == MERGE
  {
  }

  lemma AddFindsEmptySlot(s: Snapshot, c: Candidate, d: Decision)
    requires Coherent(s) && WellAimed(s.entries, c, d) && d.operation == ADD
    ensures OwnSlot(c, d) !in s.refBySlot
  {
  }

  /** The recorded dependencies are the support of exactly the cells read. */
  lemma DependenciesAreReadSupport(s: Snapshot, c: Candidate, d: Decision, x: CandidateRef)
    requires Coherent(s) && Requested(d) <= s.entries.Keys
    requires d.operation == ADD ==> OwnSlot(c, d) !in s.refBySlot
    ensures x in DependenciesFor(s, c, d) <==>
      exists t :: t in Reads(s, c, d) && x in CellSupport(CellAt(s, t))
  {
    if x in DependenciesFor(s, c, d) {
      if x in SupportOf(s.entries, Requested(d)) {
        var r :| r in Requested(d) && r in s.entries && x in Support(s.entries[r]);
        var t := s.entries[r].slot;
        assert t in Reads(s, c, d) && x in CellSupport(CellAt(s, t));
      } else {
        var t := OwnSlot(c, d);
        assert t in Reads(s, c, d) && x in CellSupport(CellAt(s, t));
      }
    }
  }

  // ----- transferring a step between snapshots -------------------------------

  // Equal but for the proposed text and the recorded dependencies.
  predicate SameFact(a: Entry, b: Entry) {
    a.(proposal := b.proposal, dependencies := b.dependencies) == b
  }

  ghost predicate Similar(x: Cell, y: Cell) {
    if x.Occupied? then y.Occupied? && SameFact(x.entry, y.entry) else y.Vacant?
  }

  // g holds the same facts as f in every cell that d reads in f.
  ghost predicate ReadsAgree(f: Snapshot, g: Snapshot, c: Candidate, d: Decision)
    requires Coherent(f) && Coherent(g)
  {
    forall t | t in Reads(f, c, d) :: Similar(CellAt(f, t), CellAt(g, t))
  }

  ghost predicate ReadsEqual(f: Snapshot, g: Snapshot, c: Candidate, d: Decision)
    requires Coherent(f) && Coherent(g)
  {
    forall t | t in Reads(f, c, d) :: CellAt(f, t) == CellAt(g, t)
  }

  lemma RequestedAgree(f: Snapshot, g: Snapshot, c: Candidate, d: Decision)
    requires Coherent(f) && Coherent(g) && WellAimed(f.entries, c, d) && ReadsAgree(f, g, c, d)
    ensures forall r | r in Requested(d) :: r in g.entries && SameFact(f.entries[r], g.entries[r])
    ensures d.operation == ADD ==> OwnSlot(c, d) !in g.refBySlot && OwnSlot(c, d) !in f.refBySlot
    ensures WellAimed(g.entries, c, d)
  {
    forall r | r in Requested(d) ensures r in g.entries && SameFact(f.entries[r], g.entries[r]) {
      var t := f.entries[r].slot;
      assert t in Reads(f, c, d);
      assert CellAt(f, t) == Occupied(f.entries[r]);
    }
    if d.operation == ADD {
      var own := OwnSlot(c, d);
      assert own in Reads(f, c, d);
      assert CellAt(f, own).Vacant?;
    }
  }

  lemma PermissionTransfers(p: Policy, f: Snapshot, g: Snapshot, c: Candidate, d: Decision)
    requires SchemaValid(d) && Requested(d) <= f.entries.Keys && Requested(d) <= g.entries.Keys
    requires forall r | r in Requested(d) :: SameFact(f.entries[r], g.entries[r])
    ensures Permitted(p, f.entries, c, d) == Permitted(p, g.entries, c, d)
    ensures ContentOk(f.entries, c, d) == ContentOk(g.entries, c, d)
    ensures SameFact(NewEntry(p, f, c, d), NewEntry(p, g, c, d))
  {
    forall r | r in Requested(d)
      ensures f.entries[r].slot == g.entries[r].slot && f.entries[r].provenance == g.entries[r].provenance {
      assert SameFact(f.entries[r], g.entries[r]);
    }
  }

  /** Acceptance, and the effect on every slot, depend only on the cells read. */
  lemma StepTransfers(p: Policy, f: Snapshot, g: Snapshot, c: Candidate, d: Decision)
    requires Coherent(f) && Coherent(g) && ReadsAgree(f, g, c, d)
    requires Accepts(p, f.entries, c, d)
    ensures Accepts(p, g.entries, c, d)
    ensures Reads(g, c, d) == Reads(f, c, d) && Touched(g, c, d) == Touched(f, c, d) <= Reads(f, c, d)
    ensures SameFact(NewEntry(p, f, c, d), NewEntry(p, g, c, d))
  {
    RequestedAgree(f, g, c, d);
    PermissionTransfers(p, f, g, c, d);
    SlotsTransfer(f, g, c, d);
  }

  lemma SlotsTransfer(f: Snapshot, g: Snapshot, c: Candidate, d: Decision)
    requires Coherent(f) && Coherent(g) && WellAimed(f.entries, c, d)
    requires forall r | r in Requested(d) :: r in g.entries && SameFact(f.entries[r], g.entries[r])
    ensures Reads(g, c, d) == Reads(f, c, d) && Touched(g, c, d) == Touched(f, c, d) <= Reads(f, c, d)
  {
    forall r | r in Requested(d) ensures f.entries[r].slot == g.entries[r].slot {
      assert SameFact(f.entries[r], g.entries[r]);
    }
    assert SlotsOf(f.entries, Requested(d)) == SlotsOf(g.entries, Requested(d));
    assert SlotsOf(f.entries, Retired(d)) == SlotsOf(g.entries, Retired(d)) <= SlotsOf(f.entries, Requested(d));
    if Projects(d.operation) && d.operation != ADD {
      assert OwnSlot(c, d) in SlotsOf(f.entries, Requested(d));
    }
  }

  lemma EqualReadsEqualEffect(p: Policy, f: Snapshot, g: Snapshot, c: Candidate, d: Decision)
    requires Coherent(f) && Coherent(g) && WellAimed(f.entries, c, d) && ReadsEqual(f, g, c, d)
    ensures Requested(d) <= g.entries.Keys
    ensures DependenciesFor(f, c, d) == DependenciesFor(g, c, d)
    ensures NewEntry(p, f, c, d) == NewEntry(p, g, c, d)
  {
    DependenciesTransfer(f, g, c, d);
    RequestedAgree(f, g, c, d);
    if d.target.Some? { assert SameFact(f.entries[d.target.value], g.entries[d.target.value]); }
  }

  lemma DependenciesTransfer(f: Snapshot, g: Snapshot, c: Candidate, d: Decision)
    requires Coherent(f) && Coherent(g) && WellAimed(f.entries, c, d) && ReadsEqual(f, g, c, d)
    ensures Requested(d) <= g.entries.Keys
    ensures DependenciesFor(f, c, d) == DependenciesFor(g, c, d)
  {
    RequestedAgree(f, g, c, d);
    forall r | r in Requested(d) ensures f.entries[r] == g.entries[r] {
      var t := f.entries[r].slot;
      assert t in Reads(f, c, d);
    }
    assert SupportOf(f.entries, Requested(d)) == SupportOf(g.entries, Requested(d));
    if d.operation == ADD {
      assert OwnSlot(c, d) in Reads(f, c, d);
    }
  }

  // ----- the mutable state ---------------------------------------------------

  // The snapshot built from a list of entries, first to last.
  function Loaded(entries: seq<Entry>): Snapshot {
    if entries == [] then Snapshot(map[], map[], map[])
    else Inserting(Loaded(entries[..|entries| - 1]), entries[|entries| - 1])
  }

  // The two duplicate checks of the constructor.
  predicate Loadable(entries: seq<Entry>) {
    forall i, j :: 0 <= i < j < |entries| ==>
      entries[i].reference != entries[j].reference && entries[i].slot != entries[j].slot
  }

  lemma {:induction false} LoadedKeys(entries: seq<Entry>)
    ensures var s := Loaded(entries);
      && s.entries.Keys == (set i | 0 <= i < |entries| :: entries[i].reference)
      && s.refBySlot.Keys == (set i | 0 <= i < |entries| :: entries[i].slot)
      && s.absence == map[]
  {
    if entries != [] {
      var n := |entries| - 1;
      LoadedKeys(entries[..n]);
      assert (set i | 0 <= i < |entries| :: entries[i].reference)
          == (set i | 0 <= i < n :: entries[..n][i].reference) + {entries[n].reference};
      assert (set i | 0 <= i < |entries| :: entries[i].slot)
          == (set i | 0 <= i < n :: entries[..n][i].slot) + {entries[n].slot};
    }
  }

  lemma {:induction false} LoadedIsCoherent(entries: seq<Entry>)
    requires Loadable(entries)
    ensures Coherent(Loaded(entries))
  {
    if entries != [] {
      var n := |entries| - 1;
      LoadedIsCoherent(entries[..n]);
      LoadedKeys(entries[..n]);
      InsertingKeepsCoherence(Loaded(entries[..n]), entries[n]);
    }
  }

  lemma LoadableOneMore(entries: seq<Entry>, n: nat)
    requires n < |entries| && Loadable(entries[..n])
    ensures var s := Loaded(entries[..n]); var e := entries[n];
      if e.reference in s.entries || e.slot in s.refBySlot then !Loadable(entries) else Loadable(entries[..n + 1])
  {
    LoadedKeys(entries[..n]);
    var e := entries[n];
    if e.reference in Loaded(entries[..n]).entries {
      var i :| 0 <= i < n && entries[..n][i].reference == e.reference;
      assert entries[i].reference == e.reference;
    } else if e.slot in Loaded(entries[..n]).refBySlot {
      var i :| 0 <= i < n && entries[..n][i].slot == e.slot;
      assert entries[i].slot == e.slot;
    } else {
      forall i, j | 0 <= i < j < n + 1
        ensures entries[i].reference != entries[j].reference && entries[i].slot != entries[j].slot
      {
        assert entries[..n][i] == entries[i];
        if j < n { assert entries[..n][j] == entries[j]; }
      }
    }
  }

  lemma {:induction false} LoadedEntry(entries: seq<Entry>, i: nat)
    requires Loadable(entries) && i < |entries|
    ensures entries[i].reference in Loaded(entries).entries
    ensures Loaded(entries).entries[entries[i].reference] == entries[i]
  {
    var n := |entries| - 1;
    if i < n {
      LoadedEntry(entries[..n], i);
    }
  }

  lemma RemovingNothing(s: Snapshot, cause: set<CandidateRef>)
    ensures Removing(s, {}, cause) == s
  {
    assert SlotsOf(s.entries, {}) == {};
    assert s.absence + Emptied({}, cause) == s.absence;
  }

  lemma RemovingOneMore(s: Snapshot, refs: set<SnapshotRef>, r: SnapshotRef, cause: set<CandidateRef>)
    requires r in s.entries && r !in refs
    ensures Removing(Removing(s, refs, cause), {r}, cause) == Removing(s, refs + {r}, cause)
  {
    var slots, slot := SlotsOf(s.entries, refs), s.entries[r].slot;
    assert SlotsOf(s.entries - refs, {r}) == {slot};
    assert SlotsOf(s.entries, refs + {r}) == slots + {slot};
    assert s.entries - refs - {r} == s.entries - (refs + {r});
    assert s.refBySlot - slots - {slot} == s.refBySlot - (slots + {slot});
    assert Emptied(slots, cause) + Emptied({slot}, cause) == Emptied(slots + {slot}, cause);
    assert s.absence + Emptied(slots, cause) + Emptied({slot}, cause) == s.absence + Emptied(slots + {slot}, cause);
  }

  lemma SupportOneMore(entries: map<SnapshotRef, Entry>, refs: set<SnapshotRef>, r: SnapshotRef)
    requires r in entries
    ensures SupportOf(entries, refs + {r}) == SupportOf(entries, refs) + Support(entries[r])
  {
  }

  // The projection state rebuilt from a list of active entries forgets absences.
  function Throwaway(s: Snapshot): Snapshot {
    Snapshot(s.entries, s.refBySlot, map[])
  }

  ghost predicate Lists(list: seq<Entry>, entries: map<SnapshotRef, Entry>) {
    && (forall e | e in list :: e.reference in entries && entries[e.reference] == e)
    && (forall r | r in entries :: entries[r] in list)
  }

  lemma ListedEntries(entries: map<SnapshotRef, Entry>, list: seq<Entry>)
    requires Loadable(list) && Lists(list, entries)
    requires forall r | r in entries :: entries[r].reference == r
    ensures Loaded(list).entries == entries
  {
    LoadedKeys(list);
    var l := Loaded(list).entries;
    forall r | r in entries ensures r in l && l[r] == entries[r] {
      var i :| 0 <= i < |list| && list[i] == entries[r];
      LoadedEntry(list, i);
    }
    forall r | r in l ensures r in entries {
      var i :| 0 <= i < |list| && list[i].reference == r;
      assert list[i] in list;
    }
  }

  lemma ListingIsThrowaway(s: Snapshot, list: seq<Entry>)
    requires Coherent(s) && Loadable(list) && Lists(list, s.entries)
    ensures Loaded(list) == Throwaway(s)
  {
    ListedEntries(s.entries, list);
    LoadedKeys(list);
    LoadedIsCoherent(list);
    SlotMapsAgree(Loaded(list), s);
  }

  lemma SlotMapsAgree(f: Snapshot, g: Snapshot)
    requires Coherent(f) && Coherent(g) && f.entries == g.entries
    ensures f.refBySlot == g.refBySlot
  {
    forall t ensures t in f.refBySlot ==> t in g.refBySlot && g.refBySlot[t] == f.refBySlot[t] {
      if t in f.refBySlot { assert f.entries[f.refBySlot[t]].slot == t; }
    }
    forall t ensures t in g.refBySlot ==> t in f.refBySlot {
      if t in g.refBySlot { assert g.entries[g.refBySlot[t]].slot == t; }
    }
  }

  class CharacterProjectionState {
    const policy: Policy
    var entriesByRef: map<SnapshotRef, Entry>
    var refBySlot: map<Slot, SnapshotRef>
    var absenceBySlot: map<Slot, set<CandidateRef>>

    ghost function Value(): Snapshot
      reads this
    {
      Snapshot(entriesByRef, refBySlot, absenceBySlot)
    }

    constructor (policy: Policy)
      ensures this.policy == policy && Value() == Loaded([])
    {
      this.policy := policy;
      entriesByRef, refBySlot, absenceBySlot := map[], map[], map[];
    }

    /** None stands for the duplicate-reference and duplicate-slot errors. */
    static method FromEntries(policy: Policy, entries: seq<Entry>) returns (state: Option<CharacterProjectionState>)
      ensures state.Some? <==> Loadable(entries)
      ensures state.Some? ==>
        fresh(state.value) && state.value.policy == policy && state.value.Value() == Loaded(entries)
    {
      var s := new CharacterProjectionState(policy);
      for i := 0 to |entries|
        invariant s.Value() == Loaded(entries[..i]) && Loadable(entries[..i])
      {
        var e := entries[i];
        LoadedKeys(entries[..i]);
        assert entries[..i + 1][..i] == entries[..i] && entries[..i + 1][i] == e;
        LoadableOneMore(entries, i);
        if e.reference in s.entriesByRef || e.slot in s.refBySlot {
          return None;
        }
        s.InsertEntry(e);
      }
      assert entries[..|entries|] == entries;
      state := Some(s);
    }

    // The entries property; the order of a dictionary's values is not modelled.
    method ListEntries() returns (list: seq<Entry>)
      requires Coherent(Value())
      ensures Loadable(list) && Loaded(list) == Throwaway(Value())
    {
      list := [];
      var refs := entriesByRef.Keys;
      while refs != {}
        invariant refs <= entriesByRef.Keys
        invariant forall e | e in list :: e.reference in entriesByRef.Keys - refs && entriesByRef[e.reference] == e
        invariant forall r | r in entriesByRef.Keys - refs :: entriesByRef[r] in list
        invariant Loadable(list)
        decreases refs
      {
        var r :| r in refs;
        ghost var n := |list|;
        forall i | 0 <= i < n ensures list[i].reference != r && list[i].slot != entriesByRef[r].slot {
          assert list[i] in list;
        }
        list := list + [entriesByRef[r]];
        refs := refs - {r};
      }
      ListingIsThrowaway(Value(), list);
    }

    method InsertEntry(e: Entry)
      requires e.slot !in refBySlot
      modifies this
      ensures Value() == Inserting(old(Value()), e)
    {
      entriesByRef := entriesByRef[e.reference := e];
      refBySlot := refBySlot[e.slot := e.reference];
      absenceBySlot := absenceBySlot - {e.slot};
    }

    method RemoveEntry(reference: SnapshotRef, cause: set<CandidateRef>)
      requires reference in entriesByRef
      modifies this
      ensures Value() == Removing(old(Value()), {reference}, cause)
    {
      var slot := entriesByRef[reference].slot;
      assert SlotsOf(entriesByRef, {reference}) == {slot};
      assert absenceBySlot[slot := cause] == absenceBySlot + Emptied({slot}, cause);
      entriesByRef := entriesByRef - {reference};
      refBySlot := refBySlot - {slot};
      absenceBySlot := absenceBySlot[slot := cause];
    }

    method CollectDependencies(requested: seq<SnapshotRef>, absent: Option<Slot>)
      returns (dependencies: set<CandidateRef>)
      requires forall r | r in requested :: r in entriesByRef
      ensures dependencies == SupportOf(entriesByRef, SetOf(requested))
        + (if absent.Some? then AbsenceOf(Value(), absent.value) else {})
    {
      dependencies := {};
      for i := 0 to |requested|
        invariant dependencies == SupportOf(entriesByRef, SetOf(requested[..i]))
      {
        SetOfOneMore(requested, i);
        SupportOneMore(entriesByRef, SetOf(requested[..i]), requested[i]);
        var entry := entriesByRef[requested[i]];
        dependencies := dependencies + entry.dependencies;
        if entry.source.Some? {
          dependencies := dependencies + {entry.source.value};
        }
      }
      assert requested[..|requested|] == requested;
      if absent.Some? && absent.value in absenceBySlot {
        dependencies := dependencies + absenceBySlot[absent.value];
      }
    }

    method RemoveAll(refs: seq<SnapshotRef>, cause: set<CandidateRef>)
      requires Distinct(refs) && SetOf(refs) <= entriesByRef.Keys
      modifies this
      ensures Value() == Removing(old(Value()), SetOf(refs), cause)
    {
      ghost var before := Value();
      RemovingNothing(before, cause);
      for i := 0 to |refs|
        invariant Value() == Removing(before, SetOf(refs[..i]), cause)
      {
        SetOfOneMore(refs, i);
        RemovingOneMore(before, SetOf(refs[..i]), refs[i], cause);
        RemoveEntry(refs[i], cause);
      }
      assert refs[..|refs|] == refs;
    }

    // The removed references leave first, then the target that a projected entry replaces.
    method Retire(d: Decision, cause: set<CandidateRef>)
      requires Distinct(d.removed) && Requested(d) <= entriesByRef.Keys
      requires d.target.Some? ==> d.target.value !in d.removed
      modifies this
      ensures Value() == Removing(old(Value()), Retired(d), cause)
    {
      ghost var before := Value();
      RemoveAll(d.removed, cause);
      ghost var after := Value();
      if Projects(d.operation) && d.target.Some? {
        RemovingOneMore(before, RemovedSet(d), d.target.value, cause);
        assert d.target.value in after.entries;
        RemoveEntry(d.target.value, cause);
        assert Value() == Removing(after, {d.target.value}, cause);
        assert Retired(d) == RemovedSet(d) + {d.target.value};
      } else {
        assert Retired(d) == RemovedSet(d);
      }
    }

    // The part of apply that follows validation.
    method ApplyValidated(c: Candidate, d: Decision) returns (o: Outcome)
      requires Distinct(d.removed) && Requested(d) <= entriesByRef.Keys
      requires d.target.Some? ==> d.target.value !in d.removed
      modifies this
      ensures var s := old(Value()); var dependencies := DependenciesFor(s, c, d);
        (Value(), o) == Effect(s, d, NewEntry(policy, s, c, d), dependencies, dependencies + {c.index})
    {
      var requested := d.removed + (if d.target.Some? then [d.target.value] else []);
      assert SetOf(requested) == Requested(d);
      var dependencies := CollectDependencies(requested, if d.operation == ADD then Some(OwnSlot(c, d)) else None);
      assert dependencies == DependenciesFor(Value(), c, d);
      var previous := if d.target.Some? then entriesByRef[d.target.value].provenance else None;
      var entry := Entry(Projected(c.index), OwnSlot(c, d), d.proposal, Some(c.index), dependencies + {c.index},
                         Some(policy.provenanceOf(c, d.effectiveFrom, d.operation, previous)));
      Retire(d, dependencies + {c.index});
      if !Projects(d.operation) {
        o := Applied(None, dependencies);
      } else if entry.reference in entriesByRef {
        o := RefAlreadyActive;
      } else if entry.slot in refBySlot {
        o := SlotOccupied;
      } else {
        InsertEntry(entry);
        o := Applied(Some(entry), dependencies);
      }
    }

    /** The program's apply: the new state and the result are those of `Step`. */
    method Apply(c: Candidate, d: Decision) returns (o: Outcome)
      modifies this
      ensures (Value(), o) == Step(policy, old(Value()), c, d)
    {
      hide Permitted, ContentOk;
      var fault := ValidateDecision(policy, entriesByRef, c, d);
      if fault.Some? {
        return Rejected;
      }
      o := ApplyValidated(c, d);
    }
  }
}
