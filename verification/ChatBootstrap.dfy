/**
 Crash-safe activation of chat, from deploy/bootstrap-chat-runtime.py.  Three things
 outlive a crash: state.json, api.env and the environment of the running process.  The
 procedures may stop before any write, and the operator may edit CHAT_ENABLED in
 api.env at any moment.
 */
module ChatBootstrap {
  import opened Options

  // The settings that the bootstrap knows, and any others.
  datatype Key = SECRET | URL | ENABLED | OPERATIONS | MARKER | ACTIVATION | Other(name: string)

  type Env = map<Key, string>

  const VERSION := "1"
  const MIN_SECRET: nat := 32

  // An unset variable reads as the empty string.
  function Get(env: Env, k: Key): string {
    if k in env then env[k] else ""
  }

  function Lower(value: string): string {
    seq(|value|, i requires 0 <= i < |value| => if 'A' <= value[i] <= 'Z' then value[i] - 'A' + 'a' else value[i])
  }

  predicate IsEnabled(value: string) {
    Lower(value) == "true"
  }

  /** Chat is enabled by the word "true", in whatever case. */
  lemma EnabledIsTrue(value: string)
    ensures IsEnabled(value) <==>
      |value| == 4 && value[0] in {'t', 'T'} && value[1] in {'r', 'R'} && value[2] in {'u', 'U'}
        && value[3] in {'e', 'E'}
  {
    var lower := Lower(value);
    assert |lower| == |value|;
    if lower == "true" {
      assert lower[0] == 't' && lower[1] == 'r' && lower[2] == 'u' && lower[3] == 'e';
    }
    assert "true"[0] == 't' && "true"[1] == 'r' && "true"[2] == 'u' && "true"[3] == 'e';
  }

  // What Compose resolves: the file over the defaults of the Compose definition.
  function Resolve(defaults: Env, file: Env): Env {
    defaults + file
  }

  // state.json, as far as the API is concerned.
  datatype Api = Api(
    prepared: bool, pending: Option<Env>, restartRequired: bool,
    activationPending: bool, activationDone: bool, activationId: Option<string>)

  // A secret that is set but too short is refused.
  predicate SecretTooShort(env: Env) {
    Get(env, SECRET) != "" && |Get(env, SECRET)| < MIN_SECRET
  }

  // The changes of the preparation; the secret is generated only if there is none.
  function PendingChanges(env: Env, content: Env, url: string, secret: string): Env {
    map[OPERATIONS := "true", MARKER := VERSION]
    + (if Get(env, SECRET) == "" then map[SECRET := secret] else map[])
    + (if Get(env, URL) == "" then map[URL := url] else map[])
    + (if ENABLED !in content then map[ENABLED := if IsEnabled(Get(env, ENABLED)) then "true" else "false"] else map[])
  }

  // The changes, one after the other.
  method CollectChanges(env: Env, content: Env, url: string, token: string) returns (changes: Env)
    ensures changes == PendingChanges(env, content, url, token)
  {
    changes := map[OPERATIONS := "true", MARKER := VERSION];
    if Get(env, SECRET) == "" {
      changes := changes[SECRET := token];
    }
    if Get(env, URL) == "" {
      changes := changes[URL := url];
    }
    if ENABLED !in content {
      var enabled := IsEnabled(Get(env, ENABLED));
      changes := changes[ENABLED := if enabled then "true" else "false"];
    }
  }

  predicate RestartNeeded(env: Env, changes: Env) {
    exists k | k in changes :: k != MARKER && Get(env, k) != changes[k]
  }

  // Settings whose effect on the process does not depend on the operator or on our markers.
  predicate Settled(k: Key) {
    k != ENABLED && k != MARKER && k != ACTIVATION
  }

  ghost predicate SameButEnabled(a: Env, b: Env) {
    forall k | k != ENABLED :: (k in a <==> k in b) && (k in a && k in b ==> a[k] == b[k])
  }

  // The file carries the recorded changes; CHAT_ENABLED belongs to the operator.
  ghost predicate Carries(file: Env, changes: Env) {
    forall k | k in changes && k != ENABLED :: k in file && file[k] == changes[k]
  }

  /** A resumed preparation keeps the operator's current CHAT_ENABLED exactly if the file
      had such a line when the preparation was recorded, or says what was recorded. */
  lemma PreparationKeepsEnabled(defaults: Env, before: Env, now: Env, url: string, secret: string)
    ensures var changes := PendingChanges(Resolve(defaults, before), before, url, secret);
      Get(now + changes, ENABLED) == Get(now, ENABLED) <==>
        ENABLED in before || Get(now, ENABLED) == (if IsEnabled(Get(defaults, ENABLED)) then "true" else "false")
  {
  }

  // ----- what stays true of the durable state ------------------------------------------

  // The process runs with the resolved settings of the file.
  ghost predicate Synced(defaults: Env, file: Env, running: Env) {
    forall k | Settled(k) :: Get(running, k) == Get(Resolve(defaults, file), k)
  }

  // Writing the recorded changes would change no resolved setting.
  ghost predicate Harmless(defaults: Env, file: Env, changes: Env) {
    forall k | k in changes && Settled(k) :: Get(Resolve(defaults, file), k) == changes[k]
  }

  // The recorded changes leave no needed setting open.
  ghost predicate Complete(defaults: Env, file: Env, changes: Env) {
    && MARKER in changes && changes[MARKER] == VERSION && OPERATIONS in changes && changes[OPERATIONS] == "true"
    && ACTIVATION !in changes
    && (if SECRET in changes then |changes[SECRET]| >= MIN_SECRET
      else |Get(Resolve(defaults, file), SECRET)| >= MIN_SECRET)
    && (if URL in changes then changes[URL] != "" else Get(Resolve(defaults, file), URL) != "")
  }

  // recorded is the first durable record of changes, if there is one.
  ghost predicate RecordOk(defaults: Env, disk: Api, file: Env, recorded: Option<Env>, secretsWritten: set<string>) {
    match recorded
    case None => disk.pending.None? && !disk.prepared && MARKER !in file && secretsWritten == {}
    case Some(changes) =>
      && Complete(defaults, file, changes)
      && (disk.prepared || disk.pending == recorded)
      && (MARKER in file ==> Carries(file, changes))
      && (forall s | s in secretsWritten :: SECRET in changes && s == changes[SECRET])
  }

  ghost predicate PreparationOk(defaults: Env, disk: Api, file: Env, running: Env, recorded: Option<Env>) {
    && (disk.prepared ==> MARKER in file)
    && (MARKER !in file ==> Synced(defaults, file, running))
    && (disk.prepared || (MARKER in file && !disk.restartRequired) ==> Synced(defaults, file, running))
    && (recorded.Some? && MARKER !in file && !disk.restartRequired ==> Harmless(defaults, file, recorded.value))
  }

  // operatorSays is what the operator has set since chat was enabled.
  ghost predicate ActivationOk(disk: Api, file: Env, enableWrites: nat, operatorSays: Option<string>) {
    && enableWrites <= 1
    && (enableWrites == 1 ==>
        disk.prepared && disk.activationId.Some? && ACTIVATION in file && file[ACTIVATION] == disk.activationId.value)
    && (ACTIVATION in file ==> enableWrites == 1)
    && (operatorSays.Some? ==> enableWrites == 1 && Get(file, ENABLED) == operatorSays.value)
    && (enableWrites == 1 && operatorSays.None? ==> Get(file, ENABLED) == "true")
  }

  lemma SameResolved(defaults: Env, a: Env, b: Env)
    requires SameButEnabled(a, b)
    ensures forall k | k != ENABLED :: Get(Resolve(defaults, a), k) == Get(Resolve(defaults, b), k)
  {
  }

  lemma SameAsItself(content: Env)
    ensures SameButEnabled(content, content)
  {
  }

  lemma SameThrough(a: Env, b: Env, c: Env)
    requires SameButEnabled(a, b) && SameButEnabled(b, c)
    ensures SameButEnabled(a, c)
  {
  }

  // Edits of CHAT_ENABLED alone disturb nothing.
  lemma EditKeeps(defaults: Env, disk: Api, before: Env, after: Env, running: Env, recorded: Option<Env>,
                  secretsWritten: set<string>)
    requires SameButEnabled(before, after)
    requires RecordOk(defaults, disk, before, recorded, secretsWritten)
      && PreparationOk(defaults, disk, before, running, recorded)
    ensures RecordOk(defaults, disk, after, recorded, secretsWritten)
      && PreparationOk(defaults, disk, after, running, recorded)
  {
    hide Resolve;
    SameResolved(defaults, before, after);
  }

  lemma FirstChangesAreComplete(defaults: Env, content: Env, file: Env, url: string, secret: string)
    requires SameButEnabled(content, file) && url != "" && |secret| >= MIN_SECRET
      && !SecretTooShort(Resolve(defaults, content))
    ensures Complete(defaults, file, PendingChanges(Resolve(defaults, content), content, url, secret))
  {
    hide Resolve, SameButEnabled;
    SameResolved(defaults, content, file);
  }

  lemma NoRestartIsHarmless(defaults: Env, content: Env, file: Env, changes: Env)
    requires SameButEnabled(content, file) && !RestartNeeded(Resolve(defaults, content), changes)
    ensures Harmless(defaults, file, changes)
  {
    hide Resolve;
    SameResolved(defaults, content, file);
    forall k | k in changes && Settled(k) ensures Get(Resolve(defaults, file), k) == changes[k] {
      assert Get(Resolve(defaults, content), k) == changes[k];
    }
  }

  lemma FirstRecordKeeps(defaults: Env, disk: Api, api: Api, content: Env, file: Env, running: Env, url: string,
                         secret: string)
    requires RecordOk(defaults, disk, file, None, {}) && PreparationOk(defaults, disk, file, running, None)
    requires SameButEnabled(content, file) && url != "" && |secret| >= MIN_SECRET && !api.prepared
    requires !SecretTooShort(Resolve(defaults, content))
    requires api.pending == Some(PendingChanges(Resolve(defaults, content), content, url, secret))
    requires !api.restartRequired ==> !RestartNeeded(Resolve(defaults, content), api.pending.value)
    ensures RecordOk(defaults, api, file, api.pending, {}) && PreparationOk(defaults, api, file, running, api.pending)
  {
    hide Resolve, PendingChanges, Complete, Harmless, SameButEnabled, RestartNeeded, Carries, SecretTooShort;
    FirstChangesAreComplete(defaults, content, file, url, secret);
    if !api.restartRequired {
      NoRestartIsHarmless(defaults, content, file, api.pending.value);
    }
  }

  lemma WrittenResolves(defaults: Env, content: Env, file: Env, changes: Env)
    requires SameButEnabled(content, file)
    ensures forall k | k != ENABLED ::
      Get(Resolve(defaults, content + changes), k) == if k in changes then changes[k]
        else Get(Resolve(defaults, file), k)
  {
    SameResolved(defaults, content, file);
  }

  // A setting that had a value keeps it, and one that had none has this one.
  ghost predicate KeptOrSet(before: Env, after: Env, k: Key, value: string) {
    Get(after, k) == if Get(before, k) != "" then Get(before, k) else value
  }

  // A preparation fills in what is missing: the secret and the URL that were set stay, and
  // lines that are none of its settings are as they were.
  ghost predicate FillsIn(defaults: Env, before: Env, after: Env, url: string, token: string) {
    && KeptOrSet(Resolve(defaults, before), Resolve(defaults, after), SECRET, token)
    && KeptOrSet(Resolve(defaults, before), Resolve(defaults, after), URL, url)
    && Get(Resolve(defaults, after), OPERATIONS) == "true" && Get(after, MARKER) == VERSION
    && (forall k: Key | k.Other? || k == ACTIVATION ::
      (k in after <==> k in before) && (k in after ==> after[k] == before[k]))
  }

  lemma RecordedValues(env: Env, content: Env, url: string, token: string)
    ensures var changes := PendingChanges(env, content, url, token);
      && changes.Keys <= {SECRET, URL, ENABLED, OPERATIONS, MARKER}
      && (SECRET in changes <==> Get(env, SECRET) == "") && (SECRET in changes ==> changes[SECRET] == token)
      && (URL in changes <==> Get(env, URL) == "") && (URL in changes ==> changes[URL] == url)
      && OPERATIONS in changes && changes[OPERATIONS] == "true" && MARKER in changes && changes[MARKER] == VERSION
  {
  }

  // Lines that the changes do not name are as they were.
  lemma OtherLines(before: Env, changes: Env, after: Env, k: Key)
    requires SameButEnabled(before + changes, after) && k != ENABLED && k !in changes
    ensures (k in after <==> k in before) && (k in after ==> after[k] == before[k])
  {
  }

  lemma NewLine(before: Env, changes: Env, after: Env, k: Key)
    requires SameButEnabled(before + changes, after) && k != ENABLED && k in changes
    ensures Get(after, k) == changes[k]
  {
  }

  /** The recorded changes, written over the file, fill in what is missing; edits of
      CHAT_ENABLED change nothing about that. */
  lemma ChangesFillIn(defaults: Env, before: Env, after: Env, url: string, token: string)
    requires SameButEnabled(before + PendingChanges(Resolve(defaults, before), before, url, token), after)
    ensures FillsIn(defaults, before, after, url, token)
  {
    hide PendingChanges, Resolve, SameButEnabled;
    var changes := PendingChanges(Resolve(defaults, before), before, url, token);
    RecordedValues(Resolve(defaults, before), before, url, token);
    SameAsItself(before);
    WrittenResolves(defaults, before, before, changes);
    SameResolved(defaults, before + changes, after);
    NewLine(before, changes, after, MARKER);
    forall k: Key | k.Other? || k == ACTIVATION
      ensures (k in after <==> k in before) && (k in after ==> after[k] == before[k])
    {
      OtherLines(before, changes, after, k);
    }
  }

  /** A restart is recorded as needed exactly if the changes give the process another value
      of some setting but the marker. */
  lemma RestartIsChange(defaults: Env, before: Env, changes: Env)
    ensures RestartNeeded(Resolve(defaults, before), changes) <==> Changes(defaults, before, before + changes)
  {
    hide Resolve;
    WrittenValues(defaults, before, changes);
  }

  // The process would see another value of some setting but the marker.
  ghost predicate Changes(defaults: Env, before: Env, after: Env) {
    exists k :: k != MARKER && Get(Resolve(defaults, before), k) != Get(Resolve(defaults, after), k)
  }

  lemma WrittenValues(defaults: Env, before: Env, changes: Env)
    ensures forall k | k in changes :: Get(Resolve(defaults, before + changes), k) == changes[k]
    ensures forall k | k !in changes :: Get(Resolve(defaults, before + changes), k) == Get(Resolve(defaults, before), k)
  {
  }

  lemma WriteKeepsRecord(defaults: Env, disk: Api, content: Env, file: Env, changes: Env, secretsWritten: set<string>)
    requires RecordOk(defaults, disk, file, Some(changes), secretsWritten) && !disk.prepared
      && SameButEnabled(content, file)
    ensures var written := if SECRET in changes then {changes[SECRET]} else {};
      RecordOk(defaults, disk, content + changes, Some(changes), secretsWritten + written)
  {
    hide Resolve, SameButEnabled;
    WrittenResolves(defaults, content, file, changes);
  }

  lemma WriteKeepsPreparation(defaults: Env, disk: Api, content: Env, file: Env, running: Env, changes: Env)
    requires PreparationOk(defaults, disk, file, running, Some(changes)) && !disk.prepared
    requires SameButEnabled(content, file) && MARKER !in content && MARKER in changes
    ensures PreparationOk(defaults, disk, content + changes, running, Some(changes))
  {
    MarkerAgrees(content, file);
    hide Resolve, SameButEnabled;
    WrittenResolves(defaults, content, file, changes);
  }

  lemma MarkerAgrees(content: Env, file: Env)
    requires SameButEnabled(content, file)
    ensures MARKER in content <==> MARKER in file
  {
  }

  // The recorded changes do not touch the marker of the activation.
  lemma WriteKeepsActivation(defaults: Env, disk: Api, content: Env, file: Env, changes: Env,
                             secretsWritten: set<string>)
    requires RecordOk(defaults, disk, file, Some(changes), secretsWritten) && SameButEnabled(content, file)
    ensures ACTIVATION in content + changes <==> ACTIVATION in file
  {
  }

  lemma WriteKeeps(defaults: Env, disk: Api, content: Env, file: Env, running: Env, changes: Env,
                   secretsWritten: set<string>)
    requires RecordOk(defaults, disk, file, Some(changes), secretsWritten) && !disk.prepared
    requires PreparationOk(defaults, disk, file, running, Some(changes))
    requires SameButEnabled(content, file) && MARKER !in content
    ensures var written := if SECRET in changes then {changes[SECRET]} else {};
      RecordOk(defaults, disk, content + changes, Some(changes), secretsWritten + written)
    ensures PreparationOk(defaults, disk, content + changes, running, Some(changes)) && MARKER in content + changes
  {
    hide Resolve, SameButEnabled, PreparationOk, Carries;
    WriteKeepsRecord(defaults, disk, content, file, changes, secretsWritten);
    WriteKeepsPreparation(defaults, disk, content, file, running, changes);
  }

  lemma ActivationSettles(defaults: Env, content: Env, file: Env, id: string)
    requires SameButEnabled(content, file)
    ensures var after := content + map[ENABLED := "true", ACTIVATION := id];
      && (forall k | Settled(k) :: Get(Resolve(defaults, after), k) == Get(Resolve(defaults, file), k))
      && (forall k | k != ENABLED && k != ACTIVATION && k in file :: k in after && after[k] == file[k])
      && (MARKER in after <==> MARKER in file)
  {
    SameResolved(defaults, content, file);
  }

  lemma ActivationKeeps(defaults: Env, disk: Api, content: Env, file: Env, running: Env, recorded: Option<Env>,
                        secretsWritten: set<string>, id: string)
    requires RecordOk(defaults, disk, file, recorded, secretsWritten) && disk.prepared
    requires PreparationOk(defaults, disk, file, running, recorded) && SameButEnabled(content, file)
    ensures var after := content + map[ENABLED := "true", ACTIVATION := id];
      RecordOk(defaults, disk, after, recorded, secretsWritten)
        && PreparationOk(defaults, disk, after, running, recorded)
  {
    hide Resolve, SameButEnabled, Harmless;
    ActivationSettles(defaults, content, file, id);
  }

  datatype Result = Prepared | Activated | AlreadyEnabled | Skipped | Refused | NotEnabled | Stopped

  // What the activation meets: failing checks, chat that answers already, and whether it
  // answers after the restart.
  datatype Health = Health(checksFail: bool, publicChat: bool, works: bool)

  predicate IsActivated(api: Api, file: Env) {
    api.activationId.Some? && ACTIVATION in file && file[ACTIVATION] == api.activationId.value
  }

  // How an activation ends that is not stopped.
  function ActivationEnd(api: Api, enabled: bool, activated: bool, health: Health): Result {
    if !api.prepared then Refused
    else if !api.activationPending then (if enabled then AlreadyEnabled else Skipped)
    else if health.checksFail then Refused
    else if activated && !enabled then Skipped
    else if !activated && enabled && health.publicChat then AlreadyEnabled
    else if health.works then Activated
    else NotEnabled
  }

  const LAST_STEP: nat := 4

  // What the operator does in each gap between two steps of a procedure.
  type Gaps = nat -> seq<Option<string>>

  // The operator sets CHAT_ENABLED, or takes the line out.
  function Edit(file: Env, value: Option<string>): Env {
    if value.Some? then file[ENABLED := value.value] else file - {ENABLED}
  }

  function Edited(file: Env, edits: seq<Option<string>>): Env {
    if edits == [] then file else Edit(Edited(file, edits[..|edits| - 1]), edits[|edits| - 1])
  }

  lemma {:induction false} EditsAreOfEnabled(file: Env, edits: seq<Option<string>>)
    ensures SameButEnabled(file, Edited(file, edits))
  {
    if edits != [] { EditsAreOfEnabled(file, edits[..|edits| - 1]); }
  }

  lemma EditedMore(file: Env, edits: seq<Option<string>>, i: nat)
    requires i < |edits|
    ensures Edited(file, edits[..i + 1]) == Edit(Edited(file, edits[..i]), edits[i])
  {
    assert edits[..i + 1][..i] == edits[..i];
  }

  /** The file that a preparation leaves when it stops before step `crash`, or ends.  The
      recorded changes are written over the content that was read first, so edits in the
      first two gaps are lost with the write. */
  function FileAfter(content: Env, changes: Option<Env>, afresh: bool, crash: nat, gaps: Gaps): Env {
    var recordedOver := if afresh then Edited(content, gaps(0)) else content;
    var beforeWrite := Edited(recordedOver, gaps(1));
    var written :=
      if (MARKER in content && content[MARKER] == VERSION) || changes.None? then beforeWrite
      else content + changes.value;
    if afresh && crash == 0 then recordedOver
    else if crash == 1 then beforeWrite
    else if crash == 2 then Edited(written, gaps(2))
    else Edited(Edited(written, gaps(2)), gaps(3))
  }

  // Every line but those of CHAT_ENABLED and of the activation is as it was.
  ghost predicate OtherLinesStay(before: Env, after: Env) {
    forall k | k != ENABLED && k != ACTIVATION :: (k in before <==> k in after)
      && (k in after ==> before[k] == after[k])
  }

  // The process runs with the file as it was before the last edits.
  ghost predicate RestartedBefore(defaults: Env, running: Env, file: Env, edits: seq<Option<string>>) {
    exists restarted: Env :: running == Resolve(defaults, restarted) && file == Edited(restarted, edits)
  }

  class Host {
    const defaults: Env
    var disk: Api
    var file: Env
    var running: Env

    // The changes of the first durable record; every secret written; how often the
    // activation was written, and what the operator has set since.
    ghost var recorded: Option<Env>
    ghost var secretsWritten: set<string>
    ghost var enableWrites: nat
    ghost var operatorSays: Option<string>

    ghost predicate Valid()
      reads this
    {
      && RecordOk(defaults, disk, file, recorded, secretsWritten)
      && PreparationOk(defaults, disk, file, running, recorded)
      && ActivationOk(disk, file, enableWrites, operatorSays)
    }

    constructor (defaults: Env, file: Env)
      requires MARKER !in file && ACTIVATION !in file
      ensures Valid() && recorded == None && enableWrites == 0 && operatorSays == None
      ensures this.defaults == defaults && this.file == file && disk == Api(false, None, false, false, false, None)
    {
      this.defaults, this.file, running := defaults, file, Resolve(defaults, file);
      disk := Api(false, None, false, false, false, None);
      recorded, secretsWritten, enableWrites, operatorSays := None, {}, 0, None;
    }

    method OperatorEdit(value: Option<string>)
      requires Valid()
      modifies this`file, this`operatorSays
      ensures Valid() && SameButEnabled(old(file), file) && file == Edit(old(file), value)
      ensures enableWrites == 1 ==> operatorSays == Some(Get(file, ENABLED))
      ensures old(operatorSays).Some? ==> operatorSays.Some?
    {
      hide RecordOk, PreparationOk;
      ghost var before := file;
      file := Edit(file, value);
      operatorSays := if enableWrites == 1 then Some(Get(file, ENABLED)) else None;
      EditKeeps(defaults, disk, before, file, running, recorded, secretsWritten);
    }

    // The operator's edits in one gap.
    method Meanwhile(edits: seq<Option<string>>)
      requires Valid()
      modifies this`file, this`operatorSays
      ensures Valid() && SameButEnabled(old(file), file) && file == Edited(old(file), edits)
      ensures old(operatorSays).Some? ==> operatorSays.Some?
    {
      hide Valid, Edit, Edited, SameButEnabled;
      EditsAreOfEnabled(file, edits);
      NoEdits(file, edits[..0]);
      for i := 0 to |edits|
        invariant Valid() && file == Edited(old(file), edits[..i])
        invariant old(operatorSays).Some? ==> operatorSays.Some?
      {
        EditedMore(old(file), edits, i);
        OperatorEdit(edits[i]);
      }
      assert edits[..|edits|] == edits;
    }

    lemma NoEdits(content: Env, edits: seq<Option<string>>)
      requires edits == []
      ensures Edited(content, edits) == content
    {
    }

    // ----- preparation --------------------------------------------------------------

    // The first durable record: nothing of it is in the file yet.
    method SaveRecord(api: Api, url: string, secret: string, ghost content: Env)
      requires Valid() && recorded.None? && SameButEnabled(content, file) && url != "" && |secret| >= MIN_SECRET
      requires !SecretTooShort(Resolve(defaults, content))
      requires api.pending == Some(PendingChanges(Resolve(defaults, content), content, url, secret))
      requires !api.prepared && (!api.restartRequired ==> !RestartNeeded(Resolve(defaults, content), api.pending.value))
      modifies this`disk, this`recorded
      ensures Valid() && disk == api && recorded == api.pending
    {
      hide PreparationOk, PendingChanges, RestartNeeded, SameButEnabled, Resolve, SecretTooShort;
      FirstRecordKeeps(defaults, disk, api, content, file, running, url, secret);
      disk, recorded := api, api.pending;
    }

    // The atomic write of the recorded changes over the content that was read.
    method WriteRecord(content: Env, changes: Env)
      requires Valid() && recorded == Some(changes) && !disk.prepared && MARKER !in content
        && SameButEnabled(content, file)
      modifies this`file, this`secretsWritten
      ensures Valid() && file == content + changes && MARKER in file
      ensures secretsWritten == old(secretsWritten) + (if SECRET in changes then {changes[SECRET]} else {})
    {
      hide RecordOk, PreparationOk, SameButEnabled;
      WriteKeeps(defaults, disk, content, file, running, changes, secretsWritten);
      WriteKeepsActivation(defaults, disk, content, file, changes, secretsWritten);
      file := content + changes;
      secretsWritten := secretsWritten + (if SECRET in changes then {changes[SECRET]} else {});
    }

    // Recreating the process gives it the settings of the file as it then is.
    method Restart()
      requires Valid()
      modifies this`running
      ensures Valid() && Synced(defaults, file, running) && running == Resolve(defaults, file)
    {
      running := Resolve(defaults, file);
    }

    method SavePrepared(api: Api)
      requires Valid() && MARKER in file && Synced(defaults, file, running) && enableWrites == 0
      modifies this`disk
      ensures Valid() && disk == api.(prepared := true, pending := None, restartRequired := false)
    {
      disk := api.(prepared := true, pending := None, restartRequired := false);
    }

    // What a procedure can tell from the state it reads while nothing is prepared yet.
    lemma Unprepared()
      requires Valid() && !disk.prepared
      ensures enableWrites == 0
      ensures disk.pending == recorded && (MARKER in file ==> recorded.Some? && file[MARKER] == VERSION)
    {
    }

    // After the write, or without any need for one, only a required restart is missing.
    lemma WrittenIsSynced()
      requires Valid() && MARKER in file && !disk.restartRequired
      ensures Synced(defaults, file, running)
    {
    }

    lemma SyncedThroughEdits(before: Env)
      requires SameButEnabled(before, file) && Synced(defaults, before, running)
      ensures Synced(defaults, file, running)
    {
      SameResolved(defaults, before, file);
    }

    // From the durable record on: write if it is not written, restart if it is required, save.
    method FinishPreparation(api: Api, content: Env, crash: nat, gaps: Gaps) returns (result: Result)
      requires Valid() && !disk.prepared && disk == api && SameButEnabled(content, file)
      requires MARKER !in content ==> api.pending.Some?
      modifies this
      ensures var written := if MARKER in content then old(file) else content + api.pending.value;
        file == if crash == 2 then Edited(written, gaps(2)) else Edited(Edited(written, gaps(2)), gaps(3))
      ensures MARKER !in content ==> SameButEnabled(content + api.pending.value, file)
      ensures Valid() && enableWrites == old(enableWrites) && recorded == old(recorded) && result in {Prepared, Stopped}
      ensures result == Prepared ==> disk == api.(prepared := true, pending := None, restartRequired := false)
      ensures result == Stopped ==> disk == api
      ensures result == Stopped <==> crash == 2 || crash == 3
      ensures old(operatorSays).Some? ==> operatorSays.Some?
    {
      hide Valid, Synced, SameButEnabled, Edited;
      Unprepared();
      if MARKER !in content {
        WriteRecord(content, api.pending.value);
      } else {
        MarkerSeen(content);
      }
      ghost var written := file;
      Meanwhile(gaps(2));
      if crash == 2 { return Stopped; }
      if api.restartRequired {
        Restart();
      } else {
        MarkerThrough(written);
        WrittenIsSynced();
      }
      MarkerThrough(written);
      ghost var restarted := file;
      Meanwhile(gaps(3));
      SameThrough(written, restarted, file);
      if crash == 3 { return Stopped; }
      MarkerThrough(restarted);
      SyncedThroughEdits(restarted);
      SavePrepared(api);
      result := Prepared;
    }

    lemma MarkerSeen(content: Env)
      requires SameButEnabled(content, file) && MARKER in content
      ensures MARKER in file
    {
    }

    lemma MarkerThrough(before: Env)
      requires SameButEnabled(before, file) && MARKER in before
      ensures MARKER in file
    {
    }

    // A preparation that has nothing recorded or written yet.
    predicate StartsAfresh()
      reads this`disk, this`file
    {
      !disk.prepared && disk.pending.None? && !(MARKER in file && file[MARKER] == VERSION)
    }

    // The changes of a first preparation become durable before anything is written.
    method RecordFirst(content: Env, url: string, token: string, crash: nat, gaps: Gaps)
      returns (api: Api, stopped: bool)
      requires Valid() && StartsAfresh() && content == file && url != "" && |token| >= MIN_SECRET
      requires !SecretTooShort(Resolve(defaults, content))
      modifies this`disk, this`file, this`recorded, this`operatorSays
      ensures Valid() && file == Edited(content, gaps(0)) && SameButEnabled(content, file)
      ensures old(recorded).None? && (stopped <==> crash == 0)
      ensures stopped ==> disk == old(disk) && recorded == old(recorded)
      ensures !stopped ==>
        && disk == api && !api.prepared && recorded == api.pending
        && recorded == Some(PendingChanges(Resolve(defaults, content), content, url, token))
        && (api.restartRequired <==> Changes(defaults, content, content + recorded.value))
        && (api.activationPending <==> !IsEnabled(Get(Resolve(defaults, content), ENABLED)))
      ensures old(operatorSays).Some? ==> operatorSays.Some?
    {
      hide Valid, SameButEnabled, PendingChanges, RestartNeeded, SecretTooShort, Edited, Resolve, IsEnabled, Changes;
      Unprepared();
      var env := Resolve(defaults, content);
      var changes := CollectChanges(env, content, url, token);
      RestartIsChange(defaults, content, changes);
      api := disk.(pending := Some(changes), restartRequired := RestartNeeded(env, changes),
        activationPending := !IsEnabled(Get(env, ENABLED)));
      Meanwhile(gaps(0));
      stopped := crash == 0;
      if !stopped {
        SaveRecord(api, url, token, content);
      }
    }

    /** Preparing the API, stopped before step `crash` if there is such a step.  However
        often it is stopped and started again, every secret it writes is the one first
        recorded durably, and it only reports success once the changes are in the file and
        the process runs with them. */
    method PrepareApi(url: string, token: string, crash: nat, gaps: Gaps) returns (result: Result)
      requires Valid() && url != "" && |token| >= MIN_SECRET
      modifies this
      ensures Valid() && enableWrites == old(enableWrites) && result in {Prepared, Refused, Stopped}
      ensures result == Refused <==> old(StartsAfresh()) && SecretTooShort(Resolve(defaults, old(file)))
      ensures result == Prepared ==> disk.prepared
      ensures result == Stopped ==> !disk.prepared && crash < LAST_STEP
      ensures result == Refused || old(disk.prepared) ==>
        disk == old(disk) && file == old(file) && recorded == old(recorded)
      ensures old(StartsAfresh()) && recorded.Some? ==>
        && recorded == Some(PendingChanges(Resolve(defaults, old(file)), old(file), url, token))
        && (disk.activationPending <==> !IsEnabled(Get(Resolve(defaults, old(file)), ENABLED)))
      ensures old(StartsAfresh()) && (result == Prepared || crash == 1) && result != Refused ==> recorded.Some?
      ensures !old(disk.prepared) && result != Refused ==>
        file == FileAfter(old(file), recorded, old(StartsAfresh()), crash, gaps)
      ensures !old(disk.prepared) && result != Refused && 1 <= crash <= 3 ==> result == Stopped
      ensures old(StartsAfresh()) && result == Prepared ==> FillsIn(defaults, old(file), file, url, token)
      ensures old(StartsAfresh()) && result == Stopped && recorded.Some? ==>
        (disk.restartRequired <==> Changes(defaults, old(file), old(file) + recorded.value))
      ensures crash >= LAST_STEP ==> result != Stopped
      ensures old(recorded).Some? ==> recorded == old(recorded)
      ensures !old(StartsAfresh()) ==> disk.activationPending == old(disk.activationPending)
      ensures old(operatorSays).Some? ==> operatorSays.Some?
    {
      hide Valid, SameButEnabled, PendingChanges, RestartNeeded, Edited, Resolve, IsEnabled, FillsIn, Changes;
      var api, content := disk, file;
      var env := Resolve(defaults, content);
      if api.prepared {
        return Prepared;
      }
      Unprepared();
      SameAsItself(content);
      var alreadyWritten := MARKER in content && content[MARKER] == VERSION;
      if api.pending.None? && !alreadyWritten {
        if Get(env, SECRET) != "" && |Get(env, SECRET)| < MIN_SECRET {
          return Refused;
        }
        var stopped;
        api, stopped := RecordFirst(content, url, token, crash, gaps);
        if stopped { return Stopped; }
      }
      ghost var saved := file;
      Meanwhile(gaps(1));
      SameThrough(content, saved, file);
      if crash == 1 { return Stopped; }
      result := FinishPreparation(api, content, crash, gaps);
      if old(StartsAfresh()) && result == Prepared {
        ChangesFillIn(defaults, content, file, url, token);
      }
    }

    // ----- activation -----------------------------------------------------------------

    method SaveActivation(api: Api)
      requires Valid() && disk.prepared && api.prepared && (enableWrites == 1 ==> api.activationId == disk.activationId)
      modifies this`disk
      ensures Valid() && disk == api
    {
      disk := api;
    }

    // The one write that enables chat.
    method WriteActivation(content: Env, id: string)
      requires Valid() && disk.prepared && enableWrites == 0 && disk.activationId == Some(id)
        && SameButEnabled(content, file)
      modifies this`file, this`enableWrites, this`operatorSays
      ensures Valid() && enableWrites == 1 && file == content + map[ENABLED := "true", ACTIVATION := id]
    {
      hide RecordOk, PreparationOk, SameButEnabled;
      ActivationKeeps(defaults, disk, content, file, running, recorded, secretsWritten, id);
      file := content + map[ENABLED := "true", ACTIVATION := id];
      enableWrites, operatorSays := 1, None;
    }

    // Once chat was enabled, every run finds its own marker in the file.
    lemma EnabledIsMarked(content: Env)
      requires Valid() && SameButEnabled(content, file)
      ensures enableWrites <= 1 && (operatorSays.Some? ==> enableWrites == 1)
      ensures enableWrites == 1 <==> IsActivated(disk, content)
      ensures enableWrites == 1 ==> disk.prepared
    {
    }

    lemma ButEnabledIsOther()
      ensures forall a, b | SameButEnabled(a, b) :: OtherLinesStay(a, b)
      ensures forall a, b, c | OtherLinesStay(a, b) && SameButEnabled(b, c) :: OtherLinesStay(a, c)
    {
    }

    // Restart and final record; chat stays as the file says.
    method FinishActivation(api: Api, restart: bool, works: bool, crash: nat, gaps: Gaps) returns (stopped: bool)
      requires Valid() && disk.prepared && disk == api
      modifies this`file, this`operatorSays, this`running, this`disk
      ensures Valid() && disk.prepared && enableWrites == old(enableWrites) && recorded == old(recorded)
      ensures SameButEnabled(old(file), file)
      ensures old(operatorSays).Some? ==> operatorSays.Some?
      ensures stopped ==> crash < LAST_STEP && disk == api
      ensures restart && !stopped ==> RestartedBefore(defaults, running, file, gaps(3))
      ensures !stopped ==> disk == if restart && !works then api
        else api.(activationPending := false, activationDone := true)
    {
      hide Valid, SameButEnabled, Edited;
      ghost var first := file;
      Meanwhile(gaps(2));
      ghost var second := file;
      if crash == 2 { return true; }
      if restart {
        Restart();
        Meanwhile(gaps(3));
        SameThrough(first, second, file);
        if crash == 3 { return true; }
        assert RestartedBefore(defaults, running, file, gaps(3)) by { assert file == Edited(second, gaps(3)); }
        if !works { return false; }
      }
      SaveActivation(api.(activationPending := false, activationDone := true));
      stopped := false;
    }

    // A first enabling: the identifier is durable before the file changes.
    method Enable(api: Api, content: Env, id: string, crash: nat, gaps: Gaps) returns (stopped: bool)
      requires Valid() && disk.prepared && enableWrites == 0 && SameButEnabled(content, file)
      requires api.prepared && api.activationId == Some(id)
      modifies this
      ensures Valid() && disk.prepared && enableWrites <= 1 && recorded == old(recorded)
      ensures stopped ==> crash < 2 && enableWrites == 0
      ensures !stopped ==>
        enableWrites == 1 && disk == api && file == content + map[ENABLED := "true", ACTIVATION := id]
      ensures !stopped ==> OtherLinesStay(content, file)
      ensures stopped ==> SameButEnabled(old(file), file) && (disk == api || disk == old(disk))
    {
      hide Valid, SameButEnabled, Edited;
      ghost var first := file;
      Meanwhile(gaps(0));
      SameThrough(content, first, file);
      if crash == 0 { return true; }
      SaveActivation(api);
      ghost var second := file;
      Meanwhile(gaps(1));
      SameThrough(content, second, file);
      SameThrough(first, second, file);
      if crash == 1 { return true; }
      WriteActivation(content, id);
      stopped := false;
    }

    /** Activating the API, stopped before step `crash` if there is such a step.  The
        enabling change is written at most once in the life of a host; after it, this
        procedure only ever leaves the file as the operator has it. */
    method ActivateApi(token: string, health: Health, crash: nat, gaps: Gaps) returns (result: Result)
      requires Valid()
      modifies this
      ensures Valid() && old(enableWrites) <= enableWrites <= 1
      ensures recorded == old(recorded) && disk.prepared == old(disk.prepared)
      ensures old(enableWrites) == 1 ==> SameButEnabled(old(file), file)
      ensures old(operatorSays).Some? ==> operatorSays.Some?
      ensures var enabled := IsEnabled(Get(Resolve(defaults, old(file)), ENABLED));
        result == Stopped || result == ActivationEnd(old(disk), enabled, IsActivated(old(disk), old(file)), health)
      ensures result == Stopped ==> crash < LAST_STEP
      ensures result in {Activated, NotEnabled} ==> enableWrites == 1
      ensures result == Activated || (result in {Skipped, AlreadyEnabled} && old(disk.activationPending)) ==>
        disk.activationDone && !disk.activationPending
      ensures result == Refused || (result in {Skipped, AlreadyEnabled} && !old(disk.activationPending)) ==>
        disk == old(disk) && file == old(file)
      ensures OtherLinesStay(old(file), file) && (enableWrites == old(enableWrites) ==> SameButEnabled(old(file), file))
      ensures disk.activationId == old(disk.activationId)
        || (old(disk.activationId).None? && disk.activationId == Some(token))
      ensures result == NotEnabled ==> disk == old(disk).(activationId := disk.activationId)
      ensures result in {Activated, NotEnabled} ==> RestartedBefore(defaults, running, file, gaps(3))
    {
      hide Valid, SameButEnabled, OtherLinesStay, RestartedBefore;
      ButEnabledIsOther();
      var api, content := disk, file;
      SameAsItself(content);
      EnabledIsMarked(content);
      var enabled := IsEnabled(Get(Resolve(defaults, content), ENABLED));
      if !api.prepared {
        return Refused;
      }
      if !api.activationPending {
        return if enabled then AlreadyEnabled else Skipped;
      }
      if health.checksFail {
        return Refused;
      }
      var stopped;
      if api.activationId.Some? && ACTIVATION in content && content[ACTIVATION] == api.activationId.value {
        if !enabled {
          stopped := FinishActivation(api, false, true, crash, gaps);
          return if stopped then Stopped else Skipped;
        }
      } else {
        if enabled && health.publicChat {
          stopped := FinishActivation(api, false, true, crash, gaps);
          return if stopped then Stopped else AlreadyEnabled;
        }
        var id := if api.activationId.Some? then api.activationId.value else token;
        api := api.(activationId := Some(id));
        stopped := Enable(api, content, id, crash, gaps);
        if stopped { return Stopped; }
      }
      stopped := FinishActivation(api, true, health.works, crash, gaps);
      result := if stopped then Stopped else if health.works then Activated else NotEnabled;
    }

    /** What holds whenever nothing is running, and after every crash: a prepared host
        carries the recorded changes and its process runs with them, secret included; all
        secrets ever written are the recorded one; and once chat was enabled the file says
        what the operator said last. */
    lemma Guarantees()
      requires Valid()
      ensures disk.prepared ==> recorded.Some? && Carries(file, recorded.value)
      ensures disk.prepared ==>
        |Get(running, SECRET)| >= MIN_SECRET && Get(running, OPERATIONS) == "true" && Get(running, URL) != ""
      ensures forall s | s in secretsWritten ::
        recorded.Some? && SECRET in recorded.value && s == recorded.value[SECRET]
      ensures enableWrites <= 1 && (operatorSays.Some? ==> Get(file, ENABLED) == operatorSays.value)
      ensures enableWrites == 1 && operatorSays.None? ==> Get(file, ENABLED) == "true"
    {
      if disk.prepared {
        var changes := recorded.value;
        assert Settled(SECRET) && Settled(OPERATIONS) && Settled(URL);
        assert OPERATIONS in file;
        assert SECRET in changes ==> file[SECRET] == changes[SECRET];
        assert URL in changes ==> file[URL] == changes[URL];
        assert file[OPERATIONS] == "true";
      }
    }
  }

  datatype Action =
    | Prepare(url: string, token: string, crash: nat, gaps: Gaps)
    | Activate(id: string, health: Health, crash: nat, gaps: Gaps)
    | Change(value: Option<string>)

  /** Any sequence of runs, crashes and edits: the first durable record is never replaced,
      chat is enabled at most once, and what the operator said last after that is what the
      file says. */
  method RunAll(host: Host, actions: seq<Action>)
    requires host.Valid()
    requires forall a | a in actions && a.Prepare? :: a.url != "" && |a.token| >= MIN_SECRET
    modifies host
    ensures host.Valid() && old(host.enableWrites) <= host.enableWrites <= 1
    ensures old(host.recorded).Some? ==> host.recorded == old(host.recorded)
    ensures old(host.disk.prepared) ==> host.disk.prepared
    ensures old(host.operatorSays).Some? ==>
      host.operatorSays.Some? && Get(host.file, ENABLED) == host.operatorSays.value
  {
    for i := 0 to |actions|
      invariant host.Valid() && old(host.enableWrites) <= host.enableWrites
      invariant old(host.recorded).Some? ==> host.recorded == old(host.recorded)
      invariant old(host.disk.prepared) ==> host.disk.prepared
      invariant old(host.operatorSays).Some? ==> host.operatorSays.Some?
    {
      var a := actions[i];
      match a {
        case Prepare(url, token, crash, gaps) => var r := host.PrepareApi(url, token, crash, gaps);
        case Activate(id, health, crash, gaps) => var r := host.ActivateApi(id, health, crash, gaps);
        case Change(value) => host.OperatorEdit(value);
      }
    }
    host.Guarantees();
  }

  function NoGaps(): Gaps {
    step => []
  }

  lemma FilesWithoutGaps(file: Env, edited: Env, changes: Env)
    ensures FileAfter(file, Some(changes), true, 1, NoGaps()) == file
    ensures MARKER !in edited ==> FileAfter(edited, Some(changes), false, LAST_STEP, NoGaps()) == edited + changes
  {
  }

  /** A preparation is stopped once its changes are durable, the operator edits CHAT_ENABLED,
      and the next preparation resumes: the edit survives exactly if the file had such a line
      when the changes were recorded, or the edit says what was recorded. */
  method EditBetweenPreparations(defaults: Env, file: Env, url: string, token: string, value: Option<string>)
    returns (host: Host)
    requires MARKER !in file && ACTIVATION !in file && url != "" && |token| >= MIN_SECRET
    requires !SecretTooShort(Resolve(defaults, file))
    ensures fresh(host) && host.Valid() && host.disk.prepared
    ensures Get(host.file, ENABLED) == Get(Edit(file, value), ENABLED) <==>
      ENABLED in file
      || Get(Edit(file, value), ENABLED) == (if IsEnabled(Get(defaults, ENABLED)) then "true" else "false")
  {
    hide Host.Valid, PendingChanges, FileAfter, Resolve, SecretTooShort, IsEnabled;
    ghost var changes := PendingChanges(Resolve(defaults, file), file, url, token);
    host := new Host(defaults, file);
    FilesWithoutGaps(file, Edit(file, value), changes);
    var result := host.PrepareApi(url, token, 1, NoGaps());
    host.OperatorEdit(value);
    host.Unprepared();
    result := host.PrepareApi(url, token, LAST_STEP, NoGaps());
    PreparationKeepsEnabled(defaults, file, Edit(file, value), url, token);
  }

  /** The edit can be lost: the operator has said "true" and the file says "false". */
  method EditIsLost(url: string, token: string) returns (host: Host)
    requires url != "" && |token| >= MIN_SECRET
    ensures fresh(host) && host.Valid() && host.disk.prepared && Get(host.file, ENABLED) != "true"
  {
    host := EditBetweenPreparations(map[], map[], url, token, Some("true"));
  }
}
