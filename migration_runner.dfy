/** The migration runner: walks a fixed, ordered registry, calls each
    migration, and tallies a summary { total, successful, failed, details }.
    A migration that raises is recorded as failed and the batch goes on. */
module MigrationRunner {
  import opened Json
  import opened Storage
  import opened SessionMigration

  /** A registered migration function. AuthSession is the session
      migration; Raises(message) stands for a registered function that
      raises before it writes anything, instead of returning a result. */
  datatype MigrationFn = AuthSession | Raises(message: string)

  datatype Entry = Entry(name: string, fn: MigrationFn)

  /** What calling a migration function produced. */
  datatype Outcome = Returned(result: MigrationResult) | Threw(message: string)

  /** { file, ...result }: one line of the summary. */
  datatype Detail = Detail(file: string, result: MigrationResult)

  datatype RunSummary = RunSummary(total: nat, successful: nat, failed: nat, details: seq<Detail>)

  /** The registry, in registration order. */
  const Registry: seq<Entry> := [Entry(TargetFile, AuthSession)]

  /** The backend faults met by the i-th call; none beyond the given ones. */
  function FaultsAt(faults: seq<Faults>, i: nat): Faults {
    if i < |faults| then faults[i] else NoFaults
  }

  datatype Effect = Effect(outcome: Outcome, files: map<string, Document>)

  /** Calling a migration function on the file store. */
  function Call(fn: MigrationFn, files: map<string, Document>, now: string, faults: Faults): (e: Effect)
    ensures fn.Raises? ==> e == Effect(Threw(fn.message), files)
    ensures fn.AuthSession? ==>
              e.outcome == Returned(Migration(files, now, faults).result) &&
              e.files == Migration(files, now, faults).files
  {
    match fn
    case AuthSession =>
      var s := Migration(files, now, faults);
      Effect(Returned(s.result), s.files)
    case Raises(message) => Effect(Threw(message), files)
  }

  method Invoke(fn: MigrationFn, store: FileStore, now: string, faults: Faults) returns (outcome: Outcome)
    modifies store
    ensures Effect(outcome, store.files) == Call(fn, old(store.files), now, faults)
  {
    match fn
    case AuthSession =>
      var result := MigrateAuthSession(store, now, faults);
      outcome := Returned(result);
    case Raises(message) =>
      outcome := Threw(message);
  }

  /** `result.migrated`: counted as successful. */
  predicate Succeeded(o: Outcome) {
    o.Returned? && o.result.migrated
  }

  /** `else if (result.error)` (a non-empty message), or the call raised. */
  predicate Failed(o: Outcome) {
    o.Threw? || (o.Returned? && !o.result.migrated && o.result.error.Some? && o.result.error.value != "")
  }

  function CountSucceeded(os: seq<Outcome>): nat {
    if os == [] then 0 else (if Succeeded(os[0]) then 1 else 0) + CountSucceeded(os[1..])
  }

  function CountFailed(os: seq<Outcome>): nat {
    if os == [] then 0 else (if Failed(os[0]) then 1 else 0) + CountFailed(os[1..])
  }

  /** Counting one more outcome adds one to at most one of the counters. */
  lemma {:induction false} CountAppend(os: seq<Outcome>, o: Outcome)
    ensures CountSucceeded(os + [o]) == CountSucceeded(os) + if Succeeded(o) then 1 else 0
    ensures CountFailed(os + [o]) == CountFailed(os) + if Failed(o) then 1 else 0
  {
    if os != [] {
      assert (os + [o])[1..] == os[1..] + [o];
      CountAppend(os[1..], o);
    }
  }

  /** No outcome is both successful and failed, and "already current"
      outcomes are neither, so the two counters never exceed the total. */
  lemma {:induction false} CountBound(os: seq<Outcome>)
    ensures CountSucceeded(os) + CountFailed(os) <= |os|
  {
    if os != [] {
      CountBound(os[1..]);
    }
  }

  /** The detail recorded for an outcome: the returned result as is, or
      { migrated: false, error: message } for a raise. */
  function DetailOf(name: string, o: Outcome): (d: Detail)
    ensures d.file == name
    ensures o.Returned? ==> d.result == o.result
    ensures o.Threw? ==> d.result == MigrationResult(false, None, Some(o.message))
  {
    match o
    case Returned(result) => Detail(name, result)
    case Threw(message) => Detail(name, MigrationResult(false, None, Some(message)))
  }

  /** The outcomes of the first n calls and the file store they leave. */
  datatype Trace = Trace(outcomes: seq<Outcome>, files: map<string, Document>)

  /** Calls the first n entries of the registry in order, each on the store
      its predecessor left. */
  function Run(registry: seq<Entry>, n: nat, files: map<string, Document>, now: string, faults: seq<Faults>): (t: Trace)
    requires n <= |registry|
    // every entry is called, in order, even after one raised
    ensures |t.outcomes| == n
    ensures forall i :: 0 <= i < n && registry[i].fn.Raises? ==> t.outcomes[i] == Threw(registry[i].fn.message)
    ensures forall i :: 0 <= i < n && registry[i].fn.AuthSession? ==> t.outcomes[i].Returned?
    decreases n
  {
    if n == 0 then Trace([], files)
    else
      var t := Run(registry, n - 1, files, now, faults);
      var e := Call(registry[n - 1].fn, t.files, now, FaultsAt(faults, n - 1));
      Trace(t.outcomes + [e.outcome], e.files)
  }

  /** A longer run begins with the outcomes of a shorter one. */
  lemma {:induction false} RunPrefix(registry: seq<Entry>, i: nat, n: nat, files: map<string, Document>,
                                     now: string, faults: seq<Faults>)
    requires i <= n <= |registry|
    ensures Run(registry, n, files, now, faults).outcomes[..i] == Run(registry, i, files, now, faults).outcomes
    decreases n
  {
    if i < n {
      RunPrefix(registry, i, n - 1, files, now, faults);
      assert Run(registry, n, files, now, faults).outcomes[..n - 1] == Run(registry, n - 1, files, now, faults).outcomes;
    }
  }

  /** Outcome i of any run is entry i called on the store that entries
      0..i-1 left, with the faults of the i-th call. */
  lemma {:induction false} RunOutcomeAt(registry: seq<Entry>, n: nat, files: map<string, Document>,
                                        now: string, faults: seq<Faults>, i: nat)
    requires i < n <= |registry|
    ensures Run(registry, n, files, now, faults).outcomes[i] ==
            Call(registry[i].fn, Run(registry, i, files, now, faults).files, now, FaultsAt(faults, i)).outcome
  {
    RunPrefix(registry, i + 1, n, files, now, faults);
    assert Run(registry, n, files, now, faults).outcomes[i] == Run(registry, n, files, now, faults).outcomes[..i + 1][i];
  }

  /** The summary the runner reports for the outcomes of its calls. */
  function Summary(registry: seq<Entry>, outcomes: seq<Outcome>): (s: RunSummary)
    requires |outcomes| == |registry|
    ensures s.total == |registry|
    ensures |s.details| == |registry|
    ensures forall i :: 0 <= i < |registry| ==> s.details[i] == DetailOf(registry[i].name, outcomes[i])
    // the counters count the migrated outcomes and the failed ones
    ensures s.successful == CountSucceeded(outcomes) && s.failed == CountFailed(outcomes)
    ensures s.successful + s.failed <= s.total
  {
    CountBound(outcomes);
    RunSummary(|registry|, CountSucceeded(outcomes), CountFailed(outcomes),
               seq(|outcomes|, i requires 0 <= i < |outcomes| => DetailOf(registry[i].name, outcomes[i])))
  }

  /** The runner's loop over a registry. */
  method RunRegistry(store: FileStore, registry: seq<Entry>, now: string, faults: seq<Faults>)
    returns (summary: RunSummary)
    modifies store
    ensures summary == Summary(registry, Run(registry, |registry|, old(store.files), now, faults).outcomes)
    ensures store.files == Run(registry, |registry|, old(store.files), now, faults).files
  {
    ghost var files0 := store.files;
    summary := RunSummary(0, 0, 0, []);
    summary := summary.(total := |registry|);
    ghost var outcomes: seq<Outcome> := [];
    var i: nat := 0;
    while i < |registry|
      invariant i <= |registry|
      invariant Trace(outcomes, store.files) == Run(registry, i, files0, now, faults)
      invariant summary.total == |registry|
      invariant summary.successful == CountSucceeded(outcomes)
      invariant summary.failed == CountFailed(outcomes)
      invariant |summary.details| == i
      invariant forall k :: 0 <= k < i ==> summary.details[k] == DetailOf(registry[k].name, outcomes[k])
    {
      var entry := registry[i];
      var outcome := Invoke(entry.fn, store, now, FaultsAt(faults, i));
      assert Trace(outcomes + [outcome], store.files) == Run(registry, i + 1, files0, now, faults);
      match outcome {
        case Returned(result) =>
          summary := summary.(details := summary.details + [Detail(entry.name, result)]);
          if result.migrated {
            summary := summary.(successful := summary.successful + 1);
          } else if result.error.Some? && result.error.value != "" {
            summary := summary.(failed := summary.failed + 1);
          }
        case Threw(message) =>
          summary := summary.(failed := summary.failed + 1);
          summary := summary.(details := summary.details + [Detail(entry.name, MigrationResult(false, None, Some(message)))]);
      }
      CountAppend(outcomes, outcome);
      outcomes := outcomes + [outcome];
      i := i + 1;
    }
    assert summary.details == Summary(registry, outcomes).details;
  }

  /** runMigrations(readJson, writeJson): the runner over the registry. */
  method RunMigrations(store: FileStore, now: string, faults: seq<Faults>) returns (summary: RunSummary)
    modifies store
    ensures summary == Summary(Registry, Run(Registry, 1, old(store.files), now, faults).outcomes)
    ensures store.files == Run(Registry, 1, old(store.files), now, faults).files
    ensures summary.total == 1 && |summary.details| == 1 && summary.details[0].file == TargetFile
  {
    summary := RunRegistry(store, Registry, now, faults);
  }

  /** Running the registry twice in a row: when the first run's session
      migration reported no error, the second run migrates nothing and
      leaves the store as the first run left it. */
  lemma RerunMigratesNothing(files: map<string, Document>, now1: string, faults1: seq<Faults>,
                             now2: string, faults2: seq<Faults>)
    requires Run(Registry, 1, files, now1, faults1).outcomes[0].result.error.None?
    ensures var first := Run(Registry, 1, files, now1, faults1);
            var second := Run(Registry, 1, first.files, now2, faults2);
            Summary(Registry, second.outcomes).successful == 0 && second.files == first.files
  {
    var first := Run(Registry, 1, files, now1, faults1);
    var second := Run(Registry, 1, first.files, now2, faults2);
    assert Registry[0].fn == AuthSession;
    assert first.outcomes[0] == Returned(Migration(files, now1, FaultsAt(faults1, 0)).result);
    assert first.files == Migration(files, now1, FaultsAt(faults1, 0)).files;
    MigrationIdempotent(files, now1, FaultsAt(faults1, 0), now2, FaultsAt(faults2, 0));
    assert second.outcomes == [Returned(Migration(first.files, now2, FaultsAt(faults2, 0)).result)];
    assert second.files == Migration(first.files, now2, FaultsAt(faults2, 0)).files;
    assert !Succeeded(second.outcomes[0]);
    assert second.outcomes[1..] == [];
    assert CountSucceeded(second.outcomes) == 0;
    assert Summary(Registry, second.outcomes).successful == 0;
    assert second.files == first.files;
  }

  /** One raising entry among n: it is counted once as failed, its detail
      carries its message, and the entries after it are still called. */
  lemma {:induction false} RaiseIsIsolated(registry: seq<Entry>, files: map<string, Document>, now: string,
                                           faults: seq<Faults>, j: nat)
    requires j < |registry| && registry[j].fn.Raises?
    ensures var s := Summary(registry, Run(registry, |registry|, files, now, faults).outcomes);
            s.details[j] == Detail(registry[j].name, MigrationResult(false, None, Some(registry[j].fn.message))) &&
            s.failed >= 1 && |s.details| == |registry|
  {
    var os := Run(registry, |registry|, files, now, faults).outcomes;
    CountFailedPositive(os, j);
  }

  lemma {:induction false} CountFailedPositive(os: seq<Outcome>, j: nat)
    requires j < |os| && Failed(os[j])
    ensures CountFailed(os) >= 1
  {
    if j > 0 {
      CountFailedPositive(os[1..], j - 1);
    }
  }
}
