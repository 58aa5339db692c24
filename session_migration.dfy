/** The v1 to v2 migration of the stored auth session (auth/session.json):
    rename subscriptionExpiry to planExpiry, default lastLoginAt, stamp
    _schemaVersion 2 and keep every other field. A failing read, version
    comparison or write is reported in the result, never raised. */
module SessionMigration {
  import opened Json
  import opened Storage

  const TargetFile := "auth/session.json"
  const CurrentVersion := 2

  const SchemaVersionKey := "_schemaVersion"
  const SubscriptionExpiry := "subscriptionExpiry"
  const PlanExpiry := "planExpiry"
  const LastLoginAt := "lastLoginAt"

  /** { migrated, version?, error? } as returned by a migration function. */
  datatype MigrationResult = MigrationResult(migrated: bool, version: Option<Value>, error: Option<string>)

  /** `data._schemaVersion ?? 1`: an absent (or null) version reads as 1. */
  function SchemaVersion(data: Document): (v: Value)
    ensures v != Null
    ensures SchemaVersionKey !in data || data[SchemaVersionKey] == Null ==> v == Num(1)
    ensures SchemaVersionKey in data && data[SchemaVersionKey] != Null ==> v == data[SchemaVersionKey]
  {
    if SchemaVersionKey in data && data[SchemaVersionKey] != Null then data[SchemaVersionKey] else Num(1)
  }

  /** The message of the TypeError raised by a version that cannot be
      converted to a primitive value. */
  const ConversionMessage := "Cannot convert object to primitive value"

  /** `currentVersion >= CURRENT_VERSION` under JavaScript comparison;
      false for NaN and for a conversion that raises. */
  predicate IsCurrent(version: Value) {
    match ToNumber(version)
    case Number(n) => n >= CurrentVersion
    case _ => false
  }

  /** Whether evaluating `currentVersion >= CURRENT_VERSION` raises. */
  predicate CompareThrows(version: Value) {
    ToNumber(version).ConversionError?
  }

  /** The rule-specific transform, applied to a shallow copy of the stored
      object: the copy's fields are renamed, defaulted and stamped. */
  function MigrateDocument(data: Document, now: string): (r: Document)
    // the version stamp makes the result current
    ensures SchemaVersionKey in r && r[SchemaVersionKey] == Num(CurrentVersion)
    ensures IsCurrent(SchemaVersion(r))
    // rename: the old name is gone and its value lives on under the new one
    ensures SubscriptionExpiry !in r
    ensures SubscriptionExpiry in data ==> PlanExpiry in r && r[PlanExpiry] == data[SubscriptionExpiry]
    ensures SubscriptionExpiry !in data ==>
              (PlanExpiry in r <==> PlanExpiry in data) &&
              (PlanExpiry in data ==> r[PlanExpiry] == data[PlanExpiry])
    // default: a truthy lastLoginAt survives, anything else becomes now
    ensures LastLoginAt in r
    ensures LastLoginAt in data && Truthy(data[LastLoginAt]) ==> r[LastLoginAt] == data[LastLoginAt]
    ensures !(LastLoginAt in data && Truthy(data[LastLoginAt])) ==> r[LastLoginAt] == Str(now)
    // every field outside the rule passes through unchanged
    ensures forall k :: k != SchemaVersionKey && k != SubscriptionExpiry && k != PlanExpiry && k != LastLoginAt ==>
              (k in r <==> k in data) && (k in data ==> r[k] == data[k])
  {
    var renamed :=
      if SubscriptionExpiry in data
      then (data - {SubscriptionExpiry})[PlanExpiry := data[SubscriptionExpiry]]
      else data;
    var withLogin :=
      if LastLoginAt in renamed && Truthy(renamed[LastLoginAt]) then renamed
      else renamed[LastLoginAt := Str(now)];
    withLogin[SchemaVersionKey := Num(CurrentVersion)]
  }

  /** What one call of the migration returns and leaves in the file store. */
  datatype Step = Step(result: MigrationResult, files: map<string, Document>)

  /** The stored session as read with defaultToObject: a missing file is {}. */
  function StoredSession(files: map<string, Document>): Document {
    if TargetFile in files then files[TargetFile] else map[]
  }

  /** One call of the migration against the file store `files`; `faults`
      says whether readJson or writeJson raises. */
  function Migration(files: map<string, Document>, now: string, faults: Faults): (s: Step)
    // it writes only when it migrates, and then only the session file
    ensures !s.result.migrated ==> s.files == files
    ensures s.result.migrated ==>
              s.files == files[TargetFile := MigrateDocument(StoredSession(files), now)]
    // it migrates exactly when the read succeeds, the version compares as behind and the write succeeds
    ensures s.result.migrated <==>
              faults.onRead.None? && !CompareThrows(SchemaVersion(StoredSession(files))) &&
              !IsCurrent(SchemaVersion(StoredSession(files))) && faults.onWrite.None?
    ensures s.result.migrated ==> s.result == MigrationResult(true, Some(Num(CurrentVersion)), None)
    // the version guard: an already current record is reported, not rewritten
    ensures faults.onRead.None? && IsCurrent(SchemaVersion(StoredSession(files))) ==>
              s.result == MigrationResult(false, Some(SchemaVersion(StoredSession(files))), None)
    // a raising backend call or comparison becomes an error result carrying its message
    ensures faults.onRead.Some? ==> s.result == MigrationResult(false, None, faults.onRead)
    ensures faults.onRead.None? && CompareThrows(SchemaVersion(StoredSession(files))) ==>
              s.result == MigrationResult(false, None, Some(ConversionMessage))
    ensures faults.onRead.None? && !CompareThrows(SchemaVersion(StoredSession(files))) &&
            !IsCurrent(SchemaVersion(StoredSession(files))) && faults.onWrite.Some? ==>
              s.result == MigrationResult(false, None, faults.onWrite)
  {
    if faults.onRead.Some? then
      Step(MigrationResult(false, None, faults.onRead), files)
    else
      var data := StoredSession(files);
      var currentVersion := SchemaVersion(data);
      if CompareThrows(currentVersion) then
        Step(MigrationResult(false, None, Some(ConversionMessage)), files)
      else if IsCurrent(currentVersion) then
        Step(MigrationResult(false, Some(currentVersion), None), files)
      else
        var migrated := MigrateDocument(data, now);
        if faults.onWrite.Some? then
          Step(MigrationResult(false, None, faults.onWrite), files)
        else
          Step(MigrationResult(true, Some(Num(CurrentVersion)), None), files[TargetFile := migrated])
  }

  /** migrateAuthSession(readJson, writeJson) against the file store. */
  method MigrateAuthSession(store: FileStore, now: string, faults: Faults) returns (result: MigrationResult)
    modifies store
    ensures result == Migration(old(store.files), now, faults).result
    ensures store.files == Migration(old(store.files), now, faults).files
  {
    if faults.onRead.Some? {
      return MigrationResult(false, None, faults.onRead);
    }
    var data := store.ReadJson(TargetFile, true).value;
    var currentVersion := SchemaVersion(data);
    if CompareThrows(currentVersion) {
      return MigrationResult(false, None, Some(ConversionMessage));
    }
    if IsCurrent(currentVersion) {
      return MigrationResult(false, Some(currentVersion), None);
    }
    var migrated := MigrateDocument(data, now);
    if faults.onWrite.Some? {
      return MigrationResult(false, None, faults.onWrite);
    }
    store.WriteJson(TargetFile, migrated);
    result := MigrationResult(true, Some(Num(CurrentVersion)), None);
  }

  /** A record without _schemaVersion (or no record at all) is taken to be
      at version 1, so a fault-free call migrates it to version 2. */
  lemma UntaggedSessionMigrates(files: map<string, Document>, now: string)
    requires SchemaVersionKey !in StoredSession(files)
    ensures var s := Migration(files, now, NoFaults);
            s.result == MigrationResult(true, Some(Num(CurrentVersion)), None) &&
            TargetFile in s.files && s.files[TargetFile][SchemaVersionKey] == Num(CurrentVersion)
  {
  }

  /** Idempotence: once a call has not reported an error, the record is
      current, so any later call migrates nothing and writes nothing. */
  lemma MigrationIdempotent(files: map<string, Document>, now1: string, faults1: Faults,
                            now2: string, faults2: Faults)
    requires Migration(files, now1, faults1).result.error.None?
    ensures var s1 := Migration(files, now1, faults1);
            var s2 := Migration(s1.files, now2, faults2);
            !s2.result.migrated && s2.files == s1.files &&
            (faults2.onRead.None? ==> s2.result.error.None?)
  {
  }

  /** {subscriptionExpiry: "2024-01-01"} becomes
      {planExpiry: "2024-01-01", lastLoginAt: now, _schemaVersion: 2}. */
  lemma RenameScenario(now: string)
    ensures MigrateDocument(map[SubscriptionExpiry := Str("2024-01-01")], now) ==
            map[PlanExpiry := Str("2024-01-01"), LastLoginAt := Str(now), SchemaVersionKey := Num(2)]
  {
  }

  /** With no stored record the migration writes {lastLoginAt: now, _schemaVersion: 2}. */
  lemma MissingSessionScenario(now: string)
    ensures Migration(map[], now, NoFaults).files ==
            map[TargetFile := map[LastLoginAt := Str(now), SchemaVersionKey := Num(2)]]
  {
  }

  /** {_schemaVersion: 2, foo: "bar"} is already current: reported as
      version 2 and left untouched. */
  lemma CurrentSessionScenario(files: map<string, Document>, now: string, faults: Faults)
    requires faults.onRead.None?
    requires TargetFile in files && files[TargetFile] == map[SchemaVersionKey := Num(2), "foo" := Str("bar")]
    ensures Migration(files, now, faults) == Step(MigrationResult(false, Some(Num(2)), None), files)
  {
  }

  /** A version object with its own toString property cannot be compared:
      the call reports the TypeError and writes nothing. */
  lemma UnconvertibleVersionFails(files: map<string, Document>, now: string, faults: Faults)
    requires faults.onRead.None?
    requires TargetFile in files && files[TargetFile] == map[SchemaVersionKey := Obj(map["toString" := Num(0)])]
    ensures Migration(files, now, faults) == Step(MigrationResult(false, None, Some(ConversionMessage)), files)
  {
  }
}
