/** The settings store: the user's preferences with their initial values,
    the setters, the mapping between the store and a `user_settings` row in
    both directions, the reset, the "backup due" rule, and the part of the
    state kept in local storage. The whole state is one JavaScript object,
    so a setter may write any key; database replies are parameters. */
module Settings {
  import opened Js
  import opened Seqs
  import Records
  import Coerce

  /** How a loaded column becomes a preference: `column || fallback`,
      `column !== false`, or the column as it is. */
  datatype Rule = Fallback(value: JsValue) | UnlessFalse | AsIs

  /** A preference, its column in `user_settings`, and how it is loaded. */
  datatype Column = Column(key: string, column: string, rule: Rule)

  /** Every saved preference; the Drive refresh token is not saved. */
  const Columns: seq<Column> := [
    Column("theme", "theme", Fallback(Str("light"))),
    Column("language", "language", Fallback(Str("en"))),
    Column("dateFormat", "date_format", Fallback(Str("MM/dd/yyyy"))),
    Column("timeFormat", "time_format", Fallback(Str("12h"))),
    Column("memoryRetention", "memory_retention", Fallback(Str("forever"))),
    Column("autoSaveMemories", "auto_save_memories", UnlessFalse),
    Column("confidenceThreshold", "confidence_threshold", Fallback(Num(0.7))),
    Column("enableAnalytics", "enable_analytics", UnlessFalse),
    Column("shareUsageData", "share_usage_data", Fallback(Bool(false))),
    Column("enableCrashReports", "enable_crash_reports", UnlessFalse),
    Column("autoBackup", "auto_backup", UnlessFalse),
    Column("backupFrequency", "backup_frequency", Fallback(Str("weekly"))),
    Column("backupLocation", "backup_location", Fallback(Str("drive"))),
    Column("lastBackupDate", "last_backup_date", AsIs),
    Column("driveConnected", "drive_connected", Fallback(Bool(false))),
    Column("driveEmail", "drive_email", AsIs),
    Column("enableNotifications", "enable_notifications", UnlessFalse),
    Column("reminderFrequency", "reminder_frequency", Fallback(Str("weekly"))),
    Column("backupReminders", "backup_reminders", UnlessFalse),
    Column("geminiModel", "gemini_model", Fallback(Str("gemini-pro"))),
    Column("maxTokens", "max_tokens", Fallback(Num(1000.0))),
    Column("temperature", "temperature", Fallback(Num(0.7))),
    Column("exportFormat", "export_format", Fallback(Str("json"))),
    Column("includeMetadata", "include_metadata", UnlessFalse)
  ]

  /** The initial value of every preference, which is also what a reset
      restores. */
  const Defaults: seq<(string, JsValue)> := [
    ("theme", Str("light")), ("language", Str("en")), ("dateFormat", Str("MM/dd/yyyy")),
    ("timeFormat", Str("12h")), ("memoryRetention", Str("forever")), ("autoSaveMemories", Bool(true)),
    ("confidenceThreshold", Num(0.7)), ("enableAnalytics", Bool(true)), ("shareUsageData", Bool(false)),
    ("enableCrashReports", Bool(true)), ("autoBackup", Bool(true)), ("backupFrequency", Str("weekly")),
    ("backupLocation", Str("drive")), ("lastBackupDate", Null), ("driveConnected", Bool(false)),
    ("driveEmail", Null), ("driveRefreshToken", Null), ("enableNotifications", Bool(true)),
    ("reminderFrequency", Str("weekly")), ("backupReminders", Bool(true)), ("geminiModel", Str("gemini-pro")),
    ("maxTokens", Num(1000.0)), ("temperature", Num(0.7)), ("exportFormat", Str("json")),
    ("includeMetadata", Bool(true))
  ]

  function Keys(cols: seq<Column>): (r: seq<string>)
    ensures |r| == |cols|
    ensures forall i :: 0 <= i < |cols| ==> r[i] == cols[i].key
  {
    if cols == [] then [] else [cols[0].key] + Keys(cols[1..])
  }

  function ColumnNames(cols: seq<Column>): (r: seq<string>)
    ensures |r| == |cols|
    ensures forall i :: 0 <= i < |cols| ==> r[i] == cols[i].column
  {
    if cols == [] then [] else [cols[0].column] + ColumnNames(cols[1..])
  }

  /** The object whose properties are the pairs, later pairs winning. */
  function Object(pairs: seq<(string, JsValue)>): (r: Fields)
    ensures forall k :: k in r <==> exists i :: 0 <= i < |pairs| && pairs[i].0 == k
    decreases |pairs|
  {
    if pairs == [] then map[]
    else
      var front := Object(pairs[..|pairs| - 1]);
      assert forall i :: 0 <= i < |pairs| - 1 ==> pairs[..|pairs| - 1][i] == pairs[i];
      front[pairs[|pairs| - 1].0 := pairs[|pairs| - 1].1]
  }

  /** With distinct names, each pair is the property it names. */
  lemma {:induction false} ObjectAt(pairs: seq<(string, JsValue)>, i: nat)
    requires i < |pairs|
    requires forall a, b :: 0 <= a < b < |pairs| ==> pairs[a].0 != pairs[b].0
    ensures Object(pairs)[pairs[i].0] == pairs[i].1
    decreases |pairs|
  {
    if i < |pairs| - 1 {
      var front := pairs[..|pairs| - 1];
      assert front[i] == pairs[i];
      ObjectAt(front, i);
    }
  }

  /** The state a new store starts with. */
  function Initial(): Fields
  {
    Object(Defaults)["loading" := Bool(false)]["error" := Null]
  }

  /** One preference as `loadSettings` derives it from a column value. */
  function Load(rule: Rule, v: JsValue): (r: JsValue)
    ensures rule.Fallback? ==> (Truthy(v) ==> r == v) && (!Truthy(v) ==> r == rule.value)
    ensures rule.UnlessFalse? ==> r.Bool? && (r == Bool(false) <==> v == Bool(false))
    ensures rule.AsIs? ==> r == v
  {
    match rule
    case Fallback(d) => Or(v, d)
    case UnlessFalse => Bool(v != Bool(false))
    case AsIs => v
  }

  /** A value the load gives back unchanged: a truthy value where a fallback
      applies, a boolean where only `false` counts. */
  predicate Preserved(rule: Rule, v: JsValue)
  {
    match rule
    case Fallback(_) => Truthy(v)
    case UnlessFalse => v.Bool?
    case AsIs => true
  }

  /** The preferences `loadSettings` sets from a row. */
  function FromRow(row: Fields): Fields
  {
    Object(LoadedPairs(row, Columns))
  }

  function LoadedPairs(row: Fields, cols: seq<Column>): (r: seq<(string, JsValue)>)
    ensures |r| == |cols|
    ensures forall i :: 0 <= i < |cols| ==> r[i] == (cols[i].key, Load(cols[i].rule, Get(row, cols[i].column)))
  {
    if cols == [] then [] else [(cols[0].key, Load(cols[0].rule, Get(row, cols[0].column)))] + LoadedPairs(row, cols[1..])
  }

  /** The row `saveSettings` upserts: every column from its preference, plus
      the owner and the time of the save. */
  function ToRow(state: Fields, userId: string, nowIso: string): Fields
  {
    RowOf(state, Columns, userId, nowIso)
  }

  function SavedPairs(state: Fields, cols: seq<Column>): (r: seq<(string, JsValue)>)
    ensures |r| == |cols|
    ensures forall i :: 0 <= i < |cols| ==> r[i] == (cols[i].column, Get(state, cols[i].key))
  {
    if cols == [] then [] else [(cols[0].column, Get(state, cols[0].key))] + SavedPairs(state, cols[1..])
  }

  /** The preference names, the column names and the default names are each
      distinct, and the owner and time columns are not preference columns. */
  lemma KeysDistinct()
    ensures forall a, b :: 0 <= a < b < |Columns| ==> Columns[a].key != Columns[b].key
  {
    KeysApartBelow(4);
    KeysApartFrom(4, 9);
    KeysApartFrom(9, |Columns|);
  }

  lemma ColumnsDistinct()
    ensures forall a, b :: 0 <= a < b < |Columns| ==> Columns[a].column != Columns[b].column
  {
    ColumnsApartBelow(4);
    ColumnsApartFrom(4, 9);
    ColumnsApartFrom(9, |Columns|);
  }

  lemma DefaultsDistinct()
    ensures forall a, b :: 0 <= a < b < |Defaults| ==> Defaults[a].0 != Defaults[b].0
  {
    DefaultsApartBelow(4);
    DefaultsApartFrom(4, 9);
    DefaultsApartFrom(9, |Defaults|);
  }

  // The pairwise checks, split by the position of the first name.

  lemma KeysApartBelow(hi: nat)
    requires hi == 4
    ensures forall a, b :: 0 <= a < hi && a < b < |Columns| ==> Columns[a].key != Columns[b].key
  {
  }

  lemma KeysApartFrom(lo: nat, hi: nat)
    requires (lo == 4 && hi == 9) || (lo == 9 && hi == |Columns|)
    ensures forall a, b :: lo <= a < hi && a < b < |Columns| ==> Columns[a].key != Columns[b].key
  {
  }

  lemma ColumnsApartBelow(hi: nat)
    requires hi == 4
    ensures forall a, b :: 0 <= a < hi && a < b < |Columns| ==> Columns[a].column != Columns[b].column
  {
  }

  lemma ColumnsApartFrom(lo: nat, hi: nat)
    requires (lo == 4 && hi == 9) || (lo == 9 && hi == |Columns|)
    ensures forall a, b :: lo <= a < hi && a < b < |Columns| ==> Columns[a].column != Columns[b].column
  {
  }

  lemma DefaultsApartBelow(hi: nat)
    requires hi == 4
    ensures forall a, b :: 0 <= a < hi && a < b < |Defaults| ==> Defaults[a].0 != Defaults[b].0
  {
  }

  lemma DefaultsApartFrom(lo: nat, hi: nat)
    requires (lo == 4 && hi == 9) || (lo == 9 && hi == |Defaults|)
    ensures forall a, b :: lo <= a < hi && a < b < |Defaults| ==> Defaults[a].0 != Defaults[b].0
  {
  }

  lemma OwnerNotColumn()
    ensures forall i :: 0 <= i < |Columns| ==> Columns[i].column != "user_id" && Columns[i].column != "updated_at"
  {
  }

  /** The names a table needs distinct for the mapping to be one to one. */
  predicate OneToOne(cols: seq<Column>)
  {
    && (forall a, b :: 0 <= a < b < |cols| ==> cols[a].key != cols[b].key)
    && (forall a, b :: 0 <= a < b < |cols| ==> cols[a].column != cols[b].column)
    && (forall i :: 0 <= i < |cols| ==> cols[i].column != "user_id" && cols[i].column != "updated_at")
  }

  /** The row `saveSettings` builds from a table of columns. */
  function RowOf(state: Fields, cols: seq<Column>, userId: string, nowIso: string): Fields
  {
    Object(SavedPairs(state, cols))["user_id" := Str(userId)]["updated_at" := Str(nowIso)]
  }

  /** Each column of the saved row holds its preference. */
  lemma SavedValue(state: Fields, cols: seq<Column>, userId: string, nowIso: string, i: nat)
    requires OneToOne(cols) && i < |cols|
    ensures RowOf(state, cols, userId, nowIso)[cols[i].column] == Get(state, cols[i].key)
  {
    var pairs := SavedPairs(state, cols);
    ObjectAt(pairs, i);
    assert pairs[i] == (cols[i].column, Get(state, cols[i].key));
  }

  /** The saved row has no field but the columns, the owner and the time. */
  lemma SavedFields(state: Fields, cols: seq<Column>, userId: string, nowIso: string)
    ensures forall c :: c in RowOf(state, cols, userId, nowIso) <==>
      c == "user_id" || c == "updated_at" || c in ColumnNames(cols)
  {
    var pairs := SavedPairs(state, cols);
    forall c | c in Object(pairs)
      ensures c in ColumnNames(cols)
    {
      var i :| 0 <= i < |pairs| && pairs[i].0 == c;
      assert ColumnNames(cols)[i] == c;
    }
    forall c | c in ColumnNames(cols)
      ensures c in Object(pairs)
    {
      var i :| 0 <= i < |cols| && ColumnNames(cols)[i] == c;
      assert pairs[i].0 == c;
    }
  }

  /** A value the load preserves comes back unchanged. */
  lemma LoadPreserves(rule: Rule, v: JsValue)
    requires Preserved(rule, v)
    ensures Load(rule, v) == v
  {
  }

  /** Loading the saved row of a table gives back every preference the load
      preserves. */
  lemma RoundTrip(state: Fields, cols: seq<Column>, userId: string, nowIso: string, i: nat)
    requires OneToOne(cols) && i < |cols|
    requires Preserved(cols[i].rule, Get(state, cols[i].key))
    ensures Object(LoadedPairs(RowOf(state, cols, userId, nowIso), cols))[cols[i].key] == Get(state, cols[i].key)
  {
    var row := RowOf(state, cols, userId, nowIso);
    SavedValue(state, cols, userId, nowIso, i);
    var pairs := LoadedPairs(row, cols);
    ObjectAt(pairs, i);
    assert pairs[i] == (cols[i].key, Load(cols[i].rule, Get(state, cols[i].key)));
    LoadPreserves(cols[i].rule, Get(state, cols[i].key));
  }

  lemma ColumnsOneToOne()
    ensures OneToOne(Columns)
  {
    KeysDistinct();
    ColumnsDistinct();
    OwnerNotColumn();
  }

  /** No column is named after the refresh token. */
  lemma NoTokenColumn()
    ensures forall i :: 0 <= i < |Columns| ==>
      Columns[i].column != "drive_refresh_token" && Columns[i].column != "driveRefreshToken"
  {
  }

  /** No preference is named `loading` or `error`. */
  lemma NoStatusKey()
    ensures forall i :: 0 <= i < |Columns| ==> Columns[i].key != "loading" && Columns[i].key != "error"
  {
  }

  /** A name that is no column, owner or time is not in the saved row. */
  lemma Unsaved(state: Fields, cols: seq<Column>, userId: string, nowIso: string, c: string)
    requires forall i :: 0 <= i < |cols| ==> cols[i].column != c
    requires c != "user_id" && c != "updated_at"
    ensures c !in RowOf(state, cols, userId, nowIso)
  {
    SavedFields(state, cols, userId, nowIso);
  }

  /** Every column is saved, and nothing else except the owner and the time;
      the refresh token in particular never leaves the store. */
  lemma SavedColumns(state: Fields, userId: string, nowIso: string)
    ensures forall i :: 0 <= i < |Columns| ==> Get(ToRow(state, userId, nowIso), Columns[i].column) == Get(state, Columns[i].key)
  {
    ColumnsOneToOne();
    forall i | 0 <= i < |Columns|
      ensures Get(ToRow(state, userId, nowIso), Columns[i].column) == Get(state, Columns[i].key)
    {
      SavedValue(state, Columns, userId, nowIso, i);
    }
  }

  /** The saved row has the owner, the time and the columns as its only
      fields; the refresh token in particular never leaves the store. */
  lemma SavedOnlyColumns(state: Fields, userId: string, nowIso: string)
    ensures forall c :: c in ToRow(state, userId, nowIso) <==>
      c == "user_id" || c == "updated_at" || c in ColumnNames(Columns)
    ensures "driveRefreshToken" !in ToRow(state, userId, nowIso)
    ensures "drive_refresh_token" !in ToRow(state, userId, nowIso)
  {
    SavedFields(state, Columns, userId, nowIso);
    NoTokenColumn();
    Unsaved(state, Columns, userId, nowIso, "drive_refresh_token");
    Unsaved(state, Columns, userId, nowIso, "driveRefreshToken");
  }

  /** Loading a saved row gives back every saved preference whose value the
      load preserves (non-empty strings, non-zero numbers, booleans). */
  lemma SaveLoadRoundTrip(state: Fields, userId: string, nowIso: string)
    requires forall i :: 0 <= i < |Columns| ==> Preserved(Columns[i].rule, Get(state, Columns[i].key))
    ensures var loaded := FromRow(ToRow(state, userId, nowIso));
      forall i :: 0 <= i < |Columns| ==> loaded[Columns[i].key] == Get(state, Columns[i].key)
  {
    ColumnsOneToOne();
    RoundTripAll(state, Columns, userId, nowIso);
  }

  lemma RoundTripAll(state: Fields, cols: seq<Column>, userId: string, nowIso: string)
    requires OneToOne(cols)
    requires forall i :: 0 <= i < |cols| ==> Preserved(cols[i].rule, Get(state, cols[i].key))
    ensures var loaded := Object(LoadedPairs(RowOf(state, cols, userId, nowIso), cols));
      forall i :: 0 <= i < |cols| ==> loaded[cols[i].key] == Get(state, cols[i].key)
  {
    forall i | 0 <= i < |cols|
      ensures Object(LoadedPairs(RowOf(state, cols, userId, nowIso), cols))[cols[i].key] == Get(state, cols[i].key)
    {
      RoundTrip(state, cols, userId, nowIso, i);
    }
  }

  /** The preference's fallback is its initial value, and a `!== false`
      preference starts true. */
  predicate AgreesAt(c: Column, defaults: Fields)
  {
    match c.rule
    case Fallback(d) => Get(defaults, c.key) == d
    case UnlessFalse => Get(defaults, c.key) == Bool(true)
    case AsIs => Get(defaults, c.key) == Null
  }

  predicate AgreesWithDefaults(cols: seq<Column>, defaults: Fields)
  {
    forall i :: 0 <= i < |cols| ==> AgreesAt(cols[i], defaults)
  }

  lemma {:induction false} NullRowLoads(row: Fields, cols: seq<Column>, defaults: Fields)
    requires forall a, b :: 0 <= a < b < |cols| ==> cols[a].key != cols[b].key
    requires AgreesWithDefaults(cols, defaults)
    requires forall i :: 0 <= i < |cols| ==> Get(row, cols[i].column) == Null
    ensures forall i :: 0 <= i < |cols| ==> Get(Object(LoadedPairs(row, cols)), cols[i].key) == Get(defaults, cols[i].key)
  {
    forall i | 0 <= i < |cols|
      ensures Get(Object(LoadedPairs(row, cols)), cols[i].key) == Get(defaults, cols[i].key)
    {
      ObjectAt(LoadedPairs(row, cols), i);
    }
  }

  /** The store's state starts as an object of distinct names plus the
      status fields. */
  lemma {:induction false} InitialAt(pairs: seq<(string, JsValue)>, i: nat)
    requires i < |pairs|
    requires forall a, b :: 0 <= a < b < |pairs| ==> pairs[a].0 != pairs[b].0
    requires pairs[i].0 != "loading" && pairs[i].0 != "error"
    ensures (Object(pairs)["loading" := Bool(false)]["error" := Null])[pairs[i].0] == pairs[i].1
  {
    ObjectAt(pairs, i);
  }

  lemma DefaultsNotStatus()
    ensures forall i :: 0 <= i < |Defaults| ==> Defaults[i].0 != "loading" && Defaults[i].0 != "error"
  {
  }

  /** The initial value of every preference. */
  lemma DefaultsAt(i: nat)
    requires i < |Defaults|
    ensures Get(Initial(), Defaults[i].0) == Defaults[i].1
  {
    DefaultsDistinct();
    DefaultsNotStatus();
    InitialAt(Defaults, i);
  }

  lemma ColumnsAgree()
    ensures AgreesWithDefaults(Columns, Initial())
  {
    DefaultsMatchColumns();
    forall i | 0 <= i < |Columns|
      ensures AgreesAt(Columns[i], Initial())
    {
      var j := if i < 16 then i else i + 1;
      DefaultsAt(j);
    }
  }

  /** Whether a default entry names the preference and matches its rule. */
  predicate DefaultFor(c: Column, d: (string, JsValue))
  {
    && d.0 == c.key
    && match c.rule
       case Fallback(v) => d.1 == v
       case UnlessFalse => d.1 == Bool(true)
       case AsIs => d.1 == Null
  }

  /** The defaults list every column in order, with the refresh token
      between `driveEmail` and `enableNotifications`. */
  lemma DefaultsMatchColumns()
    ensures |Defaults| == |Columns| + 1
    ensures forall i :: 0 <= i < |Columns| ==> DefaultFor(Columns[i], Defaults[if i < 16 then i else i + 1])
  {
  }

  /** A row whose every column is `null` loads as the initial preferences. */
  lemma NullRowLoadsDefaults(row: Fields)
    requires forall i :: 0 <= i < |Columns| ==> Get(row, Columns[i].column) == Null
    ensures forall i :: 0 <= i < |Columns| ==> Get(FromRow(row), Columns[i].key) == Get(Initial(), Columns[i].key)
  {
    KeysDistinct();
    ColumnsAgree();
    NullRowLoads(row, Columns, Initial());
  }

  /** The four display preferences kept in local storage. */
  const Persisted := ["theme", "language", "dateFormat", "timeFormat"]

  /** `partialize`: the persisted part of the state. */
  function Partialize(state: Fields): (r: Fields)
    ensures r.Keys == set k | k in Persisted
    ensures forall k :: k in r ==> r[k] == Get(state, k)
  {
    map k | k in Persisted :: Get(state, k)
  }

  /** What local storage gives back for a persisted part: `JSON.stringify`
      leaves out a property whose value is `undefined`, so it is absent after
      `JSON.parse`. */
  function Stored(p: Fields): (r: Fields)
    ensures forall k :: k in r <==> k in p && p[k] != Undefined
    ensures forall k :: k in r ==> r[k] == p[k]
  {
    map k | k in p && p[k] != Undefined :: p[k]
  }

  /** After a reload the initial state is overlaid with what local storage
      gives back: each of the four display preferences comes back unless it
      was `undefined`, in which case it restarts at its initial value, and
      everything else starts afresh. */
  lemma Rehydrate(state: Fields)
    ensures var r := Initial() + Stored(Partialize(state));
      && (forall k :: k in Persisted && Get(state, k) != Undefined ==> r[k] == Get(state, k))
      && (forall k :: k in Persisted ==> k in Initial() && k in r)
      && (forall k :: k in Persisted && Get(state, k) == Undefined ==> Get(r, k) == Get(Initial(), k))
      && (forall k :: k in Initial() && k !in Persisted ==> r[k] == Initial()[k])
  {
    forall k | k in Persisted
      ensures k in Initial()
    {
      var i :| 0 <= i < 4 && Persisted[i] == k;
      assert Defaults[i].0 == k;
    }
  }

  /** `new Date(lastBackupDate).getTime()`: a number is a time in
      milliseconds, truncated, and an invalid date (`None`) beyond 8.64e15
      either way; a boolean is 1 or 0; a string is read by `parseDate`, and
      an array or object is read by `parseDate` through its text, as
      `new Date` converts it to a primitive first. `null` and `undefined`
      are an invalid date here, though `isBackupDue` never reaches them,
      being falsy. */
  function TimeOf(v: JsValue, parseDate: string -> Option<int>): (r: Option<int>)
    ensures v.Bool? ==> r == Some(if v.b then 1 else 0)
    ensures v.Num? && -MaxTime <= v.n <= MaxTime ==> r.Some?
    ensures v.Num? && 0.0 <= v.n <= MaxTime ==> r.Some? && r.value as real <= v.n < r.value as real + 1.0
    ensures v.Num? && -MaxTime <= v.n < 0.0 ==> r.Some? && r.value as real - 1.0 < v.n <= r.value as real
    ensures v.Num? && !(-MaxTime <= v.n <= MaxTime) ==> r.None?
    ensures v.Str? ==> r == parseDate(v.s)
    ensures v.Arr? || v.Obj? ==> r == parseDate(Coerce.ToText(v))
  {
    match v
    case Num(n) =>
      if -MaxTime <= n <= MaxTime then Some(if n >= 0.0 then n.Floor else -((-n).Floor)) else None
    case Bool(b) => Some(if b then 1 else 0)
    case Str(s) => parseDate(s)
    case Arr(_) => parseDate(Coerce.ToText(v))
    case Obj(_) => parseDate(Coerce.ToText(v))
    case _ => None
  }

  /** The largest time value a date holds, in milliseconds (100 million
      days). */
  const MaxTime: real := 8640000000000000.0

  /** The backup interval of a frequency, in milliseconds. */
  function FrequencyMs(frequency: JsValue): (r: Option<int>)
    ensures r.Some? <==> frequency in {Str("daily"), Str("weekly"), Str("monthly")}
    ensures r == Some(Records.DayMs) <==> frequency == Str("daily")
    ensures r == Some(7 * Records.DayMs) <==> frequency == Str("weekly")
    ensures r == Some(30 * Records.DayMs) <==> frequency == Str("monthly")
  {
    if frequency == Str("daily") then Some(Records.DayMs)
    else if frequency == Str("weekly") then Some(7 * Records.DayMs)
    else if frequency == Str("monthly") then Some(30 * Records.DayMs)
    else None
  }

  /** `isBackupDue` on a state at time `now`. */
  predicate BackupDue(state: Fields, now: int, parseDate: string -> Option<int>)
  {
    var last := Get(state, "lastBackupDate");
    if !Truthy(Get(state, "autoBackup")) || !Truthy(last) then true
    else
      var t := TimeOf(last, parseDate);
      var f := FrequencyMs(Get(state, "backupFrequency"));
      t.Some? && f.Some? && now - t.value >= f.value
  }

  /** A backup is due when automatic backup is off or none was made;
      otherwise exactly when a known interval has elapsed since the last one
      (never for an unknown frequency or an unreadable date); and once due
      it stays due. */
  lemma BackupDueRule(state: Fields, now: int, later: int, parseDate: string -> Option<int>)
    requires now <= later
    ensures !Truthy(Get(state, "autoBackup")) || !Truthy(Get(state, "lastBackupDate")) ==> BackupDue(state, now, parseDate)
    ensures Truthy(Get(state, "autoBackup")) && Truthy(Get(state, "lastBackupDate")) ==>
      (BackupDue(state, now, parseDate) <==>
        exists t, f :: TimeOf(Get(state, "lastBackupDate"), parseDate) == Some(t)
          && FrequencyMs(Get(state, "backupFrequency")) == Some(f) && now - t >= f)
    ensures (Truthy(Get(state, "autoBackup")) && Truthy(Get(state, "lastBackupDate"))
             && FrequencyMs(Get(state, "backupFrequency")).None?) ==> !BackupDue(state, now, parseDate)
    ensures BackupDue(state, now, parseDate) ==> BackupDue(state, later, parseDate)
  {
  }

  /** The `{ data, error }` reply of the settings query; error code
      `PGRST116` means no row. */
  datatype LoadReply = LoadReply(data: Option<Fields>, error: Option<(string, string)>)

  /** The state once a save has answered: loading is over and the error is
      the reply's, if any. */
  function Saved(state: Fields, reply: Result<Fields>): (r: Fields)
    ensures Get(r, "loading") == Bool(false)
    ensures Get(r, "error") == if reply.Err? then Str(reply.error) else Null
    ensures forall k :: k != "loading" && k != "error" ==> Get(r, k) == Get(state, k)
  {
    state["loading" := Bool(false)]["error" := if reply.Err? then Str(reply.error) else Null]
  }

  class Store {
    var state: Fields

    constructor ()
      ensures state == Initial()
    {
      state := Initial();
    }

    /** `updateSetting(key, value)`: that key and no other changes. */
    method UpdateSetting(key: string, value: JsValue)
      modifies this
      ensures state == old(state)[key := value]
      ensures forall k :: k != key ==> Get(state, k) == Get(old(state), k)
    {
      state := state[key := value];
    }

    /** `updateSettings(patch)`: a shallow merge, the patch winning. */
    method UpdateSettings(patch: Fields)
      modifies this
      ensures state == old(state) + patch
      ensures forall k :: Get(state, k) == if k in patch then patch[k] else Get(old(state), k)
    {
      state := state + patch;
    }

    /** `loadSettings`: a failed query records its message; a row sets every
      saved preference from its column; no row only ends loading. */
    method LoadSettings(signedIn: bool, reply: LoadReply)
      modifies this
      ensures !signedIn ==> state == old(state)
      ensures signedIn && reply.error.Some? && reply.error.value.0 != "PGRST116" ==>
        state == old(state)["loading" := Bool(false)]["error" := Str(reply.error.value.1)]
      ensures signedIn && !(reply.error.Some? && reply.error.value.0 != "PGRST116") ==>
        state == (if reply.data.Some? then old(state) + FromRow(reply.data.value) else old(state))
                   ["loading" := Bool(false)]["error" := Null]
    {
      if !signedIn {
        return;
      }
      if reply.error.Some? && reply.error.value.0 != "PGRST116" {
        state := state["loading" := Bool(false)]["error" := Str(reply.error.value.1)];
        return;
      }
      var loaded := if reply.data.Some? then state + FromRow(reply.data.value) else state;
      state := loaded["loading" := Bool(false)]["error" := Null];
    }

    /** `saveSettings`: upserts the row built from the state (returned as
      `sent`) and reports the reply. */
    method SaveSettings(signedIn: bool, userId: string, nowIso: string, reply: Result<Fields>)
      returns (outcome: Result<Fields>, sent: Option<Fields>)
      modifies this
      ensures !signedIn ==> state == old(state) && outcome == Err("No user logged in") && sent == None
      ensures signedIn ==> sent == Some(ToRow(old(state), userId, nowIso)) && outcome == reply
      ensures signedIn ==> state == Saved(old(state), reply)
    {
      if !signedIn {
        return Err("No user logged in"), None;
      }
      sent := Some(ToRow(state, userId, nowIso));
      outcome := reply;
      state := Saved(state, reply);
    }

    /** `resetSettings`: every preference back to its initial value;
      `loading` and `error` stay. */
    method ResetSettings()
      modifies this
      ensures state == old(state) + Object(Defaults)
      ensures forall i :: 0 <= i < |Defaults| ==> state[Defaults[i].0] == Defaults[i].1
      ensures Get(state, "loading") == Get(old(state), "loading") && Get(state, "error") == Get(old(state), "error")
    {
      ResetValues(state);
      state := state + Object(Defaults);
    }

    /** `disconnectGoogleDrive`: forgets the Drive account, then saves. */
    method DisconnectGoogleDrive(signedIn: bool, userId: string, nowIso: string, reply: Result<Fields>)
      returns (sent: Option<Fields>)
      modifies this
      ensures var cleared := old(state)["driveConnected" := Bool(false)]["driveEmail" := Null]["driveRefreshToken" := Null];
        && sent == (if signedIn then Some(ToRow(cleared, userId, nowIso)) else None)
        && state == if signedIn then Saved(cleared, reply) else cleared
    {
      state := state["driveConnected" := Bool(false)]["driveEmail" := Null]["driveRefreshToken" := Null];
      var _, s := SaveSettings(signedIn, userId, nowIso, reply);
      sent := s;
    }

    /** `updateLastBackupDate(date)`: records the date, then saves. */
    method UpdateLastBackupDate(date: JsValue, signedIn: bool, userId: string, nowIso: string, reply: Result<Fields>)
      returns (sent: Option<Fields>)
      modifies this
      ensures var dated := old(state)["lastBackupDate" := date];
        && sent == (if signedIn then Some(ToRow(dated, userId, nowIso)) else None)
        && state == if signedIn then Saved(dated, reply) else dated
    {
      state := state["lastBackupDate" := date];
      var _, s := SaveSettings(signedIn, userId, nowIso, reply);
      sent := s;
    }

    /** `isBackupDue()` at time `now`. */
    function IsBackupDue(now: int, parseDate: string -> Option<int>): bool
      reads this
    {
      BackupDue(state, now, parseDate)
    }
  }

  /** A loaded row sets preference keys only. */
  lemma LoadedKeys(row: Fields, cols: seq<Column>, k: string)
    requires forall i :: 0 <= i < |cols| ==> cols[i].key != k
    ensures k !in Object(LoadedPairs(row, cols))
  {
  }

  /** A loaded row never sets `loading` or `error`. */
  lemma LoadedKeysAreColumns(row: Fields)
    ensures "loading" !in FromRow(row) && "error" !in FromRow(row)
  {
    NoStatusKey();
    LoadedKeys(row, Columns, "loading");
    LoadedKeys(row, Columns, "error");
  }

  /** A reset sets every preference to its initial value and does not
      touch `loading` or `error`. */
  lemma ResetValues(state: Fields)
    ensures forall i :: 0 <= i < |Defaults| ==> (state + Object(Defaults))[Defaults[i].0] == Defaults[i].1
    ensures "loading" !in Object(Defaults) && "error" !in Object(Defaults)
  {
    DefaultsDistinct();
    DefaultsNotStatus();
    forall i | 0 <= i < |Defaults|
      ensures (state + Object(Defaults))[Defaults[i].0] == Defaults[i].1
    {
      ObjectAt(Defaults, i);
    }
  }
}
