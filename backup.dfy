/** The pure parts of the Drive backup helpers: the backup envelope and its
    validation on restore, the interval of the automatic backup, the
    multipart e-mail that carries a backup, and the default file name. The
    clock, `Math.random`, `btoa` and every remote call are parameters or left
    out; the JSON text step between creating and restoring a backup is taken
    as the identity. */
module Backup {
  import opened Js
  import opened Text
  import Settings
  import Records

  /** The message of the `TypeError` a property read on `null` or
      `undefined` raises. */
  function NullRead(v: JsValue, key: string): string
  {
    "Cannot read properties of " + (if v.Null? then "null" else "undefined") + " (reading '" + key + "')"
  }

  /** `v?.[key]`: `undefined` on `null` or `undefined`, the property of an
      object, and `undefined` on the other primitives and on arrays for the
      names read here. */
  function Field(v: JsValue, key: string): JsValue
  {
    match v
    case Obj(f) => Get(f, key)
    case _ => Undefined
  }

  /** `v?.length`. */
  function LengthOf(v: JsValue): (r: JsValue)
    ensures v.Arr? ==> r == Num(|v.items| as real)
    ensures v.Str? ==> r == Num(|v.s| as real)
    ensures v.Null? || v.Undefined? ==> r == Undefined
  {
    match v
    case Arr(items) => Num(|items| as real)
    case Str(s) => Num(|s| as real)
    case Obj(f) => Get(f, "length")
    case _ => Undefined
  }

  /** The `metadata` of an envelope. */
  function Metadata(userData: JsValue): Fields
  {
    map[
      "totalMemories" := Or(LengthOf(Field(userData, "memories")), Num(0.0)),
      "totalEdges" := Or(LengthOf(Field(userData, "graphEdges")), Num(0.0)),
      "exportedBy" := Or(Field(Field(userData, "user"), "email"), Str("unknown"))
    ]
  }

  /** `createBackupData(userData)` at time `nowIso`, before the JSON text
      step: reading `memories` of `null` or `undefined` throws. */
  function CreateBackupData(userData: JsValue, nowIso: string): (r: Result<Fields>)
    ensures userData.Null? || userData.Undefined? ==> r == Err(NullRead(userData, "memories"))
    ensures !(userData.Null? || userData.Undefined?) ==>
      && r.Ok?
      && r.value.Keys == {"version", "appName", "createdAt", "userData", "metadata"}
      && r.value["version"] == Str("1.0") && r.value["appName"] == Str("Life.AI")
      && r.value["createdAt"] == Str(nowIso) && r.value["userData"] == userData
  {
    if userData.Null? || userData.Undefined? then Err(NullRead(userData, "memories"))
    else
      Ok(map[
        "version" := Str("1.0"),
        "appName" := Str("Life.AI"),
        "createdAt" := Str(nowIso),
        "userData" := userData,
        "metadata" := Obj(Metadata(userData))
      ])
  }

  /** The metadata counts the memories and the graph edges, 0 when the list
      is absent, and names the user's e-mail or `unknown`. */
  lemma MetadataCounts(memories: seq<JsValue>, edges: seq<JsValue>, user: Fields)
    ensures var userData := Obj(map["memories" := Arr(memories), "graphEdges" := Arr(edges), "user" := Obj(user)]);
      var m := Metadata(userData);
      && m["totalMemories"] == (if memories == [] then Num(0.0) else Num(|memories| as real))
      && m["totalEdges"] == (if edges == [] then Num(0.0) else Num(|edges| as real))
      && m["exportedBy"] == Or(Get(user, "email"), Str("unknown"))
  {
  }

  /** Without the lists or the user, the metadata reads 0, 0 and `unknown`. */
  lemma MetadataDefaults(userData: Fields)
    requires "memories" !in userData && "graphEdges" !in userData && "user" !in userData
    ensures Metadata(Obj(userData)) == map["totalMemories" := Num(0.0), "totalEdges" := Num(0.0), "exportedBy" := Str("unknown")]
  {
  }

  const InvalidFormat := "Invalid backup file format"
  const UnsupportedVersion := "Unsupported backup version"

  /** What a successful restore hands back. */
  datatype Restored = Restored(userData: JsValue, metadata: JsValue)

  /** `restoreFromBackup(backupData)`: a falsy version or user data is an
      invalid file, checked first; then any version but `'1.0'` is
      unsupported; otherwise the user data and metadata come back as they
      are. */
  function RestoreFromBackup(backup: JsValue): (r: Result<Restored>)
    ensures backup.Null? || backup.Undefined? ==> r == Err(NullRead(backup, "version"))
    ensures !(backup.Null? || backup.Undefined?) ==>
      var version, userData := Field(backup, "version"), Field(backup, "userData");
      && (r == Err(InvalidFormat) <==> !Truthy(version) || !Truthy(userData))
      && (r == Err(UnsupportedVersion) <==> Truthy(version) && Truthy(userData) && version != Str("1.0"))
      && (r.Ok? <==> version == Str("1.0") && Truthy(userData))
      && (r.Ok? ==> r.value == Restored(userData, Field(backup, "metadata")))
  {
    if backup.Null? || backup.Undefined? then Err(NullRead(backup, "version"))
    else
      var version := Field(backup, "version");
      if !Truthy(version) || !Truthy(Field(backup, "userData")) then Err(InvalidFormat)
      else if version != Str("1.0") then Err(UnsupportedVersion)
      else Ok(Restored(Field(backup, "userData"), Field(backup, "metadata")))
  }

  /** Restoring a freshly created backup gives back the same user data and
      its metadata, unless the user data is falsy (`false`, `0`, `''`),
      which the restore rejects as an invalid file. */
  lemma {:induction false} CreateRestore(userData: JsValue, nowIso: string)
    requires !(userData.Null? || userData.Undefined?)
    ensures var backup := Obj(CreateBackupData(userData, nowIso).value);
      RestoreFromBackup(backup) ==
        if Truthy(userData) then Ok(Restored(userData, Obj(Metadata(userData)))) else Err(InvalidFormat)
  {
    var backup := Obj(CreateBackupData(userData, nowIso).value);
    assert Field(backup, "version") == Str("1.0");
    assert Field(backup, "userData") == userData;
    assert Field(backup, "metadata") == Obj(Metadata(userData));
  }

  /** The interval of `scheduleAutomaticBackup`: none when automatic backup
      is off, otherwise that of the frequency, weekly for an unknown one. */
  function BackupInterval(settings: Fields): (r: Option<int>)
    ensures !Truthy(Get(settings, "autoBackup")) <==> r.None?
  {
    if !Truthy(Get(settings, "autoBackup")) then None
    else
      var frequency := Get(settings, "backupFrequency");
      if frequency == Str("daily") then Some(Records.DayMs)
      else if frequency == Str("monthly") then Some(30 * Records.DayMs)
      else Some(7 * Records.DayMs)
  }

  /** The scheduler waits exactly the interval `isBackupDue` measures for a
      known frequency, and a week for any other. */
  lemma IntervalAgreesWithDue(settings: Fields)
    requires Truthy(Get(settings, "autoBackup"))
    ensures var f := Settings.FrequencyMs(Get(settings, "backupFrequency"));
      BackupInterval(settings) == if f.Some? then f else Some(7 * Records.DayMs)
  {
  }

  /** The `multipart/mixed` boundary made from `Math.random().toString(16)`. */
  function Boundary(randomHex: string): string
  {
    "backup_boundary_" + randomHex
  }

  const ToField := "To: "
  const SubjectField := "Subject: "
  const MimeVersion := "MIME-Version: 1.0"
  const MultipartType := "Content-Type: multipart/mixed; boundary="
  const TextType := "Content-Type: text/plain; charset=UTF-8"
  const JsonType := "Content-Type: application/json"
  const Disposition := "Content-Disposition: attachment; filename="
  const Base64Encoding := "Content-Transfer-Encoding: base64"
  const Quote := "\""

  /** The lines of `createEmailWithAttachment`, where `encoded` is
      `btoa(attachmentData)`. */
  function EmailLines(to: string, subject: string, body: string, encoded: string,
                      attachmentName: string, boundary: string): (r: seq<string>)
    ensures |r| == 18
  {
    [
      ToField + to,
      SubjectField + subject,
      MimeVersion,
      MultipartType + Quote + boundary + Quote,
      "",
      "--" + boundary,
      TextType,
      "",
      body,
      "",
      "--" + boundary,
      JsonType,
      Disposition + Quote + attachmentName + Quote,
      Base64Encoding,
      "",
      encoded,
      "",
      "--" + boundary + "--"
    ]
  }

  /** `createEmailWithAttachment`: the lines joined with `\n`. */
  function Email(to: string, subject: string, body: string, encoded: string,
                 attachmentName: string, boundary: string): string
  {
    Join(EmailLines(to, subject, body, encoded, attachmentName, boundary), "\n")
  }

  /** A text `btoa` can produce: base64 characters only. */
  predicate Base64(s: string)
  {
    forall i :: 0 <= i < |s| ==> IsAlnum(s[i]) || s[i] == '+' || s[i] == '/' || s[i] == '='
  }

  predicate OneLine(s: string)
  {
    Lacks(s, '\n')
  }

  /** A fixed header text: one line, not starting with `-`. */
  predicate Header(s: string)
  {
    OneLine(s) && |s| > 0 && s[0] != '-'
  }

  lemma ToFieldHeader() ensures Header(ToField) {}
  lemma SubjectFieldHeader() ensures Header(SubjectField) {}
  lemma MimeVersionHeader() ensures Header(MimeVersion) {}
  lemma MultipartTypeHeader() ensures Header(MultipartType) {}
  lemma TextTypeHeader() ensures Header(TextType) {}
  lemma JsonTypeHeader() ensures Header(JsonType) {}
  lemma DispositionHeader() ensures Header(Disposition) {}
  lemma Base64EncodingHeader() ensures Header(Base64Encoding) {}
  lemma QuoteHeader() ensures Header(Quote) {}

  /** The e-mail opens with the To, Subject and MIME-Version headers and the
      Content-Type that carries the boundary; exactly two delimiter lines
      open the text part and the attachment part; the closing delimiter is
      the last line; and the lines come back apart when split at `\n`. */
  lemma {:induction false} EmailLayout(to: string, subject: string, body: string, encoded: string,
                                       attachmentName: string, boundary: string)
    requires OneLine(to) && OneLine(subject) && OneLine(body) && OneLine(attachmentName) && OneLine(boundary)
    requires Base64(encoded)
    requires body != "--" + boundary
    ensures var lines := EmailLines(to, subject, body, encoded, attachmentName, boundary);
      && Split(Email(to, subject, body, encoded, attachmentName, boundary), '\n') == lines
      && lines[0] == "To: " + to && lines[1] == "Subject: " + subject && lines[2] == "MIME-Version: 1.0"
      && lines[3] == "Content-Type: multipart/mixed; boundary=\"" + boundary + "\""
      && (forall i :: 0 <= i < |lines| ==> (lines[i] == "--" + boundary <==> i == 5 || i == 10))
      && lines[|lines| - 1] == "--" + boundary + "--"
  {
    var lines := EmailLines(to, subject, body, encoded, attachmentName, boundary);
    assert OneLine(encoded);
    forall i | 0 <= i < |lines|
      ensures '\n' !in lines[i]
    {
      OneLineParts(lines[i], i, to, subject, body, encoded, attachmentName, boundary);
      LacksIn(lines[i], '\n');
    }
    SplitJoin(lines, '\n');
    forall i | 0 <= i < |lines|
      ensures lines[i] == "--" + boundary <==> i == 5 || i == 10
    {
      DelimiterAt(lines, i, to, subject, body, encoded, attachmentName, boundary);
    }
    assert MultipartType + Quote + boundary + Quote == "Content-Type: multipart/mixed; boundary=\"" + boundary + "\"";
  }

  lemma OneLineParts(line: string, i: nat, to: string, subject: string, body: string, encoded: string,
                     attachmentName: string, boundary: string)
    requires OneLine(to) && OneLine(subject) && OneLine(body) && OneLine(attachmentName) && OneLine(boundary)
    requires OneLine(encoded)
    requires i < 18 && line == EmailLines(to, subject, body, encoded, attachmentName, boundary)[i]
    ensures OneLine(line)
  {
    if i == 0 {
      ToFieldHeader();
      LacksConcat(ToField, to, '\n');
    } else if i == 1 {
      SubjectFieldHeader();
      LacksConcat(SubjectField, subject, '\n');
    } else if i == 2 {
      MimeVersionHeader();
    } else if i == 3 {
      MultipartTypeHeader();
      QuoteHeader();
      WrappedLine(MultipartType, boundary);
    } else if i == 5 || i == 10 {
      LacksConcat("--", boundary, '\n');
    } else if i == 6 {
      TextTypeHeader();
    } else if i == 11 {
      JsonTypeHeader();
    } else if i == 12 {
      DispositionHeader();
      QuoteHeader();
      WrappedLine(Disposition, attachmentName);
    } else if i == 13 {
      Base64EncodingHeader();
    } else if i == 17 {
      LacksConcat("--", boundary, '\n');
      LacksConcat("--" + boundary, "--", '\n');
    }
  }

  /** `name="value"` on one line. */
  lemma WrappedLine(name: string, value: string)
    requires OneLine(name) && OneLine(Quote) && OneLine(value)
    ensures OneLine(name + Quote + value + Quote)
  {
    LacksConcat(name, Quote, '\n');
    LacksConcat(name + Quote, value, '\n');
    LacksConcat(name + Quote + value, Quote, '\n');
  }

  lemma DelimiterAt(lines: seq<string>, i: nat, to: string, subject: string, body: string, encoded: string,
                    attachmentName: string, boundary: string)
    requires Base64(encoded) && body != "--" + boundary
    requires lines == EmailLines(to, subject, body, encoded, attachmentName, boundary) && i < 18
    ensures lines[i] == "--" + boundary <==> i == 5 || i == 10
  {
    var delimiter := "--" + boundary;
    assert delimiter[0] == '-';
    if i == 17 {
      assert |lines[i]| != |delimiter|;
    } else if i == 4 || i == 7 || i == 9 || i == 14 || i == 16 {
      assert |lines[i]| == 0;
    } else if i == 0 {
      ToFieldHeader();
      assert lines[i][0] == ToField[0];
    } else if i == 1 {
      SubjectFieldHeader();
      assert lines[i][0] == SubjectField[0];
    } else if i == 2 {
      MimeVersionHeader();
    } else if i == 3 {
      MultipartTypeHeader();
      assert lines[i][0] == MultipartType[0];
    } else if i == 6 {
      TextTypeHeader();
    } else if i == 11 {
      JsonTypeHeader();
    } else if i == 12 {
      DispositionHeader();
      assert lines[i][0] == Disposition[0];
    } else if i == 13 {
      Base64EncodingHeader();
    }
  }

  /** `new Date().toISOString().split('T')[0]` for the instant `nowIso`. */
  function DatePart(nowIso: string): string
  {
    Split(nowIso, 'T')[0]
  }

  /** The name a backup file gets when none (or an empty one) is given. */
  function DefaultFileName(nowIso: string): string
  {
    "life-ai-backup-" + DatePart(nowIso) + ".json"
  }

  /** `fileName || defaultName`. */
  function FileName(given: Option<string>, nowIso: string): (r: string)
    ensures given.Some? && given.value != "" ==> r == given.value
    ensures given.None? || given.value == "" ==> r == DefaultFileName(nowIso)
  {
    if given.Some? && given.value != "" then given.value else DefaultFileName(nowIso)
  }

  /** An ISO timestamp `YYYY-MM-DDTHH:mm:ss.sssZ`: ten characters of date,
      then the `T`. */
  predicate IsoTimestamp(nowIso: string)
  {
    |nowIso| > 10 && nowIso[10] == 'T' && 'T' !in nowIso[..10]
  }

  /** For an ISO timestamp the default name carries its first ten
      characters, the calendar date. */
  lemma DefaultNameIsDate(nowIso: string)
    requires IsoTimestamp(nowIso)
    ensures DefaultFileName(nowIso) == "life-ai-backup-" + nowIso[..10] + ".json"
  {
    assert nowIso == nowIso[..10] + ['T'] + nowIso[11..];
    SplitPiece(nowIso[..10], 'T', nowIso[11..]);
  }

  const EmailSubject := "Life.AI Memory Backup"
  const BodyNotice := "Your Life.AI memories have been backed up."
  const BodyAdvice := " Please keep this file safe."
  const EmailBody := BodyNotice + BodyAdvice

  lemma EmailSubjectLine() ensures OneLine(EmailSubject) {}
  lemma BodyNoticeHeader() ensures Header(BodyNotice) {}
  lemma BodyAdviceLine() ensures OneLine(BodyAdvice) {}

  lemma EmailBodyHeader()
    ensures Header(EmailBody)
  {
    BodyNoticeHeader();
    BodyAdviceLine();
    LacksConcat(BodyNotice, BodyAdvice, '\n');
  }

  /** The message `sendBackupViaEmail` builds, before its own `btoa`. */
  function BackupEmail(userEmail: string, backupData: string, nowIso: string, randomHex: string,
                       btoa: string -> string): string
  {
    Email(userEmail, EmailSubject, EmailBody, btoa(backupData), DefaultFileName(nowIso), Boundary(randomHex))
  }

  /** The backup e-mail has eighteen lines: the fixed body, the attachment
      under the default name, and the encoded backup on its own line. */
  lemma BackupEmailLayout(userEmail: string, backupData: string, nowIso: string, randomHex: string,
                          btoa: string -> string)
    requires OneLine(userEmail) && OneLine(randomHex) && OneLine(DefaultFileName(nowIso))
    requires Base64(btoa(backupData))
    ensures var lines := Split(BackupEmail(userEmail, backupData, nowIso, randomHex, btoa), '\n');
      && |lines| == 18
      && lines[8] == EmailBody
      && lines[12] == Disposition + Quote + DefaultFileName(nowIso) + Quote
      && lines[15] == btoa(backupData)
  {
    EmailSubjectLine();
    EmailBodyHeader();
    LacksConcat("backup_boundary_", randomHex, '\n');
    var delimiter := "--" + Boundary(randomHex);
    assert EmailBody != delimiter by {
      assert delimiter[0] == '-';
    }
    EmailLayout(userEmail, EmailSubject, EmailBody, btoa(backupData), DefaultFileName(nowIso), Boundary(randomHex));
  }
}
