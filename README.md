# Life.AI client core in Dafny

Life.AI is a personal memory journal. The user talks to an assistant in a chat. A language model decides whether a message is worth keeping and extracts its people, places, events, tags and sentiment. The memory is stored in a database, and a knowledge graph of memories and the entities they mention is kept beside the log. This project models the client-side logic of the application and proves properties of it. The model covers the zustand stores, the pure helpers of `src/lib` and the toast list.

Each source file becomes one Dafny module:

- `GraphStore` (`graph_store.dfy`) and `Graph` (`graph.dfy`) model `useGraphStore.js`.
  - The full rebuild of the graph from the memory rows is a method. It is proved equal to the specification functions `RebuildNodes` and `RebuildEdges`, and the lemmas state what the rebuilt graph contains.
  - The type and time filters, the local `addNode`, `removeNode` and `addEdge`, and the read-only queries are also modelled.
- `MemoryStore` (`memory_store.dfy`) models `useMemoryStore.js`. This covers the filter merge, the pagination arithmetic, the record a save sends, the list updates of save, update, delete and forget, the calls these make into the graph store, and the statistics.
- `Analytics` (`analytics.dfy`) models `useAnalyticsStore.js`. This covers the window counts, sentiment histogram, frequency tables and averages, the ordered insight rules, the day and week trend buckets, and insight dismissal.
- `Gemini` (`gemini.dfy`) models `geminiApi.js`. This covers locating the JSON in a model reply, the sanitiser of an extraction reply, the forget, recall and extract priority, and the fallbacks of the other model calls.
- `Settings` (`settings.dfy`) models `useSettingsStore.js`. This covers the preferences, the setters, the row mapping in both directions, the reset, the "backup due" rule and the persisted part.
- `Backup` (`backup.dfy`) models `driveBackup.js`. This covers the backup envelope and its validation, the automatic-backup interval, the multipart e-mail and the default file names.
- `Ocr` (`ocr.dfy`) models `ocrUtils.js`. This covers the text cleanup chain, the ordered quality check, the input checks, the image-to-memory decision and the supported types.
- `Utils` (`utils.dfy`) models `utils.js`.
- `Chat` (`chat.dfy`) models `useChatStore.js`.
- `Toaster` (`toaster.dfy`) models `toaster.jsx`.
- The shared modules are:
  - `Seqs`: filter, map, `[...new Set(xs)]` and counting;
  - `Js`: values, truthiness and number rendering;
  - `Text`: `\s`, `trim`, `toLowerCase`, `includes`, `indexOf` and `split`/`join`;
  - `Coerce`: JavaScript's `Number(v)` and `String(v)` of JSON values, which the confidence clamp, the toast duration check and the template strings apply;
  - `Records`: the `memories` row;
  - `Tallies`: the `t[k] = (t[k] || 0) + 1` counters and the sentiment breakdown.

Every store is a class whose fields are the store's state. Its actions are methods with `modifies` clauses, and each ensures clause gives the whole new state. Loops in the source are loops here, with invariants, and each is proved against a specification function whose properties are proved as lemmas.

Several things are parameters rather than part of the model:

- Whatever the source obtains from outside: database replies, the language model's replies, the OCR engine's result, the signed-in user, the clock, `Math.random` and `btoa`.
- A thrown error is an `Err` value.
- Instants are integer milliseconds and calendar days are integer day numbers. Ratios and percentages are `real`.

Some behaviour of the code as written is unexpected, and the model keeps it. A lemma states each case:

- `Ocr.LoneDigit`: the cleanup chain turns the text `0` into the empty string, because the lone zero becomes `O` and is then dropped as a one-letter word.
- `Utils.ZeroCounts`: `formatRelativeTime` reads 28–29 days as "0 months ago" and 360–364 days as "0 years ago".
- `Utils.CalculateReadingTime`: both branches of `calculateReadingTime` give the same text.
- `Toaster.CallerIdSurvivesRemoval`: a toast whose caller supplies an `id` keeps that id. The automatic removal targets the generated id instead, so the toast is never removed automatically.
- `Utils.SentimentEmoji`: the emoji literals of `getSentimentEmoji` are stored garbled (their UTF-8 bytes read as Windows-1252 text). The model returns them as spelled, so the neutral literal is the first three characters of the other two.
- `Analytics.TotalSentimentTwice`: a memory whose sentiment is the text `total` raises its week's total twice in `getSentimentTrends`, which lowers that week's percentages.
- `Gemini.MissingKeyNotMapped`: the missing-key error spells `API_KEY`, so it is not reported as "API key error".
- The incremental graph updates disagree with the rebuild:
  - a save links the raw row id to the raw entity value (`MemoryStore.SaveEdgesRaw`);
  - a delete removes nodes by the raw row id, which leaves a rebuilt `memory_` node in place (`MemoryStore.DeleteKeepsRebuiltNode`);
  - `removeNode` never removes entity nodes that no edge reaches any more.

The model proves no agreement between the incremental path and the rebuild.

## Model

| member | source | states |
|---|---|---|
| Utils.FormatRelativeTime | src/lib/utils.js:51-87 | the text is "just now" exactly when the elapsed time is under a minute; otherwise it is the count's digits, a space, the unit name, an "s" unless the count is one, and " ago"; an invalid date reads "NaN years ago" |
| Utils.RelativeThresholds | src/lib/utils.js:54-86 | the unit is chosen by fixed thresholds on the elapsed seconds (under a minute, the future included, is "just now"; months start at 28 days, years at 360), and the count is the elapsed time in that unit rounded down |
| Utils.ZeroCounts | src/lib/utils.js:75-86 | a count of zero occurs exactly for 28–29 days ("0 months ago") and for 360–364 days ("0 years ago") |
| Utils.PluralUnlessOne | src/lib/utils.js:62-86 | the unit is written in the plural exactly when the count is not one |
| Utils.TruncateText | src/lib/utils.js:90-93 | text within the limit comes back unchanged |
| Utils.TruncatedShape | src/lib/utils.js:91-92 | longer text becomes its first `maxLength` characters (none for a negative limit) trimmed of white space at both ends, followed by "...", at most three characters longer than the limit |
| Utils.IsValidEmail | src/lib/utils.js:161-164 | the address matches `^[^\s@]+@[^\s@]+\.[^\s@]+$` exactly when it has no white space, exactly one `@` after a non-empty local part, and a dot inside the domain that is neither its first nor its last character |
| Utils.EmailPatternIff | src/lib/utils.js:162-163 | both directions of the equivalence between a regular-expression match and the split-at-`@` description |
| Utils.EmailShapeMatches | src/lib/utils.js:162-163 | an address of that shape matches the pattern at its `@` and its inner dot |
| Utils.EmailMatchFacts | src/lib/utils.js:162-163 | a match splits at `@` into two parts: a non-empty local part and a domain with an inner dot |
| Utils.EmailSplitMatch | src/lib/utils.js:162-163 | a local part, an `@` and a domain with an inner dot, all free of white space and `@`, form a match |
| Utils.ReadingMinutes | src/lib/utils.js:204-206 | the minutes are at least one, and they are the number of started blocks of 200 space-separated pieces |
| Utils.SplitCount | src/lib/utils.js:205 | splitting on a character yields one piece more than the text has occurrences of that character |
| Utils.CalculateReadingTime | src/lib/utils.js:203-208 | the text is the minute count followed by " min read"; both branches of the source give the same text |
| Utils.ReadingTimeFacts | src/lib/utils.js:203-208 | the minutes are fixed by the number of spaces, and the text reads "1 min read" exactly when the count is one |
| Utils.MinReadOne | src/lib/utils.js:207 | the generic branch yields "1 min read" only for a count of one |
| Utils.SentimentColor | src/lib/utils.js:177-187 | `positive` and `negative` get the green and the red classes |
| Utils.SentimentEmoji | src/lib/utils.js:190-200 | `positive` and `negative` get their own literals as the file spells them (a smiling and a pensive face garbled as Windows-1252 text), every other value the neutral literal |
| Utils.SentimentFallback | src/lib/utils.js:183-199 | every value other than the strings `positive` and `negative` gets the neutral class and emoji, and only those values do |
| Utils.KeyValues | src/lib/utils.js:257 | one value per item: the item's field under `key`, or `undefined` |
| Utils.GroupBy | src/lib/utils.js:255-262 | the loop builds the groups that the left-to-right reduction defines |
| Utils.GroupedIsFilter | src/lib/utils.js:255-262 | there is a group exactly for each value found under `key`, and it holds exactly the items with that value, in input order |
| Utils.GroupedCovers | src/lib/utils.js:255-262 | every item lies in the group of its own value |
| Utils.GroupedMembers | src/lib/utils.js:255-262 | every group is non-empty, keeps the input order, and holds only items with its value |
| Seqs.UniqueFacts | src/lib/utils.js:264-266 | `unique` keeps each element once, with the same set of elements and no greater length |
| Seqs.UniqueFirstOccurrenceOrder | src/lib/utils.js:264-266 | `unique` lists elements in the order of their first occurrence |
| Utils.Pick | src/lib/utils.js:278-285 | the loop copies exactly the listed keys the object has, with their values |
| Utils.Omit | src/lib/utils.js:287-291 | the loop leaves exactly the keys that are not listed, with their values |
| Utils.PickOmitSplit | src/lib/utils.js:278-291 | `pick` and `omit` with the same keys split the object into two parts with disjoint keys whose union is the object; omitting nothing keeps it, picking nothing gives `{}` |
| Utils.RelativeOf | src/lib/utils.js:51-87 | the unit cascade: seconds under a minute are "just now", then minutes, hours, days, months and years by fixed thresholds |
| Toaster.NewToast | src/components/ui/toaster.jsx:14-18 | the new toast has the caller's fields plus `id` and `createdAt`; the creation time always wins, and a caller's own `id` replaces the generated one |
| Toaster.TimerDelay | src/components/ui/toaster.jsx:25-27 | the timer waits a whole, non-negative number of milliseconds, the duration itself cut to whole milliseconds when it lies below 2^31 |
| Toaster.RemovalRule | src/components/ui/toaster.jsx:23-28 | a missing, empty, zero or other falsy duration becomes the 5000 ms default; otherwise removal is scheduled exactly when the duration converts to a number above zero (so a negative number, the text `"0"` or text that is not a number cancel it), after that many whole milliseconds |
| Toaster.StringDuration | src/components/ui/toaster.jsx:23-28 | a duration given as the text `"100"` removes the toast after 100 ms |
| Toaster.WithoutToast | src/components/ui/toaster.jsx:34 | exactly the toasts whose id differs from the given one are kept, each as many times as it occurred |
| Toaster.RemoveFacts | src/components/ui/toaster.jsx:33-35 | removal keeps the other toasts in order and keeps the list unchanged when no toast has the id |
| Toaster.ToastOptions | src/components/ui/toaster.jsx:62-67 | a string becomes a `default` toast with that title; an options object is passed on as it is |
| Toaster.HelperOptions | src/components/ui/toaster.jsx:70-80 | each helper passes exactly the title, the description and its own variant (`success`, `destructive`, `warning`, `info`) |
| Toaster.VariantMaps | src/components/ui/toaster.jsx:90-118 | a variant has an icon exactly when it has its own style; every other variant gets the plain white style and no icon |
| Toaster.HelperIcons | src/components/ui/toaster.jsx:70-103 | each helper's variant has an icon, different helpers have different icons, and a string toast has none |
| Toaster.ToastList.constructor | src/components/ui/toaster.jsx:10 | the list starts empty |
| Toaster.ToastList.AddToast | src/components/ui/toaster.jsx:12-31 | the new toast is appended, the generated id is returned, and removal is scheduled with the delay `RemovalRule` describes |
| Toaster.ToastList.Toast | src/components/ui/toaster.jsx:62-67 | `toast(options)` adds the toast its options describe |
| Toaster.ToastList.Notify | src/components/ui/toaster.jsx:70-80 | a helper adds its toast, and it is always removed after the default 5000 ms |
| Toaster.ToastList.RemoveToast | src/components/ui/toaster.jsx:33-35 | the list becomes the toasts whose id differs |
| Toaster.ToastList.RemoveAllToasts | src/components/ui/toaster.jsx:37-39 | the list becomes empty |
| Toaster.CallerIdSurvivesRemoval | src/components/ui/toaster.jsx:13-27 | a toast carrying its own `id` is not removed by the scheduled removal, which targets the generated id |
| Toaster.GetIcon | src/components/ui/toaster.jsx:90-103 | `success`, `destructive`, `warning` and `info` get their own icon; any other variant none |
| Toaster.GetStyles | src/components/ui/toaster.jsx:105-118 | the four named variants get their own colours; any other variant the plain white style |
| Chat.Stamped | src/stores/useChatStore.js:33-37 | a stored message has the message's own fields, which win, plus an `id` and a `timestamp` that apply only when the message has none |
| Chat.Respond | src/stores/useChatStore.js:60-91 | the `try`/`catch` picks the error to record, the reply to show and the memory data to save, as the result decides |
| Chat.SendOutcomes | src/stores/useChatStore.js:62-91 | an error is recorded exactly when the assistant apologises; otherwise the AI's `response` is shown; memory data is saved only when no error occurred and both `shouldSave` and `memoryData` are truthy |
| Chat.RecallLines | src/stores/useChatStore.js:208-210 | one bullet line per found memory, in order |
| Chat.RecallListing | src/stores/useChatStore.js:208-214 | when no content or date holds a line break, the joined listing splits back into exactly one line per memory |
| Chat.Store.constructor | src/stores/useChatStore.js:6-14 | empty log, empty draft, all flags off, no error and no recogniser |
| Chat.Store.AddMessage | src/stores/useChatStore.js:32-38 | the stamped message is appended and nothing else changes |
| Chat.Store.ClearMessages | src/stores/useChatStore.js:41 | the log becomes empty and nothing else changes |
| Chat.Store.SendMessage | src/stores/useChatStore.js:44-95 | the user's message, then exactly one assistant message (the reply or an apology), is appended; the error is the result's error; the memory data to save is returned; the processing flag ends cleared on every path |
| Chat.Store.HandleForgetCommand | src/stores/useChatStore.js:146-187 | the query is appended as a `forget` message, followed by the count forgotten, the not-found text or the apology; the error is untouched and processing ends cleared |
| Chat.Store.HandleRecallCommand | src/stores/useChatStore.js:190-235 | the query is appended as a `recall` message, followed by the listing, the not-found text or the apology; processing ends cleared |
| Chat.Store.StartListening | src/stores/useChatStore.js:98-134 | without browser support only the not-supported error is set; otherwise a recogniser is held |
| Chat.Store.OnStart | src/stores/useChatStore.js:111-113 | listening starts and the error is cleared |
| Chat.Store.OnResult | src/stores/useChatStore.js:115-118 | the transcript becomes the current message |
| Chat.Store.OnError | src/stores/useChatStore.js:120-126 | listening stops and the error names the reason |
| Chat.Store.OnEnd | src/stores/useChatStore.js:128-130 | listening stops and the recogniser is dropped |
| Chat.Store.StopListening | src/stores/useChatStore.js:137-143 | the recogniser is stopped exactly when one is held; listening stops and the recogniser is dropped either way |
| Chat.ForgetReply | src/stores/useChatStore.js:160-184 | the count forgotten on success, the not-found text on a reported failure, the apology when the call threw |
| Chat.RecallReply | src/stores/useChatStore.js:203-230 | the bullet listing when memories are found, the not-found text when none are, the apology when the search threw |
| Ocr.SkipSpace | src/lib/ocrUtils.js:193 | the result is a suffix of the text that starts with no white space, shorter when the text started with white space |
| Ocr.CollapseSpace | src/lib/ocrUtils.js:191 | every run of white space becomes one plain space: the result is single-spaced, empty only for empty text, starts with a space exactly when the text started with white space, and holds no other new characters |
| Ocr.CollapseKeepsText | src/lib/ocrUtils.js:191 | the characters that are not white space are kept, all of them and in order: removing white space from the result and from the text gives the same string |
| Ocr.SkipSpaceKeepsText | src/lib/ocrUtils.js:191 | dropping a leading white-space run keeps every other character in order |
| Ocr.RemoveArtifacts | src/lib/ocrUtils.js:195 | exactly the word characters, white space and listed punctuation of the text survive |
| Ocr.ReplaceStandalone | src/lib/ocrUtils.js:197-198 | a digit is replaced exactly where it stands alone between word boundaries; every other character is kept in place |
| Ocr.ReplaceRn | src/lib/ocrUtils.js:199 | no `rn` is left, text without one is unchanged, and the only character the replacement adds is `m` |
| Ocr.ReplacePipe | src/lib/ocrUtils.js:200 | every pipe character becomes `l` and nothing else changes |
| Ocr.SkipStops | src/lib/ocrUtils.js:202 | the leading run of `[.,!?;:]` is dropped |
| Ocr.DedupStops | src/lib/ocrUtils.js:202 | no two stops `[.,!?;:]` remain adjacent, every character that is not a stop is kept in order, the first character is kept, and no character is added |
| Ocr.SpaceAfterStops | src/lib/ocrUtils.js:204 | the only character the pass adds is a space, and the first character stays first |
| Ocr.SpaceAfterStopsFacts | src/lib/ocrUtils.js:204 | afterwards no stop is directly followed by a word character, and with spaces removed the text is as it was |
| Ocr.KeepMask | src/lib/ocrUtils.js:206-212 | a position survives exactly when it does not hold a stray letter |
| Ocr.DropStrayFrom | src/lib/ocrUtils.js:206-212 | from position `i` on, the pass keeps exactly the positions the keep mask selects, in order |
| Ocr.DropStrayLetters | src/lib/ocrUtils.js:206-212 | the result is the text with exactly its stray positions (lone ASCII letters other than `i` and `a`, in either case) removed, the rest kept in order |
| Ocr.NoStrayUnchanged | src/lib/ocrUtils.js:206-212 | text without stray letters passes unchanged |
| Ocr.FixesKeep | src/lib/ocrUtils.js:197-212 | the fixes only insert `O`, `I`, `m`, `l` and spaces, so text made of kept characters stays that way |
| Ocr.TrimEnds | src/lib/ocrUtils.js:193 | trimmed text neither starts nor ends with a space |
| Ocr.TrimKeeps | src/lib/ocrUtils.js:193 | trimming keeps text single-spaced and adds no character |
| Ocr.CleanupSpacing | src/lib/ocrUtils.js:186-216 | cleaned text has no space at either end and only single plain spaces inside |
| Ocr.TrimSpacing | src/lib/ocrUtils.js:214-215 | trimming single-spaced text leaves no space at either end |
| Ocr.CleanupCharacters | src/lib/ocrUtils.js:186-216 | every character of cleaned text is a word character, a space or listed punctuation, and never a pipe character |
| Ocr.SpacesOneChar | src/lib/ocrUtils.js:191-193 | both white-space passes leave a single non-space character alone |
| Ocr.PrepareOneChar | src/lib/ocrUtils.js:191-195 | the passes before the fixes leave a single kept non-space character alone |
| Ocr.FixOneChar | src/lib/ocrUtils.js:197-212 | on the text `0`, the fixes turn it into `O` and then drop it as a stray letter; on `1`, they turn it into `I`, which is kept |
| Ocr.LoneDigit | src/lib/ocrUtils.js:186-216 | the cleanup of the text `0` is empty, and the cleanup of `1` is `I` |
| Ocr.TakeWord | src/lib/ocrUtils.js:250 | the first word is the leading run of non-white-space characters, ended by white space or by the end of the text |
| Ocr.WordsAreWords | src/lib/ocrUtils.js:250 | every word is a non-empty run of non-white-space characters |
| Ocr.WordsWhole | src/lib/ocrUtils.js:250 | a non-empty text without white space is one word |
| Ocr.WordsStep | src/lib/ocrUtils.js:250 | a word followed by one space and more text: the words are that word, then the words of the rest |
| Ocr.JoinStep | src/lib/ocrUtils.js:250 | the text before a space, joined to the pieces of the rest, gives back the text |
| Ocr.WordGap | src/lib/ocrUtils.js:250 | in trimmed single-spaced text, the first word is followed by one space and then another word |
| Ocr.JoinWords | src/lib/ocrUtils.js:250 | the words of trimmed single-spaced text, joined by single spaces, give back the text |
| Ocr.AlnumCount | src/lib/ocrUtils.js:260 | the count of `[a-zA-Z0-9]` characters is at most the length |
| Ocr.ValidateOcrText | src/lib/ocrUtils.js:219-276 | the text is valid exactly when the reason is `Text appears valid` |
| Ocr.RatioCheck | src/lib/ocrUtils.js:260-261 | an alphanumeric ratio below 0.6 means five times the count is below three times the length |
| Ocr.ValidationOrder | src/lib/ocrUtils.js:219-276 | the checks run in order and the first failure decides the reason: no text (confidence 0), fewer than 3 characters, confidence below 30, fewer than 2 words, ratio below 0.6; a valid result reports the word and character counts and the confidence |
| Ocr.ExtractTextFromImage | src/lib/ocrUtils.js:42-107 | extraction fails with an empty text and zero confidence for a missing or non-image file, a file over 10 MB, or a failed recognition; otherwise it returns the cleaned text and the engine's confidence |
| Ocr.ProcessImageForMemory | src/lib/ocrUtils.js:279-326 | a failed extraction is passed on with empty text; a text that fails validation is reported with its reason, text and confidence; only valid text becomes an image memory |
| Ocr.ImageTextIsClean | src/lib/ocrUtils.js:279-326 | an image memory's text is the cleaned recognised text, at least 3 characters long, with at least 2 words, confidence of at least 30, and single spaces between words |
| Ocr.ImageFromValid | src/lib/ocrUtils.js:293-307 | an image memory holds the text and confidence of a successful, valid extraction |
| Ocr.ValidMeans | src/lib/ocrUtils.js:231-257 | text that passed validation met the length, confidence and word thresholds |
| Ocr.SupportedIsImage | src/lib/ocrUtils.js:342-358 | every supported format passes the `image/` type check of the extraction |
| Ocr.FixMistakes | src/lib/ocrUtils.js:197-212 | the fixes run in source order: a lone `0` becomes `O`, a lone `1` becomes `I`, `rn` becomes `m`, a pipe becomes `l`, a run of stops keeps its first, a space goes after a stop before a word character, and stray letters are dropped |
| Ocr.CleanupOcrText | src/lib/ocrUtils.js:186-216 | empty text gives the empty string; otherwise collapse and trim, drop artifacts, apply the fixes, then collapse and trim again |
| Ocr.IsSupportedImageFile | src/lib/ocrUtils.js:355-358 | a file is supported exactly when one is given and its type is one of the seven listed image types |
| Backup.LengthOf | src/lib/driveBackup.js:28-29 | `v?.length` is the length of an array or string and `undefined` on `null` or `undefined` |
| Backup.CreateBackupData | src/lib/driveBackup.js:21-35 | reading from `null` or `undefined` user data throws; otherwise the envelope has exactly the version `1.0`, the app name, the creation time, the user data and the metadata |
| Backup.MetadataCounts | src/lib/driveBackup.js:27-31 | the metadata counts the memories and the graph edges (0 for an empty list) and names the user's e-mail, or `unknown` |
| Backup.MetadataDefaults | src/lib/driveBackup.js:27-31 | without the lists and the user, the metadata reads 0, 0 and `unknown` |
| Backup.RestoreFromBackup | src/lib/driveBackup.js:359-383 | a falsy version or user data is an invalid file, any version other than `1.0` is unsupported, and otherwise the user data and the metadata come back |
| Backup.CreateRestore | src/lib/driveBackup.js:359-383 | restoring a freshly created backup gives back the same user data and its metadata; falsy user data is rejected as an invalid file |
| Backup.BackupInterval | src/lib/driveBackup.js:284-304 | there is no schedule exactly when automatic backup is off |
| Backup.IntervalAgreesWithDue | src/lib/driveBackup.js:289-295 | the scheduler waits a day, a week or thirty days, as `isBackupDue` measures for the same frequency, and a week for any other |
| Backup.EmailLines | src/lib/driveBackup.js:259-278 | the message has eighteen lines |
| Backup.EmailLayout | src/lib/driveBackup.js:256-281 | the joined message splits back into its eighteen lines: To, Subject and MIME-Version headers, the multipart header naming the boundary, the boundary delimiter on exactly lines 5 and 10, and the closing delimiter last |
| Backup.FileName | src/lib/driveBackup.js:336 | a given non-empty name is used; otherwise the dated default |
| Backup.DefaultNameIsDate | src/lib/driveBackup.js:218 | for an ISO timestamp, the default name is `life-ai-backup-` followed by the first ten characters (the date) and `.json` |
| Backup.BackupEmailLayout | src/lib/driveBackup.js:216-227 | the backup e-mail has eighteen lines: the fixed body on line 8, the attachment named by the dated file name on line 12, and the encoded backup on line 15 |
| Backup.Email | src/lib/driveBackup.js:256-281 | the multipart message is its lines joined with line breaks |
| Backup.DefaultFileName | src/lib/driveBackup.js:218 | the dated name `life-ai-backup-<date>.json` with the date part of the current instant |
| Backup.BackupEmail | src/lib/driveBackup.js:216-227 | the backup e-mail to the user: fixed subject and body, the encoded backup attached under the dated file name |
| Settings.Keys | src/stores/useSettingsStore.js:106-131 | one preference name per column, in order |
| Settings.ColumnNames | src/stores/useSettingsStore.js:152-179 | one column name per column, in order |
| Settings.Object | src/stores/useSettingsStore.js:106-131 | the object built from name/value pairs has exactly the names the pairs give |
| Settings.ObjectAt | src/stores/useSettingsStore.js:106-131 | with distinct names, each pair is the property it names |
| Settings.Load | src/stores/useSettingsStore.js:107-130 | a column or-ed with its fallback gives a truthy value back and the fallback otherwise; `column !== false` is a boolean that is false exactly for `false`; the date and e-mail columns are taken as they are |
| Settings.LoadedPairs | src/stores/useSettingsStore.js:94-131 | each preference is loaded from its own column by its own rule |
| Settings.SavedPairs | src/stores/useSettingsStore.js:152-179 | each column is saved from its own preference |
| Settings.KeysDistinct | src/stores/useSettingsStore.js:106-131 | the loaded preference names are pairwise distinct |
| Settings.ColumnsDistinct | src/stores/useSettingsStore.js:152-179 | the saved column names are pairwise distinct |
| Settings.DefaultsDistinct | src/stores/useSettingsStore.js:10-48 | the initial preference names are pairwise distinct |
| Settings.OwnerNotColumn | src/stores/useSettingsStore.js:152-179 | no preference column is named `user_id` or `updated_at` |
| Settings.SavedValue | src/stores/useSettingsStore.js:152-179 | each column of the saved row holds its preference |
| Settings.SavedFields | src/stores/useSettingsStore.js:152-179 | the saved row has no field besides the columns, the owner and the time |
| Settings.LoadPreserves | src/stores/useSettingsStore.js:107-130 | a value the load preserves comes back unchanged |
| Settings.RoundTrip | src/stores/useSettingsStore.js:94-179 | loading the saved row gives back any preference whose value the load preserves |
| Settings.ColumnsOneToOne | src/stores/useSettingsStore.js:94-179 | the settings table maps preferences to columns one to one |
| Settings.NoTokenColumn | src/stores/useSettingsStore.js:152-179 | the Drive refresh token has no column, so it is never saved |
| Settings.NoStatusKey | src/stores/useSettingsStore.js:106-131 | no preference is named `loading` or `error` |
| Settings.Unsaved | src/stores/useSettingsStore.js:152-179 | a name that is not a column, the owner or the time is not in the saved row |
| Settings.SavedColumns | src/stores/useSettingsStore.js:152-179 | every column of the row `saveSettings` upserts holds its preference's current value |
| Settings.SavedOnlyColumns | src/stores/useSettingsStore.js:152-179 | the saved row has exactly the owner, the time and the columns, and never the refresh token |
| Settings.SaveLoadRoundTrip | src/stores/useSettingsStore.js:94-179 | loading a saved row gives back every saved preference whose value the load preserves (a truthy value, any boolean, or any date and e-mail) |
| Settings.RoundTripAll | src/stores/useSettingsStore.js:94-179 | the same round trip for any one-to-one table of columns |
| Settings.NullRowLoads | src/stores/useSettingsStore.js:106-131 | a row of `null` columns loads each preference as the defaults give it, when the fallbacks agree with the defaults |
| Settings.InitialAt | src/stores/useSettingsStore.js:10-51 | the initial state holds each initial preference next to `loading` and `error` |
| Settings.DefaultsNotStatus | src/stores/useSettingsStore.js:10-48 | no initial preference is named `loading` or `error` |
| Settings.DefaultsAt | src/stores/useSettingsStore.js:10-48 | the initial state holds each listed initial value |
| Settings.ColumnsAgree | src/stores/useSettingsStore.js:10-131 | every load fallback equals the initial value of its preference, and every `!== false` preference starts as `true` |
| Settings.DefaultsMatchColumns | src/stores/useSettingsStore.js:10-48 | the initial values list every column's preference in order, plus the refresh token |
| Settings.NullRowLoadsDefaults | src/stores/useSettingsStore.js:94-131 | a row whose every column is `null` loads as the initial preferences |
| Settings.Partialize | src/stores/useSettingsStore.js:329-334 | the persisted part is exactly the theme, language, date format and time format, with their values |
| Settings.Stored | src/stores/useSettingsStore.js:327-335 | what local storage gives back for the persisted part: exactly its properties whose value is not `undefined`, with their values |
| Settings.Rehydrate | src/stores/useSettingsStore.js:327-335 | after a reload, each of the four persisted preferences comes back unless it was `undefined`, which `JSON.stringify` leaves out so that it restarts at its initial value; every other field holds its initial value |
| Settings.FrequencyMs | src/stores/useSettingsStore.js:318-322 | only `daily`, `weekly` and `monthly` have an interval: one day, seven days and thirty days |
| Settings.BackupDueRule | src/stores/useSettingsStore.js:310-325 | a backup is due when automatic backup is off or none was made; otherwise exactly when a known interval has elapsed; never for an unknown frequency; once due, it stays due |
| Settings.TimeOf | src/stores/useSettingsStore.js:314-315 | the time of `new Date(lastBackupDate)`: a number truncated toward zero to whole milliseconds (at most 1 ms below a non-negative time, at most 1 ms above a negative one) and invalid beyond 8.64e15, `true` as 1 and `false` as 0, a string as the date parser reads it, and an array or object as the parser reads its text |
| Settings.Saved | src/stores/useSettingsStore.js:187-199 | after a save answers, loading is off, the error is the reply's message or `null`, and nothing else changes |
| Settings.Store.constructor | src/stores/useSettingsStore.js:10-51 | the store starts in the initial state |
| Settings.Store.UpdateSetting | src/stores/useSettingsStore.js:60 | that key and no other changes |
| Settings.Store.UpdateSettings | src/stores/useSettingsStore.js:63 | a shallow merge in which the patch wins |
| Settings.Store.LoadSettings | src/stores/useSettingsStore.js:75-141 | signed out, nothing changes; a query error other than "no row" records its message; a row sets every saved preference from its column; no row only ends loading |
| Settings.Store.SaveSettings | src/stores/useSettingsStore.js:144-201 | signed out, nothing changes and the call fails; otherwise the row built from the state is sent, and the state takes the reply's outcome |
| Settings.Store.ResetSettings | src/stores/useSettingsStore.js:204-232 | every preference goes back to its initial value; `loading` and `error` are kept |
| Settings.Store.DisconnectGoogleDrive | src/stores/useSettingsStore.js:272-286 | the Drive connection, e-mail and token are cleared, then the cleared state is saved |
| Settings.Store.UpdateLastBackupDate | src/stores/useSettingsStore.js:289-292 | the date is recorded, then the dated state is saved |
| Settings.LoadedKeys | src/stores/useSettingsStore.js:106-131 | a loaded row sets preference names only |
| Settings.LoadedKeysAreColumns | src/stores/useSettingsStore.js:106-131 | a loaded row never sets `loading` or `error` |
| Settings.ResetValues | src/stores/useSettingsStore.js:204-232 | a reset sets every preference to its initial value and never touches `loading` or `error` |
| Settings.Store.IsBackupDue | src/stores/useSettingsStore.js:310-325 | the store's answer is the backup-due rule applied to its current state |
| Coerce.DigitIn | src/lib/geminiApi.js:181 | a digit's value in a base is below the base |
| Coerce.RadixValue | src/lib/geminiApi.js:181 | a run reads in a base exactly when every character is a digit of that base |
| Coerce.Mantissa | src/lib/geminiApi.js:181 | a decimal mantissa reads as a non-negative number |
| Coerce.Scale | src/lib/geminiApi.js:181 | scaling a non-negative mantissa by a power of ten keeps it non-negative |
| Coerce.UnsignedDecimal | src/lib/geminiApi.js:181 | an unsigned decimal, with or without an exponent, reads as a non-negative number |
| Coerce.StringToNumber | src/lib/geminiApi.js:181 | `Number` of an empty or all-white-space string is 0, and a finite result of text without a leading minus sign is non-negative |
| Coerce.NumeralValue | src/lib/geminiApi.js:181 | a trimmed numeral: the empty text is 0, and a finite value of text without a leading minus sign is non-negative |
| Coerce.DecimalNumeral | src/lib/geminiApi.js:181 | text starting with a digit (and no `0x`-style prefix) reads as its unsigned decimal; a minus sign before a digit negates that decimal |
| Coerce.MantissaDigits | src/lib/geminiApi.js:181 | a run of digits is a mantissa worth its decimal value |
| Coerce.SignedExponent | src/lib/geminiApi.js:181 | an optional sign before digits is an exponent worth the signed value |
| Coerce.ExponentDecimal | src/lib/geminiApi.js:181 | digits, `e`, an optional sign and digits read as the mantissa times ten to the power of the signed exponent |
| Coerce.ExponentNumber | src/lib/geminiApi.js:181 | `Number` of such a numeral, with no `0x`-style prefix, is that scaled value |
| Coerce.DigitsOfNat | src/lib/geminiApi.js:181 | the decimal rendering of a natural number is all digits and reads back as that number |
| Coerce.NumberOfNatText | src/lib/geminiApi.js:181 | `Number(String(n))` is `n` for every natural number |
| Coerce.DigitsNumber | src/lib/geminiApi.js:181 | a run of digits without sign or prefix reads as its decimal value |
| Coerce.UnsignedDigits | src/lib/geminiApi.js:181 | a run of digits reads as its value |
| Coerce.NumberOfIntText | src/lib/geminiApi.js:181 | `Number(String(i))` is `i` for every integer, negative ones included |
| Coerce.NegatedDigits | src/lib/geminiApi.js:181 | a minus sign before a run of digits negates its value |
| Coerce.ExponentForm | src/lib/geminiApi.js:181 | the text `1e3` reads as 1000 |
| Coerce.NegativeExponentForm | src/lib/geminiApi.js:181 | the text `1e-1` reads as 0.1 |
| Coerce.HundredText | src/components/ui/toaster.jsx:24 | the text `100` converts to the number 100 |
| Coerce.HexForm | src/lib/geminiApi.js:181 | `"0x10"` reads as 16 |
| Coerce.SignedHexForm | src/lib/geminiApi.js:181 | `"-0x10"` is `NaN` |
| Coerce.InfinityForm | src/lib/geminiApi.js:181 | `"-Infinity"` is negative infinity |
| Coerce.NumberOf | src/lib/geminiApi.js:181 | `Number(v)` for every JSON value: strings by their numeral, arrays through their text, objects and `undefined` `NaN` |
| Coerce.ToText | src/lib/geminiApi.js:111 | `String(v)` as a template string renders the query: text as it is, an array joined by commas, an object as `[object Object]` |
| Coerce.ElementTexts | src/lib/geminiApi.js:264 | one text per array element, nested arrays joined in turn |
| Gemini.FindLast | src/lib/geminiApi.js:138 | the last index of the character, or none exactly when it is absent |
| Gemini.Span | src/lib/geminiApi.js:138 | a match starts with the opening bracket and ends with the closing one |
| Gemini.SpanWidest | src/lib/geminiApi.js:138-143 | the greedy pattern matches exactly when some closing bracket follows some opening bracket, and the match is the widest such stretch |
| Gemini.ConfidenceOf | src/lib/geminiApi.js:181 | the confidence lies in [0, 1]: `NaN` or zero becomes 0.5, positive infinity 1 and negative infinity 0, and any other number is clamped to [0, 1] |
| Gemini.ArrayOr | src/lib/geminiApi.js:170-173 | the result is always an array, and an array is kept as it is |
| Gemini.ListsFixed | src/lib/geminiApi.js:170-173 | the four list fields become arrays and every other field is kept |
| Gemini.ScalarsFixed | src/lib/geminiApi.js:176-184 | writing the sentiment, the confidence and the timestamp leaves the lists and the other fields alone |
| Gemini.CleanMemoryData | src/lib/geminiApi.js:166-185 | the memory data ends cleaned: the four lists are arrays, an unknown sentiment becomes `neutral`, the confidence is clamped, the timestamp is set, and every other field is kept |
| Gemini.HeaderFixed | src/lib/geminiApi.js:157-163 | writing `shouldSave` and `response` leaves the other fields, `memoryData` included |
| Gemini.Sanitize | src/lib/geminiApi.js:156-187 | a non-boolean `shouldSave` becomes `false`, a falsy `response` gets the thank-you default, and memory data that is to be saved is cleaned; a primitive memory data to be saved throws, as the property writes on it would |
| Gemini.DataCleaned | src/lib/geminiApi.js:166-185 | writing cleaned memory data into a sanitised header completes the sanitised reply |
| Gemini.CheckCommand | src/lib/geminiApi.js:209-252 | the parsed JSON of the reply, or `{ flag: false, query: '' }` when the client is not configured, the call fails, no JSON is found or it does not parse |
| Gemini.Failure | src/lib/geminiApi.js:189-205 | a failed call never saves, and its error is `API key error` exactly when the message mentions "API key", the message itself otherwise |
| Gemini.MissingKeyNotMapped | src/lib/geminiApi.js:192-204 | the missing-key message spells `API_KEY`, so it is reported as it is rather than as `API key error` |
| Gemini.KeptMessage | src/lib/geminiApi.js:192-204 | a message without a `k` is reported as it is |
| Gemini.Extract | src/lib/geminiApi.js:127-187 | a failed call is a failure, a reply without parseable JSON gets the fallback, and a parsed reply is sanitised, unless its memory data makes the sanitiser throw |
| Gemini.ProcessWithGemini | src/lib/geminiApi.js:101-206 | without a key the call fails; a forget command wins over a recall command, which wins over extraction; a command reply names the query and never saves |
| Gemini.GenerateInsights | src/lib/geminiApi.js:255-291 | the parsed array of the reply, or `[]` when the call fails, no array is found or it does not parse |
| Gemini.EnhanceMemoryContent | src/lib/geminiApi.js:294-316 | the trimmed reply, or the content unchanged when the call fails |
| Gemini.SummarizeMemories | src/lib/geminiApi.js:319-342 | the trimmed reply, or "You had N memorable moments during T." when the call fails |
| Gemini.PropertyError | src/lib/geminiApi.js:170 | the `TypeError` of the first property assignment on primitive memory data, naming its kind and its text |
| Gemini.Sanitized | src/lib/geminiApi.js:156-187 | the sanitiser's outcome: `shouldSave` boolean, a response present, memory data to be saved cleaned, every other field kept |
| Graph.Tagged | src/stores/useGraphStore.js:99-101 | each value becomes a mention of the given kind, in order |
| Graph.MemoryNodes | src/stores/useGraphStore.js:87-95 | one memory node per memory, in order |
| Graph.EntityNodes | src/stores/useGraphStore.js:107-115 | one entity node per entity, in order |
| Graph.StoredEdge | src/stores/useGraphStore.js:128-135 | a stored edge always has a non-zero weight: the row's own when it is non-zero, 1 otherwise |
| Graph.ContainsEdges | src/stores/useGraphStore.js:147-156 | one `contains` edge per mention, in mention order |
| Graph.StoredEdges | src/stores/useGraphStore.js:127-136 | one edge per stored row, in row order |
| Graph.BuildGraph | src/stores/useGraphStore.js:82-157 | the loops of `loadGraph` build exactly the rebuilt nodes and edges |
| Graph.BuildNodes | src/stores/useGraphStore.js:83-121 | the memory nodes, then one entity node per distinct mention in order of first mention |
| Graph.AddEntityNodes | src/stores/useGraphStore.js:104-117 | the entity map gains a node for each mention whose id it does not hold yet, in mention order |
| Graph.BuildEdges | src/stores/useGraphStore.js:124-157 | the stored edges, then the implicit `contains` edges |
| Graph.CopyStoredEdges | src/stores/useGraphStore.js:127-136 | the loop pushes every stored edge with weight 1 in place of a falsy weight |
| Graph.AddContainsEdges | src/stores/useGraphStore.js:139-157 | the loop pushes one `contains` edge per mention of the memory |
| Graph.SeenIff | src/stores/useGraphStore.js:106 | the entity map holds a mention's id exactly when that mention was seen |
| Graph.EntityNodeIdInjective | src/stores/useGraphStore.js:105 | two mentions have the same node id exactly when they are the same mention: the kind prefixes differ |
| Graph.MemoryAndEntityIdsDiffer | src/stores/useGraphStore.js:89-105 | a memory node id never equals an entity node id |
| Graph.MemoryLabelFacts | src/stores/useGraphStore.js:91 | a memory label is the first 50 characters of the content (fewer for short content) followed by "...", always |
| Graph.RebuildMemoryNode | src/stores/useGraphStore.js:87-95 | the first nodes are the memory nodes in memory order, each with its id, type, label and row |
| Graph.RebuildEntityNode | src/stores/useGraphStore.js:120-121 | every node after the memory nodes is an entity node |
| Graph.RebuildEntityPresent | src/stores/useGraphStore.js:97-121 | an entity has a node exactly when some memory mentions it |
| Graph.RebuildEntityIdsDistinct | src/stores/useGraphStore.js:104-117 | entity nodes have pairwise distinct ids: one node per kind and value |
| Graph.RebuildEntityOrder | src/stores/useGraphStore.js:104-121 | entity nodes appear in the order of each entity's first mention |
| Graph.FirstMentionOrder | src/stores/useGraphStore.js:104-121 | distinct mentions listed earlier were first mentioned earlier |
| Graph.FirstMention | src/stores/useGraphStore.js:98-121 | the position of an entity's first mention: the entity is there and at no earlier position, and the position is the number of mentions exactly when it is never mentioned |
| Graph.RebuildIdsDistinct | src/stores/useGraphStore.js:83-121 | with distinct memory ids, every rebuilt node has its own id |
| Graph.ImplicitEdgesFacts | src/stores/useGraphStore.js:139-157 | the implicit edges pair up one to one with the mentions, in order, each from a memory that makes it |
| Graph.RebuildEdgesLayout | src/stores/useGraphStore.js:124-157 | the edge list holds the stored edges first, in order, then one edge per mention |
| Graph.RebuildImplicitEdge | src/stores/useGraphStore.js:147-156 | after the stored edges each edge is a weight-1 `contains` edge from a memory node to the mention's node, with id `source_target` |
| Graph.RebuildImplicitEdgeEndpoints | src/stores/useGraphStore.js:139-157 | both ends of every implicit edge are rebuilt nodes |
| Graph.ApplyFiltersNodes | src/stores/useGraphStore.js:176-216 | the filters keep nodes and links in order, and a node survives exactly when it has the selected type and, for a memory with a creation time, is newer than the cutoff |
| Graph.ApplyFiltersClosed | src/stores/useGraphStore.js:184-212 | whenever a filter is on, the kept links are exactly the input links whose two ends are kept nodes |
| Graph.ApplyFiltersOff | src/stores/useGraphStore.js:176-216 | with both filters off, the graph comes back as it is, dangling links included |
| Graph.ApplyFiltersIntersect | src/stores/useGraphStore.js:176-216 | the nodes kept under both filters are those kept under each filter alone |
| Graph.Connections | src/stores/useGraphStore.js:336-341 | exactly the edges with the node at either end, in edge order, each as many times as in the edge list |
| Graph.NodeNeighbors | src/stores/useGraphStore.js:320-333 | exactly the nodes, in node order, at the far end of an edge from the node, each kept as many times as the node list holds it |
| Graph.Search | src/stores/useGraphStore.js:344-352 | exactly the nodes, in order, whose lower-cased label or memory content contains the lower-cased query, each kept as many times as the node list holds it |
| Graph.LowerIdempotent | src/stores/useGraphStore.js:346 | lower-casing twice is lower-casing once |
| Graph.SearchIgnoresCase | src/stores/useGraphStore.js:344-352 | searching is insensitive to the case of the query |
| Graph.SearchEmpty | src/stores/useGraphStore.js:344-352 | an empty query returns every node |
| Graph.Kinds | src/stores/useGraphStore.js:359-361 | one type per node, in order |
| Graph.StatsCounts | src/stores/useGraphStore.js:355-369 | the totals are the node and edge counts, each type is counted by its number of nodes, and the per-type counts add up to the node total |
| Graph.DensityRange | src/stores/useGraphStore.js:367 | the density is never negative, is 0 exactly for at most one node or no edge, and exceeds 1 when there are more edges than node pairs |
| Graph.RatioFacts | src/stores/useGraphStore.js:367 | a non-negative ratio over a positive divisor is non-negative, is 0 only for a zero numerator, and exceeds 1 when the numerator exceeds the divisor |
| Graph.MemoryLabel | src/stores/useGraphStore.js:91 | a memory node's label: its first 50 characters followed by `...`, whatever the length |
| Graph.ApplyFilters | src/stores/useGraphStore.js:176-216 | the type filter, then the time filter, each keeping only the links between the nodes it keeps |
| Graph.Density | src/stores/useGraphStore.js:367 | `2E / (V (V - 1))` for more than one node, 0 otherwise |
| Graph.Stats | src/stores/useGraphStore.js:355-369 | the node and edge totals, the count of each node type in order of first appearance, and the density |
| GraphStore.WithoutNode | src/stores/useGraphStore.js:257 | exactly the nodes with another id, in order, each as many times as the list holds it |
| GraphStore.WithoutIncident | src/stores/useGraphStore.js:258-260 | exactly the edges with the node at neither end, in order, each as many times as the list holds it, so two identical `contains` edges both stay |
| GraphStore.InsertWeight | src/stores/useGraphStore.js:286 | the inserted weight is never 0: the given non-zero weight, or 1 |
| GraphStore.Store.constructor | src/stores/useGraphStore.js:6-15 | empty lists and view, not loading, no error, both filters `all` |
| GraphStore.Store.LoadGraph | src/stores/useGraphStore.js:51-173 | signed out, nothing changes; a failed query records its error and keeps the graph; otherwise the nodes and edges are rebuilt from the rows and the view is the filtered graph |
| GraphStore.Store.UpdateFilters | src/stores/useGraphStore.js:219-228 | both filters are set and the view is recomputed from the unchanged node and edge lists |
| GraphStore.Store.AddNode | src/stores/useGraphStore.js:231-247 | when signed in, the node is appended; nothing else changes |
| GraphStore.Store.RemoveNode | src/stores/useGraphStore.js:250-273 | when signed in, every node with the id and every edge touching it is removed; the view is not recomputed |
| GraphStore.Store.AddEdge | src/stores/useGraphStore.js:276-317 | when signed in, the row with weight 1 in place of a falsy weight is inserted, and the edge the database returns is appended only when the insert succeeds |
| GraphStore.RemoveNodeExact | src/stores/useGraphStore.js:256-261 | removal keeps every other node, leaves no edge touching the id, and drops exactly as many nodes as carry the id |
| GraphStore.WithoutNodeCount | src/stores/useGraphStore.js:257 | the node count drops by the number of nodes carrying the id |
| MemoryStore.MergeLaws | src/stores/useMemoryStore.js:35-37 | merging filters with an empty patch changes nothing, is idempotent, two merges equal one merge of the combined patch, clearing yields the defaults, and an absent key keeps its old value |
| MemoryStore.PagesTile | src/stores/useMemoryStore.js:58-65 | each page asks for exactly 20 rows, consecutive pages are adjacent, and every row falls in the range of its page |
| MemoryStore.TotalPages | src/stores/useMemoryStore.js:89 | the page count is the least number of 20-row pages covering the count |
| MemoryStore.LastRowOnLastPage | src/stores/useMemoryStore.js:89 | for a non-empty result the page holding the last row is the last page |
| MemoryStore.QueryFor | src/stores/useMemoryStore.js:58-79 | the query asks for the page's row range, a text search exactly when the search text is non-empty, the date range as set, and a tag filter exactly when tags are selected |
| MemoryStore.InsertOf | src/stores/useMemoryStore.js:112-122 | the inserted row keeps the content, turns each missing list into an empty one, falls back to `neutral` and 0.8 only when sentiment or confidence is missing or empty, and stamps the current time |
| MemoryStore.EdgeInputs | src/stores/useMemoryStore.js:155-162 | one edge request per mentioned entity, in order, from the raw new row id to the raw entity value, typed by the mention's own kind (`person`, `place` or `event`), weight 1 |
| MemoryStore.AddedEdges | src/stores/useMemoryStore.js:155-162 | the edge requests append at most one edge each |
| MemoryStore.AddedEdgesAllOk | src/stores/useMemoryStore.js:155-162 | when every insert succeeds, each request appends exactly the edge built from its row |
| MemoryStore.SaveEdgesRaw | src/stores/useMemoryStore.js:149-162 | each save edge is requested with the raw row id and entity name, which differ from the `memory_` and `<type>_` node ids a rebuild gives them |
| MemoryStore.WithoutId | src/stores/useMemoryStore.js:226-228 | after a delete the list keeps, in order, exactly the memories with another id, each as many times as it occurred |
| MemoryStore.WithoutIds | src/stores/useMemoryStore.js:305-308 | after a forget the list keeps, in order, exactly the memories whose id was not matched, each as many times as it occurred |
| MemoryStore.ReplaceById | src/stores/useMemoryStore.js:192-196 | an update keeps the length, replaces every row with the id by the new row and leaves every other row in place |
| MemoryStore.ReplaceByIdFacts | src/stores/useMemoryStore.js:192-196 | an update of an absent id changes nothing, one of a present id puts the new row in, and nothing else enters the list |
| MemoryStore.WithoutNodesFacts | src/stores/useMemoryStore.js:311-313 | removing the matched ids one by one keeps, in order, exactly the nodes with other ids and the edges touching none of them, each as many times as before |
| MemoryStore.RemainingNodes | src/stores/useMemoryStore.js:311-313 | the nodes left after the removals are, in order, those whose id was not removed, each as many times as before |
| MemoryStore.RemainingEdges | src/stores/useMemoryStore.js:311-313 | the edges left after the removals are, in order, those with neither end removed, each as many times as before |
| MemoryStore.AccumulateParts | src/stores/useMemoryStore.js:349-366 | the statistics loop counts the rows of the last 7 and 30 days and tallies every tag and person, starting from any initial state |
| MemoryStore.AccumulateBreakdown | src/stores/useMemoryStore.js:358 | the sentiment counters of the loop are the breakdown of the rows' sentiments |
| MemoryStore.AccumulateBreakdownFrom | src/stores/useMemoryStore.js:358 | from zeroed counters the loop yields the breakdown of the rows' sentiments |
| MemoryStore.StatsOfFacts | src/stores/useMemoryStore.js:324-375 | the statistics count every row, the week count is at most the month count which is at most the total, each tag's and person's tally is its number of occurrences, and the tag tallies sum to the number of tags |
| MemoryStore.AddMentionEdges | src/stores/useMemoryStore.js:155-162 | the loop appends the edges of the successful requests and changes nothing else in the graph |
| MemoryStore.RemoveNodes | src/stores/useMemoryStore.js:311-313 | the loop leaves the graph without the removed nodes and their edges, the view and filters unchanged |
| MemoryStore.Store.constructor | src/stores/useMemoryStore.js:7-20 | no memories, not loading, no error, default filters, page 1 of 1 |
| MemoryStore.Store.SetFilters | src/stores/useMemoryStore.js:35-37 | the filters become the merge of the old filters and the patch; nothing else changes |
| MemoryStore.Store.ClearFilters | src/stores/useMemoryStore.js:40-47 | the filters become the defaults; nothing else changes |
| MemoryStore.Store.LoadMemories | src/stores/useMemoryStore.js:50-102 | signed out, nothing is asked or changed; otherwise the page query of the current filters is sent, a failure records its message, and a reply installs the rows, the page and the page count |
| MemoryStore.Store.SaveMemory | src/stores/useMemoryStore.js:105-170 | signed out fails with the no-user message; otherwise the defaulted record is sent, a failed insert reports its error, and a success prepends the row, adds its memory node and appends the mention edges; memory data without content still inserts and prepends the row, then fails with the `TypeError` of the label, adding no node and no edge |
| MemoryStore.Store.UpdateMemory | src/stores/useMemoryStore.js:173-204 | signed out or on error nothing changes and the error is reported; on success rows with the id are replaced |
| MemoryStore.Store.DeleteMemory | src/stores/useMemoryStore.js:207-239 | signed out or on error nothing changes; on success the memory and its graph node and edges are gone and nothing else changes |
| MemoryStore.Store.SearchMemories | src/stores/useMemoryStore.js:242-266 | the matched rows when signed in and the search succeeds, otherwise none |
| MemoryStore.Store.ForgetMemories | src/stores/useMemoryStore.js:269-321 | no matches is an error and changes nothing; a delete error changes nothing; otherwise the matched memories, nodes and edges are removed and their number is reported |
| MemoryStore.Store.GetMemoryStats | src/stores/useMemoryStore.js:324-375 | the statistics of the fetched rows, or none when signed out or on error |
| MemoryStore.DeleteKeepsRebuiltNode | src/stores/useMemoryStore.js:231 | a delete by the raw row id keeps the `memory_` node a rebuild made for that row and the edges leaving it |
| MemoryStore.Merge | src/stores/useMemoryStore.js:35-37 | `{ ...filters, ...patch }`: each field the patch gives wins, the others stay |
| MemoryStore.StatsOf | src/stores/useMemoryStore.js:324-375 | the statistics of a list of rows, accumulated in row order |
| Analytics.CeilDiv | src/stores/useAnalyticsStore.js:154 | the rounded-up quotient is the least multiple count covering the dividend |
| Analytics.SpanDays | src/stores/useAnalyticsStore.js:154 | the divisor of the daily average is at least one day |
| Analytics.PresentSentiments | src/stores/useAnalyticsStore.js:128-130 | only rows with a non-empty sentiment are counted, so there are at most as many as rows |
| Analytics.AccumulateParts | src/stores/useAnalyticsStore.js:120-151 | the loop adds to any initial state the rows of the last 7, 30 and 365 days and one tally per tag, person, place and event, leaving the total and averages alone |
| Analytics.AccumulateBreakdown | src/stores/useAnalyticsStore.js:128-130 | the sentiment counters of the loop are the breakdown of the rows that carry a sentiment |
| Analytics.AnalyticsCounts | src/stores/useAnalyticsStore.js:103-151 | `thisWeek <= thisMonth <= thisYear <= total`, each value's tally is its number of occurrences and the tallies of a kind sum to its mentions, and the three sentiment counters sum to at most the total |
| Analytics.AnalyticsAverages | src/stores/useAnalyticsStore.js:154-155 | the daily average is the row count over at least one day, between 0 and the row count and 0 for an empty log, and the weekly average is seven times it |
| Analytics.RuleIdInjective | src/stores/useAnalyticsStore.js:224-289 | distinct insight rules carry distinct ids |
| Analytics.Leader | src/stores/useAnalyticsStore.js:269-271 | the top person is a counted person with the highest count, the first such in table order as a stable descending sort leaves it |
| Analytics.InsightsOrder | src/stores/useAnalyticsStore.js:218-296 | between one and five insights, in rule order, each rule at most once, and the backup reminder always last |
| Analytics.OrderedChoice | src/stores/useAnalyticsStore.js:224-289 | at most one rule from each stage, stage by stage, then the reminder, is strictly in rule order |
| Analytics.SentimentRule | src/stores/useAnalyticsStore.js:245-266 | the positive and low sentiment insights exclude each other; the positive one appears exactly when the sentiment total is positive and over 70% positive, the low one exactly when under 30% |
| Analytics.RatioThreshold | src/stores/useAnalyticsStore.js:247-257 | the ratio comparisons against 0.7 and 0.3 agree with the integer comparisons `10p > 7t` and `10p < 3t` |
| Analytics.ActivityAndPersonRules | src/stores/useAnalyticsStore.js:224-279 | high and no activity never appear together for a non-negative average; no activity appears exactly for an empty week; the top-person insight appears exactly when some person was counted and names the leader |
| Analytics.WithoutInsight | src/stores/useAnalyticsStore.js:406-410 | dismissal keeps, in order, exactly the insights with another id, each as many times as it occurred |
| Analytics.PeriodDays | src/stores/useAnalyticsStore.js:304 | 7 exactly for `7d`, 30 exactly for `30d`, otherwise 90 |
| Analytics.Reverse | src/stores/useAnalyticsStore.js:341-344 | the entries in the opposite order |
| Analytics.Weekday | src/stores/useAnalyticsStore.js:380 | the weekday is in 0..6 |
| Analytics.WeekStart | src/stores/useAnalyticsStore.js:380 | a day's week starts on the Sunday at most six days before it |
| Analytics.Weeks | src/stores/useAnalyticsStore.js:377-381 | each row's week key, in row order |
| Analytics.WeekTallyFacts | src/stores/useAnalyticsStore.js:383-389 | a week's total is its number of rows plus its rows whose sentiment is the text `total` (counted twice), and when every sentiment is recognised or missing the three counters sum to the total |
| Analytics.TotalSentimentTwice | src/stores/useAnalyticsStore.js:388-389 | a week of one `positive` row and one `total` row counts a total of three |
| Analytics.WeekTallyAbsent | src/stores/useAnalyticsStore.js:383-389 | a week without rows has all counters 0 |
| Analytics.ShareSums | src/stores/useAnalyticsStore.js:392-397 | in a week with rows whose sentiments are all recognised or missing, the three percentages add up to 100 |
| Analytics.Shares | src/stores/useAnalyticsStore.js:392-397 | one percentage entry per week key, in key order, from that week's counters |
| Analytics.CountDays | src/stores/useAnalyticsStore.js:333-338 | after the loop each day of the window holds the number of rows dated that day, no other day is added |
| Analytics.DayBuckets | src/stores/useAnalyticsStore.js:321-344 | exactly `days` entries, oldest first and ending today, each counting the rows dated that day |
| Analytics.TallyWeeks | src/stores/useAnalyticsStore.js:375-390 | the week keys in first-occurrence order, each mapped to exactly its counters |
| Analytics.WeekBuckets | src/stores/useAnalyticsStore.js:375-397 | the percentage entries of the weeks that have rows, in first-occurrence order |
| Analytics.Compute | src/stores/useAnalyticsStore.js:103-155 | the loop and averages yield the statistics of the rows |
| Analytics.Store.constructor | src/stores/useAnalyticsStore.js:9-43 | zeroed statistics and no insights |
| Analytics.Store.LoadMemoryAnalytics | src/stores/useAnalyticsStore.js:87-162 | signed out or on a failed fetch nothing changes; otherwise the statistics become those of the fetched rows and the insights stay |
| Analytics.Store.GenerateInsights | src/stores/useAnalyticsStore.js:218-296 | the insights become those the rules give for the current statistics |
| Analytics.Store.DismissInsight | src/stores/useAnalyticsStore.js:406-410 | the insights lose exactly those with the id, in order |
| Analytics.Store.GetMemoryTrends | src/stores/useAnalyticsStore.js:299-350 | none when signed out or on error; otherwise 7, 30 or 90 day entries, oldest first and ending today, each counting the rows of that day |
| Analytics.Store.GetSentimentTrends | src/stores/useAnalyticsStore.js:353-403 | none when signed out or on error; otherwise the percentage entries of the weeks with rows |
| Analytics.AnalyticsOf | src/stores/useAnalyticsStore.js:103-155 | the statistics of the rows: the loop's counts, then the daily and weekly averages |
| Analytics.SentimentTotal | src/stores/useAnalyticsStore.js:245 | the sum of the sentiment counters, `NaN` as soon as an unknown key was counted |
| Analytics.InsightsFor | src/stores/useAnalyticsStore.js:218-296 | the insights of each rule stage in order, the backup reminder last |
| Records.CountSince | src/stores/useAnalyticsStore.js:123-125 | the window count is at most the number of rows |
| Records.CountSinceMono | src/stores/useAnalyticsStore.js:104-125 | an earlier cutoff admits at least as many rows, which nests the week, month and year counts |
| Tallies.Bump | src/stores/useAnalyticsStore.js:134 | counting a key adds an entry exactly when the key is new |
| Tallies.Tally | src/stores/useAnalyticsStore.js:133-150 | the reference table: each key with its number of occurrences, in key order |
| Tallies.BumpAllAppend | src/stores/useAnalyticsStore.js:133-150 | counting two lists one after the other equals counting their concatenation |
| Tallies.BumpTally | src/stores/useAnalyticsStore.js:134 | counting one more value into a reference table yields the reference table of the longer list, the value added last if new |
| Tallies.FrequenciesTally | src/stores/useAnalyticsStore.js:133-150 | the built table is the reference table over the values in first-occurrence order |
| Tallies.LookupTally | src/stores/useAnalyticsStore.js:133-150 | reading a key of a reference table gives its number of occurrences |
| Tallies.FrequenciesCount | src/stores/useAnalyticsStore.js:133-150 | each value's tally is its number of occurrences, and a value is a key exactly when it occurs |
| Tallies.FrequenciesSum | src/stores/useAnalyticsStore.js:133-150 | the tallies sum to the number of values counted |
| Tallies.TallyUnique | src/stores/useAnalyticsStore.js:133-150 | the reference table over the distinct values sums to the number of values |
| Tallies.BumpEach | src/stores/useAnalyticsStore.js:133-135 | the counting loop yields the table of counting every value in turn |
| Tallies.Unknown | src/stores/useMemoryStore.js:358 | exactly the sentiment keys outside positive, neutral and negative |
| Tallies.BreakdownCounts | src/stores/useMemoryStore.js:358 | each known counter counts its key, the unknown keys each appear once as a `NaN` entry in first-occurrence order, and every key lands in exactly one of the two |
| Tallies.BreakdownKnown | src/stores/useMemoryStore.js:358 | each known counter is the number of occurrences of its key |
| Tallies.BreakdownTotal | src/stores/useMemoryStore.js:358 | the known counters plus the unknown keys account for every key |
| Tallies.BreakdownNaN | src/stores/useMemoryStore.js:358 | the `NaN` entries are the distinct unknown keys in first-occurrence order |
| Js.Or | src/lib/driveBackup.js:28-30 | a logical or with a fallback gives the value when it is truthy and the fallback otherwise |
| Js.NatToString | src/lib/utils.js:207 | a non-empty string of decimal digits, one digit exactly below 10 |
| Js.NatToStringOne | src/lib/utils.js:207 | the rendered number is `1` exactly when the number is 1 |
| Text.Lower | src/stores/useGraphStore.js:346-350 | same length, each ASCII capital lowered and every other character kept |
| Text.ContainsAt | src/stores/useGraphStore.js:349-350 | `includes` holds exactly when the needle occurs at some position |
| Text.TrimStart | src/lib/utils.js:92 | drops exactly the leading white-space run: what it removes is white space and what is left does not start with white space |
| Text.TrimEnd | src/lib/utils.js:92 | drops exactly the trailing white-space run: what it removes is white space and what is left does not end with white space |
| Text.Trim | src/lib/utils.js:92 | the result neither starts nor ends with white space and is no longer than the input; text that neither starts nor ends with white space is kept whole (`Text.TrimBounds` gives the slice it is) |
| Text.TrimBounds | src/lib/utils.js:92 | the trimmed text is the slice `[i, j)` of the input, everything outside it is white space, and its first and last characters are not (so no longer slice qualifies); text made only of white space trims to nothing |
| Text.Split | src/lib/utils.js:205 | splitting always yields at least one piece |
| Text.SplitJoin | src/lib/driveBackup.js:256-278 | joining lines free of the separator and splitting again gives the lines back |
| Text.JoinSplit | src/lib/utils.js:205 | joining the pieces of a split gives the text back, and no piece contains the separator |
| Text.Find | src/lib/geminiApi.js:138 | the first index of the character, or none exactly when it is absent |

## Left out

- Database, authentication, network and browser calls are not modelled. This covers the Supabase queries themselves, the Drive and Gmail calls (`uploadBackupToDrive`, `getOrCreateBackupFolder`, `listBackupsFromDrive`, `downloadBackupFromDrive`, `deleteBackupFromDrive`, `performAutomaticBackup`, `testDriveConnection`), `connectGoogleDrive`, and the model client (`getGeminiClient`, `testGeminiConnection`). Their replies enter the model as parameters.
- The prompt texts sent to the language model are not modelled; only what is done with each reply is.
- The JSON text step is the identity, except that `Settings.Stored` drops the `undefined` properties of the persisted preferences. `JSON.stringify` of a backup before upload and `JSON.parse` on restore are not modelled, and `JSON.parse` of a model reply is a parameter.
- The OCR engine is not modelled: the Tesseract worker, recognition itself and progress callbacks. The same goes for `extractTextFromUrl`, `extractTextFromCanvas`, `cleanupOcr`, `createImagePreview` and `resizeImageForOcr`, which only drive the engine or the canvas.
- Speech recognition is modelled only by its four event handlers and the start and stop decisions. The recogniser itself is left out.
- React rendering is not modelled: `ToastProvider`, `Toast`, `Toaster`, the context plumbing, and `downloadBackupLocally` and `exportAnalytics` beyond the file names they choose.
- The firing of the toast removal timer is not modelled. `AddToast` returns the delay after which removal is scheduled, and `RemoveToast` is the removal.
- Toaster.ToastList.Toast: the argument is a string or an options object (`Toaster.ToastArg`). Calling `toast()` or `toast(null)` throws a TypeError in the source, at the `duration` read of `addToast`. A number or boolean argument gives a toast with no options. Neither case is modelled.
- `loadAnalytics`, `loadUsageAnalytics` and `loadGraphAnalytics` are not modelled:
  - `loadAnalytics` only calls the other loaders in sequence;
  - `loadUsageAnalytics` stores a fixed sample object;
  - `loadGraphAnalytics` copies `getGraphStats` (modelled as `Graph.Stats`) with two empty lists;
  - `usagePatterns`, `graphStats`, `loading`, `error` and `lastUpdated` of the analytics store are left out with them.
- Plain setters are not modelled separately. These are `setLoading`, `setError`, `clearError`, `setNodes`, `setEdges`, `setSelectedNode`, `setNodeTypeFilter`, `setTimeFilter`, `updateGraphConfig`, `setMemories`, `setCurrentMessage`, `setIsTyping` and `setIsProcessing`. `setTheme`, `setLanguage`, `setDateFormat` and `setTimeFormat` are `Settings.Store.UpdateSetting` with a fixed key.
- The transient `loading: true` and `isProcessing: true` states inside an asynchronous action are not modelled: each method gives the state the action ends in. `Chat.Store.SendMessage` does state that `isProcessing` ends false on every path.
- The remaining helpers of `utils.js` are not part of this model. These are `cn`, `formatDate`, `generateId`, `debounce`, `throttle`, `copyToClipboard`, `formatFileSize`, `isValidUrl`, `sleep`, `storage` and `shuffle`. They are formatting, timing, randomness or browser storage with no logic of the application.
- `getFormattedDate` of the settings store is not modelled, because it is locale date formatting. The recall reply takes the locale date text as a parameter.
- Strings are sequences of characters. UTF-16 lengths of characters outside the basic plane are not modelled.
- `toLowerCase` and the `\b`, `\w` and `\s` classes are modelled for ASCII letters and the listed white-space characters. Other Unicode case mappings and white space are not modelled.
- Calendar days are UTC day numbers. The local-time `setDate` and `getDay` of the trend functions are modelled in UTC, so a time zone offset is not modelled.
- Object identity and key order are modelled as follows:
  - JavaScript objects are maps, or association lists in insertion order where the order is observable;
  - integer-like keys, which JavaScript orders first, are not modelled;
  - `groupBy` keys are the property values themselves, not their string conversion.
- Number values are `real`. Floating-point rounding and the `NaN` produced by arithmetic are not modelled, except that the sentiment `++` on an unknown key is recorded as a `NaN` entry.
- Coerce.ToText: a number that is not whole renders by its floor, so a query of 2.5 is quoted as "2" and -2.5 as "-3", and numbers from 10^21 up are not written in exponent form. JavaScript's shortest round-trip decimal of a binary double has no counterpart on exact reals.
- Coerce.ElementTexts: array elements that are numbers render as `Coerce.ToText` renders them, by their floor.
- Gemini.ProcessWithGemini: the command reply quotes the query through `Coerce.ToText`, so a query that is a non-whole number is quoted by its floor.
- Coerce.StringToNumber: a numeral is read as its exact decimal value. Rounding to the nearest double, overflow to infinity and underflow to zero are not modelled, and the white space trimmed around it is the set `Text.IsSpace` lists.
- Settings.Stored: only the `undefined` properties of the persisted part are dropped. Values nested inside a persisted preference pass through the JSON step unchanged, although `JSON.stringify` would turn an `undefined` array element into `null` and drop an `undefined` nested property; the four persisted preferences are strings in the source.
- Gemini.Sanitize: memory data that is an array passes unchanged. The source sets the cleaned fields as named properties of the array object, which this model's arrays do not carry (JSON serialisation drops them as well).
- Gemini.Extract: as for `Gemini.Sanitize`, an array as memory data comes back unchanged.
- MemoryStore.Store.SaveMemory: memory data whose content is `null` fails with the same message as missing content, while JavaScript's message then says `null`. Content that is neither text nor absent is not modelled.
- Utils.GroupBy: an item whose key value is the name of an inherited object property (`constructor`, `__proto__`, `toString` and the others of `Object.prototype`) makes the source throw a TypeError, because the accumulator already holds a truthy non-array there. The model groups such items like any other value.
- Utils.Pick: `key in obj` also sees inherited properties, so the source copies, for instance, `toString` from any object. The model's objects hold their own properties only, and `pick` copies only those.
- Backup.IntervalAgreesWithDue: a frequency named like an inherited property (`constructor`, `__proto__`, `toString` and the others) finds a function or object in the interval table, so the source schedules with a delay that is not a number, which timers run as 0 ms. The model schedules weekly for it, as for every other unknown frequency.
- Tallies.Bump: a value named like an inherited property makes the source's count a text (the property's text followed by "1"), and `__proto__` adds no key at all. The model counts these values like any other.
- Tallies.BreakdownNaN: a `__proto__` sentiment adds no key in the source, because a number cannot replace an object's prototype. The model records a `NaN` entry for it as for every other unknown key.
- Utils.TruncateText: the default `maxLength` of 100 is not modelled; a call without it is the call with 100.
- MemoryStore.Store.LoadMemories: the default page 1 is not modelled; a call without a page is the call with 1.
- Chat.Store.SendMessage: the default message type `text` is not modelled; a call without a type is the call with `text`.
- GraphStore.Store.LoadGraph: a `memories` row whose `content` is null is not modelled, because `Records.Memory.content` is always text. For such a row the source throws a TypeError at `memory.content.substring(0, 50)` (useGraphStore.js:91). Its catch records the message and ends loading, and nodes and edges keep their old values. The same row would appear as "• null (...)" in the recall listing of `Chat.RecallLines`.
- Analytics.Store.GetMemoryTrends: the default period `30d` is not modelled; a call without a period is the call with `30d`.
- Analytics.Store.GetSentimentTrends: the period, `30d` by default, only bounds the database query, whose reply is a parameter.
