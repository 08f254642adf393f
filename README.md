# Debate feedback app: a verified model of its core logic

The app records debate speeches on a phone or tablet, uploads them, and
polls the backend until transcription and feedback are ready. There is a
Kotlin app for Android and a Swift app for iOS. Under the thin I/O sits a
large body of logic. This project models that logic in Dafny and proves
what the code promises about it.

What is modelled, by area:

- **The Android local store.** This is the Room schema of four tables
  (`schema.dfy`). The database and its DAO are classes whose methods are
  the DAO's transactions (`room.dfy`). The meaning of each SQL statement
  is a pure function on tables (`store.dfy`). The enum converters are in
  `converters.dfy` and the repository's store sequences and create-debate
  request in `repository.dfy`.
- **Statuses.** The upload and processing statuses, parsing of the
  backend's status strings, and the aggregated status shared by both
  platforms are in `statuses.dfy`. The entities and their defaults are in
  `models.dfy` (Android) and `ios_recording.dfy` (the iOS `SpeechRecording`,
  updated in place).
- **Formats and teams.** Per-format defaults and the lenient parsers are in
  `formats.dfy`, and the speaking order built from a team composition in
  `speaker_order.dfy`. The setup flows are `setup.dfy` for the Android view
  model and wizard, and `ios_setup.dfy` for the iOS `SetupViewModel` with its
  six team arrays, plus the small guards of `DebateSetupView`.
- **Timers.** Each platform's `TimerService` is modelled as a state
  machine with its bell schedule (`timer_service_android.dfy`,
  `timer_service_ios.dfy`). Each platform's timer view model covers speaker
  navigation, recording, upload and status polling (`timer_android.dfy`,
  `ios_timer.dfy`). The status labels and colours of the timer and feedback
  cards are in `ios_cards.dfy`.
- **Parsers and formatters.**
  - the feedback-text section parser and section building (`feedback.dfy`);
  - the class-schedule formatter, the multipart body of section 4 of RFC 7578 and the rubric-score codec (`api_client.dfy`);
  - endpoints and network errors (`network.dfy`);
  - filename sanitising and validation (`sanitize.dfy`);
  - truncating clock arithmetic and mm:ss rendering (`clock.dfy`);
  - the Android theme option (`theme.dfy`);
  - shared ASCII string helpers (`text.dfy`).
- **Queues and small state machines.**
  - the iOS upload service and its retry policy (`upload.dfy`);
  - the analytics event queue (`analytics.dfy`);
  - the app coordinator's navigation stack (`coordinator.dfy`);
  - the history screen's filters, statistics and deletion (`history.dfy`).

Code that changes state in place (the DAO, the timers, the view models, the
upload service, the analytics provider, the coordinator) is modelled as
classes whose methods state their whole new state. Each such method is tied
to a pure function, and the lemmas beside that function prove what the
source promises. Code that only computes is modelled as functions and
lemmas. Network answers, the clock, the file system and the audio recorder
are parameters: each call receives what they produced.

Kotlin and Swift integer division truncates toward zero. The model writes
this out as `Clock.Quot` and `Clock.Rem` and does not use Dafny's Euclidean
operators. Times are whole milliseconds or seconds as integers. Integers
are unbounded, except that `Text.ParseInt` keeps Swift's 64-bit range.

Where the text of the code looks unintended, the model follows the code.
The feedback list labels a finished card with the three characters that a
UTF-8 check mark becomes when read as Windows-1252, then " Ready". The model
keeps those characters (`IosCards.FeedbackReadyLabel`).

Several other quirks are stated as lemmas rather than corrected:

- A 120-second speech schedules its 60-second bell twice.
- On iOS, stopping a recording shorter than a second leaves `isRecording`
  set.
- An empty transcript URL hides the download URL.
- A numbered item such as "1." counts as a section header.
- The upload path reports 401 and 404 as server errors.
- Android trims with Kotlin's `isWhitespace`, iOS with Foundation's
  `.whitespacesAndNewlines`. The two sets differ on U+0085 and on
  U+001C-U+001F, so the two motion checks disagree on text holding them
  (`Setup.SeparatorMotionDisagrees`,
  `Setup.NextLineMotionDisagrees`).
- Kotlin's `length` and `take` count UTF-16 units, so a character outside
  the Basic Multilingual Plane counts twice on Android and once on iOS
  (`Setup.AstralMotionDisagrees`).

## Model

| member | source | states |
|---|---|---|
| Text.Lower | DebateFeedback/Utilities/Extensions/String+Sanitize.swift:17 | `lowercased()` keeps the length and lower-cases each character in place |
| Text.Upper | android/app/src/main/java/com/debatefeedback/domain/model/Enums.kt:51 | upper-casing keeps the length and upper-cases each character in place |
| Text.LowerIdempotent | DebateFeedback/Utilities/Extensions/String+Sanitize.swift:17 | lower-casing twice is lower-casing once |
| Text.EqualsIgnoreCaseIffLower | android/app/src/main/java/com/debatefeedback/domain/model/Enums.kt:8 | `equals(raw, true)` holds exactly when the lower-case forms are equal |
| Text.Trim | DebateFeedback/Utilities/Extensions/String+Sanitize.swift:22 | `trimmingCharacters(in: .whitespacesAndNewlines)` is no longer than the input and has no Foundation white character at either end |
| Text.KotlinTrim | android/app/src/main/java/com/debatefeedback/ui/setup/SetupViewModel.kt:154 | Kotlin `trim()` is no longer than the input and has no `isWhitespace` character at either end |
| Text.Utf16Length | android/app/src/main/java/com/debatefeedback/ui/setup/SetupViewModel.kt:48 | Kotlin `length` counts UTF-16 units: between one and two per character, equal to the character count exactly when no character is astral and twice it exactly when all are |
| Text.TakeUtf16 | android/app/src/main/java/com/debatefeedback/ui/setup/SetupViewModel.kt:22 | Kotlin `take(n)` keeps a prefix of at most `n` units, the whole string when it fits, and otherwise stops only where the next character would not fit |
| Text.TakeUtf16OfBmp | android/app/src/main/java/com/debatefeedback/ui/setup/SetupViewModel.kt:22 | without astral characters `take(n)` is the first `n` characters |
| Text.KotlinWhitespaceAgrees | android/app/src/main/java/com/debatefeedback/ui/setup/SetupViewModel.kt:154 | Kotlin's `isWhitespace` and Foundation's `.whitespacesAndNewlines` agree on every character except U+0085 and U+001C-U+001F, and disagree on each of those |
| Text.KotlinTrimAgrees | android/app/src/main/java/com/debatefeedback/ui/setup/SetupViewModel.kt:154 | on text without those characters, Kotlin `trim()` and Foundation's trim give the same string |
| Text.TrimBlanks | DebateFeedback/Features/Feedback/FeedbackDetailView.swift:566 | trimming `.whitespaces` is no longer than the input and has no blank at either end |
| Text.TrimPadding | DebateFeedback/Utilities/Extensions/String+Sanitize.swift:22 | white padding on either side never changes the trimmed string |
| Text.TrimOfTrimmed | DebateFeedback/Features/Feedback/FeedbackDetailView.swift:554 | a string with no white end is its own trim |
| Text.TrimEmptyIffBlank | DebateFeedback/Utilities/Extensions/String+Sanitize.swift:22-24 | a string trims to nothing exactly when it is blank |
| Text.NatToString | DebateFeedback/Core/Networking/APIClient.swift:630 | the decimal rendering is non-empty and all digits |
| Text.Pad2 | android/app/src/main/java/com/debatefeedback/ui/timer/TimerScreen.kt:167 | `%02d` is at least two characters and pads a single digit with '0' |
| Text.Pad2Value | android/app/src/main/java/com/debatefeedback/ui/timer/TimerScreen.kt:167 | for 0..99 `%02d` is exactly two digits that read back as the number |
| Text.ParseInt | DebateFeedback/Core/Networking/APIClient.swift:594-595 | `Int(String)` fails on the empty string and every value it gives fits a 64-bit `Int` |
| Text.ParseIntOfIntToString | DebateFeedback/Core/Networking/APIClient.swift:594-602 | parsing the decimal rendering of any 64-bit integer gives it back |
| Text.ParseIntOverflows | DebateFeedback/Core/Networking/APIClient.swift:594-602 | the digits of one past the largest `Int` parse to nil |
| Text.Join | DebateFeedback/Utilities/Extensions/String+Sanitize.swift:13 | joining no parts is empty and joining one part is that part |
| Text.JoinComponents | DebateFeedback/Utilities/Extensions/String+Sanitize.swift:13 | splitting at separator characters and joining with one character replaces each separator by it |
| Text.Components | DebateFeedback/Features/Feedback/FeedbackDetailView.swift:548 | `components(separatedBy:)` yields at least one piece and no piece holds a separator |
| Text.SplitNonEmpty | DebateFeedback/Core/Networking/APIClient.swift:578 | `split(separator:)` yields only non-empty pieces without the separator |
| Text.ComponentsOfBlank | DebateFeedback/Features/Feedback/FeedbackDetailView.swift:548-568 | every line of a blank text is blank |
| Text.SplitThree | DebateFeedback/Core/Networking/APIClient.swift:578 | three non-empty pieces joined by the separator split back into those pieces |
| Text.ReplaceChar | DebateFeedback/Core/Persistence/FileManager+Audio.swift:34-35 | `replacingOccurrences(of:with:)` for one character: the character is gone unless the replacement holds it, and a one-character replacement acts position by position |
| Statuses.FromApi | android/app/src/main/java/com/debatefeedback/domain/model/Statuses.kt:19-24 | nil is pending; otherwise processing, complete or failed exactly when the lower-cased word is one of that status's words, else pending (Swift `init(apiStatus:)`, DebateFeedback/Core/Models/SpeechRecording.swift:120-136, is the same) |
| Statuses.FromApiIgnoresCase | DebateFeedback/Core/Models/SpeechRecording.swift:121 | a word, its lower-case and its upper-case form parse alike |
| Statuses.FromApiOfRawValue | DebateFeedback/Core/Models/SpeechRecording.swift:114-136 | every status's own raw value, in any case, parses back to it |
| Statuses.PendingIsNoStatusWord | android/app/src/main/java/com/debatefeedback/domain/model/Statuses.kt:20-23 | "pending" is in none of the three word lists, so it reaches pending only through the default branch |
| Statuses.FromApiIsComplete | android/app/src/main/java/com/debatefeedback/domain/model/Statuses.kt:16-21 | a parsed status is complete exactly for "complete", "completed" and "done" in any case |
| Statuses.Aggregate | android/app/src/main/java/com/debatefeedback/domain/model/Models.kt:57-64 | failed exactly when either stage failed; complete exactly when none failed and feedback completed (Swift DebateFeedback/Core/Models/SpeechRecording.swift:59-77 is the same chain) |
| Statuses.AggregatePendingIffBothPending | DebateFeedback/Core/Models/SpeechRecording.swift:59-77 | pending exactly while both stages are pending; processing exactly when some stage moved and neither failed nor feedback completed |
| Statuses.AggregateCompleteNeedsFeedback | android/app/src/main/java/com/debatefeedback/domain/model/Models.kt:58-63 | a complete aggregate means feedback completed and transcription did not fail |
| Models.SpeechRecording.AggregatedStatus | android/app/src/main/java/com/debatefeedback/domain/model/Models.kt:57-64 | the recording's aggregate is the two-stage aggregate, failed exactly when a stage failed |
| Models.NewTeacher | android/app/src/main/java/com/debatefeedback/domain/model/Models.kt:11-19 | a new teacher has no token, is not an admin, and carries the given id, name, device and time |
| Models.NewStudent | android/app/src/main/java/com/debatefeedback/domain/model/Models.kt:23-30 | a new student has no session and carries the given id, name, level and time |
| Models.NewSession | android/app/src/main/java/com/debatefeedback/domain/model/Models.kt:69-84 | a new session is not guest mode and has no reply time, teacher, class, schedule, backend id or team composition |
| Models.NewRecording | android/app/src/main/java/com/debatefeedback/domain/model/Models.kt:34-55 | a new recording has all four statuses pending, progress 0 and every optional artefact null |
| Models.AggregatedStatusIgnoresUpload | android/app/src/main/java/com/debatefeedback/domain/model/Models.kt:57-64 | changing the upload status or the stored overall status never changes the aggregate |
| Converters.FromFormat | android/app/src/main/java/com/debatefeedback/data/local/RoomConverters.kt:22 | null stays null; a format is stored as its constant name |
| Converters.ToFormat | android/app/src/main/java/com/debatefeedback/data/local/RoomConverters.kt:25 | null reads as null; a string reads as the format with that exact name, and fails (`valueOf` throws) when no name matches |
| Converters.FromLevel | android/app/src/main/java/com/debatefeedback/data/local/RoomConverters.kt:28 | null stays null; a level is stored as its constant name |
| Converters.ToLevel | android/app/src/main/java/com/debatefeedback/data/local/RoomConverters.kt:31 | null reads as null; an exact name reads as its level, anything else fails |
| Converters.FromUploadStatus | android/app/src/main/java/com/debatefeedback/data/local/RoomConverters.kt:34 | null stays null; a status is stored as its constant name |
| Converters.ToUploadStatus | android/app/src/main/java/com/debatefeedback/data/local/RoomConverters.kt:37 | null reads as null; an exact name reads as its status, anything else fails |
| Converters.FromProcessingStatus | android/app/src/main/java/com/debatefeedback/data/local/RoomConverters.kt:40 | null stays null; a status is stored as its constant name |
| Converters.ToProcessingStatus | android/app/src/main/java/com/debatefeedback/data/local/RoomConverters.kt:43 | null reads as null; an exact name reads as its status, anything else fails |
| Converters.ConvertersRoundTrip | android/app/src/main/java/com/debatefeedback/data/local/RoomConverters.kt:22-43 | storing then reading any format, level, upload or processing status gives it back |
| Converters.ConvertersReverseRoundTrip | android/app/src/main/java/com/debatefeedback/data/local/RoomConverters.kt:22-43 | reading then storing a readable string gives the same string back |
| Converters.ConvertersInjective | android/app/src/main/java/com/debatefeedback/data/local/RoomConverters.kt:22-40 | distinct constants are stored as distinct strings |
| Converters.DisplayNameIsNotStored | android/app/src/main/java/com/debatefeedback/data/local/RoomConverters.kt:22-25 | MODIFIED_WSDC is stored by name, and its display name "Modified WSDC" does not read back |
| Formats.FormatDefaults | android/app/src/main/java/com/debatefeedback/domain/model/Enums.kt:20-48 | speech times 480, 240, 420, 360 and 480 seconds for WSDC, Modified WSDC, BP, AP and Australs, a reply time exactly for formats with reply speeches, which are exactly the Prop/Opp formats (Swift DebateFeedback/Core/Models/DebateSession.swift:82-116 agrees) |
| Formats.FirstFormat | android/app/src/main/java/com/debatefeedback/domain/model/Enums.kt:51 | `firstOrNull`: a result is a matching candidate with no matching candidate before it; no result means none matches |
| Formats.FormatFromRaw | android/app/src/main/java/com/debatefeedback/domain/model/Enums.kt:51-52 | some matching format is chosen when one exists (the first declared), else WSDC |
| Formats.FormatFromRawRoundTrip | android/app/src/main/java/com/debatefeedback/domain/model/Enums.kt:51 | the display name, the constant name and the upper-cased display name each parse back to the format |
| Formats.OnlyMatchParses | android/app/src/main/java/com/debatefeedback/domain/model/Enums.kt:13-51 | a text matching a format with that format's length and initial matches no other format, so it parses to it |
| Formats.LowerNameIsRawValue | DebateFeedback/Core/Models/Student.swift:30-32 | the Kotlin constant name lower-cased is the Swift raw value of the level |
| Formats.LevelFromRaw | android/app/src/main/java/com/debatefeedback/domain/model/Enums.kt:8-9 | PRIMARY exactly when the text equals "PRIMARY" ignoring case, else SECONDARY |
| Formats.LevelFromRawRoundTrip | android/app/src/main/java/com/debatefeedback/domain/model/Enums.kt:3-10 | name, raw value and display name of each level parse back to it |
| Network.AndroidNetworkError.Message | android/app/src/main/java/com/debatefeedback/data/remote/api/NetworkError.kt:3-10 | a server error's message starts with its status line and is exactly that line without a body, otherwise it ends with ": " and the body; an upload failure says "Upload failed: " and the reason; an unknown error carries the cause's message or "Unknown error" |
| Network.IosNetworkError.ErrorDescription | DebateFeedback/Core/Networking/NetworkError.swift:21-44 | the server, upload-failure and unknown descriptions embed the status code, the reason and the underlying description |
| Network.AndroidRetriable | android/app/src/main/java/com/debatefeedback/data/remote/api/NetworkError.kt:12-17 | an Android error is retriable exactly when it is a timeout or a server error with status 500 or more |
| Network.IosRetriable | DebateFeedback/Core/Networking/NetworkError.swift:46-55 | an iOS error is retriable exactly when it is a lost connection, a timeout or a server error with status 500 or more |
| Network.PlatformsAgreeOnRetry | DebateFeedback/Core/Networking/NetworkError.swift:46-55 | both platforms classify a server status alike, retry timeouts, and never retry a 4xx or an upload failure |
| Network.ServerMessagesAgree | DebateFeedback/Core/Networking/NetworkError.swift:28-29 | without a body the Android message and the iOS description of a server error are the same text |
| Network.Path | DebateFeedback/Core/Networking/Endpoints.swift:18-39 | every endpoint's path starts with "/" |
| Network.Method | DebateFeedback/Core/Networking/Endpoints.swift:41-48 | POST exactly for login, creating a debate and uploading a speech; GET exactly for the rest |
| Network.UrlString | DebateFeedback/Core/Networking/Endpoints.swift:50-52 | the URL text is the base URL followed by the endpoint's path |
| Network.ScheduleClassSuffix | DebateFeedback/Core/Networking/Endpoints.swift:22-27 | naming a class only appends "&class_id=" and the class to the schedule path |
| Network.SpeechPathsDetermineIds | DebateFeedback/Core/Networking/Endpoints.swift:30-35 | equal upload, status or feedback paths mean equal debate or speech ids |
| Network.StatusAndFeedbackShareSpeech | DebateFeedback/Core/Networking/Endpoints.swift:32-35 | the status and feedback paths of one speech share the prefix "/speeches/<id>/" and end in "/status" and "/feedback" |
| AppConstants.ThemeFromRaw | android/app/src/main/java/com/debatefeedback/core/Constants.kt:73-74 | a text equal to an option's name gives that option; any option other than SYSTEM comes only from its exact name |
| AppConstants.ThemeRoundTrip | android/app/src/main/java/com/debatefeedback/core/Constants.kt:67-75 | every option's name parses back to the option |
| AppConstants.ThemeFallback | android/app/src/main/java/com/debatefeedback/core/Constants.kt:73-74 | no stored value, any other text, and names in another case ("light", "Dark") all give SYSTEM |
| Sanitize.ReplaceInvalid | DebateFeedback/Utilities/Extensions/String+Sanitize.swift:12-13 | splitting at the nine invalid characters and joining with "_" replaces each of them by '_' and keeps every other character in place |
| Sanitize.SanitizedIsSanitized | DebateFeedback/Utilities/Extensions/String+Sanitize.swift:11-18 | the output has no invalid filename character, no space, no upper-case letter and no white end, and is no longer than the input |
| Sanitize.TrimmedIsValid | DebateFeedback/Utilities/Extensions/String+Sanitize.swift:13-15 | after the replacement and trimming no invalid character is left |
| Sanitize.SpacesReplaced | DebateFeedback/Utilities/Extensions/String+Sanitize.swift:16 | replacing spaces by '_' removes every space and keeps the string free of invalid characters and white ends |
| Sanitize.LowerKeepsSanitized | DebateFeedback/Utilities/Extensions/String+Sanitize.swift:17 | lower-casing keeps all of those properties and removes the upper-case letters |
| Sanitize.SanitizeFixesSanitized | DebateFeedback/Utilities/Extensions/String+Sanitize.swift:11-18 | an already sanitised string is returned unchanged |
| Sanitize.SanitizeIdempotent | DebateFeedback/Utilities/Extensions/String+Sanitize.swift:11-18 | `sanitizedForFilename` is idempotent |
| Sanitize.ValidityIgnoresPadding | DebateFeedback/Utilities/Extensions/String+Sanitize.swift:21-32 | leading or trailing whitespace never changes `isValidMotion` or `isValidSpeakerName` |
| Sanitize.BlankIsInvalid | DebateFeedback/Utilities/Extensions/String+Sanitize.swift:21-32 | an all-whitespace string is neither a valid motion nor a valid speaker name |
| Sanitize.FilenameTimestamp | DebateFeedback/Core/Persistence/FileManager+Audio.swift:33-35 | the timestamp part contains no ':' and no '.' |
| Sanitize.AudioFilenameParts | DebateFeedback/Core/Persistence/FileManager+Audio.swift:28-40 | the filename is the debate id, sanitised name, sanitised position and the cleaned timestamp joined by '_' with the ".m4a" extension; name and position are sanitised |
| Clock.Quot | android/app/src/main/java/com/debatefeedback/ui/timer/TimerScreen.kt:164-166 | integer `/` truncates toward zero: the quotient's sign and magnitude for every sign of the operands |
| Clock.Rem | android/app/src/main/java/com/debatefeedback/ui/timer/TimerScreen.kt:166 | integer `%` takes the dividend's sign and is smaller in magnitude than the divisor |
| Clock.QuotRem | DebateFeedback/Utilities/Extensions/Date+ISO8601.swift:44-45 | quotient times divisor plus remainder gives the dividend back, for either sign |
| Clock.Truncate | DebateFeedback/Utilities/Extensions/Date+ISO8601.swift:44 | `Int(t)` drops the fraction toward zero: within one below (or above, for negatives) the interval |
| Clock.MinutesSeconds | DebateFeedback/Utilities/Extensions/Date+ISO8601.swift:46 | the `%02d:%02d` rendering is at least five characters |
| Clock.FormatTimeParts | android/app/src/main/java/com/debatefeedback/ui/timer/TimerScreen.kt:163-168 | for non-negative millis the text is two-digit minutes, ':' and seconds in [0, 59] that recombine to the whole seconds; under an hour it is exactly `mm:ss` |
| Clock.FormatTimeZero | android/app/src/main/java/com/debatefeedback/services/TimerService.kt:113-118 | zero elapsed time renders as "00:00" |
| Clock.HmsRecombine | DebateFeedback/Utilities/Extensions/Date+ISO8601.swift:50-55 | `h*3600 + m*60 + s` equals `Int(t)` for every sign; for non-negative input minutes and seconds lie in [0, 59] |
| Clock.DurationLabelShape | DebateFeedback/Features/Feedback/FeedbackListView.swift:162 | the duration label is unpadded minutes, ':' and exactly two digits of seconds |
| Clock.CleanupCutoff | DebateFeedback/Core/Persistence/FileManager+Audio.swift:62 | the cutoff is now minus `maxLocalStorageDays` (7) days in seconds |
| Clock.CutoffBoundary | DebateFeedback/Core/Persistence/FileManager+Audio.swift:70-72 | a file exactly seven days old is kept and one a second older is removed (strict comparison) |
| SpeakerOrder.Labelled | android/app/src/main/java/com/debatefeedback/domain/model/TeamComposition.kt:31-34 | one team's slots keep the team's order, and the k-th slot is that member labelled "<team> k" |
| SpeakerOrder.AppendTeam | DebateFeedback/Core/Models/DebateSession.swift:158-163 | the `enumerated()` loop appends exactly the team's labelled slots after those already built |
| SpeakerOrder.BuildSpeakerOrder | android/app/src/main/java/com/debatefeedback/domain/model/TeamComposition.kt:14-47 | the loops build exactly the order the format prescribes: OG, OO, CG then CO for BP; Prop/Opp (Gov/Opp for AP) alternation up to the longer team otherwise (DebateFeedback/Core/Models/DebateSession.swift:138-198 is the same) |
| SpeakerOrder.Alternate | android/app/src/main/java/com/debatefeedback/domain/model/TeamComposition.kt:19-27 | the two-team loop yields the full alternation of `Interleave` over as many rounds as the longer team has speakers |
| SpeakerOrder.InterleaveShape | android/app/src/main/java/com/debatefeedback/domain/model/TeamComposition.kt:19-27 | in the alternating formats slot 2i is the i-th first-team speaker and slot 2i+1 the i-th Opp speaker while both teams have one; the longer team's surplus follows in order; the length is the sum of the team sizes |
| SpeakerOrder.InterleaveIds | android/app/src/main/java/com/debatefeedback/domain/model/TeamComposition.kt:40-44 | after n rounds the ids placed are exactly the first n of each team, counted with multiplicity |
| SpeakerOrder.SpeakerOrderIds | android/app/src/main/java/com/debatefeedback/domain/model/TeamComposition.kt:14-47 | every listed student speaks exactly as many times as listed and nobody else speaks; in BP the ids are the four benches concatenated |
| SpeakerOrder.SpeakerOrderReadsOwnTeams | android/app/src/main/java/com/debatefeedback/domain/model/TeamComposition.kt:15-36 | BP depends only on og/oo/cg/co, the other formats only on prop/opp |
| Store.NonNull | android/app/build/kspCaches/debug/backups/java/byRounds/1/com/debatefeedback/data/local/DebateFeedbackDao_Impl.java:644-649 | a converted enum column gives its value exactly when the conversion succeeded with a value; a NULL column fails with the "Expected NON-NULL" exception and a bad name keeps the converter's failure |
| Store.EncodeTeacher | android/app/build/kspCaches/debug/backups/java/byRounds/1/com/debatefeedback/data/local/DebateFeedbackDao_Impl.java:249-261 | the teacher's id and creation time are bound as they are, and `isAdmin` is bound as 1 exactly when true and 0 exactly when false |
| Store.DecodeTeacher | android/app/build/kspCaches/debug/backups/java/byRounds/1/com/debatefeedback/data/local/DebateFeedbackDao_Impl.java:1253-1272 | reading a teacher row keeps id and creation time, and `isAdmin` is true exactly when the column is non-zero |
| Store.EncodeStudent | android/app/build/kspCaches/debug/backups/java/byRounds/1/com/debatefeedback/data/local/DebateFeedbackDao_Impl.java:139-156 | a student's level is written as its constant name, and id, creation time and session link as they are |
| Store.DecodeStudent | android/app/build/kspCaches/debug/backups/java/byRounds/1/com/debatefeedback/data/local/DebateFeedbackDao_Impl.java:862-890 | a student that reads keeps the row's id, creation time and session link; a NULL level column throws the NON-NULL exception |
| Store.EncodeSession | android/app/build/kspCaches/debug/backups/java/byRounds/1/com/debatefeedback/data/local/DebateFeedbackDao_Impl.java:78-130 | format and level are written as constant names and `isGuestMode` as 1 or 0 |
| Store.DecodeSession | android/app/build/kspCaches/debug/backups/java/byRounds/1/com/debatefeedback/data/local/DebateFeedbackDao_Impl.java:631-710 | a session that reads keeps id and creation time and `isGuestMode` is true exactly for a non-zero column; a NULL format throws first, and a NULL level throws only once the format has read |
| Store.EncodeRecording | android/app/build/kspCaches/debug/backups/java/byRounds/1/com/debatefeedback/data/local/DebateFeedbackDao_Impl.java:165-240 | the four statuses are written as constant names; id, recording time and session link as they are |
| Store.DecodeRecording | android/app/build/kspCaches/debug/backups/java/byRounds/1/com/debatefeedback/data/local/DebateFeedbackDao_Impl.java:1103-1222 | a recording that reads keeps id, recording time and session link; a NULL upload status throws the NON-NULL exception |
| Store.EntityRoundTrip | android/app/build/kspCaches/debug/backups/java/byRounds/1/com/debatefeedback/data/local/DebateFeedbackDao_Impl.java:78-262 | every teacher, student, session and recording written to its table reads back as itself |
| Store.RowRoundTrip | android/app/build/kspCaches/debug/backups/java/byRounds/1/com/debatefeedback/data/local/DebateFeedbackDao_Impl.java:862-1222 | every student and recording row that reads is exactly the row its entity writes; a session row is, once `isGuestMode` is normalised to 1/0 |
| Store.DecodeRecordingSucceeds | android/app/build/kspCaches/debug/backups/java/byRounds/1/com/debatefeedback/data/local/DebateFeedbackDao_Impl.java:1124-1175 | a recording row reads exactly when all four status columns hold constant names of their enums |
| Store.LastWith | android/app/build/kspCaches/debug/backups/java/byRounds/1/com/debatefeedback/data/local/DebateFeedbackDao_Impl.java:416 | the last listed row with a key is a listed row with that key, and there is none exactly when no listed row has the key |
| Store.UpsertAllLookup | android/app/build/kspCaches/debug/backups/java/byRounds/1/com/debatefeedback/data/local/DebateFeedbackDao_Impl.java:416 | after `INSERT OR REPLACE` of a list, a key holds the last listed row with that key, or else its old row (or stays absent) |
| Store.UpsertAllEmpty | android/app/build/kspCaches/debug/backups/java/byRounds/1/com/debatefeedback/data/local/DebateFeedbackDao_Impl.java:454 | inserting an empty list leaves the table unchanged |
| Store.UpsertLaterWins | android/app/src/main/java/com/debatefeedback/data/local/DebateFeedbackDao.kt:39-40 | of two listed rows with the same key the later one is kept |
| Store.UpsertAllTwice | android/app/src/main/java/com/debatefeedback/data/local/DebateFeedbackDao.kt:27-28 | upserting the same list twice equals upserting it once |
| Store.UpsertAllKeyed | android/app/build/kspCaches/debug/backups/java/byRounds/1/com/debatefeedback/data/local/DebateFeedbackDao_Impl.java:416 | upserts keep every row stored under its own id |
| Store.DeleteStudentsOf | android/app/build/kspCaches/debug/backups/java/byRounds/1/com/debatefeedback/data/local/DebateFeedbackDao_Impl.java:366 | exactly the students whose session link equals the argument are removed (a NULL link never matches); the rest are unchanged |
| Store.DeleteRecordingsOf | android/app/build/kspCaches/debug/backups/java/byRounds/1/com/debatefeedback/data/local/DebateFeedbackDao_Impl.java:374 | exactly the recordings of the session are removed; the rest are unchanged |
| Store.ReplaceStudentsEffect | android/app/src/main/java/com/debatefeedback/data/local/DebateFeedbackDao.kt:66-70 | after `replaceStudents` a listed id holds the last listed student with it, an unlisted student of the session is gone, and any other unlisted student is untouched |
| Store.ReplaceStudentsContainsList | android/app/src/main/java/com/debatefeedback/data/local/DebateFeedbackDao.kt:66-70 | every listed student is present afterwards |
| Store.ReplaceStudentsIdempotent | android/app/src/main/java/com/debatefeedback/data/local/DebateFeedbackDao.kt:66-70 | replacing a session's students twice with the same list equals doing it once |
| Store.ReplaceStudentsWithNone | android/app/src/main/java/com/debatefeedback/data/local/DebateFeedbackDao.kt:66-70 | replacing with an empty list is `deleteStudentsForSession` |
| Store.ReplaceRecordingsEffect | android/app/src/main/java/com/debatefeedback/data/local/DebateFeedbackDao.kt:72-76 | after `replaceRecordings` a listed id holds the last listed recording with it, an unlisted recording of the session is gone, and any other is untouched |
| Store.ReplaceRecordingsIdempotent | android/app/src/main/java/com/debatefeedback/data/local/DebateFeedbackDao.kt:72-76 | replacing twice with the same list equals doing it once, and with an empty list it is `deleteRecordings` |
| Store.SelectOrdered | android/app/src/main/java/com/debatefeedback/data/local/DebateFeedbackDao.kt:18-19 | the selected keys come each exactly once, all of them and no others, with the sort key ascending or descending as the `ORDER BY` says |
| Store.DecodeAll | android/app/build/kspCaches/debug/backups/java/byRounds/1/com/debatefeedback/data/local/DebateFeedbackDao_Impl.java:631-711 | the cursor loop returns one entity per selected row in order exactly when every row reads; otherwise the query fails with the exception of the first row that does not read |
| Schema.EntityTablesShape | android/app/build/kspCaches/debug/backups/java/byRounds/1/com/debatefeedback/data/local/DebateFeedbackDatabase_Impl.java:93-170 | every entity table has a NOT NULL TEXT `id` as its only primary-key column, and no foreign keys or indices |
| Schema.RecordingNullability | android/app/build/kspCaches/debug/backups/java/byRounds/1/com/debatefeedback/data/local/DebateFeedbackDatabase_Impl.java:149-168 | in `speech_recordings` the session link and upload progress are NOT NULL, the student link and the feedback and transcript artefacts are nullable |
| Schema.ReadTable | android/app/build/kspCaches/debug/backups/java/byRounds/1/com/debatefeedback/data/local/DebateFeedbackDatabase_Impl.java:104 | reading a table that exists gives it as it is; reading an absent one gives a table of that name with no columns |
| Schema.ValidateSchema | android/app/build/kspCaches/debug/backups/java/byRounds/1/com/debatefeedback/data/local/DebateFeedbackDatabase_Impl.java:92-178 | the schema is valid exactly when all four tables match, a message is given exactly when it is not, and the message names the first mismatching table in check order |
| Schema.CreateIfNotExists | android/app/build/kspCaches/debug/backups/java/byRounds/1/com/debatefeedback/data/local/DebateFeedbackDatabase_Impl.java:37-40 | `CREATE TABLE IF NOT EXISTS` adds the table when its name is absent, keeps an existing table unchanged, and touches no other table |
| Schema.CreatedSchemaValidates | android/app/build/kspCaches/debug/backups/java/byRounds/1/com/debatefeedback/data/local/DebateFeedbackDatabase_Impl.java:36-43 | over a store whose entity tables are absent or already correct, the schema after `createAllTables` validates |
| Schema.CreateAllTablesAt | android/app/build/kspCaches/debug/backups/java/byRounds/1/com/debatefeedback/data/local/DebateFeedbackDatabase_Impl.java:36-40 | after `createAllTables` each entity table is the one found, or else the created one |
| Schema.StaleTableFailsValidation | android/app/build/kspCaches/debug/backups/java/byRounds/1/com/debatefeedback/data/local/DebateFeedbackDatabase_Impl.java:104-107 | a `teachers` table of the wrong shape survives `createAllTables` and validation reports `teachers` |
| Room.DebateFeedbackDatabase.constructor | android/app/build/kspCaches/debug/backups/java/byRounds/1/com/debatefeedback/data/local/DebateFeedbackDatabase_Impl.java:28-29 | a new database has no tables, no rows and no DAO |
| Room.DebateFeedbackDatabase.CreateAllTables | android/app/build/kspCaches/debug/backups/java/byRounds/1/com/debatefeedback/data/local/DebateFeedbackDatabase_Impl.java:36-43 | the missing entity tables are created and the identity hash is recorded under id 42; no row changes |
| Room.DebateFeedbackDatabase.DropAllTables | android/app/build/kspCaches/debug/backups/java/byRounds/1/com/debatefeedback/data/local/DebateFeedbackDatabase_Impl.java:46-51 | exactly the four entity tables are dropped, with their rows |
| Room.DebateFeedbackDatabase.ClearAllTables | android/app/build/kspCaches/debug/backups/java/byRounds/1/com/debatefeedback/data/local/DebateFeedbackDatabase_Impl.java:195-204 | every row of the four tables is deleted; the schema and the master table stay |
| Room.DebateFeedbackDatabase.DebateDao | android/app/build/kspCaches/debug/backups/java/byRounds/1/com/debatefeedback/data/local/DebateFeedbackDatabase_Impl.java:238-249 | the DAO is created on first use and the same instance is returned on every later call; no table changes |
| Room.DebateFeedbackDao.constructor | android/app/build/kspCaches/debug/backups/java/byRounds/1/com/debatefeedback/data/local/DebateFeedbackDao_Impl.java:68-69 | the DAO is bound to its database |
| Room.DebateFeedbackDao.UpsertSession | android/app/build/kspCaches/debug/backups/java/byRounds/1/com/debatefeedback/data/local/DebateFeedbackDao_Impl.java:389-405 | the session's row replaces or joins the sessions table under its id; no other table changes |
| Room.DebateFeedbackDao.UpsertTeacher | android/app/build/kspCaches/debug/backups/java/byRounds/1/com/debatefeedback/data/local/DebateFeedbackDao_Impl.java:465-480 | the teacher's row replaces or joins the teachers table under its id; no other table changes |
| Room.DebateFeedbackDao.UpsertStudents | android/app/build/kspCaches/debug/backups/java/byRounds/1/com/debatefeedback/data/local/DebateFeedbackDao_Impl.java:408-424 | the students table becomes the list's rows inserted-or-replaced in order; no other table changes |
| Room.DebateFeedbackDao.UpsertRecording | android/app/build/kspCaches/debug/backups/java/byRounds/1/com/debatefeedback/data/local/DebateFeedbackDao_Impl.java:427-443 | the recording's row replaces or joins the recordings table under its id |
| Room.DebateFeedbackDao.UpsertRecordings | android/app/build/kspCaches/debug/backups/java/byRounds/1/com/debatefeedback/data/local/DebateFeedbackDao_Impl.java:446-462 | the recordings table becomes the list's rows inserted-or-replaced in order |
| Room.DebateFeedbackDao.UpdateRecording | android/app/build/kspCaches/debug/backups/java/byRounds/1/com/debatefeedback/data/local/DebateFeedbackDao_Impl.java:280-290 | an existing recording's row is replaced; with no row of that id nothing changes |
| Room.DebateFeedbackDao.DeleteRecording | android/app/build/kspCaches/debug/backups/java/byRounds/1/com/debatefeedback/data/local/DebateFeedbackDao_Impl.java:267-275 | the row with the recording's id is removed, if present |
| Room.DebateFeedbackDao.DeleteStudentsForSession | android/app/build/kspCaches/debug/backups/java/byRounds/1/com/debatefeedback/data/local/DebateFeedbackDao_Impl.java:533-556 | exactly the session's students are removed |
| Room.DebateFeedbackDao.DeleteRecordings | android/app/build/kspCaches/debug/backups/java/byRounds/1/com/debatefeedback/data/local/DebateFeedbackDao_Impl.java:559-582 | exactly the session's recordings are removed |
| Room.DebateFeedbackDao.ClearTeachers | android/app/build/kspCaches/debug/backups/java/byRounds/1/com/debatefeedback/data/local/DebateFeedbackDao_Impl.java:585-605 | the teachers table becomes empty |
| Room.DebateFeedbackDao.ReplaceStudents | android/app/src/main/java/com/debatefeedback/data/local/DebateFeedbackDao.kt:66-70 | one transaction: the students table becomes the session's students deleted and the list upserted |
| Room.DebateFeedbackDao.ReplaceRecordings | android/app/src/main/java/com/debatefeedback/data/local/DebateFeedbackDao.kt:72-76 | one transaction: the recordings table becomes the session's recordings deleted and the list upserted |
| Room.DebateFeedbackDao.GetSession | android/app/build/kspCaches/debug/backups/java/byRounds/1/com/debatefeedback/data/local/DebateFeedbackDao_Impl.java:726-842 | null exactly when no session has the id; a row that does not read throws; otherwise the decoded row |
| Room.DebateFeedbackDao.GetTeacher | android/app/build/kspCaches/debug/backups/java/byRounds/1/com/debatefeedback/data/local/DebateFeedbackDao_Impl.java:1234-1284 | null exactly when no teacher has the id; otherwise the teacher with that id, whose row it writes back up to the 1/0 normalisation |
| Room.DebateFeedbackDao.ObserveSessions | android/app/build/kspCaches/debug/backups/java/byRounds/1/com/debatefeedback/data/local/DebateFeedbackDao_Impl.java:608-723 | every session, each once, newest `createdAt` first, exactly when every row reads |
| Room.DebateFeedbackDao.GetStudentsForSession | android/app/build/kspCaches/debug/backups/java/byRounds/1/com/debatefeedback/data/local/DebateFeedbackDao_Impl.java:843-900 | the session's students, each once, oldest `createdAt` first, exactly when each of them reads |
| Room.DebateFeedbackDao.GetRecordings | android/app/build/kspCaches/debug/backups/java/byRounds/1/com/debatefeedback/data/local/DebateFeedbackDao_Impl.java:1069-1232 | the session's recordings, each once, oldest `recordedAt` first, exactly when each reads (`observeRecordings`, android/app/build/kspCaches/debug/backups/java/byRounds/1/com/debatefeedback/data/local/DebateFeedbackDao_Impl.java:902-1066, runs the same query) |
| Repository.CreateDebateResponse.ResolvedId | android/app/src/main/java/com/debatefeedback/data/remote/api/ApiModels.kt:100-101 | the snake-case id when present, else the camel-case id, else the empty string |
| Repository.NameFor | android/app/src/main/java/com/debatefeedback/repository/DebateRepository.kt:83 | "Unknown" when no student has the id; otherwise the name of the first student with it |
| Repository.MapStudents | android/app/src/main/java/com/debatefeedback/repository/DebateRepository.kt:80-86 | null exactly for null ids; otherwise one entry per id, in order, named after its student and positioned "<prefix> <index+1>" |
| Repository.BuildTeamsData | android/app/src/main/java/com/debatefeedback/repository/DebateRepository.kt:88-103 | only the sides of the format are filled: prop/opp with "Prop"/"Opp" for the WSDC family, og/oo/cg/co for BP, and prop/opp with "Gov"/"Opp" for AP |
| Repository.CreateRequest | android/app/src/main/java/com/debatefeedback/repository/DebateRepository.kt:38-48 | fails with "Missing team composition" exactly when the session has no composition; otherwise sends the format's display name, the lower-case level and the teams data |
| Repository.LinkBackendDebate | android/app/src/main/java/com/debatefeedback/repository/DebateRepository.kt:50 | a returned id that is not blank by Kotlin's `isWhitespace` becomes the session's backend id; a blank one leaves the session as it was |
| Repository.LinkKeepsOldIdWhenAbsent | android/app/src/main/java/com/debatefeedback/repository/DebateRepository.kt:50 | a response with no id, or with a blank one, never erases a stored backend id |
| Repository.DebateRepository.constructor | android/app/src/main/java/com/debatefeedback/repository/DebateRepository.kt:20-24 | the repository works on the given DAO |
| Repository.DebateRepository.SaveSession | android/app/src/main/java/com/debatefeedback/repository/DebateRepository.kt:30-33 | the session row is upserted and the session's students are replaced by the list; recordings and teachers are unchanged |
| Repository.DebateRepository.DeleteSession | android/app/src/main/java/com/debatefeedback/repository/DebateRepository.kt:63-67 | the session's recordings and students are deleted and its session row stays |
| Repository.DebateRepository.CreateBackendDebate | android/app/src/main/java/com/debatefeedback/repository/DebateRepository.kt:37-53 | without a composition it throws "Missing team composition"; when the call throws, that error propagates; in both cases nothing is stored. Otherwise the session linked to the returned id is stored and returned |
| Setup.PreviousStep | android/app/src/main/java/com/debatefeedback/ui/setup/SetupScreen.kt:132-136 | back one step; the first step is its own predecessor |
| Setup.NextStep | android/app/src/main/java/com/debatefeedback/ui/setup/SetupScreen.kt:138-142 | forward one step; the last step is its own successor |
| Setup.StepsInverse | android/app/src/main/java/com/debatefeedback/ui/setup/SetupScreen.kt:132-142 | the two step functions undo each other away from their fixed points |
| Setup.PrimaryButton | android/app/src/main/java/com/debatefeedback/ui/setup/SetupScreen.kt:116-126 | the primary button creates the debate exactly on the teams step and otherwise moves to a different, next step |
| Setup.BackButton | android/app/src/main/java/com/debatefeedback/ui/setup/SetupScreen.kt:108-111 | the back button is absent exactly on the first step and leads to the step whose successor is the current one |
| Setup.OptionsFor | android/app/src/main/java/com/debatefeedback/ui/setup/SetupViewModel.kt:195-199 | the groups offered for a format, in display order |
| Setup.OptionsIffAllowed | android/app/src/main/java/com/debatefeedback/ui/setup/SetupViewModel.kt:188-199 | a group is offered for a format exactly when it is allowed for it |
| Setup.InitialStateDefaults | android/app/src/main/java/com/debatefeedback/ui/setup/SetupViewModel.kt:159-171 | the initial speech and reply times are the WSDC defaults |
| Setup.TakeMotion | android/app/src/main/java/com/debatefeedback/ui/setup/SetupViewModel.kt:22 | the stored motion is a prefix of the input of at most 200 UTF-16 units, the input itself when that short, and otherwise at least 199 units long; on text without astral characters it is the first 200 characters |
| Setup.ClampSpeechTime | android/app/src/main/java/com/debatefeedback/ui/setup/SetupViewModel.kt:78 | the speech time is within 60..900, unchanged inside that range and the nearer bound outside it |
| Setup.ClearDisallowed | android/app/src/main/java/com/debatefeedback/ui/setup/SetupViewModel.kt:28-33 | the entries keep their students and order; a group survives exactly when the format allows it, and is cleared otherwise |
| Setup.RemoveEntries | android/app/src/main/java/com/debatefeedback/ui/setup/SetupViewModel.kt:62 | exactly the entries of other students remain; nothing changes when no entry has the id |
| Setup.AssignEntries | android/app/src/main/java/com/debatefeedback/ui/setup/SetupViewModel.kt:67-69 | entries with the id get the group and every other entry is unchanged |
| Setup.MotionPassesTrimsOnce | android/app/src/main/java/com/debatefeedback/ui/setup/SetupViewModel.kt:135-155 | trimming before `isValidMotion` trims again changes nothing: the motion passes exactly when its Kotlin trim is 5 to 200 UTF-16 units long |
| Setup.MotionCheckMatchesIos | android/app/src/main/java/com/debatefeedback/ui/setup/SetupViewModel.kt:135-155 | on motions without astral characters, U+0085 or U+001C-U+001F the Android check passes exactly when the iOS `isValidMotion` does |
| Setup.SeparatorMotionDisagrees | android/app/src/main/java/com/debatefeedback/ui/setup/SetupViewModel.kt:135-155 | where the sets differ so do the checks: five U+001C are blank on Android yet a valid motion on iOS |
| Setup.NextLineMotionDisagrees | android/app/src/main/java/com/debatefeedback/ui/setup/SetupViewModel.kt:135-155 | U+0085 before four letters makes a valid motion on Android but not on iOS |
| Setup.AstralMotionDisagrees | android/app/src/main/java/com/debatefeedback/ui/setup/SetupViewModel.kt:153-155 | 120 copies of U+1F600 are 240 units, too long a motion on Android, but a valid motion on iOS, which counts 120 |
| Setup.Validate | android/app/src/main/java/com/debatefeedback/ui/setup/SetupViewModel.kt:134-139 | no message exactly when the motion passes (its Kotlin trim is 5 to 200 UTF-16 units long), there are students and all are assigned; otherwise the first failing check's message |
| Setup.AllIds | android/app/src/main/java/com/debatefeedback/ui/setup/SetupViewModel.kt:114 | the ids of the entries, in order |
| Setup.IdsFor | android/app/src/main/java/com/debatefeedback/ui/setup/SetupViewModel.kt:142 | the ids of the entries in the group, in entry order |
| Setup.IdsForMembers | android/app/src/main/java/com/debatefeedback/ui/setup/SetupViewModel.kt:142 | an id is listed for a group exactly when an entry with that id is in the group |
| Setup.NonEmptyOrNone | android/app/src/main/java/com/debatefeedback/ui/setup/SetupViewModel.kt:142 | an empty id list becomes null and any other is kept |
| Setup.BuildTeamComposition | android/app/src/main/java/com/debatefeedback/ui/setup/SetupViewModel.kt:141-151 | each group's id list, or null when the group is empty |
| Setup.TwoTeamPartition | android/app/src/main/java/com/debatefeedback/ui/setup/SetupViewModel.kt:141-151 | entries all in Prop or Opp split into the two id lists with no id lost or duplicated |
| Setup.FourTeamPartition | android/app/src/main/java/com/debatefeedback/ui/setup/SetupViewModel.kt:141-151 | entries all in the four BP groups split into the four id lists with no id lost or duplicated |
| Setup.FourTeamStep | android/app/src/main/java/com/debatefeedback/ui/setup/SetupViewModel.kt:142 | the first entry's id joins exactly one of the four BP lists |
| Setup.EveryStudentSpeaksOnce | android/app/src/main/java/com/debatefeedback/ui/setup/SetupViewModel.kt:104-114 | once every student has a group the format allows, the speaking order built from the composition lists every student exactly once |
| Setup.SessionFor | android/app/src/main/java/com/debatefeedback/ui/setup/SetupViewModel.kt:105-113 | the saved session has the motion after Kotlin `trim()`, the chosen format and reply time, not guest mode, and the built composition |
| Setup.StudentsFor | android/app/src/main/java/com/debatefeedback/ui/setup/SetupViewModel.kt:114 | one saved student per entry, in order, with the entry's id and name, the chosen level and the session id |
| Setup.SetupViewModel.constructor | android/app/src/main/java/com/debatefeedback/ui/setup/SetupViewModel.kt:18 | the state starts at the declared defaults |
| Setup.SetupViewModel.UpdateMotion | android/app/src/main/java/com/debatefeedback/ui/setup/SetupViewModel.kt:21-23 | only the motion changes, to `TakeMotion` of the input: at most 200 UTF-16 units |
| Setup.SetupViewModel.SelectFormat | android/app/src/main/java/com/debatefeedback/ui/setup/SetupViewModel.kt:25-41 | the format, its default speech time and reply time, and the reply switch (on exactly when the format has replies) are set; disallowed groups are cleared |
| Setup.SetupViewModel.SelectLevel | android/app/src/main/java/com/debatefeedback/ui/setup/SetupViewModel.kt:43-45 | only the level changes |
| Setup.SetupViewModel.AddStudent | android/app/src/main/java/com/debatefeedback/ui/setup/SetupViewModel.kt:47-54 | a name shorter than two UTF-16 units changes nothing (one astral character is long enough); otherwise the typed name is cleared and one unassigned entry with the name after Kotlin `trim()` is appended |
| Setup.SetupViewModel.UpdateNewStudentName | android/app/src/main/java/com/debatefeedback/ui/setup/SetupViewModel.kt:56-58 | only the typed name changes |
| Setup.SetupViewModel.RemoveStudent | android/app/src/main/java/com/debatefeedback/ui/setup/SetupViewModel.kt:60-64 | only the entries change, losing those of the student |
| Setup.SetupViewModel.AssignStudent | android/app/src/main/java/com/debatefeedback/ui/setup/SetupViewModel.kt:66-71 | only the entries change, the student's taking the group |
| Setup.SetupViewModel.NavigateTo | android/app/src/main/java/com/debatefeedback/ui/setup/SetupViewModel.kt:73-75 | only the current step changes |
| Setup.SetupViewModel.UpdateSpeechTime | android/app/src/main/java/com/debatefeedback/ui/setup/SetupViewModel.kt:77-80 | only the speech time changes, clamped to 60..900 |
| Setup.SetupViewModel.UpdateReplyEnabled | android/app/src/main/java/com/debatefeedback/ui/setup/SetupViewModel.kt:82-90 | off clears the reply time; on sets the format's default reply time, or 120 when it has none |
| Setup.SetupViewModel.UpdateReplyTime | android/app/src/main/java/com/debatefeedback/ui/setup/SetupViewModel.kt:92-94 | only the reply time changes |
| Setup.SetupViewModel.DismissError | android/app/src/main/java/com/debatefeedback/ui/setup/SetupViewModel.kt:130-132 | only the error message is cleared |
| Setup.SetupViewModel.CreateDebate | android/app/src/main/java/com/debatefeedback/ui/setup/SetupViewModel.kt:96-128 | a validation failure shows its message and stores nothing; otherwise the session and students are saved; an answer links the session and yields its id, and a thrown error shows its message |
| Setup.SetupViewModel.SaveAndCreate | android/app/src/main/java/com/debatefeedback/ui/setup/SetupViewModel.kt:118-126 | the session is upserted and its students replaced; then the session is linked to the returned id, or the thrown error is returned |
| AndroidTimer.FindStudent | android/app/src/main/java/com/debatefeedback/ui/timer/TimerViewModel.kt:76 | none exactly when no student has the id; otherwise the first student with it |
| AndroidTimer.DefaultComposition | android/app/src/main/java/com/debatefeedback/ui/timer/TimerViewModel.kt:72 | without a stored composition the first three students propose, the next three oppose, and no BP bench is set |
| AndroidTimer.BuildSpeakers | android/app/src/main/java/com/debatefeedback/ui/timer/TimerViewModel.kt:71-88 | a non-empty speaking order gives one row per slot with the slot's id and position and the student's name (the position when the student is unknown); an empty order gives every student in list order as "Speaker k" |
| AndroidTimer.DefaultSpeakersAreFirstSix | android/app/src/main/java/com/debatefeedback/ui/timer/TimerViewModel.kt:72-82 | a two-team session without a composition times at most the first six students, each exactly once, every row carrying its student's id |
| AndroidTimer.BpWithoutCompositionListsEveryStudent | android/app/src/main/java/com/debatefeedback/ui/timer/TimerViewModel.kt:83-86 | a BP session with no composition falls back to every student as "Speaker k" |
| AndroidTimer.ApplyStatus | android/app/src/main/java/com/debatefeedback/ui/timer/TimerViewModel.kt:227-238 | both stage statuses are parsed from the response; links and error messages are replaced only by ones the response carries, so a known link is never lost; nothing else changes |
| AndroidTimer.ApplyStatusIdempotent | android/app/src/main/java/com/debatefeedback/ui/timer/TimerViewModel.kt:227-238 | applying the same response twice equals applying it once |
| AndroidTimer.PollBounds | android/app/src/main/java/com/debatefeedback/ui/timer/TimerViewModel.kt:206-225 | the poll makes at most 60 attempts and stops early only on a complete or failed feedback stage; it never changes the recording's id, upload status or speech id |
| AndroidTimer.PollStopsAtTerminal | android/app/src/main/java/com/debatefeedback/ui/timer/TimerViewModel.kt:220-222 | the first response with a terminal feedback stage ends the poll with that response applied |
| AndroidTimer.UploadTarget | android/app/src/main/java/com/debatefeedback/ui/timer/TimerViewModel.kt:174 | the backend debate id when the session is linked, else the local session id |
| AndroidTimer.UploadMetadata | android/app/src/main/java/com/debatefeedback/ui/timer/TimerViewModel.kt:175-181 | the metadata keys in order, with the speaker's name and position, the lower-case level and "audio/m4a" |
| AndroidTimer.UploadingCopy | android/app/src/main/java/com/debatefeedback/ui/timer/TimerViewModel.kt:182 | the copy written before upload is uploading with an aggregate of processing; nothing else changes |
| AndroidTimer.UploadedCopy | android/app/src/main/java/com/debatefeedback/ui/timer/TimerViewModel.kt:190-195 | the accepted copy is uploaded, carries the speech id and aggregates to processing |
| AndroidTimer.FinishedRecording | android/app/src/main/java/com/debatefeedback/ui/timer/TimerViewModel.kt:120-127 | the stored recording carries the current speaker, the student id and the session, pending upload and processing |
| AndroidTimer.CurrentSpeaker | android/app/src/main/java/com/debatefeedback/ui/timer/TimerViewModel.kt:169 | a speaker exactly when the index is within the list, and then the one at the index |
| AndroidTimer.PreviousIndex | android/app/src/main/java/com/debatefeedback/ui/timer/TimerViewModel.kt:145 | one lower, but never below 0 |
| AndroidTimer.NextIndex | android/app/src/main/java/com/debatefeedback/ui/timer/TimerViewModel.kt:152 | one higher, but never past the last index (-1 for an empty list) |
| AndroidTimer.NavigationStaysInRange | android/app/src/main/java/com/debatefeedback/ui/timer/TimerViewModel.kt:143-155 | within a non-empty list both moves keep the index in range and undo each other away from the ends |
| AndroidTimer.NextOnEmptyList | android/app/src/main/java/com/debatefeedback/ui/timer/TimerViewModel.kt:152 | next on an empty speaker list sets the index to -1, so there is no current speaker |
| AndroidTimer.Updated | android/app/src/main/java/com/debatefeedback/ui/timer/TimerViewModel.kt:183 | `updateRecording` replaces an existing row and ignores an absent one |
| AndroidTimer.UpdatedTwice | android/app/src/main/java/com/debatefeedback/ui/timer/TimerViewModel.kt:196-200 | a second update of the same recording overrides the first |
| AndroidTimer.TimerViewModel.constructor | android/app/src/main/java/com/debatefeedback/ui/timer/TimerViewModel.kt:23-34 | the state starts at its defaults, with no timer |
| AndroidTimer.TimerViewModel.LoadSession | android/app/src/main/java/com/debatefeedback/ui/timer/TimerViewModel.kt:45-69 | a missing session ends loading with "Session not found"; otherwise an idle timer for the speech time is created and the session, students and built speakers are shown |
| AndroidTimer.TimerViewModel.ObserveRecordings | android/app/src/main/java/com/debatefeedback/ui/timer/TimerViewModel.kt:38-42 | each emission replaces the shown recordings |
| AndroidTimer.TimerViewModel.OnTick | android/app/src/main/java/com/debatefeedback/ui/timer/TimerViewModel.kt:52-58 | the shown elapsed time follows the timer; after bells the last bell's count and time show; nothing else changes |
| AndroidTimer.TimerViewModel.StartRecording | android/app/src/main/java/com/debatefeedback/ui/timer/TimerViewModel.kt:90-106 | ignored without a session, a current speaker or a timer, or while recording; a started file restarts the timer from zero and marks recording; a failure shows its message |
| AndroidTimer.TimerViewModel.StopRecording | android/app/src/main/java/com/debatefeedback/ui/timer/TimerViewModel.kt:108-133 | ignored unless recording with a session, speaker and timer; the timer stops; without a file recording just ends; with one the recording is stored, uploaded and the next speaker selected |
| AndroidTimer.TimerViewModel.CancelRecording | android/app/src/main/java/com/debatefeedback/ui/timer/TimerViewModel.kt:135-141 | recording ends and the timer is reset, whatever the state |
| AndroidTimer.TimerViewModel.PreviousSpeaker | android/app/src/main/java/com/debatefeedback/ui/timer/TimerViewModel.kt:143-148 | ignored while recording; otherwise the index drops by one but not below 0 and the timer is reset |
| AndroidTimer.TimerViewModel.NextSpeaker | android/app/src/main/java/com/debatefeedback/ui/timer/TimerViewModel.kt:150-155 | ignored while recording; otherwise the index rises by one but not past the last speaker and the timer is reset |
| AndroidTimer.TimerViewModel.AdvanceSpeaker | android/app/src/main/java/com/debatefeedback/ui/timer/TimerViewModel.kt:157-163 | moves on unless at the last speaker; the timer is reset either way |
| AndroidTimer.TimerViewModel.DismissError | android/app/src/main/java/com/debatefeedback/ui/timer/TimerViewModel.kt:165-167 | only the error message is cleared |
| AndroidTimer.TimerViewModel.UploadRecording | android/app/src/main/java/com/debatefeedback/ui/timer/TimerViewModel.kt:171-204 | nothing without a session; otherwise the uploading copy is written and progress tracked; success stores the uploaded copy with its speech id, failure stores the pre-upload recording marked failed and shows the message |
| AndroidTimer.TimerViewModel.ReportProgress | android/app/src/main/java/com/debatefeedback/ui/timer/TimerViewModel.kt:184-188 | the recording's progress is 0 at the start and then the last value reported |
| AndroidTimer.TimerViewModel.PollSpeechStatus | android/app/src/main/java/com/debatefeedback/ui/timer/TimerViewModel.kt:206-225 | a recording without a speech id is not polled; otherwise the poll runs as `PollFrom` specifies, storing each applied response |
| AndroidTimer.TimerViewModel.PollLoop | android/app/src/main/java/com/debatefeedback/ui/timer/TimerViewModel.kt:208-224 | the loop's attempts, final recording and stored rows are those of `PollFrom` |
| AndroidTimer.TimerViewModel.PollAttempt | android/app/src/main/java/com/debatefeedback/ui/timer/TimerViewModel.kt:208-224 | one attempt advances `PollFrom` by exactly one step, keeps the stored rows equal to the outcome so far and leaves the recording's id unchanged |
| AndroidTimer.TimerViewModel.PollStep | android/app/src/main/java/com/debatefeedback/ui/timer/TimerViewModel.kt:211-222 | a failed fetch shows its message and changes no row; a response is applied and stored, and ends the poll exactly on a terminal feedback stage |
| AndroidTimerService.OvertimeBells | android/app/src/main/java/com/debatefeedback/services/TimerService.kt:91-95 | twenty bells, the k-th (from 1) at the speech length plus 15k seconds |
| AndroidTimerService.BellScheduleShape | android/app/src/main/java/com/debatefeedback/services/TimerService.kt:86-96 | the bells are 60 s when the speech lasts at least a minute, one minute before the end when it lasts at least two, then the end, then the twenty overtime bells |
| AndroidTimerService.TwoMinuteSpeechSchedulesSixtyTwice | android/app/src/main/java/com/debatefeedback/services/TimerService.kt:88-89 | a two-minute speech schedules 60 s twice, as two separate bells |
| AndroidTimerService.BellCount | android/app/src/main/java/com/debatefeedback/services/TimerService.kt:102-107 | every bell rings one to three times |
| AndroidTimerService.BellCounts | android/app/src/main/java/com/debatefeedback/services/TimerService.kt:102-107 | the end bell rings twice, except in a one-minute speech where it is the 60 s bell and rings once; the first and one-minute-left bells ring once; every overtime bell rings three times |
| AndroidTimerService.DueBells | android/app/src/main/java/com/debatefeedback/services/TimerService.kt:100-101 | the due bells are exactly the bells not yet rung whose time has been reached, each once, in schedule order |
| AndroidTimerService.Dings | android/app/src/main/java/com/debatefeedback/services/TimerService.kt:102-108 | one ding count per due bell, that bell's count, in order |
| AndroidTimerService.DueBellsStep | android/app/src/main/java/com/debatefeedback/services/TimerService.kt:100-110 | each step of the walk over the bells adds the bell to the fired set and its count to the dings exactly when it is due and not yet rung |
| AndroidTimerService.BellRingsOnce | android/app/src/main/java/com/debatefeedback/services/TimerService.kt:101 | a bell that has rung is not due again at any later elapsed time until the fired set is cleared |
| AndroidTimerService.TimerService.constructor | android/app/src/main/java/com/debatefeedback/services/TimerService.kt:13-32 | a new timer is idle with nothing elapsed, no start time, no offset, no bell rung, and its bells scheduled |
| AndroidTimerService.TimerService.ScheduleBells | android/app/src/main/java/com/debatefeedback/services/TimerService.kt:86-96 | the loop lays out exactly the bell schedule and changes nothing else |
| AndroidTimerService.TimerService.Start | android/app/src/main/java/com/debatefeedback/services/TimerService.kt:38-52 | ignored while running; otherwise running, with no bell rung and a start time of now minus the paused offset |
| AndroidTimerService.TimerService.Tick | android/app/src/main/java/com/debatefeedback/services/TimerService.kt:45-50 | only while running: the elapsed time is now minus the start time, never below 0, and every due bell rings once, its count passed on in schedule order |
| AndroidTimerService.TimerService.CheckBells | android/app/src/main/java/com/debatefeedback/services/TimerService.kt:98-111 | the loop adds exactly the due bells to the fired set and returns their counts in order; nothing else changes |
| AndroidTimerService.TimerService.Pause | android/app/src/main/java/com/debatefeedback/services/TimerService.kt:54-59 | only from running: paused, with the elapsed time as the offset to resume from |
| AndroidTimerService.TimerService.Resume | android/app/src/main/java/com/debatefeedback/services/TimerService.kt:61-64 | only from paused: running again from the kept offset, with the fired set cleared |
| AndroidTimerService.TimerService.Stop | android/app/src/main/java/com/debatefeedback/services/TimerService.kt:66-69 | stopped from any state; the elapsed time, offset and fired bells are kept |
| AndroidTimerService.TimerService.Reset | android/app/src/main/java/com/debatefeedback/services/TimerService.kt:71-78 | idle from any state, with nothing elapsed, no start time, no offset and no bell rung |
| AndroidTimerService.TimerService.FormattedTime | android/app/src/main/java/com/debatefeedback/services/TimerService.kt:113-118 | "mm:ss" of the whole elapsed seconds |
| AndroidTimerService.TimerService.Progress | android/app/src/main/java/com/debatefeedback/services/TimerService.kt:122 | never negative, times the duration gives the elapsed seconds, and reaches 1 exactly when the speech time has run out |
| AndroidTimerService.TimerService.RingBellManually | android/app/src/main/java/com/debatefeedback/services/TimerService.kt:80-82 | a single ding, the count of the first bell |
| AndroidTimerService.OvertimeMeansProgressAboveOne | android/app/src/main/java/com/debatefeedback/services/TimerService.kt:120-122 | in overtime the progress is above 1 |
| IosTimerService.IosBellCount | DebateFeedback/Core/Services/TimerService.swift:136-148 | one ding exactly at 60 s or one minute before the end, two exactly at the end otherwise, three for every other time |
| IosTimerService.ScheduledBellCountsAgree | DebateFeedback/Core/Services/TimerService.swift:136-148 | for every bell in the shared schedule the iOS count equals the Android one |
| IosTimerService.UnscheduledCountsDiffer | DebateFeedback/Core/Services/TimerService.swift:139-145 | off the schedule the two count rules differ: 30 s into a 480 s speech is one ding on Android and three on iOS |
| IosTimerService.IosTimerService.constructor | DebateFeedback/Core/Services/TimerService.swift:34-38 | a new timer is idle with nothing elapsed, no start time, no bell rung and the shared bell schedule |
| IosTimerService.IosTimerService.Start | DebateFeedback/Core/Services/TimerService.swift:42-53 | only from idle: running, anchored at now, with nothing elapsed and no bell rung |
| IosTimerService.IosTimerService.Stop | DebateFeedback/Core/Services/TimerService.swift:55-61 | only from running or paused: stopped; the elapsed time, start time and fired bells are kept |
| IosTimerService.IosTimerService.Pause | DebateFeedback/Core/Services/TimerService.swift:63-68 | only from running: paused, keeping the elapsed time |
| IosTimerService.IosTimerService.Resume | DebateFeedback/Core/Services/TimerService.swift:70-81 | only from paused: running, with a start time (if there was one) moved to now minus the elapsed time, and the fired bells kept |
| IosTimerService.IosTimerService.Reset | DebateFeedback/Core/Services/TimerService.swift:83-89 | idle from any state, with nothing elapsed, no start time and no bell rung |
| IosTimerService.IosTimerService.Update | DebateFeedback/Core/Services/TimerService.swift:93-100 | only while running with a start time: the elapsed time is now minus the start, and every due bell rings once, in schedule order |
| IosTimerService.IosTimerService.CheckAndFireBells | DebateFeedback/Core/Services/TimerService.swift:126-134 | the loop marks exactly the due bells as fired and returns their counts in schedule order |
| IosTimerService.IosTimerService.FormattedTime | DebateFeedback/Core/Services/TimerService.swift:215-217 | "mm:ss" of the whole elapsed seconds |
| IosTimerService.IosTimerService.ProgressPercentage | DebateFeedback/Core/Services/TimerService.swift:223-225 | at most 1, equal to 1 exactly once the speech time has run out, and below that the elapsed share of the duration |
| IosTimerService.IosTimerService.RingBellManually | DebateFeedback/Core/Services/TimerService.swift:205-207 | a single ding |
| IosTimerService.OvertimeWithinFirstSecond | DebateFeedback/Core/Services/TimerService.swift:219-221 | half a second past the end is overtime on iOS but not on Android, which compares whole seconds (android/app/src/main/java/com/debatefeedback/services/TimerService.kt:120) |
| IosTimerService.OvertimeImpliesFullProgress | DebateFeedback/Core/Services/TimerService.swift:219-225 | in overtime the progress is full |
| IosRecording.WithAggregate | DebateFeedback/Core/Models/SpeechRecording.swift:79-81 | the overall status becomes the aggregate of the feedback and transcription stages and no other field changes |
| IosRecording.FailureDetailsIffFailed | DebateFeedback/Core/Models/SpeechRecording.swift:83-91 | there is a failure detail exactly when the aggregate is failed; a failed transcription gives its own message first, otherwise a failed feedback stage gives its message or "Feedback generation failed" |
| IosRecording.IosSpeechRecording.constructor | DebateFeedback/Core/Models/SpeechRecording.swift:34-54 | every status pending, no progress, no speech id, link, transcript or error; the given fields are kept and the recording time is now |
| IosRecording.IosSpeechRecording.AggregatedProcessingStatus | DebateFeedback/Core/Models/SpeechRecording.swift:59-77 | failed exactly when either stage failed; complete exactly when nothing failed and feedback is complete |
| IosRecording.IosSpeechRecording.UpdateAggregatedStatus | DebateFeedback/Core/Models/SpeechRecording.swift:79-81 | only the overall status changes, to the aggregate |
| IosRecording.IosSpeechRecording.Failure | DebateFeedback/Core/Models/SpeechRecording.swift:83-91 | a failure detail exactly when the aggregate status is failed |
| IosRecording.InitialStagesArePending | DebateFeedback/Core/Models/SpeechRecording.swift:47-91 | a new recording's aggregate is already its overall status, pending, and it has no failure detail |
| IosTimer.SetupSpeakers | DebateFeedback/Features/DebateTimer/TimerViewModel.swift:65-75 | no speakers without a composition; otherwise one speaker per entry of the speaking order, with its id and position and the first matching student's name, or "Unknown" |
| IosTimer.SpeakersComeFromTeams | DebateFeedback/Features/DebateTimer/TimerViewModel.swift:65-75 | the speakers' ids are, as a multiset, exactly the ids of the format's speaking order |
| IosTimer.TimeRemaining | DebateFeedback/Features/DebateTimer/TimerViewModel.swift:112-115 | never negative; zero exactly once the speech time has run out; otherwise the time left to the end |
| IosTimer.WarningBands | DebateFeedback/Features/DebateTimer/TimerViewModel.swift:125-140 | before the end the fifteen-second warning covers at most 15 s left, the thirty-second one (15 s, 30 s], the one-minute one (30 s, 60 s]; more than a minute left or overtime gives none; the exact end still warns |
| IosTimer.WarningsTighten | DebateFeedback/Features/DebateTimer/TimerViewModel.swift:125-140 | as time passes within a speech the warning level never loosens |
| IosTimer.ApplyResponse | DebateFeedback/Features/DebateTimer/TimerViewModel.swift:381-427 | the upload status and speech id are kept and the overall status is the aggregate of the two new stage statuses |
| IosTimer.TerminalIffSettled | DebateFeedback/Features/DebateTimer/TimerViewModel.swift:426-437 | `apply` reports the end of polling exactly when the overall status becomes complete or failed |
| IosTimer.ApplyStageStatuses | DebateFeedback/Features/DebateTimer/TimerViewModel.swift:384-404 | a non-empty stage error fails the stage and is its message (unless a general error overrides it); otherwise an explicit stage status is parsed; otherwise an overall "complete" completes the stage; otherwise it is kept |
| IosTimer.GeneralErrorPlacement | DebateFeedback/Features/DebateTimer/TimerViewModel.swift:418-424 | a non-empty general error becomes the feedback message when feedback failed, else the transcription message when transcription failed, else it is dropped |
| IosTimer.EmptyTranscriptUrlHidesDownloadUrl | DebateFeedback/Features/DebateTimer/TimerViewModel.swift:410-412 | an empty transcript URL hides a present download URL, so the stored link is kept |
| IosTimer.ApplyResponseIdempotent | DebateFeedback/Features/DebateTimer/TimerViewModel.swift:381-427 | applying the same response twice equals applying it once |
| IosTimer.TimedOut | DebateFeedback/Features/DebateTimer/TimerViewModel.swift:373-376 | after the last attempt feedback is failed with "Timed out waiting for feedback" and the overall status is failed |
| IosTimer.PollSettles | DebateFeedback/Features/DebateTimer/TimerViewModel.swift:348-379 | the poll makes at most 60 requests, keeps the upload status and speech id, and always ends with the overall status complete or failed |
| IosTimer.SilentBackendTimesOut | DebateFeedback/Features/DebateTimer/TimerViewModel.swift:353-376 | when every request fails the poll makes 60 and then times out |
| IosTimer.UploadingStages | DebateFeedback/Features/DebateTimer/TimerViewModel.swift:304-307 | uploading, with the overall status processing |
| IosTimer.UploadedStages | DebateFeedback/Features/DebateTimer/TimerViewModel.swift:320-323 | uploaded, carrying the backend speech id |
| IosTimer.UploadFailedStages | DebateFeedback/Features/DebateTimer/TimerViewModel.swift:330-333 | upload failed, overall failed, and the failure detail is "Upload failed: " and the reason |
| IosTimer.UploadOutcomes | DebateFeedback/Features/DebateTimer/TimerViewModel.swift:301-338 | a successful upload leaves both stages and the overall status processing, not yet terminal; a failed one leaves feedback pending and the recording terminal |
| IosTimer.IosTimerViewModel.constructor | DebateFeedback/Features/DebateTimer/TimerViewModel.swift:46-61 | a new idle timer for the session's speech time, speakers as `SetupSpeakers` gives them, the stored recordings, the first speaker, and no error, progress or warning |
| IosTimer.IosTimerViewModel.CheckAndFireWarnings | DebateFeedback/Features/DebateTimer/TimerViewModel.swift:143-173 | not recording clears every warning flag; in overtime nothing changes; otherwise the current level's flag is set and a haptic fires exactly when that flag was clear |
| IosTimer.IosTimerViewModel.IsDebateComplete | DebateFeedback/Features/DebateTimer/TimerViewModel.swift:441-443 | only the counts are compared: while complete, the current speaker's index is below the number of recordings |
| IosTimer.IosTimerViewModel.StartTimer | DebateFeedback/Features/DebateTimer/TimerViewModel.swift:175-196 | needs a current speaker when not recording; ignored while recording; a started recorder makes its file current and marks recording, leaving the error fields alone; the timer starts from zero when idle and is left as it is otherwise (a stopped timer after the last save stays stopped); a failure shows its message and leaves the file and the timer alone; the speaker, recordings, progress and warning flags never change |
| IosTimer.IosTimerViewModel.StopTimer | DebateFeedback/Features/DebateTimer/TimerViewModel.swift:198-250 | ignored unless recording; no result from the recorder resets to not recording with "Recording failed or was stopped unexpectedly"; under one second shows "Recording is too short..." and stays recording; otherwise a new pending recording for the current speaker with the whole seconds is appended, the error fields are kept, the debate is complete exactly when this recording made the counts equal, and the next speaker follows when one exists; on the no-result and save paths a running or paused timer is stopped with its time and bells kept; the speaker, progress and warning flags never change |
| IosTimer.IosTimerViewModel.StopUnexpectedly | DebateFeedback/Features/DebateTimer/TimerViewModel.swift:202-211 | not recording, no current file, the error shown; a running or paused timer is stopped with its time and bells kept; the speaker, recordings, progress and warning flags never change |
| IosTimer.IosTimerViewModel.SaveRecording | DebateFeedback/Features/DebateTimer/TimerViewModel.swift:221-249 | a running or paused timer is stopped with its time and bells kept; not recording, the new recording appended, and advancing exactly when a later speaker exists; the debate is complete exactly when this save made the counts equal, and a save on a complete debate leaves one recording too many; errors, progress and warning flags never change |
| IosTimer.IosTimerViewModel.AppendRecording | DebateFeedback/Features/DebateTimer/TimerViewModel.swift:228-237 | a fresh recording with initial stages, the file path, duration, session and the current speaker's name and position joins the end of the list |
| IosTimer.IosTimerViewModel.NextSpeaker | DebateFeedback/Features/DebateTimer/TimerViewModel.swift:275-285 | only when a later speaker exists and nothing records: one speaker on, timer reset to idle with no bell rung, warnings cleared; otherwise nothing changes |
| IosTimer.IosTimerViewModel.PreviousSpeaker | DebateFeedback/Features/DebateTimer/TimerViewModel.swift:287-297 | only when an earlier speaker exists and nothing records: one speaker back, timer reset, warnings cleared; otherwise nothing changes |
| IosTimer.IosTimerViewModel.BeginUpload | DebateFeedback/Features/DebateTimer/TimerViewModel.swift:304-307 | the recording's stages become `UploadingStages` of the old ones |
| IosTimer.IosTimerViewModel.OnUploadProgress | DebateFeedback/Features/DebateTimer/TimerViewModel.swift:313-318 | the recording and the progress table both hold the reported value; nothing else changes |
| IosTimer.IosTimerViewModel.FinishUpload | DebateFeedback/Features/DebateTimer/TimerViewModel.swift:320-338 | a speech id gives `UploadedStages` and starts the poll with that id; an error gives `UploadFailedStages` and shows "Failed to upload <name>'s speech: <error>" |
| IosTimer.IosTimerViewModel.Apply | DebateFeedback/Features/DebateTimer/TimerViewModel.swift:381-438 | the recording's stages become `ApplyResponse` of the old ones and the result says whether they are terminal |
| IosTimer.IosTimerViewModel.ApplyStageFields | DebateFeedback/Features/DebateTimer/TimerViewModel.swift:382-424 | the statuses and messages computed step by step in the source's order equal those of `ApplyResponse` |
| IosTimer.IosTimerViewModel.PollForFeedback | DebateFeedback/Features/DebateTimer/TimerViewModel.swift:348-379 | the loop leaves the recording's stages and the request count that `PollFrom` gives |
| IosSetup.WithoutId | DebateFeedback/Features/DebateSetup/SetupViewModel.swift:447-452 | no entry with the id is left, every other entry stays, and a list without the id is unchanged |
| IosSetup.Teams.With | DebateFeedback/Features/DebateSetup/SetupViewModel.swift:421-440 | team `t` becomes the given list and every other team is unchanged |
| IosSetup.WithoutStudentRemovesOnlyThem | DebateFeedback/Features/DebateSetup/SetupViewModel.swift:446-453 | removal from all teams drops exactly that id from each team, so the student is then on no team |
| IosSetup.AssignedToExactlyOneTeam | DebateFeedback/Features/DebateSetup/SetupViewModel.swift:415-444 | after an assignment the student is at the end of the target team, once, and on no other team; every other student's memberships are unchanged |
| IosSetup.Moved | DebateFeedback/Features/DebateSetup/SetupViewModel.swift:459-460 | the moved list has the same length and holds the moved student at the destination |
| IosSetup.MovedIsPermutation | DebateFeedback/Features/DebateSetup/SetupViewModel.swift:459-460 | a move only rearranges the team |
| IosSetup.MovedBack | DebateFeedback/Features/DebateSetup/SetupViewModel.swift:459-460 | moving back from the destination to the source restores the team |
| IosSetup.Reorder | DebateFeedback/Features/DebateSetup/SetupViewModel.swift:455-481 | other teams are unchanged, and an index out of range changes nothing |
| IosSetup.ReorderKeepsMembers | DebateFeedback/Features/DebateSetup/SetupViewModel.swift:455-481 | a reorder never changes who is on which team |
| IosSetup.Unassigned | DebateFeedback/Features/DebateSetup/SetupViewModel.swift:491-500 | exactly the students on no team |
| IosSetup.TeamNameFor | DebateFeedback/Features/DebateSetup/SetupViewModel.swift:502-517 | no name exactly when the student is on no team; a name given is that of a team holding them; a Proposition member is always shown as "Proposition" |
| IosSetup.UnassignedIffNoTeamName | DebateFeedback/Features/DebateSetup/SetupViewModel.swift:491-517 | a listed student is unassigned exactly when no team name is shown for them |
| IosSetup.TeamValidation | DebateFeedback/Features/DebateSetup/SetupViewModel.swift:597-626 | no message exactly when the format's teams are all non-empty and every student is on some team |
| IosSetup.CompositionOf | DebateFeedback/Features/DebateSetup/SetupViewModel.swift:657-670 | a BP debate stores only the four BP teams; the others store only Proposition and Opposition |
| IosSetup.CreatedOrderListsFormatTeams | DebateFeedback/Features/DebateSetup/SetupViewModel.swift:657-671 | the created debate's speaking order holds exactly the members of the format's own teams, each as often as listed |
| IosSetup.StaleTeamPassesValidation | DebateFeedback/Features/DebateSetup/SetupViewModel.swift:597-670 | a student left on a BP team after switching to WSDC passes validation but is missing from the debate's speaking order |
| IosSetup.AssignReplyTime | DebateFeedback/Features/DebateSetup/SetupViewModel.swift:21-27 | every assignment to the reply time remembers a non-nil value and keeps the other timing fields |
| IosSetup.TimeDefaults | DebateFeedback/Features/DebateSetup/SetupViewModel.swift:841-856 | the reply time shown is always the remembered one |
| IosSetup.TimeDefaultsResult | DebateFeedback/Features/DebateSetup/SetupViewModel.swift:841-856 | the format's speech time; a reply time exactly when the format has replies and they are on, and then the format's default; replies switched off for formats without them |
| IosSetup.ToggleReplies | DebateFeedback/Features/DebateSetup/SetupViewModel.swift:858-873 | replies on always shows a reply time, off shows none; the speech time is kept |
| IosSetup.ReplyToggleRestores | DebateFeedback/Features/DebateSetup/SetupViewModel.swift:858-873 | switching replies off and on again restores the reply time that was showing |
| IosSetup.SteppersStayOnGrid | DebateFeedback/Features/DebateSetup/DebateSetupView.swift:276-335 | whole minutes from one to fifteen stay so under the speech stepper; half minutes from one to five under the reply stepper |
| IosSetup.DedupeProperties | DebateFeedback/Features/DebateSetup/SetupViewModel.swift:746-754 | deduplication keeps each id not excluded exactly once, and each kept entry is the first with its id |
| IosSetup.ClassOptionsComplete | DebateFeedback/Features/DebateSetup/SetupViewModel.swift:705-716 | the response's own class is always offered, with every provided class, and no class twice |
| IosSetup.BuildClassOptions | DebateFeedback/Features/DebateSetup/SetupViewModel.swift:705-716 | the loop builds exactly `ClassOptionsSpec` |
| IosSetup.FilterAlternatives | DebateFeedback/Features/DebateSetup/SetupViewModel.swift:746-757 | the alternatives are those given, without the response's own class and deduplicated; none when absent |
| IosSetup.SuggestedMotion | DebateFeedback/Features/DebateSetup/SetupViewModel.swift:300-312 | the trimmed suggestion when not blank, else the trimmed fallback when not blank, else the current motion |
| IosSetup.BlankSuggestionKeepsMotion | DebateFeedback/Features/DebateSetup/SetupViewModel.swift:300-312 | blank suggestion and fallback never replace the motion on screen |
| IosSetup.StepIndex | DebateFeedback/Features/DebateSetup/DebateSetupView.swift:153-158 | 0 exactly for the basic-info step and 1 exactly for team assignment |
| IosSetup.FindStudents | DebateFeedback/Features/DebateSetup/DebateSetupView.swift:118-123 | no ids gives no students; each student found is a known student whose id was asked for; at most one per id |
| IosSetup.FindStudentsRestores | DebateFeedback/Features/DebateSetup/DebateSetupView.swift:116-131 | with unique ids, rebuilding a team from its stored ids gives back the team |
| IosSetup.DropTarget | DebateFeedback/Features/DebateSetup/DebateSetupView.swift:1137-1146 | a drop lands exactly when the first item parses as an id of a known student, and then that student is the one assigned |
| IosSetup.ReorderRequest | DebateFeedback/Features/DebateSetup/DebateSetupView.swift:1148-1159 | a reorder happens exactly when the first item parses as an id on this team that is not the target student; it moves from that student's first index to the drop index |
| IosSetup.IosSetupViewModel.constructor | DebateFeedback/Features/DebateSetup/SetupViewModel.swift:15-54 | WSDC, secondary, no motion, students or teams, the basic-info step, and the time defaults: 480 s speeches, replies off, no reply time, 240 s remembered |
| IosSetup.IosSetupViewModel.UpdateTimeDefaults | DebateFeedback/Features/DebateSetup/SetupViewModel.swift:841-856 | the timing becomes `TimeDefaults` of the old timing for the selected format |
| IosSetup.IosSetupViewModel.SelectFormat | DebateFeedback/Features/DebateSetup/DebateSetupView.swift:222-227 | the new format, then its time defaults |
| IosSetup.IosSetupViewModel.SetReplySpeechesEnabled | DebateFeedback/Features/DebateSetup/SetupViewModel.swift:858-873 | the timing becomes `ToggleReplies` of the old timing |
| IosSetup.IosSetupViewModel.StepSpeechTime | DebateFeedback/Features/DebateSetup/DebateSetupView.swift:276-295 | the speech time moves by a minute within one to fifteen minutes |
| IosSetup.IosSetupViewModel.StepReplyTime | DebateFeedback/Features/DebateSetup/DebateSetupView.swift:302-335 | only while the format has replies, they are on and a reply time is set: the reply time moves by half a minute within one to five minutes, and is remembered |
| IosSetup.IosSetupViewModel.NextStep | DebateFeedback/Features/DebateSetup/SetupViewModel.swift:327-350 | from basic info: team assignment when the motion is valid, otherwise the invalid-motion error; from team assignment nothing changes |
| IosSetup.IosSetupViewModel.PreviousStep | DebateFeedback/Features/DebateSetup/SetupViewModel.swift:352-359 | always the basic-info step |
| IosSetup.IosSetupViewModel.AddStudent | DebateFeedback/Features/DebateSetup/SetupViewModel.swift:363-382 | a valid name appends one student with the current level and clears the field; otherwise "Please enter a valid name (2-50 characters)" and nothing else changes |
| IosSetup.IosSetupViewModel.RemoveStudent | DebateFeedback/Features/DebateSetup/SetupViewModel.swift:407-411 | the student is gone from the list and from every team |
| IosSetup.IosSetupViewModel.RemoveFromAllTeams | DebateFeedback/Features/DebateSetup/SetupViewModel.swift:446-453 | the teams become `WithoutStudent` of the old ones |
| IosSetup.IosSetupViewModel.AssignToTeam | DebateFeedback/Features/DebateSetup/SetupViewModel.swift:415-444 | the teams become `AssignTo` of the old ones, and the position reported is the new team size |
| IosSetup.IosSetupViewModel.ReorderTeam | DebateFeedback/Features/DebateSetup/SetupViewModel.swift:455-489 | the teams become `Reorder` of the old ones |
| IosSetup.IosSetupViewModel.UnassignedStudents | DebateFeedback/Features/DebateSetup/SetupViewModel.swift:491-500 | exactly the students on no team |
| IosSetup.IosSetupViewModel.GetTeamName | DebateFeedback/Features/DebateSetup/SetupViewModel.swift:502-517 | no name exactly when the student is on no team |
| IosSetup.IosSetupViewModel.ValidateTeamAssignment | DebateFeedback/Features/DebateSetup/SetupViewModel.swift:597-626 | accepted exactly when `TeamValidation` has no message; a refusal shows the message |
| IosSetup.IosSetupViewModel.CreateDebate | DebateFeedback/Features/DebateSetup/SetupViewModel.swift:630-697 | a refused assignment gives no session and shows the message; a backend failure gives none and shows "Failed to create debate on server: " and the error; otherwise the session carries the form's fields, guest mode exactly without a teacher, the backend id and the format's composition |
| IosSetup.IosSetupViewModel.ApplySuggestedMotion | DebateFeedback/Features/DebateSetup/SetupViewModel.swift:300-312 | the motion becomes `SuggestedMotion` of the old one |
| IosSetup.IosSetupViewModel.ApplyScheduleOptions | DebateFeedback/Features/DebateSetup/SetupViewModel.swift:702-757 | no schedule id, the class options of `ClassOptionsSpec` and the alternatives deduplicated without the response's class |
| IosSetup.IosSetupViewModel.RestoreFromSession | DebateFeedback/Features/DebateSetup/DebateSetupView.swift:103-135 | the session's motion, format, level and speech time, its students when present, the teams of `RestoredTeams`, and the team-assignment step |
| IosSetup.RestoredTeams | DebateFeedback/Features/DebateSetup/DebateSetupView.swift:116-131 | without a composition or without students the teams are kept |
| IosCards.TimerCardTextFollowsColor | DebateFeedback/Features/DebateTimer/TimerMainView.swift:356-380 | the timer card's text agrees with its colour, except that a failed processing stage without a failed upload colours the card failed while the text reads "Uploading", "Processing" or "Pending" |
| IosCards.TimerCardTextLabels | DebateFeedback/Features/DebateTimer/TimerMainView.swift:369-380 | the text is one of five labels: "Ready" exactly when processing completed, "Failed" exactly when it did not and the upload failed |
| IosCards.UploadProgressBesideUploadingText | DebateFeedback/Features/DebateTimer/TimerMainView.swift:312-380 | a card showing an upload progress bar reads "Uploading" (or "Ready" once processing completed) and is coloured uploading or failed |
| IosCards.AtMostOnePlaying | DebateFeedback/Features/DebateTimer/TimerMainView.swift:340-342 | two cards highlighted as playing show the same recording, and only while playback is on |
| IosCards.SessionRecordings | DebateFeedback/Features/Feedback/FeedbackListView.swift:15-19 | exactly the recordings of the session shown, never more than all recordings |
| IosCards.CountProcessing | DebateFeedback/Features/Feedback/FeedbackListView.swift:136-142 | a count never exceeds the number of recordings |
| IosCards.ReadyAndProcessingWithinTotal | DebateFeedback/Features/Feedback/FeedbackListView.swift:136-142 | ready and processing counts together never exceed the list, and equal it exactly when every recording is complete or processing |
| IosCards.ReadyCountAllComplete | DebateFeedback/Features/Feedback/FeedbackListView.swift:136-138 | the ready count equals the list exactly when every recording's processing has completed |
| IosCards.FeedbackCardColorIgnoresUpload | DebateFeedback/Features/Feedback/FeedbackListView.swift:244-255 | the feedback card's colour does not depend on the upload status |
| IosCards.FeedbackCardTextFollowsColor | DebateFeedback/Features/Feedback/FeedbackListView.swift:244-270 | each processing colour has its own text; the pending colour reads "Uploading...", "Upload Failed" or "Pending", and "Upload Failed" exactly when processing is pending after a failed upload |
| IosCards.CardsAgreeOnCompletion | DebateFeedback/Features/DebateTimer/TimerMainView.swift:356-380 | both screens show completion alike; a failed upload with processing under way reads "Failed" on the timer card and "Processing..." on the feedback card |
| IosCards.FeedbackDurationReadsBack | DebateFeedback/Features/Feedback/FeedbackListView.swift:162 | a card's duration text reads back as uncapped minutes, ':' and two digits of seconds in [0, 59] that recombine to the duration |
| FeedbackDetail.ColonLineIsHeader | DebateFeedback/Features/Feedback/FeedbackDetailView.swift:595-597 | a non-empty line ending in ':' is taken as a section header |
| FeedbackDetail.ShortUncasedLineIsHeader | DebateFeedback/Features/Feedback/FeedbackDetailView.swift:598 | a line under 40 characters equal to its upper-cased form is a header, numbered items and digit lines included |
| FeedbackDetail.KnownWordLineIsHeader | DebateFeedback/Features/Feedback/FeedbackDetailView.swift:600-601 | a line whose lower-cased form starts with one of the seven known header words is a header, whatever follows |
| FeedbackDetail.SentenceIsNotHeader | DebateFeedback/Features/Feedback/FeedbackDetailView.swift:595-602 | a short mixed-case sentence such as "Good.", with no trailing colon and no known opening word, is body text |
| FeedbackDetail.DropLeadingColons | DebateFeedback/Features/Feedback/FeedbackDetailView.swift:575 | the result is a suffix of the input that does not start with ':' and only colons were removed |
| FeedbackDetail.DropTrailingColons | DebateFeedback/Features/Feedback/FeedbackDetailView.swift:575 | the result is a prefix of the input that does not end with ':' and only colons were removed |
| FeedbackDetail.TrimColons | DebateFeedback/Features/Feedback/FeedbackDetailView.swift:575 | the header title neither starts nor ends with ':' |
| FeedbackDetail.TrimColonsSlice | DebateFeedback/Features/Feedback/FeedbackDetailView.swift:575 | the title is the slice of the line between a run of leading and a run of trailing colons |
| FeedbackDetail.ParseFeedbackSections | DebateFeedback/Features/Feedback/FeedbackDetailView.swift:547-593 | the loop over the lines, with its flushes and the fallback, yields exactly the sections of the parse specification |
| FeedbackDetail.HeaderTitleSource | DebateFeedback/Features/Feedback/FeedbackDetailView.swift:565-577 | every title the loop can take is the colon-trimmed form of one of the text's header lines |
| FeedbackDetail.FlushGrowsByOne | DebateFeedback/Features/Feedback/FeedbackDetailView.swift:553-563 | a flush keeps the finished sections in order and appends at most one |
| FeedbackDetail.FlushAddsWellFormed | DebateFeedback/Features/Feedback/FeedbackDetailView.swift:553-563 | a flush adds only a section with a non-empty trimmed body, no moments and an allowed title |
| FeedbackDetail.AppendWellFormed | DebateFeedback/Features/Feedback/FeedbackDetailView.swift:561 | appending a well-formed section keeps every section well formed |
| FeedbackDetail.WellFormedForMoreTitles | DebateFeedback/Features/Feedback/FeedbackDetailView.swift:565-580 | sections well formed for the titles seen so far stay well formed as more header lines are seen |
| FeedbackDetail.RunInvariant | DebateFeedback/Features/Feedback/FeedbackDetailView.swift:565-580 | the loop keeps every finished section well formed, no more sections than headers seen, and the default title until a header |
| FeedbackDetail.FlushedSectionsWellFormed | DebateFeedback/Features/Feedback/FeedbackDetailView.swift:565-582 | after the final flush all sections are well formed and there is at most one more than there are header lines |
| FeedbackDetail.ParsedSectionsShape | DebateFeedback/Features/Feedback/FeedbackDetailView.swift:547-593 | the parse is never empty, has at most headers + 1 sections, and is either all well formed or the single "AI Feedback" fallback holding the whole trimmed text |
| FeedbackDetail.ParsedSectionsTitles | DebateFeedback/Features/Feedback/FeedbackDetailView.swift:547-593 | every parsed section has no moments and a title from a header line or "AI Feedback" |
| FeedbackDetail.NoHeadersOneSection | DebateFeedback/Features/Feedback/FeedbackDetailView.swift:547-593 | text without any header line becomes exactly one section titled "AI Feedback" |
| FeedbackDetail.BlankContentFallback | DebateFeedback/Features/Feedback/FeedbackDetailView.swift:584-590 | blank text parses to the single fallback section with an empty body |
| FeedbackDetail.BlankLinesGiveBlankBodies | DebateFeedback/Features/Feedback/FeedbackDetailView.swift:553-558 | in a blank text every flushed body trims to nothing, so no section is produced before the fallback |
| FeedbackDetail.BlankRun | DebateFeedback/Features/Feedback/FeedbackDetailView.swift:568-571 | a run of lines made only of blanks finishes no section and leaves only empty lines open |
| FeedbackDetail.BlankTrimsEmpty | DebateFeedback/Features/Feedback/FeedbackDetailView.swift:566 | a line of spaces and tabs trims to the empty string |
| FeedbackDetail.FirstPlayable | DebateFeedback/Features/Feedback/FeedbackDetailView.swift:531 | the index found is the first section whose lower-cased title contains "playable", and none is found exactly when no title does |
| FeedbackDetail.BaseSectionsHaveNoMoments | DebateFeedback/Features/Feedback/FeedbackDetailView.swift:517-527 | the server's sections and the parsed sections both start with no moments |
| FeedbackDetail.NoMomentsKeepsSections | DebateFeedback/Features/Feedback/FeedbackDetailView.swift:529-544 | without moments from the server the base sections are shown unchanged |
| FeedbackDetail.MomentsLandOnce | DebateFeedback/Features/Feedback/FeedbackDetailView.swift:529-538 | non-empty moments land on exactly one section, the first "playable" one keeping title and body or a new first "Playable Moments" section, every other section unchanged |
| FeedbackDetail.DisplaySectionsNeverEmpty | DebateFeedback/Features/Feedback/FeedbackDetailView.swift:396-410 | the view always has a section: the built ones when present, else moment-free parsed sections, the placeholder body when there is no text |
| FeedbackDetail.DisplayModesOffered | DebateFeedback/Features/Feedback/FeedbackDetailView.swift:129-134 | highlights always come first, and the document mode is offered exactly when a feedback URL exists |
| FeedbackDetail.TranscriptTextNilIffBlank | DebateFeedback/Features/Feedback/FeedbackDetailView.swift:412-415 | the transcript is nil exactly when none is stored or it is blank, and otherwise is non-empty and already trimmed |
| FeedbackDetail.TranscriptStatusLabelDistinct | DebateFeedback/Features/Feedback/FeedbackDetailView.swift:425-436 | only a pending transcription has no label, and different statuses never share one |
| History.FilteredSessions | DebateFeedback/Features/History/HistoryListView.swift:25-35 | a session is shown exactly when it is stored and matches the search text (motion or a student's name, case ignored), the format filter and the level filter |
| History.FilteredIsSubsequence | DebateFeedback/Features/History/HistoryListView.swift:14-35 | the shown list keeps the stored newest-first order |
| History.ClearedFiltersShowAll | DebateFeedback/Features/History/HistoryListView.swift:25-35 | with no search text and no filters every stored session is shown, in order |
| History.FormatFilterNarrows | DebateFeedback/Features/History/HistoryListView.swift:30 | choosing a format filter only removes sessions from the list, keeping order |
| History.StudentNamesMembers | DebateFeedback/Features/History/HistoryListView.swift:318-328 | a name is counted exactly when some session has a student with that name |
| History.UniqueStudentsAtMostStudents | DebateFeedback/Features/History/HistoryListView.swift:318-328 | the unique-student count never exceeds the number of student records |
| History.TotalUniqueStudents | DebateFeedback/Features/History/HistoryListView.swift:318-328 | the nested loops return the number of distinct student names over all sessions |
| History.TotalRecordingsAppend | DebateFeedback/Features/History/HistoryListView.swift:330-332 | the recordings total adds up over any split of the session list |
| History.NoRecordingsIffZero | DebateFeedback/Features/History/HistoryListView.swift:330-332 | the recordings total is zero exactly when no session has a recording |
| History.FeedbackCompleteCount | DebateFeedback/Features/History/HistoryListView.swift:392 | the number of recordings with completed feedback is at most the number of recordings |
| History.FeedbackCompleteAll | DebateFeedback/Features/History/HistoryListView.swift:392 | the completed count equals the number of recordings exactly when every recording's feedback is complete |
| History.CompletionRateBounds | DebateFeedback/Features/History/HistoryListView.swift:390-394 | the card's completion rate lies in [0, 1] and is 1 exactly when there are recordings and all have feedback |
| History.CompletionPercent | DebateFeedback/Features/History/HistoryListView.swift:390-433 | the printed percentage lies in 0..100 and is 100 exactly when there are recordings and all have feedback |
| History.WithoutSession | DebateFeedback/Features/History/HistoryListView.swift:373 | the sessions left are exactly the stored ones with a different id |
| History.HistoryScreen.constructor | DebateFeedback/Features/History/HistoryListView.swift:14-23 | the screen starts with no search text, no filters and no pending deletion |
| History.HistoryScreen.ClearFilters | DebateFeedback/Features/History/HistoryListView.swift:336-339 | the format and level filters are cleared and the search text is kept |
| History.HistoryScreen.DeleteSessions | DebateFeedback/Features/History/HistoryListView.swift:341-345 | an empty offset set changes nothing; otherwise the first offset's shown session is pending deletion and confirmation is asked |
| History.HistoryScreen.DeleteSession | DebateFeedback/Features/History/HistoryListView.swift:347-382 | with no pending session nothing changes; otherwise its recordings, its students and the session leave the store and nothing stays pending |
| History.DeletionRemovesOnlyTheSession | DebateFeedback/Features/History/HistoryListView.swift:361-373 | after a deletion none of the session's recordings remain, no session has its id, and every other session is still listed |
| ApiClient.StatusErrorClassified | DebateFeedback/Core/Networking/APIClient.swift:84-103 | exactly the 2xx responses are decoded; a failure keeps its status except 401 and 404, and is retried exactly when the status is 500 or above |
| ApiClient.UploadStatusErrorClassified | DebateFeedback/Core/Networking/APIClient.swift:222-234 | the upload path decodes and retries on the same statuses as other requests, but reports 401 and 404 as server errors |
| ApiClient.CreateMultipartBody | DebateFeedback/Core/Networking/APIClient.swift:260-286 | the body built by the loop is every metadata part in order, then the file part when the file was read, then the closing delimiter |
| ApiClient.AppendField | DebateFeedback/Core/Networking/APIClient.swift:269-273 | one loop step appends the boundary line, the field's disposition header and its value line |
| ApiClient.AppendFile | DebateFeedback/Core/Networking/APIClient.swift:276-282 | the file step appends the boundary line, the audio_file header with the file name, the m4a content type and the data |
| ApiClient.FieldPartsExtend | DebateFeedback/Core/Networking/APIClient.swift:268-273 | the parts written for the first n fields are a prefix of the parts written for all of them |
| ApiClient.MultipartLayout | DebateFeedback/Core/Networking/APIClient.swift:260-286 | each field's part sits in the body at the offset given by the parts before it, and the body ends with the closing delimiter |
| ApiClient.MultipartOpensWithBoundary | DebateFeedback/Core/Networking/APIClient.swift:260-286 | with no fields and no file the body is just the closing delimiter; otherwise it opens with a boundary line |
| ApiClient.FormattedTimeReadsBack | DebateFeedback/Core/Networking/APIClient.swift:620-631 | the 12-hour text gives back the hour (with its AM/PM) and a two-digit minute for every time of day |
| ApiClient.IndexOf | DebateFeedback/Core/Networking/APIClient.swift:592 | the index found is the first occurrence of the separator, and none means it does not occur |
| ApiClient.DropLeadingChar | DebateFeedback/Core/Networking/APIClient.swift:592 | leading separators are dropped and the rest is a suffix of the input |
| ApiClient.SplitOnce | DebateFeedback/Core/Networking/APIClient.swift:592 | a split with at most one cut gives at most two pieces, none of them empty |
| ApiClient.FirstDay | DebateFeedback/Core/Networking/APIClient.swift:577-586 | the day is taken from the first component whose upper-cased form is a day code, and none exists exactly when no component is one |
| ApiClient.DayTimeStringCases | DebateFeedback/Core/Networking/APIClient.swift:539-563 | without a start date the result is "day time", the day, the time, or nil when neither is known, explicit values winning over the class id |
| ApiClient.ClassDisplayStringEndsWithId | DebateFeedback/Core/Networking/APIClient.swift:514-520 | the display string ends with the class id and has a day/time prefix exactly when a different day/time is known |
| ApiClient.ClassInfoTitles | DebateFeedback/Core/Networking/APIClient.swift:467-487 | the title falls back to the class id, a non-empty display label wins, and the subtitle is the id exactly when a day/time is known |
| ApiClient.PrimaryFallbackTitle | DebateFeedback/Core/Networking/APIClient.swift:489-504 | the fallback class built from the schedule is titled as the schedule's main class is |
| ApiClient.ClassIdRoundTrip | DebateFeedback/Core/Networking/APIClient.swift:539-618 | a class id "LEVEL-DAY-HHMM" yields the day's full name and the formatted time, joined by a space |
| ApiClient.ClassIdComponents | DebateFeedback/Core/Networking/APIClient.swift:578 | a class id built from three dash-free pieces splits back into them |
| ApiClient.FirstDayOfClassId | DebateFeedback/Core/Networking/APIClient.swift:577-586 | when the level is not a day code the day comes from the second component |
| ApiClient.FourDigitsRead | DebateFeedback/Core/Networking/APIClient.swift:600-604 | a four-digit "HHMM" text reads as its hour and minute |
| ApiClient.SplitOnceAtColon | DebateFeedback/Core/Networking/APIClient.swift:591-593 | "h:m" splits at its first colon into both sides |
| ApiClient.ExplicitTimeRoundTrip | DebateFeedback/Core/Networking/APIClient.swift:588-598 | an "H:M" start time written from two numbers formats as those numbers |
| ApiClient.FourDigitTimeRoundTrip | DebateFeedback/Core/Networking/APIClient.swift:600-604 | a four-digit "HHMM" start time formats as its hour and minute |
| ApiClient.DecodedTextIsTrimmed | DebateFeedback/Core/Networking/APIClient.swift:759-783 | any text score that decodes is already trimmed |
| ApiClient.DecodedStringText | DebateFeedback/Core/Networking/APIClient.swift:764-778 | text decoded from a string is that string trimmed |
| ApiClient.PaddedNotApplicable | DebateFeedback/Core/Networking/APIClient.swift:765-770 | "NA" or "N/A" in any letter case and with any white padding decodes as not applicable |
| ApiClient.NotApplicableRoundTrip | DebateFeedback/Core/Networking/APIClient.swift:759-795 | not applicable encodes as "NA" and decodes back to not applicable |
| ApiClient.TextRoundTrip | DebateFeedback/Core/Networking/APIClient.swift:759-795 | trimmed text that is neither "NA", "N/A" nor a number decodes back to the same text |
| ApiClient.RubricScoreRoundTrip | DebateFeedback/Core/Networking/APIClient.swift:759-795 | encoding then decoding returns every number and not-applicable, and every text that is trimmed, not "NA"/"N/A" and not numeric |
| ApiClient.ResolvedFeedbackTextPrefersTopLevel | DebateFeedback/Core/Networking/APIClient.swift:732-734 | the top-level feedback text wins over the nested one, and the text is non-empty only when one of them is sent |
| Upload.RetryDelays | DebateFeedback/Core/Services/UploadService.swift:171 | the back-off before retry n is 2^(n-1) seconds: 1, 2, 4, each double the one before |
| Upload.RetryRunShape | DebateFeedback/Core/Services/UploadService.swift:147-203 | from attempt n the retries make at most four calls in all, sleep 2^(k-1) before call k, and end on an acceptance, a non-retriable error or the max-attempts error |
| Upload.UploadRunShape | DebateFeedback/Core/Services/UploadService.swift:106-203 | an upload makes one to four calls with delays 1, 2, 4 before the later ones; all but the last call failed retriably and the last answer decides, except that a fourth retriable failure gives the max-attempts error |
| Upload.NonRetriableFailsAtOnce | DebateFeedback/Core/Services/UploadService.swift:127-143 | a first failure that is not retriable is rethrown after one call, without sleeping |
| Upload.RetriesExhausted | DebateFeedback/Core/Services/UploadService.swift:155-163 | four retriable failures in a row end in "Max retry attempts reached" after four calls and sleeps of 1, 2 and 4 seconds |
| Upload.UploadSucceedsIff | DebateFeedback/Core/Services/UploadService.swift:106-203 | the upload succeeds exactly when some call among the first four is accepted and every call before it failed retriably |
| Upload.RoundedSeconds | DebateFeedback/Core/Services/UploadService.swift:293 | a positive duration rounds to the nearest whole second, halves up, and never below 1 |
| Upload.EnsureDuration | DebateFeedback/Core/Services/UploadService.swift:276-311 | a stored positive duration is kept; otherwise a positive asset or player duration gives a positive result, and 0 is returned only when none is positive |
| Upload.AssetDurationFirst | DebateFeedback/Core/Services/UploadService.swift:282-297 | a positive asset duration is used before the audio player is asked |
| Upload.RequestIds | DebateFeedback/Core/Services/UploadService.swift:207-219 | the id list has one entry per request |
| Upload.RemoveRequest | DebateFeedback/Core/Services/UploadService.swift:207-219 | deleting shrinks the table by one exactly when the id is present |
| Upload.RemoveRequestKeepsOthers | DebateFeedback/Core/Services/UploadService.swift:207-219 | deleting keeps every request with another id and adds none |
| Upload.RemoveRequestIds | DebateFeedback/Core/Services/UploadService.swift:207-219 | deleting removes exactly one occurrence of the id, if there is one, and no other id |
| Upload.KeepExisting | DebateFeedback/Core/Services/UploadService.swift:221-244 | resuming never adds requests |
| Upload.KeepExistingMembers | DebateFeedback/Core/Services/UploadService.swift:232-238 | a request survives resuming exactly when it was stored and its file still exists |
| Upload.UploadService.constructor | DebateFeedback/Core/Services/UploadService.swift:16-27 | the service starts with no tracked uploads and the persisted table |
| Upload.UploadService.UploadSpeech | DebateFeedback/Core/Services/UploadService.swift:31-104 | the target is the backend debate id or else the local session id; the request is persisted, the upload runs as the retry policy says, the id is untracked at the end, and the request is deleted only on success |
| Upload.UploadService.PerformUpload | DebateFeedback/Core/Services/UploadService.swift:106-145 | the first call and its retries follow the retry policy; the id is untracked afterwards and the request is deleted only on success |
| Upload.UploadService.RetryUpload | DebateFeedback/Core/Services/UploadService.swift:147-203 | the recursion with its attempt counter follows the retry policy from that attempt |
| Upload.UploadService.DeleteRequest | DebateFeedback/Core/Services/UploadService.swift:207-219 | the table loses the first request with the id |
| Upload.UploadService.CancelUpload | DebateFeedback/Core/Services/UploadService.swift:248-257 | the id is no longer tracked and its persisted request is deleted |
| Upload.UploadService.ResumePendingUploads | DebateFeedback/Core/Services/UploadService.swift:221-244 | the table keeps exactly the requests whose files still exist, in order |
| Analytics.StringParameter | DebateFeedback/Core/Services/Analytics/BackendAnalyticsProvider.swift:67-70 | a string id is read exactly when the parameters hold that key with a string value, and it is that value |
| Analytics.IntParameter | DebateFeedback/Core/Services/Analytics/BackendAnalyticsProvider.swift:68 | an integer id is read exactly when the parameters hold that key with an integer value, and it is that value |
| Analytics.StringSpeechIdDropped | DebateFeedback/Core/Services/Analytics/BackendAnalyticsProvider.swift:60-77 | a speech id passed as a string is dropped, while a debate id passed as a string is kept |
| Analytics.AfterLog | DebateFeedback/Core/Services/Analytics/BackendAnalyticsProvider.swift:79-84 | after logging, the flushed batch (if any) followed by the queue is the old queue plus the event; a batch goes out exactly when the queue reaches ten, and fewer than ten stay queued |
| Analytics.LogAllKeepsOrder | DebateFeedback/Core/Services/Analytics/BackendAnalyticsProvider.swift:60-122 | over any run of events the batches sent and the queue left are the old queue followed by the events, nothing lost, duplicated or reordered |
| Analytics.LogAllBatchSizes | DebateFeedback/Core/Services/Analytics/BackendAnalyticsProvider.swift:79-84 | starting below ten, every batch sent by logging holds exactly ten events and the queue stays below ten |
| Analytics.AfterSend | DebateFeedback/Core/Services/Analytics/BackendAnalyticsProvider.swift:145-192 | after a send the old queue is still at the back, and it grows only when the send failed and the queue held fewer than 100 events |
| Analytics.RequeuedInOrder | DebateFeedback/Core/Services/Analytics/BackendAnalyticsProvider.swift:174-190 | a failed batch is put back in front, in order, while the queue is below 100; a 2xx answer or a full queue leaves the queue unchanged |
| Analytics.BackendAnalyticsProvider.constructor | DebateFeedback/Core/Services/Analytics/BackendAnalyticsProvider.swift:9-24 | the provider starts with an empty queue, no user and the guest type |
| Analytics.BackendAnalyticsProvider.LogEvent | DebateFeedback/Core/Services/Analytics/BackendAnalyticsProvider.swift:60-85 | the new queue and any flushed batch are as the logging step says, stamped with the current user and type |
| Analytics.BackendAnalyticsProvider.SetUserProperty | DebateFeedback/Core/Services/Analytics/BackendAnalyticsProvider.swift:87-92 | only the "user_type" property changes the stored user type |
| Analytics.BackendAnalyticsProvider.SetUserId | DebateFeedback/Core/Services/Analytics/BackendAnalyticsProvider.swift:94-96 | the user id stamped on later events is the one given |
| Analytics.BackendAnalyticsProvider.LogScreenView | DebateFeedback/Core/Services/Analytics/BackendAnalyticsProvider.swift:98-103 | a "screen_view" event carrying the screen name and class is logged |
| Analytics.BackendAnalyticsProvider.ResetAnalyticsData | DebateFeedback/Core/Services/Analytics/BackendAnalyticsProvider.swift:105-109 | the user is forgotten, the type is back to guest, and the whole queue is flushed |
| Analytics.BackendAnalyticsProvider.Flush | DebateFeedback/Core/Services/Analytics/BackendAnalyticsProvider.swift:113-122 | an empty queue sends nothing; otherwise the whole queue is sent as one batch and the queue is emptied |
| Analytics.BackendAnalyticsProvider.SendEvents | DebateFeedback/Core/Services/Analytics/BackendAnalyticsProvider.swift:145-192 | the queue after the send is as the send step says for the answer received |
| Coordinator.HistoryForTeachersOnly | DebateFeedback/App/AppCoordinator.swift:114-120 | with a consistent sign-in state, history (and auto-population) is open exactly to a signed-in teacher and never to a guest |
| Coordinator.BackUndoesNavigate | DebateFeedback/App/AppCoordinator.swift:35-49 | going back after going to a screen restores the previous path and the screen shown before |
| Coordinator.AppCoordinator.constructor | DebateFeedback/App/AppCoordinator.swift:99-110 | the app starts on the authentication screen, signed out, whatever was stored: no earlier session is restored |
| Coordinator.AppCoordinator.NavigateTo | DebateFeedback/App/AppCoordinator.swift:35-38 | the screen is pushed and shown |
| Coordinator.AppCoordinator.NavigateBack | DebateFeedback/App/AppCoordinator.swift:40-49 | on an empty path nothing changes; otherwise the last screen is popped and the new last one, or authentication, is shown |
| Coordinator.AppCoordinator.ResetToRoot | DebateFeedback/App/AppCoordinator.swift:51-55 | the path is emptied, authentication is shown and the debate session is forgotten |
| Coordinator.AppCoordinator.LoginAsTeacher | DebateFeedback/App/AppCoordinator.swift:59-64 | the teacher is signed in, not as guest, the stored guest flag is false, history is open, and debate setup is pushed |
| Coordinator.AppCoordinator.LoginAsGuest | DebateFeedback/App/AppCoordinator.swift:66-71 | guest mode without a teacher, the stored guest flag is true, history is closed, and debate setup is pushed |
| Coordinator.AppCoordinator.Logout | DebateFeedback/App/AppCoordinator.swift:73-79 | nobody is signed in, the stored flag and token are removed, and the app is back at the root |
| Coordinator.AppCoordinator.StartDebate | DebateFeedback/App/AppCoordinator.swift:83-86 | the session becomes current and its timer screen is pushed |
| Coordinator.AppCoordinator.FinishDebate | DebateFeedback/App/AppCoordinator.swift:88-91 | without a current session nothing changes; otherwise its feedback screen is pushed |
| Coordinator.AppCoordinator.ViewHistory | DebateFeedback/App/AppCoordinator.swift:93-95 | the history screen is pushed, whoever is signed in |

## Left out

- **I/O, clock, network, file system and audio.** URLSession, Retrofit and OkHttp transport, Room's SQLite engine, `UserDefaults` and DataStore, `FileManager`, `AVAudioRecorder` and `AVAudioPlayer`, bell sounds, haptics, `CADisplayLink` and coroutine tickers, and `Date()` are not modelled. Their results are parameters of the operations that use them. A ticker loop is one call of the tick operation per iteration.
- **Concurrency.** Kotlin flows and `viewModelScope` launches, Swift `Task` and `@MainActor` hops, and Room's invalidation tracker are not modelled. An observe query is the ordered snapshot its SELECT returns when it is re-run. The upload that Android's `stopRecording` launches is a separate later call.
- **Sleep cancellation.** A cancelled `Task.sleep` is not modelled. An iOS upload that has been cancelled is modelled as if its retries ran to the end.
- **Async delete in cancelUpload.** `Upload.UploadService.CancelUpload` deletes the persisted request at once. The source does it in a detached task.
- **Floating point.** `uploadProgress`, meter levels and playback clamping are left out. `RubricScore.description` with "%.2f" is also left out. Progress values are opaque reals, and `completionRate` is an exact ratio of reals.
- **Time values.** iOS `TimeInterval` values are whole milliseconds, and speech durations are whole seconds.
- **Case folding and length.** Case mapping covers ASCII letters only. `localizedCaseInsensitiveContains`, `lowercased()` and `uppercased()` are therefore modelled on ASCII. Swift's `count` is modelled as the number of characters, not grapheme clusters.
- **Swift's modifiedWsdc gap.** Several Swift switches never list `.modifiedWsdc`. The iOS members that go through those switches require another format: `IosSetup.TeamsFilled`, `IosSetup.TeamValidation`, `IosSetup.CompositionOf`, `IosSetup.CreatedOrderListsFormatTeams`, `IosSetup.IosSetupViewModel.ValidateTeamAssignment` and `IosSetup.IosSetupViewModel.CreateDebate`.
- **iOS create-debate request.** The iOS `createDebateOnBackend` request and its `useMockData` branch are left out. They build the same team mapping as the Android repository, which `Repository` models.
- **Mock responses.** The mock responses of `APIClient` are left out, because they use random UUIDs.
- **Date formatting.** ISO 8601 parsing and the "EEEE h:mm a" rendering of a class's start date are not modelled. Their result is the `fromStartDate` parameter of `ApiClient.DayTimeString`.
- **Swift's Double parser.** `Double(String)` is not modelled. It is the `parseDouble` parameter of `ApiClient.DecodeRubricScore`.
- **Multipart values as text.** The multipart body is modelled as characters, not UTF-8 bytes. Each metadata value is given as its interpolated text.
- **Multipart delimiter.** That the boundary does not occur inside the values is not proved. The source draws it from a UUID.
- **JSON and SHA-256.** The kotlinx and Swift JSON codecs for `TeamComposition` and `AnyCodable`, and the SHA-256 hashing in `AnalyticsService`, are not modelled.
- **Analytics fan-out.** `AnalyticsService`, the other analytics providers and the analytics calls made from view models and services are left out.
- **Analytics provider details.** The provider's device fields (app version, OS version, model), its auth header and its 30-second flush timer are also left out.
- **UserDefaults in the coordinator.** The coordinator's `UserDefaults` entries are modelled as two fields: the stored guest flag and whether a token is stored.
- **SwiftData queries.** `fetch(...).first` is modelled as the first matching row in table order.
- **Thin view models.** The Android view models that only forward repository calls are left out: FeedbackList, FeedbackDetail, History and Auth.
- **Views.** View bodies, styling and animation are left out.
- **Kotlin error messages.** A Kotlin `localizedMessage` is modelled as a string, although the platform may give null.
- **Schema errors.** The schema validation's failure message names the mismatching table. It omits the Expected/Found dump of Room's message.
- **Validation constants.** The Android validation bounds (5/200, 2/50, 60/900) appear as constants. No lemma states that each minimum is below its maximum, because that follows from the literals alone.
- **Save failures.** A failure of `modelContext.save()` only prints in the source. It is left out.
- **Duration write-back.** `Upload.EnsureDuration` returns the resolved duration. It does not model the source also writing that duration back to the recording.
- FeedbackDetail.HeaderTitleSource: proves only that every title comes from a header line of the text, not the converse. The two-way statement was too costly for the solver.
- FeedbackDetail.ParsedSectionsShape: bounds the number of sections by the number of header lines plus one rather than giving the exact count, since the count depends on which section bodies are blank.
- Setup.MotionCheckMatchesIos: holds only for motions without astral characters, U+0085 or U+001C-U+001F. Kotlin's `isWhitespace` and Foundation's `.whitespacesAndNewlines` classify the latter differently, and `Setup.SeparatorMotionDisagrees` and `Setup.NextLineMotionDisagrees` show both directions. Kotlin counts an astral character as two UTF-16 units where Swift's `count` sees one, as `Setup.AstralMotionDisagrees` shows.
- Setup.TakeMotion: Kotlin's `take(200)` cuts at the 200th UTF-16 unit and can keep the first half of a surrogate pair. A `string` cannot hold half a character, so the model stops before that character, one unit short.
- IosTimer.IosTimerViewModel.AppendRecording: requires a current speaker. Swift's `currentSpeaker` reads `speakers[currentSpeakerIndex]` and traps on an empty list, which `IosTimer.SetupSpeakers` can give. The trap itself is not modelled.
- IosTimer.IosTimerViewModel.StartTimer: requires a current speaker when not recording, for the same trap. `SaveRecording` and `StopTimer` rely on it holding while recording.
- Clock.Truncate: the model's integer is unbounded. Swift's `Int(Double)` traps when the value does not fit 64 bits.
- Upload.RoundedSeconds: the model's integer is unbounded. Swift's `Int(round(seconds))` traps when the value does not fit 64 bits.
- Clock.FormatTimeParts: the whole seconds are unbounded. Kotlin's `(millis / 1000).toInt()` wraps past the 32-bit `Int` range.
- AndroidTimerService.TimerService.FormattedTime: the same 32-bit `toInt()` wrap-around is not modelled.
