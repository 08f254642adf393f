// The pure parts of the iOS API client (APIClient.swift): how an HTTP
// status becomes an outcome, the multipart upload body, the response
// types' display strings and their class-schedule formatter, and the
// rubric score codec. The transport itself is not modelled.

module ApiClient {
  import opened Wrappers
  import opened Text
  import opened Network

  // ------------------------------------------------------------ status codes

  /** The error a response with this status throws, or None when the body is decoded (any 2xx). */
  function StatusError(statusCode: int): (e: Option<IosNetworkError>)
  {
    if 200 <= statusCode <= 299 then None
    else if statusCode == 401 then Some(IosUnauthorized)
    else if statusCode == 404 then Some(IosNotFound)
    else Some(ServerError(statusCode))
  }

  /**
   * Exactly the 2xx responses are decoded; a failed response is retried
   * (by `isRetriable`) exactly when its status is 500 or above, and the
   * thrown error keeps the status unless it was 401 or 404.
   */
  lemma StatusErrorClassified(statusCode: int)
    ensures StatusError(statusCode).None? <==> 200 <= statusCode <= 299
    ensures StatusError(statusCode).Some? ==> (StatusError(statusCode).value.IsRetriable() <==> statusCode >= 500)
    ensures StatusError(statusCode).Some? && statusCode != 401 && statusCode != 404 ==>
      StatusError(statusCode).value == ServerError(statusCode)
  {
  }

  /** The error an upload response with this status throws: every non-2xx status becomes a server error. */
  function UploadStatusError(statusCode: int): (e: Option<IosNetworkError>)
  {
    if 200 <= statusCode <= 299 then None else Some(ServerError(statusCode))
  }

  /**
   * The upload path agrees with ordinary requests on which responses are
   * decoded and which are retried, but reports a 401 or a 404 as a server
   * error (not retried) rather than as unauthorized or not found.
   */
  lemma UploadStatusErrorClassified(statusCode: int)
    ensures UploadStatusError(statusCode).None? <==> StatusError(statusCode).None?
    ensures UploadStatusError(statusCode).Some? ==>
      (UploadStatusError(statusCode).value.IsRetriable() <==> StatusError(statusCode).value.IsRetriable())
    ensures UploadStatusError(statusCode) == StatusError(statusCode) <==> statusCode != 401 && statusCode != 404
  {
  }

  // ------------------------------------------------------------ multipart body

  /** One metadata field's part: boundary line, disposition header, blank line, value. */
  function FieldPart(boundary: string, key: string, value: string): string
  {
    BoundaryLine(boundary) + FieldHeader(key) + ValueLine(value)
  }

  /** `boundaryPrefix`: "--", the boundary and CRLF. */
  function BoundaryLine(boundary: string): string
  {
    "--" + boundary + "\r\n"
  }

  /** The disposition header of a field, followed by the blank line. */
  function FieldHeader(key: string): string
  {
    "Content-Disposition: form-data; name=\"" + key + "\"\r\n\r\n"
  }

  /** A field's value (its `"\(value)"` text) and CRLF. */
  function ValueLine(value: string): string
  {
    value + "\r\n"
  }

  /** The file part, named `audio_file`, with the file's last path component and the audio content type. */
  function FilePart(boundary: string, fileName: string, fileData: string): string
  {
    BoundaryLine(boundary) + FileHeader(fileName) + AudioContentType + ValueLine(fileData)
  }

  /** The disposition header of the file part. */
  function FileHeader(fileName: string): string
  {
    "Content-Disposition: form-data; name=\"audio_file\"; filename=\"" + fileName + "\"\r\n"
  }

  const AudioContentType := "Content-Type: audio/m4a\r\n\r\n"

  /** The closing delimiter. */
  function CloseDelimiter(boundary: string): string
  {
    "--" + boundary + "--\r\n"
  }

  /** The field parts of the metadata, in its iteration order. */
  function FieldParts(boundary: string, metadata: seq<(string, string)>): string
  {
    if metadata == [] then []
    else
      var last := metadata[|metadata| - 1];
      FieldParts(boundary, metadata[..|metadata| - 1]) + FieldPart(boundary, last.0, last.1)
  }

  /**
   * The body `createMultipartBody` builds (section 4 of RFC 7578): every
   * field part, then the file part when the file could be read, then the
   * closing delimiter.
   */
  function MultipartBody(boundary: string, metadata: seq<(string, string)>, fileName: string,
                         fileData: Option<string>): string
  {
    FieldParts(boundary, metadata)
    + (if fileData.Some? then FilePart(boundary, fileName, fileData.value) else [])
    + CloseDelimiter(boundary)
  }

  /**
   * `createMultipartBody(boundary:fileURL:metadata:)`, with the file's
   * contents (None when unreadable) as input. The metadata is a Swift
   * `[String: Any]` dictionary, whose iteration order is unspecified: the
   * sequence stands for whatever order the dictionary yields.
   */
  method CreateMultipartBody(boundary: string, fileName: string, metadata: seq<(string, string)>,
                             fileData: Option<string>) returns (body: string)
    ensures body == MultipartBody(boundary, metadata, fileName, fileData)
  {
    body := [];
    var i := 0;
    while i < |metadata|
      invariant 0 <= i <= |metadata|
      invariant body == FieldParts(boundary, metadata[..i])
    {
      var (key, value) := metadata[i];
      body := AppendField(body, boundary, key, value);
      assert metadata[..i + 1][..i] == metadata[..i];
      i := i + 1;
    }
    assert metadata[..|metadata|] == metadata;
    if fileData.Some? {
      body := AppendFile(body, boundary, fileName, fileData.value);
    }
    body := body + CloseDelimiter(boundary);
  }

  /** One iteration of the metadata loop: the boundary line, the disposition header, the value. */
  method AppendField(before: string, boundary: string, key: string, value: string) returns (body: string)
    ensures body == before + FieldPart(boundary, key, value)
  {
    body := before + BoundaryLine(boundary);
    body := body + FieldHeader(key);
    body := body + ValueLine(value);
  }

  /** The file part appended when the file could be read. */
  method AppendFile(before: string, boundary: string, fileName: string, fileData: string) returns (body: string)
    ensures body == before + FilePart(boundary, fileName, fileData)
  {
    ghost var headers := BoundaryLine(boundary) + FileHeader(fileName) + AudioContentType;
    body := before + BoundaryLine(boundary);
    body := body + FileHeader(fileName);
    body := body + AudioContentType;
    assert body == before + headers;
    ghost var withHeaders := body;
    body := body + fileData;
    body := body + "\r\n";
    assert body == withHeaders + ValueLine(fileData);
  }

  /** The length of the field parts of the first `n` fields. */
  function FieldPartsLength(boundary: string, metadata: seq<(string, string)>, n: nat): nat
    requires n <= |metadata|
  {
    if n == 0 then 0
    else FieldPartsLength(boundary, metadata, n - 1) + |FieldPart(boundary, metadata[n - 1].0, metadata[n - 1].1)|
  }

  lemma {:induction false} FieldPartsPrefix(boundary: string, metadata: seq<(string, string)>, n: nat)
    requires n <= |metadata|
    ensures |FieldParts(boundary, metadata[..n])| == FieldPartsLength(boundary, metadata, n)
  {
    if n > 0 {
      FieldPartsPrefix(boundary, metadata, n - 1);
      assert metadata[..n][..n - 1] == metadata[..n - 1];
    }
  }

  /** The field parts of a longer metadata list begin with those of any prefix. */
  lemma {:induction false} FieldPartsExtend(boundary: string, metadata: seq<(string, string)>, n: nat)
    requires n <= |metadata|
    ensures StartsWith(FieldParts(boundary, metadata), FieldParts(boundary, metadata[..n]))
    decreases |metadata| - n
  {
    if n < |metadata| {
      FieldPartsExtend(boundary, metadata, n + 1);
      var small := FieldParts(boundary, metadata[..n]);
      var mid := FieldParts(boundary, metadata[..n + 1]);
      assert metadata[..n + 1][..n] == metadata[..n];
      assert mid == small + FieldPart(boundary, metadata[n].0, metadata[n].1);
      assert mid[..|small|] == small;
    } else {
      assert metadata[..n] == metadata;
    }
  }

  /**
   * Every field's part appears in the body in metadata order: the i-th
   * part starts right after the parts of the fields before it. The body
   * ends with the single closing delimiter.
   */
  lemma MultipartLayout(boundary: string, metadata: seq<(string, string)>, fileName: string,
                        fileData: Option<string>, i: nat)
    requires i < |metadata|
    ensures var body := MultipartBody(boundary, metadata, fileName, fileData);
      && OccursAt(body, FieldPart(boundary, metadata[i].0, metadata[i].1), FieldPartsLength(boundary, metadata, i))
      && EndsWith(body, CloseDelimiter(boundary))
  {
    var fields := FieldParts(boundary, metadata);
    var file := if fileData.Some? then FilePart(boundary, fileName, fileData.value) else [];
    var close := CloseDelimiter(boundary);
    assert MultipartBody(boundary, metadata, fileName, fileData) == fields + (file + close);
    FieldOccursInFields(boundary, metadata, i);
    OccursInPrefix(fields, file + close, FieldPart(boundary, metadata[i].0, metadata[i].1), FieldPartsLength(boundary, metadata, i));
    EndsWithAppend(fields + file, close);
  }

  /** A string ends with whatever is appended to it. */
  lemma EndsWithAppend(a: string, b: string)
    ensures EndsWith(a + b, b)
  {
    assert (a + b)[|a|..] == b;
  }

  /** The i-th field's part sits in the field parts right after the parts before it. */
  lemma FieldOccursInFields(boundary: string, metadata: seq<(string, string)>, i: nat)
    requires i < |metadata|
    ensures OccursAt(FieldParts(boundary, metadata), FieldPart(boundary, metadata[i].0, metadata[i].1), FieldPartsLength(boundary, metadata, i))
  {
    var part := FieldPart(boundary, metadata[i].0, metadata[i].1);
    FieldPartsExtend(boundary, metadata, i + 1);
    FieldPartsPrefix(boundary, metadata, i);
    assert metadata[..i + 1][..i] == metadata[..i];
    assert FieldParts(boundary, metadata[..i + 1]) == FieldParts(boundary, metadata[..i]) + part;
    OccursAfterPrefix(FieldParts(boundary, metadata), FieldParts(boundary, metadata[..i]), part);
  }

  /** When a string starts with `pre + sub`, `sub` occurs right after `pre`. */
  lemma OccursAfterPrefix(s: string, pre: string, sub: string)
    requires StartsWith(s, pre + sub)
    ensures OccursAt(s, sub, |pre|)
  {
    assert s[|pre|..|pre| + |sub|] == (pre + sub)[|pre|..];
  }

  /** An occurrence stays where it is when more is appended. */
  lemma OccursInPrefix(a: string, b: string, sub: string, k: int)
    requires OccursAt(a, sub, k)
    ensures OccursAt(a + b, sub, k)
  {
    assert (a + b)[k..k + |sub|] == a[k..k + |sub|];
  }

  /** With nothing to send the body is only the closing delimiter; otherwise it opens with a boundary line. */
  lemma MultipartOpensWithBoundary(boundary: string, metadata: seq<(string, string)>, fileName: string,
                                   fileData: Option<string>)
    ensures metadata == [] && fileData.None? ==>
      MultipartBody(boundary, metadata, fileName, fileData) == CloseDelimiter(boundary)
    ensures metadata != [] || fileData.Some? ==>
      StartsWith(MultipartBody(boundary, metadata, fileName, fileData), BoundaryLine(boundary))
  {
    var body := MultipartBody(boundary, metadata, fileName, fileData);
    var line := BoundaryLine(boundary);
    var rest := (if fileData.Some? then FilePart(boundary, fileName, fileData.value) else []) + CloseDelimiter(boundary);
    assert body == FieldParts(boundary, metadata) + rest;
    if metadata != [] {
      FieldPartsOpenWithBoundary(boundary, metadata);
      PrefixOfAppend(FieldParts(boundary, metadata), rest, line);
    } else if fileData.Some? {
      var file := FilePart(boundary, fileName, fileData.value);
      assert body == file + CloseDelimiter(boundary);
      assert file[..|line|] == line;
      PrefixOfAppend(file, CloseDelimiter(boundary), line);
    }
  }

  /** Non-empty field parts open with the boundary line of their first field. */
  lemma FieldPartsOpenWithBoundary(boundary: string, metadata: seq<(string, string)>)
    requires metadata != []
    ensures StartsWith(FieldParts(boundary, metadata), BoundaryLine(boundary))
  {
    var line := BoundaryLine(boundary);
    var first := FieldParts(boundary, metadata[..1]);
    FieldPartsExtend(boundary, metadata, 1);
    assert metadata[..1][..0] == [] && metadata[..1][0] == metadata[0];
    assert FieldParts(boundary, metadata[..1][..0]) == [];
    assert first == FieldPart(boundary, metadata[0].0, metadata[0].1);
    assert first[..|line|] == line;
    PrefixOfPrefix(FieldParts(boundary, metadata), first, line);
  }

  /** A prefix of a prefix is a prefix. */
  lemma PrefixOfPrefix(s: string, a: string, p: string)
    requires StartsWith(s, a) && StartsWith(a, p)
    ensures StartsWith(s, p)
  {
    assert s[..|p|] == a[..|p|];
  }

  /** A prefix of a string stays a prefix when more is appended. */
  lemma PrefixOfAppend(a: string, b: string, p: string)
    requires StartsWith(a, p)
    ensures StartsWith(a + b, p)
  {
    assert (a + b)[..|p|] == a[..|p|];
  }

  // ------------------------------------------------------------ schedule formatting

  /** `dayLookup`: three-letter day codes to day names. */
  const DayLookup: map<string, string> := map[
    "MON" := "Monday", "TUE" := "Tuesday", "WED" := "Wednesday", "THU" := "Thursday",
    "FRI" := "Friday", "SAT" := "Saturday", "SUN" := "Sunday"]

  /** The 12-hour clock hour shown for a 24-hour hour: 0 becomes 12, afternoon hours lose 12. */
  function TwelveHour(hour: int): int
  {
    if hour == 0 then 12 else if hour > 12 then hour - 12 else hour
  }

  /** `formattedTime(hour:minute:)`: "%d:%02d %@" with "PM" from hour 12 on; ranges are not checked. */
  function FormattedTime(hour: int, minute: int): string
  {
    IntToString(TwelveHour(hour)) + ":" + Pad2(minute) + " " + (if hour >= 12 then "PM" else "AM")
  }

  /**
   * For a time of day the text reads back: the hour part parses to a
   * 12-hour hour in [1, 12], which with the AM/PM suffix gives the hour
   * back; the minute is exactly two digits.
   */
  lemma FormattedTimeReadsBack(hour: int, minute: int)
    requires 0 <= hour < 24 && 0 <= minute < 60
    ensures var r := FormattedTime(hour, minute); var h := TwelveHour(hour);
      && |r| >= 7
      && r[|r| - 3..] == (if hour < 12 then " AM" else " PM")
      && r[|r| - 6] == ':'
      && |r[|r| - 5..|r| - 3]| == 2 && ParseInt(r[|r| - 5..|r| - 3]) == Some(minute)
      && ParseInt(r[..|r| - 6]) == Some(h)
      && 1 <= h <= 12 && h % 12 + (if hour >= 12 then 12 else 0) == hour
  {
    Pad2Value(minute);
    Pad2Parses(minute);
    ParseIntOfIntToString(TwelveHour(hour));
    TwelveHourRecovers(hour);
    var hs, mm := IntToString(TwelveHour(hour)), Pad2(minute);
    if hour >= 12 {
      TimeTextSlices(hs, mm, "PM", TwelveHour(hour), minute);
    } else {
      TimeTextSlices(hs, mm, "AM", TwelveHour(hour), minute);
    }
  }

  /** The 12-hour hour lies in [1, 12] and, with the half of the day, gives the hour back. */
  lemma TwelveHourRecovers(hour: int)
    requires 0 <= hour < 24
    ensures var h := TwelveHour(hour);
      1 <= h <= 12 && h % 12 + (if hour >= 12 then 12 else 0) == hour
  {
    if hour == 0 || hour == 12 {
      assert TwelveHour(hour) == 12;
    } else {
      assert TwelveHour(hour) % 12 == TwelveHour(hour);
    }
  }

  /** Where the parts of "h:mm xx" sit, counted from the end, and what the numbers read as. */
  lemma TimeTextSlices(hs: string, mm: string, suffix: string, h: int, m: int)
    requires hs != [] && |mm| == 2 && |suffix| == 2
    requires ParseInt(hs) == Some(h) && ParseInt(mm) == Some(m)
    ensures var r := hs + ":" + mm + " " + suffix;
      && |r| >= 7 && r[|r| - 6] == ':' && r[|r| - 3..] == " " + suffix
      && |r[|r| - 5..|r| - 3]| == 2 && ParseInt(r[|r| - 5..|r| - 3]) == Some(m)
      && ParseInt(r[..|r| - 6]) == Some(h)
  {
    var r := hs + ":" + mm + " " + suffix;
    assert r[..|r| - 6] == hs && r[|r| - 5..|r| - 3] == mm;
  }

  /** The first index of `c` in `s`. */
  function IndexOf(s: string, c: char): (r: Option<nat>)
    ensures r.Some? ==> r.value < |s| && s[r.value] == c && c !in s[..r.value]
    ensures r.None? ==> c !in s
  {
    if s == [] then None
    else if s[0] == c then Some(0)
    else match IndexOf(s[1..], c) {
      case None => None
      case Some(i) =>
        assert s[..i + 1] == [s[0]] + s[1..][..i];
        Some(i + 1)
    }
  }

  /** Drops the leading run of `c`. */
  function DropLeadingChar(s: string, c: char): (r: string)
    ensures |r| <= |s| && r == s[|s| - |r|..]
    ensures r != [] ==> r[0] != c
  {
    if s != [] && s[0] == c then DropLeadingChar(s[1..], c) else s
  }

  /**
   * `split(separator: c, maxSplits: 1, omittingEmptySubsequences: true)`:
   * leading separators give only empty pieces, which are dropped without
   * using up the split; the first non-empty piece ends at the next
   * separator, and whatever follows it, if anything, is the second piece.
   */
  function SplitOnce(s: string, c: char): (parts: seq<string>)
    ensures |parts| <= 2
    ensures forall k :: 0 <= k < |parts| ==> parts[k] != []
  {
    var t := DropLeadingChar(s, c);
    if t == [] then []
    else match IndexOf(t, c) {
      case None => [t]
      case Some(j) =>
        assert 0 < j < |t| by {
          assert t[0] != c && t[j] == c;
        }
        var head := t[..j];
        assert head != [];
        if j + 1 == |t| then [head] else [head, t[j + 1..]]
    }
  }

  /** Reads two integers from the first two and last two characters of a four-character string. */
  function FourDigitTime(raw: string): Option<string>
  {
    if |raw| == 4 && ParseInt(raw[..2]).Some? && ParseInt(raw[2..]).Some? then
      Some(FormattedTime(ParseInt(raw[..2]).value, ParseInt(raw[2..]).value))
    else None
  }

  /** `formattedTime(fromExplicit:)`: "H:M" read at the first ':', else "HHMM", else nil. */
  function TimeFromExplicit(explicit: Option<string>): Option<string>
  {
    if explicit.None? || explicit.value == [] then None
    else
      var s := explicit.value;
      var parts := SplitOnce(s, ':');
      if ':' in s && |parts| == 2 && ParseInt(parts[0]).Some? && ParseInt(parts[1]).Some? then
        Some(FormattedTime(ParseInt(parts[0]).value, ParseInt(parts[1]).value))
      else FourDigitTime(s)
  }

  /** `formattedTime(fromClassId:)`: the last '-'-separated component read as "HHMM". */
  function TimeFromClassId(classId: string): Option<string>
  {
    var components := SplitNonEmpty(classId, '-');
    if components == [] then None else FourDigitTime(components[|components| - 1])
  }

  /** The first component whose uppercase form is a day code, as a day name. */
  function FirstDay(components: seq<string>): (r: Option<string>)
    ensures r.Some? ==>
      exists k :: (0 <= k < |components| && Upper(components[k]) in DayLookup
        && r.value == DayLookup[Upper(components[k])]
        && forall j :: 0 <= j < k ==> Upper(components[j]) !in DayLookup)
    ensures r.None? ==> forall k :: 0 <= k < |components| ==> Upper(components[k]) !in DayLookup
  {
    if components == [] then None
    else if Upper(components[0]) in DayLookup then Some(DayLookup[Upper(components[0])])
    else
      var r := FirstDay(components[1..]);
      assert forall j :: 1 <= j < |components| ==> components[j] == components[1..][j - 1];
      r
  }

  /** `dayName(fromClassId:)`. */
  function DayFromClassId(classId: string): Option<string>
  {
    FirstDay(SplitNonEmpty(classId, '-'))
  }

  /**
   * `ClassScheduleFormatter.dayTimeString`. `fromStartDate` is the
   * "EEEE h:mm a" rendering of `startDateTime` when that parses as an
   * ISO 8601 date, and None otherwise; it wins when present.
   */
  function DayTimeString(classId: string, fromStartDate: Option<string>, fallbackStartTime: Option<string>,
                         explicitDayName: Option<string>): Option<string>
  {
    if fromStartDate.Some? then fromStartDate
    else
      var day := if explicitDayName.Some? then explicitDayName else DayFromClassId(classId);
      var time := if TimeFromExplicit(fallbackStartTime).Some? then TimeFromExplicit(fallbackStartTime) else TimeFromClassId(classId);
      if day.Some? && time.Some? then Some(day.value + " " + time.value)
      else if day.Some? then day
      else time
  }

  /**
   * Without a start date the string is "day time", the day alone, the
   * time alone, or nil when neither is known; an explicit day name or
   * start time takes precedence over what the class id encodes.
   */
  lemma DayTimeStringCases(classId: string, fallbackStartTime: Option<string>, explicitDayName: Option<string>)
    ensures var day := explicitDayName.Or(DayFromClassId(classId));
      var time := TimeFromExplicit(fallbackStartTime).Or(TimeFromClassId(classId));
      var r := DayTimeString(classId, None, fallbackStartTime, explicitDayName);
      && (r.None? <==> day.None? && time.None?)
      && (day.Some? && time.Some? ==> r == Some(day.value + " " + time.value))
      && (day.Some? && time.None? ==> r == day)
      && (day.None? && time.Some? ==> r == time)
  {
  }

  /** `displayString` / `classDisplayString`: the class id alone when the day/time is just the id, else "dayTime - classId". */
  function ClassDisplayString(classId: string, dayTime: Option<string>): (r: string)
  {
    var shown := dayTime.GetOr(classId);
    if shown == classId then classId else shown + " - " + classId
  }

  /** The display string always ends with the class id, and adds a prefix exactly when a different day/time is known. */
  lemma ClassDisplayStringEndsWithId(classId: string, dayTime: Option<string>)
    ensures EndsWith(ClassDisplayString(classId, dayTime), classId)
    ensures ClassDisplayString(classId, dayTime) == classId <==> dayTime.None? || dayTime.value == classId
  {
    var r := ClassDisplayString(classId, dayTime);
    if r != classId {
      assert r[|r| - |classId|..] == classId;
      assert |r| > |classId|;
    }
  }

  /** `ScheduleAlternative` as far as its display string goes. */
  datatype ScheduleAlternative = ScheduleAlternative(classId: string, startTime: string, fromStartDate: Option<string>)

  /** `ScheduleAlternative.displayString`. */
  function AlternativeDisplayString(a: ScheduleAlternative): string
  {
    ClassDisplayString(a.classId, DayTimeString(a.classId, a.fromStartDate, Some(a.startTime), None))
  }

  /** `ScheduleResponse.classDisplayString`: the main class has no fallback start time. */
  function ScheduleDisplayString(classId: string, fromStartDate: Option<string>): string
  {
    ClassDisplayString(classId, DayTimeString(classId, fromStartDate, None, None))
  }

  /** `ScheduleResponse.ClassInfo` as far as its titles go. */
  datatype ClassInfo = ClassInfo(classId: string, displayLabel: Option<string>, dayName: Option<string>,
                                 startTime: Option<string>)

  /** `ClassInfo.dayTimeString`: a non-empty display label wins; otherwise the formatter, without a start date. */
  function ClassInfoDayTime(c: ClassInfo): Option<string>
  {
    if c.displayLabel.Some? && c.displayLabel.value != [] then c.displayLabel
    else DayTimeString(c.classId, None, c.startTime, c.dayName)
  }

  /** `displayTitle` falls back to the class id; `displaySubtitle` shows the id only when the title does not. */
  lemma ClassInfoTitles(c: ClassInfo)
    ensures var title := ClassInfoDayTime(c).GetOr(c.classId);
      var subtitle := if ClassInfoDayTime(c).None? then None else Some(c.classId);
      (subtitle.None? <==> title == c.classId && ClassInfoDayTime(c).None?)
      && (c.displayLabel.Some? && c.displayLabel.value != [] ==> title == c.displayLabel.value && subtitle == Some(c.classId))
  {
  }

  /** `ClassInfo.primaryFallback(from:)`: the main class, labelled with its day/time unless that is just the id. */
  function PrimaryFallback(classId: string, fromStartDate: Option<string>): ClassInfo
  {
    var dayTime := DayTimeString(classId, fromStartDate, None, None).GetOr(classId);
    ClassInfo(classId, if dayTime == classId then None else Some(dayTime), None, None)
  }

  /**
   * The fallback class offered when the server lists no classes is titled
   * as the schedule's main class is: by its day/time, or by its id. A
   * rendered start date is taken to be neither empty nor the id itself.
   */
  lemma PrimaryFallbackTitle(classId: string, fromStartDate: Option<string>)
    requires fromStartDate.Some? ==> fromStartDate.value != [] && fromStartDate.value != classId
    ensures ClassInfoDayTime(PrimaryFallback(classId, fromStartDate)).GetOr(classId)
         == DayTimeString(classId, fromStartDate, None, None).GetOr(classId)
    ensures PrimaryFallback(classId, fromStartDate).classId == classId
  {
  }

  /**
   * A class id of the form "<level>-<day code>-<HHMM>" (as "BEG-FRI-1430")
   * gives the day's full name and the time, and the day/time string is
   * "<day> <time>", as in "Friday 2:30 PM".
   */
  lemma ClassIdRoundTrip(level: string, code: string, hour: nat, minute: nat)
    requires level != [] && '-' !in level && Upper(level) !in DayLookup
    requires code != [] && '-' !in code && Upper(code) in DayLookup
    requires hour < 100 && minute < 100
    ensures var classId := level + "-" + code + "-" + (Pad2(hour) + Pad2(minute));
      && DayFromClassId(classId) == Some(DayLookup[Upper(code)])
      && TimeFromClassId(classId) == Some(FormattedTime(hour, minute))
      && DayTimeString(classId, None, None, None) == Some(DayLookup[Upper(code)] + " " + FormattedTime(hour, minute))
  {
    var hhmm := Pad2(hour) + Pad2(minute);
    var classId := level + "-" + code + "-" + hhmm;
    var day := DayLookup[Upper(code)];
    var time := FormattedTime(hour, minute);
    assert FourDigitTime(hhmm) == Some(time) && hhmm != [] && '-' !in hhmm by {
      FourDigitsRead(hour, minute);
    }
    assert SplitNonEmpty(classId, '-') == [level, code, hhmm] by {
      ClassIdComponents(level, code, hhmm);
    }
    assert DayFromClassId(classId) == Some(day) by {
      FirstDayOfClassId(level, code, hhmm);
    }
    var components := SplitNonEmpty(classId, '-');
    assert components[|components| - 1] == hhmm;
    assert TimeFromClassId(classId) == Some(time);
    assert TimeFromExplicit(None).None?;
  }

  /** A class id built from three dash-free pieces splits back into them. */
  lemma ClassIdComponents(level: string, code: string, hhmm: string)
    requires level != [] && '-' !in level && code != [] && '-' !in code && hhmm != [] && '-' !in hhmm
    ensures SplitNonEmpty(level + "-" + code + "-" + hhmm, '-') == [level, code, hhmm]
  {
    assert level + "-" + code + "-" + hhmm == level + ['-'] + code + ['-'] + hhmm;
    SplitThree(level, code, hhmm, '-');
  }

  /** The level is not a day code, so the day comes from the second component. */
  lemma FirstDayOfClassId(level: string, code: string, hhmm: string)
    requires Upper(level) !in DayLookup && Upper(code) in DayLookup
    ensures FirstDay([level, code, hhmm]) == Some(DayLookup[Upper(code)])
  {
    assert [level, code, hhmm][1..] == [code, hhmm];
  }

  /** Two two-digit numbers side by side read as "HHMM". */
  lemma FourDigitsRead(hour: nat, minute: nat)
    requires hour < 100 && minute < 100
    ensures var s := Pad2(hour) + Pad2(minute);
      |s| == 4 && ':' !in s && '-' !in s && s != []
      && FourDigitTime(s) == Some(FormattedTime(hour, minute))
  {
    var s := Pad2(hour) + Pad2(minute);
    Pad2Value(hour);
    Pad2Value(minute);
    assert s[..2] == Pad2(hour) && s[2..] == Pad2(minute);
    assert forall k :: 0 <= k < 4 ==> IsDigit(s[k]);
    assert ParseInt(Pad2(hour)) == Some(hour);
    assert ParseInt(Pad2(minute)) == Some(minute);
  }

  /** Splitting "h:m" once at ':' gives both sides when the left side starts the text and holds no ':'. */
  lemma SplitOnceAtColon(hs: string, ms: string)
    requires hs != [] && ms != [] && ':' !in hs
    ensures SplitOnce(hs + ":" + ms, ':') == [hs, ms]
  {
    var s := hs + ":" + ms;
    assert s[0] == hs[0];
    assert DropLeadingChar(s, ':') == s;
    assert s[|hs|] == ':' && s[..|hs|] == hs;
    assert IndexOf(s, ':') == Some(|hs|);
    assert s[|hs| + 1..] == ms;
  }

  /** An "H:M" start time written from two numbers reads back as those numbers. */
  lemma ExplicitTimeRoundTrip(hour: nat, minute: int)
    requires InInt64(hour) && InInt64(minute)
    ensures TimeFromExplicit(Some(IntToString(hour) + ":" + IntToString(minute))) == Some(FormattedTime(hour, minute))
  {
    var hs := IntToString(hour);
    var ms := IntToString(minute);
    assert ':' !in hs by {
      assert forall k :: 0 <= k < |hs| ==> IsDigit(hs[k]);
    }
    SplitOnceAtColon(hs, ms);
    ParseIntOfIntToString(hour);
    ParseIntOfIntToString(minute);
    assert ':' in hs + ":" + ms by {
      assert (hs + ":" + ms)[|hs|] == ':';
    }
  }

  /** A four-digit "HHMM" start time reads as hour and minute. */
  lemma FourDigitTimeRoundTrip(hour: nat, minute: nat)
    requires hour < 100 && minute < 100
    ensures TimeFromExplicit(Some(Pad2(hour) + Pad2(minute))) == Some(FormattedTime(hour, minute))
  {
    FourDigitsRead(hour, minute);
  }

  // ------------------------------------------------------------ rubric scores

  /** A rubric score as the server sends it. */
  datatype RubricScore = Number(value: real) | NotApplicable | Text(text: string)

  /** The JSON value a score decodes from, as far as the decoder tells them apart. */
  datatype JsonScalar = JNumber(number: real) | JString(str: string) | JOther

  /**
   * `RubricScore.init(from:)`. `parseDouble` is Swift's `Double(String)`,
   * which the model takes as given.
   */
  function DecodeRubricScore(json: JsonScalar, parseDouble: string -> Option<real>): (r: RubricScore)
  {
    match json
    case JNumber(v) => Number(v)
    case JString(s) =>
      var trimmed := Trim(s);
      var upper := Upper(trimmed);
      if upper == "NA" || upper == "N/A" then NotApplicable
      else if parseDouble(trimmed).Some? then Number(parseDouble(trimmed).value)
      else Text(trimmed)
    case JOther => Text("")
  }

  /** `RubricScore.encode(to:)`: numbers and text as themselves, not-applicable as "NA". */
  function EncodeRubricScore(score: RubricScore): JsonScalar
  {
    match score
    case Number(v) => JNumber(v)
    case NotApplicable => JString("NA")
    case Text(t) => JString(t)
  }

  /** Decoded text is always trimmed. */
  lemma DecodedTextIsTrimmed(json: JsonScalar, parseDouble: string -> Option<real>)
    ensures DecodeRubricScore(json, parseDouble).Text? ==>
      Trim(DecodeRubricScore(json, parseDouble).text) == DecodeRubricScore(json, parseDouble).text
  {
    if json.JString? {
      var t := Trim(json.str);
      TrimOfTrimmed(t);
      DecodedStringText(json.str, parseDouble);
    }
  }

  /** Text decoded from a string is that string trimmed. */
  lemma DecodedStringText(s: string, parseDouble: string -> Option<real>)
    ensures DecodeRubricScore(JString(s), parseDouble).Text? ==>
      DecodeRubricScore(JString(s), parseDouble).text == Trim(s)
  {
  }

  /** "NA" or "N/A" in any letter case, and with any white padding, decodes as not-applicable. */
  lemma PaddedNotApplicable(parseDouble: string -> Option<real>, pad: string, na: string)
    requires forall i :: 0 <= i < |pad| ==> IsWhite(pad[i])
    requires Upper(na) == "NA" || Upper(na) == "N/A"
    ensures DecodeRubricScore(JString(pad + na + pad), parseDouble) == NotApplicable
  {
    assert na != [] && !IsWhite(na[0]) && !IsWhite(na[|na| - 1]) by {
      assert |Upper(na)| == |na|;
      assert Upper(na)[0] == 'N';
      assert Upper(na)[|na| - 1] == 'A';
    }
    TrimPadding(pad, na, pad);
    TrimOfTrimmed(na);
  }

  lemma NotApplicableRoundTrip(parseDouble: string -> Option<real>)
    ensures DecodeRubricScore(EncodeRubricScore(NotApplicable), parseDouble) == NotApplicable
  {
    NotApplicableTrimmed();
    NotApplicableUppercase();
    assert EncodeRubricScore(NotApplicable) == JString("NA");
  }

  lemma NotApplicableTrimmed()
    ensures Trim("NA") == "NA"
  {
    TrimOfTrimmed("NA");
  }

  lemma NotApplicableUppercase()
    ensures Upper("NA") == "NA"
  {
  }

  lemma TextRoundTrip(t: string, parseDouble: string -> Option<real>)
    requires Trim(t) == t && Upper(t) != "NA" && Upper(t) != "N/A" && parseDouble(t).None?
    ensures DecodeRubricScore(EncodeRubricScore(Text(t)), parseDouble) == Text(t)
  {
  }

  /**
   * Encoding then decoding gives the score back for numbers and for
   * not-applicable; text comes back when it is already trimmed, does not
   * spell "NA" or "N/A" and does not parse as a number.
   */
  lemma RubricScoreRoundTrip(score: RubricScore, parseDouble: string -> Option<real>)
    requires score.Text? ==>
      Trim(score.text) == score.text && Upper(score.text) != "NA" && Upper(score.text) != "N/A"
      && parseDouble(score.text).None?
    ensures DecodeRubricScore(EncodeRubricScore(score), parseDouble) == score
  {
    match score
    case Number(_) =>
    case NotApplicable => NotApplicableRoundTrip(parseDouble);
    case Text(t) => TextRoundTrip(t, parseDouble);
  }

  // ------------------------------------------------------------ feedback content

  datatype QualitativeFeedback = QualitativeFeedback(feedbackText: Option<string>)

  datatype ResponseSection = ResponseSection(title: string, content: string)

  /** `FeedbackContentResponse`; the playable moments are carried as opaque values. */
  datatype FeedbackContentResponse<M> = FeedbackContentResponse(
    speechId: string,
    scores: Option<map<string, RubricScore>>,
    qualitativeFeedback: Option<QualitativeFeedback>,
    feedbackText: Option<string>,
    sections: Option<seq<ResponseSection>>,
    playableMoments: Option<seq<M>>,
    audioUrl: Option<string>)

  /** `resolvedFeedbackText`: the top-level text, else the nested one, else empty. */
  function ResolvedFeedbackText<M>(response: FeedbackContentResponse<M>): string
  {
    if response.feedbackText.Some? then response.feedbackText.value
    else if response.qualitativeFeedback.Some? && response.qualitativeFeedback.value.feedbackText.Some? then
      response.qualitativeFeedback.value.feedbackText.value
    else ""
  }

  /** The top-level text wins over the nested one; the result is empty only when no text is sent or the sent text is empty. */
  lemma ResolvedFeedbackTextPrefersTopLevel<M>(response: FeedbackContentResponse<M>, nested: Option<QualitativeFeedback>)
    ensures response.feedbackText.Some? ==>
      ResolvedFeedbackText(response.(qualitativeFeedback := nested)) == response.feedbackText.value
    ensures ResolvedFeedbackText(response) != [] ==>
      response.feedbackText.Some? || (response.qualitativeFeedback.Some? && response.qualitativeFeedback.value.feedbackText.Some?)
  {
  }
}
