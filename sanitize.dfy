/**
 * The iOS string helpers of String+Sanitize.swift (filename sanitising and
 * the motion / speaker-name validity checks) and the audio filename built
 * from them in FileManager+Audio.swift.
 */
module Sanitize {
  import opened Text

  /** The characters `sanitizedForFilename` treats as invalid. */
  const InvalidCharacters: string := ":/\\?%*|\"<>"

  predicate IsInvalid(c: char) { c in InvalidCharacters }

  /** `components(separatedBy: invalidCharacters).joined(separator: "_")`. */
  function ReplaceInvalid(s: string): (r: string)
    ensures |r| == |s|
    ensures forall i :: 0 <= i < |s| ==> r[i] == (if IsInvalid(s[i]) then '_' else s[i])
  {
    JoinComponents(s, IsInvalid, '_');
    Join(Components(s, IsInvalid), "_")
  }

  /**
   * `sanitizedForFilename`: invalid characters become '_', the result is
   * trimmed, spaces become '_' and the whole is lowercased.
   */
  function SanitizedForFilename(s: string): (r: string)
  {
    Lower(ReplaceChar(Trim(ReplaceInvalid(s)), ' ', "_"))
  }

  /** What a sanitised string is: no invalid character, no space, no upper-case letter, no white ends. */
  predicate IsSanitized(t: string)
  {
    && (forall i :: 0 <= i < |t| ==> !IsInvalid(t[i]) && t[i] != ' ' && !IsUpperAscii(t[i]))
    && (t != [] ==> !IsWhite(t[0]) && !IsWhite(t[|t| - 1]))
  }

  lemma SanitizedIsSanitized(s: string)
    ensures IsSanitized(SanitizedForFilename(s))
    ensures |SanitizedForFilename(s)| <= |s|
  {
    var b := Trim(ReplaceInvalid(s));
    TrimmedIsValid(s);
    var c := ReplaceChar(b, ' ', "_");
    SpacesReplaced(b);
    LowerKeepsSanitized(c);
  }

  /** After replacing invalid characters and trimming, no invalid character is left. */
  lemma TrimmedIsValid(s: string)
    ensures forall i :: 0 <= i < |Trim(ReplaceInvalid(s))| ==> !IsInvalid(Trim(ReplaceInvalid(s))[i])
  {
    var a := ReplaceInvalid(s);
    var b := Trim(a);
    var k := TrimIsSlice(a);
    forall i | 0 <= i < |b| ensures !IsInvalid(b[i]) {
      assert b[i] == a[k + i];
    }
  }

  /** Replacing spaces keeps a trimmed, valid string valid and removes its spaces. */
  lemma SpacesReplaced(b: string)
    requires forall i :: 0 <= i < |b| ==> !IsInvalid(b[i])
    requires b != [] ==> !IsWhite(b[0]) && !IsWhite(b[|b| - 1])
    ensures var c := ReplaceChar(b, ' ', "_");
      && |c| == |b|
      && (forall i :: 0 <= i < |c| ==> !IsInvalid(c[i]) && c[i] != ' ')
      && (c != [] ==> !IsWhite(c[0]) && !IsWhite(c[|c| - 1]))
  {
    var c := ReplaceChar(b, ' ', "_");
    forall i | 0 <= i < |c| ensures !IsInvalid(c[i]) && c[i] != ' ' {
      assert c[i] == (if b[i] == ' ' then '_' else b[i]);
    }
    if c != [] {
      assert c[0] == b[0] && c[|c| - 1] == b[|b| - 1];
    }
  }

  /** Lower-casing keeps every property of a sanitised string and removes upper-case letters. */
  lemma LowerKeepsSanitized(c: string)
    requires forall i :: 0 <= i < |c| ==> !IsInvalid(c[i]) && c[i] != ' '
    requires c != [] ==> !IsWhite(c[0]) && !IsWhite(c[|c| - 1])
    ensures IsSanitized(Lower(c))
  {
    var d := Lower(c);
    forall i | 0 <= i < |d| ensures !IsInvalid(d[i]) && d[i] != ' ' && !IsUpperAscii(d[i]) {
      LowerCharKeeps(c[i]);
    }
    if c != [] {
      LowerCharKeeps(c[0]);
      LowerCharKeeps(c[|c| - 1]);
    }
  }

  lemma LowerCharKeeps(c: char)
    ensures !IsInvalid(c) ==> !IsInvalid(LowerChar(c))
    ensures c != ' ' ==> LowerChar(c) != ' '
    ensures !IsWhite(c) ==> !IsWhite(LowerChar(c))
  {
  }

  /** `Trim(s)` is a contiguous slice of `s`, starting at `k`. */
  lemma TrimIsSlice(s: string) returns (k: nat)
    ensures k + |Trim(s)| <= |s| && Trim(s) == s[k..k + |Trim(s)|]
  {
    var l := DropLeading(s, BlanksAndNewlines);
    DropLeadingSuffix(s, BlanksAndNewlines);
    DropTrailingPrefix(l, BlanksAndNewlines);
    k := |s| - |l|;
    assert l == s[k..];
    assert Trim(s) == l[..|Trim(s)|];
  }

  /** Sanitising leaves an already sanitised string as it is. */
  lemma SanitizeFixesSanitized(t: string)
    requires IsSanitized(t)
    ensures SanitizedForFilename(t) == t
  {
    assert ReplaceInvalid(t) == t;
    TrimOfTrimmed(t);
    assert ReplaceChar(t, ' ', "_") == t;
    LowerOfLowercase(t);
  }

  /** `sanitizedForFilename` is idempotent. */
  lemma SanitizeIdempotent(s: string)
    ensures SanitizedForFilename(SanitizedForFilename(s)) == SanitizedForFilename(s)
  {
    SanitizedIsSanitized(s);
    SanitizeFixesSanitized(SanitizedForFilename(s));
  }

  const MinimumMotionLength := 5
  const MaximumMotionLength := 200
  const MinimumSpeakerName := 2
  const MaximumSpeakerName := 50

  /** `isValidMotion`: the whitespace-trimmed length lies in [5, 200]. */
  predicate IsValidMotion(s: string)
  {
    MinimumMotionLength <= |Trim(s)| <= MaximumMotionLength
  }

  /** `isValidSpeakerName`: the whitespace-trimmed length lies in [2, 50]. */
  predicate IsValidSpeakerName(s: string)
  {
    MinimumSpeakerName <= |Trim(s)| <= MaximumSpeakerName
  }

  /** Leading or trailing whitespace never changes either validity result. */
  lemma ValidityIgnoresPadding(pre: string, s: string, post: string)
    requires forall i :: 0 <= i < |pre| ==> IsWhite(pre[i])
    requires forall i :: 0 <= i < |post| ==> IsWhite(post[i])
    ensures IsValidMotion(pre + s + post) <==> IsValidMotion(s)
    ensures IsValidSpeakerName(pre + s + post) <==> IsValidSpeakerName(s)
  {
    TrimPadding(pre, s, post);
  }

  /** An all-whitespace string is never a valid motion nor a valid name. */
  lemma BlankIsInvalid(s: string)
    requires IsBlankString(s)
    ensures !IsValidMotion(s) && !IsValidSpeakerName(s)
  {
    TrimEmptyIffBlank(s);
  }

  const AudioFileExtension := "m4a"

  /** The ISO 8601 timestamp with every ':' and '.' removed. */
  function FilenameTimestamp(iso: string): (r: string)
    ensures ':' !in r && '.' !in r
    ensures |r| <= |iso|
  {
    ReplaceShrinks(iso, ':');
    ReplaceShrinks(ReplaceChar(iso, ':', ""), '.');
    ReplaceChar(ReplaceChar(iso, ':', ""), '.', "")
  }

  lemma {:induction false} ReplaceShrinks(s: string, c: char)
    ensures |ReplaceChar(s, c, "")| <= |s|
    decreases |s|
  {
    if s != [] { ReplaceShrinks(s[1..], c); }
  }

  /**
   * `generateAudioFilename` with the clock reading passed in as its ISO 8601
   * rendering: "<debateId>_<name>_<position>_<timestamp>.m4a".
   */
  function GenerateAudioFilename(debateId: string, speakerName: string, position: string, isoNow: string): (r: string)
  {
    debateId + "_" + SanitizedForFilename(speakerName) + "_" + SanitizedForFilename(position) + "_"
      + FilenameTimestamp(isoNow) + "." + AudioFileExtension
  }

  /** The filename's parts: the id first, sanitised name and position, a timestamp without ':' or '.', and the extension. */
  lemma AudioFilenameParts(debateId: string, speakerName: string, position: string, isoNow: string)
    ensures var r := GenerateAudioFilename(debateId, speakerName, position, isoNow);
      StartsWith(r, debateId + "_") && EndsWith(r, ".m4a")
    ensures IsSanitized(SanitizedForFilename(speakerName)) && IsSanitized(SanitizedForFilename(position))
    ensures var stamp := FilenameTimestamp(isoNow); ':' !in stamp && '.' !in stamp
  {
    SanitizedIsSanitized(speakerName);
    SanitizedIsSanitized(position);
    UnderscoreJoin(debateId, SanitizedForFilename(speakerName), SanitizedForFilename(position), FilenameTimestamp(isoNow));
  }

  lemma UnderscoreJoin(a: string, b: string, c: string, d: string)
    ensures var r := a + "_" + b + "_" + c + "_" + d + "." + AudioFileExtension;
      StartsWith(r, a + "_") && EndsWith(r, ".m4a")
  {
    var r := a + "_" + b + "_" + c + "_" + d + "." + AudioFileExtension;
    assert r == (a + "_") + (b + "_" + c + "_" + d + "." + AudioFileExtension);
    assert r == (a + "_" + b + "_" + c + "_" + d) + ".m4a";
  }
}
