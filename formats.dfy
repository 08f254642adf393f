/**
 * Debate formats and student levels with their per-format defaults, shared by
 * the Kotlin `DebateFormat` / `StudentLevel` enums and the Swift ones, and the
 * lenient Kotlin parsers `fromRaw`.
 */
module Formats {
  import opened Wrappers
  import opened Text

  datatype TeamStructure = PropOpp | BritishParliamentary | AsianParliamentary

  datatype DebateFormat = Wsdc | ModifiedWsdc | Bp | Ap | Australs
  {
    /** The Kotlin enum constant's `name`. */
    function Name(): string
    {
      match this
      case Wsdc => "WSDC"
      case ModifiedWsdc => "MODIFIED_WSDC"
      case Bp => "BP"
      case Ap => "AP"
      case Australs => "AUSTRALS"
    }

    /** Kotlin `displayName`, equal to the Swift raw value. */
    function DisplayName(): string
    {
      match this
      case Wsdc => "WSDC"
      case ModifiedWsdc => "Modified WSDC"
      case Bp => "BP"
      case Ap => "AP"
      case Australs => "Australs"
    }

    /** Default speech length in seconds. */
    function DefaultSpeechTime(): int
    {
      match this
      case Wsdc => 480
      case ModifiedWsdc => 240
      case Bp => 420
      case Ap => 360
      case Australs => 480
    }

    predicate HasReplySpeeches()
    {
      !(this == Bp || this == Ap)
    }

    /** Default reply-speech length in seconds; none for formats without replies. */
    function DefaultReplyTime(): Option<int>
    {
      match this
      case Wsdc => Some(240)
      case ModifiedWsdc => Some(120)
      case Australs => Some(180)
      case _ => None
    }

    function Structure(): TeamStructure
    {
      match this
      case Wsdc | ModifiedWsdc | Australs => PropOpp
      case Bp => BritishParliamentary
      case Ap => AsianParliamentary
    }
  }

  /** Kotlin `DebateFormat.entries`, in declaration order. */
  const AllFormats: seq<DebateFormat> := [Wsdc, ModifiedWsdc, Bp, Ap, Australs]

  /** The defaults table that both platforms declare. */
  lemma FormatDefaults(f: DebateFormat)
    ensures f.DefaultSpeechTime() == (match f case Wsdc => 480 case ModifiedWsdc => 240 case Bp => 420 case Ap => 360 case Australs => 480)
    ensures 60 <= f.DefaultSpeechTime() <= 900
    ensures f.DefaultReplyTime().Some? <==> f.HasReplySpeeches()
    ensures f.HasReplySpeeches() <==> f.Structure() == PropOpp
    ensures f.DefaultReplyTime().Some? ==> f.DefaultReplyTime().value in {240, 120, 180}
  {
  }

  /** `displayName.equals(raw, true) || name.equals(raw, true)`; a null raw never matches. */
  predicate FormatMatches(f: DebateFormat, raw: Option<string>)
  {
    raw.Some? && (EqualsIgnoreCase(f.DisplayName(), raw.value) || EqualsIgnoreCase(f.Name(), raw.value))
  }

  /** The first of `candidates` that matches `raw`, if any. */
  function FirstFormat(candidates: seq<DebateFormat>, raw: Option<string>): (r: Option<DebateFormat>)
    ensures r.Some? ==> r.value in candidates && FormatMatches(r.value, raw)
    ensures r.Some? ==>
      (exists i :: 0 <= i < |candidates| && candidates[i] == r.value && forall j :: 0 <= j < i ==> !FormatMatches(candidates[j], raw))
    ensures r.None? ==> forall f :: f in candidates ==> !FormatMatches(f, raw)
  {
    if candidates == [] then None
    else if FormatMatches(candidates[0], raw) then Some(candidates[0])
    else
      var rest := FirstFormat(candidates[1..], raw);
      if rest.Some? then
        ghost var i :| 0 <= i < |candidates[1..]| && candidates[1..][i] == rest.value
          && forall j :: 0 <= j < i ==> !FormatMatches(candidates[1..][j], raw);
        assert candidates[i + 1] == rest.value;
        rest
      else rest
  }

  /** Kotlin `DebateFormat.fromRaw`: first declared format whose display name or name matches ignoring case, else WSDC. */
  function FormatFromRaw(raw: Option<string>): (r: DebateFormat)
    ensures (exists f :: FormatMatches(f, raw)) ==>
      exists i :: 0 <= i < |AllFormats| && AllFormats[i] == r && FormatMatches(r, raw)
        && forall j :: 0 <= j < i ==> !FormatMatches(AllFormats[j], raw)
    ensures (forall f :: !FormatMatches(f, raw)) ==> r == Wsdc
  {
    var found := FirstFormat(AllFormats, raw);
    if found.Some? then found.value
    else
      assert forall f: DebateFormat :: f in AllFormats by {
        forall f: DebateFormat ensures f in AllFormats { AllFormatsListsEvery(f); }
      }
      Wsdc
  }

  /** Both the display name and the constant name, in any case, parse back to the format. */
  lemma FormatFromRawRoundTrip(f: DebateFormat)
    ensures FormatFromRaw(Some(f.DisplayName())) == f
    ensures FormatFromRaw(Some(f.Name())) == f
    ensures FormatFromRaw(Some(Upper(f.DisplayName()))) == f
  {
    EqualsIgnoreCaseUpper(f.DisplayName());
    assert |Upper(f.DisplayName())| == |f.DisplayName()|;
    assert Upper(f.DisplayName())[0] == f.DisplayName()[0];
    OnlyMatchParses(f, f.DisplayName());
    OnlyMatchParses(f, f.Name());
    OnlyMatchParses(f, Upper(f.DisplayName()));
  }

  /**
   * A text with the length of `f`'s display name and its first letter in
   * any case matches `f` and no other format, once it matches `f` at all.
   */
  lemma OnlyMatchParses(f: DebateFormat, raw: string)
    requires FormatMatches(f, Some(raw))
    requires raw != [] && LowerChar(raw[0]) == LowerChar(f.DisplayName()[0])
    requires |raw| == |f.DisplayName()| || |raw| == |f.Name()|
    ensures FormatFromRaw(Some(raw)) == f
  {
    assert forall g: DebateFormat :: g != f ==> !FormatMatches(g, Some(raw));
  }

  lemma AllFormatsListsEvery(f: DebateFormat)
    ensures f in AllFormats
  {
    match f
    case Wsdc => assert AllFormats[0] == f;
    case ModifiedWsdc => assert AllFormats[1] == f;
    case Bp => assert AllFormats[2] == f;
    case Ap => assert AllFormats[3] == f;
    case Australs => assert AllFormats[4] == f;
  }

  datatype StudentLevel = Primary | Secondary
  {
    /** The Kotlin enum constant's `name`. */
    function Name(): string
    {
      match this
      case Primary => "PRIMARY"
      case Secondary => "SECONDARY"
    }

    /** Kotlin `displayName` and Swift `displayName`. */
    function DisplayName(): string
    {
      match this
      case Primary => "Primary"
      case Secondary => "Secondary"
    }

    /** The Swift raw value. */
    function RawValue(): string
    {
      match this
      case Primary => "primary"
      case Secondary => "secondary"
    }
  }

  /** The constant's name in lower case is the Swift raw value. */
  lemma LowerNameIsRawValue(l: StudentLevel)
    ensures Lower(l.Name()) == l.RawValue()
  {
    var n := l.Name();
    assert forall i :: 0 <= i < |n| ==> LowerChar(n[i]) == l.RawValue()[i];
  }

  /** Kotlin `StudentLevel.fromRaw`: the constant whose name matches ignoring case, else SECONDARY. */
  function LevelFromRaw(raw: Option<string>): (r: StudentLevel)
    ensures r == Primary <==> raw.Some? && EqualsIgnoreCase(Primary.Name(), raw.value)
  {
    if raw.Some? && EqualsIgnoreCase(Primary.Name(), raw.value) then Primary
    else if raw.Some? && EqualsIgnoreCase(Secondary.Name(), raw.value) then Secondary
    else Secondary
  }

  /** Names and raw values of every level parse back to it. */
  lemma LevelFromRawRoundTrip(l: StudentLevel)
    ensures LevelFromRaw(Some(l.Name())) == l
    ensures LevelFromRaw(Some(l.RawValue())) == l
    ensures LevelFromRaw(Some(l.DisplayName())) == l
  {
    if l == Primary {
      assert EqualsIgnoreCase("PRIMARY", "Primary") by { assert forall i :: 1 <= i < 7 ==> LowerChar("Primary"[i]) == "Primary"[i]; }
      assert EqualsIgnoreCase("PRIMARY", "primary");
    }
  }
}
