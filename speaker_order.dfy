/**
 * The speaking order derived from a team composition: Kotlin
 * `TeamComposition.speakerOrder` and Swift `TeamComposition.getSpeakerOrder`,
 * which build the same list with the same loops.
 */
module SpeakerOrder {
  import opened Wrappers
  import opened Text
  import opened Formats
  import opened Models

  /** Kotlin `SpeakerSlot`, Swift `(studentId, position)`. */
  datatype SpeakerSlot = SpeakerSlot(studentId: string, position: string)

  /** The position label "<prefix> <k>" for the k-th (1-based) member of a team. */
  function Label(prefix: string, k: nat): string
  {
    prefix + " " + NatToString(k)
  }

  /** `orEmpty()` / `?? []`. */
  function OrEmpty(xs: Option<seq<string>>): (r: seq<string>)
    ensures xs.Some? ==> r == xs.value
    ensures xs.None? ==> r == []
  {
    if xs.Some? then xs.value else []
  }

  function Min(a: int, b: int): int { if a <= b then a else b }
  function Max(a: int, b: int): int { if a >= b then a else b }

  /** One team's slots in list order, labelled 1, 2, ... */
  function Labelled(xs: seq<string>, prefix: string): (r: seq<SpeakerSlot>)
    ensures |r| == |xs|
    ensures forall i :: 0 <= i < |xs| ==> r[i] == SpeakerSlot(xs[i], Label(prefix, i + 1))
  {
    if xs == [] then []
    else Labelled(xs[..|xs| - 1], prefix) + [SpeakerSlot(xs[|xs| - 1], Label(prefix, |xs|))]
  }

  /** The first `n` rounds of alternation: round i adds a[i] (if any) then b[i] (if any). */
  function Interleave(a: seq<string>, b: seq<string>, la: string, lb: string, n: nat): seq<SpeakerSlot>
  {
    if n == 0 then []
    else
      var i := n - 1;
      Interleave(a, b, la, lb, i)
        + (if i < |a| then [SpeakerSlot(a[i], Label(la, i + 1))] else [])
        + (if i < |b| then [SpeakerSlot(b[i], Label(lb, i + 1))] else [])
  }

  /** The order each format produces. */
  function SpeakerOrderSpec(comp: TeamComposition, format: DebateFormat): seq<SpeakerSlot>
  {
    var a := OrEmpty(comp.prop);
    var b := OrEmpty(comp.opp);
    match format
    case Bp =>
      Labelled(OrEmpty(comp.og), "OG") + Labelled(OrEmpty(comp.oo), "OO")
        + Labelled(OrEmpty(comp.cg), "CG") + Labelled(OrEmpty(comp.co), "CO")
    case Ap => Interleave(a, b, "Gov", "Opp", Max(|a|, |b|))
    case _ => Interleave(a, b, "Prop", "Opp", Max(|a|, |b|))
  }

  /** Appends one team's labelled slots, as the `forEachIndexed` / `enumerated()` loops do. */
  method AppendTeam(acc: seq<SpeakerSlot>, xs: seq<string>, prefix: string) returns (r: seq<SpeakerSlot>)
    ensures r == acc + Labelled(xs, prefix)
  {
    r := acc;
    for i := 0 to |xs|
      invariant r == acc + Labelled(xs[..i], prefix)
    {
      assert xs[..i + 1][..i] == xs[..i];
      r := r + [SpeakerSlot(xs[i], Label(prefix, i + 1))];
    }
    assert xs[..|xs|] == xs;
  }

  /** `speakerOrder(format)` / `getSpeakerOrder(format:)`. */
  method BuildSpeakerOrder(comp: TeamComposition, format: DebateFormat) returns (slots: seq<SpeakerSlot>)
    ensures slots == SpeakerOrderSpec(comp, format)
  {
    if format == Bp {
      slots := AppendTeam([], OrEmpty(comp.og), "OG");
      slots := AppendTeam(slots, OrEmpty(comp.oo), "OO");
      slots := AppendTeam(slots, OrEmpty(comp.cg), "CG");
      slots := AppendTeam(slots, OrEmpty(comp.co), "CO");
    } else {
      slots := Alternate(OrEmpty(comp.prop), OrEmpty(comp.opp), if format == Ap then "Gov" else "Prop");
    }
  }

  /** The two-team loop: round i appends a[i] then b[i], for as many rounds as the longer team. */
  method Alternate(a: seq<string>, b: seq<string>, first: string) returns (slots: seq<SpeakerSlot>)
    ensures slots == Interleave(a, b, first, "Opp", Max(|a|, |b|))
  {
    var max := if |a| >= |b| then |a| else |b|;
    slots := [];
    for i := 0 to max
      invariant slots == Interleave(a, b, first, "Opp", i)
    {
      if i < |a| {
        slots := slots + [SpeakerSlot(a[i], Label(first, i + 1))];
      }
      if i < |b| {
        slots := slots + [SpeakerSlot(b[i], Label("Opp", i + 1))];
      }
    }
  }

  lemma {:induction false} InterleaveLength(a: seq<string>, b: seq<string>, la: string, lb: string, n: nat)
    ensures |Interleave(a, b, la, lb, n)| == Min(n, |a|) + Min(n, |b|)
  {
    if n > 0 {
      InterleaveLength(a, b, la, lb, n - 1);
    }
  }

  lemma {:induction false} InterleavePrefix(a: seq<string>, b: seq<string>, la: string, lb: string, m: nat, n: nat)
    requires m <= n
    ensures Interleave(a, b, la, lb, m) <= Interleave(a, b, la, lb, n)
    decreases n - m
  {
    if m < n {
      InterleavePrefix(a, b, la, lb, m, n - 1);
    }
  }

  /**
   * Alternation: while both teams have speakers, slot 2i is the i-th of the
   * first team and slot 2i+1 the i-th of the second; afterwards the longer
   * team's surplus follows in order. The length is the total team size.
   */
  lemma InterleaveShape(a: seq<string>, b: seq<string>, la: string, lb: string)
    ensures var out := Interleave(a, b, la, lb, Max(|a|, |b|));
      && |out| == |a| + |b|
      && (forall i :: 0 <= i < Min(|a|, |b|) ==>
            out[2 * i] == SpeakerSlot(a[i], Label(la, i + 1)) && out[2 * i + 1] == SpeakerSlot(b[i], Label(lb, i + 1)))
      && (forall j :: |b| <= j < |a| ==> out[|b| + j] == SpeakerSlot(a[j], Label(la, j + 1)))
      && (forall j :: |a| <= j < |b| ==> out[|a| + j] == SpeakerSlot(b[j], Label(lb, j + 1)))
  {
    var n := Max(|a|, |b|);
    var out := Interleave(a, b, la, lb, n);
    InterleaveLength(a, b, la, lb, n);
    forall i | 0 <= i < Min(|a|, |b|)
      ensures out[2 * i] == SpeakerSlot(a[i], Label(la, i + 1)) && out[2 * i + 1] == SpeakerSlot(b[i], Label(lb, i + 1))
    {
      InterleaveRound(a, b, la, lb, i);
    }
    forall j | |b| <= j < |a|
      ensures out[|b| + j] == SpeakerSlot(a[j], Label(la, j + 1))
    {
      InterleaveRound(a, b, la, lb, j);
    }
    forall j | |a| <= j < |b|
      ensures out[|a| + j] == SpeakerSlot(b[j], Label(lb, j + 1))
    {
      InterleaveRound(a, b, la, lb, j);
    }
  }

  /** Round i of the full alternation starts after the rounds before it and holds a[i] then b[i], where present. */
  lemma InterleaveRound(a: seq<string>, b: seq<string>, la: string, lb: string, i: nat)
    requires i < Max(|a|, |b|)
    ensures var out := Interleave(a, b, la, lb, Max(|a|, |b|)); var k := Min(i, |a|) + Min(i, |b|);
      && (i < |a| ==> k < |out| && out[k] == SpeakerSlot(a[i], Label(la, i + 1)))
      && (i < |b| ==> var k' := if i < |a| then k + 1 else k; k' < |out| && out[k'] == SpeakerSlot(b[i], Label(lb, i + 1)))
  {
    var n := Max(|a|, |b|);
    InterleaveLength(a, b, la, lb, i);
    InterleaveLength(a, b, la, lb, i + 1);
    InterleavePrefix(a, b, la, lb, i + 1, n);
    var pre := Interleave(a, b, la, lb, i);
    var round := Interleave(a, b, la, lb, i + 1);
    assert round == pre + (if i < |a| then [SpeakerSlot(a[i], Label(la, i + 1))] else [])
                        + (if i < |b| then [SpeakerSlot(b[i], Label(lb, i + 1))] else []);
  }

  /** The student ids of the slots, in order. */
  function Ids(slots: seq<SpeakerSlot>): (r: seq<string>)
    ensures |r| == |slots| && forall i :: 0 <= i < |slots| ==> r[i] == slots[i].studentId
  {
    seq(|slots|, i requires 0 <= i < |slots| => slots[i].studentId)
  }

  lemma IdsAppend(s: seq<SpeakerSlot>, t: seq<SpeakerSlot>)
    ensures Ids(s + t) == Ids(s) + Ids(t)
  {
  }

  /** The ids a team contributes in the round that ends after `n` rounds. */
  function RoundIds(xs: seq<string>, i: nat): seq<string>
  {
    if i < |xs| then [xs[i]] else []
  }

  lemma SliceStep(xs: seq<string>, i: nat)
    ensures xs[..Min(i + 1, |xs|)] == xs[..Min(i, |xs|)] + RoundIds(xs, i)
  {
  }

  /** Appending one round to each side keeps the multiset accounting balanced. */
  lemma MultisetStep(p: seq<string>, xa: seq<string>, xb: seq<string>, ra: seq<string>, rb: seq<string>)
    requires multiset(p) == multiset(xa) + multiset(xb)
    ensures multiset(p + ra + rb) == multiset(xa + ra) + multiset(xb + rb)
  {
    calc {
      multiset(p + ra + rb);
      multiset(p + ra) + multiset(rb);
      multiset(p) + multiset(ra) + multiset(rb);
      multiset(xa) + multiset(xb) + multiset(ra) + multiset(rb);
      multiset(xa + ra) + multiset(xb + rb);
    }
  }

  /** The ids of one round: the first team's speaker (if any), then the second's. */
  lemma RoundStep(a: seq<string>, b: seq<string>, la: string, lb: string, i: nat)
    ensures Ids(Interleave(a, b, la, lb, i + 1)) == Ids(Interleave(a, b, la, lb, i)) + RoundIds(a, i) + RoundIds(b, i)
  {
    var prev := Interleave(a, b, la, lb, i);
    var pa := if i < |a| then [SpeakerSlot(a[i], Label(la, i + 1))] else [];
    var pb := if i < |b| then [SpeakerSlot(b[i], Label(lb, i + 1))] else [];
    assert Interleave(a, b, la, lb, i + 1) == prev + pa + pb;
    IdsAppend(prev, pa);
    IdsAppend(prev + pa, pb);
    assert Ids(pa) == RoundIds(a, i);
    assert Ids(pb) == RoundIds(b, i);
  }

  lemma {:induction false} InterleaveIds(a: seq<string>, b: seq<string>, la: string, lb: string, n: nat)
    ensures multiset(Ids(Interleave(a, b, la, lb, n))) == multiset(a[..Min(n, |a|)]) + multiset(b[..Min(n, |b|)])
  {
    if n > 0 {
      var i := n - 1;
      InterleaveIds(a, b, la, lb, i);
      RoundStep(a, b, la, lb, i);
      SliceStep(a, i);
      SliceStep(b, i);
      MultisetStep(Ids(Interleave(a, b, la, lb, i)), a[..Min(i, |a|)], b[..Min(i, |b|)], RoundIds(a, i), RoundIds(b, i));
    }
  }

  /** Every assigned student speaks exactly as often as they are listed, and nobody else speaks. */
  lemma SpeakerOrderIds(comp: TeamComposition, format: DebateFormat)
    ensures format != Bp ==> multiset(Ids(SpeakerOrderSpec(comp, format))) == multiset(OrEmpty(comp.prop)) + multiset(OrEmpty(comp.opp))
    ensures format == Bp ==> Ids(SpeakerOrderSpec(comp, format)) == OrEmpty(comp.og) + OrEmpty(comp.oo) + OrEmpty(comp.cg) + OrEmpty(comp.co)
  {
    var a := OrEmpty(comp.prop);
    var b := OrEmpty(comp.opp);
    if format == Bp {
      var og := Labelled(OrEmpty(comp.og), "OG");
      var oo := Labelled(OrEmpty(comp.oo), "OO");
      var cg := Labelled(OrEmpty(comp.cg), "CG");
      var co := Labelled(OrEmpty(comp.co), "CO");
      IdsAppend(og, oo);
      IdsAppend(og + oo, cg);
      IdsAppend(og + oo + cg, co);
      assert Ids(og) == OrEmpty(comp.og);
      assert Ids(oo) == OrEmpty(comp.oo);
      assert Ids(cg) == OrEmpty(comp.cg);
      assert Ids(co) == OrEmpty(comp.co);
    } else {
      var la := if format == Ap then "Gov" else "Prop";
      InterleaveIds(a, b, la, "Opp", Max(|a|, |b|));
      assert a[..Min(Max(|a|, |b|), |a|)] == a;
      assert b[..Min(Max(|a|, |b|), |b|)] == b;
    }
  }

  /** BP reads only og/oo/cg/co; the other formats read only prop/opp. */
  lemma SpeakerOrderReadsOwnTeams(comp: TeamComposition, other: TeamComposition, format: DebateFormat)
    ensures format == Bp && comp.og == other.og && comp.oo == other.oo && comp.cg == other.cg && comp.co == other.co
      ==> SpeakerOrderSpec(comp, format) == SpeakerOrderSpec(other, format)
    ensures format != Bp && comp.prop == other.prop && comp.opp == other.opp
      ==> SpeakerOrderSpec(comp, format) == SpeakerOrderSpec(other, format)
  {
  }
}
