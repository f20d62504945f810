/** The deterministic file summary: the longest prefix that fits, a marker, a footer. */
module Summaries {
  import opened Common

  const SUMMARY_MAX_BYTES: nat := 4096
  /** The marker of a cut and the footer every summary ends with. */
  datatype Trim = Trim(marker: string, footer: string)

  const FOOTER := "\nadvisory structural summary \U{2014} not authoritative source; read exact before editing."
  const MARKER := "\n\U{2026} [summary truncated]"
  const REPLACEMENT: char := '\U{fffd}'

  function Utf16(c: char): (n: nat)
    ensures 1 <= n <= 2
  {
    if c as int < 0x10000 then 1 else 2
  }

  function Utf16Len(s: string): nat {
    if s == "" then 0 else Utf16(s[0]) + Utf16Len(s[1..])
  }

  /** Bytes of the prefix of `units` UTF-16 units; half an astral character counts as
      the replacement character. */
  function PrefixBytes(s: string, units: nat): nat {
    if s == "" then 0
    else if Utf16(s[0]) > units then (if units == 1 then 3 else 0)
    else Utf8(s[0]) + PrefixBytes(s[1..], units - Utf16(s[0]))
  }

  function PrefixLossy(s: string, units: nat): string {
    if s == "" then ""
    else if Utf16(s[0]) > units then (if units == 1 then [REPLACEMENT] else "")
    else [s[0]] + PrefixLossy(s[1..], units - Utf16(s[0]))
  }

  lemma {:induction false} PrefixLossyBytes(s: string, units: nat)
    ensures Utf8Len(PrefixLossy(s, units)) == PrefixBytes(s, units)
  {
    if s == "" {
    } else if Utf16(s[0]) > units {
      assert [REPLACEMENT][1..] == "";
    } else {
      PrefixLossyBytes(s[1..], units - Utf16(s[0]));
      assert ([s[0]] + PrefixLossy(s[1..], units - Utf16(s[0])))[1..] == PrefixLossy(s[1..], units - Utf16(s[0]));
    }
  }

  /** A longer prefix never has fewer bytes, even across a split surrogate pair. */
  lemma {:induction false} PrefixBytesMonotone(s: string, a: nat, b: nat)
    requires a <= b
    ensures PrefixBytes(s, a) <= PrefixBytes(s, b)
  {
    if s != "" && Utf16(s[0]) <= a {
      PrefixBytesMonotone(s[1..], a - Utf16(s[0]), b - Utf16(s[0]));
    }
  }

  lemma {:induction false} WholePrefix(s: string, units: nat)
    requires units >= Utf16Len(s)
    ensures PrefixBytes(s, units) == Utf8Len(s)
  {
    if s != "" {
      WholePrefix(s[1..], units - Utf16(s[0]));
    }
  }

  lemma {:induction false} Utf8Concat(a: string, b: string)
    ensures Utf8Len(a + b) == Utf8Len(a) + Utf8Len(b)
  {
    if a == "" {
      assert a + b == b;
    } else {
      Utf8Concat(a[1..], b);
      assert (a + b)[1..] == a[1..] + b;
    }
  }

  /** The source's own marker and footer leave room for a body. */
  predicate Roomy(f: Trim) {
    Utf8Len(f.marker) + Utf8Len(f.footer) <= SUMMARY_MAX_BYTES
  }

  lemma OwnTrimIsRoomy()
    ensures Roomy(Trim(MARKER, FOOTER))
  {
    Utf8AtMost(MARKER);
    Utf8AtMost(FOOTER);
    assert |FOOTER| < 200 && |MARKER| < 100;
  }

  predicate Fits(f: Trim, body: string, units: nat) {
    PrefixBytes(body, units) + Utf8Len(f.marker) + Utf8Len(f.footer) <= SUMMARY_MAX_BYTES
  }

  predicate Whole(f: Trim, body: string) {
    Utf8Len(body) + Utf8Len(f.footer) <= SUMMARY_MAX_BYTES
  }

  /** The text rendered when the prefix of `units` units is kept. */
  function Cut(f: Trim, body: string, units: nat): string {
    PrefixLossy(body, units) + f.marker + f.footer
  }

  /** `k` is where the binary search must stop: the longest prefix that fits. */
  ghost predicate Greatest(f: Trim, body: string, k: nat) {
    && k <= Utf16Len(body)
    && Fits(f, body, k)
    && forall j :: k < j <= Utf16Len(body) ==> !Fits(f, body, j)
  }

  // ---- what a summary is ----

  /** What is kept of a body: its first characters, and half of the next one or not. */
  datatype Kept = Kept(chars: nat, half: bool)

  /** Only a character of two UTF-16 units has a half. */
  predicate ValidKept(body: string, k: Kept) {
    k.chars <= |body| && (k.half ==> k.chars < |body| && Utf16(body[k.chars]) == 2)
  }

  function Units(body: string, k: Kept): nat
    requires ValidKept(body, k)
  {
    Utf16Len(body[..k.chars]) + if k.half then 1 else 0
  }

  /** The kept characters in order; a half stands as the replacement character. */
  function KeptText(body: string, k: Kept): string
    requires ValidKept(body, k)
  {
    body[..k.chars] + if k.half then [REPLACEMENT] else ""
  }

  predicate KeptFits(f: Trim, body: string, k: Kept)
    requires ValidKept(body, k)
  {
    Utf8Len(KeptText(body, k)) + Utf8Len(f.marker) + Utf8Len(f.footer) <= SUMMARY_MAX_BYTES
  }

  /** The most that can be kept beside marker and footer, by UTF-16 units. */
  ghost predicate Longest(f: Trim, body: string, k: Kept) {
    && ValidKept(body, k) && KeptFits(f, body, k)
    && forall m :: ValidKept(body, m) && KeptFits(f, body, m) ==> Units(body, m) <= Units(body, k)
  }

  /** What the summary of a body is: all of it if it fits, or else the longest beginning
      that does, the marker and the footer. */
  ghost predicate IsSummary(f: Trim, body: string, text: string) {
    if Utf8Len(body + f.footer) <= 4096 then text == body + f.footer
    else exists k :: Longest(f, body, k) && text == KeptText(body, k) + f.marker + f.footer
  }

  /** What a prefix of so many units keeps. */
  function KeptAt(s: string, units: nat): Kept {
    if s == "" then Kept(0, false)
    else if Utf16(s[0]) > units then Kept(0, units == 1)
    else
      var rest := KeptAt(s[1..], units - Utf16(s[0]));
      Kept(1 + rest.chars, rest.half)
  }

  /** The prefix of `units` UTF-16 units is the beginning of the text that has exactly that
      many units, its characters in order. */
  lemma {:induction false} PrefixIsKept(s: string, units: nat)
    requires units <= Utf16Len(s)
    ensures var k := KeptAt(s, units);
            ValidKept(s, k) && Units(s, k) == units && PrefixLossy(s, units) == KeptText(s, k)
  {
    var k := KeptAt(s, units);
    if s == "" || Utf16(s[0]) > units {
      assert s[..0] == "";
    } else {
      PrefixIsKept(s[1..], units - Utf16(s[0]));
      assert s[..k.chars] == [s[0]] + s[1..][..k.chars - 1];
      assert s[..k.chars][1..] == s[1..][..k.chars - 1];
    }
  }

  lemma {:induction false} UnitsDetermine(s: string, k: Kept)
    requires ValidKept(s, k)
    ensures Units(s, k) <= Utf16Len(s) && KeptAt(s, Units(s, k)) == k
    decreases |s|
  {
    if k.chars == 0 {
      assert s[..0] == "";
    } else {
      var rest := Kept(k.chars - 1, k.half);
      assert s[..k.chars] == [s[0]] + s[1..][..k.chars - 1];
      assert s[..k.chars][1..] == s[1..][..k.chars - 1];
      UnitsDetermine(s[1..], rest);
      assert Units(s, k) == Utf16(s[0]) + Units(s[1..], rest);
    }
  }

  lemma FitsAsKept(f: Trim, body: string, k: Kept)
    requires ValidKept(body, k)
    ensures KeptFits(f, body, k) <==> Fits(f, body, Units(body, k))
  {
    UnitsDetermine(body, k);
    PrefixIsKept(body, Units(body, k));
    PrefixLossyBytes(body, Units(body, k));
  }

  /** Where the search stops is the longest that can be kept. */
  lemma GreatestIsLongest(f: Trim, body: string, units: nat)
    requires Greatest(f, body, units)
    ensures Longest(f, body, KeptAt(body, units))
    ensures Cut(f, body, units) == KeptText(body, KeptAt(body, units)) + f.marker + f.footer
  {
    var k := KeptAt(body, units);
    PrefixIsKept(body, units);
    FitsAsKept(f, body, k);
    hide Fits, KeptFits, Units, KeptText, KeptAt;
    forall m | ValidKept(body, m) && KeptFits(f, body, m) ensures Units(body, m) <= Units(body, k) {
      FitsAsKept(f, body, m);
      UnitsDetermine(body, m);
    }
  }

  /** A body that does not fit is cut strictly shorter than itself, and the result
      stays within the byte bound. */
  lemma CutIsBounded(f: Trim, body: string, k: nat)
    requires Greatest(f, body, k) && !Whole(f, body)
    ensures k < Utf16Len(body)
    ensures Utf8Len(Cut(f, body, k)) <= SUMMARY_MAX_BYTES
    ensures Utf8Len(PrefixLossy(body, k)) < Utf8Len(body)
  {
    WholePrefix(body, Utf16Len(body));
    PrefixLossyBytes(body, k);
    Utf8Concat(PrefixLossy(body, k) + f.marker, f.footer);
    Utf8Concat(PrefixLossy(body, k), f.marker);
  }

  lemma AllKept(body: string, k: Kept)
    requires ValidKept(body, k)
    ensures k.chars == |body| ==> KeptText(body, k) == body
  {
    assert body[..|body|] == body;
  }

  /** Every summary is within the bound; a body that does not fit is cut strictly
      shorter; and identical bodies have identical summaries. */
  lemma SummaryIsDetermined(f: Trim, body: string, a: string, b: string)
    requires IsSummary(f, body, a) && IsSummary(f, body, b)
    ensures a == b && Utf8Len(a) <= SUMMARY_MAX_BYTES
    ensures Utf8Len(body + f.footer) > 4096 ==> exists k :: Longest(f, body, k) && k.chars < |body|
  {
    Utf8Concat(body, f.footer);
    if !Whole(f, body) {
      var k :| Longest(f, body, k) && a == KeptText(body, k) + f.marker + f.footer;
      var m :| Longest(f, body, m) && b == KeptText(body, m) + f.marker + f.footer;
      assert Units(body, k) == Units(body, m);
      UnitsDetermine(body, k);
      UnitsDetermine(body, m);
      Utf8Concat(KeptText(body, k) + f.marker, f.footer);
      Utf8Concat(KeptText(body, k), f.marker);
      AllKept(body, k);
    }
  }

  /** `render_l1_summary`, from the decoded text on. */
  method RenderSummary(f: Trim, body: string) returns (text: string)
    requires Roomy(f)
    ensures IsSummary(f, body, text)
  {
    Utf8Concat(body, f.footer);
    if Whole(f, body) {
      return body + f.footer;
    }
    var low, high := 0, Utf16Len(body);
    assert PrefixBytes(body, 0) == 0;
    while low < high
      invariant 0 <= low <= high <= Utf16Len(body)
      invariant Fits(f, body, low)
      invariant forall j :: high < j <= Utf16Len(body) ==> !Fits(f, body, j)
    {
      var mid := CeilDiv(low + high, 2);
      if Fits(f, body, mid) {
        low := mid;
      } else {
        forall j | mid <= j <= Utf16Len(body) ensures !Fits(f, body, j) {
          PrefixBytesMonotone(body, mid, j);
        }
        high := mid - 1;
      }
    }
    assert Greatest(f, body, low);
    GreatestIsLongest(f, body, low);
    text := Cut(f, body, low);
  }
}
