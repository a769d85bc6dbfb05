/**
 * The source-compliance check of the debate engine: it counts the URLs in a
 * debater's reply with the global, case-insensitive pattern
 * `https?://` followed by one or more characters that are neither white space
 * nor one of  < > " { } | \ ^ ` [ ]  and grades the reply by that count.
 */
module SourceCompliance {
  import opened Strings
  import opened Optional

  /** The minimum number of URLs for a compliant reply. */
  const MinimumSources: nat := 3

  /** A character the URL pattern's `[^\s<>"{}|\\^`\[\]]` class accepts. */
  const NonUrlChars: set<char> := {'<', '>', '"', '{', '}', '|', '\\', '^', '`', '[', ']'}

  predicate IsUrlChar(c: char) {
    !IsSpace(c) && c !in NonUrlChars
  }

  /** `c` is the ASCII letter given in both of its cases. */
  predicate IsLetterAnyCase(c: char, lower: char, upper: char) {
    c == lower || c == upper
  }

  /** `http`, in any letter case, at `i`. */
  predicate HttpAt(s: string, i: nat) {
    && i + 4 <= |s|
    && IsLetterAnyCase(s[i], 'h', 'H') && IsLetterAnyCase(s[i + 1], 't', 'T')
    && IsLetterAnyCase(s[i + 2], 't', 'T') && IsLetterAnyCase(s[i + 3], 'p', 'P')
  }

  predicate ColonSlashSlashAt(s: string, i: nat) {
    i + 3 <= |s| && s[i] == ':' && s[i + 1] == '/' && s[i + 2] == '/'
  }

  /** Length of an `https://` (8) or `http://` (7) scheme, in any letter case, at `i`; 0 if none. */
  function SchemeLength(s: string, i: nat): (k: nat)
    requires i <= |s|
    ensures k == 0 || k == 7 || k == 8
    ensures i + k <= |s|
  {
    if HttpAt(s, i) && i + 5 <= |s| && IsLetterAnyCase(s[i + 4], 's', 'S') && ColonSlashSlashAt(s, i + 5) then 8
    else if HttpAt(s, i) && ColonSlashSlashAt(s, i + 4) then 7
    else 0
  }

  /** The pattern matches at `i`: a scheme followed by at least one URL character. */
  predicate UrlStartsAt(s: string, i: nat) {
    i < |s| && SchemeLength(s, i) > 0 && i + SchemeLength(s, i) < |s| && IsUrlChar(s[i + SchemeLength(s, i)])
  }

  /** The end of the run of URL characters that begins at `j` (the greedy `+`). */
  function RunEnd(s: string, j: nat): (e: nat)
    requires j <= |s|
    ensures j <= e <= |s|
    ensures e == |s| || !IsUrlChar(s[e])
    decreases |s| - j
  {
    if j < |s| && IsUrlChar(s[j]) then RunEnd(s, j + 1) else j
  }

  /** Every character of the run is one the pattern's character class accepts. */
  lemma {:induction false} RunEndAllUrlChars(s: string, j: nat)
    requires j <= |s|
    ensures forall m :: j <= m < RunEnd(s, j) ==> IsUrlChar(s[m])
    decreases |s| - j
  {
    if j < |s| && IsUrlChar(s[j]) {
      RunEndAllUrlChars(s, j + 1);
    }
  }

  /** Where the match that starts at `i` ends. */
  function MatchEnd(s: string, i: nat): (e: nat)
    requires UrlStartsAt(s, i)
    ensures i + SchemeLength(s, i) < e <= |s|
  {
    RunEnd(s, i + SchemeLength(s, i))
  }

  /** A match, as the half-open range of indices it covers. */
  datatype Span = Span(start: nat, end: nat)

  predicate Covered(spans: seq<Span>, p: nat) {
    exists k :: 0 <= k < |spans| && spans[k].start <= p < spans[k].end
  }

  /** Where the match that starts at each index of `s` ends; nothing where the pattern does not start. */
  function UrlHits(s: string): (h: seq<Option<nat>>)
    ensures |h| == |s|
    ensures forall i :: 0 <= i < |s| ==> h[i] == if UrlStartsAt(s, i) then Some(MatchEnd(s, i)) else None
  {
    seq(|s|, i requires 0 <= i < |s| => if UrlStartsAt(s, i) then Some(MatchEnd(s, i)) else None)
  }

  /** Every hit ends after its start and within the text. */
  predicate SpanHits(h: seq<Option<nat>>) {
    forall i :: 0 <= i < |h| && h[i].Some? ==> i < h[i].value <= |h|
  }

  /**
   * The scan of a global regular expression over the hits from index `from`:
   * a hit is a match, and the scan resumes where that match ends.
   */
  function SpanScan(h: seq<Option<nat>>, from: nat): (r: seq<Span>)
    requires from <= |h| && SpanHits(h)
    ensures forall k :: 0 <= k < |r| ==> from <= r[k].start < |h| && h[r[k].start] == Some(r[k].end)
    ensures forall k, l :: 0 <= k < l < |r| ==> r[k].end <= r[l].start
    decreases |h| - from
  {
    if from == |h| then []
    else
      match h[from]
      case Some(e) => [Span(from, e)] + SpanScan(h, e)
      case None => SpanScan(h, from + 1)
  }

  /** The index of the match the scan from `from` finds that covers `p`, an index with a hit. */
  lemma {:induction false} SpanScanCovers(h: seq<Option<nat>>, from: nat, p: nat) returns (k: nat)
    requires SpanHits(h) && from <= p < |h| && h[p].Some?
    ensures k < |SpanScan(h, from)| && SpanScan(h, from)[k].start <= p < SpanScan(h, from)[k].end
    decreases |h| - from
  {
    match h[from]
    case Some(e) =>
      if p < e {
        k := 0;
      } else {
        var k' := SpanScanCovers(h, e, p);
        k := k' + 1;
      }
    case None =>
      k := SpanScanCovers(h, from + 1, p);
  }

  lemma UrlHitsSpan(s: string)
    ensures SpanHits(UrlHits(s))
  {
  }

  /**
   * The matches of the global pattern from index `from` on, left to right:
   * every span is a greedy match at its start and the spans follow each other
   * without overlap. `UrlMatchesMissNoStart` adds that no place where the
   * pattern could start is skipped, which makes the result unique.
   */
  function UrlMatches(s: string, from: nat): (r: seq<Span>)
    requires from <= |s|
    ensures forall k :: 0 <= k < |r| ==>
      && from <= r[k].start && UrlStartsAt(s, r[k].start) && r[k].end == MatchEnd(s, r[k].start)
    ensures forall k, l :: 0 <= k < l < |r| ==> r[k].end <= r[l].start
  {
    UrlHitsSpan(s);
    SpanScan(UrlHits(s), from)
  }

  lemma UrlMatchesPastNonStart(s: string, i: nat)
    requires i < |s| && !UrlStartsAt(s, i)
    ensures UrlMatches(s, i) == UrlMatches(s, i + 1)
  {
    UrlHitsSpan(s);
    assert UrlHits(s)[i].None?;
  }

  /** The index of the match found from `from` that covers `p`, a place where the pattern could start. */
  lemma CoveringMatch(s: string, from: nat, p: nat) returns (k: nat)
    requires from <= p < |s| && UrlStartsAt(s, p)
    ensures k < |UrlMatches(s, from)|
    ensures UrlMatches(s, from)[k].start <= p < UrlMatches(s, from)[k].end
  {
    UrlHitsSpan(s);
    k := SpanScanCovers(UrlHits(s), from, p);
  }

  /** Every index at which the pattern could match lies inside one of the matches found. */
  lemma UrlMatchesMissNoStart(s: string, from: nat)
    requires from <= |s|
    ensures forall p :: from <= p < |s| && UrlStartsAt(s, p) ==> Covered(UrlMatches(s, from), p)
  {
    forall p | from <= p < |s| && UrlStartsAt(s, p) ensures Covered(UrlMatches(s, from), p) {
      var k := CoveringMatch(s, from, p);
    }
  }

  /** `countUrlsInContent`: how many times the URL pattern matches. */
  function CountUrls(content: string): (n: nat)
    ensures n == 0 <==> forall p :: 0 <= p < |content| ==> !UrlStartsAt(content, p)
  {
    var r := UrlMatches(content, 0);
    UrlMatchesMissNoStart(content, 0);
    assert r != [] ==> UrlStartsAt(content, r[0].start);
    |r|
  }

  /** The result of `checkSourceCompliance`. */
  datatype Compliance = Compliance(compliant: bool, urlCount: nat, warning: Option<string>)

  /**
   * `checkSourceCompliance`: no URL gives the warning 无URL来源, one or two give
   * 仅N个来源, three or more are compliant and carry no warning.
   */
  function CheckSourceCompliance(content: string): (r: Compliance)
    ensures r.urlCount == CountUrls(content)
    ensures r.compliant <==> r.urlCount >= MinimumSources
    ensures r.warning.None? <==> r.compliant
    ensures r.urlCount == 0 ==> r.warning == Some("无URL来源")
    ensures 0 < r.urlCount < MinimumSources ==> r.warning == Some("仅" + ShowNat(r.urlCount) + "个来源")
  {
    var n := CountUrls(content);
    if n == 0 then Compliance(false, 0, Some("无URL来源"))
    else if n < MinimumSources then Compliance(false, n, Some("仅" + ShowNat(n) + "个来源"))
    else Compliance(true, n, None)
  }

  // ---------------------------------------------------------------------
  // Counting is additive over text joined by a space
  // ---------------------------------------------------------------------

  /** `s` holds `t` from index `o` to its end. */
  predicate EndsWithAt(s: string, o: nat, t: string) {
    |s| == o + |t| && forall m :: 0 <= m < |t| ==> s[o + m] == t[m]
  }

  /** `s` begins with `a` followed by a space. */
  predicate BeginsWithThenSpace(s: string, a: string) {
    |a| < |s| && s[|a|] == ' ' && forall m :: 0 <= m < |a| ==> s[m] == a[m]
  }

  lemma RightPartScheme(s: string, o: nat, b: string, j: nat)
    requires EndsWithAt(s, o, b) && j <= |b|
    ensures SchemeLength(s, o + j) == SchemeLength(b, j)
  {
  }

  /** No scheme read inside the left part reaches over the space. */
  lemma LeftPartScheme(s: string, a: string, p: nat)
    requires BeginsWithThenSpace(s, a) && p <= |a|
    ensures SchemeLength(s, p) == SchemeLength(a, p)
  {
  }

  /** Inside the right part, the pattern starts and its runs end where they do in the part alone. */
  lemma {:induction false} RightPartMatchesAlike(s: string, o: nat, b: string, j: nat)
    requires EndsWithAt(s, o, b) && j <= |b|
    ensures UrlStartsAt(s, o + j) == UrlStartsAt(b, j)
    ensures RunEnd(s, o + j) == o + RunEnd(b, j)
    decreases |b| - j
  {
    RightPartScheme(s, o, b, j);
    if j < |b| {
      RightPartMatchesAlike(s, o, b, j + 1);
    }
  }

  /** Inside the left part, the pattern starts and its runs end where they do in the part alone. */
  lemma {:induction false} LeftPartMatchesAlike(s: string, a: string, p: nat)
    requires BeginsWithThenSpace(s, a) && p <= |a|
    ensures UrlStartsAt(s, p) == UrlStartsAt(a, p)
    ensures RunEnd(s, p) == RunEnd(a, p)
    decreases |a| - p
  {
    LeftPartScheme(s, a, p);
    if p < |a| {
      LeftPartMatchesAlike(s, a, p + 1);
    }
  }

  /** Where the scan continues after looking at index `i`. */
  function NextFrom(s: string, i: nat): (n: nat)
    requires i < |s|
    ensures i < n <= |s|
  {
    if UrlStartsAt(s, i) then MatchEnd(s, i) else i + 1
  }

  lemma UrlMatchesStep(s: string, i: nat)
    requires i < |s|
    ensures |UrlMatches(s, i)| == (if UrlStartsAt(s, i) then 1 else 0) + |UrlMatches(s, NextFrom(s, i))|
  {
  }

  lemma RightPartStep(s: string, o: nat, b: string, j: nat)
    requires EndsWithAt(s, o, b) && j < |b|
    ensures UrlStartsAt(s, o + j) == UrlStartsAt(b, j)
    ensures NextFrom(s, o + j) == o + NextFrom(b, j)
  {
    RightPartMatchesAlike(s, o, b, j);
    if UrlStartsAt(b, j) {
      RightPartScheme(s, o, b, j);
      RightPartMatchesAlike(s, o, b, j + SchemeLength(b, j));
    }
  }

  lemma LeftPartStep(s: string, a: string, p: nat)
    requires BeginsWithThenSpace(s, a) && p < |a|
    ensures UrlStartsAt(s, p) == UrlStartsAt(a, p)
    ensures NextFrom(s, p) == NextFrom(a, p)
  {
    LeftPartMatchesAlike(s, a, p);
    if UrlStartsAt(a, p) {
      LeftPartScheme(s, a, p);
      LeftPartMatchesAlike(s, a, p + SchemeLength(a, p));
    }
  }

  lemma {:induction false} RightPartCount(s: string, o: nat, b: string, j: nat)
    requires EndsWithAt(s, o, b) && j <= |b|
    ensures |UrlMatches(s, o + j)| == |UrlMatches(b, j)|
    decreases |b| - j
  {
    if j < |b| {
      RightPartCount(s, o, b, NextFrom(b, j));
      RightPartCountStep(s, o, b, j);
    }
  }

  lemma RightPartCountStep(s: string, o: nat, b: string, j: nat)
    requires EndsWithAt(s, o, b) && j < |b|
    requires |UrlMatches(s, o + NextFrom(b, j))| == |UrlMatches(b, NextFrom(b, j))|
    ensures |UrlMatches(s, o + j)| == |UrlMatches(b, j)|
  {
    RightPartStep(s, o, b, j);
    UrlMatchesStep(s, o + j);
    UrlMatchesStep(b, j);
  }

  lemma {:induction false} LeftPartCount(s: string, a: string, b: string, p: nat)
    requires BeginsWithThenSpace(s, a) && EndsWithAt(s, |a| + 1, b) && p <= |a|
    ensures |UrlMatches(s, p)| == |UrlMatches(a, p)| + |UrlMatches(b, 0)|
    decreases |a| - p
  {
    if p == |a| {
      LeftPartMatchesAlike(s, a, p);
      UrlMatchesPastNonStart(s, p);
      RightPartCount(s, |a| + 1, b, 0);
    } else {
      LeftPartStep(s, a, p);
      UrlMatchesStep(s, p);
      UrlMatchesStep(a, p);
      LeftPartCount(s, a, b, NextFrom(a, p));
    }
  }

  /** URLs in two texts joined by a space are counted separately: none spans the space. */
  lemma CountUrlsJoined(a: string, b: string)
    ensures CountUrls(a + " " + b) == CountUrls(a) + CountUrls(b)
  {
    var s := a + " " + b;
    assert BeginsWithThenSpace(s, a);
    assert EndsWithAt(s, |a| + 1, b);
    LeftPartCount(s, a, b, 0);
  }
}
