/**
 * The reader of the judge's audit report (`parseVerdictResult`). The report
 * carries a block opened by a `===审计结果===` sentinel and closed by a run of
 * at least ten `=`; inside it, labelled fields in a Markdown-tolerant
 * `label：value` layout. The regular expressions of the reader are written
 * out here as scans: each field is read at the first occurrence of its label
 * from which its pattern succeeds, which is where the leftmost regex match
 * takes its capture.
 */
module VerdictParser {
  import opened Strings
  import opened Optional

  const MissingBlockError: string := "Missing audit block"

  const SkillWinnerLabel: string := "技巧胜方"
  const ProSkillLabel: string := "正方技巧分"
  const ConSkillLabel: string := "反方技巧分"
  const SkillCommentLabel: string := "技巧评语"
  const FactVerdictLabel: string := "事实倾向"
  const CredibilityLabel: string := "来源可信度"
  const ProWord: string := "正方"
  const ConWord: string := "反方"
  const JudgeEvidenceLabel: string := "裁判补充证据"
  const VerdictReasonLabel: string := "裁决理由"
  const CriticalRiskLabel: string := "致命风险"

  /** The values a report field keeps when the report does not give it. */
  const DefaultWinner: string := "平局"
  const DefaultFactVerdict: string := "证据不足"
  const DefaultRisk: string := "无"

  function Min(a: int, b: int): int {
    if a <= b then a else b
  }

  // ---------------------------------------------------------------------
  // Scanning primitives
  // ---------------------------------------------------------------------

  /** The number of consecutive copies of `c` in `s` from index `i`. */
  function RunLength(s: string, i: nat, c: char): (n: nat)
    requires i <= |s|
    ensures i + n <= |s|
    ensures i + n == |s| || s[i + n] != c
    decreases |s| - i
  {
    if i < |s| && s[i] == c then 1 + RunLength(s, i + 1, c) else 0
  }

  /** A run is pinned down by its characters and the one that stops it. */
  lemma RunLengthIs(s: string, i: nat, c: char, n: nat)
    requires i + n <= |s|
    requires forall k :: i <= k < i + n ==> s[k] == c
    requires i + n == |s| || s[i + n] != c
    ensures RunLength(s, i, c) == n
    decreases n
  {
    if n > 0 {
      RunLengthIs(s, i + 1, c, n - 1);
    }
  }

  /** The number of copies of `c` that end `s`. */
  function TrailingRun(s: string, c: char): (n: nat)
    ensures n <= |s|
    ensures forall k :: |s| - n <= k < |s| ==> s[k] == c
    ensures n == |s| || s[|s| - n - 1] != c
  {
    if s != [] && s[|s| - 1] == c then 1 + TrailingRun(s[..|s| - 1], c) else 0
  }

  /** The first index at or after `i` that is not white space (`\s*`, greedy), or the end. */
  function SkipSpace(s: string, i: nat): (j: nat)
    requires i <= |s|
    ensures i <= j <= |s|
    ensures forall k :: i <= k < j ==> IsSpace(s[k])
    ensures j == |s| || !IsSpace(s[j])
    decreases |s| - i
  {
    if i < |s| && IsSpace(s[i]) then SkipSpace(s, i + 1) else i
  }

  /** The first line terminator at or after `i`, or the end: where `.` stops and a multiline `$` matches. */
  function LineEnd(s: string, i: nat): (j: nat)
    requires i <= |s|
    ensures i <= j <= |s|
    ensures forall k :: i <= k < j ==> !IsLineTerminator(s[k])
    ensures j == |s| || IsLineTerminator(s[j])
    decreases |s| - i
  {
    if i < |s| && !IsLineTerminator(s[i]) then LineEnd(s, i + 1) else i
  }

  /** A line is pinned down by its characters and the terminator that ends it. */
  lemma LineEndIs(s: string, i: nat, j: nat)
    requires i <= j <= |s|
    requires forall k :: i <= k < j ==> !IsLineTerminator(s[k])
    requires j == |s| || IsLineTerminator(s[j])
    ensures LineEnd(s, i) == j
  {
  }

  /** The last index in `[i, j)` that is not a line terminator, or -1. */
  function LastNonTerminator(s: string, i: nat, j: nat): (y: int)
    requires i <= j <= |s|
    ensures y == -1 || (i <= y < j && !IsLineTerminator(s[y]))
    ensures forall k :: i <= k < j && y < k ==> IsLineTerminator(s[k])
    decreases j
  {
    if j == i then -1
    else if !IsLineTerminator(s[j - 1]) then j - 1
    else LastNonTerminator(s, i, j - 1)
  }

  /** The end of the run of ASCII digits that starts at `i` (`\d+`, greedy). */
  function DigitRunEnd(s: string, i: nat): (j: nat)
    requires i <= |s|
    ensures i <= j <= |s|
    ensures forall k :: i <= k < j ==> IsDigit(s[k])
    ensures j == |s| || !IsDigit(s[j])
    decreases |s| - i
  {
    if i < |s| && IsDigit(s[i]) then DigitRunEnd(s, i + 1) else i
  }

  lemma DigitRunEndIs(s: string, i: nat, j: nat)
    requires i <= j <= |s|
    requires forall k :: i <= k < j ==> IsDigit(s[k])
    requires j == |s| || !IsDigit(s[j])
    ensures DigitRunEnd(s, i) == j
  {
  }

  // ---------------------------------------------------------------------
  // The audit block
  // ---------------------------------------------------------------------

  /** The title `审计结果` at `i`. */
  predicate TitleAt(s: string, i: nat) {
    i + 4 <= |s| && s[i] == '审' && s[i + 1] == '计' && s[i + 2] == '结' && s[i + 3] == '果'
  }

  /** `={3,}审计结果={3,}` matches at `i`: three or more `=`, the title, three or more `=`. */
  predicate SentinelAt(s: string, i: nat) {
    && i <= |s|
    && RunLength(s, i, '=') >= 3
    && TitleAt(s, i + RunLength(s, i, '='))
    && RunLength(s, i + RunLength(s, i, '=') + 4, '=') >= 3
  }

  /** The leftmost sentinel at or after `from`. */
  function FindSentinel(s: string, from: nat): (r: Option<nat>)
    requires from <= |s|
    ensures r.Some? ==> from <= r.value <= |s| && SentinelAt(s, r.value)
    ensures r.Some? ==> forall j :: from <= j < r.value ==> !SentinelAt(s, j)
    ensures r.None? ==> forall j :: from <= j <= |s| ==> !SentinelAt(s, j)
    decreases |s| - from
  {
    if SentinelAt(s, from) then Some(from)
    else if from == |s| then None
    else FindSentinel(s, from + 1)
  }

  /** `={10,}` matches at `q`. */
  predicate ClosingRunAt(s: string, q: nat) {
    q <= |s| && RunLength(s, q, '=') >= 10
  }

  /** The first closing run at or after `from` (the lazy body stops at the first one). */
  function FindClosingRun(s: string, from: nat): (r: Option<nat>)
    requires from <= |s|
    ensures r.Some? ==> from <= r.value <= |s| && ClosingRunAt(s, r.value)
    ensures r.Some? ==> forall j :: from <= j < r.value ==> !ClosingRunAt(s, j)
    ensures r.None? ==> forall j :: from <= j <= |s| ==> !ClosingRunAt(s, j)
    decreases |s| - from
  {
    if ClosingRunAt(s, from) then Some(from)
    else if from == |s| then None
    else FindClosingRun(s, from + 1)
  }

  /** The first closing run is the one with none before it. */
  lemma FindClosingRunIs(s: string, from: nat, q: nat)
    requires from <= q <= |s| && ClosingRunAt(s, q)
    requires forall j :: from <= j < q ==> !ClosingRunAt(s, j)
    ensures FindClosingRun(s, from) == Some(q)
  {
  }

  /**
   * The audit block: the text after the leftmost sentinel (whose trailing `=`
   * run is taken whole) up to the first run of ten or more `=`. Without such a
   * run, a trailing sentinel run of thirteen or more `=` is itself split by
   * the backtracking regex into the sentinel and the closing run, leaving an
   * empty block; otherwise the fallback pattern takes the block to the end of
   * the report. No sentinel, no block.
   */
  function AuditBlock(s: string): (r: Option<string>)
    ensures r.None? <==> forall j :: 0 <= j <= |s| ==> !SentinelAt(s, j)
    ensures r.Some? ==> |r.value| <= |s|
  {
    match FindSentinel(s, 0)
    case None => None
    case Some(i) => Some(BlockAfter(s, i + RunLength(s, i, '=') + 4))
  }

  /**
   * The block behind a sentinel whose title ends at `t`: from the end of the
   * `=` run after the title to the first closing run.
   */
  function BlockAfter(s: string, t: nat): (r: string)
    requires t <= |s|
    ensures |r| <= |s|
  {
    var l := RunLength(s, t, '=');
    var b := t + l;
    match FindClosingRun(s, b)
    case Some(q) => s[b..q]
    case None => if l >= 13 then "" else s[b..]
  }

  /** The sentinel the judge is asked to write. */
  const OpeningSentinel: string := "===审计结果==="

  /** The closing line the judge is asked to write: fifteen `=`. */
  const ClosingSentinel: string := "==============="

  lemma ClosingSentinelIsEquals()
    ensures |ClosingSentinel| == 15 && forall k :: 0 <= k < 15 ==> ClosingSentinel[k] == '='
  {
  }

  /** No sentinel starts at a character other than `=`. */
  lemma NoSentinelAt(s: string, j: nat)
    requires j < |s| && s[j] != '='
    ensures !SentinelAt(s, j)
  {
    RunLengthIs(s, j, '=', 0);
  }

  /** No closing run starts at a character other than `=`. */
  lemma NoClosingRunAt(s: string, j: nat)
    requires j < |s| && s[j] != '='
    ensures !ClosingRunAt(s, j)
  {
    RunLengthIs(s, j, '=', 0);
  }

  /** The opening sentinel written at `n` is a sentinel, with three `=` before the title. */
  lemma SentinelAtOpening(s: string, n: nat)
    requires n + 10 <= |s| && s[n..n + 10] == OpeningSentinel
    ensures SentinelAt(s, n) && RunLength(s, n, '=') == 3
  {
    var w := s[n..n + 10];
    assert s[n] == w[0] && s[n + 1] == w[1] && s[n + 2] == w[2] && s[n + 3] == w[3];
    RunLengthIs(s, n, '=', 3);
    assert s[n + 4] == w[4] && s[n + 5] == w[5] && s[n + 6] == w[6];
    assert s[n + 7] == w[7] && s[n + 8] == w[8] && s[n + 9] == w[9];
  }

  /** When nothing before `n` is `=`, the sentinel at `n` is the leftmost. */
  lemma LeftmostSentinel(s: string, n: nat)
    requires n + 10 <= |s| && s[n..n + 10] == OpeningSentinel
    requires forall j :: 0 <= j < n ==> s[j] != '='
    ensures FindSentinel(s, 0) == Some(n) && RunLength(s, n, '=') == 3
  {
    SentinelAtOpening(s, n);
    forall j | 0 <= j < n
      ensures !SentinelAt(s, j)
    {
      NoSentinelAt(s, j);
    }
  }

  /** No closing run starts inside a stretch of the text that holds no `=`. */
  lemma NoClosingRunIn(s: string, from: nat, body: string)
    requires from + |body| <= |s| && s[from..from + |body|] == body && '=' !in body
    ensures forall j :: from <= j < from + |body| ==> !ClosingRunAt(s, j)
  {
    forall j | from <= j < from + |body|
      ensures !ClosingRunAt(s, j)
    {
      assert s[j] == body[j - from] && body[j - from] in body;
      NoClosingRunAt(s, j);
    }
  }

  /** The sentinel written at `n` is followed by three `=` ending at `n + 10`. */
  lemma SentinelTail(s: string, n: nat)
    requires n + 10 <= |s| && s[n..n + 10] == OpeningSentinel
    ensures s[n + 7] == '=' && s[n + 8] == '=' && s[n + 9] == '='
  {
    assert s[n + 7] == OpeningSentinel[7] && s[n + 8] == OpeningSentinel[8] && s[n + 9] == OpeningSentinel[9];
  }

  /** The block behind a title ending at `t`, followed by `l` `=` and a closing run at `q`. */
  lemma BlockAfterIs(s: string, t: nat, l: nat, q: nat)
    requires t + l <= q <= |s| && RunLength(s, t, '=') == l
    requires FindClosingRun(s, t + l) == Some(q)
    ensures BlockAfter(s, t) == s[t + l..q]
  {
  }

  /** The block behind a title ending at `t`, followed by a short `=` run and no closing run. */
  lemma BlockAfterUnclosedIs(s: string, t: nat, l: nat)
    requires t + l <= |s| && RunLength(s, t, '=') == l && l < 13
    requires FindClosingRun(s, t + l) == None
    ensures BlockAfter(s, t) == s[t + l..]
  {
  }

  /** An opening sentinel at `n` directly followed by fifteen `=` that end the text: an empty block. */
  lemma ClosedEmptyBlock(s: string, n: nat)
    requires n + 25 == |s| && s[n..n + 10] == OpeningSentinel
    requires forall j :: 0 <= j < n ==> s[j] != '='
    requires forall k :: n + 10 <= k < |s| ==> s[k] == '='
    ensures AuditBlock(s) == Some("")
  {
    LeftmostSentinel(s, n);
    SentinelTail(s, n);
    RunLengthIs(s, n + 7, '=', 18);
  }

  /** The block behind the leftmost sentinel at `n`, written with three `=` on each side of the title. */
  lemma AuditBlockFrom(s: string, n: nat)
    requires FindSentinel(s, 0) == Some(n) && RunLength(s, n, '=') == 3
    requires n + 7 <= |s| && RunLength(s, n + 7, '=') == 3
    ensures AuditBlock(s) == Some(BlockAfter(s, n + 7))
  {
  }

  /** A non-empty body free of `=`, then fifteen `=` that end the text: the closing run is right after the body. */
  lemma ClosingAfterBody(s: string, from: nat, body: string)
    requires from + |body| + 15 == |s| && body != []
    requires s[from..from + |body|] == body && '=' !in body
    requires forall k :: from + |body| <= k < |s| ==> s[k] == '='
    ensures s[from] != '=' && FindClosingRun(s, from) == Some(from + |body|)
  {
    var e := from + |body|;
    assert s[from] == body[0] && body[0] in body;
    RunLengthIs(s, e, '=', 15);
    NoClosingRunIn(s, from, body);
    FindClosingRunIs(s, from, e);
  }

  /** An opening sentinel at `n`, a non-empty body free of `=`, and fifteen `=` that end the text. */
  lemma ClosedBodyBlock(s: string, n: nat, body: string)
    requires n + 25 + |body| == |s| && s[n..n + 10] == OpeningSentinel
    requires forall j :: 0 <= j < n ==> s[j] != '='
    requires body != [] && s[n + 10..n + 10 + |body|] == body && '=' !in body
    requires forall k :: n + 10 + |body| <= k < |s| ==> s[k] == '='
    ensures AuditBlock(s) == Some(body)
  {
    LeftmostSentinel(s, n);
    SentinelTail(s, n);
    ClosingAfterBody(s, n + 10, body);
    RunLengthIs(s, n + 7, '=', 3);
    BlockAfterIs(s, n + 7, 3, n + 10 + |body|);
    AuditBlockFrom(s, n);
  }

  /** The block behind an opening sentinel at `n`, closed by fifteen `=` that end the text. */
  lemma ClosedBlock(s: string, n: nat, body: string)
    requires n + 25 + |body| == |s| && s[n..n + 10] == OpeningSentinel
    requires forall j :: 0 <= j < n ==> s[j] != '='
    requires s[n + 10..n + 10 + |body|] == body && '=' !in body
    requires forall k :: n + 10 + |body| <= k < |s| ==> s[k] == '='
    ensures AuditBlock(s) == Some(body)
  {
    if body == [] {
      ClosedEmptyBlock(s, n);
    } else {
      ClosedBodyBlock(s, n, body);
    }
  }

  /** The block behind an opening sentinel at `n` that is never closed: the rest of the text. */
  lemma UnclosedBlock(s: string, n: nat, body: string)
    requires n + 10 + |body| == |s| && s[n..n + 10] == OpeningSentinel
    requires forall j :: 0 <= j < n ==> s[j] != '='
    requires s[n + 10..] == body && '=' !in body
    ensures AuditBlock(s) == Some(body)
  {
    LeftmostSentinel(s, n);
    SentinelTail(s, n);
    if body != [] {
      assert s[n + 10] == body[0] && body[0] in body;
    }
    RunLengthIs(s, n + 7, '=', 3);
    assert s[n + 10..n + 10 + |body|] == body;
    NoClosingRunIn(s, n + 10, body);
    assert !ClosingRunAt(s, |s|);
    BlockAfterUnclosedIs(s, n + 7, 3);
  }

  /** No `=` before the sentinel when the text in front of it holds none. */
  lemma NoEqualsBefore(pre: string, rest: string)
    requires '=' !in pre
    ensures forall j :: 0 <= j < |pre| ==> (pre + rest)[j] != '='
  {
    forall j | 0 <= j < |pre|
      ensures (pre + rest)[j] != '='
    {
      assert (pre + rest)[j] == pre[j] && pre[j] in pre;
    }
  }

  /** The block of a report written as asked: `pre`, the opening sentinel, the body, the closing line. */
  lemma AuditBlockOfWellFormedReport(pre: string, body: string)
    requires '=' !in pre && '=' !in body
    ensures AuditBlock(pre + OpeningSentinel + body + ClosingSentinel) == Some(body)
  {
    var s := pre + OpeningSentinel + body + ClosingSentinel;
    var n := |pre|;
    assert s == pre + (OpeningSentinel + body + ClosingSentinel);
    NoEqualsBefore(pre, OpeningSentinel + body + ClosingSentinel);
    assert s[n..n + 10] == OpeningSentinel;
    assert s[n + 10..n + 10 + |body|] == body;
    ClosingSentinelIsEquals();
    assert forall k :: n + 10 + |body| <= k < |s| ==> s[k] == ClosingSentinel[k - n - 10 - |body|];
    ClosedBlock(s, n, body);
  }

  /** A report whose block is never closed: the block runs to the end of the report. */
  lemma AuditBlockOfUnclosedReport(pre: string, body: string)
    requires '=' !in pre && '=' !in body
    ensures AuditBlock(pre + OpeningSentinel + body) == Some(body)
  {
    var s := pre + OpeningSentinel + body;
    var n := |pre|;
    assert s == pre + (OpeningSentinel + body);
    NoEqualsBefore(pre, OpeningSentinel + body);
    assert s[n..n + 10] == OpeningSentinel;
    assert s[n + 10..] == body;
    UnclosedBlock(s, n, body);
  }

  // ---------------------------------------------------------------------
  // Field patterns
  // ---------------------------------------------------------------------

  /**
   * `(?:\*{1,2})?[：:]` right after a label ending at `e`: the index just past
   * the colon. Three or more stars defeat it.
   */
  function ColonAfter(s: string, e: nat): (r: Option<nat>)
    requires e <= |s|
    ensures r.Some? ==> e < r.value <= |s| && (s[r.value - 1] == '：' || s[r.value - 1] == ':')
    ensures r.Some? ==> r.value - 1 - e <= 2
  {
    var k := RunLength(s, e, '*');
    if k <= 2 && e + k < |s| && (s[e + k] == '：' || s[e + k] == ':') then Some(e + k + 1) else None
  }

  /**
   * What `\s*(.+?)$` (multiline) captures from index `c`: the rest of the line
   * that starts at the first non-blank character; when only blanks remain,
   * the single blank the engine backs off to (the last that is not a line
   * terminator); when those are all line terminators, no match.
   */
  function LineTail(s: string, c: nat): (r: Option<string>)
    requires c <= |s|
    ensures r.Some? ==> r.value != [] && forall k :: 0 <= k < |r.value| ==> !IsLineTerminator(r.value[k])
  {
    var v := SkipSpace(s, c);
    if v < |s| then Some(s[v..LineEnd(s, v)])
    else
      var y := LastNonTerminator(s, c, |s|);
      if y < 0 then None else Some([s[y]])
  }

  /**
   * `(?:\*{1,2})?(.+?)(?:\*{1,2})?$` on one line: up to two leading and up to
   * two trailing stars are left out of the capture, which keeps at least one
   * character.
   */
  function LineCapture(line: string): (r: string)
    requires line != []
    ensures r != [] && |r| <= |line|
    ensures '*' !in line ==> r == line
  {
    var lead := Min(Min(RunLength(line, 0, '*'), 2), |line| - 1);
    var rest := line[lead..];
    var trail := Min(Min(TrailingRun(rest, '*'), 2), |rest| - 1);
    if '*' !in line then
      assert line != [] && line[0] in line;
      assert rest[|rest| - 1] in line;
      rest[..|rest| - trail]
    else rest[..|rest| - trail]
  }

  /** `\s*(?:\*{1,2})?(\d+)` from index `c`: the digits. */
  function NumberTail(s: string, c: nat): (r: Option<string>)
    requires c <= |s|
    ensures r.Some? ==> r.value != [] && forall k :: 0 <= k < |r.value| ==> IsDigit(r.value[k])
  {
    var v := SkipSpace(s, c);
    var k := RunLength(s, v, '*');
    if k <= 2 && v + k < |s| && IsDigit(s[v + k]) then Some(s[v + k..DigitRunEnd(s, v + k)]) else None
  }

  /** A heading that ends a multi-line field: `【`, `裁判补充`, `裁决理由`, `致命风险` or `来源可信度`. */
  predicate StopLabelAt(s: string, j: nat) {
    || OccursAt(s, "【", j) || OccursAt(s, "裁判补充", j) || OccursAt(s, VerdictReasonLabel, j)
    || OccursAt(s, CriticalRiskLabel, j) || OccursAt(s, CredibilityLabel, j)
  }

  /** The first stop heading at or after `i`, or the end of the block. */
  function StopAt(s: string, i: nat): (j: nat)
    requires i <= |s|
    ensures i <= j <= |s|
    ensures j < |s| ==> StopLabelAt(s, j)
    ensures forall k :: i <= k < j ==> !StopLabelAt(s, k)
    decreases |s| - i
  {
    if i == |s| || StopLabelAt(s, i) then i else StopAt(s, i + 1)
  }

  /** `\s*([\s\S]*?)(?=【|裁判补充|裁决理由|致命风险|来源可信度|$)` from `c`: the text up to the next heading. */
  function BlockTail(s: string, c: nat): (r: string)
    requires c <= |s|
  {
    var v := SkipSpace(s, c);
    s[v..StopAt(s, v)]
  }

  /**
   * `.?正方` (or `.?反方`) then the colon and the line, from the end `e` of the
   * credibility label; the optional character is tried first.
   */
  function CredibilityTail(s: string, side: string, e: nat): (r: Option<string>)
    requires e <= |s|
  {
    var one :=
      if e < |s| && !IsLineTerminator(s[e]) && OccursAt(s, side, e + 1) then
        match ColonAfter(s, e + 1 + |side|)
        case None => None
        case Some(c) => LineTail(s, c)
      else None;
    if one.Some? then one
    else if OccursAt(s, side, e) then
      match ColonAfter(s, e + |side|)
      case None => None
      case Some(c) => LineTail(s, c)
    else None
  }

  /** The four field patterns of the reader. */
  datatype Pattern =
    | LinePattern                        // `fieldPattern`: the rest of the line
    | NumberPattern                      // `numberPattern`: a decimal number
    | BlockPattern                       // `multiLineFieldPattern`: up to the next heading
    | CredibilityPattern(side: string)   // the credibility line of one side

  /** `fieldPattern` after a label ending at `e`: the colon, then the rest of the line. */
  function LineField(s: string, e: nat): Option<string>
    requires e <= |s|
  {
    match ColonAfter(s, e)
    case None => None
    case Some(c) => (match LineTail(s, c) case None => None case Some(line) => Some(LineCapture(line)))
  }

  /** `numberPattern` after a label ending at `e`: the colon, then the digits. */
  function NumberField(s: string, e: nat): (r: Option<string>)
    requires e <= |s|
    ensures r.Some? ==> r.value != [] && forall k :: 0 <= k < |r.value| ==> IsDigit(r.value[k])
  {
    match ColonAfter(s, e) case None => None case Some(c) => NumberTail(s, c)
  }

  /** `multiLineFieldPattern` after a label ending at `e`: the colon, then the text up to the next heading. */
  function BlockField(s: string, e: nat): (r: Option<string>)
    requires e <= |s|
    ensures r.Some? <==> ColonAfter(s, e).Some?
  {
    match ColonAfter(s, e) case None => None case Some(c) => Some(BlockTail(s, c))
  }

  /** The capture of `pattern` when its label is taken at `p`. */
  function MatchAt(s: string, pattern: Pattern, name: string, p: nat): (r: Option<string>)
    requires p + |name| <= |s|
    ensures pattern.NumberPattern? && r.Some? ==> r.value != [] && forall k :: 0 <= k < |r.value| ==> IsDigit(r.value[k])
    ensures pattern.BlockPattern? ==> (r.Some? <==> ColonAfter(s, p + |name|).Some?)
  {
    var e := p + |name|;
    match pattern
    case CredibilityPattern(side) => CredibilityTail(s, side, e)
    case LinePattern => LineField(s, e)
    case NumberPattern => NumberField(s, e)
    case BlockPattern => BlockField(s, e)
  }

  predicate MatchesAt(s: string, pattern: Pattern, name: string, p: nat) {
    OccursAt(s, name, p) && MatchAt(s, pattern, name, p).Some?
  }

  /** The first occurrence of the label at or after `from` from which the pattern succeeds. */
  function FirstMatch(s: string, pattern: Pattern, name: string, from: nat): (r: Option<nat>)
    requires from <= |s|
    ensures r.Some? ==> from <= r.value <= |s| && MatchesAt(s, pattern, name, r.value)
    ensures r.Some? ==> forall j :: from <= j < r.value ==> !MatchesAt(s, pattern, name, j)
    ensures r.None? ==> forall j :: from <= j <= |s| ==> !MatchesAt(s, pattern, name, j)
    decreases |s| - from
  {
    if MatchesAt(s, pattern, name, from) then Some(from)
    else if from == |s| then None
    else FirstMatch(s, pattern, name, from + 1)
  }

  /** `block.match(pattern)`: the capture of the leftmost match, if there is one. */
  function Field(s: string, pattern: Pattern, name: string): (r: Option<string>)
    ensures r.None? <==> forall j :: 0 <= j <= |s| ==> !MatchesAt(s, pattern, name, j)
    ensures pattern.NumberPattern? && r.Some? ==> r.value != [] && forall k :: 0 <= k < |r.value| ==> IsDigit(r.value[k])
  {
    match FirstMatch(s, pattern, name, 0)
    case None => None
    case Some(p) => MatchAt(s, pattern, name, p)
  }

  /** `.trim().replace(/\*+/g, '')`. */
  function Clean(capture: string): string {
    RemoveChar(Trim(capture), '*')
  }

  /** `.trim().replace(/\*+/g, '').replace(/\n+/g, ' ')`, for multi-line fields. */
  function CleanBlock(capture: string): string {
    CollapseNewlines(RemoveChar(Trim(capture), '*'))
  }

  /**
   * `.replace(/\s*\(.*\)/, '')` on a one-line value: from the white space
   * before the first `(` to the last `)` after it, removed; unchanged when
   * there is no such pair.
   */
  function StripParenthetical(v: string): (r: string)
    ensures |r| <= |v|
    ensures !HasParenthetical(v) ==> r == v
    ensures HasParenthetical(v) ==> exists w: nat, e: nat :: ParenSpan(v, w, e) && r == v[..w] + v[e..]
  {
    var open := IndexOf(v, "(");
    if open < 0 then
      NoOpenNoParenthetical(v);
      v
    else
      var close := LastIndexOfChar(v, ')');
      if close < open then
        CloseBeforeOpen(v, open, close);
        v
      else
        var w := SpaceRunStart(v, open);
        StrippedSpanIs(v, open, close, w);
        v[..w] + v[close + 1..]
  }

  /** Some `(` comes before some `)`. */
  predicate HasParenthetical(v: string) {
    exists i, j :: 0 <= i < j < |v| && v[i] == '(' && v[j] == ')'
  }

  /**
   * `[w, e)` is what `\s*\(.*\)` matches first in a one-line value: the white
   * space that runs up to the first `(`, then everything through the last `)`.
   */
  predicate ParenSpan(v: string, w: nat, e: nat) {
    && w < e <= |v| && v[e - 1] == ')' && (forall j :: e <= j < |v| ==> v[j] != ')')
    && (w == 0 || !IsSpace(v[w - 1]))
    && exists o :: w <= o < e - 1 && v[o] == '(' && (forall j :: 0 <= j < o ==> v[j] != '(')
        && (forall j :: w <= j < o ==> IsSpace(v[j]))
  }

  /** `(` occurs at `i` exactly when the character there is `(`. */
  lemma OpenParenAt(v: string, i: nat)
    requires i < |v|
    ensures OccursAt(v, "(", i) <==> v[i] == '('
  {
    assert i + 1 <= |v| ==> v[i..][..1] == [v[i]];
  }

  lemma NoOpenNoParenthetical(v: string)
    requires IndexOf(v, "(") < 0
    ensures !HasParenthetical(v)
  {
    forall i | 0 <= i < |v| ensures v[i] != '(' {
      OpenParenAt(v, i);
    }
  }

  lemma CloseBeforeOpen(v: string, open: nat, close: int)
    requires open == IndexOf(v, "(") && close == LastIndexOfChar(v, ')') && close < open
    ensures !HasParenthetical(v)
  {
    forall i, j | 0 <= i < j < |v| && v[i] == '(' ensures v[j] != ')' {
      OpenParenAt(v, i);
    }
  }

  lemma StrippedSpanIs(v: string, open: nat, close: int, w: nat)
    requires open == IndexOf(v, "(") && close == LastIndexOfChar(v, ')') && open <= close
    requires w == SpaceRunStart(v, open)
    ensures HasParenthetical(v) && ParenSpan(v, w, close + 1)
  {
    OpenParenAt(v, open);
    forall j | 0 <= j < open ensures v[j] != '(' {
      OpenParenAt(v, j);
    }
    assert open < close;
  }

  /** The index of the last `c` in `v`, or -1. */
  function LastIndexOfChar(v: string, c: char): (k: int)
    ensures -1 <= k < |v|
    ensures k >= 0 ==> v[k] == c
    ensures forall j :: k < j < |v| ==> v[j] != c
  {
    if v == [] then -1
    else if v[|v| - 1] == c then |v| - 1
    else LastIndexOfChar(v[..|v| - 1], c)
  }

  /** The start of the run of white space that ends at `j`. */
  function SpaceRunStart(v: string, j: nat): (w: nat)
    requires j <= |v|
    ensures w <= j
    ensures forall k :: w <= k < j ==> IsSpace(v[k])
    ensures w == 0 || !IsSpace(v[w - 1])
  {
    if j > 0 && IsSpace(v[j - 1]) then SpaceRunStart(v, j - 1) else j
  }

  // ---------------------------------------------------------------------
  // Credibility stars
  // ---------------------------------------------------------------------

  /** The index of the first ASCII digit at or after `i`, or -1. */
  function FirstDigit(s: string, i: nat): (k: int)
    requires i <= |s|
    ensures k == -1 || (i <= k < |s| && IsDigit(s[k]))
    ensures forall j :: i <= j < |s| && (k < 0 || j < k) ==> !IsDigit(s[j])
    decreases |s| - i
  {
    if i == |s| then -1 else if IsDigit(s[i]) then i else FirstDigit(s, i + 1)
  }

  /** The Chinese numerals one to five, by value. */
  const ChineseNumerals: seq<char> := ['一', '二', '三', '四', '五']

  /** `([一二三四五])\s*星` matches at `i`. */
  predicate ChineseStarsAt(s: string, i: nat) {
    i < |s| && s[i] in ChineseNumerals && SkipSpace(s, i + 1) < |s| && s[SkipSpace(s, i + 1)] == '星'
  }

  /** The first index at or after `i` where a Chinese star rating matches, or -1. */
  function FirstChineseStars(s: string, i: nat): (k: int)
    requires i <= |s|
    ensures k == -1 || (i <= k < |s| && ChineseStarsAt(s, k))
    ensures forall j :: i <= j < |s| && (k < 0 || j < k) ==> !ChineseStarsAt(s, j)
    decreases |s| - i
  {
    if i == |s| then -1 else if ChineseStarsAt(s, i) then i else FirstChineseStars(s, i + 1)
  }

  function NumeralValue(c: char): (n: nat)
    requires c in ChineseNumerals
    ensures 1 <= n <= 5 && ChineseNumerals[n - 1] == c
  {
    if c == '一' then 1 else if c == '二' then 2 else if c == '三' then 3 else if c == '四' then 4 else 5
  }

  /**
   * `parseCredibility`: the first ASCII digit of the text (the `⭐`, `星` and
   * `/5` around it do not matter), else the first Chinese numeral followed
   * by `星`, else 0.
   */
  function ParseCredibility(text: string): (n: nat)
    ensures n <= 9
    ensures FirstDigit(text, 0) >= 0 ==> n == text[FirstDigit(text, 0)] as int - '0' as int
    ensures FirstDigit(text, 0) < 0 && FirstChineseStars(text, 0) >= 0 ==>
      1 <= n <= 5 && ChineseNumerals[n - 1] == text[FirstChineseStars(text, 0)]
    ensures FirstDigit(text, 0) < 0 && FirstChineseStars(text, 0) < 0 ==> n == 0
  {
    if text == [] then 0
    else
      var d := FirstDigit(text, 0);
      if d >= 0 then text[d] as int - '0' as int
      else
        var k := FirstChineseStars(text, 0);
        if k >= 0 then NumeralValue(text[k]) else 0
  }

  lemma CredibilityExamples()
    ensures ParseCredibility("⭐5") == 5
    ensures ParseCredibility("4/5") == 4
    ensures ParseCredibility("五星") == 5
    ensures ParseCredibility("三 星") == 3
    ensures ParseCredibility("") == 0
    ensures ParseCredibility("高") == 0
  {
    assert FirstDigit("⭐5", 1) == 1;
    assert FirstDigit("五星", 2) == -1;
    assert FirstChineseStars("五星", 0) == 0;
    assert FirstDigit("三 星", 3) == -1;
    assert SkipSpace("三 星", 1) == 2;
    assert FirstChineseStars("三 星", 0) == 0;
    assert FirstDigit("高", 1) == -1;
    assert FirstChineseStars("高", 1) == -1;
  }

  // ---------------------------------------------------------------------
  // The parsed report
  // ---------------------------------------------------------------------

  /**
   * The result of reading a report. `winner`, `proScore` and `conScore` are
   * the older names of the skill fields, kept for the display.
   */
  datatype ParsedVerdict = ParsedVerdict(
    valid: bool,
    skillWinner: string,
    proSkillScore: nat,
    conSkillScore: nat,
    skillComment: string,
    factVerdict: string,
    proCredibility: nat,
    conCredibility: nat,
    judgeEvidence: string,
    verdictReason: string,
    criticalRisk: string,
    rawText: string,
    parseErrors: seq<string>,
    winner: string,
    proScore: nat,
    conScore: nat)

  /** The result before anything is read from the report. */
  function Defaults(verdict: string): (r: ParsedVerdict)
    ensures !r.valid && r.rawText == verdict && r.parseErrors == []
    ensures r.skillWinner == DefaultWinner && r.factVerdict == DefaultFactVerdict && r.criticalRisk == DefaultRisk
    ensures r.proSkillScore == 0 && r.conSkillScore == 0 && r.proCredibility == 0 && r.conCredibility == 0
    ensures r.skillComment == "" && r.judgeEvidence == "" && r.verdictReason == ""
    ensures r.winner == r.skillWinner && r.proScore == r.proSkillScore && r.conScore == r.conSkillScore
  {
    ParsedVerdict(false, DefaultWinner, 0, 0, "", DefaultFactVerdict, 0, 0, "", "", DefaultRisk,
      verdict, [], DefaultWinner, 0, 0)
  }

  /** A field's cleaned value, or the default. */
  function LineValue(block: string, name: string, default: string): string {
    match Field(block, LinePattern, name)
    case None => default
    case Some(capture) => Clean(capture)
  }

  function NumberValue(block: string, name: string): nat {
    match Field(block, NumberPattern, name)
    case None => 0
    case Some(digits) => DigitsValue(digits)
  }

  function CredibilityValue(block: string, side: string): nat {
    match Field(block, CredibilityPattern(side), CredibilityLabel)
    case None => 0
    case Some(capture) => ParseCredibility(capture)
  }

  function BlockValue(block: string, name: string): string {
    match Field(block, BlockPattern, name)
    case None => ""
    case Some(capture) => CleanBlock(capture)
  }

  /**
   * `parseVerdictResult`: without an audit block, the defaults and one parse
   * error; otherwise every field read from the block, the skill winner
   * stripped of a parenthetical, the legacy fields copied from the skill
   * fields, and the report valid when it names a skill winner or a factual
   * verdict.
   */
  function ParseVerdictResult(verdict: string): (r: ParsedVerdict)
    ensures r.rawText == verdict
    ensures r.winner == r.skillWinner && r.proScore == r.proSkillScore && r.conScore == r.conSkillScore
    ensures r.proCredibility <= 9 && r.conCredibility <= 9
    ensures AuditBlock(verdict).None? ==> r == Defaults(verdict).(parseErrors := [MissingBlockError])
    ensures AuditBlock(verdict).Some? ==> r.parseErrors == []
    ensures r.valid <==>
      && AuditBlock(verdict).Some?
      && (|| Field(AuditBlock(verdict).value, LinePattern, SkillWinnerLabel).Some?
          || Field(AuditBlock(verdict).value, LinePattern, FactVerdictLabel).Some?)
  {
    match AuditBlock(verdict)
    case None => Defaults(verdict).(parseErrors := [MissingBlockError])
    case Some(block) =>
      var skillWinner := StripParenthetical(LineValue(block, SkillWinnerLabel, DefaultWinner));
      var proSkill := NumberValue(block, ProSkillLabel);
      var conSkill := NumberValue(block, ConSkillLabel);
      ParsedVerdict(
        valid := Field(block, LinePattern, SkillWinnerLabel).Some? || Field(block, LinePattern, FactVerdictLabel).Some?,
        skillWinner := skillWinner,
        proSkillScore := proSkill,
        conSkillScore := conSkill,
        skillComment := LineValue(block, SkillCommentLabel, ""),
        factVerdict := LineValue(block, FactVerdictLabel, DefaultFactVerdict),
        proCredibility := CredibilityValue(block, ProWord),
        conCredibility := CredibilityValue(block, ConWord),
        judgeEvidence := BlockValue(block, JudgeEvidenceLabel),
        verdictReason := BlockValue(block, VerdictReasonLabel),
        criticalRisk := LineValue(block, CriticalRiskLabel, DefaultRisk),
        rawText := verdict,
        parseErrors := [],
        winner := skillWinner,
        proScore := proSkill,
        conScore := conSkill)
  }

  // ---------------------------------------------------------------------
  // Reading back what was written
  // ---------------------------------------------------------------------

  /** A value that a report line carries unchanged: one line, no stars or `=`, no blanks at its ends. */
  predicate PlainValue(v: string) {
    && v != []
    && !IsSpace(v[0]) && !IsSpace(v[|v| - 1])
    && '*' !in v && '=' !in v
    && forall k :: 0 <= k < |v| ==> !IsLineTerminator(v[k])
  }

  /** The field is read at the first label occurrence from which its pattern succeeds. */
  lemma FieldAt(s: string, pattern: Pattern, name: string, p: nat)
    requires p <= |s| && MatchesAt(s, pattern, name, p)
    requires forall j :: 0 <= j < p ==> !MatchesAt(s, pattern, name, j)
    ensures Field(s, pattern, name) == MatchAt(s, pattern, name, p)
  {
    assert FirstMatch(s, pattern, name, 0) == Some(p);
  }

  /** A label cannot occur where its first character is missing. */
  lemma NoMatchBefore(s: string, pattern: Pattern, name: string, p: nat)
    requires name != [] && p <= |s|
    requires forall j :: 0 <= j < p ==> s[j] != name[0]
    ensures forall j :: 0 <= j < p ==> !MatchesAt(s, pattern, name, j)
  {
    forall j | 0 <= j < p
      ensures !OccursAt(s, name, j)
    {
      NotOccursAt(s, name, j);
    }
  }

  lemma ColonAt(s: string, e: nat)
    requires e < |s| && s[e] == '：'
    ensures ColonAfter(s, e) == Some(e + 1)
  {
    RunLengthIs(s, e, '*', 0);
  }

  /** A plain value that fills the rest of its line is what the line pattern takes. */
  lemma LineTailAt(s: string, c: nat, value: string)
    requires c + |value| <= |s| && s[c..c + |value|] == value && PlainValue(value)
    requires c + |value| == |s| || IsLineTerminator(s[c + |value|])
    ensures LineTail(s, c) == Some(value)
  {
    assert s[c] == value[0];
    assert SkipSpace(s, c) == c;
    assert forall k :: c <= k < c + |value| ==> s[k] == value[k - c];
    LineEndIs(s, c, c + |value|);
  }

  /** A label written at `p` occurs there. */
  lemma LabelAt(s: string, name: string, p: nat)
    requires p + |name| <= |s| && s[p..p + |name|] == name
    ensures OccursAt(s, name, p)
  {
    assert s[p..][..|name|] == s[p..p + |name|];
  }

  /** After a full-width colon at `e`, the line field is the capture of the rest of the line. */
  lemma LineFieldAt(s: string, e: nat, value: string)
    requires e < |s| && s[e] == '：' && LineTail(s, e + 1) == Some(value)
    ensures LineField(s, e) == Some(LineCapture(value))
  {
    ColonAt(s, e);
  }

  /** The line pattern at a label followed by a full-width colon reads the rest of the line. */
  lemma LinePatternAt(s: string, name: string, p: nat, value: string)
    requires p + |name| < |s| && s[p + |name|] == '：'
    requires LineTail(s, p + |name| + 1) == Some(value)
    ensures MatchAt(s, LinePattern, name, p) == Some(LineCapture(value))
  {
    LineFieldAt(s, p + |name|, value);
  }

  /** `label：value` at `p`, the value running to the end of its line, is read as the value. */
  lemma LineMatchAt(s: string, name: string, p: nat, value: string)
    requires p + |name| + 1 + |value| <= |s|
    requires s[p..p + |name|] == name && s[p + |name|] == '：'
    requires s[p + |name| + 1..p + |name| + 1 + |value|] == value && PlainValue(value)
    requires p + |name| + 1 + |value| == |s| || IsLineTerminator(s[p + |name| + 1 + |value|])
    ensures OccursAt(s, name, p) && MatchAt(s, LinePattern, name, p) == Some(value)
  {
    LabelAt(s, name, p);
    LineTailAt(s, p + |name| + 1, value);
    LinePatternAt(s, name, p, value);
    assert LineCapture(value) == value;
  }

  /** Where the parts of `pre + label：value + post` sit. */
  lemma LabelledLineLayout(pre: string, name: string, value: string, post: string)
    ensures var s := pre + (name + "：" + value + post);
      var p := |pre|;
      var c := p + |name| + 1;
      && |s| == c + |value| + |post|
      && s[p..p + |name|] == name && s[p + |name|] == '：'
      && s[c..c + |value|] == value
      && (post != [] ==> s[c + |value|] == post[0])
  {
    var s := pre + (name + "：" + value + post);
    var p := |pre|;
    var c := p + |name| + 1;
    assert s[p..p + |name|] == name;
    assert s[p + |name|] == '：';
    assert s[c..c + |value|] == value;
    assert post != [] ==> s[c + |value|] == post[0];
  }

  /**
   * A line `label：value` whose label does not start earlier in the text is
   * read back as `value`.
   */
  lemma LineFieldRoundTrip(pre: string, name: string, value: string, post: string)
    requires name != [] && name[0] !in pre
    requires PlainValue(value)
    requires post == [] || IsLineTerminator(post[0])
    ensures Field(pre + name + "：" + value + post, LinePattern, name) == Some(value)
  {
    var s := pre + name + "：" + value + post;
    var p := |pre|;
    RegroupLine(pre, name, value, post);
    LabelledLineLayout(pre, name, value, post);
    LineMatchAt(s, name, p, value);
    forall j | 0 <= j < p
      ensures s[j] != name[0]
    {
      assert s[j] == pre[j] && pre[j] in pre;
    }
    NoMatchBefore(s, LinePattern, name, p);
    FieldAt(s, LinePattern, name, p);
  }

  /** The two key lines of a report: the skill winner, then the factual verdict. */
  function KeyLines(winner: string, fact: string): string {
    "\n" + SkillWinnerLabel + "：" + winner + "\n" + FactVerdictLabel + "：" + fact + "\n"
  }

  /** The report the judge is asked to write, reduced to its two key lines. */
  function MinimalReport(winner: string, fact: string): string {
    OpeningSentinel + KeyLines(winner, fact) + ClosingSentinel
  }

  lemma Regroup(a: string, n1: string, w: string, n2: string, f: string)
    ensures a + n1 + "：" + w + "\n" + n2 + "：" + f + "\n" == a + n1 + "：" + w + ("\n" + n2 + "：" + f + "\n")
  {
  }

  /** Digits at `c` not followed by another digit are what the number pattern takes from `c`. */
  lemma NumberTailAt(s: string, c: nat, digits: string)
    requires c + |digits| <= |s| && s[c..c + |digits|] == digits
    requires digits != [] && forall k :: 0 <= k < |digits| ==> IsDigit(digits[k])
    requires c + |digits| == |s| || !IsDigit(s[c + |digits|])
    ensures NumberTail(s, c) == Some(digits)
  {
    assert s[c] == digits[0];
    assert SkipSpace(s, c) == c;
    RunLengthIs(s, c, '*', 0);
    assert forall k :: c <= k < c + |digits| ==> s[k] == digits[k - c];
    DigitRunEndIs(s, c, c + |digits|);
  }

  /** After a full-width colon at `e`, the number field is the digits that follow. */
  lemma NumberFieldAt(s: string, e: nat, digits: string)
    requires e < |s| && s[e] == '：' && NumberTail(s, e + 1) == Some(digits)
    ensures NumberField(s, e) == Some(digits)
  {
    ColonAt(s, e);
  }

  /** The number pattern at a label followed by a full-width colon reads the digits after it. */
  lemma NumberPatternAt(s: string, name: string, p: nat, digits: string)
    requires p + |name| < |s| && s[p + |name|] == '：'
    requires NumberTail(s, p + |name| + 1) == Some(digits)
    ensures MatchAt(s, NumberPattern, name, p) == Some(digits)
  {
    NumberFieldAt(s, p + |name|, digits);
  }

  /** `label：digits` at `p`, the digits not followed by another digit, is read as the digits. */
  lemma NumberMatchAt(s: string, name: string, p: nat, digits: string)
    requires p + |name| + 1 + |digits| <= |s|
    requires s[p..p + |name|] == name && s[p + |name|] == '：'
    requires s[p + |name| + 1..p + |name| + 1 + |digits|] == digits
    requires digits != [] && forall k :: 0 <= k < |digits| ==> IsDigit(digits[k])
    requires p + |name| + 1 + |digits| == |s| || !IsDigit(s[p + |name| + 1 + |digits|])
    ensures OccursAt(s, name, p) && MatchAt(s, NumberPattern, name, p) == Some(digits)
  {
    LabelAt(s, name, p);
    NumberTailAt(s, p + |name| + 1, digits);
    NumberPatternAt(s, name, p, digits);
  }

  lemma RegroupLine(pre: string, name: string, value: string, post: string)
    ensures pre + name + "：" + value + post == pre + (name + "：" + value + post)
  {
  }

  /** After text without the label's first character, the field is read at the label. */
  lemma LabelFirstAt(pre: string, rest: string, pattern: Pattern, name: string)
    requires name != [] && name[0] !in pre
    requires MatchesAt(pre + rest, pattern, name, |pre|)
    ensures Field(pre + rest, pattern, name) == MatchAt(pre + rest, pattern, name, |pre|)
  {
    var s := pre + rest;
    forall j | 0 <= j < |pre|
      ensures s[j] != name[0]
    {
      assert s[j] == pre[j] && pre[j] in pre;
    }
    NoMatchBefore(s, pattern, name, |pre|);
    FieldAt(s, pattern, name, |pre|);
  }

  /** `label：n` at the end of `pre` is read as the digits of `n`. */
  lemma NumberMatchInText(pre: string, name: string, n: nat, post: string)
    requires post == [] || !IsDigit(post[0])
    ensures var s := pre + (name + "：" + ShowNat(n) + post);
      OccursAt(s, name, |pre|) && MatchAt(s, NumberPattern, name, |pre|) == Some(ShowNat(n))
  {
    var digits := ShowNat(n);
    var s := pre + (name + "：" + digits + post);
    LabelledLineLayout(pre, name, digits, post);
    NumberMatchAt(s, name, |pre|, digits);
  }

  /** A score written as `label：n` after text without the label's first character is read back as `n`. */
  lemma NumberFieldRoundTrip(pre: string, name: string, n: nat, post: string)
    requires name != [] && name[0] !in pre
    requires post == [] || !IsDigit(post[0])
    ensures NumberValue(pre + name + "：" + ShowNat(n) + post, name) == n
  {
    RegroupLine(pre, name, ShowNat(n), post);
    NumberMatchInText(pre, name, n, post);
    LabelFirstAt(pre, name + "：" + ShowNat(n) + post, NumberPattern, name);
    DigitsValueShowNat(n);
  }

  /** The parenthetical after a winner's name is dropped with the blank before it. */
  lemma StripParentheticalExample()
    ensures StripParenthetical("正方 (微弱优势)") == "正方"
  {
    var v := "正方 (微弱优势)";
    ExampleOpenParen();
    assert LastIndexOfChar(v, ')') == |v| - 1;
    assert SpaceRunStart(v, 3) == 2;
  }

  /** The example's `(` is at index 3. */
  lemma ExampleOpenParen()
    ensures IndexOf("正方 (微弱优势)", "(") == 3
  {
    var v := "正方 (微弱优势)";
    assert OccursAt(v, "(", 3);
    NotOccursAt(v, "(", 0);
    NotOccursAt(v, "(", 1);
    NotOccursAt(v, "(", 2);
  }

  /** What the reader keeps of a block whose skill winner and factual verdict lines are found. */
  lemma ParsedKeyFields(verdict: string, block: string, winner: string, fact: string)
    requires AuditBlock(verdict) == Some(block)
    requires Field(block, LinePattern, SkillWinnerLabel) == Some(winner)
    requires Field(block, LinePattern, FactVerdictLabel) == Some(fact)
    ensures var r := ParseVerdictResult(verdict);
      && r.valid && r.parseErrors == []
      && r.skillWinner == StripParenthetical(Clean(winner)) && r.factVerdict == Clean(fact)
  {
  }

  /** The research and rating fields of the result are those read from the block. */
  lemma ParsedResearchFields(verdict: string, block: string)
    requires AuditBlock(verdict) == Some(block)
    ensures var r := ParseVerdictResult(verdict);
      && r.judgeEvidence == BlockValue(block, JudgeEvidenceLabel)
      && r.verdictReason == BlockValue(block, VerdictReasonLabel)
      && r.proCredibility == CredibilityValue(block, ProWord)
      && r.conCredibility == CredibilityValue(block, ConWord)
  {
  }

  /** A plain value is its own cleaned form. */
  lemma CleanPlain(v: string)
    requires PlainValue(v)
    ensures Clean(v) == v
  {
    TrimUntrimmed(v);
    RemoveCharAbsent(v, '*');
  }

  lemma MinimalReportBlock(winner: string, fact: string)
    requires PlainValue(winner) && PlainValue(fact)
    ensures AuditBlock(MinimalReport(winner, fact)) == Some(KeyLines(winner, fact))
  {
    assert '=' !in KeyLines(winner, fact);
    assert [] + OpeningSentinel == OpeningSentinel;
    AuditBlockOfWellFormedReport([], KeyLines(winner, fact));
  }

  lemma KeyLinesWinner(winner: string, fact: string)
    requires PlainValue(winner)
    ensures Field(KeyLines(winner, fact), LinePattern, SkillWinnerLabel) == Some(winner)
  {
    Regroup("\n", SkillWinnerLabel, winner, FactVerdictLabel, fact);
    LineFieldRoundTrip("\n", SkillWinnerLabel, winner, "\n" + FactVerdictLabel + "：" + fact + "\n");
  }

  lemma KeyLinesFact(winner: string, fact: string)
    requires PlainValue(fact) && '事' !in winner
    ensures Field(KeyLines(winner, fact), LinePattern, FactVerdictLabel) == Some(fact)
  {
    var pre := "\n" + SkillWinnerLabel + "：" + winner + "\n";
    assert FactVerdictLabel[0] == '事' && '事' !in SkillWinnerLabel;
    assert '事' !in pre;
    LineFieldRoundTrip(pre, FactVerdictLabel, fact, "\n");
  }

  /**
   * A report carrying a skill winner and a factual verdict as plain values is
   * valid and yields exactly those values.
   */
  lemma MinimalReportRoundTrip(winner: string, fact: string)
    requires PlainValue(winner) && PlainValue(fact)
    requires '事' !in winner && '(' !in winner
    ensures var r := ParseVerdictResult(MinimalReport(winner, fact));
      && r.valid && r.skillWinner == winner && r.factVerdict == fact && r.parseErrors == []
  {
    MinimalReportBlock(winner, fact);
    KeyLinesWinner(winner, fact);
    KeyLinesFact(winner, fact);
    ParsedKeyFields(MinimalReport(winner, fact), KeyLines(winner, fact), winner, fact);
    CleanPlain(winner);
    CleanPlain(fact);
    NotContainsMissingChar(winner, "(", '(');
  }
  // ---------------------------------------------------------------------
  // Reading back the multi-line and credibility fields
  // ---------------------------------------------------------------------

  /** No character of `v` can start a heading that ends a multi-line field. */
  predicate NoHeadingIn(v: string) {
    forall k :: 0 <= k < |v| ==> v[k] != '【' && v[k] != '裁' && v[k] != '致' && v[k] != '来'
  }

  /** No heading starts at a character that cannot start one. */
  lemma NoStopAt(s: string, j: nat)
    requires j < |s| && s[j] != '【' && s[j] != '裁' && s[j] != '致' && s[j] != '来'
    ensures !StopLabelAt(s, j)
  {
    NotOccursAt(s, "【", j);
    NotOccursAt(s, "裁判补充", j);
    NotOccursAt(s, VerdictReasonLabel, j);
    NotOccursAt(s, CriticalRiskLabel, j);
    NotOccursAt(s, CredibilityLabel, j);
  }

  /** The stop is at `j` when no heading starts before it and one starts there, or the text ends. */
  lemma {:induction false} StopAtIs(s: string, i: nat, j: nat)
    requires i <= j <= |s|
    requires forall k :: i <= k < j ==> !StopLabelAt(s, k)
    requires j == |s| || StopLabelAt(s, j)
    ensures StopAt(s, i) == j
    decreases j - i
  {
    if i < j {
      StopAtIs(s, i + 1, j);
    }
  }

  /** A heading at the front of `post` is a heading where `post` starts in the text. */
  lemma StopLabelInTail(s: string, j: nat, post: string)
    requires j <= |s| && s[j..] == post && StopLabelAt(post, 0)
    ensures StopLabelAt(s, j)
  {
    assert post[0..] == post;
  }

  /** A value written after the colon, up to the next heading, is what the multi-line pattern captures. */
  lemma BlockTailAt(s: string, c: nat, value: string)
    requires c + |value| <= |s| && s[c..c + |value|] == value
    requires value != [] && !IsSpace(value[0]) && NoHeadingIn(value)
    requires c + |value| == |s| || StopLabelAt(s, c + |value|)
    ensures BlockTail(s, c) == value
  {
    assert s[c] == value[0];
    assert SkipSpace(s, c) == c;
    forall k | c <= k < c + |value| ensures !StopLabelAt(s, k) {
      assert s[k] == value[k - c];
      NoStopAt(s, k);
    }
    StopAtIs(s, c, c + |value|);
  }

  /** Cleaning a value without stars trims it and turns each run of line feeds into a space. */
  lemma CleanBlockStarless(value: string)
    requires '*' !in value
    ensures CleanBlock(value) == CollapseNewlines(Trim(value))
  {
    var t := Trim(value);
    TrimIsSlice(value);
    var i :| 0 <= i <= |value| - |t| && TrimmedAt(value, t, i);
    assert forall k :: 0 <= k < |t| ==> t[k] == value[i + k];
    RemoveCharAbsent(t, '*');
  }

  /** `label：value` at `p`, the value running to a heading or the end, is read as the value. */
  lemma BlockMatchAt(s: string, name: string, p: nat, value: string)
    requires p + |name| + 1 + |value| <= |s|
    requires s[p..p + |name|] == name && s[p + |name|] == '：'
    requires s[p + |name| + 1..p + |name| + 1 + |value|] == value
    requires value != [] && !IsSpace(value[0]) && NoHeadingIn(value)
    requires p + |name| + 1 + |value| == |s| || StopLabelAt(s, p + |name| + 1 + |value|)
    ensures OccursAt(s, name, p) && MatchAt(s, BlockPattern, name, p) == Some(value)
  {
    LabelAt(s, name, p);
    BlockTailAt(s, p + |name| + 1, value);
    BlockPatternAt(s, name, p, value);
  }

  /** The multi-line pattern at a label followed by a full-width colon captures what follows up to the stop. */
  lemma BlockPatternAt(s: string, name: string, p: nat, value: string)
    requires p + |name| < |s| && s[p + |name|] == '：'
    requires BlockTail(s, p + |name| + 1) == value
    ensures MatchAt(s, BlockPattern, name, p) == Some(value)
  {
    ColonAt(s, p + |name|);
  }

  /**
   * A multi-line field `label：value` whose label does not start earlier in
   * the text, and which runs to the next heading or the end, is read back as
   * the value, trimmed, with each run of line feeds as one space.
   */
  lemma BlockFieldRoundTrip(pre: string, name: string, value: string, post: string)
    requires name != [] && name[0] !in pre
    requires value != [] && !IsSpace(value[0]) && NoHeadingIn(value) && '*' !in value
    requires post == [] || StopLabelAt(post, 0)
    ensures BlockValue(pre + name + "：" + value + post, name) == CollapseNewlines(Trim(value))
  {
    var rest := name + "：" + value + post;
    var s := pre + rest;
    var c := |pre| + |name| + 1;
    RegroupLine(pre, name, value, post);
    LabelledLineLayout(pre, name, value, post);
    if post != [] {
      assert s[c + |value|..] == post;
      StopLabelInTail(s, c + |value|, post);
    }
    BlockMatchAt(s, name, |pre|, value);
    LabelFirstAt(pre, rest, BlockPattern, name);
    CleanBlockStarless(value);
  }

  /** A report with nothing but its audit block. */
  function Report(body: string): string {
    OpeningSentinel + body + ClosingSentinel
  }

  /**
   * In a report, the judge's own evidence and the reasons for the verdict,
   * written over several lines as the verdict prompt asks, are read back
   * trimmed, with each run of line feeds as one space.
   */
  lemma ResearchFieldRoundTrip(pre: string, name: string, value: string, post: string)
    requires name == JudgeEvidenceLabel || name == VerdictReasonLabel
    requires '裁' !in pre && '=' !in pre + name + "：" + value + post
    requires value != [] && !IsSpace(value[0]) && NoHeadingIn(value) && '*' !in value
    requires post == [] || StopLabelAt(post, 0)
    ensures var r := ParseVerdictResult(Report(pre + name + "：" + value + post));
      && (name == JudgeEvidenceLabel ==> r.judgeEvidence == CollapseNewlines(Trim(value)))
      && (name == VerdictReasonLabel ==> r.verdictReason == CollapseNewlines(Trim(value)))
  {
    var body := pre + name + "：" + value + post;
    assert [] + OpeningSentinel == OpeningSentinel;
    AuditBlockOfWellFormedReport([], body);
    ParsedResearchFields(Report(body), body);
    BlockFieldRoundTrip(pre, name, value, post);
  }

  /** `来源可信度-正方：N星` (or `反方`), as the verdict prompt lays the line out. */
  function CredibilityLine(side: string, n: nat): string
    requires n < 10
  {
    CredibilityLabel + "-" + side + "：" + [DigitChar(n), '星']
  }

  lemma DigitCharValue(n: nat)
    requires n < 10
    ensures IsDigit(DigitChar(n)) && DigitChar(n) as int - '0' as int == n
  {
  }

  /** Where the parts of a credibility line sit, and that only its first character can start its label. */
  lemma CredibilityLineLayout(side: string, n: nat)
    requires n < 10 && (side == ProWord || side == ConWord)
    ensures var l := CredibilityLine(side, n);
      && |l| == 11 && l[..5] == CredibilityLabel && l[5] == '-' && l[6..8] == side && l[8] == '：'
      && l[9..] == [DigitChar(n), '星']
      && forall k :: 1 <= k < 11 ==> l[k] != '来'
  {
    DigitCharValue(n);
  }

  /** The rating of a credibility line is its digit. */
  lemma RatingIsDigit(n: nat)
    requires n < 10
    ensures PlainValue([DigitChar(n), '星']) && ParseCredibility([DigitChar(n), '星']) == n
  {
    DigitCharValue(n);
    assert FirstDigit([DigitChar(n), '星'], 0) == 0;
  }

  /** The parts of a credibility line written at `p`. */
  lemma CredibilityLineParts(s: string, p: nat, side: string, n: nat)
    requires n < 10 && (side == ProWord || side == ConWord)
    requires p + 11 <= |s| && s[p..p + 11] == CredibilityLine(side, n)
    ensures s[p..p + 5] == CredibilityLabel && s[p + 5] == '-' && s[p + 6..p + 8] == side
    ensures s[p + 8] == '：' && s[p + 9..p + 11] == [DigitChar(n), '星']
    ensures forall k :: p < k < p + 11 ==> s[k] != '来'
  {
    var l := CredibilityLine(side, n);
    CredibilityLineLayout(side, n);
    assert forall k :: p <= k < p + 11 ==> s[k] == l[k - p];
    assert s[p..p + 5] == l[..5];
    assert s[p + 6..p + 8] == l[6..8];
    assert s[p + 9..p + 11] == l[9..];
  }

  /** The pattern of the line's own side reads its rating. */
  lemma CredibilityLineAt(s: string, p: nat, side: string, n: nat)
    requires n < 10 && (side == ProWord || side == ConWord)
    requires p + 11 <= |s| && s[p..p + 11] == CredibilityLine(side, n)
    requires p + 11 == |s| || IsLineTerminator(s[p + 11])
    ensures OccursAt(s, CredibilityLabel, p)
    ensures MatchAt(s, CredibilityPattern(side), CredibilityLabel, p) == Some([DigitChar(n), '星'])
  {
    var e := p + 5;
    CredibilityLineParts(s, p, side, n);
    LabelAt(s, CredibilityLabel, p);
    LabelAt(s, side, e + 1);
    ColonAt(s, e + 3);
    RatingIsDigit(n);
    LineTailAt(s, e + 4, [DigitChar(n), '星']);
  }

  /** The pattern of the other side does not match at a credibility line. */
  lemma CredibilityLineOther(s: string, p: nat, side: string, other: string, n: nat)
    requires n < 10 && {side, other} == {ProWord, ConWord}
    requires p + 11 <= |s| && s[p..p + 11] == CredibilityLine(side, n)
    ensures MatchAt(s, CredibilityPattern(other), CredibilityLabel, p).None?
  {
    var e := p + 5;
    CredibilityLineParts(s, p, side, n);
    assert s[e + 1] == side[0] && side[0] != other[0] && s[e] != other[0];
    NotOccursAt(s, other, e + 1);
    NotOccursAt(s, other, e);
  }

  /** The two credibility lines of a block. */
  function CredibilityLines(pro: nat, con: nat): string
    requires pro < 10 && con < 10
  {
    CredibilityLine(ProWord, pro) + "\n" + CredibilityLine(ConWord, con)
  }

  /** Where the two lines sit in `pre + lines + post`, and where `来` can occur before the second. */
  lemma CredibilityLinesLayout(pre: string, pro: nat, con: nat, post: string)
    requires pro < 10 && con < 10 && '来' !in pre
    ensures var s := pre + CredibilityLines(pro, con) + post;
      var p := |pre|;
      && |s| == p + 23 + |post|
      && s[p..p + 11] == CredibilityLine(ProWord, pro) && s[p + 11] == '\n'
      && s[p + 12..p + 23] == CredibilityLine(ConWord, con)
      && (post != [] ==> s[p + 23] == post[0])
      && forall j :: 0 <= j < p ==> s[j] != '来'
  {
    var l1, l2 := CredibilityLine(ProWord, pro), CredibilityLine(ConWord, con);
    CredibilityLineLayout(ProWord, pro);
    CredibilityLineLayout(ConWord, con);
    var s := pre + CredibilityLines(pro, con) + post;
    assert s == pre + (l1 + "\n" + l2 + post);
    forall j | 0 <= j < |pre| ensures s[j] != '来' {
      assert s[j] == pre[j] && pre[j] in pre;
    }
  }

  /** The rating of the first credibility line of its side is read, when no `来` comes before it. */
  lemma FirstCredibilityRead(s: string, p: nat, side: string, n: nat)
    requires n < 10 && (side == ProWord || side == ConWord)
    requires p + 11 <= |s| && s[p..p + 11] == CredibilityLine(side, n)
    requires p + 11 == |s| || IsLineTerminator(s[p + 11])
    requires forall j :: 0 <= j < p ==> s[j] != '来'
    ensures CredibilityValue(s, side) == n
  {
    CredibilityLineAt(s, p, side, n);
    NoMatchBefore(s, CredibilityPattern(side), CredibilityLabel, p);
    FieldAt(s, CredibilityPattern(side), CredibilityLabel, p);
    RatingIsDigit(n);
  }

  /** The rating of a line is read when the only earlier `来` starts the other side's line. */
  lemma SecondCredibilityRead(s: string, p1: nat, p: nat, side: string, other: string, m: nat, n: nat)
    requires n < 10 && m < 10 && {side, other} == {ProWord, ConWord}
    requires p1 + 11 <= p && p + 11 <= |s|
    requires s[p1..p1 + 11] == CredibilityLine(other, m) && s[p..p + 11] == CredibilityLine(side, n)
    requires p + 11 == |s| || IsLineTerminator(s[p + 11])
    requires forall j :: 0 <= j < p1 ==> s[j] != '来'
    requires forall j :: p1 + 11 <= j < p ==> s[j] != '来'
    ensures CredibilityValue(s, side) == n
  {
    CredibilityLineAt(s, p, side, n);
    CredibilityLineOther(s, p1, other, side, m);
    CredibilityLineParts(s, p1, other, m);
    forall j | 0 <= j < p ensures !MatchesAt(s, CredibilityPattern(side), CredibilityLabel, j) {
      if j != p1 {
        NotOccursAt(s, CredibilityLabel, j);
      }
    }
    FieldAt(s, CredibilityPattern(side), CredibilityLabel, p);
    RatingIsDigit(n);
  }

  /**
   * Both credibility lines, pro first as the verdict prompt asks, after text
   * without `来` and before a line break or the end, read back as the two
   * ratings.
   */
  lemma CredibilityRoundTrip(pre: string, pro: nat, con: nat, post: string)
    requires pro < 10 && con < 10 && '来' !in pre
    requires post == [] || IsLineTerminator(post[0])
    ensures var block := pre + CredibilityLines(pro, con) + post;
      CredibilityValue(block, ProWord) == pro && CredibilityValue(block, ConWord) == con
  {
    var block := pre + CredibilityLines(pro, con) + post;
    var p := |pre|;
    CredibilityLinesLayout(pre, pro, con, post);
    FirstCredibilityRead(block, p, ProWord, pro);
    SecondCredibilityRead(block, p, p + 12, ConWord, ProWord, pro, con);
  }

  /** In a report, the two credibility lines laid out as the verdict prompt asks read back as the two ratings. */
  lemma CredibilityReportRoundTrip(pre: string, pro: nat, con: nat, post: string)
    requires pro < 10 && con < 10 && '来' !in pre
    requires post == [] || IsLineTerminator(post[0])
    requires '=' !in pre + CredibilityLines(pro, con) + post
    ensures var r := ParseVerdictResult(Report(pre + CredibilityLines(pro, con) + post));
      r.proCredibility == pro && r.conCredibility == con
  {
    var body := pre + CredibilityLines(pro, con) + post;
    assert [] + OpeningSentinel == OpeningSentinel;
    AuditBlockOfWellFormedReport([], body);
    ParsedResearchFields(Report(body), body);
    CredibilityRoundTrip(pre, pro, con, post);
  }
}
