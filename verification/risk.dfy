/**
 * The single judge's assessment (`processSingleJudgeVerdict`): a report that
 * could not be read is invalid; a readable one is checked against three
 * reliability rules in turn, and the first that fails flags the verdict as
 * risky with its reason; an unflagged tie whose factual verdict says both
 * sides have a point (`各有`) is disputed; anything else stands as the
 * single judge's verdict.
 */
module JudgeVerdict {
  import opened Strings
  import opened Optional
  import opened VerdictParser

  datatype ConsensusLevel = Invalid | SingleJudge | Disputed | RiskFlagged

  datatype Assessment = Assessment(level: ConsensusLevel, riskReason: string)

  const LowCredibilityReason: string := "来源可信度过低 (存在虚假或低质来源)"
  const MissingResearchReason: string := "裁判未提供独立调研或裁决理由"
  const WeakSkillsReason: string := "双方辩论技巧均未达标 (<60分)"

  /** Rule 1: some credibility was read, and one side has two stars or fewer (an unread side counts as 0). */
  predicate LowCredibility(p: ParsedVerdict) {
    (p.proCredibility > 0 || p.conCredibility > 0) && (p.proCredibility <= 2 || p.conCredibility <= 2)
  }

  /** Rule 2: the judge gave neither evidence of their own nor reasons. */
  predicate MissingResearch(p: ParsedVerdict) {
    p.judgeEvidence == "" && p.verdictReason == ""
  }

  /** Rule 3: some skill score was read, and both are under 60 (an unread score counts as 0). */
  predicate WeakSkills(p: ParsedVerdict) {
    (p.proSkillScore > 0 || p.conSkillScore > 0) && p.proSkillScore < 60 && p.conSkillScore < 60
  }

  predicate Risky(p: ParsedVerdict) {
    LowCredibility(p) || MissingResearch(p) || WeakSkills(p)
  }

  /** A tie on skill with a factual verdict that gives each side a point. */
  predicate SplitDecision(p: ParsedVerdict) {
    p.skillWinner == DefaultWinner && Contains(p.factVerdict, "各有")
  }

  /** The reason of the first reliability rule that fails, or the empty text. */
  function RiskReason(p: ParsedVerdict): (reason: string)
    ensures reason == "" <==> !Risky(p)
    ensures LowCredibility(p) ==> reason == LowCredibilityReason
    ensures !LowCredibility(p) && MissingResearch(p) ==> reason == MissingResearchReason
    ensures !LowCredibility(p) && !MissingResearch(p) && WeakSkills(p) ==> reason == WeakSkillsReason
  {
    if LowCredibility(p) then LowCredibilityReason
    else if MissingResearch(p) then MissingResearchReason
    else if WeakSkills(p) then WeakSkillsReason
    else ""
  }

  /** `processSingleJudgeVerdict`, without the display. */
  function ProcessSingleJudgeVerdict(p: ParsedVerdict): (a: Assessment)
    ensures a.level == Invalid <==> !p.valid
    ensures a.level == RiskFlagged <==> p.valid && Risky(p)
    ensures a.level == Disputed <==> p.valid && !Risky(p) && SplitDecision(p)
    ensures a.level == SingleJudge <==> p.valid && !Risky(p) && !SplitDecision(p)
    ensures a.riskReason != "" <==> a.level == RiskFlagged
    ensures a.level == RiskFlagged ==> a.riskReason == RiskReason(p)
  {
    if !p.valid then Assessment(Invalid, "")
    else
      var reason := RiskReason(p);
      if reason != "" then Assessment(RiskFlagged, reason)
      else if SplitDecision(p) then Assessment(Disputed, "")
      else Assessment(SingleJudge, "")
  }

  /** A report without an audit block is invalid, with no reason given. */
  lemma NoBlockIsInvalid(verdict: string)
    requires forall j :: 0 <= j <= |verdict| ==> !SentinelAt(verdict, j)
    ensures ProcessSingleJudgeVerdict(ParseVerdictResult(verdict)) == Assessment(Invalid, "")
  {
  }

  /** A report that names neither a skill winner nor a factual verdict is invalid, whatever else it gives. */
  lemma NoKeyFieldIsInvalid(verdict: string, block: string)
    requires AuditBlock(verdict) == Some(block)
    requires Field(block, LinePattern, SkillWinnerLabel).None? && Field(block, LinePattern, FactVerdictLabel).None?
    ensures ProcessSingleJudgeVerdict(ParseVerdictResult(verdict)).level == Invalid
  {
  }

  /** A field cannot be read from a text that lacks the first character of its label. */
  lemma FieldOfMissingLabel(s: string, pattern: Pattern, name: string)
    requires name != [] && name[0] !in s
    ensures Field(s, pattern, name).None?
  {
    forall j | 0 <= j <= |s|
      ensures !MatchesAt(s, pattern, name, j)
    {
      if j < |s| {
        assert s[j] in s;
        NotOccursAt(s, name, j);
      }
    }
  }

  /** The two key lines alone carry no research and no credibility rating. */
  lemma KeyLinesCarryNoResearch(winner: string, fact: string)
    requires '裁' !in winner && '裁' !in fact && '来' !in winner && '来' !in fact
    ensures var body := KeyLines(winner, fact);
      && BlockValue(body, JudgeEvidenceLabel) == "" && BlockValue(body, VerdictReasonLabel) == ""
      && CredibilityValue(body, ProWord) == 0 && CredibilityValue(body, ConWord) == 0
  {
    var body := KeyLines(winner, fact);
    assert '裁' !in body && '来' !in body;
    FieldOfMissingLabel(body, BlockPattern, JudgeEvidenceLabel);
    FieldOfMissingLabel(body, BlockPattern, VerdictReasonLabel);
    FieldOfMissingLabel(body, CredibilityPattern(ProWord), CredibilityLabel);
    FieldOfMissingLabel(body, CredibilityPattern(ConWord), CredibilityLabel);
  }

  /**
   * A report that gives only the skill winner and the factual verdict is
   * readable but is flagged: the judge supplied no research of their own.
   */
  lemma MinimalReportIsFlagged(winner: string, fact: string)
    requires PlainValue(winner) && PlainValue(fact)
    requires '事' !in winner && '(' !in winner
    requires '裁' !in winner && '裁' !in fact && '来' !in winner && '来' !in fact
    ensures ProcessSingleJudgeVerdict(ParseVerdictResult(MinimalReport(winner, fact)))
      == Assessment(RiskFlagged, MissingResearchReason)
  {
    var report := MinimalReport(winner, fact);
    MinimalReportRoundTrip(winner, fact);
    MinimalReportBlock(winner, fact);
    KeyLinesCarryNoResearch(winner, fact);
    ParsedResearchFields(report, KeyLines(winner, fact));
    UnresearchedIsFlagged(ParseVerdictResult(report));
  }

  /** A readable verdict with no research and no ratings is flagged for the missing research. */
  lemma UnresearchedIsFlagged(p: ParsedVerdict)
    requires p.valid && p.proCredibility == 0 && p.conCredibility == 0
    requires p.judgeEvidence == "" && p.verdictReason == ""
    ensures ProcessSingleJudgeVerdict(p) == Assessment(RiskFlagged, MissingResearchReason)
  {
  }

  /** A valid report with credible sources on both sides, research, and one passing score stands unflagged. */
  lemma SoundReportIsNotFlagged(p: ParsedVerdict)
    requires p.valid
    requires p.proCredibility >= 3 && p.conCredibility >= 3
    requires p.judgeEvidence != "" || p.verdictReason != ""
    requires p.proSkillScore >= 60 || p.conSkillScore >= 60
    ensures ProcessSingleJudgeVerdict(p).level in {SingleJudge, Disputed}
    ensures ProcessSingleJudgeVerdict(p).riskReason == ""
  {
  }
}
