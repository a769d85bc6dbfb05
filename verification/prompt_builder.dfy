/**
 * What each phase prompt of a debate is built from. The fixed instruction
 * text of the templates is not modelled; a prompt is the data it embeds: the
 * motion, the side addressed, and the parts of the transcript it quotes.
 */
module DebatePrompts {
  import opened Optional
  import opened Strings
  import opened DebatePhases
  import opened DebateRecords

  /** A line of the transcript quoted in a closing prompt. */
  datatype ClosingLine = ClosingLine(side: Side, phase: string, content: string)

  /** A line of the transcript quoted in the judge's prompt, which also names the agent. */
  datatype VerdictLine = VerdictLine(side: Side, agent: Agent, phase: string, content: string)

  datatype Prompt =
    | OpeningPrompt(topic: string, side: Side)
    | AttackPrompt(topic: string, side: Side, proOpening: string, conOpening: string, previousAttack: Option<string>)
    | RebuttalPrompt(topic: string, side: Side, round: nat, opposing: string)
    | ClosingPrompt(topic: string, side: Side, finalWord: bool, transcript: seq<ClosingLine>)
    | FallbackPrompt(topic: string, side: Side)
    | VerdictPrompt(topic: string, proAgent: Agent, conAgent: Agent, record: seq<VerdictLine>)

  /** A message handed to an assistant. */
  datatype Dispatch = Dispatch(to: Agent, prompt: Prompt)

  /** The turn matches the search: its side is `side` when `sameSide`, and differs otherwise. */
  predicate SideMatches(t: Turn, side: Side, sameSide: bool) {
    (t.side == side) == sameSide
  }

  /** The index of the latest turn that matches the search, or -1 when none does. */
  function LatestIndex(history: seq<Turn>, side: Side, sameSide: bool): (k: int)
    ensures -1 <= k < |history|
    ensures k >= 0 ==> SideMatches(history[k], side, sameSide)
    ensures forall j :: k < j < |history| ==> !SideMatches(history[j], side, sameSide)
  {
    if history == [] then -1
    else if SideMatches(history[|history| - 1], side, sameSide) then |history| - 1
    else LatestIndex(history[..|history| - 1], side, sameSide)
  }

  /** The content of the latest matching turn, or the empty text. */
  function LatestContent(history: seq<Turn>, side: Side, sameSide: bool): string {
    var k := LatestIndex(history, side, sameSide);
    if k < 0 then "" else history[k].content
  }

  /** The text the other side said last, or the empty text (`getOpposingResponse`). */
  function OpposingResponse(history: seq<Turn>, side: Side): (r: string)
    ensures (forall j :: 0 <= j < |history| ==> history[j].side == side) ==> r == ""
    ensures (exists j :: 0 <= j < |history| && history[j].side != side) ==>
      exists j :: 0 <= j < |history| && history[j].side != side && r == history[j].content
        && forall l :: j < l < |history| ==> history[l].side == side
  {
    var k := LatestIndex(history, side, false);
    if k < 0 then "" else history[k].content
  }

  /**
   * `getOpposingResponse` (`sameSide` false) and `getOwnResponse` (`sameSide`
   * true): a backward scan of the transcript for the latest matching turn.
   */
  method FindLatestResponse(history: seq<Turn>, side: Side, sameSide: bool) returns (content: string)
    ensures content == LatestContent(history, side, sameSide)
  {
    var i := |history| - 1;
    while i >= 0
      invariant -1 <= i < |history|
      invariant forall j :: i < j < |history| ==> !SideMatches(history[j], side, sameSide)
      decreases i
    {
      if SideMatches(history[i], side, sameSide) {
        return history[i].content;
      }
      i := i - 1;
    }
    return "";
  }

  /** The latest opposing text is a statement of the other side, and is empty only if that side said nothing or said the empty text. */
  lemma OpposingResponseComesFromOtherSide(history: seq<Turn>, side: Side)
    ensures OpposingResponse(history, side) != "" ==>
      exists j :: 0 <= j < |history| && history[j].side != side && history[j].content == OpposingResponse(history, side)
    ensures (forall j :: 0 <= j < |history| ==> history[j].side == side) ==> OpposingResponse(history, side) == ""
  {
    var k := LatestIndex(history, side, false);
    if k >= 0 {
      assert history[k].side != side;
    }
  }

  /** A statement appended to the transcript by the other side is what the next search finds. */
  lemma OpposingResponseAfterOpposingTurn(history: seq<Turn>, t: Turn, side: Side)
    requires t.side != side
    ensures OpposingResponse(history + [t], side) == t.content
  {
  }

  /** A statement appended by the asking side does not change what the search finds. */
  lemma OpposingResponseIgnoresOwnTurn(history: seq<Turn>, t: Turn, side: Side)
    requires t.side == side
    ensures OpposingResponse(history + [t], side) == OpposingResponse(history, side)
  {
    assert (history + [t])[..|history|] == history;
  }

  /** The turn is an opening statement of the side. */
  predicate IsOpeningOf(t: Turn, side: Side) {
    t.phase == "opening" && t.side == side
  }

  /** The index of the first opening statement of `side`, or -1. */
  function FirstOpeningIndex(history: seq<Turn>, side: Side): (k: int)
    ensures -1 <= k < |history|
    ensures k >= 0 ==> IsOpeningOf(history[k], side)
    ensures forall j :: 0 <= j < |history| && (k < 0 || j < k) ==> !IsOpeningOf(history[j], side)
  {
    if history == [] then -1
    else if IsOpeningOf(history[0], side) then 0
    else
      var k := FirstOpeningIndex(history[1..], side);
      if k < 0 then -1 else k + 1
  }

  /** The opening statement of the side quoted in attack prompts, or the empty text. */
  function FirstOpening(history: seq<Turn>, side: Side): (r: string)
    ensures (forall j :: 0 <= j < |history| ==> !IsOpeningOf(history[j], side)) ==> r == ""
    ensures (exists j :: 0 <= j < |history| && IsOpeningOf(history[j], side)) ==>
      exists j :: 0 <= j < |history| && IsOpeningOf(history[j], side) && r == history[j].content
        && forall l :: 0 <= l < j ==> !IsOpeningOf(history[l], side)
  {
    var k := FirstOpeningIndex(history, side);
    if k < 0 then "" else history[k].content
  }

  /** The opening quoted is that of the first opening turn of the side, whatever follows it. */
  lemma FirstOpeningIsStable(history: seq<Turn>, more: seq<Turn>, side: Side)
    requires FirstOpeningIndex(history, side) >= 0
    ensures FirstOpening(history + more, side) == FirstOpening(history, side)
  {
    var k := FirstOpeningIndex(history, side);
    FirstOpeningIndexExtended(history, more, side);
    assert (history + more)[k] == history[k];
  }

  /** Turns added after a side's first opening leave its index in place. */
  lemma FirstOpeningIndexExtended(history: seq<Turn>, more: seq<Turn>, side: Side)
    requires FirstOpeningIndex(history, side) >= 0
    ensures FirstOpeningIndex(history + more, side) == FirstOpeningIndex(history, side)
  {
    var k := FirstOpeningIndex(history, side);
    var all := history + more;
    FirstOpeningIndexIs(all, side, k);
  }

  /** The first opening is at `k` when the turn there opens for the side and none before it does. */
  lemma {:induction false} FirstOpeningIndexIs(history: seq<Turn>, side: Side, k: nat)
    requires k < |history| && IsOpeningOf(history[k], side)
    requires forall j :: 0 <= j < k ==> !IsOpeningOf(history[j], side)
    ensures FirstOpeningIndex(history, side) == k
  {
    if k > 0 {
      assert !IsOpeningOf(history[0], side);
      forall j | 0 <= j < k - 1
        ensures !IsOpeningOf(history[1..][j], side)
      {
        assert history[1..][j] == history[j + 1];
      }
      FirstOpeningIndexIs(history[1..], side, k - 1);
    }
  }

  /** The transcript as a closing prompt quotes it: every turn, in order. */
  function ClosingRecord(history: seq<Turn>): (r: seq<ClosingLine>)
    ensures |r| == |history|
    ensures forall i :: 0 <= i < |r| ==>
      r[i].side == history[i].side && r[i].phase == history[i].phase && r[i].content == history[i].content
  {
    seq(|history|, i requires 0 <= i < |history| => ClosingLine(history[i].side, history[i].phase, history[i].content))
  }

  /** The transcript as the judge's prompt quotes it: every turn, in order, with its agent. */
  function VerdictRecord(history: seq<Turn>): (r: seq<VerdictLine>)
    ensures |r| == |history|
    ensures forall i :: 0 <= i < |r| ==>
      && r[i].side == history[i].side && r[i].agent == history[i].agent
      && r[i].phase == history[i].phase && r[i].content == history[i].content
  {
    seq(|history|, i requires 0 <= i < |history| =>
      VerdictLine(history[i].side, history[i].agent, history[i].phase, history[i].content))
  }

  /** Quoting a longer transcript quotes the earlier turns as before, then the new ones. */
  lemma ClosingRecordAppend(history: seq<Turn>, more: seq<Turn>)
    ensures ClosingRecord(history + more) == ClosingRecord(history) + ClosingRecord(more)
  {
    var a, b, c := ClosingRecord(history + more), ClosingRecord(history), ClosingRecord(more);
    forall i | 0 <= i < |a| ensures a[i] == (b + c)[i] {
      if i >= |history| {
        assert (history + more)[i] == more[i - |history|];
      }
    }
  }

  /** The judge's record of a longer transcript extends the earlier record by the new turns. */
  lemma VerdictRecordAppend(history: seq<Turn>, more: seq<Turn>)
    ensures VerdictRecord(history + more) == VerdictRecord(history) + VerdictRecord(more)
  {
    var a, b, c := VerdictRecord(history + more), VerdictRecord(history), VerdictRecord(more);
    forall i | 0 <= i < |a| ensures a[i] == (b + c)[i] {
      if i >= |history| {
        assert (history + more)[i] == more[i - |history|];
      }
    }
  }

  /** The round of a rebuttal phase: 1 for a name ending in `_1`, else 2. */
  function RebuttalRound(phase: string): (round: nat)
    ensures round == 1 || round == 2
  {
    if EndsWith(phase, "_1") then 1 else 2
  }

  /**
   * `generatePhasePrompt`: attack phases quote both openings and, for the
   * second attacker, the first attack; rebuttals quote the latest opposing
   * statement; closings quote the whole transcript and give the final-word
   * note to `closing_pro` only; anything else gets the fallback prompt.
   */
  function PhasePrompt(topic: string, history: seq<Turn>, phase: string, side: Side): (p: Prompt)
    ensures !p.VerdictPrompt? && !p.OpeningPrompt? && p.topic == topic && p.side == side
    ensures p.AttackPrompt? <==> phase == "attack_pro" || phase == "attack_con"
    ensures p.AttackPrompt? ==>
      && p.proOpening == FirstOpening(history, Pro)
      && p.conOpening == FirstOpening(history, Con)
      && (p.previousAttack.Some? <==> phase == "attack_con" && OpposingResponse(history, side) != "")
      && (p.previousAttack.Some? ==> p.previousAttack.value == OpposingResponse(history, side))
    ensures p.RebuttalPrompt? <==> !p.AttackPrompt? && Contains(phase, "rebuttal")
    ensures p.RebuttalPrompt? ==> p.opposing == OpposingResponse(history, side) && p.round == RebuttalRound(phase)
    ensures p.ClosingPrompt? <==> !p.AttackPrompt? && !p.RebuttalPrompt? && IsClosingPhase(phase)
    ensures p.ClosingPrompt? ==> (p.finalWord <==> phase == "closing_pro") && p.transcript == ClosingRecord(history)
  {
    if phase == "attack_pro" || phase == "attack_con" then
      var previous := OpposingResponse(history, side);
      AttackPrompt(topic, side, FirstOpening(history, Pro), FirstOpening(history, Con),
        if phase == "attack_con" && previous != "" then Some(previous) else None)
    else if Contains(phase, "rebuttal") then
      RebuttalPrompt(topic, side, RebuttalRound(phase), OpposingResponse(history, side))
    else if IsClosingPhase(phase) then
      ClosingPrompt(topic, side, phase == "closing_pro", ClosingRecord(history))
    else
      FallbackPrompt(topic, side)
  }

  /** The prompt builder as the phase advance runs it, with the backward scan for the opposing statement. */
  method GeneratePhasePrompt(topic: string, history: seq<Turn>, phase: string, side: Side) returns (p: Prompt)
    ensures p == PhasePrompt(topic, history, phase, side)
  {
    if phase == "attack_pro" || phase == "attack_con" {
      var previous := FindLatestResponse(history, side, false);
      p := AttackPrompt(topic, side, FirstOpening(history, Pro), FirstOpening(history, Con),
        if phase == "attack_con" && previous != "" then Some(previous) else None);
    } else if Contains(phase, "rebuttal") {
      var opposing := FindLatestResponse(history, side, false);
      p := RebuttalPrompt(topic, side, RebuttalRound(phase), opposing);
    } else if IsClosingPhase(phase) {
      p := ClosingPrompt(topic, side, phase == "closing_pro", ClosingRecord(history));
    } else {
      p := FallbackPrompt(topic, side);
    }
  }

  lemma RebuttalNames(phase: string, round: nat)
    requires phase in {"rebuttal_pro_1", "rebuttal_con_1", "rebuttal_pro_2", "rebuttal_con_2"}
    requires round == (if phase[|phase| - 1] == '1' then 1 else 2)
    ensures Contains(phase, "rebuttal") && RebuttalRound(phase) == round
  {
    assert OccursAt(phase, "rebuttal", 0);
    ContainsAt(phase, "rebuttal", 0);
    if round == 2 {
      assert phase[|phase| - 1] != "_1"[1];
    }
  }

  /**
   * Over the schedule: the two attack phases get attack prompts, the four
   * rebuttals get rebuttal prompts of rounds 1, 1, 2, 2, and the two closings
   * get closing prompts of which only the last carries the final-word note.
   */
  lemma PromptKindsFollowSchedule(topic: string, history: seq<Turn>, i: nat, side: Side)
    requires 1 <= i < PhaseCount
    ensures var p := PhasePrompt(topic, history, Phases[i], side);
      && (i <= 2 <==> p.AttackPrompt?)
      && (3 <= i <= 6 <==> p.RebuttalPrompt?)
      && (3 <= i <= 6 ==> p.round == (if i <= 4 then 1 else 2))
      && (7 <= i <==> p.ClosingPrompt?)
      && (p.ClosingPrompt? ==> (p.finalWord <==> i == PhaseCount - 1))
  {
    if i <= 2 {
      AttackPhasePrompt(topic, history, i, side);
    } else if i <= 6 {
      RebuttalPhasePrompt(topic, history, i, side);
    } else {
      ClosingPhasePrompt(topic, history, i, side);
    }
  }

  lemma AttackPhasePrompt(topic: string, history: seq<Turn>, i: nat, side: Side)
    requires 1 <= i <= 2
    ensures PhasePrompt(topic, history, Phases[i], side).AttackPrompt?
  {
  }

  lemma RebuttalPhasePrompt(topic: string, history: seq<Turn>, i: nat, side: Side)
    requires 3 <= i <= 6
    ensures var p := PhasePrompt(topic, history, Phases[i], side);
      p.RebuttalPrompt? && p.round == (if i <= 4 then 1 else 2)
  {
    var phase := Phases[i];
    assert phase != "attack_pro" && phase != "attack_con";
    RebuttalNames(phase, if i <= 4 then 1 else 2);
  }

  lemma ClosingPhasePrompt(topic: string, history: seq<Turn>, i: nat, side: Side)
    requires 7 <= i < PhaseCount
    ensures var p := PhasePrompt(topic, history, Phases[i], side);
      p.ClosingPrompt? && (p.finalWord <==> i == PhaseCount - 1)
  {
    var phase := Phases[i];
    assert phase != "attack_pro" && phase != "attack_con";
    NotContainsMissingChar(phase, "rebuttal", 'b');
    ClosingPhasesAreTheLastTwo(i);
  }

  /** The opening phase name, were it passed in, would get the fallback prompt. */
  lemma OpeningNameGetsFallback(topic: string, history: seq<Turn>, side: Side)
    ensures PhasePrompt(topic, history, "opening", side).FallbackPrompt?
  {
    NotContainsMissingChar("opening", "rebuttal", 'b');
    ClosingPhasesAreTheLastTwo(0);
  }
}
