/**
 * The fixed schedule of a debate: nine named phases, the rule that reads the
 * speaking side off a phase name, and the two small lookups the response
 * handler makes by phase (closing phases need no sources; a late reply is
 * tagged with the phase before the current one).
 */
module DebatePhases {
  import opened Strings
  import opened Optional

  /** The two sides of the motion. */
  datatype Side = Pro | Con {
    function Opposite(): Side {
      if this == Pro then Con else Pro
    }
  }

  /** Who speaks in a phase: both sides in parallel, or one of them. */
  datatype Speaker = Both | Single(side: Side)

  /** The phases in the order they are played (opening in parallel, then alternating turns). */
  const Phases: seq<string> := [
    "opening",
    "attack_pro", "attack_con",
    "rebuttal_pro_1", "rebuttal_con_1",
    "rebuttal_pro_2", "rebuttal_con_2",
    "closing_con", "closing_pro"
  ]

  /** The number of phases, `DEBATE_PHASES.length`. */
  const PhaseCount: nat := 9

  /**
   * `getPhaseDebater`: `opening` is played by both sides; otherwise a `_pro` or
   * `_con` suffix, and failing that a `_pro_` or `_con_` infix, names the side;
   * any other name has no speaker.
   */
  function GetPhaseDebater(phase: string): (r: Option<Speaker>)
    ensures r == Some(Both) <==> phase == "opening"
    ensures phase != "opening" && EndsWith(phase, "_pro") ==> r == Some(Single(Pro))
    ensures phase != "opening" && !EndsWith(phase, "_pro") && EndsWith(phase, "_con") ==> r == Some(Single(Con))
    ensures phase != "opening" && !EndsWith(phase, "_pro") && !EndsWith(phase, "_con") && Contains(phase, "_pro_") ==>
      r == Some(Single(Pro))
    ensures (phase != "opening" && !EndsWith(phase, "_pro") && !EndsWith(phase, "_con")
      && !Contains(phase, "_pro_") && Contains(phase, "_con_")) ==> r == Some(Single(Con))
    ensures r.None? <==>
      phase != "opening" && !EndsWith(phase, "_pro") && !EndsWith(phase, "_con")
      && !Contains(phase, "_pro_") && !Contains(phase, "_con_")
  {
    if phase == "opening" then Some(Both)
    else if EndsWith(phase, "_pro") then Some(Single(Pro))
    else if EndsWith(phase, "_con") then Some(Single(Con))
    else if Contains(phase, "_pro_") then Some(Single(Pro))
    else if Contains(phase, "_con_") then Some(Single(Con))
    else None
  }

  /** The intended schedule, written by phase index: openings together, then the running order. */
  function ScheduledSpeaker(i: nat): Speaker
    requires i < PhaseCount
  {
    if i == 0 then Both
    else if i == 1 || i == 3 || i == 5 || i == 8 then Single(Pro)
    else Single(Con)
  }

  /** `t` is not a suffix of `s`, as witnessed by one differing position. */
  lemma NotEndsWithAt(s: string, t: string, k: nat)
    requires |t| <= |s| && k < |t| && s[|s| - |t| + k] != t[k]
    ensures !EndsWith(s, t)
  {
  }

  lemma OpeningSpeaker()
    ensures GetPhaseDebater(Phases[0]) == Some(Both)
  {
  }

  lemma AttackSpeakers()
    ensures GetPhaseDebater(Phases[1]) == Some(Single(Pro))
    ensures GetPhaseDebater(Phases[2]) == Some(Single(Con))
  {
    assert EndsWith("attack_pro", "_pro");
    NotEndsWithAt("attack_con", "_pro", 1);
    assert EndsWith("attack_con", "_con");
  }

  lemma RebuttalSpeaker(phase: string, side: Side, round: char)
    requires side == Pro ==> phase == "rebuttal_pro_" + [round]
    requires side == Con ==> phase == "rebuttal_con_" + [round]
    requires round == '1' || round == '2'
    ensures GetPhaseDebater(phase) == Some(Single(side))
  {
    NotEndsWithAt(phase, "_pro", 3);
    NotEndsWithAt(phase, "_con", 3);
    if side == Pro {
      assert OccursAt(phase, "_pro_", 8);
      ContainsAt(phase, "_pro_", 8);
    } else {
      NotContainsMissingChar(phase, "_pro_", 'p');
      assert OccursAt(phase, "_con_", 8);
      ContainsAt(phase, "_con_", 8);
    }
  }

  lemma ClosingSpeakers()
    ensures GetPhaseDebater(Phases[7]) == Some(Single(Con))
    ensures GetPhaseDebater(Phases[8]) == Some(Single(Pro))
  {
    NotEndsWithAt("closing_con", "_pro", 1);
    assert EndsWith("closing_con", "_con");
    assert EndsWith("closing_pro", "_pro");
  }

  /** Reading the speaker off each phase name gives the intended schedule. */
  lemma GetPhaseDebaterFollowsSchedule(i: nat)
    requires i < PhaseCount
    ensures GetPhaseDebater(Phases[i]) == Some(ScheduledSpeaker(i))
  {
    if i == 0 {
      OpeningSpeaker();
    } else if i <= 2 {
      AttackSpeakers();
    } else if i == 3 {
      RebuttalSpeaker(Phases[i], Pro, '1');
    } else if i == 4 {
      RebuttalSpeaker(Phases[i], Con, '1');
    } else if i == 5 {
      RebuttalSpeaker(Phases[i], Pro, '2');
    } else if i == 6 {
      RebuttalSpeaker(Phases[i], Con, '2');
    } else {
      ClosingSpeakers();
    }
  }

  /** Every phase has a speaker; only the first is played by both sides. */
  lemma EveryPhaseHasASpeaker(i: nat)
    requires i < PhaseCount
    ensures GetPhaseDebater(Phases[i]).Some?
    ensures GetPhaseDebater(Phases[i]) == Some(Both) <==> i == 0
  {
    GetPhaseDebaterFollowsSchedule(i);
  }

  /** After the openings each side speaks four times, and the proposition speaks last. */
  lemma TurnsAreBalanced()
    ensures |set i | 1 <= i < PhaseCount && ScheduledSpeaker(i) == Single(Pro)| == 4
    ensures |set i | 1 <= i < PhaseCount && ScheduledSpeaker(i) == Single(Con)| == 4
    ensures ScheduledSpeaker(PhaseCount - 1) == Single(Pro)
  {
    assert (set i | 1 <= i < PhaseCount && ScheduledSpeaker(i) == Single(Pro)) == {1, 3, 5, 8};
    assert (set i | 1 <= i < PhaseCount && ScheduledSpeaker(i) == Single(Con)) == {2, 4, 6, 7};
  }

  /** A closing phase: its statements are not checked for sources. */
  predicate IsClosingPhase(phase: string) {
    StartsWith(phase, "closing")
  }

  /** Exactly the last two phases are closing phases. */
  lemma ClosingPhasesAreTheLastTwo(i: nat)
    requires i < PhaseCount
    ensures IsClosingPhase(Phases[i]) <==> i >= 7
  {
    if i >= 7 {
      assert Phases[i][..7] == "closing";
    } else {
      assert Phases[i][0] != 'c';
    }
  }

  /**
   * The phase a late reply is filed under: the phase before the current one,
   * or `unknown` where that index is outside the schedule.
   */
  function LatePhaseTag(currentPhase: int): (tag: string)
    ensures 1 <= currentPhase <= PhaseCount ==> tag == Phases[currentPhase - 1]
    ensures tag == "unknown" <==> !(1 <= currentPhase <= PhaseCount)
  {
    if 1 <= currentPhase <= PhaseCount then Phases[currentPhase - 1] else "unknown"
  }
}
