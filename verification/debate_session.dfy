/**
 * The debate engine's state (`debateState`) and the operations that change
 * it: starting a debate, taking a debater's reply, closing a phase, moving
 * to the next phase, asking the judge for a verdict, taking the verdict, and
 * resetting. Messages to the assistants are recorded, in order, in an outbox.
 */
module DebateEngine {
  import opened Optional
  import opened Strings
  import opened DebatePhases
  import opened DebateRecords
  import opened SourceCompliance
  import opened DebatePrompts
  import opened VerdictParser
  import opened JudgeVerdict

  /** The debaters who owe a statement in a phase with the given speaker. */
  function Debaters(pro: Agent, con: Agent, speaker: Speaker): (r: set<Agent>)
    ensures speaker.Both? ==> r == {pro, con}
    ensures speaker.Single? ==> r == {if speaker.side == Pro then pro else con}
  {
    match speaker
    case Both => {pro, con}
    case Single(side) => if side == Pro then {pro} else {con}
  }

  /** The side an agent argues for: the proposition's agent is `Pro`, anyone else `Con`. */
  function SideOf(pro: Agent, agent: Agent): Side {
    if agent == pro then Pro else Con
  }

  /**
   * A statement as the response handler records it: closing statements carry
   * no source check, every other statement carries the check of its content.
   */
  function RecordedTurn(phase: string, agent: Agent, side: Side, content: string): (t: Turn)
    ensures t.phase == phase && t.agent == agent && t.side == side && t.content == content
    ensures t.sourceCompliance.None? <==> IsClosingPhase(phase)
    ensures t.sourceCompliance.Some? ==> t.sourceCompliance.value.urlCount == CountUrls(content)
  {
    Turn(phase, agent, side, content, if IsClosingPhase(phase) then None else Some(CheckSourceCompliance(content)))
  }

  /**
   * A turn of the transcript of the debate between `pro` and `con`: it was
   * spoken by one of them, for that debater's side, in a phase of the schedule
   * that the side speaks in, and it carries a source check unless it closes.
   */
  predicate WellFormedTurn(t: Turn, pro: Agent, con: Agent) {
    && (t.agent == pro || t.agent == con)
    && t.side == SideOf(pro, t.agent)
    && t.phase in Phases
    && (GetPhaseDebater(t.phase) == Some(Both) || GetPhaseDebater(t.phase) == Some(Single(t.side)))
    && (t.sourceCompliance.None? <==> IsClosingPhase(t.phase))
  }

  /** A late reply of the debate between `pro` and `con`: from one of them, filed under that debater's side. */
  predicate WellFormedLateTurn(t: LateTurn, pro: Agent, con: Agent) {
    (t.agent == pro || t.agent == con) && t.side == SideOf(pro, t.agent)
  }

  class DebateSession {
    var active: bool
    var topic: string
    var proAI: Option<Agent>
    var conAI: Option<Agent>
    var judgeAI: Option<Agent>
    var currentPhase: int
    var history: seq<Turn>
    var pending: set<Agent>
    var phaseInFlight: bool
    var lateResponses: seq<LateTurn>
    var verdict: Option<string>
    /** Every message sent to an assistant, oldest first. */
    var outbox: seq<Dispatch>

    /** The roles are filled together, by three different assistants, for a non-empty motion. */
    predicate RolesAssigned()
      reads this
    {
      && proAI.Some? && conAI.Some? && judgeAI.Some?
      && proAI.value != conAI.value && judgeAI.value != proAI.value && judgeAI.value != conAI.value
      && topic != ""
    }

    /** Everything `Valid` asks except the link between the in-flight flag and the awaited replies. */
    predicate Consistent()
      reads this
    {
      && currentPhase >= 0
      && (proAI.Some? || conAI.Some? || judgeAI.Some? ==> RolesAssigned())
      && (active ==> RolesAssigned())
      && (pending != {} ==>
            && RolesAssigned() && currentPhase < PhaseCount
            && pending <= Debaters(proAI.value, conAI.value, ScheduledSpeaker(currentPhase)))
      && (history != [] || lateResponses != [] ==> RolesAssigned())
      && (forall t :: t in history ==> WellFormedTurn(t, proAI.value, conAI.value))
      && (forall t :: t in lateResponses ==> WellFormedLateTurn(t, proAI.value, conAI.value))
    }

    /**
     * The invariant of the debate state: a phase is in flight exactly while
     * some debater owes a reply, and only the debaters the schedule names for
     * the current phase can owe one.
     */
    predicate Valid()
      reads this
    {
      Consistent() && (phaseInFlight <==> pending != {})
    }

    /** The state `resetDebate` leaves, which is also the state before any debate. */
    predicate Idle()
      reads this
    {
      && !active && topic == "" && proAI.None? && conAI.None? && judgeAI.None?
      && currentPhase == 0 && history == [] && pending == {} && !phaseInFlight
      && lateResponses == [] && verdict.None?
    }

    /** The side the agent argues for, as the response handler reads it off the roles. */
    function SideOfAgent(agent: Agent): (side: Side)
      reads this
      ensures proAI.Some? ==> side == SideOf(proAI.value, agent)
    {
      if proAI == Some(agent) then Pro else Con
    }

    /** The agent is one of the two debaters. */
    predicate IsDebater(agent: Agent)
      reads this
    {
      proAI == Some(agent) || conAI == Some(agent)
    }

    constructor ()
      ensures Valid() && Idle() && outbox == []
    {
      active := false;
      topic := "";
      proAI, conAI, judgeAI := None, None, None;
      currentPhase := 0;
      history := [];
      pending := {};
      phaseInFlight := false;
      lateResponses := [];
      verdict := None;
      outbox := [];
    }

    /**
     * `startDebate`: a blank motion, one assistant on both sides, or a judge
     * who also debates leaves everything as it was; otherwise a new debate
     * replaces whatever state there was, both debaters owe an opening
     * statement, and each is sent the opening prompt for the trimmed motion.
     */
    method StartDebate(rawTopic: string, pro: Agent, con: Agent, judge: Agent)
      requires Valid()
      modifies this
      ensures Valid()
      ensures Trim(rawTopic) == "" || pro == con || judge == pro || judge == con ==> unchanged(this)
      ensures !(Trim(rawTopic) == "" || pro == con || judge == pro || judge == con) ==>
        && active && topic == Trim(rawTopic)
        && proAI == Some(pro) && conAI == Some(con) && judgeAI == Some(judge)
        && currentPhase == 0 && history == [] && pending == {pro, con} && phaseInFlight
        && lateResponses == [] && verdict.None?
        && outbox == old(outbox) + [Dispatch(pro, OpeningPrompt(Trim(rawTopic), Pro)), Dispatch(con, OpeningPrompt(Trim(rawTopic), Con))]
    {
      var t := Trim(rawTopic);
      if t == "" || pro == con || judge == pro || judge == con {
        return;
      }
      Begin(t, pro, con, judge);
    }

    /** The state a new debate starts from, and the two opening prompts sent in parallel. */
    method Begin(t: string, pro: Agent, con: Agent, judge: Agent)
      requires t != "" && pro != con && judge != pro && judge != con
      modifies this
      ensures Valid()
      ensures && active && topic == t
        && proAI == Some(pro) && conAI == Some(con) && judgeAI == Some(judge)
        && currentPhase == 0 && history == [] && pending == {pro, con} && phaseInFlight
        && lateResponses == [] && verdict.None?
        && outbox == old(outbox) + [Dispatch(pro, OpeningPrompt(t, Pro)), Dispatch(con, OpeningPrompt(t, Con))]
    {
      ResetDebate();
      active, topic := true, t;
      proAI, conAI, judgeAI := Some(pro), Some(con), Some(judge);
      pending, phaseInFlight := {pro, con}, true;
      outbox := outbox + [Dispatch(pro, OpeningPrompt(t, Pro)), Dispatch(con, OpeningPrompt(t, Con))];
      assert pending <= Debaters(pro, con, ScheduledSpeaker(0));
    }

    /** `onDebatePhaseComplete`: every awaited reply is in, so the phase is no longer in flight. */
    method OnDebatePhaseComplete()
      requires Consistent() && pending == {}
      modifies this`phaseInFlight
      ensures Valid() && !phaseInFlight
    {
      phaseInFlight := false;
    }

    /**
     * `handleDebateResponse`: nothing happens outside an active debate or for
     * an assistant that does not debate; a debater who owes nothing has the
     * reply filed as late, under the phase before the current one; a debater
     * who owes a statement has it appended to the transcript under the current
     * phase and no longer owes it, and the phase completes when nobody does.
     */
    method HandleDebateResponse(agent: Agent, content: string)
      requires Valid()
      modifies this
      ensures Valid()
      ensures !old(active) || !old(IsDebater(agent)) ==> unchanged(this)
      ensures old(active) && old(IsDebater(agent)) && agent !in old(pending) ==>
        && lateResponses == old(lateResponses) + [LateTurn(LatePhaseTag(currentPhase), agent, SideOfAgent(agent), content)]
        && history == old(history) && pending == old(pending) && phaseInFlight == old(phaseInFlight)
      ensures old(active) && agent in old(pending) ==>
        && currentPhase < PhaseCount
        && history == old(history) + [RecordedTurn(Phases[currentPhase], agent, SideOfAgent(agent), content)]
        && pending == old(pending) - {agent}
        && (phaseInFlight <==> pending != {})
        && lateResponses == old(lateResponses)
      ensures active == old(active) && topic == old(topic) && currentPhase == old(currentPhase)
      ensures proAI == old(proAI) && conAI == old(conAI) && judgeAI == old(judgeAI)
      ensures verdict == old(verdict) && outbox == old(outbox)
    {
      if !active || !IsDebater(agent) {
        return;
      }
      if agent !in pending {
        FileLateResponse(agent, content);
      } else {
        RecordStatement(agent, content);
      }
    }

    /** A reply from a debater who owes nothing is kept aside, under the phase before the current one. */
    method FileLateResponse(agent: Agent, content: string)
      requires Valid() && active && IsDebater(agent)
      modifies this`lateResponses
      ensures Valid()
      ensures lateResponses == old(lateResponses) + [LateTurn(LatePhaseTag(currentPhase), agent, SideOfAgent(agent), content)]
    {
      lateResponses := lateResponses + [LateTurn(LatePhaseTag(currentPhase), agent, SideOfAgent(agent), content)];
    }

    /** The awaited statement of a debater joins the transcript, and the phase completes once nobody owes one. */
    method RecordStatement(agent: Agent, content: string)
      requires Valid() && agent in pending
      modifies this`history, this`pending, this`phaseInFlight
      ensures Valid()
      ensures currentPhase < PhaseCount
      ensures history == old(history) + [RecordedTurn(Phases[currentPhase], agent, SideOfAgent(agent), content)]
      ensures pending == old(pending) - {agent}
      ensures phaseInFlight <==> pending != {}
    {
      var pro := proAI.value;
      var con := conAI.value;
      var phase := Phases[currentPhase];
      GetPhaseDebaterFollowsSchedule(currentPhase);
      var turn := RecordedTurn(phase, agent, SideOfAgent(agent), content);
      assert WellFormedTurn(turn, pro, con);
      history := history + [turn];
      pending := pending - {agent};
      if pending == {} {
        OnDebatePhaseComplete();
      }
    }

    /**
     * `nextDebatePhase`: refused outside an active debate, while a phase is in
     * flight or while a reply is awaited; otherwise the phase index moves on
     * (also past the last phase, where nothing more happens), and within the
     * schedule the phase's one debater is sent the phase prompt and owes a
     * reply. The opening is never reached this way, so one debater speaks.
     */
    method NextDebatePhase()
      requires Valid()
      modifies this
      ensures Valid()
      ensures active == old(active) && topic == old(topic) && history == old(history)
      ensures proAI == old(proAI) && conAI == old(conAI) && judgeAI == old(judgeAI)
      ensures lateResponses == old(lateResponses) && verdict == old(verdict)
      ensures !old(active) || old(phaseInFlight) || old(pending) != {} ==> unchanged(this)
      ensures old(active) && !old(phaseInFlight) && old(pending) == {} ==>
        && RolesAssigned()
        && currentPhase == old(currentPhase) + 1
        && (currentPhase >= PhaseCount ==> pending == {} && !phaseInFlight && outbox == old(outbox))
        && (currentPhase < PhaseCount ==>
              && ScheduledSpeaker(currentPhase).Single?
              && var side := ScheduledSpeaker(currentPhase).side;
              && var debater := if side == Pro then proAI.value else conAI.value;
              && phaseInFlight && pending == {debater}
              && outbox == old(outbox) + [Dispatch(debater, PhasePrompt(topic, history, Phases[currentPhase], side))])
    {
      if !active || phaseInFlight || pending != {} {
        return;
      }
      currentPhase := currentPhase + 1;
      if currentPhase >= PhaseCount {
        return;
      }
      OpenPhase();
    }

    /** The debater the schedule names for the current phase is sent its prompt and owes a reply. */
    method OpenPhase()
      requires Valid() && active && !phaseInFlight && pending == {} && 1 <= currentPhase < PhaseCount
      modifies this`phaseInFlight, this`pending, this`outbox
      ensures Valid()
      ensures ScheduledSpeaker(currentPhase).Single?
      ensures var side := ScheduledSpeaker(currentPhase).side;
        var debater := if side == Pro then proAI.value else conAI.value;
        && phaseInFlight && pending == {debater}
        && outbox == old(outbox) + [Dispatch(debater, PhasePrompt(topic, history, Phases[currentPhase], side))]
    {
      var phase := Phases[currentPhase];
      GetPhaseDebaterFollowsSchedule(currentPhase);
      var side := GetPhaseDebater(phase).value.side;
      var debater := if side == Pro then proAI.value else conAI.value;
      var prompt := GeneratePhasePrompt(topic, history, phase, side);
      phaseInFlight := true;
      pending := {debater};
      outbox := outbox + [Dispatch(debater, prompt)];
    }

    /**
     * `requestVerdict`: the judge is sent the motion, the two debaters and the
     * whole transcript. Without assigned roles, naming the agents fails before
     * anything is sent. Polling for the answer is `VerdictPolling`.
     */
    method RequestVerdict()
      requires Valid()
      modifies this`outbox
      ensures Valid()
      ensures proAI.Some? ==>
        outbox == old(outbox) + [Dispatch(judgeAI.value, VerdictPrompt(topic, proAI.value, conAI.value, VerdictRecord(history)))]
      ensures proAI.None? ==> outbox == old(outbox)
    {
      if proAI.None? || conAI.None? || judgeAI.None? {
        return;
      }
      outbox := outbox + [Dispatch(judgeAI.value, VerdictPrompt(topic, proAI.value, conAI.value, VerdictRecord(history)))];
    }

    /**
     * The poll's acceptance of a report: it is stored as the verdict, parsed
     * and assessed, and showing the assessment ends the debate.
     */
    method ReceiveVerdict(report: string) returns (parsed: ParsedVerdict, assessment: Assessment)
      requires Valid()
      modifies this`verdict, this`active
      ensures Valid()
      ensures verdict == Some(report) && !active
      ensures parsed == ParseVerdictResult(report) && parsed.rawText == report
      ensures assessment == ProcessSingleJudgeVerdict(parsed)
      ensures assessment.level == Invalid <==> !parsed.valid
    {
      parsed := ParseVerdictResult(report);
      assessment := ProcessSingleJudgeVerdict(parsed);
      Conclude(report);
    }

    /** The accepted report is kept and the debate is over. */
    method Conclude(report: string)
      requires Valid()
      modifies this`verdict, this`active
      ensures Valid() && verdict == Some(report) && !active
    {
      verdict := Some(report);
      active := false;
    }

    /** `resetDebate`: back to the state before any debate; messages already sent stay sent. */
    method ResetDebate()
      modifies this
      ensures Valid() && Idle() && outbox == old(outbox)
    {
      active := false;
      topic := "";
      proAI, conAI, judgeAI := None, None, None;
      currentPhase := 0;
      history := [];
      pending := {};
      phaseInFlight := false;
      lateResponses := [];
      verdict := None;
    }

    /** `isDebateActive`. */
    function IsDebateActive(): (r: bool)
      reads this
      requires Valid()
      ensures r ==> RolesAssigned()
    {
      active
    }

    /** `isDebatePendingResponse`: the agent owes a reply, which only a debater of the current phase can. */
    function IsDebatePendingResponse(agent: Agent): (r: bool)
      reads this
      requires Valid()
      ensures r ==> phaseInFlight && IsDebater(agent) && currentPhase < PhaseCount
      ensures r ==> agent in Debaters(proAI.value, conAI.value, ScheduledSpeaker(currentPhase))
    {
      agent in pending
    }
  }

  /**
   * Every statement of a well-formed transcript after the openings was made
   * by the side the schedule gives the floor to in its phase.
   */
  lemma TurnSpokenByScheduledSide(t: Turn, pro: Agent, con: Agent)
    requires WellFormedTurn(t, pro, con) && t.phase != "opening"
    ensures exists i :: 1 <= i < PhaseCount && Phases[i] == t.phase && ScheduledSpeaker(i) == Single(t.side)
  {
    var i :| 0 <= i < PhaseCount && Phases[i] == t.phase;
    GetPhaseDebaterFollowsSchedule(i);
  }
}
