/**
 * The side panel's handling of a captured reply (`RESPONSE_CAPTURED`): the
 * reply is handed to the discussion only while the discussion awaits its
 * author, and to the debate only while the debate awaits its author.
 */
module ResponseRouter {
  import opened DebatePhases
  import opened DebateRecords
  import opened DebateEngine
  import opened DiscussionMode

  /**
   * Routing a captured reply. Because the debate is only handed replies it
   * awaits, a reply that reaches it through this route is always recorded as
   * a statement and never filed as late.
   */
  method OnResponseCaptured(discussion: DiscussionSession, debate: DebateSession, ai: string, content: string)
    requires discussion.Valid() && debate.Valid()
    modifies discussion, debate
    ensures discussion.Valid() && debate.Valid()
    ensures debate.lateResponses == old(debate.lateResponses)
    ensures discussion.active == old(discussion.active) && discussion.currentRound == old(discussion.currentRound)
    ensures !(old(discussion.active) && ai in old(discussion.pending)) ==> unchanged(discussion)
    ensures old(discussion.active) && ai in old(discussion.pending) ==>
      && discussion.history == old(discussion.history) + [Entry(discussion.currentRound, ai, discussion.roundType.value, content)]
      && discussion.pending == old(discussion.pending) - {ai}
    ensures !(old(debate.active) && ai in old(debate.pending)) ==> unchanged(debate)
    ensures old(debate.active) && ai in old(debate.pending) ==>
      && debate.currentPhase < PhaseCount
      && debate.history == old(debate.history) + [RecordedTurn(Phases[debate.currentPhase], ai, debate.SideOfAgent(ai), content)]
      && debate.pending == old(debate.pending) - {ai}
  {
    if discussion.active && ai in discussion.pending {
      discussion.HandleDiscussionResponse(ai, content);
    }
    if debate.active && ai in debate.pending {
      debate.HandleDebateResponse(ai, content);
    }
  }
}
