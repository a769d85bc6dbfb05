/** The records a debate keeps: the turns of its transcript and the replies that came too late. */
module DebateRecords {
  import opened Optional
  import opened DebatePhases
  import opened SourceCompliance

  /** An assistant, by its identifier (`claude`, `chatgpt`, `gemini`, ...). */
  type Agent = string

  /**
   * One accepted statement: the phase it answers, who made it, for which side,
   * what it said, and the source check (absent for closing statements).
   */
  datatype Turn = Turn(
    phase: string,
    agent: Agent,
    side: Side,
    content: string,
    sourceCompliance: Option<Compliance>)

  /** A reply that arrived after its phase was over, kept aside (the arrival time is not modelled). */
  datatype LateTurn = LateTurn(phase: string, agent: Agent, side: Side, content: string)
}
