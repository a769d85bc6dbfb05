/**
 * Discussion mode (`discussionState` and the functions that update it): two
 * assistants answer a topic, then each is shown the other's answer from the
 * previous round and asked to evaluate it. The state is updated in place;
 * what would be typed into each tab is appended to an outbox.
 */
module DiscussionMode {
  import opened Optional
  import opened Strings
  import opened PanelRelay

  /** What a round asks for. */
  datatype RoundType = Initial | CrossEval

  /** One recorded reply, tagged with the round and the kind of round it answered. */
  datatype Entry = Entry(round: int, ai: string, kind: RoundType, content: string)

  const TopicIntro: string := "Please share your thoughts on the following topic:\n\n"
  const EvaluateRequest: string :=
    "Please evaluate this response. What do you agree with? What do you disagree with? What would you add or change?"

  /** The message that opens a discussion. */
  function TopicMessage(topic: string): (m: string)
    ensures EndsWith(m, topic)
  {
    var m := TopicIntro + topic;
    assert m[|m| - |topic|..] == topic;
    m
  }

  function UpperChar(c: char): char {
    if 'a' <= c <= 'z' then (c as int - 32) as char else c
  }

  /** `capitalize`: the first character upper-cased (ASCII), the rest kept. */
  function Capitalize(s: string): (r: string)
    ensures |r| == |s|
    ensures s != [] ==> r[0] == UpperChar(s[0]) && r[1..] == s[1..]
  {
    if s == [] then [] else [UpperChar(s[0])] + s[1..]
  }

  /** The line that introduces the evaluated reply. */
  function CrossEvalIntro(ai: string, topic: string): string {
    "Here is " + Capitalize(ai) + "'s response to the topic \"" + topic + "\":\n"
  }

  const CrossEvalClosing: string := "\n\n" + EvaluateRequest

  /** The request to evaluate `ai`'s reply on `topic`. */
  function CrossEvalMessage(ai: string, topic: string, reply: string): string {
    CrossEvalIntro(ai, topic) + QuoteBlock(ai, reply) + CrossEvalClosing
  }

  /** A cross-evaluation request quotes the evaluated reply under its author's name and ends with the request. */
  lemma CrossEvalQuotesReply(ai: string, topic: string, reply: string)
    ensures Contains(CrossEvalMessage(ai, topic, reply), QuoteBlock(ai, reply))
    ensures EndsWith(CrossEvalMessage(ai, topic, reply), CrossEvalClosing)
  {
    ContainsMiddle(CrossEvalIntro(ai, topic), QuoteBlock(ai, reply), CrossEvalClosing);
    EndsWithAppended(CrossEvalIntro(ai, topic) + QuoteBlock(ai, reply), CrossEvalClosing);
  }

  // ---------------------------------------------------------------------
  // Looking up a reply
  // ---------------------------------------------------------------------

  predicate ReplyOf(e: Entry, round: int, ai: string) {
    e.round == round && e.ai == ai
  }

  /** The index of the first entry recording `ai`'s reply in `round`, or -1. */
  function FirstEntry(history: seq<Entry>, round: int, ai: string): (k: int)
    ensures -1 <= k < |history|
    ensures k >= 0 ==> ReplyOf(history[k], round, ai)
    ensures k >= 0 ==> forall j :: 0 <= j < k ==> !ReplyOf(history[j], round, ai)
    ensures k == -1 ==> forall j :: 0 <= j < |history| ==> !ReplyOf(history[j], round, ai)
  {
    if history == [] then -1
    else if ReplyOf(history[0], round, ai) then 0
    else
      var k := FirstEntry(history[1..], round, ai);
      if k == -1 then -1 else k + 1
  }

  /** `history.find(h => h.round === round && h.ai === ai)?.content`. */
  function FirstReply(history: seq<Entry>, round: int, ai: string): (r: Option<string>)
    ensures r.None? <==> forall j :: 0 <= j < |history| ==> !ReplyOf(history[j], round, ai)
    ensures r.Some? ==>
      exists j :: 0 <= j < |history| && ReplyOf(history[j], round, ai) && history[j].content == r.value
        && forall l :: 0 <= l < j ==> !ReplyOf(history[l], round, ai)
  {
    var k := FirstEntry(history, round, ai);
    if k < 0 then None else Some(history[k].content)
  }

  /** The first reply recorded for an assistant in a round is the one found, whatever is recorded after it. */
  lemma RecordedReplyIsFound(history: seq<Entry>, e: Entry, more: seq<Entry>)
    requires forall j :: 0 <= j < |history| ==> !ReplyOf(history[j], e.round, e.ai)
    ensures FirstReply(history + [e] + more, e.round, e.ai) == Some(e.content)
  {
    var h := history + [e] + more;
    assert h[|history|] == e;
    assert forall j :: 0 <= j < |history| ==> h[j] == history[j];
    var k := FirstEntry(h, e.round, e.ai);
    assert k == |history|;
  }

  /** The participants and their first replies of one round, when both exist and are not empty. */
  datatype Exchange = Exchange(ai1: string, reply1: string, ai2: string, reply2: string)

  function RoundReplies(participants: seq<string>, history: seq<Entry>, round: int): (r: Option<Exchange>)
    ensures r.Some? <==>
      && |participants| >= 2
      && FirstReply(history, round, participants[0]).Some?
      && FirstReply(history, round, participants[1]).Some?
      && FirstReply(history, round, participants[0]).value != ""
      && FirstReply(history, round, participants[1]).value != ""
    ensures r.Some? ==>
      && r.value.ai1 == participants[0] && r.value.ai2 == participants[1]
      && FirstReply(history, round, participants[0]) == Some(r.value.reply1)
      && FirstReply(history, round, participants[1]) == Some(r.value.reply2)
  {
    if |participants| < 2 then None
    else
      var r1 := FirstReply(history, round, participants[0]);
      var r2 := FirstReply(history, round, participants[1]);
      if r1.None? || r2.None? || r1.value == "" || r2.value == "" then None
      else Some(Exchange(participants[0], r1.value, participants[1], r2.value))
  }

  // ---------------------------------------------------------------------
  // The session
  // ---------------------------------------------------------------------

  class DiscussionSession {
    var active: bool
    var topic: string
    var participants: seq<string>
    var currentRound: int
    var history: seq<Entry>
    var pending: set<string>
    var roundType: Option<RoundType>
    var outbox: seq<Send>

    /**
     * A running discussion has two participants, a topic and a round kind;
     * only participants are awaited; every reply belongs to a round already
     * reached, and replies are recorded in round order.
     */
    predicate Valid()
      reads this
    {
      && currentRound >= 0
      && (active ==> |participants| == 2 && topic != "" && roundType.Some? && currentRound >= 1)
      && (forall a :: a in pending ==> a in participants)
      && (forall k :: 0 <= k < |history| ==> 1 <= history[k].round <= currentRound)
      && (forall j, k :: 0 <= j < k < |history| ==> history[j].round <= history[k].round)
    }

    /** The state before any discussion and after a reset. */
    predicate Idle()
      reads this
    {
      && !active && topic == "" && participants == [] && currentRound == 0
      && history == [] && pending == {} && roundType.None?
    }

    constructor ()
      ensures Valid() && Idle() && outbox == []
    {
      active := false;
      topic := "";
      participants := [];
      currentRound := 0;
      history := [];
      pending := {};
      roundType := None;
      outbox := [];
    }

    /**
     * `startDiscussion`: a blank topic or anything but two selected
     * participants leaves everything as it was; otherwise a new discussion
     * replaces whatever state there was, at round 1, awaiting both, and each
     * is sent the trimmed topic.
     */
    method StartDiscussion(rawTopic: string, selected: seq<string>)
      requires Valid()
      modifies this
      ensures Valid()
      ensures Trim(rawTopic) == "" || |selected| != 2 ==> unchanged(this)
      ensures Trim(rawTopic) != "" && |selected| == 2 ==>
        && active && topic == Trim(rawTopic) && participants == selected
        && currentRound == 1 && history == [] && pending == {selected[0], selected[1]}
        && roundType == Some(Initial)
        && outbox == old(outbox) + [Send(selected[0], TopicMessage(Trim(rawTopic))), Send(selected[1], TopicMessage(Trim(rawTopic)))]
    {
      var t := Trim(rawTopic);
      if t == "" || |selected| != 2 {
        return;
      }
      Begin(t, selected);
    }

    /** The state a new discussion starts from, and the topic sent to both participants. */
    method Begin(t: string, selected: seq<string>)
      requires t != "" && |selected| == 2
      modifies this
      ensures Valid()
      ensures && active && topic == t && participants == selected
        && currentRound == 1 && history == [] && pending == {selected[0], selected[1]}
        && roundType == Some(Initial)
        && outbox == old(outbox) + [Send(selected[0], TopicMessage(t)), Send(selected[1], TopicMessage(t))]
    {
      active := true;
      topic := t;
      participants := selected;
      currentRound := 1;
      history := [];
      pending := {selected[0], selected[1]};
      roundType := Some(Initial);
      outbox := outbox + [Send(selected[0], TopicMessage(t)), Send(selected[1], TopicMessage(t))];
    }

    /**
     * `handleDiscussionResponse`: outside a discussion nothing happens;
     * otherwise the reply is recorded under the current round and its kind,
     * and its author is no longer awaited.
     */
    method HandleDiscussionResponse(ai: string, content: string)
      requires Valid()
      modifies this`history, this`pending
      ensures Valid()
      ensures !active ==> history == old(history) && pending == old(pending)
      ensures active ==>
        && history == old(history) + [Entry(currentRound, ai, roundType.value, content)]
        && pending == old(pending) - {ai}
    {
      if !active {
        return;
      }
      history := history + [Entry(currentRound, ai, roundType.value, content)];
      pending := pending - {ai};
    }

    /**
     * `nextRound`: the round number moves on first, whatever follows; when
     * both participants have a non-empty reply recorded for the round just
     * ended, both are awaited again and each is asked to evaluate the other's
     * reply; otherwise nothing else changes.
     */
    method NextRound()
      requires Valid()
      modifies this`currentRound, this`pending, this`roundType, this`outbox
      ensures Valid()
      ensures currentRound == old(currentRound) + 1
      ensures RoundReplies(participants, history, old(currentRound)).None? ==>
        pending == old(pending) && roundType == old(roundType) && outbox == old(outbox)
      ensures RoundReplies(participants, history, old(currentRound)).Some? ==>
        var x := RoundReplies(participants, history, old(currentRound)).value;
        && pending == {x.ai1, x.ai2}
        && roundType == Some(CrossEval)
        && outbox == old(outbox) + [Send(x.ai1, CrossEvalMessage(x.ai2, topic, x.reply2)), Send(x.ai2, CrossEvalMessage(x.ai1, topic, x.reply1))]
    {
      var prevRound := currentRound;
      AdvanceRound();
      if |participants| < 2 {
        return;
      }
      var ai1, ai2 := participants[0], participants[1];
      var r1 := FirstReply(history, prevRound, ai1);
      var r2 := FirstReply(history, prevRound, ai2);
      if r1.None? || r2.None? || r1.value == "" || r2.value == "" {
        return;
      }
      assert RoundReplies(participants, history, prevRound) == Some(Exchange(ai1, r1.value, ai2, r2.value));
      StartCrossEval(ai1, r1.value, ai2, r2.value);
    }

    /** The round number moves on by one. */
    method AdvanceRound()
      requires Valid()
      modifies this`currentRound
      ensures Valid() && currentRound == old(currentRound) + 1
    {
      currentRound := currentRound + 1;
    }

    /** Both participants are awaited again, each asked to evaluate the other's reply. */
    method StartCrossEval(ai1: string, reply1: string, ai2: string, reply2: string)
      requires Valid() && ai1 in participants && ai2 in participants
      modifies this`pending, this`roundType, this`outbox
      ensures Valid()
      ensures pending == {ai1, ai2} && roundType == Some(CrossEval)
      ensures outbox == old(outbox) + [Send(ai1, CrossEvalMessage(ai2, topic, reply2)), Send(ai2, CrossEvalMessage(ai1, topic, reply1))]
    {
      pending := {ai1, ai2};
      roundType := Some(CrossEval);
      outbox := outbox + [Send(ai1, CrossEvalMessage(ai2, topic, reply2)), Send(ai2, CrossEvalMessage(ai1, topic, reply1))];
    }

    /** `resetDiscussion`: back to the idle state; what was sent stays sent. */
    method ResetDiscussion()
      modifies this
      ensures Valid() && Idle() && outbox == old(outbox)
    {
      active := false;
      topic := "";
      participants := [];
      currentRound := 0;
      history := [];
      pending := {};
      roundType := None;
    }
  }

  /**
   * In a cross-evaluation round each participant is sent the other's reply
   * from the round before, quoted under the other's name, and never its own
   * (the two participants being different assistants).
   */
  lemma CrossEvalSwapsReplies(participants: seq<string>, history: seq<Entry>, round: int, topic: string)
    requires RoundReplies(participants, history, round).Some?
    requires participants[0] != participants[1]
    ensures var x := RoundReplies(participants, history, round).value;
      && Contains(CrossEvalMessage(x.ai2, topic, x.reply2), QuoteBlock(participants[1], FirstReply(history, round, participants[1]).value))
      && Contains(CrossEvalMessage(x.ai1, topic, x.reply1), QuoteBlock(participants[0], FirstReply(history, round, participants[0]).value))
      && x.ai1 != x.ai2
  {
    var x := RoundReplies(participants, history, round).value;
    CrossEvalQuotesReply(x.ai2, topic, x.reply2);
    CrossEvalQuotesReply(x.ai1, topic, x.reply1);
  }
}
