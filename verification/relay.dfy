/**
 * Relaying replies between assistants from the side panel (`handleSend`,
 * `handleCrossReference`, `handleMutualReview`). Each assistant's latest
 * reply is read from a snapshot map (an absent key is a reply that could not
 * be fetched), and what would be typed into each tab is appended to the
 * returned list of sends instead of being delivered.
 */
module PanelRelay {
  import opened Optional
  import opened Strings
  import opened PanelCommands

  /** A message typed into one assistant's tab. */
  datatype Send = Send(to: string, text: string)

  /** One reply quoted for another assistant, wrapped in tags named after its author. */
  function QuoteBlock(ai: string, content: string): (r: string)
    ensures |r| > |content|
  {
    "\n<" + ai + "_response>\n" + content + "\n</" + ai + "_response>"
  }

  // ---------------------------------------------------------------------
  // Containment helpers
  // ---------------------------------------------------------------------

  lemma ContainsExtendedRight(a: string, b: string, p: string)
    requires Contains(a, p)
    ensures Contains(a + b, p)
  {
    var n := IndexOf(a, p);
    assert (a + b)[n..][..|p|] == a[n..][..|p|];
    ContainsAt(a + b, p, n);
  }

  lemma ContainsExtendedLeft(a: string, b: string, p: string)
    requires Contains(b, p)
    ensures Contains(a + b, p)
  {
    var n := IndexOf(b, p);
    assert (a + b)[|a| + n..][..|p|] == b[n..][..|p|];
    ContainsAt(a + b, p, |a| + n);
  }

  lemma ContainsMiddle(a: string, p: string, b: string)
    ensures Contains(a + p + b, p)
  {
    assert (a + p + b)[|a|..][..|p|] == p;
    ContainsAt(a + p + b, p, |a|);
  }

  // ---------------------------------------------------------------------
  // Mutual review
  // ---------------------------------------------------------------------

  /** `participants.filter(ai => ai !== target)`: everyone but the target, in their order. */
  function Others(participants: seq<string>, target: string): (r: seq<string>)
    ensures forall a :: a in r <==> a in participants && a != target
    ensures |r| <= |participants|
  {
    if participants == [] then []
    else if participants[0] != target then [participants[0]] + Others(participants[1..], target)
    else Others(participants[1..], target)
  }

  /** The review goes ahead only when every participant has a reply that is not blank after trimming. */
  predicate AllReplied(participants: seq<string>, latest: map<string, string>) {
    forall a :: a in participants ==> a in latest && !AllSpace(latest[a])
  }

  const ReviewHeader: string := "以下是其他 AI 的观点：\n"

  /** The quoted replies of `sources`, in order, each followed by a line break. */
  function ReviewBody(sources: seq<string>, replies: map<string, string>): string
    requires forall a :: a in sources ==> a in replies
  {
    if sources == [] then ""
    else
      var last := sources[|sources| - 1];
      ReviewBody(sources[..|sources| - 1], replies) + QuoteBlock(last, replies[last]) + "\n"
  }

  function ReviewText(sources: seq<string>, prompt: string, replies: map<string, string>): string
    requires forall a :: a in sources ==> a in replies
  {
    ReviewHeader + ReviewBody(sources, replies) + "\n" + prompt
  }

  /**
   * What a mutual review sends: nothing when a participant has no usable
   * reply, otherwise one message per participant, in their order.
   */
  function MutualReviewPlan(participants: seq<string>, prompt: string, latest: map<string, string>): (sent: seq<Send>)
    ensures !AllReplied(participants, latest) ==> sent == []
    ensures AllReplied(participants, latest) ==>
      && |sent| == |participants|
      && forall i :: 0 <= i < |sent| ==> sent[i].to == participants[i]
  {
    if !AllReplied(participants, latest) then []
    else
      seq(|participants|, i requires 0 <= i < |participants| => ReviewSend(participants, i, prompt, latest))
  }

  /** Every quoted source appears in the review body with its own reply. */
  lemma {:induction false} QuotedInReview(sources: seq<string>, replies: map<string, string>, k: nat)
    requires forall a :: a in sources ==> a in replies
    requires k < |sources|
    ensures Contains(ReviewBody(sources, replies), QuoteBlock(sources[k], replies[sources[k]]))
    decreases |sources|
  {
    var n := |sources| - 1;
    var front := ReviewBody(sources[..n], replies);
    var block := QuoteBlock(sources[n], replies[sources[n]]);
    assert ReviewBody(sources, replies) == front + block + "\n";
    if k == n {
      ContainsMiddle(front, block, "\n");
    } else {
      assert sources[..n][k] == sources[k];
      QuotedInReview(sources[..n], replies, k);
      ContainsExtendedRight(front, block + "\n", QuoteBlock(sources[k], replies[sources[k]]));
      assert front + (block + "\n") == front + block + "\n";
    }
  }

  /**
   * In a mutual review every participant receives the reply of every other
   * participant, quoted under that participant's name, after the header and
   * before the prompt.
   */
  lemma MutualReviewQuotesEveryOther(participants: seq<string>, prompt: string, latest: map<string, string>, i: nat, a: string)
    requires AllReplied(participants, latest) && i < |participants|
    requires a in participants && a != participants[i]
    ensures var text := MutualReviewPlan(participants, prompt, latest)[i].text;
      && StartsWith(text, ReviewHeader)
      && Contains(text, QuoteBlock(a, latest[a]))
      && EndsWith(text, "\n" + prompt)
  {
    var sources := Others(participants, participants[i]);
    assert MutualReviewPlan(participants, prompt, latest)[i].text == ReviewText(sources, prompt, latest);
    ReviewTextQuotes(sources, prompt, latest, a);
  }

  /** A review opens with the header, quotes each of its sources, and ends with the prompt. */
  lemma ReviewTextQuotes(sources: seq<string>, prompt: string, latest: map<string, string>, a: string)
    requires forall b :: b in sources ==> b in latest
    requires a in sources
    ensures var text := ReviewText(sources, prompt, latest);
      && StartsWith(text, ReviewHeader)
      && Contains(text, QuoteBlock(a, latest[a]))
      && EndsWith(text, "\n" + prompt)
  {
    var body := ReviewBody(sources, latest);
    assert ReviewText(sources, prompt, latest) == ReviewHeader + (body + "\n" + prompt);
    StartsWithAppended(ReviewHeader, body + "\n" + prompt);
    assert ReviewText(sources, prompt, latest) == ReviewHeader + body + ("\n" + prompt);
    EndsWithAppended(ReviewHeader + body, "\n" + prompt);
    ReviewQuotes(sources, prompt, latest, a);
  }

  /** A review quotes each of its sources. */
  lemma ReviewQuotes(sources: seq<string>, prompt: string, latest: map<string, string>, a: string)
    requires forall b :: b in sources ==> b in latest
    requires a in sources
    ensures Contains(ReviewText(sources, prompt, latest), QuoteBlock(a, latest[a]))
  {
    var body := ReviewBody(sources, latest);
    var q := QuoteBlock(a, latest[a]);
    var k :| 0 <= k < |sources| && sources[k] == a;
    QuotedInReview(sources, latest, k);
    ContainsExtendedLeft(ReviewHeader, body, q);
    ContainsExtendedRight(ReviewHeader + body, "\n" + prompt, q);
    assert ReviewText(sources, prompt, latest) == ReviewHeader + body + ("\n" + prompt);
  }

  /**
   * The replies quoted to a participant are those of exactly the other
   * participants: never its own.
   */
  lemma MutualReviewQuotesOnlyOthers(participants: seq<string>, prompt: string, latest: map<string, string>, i: nat)
    returns (sources: seq<string>)
    requires AllReplied(participants, latest) && i < |participants|
    ensures forall b :: b in sources <==> b in participants && b != participants[i]
    ensures forall b :: b in sources ==> b in latest
    ensures MutualReviewPlan(participants, prompt, latest)[i].text == ReviewText(sources, prompt, latest)
  {
    sources := Others(participants, participants[i]);
  }

  /** The review message for one target, built quote by quote. */
  method BuildReview(sources: seq<string>, prompt: string, responses: map<string, string>, ghost latest: map<string, string>)
    returns (msg: string)
    requires forall a :: a in sources ==> a in responses && a in latest && responses[a] == latest[a]
    ensures msg == ReviewText(sources, prompt, latest)
  {
    msg := ReviewHeader;
    var j := 0;
    while j < |sources|
      invariant 0 <= j <= |sources|
      invariant msg == ReviewHeader + ReviewBody(sources[..j], latest)
    {
      var src := sources[j];
      assert sources[..j + 1][..j] == sources[..j];
      msg := msg + QuoteBlock(src, responses[src]) + "\n";
      j := j + 1;
    }
    assert sources[..j] == sources;
    msg := msg + "\n" + prompt;
  }

  /** The first half of `handleMutualReview`: fetch every participant's reply, stopping at the first unusable one. */
  method CollectReplies(participants: seq<string>, latest: map<string, string>)
    returns (ok: bool, responses: map<string, string>)
    ensures ok <==> AllReplied(participants, latest)
    ensures ok ==> forall a :: a in participants ==> a in responses && responses[a] == latest[a]
  {
    responses := map[];
    var i := 0;
    while i < |participants|
      invariant 0 <= i <= |participants|
      invariant forall a :: a in participants[..i] ==> a in latest && !AllSpace(latest[a])
      invariant forall a :: a in participants[..i] ==> a in responses
      invariant forall a :: a in responses ==> a in latest && responses[a] == latest[a]
    {
      var ai := participants[i];
      if ai !in latest || latest[ai] == "" || AllSpace(latest[ai]) {
        return false, responses;
      }
      responses := responses[ai := latest[ai]];
      i := i + 1;
    }
    assert participants[..i] == participants;
    ok := true;
  }

  /** `handleMutualReview`: collect every participant's reply, then send each the others' replies. */
  method HandleMutualReview(participants: seq<string>, prompt: string, latest: map<string, string>)
    returns (sent: seq<Send>)
    ensures sent == MutualReviewPlan(participants, prompt, latest)
  {
    var ok, responses := CollectReplies(participants, latest);
    if !ok {
      return [];
    }
    sent := FanOut(participants, prompt, responses, latest);
  }

  /** The second half of `handleMutualReview`: every participant is sent the review of the others' replies. */
  method FanOut(participants: seq<string>, prompt: string, responses: map<string, string>, ghost latest: map<string, string>)
    returns (sent: seq<Send>)
    requires AllReplied(participants, latest)
    requires forall a :: a in participants ==> a in responses && responses[a] == latest[a]
    ensures sent == MutualReviewPlan(participants, prompt, latest)
  {
    sent := [];
    var t := 0;
    while t < |participants|
      invariant 0 <= t <= |participants| && |sent| == t
      invariant forall u :: 0 <= u < t ==> sent[u] == ReviewSend(participants, u, prompt, latest)
    {
      var send := ReviewFor(participants, t, prompt, responses, latest);
      sent := sent + [send];
      t := t + 1;
    }
    MutualReviewPlanIs(participants, prompt, latest, sent);
  }

  /** The plan's message for the participant at `u`. */
  function ReviewSend(participants: seq<string>, u: nat, prompt: string, latest: map<string, string>): Send
    requires u < |participants| && AllReplied(participants, latest)
  {
    Send(participants[u], ReviewText(Others(participants, participants[u]), prompt, latest))
  }

  /** A list holding, for every participant in order, its review message is the plan. */
  lemma MutualReviewPlanIs(participants: seq<string>, prompt: string, latest: map<string, string>, sent: seq<Send>)
    requires AllReplied(participants, latest) && |sent| == |participants|
    requires forall u :: 0 <= u < |sent| ==> sent[u] == ReviewSend(participants, u, prompt, latest)
    ensures sent == MutualReviewPlan(participants, prompt, latest)
  {
  }

  /** The review sent to the participant at `t`, quoting the fetched replies of all the others. */
  method ReviewFor(participants: seq<string>, t: nat, prompt: string, responses: map<string, string>, ghost latest: map<string, string>)
    returns (send: Send)
    requires t < |participants| && AllReplied(participants, latest)
    requires forall a :: a in participants ==> a in responses && responses[a] == latest[a]
    ensures send == ReviewSend(participants, t, prompt, latest)
  {
    var target := participants[t];
    var msg := BuildReview(Others(participants, target), prompt, responses, latest);
    send := Send(target, msg);
  }

  // ---------------------------------------------------------------------
  // Cross reference
  // ---------------------------------------------------------------------

  /** A cross reference goes ahead only when every source has a non-empty reply (no trimming here). */
  predicate AllAvailable(sources: seq<string>, latest: map<string, string>) {
    forall a :: a in sources ==> a in latest && latest[a] != ""
  }

  /** The quoted replies of `sources`, in order, with no line break after the last. */
  function CrossBody(sources: seq<string>, replies: map<string, string>): string
    requires forall a :: a in sources ==> a in replies
  {
    if sources == [] then ""
    else
      var last := sources[|sources| - 1];
      CrossBody(sources[..|sources| - 1], replies) + QuoteBlock(last, replies[last])
  }

  function CrossText(original: string, sources: seq<string>, replies: map<string, string>): string
    requires forall a :: a in sources ==> a in replies
  {
    original + "\n" + CrossBody(sources, replies)
  }

  /** What a cross reference sends: nothing when a source has no reply, otherwise one same message per target. */
  function CrossReferencePlan(parsed: ParsedMessage, latest: map<string, string>): (sent: seq<Send>)
    ensures !AllAvailable(parsed.sourceAIs, latest) ==> sent == []
    ensures AllAvailable(parsed.sourceAIs, latest) ==>
      && |sent| == |parsed.targetAIs|
      && (forall i :: 0 <= i < |sent| ==> sent[i].to == parsed.targetAIs[i])
      && (forall i, j :: 0 <= i < |sent| && 0 <= j < |sent| ==> sent[i].text == sent[j].text)
  {
    if !AllAvailable(parsed.sourceAIs, latest) then []
    else
      var text := CrossText(parsed.originalMessage, parsed.sourceAIs, latest);
      seq(|parsed.targetAIs|, i requires 0 <= i < |parsed.targetAIs| => Send(parsed.targetAIs[i], text))
  }

  lemma {:induction false} QuotedInCross(sources: seq<string>, replies: map<string, string>, k: nat)
    requires forall a :: a in sources ==> a in replies
    requires k < |sources|
    ensures Contains(CrossBody(sources, replies), QuoteBlock(sources[k], replies[sources[k]]))
    decreases |sources|
  {
    var n := |sources| - 1;
    var front := CrossBody(sources[..n], replies);
    var block := QuoteBlock(sources[n], replies[sources[n]]);
    if k == n {
      ContainsMiddle(front, block, "");
      assert front + block + "" == front + block;
    } else {
      assert sources[..n][k] == sources[k];
      QuotedInCross(sources[..n], replies, k);
      ContainsExtendedRight(front, block, QuoteBlock(sources[k], replies[sources[k]]));
    }
  }

  /**
   * Every target of a cross reference receives the typed message first and
   * then the reply of every source, quoted under the source's name.
   */
  lemma CrossReferenceQuotesSources(parsed: ParsedMessage, latest: map<string, string>, i: nat, s: string)
    requires AllAvailable(parsed.sourceAIs, latest)
    requires i < |parsed.targetAIs| && s in parsed.sourceAIs
    ensures var sent := CrossReferencePlan(parsed, latest);
      && StartsWith(sent[i].text, parsed.originalMessage + "\n")
      && Contains(sent[i].text, QuoteBlock(s, latest[s]))
  {
    var body := CrossBody(parsed.sourceAIs, latest);
    var k :| 0 <= k < |parsed.sourceAIs| && parsed.sourceAIs[k] == s;
    QuotedInCross(parsed.sourceAIs, latest, k);
    ContainsExtendedLeft(parsed.originalMessage + "\n", body, QuoteBlock(s, latest[s]));
    assert (parsed.originalMessage + "\n" + body)[..|parsed.originalMessage + "\n"|] == parsed.originalMessage + "\n";
  }

  /** `handleCrossReference`: fetch each source's reply, build the message, send it to every target. */
  method HandleCrossReference(parsed: ParsedMessage, latest: map<string, string>) returns (sent: seq<Send>)
    ensures sent == CrossReferencePlan(parsed, latest)
  {
    var ok := SourcesAvailable(parsed.sourceAIs, latest);
    if !ok {
      return [];
    }
    var full := BuildCross(parsed.originalMessage, parsed.sourceAIs, latest);
    sent := SendToAll(parsed.targetAIs, full);
  }

  /** The fetch loop of `handleCrossReference`: it stops at the first source without a reply. */
  method SourcesAvailable(sources: seq<string>, latest: map<string, string>) returns (ok: bool)
    ensures ok <==> AllAvailable(sources, latest)
  {
    var i := 0;
    while i < |sources|
      invariant 0 <= i <= |sources|
      invariant forall a :: a in sources[..i] ==> a in latest && latest[a] != ""
    {
      if sources[i] !in latest || latest[sources[i]] == "" {
        return false;
      }
      i := i + 1;
    }
    assert sources[..i] == sources;
    return true;
  }

  /** The message loop of `handleCrossReference`: the typed text, then each source's reply quoted. */
  method BuildCross(original: string, sources: seq<string>, latest: map<string, string>) returns (full: string)
    requires AllAvailable(sources, latest)
    ensures full == CrossText(original, sources, latest)
  {
    full := original + "\n";
    var j := 0;
    while j < |sources|
      invariant 0 <= j <= |sources|
      invariant full == original + "\n" + CrossBody(sources[..j], latest)
    {
      assert sources[..j + 1][..j] == sources[..j];
      full := full + QuoteBlock(sources[j], latest[sources[j]]);
      j := j + 1;
    }
    assert sources[..j] == sources;
  }

  /** The same text, sent to every target in order. */
  method SendToAll(targets: seq<string>, text: string) returns (sent: seq<Send>)
    ensures |sent| == |targets|
    ensures forall u :: 0 <= u < |sent| ==> sent[u] == Send(targets[u], text)
  {
    sent := [];
    var t := 0;
    while t < |targets|
      invariant 0 <= t <= |targets| && |sent| == t
      invariant forall u :: 0 <= u < t ==> sent[u] == Send(targets[u], text)
    {
      sent := sent + [Send(targets[t], text)];
      t := t + 1;
    }
  }

  // ---------------------------------------------------------------------
  // Sending a typed message
  // ---------------------------------------------------------------------

  /** The assistants whose checkbox is ticked, in the panel's order. */
  function CheckedTargets(checked: set<string>): (r: seq<string>)
    ensures forall a :: a in r <==> a in AiTypes && a in checked
  {
    CheckedAmong(AiTypes, checked)
  }

  function CheckedAmong(candidates: seq<string>, checked: set<string>): (r: seq<string>)
    ensures forall a :: a in r <==> a in candidates && a in checked
  {
    if candidates == [] then []
    else if candidates[0] in checked then [candidates[0]] + CheckedAmong(candidates[1..], checked)
    else CheckedAmong(candidates[1..], checked)
  }

  /** The assistants a message is for: those it mentions, otherwise those ticked. */
  function SendTargets(parsed: ParsedMessage, checked: set<string>): seq<string> {
    if |parsed.mentions| > 0 then parsed.mentions else CheckedTargets(checked)
  }

  /** Where a trimmed, non-empty message goes once parsed. */
  function Route(message: string, parsed: ParsedMessage, checked: set<string>, latest: map<string, string>): (sent: seq<Send>)
    ensures SendTargets(parsed, checked) == [] ==> sent == []
    ensures parsed.mutual && |SendTargets(parsed, checked)| < 2 ==> sent == []
    ensures parsed.mutual && |SendTargets(parsed, checked)| >= 2 ==>
      sent == MutualReviewPlan(SendTargets(parsed, checked), parsed.prompt, latest)
    ensures !parsed.mutual && parsed.crossRef && SendTargets(parsed, checked) != [] ==>
      sent == CrossReferencePlan(parsed, latest)
    ensures !parsed.mutual && !parsed.crossRef ==>
      var targets := SendTargets(parsed, checked);
      |sent| == |targets| && forall k :: 0 <= k < |sent| ==> sent[k] == Send(targets[k], message)
  {
    var targets := SendTargets(parsed, checked);
    if targets == [] then []
    else if parsed.mutual then
      if |targets| < 2 then [] else MutualReviewPlan(targets, parsed.prompt, latest)
    else if parsed.crossRef then CrossReferencePlan(parsed, latest)
    else seq(|targets|, i requires 0 <= i < |targets| => Send(targets[i], message))
  }

  /**
   * `handleSend`: the typed text is trimmed; nothing is sent when it is empty
   * or has no target; a mutual review needs two targets; a cross reference
   * quotes its sources; anything else goes unchanged to every target.
   */
  function HandleSendPlan(input: string, checked: set<string>, latest: map<string, string>): (sent: seq<Send>)
    ensures AllSpace(input) ==> sent == []
    ensures !AllSpace(input) ==> sent == Route(Trim(input), ParseMessage(Trim(input)), checked, latest)
  {
    var message := Trim(input);
    if message == "" then [] else Route(message, ParseMessage(message), checked, latest)
  }

  /**
   * A mutual review ignores mentions: it reaches only ticked assistants, and
   * only when at least two are ticked.
   */
  lemma MutualReviewUsesTickedAssistants(message: string, parsed: ParsedMessage, checked: set<string>, latest: map<string, string>)
    requires parsed.mutual && parsed.mentions == []
    ensures var sent := Route(message, parsed, checked, latest);
      && (sent != [] ==> |sent| >= 2)
      && forall k :: 0 <= k < |sent| ==> sent[k].to in checked && sent[k].to in AiTypes
  {
    var targets := CheckedTargets(checked);
    assert forall k :: 0 <= k < |targets| ==> targets[k] in targets;
  }

  /** Typed `/mutual` commands are routed as mutual reviews of the ticked assistants. */
  lemma MutualCommandUsesTickedAssistants(input: string, checked: set<string>, latest: map<string, string>)
    requires Trim(input) != "" && IsMutualCommand(Trim(input))
    ensures var sent := HandleSendPlan(input, checked, latest);
      && (sent != [] ==> |sent| >= 2)
      && forall k :: 0 <= k < |sent| ==> sent[k].to in checked && sent[k].to in AiTypes
  {
    var message := Trim(input);
    var parsed := ParseMessage(message);
    MutualReviewUsesTickedAssistants(message, parsed, checked, latest);
  }

  /**
   * A typed `/cross` command with mentions on both sides of the arrow sends,
   * when every source has a reply, one message to each target named before
   * the arrow: the text after the sources, then every source's reply quoted.
   */
  lemma CrossCommandRouted(input: string, checked: set<string>, latest: map<string, string>)
    requires var m := Trim(input);
      m != "" && !IsMutualCommand(m) && IsCrossCommand(m) && ParseCross(m).CrossCommand?
    ensures var m := Trim(input);
      var c := ParseCross(m);
      var sent := HandleSendPlan(input, checked, latest);
      && sent == CrossReferencePlan(ParseMessage(m), latest)
      && (!AllAvailable(c.sources, latest) ==> sent == [])
      && (AllAvailable(c.sources, latest) ==>
        && |sent| == |c.targets|
        && (forall k :: 0 <= k < |sent| ==> sent[k].to == c.targets[k] && StartsWith(sent[k].text, c.text + "\n"))
        && forall k, a :: 0 <= k < |sent| && a in c.sources ==> Contains(sent[k].text, QuoteBlock(a, latest[a])))
  {
    var m := Trim(input);
    var c := ParseCross(m);
    var parsed := ParseMessage(m);
    assert parsed.mentions != [];
    var sent := HandleSendPlan(input, checked, latest);
    if AllAvailable(c.sources, latest) {
      forall k, a | 0 <= k < |sent| && a in c.sources
        ensures Contains(sent[k].text, QuoteBlock(a, latest[a]))
      {
        CrossReferenceQuotesSources(parsed, latest, k, a);
      }
      forall k | 0 <= k < |sent| ensures StartsWith(sent[k].text, c.text + "\n") {
        CrossReferenceQuotesSources(parsed, latest, k, c.sources[0]);
      }
    }
  }
}
