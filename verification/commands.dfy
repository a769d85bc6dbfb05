/**
 * What the panel reads off the user's input: which assistant a tab belongs
 * to, where the composer buttons put their text, and what a typed message
 * asks for (`/mutual`, `/cross @targets <- @sources text`, or `@mentions`).
 */
module PanelCommands {
  import opened Optional
  import opened Strings

  /** The assistants the panel drives, in the order of `AI_TYPES`. */
  const AiTypes: seq<string> := ["claude", "chatgpt", "gemini"]

  // ---------------------------------------------------------------------
  // Tabs
  // ---------------------------------------------------------------------

  /**
   * `getAITypeFromUrl`: a missing or empty URL has no assistant; otherwise the
   * first host name found decides, in the order claude, chatgpt, gemini.
   */
  function GetAITypeFromUrl(url: Option<string>): (r: Option<string>)
    ensures r.Some? ==> r.value in AiTypes
    ensures url.None? || url.value == "" ==> r.None?
    ensures r == Some("claude") <==> url.Some? && url.value != "" && Contains(url.value, "claude.ai")
    ensures r == Some("chatgpt") <==>
      && url.Some? && url.value != "" && !Contains(url.value, "claude.ai")
      && (Contains(url.value, "chat.openai.com") || Contains(url.value, "chatgpt.com"))
    ensures r == Some("gemini") <==>
      && url.Some? && url.value != "" && !Contains(url.value, "claude.ai")
      && !Contains(url.value, "chat.openai.com") && !Contains(url.value, "chatgpt.com")
      && Contains(url.value, "gemini.google.com")
  {
    if url.None? || url.value == "" then None
    else if Contains(url.value, "claude.ai") then Some("claude")
    else if Contains(url.value, "chat.openai.com") || Contains(url.value, "chatgpt.com") then Some("chatgpt")
    else if Contains(url.value, "gemini.google.com") then Some("gemini")
    else None
  }

  lemma ClaudeTab()
    ensures GetAITypeFromUrl(Some("https://claude.ai/new")) == Some("claude")
  {
    assert OccursAt("https://claude.ai/new", "claude.ai", 8);
    ContainsAt("https://claude.ai/new", "claude.ai", 8);
  }

  lemma ChatGptTab()
    ensures GetAITypeFromUrl(Some("https://chatgpt.com/")) == Some("chatgpt")
  {
    NotContainsMissingChar("https://chatgpt.com/", "claude.ai", 'l');
    ChatGptHost();
  }

  lemma ChatGptHost()
    ensures Contains("https://chatgpt.com/", "chatgpt.com")
  {
    assert OccursAt("https://chatgpt.com/", "chatgpt.com", 8);
    ContainsAt("https://chatgpt.com/", "chatgpt.com", 8);
  }

  // ---------------------------------------------------------------------
  // Composer insertions
  // ---------------------------------------------------------------------

  /** The composer's text and caret after an insertion. */
  datatype Edit = Edit(value: string, cursor: nat)

  /** The text goes in at the caret, and the caret moves to its end. */
  function InsertAtCursor(value: string, cursor: nat, text: string): (e: Edit)
    requires cursor <= |value|
    ensures |e.value| == |value| + |text| && e.cursor == cursor + |text|
    ensures e.value[..cursor] == value[..cursor]
    ensures e.value[cursor..e.cursor] == text
    ensures e.value[e.cursor..] == value[cursor..]
  {
    Edit(value[..cursor] + text + value[cursor..], cursor + |text|)
  }

  /** A separating space is needed after text that does not already end in a space or a line break. */
  predicate NeedsSpace(before: string) {
    |before| > 0 && !EndsWith(before, " ") && !EndsWith(before, "\n")
  }

  /** A word as the mention and action buttons insert it: separated from what precedes it, followed by a space. */
  function SpacedWord(before: string, word: string): string {
    (if NeedsSpace(before) then " " else "") + word + " "
  }

  /** The mention buttons and the action menu: the word is inserted at the caret, spaced. */
  function InsertWord(value: string, cursor: nat, word: string): (e: Edit)
    requires cursor <= |value|
    ensures e.cursor == cursor + |word| + (if NeedsSpace(value[..cursor]) then 2 else 1)
    ensures |e.value| == |value| + e.cursor - cursor
    ensures e.value[..cursor] == value[..cursor] && e.value[e.cursor..] == value[cursor..]
  {
    InsertAtCursor(value, cursor, SpacedWord(value[..cursor], word))
  }

  /**
   * An inserted word never runs into its neighbours: it starts the text or
   * follows a space or a line break, it is followed by a space, and the caret
   * lands right after that space.
   */
  lemma InsertedWordIsDelimited(value: string, cursor: nat, word: string)
    requires cursor <= |value|
    ensures var e := InsertWord(value, cursor, word);
      var p := if NeedsSpace(value[..cursor]) then cursor + 1 else cursor;
      && e.value[p..p + |word|] == word
      && (p == 0 || e.value[p - 1] == ' ' || e.value[p - 1] == '\n')
      && e.value[p + |word|] == ' '
      && e.cursor == p + |word| + 1
      && e.value[..cursor] == value[..cursor] && e.value[e.cursor..] == value[cursor..]
  {
    var before := value[..cursor];
    var text := SpacedWord(before, word);
    var e := InsertAtCursor(value, cursor, text);
    var p := if NeedsSpace(before) then cursor + 1 else cursor;
    assert e.value[cursor..e.cursor] == text;
    assert e.value[p..p + |word|] == text[p - cursor..p - cursor + |word|];
    assert e.value[p + |word|] == text[p - cursor + |word|];
    if p > 0 {
      if NeedsSpace(before) {
        assert e.value[p - 1] == text[0];
      } else {
        assert e.value[p - 1] == before[|before| - 1];
        assert before[|before| - 1..] == [before[|before| - 1]];
      }
    }
  }

  /** The action menu's entries and the phrases they insert (`CROSS_REF_ACTIONS`). */
  function ActionPrompt(action: string): Option<string> {
    if action == "evaluate" then Some("评价一下")
    else if action == "learn" then Some("有什么值得借鉴的")
    else if action == "critique" then Some("批评一下，指出问题")
    else if action == "supplement" then Some("有什么遗漏需要补充")
    else if action == "compare" then Some("对比一下你的观点")
    else None
  }

  /** Choosing an action inserts its phrase, spaced; the placeholder or an unknown entry leaves the text alone. */
  function ChooseAction(value: string, cursor: nat, action: string): (e: Edit)
    requires cursor <= |value|
    ensures ActionPrompt(action).None? ==> e == Edit(value, cursor)
    ensures ActionPrompt(action).Some? ==> e == InsertWord(value, cursor, ActionPrompt(action).value)
  {
    match ActionPrompt(action)
    case None => Edit(value, cursor)
    case Some(phrase) => InsertWord(value, cursor, phrase)
  }

  // ---------------------------------------------------------------------
  // Mentions: the global, case-insensitive pattern @(claude|chatgpt|gemini)
  // ---------------------------------------------------------------------

  /** `text` spells `word` in any letter case, `word` being in lower case. */
  predicate SpellsIgnoringCase(text: string, word: string) {
    |text| == |word| && (text == [] || (LowerChar(text[0]) == word[0] && SpellsIgnoringCase(text[1..], word[1..])))
  }

  lemma {:induction false} SpellsIgnoringCaseAt(text: string, word: string, k: nat)
    requires SpellsIgnoringCase(text, word) && k < |text|
    ensures LowerChar(text[k]) == word[k]
  {
    if k > 0 {
      SpellsIgnoringCaseAt(text[1..], word[1..], k - 1);
    }
  }

  /** `name` is spelt at `i`, in any letter case. */
  predicate NameAt(s: string, i: nat, name: string) {
    i + |name| <= |s| && SpellsIgnoringCase(s[i..i + |name|], name)
  }

  /** The first of `names` spelt at `j`, trying them in order as the pattern's alternation does. */
  function FirstNameAt(s: string, j: nat, names: seq<string>): (r: Option<string>)
    ensures r.Some? ==> r.value in names && NameAt(s, j, r.value)
    ensures r.None? ==> forall name :: name in names ==> !NameAt(s, j, name)
  {
    if names == [] then None
    else if NameAt(s, j, names[0]) then Some(names[0])
    else FirstNameAt(s, j, names[1..])
  }

  /** The assistant the pattern matches at `i`, lower-cased, trying the names in the pattern's order. */
  function MentionAt(s: string, i: nat): (r: Option<string>)
    ensures r.Some? ==> i < |s| && s[i] == '@' && r.value in AiTypes && NameAt(s, i + 1, r.value)
    ensures r.None? ==> forall name :: name in AiTypes ==> !(i < |s| && s[i] == '@' && NameAt(s, i + 1, name))
  {
    if i < |s| && s[i] == '@' then FirstNameAt(s, i + 1, AiTypes) else None
  }

  /** One match of the mention pattern: where it starts and the assistant it names. */
  datatype Mention = Mention(start: nat, name: string) {
    function End(): nat {
      start + 1 + |name|
    }
  }

  /** The letters of a matched name hold no `@`, so no other match starts inside it. */
  lemma NoAtInsideMention(s: string, i: nat, name: string)
    requires MentionAt(s, i) == Some(name)
    ensures forall j :: i < j < i + 1 + |name| ==> s[j] != '@'
  {
    forall j | i < j < i + 1 + |name| ensures s[j] != '@' {
      SpellsIgnoringCaseAt(s[i + 1..i + 1 + |name|], name, j - i - 1);
      assert LowerChar(s[j]) == name[j - i - 1];
      assert '@' !in name;
    }
  }

  /** What the pattern finds at each index of `s`. */
  function Hits(s: string): (h: seq<Option<string>>)
    ensures |h| == |s| && forall i :: 0 <= i < |s| ==> h[i] == MentionAt(s, i)
  {
    seq(|s|, i requires 0 <= i < |s| => MentionAt(s, i))
  }

  /** Every hit fits in the text and no other hit starts inside it. */
  predicate SeparateHits(hits: seq<Option<string>>) {
    forall i :: 0 <= i < |hits| && hits[i].Some? ==>
      && i + 1 + |hits[i].value| <= |hits|
      && forall j :: i < j < i + 1 + |hits[i].value| ==> hits[j].None?
  }

  /** The mentions in a text never overlap. */
  lemma HitsSeparate(s: string)
    ensures SeparateHits(Hits(s))
  {
    var hits := Hits(s);
    forall i | 0 <= i < |hits| && hits[i].Some?
      ensures forall j :: i < j < i + 1 + |hits[i].value| ==> hits[j].None?
    {
      NoAtInsideMention(s, i, hits[i].value);
    }
  }

  /**
   * The scan of `matchAll` over the hits from index `from`: a hit is a match,
   * and the scan resumes where that match ends.
   */
  function Scan(hits: seq<Option<string>>, from: nat): (r: seq<Mention>)
    requires from <= |hits| && SeparateHits(hits)
    ensures forall k :: 0 <= k < |r| ==>
      && from <= r[k].start < |hits| && hits[r[k].start] == Some(r[k].name) && r[k].End() <= |hits|
    ensures forall k, l :: 0 <= k < l < |r| ==> r[k].End() <= r[l].start
    decreases |hits| - from
  {
    if from == |hits| then []
    else
      match hits[from]
      case Some(name) => [Mention(from, name)] + Scan(hits, from + 1 + |name|)
      case None => Scan(hits, from + 1)
  }

  /** Every hit from `from` on is the start of one of the matches the scan finds. */
  lemma {:induction false} ScanComplete(hits: seq<Option<string>>, from: nat, i: nat) returns (k: nat)
    requires SeparateHits(hits) && from <= i < |hits| && hits[i].Some?
    ensures k < |Scan(hits, from)| && Scan(hits, from)[k].start == i
    decreases |hits| - from
  {
    match hits[from]
    case Some(name) =>
      if from == i {
        k := 0;
      } else {
        var k' := ScanComplete(hits, from + 1 + |name|, i);
        k := k' + 1;
      }
    case None =>
      k := ScanComplete(hits, from + 1, i);
  }

  /** A scan over indices without hits finds nothing. */
  lemma {:induction false} ScanWithoutHits(hits: seq<Option<string>>, from: nat)
    requires SeparateHits(hits) && from <= |hits|
    requires forall i :: from <= i < |hits| ==> hits[i].None?
    ensures Scan(hits, from) == []
    decreases |hits| - from
  {
    if from < |hits| {
      ScanWithoutHits(hits, from + 1);
    }
  }

  /** `matchAll` from index `from`: the matches, left to right, each scan resuming where the last match ended. */
  function MentionsFrom(s: string, from: nat): (r: seq<Mention>)
    requires from <= |s|
    ensures forall k :: 0 <= k < |r| ==> from <= r[k].start && MentionAt(s, r[k].start) == Some(r[k].name)
    ensures forall k :: 0 <= k < |r| ==> r[k].End() <= |s|
    ensures forall k, l :: 0 <= k < l < |r| ==> r[k].End() <= r[l].start
  {
    HitsSeparate(s);
    Scan(Hits(s), from)
  }

  /** Every place where the pattern matches is one of the matches found. */
  lemma MentionsFromComplete(s: string, from: nat, i: nat) returns (k: nat)
    requires from <= i < |s| && MentionAt(s, i).Some?
    ensures k < |MentionsFrom(s, from)| && MentionsFrom(s, from)[k].start == i
  {
    HitsSeparate(s);
    k := ScanComplete(Hits(s), from, i);
  }

  function Names(ms: seq<Mention>): (r: seq<string>)
    ensures |r| == |ms| && forall k :: 0 <= k < |ms| ==> r[k] == ms[k].name
  {
    seq(|ms|, k requires 0 <= k < |ms| => ms[k].name)
  }

  /** Some match of the pattern in `s` names `name`. */
  predicate Mentioned(s: string, name: string) {
    exists i :: 0 <= i < |s| && MentionAt(s, i) == Some(name)
  }

  /** Somewhere in `s` the mention pattern matches. */
  predicate AnyMention(s: string) {
    exists i :: 0 <= i < |s| && MentionAt(s, i).Some?
  }

  /** The pattern matches at `i` and nowhere after it. */
  predicate LastMentionAt(s: string, i: nat) {
    && i < |s| && MentionAt(s, i).Some? && i + 1 + |MentionAt(s, i).value| <= |s|
    && forall j :: i < j < |s| ==> MentionAt(s, j).None?
  }

  /** When the scan finds nothing, the pattern matches nowhere. */
  lemma NoMatchesNoMention(s: string)
    requires MentionsFrom(s, 0) == []
    ensures !AnyMention(s)
  {
    forall i | 0 <= i < |s| ensures MentionAt(s, i).None? {
      if MentionAt(s, i).Some? {
        var k := MentionsFromComplete(s, 0, i);
      }
    }
  }

  /** The last match the scan finds is the last place where the pattern matches. */
  lemma LastMatchIsLastMention(s: string)
    requires MentionsFrom(s, 0) != []
    ensures var ms := MentionsFrom(s, 0);
      LastMentionAt(s, ms[|ms| - 1].start) && MentionAt(s, ms[|ms| - 1].start) == Some(ms[|ms| - 1].name)
  {
    var ms := MentionsFrom(s, 0);
    var last := ms[|ms| - 1];
    forall j | last.start < j < |s| ensures MentionAt(s, j).None? {
      if MentionAt(s, j).Some? {
        var k := MentionsFromComplete(s, 0, j);
      }
    }
  }

  /** The mentioned assistants: lower-cased, without repeats, in the order of their first mention. */
  function Mentions(s: string): (r: seq<string>)
    ensures forall name :: name in r ==> name in AiTypes
    ensures forall i, j :: 0 <= i < j < |r| ==> r[i] != r[j]
    ensures r == [] <==> !AnyMention(s)
  {
    var ms := MentionsFrom(s, 0);
    if ms == [] then
      NoMatchesNoMention(s);
      Dedup(Names(ms))
    else
      assert Names(ms)[0] in Names(ms);
      assert MentionAt(s, ms[0].start).Some?;
      Dedup(Names(ms))
  }

  /** An assistant is in the mention list exactly when some match names it; the list has no repeats. */
  lemma MentionsExact(s: string)
    ensures forall name :: name in Mentions(s) <==> Mentioned(s, name)
    ensures forall i, j :: 0 <= i < j < |Mentions(s)| ==> Mentions(s)[i] != Mentions(s)[j]
    ensures forall name :: name in Mentions(s) ==> name in AiTypes
  {
    var ms := MentionsFrom(s, 0);
    forall name | Mentioned(s, name) ensures name in Names(ms) {
      var i :| 0 <= i < |s| && MentionAt(s, i) == Some(name);
      var k := MentionsFromComplete(s, 0, i);
      assert Names(ms)[k] == name;
    }
    forall name | name in Names(ms) ensures Mentioned(s, name) && name in AiTypes {
      var k :| 0 <= k < |ms| && Names(ms)[k] == name;
      assert MentionAt(s, ms[k].start) == Some(name);
    }
  }

  /** Without an `@` nothing is mentioned. */
  lemma NoAtNoMentions(s: string)
    requires '@' !in s
    ensures Mentions(s) == []
  {
    NoAtNoMatches(s, 0);
  }

  lemma NoAtNoMatches(s: string, from: nat)
    requires from <= |s| && '@' !in s
    ensures MentionsFrom(s, from) == []
  {
    HitsSeparate(s);
    forall i | from <= i < |s| ensures Hits(s)[i].None? {
      assert s[i] in s;
    }
    ScanWithoutHits(Hits(s), from);
  }

  // ---------------------------------------------------------------------
  // parseMessage
  // ---------------------------------------------------------------------

  /** What a typed message asks for. Fields the source leaves undefined in a case are empty here. */
  datatype ParsedMessage = ParsedMessage(
    mutual: bool,
    prompt: string,
    crossRef: bool,
    mentions: seq<string>,
    targetAIs: seq<string>,
    sourceAIs: seq<string>,
    originalMessage: string)

  const DefaultMutualPrompt: string := "请评价以上观点。你同意什么？不同意什么？有什么补充？"

  /** The words that turn a message naming exactly two assistants into a cross-reference. */
  const EvalKeywords: seq<string> := [
    "评价", "看看", "怎么样", "怎么看", "如何", "讲的", "说的", "回答", "赞同", "同意",
    "分析", "认为", "观点", "看法", "意见", "借鉴", "批评", "补充", "对比",
    "evaluate", "think of", "opinion", "review", "agree", "analysis", "compare", "learn from"]

  predicate ContainsAny(s: string, keys: seq<string>) {
    exists k :: 0 <= k < |keys| && Contains(s, keys[k])
  }

  /** The keyword pattern, case-insensitive, found anywhere in the message. */
  predicate HasEvalKeyword(message: string) {
    ContainsAny(ToLower(message), EvalKeywords)
  }

  predicate IsMutualCommand(message: string) {
    var lower := ToLower(Trim(message));
    lower == "/mutual" || StartsWith(lower, "/mutual ")
  }

  predicate IsCrossCommand(message: string) {
    StartsWith(ToLower(Trim(message)), "/cross ")
  }

  /** How the `/cross` command reads: no arrow, not enough mentions on one side, or a cross-reference. */
  datatype CrossParse =
    | NoArrow
    | Incomplete
    | CrossCommand(targets: seq<string>, sources: seq<string>, text: string)

  /** The text before the arrow, past the command word, trimmed. */
  function BeforeArrow(message: string, arrow: nat): string {
    Trim(Substring(message, 7, arrow))
  }

  /** The text after the arrow, trimmed. */
  function AfterArrow(message: string, arrow: nat): string {
    Trim(Substring(message, arrow + 2, |message|))
  }

  /** The message that follows the sources: the text after the last source mention, trimmed. */
  function TextAfterSources(after: string): (text: string)
    ensures |text| <= |after|
  {
    var ms := MentionsFrom(after, 0);
    if ms == [] then after else Trim(after[ms[|ms| - 1].End()..])
  }

  /**
   * Without a mention the whole text is the message; otherwise the text
   * follows the last mention, trimmed.
   */
  lemma TextAfterSourcesMeaning(after: string)
    ensures !AnyMention(after) ==> TextAfterSources(after) == after
    ensures AnyMention(after) ==> exists i :: 0 <= i < |after| && LastMentionAt(after, i)
    ensures forall i :: 0 <= i < |after| && LastMentionAt(after, i) ==>
      TextAfterSources(after) == Trim(after[i + 1 + |MentionAt(after, i).value|..])
  {
    var ms := MentionsFrom(after, 0);
    if ms == [] {
      NoMatchesNoMention(after);
    } else {
      LastMatchIsLastMention(after);
      var last := ms[|ms| - 1];
      assert 0 <= last.start < |after| && LastMentionAt(after, last.start);
      assert last.End() == last.start + 1 + |MentionAt(after, last.start).value|;
      forall i | 0 <= i < |after| && LastMentionAt(after, i)
        ensures TextAfterSources(after) == Trim(after[i + 1 + |MentionAt(after, i).value|..])
      {
        LastMentionUnique(after, i, last.start);
        assert i + 1 + |MentionAt(after, i).value| == last.End();
      }
    }
  }

  /** Only one position holds the last mention. */
  lemma LastMentionUnique(s: string, i: nat, j: nat)
    requires LastMentionAt(s, i) && LastMentionAt(s, j)
    ensures i == j
  {
  }

  /**
   * `/cross @targets <- @sources text`: targets are the assistants mentioned
   * before the first arrow, sources those mentioned after it, and the text is
   * what follows the last source mention.
   */
  function ParseCross(message: string): (r: CrossParse)
    ensures r.NoArrow? <==> !Contains(message, "<-")
    ensures r.CrossCommand? ==>
      && var arrow := IndexOf(message, "<-");
      && arrow >= 0
      && (forall name :: name in r.targets <==> Mentioned(BeforeArrow(message, arrow), name))
      && (forall name :: name in r.sources <==> Mentioned(AfterArrow(message, arrow), name))
      && r.targets != [] && r.sources != []
    ensures Contains(message, "<-") ==>
      var arrow := IndexOf(message, "<-");
      r.CrossCommand? <==> AnyMention(BeforeArrow(message, arrow)) && AnyMention(AfterArrow(message, arrow))
    ensures r.CrossCommand? ==>
      var arrow := IndexOf(message, "<-");
      && r.targets == Mentions(BeforeArrow(message, arrow))
      && r.sources == Mentions(AfterArrow(message, arrow))
      && r.text == TextAfterSources(AfterArrow(message, arrow))
  {
    var arrow := IndexOf(message, "<-");
    if arrow < 0 then NoArrow
    else
      var before := BeforeArrow(message, arrow);
      var after := AfterArrow(message, arrow);
      var targets := Mentions(before);
      var sources := Mentions(after);
      MentionsExact(before);
      MentionsExact(after);
      if |targets| > 0 && |sources| > 0 then CrossCommand(targets, sources, TextAfterSources(after))
      else Incomplete
  }

  /**
   * `parseMessage`: `/mutual` asks for a mutual review with the text after
   * the command as its prompt (or the default one); `/cross` with an arrow and
   * mentions on both sides asks for a cross-reference; `/cross` without an
   * arrow is a plain message with no mentions; otherwise the mentions are
   * read, and exactly two assistants with an evaluation keyword make the
   * first-mentioned one evaluate the last-mentioned one.
   */
  function ParseMessage(message: string): (r: ParsedMessage)
    ensures r.mutual <==> IsMutualCommand(message)
    ensures r.mutual ==> !r.crossRef && r.mentions == [] && r.prompt != ""
    ensures r.mutual ==>
      var rest := if |Trim(message)| > 7 then Trim(Trim(message)[7..]) else "";
      r.prompt == if rest == "" then DefaultMutualPrompt else rest
    ensures !IsMutualCommand(message) && IsCrossCommand(message) && ParseCross(message).CrossCommand? ==>
      && r.crossRef
      && r.targetAIs == ParseCross(message).targets
      && r.sourceAIs == ParseCross(message).sources
    ensures r.crossRef ==> r.targetAIs != [] && r.sourceAIs != []
    ensures r.crossRef && IsCrossCommand(message) && ParseCross(message).CrossCommand? ==>
      && r.mentions == r.targetAIs + r.sourceAIs
      && r.originalMessage == ParseCross(message).text
    ensures !r.mutual && !(IsCrossCommand(message) && !ParseCross(message).Incomplete?) ==>
      && r.mentions == Mentions(message)
      && r.originalMessage == message
      && (r.crossRef <==> |Mentions(message)| == 2 && HasEvalKeyword(message))
    ensures IsCrossCommand(message) && ParseCross(message).NoArrow? && !r.mutual ==>
      !r.crossRef && r.mentions == []
  {
    if IsMutualCommand(message) then MutualRequest(message)
    else if IsCrossCommand(message) && ParseCross(message).NoArrow? then
      ParsedMessage(false, "", false, [], [], [], message)
    else if IsCrossCommand(message) && ParseCross(message).CrossCommand? then
      CrossRequest(ParseCross(message))
    else MentionRequest(message)
  }

  /** `/mutual`: the text after the command word is the prompt, or the default one when there is none. */
  function MutualRequest(message: string): (r: ParsedMessage)
    ensures r.mutual && !r.crossRef && r.mentions == [] && r.originalMessage == message && r.prompt != ""
    ensures var rest := if |Trim(message)| > 7 then Trim(Trim(message)[7..]) else "";
      r.prompt == if rest == "" then DefaultMutualPrompt else rest
  {
    var trimmed := Trim(message);
    var p := if |trimmed| > 7 then Trim(trimmed[7..]) else "";
    ParsedMessage(true, if p == "" then DefaultMutualPrompt else p, false, [], [], [], message)
  }

  /** A complete `/cross` command: the targets evaluate the sources, and the message is the text after them. */
  function CrossRequest(c: CrossParse): (r: ParsedMessage)
    requires c.CrossCommand?
    ensures !r.mutual && r.crossRef && r.targetAIs == c.targets && r.sourceAIs == c.sources
    ensures r.mentions == c.targets + c.sources && r.originalMessage == c.text
  {
    ParsedMessage(false, "", true, c.targets + c.sources, c.targets, c.sources, c.text)
  }

  /** Any other message: its mentions, and a cross-reference when two assistants and an evaluation word appear. */
  function MentionRequest(message: string): (r: ParsedMessage)
    ensures !r.mutual && r.mentions == Mentions(message) && r.originalMessage == message
    ensures r.crossRef <==> |Mentions(message)| == 2 && HasEvalKeyword(message)
    ensures r.crossRef ==> r.targetAIs != [] && r.sourceAIs != []
  {
    var matches := MentionsFrom(message, 0);
    var mentions := Mentions(message);
    if |mentions| == 2 && HasEvalKeyword(message) then
      ParsedMessage(false, "", true, mentions, [matches[0].name], [matches[|matches| - 1].name], message)
    else
      ParsedMessage(false, "", false, mentions, [], [], message)
  }

  /**
   * In the keyword form the evaluating assistant is the one named by the first
   * mention and the evaluated one the one named by the last; both are among the
   * two mentioned.
   */
  lemma KeywordCrossReference(message: string)
    requires !IsMutualCommand(message) && !IsCrossCommand(message)
    requires |Mentions(message)| == 2 && HasEvalKeyword(message)
    ensures var r := ParseMessage(message);
      var ms := MentionsFrom(message, 0);
      && r.crossRef && ms != []
      && r.targetAIs == [ms[0].name] && r.sourceAIs == [ms[|ms| - 1].name]
      && r.targetAIs[0] in Mentions(message) && r.sourceAIs[0] in Mentions(message)
  {
    var ms := MentionsFrom(message, 0);
    assert |Dedup(Names(ms))| == 2;
    assert Names(ms)[0] in Names(ms);
    assert Names(ms)[|ms| - 1] in Names(ms);
  }

  lemma BareMutualCommand()
    ensures IsMutualCommand("/mutual")
  {
    TrimUntrimmed("/mutual");
    LowerMutual();
  }

  /** The command word is already in lower case. */
  lemma LowerMutual()
    ensures ToLower("/mutual") == "/mutual"
  {
    var w := "/mutual";
    var r := ToLower(w);
    assert r[0] == LowerChar(w[0]) == '/';
    assert r[1] == LowerChar(w[1]) == 'm';
    assert r[2] == LowerChar(w[2]) == 'u';
    assert r[3] == LowerChar(w[3]) == 't';
    assert r[4] == LowerChar(w[4]) == 'u';
    assert r[5] == LowerChar(w[5]) == 'a';
    assert r[6] == LowerChar(w[6]) == 'l';
    assert r == w;
  }

  /** The command word alone, in any letter case and between any white space, asks for a mutual review with the default prompt. */
  lemma MutualWithoutPromptUsesDefault(message: string)
    requires ToLower(Trim(message)) == "/mutual"
    ensures ParseMessage(message) == ParsedMessage(true, DefaultMutualPrompt, false, [], [], [], message)
  {
    CommandWordAlone(message);
  }

  lemma CommandWordAlone(message: string)
    requires ToLower(Trim(message)) == "/mutual"
    ensures IsMutualCommand(message) && |Trim(message)| == 7
  {
  }

  /** `/mutual` alone asks for a mutual review with the default prompt. */
  lemma BareMutualUsesDefaultPrompt()
    ensures ParseMessage("/mutual") == ParsedMessage(true, DefaultMutualPrompt, false, [], [], [], "/mutual")
  {
    TrimUntrimmed("/mutual");
    LowerMutual();
    MutualWithoutPromptUsesDefault("/mutual");
  }
}
