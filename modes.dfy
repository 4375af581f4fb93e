/** The AI persona router: the fixed personas, the `topic:<text>` persona,
    the `!mode` parser (main.py:649-669), the per-channel resolution
    (main.py:415-418, 674) and `build_system_prompt` (main.py:129-137). */
module Modes {
  import opened Base
  import opened Text

  /** `AI_MODES`: the fixed personas and their instruction blocks. */
  const AI_MODES: map<string, string> := map[
    "ceil" := "You are in CEIL Coordination Mode. Focus on CEIL internal matters: N1\U{2013}N8 levels, groups, progression, reports, emails, and academic coordination.",
    "education" := "You are in Education Mode. Focus on teaching methodology, grammar explanations, lesson ideas, assessment, and learner support.",
    "admin" := "You are in Admin Mode. Focus on formal emails, reports, policies, procedures, and institutional communication.",
    "general" := "You are in General Knowledge Mode. You can talk about any safe topic: history, science, technology, culture, etc.",
    "fun" := "You are in Fun Mode. Remain polite and safe, but slightly more relaxed, conversational, and playful."
  ]

  /** `BASE_SYSTEM_PROMPT`, which every persona extends. */
  const BASE_SYSTEM_PROMPT: string :=
    "\nYou are CEIL Assistant, an AI assistant for CEIL (Centre d\U{2019}Enseignement Intensif des Langues) at UHBC, Chlef.\n"
    + "\nCore context:\n- Internal levels: N1\U{2013}N8.\n- Groups are written as G1, G2, etc. Example: \"N4 G3\".\n"
    + "- Mapping (approx):\n  A1 = N1 + N2\n  A2 = N3 + N4\n  B1 = N5 + N6\n  B2 = N7 + N8\n"
    + "- The coordinator is Abdelkarim Benhalima.\n"
    + "- You can handle CEIL coordination, academic questions, general knowledge, and light fun conversation depending on mode.\n"
    + "\nRules:\n- Always be clear, concise, and grounded.\n"
    + "- Use professional tone for coordination/admin; more relaxed but still respectful in fun/general modes.\n"
    + "- Do not invent real personal data. Stay within safe, non-harmful topics.\n"

  /** The persona used when a stored mode names no fixed persona. */
  const BASELINE_MODE := "ceil"

  /** The prefix that marks a topic persona in a stored mode key. */
  const TOPIC_KEY_PREFIX := "topic:"

  /** The prefix the `!mode` command recognises for a topic. */
  const TOPIC_COMMAND_PREFIX := "topic "

  /** What a blank topic is replaced with when the prompt is built. */
  const BLANK_TOPIC := "general conversation"

  /** A persona: one of the fixed ones, or a free-text topic. */
  datatype Mode = Fixed(name: string) | Topic(text: string)

  /** The modes `!mode` can produce: a known fixed name, or a topic that is
      non-empty, lower case and stripped. */
  predicate ValidMode(m: Mode) {
    match m
    case Fixed(n) => n in AI_MODES
    case Topic(t) => t != [] && IsLowered(t) && IsStripped(t)
  }

  /** The string stored in `channel_modes` for a mode. */
  function ModeKey(m: Mode): string {
    match m
    case Fixed(n) => n
    case Topic(t) => TOPIC_KEY_PREFIX + t
  }

  /** The mode a stored key stands for: the bridge from the strings kept in
      `channel_modes` back to `Mode`, used by `ResolveModeKey`. (The prompt
      builder reads keys through `KeyInstruction` instead.) */
  function ParseModeKey(key: string): Mode {
    if StartsWith(key, TOPIC_KEY_PREFIX) then Topic(key[|TOPIC_KEY_PREFIX|..]) else Fixed(key)
  }

  /** The five fixed names are lower case, have no surrounding blanks, and
      look like neither a stored topic key nor a `!mode topic` command. */
  lemma FixedNamesArePlain(n: string)
    requires n in AI_MODES
    ensures IsLowered(n) && IsStripped(n)
    ensures !StartsWith(n, TOPIC_KEY_PREFIX) && !StartsWith(n, TOPIC_COMMAND_PREFIX)
  {
    assert n == "ceil" || n == "education" || n == "admin" || n == "general" || n == "fun";
    assert n[0] != 't';
  }

  /** Every mode `!mode` can store is read back as itself. */
  lemma ModeKeyRoundTrip(m: Mode)
    requires ValidMode(m)
    ensures ParseModeKey(ModeKey(m)) == m
  {
    match m
    case Fixed(n) => FixedNamesArePlain(n);
    case Topic(t) => assert (TOPIC_KEY_PREFIX + t)[|TOPIC_KEY_PREFIX|..] == t;
  }

  /** And every key is written back as itself. */
  lemma ParseModeKeyRoundTrip(key: string)
    ensures ModeKey(ParseModeKey(key)) == key
  {
    if StartsWith(key, TOPIC_KEY_PREFIX) {
      assert key == key[..|TOPIC_KEY_PREFIX|] + key[|TOPIC_KEY_PREFIX|..];
    }
  }

  // -----------------------------------------------------------------------
  // The `!mode` command
  // -----------------------------------------------------------------------

  datatype ModeError = EmptyTopic | UnknownMode

  /** `!mode <text>`: strip and lower-case the argument; `topic <x>` gives a
      topic persona (its text stripped again), otherwise the argument must
      name a fixed persona. */
  function ParseModeCommand(raw: string): (r: Result<Mode, ModeError>)
    ensures r.Ok? ==> ValidMode(r.value)
    // A fixed persona is the one named by the argument, lower-cased and stripped.
    ensures r.Ok? && r.value.Fixed? ==> r.value.name == Lower(Strip(raw))
    // A topic is whatever follows `topic `, stripped again.
    ensures r.Ok? && r.value.Topic? ==>
              var name := Lower(Strip(raw));
              StartsWith(name, TOPIC_COMMAND_PREFIX) && r.value.text == Strip(name[|TOPIC_COMMAND_PREFIX|..])
    // An argument that is neither a topic command nor a persona name is rejected.
    ensures r == Err(UnknownMode) <==>
              !StartsWith(Lower(Strip(raw)), TOPIC_COMMAND_PREFIX) && Lower(Strip(raw)) !in AI_MODES
  {
    var name := Lower(Strip(raw));
    if StartsWith(name, TOPIC_COMMAND_PREFIX) then
      var topic := Strip(name[|TOPIC_COMMAND_PREFIX|..]);
      StripOfLowered(name[|TOPIC_COMMAND_PREFIX|..]);
      if topic == [] then Err(EmptyTopic) else Ok(Topic(topic))
    else if name in AI_MODES then Ok(Fixed(name))
    else Err(UnknownMode)
  }

  /** The empty-topic rejection can never be reached: once the argument is
      stripped, `topic ` is followed by at least one non-blank character. A
      blank topic is rejected by the unknown-mode branch instead. */
  lemma {:induction false} EmptyTopicUnreachable(raw: string)
    ensures ParseModeCommand(raw) != Err(EmptyTopic)
  {
    var s := Strip(raw);
    var name := Lower(s);
    if StartsWith(name, TOPIC_COMMAND_PREFIX) {
      var rest := name[|TOPIC_COMMAND_PREFIX|..];
      assert name[5] == ' ';
      LowerCharKeepsSpace(s[|s| - 1]);
      assert !IsSpace(name[|name| - 1]);
      assert |name| > 6;
      assert rest[|rest| - 1] == name[|name| - 1];
      assert !AllSpace(rest);
    }
  }

  /** Stripping `topic X` for a blank `X` leaves the bare word `topic`. */
  lemma {:induction false} StripBlankTopicCommand(x: string)
    requires AllSpace(x)
    ensures Strip(TOPIC_COMMAND_PREFIX + x) == "topic"
  {
    var raw := TOPIC_COMMAND_PREFIX + x;
    assert raw[..5] == "topic";
    assert SpaceBetween(raw, 5, |raw|) by {
      forall k | 5 <= k < |raw| ensures IsSpace(raw[k]) {
        assert k > 5 ==> raw[k] == x[k - 6];
      }
    }
    StripUnique(raw, 0, 5);
  }

  /** Stripping `topic X` for a non-blank `X` only trims the end of `X`. */
  lemma {:induction false} StripTopicCommand(x: string)
    requires !AllSpace(x)
    ensures var j := StripStart(x) + |Strip(x)|;
            j <= |x| && Strip(TOPIC_COMMAND_PREFIX + x) == TOPIC_COMMAND_PREFIX + x[..j]
  {
    var raw := TOPIC_COMMAND_PREFIX + x;
    var r := Strip(x);
    var j := StripStart(x) + |r|;
    assert raw[..6 + j] == TOPIC_COMMAND_PREFIX + x[..j];
    assert SpaceBetween(raw, 6 + j, |raw|) by {
      forall k | 6 + j <= k < |raw| ensures IsSpace(raw[k]) { assert raw[k] == x[k - 6]; }
    }
    assert r[|r| - 1] == x[j - 1] == raw[6 + j - 1];
    StripUnique(raw, 0, 6 + j);
  }

  /** Cutting the trailing blanks off `X` does not change its strip. */
  lemma {:induction false} StripOfHead(x: string)
    ensures var j := StripStart(x) + |Strip(x)|;
            j <= |x| && Strip(x[..j]) == Strip(x)
  {
    var r := Strip(x);
    var i := StripStart(x);
    var j := i + |r|;
    assert x[..j] == x[..i] + r + [];
    assert AllSpace(x[..i]) by {
      forall k | 0 <= k < i ensures IsSpace(x[..i][k]) { assert x[..i][k] == x[k]; }
    }
    StripSurrounded(x[..i], r, []);
    StrippedIsFixpoint(r);
  }

  /** `!mode topic X` with a blank `X` is rejected, as an unknown mode. */
  lemma BlankTopicCommand(x: string)
    requires AllSpace(x)
    ensures ParseModeCommand(TOPIC_COMMAND_PREFIX + x) == Err(UnknownMode)
  {
    StripBlankTopicCommand(x);
    assert Lower("topic") == "topic";
    assert "topic" !in AI_MODES;
  }

  /** Lower-casing the stripped `topic X` keeps the prefix and lowers the
      head of `X`, its trailing blanks cut off. */
  lemma TopicCommandName(x: string)
    requires !AllSpace(x)
    ensures var j := StripStart(x) + |Strip(x)|;
            j <= |x| && Lower(Strip(TOPIC_COMMAND_PREFIX + x)) == TOPIC_COMMAND_PREFIX + Lower(x[..j])
  {
    var head := x[..StripStart(x) + |Strip(x)|];
    StripTopicCommand(x);
    LowerAppend(TOPIC_COMMAND_PREFIX, head);
    assert Lower(TOPIC_COMMAND_PREFIX) == TOPIC_COMMAND_PREFIX;
  }

  /** The lowered head of `X` strips to the same non-empty topic as `X` lowered. */
  lemma TopicCommandText(x: string)
    requires !AllSpace(x)
    ensures var j := StripStart(x) + |Strip(x)|;
            j <= |x| && Strip(Lower(x[..j])) == Strip(Lower(x)) != []
  {
    var head := x[..StripStart(x) + |Strip(x)|];
    StripOfHead(x);
    LowerStripCommute(head);
    LowerStripCommute(x);
    AllSpaceLower(x);
  }

  /** `!mode topic X` stores the topic `X` lower-cased and stripped. */
  lemma TopicCommand(x: string)
    requires !AllSpace(x)
    ensures ParseModeCommand(TOPIC_COMMAND_PREFIX + x) == Ok(Topic(Strip(Lower(x))))
  {
    var low := Lower(x[..StripStart(x) + |Strip(x)|]);
    TopicCommandName(x);
    TopicCommandText(x);
    PrefixAndRest(TOPIC_COMMAND_PREFIX, low);
  }

  /** `!mode <name>` selects a fixed persona by its own name. */
  lemma FixedNameCommand(n: string)
    requires n in AI_MODES
    ensures ParseModeCommand(n) == Ok(Fixed(n))
  {
    FixedNamesArePlain(n);
    StrippedIsFixpoint(n);
    LoweredIsFixpoint(n);
  }

  /** The command does not care about letter case: `!mode FUN` is `!mode fun`. */
  lemma {:induction false} CommandIgnoresCase(raw: string)
    ensures ParseModeCommand(Lower(raw)) == ParseModeCommand(raw)
  {
    LowerStripCommute(raw);
    LoweredIsFixpoint(Lower(Strip(raw)));
  }

  /** `!mode` as its empty-topic branch means it to behave: a bare `topic`
      (nothing but blanks after it) asks for a topic instead of being
      reported as an unknown mode. Everything else is as written. */
  function ParseModeCommandCorrected(raw: string): (r: Result<Mode, ModeError>)
    ensures r.Ok? ==> ValidMode(r.value)
    ensures r == Err(EmptyTopic) <==> Lower(Strip(raw)) == "topic"
  {
    if Lower(Strip(raw)) == "topic" then Err(EmptyTopic)
    else
      EmptyTopicUnreachable(raw);
      ParseModeCommand(raw)
  }

  /** The correction changes only which rejection is reported: both parsers
      accept the same commands with the same mode. */
  lemma CorrectionKeepsAcceptedModes(raw: string)
    ensures ParseModeCommandCorrected(raw).Ok? <==> ParseModeCommand(raw).Ok?
    ensures ParseModeCommand(raw).Ok? ==> ParseModeCommandCorrected(raw) == ParseModeCommand(raw)
  {
    var name := Lower(Strip(raw));
    if name == "topic" {
      assert !StartsWith(name, TOPIC_COMMAND_PREFIX);
      assert name !in AI_MODES;
    }
  }

  /** `!mode topic` followed by blanks now asks for a topic. */
  lemma CorrectedBlankTopicAsksForTopic(x: string)
    requires AllSpace(x)
    ensures ParseModeCommandCorrected(TOPIC_COMMAND_PREFIX + x) == Err(EmptyTopic)
    ensures ParseModeCommand(TOPIC_COMMAND_PREFIX + x) == Err(UnknownMode)
  {
    StripBlankTopicCommand(x);
    assert Lower("topic") == "topic";
    BlankTopicCommand(x);
  }

  // -----------------------------------------------------------------------
  // Resolution and the system prompt
  // -----------------------------------------------------------------------

  /** The mode key used for a channel (main.py:415-418, 674): its own
      assignment if it has one, otherwise the configured default. */
  function ResolveModeKey(channelModes: map<ChannelId, Mode>, ch: ChannelId, configDefault: string): (key: string)
    ensures ch in channelModes ==> ParseModeKey(key) == channelModes[ch] || !ValidMode(channelModes[ch])
    ensures ch !in channelModes ==> key == configDefault
  {
    if ch in channelModes then
      var m := channelModes[ch];
      if ValidMode(m) then ModeKeyRoundTrip(m); ModeKey(m) else ModeKey(m)
    else configDefault
  }

  /** The instruction block for a topic persona. */
  function TopicInstruction(topic: string): string {
    "You are in Topic Mode about '" + topic + "'. Stay mostly on this topic unless the user clearly changes it."
  }

  /** The instruction block a mode stands for. */
  function Persona(m: Mode): string
    requires ValidMode(m)
  {
    match m
    case Fixed(n) => AI_MODES[n]
    case Topic(t) => TopicInstruction(t)
  }

  /** The mode-specific part of the prompt for a lower-cased key: a topic key
      gives a topic block (a blank topic becoming "general conversation"), a
      fixed name its block, anything else the baseline persona's block. */
  function KeyInstruction(key: string): string {
    if StartsWith(key, TOPIC_KEY_PREFIX) then
      var topic := Strip(key[|TOPIC_KEY_PREFIX|..]);
      TopicInstruction(if topic == [] then BLANK_TOPIC else topic)
    else if key in AI_MODES then AI_MODES[key]
    else AI_MODES[BASELINE_MODE]
  }

  /** `mode or config.get("ai_default_mode", ...)`: an empty mode falls back
      to the configured default. */
  function ChosenMode(mode: string, configDefault: string): string {
    if mode == [] then configDefault else mode
  }

  /** `build_system_prompt(mode)`: the chosen key is lower-cased before it is read. */
  function BuildSystemPrompt(mode: string, configDefault: string): (prompt: string)
    ensures |prompt| > |BASE_SYSTEM_PROMPT| && prompt[..|BASE_SYSTEM_PROMPT|] == BASE_SYSTEM_PROMPT
  {
    BASE_SYSTEM_PROMPT + "\n\n" + KeyInstruction(Lower(ChosenMode(mode, configDefault)))
  }

  /** A stored key is already lower case. */
  lemma {:induction false} StoredKeyIsLowered(m: Mode)
    requires ValidMode(m)
    ensures Lower(ModeKey(m)) == ModeKey(m)
  {
    match m
    case Fixed(n) =>
      FixedNamesArePlain(n);
      LoweredIsFixpoint(n);
    case Topic(t) =>
      LowerAppend(TOPIC_KEY_PREFIX, t);
      assert Lower(TOPIC_KEY_PREFIX) == TOPIC_KEY_PREFIX;
      LoweredIsFixpoint(t);
  }

  /** A topic key selects the topic block for its (stripped) topic. */
  lemma {:induction false} TopicKeyInstruction(t: string)
    requires t != [] && IsStripped(t)
    ensures KeyInstruction(TOPIC_KEY_PREFIX + t) == TopicInstruction(t)
  {
    var key := TOPIC_KEY_PREFIX + t;
    assert StartsWith(key, TOPIC_KEY_PREFIX);
    assert key[|TOPIC_KEY_PREFIX|..] == t;
    StrippedIsFixpoint(t);
  }

  /** A stored key, lower-cased as the prompt builder does, selects the
      instructions of the mode it was made from. */
  lemma StoredKeyInstruction(m: Mode)
    requires ValidMode(m)
    ensures KeyInstruction(Lower(ModeKey(m))) == Persona(m)
  {
    StoredKeyIsLowered(m);
    match m
    case Fixed(n) =>
      FixedNamesArePlain(n);
    case Topic(t) =>
      TopicKeyInstruction(t);
  }

  /** A mode stored by `!mode` is turned into exactly its own persona's
      instructions, whatever the configured default is. */
  lemma StoredModeSelectsPersona(m: Mode, configDefault: string)
    requires ValidMode(m)
    ensures BuildSystemPrompt(ModeKey(m), configDefault) == BASE_SYSTEM_PROMPT + "\n\n" + Persona(m)
  {
    assert ModeKey(m) != [] by {
      if m.Fixed? { FixedNamesArePlain(m.name); }
    }
    StoredKeyInstruction(m);
  }

  /** Any key whose lower-cased form starts with `topic:` (so `Topic:` and
      `TOPIC:` too), with any text after the prefix: the topic is that text
      lower-cased and stripped, and a blank one becomes "general conversation". */
  lemma {:induction false} TopicKeyAnyText(key: string)
    requires StartsWith(Lower(key), TOPIC_KEY_PREFIX)
    ensures |key| >= |TOPIC_KEY_PREFIX|
    ensures var t := key[|TOPIC_KEY_PREFIX|..];
            KeyInstruction(Lower(key)) == TopicInstruction(if AllSpace(t) then BLANK_TOPIC else Strip(Lower(t)))
  {
    var n := |TOPIC_KEY_PREFIX|;
    var l := Lower(key);
    LowerSlice(key, n, |key|);
    assert key[n..|key|] == key[n..] && l[n..|key|] == l[n..];
    AllSpaceLower(key[n..]);
  }

  /** The prompt for a topic key: the base prompt and the topic block. */
  lemma TopicKeyPrompt(mode: string, configDefault: string)
    requires StartsWith(Lower(ChosenMode(mode, configDefault)), TOPIC_KEY_PREFIX)
    ensures |ChosenMode(mode, configDefault)| >= |TOPIC_KEY_PREFIX|
    ensures var t := ChosenMode(mode, configDefault)[|TOPIC_KEY_PREFIX|..];
            BuildSystemPrompt(mode, configDefault) ==
              BASE_SYSTEM_PROMPT + "\n\n" + TopicInstruction(if AllSpace(t) then BLANK_TOPIC else Strip(Lower(t)))
  {
    TopicKeyAnyText(ChosenMode(mode, configDefault));
  }

  /** A persona name in any letter case selects that persona. */
  lemma FixedKeyAnyCase(mode: string, configDefault: string)
    requires Lower(ChosenMode(mode, configDefault)) in AI_MODES
    ensures BuildSystemPrompt(mode, configDefault) ==
              BASE_SYSTEM_PROMPT + "\n\n" + AI_MODES[Lower(ChosenMode(mode, configDefault))]
  {
    FixedNamesArePlain(Lower(ChosenMode(mode, configDefault)));
  }

  /** A key that names no persona and is no topic key (say, a default mode
      edited by hand in the configuration file) falls back to the baseline
      persona. With `TopicKeyPrompt` and `FixedKeyAnyCase` this covers every key. */
  lemma UnknownKeyFallsBack(mode: string, configDefault: string)
    requires var key := Lower(ChosenMode(mode, configDefault));
             !StartsWith(key, TOPIC_KEY_PREFIX) && key !in AI_MODES
    ensures BuildSystemPrompt(mode, configDefault) == BASE_SYSTEM_PROMPT + "\n\n" + AI_MODES[BASELINE_MODE]
  {
  }
}
