/** The pure decisions inside `on_message` (main.py:283-431): the
    banned-word and link filters, which messages earn XP, whether the
    assistant answers, how the message is cleaned before it is sent on, and
    how a long answer is cut. */
module Dispatch {
  import opened Base
  import opened Text
  import Settings

  /** `link_triggers`: text that marks a message as carrying a link. */
  const LINK_TRIGGERS: seq<string> := ["http://", "https://", "discord.gg/", ".com", ".net", ".org"]

  /** The channels the assistant always answers in. */
  const DEFAULT_AI_CHANNEL_NAMES: seq<string> := ["ceil-assistant", "coordination-hub", "academic-assistant"]

  /** What is sent when a mention carries no other text. */
  const EMPTY_MENTION_PROMPT := "The user mentioned you but wrote nothing else. Ask them what they need."

  /** Replies longer than this are cut. */
  const MAX_REPLY := 1900

  const TRUNCATION_NOTE := "\n\n[Truncated reply]"

  /** `any(p in text for p in patterns)`. */
  predicate AnyContained(text: string, patterns: seq<string>) {
    exists i :: 0 <= i < |patterns| && Contains(text, patterns[i])
  }

  /** The banned-word stage deletes the message: moderation is on and the
      lower-cased text contains a banned word. Staff are not exempt. */
  predicate BannedWordHit(moderationEnabled: bool, bannedWords: seq<string>, lowered: string) {
    moderationEnabled && AnyContained(lowered, bannedWords)
  }

  /** The link stage deletes the message: moderation and link blocking are
      on, the author is neither a bot nor staff, and the text has a link. */
  predicate LinkHit(moderationEnabled: bool, linkBlocking: bool, isBot: bool, isStaff: bool, lowered: string) {
    moderationEnabled && linkBlocking && !isBot && !isStaff && AnyContained(lowered, LINK_TRIGGERS)
  }

  /** The filter is a plain substring test: a banned word matches wherever
      it occurs, also inside a longer word. */
  lemma BannedWordHitIff(moderationEnabled: bool, bannedWords: seq<string>, lowered: string)
    ensures BannedWordHit(moderationEnabled, bannedWords, lowered) <==>
              moderationEnabled &&
              exists i, k :: 0 <= i < |bannedWords| && OccursAt(lowered, bannedWords[i], k)
  {
    forall i | 0 <= i < |bannedWords| {
      ContainsIffOccurs(lowered, bannedWords[i]);
    }
  }

  /** A banned empty word (an administrator adding only blanks) deletes
      every message while moderation is on. */
  lemma EmptyBannedWordMatchesEverything(bannedWords: seq<string>, lowered: string)
    requires "" in bannedWords
    ensures BannedWordHit(true, bannedWords, lowered)
  {
    var i :| 0 <= i < |bannedWords| && bannedWords[i] == "";
    assert StartsWith(lowered, "");
  }

  /** `mishit` is deleted under the default list: it contains `shit`. */
  lemma DefaultListMatchesInsideWords()
    ensures BannedWordHit(true, Settings.DEFAULT_BANNED_WORDS, "mishit")
  {
    assert OccursAt("mishit", "shit", 2);
    OccursImpliesContains("mishit", "shit", 2);
    assert Settings.DEFAULT_BANNED_WORDS[1] == "shit";
  }

  /** `no shirt no shoes` passes the default list: no banned word occurs in it. */
  lemma DefaultListPassesSimilarText()
    ensures !BannedWordHit(true, Settings.DEFAULT_BANNED_WORDS, "no shirt no shoes")
  {
    var text := "no shirt no shoes";
    forall i, k | 0 <= i < |Settings.DEFAULT_BANNED_WORDS|
      ensures !OccursAt(text, Settings.DEFAULT_BANNED_WORDS[i], k)
    {
      var w := Settings.DEFAULT_BANNED_WORDS[i];
      if 0 <= k && k + |w| <= |text| {
        assert text[k..k + |w|][0] == text[k];
        assert text[k..k + |w|][1] == text[k + 1];
        assert text[k..k + |w|][2] == text[k + 2];
        assert text[k..k + |w|][3] == text[k + 3];
      }
    }
    BannedWordHitIff(true, Settings.DEFAULT_BANNED_WORDS, text);
  }

  /** The link filter fires exactly when moderation and link blocking are on,
      the author is neither a bot nor staff, and some trigger occurs somewhere
      in the text, inside a word as much as on its own. */
  lemma LinkHitIff(moderationEnabled: bool, linkBlocking: bool, isBot: bool, isStaff: bool, lowered: string)
    ensures LinkHit(moderationEnabled, linkBlocking, isBot, isStaff, lowered) <==>
              moderationEnabled && linkBlocking && !isBot && !isStaff &&
              exists i, k :: 0 <= i < |LINK_TRIGGERS| && OccursAt(lowered, LINK_TRIGGERS[i], k)
  {
    forall i | 0 <= i < |LINK_TRIGGERS| {
      ContainsIffOccurs(lowered, LINK_TRIGGERS[i]);
    }
  }

  /** `see example.com` is deleted when a member posts it and kept when staff do. */
  lemma LinkFilterSparesStaff()
    ensures LinkHit(true, true, false, false, "see example.com")
    ensures !LinkHit(true, true, false, true, "see example.com")
  {
    assert OccursAt("see example.com", ".com", 11);
    OccursImpliesContains("see example.com", ".com", 11);
    assert LINK_TRIGGERS[3] == ".com";
  }

  /** Only messages of more than two characters, once stripped, earn XP. */
  predicate EarnsXp(content: string) {
    |Strip(content)| > 2
  }

  /** The assistant answers when mentioned, in one of its own channels, or in
      a channel given a mode with `!mode`. */
  predicate ShouldReply(mentioned: bool, channelName: string, channelHasMode: bool) {
    mentioned || Lower(channelName) in DEFAULT_AI_CHANNEL_NAMES || channelHasMode
  }

  /** The two ways a message can mention the bot. */
  function MentionTag(botId: nat): string { "<@" + Decimal(botId) + ">" }

  function NicknameMentionTag(botId: nat): string { "<@!" + Decimal(botId) + ">" }

  /** The text handed to the assistant: both mention tags removed, blanks
      stripped, and a fixed request when nothing is left. */
  function CleanContent(raw: string, botId: nat): (r: string)
    ensures r != []
  {
    var content := Strip(ReplaceAll(ReplaceAll(raw, MentionTag(botId), ""), NicknameMentionTag(botId), ""));
    if content == [] then EMPTY_MENTION_PROMPT else content
  }

  /** A pattern's prefix occurs wherever the pattern does. */
  lemma {:induction false} ContainsPrefix(s: string, t: string, p: string)
    requires Contains(s, t) && StartsWith(t, p)
    ensures Contains(s, p)
    decreases |s|
  {
    if !StartsWith(s, t) {
      ContainsPrefix(s[1..], t, p);
    } else {
      assert s[..|p|] == t[..|p|] == p;
    }
  }

  /** Text without a mention is only stripped; a message that is only a
      mention becomes the fixed request. */
  lemma CleanContentWithoutMention(raw: string, botId: nat)
    requires !Contains(raw, "<@")
    ensures CleanContent(raw, botId) == if AllSpace(raw) then EMPTY_MENTION_PROMPT else Strip(raw)
  {
    var tag, nick := MentionTag(botId), NicknameMentionTag(botId);
    assert StartsWith(tag, "<@") by { assert tag[..2] == "<@"; }
    assert StartsWith(nick, "<@") by { assert nick[..2] == "<@"; }
    if Contains(raw, tag) {
      ContainsPrefix(raw, tag, "<@");
      assert false;
    }
    if Contains(raw, nick) {
      ContainsPrefix(raw, nick, "<@");
      assert false;
    }
  }

  /** The usual case, `<@id> question`: the leading mention is removed and
      the rest is stripped; nothing but blanks after it gives the fixed request. */
  lemma CleanContentLeadingMention(botId: nat, t: string)
    requires !Contains(t, "<@")
    ensures CleanContent(MentionTag(botId) + t, botId) == if AllSpace(t) then EMPTY_MENTION_PROMPT else Strip(t)
  {
    var tag := MentionTag(botId);
    var once := ReplaceAll(t, tag, "");
    assert ReplaceAll(tag + t, tag, "") == once by {
      ReplaceAllLeading(tag, t, "");
      assert "" + once == once;
    }
    CleanContentWithoutMention(t, botId);
  }

  /** Text without `<@` has no `<` directly followed by `@`. */
  lemma NoOpenerIn(t: string, i: int)
    requires !Contains(t, "<@") && 0 <= i && i + 1 < |t|
    ensures !(t[i] == '<' && t[i + 1] == '@')
  {
    assert !OccursAt(t, "<@", i) by { ContainsIffOccurs(t, "<@"); }
    assert t[i..i + 2] == [t[i], t[i + 1]];
  }

  /** A tag beginning with `<@` does not occur where the text has no `<@`. */
  lemma NoTagWithoutOpener(s: string, tag: string, k: int)
    requires |tag| >= 2 && tag[0] == '<' && tag[1] == '@'
    requires 0 <= k && k + 1 < |s| && !(s[k] == '<' && s[k + 1] == '@')
    ensures !OccursAt(s, tag, k)
  {
    if k + |tag| <= |s| {
      var w := s[k..k + |tag|];
      assert w[0] == s[k] && w[1] == s[k + 1];
    }
  }

  /** No mention tag starts inside text without `<@`, not even on its last
      character, since the tag's own `<` cannot play the part of the `@`. */
  lemma NoTagStartsBefore(a: string, tag: string, b: string, k: int)
    requires !Contains(a, "<@") && |tag| >= 2 && tag[0] == '<' && tag[1] == '@' && 0 <= k < |a|
    ensures !OccursAt(a + tag + b, tag, k)
  {
    var s := a + tag + b;
    if k + 1 < |a| {
      NoOpenerIn(a, k);
      assert s[k] == a[k] && s[k + 1] == a[k + 1];
    } else {
      assert s[k + 1] == tag[0];
    }
    NoTagWithoutOpener(s, tag, k);
  }

  /** A tag beginning with `<@` is absent from text without `<@`. */
  lemma TagAbsent(s: string, tag: string)
    requires !Contains(s, "<@") && |tag| >= 2 && tag[0] == '<' && tag[1] == '@'
    ensures !Contains(s, tag)
  {
    assert StartsWith(tag, "<@") by { assert tag[..2] == "<@"; }
    if Contains(s, tag) {
      ContainsPrefix(s, tag, "<@");
      assert false;
    }
  }

  /** No tag beginning with `<@` starts within the text in front of it. */
  lemma NoTagInFront(a: string, tag: string, b: string)
    requires !Contains(a, "<@") && |tag| >= 2 && tag[0] == '<' && tag[1] == '@'
    ensures forall k :: 0 <= k < |a| ==> !OccursAt(a + tag + b, tag, k)
  {
    forall k | 0 <= k < |a| ensures !OccursAt(a + tag + b, tag, k) {
      NoTagStartsBefore(a, tag, b, k);
    }
  }

  /** Deleting a tag that begins with `<@` from `a + tag + b`, where neither
      side contains `<@`, joins the two sides. */
  lemma DeleteTagInside(a: string, tag: string, b: string)
    requires !Contains(a, "<@") && !Contains(b, "<@") && |tag| >= 2 && tag[0] == '<' && tag[1] == '@'
    ensures ReplaceAll(a + tag + b, tag, "") == a + b
  {
    NoTagInFront(a, tag, b);
    TagAbsent(b, tag);
    ReplaceAllDeletesOnly(a, tag, b);
  }

  /** A mention anywhere in the text, `hey <@id> why?`: the tag is removed and
      the text around it is joined and stripped. */
  lemma CleanContentMentionAnywhere(botId: nat, a: string, b: string)
    requires !Contains(a + b, "<@")
    ensures CleanContent(a + MentionTag(botId) + b, botId) ==
              if AllSpace(a + b) then EMPTY_MENTION_PROMPT else Strip(a + b)
  {
    var tag := MentionTag(botId);
    assert ReplaceAll(a + tag + b, tag, "") == ReplaceAll(a + b, tag, "") by {
      ContainsInParts(a, b, "<@");
      assert tag[0] == '<' && tag[1] == '@';
      DeleteTagInside(a, tag, b);
      TagAbsent(a + b, tag);
    }
    CleanContentWithoutMention(a + b, botId);
  }

  /** The characters of the nickname tag `<@!id>` after its first are never `<`. */
  lemma NicknameTagInnerChars(botId: nat, j: int)
    requires 1 <= j < |NicknameMentionTag(botId)|
    ensures NicknameMentionTag(botId)[j] != '<'
  {
    var d := Decimal(botId);
    var nick := NicknameMentionTag(botId);
    assert nick == "<@!" + d + ">";
    if 3 <= j < |nick| - 1 {
      assert nick[j] == d[j - 3];
      assert IsDigit(d[j - 3]);
    }
  }

  /** The plain tag `<@id>` never occurs in `<@!id>` followed by text without `<@`. */
  lemma NoPlainTagAfterNickname(botId: nat, t: string, k: int)
    requires !Contains(t, "<@")
    ensures !OccursAt(NicknameMentionTag(botId) + t, MentionTag(botId), k)
  {
    var tag, nick := MentionTag(botId), NicknameMentionTag(botId);
    var s := nick + t;
    var d := Decimal(botId);
    assert tag == "<@" + d + ">" && nick == "<@!" + d + ">";
    if 0 <= k && k + |tag| <= |s| {
      var w := s[k..k + |tag|];
      if k == 0 {
        assert w[2] == '!' && tag[2] == d[0] && IsDigit(d[0]);
      } else if k < |nick| {
        NicknameTagInnerChars(botId, k);
        assert w[0] == nick[k];
      } else {
        var i := k - |nick|;
        NoOpenerIn(t, i);
        assert s[k] == t[i] && s[k + 1] == t[i + 1];
        assert tag[0] == '<' && tag[1] == '@';
        NoTagWithoutOpener(s, tag, k);
      }
    }
  }

  /** The nickname form, `<@!id> question`, is removed by the second `replace`. */
  lemma CleanContentNicknameMention(botId: nat, t: string)
    requires !Contains(t, "<@")
    ensures CleanContent(NicknameMentionTag(botId) + t, botId) ==
              if AllSpace(t) then EMPTY_MENTION_PROMPT else Strip(t)
  {
    var tag, nick := MentionTag(botId), NicknameMentionTag(botId);
    assert ReplaceAll(nick + t, tag, "") == nick + t by {
      ContainsIffOccurs(nick + t, tag);
      forall k ensures !OccursAt(nick + t, tag, k) {
        NoPlainTagAfterNickname(botId, t, k);
      }
    }
    var once := ReplaceAll(t, nick, "");
    assert ReplaceAll(nick + t, nick, "") == once by {
      ReplaceAllLeading(nick, t, "");
      assert "" + once == once;
    }
    assert once == t by {
      assert StartsWith(nick, "<@") by { assert nick[..2] == "<@"; }
      if Contains(t, nick) {
        ContainsPrefix(t, nick, "<@");
        assert false;
      }
    }
    assert Strip(t) == [] <==> AllSpace(t);
  }

  /** A message that is nothing but the bot's mention gets the fixed request. */
  lemma BareMentionAsksWhatIsNeeded(botId: nat)
    ensures CleanContent(MentionTag(botId), botId) == EMPTY_MENTION_PROMPT
  {
    var tag := MentionTag(botId);
    assert StartsWith(tag, tag);
    assert tag[|tag|..] == [];
    assert ReplaceAll(tag, tag, "") == [];
    assert ReplaceAll([], NicknameMentionTag(botId), "") == [];
    assert AllSpace([]);
  }

  /** `reply[:1900] + "\n\n[Truncated reply]"` for long replies. */
  function TruncateReply(reply: string): (r: string)
    ensures |reply| <= MAX_REPLY ==> r == reply
    ensures |reply| > MAX_REPLY ==> |r| == MAX_REPLY + |TRUNCATION_NOTE|
    ensures |r| <= MAX_REPLY + |TRUNCATION_NOTE|
    ensures |reply| > MAX_REPLY ==> r[..MAX_REPLY] == reply[..MAX_REPLY] && r[MAX_REPLY..] == TRUNCATION_NOTE
  {
    if |reply| > MAX_REPLY then reply[..MAX_REPLY] + TRUNCATION_NOTE else reply
  }

  /** The user turn of the conversation sent to the assistant. */
  function UserTurn(userName: string, message: string): string {
    "User (" + userName + ") says: " + message
  }
}
