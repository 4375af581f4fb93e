/** The bot's mutable state and the operations that change it: the XP
    ledger (main.py:174-189), the daily counters (main.py:222-243), the
    message pipeline of `on_message` (main.py:283-431) with its slowmode gate
    and spam window, the `!mode`, `!currentmode`, `!slowmode`, `!mute` and
    `!unmute` commands, the timed unmute, and the `/admin` edits of the
    configuration (main.py:705-799). */
module Engine {
  import opened Base
  import opened Text
  import Leveling
  import RateLimit
  import Daily
  import Modes
  import Settings
  import Dispatch

  /** What the pipeline needs to know about an incoming message. Whether the
      author is staff (holds one of the staff roles), a bot, or mentioned the
      bot are looked up on the platform and arrive here as flags. */
  datatype Message = Message(
    author: UserId,
    authorName: string,
    authorIsBot: bool,
    authorIsStaff: bool,
    guild: Option<GuildId>,
    channel: ChannelId,
    channelName: string,
    content: string,
    mentionsBot: bool)

  /** What is sent to the assistant: the system prompt and the user's turn. */
  datatype AiRequest = AiRequest(systemPrompt: string, userTurn: string)

  /** How `on_message` ends. */
  datatype Outcome =
    | Ignored                 // the bot's own message, or a direct message
    | DeletedBannedWord       // deleted and logged
    | DeletedLink             // deleted and logged
    | DeletedSlowmode         // deleted, author told by direct message
    | Passed(autoMuted: bool, levelUp: Option<int>, request: Option<AiRequest>)

  datatype SlowmodeReply = SlowmodeRefused | SlowmodeDisabled | SlowmodeSet(delay: nat) | SlowmodeInvalid

  datatype UnmuteReply = UnmuteRefused | Unmuted | NotMuted

  datatype AdminReply = NotAuthorized | UnknownFeature | UnknownDefaultMode | BadWordAction
                      | Updated | AlreadyBanned | NotBanned

  /** The spam window of a user in a guild, after a message at `now`. */
  function NextWindow(tracker: map<(GuildId, UserId), seq<int>>, key: (GuildId, UserId), now: int): seq<int> {
    RateLimit.RecordMessage(GetOr(tracker, key, []), now)
  }

  /** The XP record of a user, a fresh one if there is none. */
  function RecordOf(xpData: map<UserId, Leveling.XpRecord>, user: UserId): Leveling.XpRecord {
    GetOr(xpData, user, Leveling.NEW_RECORD)
  }

  class Bot {
    var config: Settings.Config
    var xpData: map<UserId, Leveling.XpRecord>
    var spamTracker: map<(GuildId, UserId), seq<int>>
    var slowmodeSettings: map<ChannelId, nat>
    var lastMessageTime: map<(ChannelId, UserId), int>
    var daily: map<GuildId, Daily.DayCounts>
    var channelModes: map<ChannelId, Modes.Mode>
    /** Members of a guild who hold the Muted role. */
    var muted: set<(GuildId, UserId)>
    const botId: nat

    /** What every operation keeps: XP records are settled, stored modes are
        ones `!mode` can produce, and spam windows end with their newest
        message and hold nothing older than the window length. */
    ghost predicate Valid()
      reads this
    {
      (forall u :: u in xpData ==> Leveling.Settled(xpData[u])) &&
      (forall ch :: ch in channelModes ==> Modes.ValidMode(channelModes[ch])) &&
      (forall k :: k in spamTracker ==> RateLimit.WellFormedWindow(spamTracker[k]))
    }

    /** The state at start-up, before the configuration file is read. */
    constructor (botId: nat)
      ensures this.botId == botId
      ensures config == Settings.DEFAULT_CONFIG
      ensures xpData == map[] && spamTracker == map[] && slowmodeSettings == map[]
      ensures lastMessageTime == map[] && daily == map[] && channelModes == map[] && muted == {}
      ensures Valid()
    {
      this.botId := botId;
      config := Settings.DEFAULT_CONFIG;
      xpData := map[];
      spamTracker := map[];
      slowmodeSettings := map[];
      lastMessageTime := map[];
      daily := map[];
      channelModes := map[];
      muted := {};
    }

    /** `load_config`, given what the configuration file holds (`None` when
        it is missing or cannot be read). */
    method LoadConfig(file: Option<Settings.StoredConfig>)
      modifies this`config
      ensures config == Settings.LoadConfig(file)
    {
      config := Settings.LoadConfig(file);
    }

    // ---------------------------------------------------------------------
    // XP
    // ---------------------------------------------------------------------

    /** `add_xp`: add the points, then raise the level one step at a time
        while the points reach the current level's threshold. Returns whether
        the level rose and the level reached. */
    method AddXp(user: UserId, amount: int) returns (leveledUp: bool, newLevel: int)
      requires Valid()
      modifies this`xpData
      ensures Valid()
      ensures xpData == old(xpData)[user := Leveling.Award(RecordOf(old(xpData), user), amount)]
      ensures xpData[user].xp == RecordOf(old(xpData), user).xp + amount
      ensures newLevel == xpData[user].level >= RecordOf(old(xpData), user).level
      ensures leveledUp <==> newLevel > RecordOf(old(xpData), user).level
      ensures xpData[user].xp < Leveling.Threshold(newLevel)
    {
      var rec := RecordOf(xpData, user);
      var xp := rec.xp + amount;
      var level := rec.level;
      xpData := xpData[user := Leveling.XpRecord(xp, level)];
      var needed := level * 100;
      leveledUp := false;
      while xp >= needed
        invariant level >= rec.level
        invariant needed == Leveling.Threshold(level)
        invariant Leveling.Climb(xp, level) == Leveling.Climb(xp, rec.level)
        invariant leveledUp <==> level > rec.level
        invariant xpData == old(xpData)[user := Leveling.XpRecord(xp, level)]
        decreases xp - needed
      {
        level := level + 1;
        xpData := xpData[user := Leveling.XpRecord(xp, level)];
        needed := level * 100;
        leveledUp := true;
      }
      newLevel := level;
      Leveling.AwardKeepsSettled(rec, amount);
    }

    // ---------------------------------------------------------------------
    // Daily counters
    // ---------------------------------------------------------------------

    /** `track_daily_message`: nothing outside a guild; otherwise the guild's
        message count for `today` goes up by one. */
    method TrackDailyMessage(guild: Option<GuildId>, today: int)
      modifies this`daily
      ensures guild.None? ==> daily == old(daily)
      ensures guild.Some? ==>
                daily == old(daily)[guild.value := Daily.CountMessage(Lookup(old(daily), guild.value), today)]
    {
      if guild.Some? {
        var g := guild.value;
        daily := daily[g := Daily.CountMessage(Lookup(daily, g), today)];
      }
    }

    /** `track_new_member`, called by `on_member_join`. */
    method TrackNewMember(guild: Option<GuildId>, today: int)
      modifies this`daily
      ensures guild.None? ==> daily == old(daily)
      ensures guild.Some? ==>
                daily == old(daily)[guild.value := Daily.CountNewMember(Lookup(old(daily), guild.value), today)]
    {
      if guild.Some? {
        var g := guild.value;
        daily := daily[g := Daily.CountNewMember(Lookup(daily, g), today)];
      }
    }

    // ---------------------------------------------------------------------
    // Message pipeline
    // ---------------------------------------------------------------------

    /** Stage 3, slowmode: decides whether the message is deleted; when it is
        not, and the channel has a cooldown and the author is no bot, the
        time is recorded, for staff as well. */
    method SlowmodeGate(ch: ChannelId, user: UserId, isBot: bool, isStaff: bool, now: int) returns (delete: bool)
      modifies this`lastMessageTime
      ensures delete == RateLimit.SlowmodeDeletes(isBot, isStaff, Lookup(slowmodeSettings, ch),
                                                  GetOr(old(lastMessageTime), (ch, user), 0), now)
      ensures lastMessageTime ==
                if delete || isBot || ch !in slowmodeSettings then old(lastMessageTime)
                else old(lastMessageTime)[(ch, user) := now]
    {
      delete := false;
      if !isBot && ch in slowmodeSettings {
        var delay := slowmodeSettings[ch];
        var key := (ch, user);
        var last := GetOr(lastMessageTime, key, 0);
        if now - last < delay && !isStaff {
          delete := true;
          return;
        }
        lastMessageTime := lastMessageTime[key := now];
      }
    }

    /** Stage 4, the spam window: when moderation and spam protection are on
        and the author is no bot, the message time is recorded and the window
        pruned; a full window mutes the author unless they are staff. */
    method SpamCheck(guild: GuildId, user: UserId, isBot: bool, isStaff: bool, now: int) returns (mute: bool)
      requires Valid()
      modifies this`spamTracker, this`muted
      ensures Valid()
      ensures var tracked := config.moderationEnabled && config.spamProtection && !isBot;
              spamTracker == if tracked then old(spamTracker)[(guild, user) := NextWindow(old(spamTracker), (guild, user), now)]
                             else old(spamTracker)
      ensures mute == RateLimit.AutoMuteFires(config.moderationEnabled, config.spamProtection, isBot, isStaff,
                                              |NextWindow(old(spamTracker), (guild, user), now)|)
      ensures muted == if mute then old(muted) + {(guild, user)} else old(muted)
    {
      mute := false;
      if config.moderationEnabled && config.spamProtection && !isBot {
        var key := (guild, user);
        var window := NextWindow(spamTracker, key, now);
        RateLimit.RecordMessageWellFormed(GetOr(spamTracker, key, []), now);
        spamTracker := spamTracker[key := window];
        if |window| >= RateLimit.SPAM_MAX_MESSAGES && !isStaff {
          mute := true;
          muted := muted + {key};
        }
      }
    }

    /** The mode key the assistant uses in a channel (also `!currentmode`'s answer). */
    function CurrentMode(ch: ChannelId): (key: string)
      reads this
      ensures ch !in channelModes ==> key == config.aiDefaultMode
      ensures ch in channelModes && Modes.ValidMode(channelModes[ch]) ==> Modes.ParseModeKey(key) == channelModes[ch]
    {
      Modes.ResolveModeKey(channelModes, ch, config.aiDefaultMode)
    }

    /** Stage 5: a message of more than two characters (once stripped) from
        a human author, with XP on, is counted for the day and earns XP. */
    method XpStage(msg: Message, guild: GuildId, today: int) returns (levelUp: Option<int>)
      requires Valid()
      modifies this`xpData, this`daily
      ensures Valid()
      ensures var earns := config.xpEnabled && !msg.authorIsBot && Dispatch.EarnsXp(msg.content);
              var before := RecordOf(old(xpData), msg.author);
              var after := Leveling.Award(before, Leveling.XP_PER_MESSAGE);
              && xpData == (if earns then old(xpData)[msg.author := after] else old(xpData))
              && daily == (if earns then old(daily)[guild := Daily.CountMessage(Lookup(old(daily), guild), today)]
                           else old(daily))
              && levelUp == (if earns && after.level > before.level then Some(after.level) else None)
    {
      levelUp := None;
      if config.xpEnabled && !msg.authorIsBot && Dispatch.EarnsXp(msg.content) {
        TrackDailyMessage(Some(guild), today);
        var up, level := AddXp(msg.author, Leveling.XP_PER_MESSAGE);
        if up {
          levelUp := Some(level);
        }
      }
    }

    /** Stage 6: the request for the assistant, if it is to answer. */
    function AiRequestFor(msg: Message): (request: Option<AiRequest>)
      reads this
      ensures request.Some? <==> config.aiEnabled && Dispatch.ShouldReply(msg.mentionsBot, msg.channelName, msg.channel in channelModes)
      ensures request.Some? ==>
                request.value.systemPrompt == Modes.BuildSystemPrompt(CurrentMode(msg.channel), config.aiDefaultMode) &&
                request.value.userTurn == Dispatch.UserTurn(msg.authorName, Dispatch.CleanContent(msg.content, botId))
    {
      if config.aiEnabled && Dispatch.ShouldReply(msg.mentionsBot, msg.channelName, msg.channel in channelModes) then
        Some(AiRequest(Modes.BuildSystemPrompt(CurrentMode(msg.channel), config.aiDefaultMode),
                       Dispatch.UserTurn(msg.authorName, Dispatch.CleanContent(msg.content, botId))))
      else None
    }

    /** Stage 1 deletes the message: moderation is on and its lower-cased
        text contains a banned word. */
    predicate BannedStage(msg: Message)
      reads this
    {
      Dispatch.BannedWordHit(config.moderationEnabled, config.bannedWords, Lower(msg.content))
    }

    /** Stage 2 deletes the message: it carries a link and its author is
        neither a bot nor staff. */
    predicate LinkStage(msg: Message)
      reads this
    {
      Dispatch.LinkHit(config.moderationEnabled, config.linkBlocking, msg.authorIsBot, msg.authorIsStaff, Lower(msg.content))
    }

    /** Stage 3 deletes the message: the author is writing faster than the
        channel's cooldown allows. */
    predicate SlowmodeStage(msg: Message, lastTimes: map<(ChannelId, UserId), int>, now: int)
      reads this
    {
      RateLimit.SlowmodeDeletes(msg.authorIsBot, msg.authorIsStaff, Lookup(slowmodeSettings, msg.channel),
                                GetOr(lastTimes, (msg.channel, msg.author), 0), now)
    }

    /** Stages 3 to 6 of `on_message`, for a guild message that passed the
        word and link filters. */
    method AfterFilters(msg: Message, guild: GuildId, now: int, today: int) returns (outcome: Outcome)
      requires Valid()
      modifies this`lastMessageTime, this`spamTracker, this`muted, this`xpData, this`daily
      ensures Valid()
      ensures outcome.DeletedSlowmode? || outcome.Passed?
      ensures outcome.DeletedSlowmode? <==> SlowmodeStage(msg, old(lastMessageTime), now)
      ensures outcome.DeletedSlowmode? ==> unchanged(this`lastMessageTime, this`spamTracker, this`muted, this`xpData, this`daily)
      ensures outcome.Passed? ==>
                lastMessageTime == if msg.authorIsBot || msg.channel !in slowmodeSettings then old(lastMessageTime)
                                   else old(lastMessageTime)[(msg.channel, msg.author) := now]
      ensures outcome.Passed? ==>
                var key := (guild, msg.author);
                var tracked := config.moderationEnabled && config.spamProtection && !msg.authorIsBot;
                && spamTracker == (if tracked then old(spamTracker)[key := NextWindow(old(spamTracker), key, now)] else old(spamTracker))
                && (outcome.autoMuted <==>
                      RateLimit.AutoMuteFires(config.moderationEnabled, config.spamProtection, msg.authorIsBot,
                                              msg.authorIsStaff, |NextWindow(old(spamTracker), key, now)|))
                && muted == (if outcome.autoMuted then old(muted) + {key} else old(muted))
      ensures outcome.Passed? ==>
                var earns := config.xpEnabled && !msg.authorIsBot && Dispatch.EarnsXp(msg.content);
                var before := RecordOf(old(xpData), msg.author);
                var after := Leveling.Award(before, Leveling.XP_PER_MESSAGE);
                && xpData == (if earns then old(xpData)[msg.author := after] else old(xpData))
                && daily == (if earns then old(daily)[guild := Daily.CountMessage(Lookup(old(daily), guild), today)]
                             else old(daily))
                && outcome.levelUp == (if earns && after.level > before.level then Some(after.level) else None)
      ensures outcome.Passed? ==> outcome.request == AiRequestFor(msg)
    {
      var slowed := SlowmodeGate(msg.channel, msg.author, msg.authorIsBot, msg.authorIsStaff, now);
      if slowed {
        return DeletedSlowmode;
      }
      var autoMuted := SpamCheck(guild, msg.author, msg.authorIsBot, msg.authorIsStaff, now);
      var levelUp := XpStage(msg, guild, today);
      var request := AiRequestFor(msg);
      return Passed(autoMuted, levelUp, request);
    }

    /** `on_message`, after commands have been handled: the stages run in
        order and the first three end the handling when they delete the
        message. */
    method OnMessage(msg: Message, now: int, today: int) returns (outcome: Outcome)
      requires Valid()
      modifies this`lastMessageTime, this`spamTracker, this`muted, this`xpData, this`daily
      ensures Valid()
      // Own messages and direct messages, and only those, are left alone.
      ensures outcome == Ignored <==> msg.author == botId || msg.guild.None?
      // Every other message that clears the three filters goes through stages 4 to 6.
      ensures outcome.Passed? <==>
                msg.author != botId && msg.guild.Some? && !BannedStage(msg) && !LinkStage(msg) &&
                !SlowmodeStage(msg, old(lastMessageTime), now)
      ensures outcome.Ignored? || outcome.DeletedBannedWord? || outcome.DeletedLink? || outcome.DeletedSlowmode? ==>
                unchanged(this`lastMessageTime, this`spamTracker, this`muted, this`xpData, this`daily)
      // Stage 1: banned words, for every author including staff.
      ensures outcome == DeletedBannedWord <==> msg.author != botId && msg.guild.Some? && BannedStage(msg)
      // Stage 2: links, for authors that are neither bots nor staff.
      ensures outcome == DeletedLink <==>
                msg.author != botId && msg.guild.Some? && !BannedStage(msg) && LinkStage(msg)
      // Stage 3: slowmode.
      ensures outcome == DeletedSlowmode <==>
                msg.author != botId && msg.guild.Some? && !BannedStage(msg) && !LinkStage(msg) &&
                SlowmodeStage(msg, old(lastMessageTime), now)
      // Stage 3 records the time of a message that passes a cooldown.
      ensures outcome.Passed? ==>
                lastMessageTime == if msg.authorIsBot || msg.channel !in slowmodeSettings then old(lastMessageTime)
                                   else old(lastMessageTime)[(msg.channel, msg.author) := now]
      // Stage 4: the spam window and the automatic mute.
      ensures outcome.Passed? ==>
                var key := (msg.guild.value, msg.author);
                var tracked := config.moderationEnabled && config.spamProtection && !msg.authorIsBot;
                && spamTracker == (if tracked then old(spamTracker)[key := NextWindow(old(spamTracker), key, now)] else old(spamTracker))
                && (outcome.autoMuted <==>
                      RateLimit.AutoMuteFires(config.moderationEnabled, config.spamProtection, msg.authorIsBot,
                                              msg.authorIsStaff, |NextWindow(old(spamTracker), key, now)|))
                && muted == (if outcome.autoMuted then old(muted) + {key} else old(muted))
      // Stage 5: XP and the daily message count, for messages longer than two characters.
      ensures outcome.Passed? ==>
                var earns := config.xpEnabled && !msg.authorIsBot && Dispatch.EarnsXp(msg.content);
                var before := RecordOf(old(xpData), msg.author);
                var after := Leveling.Award(before, Leveling.XP_PER_MESSAGE);
                && xpData == (if earns then old(xpData)[msg.author := after] else old(xpData))
                && daily == (if earns then old(daily)[msg.guild.value := Daily.CountMessage(Lookup(old(daily), msg.guild.value), today)]
                             else old(daily))
                && outcome.levelUp == (if earns && after.level > before.level then Some(after.level) else None)
      // Stage 6: whether, and with what, the assistant is asked.
      ensures outcome.Passed? ==> outcome.request == AiRequestFor(msg)
    {
      if msg.author == botId || msg.guild.None? {
        return Ignored;
      }
      if BannedStage(msg) {
        return DeletedBannedWord;
      }
      if LinkStage(msg) {
        return DeletedLink;
      }
      outcome := AfterFilters(msg, msg.guild.value, now, today);
    }

    /** `!ceil <query>`: the request sent for a direct question, under the
        channel's mode; refused while the assistant is switched off. The
        query is sent as typed, mentions included. */
    function CeilCommand(ch: ChannelId, authorName: string, query: string): (request: Option<AiRequest>)
      reads this
      ensures request.None? <==> !config.aiEnabled
      ensures request.Some? ==>
                request.value.systemPrompt == Modes.BuildSystemPrompt(CurrentMode(ch), config.aiDefaultMode) &&
                request.value.userTurn == Dispatch.UserTurn(authorName, query)
    {
      if config.aiEnabled then
        Some(AiRequest(Modes.BuildSystemPrompt(CurrentMode(ch), config.aiDefaultMode), Dispatch.UserTurn(authorName, query)))
      else None
    }

    /** `on_member_join`: the guild's new-member count goes up. */
    method OnMemberJoin(guild: GuildId, today: int)
      modifies this`daily
      ensures daily == old(daily)[guild := Daily.CountNewMember(Lookup(old(daily), guild), today)]
    {
      TrackNewMember(Some(guild), today);
    }

    // ---------------------------------------------------------------------
    // Commands
    // ---------------------------------------------------------------------

    /** `!mode <text>`, open to everyone: a valid mode is stored for the
        channel; a rejected one leaves every assignment as it was. The reply
        uses the corrected parser (a blank topic asks for a topic); what is
        stored is exactly what the parser as written would store. */
    method SetChannelMode(ch: ChannelId, raw: string) returns (r: Result<Modes.Mode, Modes.ModeError>)
      requires Valid()
      modifies this`channelModes
      ensures Valid()
      ensures r == Modes.ParseModeCommandCorrected(raw)
      ensures channelModes == if r.Ok? then old(channelModes)[ch := r.value] else old(channelModes)
      ensures var written := Modes.ParseModeCommand(raw);
              channelModes == if written.Ok? then old(channelModes)[ch := written.value] else old(channelModes)
    {
      Modes.CorrectionKeepsAcceptedModes(raw);
      r := Modes.ParseModeCommandCorrected(raw);
      if r.Ok? {
        channelModes := channelModes[ch := r.value];
      }
    }

    /** `!slowmode <setting>`, staff only: `off` removes the channel's
        cooldown, a number of seconds sets it, anything else is refused. */
    method SlowmodeCommand(ch: ChannelId, isStaff: bool, setting: string) returns (r: SlowmodeReply)
      modifies this`slowmodeSettings
      ensures !isStaff ==> r == SlowmodeRefused && slowmodeSettings == old(slowmodeSettings)
      ensures isStaff && Settings.ParseSlowmode(setting) == Some(Settings.Off) ==>
                r == SlowmodeDisabled && slowmodeSettings == old(slowmodeSettings) - {ch}
      ensures isStaff && Settings.ParseSlowmode(setting).Some? && Settings.ParseSlowmode(setting).value.Seconds? ==>
                var delay := Settings.ParseSlowmode(setting).value.delay;
                r == SlowmodeSet(delay) && slowmodeSettings == old(slowmodeSettings)[ch := delay]
      ensures isStaff && Settings.ParseSlowmode(setting).None? ==>
                r == SlowmodeInvalid && slowmodeSettings == old(slowmodeSettings)
    {
      if !isStaff {
        return SlowmodeRefused;
      }
      match Settings.ParseSlowmode(setting)
      case Some(Off) =>
        slowmodeSettings := slowmodeSettings - {ch};
        r := SlowmodeDisabled;
      case Some(Seconds(delay)) =>
        slowmodeSettings := slowmodeSettings[ch := delay];
        r := SlowmodeSet(delay);
      case None =>
        r := SlowmodeInvalid;
    }

    /** `!mute`, staff only: the member gets the Muted role (the release is
        `ReleaseMute`, run when the timer ends). */
    method MuteCommand(guild: GuildId, member: UserId, isStaff: bool) returns (done: bool)
      modifies this`muted
      ensures done == isStaff
      ensures muted == if isStaff then old(muted) + {(guild, member)} else old(muted)
    {
      done := isStaff;
      if isStaff {
        muted := muted + {(guild, member)};
      }
    }

    /** `!unmute`, staff only: removes the Muted role if the member has it. */
    method UnmuteCommand(guild: GuildId, member: UserId, isStaff: bool) returns (r: UnmuteReply)
      modifies this`muted
      ensures !isStaff ==> r == UnmuteRefused && muted == old(muted)
      ensures isStaff ==> (r == Unmuted <==> (guild, member) in old(muted))
      ensures isStaff ==> r != UnmuteRefused && muted == old(muted) - {(guild, member)}
    {
      if !isStaff {
        return UnmuteRefused;
      }
      if (guild, member) in muted {
        muted := muted - {(guild, member)};
        r := Unmuted;
      } else {
        r := NotMuted;
      }
    }

    /** The end of a timed mute (the `unmute_later` tasks): the role is
        removed if the member still has it, and nothing happens otherwise.
        Every timer removes the one Muted role, whichever mute started it. */
    method ReleaseMute(guild: GuildId, member: UserId) returns (released: bool)
      modifies this`muted
      ensures released <==> (guild, member) in old(muted)
      ensures muted == old(muted) - {(guild, member)}
    {
      released := (guild, member) in muted;
      if released {
        muted := muted - {(guild, member)};
      }
    }

    // ---------------------------------------------------------------------
    // Admin panel
    // ---------------------------------------------------------------------

    /** `/admin toggle`: staff only; a known feature is switched on or off. */
    method AdminToggle(isStaff: bool, feature: string, state: bool) returns (r: AdminReply)
      modifies this`config
      ensures !isStaff ==> r == NotAuthorized && config == old(config)
      ensures isStaff && Settings.ParseFeature(feature).None? ==> r == UnknownFeature && config == old(config)
      ensures isStaff && Settings.ParseFeature(feature).Some? ==>
                r == Updated && config == Settings.SetFlag(old(config), Settings.ParseFeature(feature).value, state)
    {
      if !isStaff {
        return NotAuthorized;
      }
      match Settings.ParseFeature(feature)
      case None =>
        r := UnknownFeature;
      case Some(f) =>
        config := Settings.SetFlag(config, f, state);
        r := Updated;
    }

    /** `/admin mode`: staff only; sets the default persona to a fixed one. */
    method AdminMode(isStaff: bool, mode: string) returns (r: AdminReply)
      modifies this`config
      ensures !isStaff ==> r == NotAuthorized && config == old(config)
      ensures isStaff && Settings.ParseDefaultMode(mode).None? ==> r == UnknownDefaultMode && config == old(config)
      ensures isStaff && Settings.ParseDefaultMode(mode).Some? ==>
                r == Updated && config == old(config).(aiDefaultMode := Settings.ParseDefaultMode(mode).value)
    {
      if !isStaff {
        return NotAuthorized;
      }
      match Settings.ParseDefaultMode(mode)
      case None =>
        r := UnknownDefaultMode;
      case Some(m) =>
        config := config.(aiDefaultMode := m);
        r := Updated;
    }

    /** `/admin bannedwords`: staff only; the word is lower-cased and
        stripped, then added if absent or removed (its first occurrence) if
        present. A change is saved and the configuration read back. */
    method AdminBannedWords(isStaff: bool, action: string, word: string) returns (r: AdminReply)
      modifies this`config
      ensures config == old(config).(bannedWords := config.bannedWords)
      ensures r != Updated ==> config == old(config)
      ensures !isStaff ==> r == NotAuthorized
      ensures isStaff && Settings.ParseWordAction(action).None? ==> r == BadWordAction
      ensures isStaff && Settings.ParseWordAction(action) == Some(Settings.AddWord) ==>
                var w := Settings.NormalizeWord(word);
                if w in old(config).bannedWords then r == AlreadyBanned
                else r == Updated && config.bannedWords == Settings.Added(old(config).bannedWords, w)
      ensures isStaff && Settings.ParseWordAction(action) == Some(Settings.RemoveWord) ==>
                var w := Settings.NormalizeWord(word);
                if w !in old(config).bannedWords then r == NotBanned
                else r == Updated && config.bannedWords == Settings.RemoveFirst(old(config).bannedWords, w)
    {
      if !isStaff {
        return NotAuthorized;
      }
      var w := Settings.NormalizeWord(word);
      var banned := config.bannedWords;
      match Settings.ParseWordAction(action)
      case None =>
        r := BadWordAction;
      case Some(AddWord) =>
        if w !in banned {
          SaveAndReload(config.(bannedWords := Settings.Added(banned, w)));
          r := Updated;
        } else {
          r := AlreadyBanned;
        }
      case Some(RemoveWord) =>
        if w in banned {
          SaveAndReload(config.(bannedWords := Settings.RemoveFirst(banned, w)));
          r := Updated;
        } else {
          r := NotBanned;
        }
    }

    /** `save_config()` followed by `load_config()`: what is read back is what
        was written. */
    method SaveAndReload(c: Settings.Config)
      modifies this`config
      ensures config == c
    {
      config := c;
      Settings.SaveLoadRoundTrip(c);
      config := Settings.LoadConfig(Some(Settings.SaveConfig(config)));
    }
  }

  /** Two mutes of the same member followed by the end of the first timer:
      the member is free again although the second mute has not run out. */
  method OverlappingMutesEndTogether(bot: Bot, guild: GuildId, member: UserId) returns (stillMuted: bool)
    modifies bot`muted
    ensures !stillMuted
    ensures bot.muted == old(bot.muted) - {(guild, member)}
  {
    var first := bot.MuteCommand(guild, member, true);
    var second := bot.MuteCommand(guild, member, true);
    var released := bot.ReleaseMute(guild, member);
    stillMuted := (guild, member) in bot.muted;
  }

  /** A mute lifted early with `!unmute`: when its timer ends later there is
      nothing left to release, and the muted members stay as they were. */
  method UnmuteBeforeTimer(bot: Bot, guild: GuildId, member: UserId) returns (released: bool)
    modifies bot`muted
    ensures !released
    ensures bot.muted == old(bot.muted) - {(guild, member)}
  {
    var muted := bot.MuteCommand(guild, member, true);
    var reply := bot.UnmuteCommand(guild, member, true);
    assert reply == Unmuted;
    var beforeTimer := bot.muted;
    released := bot.ReleaseMute(guild, member);
    assert bot.muted == beforeTimer;
  }
}
