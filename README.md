# CEIL Assistant bot: the moderation and engagement state engine

A model, in Dafny, of the state kept by the CEIL Assistant Discord bot
(`main.py`) and of the decisions it takes on every message:

- the XP ledger and its level-up loop;
- the spam sliding window with its automatic mute, and the per-channel slowmode gate;
- the order of the stages of `on_message`;
- the per-channel AI persona: the `!mode` parser, how a channel's mode is resolved, and the system prompt built from it;
- the daily activity counters with their lazy date rollover;
- the configuration: filling a loaded file with defaults, the feature toggle, the default mode, and the banned-word list;
- the `!slowmode`, `!mute` and `!unmute` commands, and the end of a timed mute.

Modules:

| file | module | what it holds |
|---|---|---|
| `base.dfy` | `Base` | `Option`, `Result`, identifier types, dictionary lookups |
| `text.dfy` | `Text` | Python's `lower()`, `strip()`, `in` on strings, `replace()`, decimal digits |
| `leveling.dfy` | `Leveling` | XP records, the level thresholds, and what one award does |
| `ratelimit.dfy` | `RateLimit` | the spam window (prune, record, replay) and the slowmode decision |
| `daily.dfy` | `Daily` | the per-guild day counters and their rollover |
| `modes.dfy` | `Modes` | the personas, `!mode`, mode keys, and `build_system_prompt` |
| `settings.dfy` | `Settings` | the configuration record, its defaults, and admin arguments |
| `dispatch.dfy` | `Dispatch` | the filters, the reply trigger, text cleaning, and truncation |
| `engine.dfy` | `Engine` | the class `Bot`, holding the mutable state and its operations |

The source keeps its state in module-level dictionaries. These become the
fields of one class, `Engine.Bot`, and its methods change them in place.
Each method names the fields it may change and states the whole new state.
The loop in `add_xp` is a `while` loop in `Engine.Bot.AddXp`. It is proved
against `Leveling.Award`, whose properties are lemmas of `Leveling`.

Representation choices:

- **Inputs.** Clock time and the UTC date arrive as the integers `now` and `today`.
- **Role lookups.** Whether an author is staff, whether they are a bot, and whether they mentioned the bot arrive as flags on `Engine.Message`.
- **The Muted role.** Whether a member holds it is the set `Engine.Bot.muted`, keyed by guild and member.
- **Daily counters.** The source keeps three dictionaries: `messages_today`, `new_members_today` and `last_stats_reset_date`. Each write to the first two follows the date check that sets the third, so the three always share their keys. They are one map of `Daily.DayCounts` records.
- **Spam tracker.** The nested `spam_tracker` dictionary (guild, then user) is one map keyed by the pair.
- **Mode keys.** A channel's mode is the datatype `Modes.Mode` instead of a string. `Modes.ModeKey` and `Modes.ParseModeKey` translate between the two forms; `ModeKeyRoundTrip` and `ParseModeKeyRoundTrip` prove them inverse. `ParseModeKey` is the bridge `Modes.ResolveModeKey` uses; the prompt builder reads a key through `Modes.KeyInstruction`, and that reading of a stored key is stated by `Modes.StoredModeSelectsPersona`.

Before `load_config` runs, the source's `config` is empty. That state is
never seen by a handler: the program loads the configuration before it
connects (main.py:834) and again once it is ready (main.py:252). So the
model starts from `DEFAULT_CONFIG` itself. This does not claim that every
lookup on the empty dictionary falls back to `DEFAULT_CONFIG`'s value; the
banned-word panel, for one, reads it with an empty default (main.py:775).

Behaviours of the source that the model keeps:

- **Rollover counters.** On a new day, `track_daily_message` restarts only the message count and `track_new_member` only the join count. The other count is carried over from the previous day, and the 20:00 summary reports it as today's (`Daily.JoinCountSurvivesRollover`).
- **Daily message count.** A message is counted for the day only when it also earns XP (main.py:398-399).
- **Banned-word filter.** It is a substring test on the lower-cased text. `mishit` is deleted because it contains `shit`, while `no shirt no shoes` passes. Staff are not exempt.
- **Empty banned word.** An administrator who adds a word that is only blanks makes every message match while moderation is on (`Dispatch.EmptyBannedWordMatchesEverything`).
- **Slowmode and staff.** Staff are exempt from slowmode deletion, but their message time is still recorded.
- **Stale slowmode times.** `!slowmode off` removes only the cooldown. Recorded message times stay.
- **Mute timers.** A timer ends every mute of the member, not only the one that started it (`Engine.OverlappingMutesEndTogether`).
- **Commands run before moderation.** The bot processes commands before any moderation stage. A command containing a banned word is therefore executed, and only then deleted. The command methods of `Engine.Bot` are separate from `OnMessage` for this reason.

## Model

| member | source | states |
|---|---|---|
| Text.Lower | main.py:298 | `str.lower()` on the ASCII letters: the length is kept, each character is mapped on its own, and the result is lower case |
| Text.Strip | main.py:652 | `str.strip()`: the result is the input minus its leading and trailing whitespace, it begins and ends with a non-blank character, and it is empty exactly when the input is all whitespace |
| Text.LowerStripCommute | main.py:774 | lower-casing and stripping commute, so `w.lower().strip()` equals `w.strip().lower()` |
| Text.ContainsIffOccurs | main.py:304 | the `in` test on strings holds exactly when the pattern occurs at some position |
| Text.ReplaceAll | main.py:423 | `replace()` leaves a text without the pattern unchanged, and deleting a pattern never makes the text longer |
| Text.ReplaceAllFirstOccurrence | main.py:423 | `replace()` keeps the text before the leftmost occurrence, puts the replacement in place of that occurrence, and carries on with the rest |
| Text.ReplaceAllLeading | main.py:423 | an occurrence at the very start of the text is replaced first |
| Text.DecimalRoundTrip | main.py:613 | reading back the decimal digits of a number gives the number |
| Leveling.ClimbIsFirstLevelAbove | main.py:183-187 | the level-up loop ends at the first level whose threshold exceeds the points, and every level it passed had a threshold the points reached |
| Leveling.ClimbRisesIff | main.py:182-188 | the returned flag is true exactly when the points reached the threshold of the starting level |
| Leveling.ClimbClosedForm | main.py:183-187 | from level `l >= 1` with `xp >= 0` points the loop ends at `max(l, xp / 100 + 1)` |
| Leveling.AwardKeepsSettled | main.py:174-189 | an award adds exactly its points, never lowers the level, and leaves the points below the new level's threshold |
| Leveling.ZeroAwardIsIdentity | main.py:178-187 | awarding no points to a settled record changes nothing |
| Leveling.ClimbMonotonic | main.py:183-187 | more points never give a lower level |
| Leveling.BigAwardClimbsTwice | main.py:174-189 | 250 points on a fresh record give level 3 in one call |
| Leveling.TenMessagesReachLevelTwo | main.py:174-189 | nine awards of 10 points leave a fresh record at level 1, and the tenth reaches level 2 |
| Leveling.AwardTimesSplit | main.py:174-189 | `m + n` awards in a row are `m` awards followed by `n` more |
| RateLimit.Prune | main.py:366-368 | the pruned window keeps exactly the entries at most 8 seconds old, and never grows |
| RateLimit.PruneAppend | main.py:366-368 | pruning keeps the surviving entries in their original order |
| RateLimit.PruneKeepsRecent | main.py:366-368 | entries that are all recent are all kept |
| RateLimit.RecordMessageShape | main.py:365-368 | after a message at `now` the window is the surviving old entries, in order, followed by `now` |
| RateLimit.RecordMessageWellFormed | main.py:365-368 | the recorded window ends with `now` and holds nothing older than 8 seconds before it |
| RateLimit.PruneTwice | main.py:366-368 | pruning at an earlier time and then at a later one is pruning at the later one |
| RateLimit.ReplayIsPrunedHistory | main.py:355-368 | with a clock that never goes back, the window holds exactly the user's messages from the 8 seconds before the latest one |
| RateLimit.SevenQuickMessagesFillWindow | main.py:369 | seven messages within 5 seconds fill the window to the mute size of 7 |
| RateLimit.SpreadMessagesNeverFillWindow | main.py:366-369 | seven messages spread over 10 seconds leave six in the window, so no mute |
| RateLimit.ReplaySize | main.py:365-368 | the window never holds more entries than the messages recorded into it |
| RateLimit.SlowmodeExemptions | main.py:336-341 | bots, staff and channels without a cooldown are never slowed, and neither is a message after the cooldown has passed |
| Daily.CountMessage | main.py:222-231 | on a new date the message count restarts at 1 and the join count is carried over; on the same date the message count goes up by one |
| Daily.CountNewMember | main.py:234-243 | on a new date the join count restarts at 1 and the message count is carried over; on the same date the join count goes up by one |
| Daily.SameDayTallies | main.py:222-243 | within one day each counter goes up by exactly the number of its own events |
| Daily.JoinCountSurvivesRollover | main.py:222-231 | three joins on one day followed by a message the next day leave a join count of 3 for the new day |
| Daily.ObserveAllAppend | main.py:222-243 | observing two runs of events is observing the first and then the second |
| Modes.FixedNamesArePlain | main.py:99-106 | the fixed persona names are lower case and stripped, and look like neither a topic key nor a topic command |
| Modes.ModeKeyRoundTrip | main.py:658-666 | every mode `!mode` can store is parsed back from its stored key to itself |
| Modes.ParseModeKeyRoundTrip | main.py:132-136 | every stored key is written back as itself |
| Modes.ParseModeCommand | main.py:652-664 | `!mode` as written: whatever it accepts is a valid mode; a fixed persona is the argument lower-cased and stripped; a topic is the stripped text after `topic `; and the argument is rejected as an unknown mode exactly when it is neither a topic command nor a persona name |
| Modes.EmptyTopicUnreachable | main.py:652-657 | as written, `!mode` never reaches its empty-topic rejection |
| Modes.BlankTopicCommand | main.py:652-664 | as written, `!mode topic` followed by blanks is rejected as an unknown mode |
| Modes.TopicCommand | main.py:654-658 | `!mode topic X` with a non-blank `X` stores the topic `strip(lower(X))` |
| Modes.FixedNameCommand | main.py:660-666 | `!mode <name>` selects the fixed persona of that name |
| Modes.CommandIgnoresCase | main.py:652 | `!mode` gives the same result for any letter case of its argument |
| Modes.ParseModeCommandCorrected | main.py:652-664 | `!mode` with its empty-topic rejection reachable: it answers "empty topic" exactly when the argument is `topic` alone |
| Modes.CorrectionKeepsAcceptedModes | main.py:652-666 | the correction accepts the same commands with the same modes as the source, so the channel modes evolve identically |
| Modes.CorrectedBlankTopicAsksForTopic | main.py:654-657 | a blank topic gets the empty-topic answer from the correction and the unknown-mode answer from the source |
| Modes.ResolveModeKey | main.py:415-418 | a channel's own mode wins; a channel without one uses the configured default |
| Modes.StoredModeSelectsPersona | main.py:129-137 | the prompt for a mode stored by `!mode` is the base prompt followed by exactly that persona's instructions |
| Modes.StoredKeyIsLowered | main.py:131 | lower-casing a stored mode key leaves it as it is |
| Modes.TopicKeyInstruction | main.py:132-134 | a topic key with a non-blank stripped topic gives the instruction for exactly that topic |
| Modes.StoredKeyInstruction | main.py:131-136 | the instruction chosen for a stored key is that mode's persona |
| Modes.TopicKeyAnyText | main.py:131-134 | any key whose lower-cased form starts with `topic:` (so `Topic:` and `TOPIC:` too) selects the topic block for the text after the prefix, lower-cased and stripped, and "general conversation" for a blank text |
| Modes.TopicKeyPrompt | main.py:129-137 | the prompt for any key, given or defaulted, whose lower-cased form starts with `topic:` is the base prompt followed by that topic block |
| Modes.FixedKeyAnyCase | main.py:131-137 | a persona name in any letter case gives the base prompt followed by that persona's block |
| Modes.UnknownKeyFallsBack | main.py:131-136 | a key (given or defaulted) that, lower-cased, neither starts with `topic:` nor names a persona gives the CEIL persona |
| Modes.BuildSystemPrompt | main.py:129-137 | every prompt begins with the base prompt |
| Settings.LoadFillsDefaults | main.py:52-67 | a missing file gives the defaults; a loaded file keeps each switch, the default mode and the banned-word list it has, and takes `DEFAULT_CONFIG`'s value for each one it lacks |
| Settings.SaveLoadRoundTrip | main.py:52-72 | what `save_config` writes, `load_config` reads back unchanged |
| Settings.SetFlag | main.py:732 | the toggled switch takes the new state, and no other setting changes |
| Settings.SetFlagLastWins | main.py:732 | toggling twice keeps only the second state, and toggling to the current state changes nothing |
| Settings.FeatureNameRoundTrip | main.py:694-702 | each feature name selects its own feature |
| Settings.ParsedFeatureIsNamed | main.py:724-730 | a feature is recognised only by its own name, in any letter case, and an unknown name matches no feature |
| Settings.ParseDefaultMode | main.py:748-755 | a default mode is accepted exactly when its lower-cased form is a valid name, and then it is a fixed persona |
| Settings.DefaultModesAreFixedPersonas | main.py:749 | the valid default modes are exactly the fixed personas |
| Settings.ParseWordAction | main.py:773-799 | the action is `add` or `remove` in any letter case |
| Settings.NormalizeWord | main.py:774 | the edited word is the input stripped and lower-cased (in either order), so it is lower case and stripped |
| Settings.Added | main.py:777-779 | adding an absent word adds one occurrence and creates no repeat |
| Settings.RemoveFirst | main.py:786-788 | removing takes away exactly one occurrence of the word |
| Settings.RemoveLeavesNoTrace | main.py:786-788 | in a list without repeats, the removed word is gone and there are still no repeats |
| Settings.ParseIntRoundTrip | main.py:613 | every integer reads back from its decimal form |
| Settings.ParseSlowmode | main.py:608-616 | `off` in any letter case disables slowmode; any other text is accepted exactly when it is an integer that is not negative, and the delay set is that integer's value |
| Settings.SlowmodeSecondsRoundTrip | main.py:608-616 | a written number of seconds is accepted as that number, and a negative one is refused |
| Dispatch.BannedWordHitIff | main.py:303-304 | the banned-word stage fires exactly when moderation is on and some banned word occurs somewhere in the lower-cased text |
| Dispatch.EmptyBannedWordMatchesEverything | main.py:304 | a banned empty word matches every message |
| Dispatch.DefaultListMatchesInsideWords | main.py:45 | `mishit` is caught by the default list |
| Dispatch.DefaultListPassesSimilarText | main.py:45 | `no shirt no shoes` passes the default list |
| Dispatch.LinkHitIff | main.py:317-320 | the link filter fires exactly when moderation and link blocking are on, the author is neither a bot nor staff, and some trigger occurs anywhere in the lower-cased text |
| Dispatch.LinkFilterSparesStaff | main.py:317-320 | `see example.com` is deleted for an ordinary member and kept for staff |
| Dispatch.CleanContent | main.py:423-425 | the text sent to the assistant is never empty; which text it is is stated by `CleanContentWithoutMention`, `CleanContentLeadingMention`, `CleanContentMentionAnywhere`, `CleanContentNicknameMention` and `BareMentionAsksWhatIsNeeded` |
| Dispatch.CleanContentWithoutMention | main.py:423-425 | text without a mention is only stripped, and a blank one becomes the fixed request |
| Dispatch.CleanContentLeadingMention | main.py:423-425 | `<@id> question` reaches the assistant as the stripped question; a mention followed only by blanks becomes the fixed request |
| Dispatch.CleanContentMentionAnywhere | main.py:423-425 | a mention anywhere in the text, `hey <@id> why?`, is removed and the text around it is joined and stripped; nothing but blanks around it gives the fixed request |
| Dispatch.CleanContentNicknameMention | main.py:423-425 | the nickname form `<@!id> question` is removed by the second replacement, leaving the stripped question or the fixed request |
| Dispatch.BareMentionAsksWhatIsNeeded | main.py:423-425 | a message that is only the bot's mention becomes the fixed request |
| Dispatch.TruncateReply | main.py:429-430 | a reply of at most 1900 characters is unchanged; a longer one is its first 1900 characters followed by the truncation note |
| Engine.Bot.constructor | main.py:36-48 | the bot starts with the default configuration and no state |
| Engine.Bot.LoadConfig | main.py:52-67 | the configuration becomes the file's contents filled with defaults |
| Engine.Bot.AddXp | main.py:174-189 | the record becomes the award of the points, the level never falls, the flag says whether it rose, and the points end below the level's threshold |
| Engine.Bot.TrackDailyMessage | main.py:222-231 | outside a guild nothing changes; otherwise only that guild's counters change, by the rollover rule |
| Engine.Bot.TrackNewMember | main.py:234-243 | outside a guild nothing changes; otherwise only that guild's counters change, by the rollover rule |
| Engine.Bot.OnMemberJoin | main.py:271-272 | a join is counted for the member's guild |
| Engine.Bot.SlowmodeGate | main.py:333-350 | deletes exactly when the author is human, the channel has a cooldown, less than the cooldown has passed and the author is not staff; otherwise a human's time is recorded when the channel has a cooldown, staff included |
| Engine.Bot.SpamCheck | main.py:355-382 | the window is recorded only while moderation and spam protection are on and the author is human; the author is muted exactly when the window reaches 7 and they are not staff |
| Engine.Bot.CurrentMode | main.py:672-675 | a channel's stored mode, or the configured default |
| Engine.Bot.XpStage | main.py:398-404 | a message of more than two characters from a human, with XP on, is counted for the day and earns 10 points; a level-up is reported with the new level |
| Engine.Bot.AiRequestFor | main.py:409-426 | the assistant is asked exactly when it is on and the bot is mentioned, the channel is an assistant channel, or the channel has a mode; the request carries the prompt of the channel's resolved mode and the author's name with the cleaned text |
| Engine.Bot.AfterFilters | main.py:333-426 | after the two filters: a slowmode hit deletes with no state change; otherwise the timestamp, the spam window, the mute, the XP and daily count and the assistant request are each set as the stage rules say |
| Engine.Bot.OnMessage | main.py:283-431 | exactly the bot's own messages and direct messages are ignored; the stages run in order; a banned word, a link or a slowmode hit ends the handling with no state change; every other message passes; a passing message updates the slowmode time, spam window, mute, XP and day count as each stage states, and carries the assistant request |
| Engine.Bot.CeilCommand | main.py:479-494 | `!ceil` is refused exactly when the assistant is off; otherwise it sends the query with the channel's prompt |
| Engine.Bot.SetChannelMode | main.py:649-669 | a valid `!mode` stores its mode for the channel and a rejected one changes nothing, exactly as the parser as written decides; the reply is the corrected parser's |
| Engine.Bot.SlowmodeCommand | main.py:602-620 | staff only; `off` removes the cooldown, a number sets it, anything else is refused without change |
| Engine.Bot.MuteCommand | main.py:546-558 | staff only; the member gets the Muted role |
| Engine.Bot.UnmuteCommand | main.py:574-584 | staff only; the role is removed and the reply says whether the member had it |
| Engine.Bot.ReleaseMute | main.py:564-569 | the end of a timed mute removes the role if the member still has it, and does nothing otherwise |
| Engine.OverlappingMutesEndTogether | main.py:384-391 | two mutes followed by the end of the first timer leave the member unmuted |
| Engine.UnmuteBeforeTimer | main.py:564-584 | a mute lifted with `!unmute` leaves nothing for its timer to release, and the timer changes no one's role |
| Engine.Bot.AdminToggle | main.py:718-737 | staff only; an unknown feature changes nothing, and a known one sets just that switch |
| Engine.Bot.AdminMode | main.py:742-762 | staff only; an unknown mode changes nothing, and a valid one becomes the default |
| Engine.Bot.AdminBannedWords | main.py:767-799 | staff only; only the word list can change; an absent word is added, a present word has its first occurrence removed, and every other case changes nothing |
| Engine.Bot.SaveAndReload | main.py:70-72 | saving and then loading the configuration leaves it as it was |

## Findings

| source | as written | input that shows it | evidently intended | confidence | as-written member | corrected member |
|---|---|---|---|---|---|---|
| main.py:652-657 | the argument is stripped before the `topic ` prefix is tested, so a blank topic never reaches the "Please specify a topic" reply | `!mode topic` (alone, or followed by blanks) is answered "Unknown mode" | a blank topic gets the reply that asks for a topic | high (not executed) | Modes.BlankTopicCommand | Modes.ParseModeCommandCorrected |

Both parsers accept the same commands with the same modes (`Modes.CorrectionKeepsAcceptedModes`). `Engine.Bot.SetChannelMode` uses the corrected parser. The stored channel modes are the same as in the source; only the reply to a blank topic differs.

## Left out

- Discord calls are left out. This covers deleting and sending messages, direct messages, role creation and permissions, the log channel, and the role lookup behind `is_staff`. Their outcomes are flags on `Engine.Message`, or values of `Engine.Outcome`.
- The OpenAI call in `ask_ceil_assistant` (main.py:140-150) is a network call. The model builds the request it would send (`Engine.AiRequest`). Stripping the answer is part of that call; truncating it is `Dispatch.TruncateReply`.
- File persistence is left out: `config.json`, `xp_data.json`, `load_xp` and `save_xp`. A configuration file is a `Settings.StoredConfig` whose keys may be missing. A file holding values of the wrong JSON type, or extra keys, is not modelled. The XP ledger starts empty.
- Asynchronous scheduling is left out: `asyncio.sleep`, `create_task`, and the hourly summary loop (main.py:437-473). The end of a timer is the sequential step `Engine.Bot.ReleaseMute`.
- The `ping`, `helpceil`, `ticket`, `purge`, `warn`, `modes`, `admin_config` and `admin_reload` commands are left out. They only format text or do I/O. Re-reading the configuration, as `admin_reload` does, is `Engine.Bot.LoadConfig`.
- Floating-point timestamps and `datetime.utcnow()` are left out. Times are integer seconds and dates integer day numbers, given as inputs.
- Text.Lower: only ASCII letters are lower-cased. Python's `lower()` also maps other Unicode letters.
- Settings.ParseInt: digits are ASCII only. Python's `int()` also accepts Unicode digits and `_` separators.
- The mute duration argument of `!mute` only sets the timer. It has no effect on the modelled state.
- `DEFAULT_CONFIG.copy()` is a shallow copy, so before the first save the loaded banned-word list is the default list object itself. The model has values instead of shared lists, so this aliasing is not represented.
- The staff check of `/admin` also refuses users outside a guild. Both conditions are folded into the one `isStaff` flag.
- Modes.BuildSystemPrompt: its own contract states only the common prefix. What follows the prefix is stated by lemmas for each kind of key: `Modes.StoredModeSelectsPersona` for the keys `!mode` stores, `Modes.TopicKeyPrompt` for any `topic:` key (blank, unstripped or upper-case topics included), `Modes.FixedKeyAnyCase` for a persona name in any letter case, and `Modes.UnknownKeyFallsBack` for every other key. The last three split on the lower-cased chosen key, so together they cover every key.
- Engine.Bot.SetChannelMode: the reply to `!mode topic` followed only by blanks is the corrected one (`EmptyTopic`, "Please specify a topic"). main.py:660-665 answers "Unknown mode" there. The stored channel modes are the same either way, and the method's contract states them through the parser as written (`Modes.ParseModeCommand`).
