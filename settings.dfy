/** The bot's configuration: its defaults and how a configuration file is
    completed with them (main.py:36-67), the feature toggle, the default
    mode and the banned-word list edited by the admin commands
    (main.py:705-799), and the argument of the `!slowmode` command
    (main.py:602-620). */
module Settings {
  import opened Base
  import opened Text
  import Modes

  datatype Config = Config(
    aiEnabled: bool,
    moderationEnabled: bool,
    spamProtection: bool,
    linkBlocking: bool,
    dailySummary: bool,
    weeklySummary: bool,
    xpEnabled: bool,
    aiDefaultMode: string,
    bannedWords: seq<string>)

  const DEFAULT_BANNED_WORDS: seq<string> := ["fuck", "shit", "bitch"]

  /** `DEFAULT_CONFIG`: every feature on, the CEIL persona by default. */
  const DEFAULT_CONFIG := Config(true, true, true, true, true, true, true, "ceil", DEFAULT_BANNED_WORDS)

  /** The contents of a configuration file: any of the keys may be missing. */
  datatype StoredConfig = StoredConfig(
    aiEnabled: Option<bool>,
    moderationEnabled: Option<bool>,
    spamProtection: Option<bool>,
    linkBlocking: Option<bool>,
    dailySummary: Option<bool>,
    weeklySummary: Option<bool>,
    xpEnabled: Option<bool>,
    aiDefaultMode: Option<string>,
    bannedWords: Option<seq<string>>)

  function OrDefault<T>(o: Option<T>, default: T): T {
    match o
    case Some(v) => v
    case None => default
  }

  /** `load_config`: no file (or an unreadable one) gives a copy of the
      defaults; otherwise every key the file lacks is set to its default. */
  function LoadConfig(file: Option<StoredConfig>): Config {
    match file
    case None => DEFAULT_CONFIG
    case Some(s) =>
      Config(
        OrDefault(s.aiEnabled, DEFAULT_CONFIG.aiEnabled),
        OrDefault(s.moderationEnabled, DEFAULT_CONFIG.moderationEnabled),
        OrDefault(s.spamProtection, DEFAULT_CONFIG.spamProtection),
        OrDefault(s.linkBlocking, DEFAULT_CONFIG.linkBlocking),
        OrDefault(s.dailySummary, DEFAULT_CONFIG.dailySummary),
        OrDefault(s.weeklySummary, DEFAULT_CONFIG.weeklySummary),
        OrDefault(s.xpEnabled, DEFAULT_CONFIG.xpEnabled),
        OrDefault(s.aiDefaultMode, DEFAULT_CONFIG.aiDefaultMode),
        OrDefault(s.bannedWords, DEFAULT_CONFIG.bannedWords))
  }

  /** `save_config`: every key is written. */
  function SaveConfig(c: Config): StoredConfig {
    StoredConfig(Some(c.aiEnabled), Some(c.moderationEnabled), Some(c.spamProtection),
      Some(c.linkBlocking), Some(c.dailySummary), Some(c.weeklySummary), Some(c.xpEnabled),
      Some(c.aiDefaultMode), Some(c.bannedWords))
  }

  // -----------------------------------------------------------------------
  // Feature flags
  // -----------------------------------------------------------------------

  /** The switches of `FEATURE_KEYS`. */
  datatype Feature = Ai | Moderation | Spam | Links | Daily | Weekly | Xp

  /** The name an administrator types for a feature. */
  function FeatureName(f: Feature): string {
    match f
    case Ai => "ai"
    case Moderation => "moderation"
    case Spam => "spam"
    case Links => "links"
    case Daily => "daily"
    case Weekly => "weekly"
    case Xp => "xp"
  }

  /** `FEATURE_KEYS.get(feature.lower())`. */
  function ParseFeature(s: string): Option<Feature> {
    var n := Lower(s);
    if n == "ai" then Some(Ai)
    else if n == "moderation" then Some(Moderation)
    else if n == "spam" then Some(Spam)
    else if n == "links" then Some(Links)
    else if n == "daily" then Some(Daily)
    else if n == "weekly" then Some(Weekly)
    else if n == "xp" then Some(Xp)
    else None
  }

  /** The switch a feature names in a configuration. */
  function Flag(c: Config, f: Feature): bool {
    match f
    case Ai => c.aiEnabled
    case Moderation => c.moderationEnabled
    case Spam => c.spamProtection
    case Links => c.linkBlocking
    case Daily => c.dailySummary
    case Weekly => c.weeklySummary
    case Xp => c.xpEnabled
  }

  /** The same switch in a configuration file, if the file has it. */
  function StoredFlag(s: StoredConfig, f: Feature): Option<bool> {
    match f
    case Ai => s.aiEnabled
    case Moderation => s.moderationEnabled
    case Spam => s.spamProtection
    case Links => s.linkBlocking
    case Daily => s.dailySummary
    case Weekly => s.weeklySummary
    case Xp => s.xpEnabled
  }

  /** `config[key] = state`: that switch and nothing else changes. */
  function SetFlag(c: Config, f: Feature, state: bool): (r: Config)
    ensures Flag(r, f) == state
    ensures forall g :: g != f ==> Flag(r, g) == Flag(c, g)
    ensures r.aiDefaultMode == c.aiDefaultMode && r.bannedWords == c.bannedWords
  {
    match f
    case Ai => c.(aiEnabled := state)
    case Moderation => c.(moderationEnabled := state)
    case Spam => c.(spamProtection := state)
    case Links => c.(linkBlocking := state)
    case Daily => c.(dailySummary := state)
    case Weekly => c.(weeklySummary := state)
    case Xp => c.(xpEnabled := state)
  }

  /** Loading a file keeps the switches it has and gives the others their
      default; a missing file gives every default. */
  lemma LoadFillsDefaults(file: Option<StoredConfig>, f: Feature)
    ensures file.None? ==> LoadConfig(file) == DEFAULT_CONFIG
    ensures file.Some? && StoredFlag(file.value, f).Some? ==>
              Flag(LoadConfig(file), f) == StoredFlag(file.value, f).value
    ensures file.Some? && StoredFlag(file.value, f).None? ==>
              Flag(LoadConfig(file), f) == Flag(DEFAULT_CONFIG, f)
    ensures file.Some? ==>
              LoadConfig(file).aiDefaultMode ==
                (if file.value.aiDefaultMode.Some? then file.value.aiDefaultMode.value else DEFAULT_CONFIG.aiDefaultMode)
    ensures file.Some? ==>
              LoadConfig(file).bannedWords ==
                (if file.value.bannedWords.Some? then file.value.bannedWords.value else DEFAULT_CONFIG.bannedWords)
  {
  }

  /** What `save_config` writes, `load_config` reads back unchanged. */
  lemma SaveLoadRoundTrip(c: Config)
    ensures LoadConfig(Some(SaveConfig(c))) == c
  {
  }

  /** Every name in the feature table selects its own feature, in any case. */
  lemma FeatureNameRoundTrip(f: Feature)
    ensures ParseFeature(FeatureName(f)) == Some(f)
  {
    var n := FeatureName(f);
    assert IsLowered(n);
    LoweredIsFixpoint(n);
  }

  /** A feature is recognised only by its own name, up to case. */
  lemma ParsedFeatureIsNamed(s: string)
    ensures ParseFeature(s).Some? ==> FeatureName(ParseFeature(s).value) == Lower(s)
    ensures ParseFeature(s).None? ==> forall f :: FeatureName(f) != Lower(s)
  {
  }

  /** Setting a switch twice keeps only the second setting, and setting it
      to the value it has changes nothing. */
  lemma SetFlagLastWins(c: Config, f: Feature, a: bool, b: bool)
    ensures SetFlag(SetFlag(c, f, a), f, b) == SetFlag(c, f, b)
    ensures SetFlag(c, f, Flag(c, f)) == c
  {
  }

  // -----------------------------------------------------------------------
  // Default mode
  // -----------------------------------------------------------------------

  /** The names `/admin mode` accepts. */
  const VALID_DEFAULT_MODES: seq<string> := ["ceil", "education", "admin", "general", "fun"]

  /** `/admin mode`: the lower-cased name if it is one of the valid ones. */
  function ParseDefaultMode(s: string): (r: Option<string>)
    ensures r.Some? <==> Lower(s) in VALID_DEFAULT_MODES
    ensures r.Some? ==> r.value == Lower(s) && Modes.ValidMode(Modes.Fixed(r.value))
  {
    var m := Lower(s);
    if m in VALID_DEFAULT_MODES then Some(m) else None
  }

  /** The valid default modes are exactly the fixed personas. */
  lemma DefaultModesAreFixedPersonas(n: string)
    ensures n in VALID_DEFAULT_MODES <==> n in Modes.AI_MODES
  {
  }

  // -----------------------------------------------------------------------
  // Banned words
  // -----------------------------------------------------------------------

  datatype WordAction = AddWord | RemoveWord

  /** `action.lower()` must be `add` or `remove`. */
  function ParseWordAction(s: string): (r: Option<WordAction>)
    ensures r == Some(AddWord) <==> Lower(s) == "add"
    ensures r == Some(RemoveWord) <==> Lower(s) == "remove"
  {
    if Lower(s) == "add" then Some(AddWord)
    else if Lower(s) == "remove" then Some(RemoveWord)
    else None
  }

  /** `word.lower().strip()`. */
  function NormalizeWord(w: string): (r: string)
    ensures IsLowered(r) && IsStripped(r)
    ensures r == Lower(Strip(w))
  {
    StripOfLowered(Lower(w));
    LowerStripCommute(w);
    Strip(Lower(w))
  }

  predicate NoDuplicates<T(==)>(s: seq<T>) {
    forall i, j :: 0 <= i < j < |s| ==> s[i] != s[j]
  }

  /** Appending a word that is not yet banned. */
  function Added(words: seq<string>, w: string): (r: seq<string>)
    requires w !in words
    ensures multiset(r) == multiset(words) + multiset{w}
    ensures NoDuplicates(words) ==> NoDuplicates(r)
  {
    words + [w]
  }

  /** `list.remove(w)`: drops the first occurrence of `w`. */
  function RemoveFirst(words: seq<string>, w: string): (r: seq<string>)
    requires w in words
    ensures multiset(r) == multiset(words) - multiset{w}
    ensures |r| == |words| - 1
  {
    assert words == [words[0]] + words[1..];
    if words[0] == w then words[1..]
    else [words[0]] + RemoveFirst(words[1..], w)
  }

  lemma NoDuplicatesSplit<T>(s: seq<T>)
    requires s != []
    ensures NoDuplicates(s) <==> s[0] !in s[1..] && NoDuplicates(s[1..])
  {
    if s[0] !in s[1..] && NoDuplicates(s[1..]) {
      forall i, j | 0 <= i < j < |s| ensures s[i] != s[j] {
        assert s[j] == s[1..][j - 1];
        assert 0 < i ==> s[i] == s[1..][i - 1];
      }
    }
    if NoDuplicates(s) {
      forall k | 0 <= k < |s[1..]| ensures s[1..][k] != s[0] {
        assert s[1..][k] == s[k + 1];
      }
    }
  }

  /** Removing a word from a list without repeats leaves no trace of it, and
      still no repeats. */
  lemma {:induction false} RemoveLeavesNoTrace(words: seq<string>, w: string)
    requires w in words && NoDuplicates(words)
    ensures w !in RemoveFirst(words, w)
    ensures NoDuplicates(RemoveFirst(words, w))
    decreases |words|
  {
    NoDuplicatesSplit(words);
    var tail := words[1..];
    if words[0] != w {
      assert w in tail by { assert words == [words[0]] + tail; }
      RemoveLeavesNoTrace(tail, w);
      var rest := RemoveFirst(tail, w);
      var r := [words[0]] + rest;
      assert RemoveFirst(words, w) == r;
      assert words[0] !in rest by {
        var x := words[0];
        assert multiset(tail)[x] == 0;
        assert multiset(rest)[x] == 0;
      }
      assert r[1..] == rest;
      NoDuplicatesSplit(r);
    }
  }

  // -----------------------------------------------------------------------
  // Integer arguments
  // -----------------------------------------------------------------------

  /** Python's `int(s)` on text: blanks around, an optional sign, and at
      least one ASCII digit. */
  function ParseInt(s: string): Option<int> {
    var t := Strip(s);
    if t != [] && (t[0] == '+' || t[0] == '-') then
      var digits := t[1..];
      if digits != [] && AllDigits(digits) then
        var v: int := DigitsValue(digits);
        Some(if t[0] == '-' then -v else v)
      else None
    else if t != [] && AllDigits(t) then Some(DigitsValue(t))
    else None
  }

  /** `f"{n}"` for any integer. */
  function ShowInt(n: int): string {
    if n < 0 then "-" + Decimal(-n) else Decimal(n)
  }

  /** Every integer reads back from its decimal form. */
  lemma ParseIntRoundTrip(n: int)
    ensures ParseInt(ShowInt(n)) == Some(n)
  {
    var s := ShowInt(n);
    var d := Decimal(if n < 0 then -n else n);
    assert s[|s| - 1] == d[|d| - 1];
    assert IsStripped(s);
    StrippedIsFixpoint(s);
    DecimalRoundTrip(if n < 0 then -n else n);
    if n < 0 {
      assert s[1..] == d;
    }
  }

  /** The argument of `!slowmode`: `off`, or a number of seconds. */
  datatype SlowmodeSetting = Off | Seconds(delay: nat)

  /** `!slowmode <setting>`: `off` in any case removes the cooldown; any other
      text must be an integer that is not negative. */
  function ParseSlowmode(s: string): (r: Option<SlowmodeSetting>)
    ensures r == Some(Off) <==> Lower(s) == "off"
    ensures Lower(s) != "off" ==>
              (r.Some? <==> ParseInt(s).Some? && ParseInt(s).value >= 0)
    ensures r.Some? && r.value.Seconds? ==> ParseInt(s).Some? && r.value.delay == ParseInt(s).value
  {
    if Lower(s) == "off" then Some(Off)
    else match ParseInt(s)
      case Some(n) => if n < 0 then None else Some(Seconds(n))
      case None => None
  }

  /** A number of seconds written out is accepted as that number; a negative
      one is refused. */
  lemma SlowmodeSecondsRoundTrip(n: int)
    ensures ParseSlowmode(ShowInt(n)) == if n < 0 then None else Some(Seconds(n))
  {
    ParseIntRoundTrip(n);
    var s := ShowInt(n);
    assert Lower(s)[0] == LowerChar(s[0]);
    assert Lower(s) != "off";
  }
}
