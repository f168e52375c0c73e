/**
 * The driver: the rate-limited replay of a whole log file (`catLogFile`) and
 * the command-line flags that override the configuration file. The log file
 * is modelled by its lines, the outcome of each plugin post by a function of
 * the number of hits sent before it; waiting for the ticker is counted.
 */
module LogAgent {
  import opened Wrappers
  import opened Strings
  import opened Configuration
  import opened LogParser
  import opened Matomo

  /** `time.Second`, in nanoseconds. */
  const Second: int := 1_000_000_000

  /** Go's integer division, which truncates toward zero. */
  function GoDiv(a: int, b: int): (q: int)
    requires b != 0
    ensures a >= 0 && b > 0 ==> q == a / b
    ensures q * b == a - GoRem(a, b)
  {
    if (a >= 0) == (b > 0) then
      (if a >= 0 then a / b else (-a) / (-b))
    else
      (if a >= 0 then -(a / (-b)) else -((-a) / b))
  }

  function GoRem(a: int, b: int): int
    requires b != 0
  {
    if (a >= 0) == (b > 0) then
      (if a >= 0 then a % b else -((-a) % (-b)))
    else
      (if a >= 0 then a % (-b) else -((-a) % b))
  }

  /** The ticker interval for `rps` requests per second; None where Go panics:
      a division by zero, or a ticker interval that is not positive. */
  function TickDelay(rps: int): (d: Option<int>)
    ensures d.Some? <==> 0 < rps <= Second
    ensures d.Some? ==> 0 < d.value <= Second && d.value * rps <= Second < (d.value + 1) * rps
  {
    if rps == 0 then None
    else
      var delay := GoDiv(Second, rps);
      DelaySign(rps);
      if delay <= 0 then None else Some(delay)
  }

  /** The truncated quotient is positive exactly for a rate between 1 and 10^9. */
  lemma DelaySign(rps: int)
    requires rps != 0
    ensures GoDiv(Second, rps) > 0 <==> 0 < rps <= Second
  {
    if rps < 0 {
      assert GoDiv(Second, rps) == -(Second / (-rps));
    } else if rps > Second {
      assert Second / rps == 0;
    }
  }

  /** The default rate of one request per second ticks once a second. */
  lemma DefaultRateTicksEachSecond()
    ensures TickDelay(1) == Some(Second)
  {
  }

  /** The lines that parse, in file order. */
  function ParsedLines(lines: seq<string>, logFormat: string): (ds: seq<LogData>)
    ensures |ds| <= |lines|
    decreases |lines|
  {
    if lines == [] then []
    else
      var before := ParsedLines(lines[..|lines| - 1], logFormat);
      match ParseLog(lines[|lines| - 1], logFormat)
      case None => before
      case Some(d) => before + [d]
  }

  /** The lines that do not parse, in file order; each is reported and skipped. */
  function Unparsed(lines: seq<string>, logFormat: string): (us: seq<string>)
    ensures |us| <= |lines|
    decreases |lines|
  {
    if lines == [] then []
    else
      var before := Unparsed(lines[..|lines| - 1], logFormat);
      if ParseLog(lines[|lines| - 1], logFormat).None? then before + [lines[|lines| - 1]] else before
  }

  /** Every line is either parsed or reported, and exactly the right ones are. */
  lemma {:induction false} LinesPartition(lines: seq<string>, logFormat: string)
    ensures |ParsedLines(lines, logFormat)| + |Unparsed(lines, logFormat)| == |lines|
    ensures forall u :: u in Unparsed(lines, logFormat) ==> u in lines && ParseLog(u, logFormat).None?
    ensures forall d :: d in ParsedLines(lines, logFormat) ==>
              exists i :: 0 <= i < |lines| && ParseLog(lines[i], logFormat) == Some(d)
    decreases |lines|
  {
    if lines != [] {
      var init := lines[..|lines| - 1];
      LinesPartition(init, logFormat);
      forall d | d in ParsedLines(lines, logFormat)
        ensures exists i :: 0 <= i < |lines| && ParseLog(lines[i], logFormat) == Some(d)
      {
        if d in ParsedLines(init, logFormat) {
          var i :| 0 <= i < |init| && ParseLog(init[i], logFormat) == Some(d);
          assert lines[i] == init[i];
        } else {
          assert ParseLog(lines[|lines| - 1], logFormat) == Some(d);
        }
      }
    }
  }

  /** Under a format other than nginx and apache no line is sent and every line is reported. */
  lemma {:induction false} UnknownFormatSendsNothing(lines: seq<string>, logFormat: string)
    requires logFormat != "nginx" && logFormat != "apache"
    ensures ParsedLines(lines, logFormat) == [] && Unparsed(lines, logFormat) == lines
    decreases |lines|
  {
    if lines != [] {
      UnknownFormatSendsNothing(lines[..|lines| - 1], logFormat);
      assert lines[..|lines| - 1] + [lines[|lines| - 1]] == lines;
    }
  }

  /** The posts `sendToMatomo` makes for the hits, in order; the `i`-th hit's
      plugin post fails when `fails(i)`. */
  function HitsOf(m: MatomoSection, userAgents: seq<string>, ds: seq<LogData>, fails: nat -> bool): (posts: seq<Post>)
    ensures |posts| <= 2 * |ds|
    decreases |ds|
  {
    if ds == [] then []
    else HitsOf(m, userAgents, ds[..|ds| - 1], fails) + Hit(m, userAgents, ds[|ds| - 1], fails(|ds| - 1))
  }

  /** The hits of a longer run extend those of a shorter one. */
  lemma {:induction false} HitsOfPrefix(m: MatomoSection, userAgents: seq<string>, ds: seq<LogData>, n: nat, fails: nat -> bool)
    requires n <= |ds|
    ensures HitsOf(m, userAgents, ds[..n], fails) <= HitsOf(m, userAgents, ds, fails)
    decreases |ds|
  {
    if n < |ds| {
      HitsOfPrefix(m, userAgents, ds[..|ds| - 1], n, fails);
      assert ds[..|ds| - 1][..n] == ds[..n];
    } else {
      assert ds[..n] == ds;
    }
  }

  /** `sendToMatomo` depends on the Matomo section only through its initialised form. */
  lemma HitInitAgent(m: MatomoSection, userAgents: seq<string>, d: LogData, fails: bool)
    ensures Hit(InitAgent(m), userAgents, d, fails) == Hit(m, userAgents, d, fails)
  {
    InitAgentIdempotent(m);
    AgentIsNotTracker(m);
    AgentIsNotTracker(InitAgent(m));
  }

  /** One more line read: it joins the parsed lines or the reported ones. */
  lemma LinesStep(lines: seq<string>, i: nat, logFormat: string)
    requires i < |lines|
    ensures ParseLog(lines[i], logFormat).Some? ==>
              ParsedLines(lines[..i + 1], logFormat) == ParsedLines(lines[..i], logFormat) + [ParseLog(lines[i], logFormat).value]
              && Unparsed(lines[..i + 1], logFormat) == Unparsed(lines[..i], logFormat)
    ensures ParseLog(lines[i], logFormat).None? ==>
              ParsedLines(lines[..i + 1], logFormat) == ParsedLines(lines[..i], logFormat)
              && Unparsed(lines[..i + 1], logFormat) == Unparsed(lines[..i], logFormat) + [lines[i]]
  {
    assert lines[..i + 1][..i] == lines[..i];
  }

  /** One more hit sent: its posts follow those of the earlier hits. */
  lemma HitsOfStep(m: MatomoSection, userAgents: seq<string>, ds: seq<LogData>, d: LogData, fails: nat -> bool)
    ensures HitsOf(m, userAgents, ds + [d], fails) == HitsOf(m, userAgents, ds, fails) + Hit(m, userAgents, d, fails(|ds|))
  {
    assert (ds + [d])[..|ds|] == ds;
  }

  /** After reading `lines`: the hits sent, the lines reported, the posts made and the ticks waited. */
  ghost predicate Replayed(lines: seq<string>, logFormat: string, m: MatomoSection, userAgents: seq<string>,
                           fails: nat -> bool, sent: seq<LogData>, warned: seq<string>, posts: seq<Post>, ticks: nat) {
    sent == ParsedLines(lines, logFormat) && ticks == |sent| && warned == Unparsed(lines, logFormat)
    && posts == HitsOf(m, userAgents, sent, fails)
  }

  /** A line that does not parse is reported and changes nothing else. */
  lemma ReplaySkip(lines: seq<string>, i: nat, logFormat: string, m: MatomoSection, userAgents: seq<string>,
                   fails: nat -> bool, sent: seq<LogData>, warned: seq<string>, posts: seq<Post>, ticks: nat)
    requires i < |lines| && ParseLog(lines[i], logFormat).None?
    requires Replayed(lines[..i], logFormat, m, userAgents, fails, sent, warned, posts, ticks)
    ensures Replayed(lines[..i + 1], logFormat, m, userAgents, fails, sent, warned + [lines[i]], posts, ticks)
  {
    LinesStep(lines, i, logFormat);
  }

  /** A line that parses is sent after one more tick, and its posts follow the earlier ones. */
  lemma ReplaySend(lines: seq<string>, i: nat, logFormat: string, m: MatomoSection, userAgents: seq<string>,
                   fails: nat -> bool, sent: seq<LogData>, warned: seq<string>, posts: seq<Post>, ticks: nat)
    requires i < |lines| && ParseLog(lines[i], logFormat).Some?
    requires Replayed(lines[..i], logFormat, m, userAgents, fails, sent, warned, posts, ticks)
    ensures var d := ParseLog(lines[i], logFormat).value;
            Replayed(lines[..i + 1], logFormat, m, userAgents, fails, sent + [d], warned,
                     posts + Hit(m, userAgents, d, fails(ticks)), ticks + 1)
  {
    LinesStep(lines, i, logFormat);
    HitsOfStep(m, userAgents, sent, ParseLog(lines[i], logFormat).value, fails);
  }

  /** `sendToMatomo` as the replay loop calls it, on a section that may already be initialised. */
  method SendFromReplay(d: LogData, config: Config, ghost m: MatomoSection, agentPostFails: bool) returns (posts: seq<Post>)
    requires config.matomo == m || config.matomo == InitAgent(m)
    modifies config
    ensures posts == Hit(m, config.log.userAgents, d, agentPostFails)
    ensures config.matomo == InitAgent(m)
    ensures config.log == old(config.log) && config.agent == old(config.agent)
    ensures config.title == old(config.title) && config.batch == old(config.batch)
  {
    InitAgentIdempotent(m);
    HitInitAgent(m, config.log.userAgents, d, agentPostFails);
    posts := SendToMatomo(d, config, agentPostFails);
  }

  /** One pass of the loop of `catLogFile`: a line that does not parse is
      reported; one that parses is sent after one more tick. */
  method ReplayLine(lines: seq<string>, i: nat, config: Config, ghost m: MatomoSection, fails: nat -> bool,
                    ghost sent: seq<LogData>, warned: seq<string>, posts: seq<Post>, ticks: nat)
    returns (ghost sent': seq<LogData>, warned': seq<string>, posts': seq<Post>, ticks': nat)
    requires i < |lines| && (config.matomo == m || config.matomo == InitAgent(m))
    requires Replayed(lines[..i], config.log.logFormat, m, config.log.userAgents, fails, sent, warned, posts, ticks)
    modifies config
    ensures config.matomo == m || config.matomo == InitAgent(m)
    ensures config.log == old(config.log) && config.agent == old(config.agent)
    ensures config.title == old(config.title) && config.batch == old(config.batch)
    ensures Replayed(lines[..i + 1], config.log.logFormat, m, config.log.userAgents, fails, sent', warned', posts', ticks')
  {
    var line := lines[i];
    var logData := ParseLog(line, config.log.logFormat);
    LinesStep(lines, i, config.log.logFormat);
    if logData.None? {
      sent', warned', posts', ticks' := sent, warned + [line], posts, ticks;
    } else {
      var more := SendFromReplay(logData.value, config, m, fails(ticks));
      HitsOfStep(m, config.log.userAgents, sent, logData.value, fails);
      sent', warned', posts', ticks' := sent + [logData.value], warned, posts + more, ticks + 1;
    }
  }

  /** How `catLogFile` ends. */
  datatype CatResult =
    | OpenFailed   // the log file cannot be opened
    | Panicked     // the rate gives no positive ticker interval
    | ReadFailed   // the scanner stops with an error
    | Finished

  /** `catLogFile`: send every line that parses, waiting one tick before each
      send, and report the others. `file` is None when the file cannot be
      opened; `readFails` says whether the scanner ends with an error. */
  method CatLogFile(config: Config, rps: int, file: Option<seq<string>>, readFails: bool, fails: nat -> bool)
    returns (result: CatResult, warned: seq<string>, posts: seq<Post>, ticks: nat)
    modifies config
    ensures file.None? ==> result == OpenFailed && warned == [] && posts == [] && ticks == 0
    ensures file.Some? && TickDelay(rps).None? ==> result == Panicked && warned == [] && posts == [] && ticks == 0
    ensures file.Some? && TickDelay(rps).Some? ==>
              var ds := ParsedLines(file.value, old(config.log.logFormat));
              result == (if readFails then ReadFailed else Finished)
              && warned == Unparsed(file.value, old(config.log.logFormat))
              && posts == HitsOf(old(config.matomo), old(config.log.userAgents), ds, fails)
              && ticks == |ds|
    ensures config.matomo == old(config.matomo) || config.matomo == InitAgent(old(config.matomo))
    ensures config.log == old(config.log) && config.agent == old(config.agent)
    ensures config.title == old(config.title) && config.batch == old(config.batch)
  {
    warned, posts, ticks := [], [], 0;
    if file.None? {
      return OpenFailed, warned, posts, ticks;
    }
    var delay := TickDelay(rps);
    if delay.None? {
      return Panicked, warned, posts, ticks;
    }
    var lines := file.value;
    ghost var m := config.matomo;
    ghost var log := config.log;
    ghost var sent: seq<LogData> := [];
    var i := 0;
    while i < |lines|
      invariant 0 <= i <= |lines|
      invariant config.log == log && config.agent == old(config.agent)
      invariant config.title == old(config.title) && config.batch == old(config.batch)
      invariant config.matomo == m || config.matomo == InitAgent(m)
      invariant Replayed(lines[..i], log.logFormat, m, log.userAgents, fails, sent, warned, posts, ticks)
    {
      sent, warned, posts, ticks := ReplayLine(lines, i, config, m, fails, sent, warned, posts, ticks);
      i := i + 1;
    }
    assert lines[..i] == lines;
    result := if readFails then ReadFailed else Finished;
  }

  /** The command-line flags of the agent. */
  datatype Flags = Flags(
    configPath: string,
    catLog: bool,
    rps: int,
    matomoUrl: string,
    tokenAuth: string,
    siteId: string,
    plugin: bool,
    downloads: bool,
    logFormat: string,
    logPath: string,
    userAgents: string,
    logLevel: string,
    logFile: string,
    collectTitle: bool,
    titleDomain: string,
    batch: bool)

  /** The flag values when none is given. */
  const DefaultFlags: Flags :=
    Flags("/opt/log-agent/config.toml", false, 1, "", "", "", false, true, "", "", "", "", "", false, "", false)

  /** A string flag replaces the setting when it is not empty. */
  function OverString(flag: string, setting: string): (r: string)
    ensures flag != "" ==> r == flag
    ensures flag == "" ==> r == setting
    ensures r == "" ==> flag == "" && setting == ""
  {
    if flag != "" then flag else setting
  }

  /** A boolean flag sets the setting when it is true; it never clears it. */
  function OverBool(flag: bool, setting: bool): (r: bool)
    ensures r <==> flag || setting
  {
    if flag then flag else setting
  }

  /** The configuration sections after the overrides of `main`. */
  function OverMatomo(f: Flags, m: MatomoSection): MatomoSection {
    m.(tokenAuth := OverString(f.tokenAuth, m.tokenAuth), url := OverString(f.matomoUrl, m.url),
       siteId := OverString(f.siteId, m.siteId), plugin := OverBool(f.plugin, m.plugin),
       downloads := OverBool(f.downloads, m.downloads))
  }

  function OverLog(f: Flags, l: LogSection): LogSection {
    l.(logFormat := OverString(f.logFormat, l.logFormat), logPath := OverString(f.logPath, l.logPath),
       userAgents := if f.userAgents != "" then Split(f.userAgents, ',') else l.userAgents)
  }

  function OverAgent(f: Flags, a: AgentSection): AgentSection {
    a.(logLevel := OverString(f.logLevel, a.logLevel), logFile := OverString(f.logFile, a.logFile))
  }

  function OverTitle(f: Flags, t: TitleSection): TitleSection {
    t.(collect := OverBool(f.collectTitle, t.collect), domain := OverString(f.titleDomain, t.domain))
  }

  function OverBatch(f: Flags, b: BatchSection): BatchSection {
    b.(mode := OverBool(f.batch, b.mode))
  }

  /** The override block of `main`, applied to the loaded configuration. */
  method ApplyFlags(f: Flags, config: Config)
    modifies config
    ensures config.matomo == OverMatomo(f, old(config.matomo))
    ensures config.log == OverLog(f, old(config.log))
    ensures config.agent == OverAgent(f, old(config.agent))
    ensures config.title == OverTitle(f, old(config.title))
    ensures config.batch == OverBatch(f, old(config.batch))
  {
    ApplyMatomoFlags(f, config);
    ApplyLogFlags(f, config);
    ApplyAgentFlags(f, config);
    ApplyTitleFlags(f, config);
  }

  /** The overrides of the Matomo section. */
  method ApplyMatomoFlags(f: Flags, config: Config)
    modifies config
    ensures config.matomo == OverMatomo(f, old(config.matomo))
    ensures config.log == old(config.log) && config.agent == old(config.agent)
    ensures config.title == old(config.title) && config.batch == old(config.batch)
  {
    if f.tokenAuth != "" {
      config.matomo := config.matomo.(tokenAuth := f.tokenAuth);
    }
    if f.matomoUrl != "" {
      config.matomo := config.matomo.(url := f.matomoUrl);
    }
    if f.siteId != "" {
      config.matomo := config.matomo.(siteId := f.siteId);
    }
    if f.plugin {
      config.matomo := config.matomo.(plugin := f.plugin);
    }
    if f.downloads {
      config.matomo := config.matomo.(downloads := f.downloads);
    }
  }

  /** The overrides of the log section. */
  method ApplyLogFlags(f: Flags, config: Config)
    modifies config
    ensures config.log == OverLog(f, old(config.log))
    ensures config.matomo == old(config.matomo) && config.agent == old(config.agent)
    ensures config.title == old(config.title) && config.batch == old(config.batch)
  {
    if f.logFormat != "" {
      config.log := config.log.(logFormat := f.logFormat);
    }
    if f.logPath != "" {
      config.log := config.log.(logPath := f.logPath);
    }
    if f.userAgents != "" {
      config.log := config.log.(userAgents := Split(f.userAgents, ','));
    }
  }

  /** The overrides of the agent's own logging. */
  method ApplyAgentFlags(f: Flags, config: Config)
    modifies config
    ensures config.agent == OverAgent(f, old(config.agent))
    ensures config.matomo == old(config.matomo) && config.log == old(config.log)
    ensures config.title == old(config.title) && config.batch == old(config.batch)
  {
    if f.logLevel != "" {
      config.agent := config.agent.(logLevel := f.logLevel);
    }
    if f.logFile != "" {
      config.agent := config.agent.(logFile := f.logFile);
    }
  }

  /** The overrides of title collection and batch mode. */
  method ApplyTitleFlags(f: Flags, config: Config)
    modifies config
    ensures config.title == OverTitle(f, old(config.title)) && config.batch == OverBatch(f, old(config.batch))
    ensures config.matomo == old(config.matomo) && config.log == old(config.log)
    ensures config.agent == old(config.agent)
  {
    if f.collectTitle {
      config.title := config.title.(collect := f.collectTitle);
    }
    if f.titleDomain != "" {
      config.title := config.title.(domain := f.titleDomain);
    }
    if f.batch {
      config.batch := config.batch.(mode := f.batch);
    }
  }

  /** A string flag's rule: a non-empty flag replaces the setting, an empty one keeps it. */
  predicate StringRule(flag: string, before: string, after: string) {
    (flag != "" ==> after == flag) && (flag == "" ==> after == before)
  }

  /** A boolean flag's rule: a true flag sets the setting, a false one keeps it. */
  predicate BoolRule(flag: bool, before: bool, after: bool) {
    (flag ==> after) && (!flag ==> after == before)
  }

  /** Every flag follows its rule, `-user-agents` is split when given, and the
      fields no flag names keep their values. */
  lemma FlagsTakeEffect(f: Flags, m: MatomoSection, l: LogSection, a: AgentSection, t: TitleSection, b: BatchSection)
    ensures var m' := OverMatomo(f, m);
            StringRule(f.tokenAuth, m.tokenAuth, m'.tokenAuth) && StringRule(f.matomoUrl, m.url, m'.url)
            && StringRule(f.siteId, m.siteId, m'.siteId) && BoolRule(f.plugin, m.plugin, m'.plugin)
            && BoolRule(f.downloads, m.downloads, m'.downloads)
            && m'.(tokenAuth := m.tokenAuth, url := m.url, siteId := m.siteId, plugin := m.plugin,
                   downloads := m.downloads) == m
    ensures var l' := OverLog(f, l);
            StringRule(f.logFormat, l.logFormat, l'.logFormat) && StringRule(f.logPath, l.logPath, l'.logPath)
            && (f.userAgents != "" ==> l'.userAgents == Split(f.userAgents, ','))
            && (f.userAgents == "" ==> l'.userAgents == l.userAgents)
            && l'.(logFormat := l.logFormat, logPath := l.logPath, userAgents := l.userAgents) == l
    ensures var a' := OverAgent(f, a);
            StringRule(f.logLevel, a.logLevel, a'.logLevel) && StringRule(f.logFile, a.logFile, a'.logFile)
            && a'.(logLevel := a.logLevel, logFile := a.logFile) == a
    ensures var t' := OverTitle(f, t);
            BoolRule(f.collectTitle, t.collect, t'.collect) && StringRule(f.titleDomain, t.domain, t'.domain)
            && t'.(collect := t.collect, domain := t.domain) == t
    ensures BoolRule(f.batch, b.mode, OverBatch(f, b).mode) && OverBatch(f, b).(mode := b.mode) == b
  {
  }

  /** The user-agent flag is a comma-separated list: its entries joined back give the flag. */
  lemma UserAgentsFlagSplits(f: Flags, l: LogSection)
    requires f.userAgents != ""
    ensures |OverLog(f, l).userAgents| >= 1
    ensures forall i :: 0 <= i < |OverLog(f, l).userAgents| ==> ',' !in OverLog(f, l).userAgents[i]
    ensures Join(OverLog(f, l).userAgents, ',') == f.userAgents
  {
  }

  /** A list of user agents given without commas is one entry. */
  lemma SingleUserAgent(f: Flags, l: LogSection)
    requires f.userAgents != "" && ',' !in f.userAgents
    ensures OverLog(f, l).userAgents == [f.userAgents]
  {
    SplitJoin([f.userAgents], ',');
  }

  /** Applying the same flags twice is applying them once. */
  lemma OverridesIdempotent(f: Flags, m: MatomoSection, l: LogSection, a: AgentSection, t: TitleSection, b: BatchSection)
    ensures OverMatomo(f, OverMatomo(f, m)) == OverMatomo(f, m)
    ensures OverLog(f, OverLog(f, l)) == OverLog(f, l)
    ensures OverAgent(f, OverAgent(f, a)) == OverAgent(f, a)
    ensures OverTitle(f, OverTitle(f, t)) == OverTitle(f, t)
    ensures OverBatch(f, OverBatch(f, b)) == OverBatch(f, b)
  {
  }

  /** Without flags every setting but one is the file's: the downloads flag
      defaults to true, so download tracking is on whatever the file says. */
  lemma DefaultFlagsKeepFileButDownloads(m: MatomoSection, l: LogSection, a: AgentSection, t: TitleSection, b: BatchSection)
    ensures OverMatomo(DefaultFlags, m) == m.(downloads := true)
    ensures OverLog(DefaultFlags, l) == l && OverAgent(DefaultFlags, a) == a
    ensures OverTitle(DefaultFlags, t) == t && OverBatch(DefaultFlags, b) == b
  {
  }
}
