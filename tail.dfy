/**
 * Tail mode: follow the log file and send every line that parses. The lines
 * the follower delivers are modelled as a finite sequence; a fatal log exits
 * the agent and is a result here.
 */
module Tail {
  import opened Wrappers
  import opened Configuration
  import opened LogParser
  import opened Matomo
  import opened LogAgent

  /** How `tailLogFile` ends. */
  datatype TailResult =
    | BadFormat     // the format is neither nginx nor apache: fatal before the file is opened
    | FollowFailed  // the follower cannot open the file: fatal
    | Drained       // every delivered line has been handled

  /** The formats tail mode accepts. */
  predicate TailFormat(logFormat: string) {
    logFormat == "nginx" || logFormat == "apache"
  }

  /** `tailLogFile`: check the format, open the follower, then send each line
      that parses and drop the others without a word. `delivered` is None when
      the follower cannot be opened. */
  method TailLogFile(config: Config, delivered: Option<seq<string>>, fails: nat -> bool)
    returns (result: TailResult, posts: seq<Post>)
    modifies config
    ensures !TailFormat(old(config.log.logFormat)) ==> result == BadFormat && posts == []
    ensures TailFormat(old(config.log.logFormat)) && delivered.None? ==> result == FollowFailed && posts == []
    ensures TailFormat(old(config.log.logFormat)) && delivered.Some? ==>
              result == Drained
              && posts == HitsOf(old(config.matomo), old(config.log.userAgents),
                                 ParsedLines(delivered.value, old(config.log.logFormat)), fails)
    ensures config.matomo == old(config.matomo) || config.matomo == InitAgent(old(config.matomo))
    ensures config.log == old(config.log) && config.agent == old(config.agent)
    ensures config.title == old(config.title) && config.batch == old(config.batch)
  {
    posts := [];
    if config.log.logFormat != "nginx" && config.log.logFormat != "apache" {
      return BadFormat, posts;
    }
    if delivered.None? {
      return FollowFailed, posts;
    }
    var lines := delivered.value;
    ghost var m := config.matomo;
    ghost var log := config.log;
    ghost var sent: seq<LogData> := [];
    ghost var dropped: seq<string> := [];
    var count: nat := 0;
    for i := 0 to |lines|
      invariant config.log == log && config.agent == old(config.agent)
      invariant config.title == old(config.title) && config.batch == old(config.batch)
      invariant config.matomo == m || config.matomo == InitAgent(m)
      invariant Replayed(lines[..i], log.logFormat, m, log.userAgents, fails, sent, dropped, posts, count)
    {
      var logData := ParseLog(lines[i], config.log.logFormat);
      if logData.Some? {
        ReplaySend(lines, i, log.logFormat, m, log.userAgents, fails, sent, dropped, posts, count);
        var more := SendFromReplay(logData.value, config, m, fails(count));
        posts := posts + more;
        sent := sent + [logData.value];
        count := count + 1;
      } else {
        ReplaySkip(lines, i, log.logFormat, m, log.userAgents, fails, sent, dropped, posts, count);
        dropped := dropped + [lines[i]];
      }
    }
    assert lines[..|lines|] == lines;
    result := Drained;
  }
}
