/**
 * The access-log line parser of logparser.go. Both accepted formats, "nginx"
 * and "apache", use one fixed regular expression,
 *
 *   (\S+) - - \[([^\]]+)\] "(\S+) (\S+) (\S+)" (\d+) (\d+) "([^"]*)" "([^"]*)"
 *
 * searched for anywhere in the line (it is not anchored). The expression is a
 * sequence of nine steps, each a capture group (a character class repeated)
 * followed by a literal. `Scan` matches the steps at one start position and
 * `Search` tries the start positions from left to right, as Go's
 * leftmost-first `FindStringSubmatch` does.
 *
 * Once the start is fixed, each group is determined by the literal after it:
 * the group together with the literal's leading characters of the group's
 * class make up the whole run of that class, so the group ends `n` characters
 * before the run does, where `n` is the length of that literal prefix. For a
 * `\S+` before " " that is the first white space; for the protocol's `\S+`
 * before `" ` it is one before; for `[^"]*` before `"` it is the first `"`.
 */
module LogParser {
  import opened Wrappers
  import opened Strings

  /** The nine capture groups, in the order of the pattern. */
  datatype LogData = LogData(
    ip: string,
    timestamp: string,
    httpMethod: string,
    url: string,
    protocol: string,
    status: string,
    size: string,
    referrer: string,
    userAgent: string)

  /** RE2's `\s`, which is [\t\n\f\r ]. */
  predicate IsRe2Space(c: char) {
    c == '\t' || c == '\n' || c == '\U{000C}' || c == '\r' || c == ' '
  }

  /** The character classes of the pattern: `\S`, `\d` and `[^c]`. */
  datatype Class = NonBlank | Digit | Except(stop: char)

  predicate InClass(cls: Class, c: char) {
    match cls
    case NonBlank => !IsRe2Space(c)
    case Digit => IsDigit(c)
    case Except(stop) => c != stop
  }

  /** A pattern: capture groups `(cls+)` (when `plus`) or `(cls*)`, each followed
      by the literal `after`. */
  datatype Pattern =
    | End
    | Capture(cls: Class, plus: bool, after: string, next: Pattern)

  /** The pattern of logparser.go. */
  const Combined: Pattern :=
    Capture(NonBlank, true, " - - [",
    Capture(Except(']'), true, "] \"",
    Capture(NonBlank, true, " ",
    Capture(NonBlank, true, " ",
    Capture(NonBlank, true, "\" ",
    Capture(Digit, true, " ",
    Capture(Digit, true, " \"",
    Capture(Except('"'), false, "\" \"",
    Capture(Except('"'), false, "\"",
    End)))))))))

  function GroupCount(p: Pattern): nat {
    match p
    case End => 0
    case Capture(_, _, _, next) => 1 + GroupCount(next)
  }

  /** End of the longest run of `cls` characters in `s` from `i`. */
  function Span(s: string, i: nat, cls: Class): (j: nat)
    requires i <= |s|
    decreases |s| - i
    ensures i <= j <= |s|
  {
    if i < |s| && InClass(cls, s[i]) then Span(s, i + 1, cls) else i
  }

  /** `Span` stops at the first character outside the class. */
  lemma {:induction false} SpanRun(s: string, i: nat, cls: Class)
    requires i <= |s|
    ensures forall k :: i <= k < Span(s, i, cls) ==> InClass(cls, s[k])
    ensures Span(s, i, cls) < |s| ==> !InClass(cls, s[Span(s, i, cls)])
    decreases |s| - i
  {
    if i < |s| && InClass(cls, s[i]) {
      SpanRun(s, i + 1, cls);
    }
  }

  /** A run of `cls` characters from `i` to `j`, not continuing at `j`, is the longest one. */
  lemma {:induction false} SpanIs(s: string, i: nat, cls: Class, j: nat)
    requires i <= j <= |s|
    requires forall k :: i <= k < j ==> InClass(cls, s[k])
    requires j < |s| ==> !InClass(cls, s[j])
    ensures Span(s, i, cls) == j
    decreases j - i
  {
    if i < j {
      SpanIs(s, i + 1, cls, j);
    }
  }

  /** The literal after a group holds a character outside the group's class,
      which is what fixes where the group ends. */
  predicate Determines(cls: Class, after: string) {
    Span(after, 0, cls) < |after|
  }

  predicate AllDetermine(p: Pattern) {
    p.Capture? ==> Determines(p.cls, p.after) && AllDetermine(p.next)
  }

  /** `g` is text a group `(cls+)` or `(cls*)` can match. */
  predicate FitsGroup(cls: Class, plus: bool, g: string) {
    (plus ==> |g| > 0) && forall k :: 0 <= k < |g| ==> InClass(cls, g[k])
  }

  /** One value per group, each text its group can match. */
  predicate Fits(p: Pattern, groups: seq<string>) {
    match p
    case End => groups == []
    case Capture(cls, plus, _, next) =>
      |groups| > 0 && FitsGroup(cls, plus, groups[0]) && Fits(next, groups[1..])
  }

  /** The text the pattern matches when its groups take the values `groups`. */
  function RenderPattern(p: Pattern, groups: seq<string>): string {
    match p
    case End => ""
    case Capture(_, _, after, next) =>
      if groups == [] then "" else groups[0] + (after + RenderPattern(next, groups[1..]))
  }

  /** Where a group ends when scanned from `pos` (below `pos` when it cannot). */
  function GroupStop(line: string, pos: nat, cls: Class, after: string): int
    requires pos <= |line|
  {
    Span(line, pos, cls) - Span(after, 0, cls)
  }

  /** A group from `pos` can end at `e`, followed by its literal. */
  predicate EndsAt(line: string, pos: nat, plus: bool, after: string, e: int) {
    pos <= e && (plus ==> pos < e) && At(line, e, after)
  }

  /** The pattern matched from `pos`: the captured groups, or None. */
  function Scan(line: string, p: Pattern, pos: nat): Option<seq<string>>
    requires pos <= |line|
  {
    match p
    case End => Some([])
    case Capture(cls, plus, after, next) =>
      var e := GroupStop(line, pos, cls, after);
      if !EndsAt(line, pos, plus, after, e) then None
      else
        match Scan(line, next, e + |after|)
        case None => None
        case Some(rest) => Some([line[pos..e]] + rest)
  }

  /** Where a group that fits and is followed by its literal must end. */
  lemma GroupEnd(line: string, pos: nat, cls: Class, plus: bool, after: string, g: string)
    requires pos <= |line| && Determines(cls, after) && FitsGroup(cls, plus, g)
    requires At(line, pos, g + after)
    ensures GroupStop(line, pos, cls, after) == pos + |g|
  {
    AtConcat(line, pos, g, after);
    SpanRun(after, 0, cls);
    var n := Span(after, 0, cls);
    var q := pos + |g|;
    AtChars(line, pos, g);
    AtChars(line, q, after);
    forall k | pos <= k < q + n
      ensures InClass(cls, line[k])
    {
      if k < q {
        assert line[pos + (k - pos)] == g[k - pos];
      } else {
        assert line[q + (k - q)] == after[k - q];
      }
    }
    assert line[q + n] == after[n];
    SpanIs(line, pos, cls, q + n);
  }

  /** The group the scanner takes fits, and the text it read is the group, its
      literal and what follows. */
  lemma HeadSound(line: string, pos: nat, cls: Class, plus: bool, after: string, rest: string)
    requires pos <= |line|
    requires EndsAt(line, pos, plus, after, GroupStop(line, pos, cls, after))
    requires At(line, GroupStop(line, pos, cls, after) + |after|, rest)
    ensures FitsGroup(cls, plus, line[pos..GroupStop(line, pos, cls, after)])
    ensures At(line, pos, line[pos..GroupStop(line, pos, cls, after)] + (after + rest))
  {
    var e := GroupStop(line, pos, cls, after);
    var g := line[pos..e];
    SpanRun(line, pos, cls);
    AtSlice(line, pos, g);
    AtConcat(line, e, after, rest);
    AtConcat(line, pos, g, after + rest);
  }

  /** A successful scan of a capture: the group ends at its stop, the rest of the
      pattern scans after the literal, and the groups are the two together. */
  lemma ScanHead(line: string, cls: Class, plus: bool, after: string, next: Pattern, pos: nat)
    requires pos <= |line| && Scan(line, Capture(cls, plus, after, next), pos).Some?
    ensures EndsAt(line, pos, plus, after, GroupStop(line, pos, cls, after))
    ensures GroupStop(line, pos, cls, after) + |after| <= |line|
    ensures Scan(line, next, GroupStop(line, pos, cls, after) + |after|).Some?
    ensures Scan(line, Capture(cls, plus, after, next), pos).value
            == [line[pos..GroupStop(line, pos, cls, after)]]
               + Scan(line, next, GroupStop(line, pos, cls, after) + |after|).value
  {
    var e := GroupStop(line, pos, cls, after);
    assert EndsAt(line, pos, plus, after, e);
    AtLength(line, e, after);
  }

  /** A successful scan has one value per group. */
  lemma {:induction false} ScanCount(line: string, p: Pattern, pos: nat)
    requires pos <= |line| && Scan(line, p, pos).Some?
    ensures |Scan(line, p, pos).value| == GroupCount(p)
  {
    match p
    case End =>
    case Capture(cls, plus, after, next) =>
      ScanHead(line, cls, plus, after, next, pos);
      ScanCount(line, next, GroupStop(line, pos, cls, after) + |after|);
  }

  /** What the scanner returns is a match of the pattern. */
  lemma {:induction false} ScanSound(line: string, p: Pattern, pos: nat)
    requires pos <= |line| && Scan(line, p, pos).Some?
    ensures Fits(p, Scan(line, p, pos).value)
    ensures At(line, pos, RenderPattern(p, Scan(line, p, pos).value))
  {
    match p
    case End =>
    case Capture(cls, plus, after, next) =>
      ScanHead(line, cls, plus, after, next, pos);
      var groups := Scan(line, p, pos).value;
      var e := GroupStop(line, pos, cls, after);
      var tail := Scan(line, next, e + |after|).value;
      ScanSound(line, next, e + |after|);
      HeadSound(line, pos, cls, plus, after, RenderPattern(next, tail));
      assert groups[1..] == tail;
  }

  /** The scan of a capture whose group ends at its stop and whose remainder scans. */
  lemma ScanCons(line: string, cls: Class, plus: bool, after: string, next: Pattern, pos: nat, e: int, rest: seq<string>)
    requires pos <= |line| && e == GroupStop(line, pos, cls, after) && EndsAt(line, pos, plus, after, e)
    requires e + |after| <= |line| && Scan(line, next, e + |after|) == Some(rest)
    ensures Scan(line, Capture(cls, plus, after, next), pos) == Some([line[pos..e]] + rest)
  {
  }

  /** A fitting first group followed by its literal is what the scanner takes. */
  lemma HeadComplete(line: string, pos: nat, cls: Class, plus: bool, after: string, g: string, rest: string)
    requires pos <= |line| && Determines(cls, after) && FitsGroup(cls, plus, g)
    requires At(line, pos, g + (after + rest))
    ensures GroupStop(line, pos, cls, after) == pos + |g|
    ensures EndsAt(line, pos, plus, after, pos + |g|)
    ensures line[pos..pos + |g|] == g
    ensures At(line, pos + |g| + |after|, rest)
  {
    AtConcat(line, pos, g, after + rest);
    AtConcat(line, pos + |g|, after, rest);
    AtConcat(line, pos, g, after);
    AtSlice(line, pos, g);
    GroupEnd(line, pos, cls, plus, after, g);
  }

  /** A fitting first group, its literal and a remainder that scans give the scan of the capture. */
  lemma CaptureComplete(line: string, cls: Class, plus: bool, after: string, next: Pattern, pos: nat,
                        g: string, tail: string, rest: seq<string>)
    requires pos <= |line| && Determines(cls, after) && FitsGroup(cls, plus, g)
    requires At(line, pos, g + (after + tail)) && pos + |g| + |after| <= |line|
    requires Scan(line, next, pos + |g| + |after|) == Some(rest)
    ensures Scan(line, Capture(cls, plus, after, next), pos) == Some([g] + rest)
  {
    HeadComplete(line, pos, cls, plus, after, g, tail);
    ScanCons(line, cls, plus, after, next, pos, pos + |g|, rest);
  }

  /** Under `AllDetermine`, every match of the pattern is what the scanner returns. */
  lemma {:induction false} ScanComplete(line: string, p: Pattern, pos: nat, groups: seq<string>)
    requires pos <= |line| && AllDetermine(p)
    requires Fits(p, groups) && At(line, pos, RenderPattern(p, groups))
    ensures Scan(line, p, pos) == Some(groups)
  {
    match p
    case End =>
    case Capture(cls, plus, after, next) =>
      var g := groups[0];
      var rest := groups[1..];
      var tail := RenderPattern(next, rest);
      AtConcat(line, pos, g, after + tail);
      AtConcat(line, pos + |g|, after, tail);
      AtLength(line, pos + |g| + |after|, tail);
      ScanComplete(line, next, pos + |g| + |after|, rest);
      CaptureComplete(line, cls, plus, after, next, pos, g, tail, rest);
      assert groups == [g] + rest;
  }

  // ---------------------------------------------------------------------------
  // The pattern as nine named fields.

  /** Text matched by `\S+`. */
  predicate NonSpaceRun(x: string) {
    |x| > 0 && forall k :: 0 <= k < |x| ==> !IsRe2Space(x[k])
  }

  /** Text matched by `\d+`. */
  predicate DigitRun(x: string) {
    |x| > 0 && forall k :: 0 <= k < |x| ==> IsDigit(x[k])
  }

  /** Each field is text its group can match. */
  predicate WellFormed(d: LogData) {
    && NonSpaceRun(d.ip)
    && |d.timestamp| > 0 && ']' !in d.timestamp
    && NonSpaceRun(d.httpMethod)
    && NonSpaceRun(d.url)
    && NonSpaceRun(d.protocol)
    && DigitRun(d.status)
    && DigitRun(d.size)
    && '"' !in d.referrer
    && '"' !in d.userAgent
  }

  /** The text the whole pattern matches when its groups take the values of `d`. */
  function Render(d: LogData): string {
    d.ip + (" - - [" + (d.timestamp + ("] \"" + (d.httpMethod + (" " + (d.url + (" " + (d.protocol
    + ("\" " + (d.status + (" " + (d.size + (" \"" + (d.referrer + ("\" \"" + (d.userAgent
    + "\""))))))))))))))))
  }

  /** The pattern matches at `i`, with groups `d`. */
  predicate MatchesAt(line: string, i: int, d: LogData) {
    WellFormed(d) && At(line, i, Render(d))
  }

  function Fields(d: LogData): (g: seq<string>)
    ensures |g| == 9
  {
    [d.ip, d.timestamp, d.httpMethod, d.url, d.protocol, d.status, d.size, d.referrer, d.userAgent]
  }

  function FromFields(g: seq<string>): LogData
    requires |g| == 9
  {
    LogData(g[0], g[1], g[2], g[3], g[4], g[5], g[6], g[7], g[8])
  }

  lemma FieldsOfFromFields(g: seq<string>)
    requires |g| == 9
    ensures Fields(FromFields(g)) == g
  {
  }

  lemma CombinedDetermines()
    ensures AllDetermine(Combined)
  {
    var p1 := Combined.next;
    var p2 := p1.next;
    var p3 := p2.next;
    var p4 := p3.next;
    var p5 := p4.next;
    var p6 := p5.next;
    var p7 := p6.next;
    var p8 := p7.next;
    assert Span("\" ", 0, NonBlank) == 1;
    assert AllDetermine(p8);
    assert AllDetermine(p7);
    assert AllDetermine(p6);
    assert AllDetermine(p5);
    assert AllDetermine(p4);
    assert AllDetermine(p3);
    assert AllDetermine(p2);
    assert AllDetermine(p1);
  }

  /** The text matched from the protocol group on. */
  function RenderTail(d: LogData): string {
    d.protocol + ("\" " + (d.status + (" " + (d.size + (" \"" + (d.referrer + ("\" \"" + (d.userAgent
    + "\""))))))))
  }

  lemma CombinedRenderTail(d: LogData)
    ensures RenderPattern(Combined.next.next.next.next, Fields(d)[4..]) == RenderTail(d)
  {
    var g := Fields(d);
    var p4 := Combined.next.next.next.next;
    var p5 := p4.next;
    var p6 := p5.next;
    var p7 := p6.next;
    var p8 := p7.next;
    assert RenderPattern(p8, g[8..]) == d.userAgent + "\"";
    assert RenderPattern(p7, g[7..]) == d.referrer + ("\" \"" + RenderPattern(p8, g[8..]));
    assert RenderPattern(p6, g[6..]) == d.size + (" \"" + RenderPattern(p7, g[7..]));
    assert RenderPattern(p5, g[5..]) == d.status + (" " + RenderPattern(p6, g[6..]));
    assert RenderPattern(p4, g[4..]) == d.protocol + ("\" " + RenderPattern(p5, g[5..]));
  }

  /** The pattern and the named fields describe the same text. */
  lemma CombinedRender(d: LogData)
    ensures Render(d) == RenderPattern(Combined, Fields(d))
  {
    var g := Fields(d);
    var p1 := Combined.next;
    var p2 := p1.next;
    var p3 := p2.next;
    CombinedRenderTail(d);
    assert RenderPattern(p3, g[3..]) == d.url + (" " + RenderTail(d));
    assert RenderPattern(p2, g[2..]) == d.httpMethod + (" " + RenderPattern(p3, g[3..]));
    assert RenderPattern(p1, g[1..]) == d.timestamp + ("] \"" + RenderPattern(p2, g[2..]));
  }

  lemma CombinedFitsTail(d: LogData)
    ensures Fits(Combined.next.next.next.next, Fields(d)[4..])
            <==> NonSpaceRun(d.protocol) && DigitRun(d.status) && DigitRun(d.size)
                 && '"' !in d.referrer && '"' !in d.userAgent
  {
    var g := Fields(d);
    var p4 := Combined.next.next.next.next;
    var p5 := p4.next;
    var p6 := p5.next;
    var p7 := p6.next;
    var p8 := p7.next;
    assert Fits(p8, g[8..]) <==> FitsGroup(Except('"'), false, d.userAgent);
    assert Fits(p7, g[7..]) <==> FitsGroup(Except('"'), false, d.referrer) && Fits(p8, g[8..]);
    assert Fits(p6, g[6..]) <==> FitsGroup(Digit, true, d.size) && Fits(p7, g[7..]);
    assert Fits(p5, g[5..]) <==> FitsGroup(Digit, true, d.status) && Fits(p6, g[6..]);
    assert Fits(p4, g[4..]) <==> FitsGroup(NonBlank, true, d.protocol) && Fits(p5, g[5..]);
    assert FitsGroup(Except('"'), false, d.referrer) <==> '"' !in d.referrer;
    assert FitsGroup(Except('"'), false, d.userAgent) <==> '"' !in d.userAgent;
  }

  /** The groups of the pattern fit exactly when the record is well formed. */
  lemma CombinedFits(d: LogData)
    ensures WellFormed(d) <==> Fits(Combined, Fields(d))
  {
    var g := Fields(d);
    var p1 := Combined.next;
    var p2 := p1.next;
    var p3 := p2.next;
    var p4 := p3.next;
    CombinedFitsTail(d);
    assert Fits(p3, g[3..]) <==> FitsGroup(NonBlank, true, d.url) && Fits(p4, g[4..]);
    assert Fits(p2, g[2..]) <==> FitsGroup(NonBlank, true, d.httpMethod) && Fits(p3, g[3..]);
    assert Fits(p1, g[1..]) <==> FitsGroup(Except(']'), true, d.timestamp) && Fits(p2, g[2..]);
    assert FitsGroup(Except(']'), true, d.timestamp) <==> |d.timestamp| > 0 && ']' !in d.timestamp;
  }

  /** The pattern tried at one start position. */
  function MatchAt(line: string, i: nat): Option<LogData>
    requires i <= |line|
  {
    var g :- Scan(line, Combined, i);
    ScanCount(line, Combined, i);
    Some(FromFields(g))
  }

  /** What the scanner returns at `i` is a match of the pattern at `i`. */
  lemma MatchAtSound(line: string, i: nat, d: LogData)
    requires i <= |line| && MatchAt(line, i) == Some(d)
    ensures MatchesAt(line, i, d)
  {
    var g := Scan(line, Combined, i).value;
    ScanCount(line, Combined, i);
    FieldsOfFromFields(g);
    ScanSound(line, Combined, i);
    CombinedRender(d);
    CombinedFits(d);
  }

  /** Every match of the pattern at `i` is what the scanner returns at `i`. */
  lemma MatchAtComplete(line: string, i: nat, d: LogData)
    requires i <= |line| && MatchesAt(line, i, d)
    ensures MatchAt(line, i) == Some(d)
  {
    CombinedRender(d);
    CombinedFits(d);
    CombinedDetermines();
    ScanComplete(line, Combined, i, Fields(d));
  }

  /** The scanner at `i` and the pattern at `i` agree, in both directions. */
  lemma MatchAtIff(line: string, i: nat, d: LogData)
    requires i <= |line|
    ensures MatchAt(line, i) == Some(d) <==> MatchesAt(line, i, d)
  {
    if MatchAt(line, i) == Some(d) {
      MatchAtSound(line, i, d);
    }
    if MatchesAt(line, i, d) {
      MatchAtComplete(line, i, d);
    }
  }

  /** Leftmost-first search: the match at the smallest start position `>= i`. */
  function Search(line: string, i: nat): (r: Option<LogData>)
    requires i <= |line|
    decreases |line| - i
    ensures r.Some? ==> exists k :: i <= k <= |line| && MatchAt(line, k) == r
                                    && forall j :: i <= j < k ==> MatchAt(line, j).None?
    ensures r.None? ==> forall k :: i <= k <= |line| ==> MatchAt(line, k).None?
  {
    var m := MatchAt(line, i);
    if m.Some? then m
    else if i == |line| then None
    else Search(line, i + 1)
  }

  /** parseLog: the record for `line` in the given format, or None (Go's nil). */
  function ParseLog(line: string, logFormat: string): (r: Option<LogData>)
    ensures logFormat != "nginx" && logFormat != "apache" ==> r.None?
  {
    if logFormat == "nginx" then Search(line, 0)
    else if logFormat == "apache" then Search(line, 0)
    else None
  }

  /** The two accepted formats share one pattern, so they parse every line alike. */
  lemma NginxIsApache(line: string)
    ensures ParseLog(line, "nginx") == ParseLog(line, "apache")
  {
  }

  /** The pattern matches at `k` with groups `d`, and at no earlier position. */
  ghost predicate Leftmost(line: string, k: int, d: LogData) {
    MatchesAt(line, k, d) && forall j, e :: 0 <= j < k ==> !MatchesAt(line, j, e)
  }

  /** A line parses to `d` exactly when the format is one of the two accepted
      ones and `d` is the leftmost match of the pattern in the line. */
  lemma ParseLogSome(line: string, logFormat: string, d: LogData)
    ensures ParseLog(line, logFormat) == Some(d)
            <==> (logFormat == "nginx" || logFormat == "apache") && exists k :: Leftmost(line, k, d)
  {
    if ParseLog(line, logFormat) == Some(d) {
      ParsedIsLeftmost(line, logFormat, d);
    }
    if (logFormat == "nginx" || logFormat == "apache") && exists k :: Leftmost(line, k, d) {
      var k :| Leftmost(line, k, d);
      LeftmostIsParsed(line, logFormat, k, d);
    }
  }

  /** What a line parses to is the leftmost match. */
  lemma ParsedIsLeftmost(line: string, logFormat: string, d: LogData)
    requires ParseLog(line, logFormat) == Some(d)
    ensures logFormat == "nginx" || logFormat == "apache"
    ensures exists k :: Leftmost(line, k, d)
  {
    var r := Search(line, 0);
    var k :| 0 <= k <= |line| && MatchAt(line, k) == r
             && forall j :: 0 <= j < k ==> MatchAt(line, j).None?;
    MatchAtIff(line, k, d);
    forall j, e | 0 <= j < k
      ensures !MatchesAt(line, j, e)
    {
      MatchAtIff(line, j, e);
    }
    assert Leftmost(line, k, d);
  }

  /** The leftmost match is what a line in an accepted format parses to. */
  lemma LeftmostIsParsed(line: string, logFormat: string, k: int, d: LogData)
    requires (logFormat == "nginx" || logFormat == "apache") && Leftmost(line, k, d)
    ensures ParseLog(line, logFormat) == Some(d)
  {
    MatchAtIff(line, k, d);
    var r := Search(line, 0);
    assert r.Some?;
    var k' :| 0 <= k' <= |line| && MatchAt(line, k') == r
              && forall j :: 0 <= j < k' ==> MatchAt(line, j).None?;
    MatchAtIff(line, k', r.value);
    assert k' == k;
  }

  /** A line yields nil exactly when the format is not accepted or the pattern
      matches nowhere in the line. */
  lemma ParseLogNone(line: string, logFormat: string)
    ensures ParseLog(line, logFormat).None?
            <==> (logFormat != "nginx" && logFormat != "apache")
                 || forall k, d :: !MatchesAt(line, k, d)
  {
    if logFormat == "nginx" || logFormat == "apache" {
      forall k, d | MatchesAt(line, k, d)
        ensures ParseLog(line, logFormat).Some?
      {
        MatchAtIff(line, k, d);
      }
      if ParseLog(line, logFormat).Some? {
        var d := ParseLog(line, logFormat).value;
        ParseLogSome(line, logFormat, d);
      }
    }
  }

  /** The fields of a parsed record are text their groups can match: digits for
      the status and the size (so a size of "-" never parses), no white space
      in the address, method, URL and protocol, no `]` in the timestamp, no `"`
      in the referrer and user agent. */
  lemma ParsedIsWellFormed(line: string, logFormat: string)
    requires ParseLog(line, logFormat).Some?
    ensures WellFormed(ParseLog(line, logFormat).value)
    ensures ParseLog(line, logFormat).value.size != "-"
    ensures ParseLog(line, logFormat).value.status != "-"
  {
    var d := ParseLog(line, logFormat).value;
    ParseLogSome(line, logFormat, d);
    assert !IsDigit('-');
  }

  /** The literals of a pattern, in order. */
  function Literals(p: Pattern): seq<string> {
    match p
    case End => []
    case Capture(_, _, after, next) => [after] + Literals(next)
  }

  /** Text the pattern matches contains each of its literals. */
  lemma {:induction false} LiteralsOccur(line: string, p: Pattern, pos: int, groups: seq<string>)
    requires |groups| == GroupCount(p) && At(line, pos, RenderPattern(p, groups))
    ensures forall j :: 0 <= j < |Literals(p)| ==> Contains(line, Literals(p)[j])
  {
    match p
    case End =>
    case Capture(cls, plus, after, next) =>
      var g := groups[0];
      var r := RenderPattern(next, groups[1..]);
      AtConcat(line, pos, g, after + r);
      AtConcat(line, pos + |g|, after, r);
      LiteralsOccur(line, next, pos + |g| + |after|, groups[1..]);
      ContainsIff(line, after);
      assert Literals(p) == [after] + Literals(next);
  }

  /** Every match contains the literal pieces of the pattern. */
  lemma MatchHasLiterals(line: string, k: int, d: LogData)
    requires MatchesAt(line, k, d)
    ensures Contains(line, " - - [")
    ensures Contains(line, "] \"")
    ensures Contains(line, "\" ")
  {
    CombinedRender(d);
    LiteralsOccur(line, Combined, k, Fields(d));
    assert Literals(Combined)[0] == " - - [";
    assert Literals(Combined)[1] == "] \"";
    assert Literals(Combined)[4] == "\" ";
  }

  /** A line lacking ` - - [`, the `] "` that closes the timestamp, or the `" `
      that closes the request section yields nil. */
  lemma MissingLiteralIsNil(line: string, logFormat: string)
    requires !Contains(line, " - - [") || !Contains(line, "] \"") || !Contains(line, "\" ")
    ensures ParseLog(line, logFormat).None?
  {
    forall k, d | MatchesAt(line, k, d)
      ensures false
    {
      MatchHasLiterals(line, k, d);
    }
    ParseLogNone(line, logFormat);
  }

  /** A rendered record parses back to itself, whatever text follows its closing
      quote: the pattern is not anchored at the end. */
  lemma ParseRender(d: LogData, rest: string, logFormat: string)
    requires WellFormed(d) && (logFormat == "nginx" || logFormat == "apache")
    ensures ParseLog(Render(d) + rest, logFormat) == Some(d)
  {
    var line := Render(d) + rest;
    AtSlice(line, 0, Render(d));
    assert line[0..|Render(d)|] == Render(d);
    assert Leftmost(line, 0, d);
    ParseLogSome(line, logFormat, d);
  }
}
