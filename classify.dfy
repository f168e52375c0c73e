/**
 * The URL classifiers of the agent: the asset filter (`isIgnored`), the
 * download detector (`isDownloadableFile`) and the excluded-substring filter
 * (`shouldSendURL`). The two extension tests look only at the part of the URL
 * before its first `?`.
 */
module Classify {
  import opened Strings

  /** A file extension; it is never empty. */
  type Extension = s: string | |s| > 0 witness ".z"

  /** Media extensions whose requests are not tracked. */
  const IgnoredRequests: seq<Extension> := [
    ".jpeg", ".jpg", ".woff", ".woff2", ".ttf", ".gif", ".png", ".webp", ".svg", ".ico",
    ".js", ".css", ".bmp", ".svgz", ".otf", ".eot", ".xml"
  ]

  /** Extensions that mark a request as a file download, one constant per row of the source list. */
  const DownloadRow1: seq<Extension> := [".7z", ".aac", ".apk", ".arc", ".arj", ".asf", ".asx", ".avi", ".azw3", ".bin"]
  const DownloadRow2: seq<Extension> := [".bz2", ".csv", ".deb", ".dmg", ".doc", ".docx", ".epub", ".exe", ".flac", ".flv"]
  const DownloadRow3: seq<Extension> := [".gz", ".gzip", ".hqx", ".ibooks", ".jar", ".json", ".md5", ".mov", ".movie"]
  const DownloadRow4: seq<Extension> := [".mp2", ".mp3", ".mp4", ".mpg", ".mpeg", ".mobi", ".msi", ".msp", ".odb", ".odf"]
  const DownloadRow5: seq<Extension> := [".odg", ".odp", ".ods", ".odt", ".ogg", ".ogv", ".pdf", ".phps", ".ppt", ".pptx"]
  const DownloadRow6: seq<Extension> := [".qt", ".qtm", ".ra", ".ram", ".rar", ".rpm", ".rtf", ".sea", ".sig", ".sit"]
  const DownloadRow7: seq<Extension> := [".tar", ".tbz", ".tgz", ".torrent", ".txt", ".wav", ".webm", ".wma", ".wmv"]
  const DownloadRow8: seq<Extension> := [".wpd", ".xls", ".xlsx", ".xml", ".xsd", ".z", ".zip"]

  const DownloadExtensions: seq<Extension> :=
    DownloadRow1 + DownloadRow2 + DownloadRow3 + DownloadRow4
    + DownloadRow5 + DownloadRow6 + DownloadRow7 + DownloadRow8

  /** `p` is the longest prefix of `url` without a `?`: the URL without its query. */
  predicate IsPathOf(url: string, p: string) {
    '?' !in p && |p| <= |url| && url[..|p|] == p && (|p| == |url| || url[|p|] == '?')
  }

  /** `strings.Split(url, "?")[0]` */
  function PathOf(url: string): (p: string)
    ensures IsPathOf(url, p)
  {
    var parts := Split(url, '?');
    assert '?' !in parts[0];
    if |parts| == 1 then parts[0]
    else
      assert url == parts[0] + ['?'] + Join(parts[1..], '?');
      assert url[..|parts[0]|] == parts[0];
      parts[0]
  }

  /** The query-free prefix is unique, so `IsPathOf` defines `PathOf`. */
  lemma PathOfUnique(url: string, p: string)
    requires IsPathOf(url, p)
    ensures PathOf(url) == p
  {
    var r := PathOf(url);
    assert forall k :: 0 <= k < |r| ==> url[k] != '?' by {
      forall k | 0 <= k < |r|
        ensures url[k] != '?'
      {
        assert url[k] == r[k];
      }
    }
    assert forall k :: 0 <= k < |p| ==> url[k] != '?' by {
      forall k | 0 <= k < |p|
        ensures url[k] != '?'
      {
        assert url[k] == p[k];
      }
    }
  }

  /** A query-free text in front of a URL stays in front of its path. */
  lemma PathOfAppend(x: string, y: string)
    requires '?' !in x
    ensures PathOf(x + y) == x + PathOf(y)
  {
    var py := PathOf(y);
    var s := x + y;
    var p := x + py;
    assert s[..|p|] == x + y[..|py|];
    if |p| < |s| {
      assert s[|p|] == y[|py|];
    }
    PathOfUnique(s, p);
  }

  /** `isIgnored`: robots.txt, autodiscover in any case, or a media extension in any case. */
  function IsIgnored(url: string): (r: bool)
    ensures r <==> var p := PathOf(url);
      (exists k :: At(p, k, "robots.txt"))
      || (exists k :: At(Lower(p), k, "autodiscover"))
      || (exists i :: 0 <= i < |IgnoredRequests| && HasSuffix(Lower(p), IgnoredRequests[i]))
  {
    var p := PathOf(url);
    ContainsIff(p, "robots.txt");
    ContainsIff(Lower(p), "autodiscover");
    Contains(p, "robots.txt") || Contains(Lower(p), "autodiscover") || EndsWithAny(Lower(p), IgnoredRequests)
  }

  /** `isDownloadableFile`: the lower-cased path ends with a download extension. */
  function IsDownloadableFile(url: string): (r: bool)
    ensures r <==> exists i :: 0 <= i < |DownloadExtensions| && HasSuffix(Lower(PathOf(url)), DownloadExtensions[i])
  {
    EndsWithAny(Lower(PathOf(url)), DownloadExtensions)
  }

  /** `shouldSendURL`: no excluded entry is a substring of the URL. */
  function ShouldSendUrl(url: string, excludedUrls: seq<string>): (r: bool)
    ensures excludedUrls == [] ==> r
    ensures "" in excludedUrls ==> !r
  {
    assert At(url, 0, "");
    !AnyContained(excludedUrls, url)
  }

  /** A URL is held back exactly when some excluded entry occurs in it. */
  lemma ExcludedExactly(url: string, excludedUrls: seq<string>)
    ensures !ShouldSendUrl(url, excludedUrls) <==> exists i, k :: 0 <= i < |excludedUrls| && At(url, k, excludedUrls[i])
  {
    if !ShouldSendUrl(url, excludedUrls) {
      var i :| 0 <= i < |excludedUrls| && Contains(url, excludedUrls[i]);
      ContainsIff(url, excludedUrls[i]);
      var k :| At(url, k, excludedUrls[i]);
    }
    if exists i, k :: 0 <= i < |excludedUrls| && At(url, k, excludedUrls[i]) {
      var i, k :| 0 <= i < |excludedUrls| && At(url, k, excludedUrls[i]);
      ContainsIff(url, excludedUrls[i]);
    }
  }

  /** A query string never changes whether a request is ignored or a download. */
  lemma {:induction false} QueryIsIgnored(p: string, q: string)
    requires '?' !in p
    ensures IsIgnored(p + "?" + q) == IsIgnored(p)
    ensures IsDownloadableFile(p + "?" + q) == IsDownloadableFile(p)
  {
    SplitHead(p, q, '?');
    assert PathOf(p + "?" + q) == p;
  }

  /** Any request whose path mentions robots.txt is ignored. */
  lemma RobotsIgnored(a: string, b: string)
    requires '?' !in a
    ensures IsIgnored(a + "robots.txt" + b)
  {
    PathOfAppend(a + "robots.txt", b);
    ContainsInfix(a, "robots.txt", PathOf(b));
    ContainsIff(PathOf(a + "robots.txt" + b), "robots.txt");
  }

  /** Any request whose path mentions autodiscover, in any letter case, is ignored. */
  lemma AutodiscoverIgnored(a: string, w: string, b: string)
    requires '?' !in a && Lower(w) == "autodiscover"
    ensures IsIgnored(a + w + b)
  {
    assert forall k :: 0 <= k < |w| ==> w[k] != '?' by {
      forall k | 0 <= k < |w|
        ensures w[k] != '?'
      {
        assert LowerChar(w[k]) == "autodiscover"[k];
      }
    }
    PathOfAppend(a + w, b);
    var p := a + w + PathOf(b);
    LowerAppend(a + w, PathOf(b));
    LowerAppend(a, w);
    ContainsInfix(Lower(a), "autodiscover", Lower(PathOf(b)));
    ContainsIff(Lower(p), "autodiscover");
  }

  /** A path ending with a listed media extension, in any letter case, is ignored. */
  lemma ExtensionIgnored(p: string, e: string, rest: string)
    requires '?' !in p + e && (rest == [] || rest[0] == '?')
    requires Lower(e) in IgnoredRequests
    ensures IsIgnored(p + e + rest)
  {
    PathOfUnique(p + e + rest, p + e);
    LowerAppend(p, e);
    SuffixOfAppend(Lower(p), Lower(e));
  }

  /** A path ending with a listed download extension, in any letter case, is a download. */
  lemma ExtensionDownloadable(p: string, e: string, rest: string)
    requires '?' !in p + e && (rest == [] || rest[0] == '?')
    requires Lower(e) in DownloadExtensions
    ensures IsDownloadableFile(p + e + rest)
  {
    PathOfUnique(p + e + rest, p + e);
    LowerAppend(p, e);
    SuffixOfAppend(Lower(p), Lower(e));
  }

  /** `.xml` is on both lists: an XML file is both ignored and a download. */
  lemma XmlIsBoth(p: string, rest: string)
    requires '?' !in p && (rest == [] || rest[0] == '?')
    ensures IsIgnored(p + ".xml" + rest) && IsDownloadableFile(p + ".xml" + rest)
  {
    assert Lower(".xml") == ".xml";
    assert IgnoredRequests[16] == ".xml";
    assert DownloadExtensions[71] == ".xml";
    ExtensionIgnored(p, ".xml", rest);
    ExtensionDownloadable(p, ".xml", rest);
  }

  /** The empty URL is neither ignored nor a download. */
  lemma EmptyUrl()
    ensures !IsIgnored("") && !IsDownloadableFile("")
  {
    assert PathOf("") == "";

  }

  /** The order and repetition of the exclusion list do not matter. */
  lemma ExclusionOrderFree(url: string, ex1: seq<string>, ex2: seq<string>)
    requires forall e :: e in ex1 <==> e in ex2
    ensures ShouldSendUrl(url, ex1) == ShouldSendUrl(url, ex2)
  {
    ExcludedExactly(url, ex1);
    ExcludedExactly(url, ex2);
    if !ShouldSendUrl(url, ex1) {
      var i, k :| 0 <= i < |ex1| && At(url, k, ex1[i]);
      assert ex1[i] in ex2;
    }
    if !ShouldSendUrl(url, ex2) {
      var i, k :| 0 <= i < |ex2| && At(url, k, ex2[i]);
      assert ex2[i] in ex1;
    }
  }

  /** An upper-case image extension is still ignored, whatever the query. */
  lemma UpperCaseImageIgnored()
    ensures IsIgnored("/img/Logo.PNG?v=2")
  {
    assert "/img/Logo.PNG?v=2" == "/img/Logo" + ".PNG" + "?v=2";
    assert Lower(".PNG") == ".png" == IgnoredRequests[6];
    ExtensionIgnored("/img/Logo", ".PNG", "?v=2");
  }

  /** robots.txt is matched case-sensitively. */
  lemma RobotsIsCaseSensitive()
    ensures !IsIgnored("/ROBOTS.TXT")
  {
    var p := "/ROBOTS.TXT";
    PathOfUnique(p, p);
    UpperRobotsLacksRobots();
    assert Lower(p) == "/robots.txt";
    RobotsTxtIsNoMedia();
  }

  lemma UpperRobotsLacksRobots()
    ensures !Contains("/ROBOTS.TXT", "robots.txt")
  {
    var p := "/ROBOTS.TXT";
    forall k | At(p, k, "robots.txt")
      ensures false
    {
      AtChars(p, k, "robots.txt");
    }
    ContainsIff(p, "robots.txt");
  }

  lemma RobotsTxtIsNoMedia()
    ensures !EndsWithAny("/robots.txt", IgnoredRequests)
  {
    assert forall i :: 0 <= i < |IgnoredRequests| ==> !HasSuffix("/robots.txt", IgnoredRequests[i]);
  }
}
