/**
 * Page titles: the pure extraction of a title from a fetched page, and the
 * title cache, an in-memory map backed by an append-only file of
 * `url:title` lines. The file is modelled as its sequence of lines; whether
 * opening, fetching or writing succeeds is an input.
 */
module Title {
  import opened Wrappers
  import opened Strings
  import opened Configuration

  /** Cache file used when the configuration names none. */
  const DefaultCacheFile: string := "/tmp/matomo_agent-url_title_cache.txt"

  /** `getTitleCacheFilePath` */
  function CacheFilePath(t: TitleSection): (path: string)
    ensures path != ""
    ensures t.cache != "" ==> path == t.cache
    ensures t.cache == "" ==> path == DefaultCacheFile
  {
    if t.cache != "" then t.cache else DefaultCacheFile
  }

  /** A `</title>` after the start of `<title>` starts after all of it. */
  lemma TitleGap(body: string, start: int, end: int)
    requires At(body, start, "<title>") && At(body, end, "</title>") && start < end
    ensures start + 7 <= end
  {
    assert forall k :: start < k < start + 7 ==> body[k] != '<' by {
      forall k | start < k < start + 7
        ensures body[k] != '<'
      {
        AtChars(body, start, "<title>");
        assert body[start + (k - start)] == "<title>"[k - start];
      }
    }
    assert body[end] == '<';
  }

  /** The title in a page: the text between the first `<title>` and the first
      `</title>`, without line breaks and outer white space; None when either
      tag is missing or the first `</title>` comes first. */
  function ExtractTitle(body: string): (r: Option<string>)
    ensures r.None? <==> var start := Index(body, "<title>"); var end := Index(body, "</title>");
                         start == -1 || end == -1 || end <= start
    ensures r.Some? ==> '\n' !in r.value && '\r' !in r.value
    ensures r.Some? ==> r.value == [] || (!IsSpace(r.value[0]) && !IsSpace(r.value[|r.value| - 1]))
  {
    var start := Index(body, "<title>");
    var end := Index(body, "</title>");
    if start == -1 || end == -1 || end <= start then None
    else
      TitleGap(body, start, end);
      var raw := body[start + 7..end];
      Some(TrimSpace(RemoveAll(RemoveAll(raw, '\n'), '\r')))
  }

  /** `fetchTitleFromURL` once the page is fetched: None for a failed request. */
  function FetchTitle(response: Option<string>): (r: Option<string>)
    ensures response.None? ==> r.None?
    ensures response.Some? ==> r == ExtractTitle(response.value)
  {
    match response
    case None => None
    case Some(body) => ExtractTitle(body)
  }

  /** In such a page the first `</title>` is the one right after the title. */
  lemma CloseAfterTitle(t: string, rest: string)
    requires '<' !in t
    ensures Index("<title>" + t + "</title>" + rest, "</title>") == 7 + |t|
  {
    var head := "<title>" + t;
    var body := head + "</title>" + rest;
    AtInfix(head, "</title>", rest);
    assert head[1..] == "title>" + t;
    forall k | 0 <= k < |head|
      ensures !At(body, k, "</title>")
    {
      if k == 0 {
        assert body[1] == head[1] == 't';
        AtDiffers(body, 0, "</title>", 1);
      } else {
        assert body[k] == head[1..][k - 1];
        AtDiffers(body, k, "</title>", 0);
      }
    }
  }

  /** A page that opens with `<title>`, a plain title and `</title>` yields that title. */
  lemma ExtractFromPage(t: string, rest: string)
    requires '<' !in t && '\n' !in t && '\r' !in t
    requires t == [] || (!IsSpace(t[0]) && !IsSpace(t[|t| - 1]))
    ensures ExtractTitle("<title>" + t + "</title>" + rest) == Some(t)
  {
    var body := "<title>" + t + "</title>" + rest;
    AtPrefix("<title>", t);
    AtExtend("<title>" + t, "</title>", 0, "<title>");
    AtExtend("<title>" + t + "</title>", rest, 0, "<title>");
    CloseAfterTitle(t, rest);
    assert body[7..7 + |t|] == t;
    RemoveAbsent(t, '\n');
    RemoveAbsent(t, '\r');
    TrimmedIsTrimSpace(t);
  }

  /** No tag starts inside text without `<`. */
  lemma NoTagIn(s: string, lo: nat, hi: nat, pat: string)
    requires lo <= hi <= |s| && pat != [] && pat[0] == '<'
    requires forall k :: lo <= k < hi ==> s[k] != '<'
    ensures forall k :: lo <= k < hi ==> !At(s, k, pat)
  {
    forall k | lo <= k < hi
      ensures !At(s, k, pat)
    {
      AtDiffers(s, k, pat, 0);
    }
  }

  /** The first `<title>`: after text without `<`, it is the one that follows. */
  lemma OpenAfterPrefix(pre: string, t: string, rest: string)
    requires '<' !in pre
    ensures Index(pre + "<title>" + t + "</title>" + rest, "<title>") == |pre|
  {
    var body := pre + "<title>" + t + "</title>" + rest;
    AtInfix(pre, "<title>", t);
    AtExtend(pre + "<title>" + t, "</title>", |pre|, "<title>");
    AtExtend(pre + "<title>" + t + "</title>", rest, |pre|, "<title>");
    assert forall k :: 0 <= k < |pre| ==> body[k] == pre[k];
    NoTagIn(body, 0, |pre|, "<title>");
  }

  /** The first `</title>`: after a prefix, `<title>` and a title without `<`, it closes that title. */
  lemma CloseAfterPrefix(pre: string, t: string, rest: string)
    requires '<' !in pre && '<' !in t
    ensures Index(pre + "<title>" + t + "</title>" + rest, "</title>") == |pre| + 7 + |t|
  {
    var head := pre + "<title>" + t;
    var body := head + "</title>" + rest;
    var open := |pre|;
    AtInfix(head, "</title>", rest);
    assert forall k :: 0 <= k < |pre| ==> body[k] == pre[k];
    assert forall k :: open + 7 <= k < |head| ==> body[k] == t[k - open - 7];
    assert forall k :: open < k < open + 7 ==> body[k] == "<title>"[k - open];
    NoTagIn(body, 0, open, "</title>");
    NoTagIn(body, open + 1, |head|, "</title>");
    assert body[open + 1] == 't';
    AtDiffers(body, open, "</title>", 1);
  }

  /** The text between the tags of such a page is the title. */
  lemma TitleSlice(pre: string, t: string, rest: string)
    ensures (pre + "<title>" + t + "</title>" + rest)[|pre| + 7..|pre| + 7 + |t|] == t
  {
    var body := pre + "<title>" + t + "</title>" + rest;
    assert forall k :: |pre| + 7 <= k < |pre| + 7 + |t| ==> body[k] == t[k - |pre| - 7];
  }

  /** The title between known tag positions. */
  lemma ExtractBetween(body: string, open: nat, raw: string)
    requires Index(body, "<title>") == open
    requires Index(body, "</title>") == open + 7 + |raw|
    requires body[open + 7..open + 7 + |raw|] == raw
    ensures ExtractTitle(body) == Some(TrimSpace(RemoveAll(RemoveAll(raw, '\n'), '\r')))
  {
  }

  /** Where the tags of such a page are, and the text between them. */
  lemma TagsOfPage(pre: string, t: string, rest: string)
    requires '<' !in pre && '<' !in t
    ensures var body := pre + "<title>" + t + "</title>" + rest;
            Index(body, "<title>") == |pre| && Index(body, "</title>") == |pre| + 7 + |t|
            && body[|pre| + 7..|pre| + 7 + |t|] == t
  {
    OpenAfterPrefix(pre, t, rest);
    CloseAfterPrefix(pre, t, rest);
    TitleSlice(pre, t, rest);
  }

  /** Any page whose first `<title>` follows text without `<` and holds a title
      without `<` yields that title with its line breaks removed and trimmed. */
  lemma ExtractAfterPrefix(pre: string, t: string, rest: string)
    requires '<' !in pre && '<' !in t
    ensures ExtractTitle(pre + "<title>" + t + "</title>" + rest)
            == Some(TrimSpace(RemoveAll(RemoveAll(t, '\n'), '\r')))
  {
    TagsOfPage(pre, t, rest);
    ExtractBetween(pre + "<title>" + t + "</title>" + rest, |pre|, t);
  }

  /** A page that starts with a closing tag has no title. */
  lemma ClosingFirstIsNoTitle(rest: string)
    ensures ExtractTitle("</title>" + rest).None?
  {
    AtPrefix("</title>", rest);
  }

  /** The map `loadCache` builds from the lines of the cache file: each line is
      split at its first `:`, lines without one are skipped, later lines win. */
  function Loaded(m: map<string, string>, lines: seq<string>): map<string, string>
    decreases |lines|
  {
    if lines == [] then m
    else
      var before := Loaded(m, lines[..|lines| - 1]);
      match Cut(lines[|lines| - 1], ':')
      case None => before
      case Some((k, v)) => before[k := v]
  }

  /** The key and value a cache line stores, if any. */
  predicate Stores(line: string, k: string, v: string) {
    Cut(line, ':') == Some((k, v))
  }

  /** A key keeps the value of the last line that stores it. */
  lemma {:induction false} LoadedLast(m: map<string, string>, lines: seq<string>, j: nat, k: string, v: string)
    requires j < |lines| && Stores(lines[j], k, v)
    requires forall i, w :: j < i < |lines| ==> !Stores(lines[i], k, w)
    ensures k in Loaded(m, lines) && Loaded(m, lines)[k] == v
    decreases |lines|
  {
    var last := |lines| - 1;
    var init := lines[..last];
    if j < last {
      assert forall i, w :: j < i < |init| ==> !Stores(init[i], k, w) by {
        forall i, w | j < i < |init|
          ensures !Stores(init[i], k, w)
        {
          assert init[i] == lines[i];
        }
      }
      LoadedLast(m, init, j, k, v);
      match Cut(lines[last], ':')
      case None =>
      case Some((k', v')) =>
        assert !Stores(lines[last], k, v');
    }
  }

  /** A key stored by no line keeps its value from the map loaded into. */
  lemma {:induction false} LoadedOther(m: map<string, string>, lines: seq<string>, k: string)
    requires forall i, w :: 0 <= i < |lines| ==> !Stores(lines[i], k, w)
    ensures k in Loaded(m, lines) <==> k in m
    ensures k in m ==> Loaded(m, lines)[k] == m[k]
    decreases |lines|
  {
    if lines != [] {
      var last := |lines| - 1;
      var init := lines[..last];
      assert forall i, w :: 0 <= i < |init| ==> !Stores(init[i], k, w) by {
        forall i, w | 0 <= i < |init|
          ensures !Stores(init[i], k, w)
        {
          assert init[i] == lines[i];
        }
      }
      LoadedOther(m, init, k);
      match Cut(lines[last], ':')
      case None =>
      case Some((k', v')) =>
        assert !Stores(lines[last], k, v');
    }
  }

  /** The line `saveCache` appends reloads to the saved title when the URL has no `:`. */
  lemma SaveLoadRoundTrip(m: map<string, string>, lines: seq<string>, url: string, title: string)
    requires ':' !in url
    ensures Loaded(m, lines + [url + ":" + title]) == Loaded(m, lines)[url := title]
  {
    var all := lines + [url + ":" + title];
    assert all[..|all| - 1] == lines;
    CutAt(url, title, ':');
  }

  /** A URL with a scheme reloads under the scheme: the key is the text before its first `:`. */
  lemma SchemeUrlReloadsAsScheme(m: map<string, string>, lines: seq<string>, host: string, title: string)
    requires ':' !in host
    ensures Loaded(m, lines + ["https:" + host + ":" + title]) == Loaded(m, lines)["https" := host + ":" + title]
  {
    var line := "https:" + host + ":" + title;
    var all := lines + [line];
    assert all[..|all| - 1] == lines;
    assert line == "https" + [':'] + (host + ":" + title);
    CutAt("https", host + ":" + title, ':');
  }

  /** How opening the cache file ends. */
  datatype Open = Opened | NotExist | OpenFailed

  /** The title cache and the lines of its file. */
  class TitleCache {
    var cache: map<string, string>
    var file: seq<string>

    constructor (file: seq<string>)
      ensures cache == map[] && this.file == file
    {
      cache := map[];
      this.file := file;
    }

    /** `loadCache`: read every line of the file into the map. */
    method LoadCache(open: Open) returns (err: bool)
      modifies this
      ensures err <==> open == OpenFailed
      ensures file == old(file)
      ensures cache == if open == Opened then Loaded(old(cache), file) else old(cache)
    {
      if open == NotExist {
        return false;
      }
      if open == OpenFailed {
        return true;
      }
      var i := 0;
      while i < |file|
        invariant 0 <= i <= |file| && file == old(file)
        invariant cache == Loaded(old(cache), file[..i])
        decreases |file| - i
      {
        assert file[..i + 1][..i] == file[..i];
        var parts := Cut(file[i], ':');
        if parts.Some? {
          cache := cache[parts.value.0 := parts.value.1];
        }
        i := i + 1;
      }
      assert file[..i] == file;
      return false;
    }

    /** `saveCache`: a known URL changes nothing; otherwise append one line and
        record the title only when the write succeeds. */
    method SaveCache(url: string, title: string, writeOk: bool) returns (err: bool)
      modifies this
      ensures url in old(cache) ==> !err && cache == old(cache) && file == old(file)
      ensures url !in old(cache) ==> (err <==> !writeOk)
      ensures url !in old(cache) && writeOk ==>
                cache == old(cache)[url := title] && file == old(file) + [url + ":" + title]
      ensures url !in old(cache) && !writeOk ==> cache == old(cache) && file == old(file)
      ensures forall k :: k in old(cache) ==> k in cache && cache[k] == old(cache)[k]
    {
      if url in cache {
        return false;
      }
      if !writeOk {
        return true;
      }
      file := file + [url + ":" + title];
      cache := cache[url := title];
      return false;
    }

    /** `collectTitle`: the cached title, or the fetched one, saved when new.
        `fetched` says whether the page was requested. */
    method CollectTitle(url: string, response: Option<string>, writeOk: bool) returns (title: string, err: bool, fetched: bool)
      modifies this
      ensures fetched <==> url !in old(cache)
      ensures url in old(cache) ==> title == old(cache)[url] && !err && cache == old(cache) && file == old(file)
      ensures url !in old(cache) && FetchTitle(response).None? ==>
                title == "" && err && cache == old(cache) && file == old(file)
      ensures url !in old(cache) && FetchTitle(response).Some? ==>
                title == FetchTitle(response).value && (err <==> !writeOk)
                && (writeOk ==> cache == old(cache)[url := title] && file == old(file) + [url + ":" + title])
                && (!writeOk ==> cache == old(cache) && file == old(file))
    {
      if url in cache {
        return cache[url], false, false;
      }
      var page := FetchTitle(response);
      if page.None? {
        return "", true, true;
      }
      fetched := true;
      title := page.value;
      err := SaveCache(url, title, writeOk);
    }
  }
}
