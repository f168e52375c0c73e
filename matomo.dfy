/**
 * Sending one parsed hit to Matomo: the user-agent allow-list, the form the
 * hit carries, the error-status channel of the agent plugin and the tracker
 * post. An HTTP post is recorded as a `Post` event; whether the plugin post
 * fails is an input.
 */
module Matomo {
  import opened Wrappers
  import opened Strings
  import opened Configuration
  import opened LogParser

  /** Path, relative to the Matomo URL, of the agent plugin's API method. */
  const AgentEndpoint: string := "index.php?module=API&method=Agent.postLogData"

  /** Path, relative to the Matomo URL, of the tracking endpoint. */
  const TrackerEndpoint: string := "matomo.php"

  /** The URL with a `/` appended unless it already ends with one. */
  function WithSlash(u: string): (r: string)
    ensures HasSuffix(r, "/")
    ensures r == u || r == u + "/"
    ensures HasSuffix(u, "/") ==> r == u
  {
    if HasSuffix(u, "/") then u else u + "/"
  }

  /** The Matomo section as `InitializeAgentURL` leaves it. */
  function InitAgent(m: MatomoSection): (r: MatomoSection)
    ensures HasSuffix(r.url, "/") && r.agentUrl == r.url + AgentEndpoint
    ensures r.url == m.url || r.url == m.url + "/"
    ensures r.(url := m.url, agentUrl := m.agentUrl) == m
  {
    var u := WithSlash(m.url);
    m.(url := u, agentUrl := u + AgentEndpoint)
  }

  /** Initialising twice is initialising once. */
  lemma InitAgentIdempotent(m: MatomoSection)
    ensures InitAgent(InitAgent(m)) == InitAgent(m)
  {
    assert WithSlash(InitAgent(m).url) == InitAgent(m).url;
  }

  /** `InitializeAgentURL`: slash-terminate the URL and derive the agent URL from it. */
  method InitializeAgentUrl(config: Config)
    modifies config
    ensures config.matomo == InitAgent(old(config.matomo))
    ensures config.log == old(config.log) && config.agent == old(config.agent)
    ensures config.title == old(config.title) && config.batch == old(config.batch)
  {
    if !HasSuffix(config.matomo.url, "/") {
      config.matomo := config.matomo.(url := config.matomo.url + "/");
    }
    config.matomo := config.matomo.(agentUrl := config.matomo.url + AgentEndpoint);
  }

  /** The statuses reported on the plugin's error channel. */
  const ErrorStatuses: set<string> := {
    "400", "401", "402", "403", "404", "405", "406", "407", "408", "409",
    "410", "411", "412", "413", "414", "415", "416", "417", "418",
    "421", "425", "426", "428", "429", "431", "451",
    "500", "501", "502", "503", "504", "505", "506", "510", "511"
  }

  /** Every listed status is a three-character 4xx or 5xx code, but not every such code is listed. */
  lemma ErrorStatusesAreSomeErrors()
    ensures forall s :: s in ErrorStatuses ==> |s| == 3 && (s[0] == '4' || s[0] == '5')
    ensures "404" in ErrorStatuses && "500" in ErrorStatuses
    ensures "422" !in ErrorStatuses && "507" !in ErrorStatuses && "200" !in ErrorStatuses
  {
  }

  /** One `key=value` entry of a `url.Values` form. */
  datatype Field = Field(key: string, value: string)

  /** A `url.Values` form: its fields in the order they were added. */
  type Form = seq<Field>

  function Keys(f: Form): (ks: seq<string>)
    ensures |ks| == |f| && forall i :: 0 <= i < |f| ==> ks[i] == f[i].key
  {
    seq(|f|, i requires 0 <= i < |f| => f[i].key)
  }

  /** Byte-wise order of strings, which `url.Values.Encode` sorts its keys by. */
  predicate Below(a: string, b: string) {
    if a == [] then b != []
    else b != [] && (a[0] < b[0] || (a[0] == b[0] && Below(a[1..], b[1..])))
  }

  lemma {:induction false} BelowAsymmetric(a: string, b: string)
    requires Below(a, b)
    ensures !Below(b, a)
    decreases |a|
  {
    if a != [] && a[0] == b[0] {
      BelowAsymmetric(a[1..], b[1..]);
    }
  }

  lemma {:induction false} BelowTransitive(a: string, b: string, c: string)
    requires Below(a, b) && Below(b, c)
    ensures Below(a, c)
    decreases |a|
  {
    if a != [] && a[0] == b[0] && b[0] == c[0] {
      BelowTransitive(a[1..], b[1..], c[1..]);
    }
  }

  /** Strictly increasing keys. */
  predicate Increasing(ks: seq<string>) {
    forall i, j :: 0 <= i < j < |ks| ==> Below(ks[i], ks[j])
  }

  /** Keys that each sort below the next one are increasing. */
  lemma {:induction false} ChainIncreasing(ks: seq<string>)
    requires forall i :: 0 <= i < |ks| - 1 ==> Below(ks[i], ks[i + 1])
    ensures Increasing(ks)
    decreases |ks|
  {
    if |ks| > 1 {
      var init := ks[..|ks| - 1];
      assert forall i :: 0 <= i < |init| - 1 ==> Below(init[i], init[i + 1]) by {
        forall i | 0 <= i < |init| - 1
          ensures Below(init[i], init[i + 1])
        {
          assert init[i] == ks[i] && init[i + 1] == ks[i + 1];
        }
      }
      ChainIncreasing(init);
      forall i, j | 0 <= i < j < |ks|
        ensures Below(ks[i], ks[j])
      {
        if j < |ks| - 1 {
          assert Below(init[i], init[j]);
        } else if i < j - 1 {
          assert Below(init[i], init[j - 1]);
          BelowTransitive(ks[i], ks[j - 1], ks[j]);
        }
      }
    }
  }

  /** No key sorts below the key of an earlier field. */
  predicate KeySorted(f: Form) {
    forall i, j :: 0 <= i < j < |f| ==> !Below(f[j].key, f[i].key)
  }

  /** `x` placed before the first field whose key sorts above its own. */
  function InsertField(s: Form, x: Field): (r: Form)
    ensures multiset(r) == multiset(s) + multiset{x} && |r| == |s| + 1
    decreases |s|
  {
    if s == [] then [x]
    else if Below(x.key, s[0].key) then [x] + s
    else
      assert s == [s[0]] + s[1..];
      [s[0]] + InsertField(s[1..], x)
  }

  /** The fields stably sorted by key: the order in which `url.Values.Encode`
      writes them (sorted keys, the values of one key in the order added). */
  function SortByKey(f: Form): (r: Form)
    ensures multiset(r) == multiset(f) && |r| == |f|
    decreases |f|
  {
    if f == [] then []
    else
      assert f == f[..|f| - 1] + [f[|f| - 1]];
      InsertField(SortByKey(f[..|f| - 1]), f[|f| - 1])
  }

  /** A field whose key sorts below the first key of a sorted form can lead it. */
  lemma FrontSorted(x: Field, s: Form)
    requires KeySorted(s) && s != [] && Below(x.key, s[0].key)
    ensures KeySorted([x] + s)
  {
    var r := [x] + s;
    forall j | 1 <= j < |r|
      ensures !Below(r[j].key, x.key)
    {
      if j == 1 {
        BelowAsymmetric(x.key, s[0].key);
      } else if Below(s[j - 1].key, x.key) {
        BelowTransitive(s[j - 1].key, x.key, s[0].key);
      }
    }
    assert forall i, j :: 1 <= i < j < |r| ==> r[i] == s[i - 1] && r[j] == s[j - 1];
  }

  /** A field whose key no later key sorts below can lead a sorted form. */
  lemma ConsSorted(e: Field, t: Form)
    requires KeySorted(t) && forall j :: 0 <= j < |t| ==> !Below(t[j].key, e.key)
    ensures KeySorted([e] + t)
  {
    var r := [e] + t;
    assert forall i, j :: 1 <= i < j < |r| ==> r[i] == t[i - 1] && r[j] == t[j - 1];
  }

  /** Every field after an insertion is the inserted one or was there before. */
  lemma InsertFieldFrom(s: Form, x: Field)
    ensures forall j :: 0 <= j < |InsertField(s, x)| ==>
              InsertField(s, x)[j] == x || exists k :: 0 <= k < |s| && s[k] == InsertField(s, x)[j]
  {
    var r := InsertField(s, x);
    forall j | 0 <= j < |r|
      ensures r[j] == x || exists k :: 0 <= k < |s| && s[k] == r[j]
    {
      assert r[j] in multiset(r);
      if r[j] != x {
        assert r[j] in multiset(s);
        assert r[j] in s;
      }
    }
  }

  /** Inserting into a sorted form keeps it sorted. */
  lemma {:induction false} InsertFieldSorted(s: Form, x: Field)
    requires KeySorted(s)
    ensures KeySorted(InsertField(s, x))
    decreases |s|
  {
    if s != [] {
      if Below(x.key, s[0].key) {
        FrontSorted(x, s);
      } else {
        var tail := InsertField(s[1..], x);
        assert KeySorted(s[1..]) by {
          assert forall i, j :: 0 <= i < j < |s| - 1 ==> s[1..][i] == s[i + 1] && s[1..][j] == s[j + 1];
        }
        InsertFieldSorted(s[1..], x);
        InsertFieldFrom(s[1..], x);
        forall j | 0 <= j < |tail|
          ensures !Below(tail[j].key, s[0].key)
        {
          if tail[j] != x {
            var k :| 0 <= k < |s| - 1 && s[1..][k] == tail[j];
            assert s[k + 1] == tail[j];
          }
        }
        ConsSorted(s[0], tail);
      }
    }
  }

  /** The order `Encode` writes is sorted by key and holds the same fields. */
  lemma {:induction false} SortByKeySorted(f: Form)
    ensures KeySorted(SortByKey(f)) && multiset(SortByKey(f)) == multiset(f)
    decreases |f|
  {
    if f != [] {
      SortByKeySorted(f[..|f| - 1]);
      InsertFieldSorted(SortByKey(f[..|f| - 1]), f[|f| - 1]);
    }
  }

  /** A field whose key sorts below none of the others goes last. */
  lemma {:induction false} InsertFieldLast(s: Form, x: Field)
    requires forall i :: 0 <= i < |s| ==> !Below(x.key, s[i].key)
    ensures InsertField(s, x) == s + [x]
    decreases |s|
  {
    if s != [] {
      assert !Below(x.key, s[0].key);
      InsertFieldLast(s[1..], x);
      assert s == [s[0]] + s[1..];
    }
  }

  /** Strictly increasing keys. */
  predicate KeysIncrease(f: Form) {
    forall i, j :: 0 <= i < j < |f| ==> Below(f[i].key, f[j].key)
  }

  lemma KeysOfIncrease(f: Form)
    requires Increasing(Keys(f))
    ensures KeysIncrease(f)
  {
    forall i, j | 0 <= i < j < |f|
      ensures Below(f[i].key, f[j].key)
    {
      assert Below(Keys(f)[i], Keys(f)[j]);
    }
  }

  /** A form whose keys already increase is written in its own order. */
  lemma {:induction false} IncreasingIsSorted(f: Form)
    requires KeysIncrease(f)
    ensures SortByKey(f) == f
    decreases |f|
  {
    if f != [] {
      var init := f[..|f| - 1];
      var x := f[|f| - 1];
      assert KeysIncrease(init) by {
        assert forall i, j :: 0 <= i < j < |init| ==> init[i] == f[i] && init[j] == f[j];
      }
      IncreasingIsSorted(init);
      forall i | 0 <= i < |init|
        ensures !Below(x.key, init[i].key)
      {
        assert init[i] == f[i];
        BelowAsymmetric(init[i].key, x.key);
      }
      InsertFieldLast(init, x);
      assert init + [x] == f;
    }
  }

  /** The keys of a tracking hit, in sorted order. */
  const HitKeys: seq<string> := ["cip", "idsite", "rec", "status_code", "token_auth", "ua", "url", "urlref"]

  lemma HitKeysSorted()
    ensures forall i :: 0 <= i < |HitKeys| - 1 ==> Below(HitKeys[i], HitKeys[i + 1])
  {
    assert Below("cip", "idsite") && Below("idsite", "rec") && Below("rec", "status_code");
    assert Below("status_code", "token_auth") && Below("token_auth", "ua");
    assert Below("ua", "url") && Below("url", "urlref");
  }

  /** The form data of one hit. */
  function HitForm(m: MatomoSection, d: LogData): Form {
    [ Field("cip", d.ip), Field("idsite", m.siteId), Field("rec", "1"), Field("status_code", d.status),
      Field("token_auth", m.tokenAuth), Field("ua", d.userAgent), Field("url", m.webSite + d.url),
      Field("urlref", d.referrer) ]
  }

  /** A hit carries exactly the eight keys, in sorted order, with these values. */
  lemma HitFormFields(m: MatomoSection, d: LogData)
    ensures Keys(HitForm(m, d)) == HitKeys
    ensures Field("idsite", m.siteId) in HitForm(m, d) && Field("rec", "1") in HitForm(m, d)
    ensures Field("cip", d.ip) in HitForm(m, d) && Field("ua", d.userAgent) in HitForm(m, d)
    ensures Field("url", m.webSite + d.url) in HitForm(m, d) && Field("urlref", d.referrer) in HitForm(m, d)
    ensures Field("token_auth", m.tokenAuth) in HitForm(m, d) && Field("status_code", d.status) in HitForm(m, d)
  {
    var f := HitForm(m, d);
    assert f[0] == Field("cip", d.ip) && f[1] == Field("idsite", m.siteId);
  }

  function Pair(f: Field): string {
    f.key + "=" + f.value
  }

  function Pairs(form: Form): (ps: seq<string>)
    ensures |ps| == |form| && forall i :: 0 <= i < |form| ==> ps[i] == Pair(form[i])
  {
    seq(|form|, i requires 0 <= i < |form| => Pair(form[i]))
  }

  /** `url.Values.Encode` without percent-escaping: the pairs, sorted by key, joined by `&`. */
  function Encode(form: Form): string {
    Join(Pairs(SortByKey(form)), '&')
  }

  /** Every field the sorted order writes is a field of the form. */
  lemma SortedFieldsFrom(form: Form)
    ensures forall i :: 0 <= i < |SortByKey(form)| ==> SortByKey(form)[i] in form
  {
    var sorted := SortByKey(form);
    forall i | 0 <= i < |sorted|
      ensures sorted[i] in form
    {
      assert sorted[i] in multiset(sorted);
    }
  }

  /** A pair holds `&` only when its key or its value does. */
  lemma PairWithoutAmpersand(f: Field)
    requires '&' !in f.key && '&' !in f.value
    ensures '&' !in Pair(f)
  {
  }

  /** Without `&` inside keys and values, the encoded form splits back into its sorted pairs. */
  lemma EncodeSplits(form: Form)
    requires |form| >= 1
    requires forall i :: 0 <= i < |form| ==> '&' !in form[i].key && '&' !in form[i].value
    ensures Split(Encode(form), '&') == Pairs(SortByKey(form))
  {
    var sorted := SortByKey(form);
    var ps := Pairs(sorted);
    SortedFieldsFrom(form);
    forall i | 0 <= i < |ps|
      ensures '&' !in ps[i]
    {
      var k :| 0 <= k < |form| && form[k] == sorted[i];
      PairWithoutAmpersand(sorted[i]);
    }
    SplitJoin(ps, '&');
  }

  /** The order in which the fields were added does not matter: keys come out sorted. */
  lemma EncodeSortsKeys()
    ensures Encode([Field("b", "1"), Field("a", "2")]) == "a=2&b=1"
  {
    var f := [Field("b", "1"), Field("a", "2")];
    assert Below("a", "b");
    assert SortByKey(f[..1]) == [Field("b", "1")];
    assert SortByKey(f) == [Field("a", "2"), Field("b", "1")];
    assert Pair(Field("a", "2")) == "a=2" && Pair(Field("b", "1")) == "b=1";
    assert Pairs(SortByKey(f)) == ["a=2", "b=1"];
  }

  /** A hit's form is already in key order, so it is encoded field by field. */
  lemma HitEncodesInOrder(m: MatomoSection, d: LogData)
    ensures Encode(HitForm(m, d)) == Join(Pairs(HitForm(m, d)), '&')
  {
    HitFormFields(m, d);
    HitKeysSorted();
    ChainIncreasing(HitKeys);
    KeysOfIncrease(HitForm(m, d));
    IncreasingIsSorted(HitForm(m, d));
  }

  /** One recorded HTTP form post. */
  datatype Post = Post(endpoint: string, form: Form)

  /** `contains`: some allow-list entry is a substring of the user agent (`Strings.AnyContained`). */
  predicate Tracked(userAgents: seq<string>, ua: string) {
    |userAgents| == 0 || AnyContained(userAgents, ua)
  }

  /** The hit goes to the plugin's error channel as well. */
  predicate ReportsError(m: MatomoSection, d: LogData) {
    m.plugin && d.status in ErrorStatuses
  }

  /** The tracker endpoint for a Matomo section. */
  function TrackerUrl(m: MatomoSection): (u: string)
    ensures HasSuffix(u, "/" + TrackerEndpoint)
  {
    var w := WithSlash(m.url);
    assert w == w[..|w| - 1] + "/";
    assert w + TrackerEndpoint == w[..|w| - 1] + ("/" + TrackerEndpoint);
    SuffixOfAppend(w[..|w| - 1], "/" + TrackerEndpoint);
    w + TrackerEndpoint
  }

  /** The posts `sendToMatomo` makes for one hit, in order. */
  function Hit(m: MatomoSection, userAgents: seq<string>, d: LogData, agentPostFails: bool): (posts: seq<Post>)
    ensures posts == [] <==> !Tracked(userAgents, d.userAgent)
    ensures |posts| <= 2 && forall i :: 0 <= i < |posts| ==> posts[i].form == HitForm(InitAgent(m), d)
    ensures posts != [] && ReportsError(m, d) ==> posts[0].endpoint == InitAgent(m).agentUrl
    ensures !ReportsError(m, d) ==> forall i :: 0 <= i < |posts| ==> posts[i].endpoint == TrackerUrl(m)
    ensures posts != [] && !(ReportsError(m, d) && agentPostFails) ==> posts[|posts| - 1].endpoint == TrackerUrl(m)
    ensures posts != [] && ReportsError(m, d) && agentPostFails ==> |posts| == 1
    ensures Tracked(userAgents, d.userAgent) ==> |posts| == if ReportsError(m, d) && !agentPostFails then 2 else 1
  {
    var m' := InitAgent(m);
    AgentIsNotTracker(m);
    if !Tracked(userAgents, d.userAgent) then []
    else
      var form := HitForm(m', d);
      var track := Post(WithSlash(m'.url) + TrackerEndpoint, form);
      if !(m.plugin && d.status in ErrorStatuses) then [track]
      else if agentPostFails then [Post(m'.agentUrl, form)]
      else [Post(m'.agentUrl, form), track]
  }

  /** The plugin's endpoint and the tracker endpoint are different URLs. */
  lemma AgentIsNotTracker(m: MatomoSection)
    ensures InitAgent(m).agentUrl != TrackerUrl(m)
    ensures WithSlash(InitAgent(m).url) + TrackerEndpoint == TrackerUrl(m)
  {
    var a := InitAgent(m).agentUrl;
    var t := TrackerUrl(m);
    assert a[|a| - 1] == 'a';
    assert t[|t| - 1] == 'p';
  }

  /** `sendToMatomo`: initialise the agent URL, apply the allow-list, then post. */
  method SendToMatomo(d: LogData, config: Config, agentPostFails: bool) returns (posts: seq<Post>)
    modifies config
    ensures posts == Hit(old(config.matomo), old(config.log.userAgents), d, agentPostFails)
    ensures config.matomo == InitAgent(old(config.matomo))
    ensures config.log == old(config.log) && config.agent == old(config.agent)
    ensures config.title == old(config.title) && config.batch == old(config.batch)
  {
    ghost var m := config.matomo;
    InitializeAgentUrl(config);
    if |config.log.userAgents| > 0 && !AnyContained(config.log.userAgents, d.userAgent) {
      return [];
    }
    var form := HitForm(config.matomo, d);
    posts := [];
    if config.matomo.plugin {
      if d.status in ErrorStatuses {
        posts := posts + [Post(config.matomo.agentUrl, form)];
        if agentPostFails {
          return;
        }
      }
    }
    config.matomo := config.matomo.(url := WithSlash(config.matomo.url));
    posts := posts + [Post(config.matomo.url + TrackerEndpoint, form)];
  }

  /** Statuses off the list, such as 422 and 507, reach only the tracker even with the plugin on. */
  lemma UnlistedStatusOnlyTracked(m: MatomoSection, userAgents: seq<string>, d: LogData, agentPostFails: bool)
    requires Tracked(userAgents, d.userAgent) && (d.status == "422" || d.status == "507")
    ensures Hit(m, userAgents, d, agentPostFails) == [Post(TrackerUrl(m), HitForm(InitAgent(m), d))]
  {
    ErrorStatusesAreSomeErrors();
    var posts := Hit(m, userAgents, d, agentPostFails);
    assert |posts| == 1;
  }
}
