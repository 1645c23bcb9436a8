/**
 * The background worker's tab choice for opening a gexbot page: focus a tab
 * already showing the URL, else focus and navigate a tab showing the same
 * page up to the first `#`, else open a new tab.
 */
module TabSwitch {
  import opened Wrappers

  /** An open browser tab; its URL may be unknown. */
  datatype Tab = Tab(id: int, windowId: int, url: Option<string>)

  /** What the worker does with the browser. */
  datatype Action =
    | Focus(tabId: int, windowId: int)
    | FocusAndNavigate(tabId: int, windowId: int, url: string)
    | Create(url: string)

  /** The action and the `switched` flag of the reply. */
  datatype Choice = Choice(action: Action, switched: bool)

  /** `s.split('#')[0]`: `s` up to, not including, its first `#`. */
  function BeforeHash(s: string): (r: string)
    ensures r <= s && '#' !in r
    ensures |r| < |s| ==> s[|r|] == '#'
    ensures '#' !in s ==> r == s
  {
    if s == [] || s[0] == '#' then []
    else [s[0]] + BeforeHash(s[1..])
  }

  /** `tabs.find(tab => tab.url === url)`, as an index (-1 when none). */
  function FindExact(tabs: seq<Tab>, url: string): (i: int)
    ensures -1 <= i < |tabs|
    ensures i == -1 <==> forall k :: 0 <= k < |tabs| ==> tabs[k].url != Some(url)
    ensures i >= 0 ==> tabs[i].url == Some(url) && forall k :: 0 <= k < i ==> tabs[k].url != Some(url)
  {
    if tabs == [] then -1
    else if tabs[0].url == Some(url) then 0
    else
      var j := FindExact(tabs[1..], url);
      if j == -1 then -1 else j + 1
  }

  /** The partial-match test: the tab has a non-empty URL with the target's base. */
  predicate SameBase(tab: Tab, url: string) {
    tab.url.Some? && tab.url.value != "" && BeforeHash(tab.url.value) == BeforeHash(url)
  }

  /** `tabs.find(...)` with the partial-match test, as an index (-1 when none). */
  function FindBase(tabs: seq<Tab>, url: string): (i: int)
    ensures -1 <= i < |tabs|
    ensures i == -1 <==> forall k :: 0 <= k < |tabs| ==> !SameBase(tabs[k], url)
    ensures i >= 0 ==> SameBase(tabs[i], url) && forall k :: 0 <= k < i ==> !SameBase(tabs[k], url)
  {
    if tabs == [] then -1
    else if SameBase(tabs[0], url) then 0
    else
      var j := FindBase(tabs[1..], url);
      if j == -1 then -1 else j + 1
  }

  /** `openOrSwitchTab`: exact match, then base match, then a new tab. */
  function OpenOrSwitchTab(tabs: seq<Tab>, url: string): (c: Choice)
    ensures c.switched <==> !c.action.Create?
  {
    var e := FindExact(tabs, url);
    if e != -1 then Choice(Focus(tabs[e].id, tabs[e].windowId), true)
    else
      var b := FindBase(tabs, url);
      if b != -1 then Choice(FocusAndNavigate(tabs[b].id, tabs[b].windowId, url), true)
      else Choice(Create(url), false)
  }

  /** A tab already showing the URL wins: the first such tab is focused, in place. */
  lemma ExactMatchFirst(tabs: seq<Tab>, url: string, i: nat)
    requires i < |tabs| && tabs[i].url == Some(url)
    ensures exists j :: 0 <= j <= i && tabs[j].url == Some(url) &&
              OpenOrSwitchTab(tabs, url) == Choice(Focus(tabs[j].id, tabs[j].windowId), true)
  {
    var j := FindExact(tabs, url);
    assert 0 <= j <= i;
  }

  /**
   * Without an exact match, the first tab whose URL has the target's base is
   * focused and navigated to the full URL; without either, a new tab opens
   * and the reply says nothing was switched.
   */
  lemma FallbackChoice(tabs: seq<Tab>, url: string)
    requires forall k :: 0 <= k < |tabs| ==> tabs[k].url != Some(url)
    ensures (exists k :: 0 <= k < |tabs| && SameBase(tabs[k], url)) ==>
              exists j :: 0 <= j < |tabs| && SameBase(tabs[j], url) &&
                (forall k :: 0 <= k < j ==> !SameBase(tabs[k], url)) &&
                OpenOrSwitchTab(tabs, url) == Choice(FocusAndNavigate(tabs[j].id, tabs[j].windowId, url), true)
    ensures (forall k :: 0 <= k < |tabs| ==> !SameBase(tabs[k], url)) <==>
              OpenOrSwitchTab(tabs, url) == Choice(Create(url), false)
  {
    var b := FindBase(tabs, url);
    if b != -1 {
      assert SameBase(tabs[b], url);
    }
  }

  /** The tabs with a known, non-empty URL, in order. */
  function KnownUrls(tabs: seq<Tab>): (r: seq<Tab>)
    ensures |r| <= |tabs|
    ensures forall k :: 0 <= k < |r| ==> r[k].url.Some? && r[k].url.value != ""
  {
    if tabs == [] then []
    else if tabs[0].url.Some? && tabs[0].url.value != "" then [tabs[0]] + KnownUrls(tabs[1..])
    else KnownUrls(tabs[1..])
  }

  /** Exactly the tabs with a usable URL are kept. */
  lemma {:induction false} KnownUrlsMembers(tabs: seq<Tab>)
    ensures forall t :: t in KnownUrls(tabs) <==> t in tabs && t.url.Some? && t.url.value != ""
  {
    if tabs != [] {
      KnownUrlsMembers(tabs[1..]);
      assert tabs == [tabs[0]] + tabs[1..];
    }
  }

  /** The exact search finds the same tab whether or not the tabs without a usable URL are listed. */
  lemma {:induction false} ExactIgnoresUnknownUrls(tabs: seq<Tab>, url: string)
    requires url != ""
    ensures var e, e' := FindExact(tabs, url), FindExact(KnownUrls(tabs), url);
            (e == -1 <==> e' == -1) && (e != -1 ==> tabs[e] == KnownUrls(tabs)[e'])
  {
    if tabs != [] {
      ExactIgnoresUnknownUrls(tabs[1..], url);
      var known, rest := KnownUrls(tabs), KnownUrls(tabs[1..]);
      if tabs[0].url.Some? && tabs[0].url.value != "" {
        assert known == [tabs[0]] + rest;
        assert known[0] == tabs[0] && known[1..] == rest;
        if tabs[0].url != Some(url) {
          var j, j' := FindExact(tabs[1..], url), FindExact(rest, url);
          assert FindExact(tabs, url) == if j == -1 then -1 else j + 1;
          assert FindExact(known, url) == if j' == -1 then -1 else j' + 1;
        }
      } else {
        assert known == rest;
        assert tabs[0].url != Some(url);
        assert FindExact(tabs, url) == (var j := FindExact(tabs[1..], url); if j == -1 then -1 else j + 1);
      }
    }
  }

  /** The base search finds the same tab whether or not the tabs without a usable URL are listed. */
  lemma {:induction false} BaseIgnoresUnknownUrls(tabs: seq<Tab>, url: string)
    ensures var b, b' := FindBase(tabs, url), FindBase(KnownUrls(tabs), url);
            (b == -1 <==> b' == -1) && (b != -1 ==> tabs[b] == KnownUrls(tabs)[b'])
  {
    if tabs != [] {
      BaseIgnoresUnknownUrls(tabs[1..], url);
      var known, rest := KnownUrls(tabs), KnownUrls(tabs[1..]);
      if tabs[0].url.Some? && tabs[0].url.value != "" {
        assert known == [tabs[0]] + rest;
        assert known[0] == tabs[0] && known[1..] == rest;
        if !SameBase(tabs[0], url) {
          var j, j' := FindBase(tabs[1..], url), FindBase(rest, url);
          assert FindBase(tabs, url) == if j == -1 then -1 else j + 1;
          assert FindBase(known, url) == if j' == -1 then -1 else j' + 1;
        }
      } else {
        assert known == rest;
        assert !SameBase(tabs[0], url);
        assert FindBase(tabs, url) == (var j := FindBase(tabs[1..], url); if j == -1 then -1 else j + 1);
      }
    }
  }

  /**
   * Tabs whose URL is missing or empty never take part: the choice is the
   * same as over the tabs with a usable URL.
   */
  lemma MissingUrlsNeverMatch(tabs: seq<Tab>, url: string)
    requires url != ""
    ensures OpenOrSwitchTab(tabs, url) == OpenOrSwitchTab(KnownUrls(tabs), url)
  {
    ExactIgnoresUnknownUrls(tabs, url);
    BaseIgnoresUnknownUrls(tabs, url);
  }

  /**
   * For a URL without `#`, a base match is a tab showing exactly that URL or
   * that URL followed by a fragment.
   */
  lemma NoHashBaseMatch(tab: Tab, url: string)
    requires '#' !in url && SameBase(tab, url)
    ensures tab.url.value == url || url + "#" <= tab.url.value
  {
    var t := tab.url.value;
    assert BeforeHash(t) == url;
    if |url| < |t| {
      assert t[..|url| + 1] == url + "#";
    }
  }
}
