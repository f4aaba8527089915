/** The functions of si507_waiver.py that obtain pages through the cache:
    `build_state_url_dict`, `get_sites_for_state` and `get_nearby_places`.
    HTML parsing is outside the model: what BeautifulSoup extracts from a
    page is given as a function of the page's body. */
module Retrieval {
  import opened Wrappers
  import opened Text
  import opened Sites
  import opened Caching

  const BaseUrl := "https://www.nps.gov"

  /** A link of the state drop-down menu: its text and its href. */
  datatype Anchor = Anchor(text: string, href: string)

  /** The dictionary key of a state link: its text, stripped and
      lower-cased. It is no longer than the text, and lower-casing it again
      leaves it as it is, so the menu's lower-cased input can match it. */
  function StateKey(a: Anchor): (k: string)
    ensures |k| <= |a.text|
    ensures Lower(k) == k
  {
    LowerIdempotent(Strip(a.text));
    Lower(Strip(a.text))
  }

  /** The state dictionary built from the links in order, so that a later
      link with the same key replaces an earlier one. It has at most one
      entry per link, and is empty only when there are no links. */
  function StateUrls(anchors: seq<Anchor>): (dict: map<string, string>)
    ensures |dict| <= |anchors|
    ensures dict == map[] <==> anchors == []
    decreases |anchors|
  {
    if anchors == [] then map[]
    else
      var a := anchors[|anchors| - 1];
      StateUrls(anchors[..|anchors| - 1])[StateKey(a) := BaseUrl + a.href]
  }

  /** A key is in the state dictionary exactly when some link has it. */
  lemma {:induction false} StateUrlsKeys(anchors: seq<Anchor>, key: string)
    ensures key in StateUrls(anchors) <==> exists i :: 0 <= i < |anchors| && StateKey(anchors[i]) == key
    decreases |anchors|
  {
    if anchors != [] {
      var n := |anchors| - 1;
      var init := anchors[..n];
      StateUrlsKeys(init, key);
      if StateKey(anchors[n]) != key {
        if key in StateUrls(anchors) {
          var i :| 0 <= i < n && StateKey(init[i]) == key;
          assert anchors[i] == init[i];
        } else {
          forall i | 0 <= i < |anchors| ensures StateKey(anchors[i]) != key {
            if i < n { assert anchors[i] == init[i]; }
          }
        }
      }
    }
  }

  /** A key of the state dictionary maps to the nps.gov URL of the LAST
      link that has it: later duplicates overwrite earlier ones. */
  lemma {:induction false} StateUrlsLastWins(anchors: seq<Anchor>, i: nat)
    requires i < |anchors|
    requires forall j :: i < j < |anchors| ==> StateKey(anchors[j]) != StateKey(anchors[i])
    ensures StateKey(anchors[i]) in StateUrls(anchors)
    ensures StateUrls(anchors)[StateKey(anchors[i])] == BaseUrl + anchors[i].href
    decreases |anchors|
  {
    var n := |anchors| - 1;
    if i < n {
      var init := anchors[..n];
      assert init[i] == anchors[i];
      forall j | i < j < |init| ensures StateKey(init[j]) != StateKey(init[i]) {
        assert init[j] == anchors[j];
      }
      StateUrlsLastWins(init, i);
    }
  }

  /** The loop of `build_state_url_dict` over the links it found. */
  method StateUrlDict(anchors: seq<Anchor>) returns (dict: map<string, string>)
    ensures dict == StateUrls(anchors)
  {
    dict := map[];
    for i := 0 to |anchors|
      invariant dict == StateUrls(anchors[..i])
    {
      assert anchors[..i + 1][..i] == anchors[..i];
      dict := dict[StateKey(anchors[i]) := BaseUrl + anchors[i].href];
    }
    assert anchors[..|anchors|] == anchors;
  }

  /** `build_state_url_dict`: reads the nps.gov home page through the cache
      and builds the dictionary from the links `anchorsOf` finds in it. */
  method BuildStateUrlDict(cache: Cache, net: Network, anchorsOf: string -> seq<Anchor>)
    returns (dict: Option<map<string, string>>)
    modifies cache
    ensures var first := ReadStore(old(cache.State()), BaseUrl, net);
      && cache.State() == first.store
      && (first.body.None? ==> dict.None?)
      && (first.body.Some? ==> dict == Some(StateUrls(anchorsOf(first.body.value))))
  {
    var res := cache.Read(BaseUrl, net);
    if res.None? {
      return None;
    }
    var d := StateUrlDict(anchorsOf(res.value));
    dict := Some(d);
  }

  /** The nps.gov URL of a park page: the site's base URL followed by the
      href as it stands. */
  function SiteUrl(href: string): (url: string)
    ensures |url| == |BaseUrl| + |href|
    ensures url[..|BaseUrl|] == BaseUrl && url[|BaseUrl|..] == href
  {
    BaseUrl + href
  }

  function SiteUrls(hrefs: seq<string>): (urls: seq<string>)
    ensures |urls| == |hrefs| && forall i :: 0 <= i < |hrefs| ==> urls[i] == SiteUrl(hrefs[i])
  {
    seq(|hrefs|, i requires 0 <= i < |hrefs| => SiteUrl(hrefs[i]))
  }

  /** Every read of `urls` in turn returns a body. */
  predicate Completes(s: Store, urls: seq<string>, net: Network)
    decreases |urls|
  {
    urls == [] ||
      var first := ReadStore(s, urls[0], net);
      first.body.Some? && Completes(first.store, urls[1..], net)
  }

  /** A session of reads that has completed so far goes on with the next
      read; it completes one step further exactly when that read returns. */
  lemma {:induction false} ReadAllSnoc(s: Store, urls: seq<string>, u: string, net: Network)
    requires Completes(s, urls, net)
    ensures ReadAll(s, urls + [u], net) == ReadStore(ReadAll(s, urls, net), u, net).store
    ensures Completes(s, urls + [u], net) <==> ReadStore(ReadAll(s, urls, net), u, net).body.Some?
    decreases |urls|
  {
    if urls == [] {
      assert urls + [u] == [u];
    } else {
      assert (urls + [u])[0] == urls[0];
      assert (urls + [u])[1..] == urls[1..] + [u];
      ReadAllSnoc(ReadStore(s, urls[0], net).store, urls[1..], u, net);
    }
  }

  /** `get_sites_for_state`: reads the state page, then each park page it
      lists, in order, building one site per park with `siteOf` (the
      parsing of `get_site_instance`). A transport failure raises and ends
      the listing. */
  method GetSitesForState(cache: Cache, stateUrl: string, net: Network,
                          parkHrefs: string -> seq<string>, siteOf: string -> NationalSite)
    returns (sites: Option<seq<NationalSite>>)
    modifies cache
    ensures var first := ReadStore(old(cache.State()), stateUrl, net);
      && (first.body.None? ==> sites.None? && cache.State() == first.store)
      && (first.body.Some? ==>
            var urls := SiteUrls(parkHrefs(first.body.value));
            && cache.State() == ReadAll(first.store, urls, net)
            && (sites.Some? <==> Completes(first.store, urls, net)))
    ensures sites.Some? ==>
      && stateUrl in cache.cacheDict
      && Built(sites.value, SiteUrls(parkHrefs(cache.cacheDict[stateUrl])), cache.cacheDict, siteOf)
  {
    ghost var s0 := cache.State();
    var res := cache.Read(stateUrl, net);
    if res.None? {
      return None;
    }
    ReadOnlyAdds(s0, stateUrl, net);
    ghost var s1 := cache.State();
    var hrefs := parkHrefs(res.value);
    sites := ReadSitePages(cache, SiteUrls(hrefs), net, siteOf);
    ReadAllOnlyGrows(s1, SiteUrls(hrefs), net);
  }

  /** The loop of `get_sites_for_state`: reads each park page through the
      cache in order and builds a site from each; the first transport
      failure ends it. */
  method ReadSitePages(cache: Cache, urls: seq<string>, net: Network, siteOf: string -> NationalSite)
    returns (sites: Option<seq<NationalSite>>)
    modifies cache
    ensures cache.State() == ReadAll(old(cache.State()), urls, net)
    ensures sites.Some? <==> Completes(old(cache.State()), urls, net)
    ensures sites.Some? ==> Built(sites.value, urls, cache.cacheDict, siteOf)
  {
    ghost var s0 := cache.State();
    var found: seq<NationalSite> := [];
    for i := 0 to |urls|
      invariant cache.State() == ReadAll(s0, urls[..i], net)
      invariant Completes(s0, urls[..i], net)
      invariant Built(found, urls[..i], cache.cacheDict, siteOf)
    {
      ghost var before := cache.State();
      var page := cache.Read(urls[i], net);
      SitePageRead(s0, urls, i, net, before, found, siteOf);
      if page.None? {
        return None;
      }
      found := found + [siteOf(page.value)];
    }
    assert urls[..|urls|] == urls;
    sites := Some(found);
  }

  /** Sites built, in order, from the stored pages of `urls`. */
  predicate Built(found: seq<NationalSite>, urls: seq<string>, t: Table, siteOf: string -> NationalSite) {
    && |found| == |urls|
    && forall j :: 0 <= j < |urls| ==> urls[j] in t && found[j] == siteOf(t[urls[j]])
  }

  /** One turn of the park-page loop: the read of the next page either
      extends the session and the list of sites by one, or fails and ends
      the session there. */
  lemma SitePageRead(s0: Store, urls: seq<string>, i: nat, net: Network, before: Store,
                     found: seq<NationalSite>, siteOf: string -> NationalSite)
    requires i < |urls|
    requires before == ReadAll(s0, urls[..i], net) && Completes(s0, urls[..i], net)
    requires Built(found, urls[..i], before.entries, siteOf)
    ensures var o := ReadStore(before, urls[i], net);
      && o.store == ReadAll(s0, urls[..i + 1], net)
      && (o.body.Some? <==> Completes(s0, urls[..i + 1], net))
      && (o.body.Some? ==> Built(found + [siteOf(o.body.value)], urls[..i + 1], o.store.entries, siteOf))
      && (o.body.None? ==> o.store == ReadAll(s0, urls, net) && !Completes(s0, urls, net))
  {
    var o := ReadStore(before, urls[i], net);
    ReadOnlyAdds(before, urls[i], net);
    ReadAllSnoc(s0, urls[..i], urls[i], net);
    assert urls[..i + 1] == urls[..i] + [urls[i]];
    if o.body.None? {
      ReadAllStopsAtFailure(s0, urls, i + 1, net);
    } else {
      SitesStayBuilt(found, urls[..i], siteOf, before.entries, o.store.entries);
    }
  }

  /** Sites built from stored pages still match them once the table has
      grown. */
  lemma SitesStayBuilt(found: seq<NationalSite>, urls: seq<string>, siteOf: string -> NationalSite,
                       t: Table, t': Table)
    requires Built(found, urls, t, siteOf) && Extends(t, t')
    ensures Built(found, urls, t', siteOf)
  {
  }

  /** A session that fails within its first `n` reads ends there: the reads
      after the failure do not happen. */
  lemma {:induction false} ReadAllStopsAtFailure(s: Store, urls: seq<string>, n: nat, net: Network)
    requires n <= |urls| && !Completes(s, urls[..n], net)
    ensures ReadAll(s, urls, net) == ReadAll(s, urls[..n], net)
    ensures !Completes(s, urls, net)
    decreases n
  {
    assert n > 0;
    assert urls[..n][0] == urls[0] && urls[..n][1..] == urls[1..][..n - 1];
    var first := ReadStore(s, urls[0], net);
    if first.body.Some? {
      ReadAllStopsAtFailure(first.store, urls[1..], n - 1, net);
    }
  }

  /** What `get_nearby_places` gives back: None for a site without a zip
      code, otherwise the body of the MapQuest response (before JSON
      decoding), or a transport failure. */
  datatype Nearby = NoZipCode | Places(body: string) | FetchFailed

  /** `get_nearby_places`: a site with no zip code gets nothing and the
      cache is not touched; otherwise the MapQuest request for its zip code
      is read through the cache. */
  method GetNearbyPlaces(cache: Cache, site: NationalSite, apiKey: string, net: Network)
    returns (r: Nearby)
    modifies cache
    ensures site.zipcode == "" ==> r == NoZipCode && unchanged(cache)
    ensures site.zipcode != "" ==>
      var o := ReadStore(old(cache.State()), NearbyKey(apiKey, site.zipcode), net);
      && cache.State() == o.store
      && r == (if o.body.Some? then Places(o.body.value) else FetchFailed)
  {
    var request := NearbyRequest(site, apiKey);
    if request.None? {
      return NoZipCode;
    }
    var res := cache.Read(request.value, net);
    r := if res.Some? then Places(res.value) else FetchFailed;
  }
}
