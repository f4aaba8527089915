/** The national-site record, its one-line summary, and the MapQuest request
    that looks up places near a site (si507_waiver.py). */
module Sites {
  import opened Wrappers

  /** A national site as scraped from its nps.gov page. The address and
      zip code are empty when the page has no postal address; a page
      missing any other tag makes `get_site_instance` raise, which the
      parsing parameter `siteOf` does not model. */
  datatype NationalSite = NationalSite(
    name: string,
    category: string,
    address: string,
    zipcode: string,
    phone: string)

  /** `NationalSite.info()`: "name (category): address zipcode". The line
      starts with the name, ends with the zip code, and adds six
      characters of punctuation to the four fields. */
  function Info(site: NationalSite): (r: string)
    ensures |r| == |site.name| + |site.category| + |site.address| + |site.zipcode| + 6
    ensures r[..|site.name|] == site.name
    ensures r[|r| - |site.zipcode|..] == site.zipcode
  {
    site.name + " (" + site.category + "): " + site.address + " " + site.zipcode
  }

  /** The four fields a summary line shows. */
  datatype InfoFields = InfoFields(name: string, category: string, address: string, zipcode: string)

  /** The first position of `c` in `s`, if any. */
  function IndexOf(s: string, c: char): (r: Option<nat>)
    ensures r.Some? ==> r.value < |s| && s[r.value] == c
    ensures r.Some? ==> forall k :: 0 <= k < r.value ==> s[k] != c
    ensures r.None? ==> forall k :: 0 <= k < |s| ==> s[k] != c
  {
    if s == [] then None
    else if s[0] == c then Some(0)
    else match IndexOf(s[1..], c)
      case None => None
      case Some(i) => Some(i + 1)
  }

  /** The last position of `c` in `s`, if any. */
  function LastIndexOf(s: string, c: char): (r: Option<nat>)
    ensures r.Some? ==> r.value < |s| && s[r.value] == c
    ensures r.Some? ==> forall k :: r.value < k < |s| ==> s[k] != c
    ensures r.None? ==> forall k :: 0 <= k < |s| ==> s[k] != c
  {
    if s == [] then None
    else if s[|s| - 1] == c then Some(|s| - 1)
    else LastIndexOf(s[..|s| - 1], c)
  }

  /** Reads a summary line back into its fields: the name ends before the
      first " (", the category at the next "): ", and the zip code follows
      the last space. */
  function ParseInfo(line: string): Option<InfoFields> {
    match IndexOf(line, '(')
    case None => None
    case Some(i) =>
      if i == 0 || line[i - 1] != ' ' then None
      else ParseAfterName(line[..i - 1], line[i + 1..])
  }

  /** Parses "category): address zipcode" once the name has been read. */
  function ParseAfterName(name: string, rest: string): Option<InfoFields> {
    match IndexOf(rest, ')')
    case None => None
    case Some(j) =>
      if j + 3 > |rest| || rest[j + 1..j + 3] != ": " then None
      else match ParseLocation(rest[j + 3..])
        case None => None
        case Some(loc) => Some(InfoFields(name, rest[..j], loc.0, loc.1))
  }

  /** Splits "address zipcode" at its last space. */
  function ParseLocation(tail: string): Option<(string, string)> {
    match LastIndexOf(tail, ' ')
    case None => None
    case Some(k) => Some((tail[..k], tail[k + 1..]))
  }

  /** The summary line loses nothing it shows: as long as the name has no
      '(', the category no ')' and the zip code no space (as with
      "Isle Royale (National Park): Houghton, MI 49931"), the four fields
      can be read back from it. */
  lemma InfoRoundTrip(site: NationalSite)
    requires forall k :: 0 <= k < |site.name| ==> site.name[k] != '('
    requires forall k :: 0 <= k < |site.category| ==> site.category[k] != ')'
    requires forall k :: 0 <= k < |site.zipcode| ==> site.zipcode[k] != ' '
    ensures ParseInfo(Info(site)) == Some(InfoFields(site.name, site.category, site.address, site.zipcode))
  {
    var tail := site.address + " " + site.zipcode;
    var rest := site.category + "): " + tail;
    InfoGrouping(site);
    ZipFollowsLastSpace(site.address, site.zipcode);
    CategoryEndsAtParenthesis(site.name, site.category, tail);
    NameEndsAtParenthesis(site.name, rest);
  }

  lemma InfoGrouping(site: NationalSite)
    ensures Info(site) == site.name + " (" + (site.category + "): " + (site.address + " " + site.zipcode))
  {
  }

  lemma NameEndsAtParenthesis(name: string, rest: string)
    requires forall k :: 0 <= k < |name| ==> name[k] != '('
    ensures ParseInfo(name + " (" + rest) == ParseAfterName(name, rest)
  {
    var line := name + " (" + rest;
    forall k | 0 <= k < |name| + 1 ensures line[k] != '(' {
      if k < |name| { assert line[k] == name[k]; }
    }
    IndexOfFirst(line, '(', |name| + 1);
    assert line[..|name|] == name;
    assert line[|name| + 2..] == rest;
  }

  lemma CategoryEndsAtParenthesis(name: string, category: string, tail: string)
    requires forall k :: 0 <= k < |category| ==> category[k] != ')'
    requires ParseLocation(tail).Some?
    ensures ParseAfterName(name, category + "): " + tail)
         == Some(InfoFields(name, category, ParseLocation(tail).value.0, ParseLocation(tail).value.1))
  {
    var rest := category + "): " + tail;
    forall k | 0 <= k < |category| ensures rest[k] != ')' {
      assert rest[k] == category[k];
    }
    IndexOfFirst(rest, ')', |category|);
    assert rest[|category| + 1..|category| + 3] == ": ";
    assert rest[..|category|] == category;
    assert rest[|category| + 3..] == tail;
  }

  lemma ZipFollowsLastSpace(address: string, zipcode: string)
    requires forall k :: 0 <= k < |zipcode| ==> zipcode[k] != ' '
    ensures ParseLocation(address + " " + zipcode) == Some((address, zipcode))
  {
    var tail := address + " " + zipcode;
    forall k | |address| < k < |tail| ensures tail[k] != ' ' {
      assert tail[k] == zipcode[k - |address| - 1];
    }
    LastIndexOfLast(tail, ' ', |address|);
    assert tail[..|address|] == address;
    assert tail[|address| + 1..] == zipcode;
  }

  /** A position holding `c` with no `c` before it is the first one. */
  lemma IndexOfFirst(s: string, c: char, i: nat)
    requires i < |s| && s[i] == c
    requires forall k :: 0 <= k < i ==> s[k] != c
    ensures IndexOf(s, c) == Some(i)
  {
  }

  /** A position holding `c` with no `c` after it is the last one. */
  lemma LastIndexOfLast(s: string, c: char, i: nat)
    requires i < |s| && s[i] == c
    requires forall k :: i < k < |s| ==> s[k] != c
    ensures LastIndexOf(s, c) == Some(i)
  {
  }

  /** The fixed parts of the MapQuest radius-search request. */
  const MapQuestSearch := "http://www.mapquestapi.com/search/v2/radius?key="
  const OriginParameter := "&origin="
  const SearchOptions := "&radius=10&maxMatches=10&ambiguities=ignore&outFormat=json"

  /** The request URL for places near `zipcode`; it is also the cache key.
      It starts with the search endpoint, carries the API key in plain
      text, then names the zip code as origin, and ends with the fixed
      search options. */
  function NearbyKey(apiKey: string, zipcode: string): (r: string)
    ensures var p := |MapQuestSearch|;
      var o := p + |apiKey| + |OriginParameter|;
      && |r| == o + |zipcode| + |SearchOptions|
      && r[..p] == MapQuestSearch
      && r[p..p + |apiKey|] == apiKey
      && r[p + |apiKey|..o] == OriginParameter
      && r[o..o + |zipcode|] == zipcode
      && r[o + |zipcode|..] == SearchOptions
  {
    MapQuestSearch + apiKey + OriginParameter + zipcode + SearchOptions
  }

  /** The request `get_nearby_places` makes for a site: none at all when the
      site has no zip code, otherwise the search for its zip code. */
  function NearbyRequest(site: NationalSite, apiKey: string): (r: Option<string>)
    ensures r.None? <==> site.zipcode == ""
    ensures r.Some? ==> r.value == NearbyKey(apiKey, site.zipcode)
  {
    if site.zipcode == "" then None else Some(NearbyKey(apiKey, site.zipcode))
  }

  /** Under one API key, distinct zip codes give distinct cache keys, so the
      places near one zip code are never served for another. */
  lemma NearbyKeyInjective(apiKey: string, z1: string, z2: string)
    requires NearbyKey(apiKey, z1) == NearbyKey(apiKey, z2)
    ensures z1 == z2
  {
    var o := |MapQuestSearch| + |apiKey| + |OriginParameter|;
    var k1, k2 := NearbyKey(apiKey, z1), NearbyKey(apiKey, z2);
    assert |z1| == |z2|;
    assert k1[o..o + |z1|] == z1;
    assert k2[o..o + |z2|] == z2;
  }
}
