/** The pure decisions and formatting of the interactive loop in
    si507_waiver.py: which state the user picked, which listed site a typed
    number selects, and how a nearby place is printed. */
module Menu {
  import opened Wrappers
  import opened Text
  import opened Sites
  import opened Retrieval

  /** What the state prompt does with a line the user typed. */
  datatype StateChoice = QuitProgram | UnknownState | StatePage(url: string)

  /** "exit" quits; otherwise the lower-cased line is looked up in the
      state dictionary. */
  function ChooseState(input: string, urlDict: map<string, string>): (c: StateChoice)
    ensures c.StatePage? <==> input != "exit" && Lower(input) in urlDict
    ensures c.StatePage? ==> c.url == urlDict[Lower(input)]
  {
    if input == "exit" then QuitProgram
    else if Lower(input) in urlDict then StatePage(urlDict[Lower(input)])
    else UnknownState
  }

  /** Typing a state's link text in any letter case opens the page of the
      last link with that text. */
  lemma StateNameOpensItsPage(anchors: seq<Anchor>, i: nat, input: string)
    requires i < |anchors| && input != "exit"
    requires Lower(input) == StateKey(anchors[i])
    requires forall j :: i < j < |anchors| ==> StateKey(anchors[j]) != StateKey(anchors[i])
    ensures ChooseState(input, StateUrls(anchors)) == StatePage(BaseUrl + anchors[i].href)
  {
    StateUrlsLastWins(anchors, i);
  }

  /** What the site prompt does with a line the user typed;
      `TooManyDigits` is the `ValueError` that `int(option)` raises, which
      nothing catches. */
  datatype SiteChoice = Quit | Back | Detail(index: nat) | Invalid | TooManyDigits

  /** "exit" and "back" are commands; a decimal number from 1 to the number
      of listed sites selects the site at that position, counting from 1;
      a decimal option longer than `int` accepts raises; anything else is
      invalid. */
  function ChooseSite(option: string, count: nat): (c: SiteChoice)
    ensures c.Detail? <==> IsDecimal(option) && |option| <= IntMaxStrDigits && 1 <= DecimalValue(option) <= count
    ensures c.Detail? ==> c.index < count && c.index + 1 == DecimalValue(option)
    ensures c.TooManyDigits? <==> IsDecimal(option) && |option| > IntMaxStrDigits
  {
    if option == "exit" then Quit
    else if option == "back" then Back
    else if !IsDecimal(option) then Invalid
    else
      match ParseInt(option)
      case None => TooManyDigits
      case Some(n) => if 1 <= n <= count then Detail(n - 1) else Invalid
  }

  /** The line that lists site `i`: "[i+1] " and its summary. The number
      sits right after the opening bracket, and the line ends with the
      site's summary. */
  function ListingLine(i: nat, site: NationalSite): (line: string)
    ensures var number := Decimal(i + 1);
      && |line| == |number| + 3 + |Info(site)|
      && line[0] == '[' && line[1..1 + |number|] == number
      && line[|line| - |Info(site)|..] == Info(site)
  {
    "[" + Decimal(i + 1) + "] " + Info(site)
  }

  /** Typing the number a listing line shows selects that line's site,
      for every number short enough for `int` to read back. */
  lemma ListedNumberSelects(sites: seq<NationalSite>, i: nat)
    requires i < |sites| && |Decimal(i + 1)| <= IntMaxStrDigits
    ensures var number := Decimal(i + 1);
      && ListingLine(i, sites[i])[1..1 + |number|] == number
      && ChooseSite(number, |sites|) == Detail(i)
  {
    var number := Decimal(i + 1);
    DecimalRoundTrip(i + 1);
    assert number[0] != 'e' && number[0] != 'b';
    assert ListingLine(i, sites[i]) == "[" + number + ("] " + Info(sites[i]));
  }

  /** A nearby place from the MapQuest response; each of its three optional
      fields is present and holds either null (None) or a string, possibly
      empty. */
  datatype Place = Place(name: string, category: Option<string>, address: Option<string>, city: Option<string>)

  /** The decoded MapQuest response: its `resultsCount` and `searchResults`. */
  datatype SearchResponse = SearchResponse(resultsCount: int, results: seq<Place>)

  /** Python truthiness of a field that is null or a string. */
  predicate Present(f: Option<string>) {
    f.Some? && f.value != ""
  }

  /** The field as printed: its text when it is a non-empty string, the
      fallback when it is null or empty. */
  function Shown(f: Option<string>, fallback: string): (r: string)
    ensures Present(f) ==> r == f.value
    ensures !Present(f) ==> r == fallback
    ensures fallback != "" ==> r != ""
  {
    if Present(f) then f.value else fallback
  }

  /** "- name (category): address, city", with "no category", "no address"
      and "no city" for null or empty fields. The line starts with the place's
      name, and its length is that of the name and the three parts shown
      plus nine characters of punctuation. */
  function PlaceLine(p: Place): (line: string)
    ensures |line| == |p.name| + |Shown(p.category, "no category")| + |Shown(p.address, "no address")|
      + |Shown(p.city, "no city")| + 9
    ensures line[..|p.name| + 4] == "- " + p.name + " ("
  {
    "- " + p.name + " (" + Shown(p.category, "no category") + "): "
      + Shown(p.address, "no address") + ", " + Shown(p.city, "no city")
  }

  /** Every part of a place line is filled: the category, address and city
      shown are never empty, and each is the field itself when present and
      its fallback otherwise, at a fixed position after the name. */
  lemma PlaceLineLayout(p: Place)
    ensures var c := Shown(p.category, "no category");
      var a := Shown(p.address, "no address");
      var t := Shown(p.city, "no city");
      var line := PlaceLine(p);
      var o := 2 + |p.name| + 2;
      && c != "" && a != "" && t != ""
      && |line| == o + |c| + 3 + |a| + 2 + |t|
      && line[..o] == "- " + p.name + " ("
      && line[o..o + |c|] == c
      && line[o + |c| + 3..o + |c| + 3 + |a|] == a
      && line[|line| - |t|..] == t
  {
  }

  /** A null field and an empty one print alike: the line cannot tell
      them apart. */
  lemma NullAndEmptyPrintAlike(p: Place)
    ensures PlaceLine(p.(category := None)) == PlaceLine(p.(category := Some("")))
    ensures PlaceLine(p.(address := None)) == PlaceLine(p.(address := Some("")))
    ensures PlaceLine(p.(city := None)) == PlaceLine(p.(city := Some("")))
  {
  }

  /** How many lines the loop prints: `range(resultsCount)` stops at the
      count, and indexing past the results raises. */
  function PrintedCount(r: SearchResponse): (n: nat)
    ensures n <= |r.results| && (r.resultsCount >= 0 ==> n <= r.resultsCount)
    ensures r.resultsCount <= |r.results| ==> n == (if r.resultsCount < 0 then 0 else r.resultsCount)
  {
    if r.resultsCount < 0 then 0
    else if r.resultsCount <= |r.results| then r.resultsCount
    else |r.results|
  }

  /** The place lines of a response, one per result up to the count. */
  function PlaceLinesOf(r: SearchResponse): (lines: seq<string>)
    ensures |lines| == PrintedCount(r)
    ensures forall i :: 0 <= i < |lines| ==> lines[i] == PlaceLine(r.results[i])
  {
    seq(PrintedCount(r), i requires 0 <= i < PrintedCount(r) => PlaceLine(r.results[i]))
  }

  /** The loop that prints the nearby places: one line per result, for
      `resultsCount` results; it completes unless the count exceeds the
      results, where the index raises. */
  method PlaceLines(r: SearchResponse) returns (lines: seq<string>, complete: bool)
    ensures lines == PlaceLinesOf(r)
    ensures complete <==> r.resultsCount <= |r.results|
  {
    lines := [];
    var i := 0;
    while i < r.resultsCount
      invariant 0 <= i <= PrintedCount(r)
      invariant i <= |r.results|
      invariant |lines| == i && forall k :: 0 <= k < i ==> lines[k] == PlaceLine(r.results[k])
    {
      if i >= |r.results| {
        return lines, false;
      }
      lines := lines + [PlaceLine(r.results[i])];
      i := i + 1;
    }
    complete := true;
  }

  /** What choosing a site prints after the header, or that the session
      ends with an exception. */
  datatype DetailOutcome = Listing(lines: seq<string>) | Raises

  /** The detail branch as written: the result of `get_nearby_places` is
      subscripted unconditionally, so a site without a zip code (for which
      it returns None) raises, as does a transport failure or a count past
      the results. */
  function DetailAsWritten(nearby: Nearby, decode: string -> SearchResponse): (d: DetailOutcome)
    ensures d.Listing? <==> nearby.Places? && decode(nearby.body).resultsCount <= |decode(nearby.body).results|
    ensures d.Listing? ==> d.lines == PlaceLinesOf(decode(nearby.body))
  {
    match nearby
    case NoZipCode => Raises
    case FetchFailed => Raises
    case Places(body) =>
      var r := decode(body);
      if r.resultsCount <= |r.results| then Listing(PlaceLinesOf(r)) else Raises
  }

  /** Choosing a listed site that has no zip code ends the session: the
      nearby lookup gives None and the loop subscripts it. */
  lemma SiteWithoutZipRaises(site: NationalSite, apiKey: string, decode: string -> SearchResponse)
    requires site.zipcode == ""
    ensures NearbyRequest(site, apiKey).None?
    ensures DetailAsWritten(NoZipCode, decode) == Raises
  {
  }

  /** The detail branch as evidently intended: a site without a zip code
      lists no places (the lookup has already said "No zip code"); the
      other cases are as written. */
  function DetailSearch(nearby: Nearby, decode: string -> SearchResponse): (d: DetailOutcome)
    ensures nearby.NoZipCode? ==> d == Listing([])
    ensures d.Raises? <==> nearby.FetchFailed? || (nearby.Places? && decode(nearby.body).resultsCount > |decode(nearby.body).results|)
    ensures nearby.Places? ==> d == DetailAsWritten(nearby, decode)
  {
    match nearby
    case NoZipCode => Listing([])
    case _ => DetailAsWritten(nearby, decode)
  }
}
