/** The IDOS results-page parser (`IdosParser` in services/buses.rb).

    Nokogiri's CSS selection is not modelled: a connection box and each of
    its legs arrive as records holding the text of every element the Ruby
    code selects (`None` where `at_css` finds nothing). Everything the code
    does after selection is modelled: stripping, the `,,` stop-name cleanup,
    whitespace collapsing, the fare digits, the WALK records, the `limit`
    cut, the date/time sources and the query of the search URL. */
module Buses {
  import opened Wrappers
  import opened Text
  import FormEncoding
  import Seqs

  const BaseUrl: string := "https://idos.cz/vlakyautobusymhdvse/spojeni/vysledky/"

  // ---------------------------------------------------------------------------
  // normalize_date / normalize_time

  /** `\d{2}\.\d{2}\.\d{4}` on exactly these characters. */
  predicate IsDatePattern(s: string) {
    |s| == 10 && IsDigit(s[0]) && IsDigit(s[1]) && s[2] == '.' && IsDigit(s[3]) && IsDigit(s[4])
    && s[5] == '.' && IsDigit(s[6]) && IsDigit(s[7]) && IsDigit(s[8]) && IsDigit(s[9])
  }

  /** `\d{2}:\d{2}` on exactly these characters. */
  predicate IsTimePattern(s: string) {
    |s| == 5 && IsDigit(s[0]) && IsDigit(s[1]) && s[2] == ':' && IsDigit(s[3]) && IsDigit(s[4])
  }

  /** Position `i` starts a line and position `j` ends one: Ruby's `^` and `$`
      match after and before every "\n", not only at the ends of the string. */
  predicate LineBounds(s: string, i: nat, j: nat) {
    i <= j <= |s| && (i == 0 || s[i - 1] == '\n') && (j == |s| || s[j] == '\n')
  }

  predicate DateLineAt(s: string, i: nat) {
    i + 10 <= |s| && LineBounds(s, i, i + 10) && IsDatePattern(s[i..i + 10])
  }

  predicate TimeLineAt(s: string, i: nat) {
    i + 5 <= |s| && LineBounds(s, i, i + 5) && IsTimePattern(s[i..i + 5])
  }

  /** `s =~ /^\d{2}\.\d{2}\.\d{4}$/`. */
  predicate MatchesDate(s: string) {
    exists i :: 0 <= i <= |s| && DateLineAt(s, i)
  }

  /** `s =~ /^\d{2}:\d{2}$/`. */
  predicate MatchesTime(s: string) {
    exists i :: 0 <= i <= |s| && TimeLineAt(s, i)
  }

  /** `normalize_date` (nil in, nil out). */
  function NormalizeDate(s: Option<string>): (r: Option<string>)
    ensures r.Some? <==> s.Some? && MatchesDate(s.value)
    ensures r.Some? ==> r == s
  {
    if s.Some? && MatchesDate(s.value) then s else None
  }

  /** `normalize_time` (nil in, nil out). */
  function NormalizeTime(s: Option<string>): (r: Option<string>)
    ensures r.Some? <==> s.Some? && MatchesTime(s.value)
    ensures r.Some? ==> r == s
  {
    if s.Some? && MatchesTime(s.value) then s else None
  }

  /** On one line the anchors pin the pattern to the whole string. */
  lemma MatchesDateSingleLine(s: string)
    requires '\n' !in s
    ensures MatchesDate(s) <==> IsDatePattern(s)
  {
    if MatchesDate(s) {
      var i :| 0 <= i <= |s| && DateLineAt(s, i);
      assert forall k :: 0 <= k < |s| ==> s[k] != '\n';
      assert i == 0 && i + 10 == |s|;
      assert s[i..i + 10] == s;
    }
    if IsDatePattern(s) {
      assert s[0..10] == s;
      assert DateLineAt(s, 0);
    }
  }

  lemma MatchesTimeSingleLine(s: string)
    requires '\n' !in s
    ensures MatchesTime(s) <==> IsTimePattern(s)
  {
    if MatchesTime(s) {
      var i :| 0 <= i <= |s| && TimeLineAt(s, i);
      assert forall k :: 0 <= k < |s| ==> s[k] != '\n';
      assert i == 0 && i + 5 == |s|;
      assert s[i..i + 5] == s;
    }
    if IsTimePattern(s) {
      assert s[0..5] == s;
      assert TimeLineAt(s, 0);
    }
  }

  /** The pattern checks digits only: the thirteenth month passes. */
  lemma NoCalendarCheck()
    ensures NormalizeDate(Some("13.13.2025")) == Some("13.13.2025")
    ensures NormalizeTime(Some("99:99")) == Some("99:99")
  {
    assert DateLineAt("13.13.2025", 0);
    assert TimeLineAt("99:99", 0);
  }

  /** Any one line of a multi-line text that is a date lets the whole text
      through, whatever the other lines hold. */
  lemma {:induction false} MatchesDateAnyLine(before: string, line: string, after: string)
    requires IsDatePattern(line)
    ensures MatchesDate(before + "\n" + line + "\n" + after)
    ensures MatchesDate(before + "\n" + line)
    ensures MatchesDate(line + "\n" + after)
  {
    var s1 := before + "\n" + line + "\n" + after;
    var i := |before| + 1;
    assert s1[i - 1] == '\n' && s1[i + 10] == '\n' && s1[i..i + 10] == line;
    assert DateLineAt(s1, i);
    var s2 := before + "\n" + line;
    assert s2[i - 1] == '\n' && s2[i..i + 10] == line;
    assert DateLineAt(s2, i);
    var s3 := line + "\n" + after;
    assert s3[10] == '\n' && s3[0..10] == line;
    assert DateLineAt(s3, 0);
  }

  // ---------------------------------------------------------------------------
  // clean_stop

  /** `clean_stop`: nil and "" become nil; a name holding ",," keeps the
      stripped text after the first ",,"; any other name is returned as is. */
  function CleanStop(name: Option<string>): (r: Option<string>)
    ensures r.None? <==> name.None? || name.value == ""
    ensures name.Some? && name.value != "" && !Includes(name.value, ",,") ==> r == name
  {
    match name
    case None => None
    case Some(n) =>
      if n == "" then None
      else
        match FindFrom(n, ",,", 0)
        case Some(k) => Some(Strip(n[k + 2..]))
        case None => Some(n)
  }

  /** No ",," starts inside the code part of `code + ",," + display`. */
  lemma NoPairInCode(code: string, display: string, j: nat)
    requires !Includes(code, ",,")
    requires code == [] || code[|code| - 1] != ','
    requires j < |code|
    ensures !OccursAt(code + ",," + display, ",,", j)
  {
    var n := code + ",," + display;
    if j + 2 <= |code| {
      assert n[j..j + 2] == code[j..j + 2];
      assert !OccursAt(code, ",,", j);
    } else {
      assert n[j..j + 2][0] == code[|code| - 1];
    }
  }

  /** A decorated name `"<code>,,<display>"` is reduced to the display name. */
  lemma CleanStopDecorated(code: string, display: string)
    requires !Includes(code, ",,")
    requires code == [] || code[|code| - 1] != ','
    ensures CleanStop(Some(code + ",," + display)) == Some(Strip(display))
  {
    var n := code + ",," + display;
    assert n[|code|..|code| + 2] == ",,";
    forall j | 0 <= j < |code|
      ensures !OccursAt(n, ",,", j)
    {
      NoPairInCode(code, display, j);
    }
    FindFromLeftmost(n, ",,", |code|);
    assert n[|code| + 2..] == display;
  }

  // ---------------------------------------------------------------------------
  // extract_date_time

  /** What `CGI.parse(URI(query_url).query)` yields for `date` and `time`
      (their first values, unstripped), or the error `URI()` raises. */
  datatype QueryUrl = QueryUrl(text: string, params: Result<(Option<string>, Option<string>)>)

  /** The captures of `/(\d{2}\.\d{2}\.\d{4})\s+(\d{2}:\d{2})/` when the match
      starts at `p`; `\s+` must take the whole run of spaces, since a digit
      cannot match `\s`. */
  function DocDateTimeAt(h: string, p: nat): (r: Option<(string, string)>)
    requires p + 10 <= |h|
    ensures r.Some? ==> IsDatePattern(r.value.0) && IsTimePattern(r.value.1)
  {
    if !IsDatePattern(h[p..p + 10]) then None
    else
      var rest := h[p + 10..];
      var m := |rest| - |SkipRegexSpaces(rest)|;
      if m == 0 || p + 10 + m + 5 > |h| || !IsTimePattern(h[p + 10 + m..p + 15 + m]) then None
      else Some((h[p..p + 10], h[p + 10 + m..p + 15 + m]))
  }

  /** The captures at every start position; none where the pattern does not
      fit before the end. */
  function DocMatcher(h: string): nat -> Option<(string, string)> {
    (q: nat) => if q + 10 <= |h| then DocDateTimeAt(h, q) else None
  }

  /** The leftmost match at or after `p`. */
  function DocDateTimeFrom(h: string, p: nat): (r: Option<(string, string)>)
    ensures r.Some? ==> IsDatePattern(r.value.0) && IsTimePattern(r.value.1)
  {
    Seqs.FirstFromFound(DocMatcher(h), p, |h|);
    Seqs.FirstFrom(DocMatcher(h), p, |h|)
  }

  /** The search finds the captures of the first position at or after `p`
      where the pattern matches: it returns that position. */
  lemma DocDateTimeLeftmost(h: string, p: nat) returns (q: nat)
    requires DocDateTimeFrom(h, p).Some?
    ensures p <= q && q + 10 <= |h| && DocDateTimeAt(h, q) == DocDateTimeFrom(h, p)
    ensures forall j :: p <= j < q ==> DocDateTimeAt(h, j).None?
  {
    q := Seqs.FirstFromLeftmost(DocMatcher(h), p, |h|);
    forall j | p <= j < q
      ensures DocDateTimeAt(h, j).None?
    {
      assert DocMatcher(h)(j).None?;
    }
  }

  /** The search finds nothing exactly when the pattern matches nowhere at or
      after `p`. */
  lemma DocDateTimeNone(h: string, p: nat)
    ensures DocDateTimeFrom(h, p).None? <==> forall q :: p <= q && q + 10 <= |h| ==> DocDateTimeAt(h, q).None?
  {
    if DocDateTimeFrom(h, p).None? {
      Seqs.FirstFromNone(DocMatcher(h), p, |h|);
      forall q | p <= q && q + 10 <= |h|
        ensures DocDateTimeAt(h, q).None?
      {
        assert DocMatcher(h)(q) == DocDateTimeAt(h, q);
      }
    } else {
      var q := DocDateTimeLeftmost(h, p);
    }
  }

  /** The query URL gives nothing: it is missing or empty, or neither of its
      values normalises. */
  predicate UrlSilent(queryUrl: Option<QueryUrl>) {
    || queryUrl.None?
    || queryUrl.value.text == ""
    || (&& queryUrl.value.params.Ok?
        && NormalizeDate(MapOption(queryUrl.value.params.value.0, Strip)).None?
        && NormalizeTime(MapOption(queryUrl.value.params.value.1, Strip)).None?)
  }

  /** `extract_date_time`: the query URL first (when non-empty and at least one
      of its values normalises), then the first "DD.MM.YYYY HH:MM" of the
      serialised document, else nothing. */
  function ExtractDateTime(queryUrl: Option<QueryUrl>, html: string): (r: Result<(Option<string>, Option<string>)>)
    ensures UrlSilent(queryUrl) && DocDateTimeFrom(html, 0).Some? ==>
      r == Ok((Some(DocDateTimeFrom(html, 0).value.0), Some(DocDateTimeFrom(html, 0).value.1)))
    ensures UrlSilent(queryUrl) && DocDateTimeFrom(html, 0).None? ==> r == Ok((None, None))
    ensures r.Err? <==> queryUrl.Some? && queryUrl.value.text != "" && queryUrl.value.params.Err?
    ensures r.Ok? && r.value.0.Some? ==> NormalizeDate(r.value.0) == r.value.0
    ensures r.Ok? && r.value.1.Some? ==> NormalizeTime(r.value.1) == r.value.1
    ensures r.Ok? && queryUrl.Some? && queryUrl.value.text != "" && queryUrl.value.params.Ok? ==>
      var (d, t) := queryUrl.value.params.value;
      var nd := NormalizeDate(MapOption(d, Strip));
      var nt := NormalizeTime(MapOption(t, Strip));
      (nd.Some? || nt.Some?) ==> r.value == (nd, nt)
  {
    if queryUrl.Some? && queryUrl.value.text != "" && queryUrl.value.params.Err? then
      Err(queryUrl.value.params.error)
    else
      var fromUrl :=
        if queryUrl.Some? && queryUrl.value.text != "" then
          var (d, t) := queryUrl.value.params.value;
          var nd := NormalizeDate(MapOption(d, Strip));
          var nt := NormalizeTime(MapOption(t, Strip));
          if nd.Some? || nt.Some? then Some((nd, nt)) else None
        else None;
      if fromUrl.Some? then Ok(fromUrl.value)
      else
        match DocDateTimeFrom(html, 0)
        case Some((d, t)) =>
          MatchesDateSingleLine(d);
          MatchesTimeSingleLine(t);
          Ok((NormalizeDate(Some(d)), NormalizeTime(Some(t))))
        case None => Ok((None, None))
  }

  /** A date and time found in the document always both survive the
      normalisers, so the document source never yields a half pair. */
  lemma DocumentPairIsWhole(html: string)
    requires DocDateTimeFrom(html, 0).Some?
    ensures var r := ExtractDateTime(None, html);
      r.Ok? && r.value.0.Some? && r.value.1.Some?
  {
  }

  // ---------------------------------------------------------------------------
  // parse_and_build

  datatype SearchHeader = SearchHeader(
    baseUrl: string,
    date: Option<string>,
    time: Option<string>,
    from: Option<string>,
    to: Option<string>,
    fullUrl: string)

  /** `extract_from`: the first station name of the first leg. */
  function ExtractFrom(firstName: Option<string>): Option<string> {
    CleanStop(MapOption(firstName, Strip))
  }

  /** `extract_to`: the last station of the last leg, primary selector first. */
  function ExtractTo(lastNamePrimary: Option<string>, lastNameFallback: Option<string>): Option<string> {
    CleanStop(MapOption(lastNamePrimary.Or(lastNameFallback), Strip))
  }

  /** The query `parse_and_build` sends: the fields that are present, in the
      order date, time, f, t. */
  function SearchQuery(date: Option<string>, time: Option<string>, from: Option<string>, to: Option<string>): seq<(string, string)> {
    Field("date", date) + Field("time", time) + Field("f", from) + Field("t", to)
  }

  /** `query_params[key] = value if value`. */
  function Field(key: string, value: Option<string>): seq<(string, string)> {
    if value.Some? then [(key, value.value)] else []
  }

  /** The search URL: the base URL, then `?` and the encoded query when
      there is one. It is the bare base URL exactly when no field is present. */
  function SearchUrl(date: Option<string>, time: Option<string>, from: Option<string>, to: Option<string>): (u: string)
    ensures u == BaseUrl <==> date.None? && time.None? && from.None? && to.None?
    ensures u != BaseUrl ==> u == BaseUrl + "?" + FormEncoding.EncodeForm(SearchQuery(date, time, from, to))
  {
    var ps := SearchQuery(date, time, from, to);
    FormEncoding.EncodeFormEmptyIff(ps);
    var q := FormEncoding.EncodeForm(ps);
    if q == "" then BaseUrl
    else
      assert |BaseUrl + "?" + q| > |BaseUrl|;
      BaseUrl + "?" + q
  }

  lemma SearchUrlOfQuery(date: Option<string>, time: Option<string>, from: Option<string>, to: Option<string>)
    ensures var q := FormEncoding.EncodeForm(SearchQuery(date, time, from, to));
      SearchUrl(date, time, from, to) == if q == "" then BaseUrl else BaseUrl + "?" + q
  {
  }

  /** `query_params` filled key by key, each key only when its value is
      present. */
  method BuildQuery(date: Option<string>, time: Option<string>, from: Option<string>, to: Option<string>)
    returns (queryParams: seq<(string, string)>)
    ensures queryParams == SearchQuery(date, time, from, to)
  {
    queryParams := [];
    if date.Some? { queryParams := queryParams + [("date", date.value)]; }
    assert queryParams == Field("date", date);
    if time.Some? { queryParams := queryParams + [("time", time.value)]; }
    assert queryParams == Field("date", date) + Field("time", time);
    if from.Some? { queryParams := queryParams + [("f", from.value)]; }
    assert queryParams == Field("date", date) + Field("time", time) + Field("f", from);
    if to.Some? { queryParams := queryParams + [("t", to.value)]; }
  }

  /** `parse_and_build`. */
  method ParseAndBuild(queryUrl: Option<QueryUrl>, html: string, firstName: Option<string>,
                       lastNamePrimary: Option<string>, lastNameFallback: Option<string>)
    returns (r: Result<SearchHeader>)
    ensures r.Err? <==> ExtractDateTime(queryUrl, html).Err?
    ensures r.Ok? ==>
      var h := r.value;
      && (h.date, h.time) == ExtractDateTime(queryUrl, html).value
      && h.from == ExtractFrom(firstName)
      && h.to == ExtractTo(lastNamePrimary, lastNameFallback)
      && h.baseUrl == BaseUrl
      && h.fullUrl == SearchUrl(h.date, h.time, h.from, h.to)
  {
    var from := ExtractFrom(firstName);
    var to := ExtractTo(lastNamePrimary, lastNameFallback);
    var dt := ExtractDateTime(queryUrl, html);
    if dt.Err? {
      return Err(dt.error);
    }
    var date := dt.value.0;
    var time := dt.value.1;
    var queryParams := BuildQuery(date, time, from, to);
    var q := FormEncoding.EncodeForm(queryParams);
    var fullUrl := if q == "" then BaseUrl else BaseUrl + "?" + q;
    SearchUrlOfQuery(date, time, from, to);
    r := Ok(SearchHeader(BaseUrl, date, time, from, to, fullUrl));
  }

  // ---------------------------------------------------------------------------
  // parse_connections / parse_box

  /** `p.time` and `strong.name` texts of one station list item. */
  datatype StationItem = StationItem(time: Option<string>, name: Option<string>)

  /** The texts selected inside one `.outside-of-popup` leg element. */
  datatype LegNode = LegNode(
    line: Option<string>,             // .line-title .title-container h3 span
    owner: Option<string>,            // .line-right-part .owner span
    specs: Option<string>,            // .line-title .specs
    walk: Option<string>,             // .walk
    depPrimary: Option<StationItem>,  // ul.stations:first-of-type li.item:first-of-type
    depFallback: Option<StationItem>, // ul.stations li.item:first-of-type
    arrPrimary: Option<StationItem>,  // ul.stations:last-of-type li.item.last
    arrFallback: Option<StationItem>) // last of ul.stations li.item

  /** `.connection-head`: the first text child of `h2.date`, `.date-after`
      and `p.total strong`. */
  datatype HeadNode = HeadNode(h2: Option<Option<string>>, dateAfter: Option<string>, total: Option<string>)

  /** One `div[id^="connectionBox-"]`. */
  datatype BoxNode = BoxNode(id: Option<string>, head: Option<HeadNode>, price: Option<string>, legs: seq<LegNode>)

  datatype Leg =
    | Transit(line: Option<string>, operator: Option<string>, specs: Option<string>,
              depTime: Option<string>, depStop: Option<string>, arrTime: Option<string>, arrStop: Option<string>)
    | Walk(note: string)

  datatype Connection = Connection(
    id: Option<string>,
    departTime: Option<string>,
    dateLabel: Option<string>,
    total: Option<string>,
    priceKc: Option<nat>,
    legs: seq<Leg>)

  /** `price_text.gsub(/[^\d]/, '').to_i`, with 0 read as no fare. */
  function PriceKc(priceText: Option<string>): (r: Option<nat>)
    ensures r.Some? ==> r.value > 0
    ensures r.Some? ==> priceText.Some? && r.value == DigitsToNat(DigitsOnly(priceText.value))
    ensures r.None? ==> priceText.None? || DigitsToNat(DigitsOnly(priceText.value)) == 0
  {
    match priceText
    case None => None
    case Some(t) =>
      var n := DigitsToNat(DigitsOnly(t));
      if n == 0 then None else Some(n)
  }

  function StationTime(li: Option<StationItem>): Option<string> {
    if li.Some? then MapOption(li.value.time, Strip) else None
  }

  function StationStop(li: Option<StationItem>): Option<string> {
    if li.Some? then CleanStop(MapOption(li.value.name, Strip)) else None
  }

  /** The walk note, whitespace collapsed and stripped. */
  function WalkNote(n: LegNode): Option<string> {
    MapOption(n.walk, CollapseSpaces)
  }

  predicate HasWalk(n: LegNode) {
    WalkNote(n).Some? && WalkNote(n).value != ""
  }

  /** The transit record of one leg element. */
  function TransitOf(n: LegNode): (r: Leg)
    ensures r.Transit?
  {
    var dep := n.depPrimary.Or(n.depFallback);
    var arr := n.arrPrimary.Or(n.arrFallback);
    Transit(MapOption(n.line, Strip), MapOption(n.owner, Strip), MapOption(n.specs, CollapseSpaces),
            StationTime(dep), StationStop(dep), StationTime(arr), StationStop(arr))
  }

  /** The records one leg element contributes: its transit record, then a WALK
      record when its walk note is non-empty. */
  function LegsOf(n: LegNode): (r: seq<Leg>)
    ensures 1 <= |r| <= 2 && r[0] == TransitOf(n)
    ensures |r| == 2 <==> HasWalk(n)
    ensures |r| == 2 ==> r[1] == Walk(WalkNote(n).value)
  {
    [TransitOf(n)] + if HasWalk(n) then [Walk(WalkNote(n).value)] else []
  }

  /** The `legs` array after the `each` loop has visited `nodes`. */
  function LegRecords(nodes: seq<LegNode>): seq<Leg> {
    if nodes == [] then [] else LegRecords(nodes[..|nodes| - 1]) + LegsOf(nodes[|nodes| - 1])
  }

  lemma LegRecordsSnoc(nodes: seq<LegNode>, i: nat)
    requires i < |nodes|
    ensures LegRecords(nodes[..i + 1]) == LegRecords(nodes[..i]) + LegsOf(nodes[i])
  {
    assert nodes[..i + 1][..i] == nodes[..i];
  }

  /** The hash `parse_box` returns, or the NoMethodError raised by
      `head.at_css` when the box has no `.connection-head`. */
  function ParsedBox(box: BoxNode): (r: Result<Connection>)
    ensures r.Err? <==> box.head.None?
  {
    match box.head
    case None => Err("NoMethodError")
    case Some(head) =>
      var timeText := if head.h2.Some? then MapOption(head.h2.value, Strip) else None;
      Ok(Connection(box.id, timeText, MapOption(head.dateAfter, Strip), MapOption(head.total, Strip),
                    PriceKc(box.price), LegRecords(box.legs)))
  }

  /** The body of the `each` loop over the leg elements: the transit record,
      then the WALK record when the collapsed walk note is non-empty. */
  method ParseLeg(n: LegNode) returns (records: seq<Leg>)
    ensures records == LegsOf(n)
  {
    var dep := n.depPrimary.Or(n.depFallback);
    var arr := n.arrPrimary.Or(n.arrFallback);
    var transit := Transit(MapOption(n.line, Strip), MapOption(n.owner, Strip), MapOption(n.specs, CollapseSpaces),
                           StationTime(dep), StationStop(dep), StationTime(arr), StationStop(arr));
    records := [transit];
    var walkNote := MapOption(n.walk, CollapseSpaces);
    if walkNote.Some? && walkNote.value != "" {
      records := records + [Walk(walkNote.value)];
    }
  }

  /** `parse_box`: the header fields, then `legs << ...` for every leg element. */
  method ParseBox(box: BoxNode) returns (r: Result<Connection>)
    ensures r == ParsedBox(box)
  {
    if box.head.None? {
      return Err("NoMethodError");
    }
    var head := box.head.value;
    var timeText := if head.h2.Some? then MapOption(head.h2.value, Strip) else None;
    var dateAfter := MapOption(head.dateAfter, Strip);
    var total := MapOption(head.total, Strip);
    var priceKc := PriceKc(box.price);
    var legs: seq<Leg> := [];
    var i := 0;
    while i < |box.legs|
      invariant 0 <= i <= |box.legs|
      invariant legs == LegRecords(box.legs[..i])
    {
      var n := box.legs[i];
      var records := ParseLeg(n);
      legs := legs + records;
      LegRecordsSnoc(box.legs, i);
      i := i + 1;
    }
    assert box.legs[..i] == box.legs;
    r := Ok(Connection(box.id, timeText, dateAfter, total, priceKc, legs));
  }

  /** Legs never start with WALK and never hold two WALKs in a row. */
  predicate WellSequenced(legs: seq<Leg>) {
    && (|legs| > 0 ==> legs[0].Transit?)
    && forall i :: 0 <= i < |legs| - 1 ==> !(legs[i].Walk? && legs[i + 1].Walk?)
  }

  lemma WellSequencedAppend(a: seq<Leg>, b: seq<Leg>)
    requires WellSequenced(a) && WellSequenced(b) && b != []
    ensures WellSequenced(a + b)
  {
    var ab := a + b;
    forall i | 0 <= i < |ab| - 1
      ensures !(ab[i].Walk? && ab[i + 1].Walk?)
    {
      if i + 1 < |a| {
        assert ab[i] == a[i] && ab[i + 1] == a[i + 1];
      } else if i + 1 == |a| {
        assert ab[i + 1] == b[0];
      } else {
        assert ab[i] == b[i - |a|] && ab[i + 1] == b[i + 1 - |a|];
      }
    }
    if a != [] {
      assert ab[0] == a[0];
    }
  }

  lemma {:induction false} LegRecordsWellSequenced(nodes: seq<LegNode>)
    ensures WellSequenced(LegRecords(nodes))
    ensures |LegRecords(nodes)| > 0 <==> |nodes| > 0
  {
    if nodes != [] {
      var init := nodes[..|nodes| - 1];
      LegRecordsWellSequenced(init);
      WellSequencedAppend(LegRecords(init), LegsOf(nodes[|nodes| - 1]));
    }
  }

  /** The transit records of a leg list, in order. */
  function Transits(legs: seq<Leg>): seq<Leg> {
    if legs == [] then []
    else (if legs[0].Transit? then [legs[0]] else []) + Transits(legs[1..])
  }

  lemma {:induction false} TransitsAppend(a: seq<Leg>, b: seq<Leg>)
    ensures Transits(a + b) == Transits(a) + Transits(b)
  {
    if a != [] {
      assert (a + b)[1..] == a[1..] + b;
      TransitsAppend(a[1..], b);
    } else {
      assert a + b == b;
    }
  }

  lemma TransitsOfLegs(n: LegNode)
    ensures Transits(LegsOf(n)) == [TransitOf(n)]
  {
    var b := LegsOf(n);
    if |b| == 2 {
      assert b[1..][1..] == [];
      assert Transits(b[1..]) == [];
    } else {
      assert b[1..] == [];
    }
  }

  /** Every leg element yields exactly one transit record, in document order. */
  lemma {:induction false} OneTransitPerLeg(nodes: seq<LegNode>)
    ensures Transits(LegRecords(nodes)) == seq(|nodes|, i requires 0 <= i < |nodes| => TransitOf(nodes[i]))
  {
    if nodes != [] {
      var init := nodes[..|nodes| - 1];
      var last := nodes[|nodes| - 1];
      OneTransitPerLeg(init);
      TransitsAppend(LegRecords(init), LegsOf(last));
      var b := LegsOf(last);
      TransitsOfLegs(last);
      var f := i requires 0 <= i < |nodes| => TransitOf(nodes[i]);
      var g := i requires 0 <= i < |init| => TransitOf(init[i]);
      assert seq(|nodes|, f) == seq(|init|, g) + [TransitOf(last)];
    }
  }

  /** `parse_connections`: the first `limit` boxes, one record per box, in
      document order; a box without legs is kept. A box without a head aborts
      the whole parse. */
  function ParseConnections(boxes: seq<BoxNode>, limit: nat): (r: Result<seq<Connection>>)
    ensures r.Err? <==> exists i :: 0 <= i < |boxes| && i < limit && boxes[i].head.None?
    ensures r.Ok? ==> |r.value| == if |boxes| < limit then |boxes| else limit
    ensures r.Ok? ==> forall i :: 0 <= i < |r.value| ==> Ok(r.value[i]) == ParsedBox(boxes[i])
    decreases |boxes|
  {
    if boxes == [] || limit == 0 then Ok([])
    else
      match ParsedBox(boxes[0])
      case Err(e) => Err(e)
      case Ok(c) =>
        match ParseConnections(boxes[1..], limit - 1)
        case Err(e) =>
          var i :| 0 <= i < |boxes[1..]| && i < limit - 1 && boxes[1..][i].head.None?;
          assert boxes[i + 1] == boxes[1..][i];
          Err(e)
        case Ok(rest) =>
          assert forall i :: 1 <= i < |boxes| && i < limit ==> boxes[i] == boxes[1..][i - 1];
          Ok([c] + rest)
  }

  /** Every connection the parser returns has well-sequenced legs. */
  lemma ParsedLegsWellSequenced(boxes: seq<BoxNode>, limit: nat)
    requires ParseConnections(boxes, limit).Ok?
    ensures forall c :: c in ParseConnections(boxes, limit).value ==> WellSequenced(c.legs)
  {
    var cs := ParseConnections(boxes, limit).value;
    forall c | c in cs ensures WellSequenced(c.legs) {
      var i :| 0 <= i < |cs| && cs[i] == c;
      LegRecordsWellSequenced(boxes[i].legs);
    }
  }
}
