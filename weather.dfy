/** Weather code classification and the five-line weather text of
    services/weather.rb. The HTTP calls are not modelled: the "current"
    record of the forecast arrives as a parameter, its numbers already in
    the text form Ruby's interpolation gives them. */
module Weather {
  import opened Wrappers
  import opened Text
  import opened Config

  /** `describe_code`: the table entry, or "Unknown weather". */
  function DescribeCode(code: Option<int>): (r: string)
    ensures code.Some? && WmoDescription(code.value).Some? ==> r == WmoDescription(code.value).value
    ensures code.None? || WmoDescription(code.value).None? ==> r == "Unknown weather"
  {
    if code.Some? then WmoDescription(code.value).GetOr("Unknown weather") else "Unknown weather"
  }

  /** `Hash#find` over the groups, in order: the first group whose list holds
      the code. */
  function FindGroup(groups: seq<(Group, seq<int>)>, code: int): (r: Option<Group>)
    ensures r.None? <==> forall i :: 0 <= i < |groups| ==> code !in groups[i].1
    ensures r.Some? ==> exists i :: 0 <= i < |groups| && groups[i].0 == r.value && code in groups[i].1
  {
    if groups == [] then None
    else if code in groups[0].1 then Some(groups[0].0)
    else
      var r := FindGroup(groups[1..], code);
      assert forall i :: 1 <= i < |groups| ==> groups[i] == groups[1..][i - 1];
      r
  }

  /** `group_for` (nil for nil). */
  function GroupFor(code: Option<int>): Option<Group> {
    if code.Some? then FindGroup(WeatherGroups, code.value) else None
  }

  /** `group_for` names the one group whose list holds the code, and nil
      when no list does. */
  lemma GroupForSpec(code: int, g: Group)
    ensures GroupFor(Some(code)) == Some(g) <==> code in CodesOf(g)
    ensures GroupFor(Some(code)).None? <==> forall h :: code !in CodesOf(h)
  {
    WeatherGroupsListsEveryGroup(g);
    var r := GroupFor(Some(code));
    if r.Some? {
      var i :| 0 <= i < |WeatherGroups| && WeatherGroups[i].0 == r.value && code in WeatherGroups[i].1;
      if code in CodesOf(g) {
        GroupsDisjoint(g, r.value, code);
      }
    }
    if r.None? {
      forall h ensures code !in CodesOf(h) {
        WeatherGroupsListsEveryGroup(h);
      }
    }
  }

  /** `note_for_group`: the note of the group, "" for nil. */
  function NoteForGroup(g: Option<Group>): (r: string)
    ensures g.None? <==> r == ""
    ensures g.Some? ==> r == WeatherNote(g.value)
  {
    if g.Some? then
      NotesNonEmpty(g.value);
      WeatherNote(g.value)
    else ""
  }

  /** The "current" fields `format_weather` reads, as interpolated text, and
      the WMO code (nil when absent). */
  datatype Current = Current(temperature: string, apparent: string, humidity: string, wind: string, code: Option<int>)

  const GlobeSuffix: string := " \U{011F}\U{0178}\U{0152}"
  const TipSeparator: string := " \U{00E2}\U{20AC}\U{201D} "

  /** The line with the description and, when there is one, the tip. */
  function DescriptionLine(code: Option<int>): (r: string)
    ensures NoteForGroup(GroupFor(code)) == "" ==> r == DescribeCode(code)
    ensures NoteForGroup(GroupFor(code)) != "" ==> r == DescribeCode(code) + TipSeparator + NoteForGroup(GroupFor(code))
  {
    var tip := NoteForGroup(GroupFor(code));
    DescribeCode(code) + (if tip == "" then "" else TipSeparator + tip)
  }

  function CodeText(code: Option<int>): string {
    if code.Some? then IntToString(code.value) else ""
  }

  /** The five lines of `format_weather`, in order. */
  function WeatherLines(placeName: string, cur: Current): (r: seq<string>)
    ensures |r| == 5
  {
    [ HeaderLine(placeName),
      DescriptionLine(cur.code),
      TemperatureLine(cur.temperature, cur.apparent),
      HumidityLine(cur.humidity, cur.wind),
      CodeLine(cur.code) ]
  }

  function HeaderLine(placeName: string): string {
    placeName + GlobeSuffix
  }

  function TemperatureLine(t: string, ap: string): string {
    TemperatureLabel + t + Degrees + FeelsLike + ap + Degrees + ")"
  }

  function HumidityLine(rh: string, ws: string): string {
    HumidityLabel + rh + "% " + MiddleDot + WindLabel + ws + " m/s"
  }

  function CodeLine(code: Option<int>): string {
    CodeLabel + CodeText(code)
  }

  const TemperatureLabel: string := "\U{011F}\U{0178}\U{0152}\U{00A1} Temperature: "
  const Degrees: string := "\U{00C2}\U{00B0}C"
  const FeelsLike: string := " (feels like "
  const HumidityLabel: string := "\U{011F}\U{0178}\U{2019}\U{00A7} Humidity: "
  const MiddleDot: string := "\U{00C2}\U{00B7} "
  const WindLabel: string := "\U{011F}\U{0178}\U{0152}\U{00AC} Wind: "
  const CodeLabel: string := "\U{011F}\U{0178}\U{2014}\U{00BA} WMO code: "

  /** `format_weather`. The place name heads the text and the WMO code ends
      it: splitting the text at line breaks gives the header line, the lines
      of the description line, then the temperature, humidity and code
      lines, whenever the place name and the interpolated values hold no
      line break. */
  function FormatWeather(placeName: string, cur: Current): (r: string)
    ensures NoBreakIn(placeName, cur) ==>
      var ls := WeatherLines(placeName, cur);
      Split(r, '\n') == [ls[0]] + Split(ls[1], '\n') + [ls[2], ls[3], ls[4]]
  {
    FormatWeatherLines(placeName, cur);
    Join(WeatherLines(placeName, cur), "\n")
  }

  /** The place name and the interpolated values hold no line break. */
  predicate NoBreakIn(placeName: string, cur: Current) {
    && '\n' !in placeName && '\n' !in cur.temperature && '\n' !in cur.apparent
    && '\n' !in cur.humidity && '\n' !in cur.wind
  }

  lemma FormatWeatherLines(placeName: string, cur: Current)
    ensures NoBreakIn(placeName, cur) ==>
      var ls := WeatherLines(placeName, cur);
      Split(Join(ls, "\n"), '\n') == [ls[0]] + Split(ls[1], '\n') + [ls[2], ls[3], ls[4]]
  {
    if NoBreakIn(placeName, cur) {
      var ls := WeatherLines(placeName, cur);
      FixedLinesHaveNoBreak(placeName, cur);
      assert ls == [ls[0], ls[1]] + ls[2..];
      assert "\n" == ['\n'];
      SplitJoinAround(ls[0], ls[1], ls[2..], '\n');
    }
  }

  lemma FixedLinesHaveNoBreak(placeName: string, cur: Current)
    requires '\n' !in placeName && '\n' !in cur.temperature && '\n' !in cur.apparent
    requires '\n' !in cur.humidity && '\n' !in cur.wind
    ensures var ls := WeatherLines(placeName, cur);
      '\n' !in ls[0] && forall i :: 2 <= i < 5 ==> '\n' !in ls[i]
  {
    HeaderHasNoBreak(placeName);
    TemperatureHasNoBreak(cur.temperature, cur.apparent);
    HumidityHasNoBreak(cur.humidity, cur.wind);
    CodeLineHasNoBreak(cur.code);
  }

  lemma HeaderHasNoBreak(placeName: string)
    requires '\n' !in placeName
    ensures '\n' !in HeaderLine(placeName)
  {
    assert '\n' !in GlobeSuffix;
  }

  lemma TemperatureHasNoBreak(t: string, ap: string)
    requires '\n' !in t && '\n' !in ap
    ensures '\n' !in TemperatureLine(t, ap)
  {
    assert '\n' !in TemperatureLabel;
    assert '\n' !in Degrees && '\n' !in FeelsLike;
  }

  lemma HumidityHasNoBreak(rh: string, ws: string)
    requires '\n' !in rh && '\n' !in ws
    ensures '\n' !in HumidityLine(rh, ws)
  {
    assert '\n' !in HumidityLabel;
    assert '\n' !in MiddleDot && '\n' !in WindLabel;
  }

  lemma CodeLineHasNoBreak(code: Option<int>)
    ensures '\n' !in CodeLine(code)
  {
    CodeTextHasNoBreak(code);
    assert '\n' !in CodeLabel;
  }

  lemma CodeTextHasNoBreak(code: Option<int>)
    ensures '\n' !in CodeText(code)
  {
    if code.Some? {
      var n := code.value;
      var s := IntToString(n);
      if n < 0 {
        assert s == "-" + NatToString(-n);
        assert AllDigits(NatToString(-n));
      } else {
        assert AllDigits(s);
      }
    }
  }
}
