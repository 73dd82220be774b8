/** The daily report (lib/bot/report.rb): a ladder of early returns for a
    missing city, an unknown city and a silent weather service, then the
    report body, in which the music and news parts fall back to text of
    their own when their sources fail. What the collaborators returned
    (the stored city, the geocoded place, the forecast, the three random
    music picks and the news summary) are the inputs. */
module Report {
  import opened Wrappers
  import opened Text
  import Weather

  const EmDash: char := '\U{2014}'

  // ---------------------------------------------------------------------------
  // line =~ /^\s*\d+\.\s*(.+?)\s+—\s+(https?:\/\/\S+)/

  predicate NotRegexSpace(c: char) {
    !IsRegexSpace(c)
  }

  /** `.` outside multi-line mode matches anything but a line break. */
  predicate NotNewline(c: char) {
    c != '\n'
  }

  predicate AllIn(s: string, i: nat, j: nat, p: char -> bool)
    requires i <= j <= |s|
  {
    forall k :: i <= k < j ==> p(s[k])
  }

  /** "http" at `u`. */
  predicate HttpAt(s: string, u: nat) {
    u + 4 <= |s| && s[u] == 'h' && s[u + 1] == 't' && s[u + 2] == 't' && s[u + 3] == 'p'
  }

  /** "://" at `u`. */
  predicate SlashesAt(s: string, u: nat) {
    u + 3 <= |s| && s[u] == ':' && s[u + 1] == '/' && s[u + 2] == '/'
  }

  /** Where `https?:\/\/` ends when it matches at `u`; the optional `s` is
      tried first. */
  function SchemeEnd(s: string, u: nat): (r: Option<nat>)
    ensures r.Some? ==> u + 7 <= r.value <= |s|
  {
    if !HttpAt(s, u) then None
    else if u + 4 < |s| && s[u + 4] == 's' && SlashesAt(s, u + 5) then Some(u + 8)
    else if SlashesAt(s, u + 4) then Some(u + 7)
    else None
  }

  /** `https?:\/\/\S+` occupies `s[j..e]`. */
  predicate SchemeAt(s: string, j: nat, e: nat) {
    SchemeEnd(s, j).Some? && SchemeEnd(s, j).value < e
  }

  /** Where each piece of a match of the news-line pattern starts: the line
      start, the digits, the dot, the title, the dash, the URL. */
  datatype Match = Match(start: nat, digits: nat, dot: nat, titleStart: nat, titleEnd: nat,
                         dash: nat, urlStart: nat, urlEnd: nat)

  predicate Ordered(m: Match) {
    m.titleStart < m.titleEnd < m.dash < m.urlStart < m.urlEnd
  }

  /** `m` is one way the pattern matches `s`. */
  predicate IsMatch(s: string, m: Match) {
    && m.start <= m.digits < m.dot < m.titleStart < m.titleEnd < m.dash
    && m.dash + 1 < m.urlStart < m.urlEnd <= |s|
    && LineStart(s, m.start)
    && AllIn(s, m.start, m.digits, IsRegexSpace)
    && AllIn(s, m.digits, m.dot, IsDigit)
    && s[m.dot] == '.'
    && AllIn(s, m.dot + 1, m.titleStart, IsRegexSpace)
    && AllIn(s, m.titleStart, m.titleEnd, NotNewline)
    && AllIn(s, m.titleEnd, m.dash, IsRegexSpace)
    && s[m.dash] == EmDash
    && AllIn(s, m.dash + 1, m.urlStart, IsRegexSpace)
    && SchemeAt(s, m.urlStart, m.urlEnd)
    && AllIn(s, m.urlStart, m.urlEnd, NotRegexSpace)
  }

  /** `\s+—\s+(https?:\/\/\S+)` occupies `s[e..x]`, with the dash at `d`
      and the URL at `s[u..x]`. */
  predicate UrlPart(s: string, e: nat, d: nat, u: nat, x: nat) {
    && e < d && d + 1 < u < x <= |s|
    && AllIn(s, e, d, IsRegexSpace)
    && s[d] == EmDash
    && AllIn(s, d + 1, u, IsRegexSpace)
    && SchemeAt(s, u, x)
    && AllIn(s, u, x, NotRegexSpace)
  }

  /** `\s+—\s+(https?:\/\/\S+)` tried at `e`, where the title would end: the
      dash and the URL's span. Each run of `\s` is followed by a character
      it cannot take, so only its longest form can succeed. */
  function UrlFrom(s: string, e: nat): (r: Option<(nat, nat, nat)>)
    requires e <= |s|
    ensures r.Some? ==> e < r.value.0 && r.value.0 + 1 < r.value.1 < r.value.2 <= |s|
  {
    var d := RunEnd(s, e, IsRegexSpace);
    if d == e || d == |s| || s[d] != EmDash then None else UrlAfterDash(s, d)
  }

  /** `\s+(https?:\/\/\S+)` after the dash at `d`; `\S+` ends the pattern and
      takes all it can. */
  function UrlAfterDash(s: string, d: nat): (r: Option<(nat, nat, nat)>)
    requires d < |s|
    ensures r.Some? ==> r.value.0 == d && d + 1 < r.value.1 < r.value.2 <= |s|
  {
    var u := RunEnd(s, d + 1, IsRegexSpace);
    if u == d + 1 then None
    else
      match SchemeEnd(s, u)
      case None => None
      case Some(h) =>
        var end := RunEnd(s, h, NotRegexSpace);
        if end == h then None else Some((d, u, end))
  }

  /** What `UrlFrom` finds is the URL part, and its `\S+` is maximal. */
  lemma UrlFromSound(s: string, e: nat)
    requires e <= |s| && UrlFrom(s, e).Some?
    ensures var (d, u, x) := UrlFrom(s, e).value;
      UrlPart(s, e, d, u, x) && (x == |s| || IsRegexSpace(s[x]))
  {
    var d := RunEnd(s, e, IsRegexSpace);
    var u := RunEnd(s, d + 1, IsRegexSpace);
    var h := SchemeEnd(s, u).value;
    var x := RunEnd(s, h, NotRegexSpace);
    assert UrlFrom(s, e) == Some((d, u, x));
  }

  /** The lazy `(.+?)`: title ends are tried from `e` upward, and the first
      after which the URL part matches is taken; `.` stops at a line
      break. */
  function TitleFrom(s: string, e: nat): (r: Option<(nat, (nat, nat, nat))>)
    requires 0 < e <= |s|
    ensures r.Some? ==> e <= r.value.0 < r.value.1.0 < r.value.1.1 < r.value.1.2 <= |s|
    decreases |s| - e
  {
    if s[e - 1] == '\n' then None
    else
      match UrlFrom(s, e)
      case Some(u) => Some((e, u))
      case None => if e == |s| then None else TitleFrom(s, e + 1)
  }

  /** The title that `TitleFrom` finds is one line, and the URL part follows
      it. */
  lemma {:induction false} TitleFromSound(s: string, t: nat, e: nat)
    requires t < e <= |s|
    requires AllIn(s, t, e - 1, NotNewline)
    ensures var r := TitleFrom(s, e);
      r.Some? ==> AllIn(s, t, r.value.0, NotNewline) && UrlFrom(s, r.value.0) == Some(r.value.1)
    decreases |s| - e
  {
    if s[e - 1] != '\n' && UrlFrom(s, e).None? && e < |s| {
      TitleFromSound(s, t, e + 1);
    }
  }

  /** The `\s*` after the dot gives back one character at a time: the title
      starts at `c`, then at `c - 1`, down to `lo`. */
  function TitleBack(s: string, lo: nat, c: nat): (r: Option<(nat, nat, (nat, nat, nat))>)
    requires lo <= c <= |s|
    ensures r.Some? ==> lo <= r.value.0 <= c && r.value.0 < r.value.1 < r.value.2.0 < r.value.2.1 < r.value.2.2 <= |s|
    decreases c - lo
  {
    var m := if c < |s| then TitleFrom(s, c + 1) else None;
    if m.Some? then Some((c, m.value.0, m.value.1))
    else if c == lo then None
    else TitleBack(s, lo, c - 1)
  }

  lemma {:induction false} TitleBackSound(s: string, lo: nat, c: nat)
    requires lo <= c <= |s|
    requires AllIn(s, lo, c, IsRegexSpace)
    ensures var r := TitleBack(s, lo, c);
      r.Some? ==>
        && AllIn(s, lo, r.value.0, IsRegexSpace)
        && AllIn(s, r.value.0, r.value.1, NotNewline)
        && UrlFrom(s, r.value.1) == Some(r.value.2)
    decreases c - lo
  {
    if c < |s| && TitleFrom(s, c + 1).Some? {
      TitleFromSound(s, c, c + 1);
    } else if c > lo {
      TitleBackSound(s, lo, c - 1);
    }
  }

  /** The pattern tried at `p`. The leading `\s*` and `\d+` are each followed
      by a character they cannot take, so only their longest forms can
      succeed. */
  function MatchAt(s: string, p: nat): (r: Option<Match>)
    requires p <= |s|
    ensures r.Some? ==> r.value.start == p && Ordered(r.value) && r.value.urlEnd <= |s|
  {
    var a := RunEnd(s, p, IsRegexSpace);
    var b := RunEnd(s, a, IsDigit);
    if b == a || b == |s| || s[b] != '.' then None
    else
      match TitleBack(s, b + 1, RunEnd(s, b + 1, IsRegexSpace))
      case None => None
      case Some((ts, te, (d, u, e))) => Some(Match(p, a, b, ts, te, d, u, e))
  }

  lemma MatchAtSound(s: string, p: nat)
    requires p <= |s| && LineStart(s, p) && MatchAt(s, p).Some?
    ensures IsMatch(s, MatchAt(s, p).value)
    ensures var m := MatchAt(s, p).value; m.urlEnd == |s| || IsRegexSpace(s[m.urlEnd])
  {
    var a := RunEnd(s, p, IsRegexSpace);
    var b := RunEnd(s, a, IsDigit);
    var c := RunEnd(s, b + 1, IsRegexSpace);
    var t := TitleBack(s, b + 1, c).value;
    assert MatchAt(s, p).value == Match(p, a, b, t.0, t.1, t.2.0, t.2.1, t.2.2);
    MatchSound(s, p, a, b, c, t);
  }

  lemma MatchSound(s: string, p: nat, a: nat, b: nat, c: nat, t: (nat, nat, (nat, nat, nat)))
    requires p <= a <= b < |s| && LineStart(s, p)
    requires a == RunEnd(s, p, IsRegexSpace) && b == RunEnd(s, a, IsDigit) && a < b && s[b] == '.'
    requires c == RunEnd(s, b + 1, IsRegexSpace) && TitleBack(s, b + 1, c) == Some(t)
    ensures IsMatch(s, Match(p, a, b, t.0, t.1, t.2.0, t.2.1, t.2.2))
    ensures t.2.2 == |s| || IsRegexSpace(s[t.2.2])
  {
    TitleBackSound(s, b + 1, c);
    UrlFromSound(s, t.1);
  }

  /** `=~`: the leftmost line start at or after `p` where the pattern
      matches. */
  function Search(s: string, p: nat): (r: Option<Match>)
    requires p <= |s|
    ensures r.Some? ==> p <= r.value.start && Ordered(r.value) && r.value.urlEnd <= |s|
    decreases |s| - p
  {
    var m := if LineStart(s, p) then MatchAt(s, p) else None;
    if m.Some? then m
    else if p == |s| then None
    else Search(s, p + 1)
  }

  /** Whatever `Search` finds is a match of the pattern, with a maximal
      URL. */
  lemma {:induction false} SearchSound(s: string, p: nat)
    requires p <= |s| && Search(s, p).Some?
    ensures IsMatch(s, Search(s, p).value)
    ensures var m := Search(s, p).value; m.urlEnd == |s| || IsRegexSpace(s[m.urlEnd])
    decreases |s| - p
  {
    if LineStart(s, p) && MatchAt(s, p).Some? {
      MatchAtSound(s, p);
    } else {
      assert p < |s|;
      SearchSound(s, p + 1);
    }
  }

  /** `$1` and `$2` after `line =~ PATTERN`. */
  function NewsMatch(line: string): Option<(string, string)> {
    match Search(line, 0)
    case None => None
    case Some(m) => Some((line[m.titleStart..m.titleEnd], line[m.urlStart..m.urlEnd]))
  }

  /** What `$1` can be: one line of at least one character. */
  predicate OneLineTitle(title: string) {
    title != [] && '\n' !in title
  }

  /** What `$2` can be: a scheme followed by characters none of which is a
      space. */
  predicate BareUrl(url: string) {
    SchemeAt(url, 0, |url|) && forall i :: 0 <= i < |url| ==> !IsRegexSpace(url[i])
  }

  /** A title is one line of at least one character; a URL has a scheme and
      holds no space. */
  lemma NewsMatchSpec(line: string)
    ensures NewsMatch(line).Some? ==> OneLineTitle(NewsMatch(line).value.0)
    ensures NewsMatch(line).Some? ==> BareUrl(NewsMatch(line).value.1)
  {
    if Search(line, 0).Some? {
      var m := Search(line, 0).value;
      SearchSound(line, 0);
      TitleSlice(line, m.titleStart, m.titleEnd);
      UrlSlice(line, m.urlStart, m.urlEnd);
    }
  }

  lemma TitleSlice(s: string, t: nat, e: nat)
    requires t < e <= |s| && AllIn(s, t, e, NotNewline)
    ensures OneLineTitle(s[t..e])
  {
    assert forall i :: 0 <= i < e - t ==> s[t..e][i] == s[t + i];
  }

  lemma UrlSlice(s: string, u: nat, x: nat)
    requires u < x <= |s| && SchemeAt(s, u, x) && AllIn(s, u, x, NotRegexSpace)
    ensures BareUrl(s[u..x])
  {
    var url := s[u..x];
    assert forall i :: 0 <= i < |url| ==> url[i] == s[u + i];
    SchemeShift(s, u, url);
  }

  /** The scheme is read from the characters at `u` onwards alone. */
  lemma SchemeShift(s: string, u: nat, t: string)
    requires u + |t| <= |s|
    requires forall k :: 0 <= k < |t| ==> s[u + k] == t[k]
    ensures SchemeAt(t, 0, |t|) ==> SchemeEnd(s, u) == Some(u + SchemeEnd(t, 0).value)
    ensures SchemeAt(s, u, u + |t|) ==> SchemeEnd(t, 0) == Some(SchemeEnd(s, u).value - u)
  {
  }

  /** The bulleted link a matched line becomes. */
  function Anchor(title: string, url: string): string {
    "\U{2022} <a href=\"" + HtmlEscape(url) + "\">" + HtmlEscape(title) + "</a>"
  }

  /** How a link line opens. */
  const LinkOpen: string := "\U{2022} <a href=\""

  /** One news line of the report: a numbered "title — URL" line becomes a
      bulleted link, anything else is shown escaped, so a line is shown as a
      link exactly when it matches, whatever markup it holds. */
  function RenderLine(line: string): (r: string)
    ensures NewsMatch(line).Some? <==> PrefixOf(LinkOpen, r)
  {
    match NewsMatch(line)
    case Some((title, url)) => Anchor(title, url)
    case None =>
      var e := HtmlEscape(line);
      assert !PrefixOf(LinkOpen, e) by {
        if |LinkOpen| <= |e| {
          assert e[..|LinkOpen|][2] != LinkOpen[2];
        }
      }
      e
  }

  // ---------------------------------------------------------------------------
  // What the match makes of a summary line

  /** The character positions of "N. name — link". */
  lemma SummaryLineLayout(s: string, n: string, name: string, link: string, te: nat)
    requires s == n + ". " + name + " \U{2014} " + link && te == |n| + 2 + |name|
    ensures |s| == te + 3 + |link|
    ensures forall k :: 0 <= k < |n| ==> s[k] == n[k]
    ensures s[|n|] == '.' && s[|n| + 1] == ' '
    ensures forall k :: 0 <= k < |name| ==> s[|n| + 2 + k] == name[k]
    ensures s[te] == ' ' && s[te + 1] == EmDash && s[te + 2] == ' '
    ensures forall k :: 0 <= k < |link| ==> s[te + 3 + k] == link[k]
  {
  }

  /** What the name contributes at its place in the line. */
  lemma NameSpan(s: string, ts: nat, te: nat, name: string)
    requires te == ts + |name| <= |s|
    requires forall k :: 0 <= k < |name| ==> s[ts + k] == name[k]
    requires name != [] && !IsRegexSpace(name[0]) && !IsRegexSpace(name[|name| - 1])
    requires EmDash !in name && '\n' !in name
    ensures !IsRegexSpace(s[ts]) && !IsRegexSpace(s[te - 1])
    ensures forall k :: ts <= k < te ==> s[k] != EmDash && s[k] != '\n'
    ensures s[ts..te] == name
  {
    assert s[ts + 0] == name[0];
    assert s[ts + (|name| - 1)] == name[|name| - 1];
    forall k | ts <= k < te
      ensures s[k] == name[k - ts]
    {
      assert s[ts + (k - ts)] == name[k - ts];
    }
  }

  /** A title end inside the name: the spaces from there are followed by a
      character of the name, which is not a dash. */
  lemma NoUrlInsideName(s: string, ts: nat, te: nat, e: nat)
    requires ts < e < te <= |s|
    requires !IsRegexSpace(s[te - 1])
    requires forall k :: ts <= k < te ==> s[k] != EmDash
    ensures UrlFrom(s, e) == None
  {
    var d := RunEnd(s, e, IsRegexSpace);
    assert d < te;
  }

  /** Equal neighbours all the way from `e` to `te` make the ends equal. */
  lemma {:induction false} StepsEqual<X>(f: nat -> X, e: nat, te: nat)
    requires e <= te
    requires forall k :: e <= k < te ==> f(k) == f(k + 1)
    ensures f(e) == f(te)
    decreases te - e
  {
    if e < te {
      StepsEqual(f, e + 1, te);
    }
  }

  /** The lazy title stops at the end of the name: no title end inside it
      lets the URL part match. */
  lemma TitleEndsAtName(s: string, ts: nat, te: nat, e: nat)
    requires ts < e <= te <= |s|
    requires !IsRegexSpace(s[te - 1])
    requires forall k :: ts <= k < te ==> s[k] != EmDash && s[k] != '\n'
    ensures TitleFrom(s, e) == TitleFrom(s, te)
  {
    var f := (k: nat) => if 0 < k <= |s| then TitleFrom(s, k) else None;
    forall k | e <= k < te
      ensures f(k) == f(k + 1)
    {
      TitleStepInName(s, ts, te, k);
    }
    StepsEqual(f, e, te);
  }

  lemma TitleAt(s: string, e: nat)
    requires 0 < e <= |s| && s[e - 1] != '\n' && UrlFrom(s, e).Some?
    ensures TitleFrom(s, e) == Some((e, UrlFrom(s, e).value))
  {
  }

  lemma TitleStepInName(s: string, ts: nat, te: nat, e: nat)
    requires ts < e < te <= |s|
    requires !IsRegexSpace(s[te - 1])
    requires forall k :: ts <= k < te ==> s[k] != EmDash && s[k] != '\n'
    ensures TitleFrom(s, e) == TitleFrom(s, e + 1)
  {
    NoUrlInsideName(s, ts, te, e);
    assert s[e - 1] != '\n';
  }

  /** After the name, " — " and a link with a scheme, the URL part matches
      and takes the whole link. */
  lemma UrlAfterName(s: string, te: nat, link: string)
    requires |s| == te + 3 + |link|
    requires s[te] == ' ' && s[te + 1] == EmDash && s[te + 2] == ' '
    requires forall k :: 0 <= k < |link| ==> s[te + 3 + k] == link[k]
    requires SchemeAt(link, 0, |link|)
    requires forall i :: 0 <= i < |link| ==> !IsRegexSpace(link[i])
    ensures UrlFrom(s, te) == Some((te + 1, te + 3, |s|))
  {
    var u := te + 3;
    assert s[u] == link[0];
    RunEndAt(s, te, te + 1, IsRegexSpace);
    RunEndAt(s, te + 2, u, IsRegexSpace);
    SchemeShift(s, u, link);
    var h := SchemeEnd(s, u).value;
    assert forall k :: h <= k < |s| ==> s[k] == link[k - u];
    RunEndAt(s, h, |s|, NotRegexSpace);
    assert UrlAfterDash(s, te + 1) == Some((te + 1, u, |s|));
  }

  /** The pattern matches a line laid out as "N. name — link" at its start,
      with the title on the name and the URL on the link. */
  lemma SummaryMatchAt(s: string, n: nat, te: nat)
    requires 0 < n && n + 2 < te && te + 3 < |s|
    requires forall k :: 0 <= k < n ==> IsDigit(s[k])
    requires s[n] == '.' && s[n + 1] == ' ' && !IsRegexSpace(s[n + 2]) && !IsRegexSpace(s[te - 1])
    requires forall k :: n + 2 <= k < te ==> s[k] != EmDash && s[k] != '\n'
    requires UrlFrom(s, te) == Some((te + 1, te + 3, |s|))
    ensures Search(s, 0) == Some(Match(0, 0, n, n + 2, te, te + 1, te + 3, |s|))
  {
    RunEndAt(s, 0, 0, IsRegexSpace);
    RunEndAt(s, 0, n, IsDigit);
    RunEndAt(s, n + 1, n + 2, IsRegexSpace);
    TitleEndsAtName(s, n + 2, te, n + 3);
    TitleAt(s, te);
    assert TitleBack(s, n + 1, n + 2) == Some((n + 2, te, (te + 1, te + 3, |s|)));
    assert MatchAt(s, 0) == Some(Match(0, 0, n, n + 2, te, te + 1, te + 3, |s|));
  }

  /** `$1` and `$2` are the slices the match marks. */
  lemma NewsMatchOf(s: string, m: Match)
    requires Search(s, 0) == Some(m)
    ensures NewsMatch(s) == Some((s[m.titleStart..m.titleEnd], s[m.urlStart..m.urlEnd]))
  {
  }

  /** The number is all digits at the start of the line. */
  lemma DigitsSpan(s: string, n: string)
    requires |n| <= |s| && AllDigits(n)
    requires forall k :: 0 <= k < |n| ==> s[k] == n[k]
    ensures forall k :: 0 <= k < |n| ==> IsDigit(s[k])
  {
  }

  /** The link is where the layout puts it. */
  lemma LinkSlice(s: string, te: nat, link: string)
    requires |s| == te + 3 + |link|
    requires forall k :: 0 <= k < |link| ==> s[te + 3 + k] == link[k]
    ensures s[te + 3..|s|] == link
  {
  }

  /** What the number and the name of "N. name — link" give the pattern
      to work with. */
  lemma LaidOutName(s: string, n: string, name: string, te: nat)
    requires te == |n| + 2 + |name| < |s|
    requires AllDigits(n)
    requires forall k :: 0 <= k < |n| ==> s[k] == n[k]
    requires forall k :: 0 <= k < |name| ==> s[|n| + 2 + k] == name[k]
    requires name != [] && !IsRegexSpace(name[0]) && !IsRegexSpace(name[|name| - 1])
    requires EmDash !in name && '\n' !in name
    ensures forall k :: 0 <= k < |n| ==> IsDigit(s[k])
    ensures !IsRegexSpace(s[|n| + 2]) && !IsRegexSpace(s[te - 1])
    ensures forall k :: |n| + 2 <= k < te ==> s[k] != EmDash && s[k] != '\n'
    ensures s[|n| + 2..te] == name
  {
    NameSpan(s, |n| + 2, te, name);
    DigitsSpan(s, n);
  }

  /** The shape the pattern recognises: digits up to `nl`, ". ", a title
      from `nl + 2` to `te` that starts and ends with a non-space and holds no
      dash and no line break, then the URL part up to the end of the line. */
  predicate NumberedLine(s: string, nl: nat, te: nat) {
    && 0 < nl && nl + 2 < te && te + 3 < |s|
    && (forall k :: 0 <= k < nl ==> IsDigit(s[k]))
    && s[nl] == '.' && s[nl + 1] == ' ' && !IsRegexSpace(s[nl + 2]) && !IsRegexSpace(s[te - 1])
    && (forall k :: nl + 2 <= k < te ==> s[k] != EmDash && s[k] != '\n')
    && UrlFrom(s, te) == Some((te + 1, te + 3, |s|))
  }

  /** The pattern reads the title and the URL back from such a line. */
  lemma NumberedLineMatch(s: string, nl: nat, te: nat)
    requires NumberedLine(s, nl, te)
    ensures NewsMatch(s) == Some((s[nl + 2..te], s[te + 3..|s|]))
  {
    SummaryMatchAt(s, nl, te);
    NewsMatchOf(s, Match(0, 0, nl, nl + 2, te, te + 1, te + 3, |s|));
  }

  /** "N. name — link" has that shape, with the name and the link where the
      title and the URL are read. */
  lemma SummaryLineShape(s: string, n: string, name: string, link: string, te: nat)
    requires s == n + ". " + name + " \U{2014} " + link && te == |n| + 2 + |name|
    requires |n| >= 1 && AllDigits(n)
    requires name != [] && !IsRegexSpace(name[0]) && !IsRegexSpace(name[|name| - 1])
    requires EmDash !in name && '\n' !in name
    requires SchemeAt(link, 0, |link|)
    requires forall k :: 0 <= k < |link| ==> !IsRegexSpace(link[k])
    ensures NumberedLine(s, |n|, te)
    ensures s[|n| + 2..te] == name && s[te + 3..|s|] == link
  {
    SummaryLineLayout(s, n, name, link, te);
    LaidOutName(s, n, name, te);
    UrlAfterName(s, te, link);
    LinkSlice(s, te, link);
  }

  /** A line laid out as "N. name — link" yields the name and the link. */
  lemma LaidOutLineMatch(s: string, n: string, name: string, link: string)
    requires s == n + ". " + name + " \U{2014} " + link
    requires |n| >= 1 && AllDigits(n)
    requires name != [] && !IsRegexSpace(name[0]) && !IsRegexSpace(name[|name| - 1])
    requires EmDash !in name && '\n' !in name
    requires SchemeAt(link, 0, |link|)
    requires forall k :: 0 <= k < |link| ==> !IsRegexSpace(link[k])
    ensures NewsMatch(s) == Some((name, link))
  {
    var te := |n| + 2 + |name|;
    SummaryLineShape(s, n, name, link, te);
    NumberedLineMatch(s, |n|, te);
  }

  /** A line as `summary_lines` writes it, "N. name — link", yields the name
      and the link, whenever the name is one line without a dash that starts
      and ends with a non-space, and the link is an http(s) URL without
      spaces. */
  lemma SummaryLineMatch(i: nat, name: string, link: string)
    requires name != [] && !IsRegexSpace(name[0]) && !IsRegexSpace(name[|name| - 1])
    requires EmDash !in name && '\n' !in name
    requires SchemeAt(link, 0, |link|)
    requires forall k :: 0 <= k < |link| ==> !IsRegexSpace(link[k])
    ensures NewsMatch(NatToString(i) + ". " + name + " \U{2014} " + link) == Some((name, link))
  {
    LaidOutLineMatch(NatToString(i) + ". " + name + " \U{2014} " + link, NatToString(i), name, link);
  }

  /** Such a line is shown as a bulleted link. */
  lemma SummaryLineRendered(i: nat, name: string, link: string)
    requires name != [] && !IsRegexSpace(name[0]) && !IsRegexSpace(name[|name| - 1])
    requires EmDash !in name && '\n' !in name
    requires SchemeAt(link, 0, |link|)
    requires forall k :: 0 <= k < |link| ==> !IsRegexSpace(link[k])
    ensures RenderLine(NatToString(i) + ". " + name + " \U{2014} " + link) == Anchor(name, link)
  {
    SummaryLineMatch(i, name, link);
  }

  /** A line without a dash is only escaped. */
  lemma LineWithoutDash(line: string)
    requires EmDash !in line
    ensures RenderLine(line) == HtmlEscape(line)
  {
    if Search(line, 0).Some? {
      SearchSound(line, 0);
      assert false;
    }
  }

  // ---------------------------------------------------------------------------
  // news_block

  const NoNews: string := "_No news available right now._"

  function RenderLines(lines: seq<string>): (r: seq<string>)
    ensures |r| == |lines|
    ensures forall k :: 0 <= k < |lines| ==> r[k] == RenderLine(lines[k])
  {
    seq(|lines|, k requires 0 <= k < |lines| => RenderLine(lines[k]))
  }

  /** The news part of the body. A failed summary counts as no news and
      the block is the placeholder; otherwise it holds one line per news
      line, each rendered, in order. */
  function NewsBlock(news: Result<seq<string>>): (r: string)
    ensures news.Err? || news.value == [] ==> r == NoNews
    ensures news.Ok? && news.value != [] && (forall k :: 0 <= k < |news.value| ==> '\n' !in news.value[k]) ==>
      Split(r, '\n') == RenderLines(news.value)
  {
    var lines := if news.Ok? then news.value else [];
    if lines == [] then NoNews
    else
      RenderedLinesSplit(lines);
      Join(RenderLines(lines), "\n")
  }

  /** Rendered lines are cut back apart at the line breaks that join them. */
  lemma RenderedLinesSplit(lines: seq<string>)
    requires lines != []
    ensures (forall k :: 0 <= k < |lines| ==> '\n' !in lines[k]) ==>
      Split(Join(RenderLines(lines), "\n"), '\n') == RenderLines(lines)
  {
    if forall k :: 0 <= k < |lines| ==> '\n' !in lines[k] {
      var r := RenderLines(lines);
      forall k | 0 <= k < |r|
        ensures '\n' !in r[k]
      {
        RenderLineNewlines(lines[k]);
      }
      SplitJoin(r, '\n');
    }
  }

  lemma AnchorNewlines(title: string, url: string)
    requires '\n' !in title && '\n' !in url
    ensures '\n' !in Anchor(title, url)
  {
    HtmlEscapeNewlines(url);
    HtmlEscapeNewlines(title);
  }

  /** A rendered line holds a line break only where its source line did. */
  lemma RenderLineNewlines(line: string)
    requires '\n' !in line
    ensures '\n' !in RenderLine(line)
  {
    var r := NewsMatch(line);
    NewsMatchSpec(line);
    if r.Some? {
      assert forall i :: 0 <= i < |r.value.1| ==> r.value.1[i] != '\n';
      AnchorNewlines(r.value.0, r.value.1);
    } else {
      HtmlEscapeNewlines(line);
    }
  }

  // ---------------------------------------------------------------------------
  // build_fresh_report_for

  // The replies are written as their first word followed by the rest, and
  // the body pieces as the lines of the source's string, so that their first
  // characters are at hand.
  const AskCity: string := "Hey! " + "Before I can make your report, please tell me your city: send `w <city>`"
  const CityNotFound: string := "Hmm\U{2026} " + "I couldn't find that city. Could you double-check the spelling?"
  const WeatherDown: string := "Oops! " + "The weather service isn\U{2019}t responding right now."

  const Head: string := "<b>\U{1F30D} Daily Report for you:</b>\n\n" + "<b>\U{2600}\U{FE0F} Weather update:</b>\n"
  const NewsHead: string := "<b>\U{1F5DE}\U{FE0F} Top news:</b>\n"
  const MusicHead: string := "<b>\U{1F3B5} Today\U{2019}s music picks:</b>\n" + "From our music list: <i>"
  const SpotifyHead: string := "</i>\n" + "From Spotify playlist: <i>"
  const ExtraHead: string := "</i>\n\n" + "Another Spotify pick: <i>"
  const Foot: string := "</i>\n\n" + "Stay strong \U{1F4AA}"

  /** The music pick, or the text naming the exception that replaced it. */
  function MusicLine(pick: Result<string>): string {
    if pick.Ok? then pick.value else "No music data (" + pick.error + ")"
  }

  function SpotifyLine(pick: Result<string>): string {
    if pick.Ok? then pick.value else "No Spotify data (" + pick.error + ")"
  }

  /** The report body around the weather text, the news block and the three
      music lines, one piece after the other. */
  function Body(weather: string, news: string, music: string, spotify: string, extra: string): string {
    Head + (HtmlEscape(weather) + ("\n\n" + (NewsHead + (news + ("\n\n" + Picks(music, spotify, extra))))))
  }

  /** The music part of the body. */
  function Picks(music: string, spotify: string, extra: string): string {
    MusicHead + (HtmlEscape(music) + (SpotifyHead + (HtmlEscape(spotify) + (ExtraHead + (HtmlEscape(extra) + Foot)))))
  }

  /** `build_fresh_report_for`: `city` is the stored city, `place` the name
      of the geocoded place, `cur` the forecast's current conditions; the
      picks and the news are what the helpers returned or the class of the
      exception they raised. The guards are checked in order, and each
      result tells which one stopped the report: a city is asked for before
      any place is looked at, an unknown city is reported before the
      forecast is looked at, and a report body is built exactly when all
      three are present, whatever the music and news sources did. */
  function BuildReport(city: string, place: Option<string>, cur: Option<Weather.Current>,
                       music: Result<string>, spotify: Result<string>, extra: Result<string>,
                       news: Result<seq<string>>): (r: string)
    ensures r == AskCity <==> city == []
    ensures r == CityNotFound <==> city != [] && place.None?
    ensures r == WeatherDown <==> city != [] && place.Some? && cur.None?
    ensures PrefixOf("<b>", r) <==> city != [] && place.Some? && cur.Some?
  {
    RepliesDistinct();
    if city == [] then AskCity
    else if place.None? then CityNotFound
    else if cur.None? then WeatherDown
    else
      BodyOpensBold(Weather.FormatWeather(place.value, cur.value), NewsBlock(news),
                    MusicLine(music), SpotifyLine(spotify), SpotifyLine(extra));
      Body(Weather.FormatWeather(place.value, cur.value), NewsBlock(news),
           MusicLine(music), SpotifyLine(spotify), SpotifyLine(extra))
  }

  /** The three replies differ from each other, and only a report body
      opens with a bold tag. */
  lemma RepliesDistinct()
    ensures AskCity != CityNotFound && AskCity != WeatherDown && CityNotFound != WeatherDown
    ensures !PrefixOf("<b>", AskCity) && !PrefixOf("<b>", CityNotFound) && !PrefixOf("<b>", WeatherDown)
  {
    assert AskCity[0] == 'H' && AskCity[1] == 'e';
    assert CityNotFound[0] == 'H' && CityNotFound[1] == 'm';
    assert WeatherDown[0] == 'O';
  }

  lemma BodyOpensBold(weather: string, news: string, music: string, spotify: string, extra: string)
    ensures PrefixOf("<b>", Body(weather, news, music, spotify, extra))
  {
    var b := Body(weather, news, music, spotify, extra);
    assert Head[..3] == "<b>";
    assert b[..3] == Head[..3];
  }

  // ---------------------------------------------------------------------------
  // The inserted texts add no markup to the body

  /** An escaped text between two pieces adds nothing to their markup. */
  lemma MarkupAround(h: string, x: string, t: string)
    ensures Markup(h + (HtmlEscape(x) + t)) == Markup(h) + Markup(t)
  {
    MarkupConcat(h, HtmlEscape(x) + t);
    MarkupConcat(HtmlEscape(x), t);
    HtmlEscapeNoMarkup(x);
  }

  /** A blank line has no markup. */
  lemma MarkupBlankLine(t: string)
    ensures Markup("\n\n" + t) == Markup(t)
  {
    MarkupConcat("\n\n", t);
    MarkupFree("\n\n");
  }

  /** The markup of the music part is that of its four fixed pieces. */
  lemma PicksMarkup(music: string, spotify: string, extra: string)
    ensures Markup(Picks(music, spotify, extra))
         == Markup(MusicHead) + (Markup(SpotifyHead) + (Markup(ExtraHead) + Markup(Foot)))
  {
    var es, ee := HtmlEscape(spotify), HtmlEscape(extra);
    MarkupAround(MusicHead, music, SpotifyHead + (es + (ExtraHead + (ee + Foot))));
    MarkupAround(SpotifyHead, spotify, ExtraHead + (ee + Foot));
    MarkupAround(ExtraHead, extra, Foot);
  }

  /** The weather text and the three music lines are escaped where they are
      inserted, so the markup of the body, every character that opens or
      closes a tag or an attribute value, is that of the fixed pieces with
      the news block's in its place, whatever those texts hold. */
  lemma BodyMarkup(weather: string, news: string, music: string, spotify: string, extra: string)
    ensures Markup(Body(weather, news, music, spotify, extra))
         == Markup(Head) + (Markup(NewsHead) + (Markup(news) + (Markup(MusicHead)
              + (Markup(SpotifyHead) + (Markup(ExtraHead) + Markup(Foot))))))
  {
    var p := Picks(music, spotify, extra);
    var rest := NewsHead + (news + ("\n\n" + p));
    MarkupAround(Head, weather, "\n\n" + rest);
    MarkupBlankLine(rest);
    MarkupConcat(NewsHead, news + ("\n\n" + p));
    MarkupConcat(news, "\n\n" + p);
    MarkupBlankLine(p);
    PicksMarkup(music, spotify, extra);
  }
}
