/** The transport search conversation of lib/bot/transport.rb: the per-chat
    `BUS_FLOW` state machine, its replies, the rendering of the parsed
    connections and the `scan` that cuts the rendered text into messages.

    Fetching the results page is not modelled: what `Net::HTTP.get` gives
    back arrives as a parameter, already reduced to the connection boxes the
    parser selects, or as the class name of the exception it raised. */
module Transport {
  import opened Wrappers
  import opened Text
  import opened Config
  import opened Buses
  import opened Messaging
  import FormEncoding

  datatype Step = Idle | GroundZero | AskFrom | AskTo | AskDate | AskTime

  /** `state[:data]`: the answers collected so far. */
  datatype FlowData = FlowData(from: Option<string>, to: Option<string>, date: Option<string>, time: Option<string>)

  datatype Session = Session(step: Step, data: FlowData)

  const NoData: FlowData := FlowData(None, None, None, None)

  /** What `BUS_FLOW[chat_id]` gives for a chat it has not seen. */
  const FreshSession: Session := Session(Idle, NoData)

  /** The sessions the flow can be in: the origin is known from `AskTo` on,
      the destination from `AskDate` on, the date (possibly nil) only at
      `AskTime`, the time never outside the last step; the idle and opening
      steps carry no data. */
  predicate WellFormed(s: Session) {
    match s.step
    case Idle => s.data == NoData
    case GroundZero => s.data == NoData
    case AskFrom => s.data == NoData
    case AskTo => s.data == NoData.(from := s.data.from) && s.data.from.Some?
    case AskDate => s.data.from.Some? && s.data.to.Some? && s.data.date.None? && s.data.time.None?
    case AskTime => s.data.from.Some? && s.data.to.Some? && s.data.time.None?
  }

  // ---------------------------------------------------------------------------
  // Replies

  const RunningText: string := "Running transport search script..."
  const AskFromText: string := "From where? (start stop)"
  const AskToText: string := "To where? (destination stop)"
  const AskDateText: string := "Date? (DD.MM.YYYY) \U{2014} or send `today` / leave blank"
  const BadDateText: string := "Use DD.MM.YYYY (e.g. 11.08.2025) or `today`."
  const AskTimeText: string := "Time? (HH:MM) \U{2014} or send `now` / leave blank"
  const BadTimeText: string := "Use HH:MM (e.g. 05:10) or `now`."
  const NoConnectionsText: string := "No connections found \U{1F937}\U{200D}\U{2642}\U{FE0F}"
  const ClearButtonText: string := "Transport results ready. You can clear them below."

  function SorryText(errorClass: string): string {
    "Sorry, failed to parse results (" + errorClass + ")."
  }

  /** Every reply of the flow is tracked in the `:bus` list; only the clear
      button keeps the previous message. */
  function Tracked(text: string): Outgoing {
    Outgoing(text, true, Bus, false)
  }

  const ClearButton: Outgoing := Outgoing(ClearButtonText, true, Bus, true)

  function TrackedAll(texts: seq<string>): (r: seq<Outgoing>)
    ensures |r| == |texts| && forall i :: 0 <= i < |texts| ==> r[i] == Tracked(texts[i])
  {
    seq(|texts|, i requires 0 <= i < |texts| => Tracked(texts[i]))
  }

  // ---------------------------------------------------------------------------
  // Rendering

  /** `"#{x}"` of an optional text: nil interpolates as nothing. */
  function Shown(o: Option<string>): string {
    o.GetOr("")
  }

  const Bullet: string := " \U{2022} "
  const LegPrefix: string := "   \U{00B7} "

  /** The header line of the `n`-th connection. */
  function Header(c: Connection, n: nat): string {
    "#" + NatToString(n) + Bullet + Shown(c.departTime) + Bullet + Shown(c.dateLabel) + Bullet + Shown(c.total)
      + PriceSuffix(c.priceKc)
  }

  /** `" • ~P Kč"` when there is a fare, nothing otherwise. */
  function PriceSuffix(price: Option<nat>): (r: string)
    ensures r == "" <==> price.None?
  {
    if price.Some? then Bullet + "~" + NatToString(price.value) + " K\U{010D}" else ""
  }

  /** The line of one leg record: a WALK line for a walk record (and for a
      transit record whose line is literally "WALK", whose note is then
      nil), otherwise the line, the operator in parentheses when there is
      one, the two stations, and the specs in brackets when non-empty. */
  function LegLine(leg: Leg): string {
    match leg
    case Walk(note) => LegPrefix + "WALK: " + note
    case Transit(line, operator, specs, depTime, depStop, arrTime, arrStop) =>
      if line == Some("WALK") then LegPrefix + "WALK: "
      else
        LegPrefix + Shown(line) + OperatorPart(operator) + " \U{2014} " + Shown(depTime) + " " + Shown(depStop)
          + " \U{2192} " + Shown(arrTime) + " " + Shown(arrStop) + SpecsPart(specs)
  }

  function OperatorPart(operator: Option<string>): (r: string)
    ensures r == "" <==> operator.None?
  {
    if operator.Some? then " (" + operator.value + ")" else ""
  }

  function SpecsPart(specs: Option<string>): (r: string)
    ensures r == "" <==> specs.None? || specs.value == ""
  {
    if specs.Some? && specs.value != "" then " [" + specs.value + "]" else ""
  }

  function LegLines(legs: seq<Leg>): (r: seq<string>)
    ensures |r| == |legs| && forall i :: 0 <= i < |legs| ==> r[i] == LegLine(legs[i])
  {
    seq(|legs|, i requires 0 <= i < |legs| => LegLine(legs[i]))
  }

  /** The lines of the connections, numbered from 1: each header followed by
      the lines of its legs. */
  function Rendered(conns: seq<Connection>): seq<string>
    decreases |conns|
  {
    if conns == [] then []
    else
      var init := conns[..|conns| - 1];
      Rendered(init) + Block(conns[|conns| - 1], |conns|)
  }

  /** The lines of connection number `n`: its header, then its legs. */
  function Block(c: Connection, n: nat): (r: seq<string>)
    ensures |r| == 1 + |c.legs|
  {
    [Header(c, n)] + LegLines(c.legs)
  }

  /** The number of rendered lines: one header per connection and one line
      per leg record. */
  function LineCount(conns: seq<Connection>): nat
    decreases |conns|
  {
    if conns == [] then 0 else LineCount(conns[..|conns| - 1]) + 1 + |conns[|conns| - 1].legs|
  }

  /** Connection `k` (counted from 0) gets its block of lines, with the
      header numbered `k + 1`, right after the lines of the connections
      before it. */
  lemma {:induction false} RenderedLayout(conns: seq<Connection>, k: nat, base: nat)
    requires k < |conns| && base == LineCount(conns[..k])
    ensures |Rendered(conns)| == LineCount(conns)
    ensures base + 1 + |conns[k].legs| <= |Rendered(conns)|
    ensures Rendered(conns)[base..base + 1 + |conns[k].legs|] == Block(conns[k], k + 1)
    decreases |conns|
  {
    var init := conns[..|conns| - 1];
    var before := Rendered(init);
    var b := Block(conns[|conns| - 1], |conns|);
    RenderedLength(init);
    RenderedLength(conns);
    assert Rendered(conns) == before + b;
    var e := base + 1 + |conns[k].legs|;
    if k < |conns| - 1 {
      assert init[..k] == conns[..k];
      assert init[k] == conns[k];
      RenderedLayout(init, k, base);
      SliceOfPrefix(before, b, base, e);
    } else {
      assert conns[..k] == init;
      SliceOfSuffix(before, b);
    }
  }

  lemma SliceOfPrefix<T>(a: seq<T>, b: seq<T>, x: nat, y: nat)
    requires x <= y <= |a|
    ensures (a + b)[x..y] == a[x..y]
  {
  }

  lemma SliceOfSuffix<T>(a: seq<T>, b: seq<T>)
    ensures (a + b)[|a|..|a| + |b|] == b
  {
  }

  lemma {:induction false} RenderedLength(conns: seq<Connection>)
    ensures |Rendered(conns)| == LineCount(conns)
    decreases |conns|
  {
    if conns != [] {
      RenderedLength(conns[..|conns| - 1]);
    }
  }

  /** Adding a connection adds its header, numbered by its position, and
      its leg lines. */
  lemma RenderedSnoc(conns: seq<Connection>, i: nat)
    requires i < |conns|
    ensures Rendered(conns[..i + 1]) == Rendered(conns[..i]) + [Header(conns[i], i + 1)] + LegLines(conns[i].legs)
  {
    assert conns[..i + 1][..i] == conns[..i];
  }

  /** The rendering loops: `lines << header`, then one line per leg. */
  method RenderLines(conns: seq<Connection>) returns (lines: seq<string>)
    ensures lines == Rendered(conns)
  {
    lines := [];
    var i := 0;
    while i < |conns|
      invariant 0 <= i <= |conns|
      invariant lines == Rendered(conns[..i])
    {
      var header := RenderHeader(conns[i], i + 1);
      lines := lines + [header];
      lines := AppendLegLines(lines, conns[i].legs);
      RenderedSnoc(conns, i);
      i := i + 1;
    }
    assert conns[..i] == conns;
  }

  /** `header = ...; header += ... if c[:price_kc]`. */
  method RenderHeader(c: Connection, n: nat) returns (header: string)
    ensures header == Header(c, n)
  {
    header := "#" + NatToString(n) + Bullet + Shown(c.departTime) + Bullet + Shown(c.dateLabel) + Bullet + Shown(c.total);
    if c.priceKc.Some? {
      header := header + (Bullet + "~" + NatToString(c.priceKc.value) + " K\U{010D}");
    }
  }

  /** `c[:legs].each do |leg| lines << ... end`. */
  method AppendLegLines(lines: seq<string>, legs: seq<Leg>) returns (r: seq<string>)
    ensures r == lines + LegLines(legs)
  {
    r := lines;
    var j := 0;
    while j < |legs|
      invariant 0 <= j <= |legs|
      invariant r == lines + LegLines(legs[..j])
    {
      r := r + [LegLine(legs[j])];
      assert LegLines(legs[..j + 1]) == LegLines(legs[..j]) + [LegLine(legs[j])];
      j := j + 1;
    }
    assert legs[..j] == legs;
  }

  // ---------------------------------------------------------------------------
  // msg.scan(/.{1,N}(?:\n|\z)/m)

  /** The largest `k` in 1..`k0` such that the text from `p` on has a line
      break or its end right after `k` characters: the greedy `.{1,N}`
      (which under /m also takes line breaks) followed by `(?:\n|\z)`. */
  function FitDown(s: string, p: nat, k0: nat): (r: Option<nat>)
    requires p + k0 <= |s|
    ensures r.Some? ==> 1 <= r.value <= k0 && (p + r.value == |s| || s[p + r.value] == '\n')
    ensures r.Some? ==> forall j :: p + r.value < j <= p + k0 ==> j < |s| && s[j] != '\n'
    ensures r.None? ==> forall j :: p < j <= p + k0 ==> j < |s| && s[j] != '\n'
    decreases k0
  {
    if k0 == 0 then None
    else if p + k0 == |s| || s[p + k0] == '\n' then Some(k0)
    else FitDown(s, p, k0 - 1)
  }

  /** The spans `[start, end)` of the pieces `scan` returns from position `p`
      on: a match takes the fitting characters and the line break after them,
      if any; where no match starts, the search moves one character on. */
  function ScanSpans(s: string, p: nat, n: nat): (r: seq<(nat, nat)>)
    requires n >= 1
    ensures forall i :: 0 <= i < |r| ==> p <= r[i].0 < r[i].1 <= |s| && r[i].1 - r[i].0 <= n + 1
    decreases |s| - p
  {
    if p >= |s| then []
    else
      match FitDown(s, p, Min(n, |s| - p))
      case None => ScanSpans(s, p + 1, n)
      case Some(k) => [(p, MatchEnd(s, p, k))] + ScanSpans(s, MatchEnd(s, p, k), n)
  }

  /** Where a match of `k` characters from `p` ends: after the line break
      that follows them, or at the end of the text. */
  function MatchEnd(s: string, p: nat, k: nat): (e: nat)
    requires p + k <= |s|
    ensures p + k <= e <= p + k + 1 && e <= |s|
  {
    if p + k < |s| then p + k + 1 else p + k
  }

  /** The spans come in order, without overlap. */
  predicate InOrder(spans: seq<(nat, nat)>) {
    forall i :: 0 <= i < |spans| - 1 ==> spans[i].1 <= spans[i + 1].0
  }

  /** Each span but the last ends just after a line break. */
  predicate EndAtBreaks(s: string, spans: seq<(nat, nat)>) {
    forall i :: 0 <= i < |spans| - 1 ==> 1 <= spans[i].1 <= |s| && s[spans[i].1 - 1] == '\n'
  }

  lemma {:induction false} ScanSpansOrdered(s: string, p: nat, n: nat)
    requires n >= 1
    ensures InOrder(ScanSpans(s, p, n)) && EndAtBreaks(s, ScanSpans(s, p, n))
    decreases |s| - p
  {
    if p < |s| {
      var f := FitDown(s, p, Min(n, |s| - p));
      if f.None? {
        ScanSpansSkip(s, p, n);
        ScanSpansOrdered(s, p + 1, n);
      } else {
        var e := MatchEnd(s, p, f.value);
        ScanSpansOrdered(s, e, n);
        ScanSpansOrderedTake(s, p, n, f.value, e);
      }
    }
  }

  /** A match put in front of ordered spans keeps them ordered. */
  lemma ScanSpansOrderedTake(s: string, p: nat, n: nat, k: nat, e: nat)
    requires n >= 1 && p < |s| && FitDown(s, p, Min(n, |s| - p)) == Some(k) && e == MatchEnd(s, p, k)
    requires InOrder(ScanSpans(s, e, n)) && EndAtBreaks(s, ScanSpans(s, e, n))
    ensures InOrder(ScanSpans(s, p, n)) && EndAtBreaks(s, ScanSpans(s, p, n))
  {
    ScanSpansTake(s, p, n, k, e);
    ConsInOrder(s, (p, e), ScanSpans(s, e, n));
  }

  /** Where no match starts, the scan moves one character on. */
  lemma ScanSpansSkip(s: string, p: nat, n: nat)
    requires n >= 1 && p < |s| && FitDown(s, p, Min(n, |s| - p)).None?
    ensures ScanSpans(s, p, n) == ScanSpans(s, p + 1, n)
  {
  }

  /** A match takes a span and the scan goes on after it; if it goes on
      with more spans, the match ended with a line break. */
  lemma ScanSpansTake(s: string, p: nat, n: nat, k: nat, e: nat)
    requires n >= 1 && p < |s| && FitDown(s, p, Min(n, |s| - p)) == Some(k) && e == MatchEnd(s, p, k)
    ensures ScanSpans(s, p, n) == [(p, e)] + ScanSpans(s, e, n)
    ensures forall i :: 0 <= i < |ScanSpans(s, e, n)| ==> e <= ScanSpans(s, e, n)[i].0
    ensures ScanSpans(s, e, n) != [] ==> 1 <= e <= |s| && s[e - 1] == '\n'
  {
  }

  lemma ConsInOrder(s: string, span: (nat, nat), rest: seq<(nat, nat)>)
    requires InOrder(rest) && EndAtBreaks(s, rest)
    requires forall i :: 0 <= i < |rest| ==> span.1 <= rest[i].0
    requires rest != [] ==> 1 <= span.1 <= |s| && s[span.1 - 1] == '\n'
    ensures InOrder([span] + rest) && EndAtBreaks(s, [span] + rest)
  {
    var r := [span] + rest;
    forall i | 1 <= i < |r| - 1
      ensures r[i].1 <= r[i + 1].0 && 1 <= r[i].1 <= |s| && s[r[i].1 - 1] == '\n'
    {
      assert r[i] == rest[i - 1] && r[i + 1] == rest[i];
    }
  }

  function Pieces(s: string, spans: seq<(nat, nat)>): (r: seq<string>)
    requires forall i :: 0 <= i < |spans| ==> spans[i].0 <= spans[i].1 <= |s|
    ensures |r| == |spans| && forall i :: 0 <= i < |spans| ==> r[i] == s[spans[i].0..spans[i].1]
  {
    seq(|spans|, i requires 0 <= i < |spans| => s[spans[i].0..spans[i].1])
  }

  /** `msg.scan(/.{1,n}(?:\n|\z)/m)`: each piece is non-empty and at most
      `n + 1` characters long, and every piece but the last ends in a line
      break. */
  function Scan(s: string, n: nat): (r: seq<string>)
    requires n >= 1
    ensures forall i :: 0 <= i < |r| ==> 1 <= |r[i]| <= n + 1
    ensures forall i :: 0 <= i < |r| - 1 ==> r[i][|r[i]| - 1] == '\n'
  {
    var spans := ScanSpans(s, 0, n);
    ScanSpansOrdered(s, 0, n);
    PiecesEndAtBreaks(s, spans);
    Pieces(s, spans)
  }

  /** The pieces are the text between the spans, which are in order and do
      not overlap. */
  lemma ScanPiecesShape(s: string, n: nat)
    requires n >= 1
    ensures var spans := ScanSpans(s, 0, n);
      && Scan(s, n) == Pieces(s, spans)
      && InOrder(spans)
  {
    ScanSpansOrdered(s, 0, n);
  }

  lemma PiecesEndAtBreaks(s: string, spans: seq<(nat, nat)>)
    requires forall j :: 0 <= j < |spans| ==> spans[j].0 < spans[j].1 <= |s|
    requires EndAtBreaks(s, spans)
    ensures forall i :: 0 <= i < |spans| - 1 ==> Pieces(s, spans)[i][|Pieces(s, spans)[i]| - 1] == '\n'
  {
    forall i | 0 <= i < |spans| - 1
      ensures Pieces(s, spans)[i][|Pieces(s, spans)[i]| - 1] == '\n'
    {
      PieceEndsAtBreak(s, spans, i);
    }
  }

  lemma PieceEndsAtBreak(s: string, spans: seq<(nat, nat)>, i: nat)
    requires forall j :: 0 <= j < |spans| ==> spans[j].0 < spans[j].1 <= |s|
    requires EndAtBreaks(s, spans) && i < |spans| - 1
    ensures var piece := Pieces(s, spans)[i]; piece[|piece| - 1] == '\n'
  {
    var piece := Pieces(s, spans)[i];
    assert piece == s[spans[i].0..spans[i].1];
    assert piece[|piece| - 1] == s[spans[i].1 - 1];
  }

  /** Every stretch of `n` characters holds a line break: no line is `n`
      characters or longer. */
  predicate LinesShorterThan(s: string, n: nat) {
    forall i :: 0 <= i && i + n <= |s| ==> BreakWithin(s, i, n)
  }

  /** A line break among the `n` characters from `i` on. */
  predicate BreakWithin(s: string, i: nat, n: nat) {
    exists j :: i <= j < i + n && j < |s| && s[j] == '\n'
  }

  /** With no line of `n` characters or more, a match starts at every
      position. */
  lemma MatchAtEveryPosition(s: string, p: nat, n: nat)
    requires n >= 1 && p < |s| && LinesShorterThan(s, n)
    ensures FitDown(s, p, Min(n, |s| - p)).Some?
  {
    var k0 := Min(n, |s| - p);
    if k0 < |s| - p {
      assert BreakWithin(s, p, n);
      var t :| p <= t < p + n && t < |s| && s[t] == '\n';
      if t == p {
        assert BreakWithin(s, p + 1, n);
        var t2 :| p + 1 <= t2 < p + 1 + n && t2 < |s| && s[t2] == '\n';
        assert 1 <= t2 - p <= k0;
      } else {
        assert 1 <= t - p <= k0;
      }
    } else {
      assert p + k0 == |s|;
    }
  }

  /** With no line of `n` characters or more, the spans cover the text from
      `p` on without gaps. */
  lemma {:induction false} ScanSpansContiguous(s: string, p: nat, n: nat)
    requires n >= 1 && p <= |s| && LinesShorterThan(s, n)
    ensures Contiguous(ScanSpans(s, p, n), p, |s|)
    decreases |s| - p
  {
    if p < |s| {
      MatchAtEveryPosition(s, p, n);
      var k := FitDown(s, p, Min(n, |s| - p)).value;
      var e := MatchEnd(s, p, k);
      ScanSpansContiguous(s, e, n);
      ScanSpansTake(s, p, n, k, e);
      ContiguousCons(p, e, |s|, ScanSpans(s, e, n));
    }
  }

  /** The spans cover `[p, end)` without gaps: empty exactly when the stretch
      is, starting at `p`, ending at `end`, each starting where the one before
      ended. */
  predicate Contiguous(r: seq<(nat, nat)>, p: nat, end: nat) {
    && (r == [] <==> p == end)
    && (r != [] ==> r[0].0 == p && r[|r| - 1].1 == end)
    && (forall i :: 0 <= i < |r| - 1 ==> r[i].1 == r[i + 1].0)
  }

  lemma ContiguousCons(p: nat, e: nat, end: nat, rest: seq<(nat, nat)>)
    requires p < e <= end && Contiguous(rest, e, end)
    ensures Contiguous([(p, e)] + rest, p, end)
  {
    var r := [(p, e)] + rest;
    assert forall i :: 1 <= i < |r| ==> r[i] == rest[i - 1];
  }

  /** Contiguous spans: the pieces put back together are the covered text. */
  lemma {:induction false} PiecesConcat(s: string, spans: seq<(nat, nat)>, p: nat)
    requires spans != [] && spans[0].0 == p && spans[|spans| - 1].1 == |s|
    requires forall i :: 0 <= i < |spans| ==> spans[i].0 <= spans[i].1 <= |s|
    requires forall i :: 0 <= i < |spans| - 1 ==> spans[i].1 == spans[i + 1].0
    ensures Join(Pieces(s, spans), "") == s[p..]
    decreases |spans|
  {
    if |spans| > 1 {
      var rest := spans[1..];
      var q := spans[0].1;
      assert rest[0].0 == q;
      PiecesConcat(s, rest, q);
      PiecesCons(s, spans);
      JoinCons(s[p..q], Pieces(s, rest), "");
      SplitSuffix(s, p, q);
    }
  }

  lemma PiecesCons(s: string, spans: seq<(nat, nat)>)
    requires spans != []
    requires forall i :: 0 <= i < |spans| ==> spans[i].0 <= spans[i].1 <= |s|
    ensures Pieces(s, spans) == [s[spans[0].0..spans[0].1]] + Pieces(s, spans[1..])
  {
  }

  lemma SplitSuffix(s: string, p: nat, q: nat)
    requires p <= q <= |s|
    ensures s[p..] == s[p..q] + s[q..]
  {
  }

  /** When every line is shorter than `n`, the pieces concatenate back to the
      text exactly. */
  lemma ScanRoundTrip(s: string, n: nat)
    requires n >= 1 && LinesShorterThan(s, n)
    ensures Join(Scan(s, n), "") == s
  {
    var spans := ScanSpans(s, 0, n);
    ScanSpansContiguous(s, 0, n);
    if spans != [] {
      PiecesConcat(s, spans, 0);
    }
  }

  // ---------------------------------------------------------------------------
  // handle_bus_flow_input, as a function of the session and the message

  /** What one message does: whether it was handled, the next session, and
      the messages sent, in order. */
  datatype Reaction = Reaction(handled: bool, next: Session, outs: seq<Outgoing>)

  /** `(message.text || "").strip`. */
  function Input(messageText: Option<string>): string {
    Strip(messageText.GetOr(""))
  }

  /** The date answer: nil for "" and "today" (in any case), the text when it
      matches the date pattern, and `Err` (re-prompt) otherwise. */
  function DateAnswer(text: string): (r: Result<Option<string>>)
    ensures text == "" || Downcase(text) == "today" ==> r == Ok(None)
    ensures text != "" && Downcase(text) != "today" && MatchesDate(text) ==> r == Ok(Some(text))
    ensures r.Ok? && r.value.Some? ==> r.value.value == text && MatchesDate(text)
    ensures r.Err? <==> text != "" && Downcase(text) != "today" && !MatchesDate(text)
  {
    if text == "" || Downcase(text) == "today" then Ok(None)
    else if MatchesDate(text) then Ok(Some(text))
    else Err("bad date")
  }

  /** The time answer, the same rule with "now" and the time pattern. */
  function TimeAnswer(text: string): (r: Result<Option<string>>)
    ensures text == "" || Downcase(text) == "now" ==> r == Ok(None)
    ensures text != "" && Downcase(text) != "now" && MatchesTime(text) ==> r == Ok(Some(text))
    ensures r.Ok? && r.value.Some? ==> r.value.value == text && MatchesTime(text)
    ensures r.Err? <==> text != "" && Downcase(text) != "now" && !MatchesTime(text)
  {
    if text == "" || Downcase(text) == "now" then Ok(None)
    else if MatchesTime(text) then Ok(Some(text))
    else Err("bad time")
  }

  /** The URL of the search: `date` and `time` when given, then `f` and `t`,
      which are always there. */
  function FlowUrl(d: FlowData, time: Option<string>): string
    requires d.from.Some? && d.to.Some?
  {
    SearchUrl(d.date, time, d.from, d.to)
  }

  /** The messages after the URL: the error, the no-result note, or the
      rendered connections cut by `scan`. */
  function ResultTexts(fetched: Result<seq<BoxNode>>): seq<string> {
    match fetched
    case Err(errorClass) => [SorryText(errorClass)]
    case Ok(boxes) =>
      match ParseConnections(boxes, 3)
      case Err(errorClass) => [SorryText(errorClass)]
      case Ok(conns) =>
        if conns == [] then [NoConnectionsText]
        else Scan(Join(Rendered(conns), "\n"), TelegramMaxCharsLimit)
  }

  /** `handle_bus_flow`: only the idle step leaves a message unhandled, and
      it changes nothing and sends nothing; every step leads to a
      well-formed session. */
  function Handle(s: Session, messageText: Option<string>, fetched: Result<seq<BoxNode>>): (r: Reaction)
    requires WellFormed(s)
    ensures r.handled <==> s.step != Idle
    ensures s.step == Idle ==> r == Reaction(false, s, [])
    ensures WellFormed(r.next)
  {
    var text := Input(messageText);
    match s.step
    case Idle => Reaction(false, s, [])
    case GroundZero => OnPrompt(s, text)
    case AskFrom => OnPrompt(s, text)
    case AskTo => OnPrompt(s, text)
    case AskDate => OnDateKeepsWellFormed(s, text); OnDate(s, text)
    case AskTime => OnTimeKeepsWellFormed(s, text, fetched); OnTime(s, text, fetched)
  }

  /** The opening, origin and destination steps, which accept any text: the
      opening step announces the search and asks for the origin, the origin
      step stores the text and asks for the destination, the destination step
      stores it and asks for the date. */
  function OnPrompt(s: Session, text: string): Reaction
    requires WellFormed(s) && (s.step == GroundZero || s.step == AskFrom || s.step == AskTo)
  {
    match s.step
    case GroundZero => Reaction(true, Session(AskFrom, s.data), [Tracked(RunningText), Tracked(AskFromText)])
    case AskFrom => Reaction(true, Session(AskTo, s.data.(from := Some(text))), [Tracked(AskToText)])
    case AskTo => Reaction(true, Session(AskDate, s.data.(to := Some(text))), [Tracked(AskDateText)])
  }

  /** The date step: re-prompt on a refused answer, otherwise store it and
      ask for the time. */
  function OnDate(s: Session, text: string): Reaction
    requires WellFormed(s) && s.step == AskDate
  {
    match DateAnswer(text)
    case Err(_) => Reaction(true, s, [Tracked(BadDateText)])
    case Ok(date) => Reaction(true, Session(AskTime, s.data.(date := date)), [Tracked(AskTimeText)])
  }

  /** The time step: re-prompt on a refused answer, otherwise search and go
      back to idle. */
  function OnTime(s: Session, text: string, fetched: Result<seq<BoxNode>>): Reaction
    requires WellFormed(s) && s.step == AskTime
  {
    match TimeAnswer(text)
    case Err(_) => Reaction(true, s, [Tracked(BadTimeText)])
    case Ok(time) => Reaction(true, FreshSession, SearchOuts(s.data, time, fetched))
  }

  /** The messages of a search: the URL, the results, the clear button. */
  function SearchOuts(d: FlowData, time: Option<string>, fetched: Result<seq<BoxNode>>): seq<Outgoing>
    requires d.from.Some? && d.to.Some?
  {
    [Tracked(FlowUrl(d, time))] + TrackedAll(ResultTexts(fetched)) + [ClearButton]
  }

  lemma OnDateKeepsWellFormed(s: Session, text: string)
    requires WellFormed(s) && s.step == AskDate
    ensures WellFormed(OnDate(s, text).next)
  {
    match DateAnswer(text)
    case Err(_) =>
    case Ok(date) => assert OnDate(s, text).next == Session(AskTime, s.data.(date := date));
  }

  lemma OnTimeKeepsWellFormed(s: Session, text: string, fetched: Result<seq<BoxNode>>)
    requires WellFormed(s) && s.step == AskTime
    ensures WellFormed(OnTime(s, text, fetched).next)
  {
    match TimeAnswer(text)
    case Err(_) =>
    case Ok(time) =>
  }

  /** The opening step reads nothing of the message: any two messages give
      the same reaction, and the flow moves on to the origin question. */
  lemma GroundZeroIgnoresText(d: FlowData, t1: Option<string>, t2: Option<string>, f1: Result<seq<BoxNode>>, f2: Result<seq<BoxNode>>)
    requires WellFormed(Session(GroundZero, d))
    ensures Handle(Session(GroundZero, d), t1, f1) == Handle(Session(GroundZero, d), t2, f2)
    ensures Handle(Session(GroundZero, d), t1, f1).next == Session(AskFrom, NoData)
  {
  }

  /** Origin and destination store the stripped text, empty text included,
      and move on. */
  lemma StopsStoredUnchecked(s: Session, messageText: Option<string>, fetched: Result<seq<BoxNode>>)
    requires WellFormed(s) && (s.step == AskFrom || s.step == AskTo)
    ensures var r := Handle(s, messageText, fetched);
      && r.next.step == (if s.step == AskFrom then AskTo else AskDate)
      && (s.step == AskFrom ==> r.next.data.from == Some(Strip(messageText.GetOr(""))))
      && (s.step == AskTo ==> r.next.data.to == Some(Strip(messageText.GetOr(""))) && r.next.data.from == s.data.from)
      && (messageText.None? ==> (if s.step == AskFrom then r.next.data.from else r.next.data.to) == Some(""))
  {
    assert Strip("") == "";
  }

  /** A date the rule refuses re-prompts and leaves step and data alone; an
      accepted one is stored and the time is asked for: nil for a blank
      answer or "today" in any case, otherwise the text itself. A date is
      checked only as digits, so "13.13.2025" passes. */
  lemma DateRule(s: Session, messageText: Option<string>, fetched: Result<seq<BoxNode>>)
    requires WellFormed(s) && s.step == AskDate
    ensures var text := Input(messageText);
      var r := Handle(s, messageText, fetched);
      && (DateAnswer(text).Err? ==> r == Reaction(true, s, [Tracked(BadDateText)]))
      && (DateAnswer(text).Ok? ==> r.next == Session(AskTime, s.data.(date := DateAnswer(text).value)))
    ensures var text := Input(messageText);
      text == "" || Downcase(text) == "today" ==>
        Handle(s, messageText, fetched).next == Session(AskTime, s.data.(date := None))
    ensures var text := Input(messageText);
      text != "" && Downcase(text) != "today" && MatchesDate(text) ==>
        Handle(s, messageText, fetched).next == Session(AskTime, s.data.(date := Some(text)))
    ensures MatchesDate("13.13.2025")
  {
    assert DateLineAt("13.13.2025", 0);
  }

  /** A refused time re-prompts with nothing changed. An accepted time sends
      the search URL (without `time` for a blank answer or "now", with the
      text otherwise), the results, then the clear button, and the flow is
      back to idle with no data, whatever the fetch gave. */
  lemma TimeRule(s: Session, messageText: Option<string>, fetched: Result<seq<BoxNode>>)
    requires WellFormed(s) && s.step == AskTime
    ensures var text := Input(messageText);
      var r := Handle(s, messageText, fetched);
      && (TimeAnswer(text).Err? ==> r == Reaction(true, s, [Tracked(BadTimeText)]))
      && (TimeAnswer(text).Ok? ==>
            && r.next == FreshSession
            && |r.outs| >= 3
            && r.outs[0] == Tracked(SearchUrl(s.data.date, TimeAnswer(text).value, s.data.from, s.data.to))
            && r.outs[|r.outs| - 1] == ClearButton
            && r.outs[1..|r.outs| - 1] == TrackedAll(ResultTexts(fetched)))
    ensures var text := Input(messageText);
      text == "" || Downcase(text) == "now" ==>
        Handle(s, messageText, fetched).outs[0] == Tracked(SearchUrl(s.data.date, None, s.data.from, s.data.to))
    ensures var text := Input(messageText);
      text != "" && Downcase(text) != "now" && MatchesTime(text) ==>
        Handle(s, messageText, fetched).outs[0] == Tracked(SearchUrl(s.data.date, Some(text), s.data.from, s.data.to))
  {
    var text := Input(messageText);
    if TimeAnswer(text).Ok? {
      var outs := SearchOuts(s.data, TimeAnswer(text).value, fetched);
      assert Handle(s, messageText, fetched) == Reaction(true, FreshSession, outs);
      ResultTextsNonEmpty(fetched);
      assert outs[1..|outs| - 1] == TrackedAll(ResultTexts(fetched));
    }
  }

  /** There is always at least one result message. */
  lemma ResultTextsNonEmpty(fetched: Result<seq<BoxNode>>)
    ensures |ResultTexts(fetched)| >= 1
  {
    if fetched.Ok? {
      var parsed := ParseConnections(fetched.value, 3);
      if parsed.Ok? && parsed.value != [] {
        var conns := parsed.value;
        var msg := Join(Rendered(conns), "\n");
        assert conns[..0] == [];
        RenderedLayout(conns, 0, 0);
        assert Rendered(conns)[0] == Block(conns[0], 1)[0];
        JoinNonEmpty(Rendered(conns), "\n");
        assert msg != "";
        ScanFindsPiece(msg, TelegramMaxCharsLimit);
      }
    }
  }

  /** A text with a non-empty first element joins to a non-empty text. */
  lemma JoinNonEmpty(xs: seq<string>, sep: string)
    requires xs != [] && xs[0] != ""
    ensures Join(xs, sep) != ""
  {
  }

  /** A non-empty text always yields some piece: at worst its last character
      matches. */
  lemma ScanFindsPiece(s: string, n: nat)
    requires n >= 1 && s != ""
    ensures |Scan(s, n)| >= 1
  {
    ScanSpansReachEnd(s, 0, n);
  }

  lemma {:induction false} ScanSpansReachEnd(s: string, p: nat, n: nat)
    requires n >= 1 && p < |s|
    ensures ScanSpans(s, p, n) != []
    decreases |s| - p
  {
    if FitDown(s, p, Min(n, |s| - p)).None? {
      assert 1 <= Min(n, |s| - p);
      ScanSpansReachEnd(s, p + 1, n);
    }
  }

  /** Replies tracked in the transport list, where only the last one (the
      clear button, after a search) may keep the message before it. */
  predicate BusReplies(outs: seq<Outgoing>) {
    forall i :: 0 <= i < |outs| ==>
      outs[i].track && outs[i].bucket == Bus && (outs[i].suppressDelete ==> i == |outs| - 1)
  }

  lemma HandleRepliesOnBus(s: Session, messageText: Option<string>, fetched: Result<seq<BoxNode>>)
    requires WellFormed(s)
    ensures BusReplies(Handle(s, messageText, fetched).outs)
  {
    var text := Input(messageText);
    match s.step
    case AskDate => OnDateRepliesOnBus(s, text);
    case AskTime => OnTimeRepliesOnBus(s, text, fetched);
    case Idle =>
    case _ => OnPromptRepliesOnBus(s, text);
  }

  lemma OnPromptRepliesOnBus(s: Session, text: string)
    requires WellFormed(s) && (s.step == GroundZero || s.step == AskFrom || s.step == AskTo)
    ensures BusReplies(OnPrompt(s, text).outs)
  {
    match s.step
    case GroundZero => TrackedRepliesOnBus([RunningText, AskFromText]);
    case AskFrom => TrackedRepliesOnBus([AskToText]);
    case AskTo => TrackedRepliesOnBus([AskDateText]);
  }

  lemma OnDateRepliesOnBus(s: Session, text: string)
    requires WellFormed(s) && s.step == AskDate
    ensures BusReplies(OnDate(s, text).outs)
  {
    match DateAnswer(text)
    case Err(_) => TrackedRepliesOnBus([BadDateText]);
    case Ok(_) => TrackedRepliesOnBus([AskTimeText]);
  }

  /** Plain tracked replies. */
  lemma TrackedRepliesOnBus(texts: seq<string>)
    ensures BusReplies(TrackedAll(texts))
  {
  }

  lemma OnTimeRepliesOnBus(s: Session, text: string, fetched: Result<seq<BoxNode>>)
    requires WellFormed(s) && s.step == AskTime
    ensures BusReplies(OnTime(s, text, fetched).outs)
  {
    match TimeAnswer(text)
    case Err(_) => TrackedRepliesOnBus([BadTimeText]);
    case Ok(time) =>
      SearchRepliesOnBus(FlowUrl(s.data, time), ResultTexts(fetched));
  }

  /** The URL, the results and the clear button, which comes last. */
  lemma SearchRepliesOnBus(url: string, texts: seq<string>)
    ensures BusReplies([Tracked(url)] + TrackedAll(texts) + [ClearButton])
  {
    var head := [Tracked(url)] + TrackedAll(texts);
    var outs := head + [ClearButton];
    forall i | 0 <= i < |outs|
      ensures outs[i].track && outs[i].bucket == Bus && (outs[i].suppressDelete ==> i == |outs| - 1)
    {
      if i < |head| {
        assert outs[i] == head[i];
        if i > 0 {
          assert head[i] == TrackedAll(texts)[i - 1];
        }
      }
    }
  }

  /** Every reply of the flow is tracked in the chat's transport list, so
      after a step that list has grown by exactly the ids of the replies, in
      order, and no other chat's list changed. */
  lemma RepliesTracked(s: Session, messageText: Option<string>, fetched: Result<seq<BoxNode>>, b: Books, chat: int, other: int, firstId: int)
    requires WellFormed(s)
    ensures var outs := Handle(s, messageText, fetched).outs;
      && BusReplies(outs)
      && AfterSends(b, chat, firstId, outs).Tracked(Bus, chat) == b.Tracked(Bus, chat) + Ids(firstId, |outs|)
      && (other != chat ==> AfterSends(b, chat, firstId, outs).Tracked(Bus, other) == b.Tracked(Bus, other))
  {
    var outs := Handle(s, messageText, fetched).outs;
    HandleRepliesOnBus(s, messageText, fetched);
    AfterSendsTracked(b, chat, other, firstId, outs, Bus);
  }

  /** The query always carries `f` and `t`, so the URL is never the bare
      base URL. */
  lemma UrlAlwaysHasQuery(date: Option<string>, time: Option<string>, from: string, to: string)
    ensures SearchUrl(date, time, Some(from), Some(to)) != BaseUrl
  {
  }

  // ---------------------------------------------------------------------------
  // BUS_FLOW

  predicate ValidSessions(sessions: map<int, Session>) {
    forall chat :: chat in sessions ==> WellFormed(sessions[chat])
  }

  /** `BUS_FLOW[chat_id]`: an unseen chat reads as idle with no data. */
  function SessionIn(sessions: map<int, Session>, chat: int): (s: Session)
    requires ValidSessions(sessions)
    ensures WellFormed(s)
  {
    if chat in sessions then sessions[chat] else FreshSession
  }

  class BusFlow {
    /** `BUS_FLOW`, keyed by the chat id itself (not its string form). */
    var sessions: map<int, Session>

    predicate Valid()
      reads this
    {
      ValidSessions(sessions)
    }

    function SessionOf(chat: int): (s: Session)
      reads this
      requires Valid()
      ensures WellFormed(s)
    {
      SessionIn(sessions, chat)
    }

    constructor ()
      ensures Valid() && sessions == map[]
    {
      sessions := map[];
    }

    /** `reset_bus_flow`. */
    method Reset(chat: int)
      requires Valid()
      modifies this
      ensures Valid() && sessions == old(sessions)[chat := FreshSession]
    {
      sessions := sessions[chat := FreshSession];
    }

    /** `start_bus_flow`. */
    method Start(chat: int)
      requires Valid()
      modifies this
      ensures Valid() && sessions == old(sessions)[chat := Session(GroundZero, NoData)]
    {
      sessions := sessions[chat := Session(GroundZero, NoData)];
    }

    /** `handle_bus_flow_input`. */
    method HandleInput(m: Messenger, chat: int, messageText: Option<string>, fetched: Result<seq<BoxNode>>)
      returns (handled: bool)
      requires Valid()
      modifies this, m
      ensures Valid()
      ensures handled == Handle(old(SessionOf(chat)), messageText, fetched).handled
      ensures sessions == if handled then old(sessions)[chat := Handle(old(SessionOf(chat)), messageText, fetched).next]
        else old(sessions)
      ensures SentSoFar(m, chat, old(m.Snapshot()), old(m.calls), old(m.nextId), Handle(old(SessionOf(chat)), messageText, fetched).outs)
    {
      ghost var b0, c0, id0 := m.Snapshot(), m.calls, m.nextId;
      assert SentSoFar(m, chat, b0, c0, id0, []);
      var state := SessionOf(chat);
      var text := Strip(messageText.GetOr(""));
      match state.step
      case Idle =>
        return false;
      case AskDate =>
        assert Handle(state, messageText, fetched) == OnDate(state, text);
        handled := AnswerDate(m, chat, state, text);
      case AskTime =>
        assert Handle(state, messageText, fetched) == OnTime(state, text, fetched);
        handled := AnswerTime(m, chat, state, text, fetched);
      case _ =>
        assert Handle(state, messageText, fetched) == OnPrompt(state, text);
        handled := AnswerPrompt(m, chat, state, text);
    }

    /** The `:ground_zero`, `:ask_from` and `:ask_to` branches. */
    method AnswerPrompt(m: Messenger, chat: int, state: Session, text: string) returns (handled: bool)
      requires Valid() && chat in sessions && sessions[chat] == state && (state.step == GroundZero || state.step == AskFrom || state.step == AskTo)
      modifies this, m
      ensures Valid() && handled
      ensures sessions == old(sessions)[chat := OnPrompt(state, text).next]
      ensures SentSoFar(m, chat, old(m.Snapshot()), old(m.calls), old(m.nextId), OnPrompt(state, text).outs)
    {
      ghost var b0, c0, id0 := m.Snapshot(), m.calls, m.nextId;
      handled := true;
      match state.step
      case GroundZero =>
        m.Emit(chat, Tracked(RunningText), b0, c0, id0, []);
        sessions := sessions[chat := Session(AskFrom, state.data)];
        m.Emit(chat, Tracked(AskFromText), b0, c0, id0, [Tracked(RunningText)]);
      case AskFrom =>
        sessions := sessions[chat := Session(AskTo, state.data.(from := Some(text)))];
        m.Emit(chat, Tracked(AskToText), b0, c0, id0, []);
      case AskTo =>
        sessions := sessions[chat := Session(AskDate, state.data.(to := Some(text)))];
        m.Emit(chat, Tracked(AskDateText), b0, c0, id0, []);
    }

    /** The `:ask_date` branch. */
    method AnswerDate(m: Messenger, chat: int, state: Session, text: string) returns (handled: bool)
      requires Valid() && state.step == AskDate && chat in sessions && sessions[chat] == state
      modifies this, m
      ensures Valid() && handled
      ensures sessions == old(sessions)[chat := OnDate(state, text).next]
      ensures SentSoFar(m, chat, old(m.Snapshot()), old(m.calls), old(m.nextId), OnDate(state, text).outs)
    {
      ghost var b0, c0, id0 := m.Snapshot(), m.calls, m.nextId;
      var date, ok := ReadDate(text);
      if !ok {
        m.Emit(chat, Tracked(BadDateText), b0, c0, id0, []);
        return true;
      }
      OnDateKeepsWellFormed(state, text);
      sessions := sessions[chat := Session(AskTime, state.data.(date := date))];
      m.Emit(chat, Tracked(AskTimeText), b0, c0, id0, []);
      return true;
    }

    /** The `:ask_time` branch: the search, the results and the reset. */
    method AnswerTime(m: Messenger, chat: int, state: Session, text: string, fetched: Result<seq<BoxNode>>)
      returns (handled: bool)
      requires Valid() && state.step == AskTime && chat in sessions && sessions[chat] == state
      modifies this, m
      ensures Valid() && handled
      ensures sessions == old(sessions)[chat := OnTime(state, text, fetched).next]
      ensures SentSoFar(m, chat, old(m.Snapshot()), old(m.calls), old(m.nextId), OnTime(state, text, fetched).outs)
    {
      ghost var b0, c0, id0 := m.Snapshot(), m.calls, m.nextId;
      var time, ok := ReadTime(text);
      if !ok {
        m.Emit(chat, Tracked(BadTimeText), b0, c0, id0, []);
        return true;
      }
      Search(m, chat, state.data, time, fetched);
      Reset(chat);
      return true;
    }

    /** `clear_transport_messages`. */
    method ClearTransportMessages(m: Messenger, chat: int)
      modifies m
      ensures m.calls == old(m.calls) + DeleteCalls(chat, old(m.Snapshot()).Tracked(Bus, chat))
      ensures m.Snapshot() == AfterClear(old(m.Snapshot()), Bus, chat)
      ensures m.nextId == old(m.nextId)
    {
      m.ClearTracked(Bus, chat);
    }
  }

  /** `date = text.empty? || text.downcase == "today" ? nil : text` and the
      pattern check after it. */
  method ReadDate(text: string) returns (date: Option<string>, ok: bool)
    ensures ok <==> DateAnswer(text).Ok?
    ensures ok ==> date == DateAnswer(text).value
  {
    date := if text == "" || Downcase(text) == "today" then None else Some(text);
    ok := date.None? || MatchesDate(date.value);
  }

  /** The same for the time, with "now". */
  method ReadTime(text: string) returns (time: Option<string>, ok: bool)
    ensures ok <==> TimeAnswer(text).Ok?
    ensures ok ==> time == TimeAnswer(text).value
  {
    time := if text == "" || Downcase(text) == "now" then None else Some(text);
    ok := time.None? || MatchesTime(time.value);
  }

  /** From the URL on: the URL, the results of the fetch, and the clear
      button (`send_transport_clear_button`). */
  method Search(m: Messenger, chat: int, d: FlowData, time: Option<string>, fetched: Result<seq<BoxNode>>)
    requires d.from.Some? && d.to.Some?
    modifies m
    ensures SentSoFar(m, chat, old(m.Snapshot()), old(m.calls), old(m.nextId), SearchOuts(d, time, fetched))
  {
    ghost var b0, c0, id0 := m.Snapshot(), m.calls, m.nextId;
    var query := BuildQuery(d.date, time, d.from, d.to);
    var q := FormEncoding.EncodeForm(query);
    var fullUrl := if q == "" then BaseUrl else BaseUrl + "?" + q;
    SearchUrlOfQuery(d.date, time, d.from, d.to);
    m.Emit(chat, Tracked(fullUrl), b0, c0, id0, []);
    var texts := Results(fetched);
    m.SendEach(chat, TrackedAll(texts), b0, c0, id0, [Tracked(fullUrl)]);
    m.Emit(chat, ClearButton, b0, c0, id0, [Tracked(fullUrl)] + TrackedAll(texts));
  }

  /** The `begin ... rescue` block after the URL: fetch, parse, then either
      the no-result note or the rendered connections cut into pieces. */
  method Results(fetched: Result<seq<BoxNode>>) returns (texts: seq<string>)
    ensures texts == ResultTexts(fetched)
  {
    if fetched.Err? {
      return [SorryText(fetched.error)];
    }
    var conns := ParseConnections(fetched.value, 3);
    if conns.Err? {
      return [SorryText(conns.error)];
    }
    if conns.value == [] {
      return [NoConnectionsText];
    }
    var lines := RenderLines(conns.value);
    var msg := Join(lines, "\n");
    texts := Scan(msg, TelegramMaxCharsLimit);
  }
}
