/** Ruby string primitives the bot relies on, with the exact character sets
    Ruby uses: `String#strip`, `gsub(/\s+/, ' ')`, `gsub(/[^\d]/, '')`,
    `Integer#to_s`, `String#to_i`, `Array#join`, `String#split`, ASCII
    `downcase` and `CGI.escapeHTML`. */
module Text {
  import opened Wrappers

  // ---------------------------------------------------------------------------
  // Whitespace

  /** The characters `String#strip` removes: NUL, \t, \n, \v, \f, \r and space. */
  predicate IsStripSpace(c: char) {
    c == '\0' || c == '\t' || c == '\n' || c == '\U{000B}' || c == '\U{000C}' || c == '\r' || c == ' '
  }

  /** The characters `\s` matches in a Ruby regular expression (no NUL). */
  predicate IsRegexSpace(c: char) {
    c == '\t' || c == '\n' || c == '\U{000B}' || c == '\U{000C}' || c == '\r' || c == ' '
  }

  function StripLeft(s: string): (r: string)
    ensures |r| <= |s| && r == s[|s| - |r|..]
    ensures r == [] || !IsStripSpace(r[0])
    ensures forall i :: 0 <= i < |s| - |r| ==> IsStripSpace(s[i])
  {
    if |s| > 0 && IsStripSpace(s[0]) then StripLeft(s[1..]) else s
  }

  function StripRight(s: string): (r: string)
    ensures |r| <= |s| && r == s[..|r|]
    ensures r == [] || !IsStripSpace(r[|r| - 1])
    ensures forall i :: |r| <= i < |s| ==> IsStripSpace(s[i])
  {
    if |s| > 0 && IsStripSpace(s[|s| - 1]) then StripRight(s[..|s| - 1]) else s
  }

  /** `String#strip`. */
  function Strip(s: string): (r: string)
    ensures |r| <= |s|
    ensures r == [] || (!IsStripSpace(r[0]) && !IsStripSpace(r[|r| - 1]))
  {
    var l := StripLeft(s);
    var r := StripRight(l);
    assert r != [] ==> r[0] == l[0];
    r
  }

  /** `strip` leaves a string with no space at either end unchanged. */
  lemma StripUnchanged(s: string)
    requires s == [] || (!IsStripSpace(s[0]) && !IsStripSpace(s[|s| - 1]))
    ensures Strip(s) == s
  {
  }

  /** `strip` is empty exactly when every character is a strip space. */
  lemma {:induction false} StripEmptyIff(s: string)
    ensures Strip(s) == [] <==> forall i :: 0 <= i < |s| ==> IsStripSpace(s[i])
  {
    var l := StripLeft(s);
    if l != [] {
      assert !IsStripSpace(l[0]);
      assert StripRight(l) != [];
      assert s[|s| - |l|] == l[0];
    }
  }

  /** Some character is not a strip space: `!s.strip.empty?`, as
      `NonBlankStrip` shows. */
  predicate HasNonStripSpace(s: string) {
    s != [] && (!IsStripSpace(s[0]) || HasNonStripSpace(s[1..]))
  }

  lemma {:induction false} HasNonStripSpaceAt(s: string)
    ensures HasNonStripSpace(s) <==> exists i :: 0 <= i < |s| && !IsStripSpace(s[i])
  {
    if s != [] {
      HasNonStripSpaceAt(s[1..]);
      if exists i :: 0 <= i < |s| && !IsStripSpace(s[i]) {
        var i :| 0 <= i < |s| && !IsStripSpace(s[i]);
        if i > 0 {
          assert s[1..][i - 1] == s[i];
        }
      }
      if exists i :: 0 <= i < |s[1..]| && !IsStripSpace(s[1..][i]) {
        var i :| 0 <= i < |s[1..]| && !IsStripSpace(s[1..][i]);
        assert s[i + 1] == s[1..][i];
      }
    }
  }

  /** `strip` leaves something exactly when some character is not a strip
      space. */
  lemma NonBlankStrip(s: string)
    ensures Strip(s) != [] <==> HasNonStripSpace(s)
  {
    StripEmptyIff(s);
    HasNonStripSpaceAt(s);
  }

  lemma StripIdempotent(s: string)
    ensures Strip(Strip(s)) == Strip(s)
  {
    StripUnchanged(Strip(s));
  }

  // ---------------------------------------------------------------------------
  // gsub(/\s+/, ' ')

  /** Drops the leading run of `\s` characters. */
  function SkipRegexSpaces(s: string): (r: string)
    ensures |r| <= |s| && r == s[|s| - |r|..]
    ensures r == [] || !IsRegexSpace(r[0])
    ensures forall i :: 0 <= i < |s| - |r| ==> IsRegexSpace(s[i])
  {
    if |s| > 0 && IsRegexSpace(s[0]) then SkipRegexSpaces(s[1..]) else s
  }

  /** The characters of `s` that are not `\s`, in order. */
  function NonSpaces(s: string): string {
    if s == [] then []
    else if IsRegexSpace(s[0]) then NonSpaces(s[1..])
    else [s[0]] + NonSpaces(s[1..])
  }

  lemma {:induction false} NonSpacesSkip(s: string)
    ensures NonSpaces(SkipRegexSpaces(s)) == NonSpaces(s)
  {
    if |s| > 0 && IsRegexSpace(s[0]) {
      NonSpacesSkip(s[1..]);
    }
  }

  /** `gsub(/\s+/, ' ')`: every maximal run of `\s` becomes one space; the
      other characters are kept in order. */
  function SqueezeSpaces(s: string): (r: string)
    ensures s != [] ==> r != [] && r[0] == (if IsRegexSpace(s[0]) then ' ' else s[0])
    ensures OnlyBlankSpaces(r) && NoDoubleSpace(r)
    ensures NonSpaces(r) == NonSpaces(s)
    decreases |s|
  {
    if s == [] then []
    else if IsRegexSpace(s[0]) then
      var rest := SkipRegexSpaces(s);
      var t := SqueezeSpaces(rest);
      NonSpacesSkip(s);
      assert NonSpaces([' '] + t) == NonSpaces(t);
      [' '] + t
    else
      var t := SqueezeSpaces(s[1..]);
      assert NonSpaces([s[0]] + t) == [s[0]] + NonSpaces(t);
      [s[0]] + t
  }

  /** Every `\s` character left is a plain space. */
  predicate OnlyBlankSpaces(r: string) {
    forall i :: 0 <= i < |r| && IsRegexSpace(r[i]) ==> r[i] == ' '
  }

  /** No two spaces in a row. */
  predicate NoDoubleSpace(r: string) {
    forall i :: 0 <= i < |r| - 1 ==> !(r[i] == ' ' && r[i + 1] == ' ')
  }

  lemma SliceKeepsSpacing(q: string, i: nat, j: nat)
    requires i <= j <= |q|
    requires OnlyBlankSpaces(q) && NoDoubleSpace(q)
    ensures OnlyBlankSpaces(q[i..j]) && NoDoubleSpace(q[i..j])
  {
    var r := q[i..j];
    forall k | 0 <= k < |r| ensures r[k] == q[i + k] {}
  }

  /** Stripping a squeezed string keeps it squeezed. */
  lemma StripKeepsSpacing(q: string)
    requires OnlyBlankSpaces(q) && NoDoubleSpace(q)
    ensures OnlyBlankSpaces(Strip(q)) && NoDoubleSpace(Strip(q))
  {
    var l := StripLeft(q);
    SliceKeepsSpacing(q, |q| - |l|, |q|);
    SliceKeepsSpacing(l, 0, |StripRight(l)|);
  }

  /** `gsub(/\s+/, ' ').strip`, used on specs and walk notes. */
  function CollapseSpaces(s: string): (r: string)
    ensures r == [] || (!IsStripSpace(r[0]) && !IsStripSpace(r[|r| - 1]))
    ensures OnlyBlankSpaces(r) && NoDoubleSpace(r)
  {
    var q := SqueezeSpaces(s);
    StripKeepsSpacing(q);
    Strip(q)
  }

  // ---------------------------------------------------------------------------
  // Digits and decimal numbers

  predicate IsDigit(c: char) { '0' <= c <= '9' }

  predicate AllDigits(s: string) { forall i :: 0 <= i < |s| ==> IsDigit(s[i]) }

  /** `gsub(/[^\d]/, '')`: the ASCII digits of `s`, in order. */
  function DigitsOnly(s: string): (r: string)
    ensures AllDigits(r) && |r| <= |s|
  {
    if s == [] then []
    else if IsDigit(s[0]) then [s[0]] + DigitsOnly(s[1..])
    else DigitsOnly(s[1..])
  }

  function DigitChar(d: nat): (c: char)
    requires d < 10
    ensures IsDigit(c)
  {
    ('0' as int + d) as char
  }

  function DigitValue(c: char): (d: nat)
    requires IsDigit(c)
    ensures d < 10 && DigitChar(d) == c
  {
    c as int - '0' as int
  }

  /** `String#to_i` on a string of digits ("" is 0). */
  function DigitsToNat(s: string): nat
    requires AllDigits(s)
  {
    if s == [] then 0 else DigitsToNat(s[..|s| - 1]) * 10 + DigitValue(s[|s| - 1])
  }

  /** `Integer#to_s` of a non-negative integer: no leading zero. */
  function NatToString(n: nat): (r: string)
    ensures |r| >= 1 && AllDigits(r)
    ensures r[0] != '-'
  {
    if n < 10 then [DigitChar(n)] else NatToString(n / 10) + [DigitChar(n % 10)]
  }

  /** `to_i` reads back what `to_s` wrote. */
  lemma {:induction false} NatToStringRoundTrip(n: nat)
    ensures DigitsToNat(NatToString(n)) == n
  {
    var s := NatToString(n);
    if n >= 10 {
      NatToStringRoundTrip(n / 10);
      assert s[..|s| - 1] == NatToString(n / 10);
      assert DigitValue(s[|s| - 1]) == n % 10;
    } else {
      assert s[..|s| - 1] == [];
    }
  }

  lemma NatToStringInjective(a: nat, b: nat)
    requires NatToString(a) == NatToString(b)
    ensures a == b
  {
    NatToStringRoundTrip(a);
    NatToStringRoundTrip(b);
  }

  /** `Integer#to_s`. */
  function IntToString(i: int): string {
    if i < 0 then "-" + NatToString(-i) else NatToString(i)
  }

  /** Distinct integers have distinct decimal renderings, so a map keyed by
      `id.to_s` keeps distinct ids apart. */
  lemma IntToStringInjective(a: int, b: int)
    requires IntToString(a) == IntToString(b)
    ensures a == b
  {
    assert IntToString(a)[0] == '-' <==> a < 0;
    assert IntToString(b)[0] == '-' <==> b < 0;
    if a < 0 {
      assert NatToString(-a) == IntToString(a)[1..];
      assert NatToString(-b) == IntToString(b)[1..];
      NatToStringInjective(-a, -b);
    } else {
      NatToStringInjective(a, b);
    }
  }

  // ---------------------------------------------------------------------------
  // join / split

  function Min(a: nat, b: nat): nat {
    if a <= b then a else b
  }

  /** `Array#first(n)`. */
  function Take<T>(xs: seq<T>, n: nat): (r: seq<T>)
    ensures |r| == Min(n, |xs|) && r == xs[..|r|]
  {
    if n < |xs| then xs[..n] else xs
  }

  /** `Array#join(sep)`. */
  function Join(xs: seq<string>, sep: string): string {
    if |xs| == 0 then "" else if |xs| == 1 then xs[0] else xs[0] + sep + Join(xs[1..], sep)
  }

  lemma JoinCons(x: string, xs: seq<string>, sep: string)
    requires |xs| >= 1
    ensures Join([x] + xs, sep) == x + sep + Join(xs, sep)
  {
    assert ([x] + xs)[1..] == xs;
  }

  lemma {:induction false} JoinAppend(xs: seq<string>, x: string, sep: string)
    requires |xs| >= 1
    ensures Join(xs + [x], sep) == Join(xs, sep) + sep + x
  {
    if |xs| == 1 {
      assert xs + [x] == [xs[0], x];
      assert Join([x], sep) == x;
    } else {
      assert (xs + [x])[1..] == xs[1..] + [x];
      JoinAppend(xs[1..], x, sep);
    }
  }

  lemma {:induction false} JoinConcat(xs: seq<string>, ys: seq<string>, sep: string)
    requires |xs| >= 1 && |ys| >= 1
    ensures Join(xs + ys, sep) == Join(xs, sep) + sep + Join(ys, sep)
    decreases |ys|
  {
    if |ys| == 1 {
      assert ys == [ys[0]];
      JoinAppend(xs, ys[0], sep);
    } else {
      var init := ys[..|ys| - 1];
      assert ys == init + [ys[|ys| - 1]];
      assert xs + ys == (xs + init) + [ys[|ys| - 1]];
      JoinConcat(xs, init, sep);
      JoinAppend(xs + init, ys[|ys| - 1], sep);
      JoinAppend(init, ys[|ys| - 1], sep);
    }
  }

  /** `s.split(c, -1)`: the pieces between the occurrences of `c`, empty
      pieces included. */
  function Split(s: string, c: char): (r: seq<string>)
    ensures |r| >= 1
    ensures forall i :: 0 <= i < |r| ==> c !in r[i]
  {
    if s == [] then [""]
    else
      var rest := Split(s[1..], c);
      if s[0] == c then [""] + rest else [[s[0]] + rest[0]] + rest[1..]
  }

  lemma {:induction false} JoinSplit(s: string, c: char)
    ensures Join(Split(s, c), [c]) == s
  {
    if s != [] {
      var rest := Split(s[1..], c);
      JoinSplit(s[1..], c);
      if s[0] == c {
        assert Split(s, c) == [""] + rest;
        assert ([""] + rest)[1..] == rest;
      } else {
        var r := Split(s, c);
        assert r[0] == [s[0]] + rest[0] && r[1..] == rest[1..];
        if |rest| > 1 {
          assert rest == [rest[0]] + rest[1..];
        }
      }
    }
  }

  /** Splitting a joined list gives the list back when no piece holds the
      separator. */
  lemma {:induction false} SplitJoin(xs: seq<string>, c: char)
    requires |xs| >= 1
    requires forall i :: 0 <= i < |xs| ==> c !in xs[i]
    ensures Split(Join(xs, [c]), c) == xs
    decreases |xs|, |xs[0]|
  {
    if |xs| == 1 {
      SplitNoSeparator(xs[0], c);
    } else if xs[0] == [] {
      SplitJoin(xs[1..], c);
      assert Join(xs, [c]) == [c] + Join(xs[1..], [c]);
      assert ([c] + Join(xs[1..], [c]))[1..] == Join(xs[1..], [c]);
      assert [""] + xs[1..] == xs;
    } else {
      var ys := [xs[0][1..]] + xs[1..];
      assert ys[1..] == xs[1..];
      assert c !in xs[0][1..];
      assert forall i :: 0 <= i < |ys| ==> c !in ys[i];
      SplitJoin(ys, c);
      var j := Join(xs, [c]);
      assert j == [xs[0][0]] + Join(ys, [c]);
      assert j[1..] == Join(ys, [c]);
      assert j[0] == xs[0][0] && j[0] != c;
      var rest := Split(j[1..], c);
      assert rest == ys;
      assert Split(j, c) == [[j[0]] + rest[0]] + rest[1..];
      assert [xs[0][0]] + xs[0][1..] == xs[0];
      assert [[xs[0][0]] + rest[0]] + rest[1..] == xs;
    }
  }

  /** Splitting at a separator splits each side independently. */
  lemma {:induction false} SplitConcat(a: string, b: string, c: char)
    ensures Split(a + [c] + b, c) == Split(a, c) + Split(b, c)
  {
    var s := a + [c] + b;
    if a == [] {
      assert s[1..] == b;
    } else {
      assert s[1..] == a[1..] + [c] + b;
      SplitConcat(a[1..], b, c);
    }
  }

  lemma JoinCons2(a: string, m: string, rest: seq<string>, sep: string)
    requires |rest| >= 1
    ensures Join([a, m] + rest, sep) == a + sep + (m + sep + Join(rest, sep))
  {
    var xs := [a, m] + rest;
    var ys := [m] + rest;
    assert xs[1..] == ys && ys[1..] == rest;
  }

  /** Splitting a joined list whose pieces, all but one, hold no separator. */
  lemma SplitJoinAround(a: string, m: string, rest: seq<string>, c: char)
    requires c !in a && |rest| >= 1
    requires forall i :: 0 <= i < |rest| ==> c !in rest[i]
    ensures Split(Join([a, m] + rest, [c]), c) == [a] + Split(m, c) + rest
  {
    var j := Join(rest, [c]);
    JoinCons2(a, m, rest, [c]);
    SplitJoin(rest, c);
    SplitAround(a, m, j, c);
  }

  lemma SplitAround(a: string, m: string, j: string, c: char)
    requires c !in a
    ensures Split(a + [c] + (m + [c] + j), c) == [a] + Split(m, c) + Split(j, c)
  {
    SplitConcat(a, m + [c] + j, c);
    SplitConcat(m, j, c);
    SplitNoSeparator(a, c);
    var sm, sj := Split(m, c), Split(j, c);
    assert [a] + (sm + sj) == [a] + sm + sj;
  }

  lemma {:induction false} SplitNoSeparator(s: string, c: char)
    requires c !in s
    ensures Split(s, c) == [s]
  {
    if s != [] {
      assert c !in s[1..];
      SplitNoSeparator(s[1..], c);
      assert s[0] != c;
      assert [s[0]] + s[1..] == s;
    }
  }

  // ---------------------------------------------------------------------------
  // Search

  /** The end of the run of characters satisfying `inRun` from `j`: where a
      greedy `[...]*` stops. */
  function RunEnd(s: string, j: nat, inRun: char -> bool): (r: nat)
    requires j <= |s|
    ensures j <= r <= |s|
    ensures forall k :: j <= k < r ==> inRun(s[k])
    ensures r == |s| || !inRun(s[r])
    decreases |s| - j
  {
    if j < |s| && inRun(s[j]) then RunEnd(s, j + 1, inRun) else j
  }

  /** `^`: the start of the text or of a line. */
  predicate LineStart(s: string, p: nat)
    requires p <= |s|
  {
    p == 0 || s[p - 1] == '\n'
  }

  /** A run ends at the first position outside it. */
  lemma {:induction false} RunEndAt(s: string, a: nat, b: nat, inRun: char -> bool)
    requires a <= b <= |s|
    requires forall i :: a <= i < b ==> inRun(s[i])
    requires b == |s| || !inRun(s[b])
    ensures RunEnd(s, a, inRun) == b
    decreases b - a
  {
    if a < b {
      RunEndAt(s, a + 1, b, inRun);
    }
  }

  predicate OccursAt(s: string, t: string, j: nat) {
    j + |t| <= |s| && s[j..j + |t|] == t
  }

  /** The leftmost occurrence of `t` in `s` at or after `from`. */
  function FindFrom(s: string, t: string, from: nat): (r: Option<nat>)
    ensures r.Some? ==> from <= r.value && OccursAt(s, t, r.value)
    ensures r.Some? ==> forall j :: from <= j < r.value ==> !OccursAt(s, t, j)
    ensures r.None? ==> forall j :: from <= j ==> !OccursAt(s, t, j)
    decreases |s| - from
  {
    if from + |t| > |s| then None
    else if OccursAt(s, t, from) then Some(from)
    else FindFrom(s, t, from + 1)
  }

  /** An occurrence with none before it is the one `FindFrom` returns. */
  lemma FindFromLeftmost(s: string, t: string, k: nat)
    requires OccursAt(s, t, k)
    requires forall j :: 0 <= j < k ==> !OccursAt(s, t, j)
    ensures FindFrom(s, t, 0) == Some(k)
  {
    var r := FindFrom(s, t, 0);
    assert r.Some?;
    assert r.value <= k;
  }

  /** `s.include?(t)`. */
  predicate Includes(s: string, t: string) {
    FindFrom(s, t, 0).Some?
  }

  // ---------------------------------------------------------------------------
  // Case

  function DowncaseChar(c: char): char {
    if 'A' <= c <= 'Z' then (c as int + 32) as char else c
  }

  /** `String#downcase`, on the ASCII letters. */
  function Downcase(s: string): (r: string)
    ensures |r| == |s|
    ensures forall i :: 0 <= i < |s| ==> r[i] == DowncaseChar(s[i])
  {
    seq(|s|, i requires 0 <= i < |s| => DowncaseChar(s[i]))
  }

  // ---------------------------------------------------------------------------
  // CGI.escapeHTML

  function EscapeChar(c: char): string {
    match c
    case '&' => "&amp;"
    case '<' => "&lt;"
    case '>' => "&gt;"
    case '"' => "&quot;"
    case '\'' => "&#39;"
    case _ => [c]
  }

  /** `CGI.escapeHTML`: the five characters `& < > " '` become entities, so
      no character of the result can open or close a tag or end an
      attribute value, and nothing is dropped. */
  function HtmlEscape(s: string): (r: string)
    ensures forall i :: 0 <= i < |r| ==> !IsMarkup(r[i])
    ensures |s| <= |r|
  {
    if s == [] then [] else EscapeChar(s[0]) + HtmlEscape(s[1..])
  }

  /** The characters that delimit tags and attribute values in HTML. */
  predicate IsMarkup(c: char) {
    c == '<' || c == '>' || c == '"' || c == '\''
  }

  /** The markup characters of `s`, in order. */
  function Markup(s: string): (r: string)
    ensures forall i :: 0 <= i < |r| ==> IsMarkup(r[i])
  {
    if s == [] then [] else (if IsMarkup(s[0]) then [s[0]] else []) + Markup(s[1..])
  }

  lemma {:induction false} MarkupConcat(a: string, b: string)
    ensures Markup(a + b) == Markup(a) + Markup(b)
  {
    if a != [] {
      assert (a + b)[1..] == a[1..] + b;
      MarkupConcat(a[1..], b);
    } else {
      assert a + b == b;
    }
  }

  lemma {:induction false} MarkupFree(s: string)
    requires forall i :: 0 <= i < |s| ==> !IsMarkup(s[i])
    ensures Markup(s) == []
  {
    if s != [] { MarkupFree(s[1..]); }
  }

  lemma EscapeCharNoMarkup(c: char)
    ensures Markup(EscapeChar(c)) == []
  {
    MarkupFree(EscapeChar(c));
  }

  /** Escaped text holds no markup: whatever it is, it can neither open nor
      close a tag, nor end an attribute value. */
  lemma {:induction false} HtmlEscapeNoMarkup(s: string)
    ensures Markup(HtmlEscape(s)) == []
  {
    if s != [] {
      HtmlEscapeNoMarkup(s[1..]);
      EscapeCharNoMarkup(s[0]);
      MarkupConcat(EscapeChar(s[0]), HtmlEscape(s[1..]));
    }
  }

  predicate PrefixOf(p: string, s: string) {
    |p| <= |s| && s[..|p|] == p
  }

  /** The character an entity at the start of `s` stands for, and the
      entity's length; the five entities differ in their second character. */
  function EntityPrefix(s: string): (r: Option<(char, nat)>)
    ensures r.Some? ==> 1 <= r.value.1 <= |s|
    ensures r.Some? ==> s[0] == '&'
  {
    if |s| < 2 || s[0] != '&' then None
    else match s[1]
      case 'a' => if PrefixOf("&amp;", s) then Some(('&', 5)) else None
      case 'l' => if PrefixOf("&lt;", s) then Some(('<', 4)) else None
      case 'g' => if PrefixOf("&gt;", s) then Some(('>', 4)) else None
      case 'q' => if PrefixOf("&quot;", s) then Some(('"', 6)) else None
      case '#' => if PrefixOf("&#39;", s) then Some(('\'', 5)) else None
      case _ => None
  }

  /** Decodes exactly the five entities `HtmlEscape` produces. */
  function HtmlUnescape(s: string): string {
    if s == [] then []
    else
      match EntityPrefix(s)
      case Some((c, n)) => [c] + HtmlUnescape(s[n..])
      case None => [s[0]] + HtmlUnescape(s[1..])
  }

  lemma UnescapeCons(c: char, t: string)
    ensures HtmlUnescape(EscapeChar(c) + t) == [c] + HtmlUnescape(t)
  {
    if c == '&' || c == '<' || c == '>' {
      UnescapeEntityCons(c, t);
    } else if c == '"' || c == '\'' {
      UnescapeQuoteCons(c, t);
    } else {
      var s := [c] + t;
      assert EscapeChar(c) == [c];
      assert s[1..] == t;
    }
  }

  lemma UnescapeEntityCons(c: char, t: string)
    requires c == '&' || c == '<' || c == '>'
    ensures HtmlUnescape(EscapeChar(c) + t) == [c] + HtmlUnescape(t)
  {
    var e := EscapeChar(c);
    var s := e + t;
    assert s[..|e|] == e && s[|e|..] == t;
    assert s[0] == '&' && s[1] == e[1];
  }

  lemma UnescapeQuoteCons(c: char, t: string)
    requires c == '"' || c == '\''
    ensures HtmlUnescape(EscapeChar(c) + t) == [c] + HtmlUnescape(t)
  {
    var e := EscapeChar(c);
    var s := e + t;
    assert s[..|e|] == e && s[|e|..] == t;
    assert s[0] == '&' && s[1] == e[1];
  }

  /** Escaping works character by character. */
  lemma {:induction false} HtmlEscapeConcat(a: string, b: string)
    ensures HtmlEscape(a + b) == HtmlEscape(a) + HtmlEscape(b)
  {
    if a != [] {
      assert (a + b)[1..] == a[1..] + b;
      HtmlEscapeConcat(a[1..], b);
    } else {
      assert a + b == b;
    }
  }

  /** Escaping leaves a line break where it was and adds none. */
  lemma {:induction false} HtmlEscapeNewlines(s: string)
    ensures '\n' in HtmlEscape(s) <==> '\n' in s
  {
    if s != [] {
      HtmlEscapeNewlines(s[1..]);
      assert s == [s[0]] + s[1..];
    }
  }

  /** Escaping loses nothing: the text is recovered from the escaped form. */
  lemma {:induction false} HtmlEscapeRoundTrip(s: string)
    ensures HtmlUnescape(HtmlEscape(s)) == s
  {
    if s != [] {
      HtmlEscapeRoundTrip(s[1..]);
      UnescapeCons(s[0], HtmlEscape(s[1..]));
      assert [s[0]] + s[1..] == s;
    }
  }
}
