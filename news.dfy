/** The news helpers of `services/news.rb`: the charset sniffed from a
    Content-Type header or from the page's `<meta>` tags, the article
    dictionary scraped from the news page, and the numbered summary lines the
    daily report shows. The page's bytes are read one character per byte. */
module News {
  import opened Wrappers
  import opened Text
  import opened Json
  import opened Seqs

  // ---------------------------------------------------------------------------
  // Regular-expression pieces

  /** `[A-Za-z0-9_\-]`. */
  predicate IsTokenChar(c: char) {
    ('A' <= c <= 'Z') || ('a' <= c <= 'z') || ('0' <= c <= '9') || c == '_' || c == '-'
  }

  predicate IsQuote(c: char) {
    c == '"' || c == '\''
  }

  predicate NotGt(c: char) {
    c != '>'
  }

  predicate NotQuote(c: char) {
    !IsQuote(c)
  }

  /** `lit`, written in lower case, occurs at `j` under the `/i` flag. */
  predicate OccursAtCI(s: string, lit: string, j: nat) {
    j + |lit| <= |s| && forall i :: 0 <= i < |lit| ==> DowncaseChar(s[j + i]) == lit[i]
  }

  /** A non-empty run of token characters. */
  predicate IsToken(t: string) {
    |t| >= 1 && forall i :: 0 <= i < |t| ==> IsTokenChar(t[i])
  }

  /** `([A-Za-z0-9_\-]+)` at `j`: the longest run of token characters, when
      there is at least one. */
  predicate StartsToken(s: string, j: nat) {
    j < |s| && IsTokenChar(s[j])
  }

  function TokenAt(s: string, j: nat): (r: Option<string>)
    ensures r.Some? ==> (IsToken(r.value) && j + |r.value| <= |s| && r.value == s[j..j + |r.value|]
                         && (j + |r.value| == |s| || !IsTokenChar(s[j + |r.value|])))
    ensures r.Some? <==> StartsToken(s, j)
  {
    if j >= |s| then None
    else
      var e := RunEnd(s, j, IsTokenChar);
      if e == j then None else Some(s[j..e])
  }

  // A pattern tried at a position gives where its captured token starts.
  // A pattern that starts with a greedy `[^>]*` or `[^"']*` tries the rest
  // of the pattern from the end of the run backwards; a search tries the
  // start positions from the left. Each pattern has a window: what it gives
  // at every position of a range.

  /** The index of the first entry that holds a position. */
  function FirstSome(xs: seq<Option<nat>>): (r: Option<nat>)
    ensures r.Some? ==> r.value < |xs| && xs[r.value].Some?
  {
    if xs == [] then None
    else if xs[0].Some? then Some(0)
    else match FirstSome(xs[1..])
      case None => None
      case Some(i) => Some(i + 1)
  }

  /** The index of the last entry that holds a position. */
  function LastSome(xs: seq<Option<nat>>): (r: Option<nat>)
    ensures r.Some? ==> r.value < |xs| && xs[r.value].Some?
  {
    LastSomeBelow(xs, |xs|)
  }

  /** The index of the last entry below `n` that holds a position. */
  function LastSomeBelow(xs: seq<Option<nat>>, n: nat): (r: Option<nat>)
    requires n <= |xs|
    ensures r.Some? ==> r.value < n && xs[r.value].Some?
  {
    if n == 0 then None
    else if xs[n - 1].Some? then Some(n - 1)
    else LastSomeBelow(xs, n - 1)
  }

  /** No earlier entry holds a position, and there is none exactly when no
      entry holds one. */
  lemma {:induction false} FirstSomeIsFirst(xs: seq<Option<nat>>)
    ensures FirstSome(xs).Some? ==> forall i :: 0 <= i < FirstSome(xs).value ==> xs[i].None?
    ensures FirstSome(xs).None? <==> forall i :: 0 <= i < |xs| ==> xs[i].None?
  {
    if xs != [] && xs[0].None? {
      FirstSomeIsFirst(xs[1..]);
      assert forall i :: 1 <= i < |xs| ==> xs[i] == xs[1..][i - 1];
    }
  }

  /** No later entry holds a position, and there is none exactly when no
      entry holds one. */
  lemma LastSomeIsLast(xs: seq<Option<nat>>)
    ensures LastSome(xs).Some? ==> forall i :: LastSome(xs).value < i < |xs| ==> xs[i].None?
    ensures LastSome(xs).None? <==> forall i :: 0 <= i < |xs| ==> xs[i].None?
  {
    LastSomeBelowIsLast(xs, |xs|);
  }

  lemma {:induction false} LastSomeBelowIsLast(xs: seq<Option<nat>>, n: nat)
    requires n <= |xs|
    ensures LastSomeBelow(xs, n).Some? ==> forall i :: LastSomeBelow(xs, n).value < i < n ==> xs[i].None?
    ensures LastSomeBelow(xs, n).None? <==> forall i :: 0 <= i < n ==> xs[i].None?
  {
    if n > 0 && xs[n - 1].None? {
      LastSomeBelowIsLast(xs, n - 1);
    }
  }

  /** What the leftmost match gives. */
  function FirstHit(xs: seq<Option<nat>>): Option<nat> {
    match FirstSome(xs)
    case None => None
    case Some(i) => xs[i]
  }

  /** What the match that gives back the fewest characters gives. */
  function LastHit(xs: seq<Option<nat>>): Option<nat> {
    match LastSome(xs)
    case None => None
    case Some(i) => xs[i]
  }

  function Span(lo: nat, hi: nat): nat {
    if lo <= hi then hi - lo + 1 else 0
  }

  /** `charset=([A-Za-z0-9_\-]+)` at `q`. */
  function AtCharsetParam(s: string, q: nat): (r: Option<nat>)
    ensures r.Some? ==> StartsToken(s, r.value)
  {
    if OccursAtCI(s, "charset=", q) && StartsToken(s, q + 8) then Some(q + 8) else None
  }

  function CharsetParams(s: string, lo: nat, hi: nat): (w: seq<Option<nat>>)
    ensures |w| == Span(lo, hi) && forall i :: 0 <= i < |w| ==> w[i] == AtCharsetParam(s, lo + i)
  {
    seq(Span(lo, hi), i requires 0 <= i < Span(lo, hi) => AtCharsetParam(s, lo + i))
  }

  /** `charset=["']?([A-Za-z0-9_\-]+)` at `q`: the optional quote is taken
      when it is there, and skipping it cannot help, as a quote is no token
      character. */
  function AtMetaParam(s: string, q: nat): (r: Option<nat>)
    ensures r.Some? ==> StartsToken(s, r.value)
  {
    if !OccursAtCI(s, "charset=", q) then None
    else if q + 8 < |s| && IsQuote(s[q + 8]) then (if StartsToken(s, q + 9) then Some(q + 9) else None)
    else if StartsToken(s, q + 8) then Some(q + 8) else None
  }

  function MetaParams(s: string, lo: nat, hi: nat): (w: seq<Option<nat>>)
    ensures |w| == Span(lo, hi) && forall i :: 0 <= i < |w| ==> w[i] == AtMetaParam(s, lo + i)
  {
    seq(Span(lo, hi), i requires 0 <= i < Span(lo, hi) => AtMetaParam(s, lo + i))
  }

  /** `<meta[^>]*charset=["']?([A-Za-z0-9_\-]+)` at `q`. */
  function AtMetaTag(s: string, q: nat): (r: Option<nat>)
    ensures r.Some? ==> StartsToken(s, r.value)
  {
    if OccursAtCI(s, "<meta", q) then LastHit(MetaParams(s, q + 5, RunEnd(s, q + 5, NotGt))) else None
  }

  function MetaTags(s: string, lo: nat, hi: nat): (w: seq<Option<nat>>)
    ensures |w| == Span(lo, hi) && forall i :: 0 <= i < |w| ==> w[i] == AtMetaTag(s, lo + i)
  {
    seq(Span(lo, hi), i requires 0 <= i < Span(lo, hi) => AtMetaTag(s, lo + i))
  }

  /** `content=["'][^"']*charset=([A-Za-z0-9_\-]+)` at `q`. */
  function AtContentAttr(s: string, q: nat): (r: Option<nat>)
    ensures r.Some? ==> StartsToken(s, r.value)
  {
    if OccursAtCI(s, "content=", q) && q + 8 < |s| && IsQuote(s[q + 8])
    then LastHit(CharsetParams(s, q + 9, RunEnd(s, q + 9, NotQuote)))
    else None
  }

  function ContentAttrs(s: string, lo: nat, hi: nat): (w: seq<Option<nat>>)
    ensures |w| == Span(lo, hi) && forall i :: 0 <= i < |w| ==> w[i] == AtContentAttr(s, lo + i)
  {
    seq(Span(lo, hi), i requires 0 <= i < Span(lo, hi) => AtContentAttr(s, lo + i))
  }

  /** `http-equiv=["']content-type["'][^>]*` at `q`, then the content
      attribute. */
  function AtEquivAttr(s: string, q: nat): (r: Option<nat>)
    ensures r.Some? ==> StartsToken(s, r.value)
  {
    if OccursAtCI(s, "http-equiv=", q) && q + 11 < |s| && IsQuote(s[q + 11])
       && OccursAtCI(s, "content-type", q + 12) && q + 24 < |s| && IsQuote(s[q + 24])
    then LastHit(ContentAttrs(s, q + 25, RunEnd(s, q + 25, NotGt)))
    else None
  }

  function EquivAttrs(s: string, lo: nat, hi: nat): (w: seq<Option<nat>>)
    ensures |w| == Span(lo, hi) && forall i :: 0 <= i < |w| ==> w[i] == AtEquivAttr(s, lo + i)
  {
    seq(Span(lo, hi), i requires 0 <= i < Span(lo, hi) => AtEquivAttr(s, lo + i))
  }

  /** `<meta[^>]*` at `q`, then the http-equiv attribute. */
  function AtEquivTag(s: string, q: nat): (r: Option<nat>)
    ensures r.Some? ==> StartsToken(s, r.value)
  {
    if OccursAtCI(s, "<meta", q) then LastHit(EquivAttrs(s, q + 5, RunEnd(s, q + 5, NotGt))) else None
  }

  function EquivTags(s: string, lo: nat, hi: nat): (w: seq<Option<nat>>)
    ensures |w| == Span(lo, hi) && forall i :: 0 <= i < |w| ==> w[i] == AtEquivTag(s, lo + i)
  {
    seq(Span(lo, hi), i requires 0 <= i < Span(lo, hi) => AtEquivTag(s, lo + i))
  }

  /** The token captured at `k`. */
  function Capture(s: string, k: Option<nat>): (r: Option<string>)
    requires k.Some? ==> StartsToken(s, k.value)
    ensures r.Some? ==> k.Some? && IsToken(r.value) && OccursAt(s, r.value, k.value)
  {
    if k.None? then None else TokenAt(s, k.value)
  }

  // ---------------------------------------------------------------------------
  // charset_from_content_type

  /** `charset_from_content_type`: nil for a missing header, else the
      capture of the leftmost match of `/charset=([A-Za-z0-9_\-]+)/i`. A
      charset found is a token that occurs in the header. */
  function CharsetFromContentType(ct: Option<string>): (r: Option<string>)
    ensures ct.None? ==> r.None?
    ensures r.Some? ==> IsToken(r.value) && exists k :: OccursAt(ct.value, r.value, k)
  {
    if ct.None? then None else Capture(ct.value, FirstHit(CharsetParams(ct.value, 0, |ct.value|)))
  }

  /** The header's charset is the longest token right after the leftmost
      "charset=" (in any letter case) that a token follows; there is none
      exactly when no "charset=" is followed by a token. */
  lemma CharsetFromContentTypeSpec(ct: string)
    ensures var r := CharsetFromContentType(Some(ct));
      && (r.Some? ==>
            exists q :: (0 <= q <= |ct| && OccursAtCI(ct, "charset=", q) && r == TokenAt(ct, q + 8) && IsToken(r.value)
                 && forall q' :: 0 <= q' < q ==> !OccursAtCI(ct, "charset=", q') || !StartsToken(ct, q' + 8)))
      && (r.None? <==> forall q :: 0 <= q <= |ct| ==> !OccursAtCI(ct, "charset=", q) || !StartsToken(ct, q + 8))
  {
    var w := CharsetParams(ct, 0, |ct|);
    FirstSomeIsFirst(w);
    if FirstSome(w).Some? {
      var q := FirstSome(w).value;
      assert w[q] == AtCharsetParam(ct, q);
      forall q' | 0 <= q' < q
        ensures !OccursAtCI(ct, "charset=", q') || !StartsToken(ct, q' + 8)
      {
        assert w[q'].None?;
      }
    } else {
      forall q | 0 <= q <= |ct|
        ensures !OccursAtCI(ct, "charset=", q) || !StartsToken(ct, q + 8)
      {
        assert w[q].None?;
      }
    }
  }

  /** A quoted parameter, legal in a Content-Type header, is not read: the
      token must follow "charset=" directly. */
  lemma QuotedHeaderCharsetIgnored()
    ensures CharsetFromContentType(Some("charset=\"utf-8\"")) == None
  {
    var s := "charset=\"utf-8\"";
    var w := CharsetParams(s, 0, |s|);
    forall q | 0 <= q < |w|
      ensures w[q].None?
    {
      if q == 0 {
        assert !StartsToken(s, 8);
      } else if q + 8 <= |s| {
        assert DowncaseChar(s[q]) != 'c';
      }
    }
    FirstSomeIsFirst(w);
  }

  // ---------------------------------------------------------------------------
  // detect_html_meta_charset

  const MetaScanLimit: nat := 4000

  /** `detect_html_meta_charset`: within the first 4000 bytes, the
      `<meta ... charset=...>` form, else the http-equiv form. A charset
      found is a token that occurs within the first 4000 bytes. */
  function DetectHtmlMetaCharset(bytes: string): (r: Option<string>)
    ensures r.Some? ==> IsToken(r.value) && exists k :: OccursAt(Take(bytes, MetaScanLimit), r.value, k)
  {
    var head := Take(bytes, MetaScanLimit);
    var direct := FirstHit(MetaTags(head, 0, |head|));
    if direct.Some? then Capture(head, direct) else Capture(head, FirstHit(EquivTags(head, 0, |head|)))
  }

  /** There is no charset exactly when neither form matches anywhere within
      the first 4000 bytes, and bytes after those never change the answer. */
  lemma DetectHtmlMetaCharsetSpec(bytes: string, other: string)
    ensures var head := Take(bytes, MetaScanLimit);
      DetectHtmlMetaCharset(bytes).None? <==> forall q :: 0 <= q <= |head| ==> AtMetaTag(head, q).None? && AtEquivTag(head, q).None?
    ensures |bytes| >= MetaScanLimit && |other| >= MetaScanLimit && bytes[..MetaScanLimit] == other[..MetaScanLimit]
      ==> DetectHtmlMetaCharset(bytes) == DetectHtmlMetaCharset(other)
  {
    var head := Take(bytes, MetaScanLimit);
    var m := MetaTags(head, 0, |head|);
    var e := EquivTags(head, 0, |head|);
    FirstSomeIsFirst(m);
    FirstSomeIsFirst(e);
    assert forall q :: 0 <= q <= |head| ==> m[q] == AtMetaTag(head, q) && e[q] == AtEquivTag(head, q);
  }

  /** Backtracking over a `[^>]*` run from `lo` to `hi` picks the last
      position of the run where the charset parameter matches. */
  lemma MetaParamsLast(s: string, lo: nat, hi: nat) returns (k: nat)
    requires LastHit(MetaParams(s, lo, hi)).Some?
    ensures lo <= k <= hi && AtMetaParam(s, k) == LastHit(MetaParams(s, lo, hi))
    ensures forall k' :: k < k' <= hi ==> AtMetaParam(s, k').None?
  {
    var w := MetaParams(s, lo, hi);
    LastSomeIsLast(w);
    var i := LastSome(w).value;
    k := lo + i;
    assert AtMetaParam(s, k) == w[i];
    MetaParamsNoneFrom(s, lo, hi, i + 1);
  }

  /** Entries of the window that hold no position are positions where the
      charset parameter does not match. */
  lemma MetaParamsNoneFrom(s: string, lo: nat, hi: nat, a: nat)
    requires forall i :: a <= i < |MetaParams(s, lo, hi)| ==> MetaParams(s, lo, hi)[i].None?
    ensures forall k :: lo + a <= k <= hi ==> AtMetaParam(s, k).None?
  {
    var w := MetaParams(s, lo, hi);
    forall k | lo + a <= k <= hi
      ensures AtMetaParam(s, k).None?
    {
      assert w[k - lo].None?;
    }
  }

  /** Backtracking over the run fails exactly when the charset parameter
      matches nowhere in it. */
  lemma MetaParamsNone(s: string, lo: nat, hi: nat)
    ensures LastHit(MetaParams(s, lo, hi)).None? <==> forall k :: lo <= k <= hi ==> AtMetaParam(s, k).None?
  {
    var w := MetaParams(s, lo, hi);
    LastSomeIsLast(w);
    if LastSome(w).None? {
      MetaParamsNoneFrom(s, lo, hi, 0);
    } else {
      assert AtMetaParam(s, lo + LastSome(w).value).Some?;
    }
  }

  /** `<meta[^>]*charset=...` matches at `q` only where `<meta` is, and it
      captures what the LAST charset parameter in the run of non-`>`
      characters after `<meta` captures, as the greedy `[^>]*` gives
      characters back from the end of the run; it fails exactly when no
      charset parameter starts in that run. */
  lemma AtMetaTagSpec(s: string, q: nat)
    ensures AtMetaTag(s, q).Some? ==> OccursAtCI(s, "<meta", q)
    ensures OccursAtCI(s, "<meta", q) ==>
      var e := RunEnd(s, q + 5, NotGt);
      && (AtMetaTag(s, q).Some? ==> exists k :: q + 5 <= k <= e && AtMetaParam(s, k) == AtMetaTag(s, q)
                                       && forall k' :: k < k' <= e ==> AtMetaParam(s, k').None?)
      && (AtMetaTag(s, q).None? <==> forall k :: q + 5 <= k <= e ==> AtMetaParam(s, k).None?)
  {
    if OccursAtCI(s, "<meta", q) {
      var e := RunEnd(s, q + 5, NotGt);
      MetaParamsNone(s, q + 5, e);
      if AtMetaTag(s, q).Some? {
        var k := MetaParamsLast(s, q + 5, e);
      }
    }
  }

  // ---------------------------------------------------------------------------
  // absolutize

  predicate IsAlpha(c: char) {
    ('A' <= c <= 'Z') || ('a' <= c <= 'z')
  }

  predicate IsSchemeChar(c: char) {
    IsAlpha(c) || IsDigit(c) || c == '+' || c == '-' || c == '.'
  }

  /** Where the scheme of `href` ends, when it starts with one:
      `ALPHA *( ALPHA / DIGIT / "+" / "-" / "." ) ":"`, section 3.1 of
      RFC 3986. */
  function SchemeEnd(href: string): (r: Option<nat>)
    ensures r.Some? ==> (0 < r.value < |href| && href[r.value] == ':' && IsAlpha(href[0])
                         && forall i :: 0 < i < r.value ==> IsSchemeChar(href[i]))
  {
    if |href| == 0 || !IsAlpha(href[0]) then None
    else
      var e := RunEnd(href, 1, IsSchemeChar);
      if e < |href| && href[e] == ':' then Some(e) else None
  }

  /** `absolutize`. `uri` is `URI(href).to_s`: the href as Ruby's URI parser
      reads it and writes it back, or the error it raises on an href it
      cannot read; `join` is `URI.join(base_url, href).to_s`, or its error.
      An href with a scheme is absolute and comes back as `URI` writes it;
      any other href is resolved against the base. */
  function Absolutize(base: string, href: string, uri: string -> Result<string>,
                      join: (string, string) -> Result<string>): (r: Result<string>)
    ensures uri(href).Err? ==> r == Err(uri(href).error)
    ensures uri(href).Ok? && SchemeEnd(href).None? ==> r == join(base, href)
    ensures uri(href).Ok? && SchemeEnd(href).Some? ==> r == uri(href)
  {
    match uri(href)
    case Err(e) => Err(e)
    case Ok(text) => if SchemeEnd(href).Some? then Ok(text) else join(base, href)
  }

  /** When `URI` writes an absolute href back as an absolute URL that it
      reads back unchanged, absolutizing is idempotent: what it returns for
      an absolute href is left alone by a second pass against any base. */
  lemma AbsolutizeSpec(base: string, base': string, href: string, uri: string -> Result<string>,
                       join: (string, string) -> Result<string>, join': (string, string) -> Result<string>)
    requires forall h :: uri(h).Ok? && SchemeEnd(h).Some? ==> SchemeEnd(uri(h).value).Some? && uri(uri(h).value) == uri(h)
    requires SchemeEnd(href).Some? && Absolutize(base, href, uri, join).Ok?
    ensures var a := Absolutize(base, href, uri, join).value;
      SchemeEnd(a).Some? && Absolutize(base', a, uri, join') == Ok(a)
  {
    var a := uri(href).value;
    assert SchemeEnd(a).Some? && uri(a) == uri(href);
  }

  // ---------------------------------------------------------------------------
  // fetch_as_dictionary

  /** A link the page's selector found: its text and its `href`
      attribute. */
  datatype Anchor = Anchor(text: string, href: Option<string>)

  /** One saved article. */
  datatype Article = Article(name: string, link: string)

  /** The link is kept: its stripped text and its href are not empty. */
  predicate Listed(a: Anchor) {
    HasNonStripSpace(a.text) && a.href.GetOr("") != ""
  }

  /** The key of the link at (0-based) position `idx`. */
  function ArticleKey(idx: nat): string {
    "Article" + NatToString(idx + 1)
  }

  /** How `fetch_as_dictionary` resolves a kept href. */
  function Resolver(base: string, uri: string -> Result<string>, join: (string, string) -> Result<string>)
    : string -> Result<string>
  {
    href => Absolutize(base, href, uri, join)
  }

  /** The text of a resolved link; only read when the link resolved. */
  function LinkText(r: Result<string>): string {
    if r.Ok? then r.value else ""
  }

  /** The entry saved for the link at position `idx`. */
  function Entry(a: Anchor, idx: nat, abs: string -> Result<string>): (string, Article) {
    (ArticleKey(idx), Article(Strip(a.text), LinkText(abs(a.href.GetOr("")))))
  }

  /** Whether each link is kept. */
  function ListedFlags(anchors: seq<Anchor>): (f: seq<bool>)
    ensures |f| == |anchors|
    ensures forall i :: 0 <= i < |f| ==> f[i] == Listed(anchors[i])
  {
    seq(|anchors|, i requires 0 <= i < |anchors| => Listed(anchors[i]))
  }

  /** The positions of the kept links, in increasing order. */
  function ListedIndices(anchors: seq<Anchor>): (r: seq<nat>)
    ensures forall k :: 0 <= k < |r| ==> r[k] < |anchors| && Listed(anchors[r[k]])
  {
    IndicesWhere(ListedFlags(anchors))
  }

  /** Exactly the kept links' positions are listed, in increasing order. */
  lemma ListedIndicesSpec(anchors: seq<Anchor>)
    ensures var r := ListedIndices(anchors);
      && (forall k, l :: 0 <= k < l < |r| ==> r[k] < r[l])
      && (forall i :: 0 <= i < |anchors| && Listed(anchors[i]) ==> i in r)
  {
    IndicesWhereSpec(ListedFlags(anchors));
  }

  /** The entries built from `anchors` when every kept link resolves: the
      entry of every kept link, in link order, under the key of its original
      position. */
  function Dictionary(anchors: seq<Anchor>, abs: string -> Result<string>): (d: seq<(string, Article)>)
    ensures |d| <= |anchors|
  {
    var idx := ListedIndices(anchors);
    seq(|idx|, k requires 0 <= k < |idx| => Entry(anchors[idx[k]], idx[k], abs))
  }

  /** The error of the first kept link that does not resolve, if any. */
  function Failure(anchors: seq<Anchor>, abs: string -> Result<string>): Option<string>
    decreases |anchors|
  {
    if anchors == [] then None
    else
      var f := Failure(anchors[..|anchors| - 1], abs);
      var a := anchors[|anchors| - 1];
      if f.Some? then f
      else if Listed(a) && abs(a.href.GetOr("")).Err? then Some(abs(a.href.GetOr("")).error)
      else None
  }

  /** `fetch_as_dictionary` on the links it looks at: the first href that
      cannot be resolved raises out of the whole call, otherwise the
      dictionary. */
  function FetchedDictionary(anchors: seq<Anchor>, abs: string -> Result<string>): Result<seq<(string, Article)>> {
    match Failure(anchors, abs)
    case Some(e) => Err(e)
    case None => Ok(Dictionary(anchors, abs))
  }

  /** One more link adds its position exactly when it is kept. */
  lemma ListedIndicesSnoc(anchors: seq<Anchor>, a: Anchor)
    ensures ListedIndices(anchors + [a]) == ListedIndices(anchors) + (if Listed(a) then [|anchors|] else [])
  {
    var xs := anchors + [a];
    assert ListedFlags(xs)[..|anchors|] == ListedFlags(anchors);
  }

  /** Looking at one more link adds its entry exactly when it is kept. */
  lemma DictionarySnoc(anchors: seq<Anchor>, a: Anchor, abs: string -> Result<string>)
    ensures Dictionary(anchors + [a], abs)
      == Dictionary(anchors, abs) + (if Listed(a) then [Entry(a, |anchors|, abs)] else [])
  {
    var xs := anchors + [a];
    var idx := ListedIndices(anchors);
    ListedIndicesSnoc(anchors, a);
    var d, d' := Dictionary(anchors, abs), Dictionary(xs, abs);
    assert forall k :: 0 <= k < |idx| ==> d'[k] == Entry(xs[idx[k]], idx[k], abs);
    assert forall k :: 0 <= k < |idx| ==> xs[idx[k]] == anchors[idx[k]];
  }

  /** The loop step of `fetch_as_dictionary`: the link at `idx` adds its
      entry when its stripped text and its href are not empty. */
  lemma DictionaryStep(links: seq<Anchor>, idx: nat, abs: string -> Result<string>)
    requires idx < |links|
    ensures Dictionary(links[..idx + 1], abs) == Dictionary(links[..idx], abs)
      + (if Strip(links[idx].text) != "" && links[idx].href.GetOr("") != ""
         then [(ArticleKey(idx), Article(Strip(links[idx].text), LinkText(abs(links[idx].href.GetOr("")))))]
         else [])
  {
    assert links[..idx + 1] == links[..idx] + [links[idx]];
    DictionarySnoc(links[..idx], links[idx], abs);
    NonBlankStrip(links[idx].text);
  }

  /** The loop step for failures: the link at `idx` fails the call when it
      is kept and its href does not resolve, unless an earlier one did. */
  lemma FailureStep(links: seq<Anchor>, idx: nat, abs: string -> Result<string>)
    requires idx < |links|
    ensures Failure(links[..idx + 1], abs)
      == if Failure(links[..idx], abs).Some? then Failure(links[..idx], abs)
         else if Strip(links[idx].text) != "" && links[idx].href.GetOr("") != "" && abs(links[idx].href.GetOr("")).Err?
         then Some(abs(links[idx].href.GetOr("")).error)
         else None
  {
    assert links[..idx + 1][..idx] == links[..idx];
    NonBlankStrip(links[idx].text);
  }

  /** A failure among the first `n` links is the failure of all of them. */
  lemma {:induction false} FailurePrefix(xs: seq<Anchor>, n: nat, abs: string -> Result<string>)
    requires n <= |xs| && Failure(xs[..n], abs).Some?
    ensures Failure(xs, abs) == Failure(xs[..n], abs)
    decreases |xs| - n
  {
    if n < |xs| {
      FailureStep(xs, n, abs);
      FailurePrefix(xs, n + 1, abs);
    } else {
      assert xs[..n] == xs;
    }
  }

  /** A kept link whose href resolves. */
  predicate Resolves(a: Anchor, abs: string -> Result<string>) {
    Listed(a) ==> abs(a.href.GetOr("")).Ok?
  }

  /** The call goes through exactly when every kept link resolves. */
  lemma FailureNone(anchors: seq<Anchor>, abs: string -> Result<string>)
    ensures Failure(anchors, abs).None? <==> forall i :: 0 <= i < |anchors| ==> Resolves(anchors[i], abs)
  {
    if Failure(anchors, abs).Some? {
      var i := FailureFirst(anchors, abs);
    } else {
      AllResolve(anchors, abs);
    }
  }

  /** When the call goes through, every kept link resolved. */
  lemma AllResolve(anchors: seq<Anchor>, abs: string -> Result<string>)
    requires Failure(anchors, abs).None?
    ensures forall i :: 0 <= i < |anchors| ==> Resolves(anchors[i], abs)
  {
    forall i | 0 <= i < |anchors|
      ensures Resolves(anchors[i], abs)
    {
      if !Resolves(anchors[i], abs) {
        UnresolvedFails(anchors, abs, i);
      }
    }
  }

  /** A kept link that does not resolve makes the call fail. */
  lemma {:induction false} UnresolvedFails(anchors: seq<Anchor>, abs: string -> Result<string>, i: nat)
    requires i < |anchors| && !Resolves(anchors[i], abs)
    ensures Failure(anchors, abs).Some?
    decreases |anchors|
  {
    var n := |anchors| - 1;
    var init := anchors[..n];
    if i < n {
      assert init[i] == anchors[i];
      UnresolvedFails(init, abs, i);
    }
  }

  /** Link `i` is the first kept link that does not resolve. */
  predicate FirstUnresolved(anchors: seq<Anchor>, abs: string -> Result<string>, i: nat) {
    && i < |anchors|
    && !Resolves(anchors[i], abs)
    && forall j :: 0 <= j < i ==> Resolves(anchors[j], abs)
  }

  /** A failing call fails with the error of the first kept link that does
      not resolve. */
  lemma {:induction false} FailureFirst(anchors: seq<Anchor>, abs: string -> Result<string>) returns (i: nat)
    requires Failure(anchors, abs).Some?
    ensures FirstUnresolved(anchors, abs, i)
    ensures Failure(anchors, abs).value == abs(anchors[i].href.GetOr("")).error
    decreases |anchors|
  {
    var init, a := anchors[..|anchors| - 1], anchors[|anchors| - 1];
    assert forall k :: 0 <= k < |init| ==> init[k] == anchors[k];
    if Failure(init, abs).Some? {
      i := FailureFirst(init, abs);
      assert Failure(anchors, abs) == Failure(init, abs);
    } else {
      AllResolve(init, abs);
      assert Listed(a) && abs(a.href.GetOr("")).Err?;
      i := |init|;
    }
  }

  /** The call fails exactly when some kept link does not resolve, with the
      error of the first such link; otherwise it gives the dictionary. */
  lemma FetchedDictionarySpec(anchors: seq<Anchor>, abs: string -> Result<string>)
    ensures FetchedDictionary(anchors, abs).Ok? <==> forall i :: 0 <= i < |anchors| ==> Resolves(anchors[i], abs)
    ensures FetchedDictionary(anchors, abs).Ok? ==> FetchedDictionary(anchors, abs).value == Dictionary(anchors, abs)
    ensures FetchedDictionary(anchors, abs).Err? ==>
      exists i: nat :: FirstUnresolved(anchors, abs, i) && FetchedDictionary(anchors, abs).error == abs(anchors[i].href.GetOr("")).error
  {
    FailureNone(anchors, abs);
    if Failure(anchors, abs).Some? {
      var i := FailureFirst(anchors, abs);
    }
  }

  /** Keys of distinct positions are distinct. */
  lemma ArticleKeyInjective(a: nat, b: nat)
    requires ArticleKey(a) == ArticleKey(b)
    ensures a == b
  {
    assert ArticleKey(a)[7..] == NatToString(a + 1);
    assert ArticleKey(b)[7..] == NatToString(b + 1);
    NatToStringInjective(a + 1, b + 1);
  }

  /** The saved keys are distinct; a link has an entry exactly when it is
      kept, under "Article<its position + 1>", so skipped links leave gaps
      in the numbering; every name is stripped and not empty; when every
      kept link resolves, every entry's link is its href resolved. */
  lemma DictionarySpec(anchors: seq<Anchor>, abs: string -> Result<string>)
    ensures var d := Dictionary(anchors, abs);
      && (forall k, l :: 0 <= k < l < |d| ==> d[k].0 != d[l].0)
      && (forall i :: 0 <= i < |anchors| ==> (Listed(anchors[i]) <==> exists k :: 0 <= k < |d| && d[k].0 == ArticleKey(i)))
      && (forall k :: 0 <= k < |d| ==> d[k].1.name != "" && Strip(d[k].1.name) == d[k].1.name)
    ensures Failure(anchors, abs).None? ==>
      forall i, k :: 0 <= i < |anchors| && 0 <= k < |Dictionary(anchors, abs)| && Dictionary(anchors, abs)[k].0 == ArticleKey(i)
        ==> Ok(Dictionary(anchors, abs)[k].1.link) == abs(anchors[i].href.GetOr(""))
  {
    DictionaryKeysDistinct(anchors, abs);
    DictionaryListed(anchors, abs);
    DictionaryNames(anchors, abs);
    DictionaryLinks(anchors, abs);
  }

  lemma DictionaryKeysDistinct(anchors: seq<Anchor>, abs: string -> Result<string>)
    ensures var d := Dictionary(anchors, abs);
      forall k, l :: 0 <= k < l < |d| ==> d[k].0 != d[l].0
  {
    var d := Dictionary(anchors, abs);
    var idx := ListedIndices(anchors);
    ListedIndicesSpec(anchors);
    forall k, l | 0 <= k < l < |d|
      ensures d[k].0 != d[l].0
    {
      if d[k].0 == d[l].0 {
        ArticleKeyInjective(idx[k], idx[l]);
      }
    }
  }

  lemma DictionaryListed(anchors: seq<Anchor>, abs: string -> Result<string>)
    ensures var d := Dictionary(anchors, abs);
      forall i :: 0 <= i < |anchors| ==> (Listed(anchors[i]) <==> exists k :: 0 <= k < |d| && d[k].0 == ArticleKey(i))
  {
    var d := Dictionary(anchors, abs);
    var idx := ListedIndices(anchors);
    ListedIndicesSpec(anchors);
    forall i | 0 <= i < |anchors|
      ensures Listed(anchors[i]) <==> exists k :: 0 <= k < |d| && d[k].0 == ArticleKey(i)
    {
      if Listed(anchors[i]) {
        var k :| 0 <= k < |idx| && idx[k] == i;
        assert d[k].0 == ArticleKey(i);
      }
      if exists k :: 0 <= k < |d| && d[k].0 == ArticleKey(i) {
        var k :| 0 <= k < |d| && d[k].0 == ArticleKey(i);
        ArticleKeyInjective(idx[k], i);
      }
    }
  }

  lemma DictionaryNames(anchors: seq<Anchor>, abs: string -> Result<string>)
    ensures var d := Dictionary(anchors, abs);
      forall k :: 0 <= k < |d| ==> d[k].1.name != "" && Strip(d[k].1.name) == d[k].1.name
  {
    var d := Dictionary(anchors, abs);
    var idx := ListedIndices(anchors);
    ListedIndicesSpec(anchors);
    forall k | 0 <= k < |d|
      ensures d[k].1.name != "" && Strip(d[k].1.name) == d[k].1.name
    {
      NonBlankStrip(anchors[idx[k]].text);
      StripIdempotent(anchors[idx[k]].text);
    }
  }

  lemma DictionaryLinks(anchors: seq<Anchor>, abs: string -> Result<string>)
    ensures Failure(anchors, abs).None? ==>
      forall i, k :: 0 <= i < |anchors| && 0 <= k < |Dictionary(anchors, abs)| && Dictionary(anchors, abs)[k].0 == ArticleKey(i)
        ==> Ok(Dictionary(anchors, abs)[k].1.link) == abs(anchors[i].href.GetOr(""))
  {
    var d := Dictionary(anchors, abs);
    var idx := ListedIndices(anchors);
    ListedIndicesSpec(anchors);
    FailureNone(anchors, abs);
    forall i, k | 0 <= i < |anchors| && 0 <= k < |d| && d[k].0 == ArticleKey(i) && Failure(anchors, abs).None?
      ensures Ok(d[k].1.link) == abs(anchors[i].href.GetOr(""))
    {
      ArticleKeyInjective(idx[k], i);
    }
  }

  /** `fetch_as_dictionary` on the links the selector found, in page order:
      the `each_with_index` loop over the first `max_items` links. The hash
      assignment appends, as the keys are distinct; an href that cannot be
      resolved raises out of the loop. */
  method FetchAsDictionary(anchors: seq<Anchor>, base: string, maxItems: nat, uri: string -> Result<string>,
                           join: (string, string) -> Result<string>)
    returns (r: Result<seq<(string, Article)>>)
    ensures r == FetchedDictionary(Take(anchors, maxItems), Resolver(base, uri, join))
  {
    var links := Take(anchors, maxItems);
    var abs := Resolver(base, uri, join);
    var items := [];
    var idx := 0;
    while idx < |links|
      invariant 0 <= idx <= |links|
      invariant Failure(links[..idx], abs).None?
      invariant items == Dictionary(links[..idx], abs)
    {
      var a := links[idx];
      var name := Strip(a.text);
      var href := a.href.GetOr("");
      DictionaryStep(links, idx, abs);
      FailureStep(links, idx, abs);
      if name != "" && href != "" {
        var link := Absolutize(base, href, uri, join);
        assert link == abs(href);
        if link.Err? {
          FailurePrefix(links, idx + 1, abs);
          return Err(link.error);
        }
        items := items + [(ArticleKey(idx), Article(name, link.value))];
      }
      idx := idx + 1;
    }
    assert links[..idx] == links;
    return Ok(items);
  }

  // ---------------------------------------------------------------------------
  // summary_lines

  /** Where `/\d+/` starts looking from `j` finds its first digit: the
      first ASCII digit at or after `j`, or the end. */
  function FirstDigitFrom(k: string, j: nat): (r: nat)
    requires j <= |k|
    ensures j <= r <= |k| && (r < |k| ==> IsDigit(k[r]))
    ensures forall i :: j <= i < r ==> !IsDigit(k[i])
    decreases |k| - j
  {
    if j == |k| || IsDigit(k[j]) then j else FirstDigitFrom(k, j + 1)
  }

  /** `k[/\d+/].to_i`: the value of the first run of ASCII digits in the
      key; a key without digits gives `nil.to_i`, 0. */
  function KeyNumber(k: string): nat {
    var a := FirstDigitFrom(k, 0);
    var b := RunEnd(k, a, IsDigit);
    DigitsToNat(k[a..b])
  }

  /** The first digit is where the characteristic says it is. */
  lemma FirstDigitAt(k: string, n: nat)
    requires n <= |k| && (n < |k| ==> IsDigit(k[n]))
    requires forall i :: 0 <= i < n ==> !IsDigit(k[i])
    ensures FirstDigitFrom(k, 0) == n
  {
  }

  /** The number is read from the first maximal digit run. */
  lemma KeyNumberSpec(p: string, d: string, rest: string)
    requires forall i :: 0 <= i < |p| ==> !IsDigit(p[i])
    requires |d| >= 1 && AllDigits(d)
    requires rest == [] || !IsDigit(rest[0])
    ensures KeyNumber(p + d + rest) == DigitsToNat(d)
  {
    var k := p + d + rest;
    KeyFirstDigit(p, d, rest);
    KeyDigitRunEnd(p, d, rest);
    assert k[|p|..|p| + |d|] == d;
    KeyNumberOfRun(k, |p|, |p| + |d|);
  }

  lemma KeyFirstDigit(p: string, d: string, rest: string)
    requires forall i :: 0 <= i < |p| ==> !IsDigit(p[i])
    requires |d| >= 1 && IsDigit(d[0])
    ensures FirstDigitFrom(p + d + rest, 0) == |p|
  {
    var k := p + d + rest;
    assert k[|p|] == d[0];
    assert forall i :: 0 <= i < |p| ==> k[i] == p[i];
    FirstDigitAt(k, |p|);
  }

  lemma KeyDigitRunEnd(p: string, d: string, rest: string)
    requires AllDigits(d)
    requires rest == [] || !IsDigit(rest[0])
    ensures RunEnd(p + d + rest, |p|, IsDigit) == |p| + |d|
  {
    var k := p + d + rest;
    assert forall i :: |p| <= i < |p| + |d| ==> k[i] == d[i - |p|];
    assert |p| + |d| < |k| ==> k[|p| + |d|] == rest[0];
    RunEndAt(k, |p|, |p| + |d|, IsDigit);
  }

  lemma KeyNumberOfRun(k: string, a: nat, b: nat)
    requires a <= b <= |k|
    requires FirstDigitFrom(k, 0) == a && RunEnd(k, a, IsDigit) == b
    ensures AllDigits(k[a..b]) && KeyNumber(k) == DigitsToNat(k[a..b])
  {
  }

  /** A key without digits sorts as 0. */
  lemma KeyNumberNoDigit(k: string)
    requires forall i :: 0 <= i < |k| ==> !IsDigit(k[i])
    ensures KeyNumber(k) == 0
  {
    assert FirstDigitFrom(k, 0) == |k|;
  }

  /** The saved key "Article<n>" sorts by n. */
  lemma ArticleKeyNumber(idx: nat)
    ensures KeyNumber(ArticleKey(idx)) == idx + 1
  {
    var p := "Article";
    assert forall i :: 0 <= i < |p| ==> !IsDigit(p[i]);
    KeyNumberSpec(p, NatToString(idx + 1), []);
    assert ArticleKey(idx) == p + NatToString(idx + 1) + [];
    NatToStringRoundTrip(idx + 1);
  }

  /** The member names of a parsed object, in document order. */
  function Names(ms: seq<(string, Json)>): (r: seq<string>)
    ensures |r| == |ms| && forall i :: 0 <= i < |r| ==> r[i] == ms[i].0
  {
    seq(|ms|, i requires 0 <= i < |ms| => ms[i].0)
  }

  /** `saved.keys.sort_by { |k| k[/\d+/].to_i }.first(limit)`: `keys` lists
      each distinct name once, in the order of first occurrence. At most
      `limit` distinct keys are shown, ordered by number, each a saved name,
      and no saved name left out has a smaller number than one shown. */
  function SummaryKeys(ms: seq<(string, Json)>, limit: nat): (keys: seq<string>)
    ensures |keys| == Min(limit, |Uniq(Names(ms))|)
    ensures SortedBy(keys, KeyNumber)
    ensures NoDuplicates(keys)
    ensures forall k :: 0 <= k < |keys| ==> keys[k] in Names(ms)
    ensures KeepsSmallest(keys, Names(ms), KeyNumber)
  {
    ShownKeys(ms, limit);
    Take(SortBy(Uniq(Names(ms)), KeyNumber), limit)
  }

  /** The first `limit` of the distinct saved names sorted by number. */
  lemma ShownKeys(ms: seq<(string, Json)>, limit: nat)
    ensures var keys := Take(SortBy(Uniq(Names(ms)), KeyNumber), limit);
      && |keys| == Min(limit, |Uniq(Names(ms))|)
      && NoDuplicates(keys)
      && (forall k :: 0 <= k < |keys| ==> keys[k] in Names(ms))
      && KeepsSmallest(keys, Names(ms), KeyNumber)
  {
    var u := Uniq(Names(ms));
    var sorted := SortBy(u, KeyNumber);
    UniqFirstOccurrences(Names(ms));
    SortedPrefix(u, sorted, Min(limit, |sorted|), Names(ms), KeyNumber);
  }

  /** `"#{i}. #{name} — #{link}"` for `saved[k]`; indexing an entry that is
      not a Hash or a String raises. */
  function SummaryLine(i: nat, entry: Json): (r: Result<string>)
    ensures r.Err? <==> !(entry.JObj? || entry.JStr?)
  {
    match Get(entry, "name")
    case Err(e) => Err(e)
    case Ok(name) =>
      match Get(entry, "link")
      case Err(e) => Err(e)
      case Ok(link) => Ok(NatToString(i) + ". " + ToS(name) + " \U{2014} " + ToS(link))
  }

  /** The block given to `map.with_index`: the line of key `k` at `i`. */
  function LineFor(ms: seq<(string, Json)>): (nat, string) -> Result<string> {
    (i: nat, k: string) => SummaryLine(i, Lookup(ms, k))
  }

  /** `keys.map.with_index(from)` building each key's line. */
  function Lines(ms: seq<(string, Json)>, keys: seq<string>, from: nat): Result<seq<string>> {
    MapWithIndex(keys, from, LineFor(ms))
  }

  /** `summary_lines(limit:)` on the parsed saved file (`read_saved` gives
      an empty Hash when the file is missing or does not parse). A saved
      file that is not a Hash raises; otherwise the lines succeed exactly
      when every shown entry can be indexed, and line `k` is the line of the
      `k`-th key, numbered `k + 1`. */
  function SummaryLines(saved: Json, limit: nat): (r: Result<seq<string>>)
    ensures !saved.JObj? ==> r.Err?
    ensures saved.JObj? ==>
      var keys := SummaryKeys(saved.members, limit);
      && (r.Ok? <==> forall k :: 0 <= k < |keys| ==> SummaryLine(k + 1, Lookup(saved.members, keys[k])).Ok?)
      && (r.Ok? ==> |r.value| == |keys| && forall k :: 0 <= k < |keys| ==> r.value[k] == SummaryLine(k + 1, Lookup(saved.members, keys[k])).value)
  {
    if saved.JObj? then
      MapWithIndexSpec(SummaryKeys(saved.members, limit), 1, LineFor(saved.members));
      Lines(saved.members, SummaryKeys(saved.members, limit), 1)
    else Err("NoMethodError")
  }

  /** Sorting keeps the elements, and a prefix of a sorted sequence is
      sorted. */
  lemma SortedElements(u: seq<string>, key: string -> nat)
    ensures var sorted := SortBy(u, key);
      && |sorted| == |u|
      && (forall k :: 0 <= k < |sorted| ==> sorted[k] in u)
      && (forall n: nat :: n <= |sorted| ==> SortedBy(sorted[..n], key))
  {
    var sorted := SortBy(u, key);
    assert |sorted| == |multiset(sorted)| == |multiset(u)| == |u|;
    forall k | 0 <= k < |sorted|
      ensures sorted[k] in u
    {
      assert sorted[k] in multiset(sorted);
    }
  }

  /** A saved article as `JSON.pretty_generate` writes it and `JSON.parse`
      reads it back. */
  function ArticleJson(a: Article): Json {
    JObj([("name", JStr(a.name)), ("link", JStr(a.link))])
  }

  /** The saved dictionary as the parsed file holds it. */
  function DictionaryJson(d: seq<(string, Article)>): Json {
    JObj(seq(|d|, i requires 0 <= i < |d| => (d[i].0, ArticleJson(d[i].1))))
  }

  /** The saved dictionary's keys are distinct and ordered by number. */
  lemma DictionaryKeys(anchors: seq<Anchor>, abs: string -> Result<string>)
    ensures var names := Names(DictionaryJson(Dictionary(anchors, abs)).members);
      NoDuplicates(names) && StrictlySortedBy(names, KeyNumber)
  {
    var d := Dictionary(anchors, abs);
    var names := Names(DictionaryJson(d).members);
    var idx := ListedIndices(anchors);
    DictionarySpec(anchors, abs);
    ListedIndicesSpec(anchors);
    forall i | 0 <= i < |names|
      ensures KeyNumber(names[i]) == idx[i] + 1
    {
      ArticleKeyNumber(idx[i]);
    }
  }

  /** A saved article's line shows its name and link. */
  lemma ArticleLine(i: nat, a: Article)
    ensures SummaryLine(i, ArticleJson(a)) == Ok(NatToString(i) + ". " + a.name + " \U{2014} " + a.link)
  {
    var ms := ArticleJson(a).members;
    assert Lookup(ms, "link") == JStr(a.link);
    assert Lookup(ms, "name") == JStr(a.name) by {
      assert ms[1].0 != "name";
      assert ms[..1] == [("name", JStr(a.name))];
    }
  }

  /** The lines a summary of saved articles should show: the first `m`
      articles in order, numbered from 1. */
  function ArticleLines(d: seq<(string, Article)>, m: nat): (r: seq<string>)
    requires m <= |d|
    ensures |r| == m
  {
    seq(m, k requires 0 <= k < m => NatToString(k + 1) + ". " + d[k].1.name + " \U{2014} " + d[k].1.link)
  }

  /** Keys whose numbers strictly increase are kept as they are: there are
      no ties for the sort to order. */
  lemma SortedKeysKept(ms: seq<(string, Json)>, limit: nat)
    requires NoDuplicates(Names(ms)) && StrictlySortedBy(Names(ms), KeyNumber)
    ensures SummaryKeys(ms, limit) == Names(ms)[..Min(limit, |ms|)]
  {
    UniqOfDistinct(Names(ms));
    SortByOfSorted(Names(ms), KeyNumber);
  }

  lemma ArticleLineAt(d: seq<(string, Article)>, k: nat)
    requires NoDuplicates(Names(DictionaryJson(d).members))
    requires k < |d|
    ensures LineFor(DictionaryJson(d).members)(1 + k, Names(DictionaryJson(d).members)[k])
      == Ok(NatToString(k + 1) + ". " + d[k].1.name + " \U{2014} " + d[k].1.link)
  {
    var ms := DictionaryJson(d).members;
    assert Names(ms)[k] == ms[k].0;
    LookupDistinct(ms, k);
    ArticleLine(1 + k, d[k].1);
  }

  /** With distinct keys, each of the first `m` keys' lines is the wanted
      one. */
  lemma EachArticleLine(d: seq<(string, Article)>, m: nat, keys: seq<string>, want: seq<string>)
    requires NoDuplicates(Names(DictionaryJson(d).members))
    requires m <= |d| && keys == Names(DictionaryJson(d).members)[..m] && want == ArticleLines(d, m)
    ensures forall k :: 0 <= k < m ==> LineFor(DictionaryJson(d).members)(1 + k, keys[k]) == Ok(want[k])
  {
    forall k | 0 <= k < m
      ensures LineFor(DictionaryJson(d).members)(1 + k, keys[k]) == Ok(want[k])
    {
      assert keys[k] == Names(DictionaryJson(d).members)[k];
      ArticleLineAt(d, k);
    }
  }

  /** With distinct keys, each saved article's line shows its own name and
      link. */
  lemma LinesOfArticles(d: seq<(string, Article)>, m: nat)
    requires NoDuplicates(Names(DictionaryJson(d).members))
    requires m <= |d|
    ensures Lines(DictionaryJson(d).members, Names(DictionaryJson(d).members)[..m], 1) == Ok(ArticleLines(d, m))
  {
    var keys := Names(DictionaryJson(d).members)[..m];
    EachArticleLine(d, m, keys, ArticleLines(d, m));
    MapWithIndexOfAll(keys, 1, LineFor(DictionaryJson(d).members), ArticleLines(d, m));
  }

  /** Summarising saved articles whose keys are distinct and ordered by
      number lists the first `limit` of them in order, renumbered from 1. */
  lemma SummaryOfSorted(d: seq<(string, Article)>, limit: nat)
    requires NoDuplicates(Names(DictionaryJson(d).members))
    requires StrictlySortedBy(Names(DictionaryJson(d).members), KeyNumber)
    ensures SummaryLines(DictionaryJson(d), limit) == Ok(ArticleLines(d, Min(limit, |d|)))
  {
    SortedKeysKept(DictionaryJson(d).members, limit);
    LinesOfArticles(d, Min(limit, |d|));
  }

  /** Summarising a saved dictionary lists its first `limit` articles in
      link order, renumbered from 1 whatever gaps the keys have. */
  lemma SummaryOfDictionary(anchors: seq<Anchor>, abs: string -> Result<string>, limit: nat)
    ensures var d := Dictionary(anchors, abs);
      SummaryLines(DictionaryJson(d), limit) == Ok(ArticleLines(d, Min(limit, |d|)))
  {
    DictionaryKeys(anchors, abs);
    SummaryOfSorted(Dictionary(anchors, abs), limit);
  }
}
