/** The recommendation request of services/music.rb: the seed ids taken
    from track links, the query parameter list, the seed selection of
    `fetch_recommendations`, the answer check and the track extraction.

    The HTTP request, the JSON files and `puts` are not modelled: the
    response arrives as its status code and parsed body, and the music
    file's path is a parameter. */
module Music {
  import opened Wrappers
  import opened Text
  import opened Json
  import opened Seqs
  import opened Config
  import opened FormEncoding

  // ---------------------------------------------------------------------------
  // Seed ids

  /** `[A-Za-z0-9]`. */
  predicate IsAlnum(c: char) {
    ('A' <= c <= 'Z') || ('a' <= c <= 'z') || ('0' <= c <= '9')
  }

  /** `track/([A-Za-z0-9]+)` matches at `j`. */
  predicate TrackMatchAt(s: string, j: nat) {
    OccursAt(s, "track/", j) && j + 6 < |s| && IsAlnum(s[j + 6])
  }

  /** The leftmost match of `track/([A-Za-z0-9]+)` at or after `from`. */
  function FindTrack(s: string, from: nat): (r: Option<nat>)
    ensures r.Some? ==> from <= r.value && TrackMatchAt(s, r.value)
    ensures r.Some? ==> forall j :: from <= j < r.value ==> !TrackMatchAt(s, j)
    ensures r.None? ==> forall j :: from <= j ==> !TrackMatchAt(s, j)
    decreases |s| - from
  {
    if from >= |s| then None
    else if TrackMatchAt(s, from) then Some(from)
    else FindTrack(s, from + 1)
  }

  /** The `extract` lambda: `s[%r{track/([A-Za-z0-9]+)}, 1] || s.to_s.strip`,
      the id after the first "track/" that a letter or digit follows,
      else the whole seed stripped. A seed holding such a link gives a
      non-empty id of letters and digits. */
  function SeedId(s: string): (r: string)
    ensures FindTrack(s, 0).Some? ==> r != [] && forall i :: 0 <= i < |r| ==> IsAlnum(r[i])
    ensures |r| <= |s|
  {
    match FindTrack(s, 0)
    case Some(k) =>
      var e := RunEnd(s, k + 6, IsAlnum);
      assert forall i :: k + 6 <= i < e ==> IsAlnum(s[i]);
      s[k + 6..e]
    case None => Strip(s)
  }

  /** A track link whose first "track/" is followed by `id` gives `id`. */
  lemma SeedIdOfTrackLink(p: string, id: string, rest: string)
    requires |id| >= 1 && forall i :: 0 <= i < |id| ==> IsAlnum(id[i])
    requires rest == [] || !IsAlnum(rest[0])
    requires forall j :: 0 <= j < |p| ==> !TrackMatchAt(p + "track/" + id + rest, j)
    ensures SeedId(p + "track/" + id + rest) == id
  {
    var s := p + "track/" + id + rest;
    var a := |p| + 6;
    assert s[|p|..a] == "track/";
    assert s[a] == id[0];
    FindTrackAt(s, |p|);
    assert RunEnd(s, a, IsAlnum) == a + |id| by {
      assert forall i :: a <= i < a + |id| ==> s[i] == id[i - a];
      assert a + |id| < |s| ==> s[a + |id|] == rest[0];
      RunEndAt(s, a, a + |id|, IsAlnum);
    }
    assert s[a..a + |id|] == id;
  }

  /** A match with none before it is the one `FindTrack` returns. */
  lemma FindTrackAt(s: string, k: nat)
    requires TrackMatchAt(s, k)
    requires forall j :: 0 <= j < k ==> !TrackMatchAt(s, j)
    ensures FindTrack(s, 0) == Some(k)
  {
  }

  /** A match inside a piece of `s` is a match in `s`. */
  lemma TrackMatchInPiece(s: string, off: nat, t: string, i: nat)
    requires off + |t| <= |s| && t == s[off..off + |t|]
    requires TrackMatchAt(t, i)
    ensures TrackMatchAt(s, off + i)
  {
    assert forall m :: i <= m <= i + 6 ==> t[m] == s[off + m];
    assert t[i..i + 6] == s[off + i..off + i + 6];
  }

  /** A string of letters and digits contains no "track/". */
  lemma NoTrackInAlnum(t: string)
    requires forall i :: 0 <= i < |t| ==> IsAlnum(t[i])
    ensures FindTrack(t, 0).None?
  {
    if FindTrack(t, 0).Some? {
      TrackMatchSlash(t, FindTrack(t, 0).value);
    }
  }

  lemma TrackMatchSlash(s: string, j: nat)
    requires TrackMatchAt(s, j)
    ensures s[j + 5] == '/'
  {
    assert s[j..j + 6][5] == s[j + 5];
  }

  /** Extracting an id from an id changes nothing, so seeds may be given as
      links or as bare ids. */
  lemma SeedIdIdempotent(s: string)
    ensures SeedId(SeedId(s)) == SeedId(s)
  {
    if FindTrack(s, 0).Some? {
      SeedIdOfMatch(s);
    } else {
      SeedIdOfStripped(s);
    }
  }

  lemma SeedIdOfMatch(s: string)
    requires FindTrack(s, 0).Some?
    ensures SeedId(SeedId(s)) == SeedId(s)
  {
    var id := SeedId(s);
    NoTrackInAlnum(id);
    StripUnchanged(id);
  }

  lemma SeedIdOfStripped(s: string)
    requires FindTrack(s, 0).None?
    ensures SeedId(SeedId(s)) == SeedId(s)
  {
    var t := Strip(s);
    var l := StripLeft(s);
    var off := |s| - |l|;
    assert t == StripRight(l);
    assert t == s[off..off + |t|];
    if FindTrack(t, 0).Some? {
      TrackMatchInPiece(s, off, t, FindTrack(t, 0).value);
      assert false;
    }
    StripIdempotent(s);
  }

  /** `seeds.map(&extract)`. */
  function SeedIds(seeds: seq<string>): (r: seq<string>)
    ensures |r| == |seeds| && forall i :: 0 <= i < |r| ==> r[i] == SeedId(seeds[i])
  {
    seq(|seeds|, i requires 0 <= i < |seeds| => SeedId(seeds[i]))
  }

  // ---------------------------------------------------------------------------
  // Hash#merge on feature tables

  /** No two entries of `h` share a key, as in any Hash. */
  predicate DistinctKeys(h: seq<(string, string)>) {
    forall i, j :: 0 <= i < j < |h| ==> h[i].0 != h[j].0
  }

  /** `h[k]`: the value stored under `k`, if any. */
  function Find(h: seq<(string, string)>, k: string): (r: Option<string>)
    ensures r.Some? ==> exists i :: 0 <= i < |h| && h[i] == (k, r.value)
    ensures r.None? <==> forall i :: 0 <= i < |h| ==> h[i].0 != k
  {
    if h == [] then None
    else if h[0].0 == k then Some(h[0].1)
    else
      var r := Find(h[1..], k);
      assert forall i :: 1 <= i < |h| ==> h[i] == h[1..][i - 1];
      r
  }

  /** With no earlier entry under the same key, an entry is what `h[k]`
      finds. */
  lemma {:induction false} FindAt(h: seq<(string, string)>, i: nat)
    requires i < |h|
    requires forall j :: 0 <= j < i ==> h[j].0 != h[i].0
    ensures Find(h, h[i].0) == Some(h[i].1)
  {
    if i > 0 {
      FindAt(h[1..], i - 1);
    }
  }

  /** The entries of `other` whose key `base` lacks, in order. */
  function NewEntries(other: seq<(string, string)>, base: seq<(string, string)>): (r: seq<(string, string)>)
    ensures forall i :: 0 <= i < |r| ==> r[i] in other && Find(base, r[i].0).None?
  {
    if other == [] then []
    else if Find(base, other[0].0).None? then [other[0]] + NewEntries(other[1..], base)
    else NewEntries(other[1..], base)
  }

  /** `base.merge(other)`: every key of `base` in place, with the value of
      `other` when it has the key, then `other`'s new keys in order. The
      defaults' keys come first, in their order. */
  function Merge(base: seq<(string, string)>, other: seq<(string, string)>): (m: seq<(string, string)>)
    ensures |base| <= |m| && forall i :: 0 <= i < |base| ==> m[i].0 == base[i].0
  {
    seq(|base|, i requires 0 <= i < |base| => (base[i].0, Find(other, base[i].0).GetOr(base[i].1)))
      + NewEntries(other, base)
  }

  lemma {:induction false} NewEntriesFind(other: seq<(string, string)>, base: seq<(string, string)>, k: string)
    requires Find(base, k).None?
    ensures Find(NewEntries(other, base), k) == Find(other, k)
  {
    if other != [] {
      NewEntriesFind(other[1..], base, k);
    }
  }

  lemma {:induction false} NewEntriesDistinct(other: seq<(string, string)>, base: seq<(string, string)>)
    requires DistinctKeys(other)
    ensures DistinctKeys(NewEntries(other, base))
  {
    if other != [] {
      var tl := other[1..];
      assert DistinctKeys(tl) by {
        assert forall i :: 0 <= i < |tl| ==> tl[i] == other[i + 1];
      }
      NewEntriesDistinct(tl, base);
      if Find(base, other[0].0).None? {
        var rest := NewEntries(tl, base);
        forall i | 0 <= i < |rest|
          ensures rest[i].0 != other[0].0
        {
          var j :| 0 <= j < |tl| && tl[j] == rest[i];
          assert other[j + 1] == rest[i];
        }
        var r := [other[0]] + rest;
        forall i, j | 0 <= i < j < |r|
          ensures r[i].0 != r[j].0
        {
          assert r[j] == rest[j - 1];
          if i > 0 {
            assert r[i] == rest[i - 1];
          }
        }
      }
    }
  }

  /** `merge` keeps the defaults' keys first and in order, keeps keys
      distinct, and reads the caller's value wherever the caller gave one
      and the default otherwise. */
  lemma MergeSpec(base: seq<(string, string)>, other: seq<(string, string)>)
    requires DistinctKeys(base) && DistinctKeys(other)
    ensures var m := Merge(base, other);
      && |base| <= |m| && (forall i :: 0 <= i < |base| ==> m[i].0 == base[i].0)
      && DistinctKeys(m)
      && forall k :: Find(m, k) == if Find(other, k).Some? then Find(other, k) else Find(base, k)
  {
    MergeDistinct(base, other);
    forall k
      ensures Find(Merge(base, other), k) == if Find(other, k).Some? then Find(other, k) else Find(base, k)
    {
      MergeFind(base, other, k);
    }
  }

  lemma MergeDistinct(base: seq<(string, string)>, other: seq<(string, string)>)
    requires DistinctKeys(base) && DistinctKeys(other)
    ensures DistinctKeys(Merge(base, other))
  {
    var m := Merge(base, other);
    var tail := NewEntries(other, base);
    NewEntriesDistinct(other, base);
    forall i, j | 0 <= i < j < |m|
      ensures m[i].0 != m[j].0
    {
      if j >= |base| {
        assert m[j] == tail[j - |base|];
        if i >= |base| {
          assert m[i] == tail[i - |base|];
        } else {
          assert m[i].0 == base[i].0;
          assert Find(base, m[j].0).None?;
        }
      }
    }
  }

  lemma MergeFind(base: seq<(string, string)>, other: seq<(string, string)>, k: string)
    requires DistinctKeys(base)
    ensures Find(Merge(base, other), k) == if Find(other, k).Some? then Find(other, k) else Find(base, k)
  {
    var m := Merge(base, other);
    var head := m[..|base|];
    var tail := NewEntries(other, base);
    assert m == head + tail;
    if Find(base, k).Some? {
      var i :| 0 <= i < |base| && base[i] == (k, Find(base, k).value);
      assert m[i].0 == k;
      FindAt(m, i);
      FindAt(base, i);
    } else {
      FindAppend(head, tail, k);
      NewEntriesFind(other, base, k);
    }
  }

  lemma {:induction false} FindAppend(a: seq<(string, string)>, b: seq<(string, string)>, k: string)
    requires forall i :: 0 <= i < |a| ==> a[i].0 != k
    ensures Find(a + b, k) == Find(b, k)
  {
    if a != [] {
      assert (a + b)[0] == a[0];
      assert (a + b)[1..] == a[1..] + b;
      assert forall i :: 0 <= i < |a[1..]| ==> a[1..][i] == a[i + 1];
      FindAppend(a[1..], b, k);
    } else {
      assert a + b == b;
    }
  }

  /** The default feature names are distinct (their first letters already
      differ). */
  lemma DefaultFeatureKeysDistinct()
    ensures DistinctKeys(MusicDefaultFeatures)
  {
    var fs := MusicDefaultFeatures;
    assert fs[0].0[0] == 'a' && fs[1].0[0] == 'd' && fs[2].0[0] == 'e' && fs[3].0[0] == 'i' && fs[4].0[0] == 'l';
    assert fs[5].0[0] == 's' && fs[6].0[0] == 'v' && fs[7].0[0] == 'm' && fs[8].0[0] == 'p' && fs[9].0[0] == 'f';
  }

  // ---------------------------------------------------------------------------
  // get_recommendations

  /** `[key, id]` for every id, in order. */
  function Pairs(key: string, ids: seq<string>): (r: seq<(string, string)>)
    ensures |r| == |ids| && forall i :: 0 <= i < |r| ==> r[i] == (key, ids[i])
  {
    seq(|ids|, i requires 0 <= i < |ids| => (key, ids[i]))
  }

  /** The parameter list `get_recommendations` sends for the extracted
      seed ids, the extracted negative ids and the merged features, values
      as `to_s` renders them. */
  function Params(seedIds: seq<string>, size: int, negIds: seq<string>, merged: seq<(string, string)>): seq<(string, string)> {
    [("size", IntToString(size))] + Pairs("seeds", seedIds) + Pairs("negativeSeeds", negIds) + merged
  }

  /** `ids.each { |id| params << [key, id] }`. */
  method AppendPairs(params: seq<(string, string)>, key: string, ids: seq<string>) returns (r: seq<(string, string)>)
    ensures r == params + Pairs(key, ids)
  {
    r := params;
    for i := 0 to |ids|
      invariant r == params + Pairs(key, ids[..i])
    {
      assert Pairs(key, ids[..i + 1]) == Pairs(key, ids[..i]) + [(key, ids[i])];
      r := r + [(key, ids[i])];
    }
    assert ids[..|ids|] == ids;
  }

  /** `merged.each do |k, v| params << [k, v] end`. */
  method AppendEntries(params: seq<(string, string)>, entries: seq<(string, string)>) returns (r: seq<(string, string)>)
    ensures r == params + entries
  {
    r := params;
    for i := 0 to |entries|
      invariant r == params + entries[..i]
    {
      assert entries[..i + 1] == entries[..i] + [entries[i]];
      r := r + [entries[i]];
    }
    assert entries[..|entries|] == entries;
  }

  /** `get_recommendations` up to the request: the seeds and negative
      seeds mapped through `extract`, and `params` built with `<<`. */
  method BuildParams(seeds: seq<string>, size: int, negativeSeeds: seq<string>, features: seq<(string, string)>)
    returns (params: seq<(string, string)>)
    ensures params == Params(SeedIds(seeds), size, SeedIds(negativeSeeds), Merge(MusicDefaultFeatures, features))
  {
    var seedIds := SeedIds(seeds);
    var negIds := SeedIds(negativeSeeds);
    params := [("size", IntToString(size))];
    params := AppendPairs(params, "seeds", seedIds);
    params := AppendPairs(params, "negativeSeeds", negIds);
    var merged := Merge(MusicDefaultFeatures, features);
    params := AppendEntries(params, merged);
  }

  /** The list opens with the size, then one "seeds" pair per seed id in
      order, then one "negativeSeeds" pair per negative id in order; the
      merged features come last. */
  lemma ParamsSpec(seedIds: seq<string>, size: int, negIds: seq<string>, merged: seq<(string, string)>)
    ensures var ps := Params(seedIds, size, negIds, merged);
      var n := 1 + |seedIds| + |negIds|;
      && n <= |ps| && ps[0] == ("size", IntToString(size))
      && (forall i :: 0 <= i < |seedIds| ==> ps[1 + i] == ("seeds", seedIds[i]))
      && (forall i :: 0 <= i < |negIds| ==> ps[1 + |seedIds| + i] == ("negativeSeeds", negIds[i]))
      && ps[n..] == merged
  {
    var ps := Params(seedIds, size, negIds, merged);
    var h := [("size", IntToString(size))] + Pairs("seeds", seedIds);
    var hb := h + Pairs("negativeSeeds", negIds);
    assert ps == hb + merged;
    assert forall i :: 0 <= i < |hb| ==> ps[i] == hb[i];
    assert forall i :: 0 <= i < |h| ==> hb[i] == h[i];
  }

  /** The features sent are the defaults' names, in order, followed by the
      caller's new names; each carries the caller's value when the caller
      gave one and the default value otherwise. */
  lemma FeaturesSpec(features: seq<(string, string)>)
    requires DistinctKeys(features)
    ensures var m := Merge(MusicDefaultFeatures, features);
      && |MusicDefaultFeatures| <= |m| && (forall i :: 0 <= i < |MusicDefaultFeatures| ==> m[i].0 == MusicDefaultFeatures[i].0)
      && DistinctKeys(m)
      && forall k :: Find(m, k) == if Find(features, k).Some? then Find(features, k) else Find(MusicDefaultFeatures, k)
  {
    DefaultFeatureKeysDistinct();
    MergeSpec(MusicDefaultFeatures, features);
  }

  /** The request URL: `API_BASE` with the form-encoded parameters as its
      query. */
  function RequestUrl(params: seq<(string, string)>): string {
    ApiSideLinkMusic + "?" + EncodeForm(params)
  }

  /** The query splits on "&" back into one encoded pair per parameter. */
  lemma RequestUrlSplits(ps: seq<(string, string)>)
    requires ps != []
    ensures var url := RequestUrl(ps);
      && |ApiSideLinkMusic| + 1 <= |url|
      && url[..|ApiSideLinkMusic| + 1] == ApiSideLinkMusic + "?"
      && Split(url[|ApiSideLinkMusic| + 1..], '&') == EncodePairs(ps)
  {
    var url := RequestUrl(ps);
    assert url[|ApiSideLinkMusic| + 1..] == EncodeForm(ps);
    EncodeFormSplits(ps);
  }

  /** The answer check: any code but "200" raises, otherwise the parsed
      body is the result. */
  function Answer(code: string, body: Json): (r: Result<Json>)
    ensures r.Ok? <==> code == "200"
    ensures r.Ok? ==> r.value == body
  {
    if code == "200" then Ok(body) else Err("RuntimeError")
  }

  // ---------------------------------------------------------------------------
  // extract_tracks

  /** `[t["trackTitle"], t["href"]]`. */
  function TrackOf(t: Json): (r: Result<(Json, Json)>)
    ensures r.Err? <==> !(t.JObj? || t.JStr?)
    ensures t.JObj? ==> r == Ok((Lookup(t.members, "trackTitle"), Lookup(t.members, "href")))
  {
    match Get(t, "trackTitle")
    case Err(e) => Err(e)
    case Ok(title) =>
      match Get(t, "href")
      case Err(e) => Err(e)
      case Ok(link) => Ok((title, link))
  }

  /** `map` of `TrackOf` over the entries: the pairs, or the first
      exception. */
  function TracksOf(entries: seq<Json>): (r: Result<seq<(Json, Json)>>)
    ensures r.Ok? <==> forall i :: 0 <= i < |entries| ==> TrackOf(entries[i]).Ok?
    ensures r.Ok? ==> |r.value| == |entries| && forall i :: 0 <= i < |entries| ==> r.value[i] == TrackOf(entries[i]).value
    decreases |entries|
  {
    if entries == [] then Ok([])
    else
      match TrackOf(entries[0])
      case Err(e) => Err(e)
      case Ok(track) =>
        assert forall i :: 1 <= i < |entries| ==> entries[i] == entries[1..][i - 1];
        match TracksOf(entries[1..])
        case Err(e) =>
          var i :| 0 <= i < |entries[1..]| && TrackOf(entries[1..][i]).Err?;
          assert TrackOf(entries[i + 1]).Err?;
          Err(e)
        case Ok(rest) => Ok([track] + rest)
  }

  /** `extract_tracks`: `(json_data["content"] || []).map { ... }`. */
  function ExtractTracks(data: Json): (r: Result<seq<(Json, Json)>>)
    ensures data.JObj? && Lookup(data.members, "content") == JNull ==> r == Ok([])
    ensures data.JObj? && Lookup(data.members, "content").JArr? ==> r == TracksOf(Lookup(data.members, "content").items)
  {
    match Get(data, "content")
    case Err(e) => Err(e)
    case Ok(list) =>
      match Elements(OrElse(list, JArr([])))
      case Err(e) => Err(e)
      case Ok(entries) => TracksOf(entries)
  }

  /** The saved document `{"content" => [...]}` with one entry per track. */
  function ContentDocument(titles: seq<string>, links: seq<string>): Json
    requires |titles| == |links|
  {
    JObj([("content", JArr(seq(|titles|, i requires 0 <= i < |titles| =>
      JObj([("trackTitle", JStr(titles[i])), ("href", JStr(links[i]))]))))])
  }

  /** Extracting the tracks of a content document gives back each entry's
      title and link, in order. */
  lemma ExtractTracksOfContent(titles: seq<string>, links: seq<string>)
    requires |titles| == |links|
    ensures ExtractTracks(ContentDocument(titles, links))
      == Ok(seq(|titles|, i requires 0 <= i < |titles| => (JStr(titles[i]), JStr(links[i]))))
  {
    var doc := ContentDocument(titles, links);
    var items := Lookup(doc.members, "content").items;
    var want := seq(|titles|, i requires 0 <= i < |titles| => (JStr(titles[i]), JStr(links[i])));
    forall i | 0 <= i < |items|
      ensures TrackOf(items[i]) == Ok(want[i])
    {
      var ms := items[i].members;
      assert Lookup(ms, "href") == JStr(links[i]);
      assert Lookup(ms, "trackTitle") == JStr(titles[i]) by {
        assert ms[1].0 != "trackTitle";
        assert ms[..1] == [("trackTitle", JStr(titles[i]))];
      }
    }
    assert TracksOf(items).value == want;
  }

  // ---------------------------------------------------------------------------
  // fetch_recommendations

  /** `(track_ids || MUSIC_SEEDS).uniq.first(10)`: at most ten distinct
      ids, each one given (or of `MUSIC_SEEDS`), in the order of their first
      occurrence. */
  function Seeds(trackIds: Option<seq<string>>): (r: seq<string>)
    ensures |r| <= 10 && NoDuplicates(r)
    ensures forall i :: 0 <= i < |r| ==> r[i] in trackIds.GetOr(MusicSeeds)
    ensures |r| <= |Uniq(trackIds.GetOr(MusicSeeds))| && r == Uniq(trackIds.GetOr(MusicSeeds))[..|r|]
  {
    var u := Uniq(trackIds.GetOr(MusicSeeds));
    UniqFirstOccurrences(trackIds.GetOr(MusicSeeds));
    assert forall i :: 0 <= i < |u| ==> u[i] in trackIds.GetOr(MusicSeeds);
    Take(u, 10)
  }

  /** The seeds sent are the first five distinct ids given (or of
      `MUSIC_SEEDS`); capping at ten first changes nothing. */
  lemma SentSeedsSpec(trackIds: Option<seq<string>>)
    ensures var sent := Take(Seeds(trackIds), 5);
      && sent == Take(Uniq(trackIds.GetOr(MusicSeeds)), 5)
      && |sent| <= 5 && NoDuplicates(sent)
      && forall i :: 0 <= i < |sent| ==> sent[i] in trackIds.GetOr(MusicSeeds)
  {
    var u := Uniq(trackIds.GetOr(MusicSeeds));
    var sent := Take(Seeds(trackIds), 5);
    UniqFirstOccurrences(trackIds.GetOr(MusicSeeds));
    assert sent == Take(u, 5);
    forall i | 0 <= i < |sent|
      ensures sent[i] in trackIds.GetOr(MusicSeeds)
    {
      assert sent[i] == u[i];
    }
  }

  /** The parameters `fetch_recommendations` sends: the first five of its
      seeds, through `get_recommendations`. */
  function FetchParams(trackIds: Option<seq<string>>, size: int, negativeSeeds: seq<string>, features: seq<(string, string)>)
    : seq<(string, string)>
  {
    Params(SeedIds(Take(Seeds(trackIds), 5)), size, SeedIds(negativeSeeds), Merge(MusicDefaultFeatures, features))
  }

  /** `"#{title} - #{link}"` for every track. */
  function TrackLines(tracks: seq<(Json, Json)>): (r: seq<string>)
    ensures |r| == |tracks|
  {
    seq(|tracks|, i requires 0 <= i < |tracks| => ToS(tracks[i].0) + " - " + ToS(tracks[i].1))
  }

  /** The message `fetch_recommendations` returns for a response, after the
      request was sent with `RequestUrl`: the track count and the first
      five track lines. Any status but "200" raises; a message reports the
      number of tracks the body holds. */
  function FetchMessage(code: string, body: Json, musicFile: string): (r: Result<string>)
    ensures code != "200" ==> r.Err?
    ensures r.Ok? ==>
      && code == "200" && ExtractTracks(body).Ok?
      && PrefixOf("Saved " + NatToString(|ExtractTracks(body).value|) + " tracks to " + musicFile + "\n", r.value)
  {
    match Answer(code, body)
    case Err(e) => Err(e)
    case Ok(data) =>
      match ExtractTracks(data)
      case Err(e) => Err(e)
      case Ok(tracks) =>
        var lines := TrackLines(tracks);
        Ok("Saved " + NatToString(|lines|) + " tracks to " + musicFile + "\n" + Join(Take(lines, 5), "\n"))
  }

  /** A failed request raises; a content document reports its track count
      and lists its first five tracks as "title - link". */
  lemma FetchMessageSpec(code: string, titles: seq<string>, links: seq<string>, musicFile: string)
    requires |titles| == |links|
    ensures code != "200" ==> FetchMessage(code, ContentDocument(titles, links), musicFile).Err?
    ensures code == "200" ==>
      (FetchMessage(code, ContentDocument(titles, links), musicFile)
       == Ok("Saved " + NatToString(|titles|) + " tracks to " + musicFile + "\n"
             + Join(Take(seq(|titles|, i requires 0 <= i < |titles| => titles[i] + " - " + links[i]), 5), "\n")))
  {
    ExtractTracksOfContent(titles, links);
    TrackLinesOfStrings(titles, links);
  }

  lemma TrackLinesOfStrings(titles: seq<string>, links: seq<string>)
    requires |titles| == |links|
    ensures TrackLines(seq(|titles|, i requires 0 <= i < |titles| => (JStr(titles[i]), JStr(links[i]))))
      == seq(|titles|, i requires 0 <= i < |titles| => titles[i] + " - " + links[i])
  {
  }
}
