/** The link collection, the link chunker and the line formatters of
    lib/bot/music_helpers.rb.

    Reading and parsing the two JSON files is not modelled: each file arrives
    as the parsed document, or as `Err` when `File.read` or `JSON.parse`
    raised. */
module MusicHelpers {
  import opened Wrappers
  import opened Text
  import opened Json
  import opened Seqs
  import opened Messaging

  /** The two files: `MUSIC_FILE` lists tracks under "content", each with an
      "href"; `SPOTIFY_FILE` lists items under "items", each with
      `external_urls.spotify`. */
  datatype Source = Music | Spotify

  function ListKey(src: Source): string {
    match src
    case Music => "content"
    case Spotify => "items"
  }

  /** The link of one entry: `t["href"]` or `it.dig("external_urls", "spotify")`. */
  function LinkOf(src: Source, entry: Json): Result<Json> {
    match src
    case Music => Get(entry, "href")
    case Spotify => Dig2(entry, "external_urls", "spotify")
  }

  /** `(data[key] || [])`, as the elements `map` visits. */
  function EntriesOf(src: Source, data: Json): (r: Result<seq<Json>>)
    ensures data.JObj? && Lookup(data.members, ListKey(src)).JArr? ==> r == Ok(Lookup(data.members, ListKey(src)).items)
    ensures data.JObj? && Lookup(data.members, ListKey(src)) == JNull ==> r == Ok([])
  {
    match Get(data, ListKey(src))
    case Err(e) => Err(e)
    case Ok(list) => Elements(OrElse(list, JArr([])))
  }

  /** `map { ... }` over the entries: the links, or the first exception. */
  function LinksOf(src: Source, entries: seq<Json>): (r: Result<seq<Json>>)
    ensures r.Ok? ==> |r.value| == |entries| && forall i :: 0 <= i < |entries| ==> LinkOf(src, entries[i]) == Ok(r.value[i])
    ensures r.Err? ==> exists i :: 0 <= i < |entries| && LinkOf(src, entries[i]).Err?
    decreases |entries|
  {
    if entries == [] then Ok([])
    else
      match LinkOf(src, entries[0])
      case Err(e) => Err(e)
      case Ok(link) =>
        match LinksOf(src, entries[1..])
        case Err(e) =>
          var i :| 0 <= i < |entries[1..]| && LinkOf(src, entries[1..][i]).Err?;
          assert LinkOf(src, entries[i + 1]).Err?;
          Err(e)
        case Ok(rest) =>
          assert forall i :: 1 <= i < |entries| ==> entries[i] == entries[1..][i - 1];
          Ok([link] + rest)
  }

  /** `compact`: the values other than nil, in order. */
  function Compact(xs: seq<Json>): (r: seq<Json>)
    ensures JNull !in r
    ensures forall x :: x in r <==> x in xs && x != JNull
    ensures |r| <= |xs|
  {
    if xs == [] then []
    else if xs[0] == JNull then Compact(xs[1..])
    else [xs[0]] + Compact(xs[1..])
  }

  /** What one `links += ...` adds: nothing when reading, parsing or mapping
      raised (the `rescue` swallows it), the non-nil links otherwise. */
  function FileLinks(src: Source, file: Result<Json>): (r: seq<Json>)
    ensures JNull !in r
  {
    if file.Err? then []
    else
      match EntriesOf(src, file.value)
      case Err(_) => []
      case Ok(entries) =>
        match LinksOf(src, entries)
        case Err(_) => []
        case Ok(links) => Compact(links)
  }

  /** `collect_music_links`: the links of the music file, then those of the
      Spotify file, each file contributing nothing when it raised, without
      duplicates. */
  method CollectMusicLinks(music: Result<Json>, spotify: Result<Json>) returns (links: seq<Json>)
    ensures links == Uniq(FileLinks(Music, music) + FileLinks(Spotify, spotify))
  {
    links := [];
    if music.Ok? {
      var entries := EntriesOf(Music, music.value);
      if entries.Ok? {
        var found := LinksOf(Music, entries.value);
        if found.Ok? {
          links := links + Compact(found.value);
        }
      }
    }
    assert links == FileLinks(Music, music);
    if spotify.Ok? {
      var entries := EntriesOf(Spotify, spotify.value);
      if entries.Ok? {
        var found := LinksOf(Spotify, entries.value);
        if found.Ok? {
          links := links + Compact(found.value);
        }
      }
    }
    assert links == FileLinks(Music, music) + FileLinks(Spotify, spotify);
    links := Uniq(links);
  }

  /** The music links come first, and neither file's failure removes the
      other's links; no link is nil and none repeats. */
  lemma CollectedLinks(music: Result<Json>, spotify: Result<Json>)
    ensures var all := Uniq(FileLinks(Music, music) + FileLinks(Spotify, spotify));
      && |Uniq(FileLinks(Music, music))| <= |all|
      && all[..|Uniq(FileLinks(Music, music))|] == Uniq(FileLinks(Music, music))
      && (forall x :: x in all <==> x in FileLinks(Music, music) || x in FileLinks(Spotify, spotify))
      && JNull !in all
      && NoDuplicates(all)
    ensures music.Err? ==> Uniq(FileLinks(Music, music) + FileLinks(Spotify, spotify)) == Uniq(FileLinks(Spotify, spotify))
  {
    var a, b := FileLinks(Music, music), FileLinks(Spotify, spotify);
    UniqPrefix(a, b);
    UniqFirstOccurrences(a + b);
    if music.Err? {
      assert a + b == b;
    }
  }

  // ---------------------------------------------------------------------------
  // send_music_links

  const SafeLimit: nat := 3900

  /** `links.first(limit) if limit`. */
  function First(links: seq<Json>, limit: Option<nat>): (r: seq<Json>)
    ensures limit.None? ==> r == links
    ensures limit.Some? ==> |r| == Min(limit.value, |links|) && r == links[..|r|]
  {
    if limit.Some? then Take(links, limit.value) else links
  }

  /** `ln.to_s.strip` for every link, the empty ones skipped. */
  function Kept(links: seq<Json>): (r: seq<string>)
    ensures |r| <= |links|
    ensures forall i :: 0 <= i < |r| ==> r[i] != ""
    decreases |links|
  {
    if links == [] then []
    else
      var line := LineOf(links[0]);
      if line == "" then Kept(links[1..]) else [line] + Kept(links[1..])
  }

  /** `ln.to_s.strip`. */
  function LineOf(link: Json): string {
    Strip(ToS(link))
  }

  /** The texts `send_music_links` sends. Put back together with "\n" they
      are the kept lines of the first `limit` links, in order; no chunk is
      empty; and every chunk fits the safe limit whenever every kept line
      does. */
  function MusicChunks(links: seq<Json>, limit: Option<nat>): (r: seq<string>)
    ensures Join(r, "\n") == Join(Kept(First(links, limit)), "\n")
    ensures "" !in r
    ensures (forall line :: line in Kept(First(links, limit)) ==> |line| <= SafeLimit) ==>
              forall t :: t in r ==> |t| <= SafeLimit
  {
    var lines := Kept(First(links, limit));
    ChunksFromJoin(lines, "", SafeLimit);
    if forall line :: line in lines ==> |line| <= SafeLimit then
      ChunksFromBounded(lines, "", SafeLimit, false);
      ChunksFrom(lines, "", SafeLimit, false)
    else ChunksFrom(lines, "", SafeLimit, false)
  }

  /** `send_music_links`: collects the links, cuts them into chunks of at most
      `safe_limit` characters, and sends each chunk as a plain message. */
  method SendMusicLinks(m: Messenger, chat: int, music: Result<Json>, spotify: Result<Json>, limit: Option<nat>)
    modifies m
    ensures SentSoFar(m, chat, old(m.Snapshot()), old(m.calls), old(m.nextId),
                      Plain(MusicChunks(Uniq(FileLinks(Music, music) + FileLinks(Spotify, spotify)), limit)))
  {
    var links := CollectMusicLinks(music, spotify);
    if limit.Some? && limit.value < |links| {
      links := links[..limit.value];
    }
    SendLinkChunks(m, chat, links);
  }

  /** The loop of `send_music_links`. */
  method SendLinkChunks(m: Messenger, chat: int, links: seq<Json>)
    modifies m
    ensures SentSoFar(m, chat, old(m.Snapshot()), old(m.calls), old(m.nextId), Plain(ChunksFrom(Kept(links), "", SafeLimit, false)))
  {
    ghost var b0, c0, id0 := m.Snapshot(), m.calls, m.nextId;
    ghost var all := ChunksFrom(Kept(links), "", SafeLimit, false);
    ghost var sent: seq<string> := [];
    assert links[0..] == links;
    var chunk := "";
    var i := 0;
    while i < |links|
      invariant 0 <= i <= |links|
      invariant sent + ChunksFrom(Kept(links[i..]), chunk, SafeLimit, false) == all
      invariant SentSoFar(m, chat, b0, c0, id0, Plain(sent))
    {
      chunk, sent := TakeLink(m, chat, links, i, chunk, b0, c0, id0, sent);
      i := i + 1;
    }
    assert links[i..] == [];
    FlushChunk(m, chat, chunk, b0, c0, id0, sent);
  }

  /** One turn of the loop: `ln.to_s.strip`, skipped when empty. */
  method TakeLink(m: Messenger, chat: int, links: seq<Json>, i: nat, chunk: string,
                  ghost b0: Books, ghost c0: seq<ApiCall>, ghost id0: int, ghost sent: seq<string>)
    returns (chunk': string, ghost sent': seq<string>)
    requires i < |links| && SentSoFar(m, chat, b0, c0, id0, Plain(sent))
    modifies m
    ensures SentSoFar(m, chat, b0, c0, id0, Plain(sent'))
    ensures sent' + ChunksFrom(Kept(links[i + 1..]), chunk', SafeLimit, false)
         == sent + ChunksFrom(Kept(links[i..]), chunk, SafeLimit, false)
  {
    var line := Strip(ToS(links[i]));
    KeptAt(links, i);
    if line != "" {
      chunk', sent' := AddLine(m, chat, line, Kept(links[i + 1..]), chunk, b0, c0, id0, sent);
    } else {
      chunk', sent' := chunk, sent;
    }
  }

  /** The body of the loop for a kept line: `send_chunk` when the line does
      not fit, then the line starts or extends the current chunk. */
  method AddLine(m: Messenger, chat: int, line: string, ghost rest: seq<string>, chunk: string,
                 ghost b0: Books, ghost c0: seq<ApiCall>, ghost id0: int, ghost sent: seq<string>)
    returns (chunk': string, ghost sent': seq<string>)
    requires SentSoFar(m, chat, b0, c0, id0, Plain(sent))
    modifies m
    ensures SentSoFar(m, chat, b0, c0, id0, Plain(sent'))
    ensures sent' + ChunksFrom(rest, chunk', SafeLimit, false) == sent + ChunksFrom([line] + rest, chunk, SafeLimit, false)
  {
    ChunkStep(line, rest, chunk);
    sent' := sent;
    if chunk == "" {
      chunk' := line;
    } else if |chunk| + 1 + |line| > SafeLimit {
      m.Emit(chat, Outgoing(chunk, false, Rec, false), b0, c0, id0, Plain(sent));
      PlainSnoc(sent, chunk);
      sent' := sent + [chunk];
      chunk' := line;
    } else {
      chunk' := chunk + "\n" + line;
    }
  }

  /** `send_chunk.call(chunk) unless chunk.empty?` after the loop. */
  method FlushChunk(m: Messenger, chat: int, chunk: string,
                    ghost b0: Books, ghost c0: seq<ApiCall>, ghost id0: int, ghost sent: seq<string>)
    requires SentSoFar(m, chat, b0, c0, id0, Plain(sent))
    modifies m
    ensures SentSoFar(m, chat, b0, c0, id0, Plain(sent + ChunksFrom([], chunk, SafeLimit, false)))
  {
    if chunk != "" {
      m.Emit(chat, Outgoing(chunk, false, Rec, false), b0, c0, id0, Plain(sent));
      PlainSnoc(sent, chunk);
    } else {
      assert sent + [] == sent;
    }
  }

  lemma PlainSnoc(texts: seq<string>, t: string)
    ensures Plain(texts) + [Outgoing(t, false, Rec, false)] == Plain(texts + [t])
  {
  }

  /** One step of the chunker on a kept line. */
  lemma ChunkStep(line: string, rest: seq<string>, chunk: string)
    ensures ChunksFrom([line] + rest, chunk, SafeLimit, false)
         == if chunk != "" && |chunk| + 1 + |line| > SafeLimit then [chunk] + ChunksFrom(rest, line, SafeLimit, false)
            else ChunksFrom(rest, if chunk == "" then line else chunk + "\n" + line, SafeLimit, false)
  {
    assert ([line] + rest)[0] == line && ([line] + rest)[1..] == rest;
  }

  /** Links that are already stripped and non-empty. */
  predicate StrippedLinks(ss: seq<string>) {
    forall i :: 0 <= i < |ss| ==> ss[i] != "" && Strip(ss[i]) == ss[i]
  }

  /** A link list of plain, already stripped, non-empty strings is sent as
      exactly those strings. */
  lemma {:induction false} KeptStrings(ss: seq<string>)
    requires StrippedLinks(ss)
    ensures Kept(JStrs(ss)) == ss
    decreases |ss|
  {
    if ss != [] {
      PlainTail(ss);
      KeptStrings(ss[1..]);
      KeptHead(ss);
    }
  }

  lemma KeptHead(ss: seq<string>)
    requires ss != [] && ss[0] != "" && Strip(ss[0]) == ss[0]
    ensures Kept(JStrs(ss[1..])) == ss[1..] ==> Kept(JStrs(ss)) == ss
  {
    assert ss == [ss[0]] + ss[1..];
    KeptString(ss[0], ss[1..]);
  }

  lemma PlainTail(ss: seq<string>)
    requires ss != [] && StrippedLinks(ss)
    ensures ss[0] != "" && Strip(ss[0]) == ss[0] && StrippedLinks(ss[1..])
  {
    forall i | 0 <= i < |ss| - 1
      ensures ss[1..][i] != "" && Strip(ss[1..][i]) == ss[1..][i]
    {
      assert ss[1..][i] == ss[i + 1];
    }
  }

  lemma KeptString(x: string, rest: seq<string>)
    requires x != "" && Strip(x) == x
    ensures Kept(JStrs([x] + rest)) == [x] + Kept(JStrs(rest))
  {
    assert ([x] + rest)[1..] == rest;
    assert JStrs([x] + rest) == [JStr(x)] + JStrs(rest);
    KeptCons(JStr(x), JStrs(rest));
    assert LineOf(JStr(x)) == x;
  }

  /** `Kept` from position `i` on, one link at a time. */
  lemma KeptAt(links: seq<Json>, i: nat)
    requires i < |links|
    ensures Kept(links[i..]) == if LineOf(links[i]) == "" then Kept(links[i + 1..]) else [LineOf(links[i])] + Kept(links[i + 1..])
  {
    assert links[i..] == [links[i]] + links[i + 1..];
    KeptCons(links[i], links[i + 1..]);
  }

  lemma KeptCons(x: Json, rest: seq<Json>)
    ensures Kept([x] + rest) == if LineOf(x) == "" then Kept(rest) else [LineOf(x)] + Kept(rest)
  {
    assert ([x] + rest)[1..] == rest;
  }

  // ---------------------------------------------------------------------------
  // format_music_lines / format_spotify_lines

  /** The title key of an entry. */
  function TitleKey(src: Source): string {
    match src
    case Music => "trackTitle"
    case Spotify => "name"
  }

  /** `(t["artists"] || []).map { |a| a["name"] }.join(", ")`. */
  function ArtistsText(entry: Json): Result<string> {
    match Get(entry, "artists")
    case Err(e) => Err(e)
    case Ok(artists) =>
      match Elements(OrElse(artists, JArr([])))
      case Err(e) => Err(e)
      case Ok(xs) =>
        match Names(xs)
        case Err(e) => Err(e)
        case Ok(names) => Ok(JoinValues(names, ", "))
  }

  /** `map { |a| a["name"] }`. */
  function Names(xs: seq<Json>): (r: Result<seq<Json>>)
    ensures r.Ok? ==> |r.value| == |xs| && forall i :: 0 <= i < |xs| ==> Get(xs[i], "name") == Ok(r.value[i])
    decreases |xs|
  {
    if xs == [] then Ok([])
    else
      match Get(xs[0], "name")
      case Err(e) => Err(e)
      case Ok(name) =>
        match Names(xs[1..])
        case Err(e) => Err(e)
        case Ok(rest) =>
          assert forall i :: 1 <= i < |xs| ==> xs[i] == xs[1..][i - 1];
          Ok([name] + rest)
  }

  const Dash: string := " \U{2014} "

  /** `"#{title} — #{artists} — #{link}"` for one entry. */
  function EntryLine(src: Source, entry: Json): Result<string> {
    match Get(entry, TitleKey(src))
    case Err(e) => Err(e)
    case Ok(title) =>
      match ArtistsText(entry)
      case Err(e) => Err(e)
      case Ok(artists) =>
        match LinkOf(src, entry)
        case Err(e) => Err(e)
        case Ok(link) => Ok(ToS(title) + Dash + artists + Dash + ToS(link))
  }

  /** `format_music_lines` (`Music`) and `format_spotify_lines` (`Spotify`):
      one line per entry, or the exception the first failing entry raises. */
  function FormatLines(src: Source, data: Json): (r: Result<seq<string>>)
    ensures EntriesOf(src, data).Err? ==> r.Err?
    ensures r.Ok? ==> (EntriesOf(src, data).Ok? && |r.value| == |EntriesOf(src, data).value|
      && forall i :: 0 <= i < |r.value| ==> EntryLine(src, EntriesOf(src, data).value[i]) == Ok(r.value[i]))
  {
    match EntriesOf(src, data)
    case Err(e) => Err(e)
    case Ok(entries) =>
      if EntryLines(src, entries).Ok? then EntryLinesOk(src, entries); EntryLines(src, entries)
      else EntryLines(src, entries)
  }

  function EntryLines(src: Source, entries: seq<Json>): (r: Result<seq<string>>)
    decreases |entries|
  {
    if entries == [] then Ok([])
    else
      match EntryLine(src, entries[0])
      case Err(e) => Err(e)
      case Ok(line) =>
        match EntryLines(src, entries[1..])
        case Err(e) => Err(e)
        case Ok(rest) => Ok([line] + rest)
  }

  /** When every entry gives a line, there is one line per entry, in order. */
  lemma {:induction false} EntryLinesOk(src: Source, entries: seq<Json>)
    requires EntryLines(src, entries).Ok?
    ensures |EntryLines(src, entries).value| == |entries|
    ensures forall i :: 0 <= i < |entries| ==> EntryLine(src, entries[i]) == Ok(EntryLines(src, entries).value[i])
    decreases |entries|
  {
    if entries != [] {
      var tail := entries[1..];
      var first := EntryLine(src, entries[0]);
      assert first.Ok? && EntryLines(src, tail).Ok?;
      EntryLinesOk(src, tail);
      var r := EntryLines(src, entries).value;
      var rest := EntryLines(src, tail).value;
      assert r == [first.value] + rest;
      forall i | 1 <= i < |entries|
        ensures EntryLine(src, entries[i]) == Ok(r[i])
      {
        assert entries[i] == tail[i - 1] && r[i] == rest[i - 1];
      }
    }
  }

  /** A failure names a failing entry. */
  lemma {:induction false} EntryLinesErr(src: Source, entries: seq<Json>)
    requires EntryLines(src, entries).Err?
    ensures exists i :: 0 <= i < |entries| && EntryLine(src, entries[i]).Err?
    decreases |entries|
  {
    if EntryLine(src, entries[0]).Ok? {
      var tail := entries[1..];
      EntryLinesErr(src, tail);
      var i :| 0 <= i < |tail| && EntryLine(src, tail[i]).Err?;
      assert entries[i + 1] == tail[i];
    }
  }

  /** A music track as the music file lists it. */
  function Track(title: string, names: seq<string>, link: string): Json {
    JObj([("trackTitle", JStr(title)), ("artists", JArr(ArtistObjects(names))), ("href", JStr(link))])
  }

  /** Artist objects carrying only their names. */
  function ArtistObjects(names: seq<string>): (r: seq<Json>)
    ensures |r| == |names|
  {
    if names == [] then [] else [JObj([("name", JStr(names[0]))])] + ArtistObjects(names[1..])
  }

  /** A music track with a string title, string artist names and a string
      link gives "title — name1, name2 — link". */
  lemma MusicEntryLine(title: string, names: seq<string>, link: string)
    ensures EntryLine(Music, Track(title, names, link)) == Ok(title + Dash + Join(names, ", ") + Dash + link)
  {
    var entry := Track(title, names, link);
    TrackLookups(JStr(title), JArr(ArtistObjects(names)), JStr(link));
    ArtistsOfTrack(entry, names);
    assert Get(entry, "trackTitle") == Ok(JStr(title));
    assert LinkOf(Music, entry) == Ok(JStr(link));
  }

  /** The three members of a music track are found under their keys. */
  lemma TrackLookups(title: Json, artists: Json, link: Json)
    ensures var ms := [("trackTitle", title), ("artists", artists), ("href", link)];
      Lookup(ms, "trackTitle") == title && Lookup(ms, "artists") == artists && Lookup(ms, "href") == link
  {
    var ms := [("trackTitle", title), ("artists", artists), ("href", link)];
    assert |"trackTitle"| == 10 && |"artists"| == 7 && |"href"| == 4;
    assert ms[..2] == [("trackTitle", title), ("artists", artists)];
    assert ms[..2][..1] == [("trackTitle", title)];
    assert Lookup(ms, "trackTitle") == Lookup(ms[..2], "trackTitle") == Lookup(ms[..2][..1], "trackTitle");
    assert Lookup(ms, "artists") == Lookup(ms[..2], "artists");
  }

  /** The artists of an entry whose `artists` member lists objects named by
      `names` read as the names joined by ", ". */
  lemma ArtistsOfTrack(entry: Json, names: seq<string>)
    requires entry.JObj?
    requires Lookup(entry.members, "artists") == JArr(ArtistObjects(names))
    ensures ArtistsText(entry) == Ok(Join(names, ", "))
  {
    NamesOfArtists(names);
    JoinValuesOfStrings(names, ", ");
    assert Elements(OrElse(JArr(ArtistObjects(names)), JArr([]))) == Ok(ArtistObjects(names));
  }

  lemma {:induction false} NamesOfArtists(names: seq<string>)
    ensures Names(ArtistObjects(names)) == Ok(JStrs(names))
    decreases |names|
  {
    if names != [] {
      var artists := ArtistObjects(names);
      assert artists[1..] == ArtistObjects(names[1..]);
      NamesOfArtists(names[1..]);
      assert Get(artists[0], "name") == Ok(JStr(names[0]));
    }
  }

}
