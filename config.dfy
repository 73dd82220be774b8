/** The configuration constants of config.rb that the bot's logic reads:
    the admin list, the Telegram message limit, the three weather
    tables and the music API settings. The emoji in the weather tables are stored in the file as
    mis-decoded UTF-8 ("mojibake"); they are kept here character for
    character, written as `\U{...}` escapes. */
module Config {
  import opened Wrappers
  import opened Text

  /** `TELEGRAM_MAX_CHARS_LIMIT`, also bound to `TELEGRAM_MAX_CHARS`. */
  const TelegramMaxCharsLimit: nat := 4096

  // ---------------------------------------------------------------------------
  // ADMIN_ID

  /** `String#split(",")`: the exact pieces with the trailing empty pieces
      removed, so the empty string gives no piece at all. */
  function RubySplit(s: string, c: char): (r: seq<string>)
    ensures forall i :: 0 <= i < |r| ==> c !in r[i]
    ensures r == [] || r[|r| - 1] != ""
  {
    DropTrailingEmpty(Split(s, c))
  }

  function DropTrailingEmpty(xs: seq<string>): (r: seq<string>)
    ensures |r| <= |xs| && r == xs[..|r|]
    ensures r == [] || r[|r| - 1] != ""
    ensures forall i :: |r| <= i < |xs| ==> xs[i] == ""
  {
    if xs == [] then []
    else if xs[|xs| - 1] == "" then DropTrailingEmpty(xs[..|xs| - 1])
    else xs
  }

  /** `ENV.fetch("ADMIN_ID").split(",").map(&:strip)`. */
  function AdminIds(env: string): (r: seq<string>)
    ensures |r| == |RubySplit(env, ',')|
    ensures forall i :: 0 <= i < |r| ==> r[i] == Strip(RubySplit(env, ',')[i])
  {
    var pieces := RubySplit(env, ',');
    seq(|pieces|, i requires 0 <= i < |pieces| => Strip(pieces[i]))
  }

  /** A user is an admin when the decimal form of their id is one of the
      admin entries. */
  predicate IsAdmin(env: string, userId: int) {
    IntToString(userId) in AdminIds(env)
  }

  /** A comma-separated list of ids, padded with spaces, reads back as the
      list of ids. */
  lemma {:induction false} AdminIdsOfList(ids: seq<string>)
    requires |ids| >= 1
    requires forall i :: 0 <= i < |ids| ==> ',' !in ids[i]
    requires ids[|ids| - 1] != ""
    ensures AdminIds(Join(ids, ",")) == seq(|ids|, i requires 0 <= i < |ids| => Strip(ids[i]))
  {
    assert "," == [','];
    SplitJoin(ids, ',');
  }

  /** An empty variable gives no admin at all, so nobody is authorised. */
  lemma EmptyAdminList(userId: int)
    ensures AdminIds("") == []
    ensures !IsAdmin("", userId)
  {
    assert Split("", ',') == [""];
    assert DropTrailingEmpty([""]) == DropTrailingEmpty([]);
  }

  // ---------------------------------------------------------------------------
  // Weather tables

  /** The keys of `WEATHER_GROUPS` and `WEATHER_NOTES`. */
  datatype Group = Clear | Fog | Drizzle | Rain | FreezingRain | Snow | Thunder

  /** `WMO_DESCRIPTIONS[code]`: the description of a code, nil when the
      table has none. */
  function WmoDescription(code: int): Option<string> {
    match code
    case 0 => Some("Clear sky \U{00E2}\U{02DC}\U{20AC}\U{00EF}\U{00B8}")
    case 1 => Some("Mainly clear \U{00F0}\U{0178}\U{0152}\U{00A4}")
    case 2 => Some("Partly cloudy \U{00E2}\U{203A}\U{2026}")
    case 3 => Some("Overcast \U{00E2}\U{02DC}\U{00EF}\U{00B8}")
    case 45 => Some("Fog \U{00F0}\U{0178}\U{0152}\U{00AB}")
    case 48 => Some("Depositing rime fog \U{00F0}\U{0178}\U{0152}\U{00AB}")
    case 51 => Some("Light drizzle \U{00F0}\U{0178}\U{0152}\U{00A6}")
    case 53 => Some("Moderate drizzle \U{00F0}\U{0178}\U{0152}\U{00A6}")
    case 55 => Some("Dense drizzle \U{00F0}\U{0178}\U{0152}\U{00A7}")
    case 56 => Some("Light freezing drizzle \U{00F0}\U{0178}\U{0152}\U{00A7}\U{00E2}\U{201E}\U{00EF}\U{00B8}")
    case 57 => Some("Dense freezing drizzle \U{00F0}\U{0178}\U{0152}\U{00A7}\U{00E2}\U{201E}\U{00EF}\U{00B8}")
    case 61 => Some("Light rain \U{00F0}\U{0178}\U{0152}\U{00A6}")
    case 63 => Some("Moderate rain \U{00F0}\U{0178}\U{0152}\U{00A7}")
    case 65 => Some("Heavy rain \U{00F0}\U{0178}\U{0152}\U{00A7}")
    case 66 => Some("Light freezing rain \U{00F0}\U{0178}\U{0152}\U{00A7}\U{00E2}\U{201E}\U{00EF}\U{00B8}")
    case 67 => Some("Heavy freezing rain \U{00F0}\U{0178}\U{0152}\U{00A7}\U{00E2}\U{201E}\U{00EF}\U{00B8}")
    case 71 => Some("Light snow \U{00F0}\U{0178}\U{0152}\U{00A8}")
    case 73 => Some("Moderate snow \U{00F0}\U{0178}\U{0152}\U{00A8}")
    case 75 => Some("Heavy snow \U{00E2}\U{201E}\U{00EF}\U{00B8}")
    case 77 => Some("Snow grains \U{00E2}\U{201E}\U{00EF}\U{00B8}")
    case 80 => Some("Rain showers \U{00F0}\U{0178}\U{0152}\U{00A6}")
    case 81 => Some("Heavy rain showers \U{00F0}\U{0178}\U{0152}\U{00A7}")
    case 82 => Some("Violent rain showers \U{00F0}\U{0178}\U{0152}\U{00A7}")
    case 85 => Some("Snow showers \U{00F0}\U{0178}\U{0152}\U{00A8}")
    case 86 => Some("Heavy snow showers \U{00E2}\U{201E}\U{00EF}\U{00B8}")
    case 95 => Some("Thunderstorm \U{00E2}\U{203A}\U{02C6}")
    case 96 => Some("Thunderstorm with hail \U{00E2}\U{203A}\U{02C6}")
    case 99 => Some("Heavy thunderstorm with hail \U{00E2}\U{203A}\U{02C6}")
    case _ => None
  }

  /** `CLEAR_CODES` ... `THUNDER_CODES`. */
  function CodesOf(g: Group): seq<int> {
    match g
    case Clear => [0, 1, 2, 3]
    case Fog => [45, 48]
    case Drizzle => [51, 53, 55, 56, 57]
    case Rain => [61, 63, 65, 80, 81, 82]
    case FreezingRain => [66, 67]
    case Snow => [71, 73, 75, 77, 85, 86]
    case Thunder => [95, 96, 99]
  }

  /** `WEATHER_GROUPS`, in its insertion order (the order `find` visits). */
  const WeatherGroups: seq<(Group, seq<int>)> := [
    (Clear, CodesOf(Clear)),
    (Fog, CodesOf(Fog)),
    (Drizzle, CodesOf(Drizzle)),
    (Rain, CodesOf(Rain)),
    (FreezingRain, CodesOf(FreezingRain)),
    (Snow, CodesOf(Snow)),
    (Thunder, CodesOf(Thunder))
  ]

  /** `WEATHER_NOTES[group]`: every group has a note, so the lookup is total
      on groups. */
  function WeatherNote(g: Group): string {
    match g
    case Clear => "\U{00F0}\U{0178}\U{0152}\U{017E} Enjoy the day!"
    case Fog => "\U{00F0}\U{0178}\U{0152}\U{00AB} Drive carefully!"
    case Drizzle => "\U{00F0}\U{0178}\U{0152}\U{00A6} You might need a light umbrella."
    case Rain => "\U{00E2}\U{02DC}\U{201D} Take an umbrella!"
    case FreezingRain => "\U{00E2}\U{201E}\U{00EF}\U{00B8}\U{00E2}\U{0161}\U{00A0}\U{00EF}\U{00B8} Roads might be icy \U{00E2}\U{20AC}\U{201D} walk carefully."
    case Snow => "\U{00E2}\U{201E}\U{00EF}\U{00B8} Wear something warm!"
    case Thunder => "\U{00E2}\U{0161}\U{00A1} Stay indoors if possible!"
  }

  /** The table lists every group once, each with its own code list. */
  lemma WeatherGroupsListsEveryGroup(g: Group)
    ensures exists i :: 0 <= i < |WeatherGroups| && WeatherGroups[i] == (g, CodesOf(g))
    ensures forall i :: 0 <= i < |WeatherGroups| ==> WeatherGroups[i].1 == CodesOf(WeatherGroups[i].0)
  {
    match g
    case Clear => assert WeatherGroups[0] == (g, CodesOf(g));
    case Fog => assert WeatherGroups[1] == (g, CodesOf(g));
    case Drizzle => assert WeatherGroups[2] == (g, CodesOf(g));
    case Rain => assert WeatherGroups[3] == (g, CodesOf(g));
    case FreezingRain => assert WeatherGroups[4] == (g, CodesOf(g));
    case Snow => assert WeatherGroups[5] == (g, CodesOf(g));
    case Thunder => assert WeatherGroups[6] == (g, CodesOf(g));
  }

  /** The seven code lists are pairwise disjoint. */
  lemma GroupsDisjoint(g1: Group, g2: Group, code: int)
    requires code in CodesOf(g1) && code in CodesOf(g2)
    ensures g1 == g2
  {
  }

  /** Every grouped code has a description and every described code is in
      some group. */
  lemma DescribedIffGrouped(code: int)
    ensures WmoDescription(code).Some? <==> exists g :: code in CodesOf(g)
  {
    if WmoDescription(code).Some? {
      var g :=
        if code <= 3 then Clear
        else if code <= 48 then Fog
        else if code <= 57 then Drizzle
        else if code <= 65 || (80 <= code <= 82) then Rain
        else if code <= 67 then FreezingRain
        else if code <= 86 then Snow
        else Thunder;
      assert code in CodesOf(g);
    }
  }

  /** Every note is non-empty, so a grouped code always gets a tip. */
  lemma NotesNonEmpty(g: Group)
    ensures WeatherNote(g) != ""
  {
  }

  // ---------------------------------------------------------------------------
  // Music API

  /** `API_side_link_music`. */
  const ApiSideLinkMusic: string := "https://api.reccobeats.com/v1/track/recommendation"

  /** `MUSIC_SEEDS`: ten track links (one track appears twice, with two
      different `si` parameters). */
  const MusicSeeds: seq<string> := [
    "https://open.spotify.com/track/5QmdK8QFbY8TLVKPuJzexD?si=334d297ff87c4bea",
    "https://open.spotify.com/track/4sUTagdmyuyAxd7RvbygpQ?si=650d11e1dafe4bf0",
    "https://open.spotify.com/track/6gSalwEvVQfSFiqgwfyITp?si=363a3b5c4fcf408a",
    "https://open.spotify.com/track/5QmdK8QFbY8TLVKPuJzexD?si=bd45a23a83854c85",
    "https://open.spotify.com/track/5i1lwW1eG8qy2K0M6zxn7B?si=4dc5855927bd4e10",
    "https://open.spotify.com/track/5UWwZ5lm5PKu6eKsHAGxOk?si=b7f9b790d64c4834",
    "https://open.spotify.com/track/3lwSNFtP1p9n88HkCGNty8?si=c944adaa0cc74eb3",
    "https://open.spotify.com/track/0wvIGFIgbyz4JNwQhZgTv2?si=185e562c692344d6",
    "https://open.spotify.com/track/2nKMYmI6vWX99OnKeZSrfk?si=6d92fb3f4cd34175",
    "https://open.spotify.com/track/2LtWGOsyqmd88HCHX3hNn6?si=e541182e09eb4230"
  ]

  /** `MUSIC_DEFAULT_FEATURES`, each value written as `to_s` renders it
      (`0.10.to_s` is "0.1"), which is how it reaches the query string. */
  const MusicDefaultFeatures: seq<(string, string)> := [
    ("acousticness", "0.1"),
    ("danceability", "0.2"),
    ("energy", "0.1"),
    ("instrumentalness", "0.1"),
    ("liveness", "0.15"),
    ("speechiness", "0.05"),
    ("valence", "0.25"),
    ("mode", "1"),
    ("popularity", "1"),
    ("featureWeight", "3")
  ]
}
