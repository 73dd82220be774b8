# RubyTgBot core, modelled in Dafny

A Telegram bot that answers a handful of commands. It supports:

- a bus and train connection search, run as a conversation;
- a daily report (weather, music picks, news);
- a countdown timer;
- music recommendations;
- a per-user table of subscriptions.

This project models the logic under the bot's I/O and proves what that logic promises. Anything that talks to the outside world becomes an input or a parameter of the model: the Telegram API, HTTP fetches, files, the clock and randomness.

Modules, one per source file, plus shared primitives:

| module | models |
|---|---|
| `Wrappers`, `Text`, `Seqs`, `Json`, `FormEncoding` | Ruby primitives the code relies on. They cover `strip` and `\s` with Ruby's character sets, `Integer#to_s`, `String#to_i`, `split`, `join`, `uniq`, `CGI.escapeHTML`, `[]` and `dig` on parsed JSON, and `URI.encode_www_form`. |
| `Buses` | services/buses.rb: the IDOS results parser (stop names, fares, leg and WALK records, date and time sources, search URL) |
| `Transport` | lib/bot/transport.rb: the per-chat `BUS_FLOW` state machine (class `BusFlow`), its step function, the rendering of connections and the `scan` that cuts the text into messages |
| `Messaging` | lib/bot/messaging.rb: the messenger (class `Messenger`) with its last-message map and its two tracked id lists, and the `with_chunks` chunker |
| `MusicHelpers` | lib/bot/music_helpers.rb: link collection, the link chunker, the music and Spotify line formatters |
| `Timer` | services/timer.rb: the year/month/day/hour breakdown and the countdown message |
| `Rec` | lib/bot/rec.rb: `format_recs` |
| `CsvStore` | lib/bot/csv_store.rb: the user table held in memory (class `UserTable`) |
| `Router` | main.rb: routing of one update in the `bot.listen` block |
| `News` | services/news.rb: charset sniffing, the article dictionary, summary lines, `absolutize` |
| `Music` | services/music.rb: seed ids, the request's parameter list, seed selection, track extraction |
| `Weather` | services/weather.rb: code description, grouping, notes and the weather text |
| `Config` | config.rb: the constants the logic reads and the facts about the weather tables |
| `Report` | lib/bot/report.rb: the report's guard ladder, news-line rewriting and body |

State that the source changes in place is modelled with classes:

- `Transport.BusFlow` holds the `BUS_FLOW` hash.
- `Messaging.Messenger` holds the three message maps, a log of the Telegram API calls, and the counter that hands out message ids.
- `CsvStore.UserTable` holds the rows of the CSV file.

Their methods are proved against pure step functions. The step functions' own properties are proved as lemmas.

Behaviours of the code worth knowing, each proved in the model:

- The start command does not go straight to the origin question. The `:ground_zero` step first swallows one message unread (`Transport.GroundZeroIgnoresText`).
- A date answer is checked for digits only, with line anchors, so "13.13.2025" is accepted (`Transport.DateRule`, `Buses.NoCalendarCheck`, `Buses.MatchesDateAnyLine`).
- The parser can return a connection box with no legs (`Buses.LegRecordsWellSequenced`, `Buses.ParseConnections`).
- A box without a head raises, which aborts the whole parse; the transport handler rescues it (`Buses.ParsedBox`, `Buses.ParseConnections`, `Transport.TimeRule`).
- The `scan(/.{1,N}(?:\n|\z)/m)` that cuts results into messages yields pieces of up to N+1 characters and cuts a long line wherever a break or the end follows (`Transport.Scan`, `Transport.ScanRoundTrip`).
- The messenger tracks the ids of the messages it sends and deletes them later (`Messaging`).


## Model

| member | source | states |
|---|---|---|
| Buses.NormalizeDate | services/buses.rb:69 | the value comes back unchanged exactly when it is present and some line of it is `DD.MM.YYYY`, otherwise nil |
| Buses.NormalizeTime | services/buses.rb:70 | the value comes back unchanged exactly when it is present and some line of it is `HH:MM`, otherwise nil |
| Buses.MatchesDateSingleLine | services/buses.rb:69 | on a one-line string the anchored date pattern holds if and only if the whole string is two digits, a dot, two digits, a dot and four digits |
| Buses.MatchesTimeSingleLine | services/buses.rb:70 | on a one-line string the anchored time pattern holds if and only if the whole string is two digits, a colon and two digits |
| Buses.NoCalendarCheck | services/buses.rb:69-70 | the normalisers check digits only: "13.13.2025" and "99:99" pass unchanged |
| Buses.MatchesDateAnyLine | services/buses.rb:69 | because `^` and `$` are line anchors, one date line anywhere in a multi-line value lets the whole value through |
| Buses.CleanStop | services/buses.rb:72-75 | nil or "" give nil and nothing else does; a name without ",," is returned unchanged |
| Buses.CleanStopDecorated | services/buses.rb:74 | a name "code,,display" whose code holds no ",," becomes the stripped display part |
| Buses.DocDateTimeFrom | services/buses.rb:60 | a "date spaces time" match yields a date capture of the date shape and a time capture of the time shape |
| Buses.DocDateTimeLeftmost | services/buses.rb:60 | the match is the leftmost one: it sits at a position where the pattern matches and no earlier position does |
| Buses.DocDateTimeNone | services/buses.rb:60 | there is no match exactly when the pattern matches at no position from the start onward |
| Buses.ExtractDateTime | services/buses.rb:49-67 | fails exactly when a non-empty query URL cannot be parsed; the URL's date and time win when at least one of them normalises; otherwise the leftmost date-time pair of the page text is returned, and (nil, nil) when there is none; every returned part passes its normaliser |
| Buses.DocumentPairIsWhole | services/buses.rb:60-63 | when the page text holds a date-time pair and there is no query URL, both the date and the time are returned |
| Buses.SearchUrl | services/buses.rb:20-33 | the URL is the bare base URL if and only if no field is present, otherwise the base URL, "?" and the encoded query |
| Buses.BuildQuery | services/buses.rb:20-25 | the loop of `query_params[key] = value if value` gives the present fields in the order date, time, f, t |
| Buses.ParseAndBuild | services/buses.rb:14-35 | fails exactly when the date-time extraction fails; otherwise the header holds the extracted date and time, the cleaned first and last stops, the base URL and the search URL built from those fields |
| Buses.PriceKc | services/buses.rb:96-98 | a fare is positive and is the number formed by the digits of the price text; no text, or digits worth 0, gives nil |
| Buses.TransitOf | services/buses.rb:102-127 | a leg element's first record is always a transit record |
| Buses.LegsOf | services/buses.rb:119-129 | a leg element gives its transit record, then a WALK record holding the note exactly when the collapsed walk note is non-empty |
| Buses.LegRecordsSnoc | services/buses.rb:101-130 | one more leg element appends its records to the legs built so far |
| Buses.ParsedBox | services/buses.rb:84-140 | `parse_box` raises exactly when the box has no head |
| Buses.ParseLeg | services/buses.rb:101-129 | the loop body builds exactly the records of `LegsOf` |
| Buses.ParseBox | services/buses.rb:84-140 | the imperative `parse_box`, with its `legs <<` loop, returns the same result as `ParsedBox` |
| Buses.WellSequencedAppend | services/buses.rb:119-129 | joining two well-sequenced leg lists (no leading WALK, no two WALKs in a row) keeps them well sequenced |
| Buses.LegRecordsWellSequenced | services/buses.rb:100-130 | the legs of a box never start with WALK and never hold two WALKs in a row, and they are empty exactly when the box has no leg elements |
| Buses.TransitsAppend | services/buses.rb:100-130 | the transit records of joined lists are those of each list, joined |
| Buses.TransitsOfLegs | services/buses.rb:119-129 | one leg element yields exactly one transit record |
| Buses.OneTransitPerLeg | services/buses.rb:100-130 | the transit records of a box are exactly the transit records of its leg elements, in document order |
| Buses.ParseConnections | services/buses.rb:78-82 | fails exactly when one of the first `limit` boxes has no head; otherwise it returns min(limit, boxes) records, each one that box's parse |
| Buses.ParsedLegsWellSequenced | services/buses.rb:78-130 | every connection the parser returns has well-sequenced legs |
| Text.Strip | lib/bot/csv_store.rb:41 | `String#strip`: the result is no longer than the input and neither starts nor ends with NUL, tab, line feed, vertical tab, form feed, carriage return or space |
| Text.StripLeft | services/buses.rb:39 | the left half of `strip`: a suffix of the input whose first character is no strip space, every dropped character being one |
| Text.StripRight | services/buses.rb:39 | the right half of `strip`: a prefix of the input whose last character is no strip space, every dropped character being one |
| Text.StripUnchanged | services/news.rb:89 | a string with no strip space at either end comes back from `strip` unchanged |
| Text.StripEmptyIff | lib/bot/csv_store.rb:10 | `strip` gives the empty string exactly when every character of the input is a strip space (both directions) |
| Text.StripIdempotent | services/news.rb:89 | stripping twice is stripping once |
| Text.SkipRegexSpaces | services/buses.rb:104 | drops exactly the leading run of `\s` characters: a suffix of the input that does not start with one |
| Text.NonSpacesSkip | services/buses.rb:104 | dropping leading `\s` characters keeps every other character, in order |
| Text.SqueezeSpaces | services/buses.rb:104 | `gsub(/\s+/, ' ')`: the first character is a space exactly when the input starts with `\s`; every `\s` left is a plain space, no two spaces are adjacent, and the non-space characters are those of the input in order |
| Text.StripKeepsSpacing | services/buses.rb:107 | stripping a squeezed string keeps it free of double and non-blank spaces |
| Text.CollapseSpaces | services/buses.rb:104 | `gsub(/\s+/, ' ').strip`: no space at either end, only plain single spaces inside |
| Text.DigitsOnly | services/buses.rb:97 | `gsub(/[^\d]/, '')`: only ASCII digits are left, and no more characters than the input had |
| Text.DigitValue | services/buses.rb:97 | a digit's value is below ten and renders back to the same digit |
| Text.NatToString | lib/bot/util.rb:14 | `Integer#to_s` of a non-negative number: a non-empty string of digits with no sign |
| Text.NatToStringRoundTrip | services/news.rb:112 | `to_i` reads back the number `to_s` wrote |
| Text.NatToStringInjective | services/news.rb:112 | two numbers with the same rendering are equal |
| Text.IntToStringInjective | lib/bot/util.rb:14 | distinct integers, negative ones included, have distinct renderings, so a chat id names one chat |
| Text.Take | services/buses.rb:80 | `Array#first(n)`: the first `min(n, size)` elements of the input |
| Text.JoinAppend | lib/bot/messaging.rb:43 | joining a list with one more element appends the separator and that element |
| Text.JoinConcat | lib/bot/messaging.rb:43 | joining two non-empty lists is joining each and putting one separator between |
| Text.Split | services/weather.rb:121 | `split(c, -1)`: at least one piece, and no piece holds the separator |
| Text.JoinSplit | services/weather.rb:121 | joining the pieces of a split with the separator gives the string back |
| Text.SplitJoin | services/weather.rb:121 | splitting a joined list whose pieces hold no separator gives the list back |
| Text.SplitConcat | lib/bot/report.rb:55 | splitting at a separator splits each side on its own |
| Text.SplitNoSeparator | lib/bot/report.rb:55 | a string without the separator splits into itself alone |
| Text.RunEnd | services/news.rb:112 | the end of a run from `j`: every character before it is in the run, the character at it is not, or it is the end of the text |
| Text.RunEndAt | services/news.rb:112 | a run ends at the first position outside it, and only there |
| Text.FindFrom | services/buses.rb:74 | the leftmost occurrence at or after `from`: it occurs there and nowhere between `from` and there; none means it occurs nowhere after `from` |
| Text.FindFromLeftmost | services/buses.rb:74 | an occurrence with none before it is the one found from the start |
| Text.Downcase | lib/bot/transport.rb:46 | `downcase`: same length, every character lower-cased on its own |
| Text.Markup | lib/bot/util.rb:10 | the markup characters of a string, in order; each is one of `& < > " '` |
| Text.MarkupConcat | lib/bot/util.rb:10 | the markup of a concatenation is the markup of each part |
| Text.HtmlEscapeNoMarkup | lib/bot/util.rb:9-11 | `CGI.escapeHTML` output holds none of `& < > " '` outside entities: escaped text can neither open nor close a tag |
| Text.HtmlEscapeConcat | lib/bot/util.rb:9-11 | escaping works character by character: the escape of a concatenation is the concatenation of the escapes |
| Text.HtmlEscapeNewlines | lib/bot/util.rb:9-11 | escaped text has a line break exactly when the text had one |
| Text.HtmlEscapeRoundTrip | lib/bot/util.rb:9-11 | unescaping the five entities gives back the original text: escaping loses nothing |
| Text.UnescapeCons | lib/bot/util.rb:9-11 | unescaping an escaped character followed by more text gives that character followed by the unescape of the rest |
| FormEncoding.Utf8 | services/buses.rb:25 | one to four bytes, each below 256; one byte, the code point itself, exactly when the character is ASCII |
| FormEncoding.Utf8String | services/buses.rb:25 | every byte of a string's UTF-8 encoding is below 256 |
| FormEncoding.EncodeByte | services/buses.rb:25 | an encoded byte uses only letters, digits, `*-._`, `+` and `%` with upper-case hex |
| FormEncoding.EncodeBytes | services/buses.rb:25 | encoded bytes use only the encoded alphabet |
| FormEncoding.EncodeComponent | services/music.rb:43 | `encode_www_form_component`: only the encoded alphabet, so never `&` or `=` |
| FormEncoding.EncodePair | services/music.rb:43 | an encoded `key=value` pair holds no `&` |
| FormEncoding.EncodePairs | services/music.rb:43 | one encoded pair per parameter, in order |
| FormEncoding.EncodeFormEmptyIff | lib/bot/transport.rb:75 | the query string is empty exactly when there are no parameters |
| FormEncoding.EncodeFormSplits | services/buses.rb:25 | splitting the query on `&` gives back the encoded pairs, one per parameter, in order |
| FormEncoding.DecodeEncodeBytes | services/buses.rb:25 | percent-decoding encoded bytes gives the bytes back |
| FormEncoding.DecodeEncodeComponent | services/music.rb:43 | decoding an encoded component gives back its UTF-8 bytes |
| Json.OrElse | lib/bot/music_helpers.rb:13 | `a \|\| b`: `a` when it is truthy, `b` when it is nil or false |
| Json.Lookup | lib/bot/music_helpers.rb:13 | a non-nil value found under a key is the value of some member with that key; a key no member has gives nil |
| Json.LookupDistinct | lib/bot/music_helpers.rb:13 | a member whose name no other member shares is found by its name |
| Json.Get | lib/bot/rec.rb:22 | `j[key]` on a Hash is the lookup; it raises exactly when the value is neither a Hash nor a String |
| Json.Dig2 | lib/bot/music_helpers.rb:21 | `dig(k1, k2)` on a Hash: the inner lookup when the first step gives a Hash, nil when it gives nil |
| Json.Elements | lib/bot/music_helpers.rb:10 | what `(x \|\| []).map` visits: an Array's items, nothing for nil or false; it raises exactly when the value is truthy and neither an Array nor a Hash |
| Json.JoinValuesOfStrings | lib/bot/music_helpers.rb:13 | `Array#join` on JSON strings is the join of the strings |
| Json.JStrs | lib/bot/music_helpers.rb:13 | strings wrapped as JSON strings, one each, in order |
| Seqs.Uniq | services/music.rb:51 | `uniq` keeps exactly the values of the input and is no longer |
| Seqs.UniqFirstOccurrences | services/music.rb:51 | `uniq` has no duplicates and keeps values in the order of their first occurrence |
| Seqs.UniqPrefix | lib/bot/music_helpers.rb:41 | what `uniq` keeps from a prefix comes first, in the same order |
| Seqs.UniqOfDistinct | lib/bot/music_helpers.rb:41 | a list without duplicates comes back from `uniq` unchanged |
| Seqs.FirstIndex | services/music.rb:51 | the first position holding a value: it holds it and no earlier position does |
| Seqs.IndicesWhere | services/news.rb:88-90 | the positions whose flag is set: each is in range and flagged |
| Seqs.IndicesWhereSpec | services/news.rb:88-90 | the flagged positions are listed in strictly increasing order and every flagged position is listed |
| Seqs.IndicesWhereIncreasing | services/news.rb:88-90 | the listed positions increase strictly |
| Seqs.IndicesWhereComplete | services/news.rb:88-90 | every flagged position is listed |
| Seqs.InsertByPermutation | services/news.rb:112 | inserting an element adds exactly that element to the multiset |
| Seqs.InsertBySorted | services/news.rb:112 | inserting into a list ordered by key keeps it ordered |
| Seqs.SortBy | services/news.rb:112 | `sort_by`: the result is ordered by key and is a permutation of the input |
| Seqs.SortedPermutationUnique | services/news.rb:112 | when the keys of the input strictly increase, the only ordered permutation of it is the input itself, so every `sort_by`, whatever order it gives equal keys, returns it unchanged |
| Seqs.SortByOfSorted | services/news.rb:112 | input whose keys strictly increase comes back unchanged |
| Seqs.MapWithIndexSpec | services/news.rb:113 | `map.with_index(from)` succeeds exactly when every call does, and element `k` is the call on element `k` with index `from + k` |
| Seqs.MapWithIndexOfAll | services/news.rb:113 | when every call gives the value wanted at its place, the map gives exactly those values |
| Text.HtmlEscape | lib/bot/util.rb:9-11 | `CGI.escapeHTML` leaves no `<`, `>`, `"` or `'` in the result and never shortens the text |
| Json.ToS | services/music.rb:62 | string interpolation of a JSON value: nil gives "", a String itself, an Array a bracketed text and a Hash a braced one |
| Json.Inspect | lib/bot/rec.rb:24 | `inspect` quotes a String, adding exactly two characters, and brackets an Array and braces a Hash |
| Transport.TrackedAll | lib/bot/transport.rb:104-106 | every piece is sent as a reply tracked in the `:bus` list, one per piece, in order |
| Transport.PriceSuffix | lib/bot/transport.rb:89 | the fare suffix is empty exactly when the connection has no fare |
| Transport.OperatorPart | lib/bot/transport.rb:97 | the operator part is empty exactly when there is no operator |
| Transport.SpecsPart | lib/bot/transport.rb:96 | the specs part is empty exactly when the specs are nil or empty |
| Transport.LegLines | lib/bot/transport.rb:92-100 | one line per leg record, each the line of that record, in order |
| Transport.Block | lib/bot/transport.rb:88-100 | a connection gives one header line plus one line per leg record |
| Transport.RenderedLayout | lib/bot/transport.rb:86-101 | the rendered text has one line per connection and one per leg; connection `k` owns the block of lines after those of the connections before it, numbered `k + 1` |
| Transport.RenderedLength | lib/bot/transport.rb:86-101 | the number of rendered lines is the number of connections plus the number of leg records |
| Transport.RenderedSnoc | lib/bot/transport.rb:87-101 | one more connection appends its header, numbered by its position, and its leg lines |
| Transport.RenderLines | lib/bot/transport.rb:86-101 | the `each_with_index` loop with its inner `each` builds exactly the rendered lines |
| Transport.RenderHeader | lib/bot/transport.rb:88-89 | the header assignment and the fare append give exactly the header line |
| Transport.AppendLegLines | lib/bot/transport.rb:92-100 | the inner loop appends exactly the leg lines |
| Transport.FitDown | lib/bot/transport.rb:104 | the backtracking of `.{1,n}` followed by `(?:\n\|\z)`: the longest length that is followed by a line break or the end, and no longer one within the bound |
| Transport.ScanSpans | lib/bot/transport.rb:104 | every match lies inside the text, from the scan position on, and takes at most `n + 1` characters |
| Transport.MatchEnd | lib/bot/transport.rb:104 | a match ends right after its characters, or one further when a line break follows |
| Transport.ScanSpansOrdered | lib/bot/transport.rb:104 | the matches of `scan` come in order without overlap, and each but the last ends just after a line break |
| Transport.ScanSpansSkip | lib/bot/transport.rb:104 | where no match starts, `scan` moves on by one character |
| Transport.ScanSpansTake | lib/bot/transport.rb:104 | after a match `scan` goes on from its end, and when more matches follow, it ended at a line break |
| Transport.Pieces | lib/bot/transport.rb:104 | each piece is the text of its span |
| Transport.Scan | lib/bot/transport.rb:104 | every piece of `msg.scan` is 1 to `n + 1` characters long and every piece but the last ends in a line break |
| Transport.ScanPiecesShape | lib/bot/transport.rb:104 | the pieces are slices of the text at spans that come in order, without overlap |
| Transport.MatchAtEveryPosition | lib/bot/transport.rb:104 | when no line reaches `n` characters, a match starts at every position |
| Transport.ScanSpansContiguous | lib/bot/transport.rb:104 | when no line reaches `n` characters, the matches cover the text without gaps |
| Transport.PiecesConcat | lib/bot/transport.rb:104 | pieces of contiguous spans, joined, give the covered text back |
| Transport.ScanRoundTrip | lib/bot/transport.rb:103-106 | when no line reaches `n` characters, the chunks sent join back to the whole rendered message: nothing is lost or repeated |
| Transport.DateAnswer | lib/bot/transport.rb:46-50 | a blank answer or "today" in any case gives no date; any other answer that is a date line is kept as it is; an answer is refused exactly when it is none of these |
| Transport.TimeAnswer | lib/bot/transport.rb:57-61 | a blank answer or "now" in any case gives no time; any other answer that is a time line is kept as it is; an answer is refused exactly when it is none of these |
| Transport.Handle | lib/bot/transport.rb:21-121 | a message is handled if and only if the chat's step is not idle; at idle nothing changes and nothing is sent; every step leads to a well-formed session: the origin is known from the destination question on, the destination from the date question on, and so on |
| Transport.OnDateKeepsWellFormed | lib/bot/transport.rb:45-54 | the date step leads to a well-formed session |
| Transport.OnTimeKeepsWellFormed | lib/bot/transport.rb:56-115 | the time step leads to a well-formed session |
| Transport.GroundZeroIgnoresText | lib/bot/transport.rb:27-31 | the opening step reads nothing of the message, and the next step is the origin question with no data |
| Transport.StopsStoredUnchecked | lib/bot/transport.rb:24-43 | origin and destination store the stripped text, with no check (a missing text is stored as ""), and move on |
| Transport.DateRule | lib/bot/transport.rb:45-54 | a refused date re-prompts and leaves the session unchanged; an accepted one is stored and the time is asked for: nothing when blank or "today", the text itself when it is a date line; "13.13.2025" is accepted |
| Transport.TimeRule | lib/bot/transport.rb:56-115 | a refused time re-prompts with nothing changed; an accepted one sends the search URL (without a time when blank or "now", with the text itself when it is a time line), the result texts and then the clear button, and resets the session to idle with no data |
| Transport.ResultTextsNonEmpty | lib/bot/transport.rb:79-111 | a search always sends at least one result message |
| Transport.ScanFindsPiece | lib/bot/transport.rb:104 | a non-empty text always gives at least one piece |
| Transport.ScanSpansReachEnd | lib/bot/transport.rb:104 | from any position before the end, `scan` finds at least one match |
| Transport.HandleRepliesOnBus | lib/bot/transport.rb:26-119 | every reply is tracked in the `:bus` list, and only the last one (the clear button) keeps the previous message |
| Transport.OnPromptRepliesOnBus | lib/bot/transport.rb:27-43 | the replies of the opening, origin and destination steps are tracked in the `:bus` list |
| Transport.OnDateRepliesOnBus | lib/bot/transport.rb:45-54 | the replies of the date step are tracked in the `:bus` list |
| Transport.TrackedRepliesOnBus | lib/bot/transport.rb:104-106 | plain tracked replies are `:bus` replies |
| Transport.OnTimeRepliesOnBus | lib/bot/transport.rb:56-115 | the replies of the time step are tracked in the `:bus` list |
| Transport.SearchRepliesOnBus | lib/bot/transport.rb:77-113 | the URL, the result texts and the clear button, which comes last, are `:bus` replies |
| Transport.RepliesTracked | lib/bot/transport.rb:26-119 | after a step the chat's `:bus` list has grown by exactly the ids of the replies, in order, and no other chat's list changed |
| Transport.UrlAlwaysHasQuery | lib/bot/transport.rb:69-75 | `f` and `t` are always set, so the search URL is never the bare base URL |
| Transport.SessionIn | lib/bot/transport.rb:9 | a chat that has not been seen reads as a well-formed session |
| Transport.BusFlow.SessionOf | lib/bot/transport.rb:9-23 | `BUS_FLOW[chat_id]` is a well-formed session |
| Transport.BusFlow.constructor | lib/bot/transport.rb:9 | the flow starts with no chat |
| Transport.BusFlow.Reset | lib/bot/transport.rb:11-14 | the chat's session becomes idle with no data, and no other chat's session changes |
| Transport.BusFlow.Start | lib/bot/transport.rb:16-19 | the chat's session becomes the opening step with no data, and no other chat's session changes |
| Transport.BusFlow.HandleInput | lib/bot/transport.rb:21-120 | the imperative handler returns the step function's `handled`, stores its next session only when the message was handled, and sends exactly its replies through the messenger |
| Transport.BusFlow.AnswerPrompt | lib/bot/transport.rb:27-43 | the opening, origin and destination branches store the next session and send the replies of `OnPrompt` |
| Transport.BusFlow.AnswerDate | lib/bot/transport.rb:45-54 | the date branch stores the next session and sends the replies of `OnDate` |
| Transport.BusFlow.AnswerTime | lib/bot/transport.rb:56-115 | the time branch stores the next session and sends the replies of `OnTime` |
| Transport.BusFlow.ClearTransportMessages | lib/bot/transport.rb:136-148 | one delete call per id in the chat's `:bus` list, then that list is emptied; no id is consumed |
| Transport.ReadDate | lib/bot/transport.rb:46-47 | accepts exactly the answers `DateAnswer` accepts, with the same value |
| Transport.ReadTime | lib/bot/transport.rb:57-58 | accepts exactly the answers `TimeAnswer` accepts, with the same value |
| Transport.Search | lib/bot/transport.rb:69-113 | sends exactly the search URL, the result texts and the clear button |
| Transport.Results | lib/bot/transport.rb:79-111 | the fetch-and-render block produces exactly `ResultTexts` |
| Messaging.ChidInjective | lib/bot/util.rb:14 | two different chat ids never share a key of the three maps |
| Messaging.PreviousDeletion | lib/bot/messaging.rb:11-24 | unless `suppress_delete`, exactly one deletion, of the chat's recorded last message, when there is one; otherwise none |
| Messaging.SendRecordsLast | lib/bot/messaging.rb:31-32 | a send without `suppress_delete` records its id as the chat's last message; other chats keep theirs |
| Messaging.SendTracksOwnList | lib/bot/messaging.rb:33-38 | a tracked send appends its id to the end of the chosen list of that chat; the other list and other chats' lists are unchanged |
| Messaging.ClearEmptiesOnlyOwnList | lib/bot/messaging.rb:73-84 | clearing empties the chat's list of that bucket and touches no other list and no last-message record |
| Messaging.DeleteCalls | lib/bot/messaging.rb:77-82 | one deletion per tracked id, in order |
| Messaging.Messenger.constructor | lib/bot/messaging.rb:7-9 | the three maps start empty and no API call has been made |
| Messaging.Messenger.DeletePreviousMessage | lib/bot/messaging.rb:11-20 | logs the deletion of the chat's last message when there is one, and changes no map |
| Messaging.Messenger.SendMessage | lib/bot/messaging.rb:23-40 | returns the new message's id; logs the previous-message deletion (unless suppressed) and then the send; updates the maps as `AfterSend` says |
| Messaging.Messenger.Emit | lib/bot/messaging.rb:23-40 | one more send of a series keeps the messenger equal to the effect of all the sends so far |
| Messaging.Messenger.SendEach | lib/bot/messaging.rb:23-40 | sending each of a list of replies, in order, has exactly the effect of those sends on the maps, the call log and the id counter |
| Messaging.Messenger.SendRecommenderClearButton | lib/bot/messaging.rb:60-71 | the clear button is sent without deleting the previous message, tracked in the `:rec` list, and does not become the last message |
| Messaging.Messenger.ClearTracked | lib/bot/messaging.rb:73-84 | one deletion per id of the chat's list, in order, then that list is emptied; no id is consumed |
| Messaging.Plain | lib/bot/messaging.rb:45-56 | `send_message(bot, chat_id, text)` with no options: untracked and deleting the message before it |
| Messaging.Ids | lib/bot/messaging.rb:25 | consecutive message ids from a starting id |
| Messaging.AfterSendsTracked | lib/bot/messaging.rb:33-38 | when every send is tracked in one bucket, that chat's list grows by exactly the new ids, in order, and every other chat's list is unchanged |
| Messaging.WithChunks | lib/bot/messaging.rb:42-57 | a text that fits is sent whole, otherwise the lines are chunked; the texts sent are exactly those of `ChunkTexts`, either as written, flushing even an empty chunk, or with that flush corrected |
| Messaging.ChunkLoop | lib/bot/messaging.rb:48-56 | the `lines.each` loop and its final flush send exactly the chunks of `ChunksFrom` starting from an empty chunk, with or without the empty flush |
| Messaging.ChunksFromBounded | lib/bot/messaging.rb:48-56 | if the chunk so far and every line fit the limit, every text sent fits |
| Messaging.ChunksWithinLimit | lib/bot/messaging.rb:42-57 | when every line fits the limit, no text `with_chunks` sends exceeds it, with or without the empty flush |
| Messaging.ChunksFromJoin | lib/bot/messaging.rb:48-56 | without the empty flush and with no empty line, the chunks joined with line breaks are the chunk so far followed by the remaining lines |
| Messaging.ChunksRoundTrip | lib/bot/messaging.rb:42-57 | without the empty flush, joining the sent texts with line breaks gives back the lines joined with line breaks, when no line is empty |
| Messaging.ChunksFrom | lib/bot/messaging.rb:48-56 | without the empty flush, no chunk the loop sends is empty |
| Messaging.ChunkTexts | lib/bot/messaging.rb:42-57 | without the empty flush, no text `with_chunks` sends is empty unless the whole text is |
| Messaging.EmptyChunkFlushed | lib/bot/messaging.rb:48-54 | as written, a first line as long as the limit makes the loop send an empty message first, and the texts sent no longer join back to the text |
| Messaging.FirstChunkStart | lib/bot/messaging.rb:48-56 | from a non-empty chunk, the first text sent starts with that chunk's first character |
| MusicHelpers.EntriesOf | lib/bot/music_helpers.rb:29-36 | `(data[key] \|\| [])`: an array under the list key gives its items, a missing key gives no entries |
| MusicHelpers.LinksOf | lib/bot/music_helpers.rb:29-36 | the `map` gives one link per entry, each the link of that entry, or fails on an entry whose link lookup raises |
| MusicHelpers.Compact | lib/bot/music_helpers.rb:29-36 | `compact` keeps exactly the non-nil values, and nil is not among them |
| MusicHelpers.FileLinks | lib/bot/music_helpers.rb:27-39 | what one `links += ...` adds holds no nil; a rescued failure adds nothing |
| MusicHelpers.CollectMusicLinks | lib/bot/music_helpers.rb:24-42 | the collected links are the music file's links, then the Spotify file's, with repeats removed |
| MusicHelpers.CollectedLinks | lib/bot/music_helpers.rb:24-42 | the music links come first, in order; a link is collected exactly when one of the files lists it; no link is nil and none repeats; a failing music file leaves the Spotify links alone |
| MusicHelpers.First | lib/bot/music_helpers.rb:46 | with a limit, the first `limit` links; without one, all of them |
| MusicHelpers.Kept | lib/bot/music_helpers.rb:61-62 | the kept lines are never empty and are at most as many as the links |
| MusicHelpers.SendMusicLinks | lib/bot/music_helpers.rb:44-73 | sends exactly the chunks of the kept lines of the first `limit` collected links, each as a plain message |
| MusicHelpers.SendLinkChunks | lib/bot/music_helpers.rb:60-72 | the loop and the final `send_chunk` send exactly the chunks of the kept lines, as plain messages |
| MusicHelpers.TakeLink | lib/bot/music_helpers.rb:60-71 | one turn of the loop: a link whose stripped text is empty is skipped, any other is added to the chunker, and the chunks sent so far plus those still to come stay the same |
| MusicHelpers.AddLine | lib/bot/music_helpers.rb:63-70 | a line that does not fit flushes the chunk before it starts a new one, otherwise it extends the chunk, and the chunks sent so far plus those still to come stay the same |
| MusicHelpers.FlushChunk | lib/bot/music_helpers.rb:51-72 | the final `send_chunk` sends the chunk exactly when it is not empty |
| MusicHelpers.PlainSnoc | lib/bot/music_helpers.rb:53-56 | one more plain send extends the list of plain sends |
| MusicHelpers.ChunkStep | lib/bot/music_helpers.rb:63-70 | one step of the chunker on a kept line |
| MusicHelpers.MusicChunks | lib/bot/music_helpers.rb:44-73 | the chunks joined with line breaks are the kept lines joined with line breaks; no chunk is empty; every chunk fits the 3900-character safe limit whenever every kept line does |
| MusicHelpers.KeptStrings | lib/bot/music_helpers.rb:61-62 | links that are stripped, non-empty strings are sent as exactly those strings |
| MusicHelpers.KeptHead | lib/bot/music_helpers.rb:61-62 | a stripped non-empty first link is kept in front of the rest |
| MusicHelpers.PlainTail | lib/bot/music_helpers.rb:61-62 | the rest of a list of stripped, non-empty links is such a list too |
| MusicHelpers.KeptString | lib/bot/music_helpers.rb:61-62 | a stripped non-empty string link is kept as it is |
| MusicHelpers.KeptAt | lib/bot/music_helpers.rb:60-62 | from position `i` on, a link is kept when its stripped text is not empty and skipped otherwise |
| MusicHelpers.KeptCons | lib/bot/music_helpers.rb:60-62 | the first link is kept when its stripped text is not empty and skipped otherwise |
| MusicHelpers.Names | lib/bot/music_helpers.rb:79-89 | `map { \|a\| a["name"] }` gives one value per artist, each that artist's `name` |
| MusicHelpers.FormatLines | lib/bot/music_helpers.rb:75-93 | fails when the entry list cannot be read; otherwise it gives one line per entry, each that entry's "title — artists — link" |
| MusicHelpers.EntryLinesOk | lib/bot/music_helpers.rb:77-92 | when every entry gives a line, there is one line per entry, in order |
| MusicHelpers.EntryLinesErr | lib/bot/music_helpers.rb:77-92 | a failure comes from an entry whose line raises |
| MusicHelpers.ArtistObjects | lib/bot/music_helpers.rb:79 | one artist object per name |
| MusicHelpers.MusicEntryLine | lib/bot/music_helpers.rb:78-81 | a track with a string title, named artists and a string link gives "title — name1, name2 — link" |
| MusicHelpers.TrackLookups | lib/bot/music_helpers.rb:78-80 | the three members of a music track are found under their own keys |
| MusicHelpers.ArtistsOfTrack | lib/bot/music_helpers.rb:79 | an entry whose `artists` lists objects named by `names` gives the names joined by ", " |
| MusicHelpers.NamesOfArtists | lib/bot/music_helpers.rb:79 | the names of artist objects are the names they carry, as strings |
| Timer.YearLength | services/timer.rb:59-62 | a Gregorian year has 365 days, 366 when it is a leap year |
| Timer.DaysInMonthTable | services/timer.rb:59-62 | `days_in_month`, computed as the first of the next month minus the first of this one, is 31, 30, or 28 for February (29 in a leap year) as the calendar says |
| Timer.DaysInPrevMonth | services/timer.rb:54-57 | `days_in_prev_month` is the length of the month before, between 28 and 31 |
| Timer.WholeHours | services/timer.rb:48 | `((b - a) * 24).to_i`: the whole hours in a difference of seconds, truncated toward zero on both sides of zero |
| Timer.DiffBreakdown | services/timer.rb:29-52 | `diff_breakdown`: after the borrows the months lie in 0..11 and the hours in 0..23 |
| Timer.DiffBreakdownSpec | services/timer.rb:29-52 | years and months together count the calendar months from a's month to b's, one fewer when b's day is before a's; the days are the day difference plus the previous month's length when a month was borrowed; the hours are the whole hours between the instants modulo 24 |
| Timer.DiffDaysBounds | services/timer.rb:38-41 | for valid dates of the proleptic Gregorian calendar the days lie in -2..30 |
| Timer.NegativeDays | services/timer.rb:38-41 | from 31 January to 1 March 2023 the breakdown is 0 years, 1 month, -2 days, 0 hours: borrowing February's length can leave the days negative |
| Timer.Message | services/timer.rb:11-25 | the message has three lines: the title, then the milestone line and the start-to-end breakdown once now is at or past the end, otherwise the start-to-now and now-to-end breakdowns |
| Timer.MessageSpec | services/timer.rb:11-25 | once the end is reached the message no longer depends on the clock |
| Timer.MessageLinesHaveNoBreak | services/timer.rb:11-25 | each of the three lines is free of line breaks, so the lines are the message's lines |
| Rec.ItemsOf | lib/bot/rec.rb:10-19 | the items are the array itself, else the Hash's "items" array, else its "recommendations" array; there are none exactly when the answer has none of these shapes |
| Rec.UnknownShape | lib/bot/rec.rb:18 | the unknown-shape reply wraps the first 1500 characters of the pretty-printed answer in a json code block |
| Rec.FallbackIsFirstTruthy | lib/bot/rec.rb:22-23 | the chained `\|\|` is the first value among the three keys that is neither nil nor false, "?" when none is, and an item that raises on lookup raises |
| Rec.ZeroIsKept | lib/bot/rec.rb:22 | a code of 0 is kept rather than falling through to the id: Ruby treats 0 as true |
| Rec.FirstTruthyKey | lib/bot/rec.rb:22-23 | the position of the first key with a value that is neither nil nor false: every earlier key's value is nil or false |
| Rec.FirstTruthyOfObject | lib/bot/rec.rb:22-23 | on a Hash item the fallback never raises: it is the value of the first truthy key, "?" when there is none |
| Rec.ItemLinesOk | lib/bot/rec.rb:21-25 | without an exception there is one line per item, the k-th built from item k with number from + k |
| Rec.FormatRecs | lib/bot/rec.rb:7-28 | a String answer comes back unchanged; an unknown shape gives the shape message; otherwise the reply fails exactly when an item line fails, and there are min(limit, items) lines, the k-th starting "k+1. ", with "No items returned." exactly when there are no lines, else the lines joined by line breaks |
| Rec.LineNumbered | lib/bot/rec.rb:24 | an item line starts with its number followed by ". " |
| CsvStore.FindRow | lib/bot/csv_store.rb:35 | `find`: the first row whose user_id cell is the id's decimal text; none exactly when no row is the user's |
| CsvStore.WithCity | lib/bot/csv_store.rb:30 | the table after the city update keeps its length |
| CsvStore.WithLastStart | lib/bot/csv_store.rb:24 | the table after the last-start update keeps its length |
| CsvStore.UserTable.constructor | lib/bot/csv_store.rb:14 | the table starts with the rows read from the file |
| CsvStore.UserTable.AddUserIfMissing | lib/bot/csv_store.rb:13-20 | a known user gets a fresh last start; an unknown one gets the row [id, nil, now] appended |
| CsvStore.UserTable.UpdateLastStart | lib/bot/csv_store.rb:22-26 | the loop sets the last start of every row of the user and leaves every other row as it was |
| CsvStore.UserTable.UpdateCity | lib/bot/csv_store.rb:28-32 | the loop sets the city of every row of the user and leaves every other row as it was |
| CsvStore.FindRowAfterUpdate | lib/bot/csv_store.rb:24 | an update that keeps every row's user_id keeps the row each user finds |
| CsvStore.UpdateCitySpec | lib/bot/csv_store.rb:9-11 | after `update_city` a known user reads back the stripped city and is subscribed exactly when it is not blank; other users' city and last start, and the user's own last start, are unchanged; an unknown user's update changes nothing |
| CsvStore.AddUserSpec | lib/bot/csv_store.rb:13-20 | after `add_user_if_missing` the user is known with `now` as last start and keeps their city; a new user has no city, is not subscribed and adds one row; every other user reads what they read before |
| CsvStore.FindRowAppend | lib/bot/csv_store.rb:18 | an appended row is found only by a user who had no row before |
| CsvStore.IntToStringDiffers | lib/bot/csv_store.rb:15 | distinct ids have distinct user_id texts |
| CsvStore.OtherRowUntouched | lib/bot/csv_store.rb:30 | the row another user finds is untouched by a city update |
| CsvStore.CityOf | lib/bot/csv_store.rb:39-42 | an unknown user's city is ""; a city read is already stripped |
| CsvStore.IsSubscribed | lib/bot/csv_store.rb:9-11 | a user is subscribed exactly when their city is not blank, and then the user has a row |
| CsvStore.LastStartOf | lib/bot/csv_store.rb:34-37 | `get_user_last_start`: nil for an unknown user or a nil cell; otherwise the parsed time of the cell, or the parser's error, which propagates |
| CsvStore.LastStartRoundTrip | lib/bot/csv_store.rb:13-20 | after `add_user_if_missing(id, now)` the user's last start reads back as `Time.parse(now)` (or raises as it does), another user's is unchanged, and `update_city` leaves it alone |
| Router.LineEnd | main.rb:134 | where `.+` stops: every character before it on the line is no line break, and it is the end of the text or a line break |
| Router.BackOff | main.rb:134 | the backtracking of the greedy `\s+`: the last position in range where `.+` can start, none exactly when every position in range is a line break |
| Router.CaptureAt | main.rb:134 | a match of `/^w\s+(.+)/i` at a position captures at least one character and no line break |
| Router.CityCommand | main.rb:134-135 | the city of the leftmost match, stripped, holds no line break |
| Router.CityOfSimpleCommand | main.rb:134-135 | "w" or "W", then blanks on the same line, then a city reads as that city, stripped |
| Router.CommandEffects | main.rb:159-231 | every command other than transport has at least one effect |
| Router.CityEffects | main.rb:134-157 | the city is saved, then geocoded; the reply is "Could not geocode the city." exactly when the geocoder found no place |
| Router.CommandsSpec | main.rb:159-231 | after the transport check the routing, with the transport call corrected, raises nothing, keeps the sessions well formed and only appends effects |
| Router.RouteAsWritten | main.rb:89-240 | as written, an update that is not a message with a sender is finished with nothing changed |
| Router.Route | main.rb:89-240 | the routing with the transport call corrected leaves non-messages alone, raises nothing, keeps the sessions well formed, and registers every message's sender before any other effect |
| Router.DispatchSpec | main.rb:89-240 | the dispatch shared by both routings, with the transport call corrected, finishes, keeps the sessions well formed and registers the sender first |
| Router.TransportFirst | main.rb:127-131 | a chat inside the transport flow has its message handled by the flow and nothing else, whatever the text |
| Router.CitySavedFirst | main.rb:134-157 | "w <city>" registers the sender and saves the city before the geocoder and the forecast are asked, so the city is kept whether or not they answer |
| Router.AtIdle | main.rb:118-131 | outside the transport flow the stripped text goes straight to the commands after the sender is registered |
| Router.CommandRouting | main.rb:124-125 | outside the flow and the "w <city>" form, the downcased text picks the command, whose effects follow the registration; the transport command opens the flow at its first step |
| Router.Guards | main.rb:186-227 | timer, report and music ask a user who is not subscribed to subscribe and do nothing else (report and music announce themselves first); the recommender and the broadcast answer "Unauthorized." to a non-admin and run only for an admin |
| Router.TransportSpellings | main.rb:210 | "buses", "/buses", "transport" and "/transport" are one command, in any letter case |
| Router.CallbackRouting | main.rb:92-111 | "rec_clear" and "bus_clear" clear their bucket and answer the callback; any other callback data is ignored |
| Router.TransportCommandRetriesForever | main.rb:211 | as written, the transport command raises ArgumentError after registering the sender, and the retry raises again from the world it left, whatever the collaborators answer |
| Router.TransportCommandStartsFlow | main.rb:211 | with the call corrected, the transport command opens the flow, and the chat's next message is swallowed by the flow, which asks for the origin |
| Router.InFlow | main.rb:128-130 | inside the flow a message the flow handled ends there |
| Config.RubySplit | config.rb:14 | `split(",")`: no piece holds a comma and the trailing empty pieces are gone, so the last piece, if any, is not empty |
| Config.DropTrailingEmpty | config.rb:14 | a prefix of the pieces that does not end in an empty piece, every dropped piece being empty |
| Config.AdminIds | config.rb:14 | one admin entry per piece of the split, each stripped |
| Config.AdminIdsOfList | config.rb:14 | a comma-joined list of ids, padded with spaces, reads back as the stripped ids in order |
| Config.EmptyAdminList | config.rb:14 | an empty ADMIN_ID gives no admin, so nobody is authorised |
| Config.WeatherGroupsListsEveryGroup | config.rb:44-52 | the groups table lists every group with its own code list |
| Config.GroupsDisjoint | config.rb:36-42 | no code is in two groups |
| Config.DescribedIffGrouped | config.rb:22-42 | a code has a description exactly when it is in some group |
| Config.NotesNonEmpty | config.rb:54-62 | every group has a non-empty note |
| Weather.DescribeCode | services/weather.rb:89-91 | the table's description of the code, "Unknown weather" for a code the table lacks or no code at all |
| Weather.FindGroup | services/weather.rb:95 | `Hash#find`: none exactly when no list holds the code; otherwise a group whose list holds it |
| Weather.GroupForSpec | services/weather.rb:93-96 | `group_for` names a group exactly when that group's list holds the code, and nil exactly when no group's list does |
| Weather.NoteForGroup | services/weather.rb:98-100 | the group's note, and "" exactly when there is no group |
| Weather.DescriptionLine | services/weather.rb:116 | the description alone when there is no tip, otherwise the description, a dash and the tip |
| Weather.WeatherLines | services/weather.rb:115-121 | `format_weather` has five lines |
| Weather.FormatWeather | services/weather.rb:104-122 | when the place name and values hold no line break, splitting the text at line breaks gives the header, the description line's lines, then the temperature, humidity and code lines |
| Weather.FormatWeatherLines | services/weather.rb:104-122 | the same split, stated on the joined lines |
| Weather.CodeTextHasNoBreak | services/weather.rb:119 | the interpolated code holds no line break |
| Music.FindTrack | services/music.rb:30 | the leftmost place at or after `from` where "track/" is followed by a letter or digit; none exactly when there is no such place |
| Music.SeedIdOfTrackLink | services/music.rb:30 | a link whose first "track/" is followed by an id of letters and digits, then a character that is neither, gives that id |
| Music.FindTrackAt | services/music.rb:30 | a match with none before it is the one found |
| Music.NoTrackInAlnum | services/music.rb:30 | a string of letters and digits contains no "track/" match, so an id is kept whole |
| Music.SeedIdIdempotent | services/music.rb:30-31 | extracting the id of an extracted id changes nothing, so seeds may be given as links or as bare ids |
| Music.SeedIds | services/music.rb:31-32 | one extracted id per seed, in order |
| Music.Find | services/music.rb:38 | `h[k]`: a value found is stored under `k`; none exactly when no entry has the key |
| Music.FindAt | services/music.rb:38 | an entry with no earlier entry under its key is what the lookup finds |
| Music.NewEntries | services/music.rb:38 | the entries added by `merge` come from the caller's table and have keys the defaults lack |
| Music.NewEntriesDistinct | services/music.rb:38 | the added entries have distinct keys |
| Music.MergeSpec | services/music.rb:38 | `merge` keeps the defaults' keys first and in order, keeps keys distinct, and reads the caller's value wherever the caller gave one and the default otherwise |
| Music.MergeDistinct | services/music.rb:38 | merging two tables with distinct keys gives distinct keys |
| Music.MergeFind | services/music.rb:38 | a key reads the caller's value when the caller has it, otherwise the default |
| Music.DefaultFeatureKeysDistinct | config.rb:82-93 | the ten default feature names are distinct |
| Music.Pairs | services/music.rb:35-36 | one `[key, id]` pair per id, in order |
| Music.AppendPairs | services/music.rb:35-36 | the loop appends one `[key, id]` pair per id, in order, to the parameters so far |
| Music.AppendEntries | services/music.rb:38-40 | the loop appends the merged entries, in order |
| Music.BuildParams | services/music.rb:29-40 | the parameters are the size, the extracted seed ids, the extracted negative ids and the merged features |
| Music.ParamsSpec | services/music.rb:34-40 | the list opens with the size, then one "seeds" pair per seed id in order, then one "negativeSeeds" pair per negative id in order, and ends with the merged features |
| Music.FeaturesSpec | services/music.rb:38 | the features sent are the default names in order, then the caller's new names; each carries the caller's value when given and the default otherwise |
| Music.RequestUrlSplits | services/music.rb:42-43 | the URL is the API base, "?", then a query that splits on "&" into one encoded pair per parameter, in order |
| Music.Answer | services/music.rb:46-47 | the request succeeds exactly when the status is "200", and then gives the parsed body |
| Music.TrackOf | services/music.rb:26 | `[t["trackTitle"], t["href"]]` of a Hash; it raises exactly when the entry is neither a Hash nor a String |
| Music.TracksOf | services/music.rb:26 | the map succeeds exactly when every entry does, giving one pair per entry in order |
| Music.ExtractTracks | services/music.rb:25-27 | no content gives no tracks; a content array gives the map over its entries |
| Music.ExtractTracksOfContent | services/music.rb:25-27 | a content document gives back each entry's title and link, in order |
| Music.SentSeedsSpec | services/music.rb:51-55 | the seeds sent are the first five distinct ids given (or of `MUSIC_SEEDS`), each taken from the input: capping at ten first changes nothing |
| Music.TrackLines | services/music.rb:62 | one "title - link" line per track |
| Music.FetchMessage | services/music.rb:46-63 | a status other than "200" raises; a message returned reports the number of extracted tracks and the file on its first line |
| Music.FetchMessageSpec | services/music.rb:50-64 | a failed request raises; otherwise the message reports the track count and the file, then the first five "title - link" lines |
| Music.SeedId | services/music.rb:30 | a seed holding a track link gives a non-empty id of letters and digits; the id is never longer than the seed |
| Music.Merge | services/music.rb:38 | `merge` keeps every key of the defaults in place, in their order, before any new key |
| Music.Seeds | services/music.rb:51 | at most ten seeds, no two alike, each one of the given ids (or of the default seeds), in the order of their first occurrence |
| News.TokenAt | services/news.rb:53 | `([A-Za-z0-9_\-]+)` at a position: the longest run of token characters there, present exactly when a token character starts there |
| News.FirstSomeIsFirst | services/news.rb:53 | the leftmost match is found: no earlier start matches, and there is none exactly when no start matches |
| News.LastSomeIsLast | services/news.rb:59 | greedy backtracking takes the last place that matches: no later one does, and there is none exactly when none does |
| News.AtCharsetParam | services/news.rb:53 | `charset=` (any letter case) followed directly by a token gives where the token starts |
| News.AtMetaParam | services/news.rb:59 | `charset=`, an optional quote, then a token gives where the token starts |
| News.AtMetaTag | services/news.rb:59 | `<meta[^>]*charset=...` at a position gives where a token starts |
| News.AtContentAttr | services/news.rb:62 | `content=` with a quote, then `[^"']*charset=` and a token, gives where a token starts |
| News.AtEquivAttr | services/news.rb:62 | the `http-equiv="content-type"` attribute followed by the content attribute gives where a token starts |
| News.AtEquivTag | services/news.rb:62 | `<meta[^>]*http-equiv=...` at a position gives where a token starts |
| News.Capture | services/news.rb:54 | the captured group is a token occurring where the match put it |
| News.CharsetFromContentType | services/news.rb:51-55 | no header gives no charset; a charset found is a token that occurs in the header |
| News.CharsetFromContentTypeSpec | services/news.rb:51-55 | the header's charset is the longest token right after the leftmost "charset=" (any case) that a token follows; there is none exactly when no "charset=" is followed by a token |
| News.QuotedHeaderCharsetIgnored | services/news.rb:53 | a quoted parameter, `charset="utf-8"`, legal in a Content-Type header, gives no charset |
| News.DetectHtmlMetaCharset | services/news.rb:57-66 | a charset found is a token that occurs in the first 4000 bytes |
| News.DetectHtmlMetaCharsetSpec | services/news.rb:57-66 | there is no charset exactly when neither the direct nor the http-equiv form matches anywhere in the first 4000 bytes; bytes after the first 4000 never change the answer |
| News.MetaParamsLast | services/news.rb:59 | backtracking over a `[^>]*` run takes the last position of the run where the charset parameter matches |
| News.MetaParamsNone | services/news.rb:59 | backtracking over the run fails exactly when the charset parameter matches nowhere in it |
| News.AtMetaTagSpec | services/news.rb:59 | `<meta[^>]*charset=...` matches only where `<meta` is, captures what the last charset parameter in the run of non-`>` characters captures, and fails exactly when none starts in that run |
| News.SchemeEnd | services/news.rb:121 | where the scheme of an href ends, when it starts with one: a letter, then letters, digits, `+`, `-` or `.`, then the colon |
| News.Absolutize | services/news.rb:120-124 | `URI(href)` raising makes `absolutize` raise the same error; an href without a scheme is what `URI.join` makes of it, raising when it raises; an href with a scheme is what `URI(href).to_s` gives |
| News.AbsolutizeSpec | services/news.rb:120-124 | when `URI(...).to_s` keeps a scheme and is idempotent on absolute URLs, absolutizing an absolute href gives a URL that a second pass, against any base and any join, leaves alone |
| News.ListedFlags | services/news.rb:91 | one flag per link, set exactly when its stripped text and its href are not empty |
| News.ListedIndices | services/news.rb:88-91 | each listed position is in range and its link is kept |
| News.ListedIndicesSpec | services/news.rb:88-91 | exactly the kept links' positions are listed, in increasing order |
| News.Dictionary | services/news.rb:87-97 | no more entries than links |
| News.ListedIndicesSnoc | services/news.rb:88-91 | one more link adds its position exactly when it is kept |
| News.DictionarySnoc | services/news.rb:88-95 | one more link adds its entry exactly when it is kept |
| News.DictionaryStep | services/news.rb:89-94 | the loop step: the link at `idx` adds the entry "Article<idx+1>" with its stripped text and absolute link when text and href are not empty, and nothing otherwise |
| News.FailureStep | services/news.rb:89-93 | the loop step for errors: an earlier error stays; otherwise the link at `idx` raises exactly when it is kept and its href does not resolve |
| News.FailurePrefix | services/news.rb:87-95 | once a prefix of the links has raised, the whole loop raises that same error |
| News.ArticleKeyInjective | services/news.rb:94 | keys of distinct positions are distinct |
| News.DictionarySpec | services/news.rb:82-98 | the saved keys are distinct; a link has an entry exactly when it is kept, under "Article<its position + 1>", so skipped links leave gaps; every name is stripped and not empty; when nothing raised, each entry's link is what its href resolves to |
| News.FailureNone | services/news.rb:87-95 | the loop raises nothing exactly when every kept link's href resolves |
| News.FailureFirst | services/news.rb:87-95 | when the loop raises, the error is the one of the first kept link whose href does not resolve |
| News.FetchedDictionarySpec | services/news.rb:82-98 | `fetch_as_dictionary` succeeds exactly when every kept link resolves, and then returns the dictionary; otherwise it raises the error of the first kept link that does not |
| News.FetchAsDictionary | services/news.rb:82-98 | the loop over the first `max_items` links builds exactly the dictionary of those links, or raises the first error `absolutize` raises |
| News.FirstDigitFrom | services/news.rb:112 | where `/\d+/` finds its first digit: a digit, or the end, with no digit before it |
| News.KeyNumberSpec | services/news.rb:112 | `k[/\d+/].to_i` is the value of the first maximal run of digits |
| News.KeyNumberNoDigit | services/news.rb:112 | a key without digits sorts as 0 |
| News.ArticleKeyNumber | services/news.rb:94 | the key "Article<n>" sorts by n |
| News.Names | services/news.rb:112 | the member names of the saved object, in order |
| News.SummaryLine | services/news.rb:114-116 | the line of a saved entry raises exactly when the entry is neither a Hash nor a String |
| News.SummaryKeys | services/news.rb:112-113 | min(limit, number of distinct keys) keys are shown, without repeats, ordered by number, each a saved key, and no saved key left out has a smaller number than a shown one |
| News.SummaryLines | services/news.rb:110-118 | a saved file that is not a Hash raises; otherwise the lines succeed exactly when every shown entry can be indexed, and line k is the line of the k-th key numbered k + 1 |
| News.DictionaryKeys | services/news.rb:94 | the saved dictionary's keys are distinct and their numbers strictly increase |
| News.ArticleLine | services/news.rb:116 | a saved article's line is "i. name — link" |
| News.ArticleLines | services/news.rb:113 | one wanted line per shown article |
| News.SortedKeysKept | services/news.rb:112 | keys whose numbers strictly increase are kept in their order by `keys.sort_by` |
| News.LinesOfArticles | services/news.rb:113-117 | with distinct keys each saved article's line shows its own name and link |
| News.SummaryOfSorted | services/news.rb:110-118 | saved articles whose key numbers strictly increase are listed, the first `limit` in order, renumbered from 1 |
| News.SummaryOfDictionary | services/news.rb:82-118 | summarising a scraped dictionary lists its first `limit` articles in link order, renumbered from 1 whatever gaps the keys have |
| Report.SchemeEnd | lib/bot/report.rb:48 | where `https?:\/\/` ends when it matches at a position, the optional `s` tried first |
| Report.UrlFrom | lib/bot/report.rb:48 | `\s+—\s+(https?:\/\/\S+)` tried where the title would end gives the dash and the URL's span, in order, inside the line |
| Report.UrlAfterDash | lib/bot/report.rb:48 | `\s+(https?:\/\/\S+)` after the dash gives the URL's span after it |
| Report.UrlFromSound | lib/bot/report.rb:48 | what is found is the URL part of the pattern, and its `\S+` takes every non-space character it can |
| Report.TitleFrom | lib/bot/report.rb:48 | the lazy `(.+?)`: the title end found is at or after the first one tried, followed by the dash and the URL |
| Report.TitleFromSound | lib/bot/report.rb:48 | the title found is one line, and the URL part follows it |
| Report.TitleBack | lib/bot/report.rb:48 | the `\s*` after the dot giving back one character at a time: the title starts within the spaces tried |
| Report.TitleBackSound | lib/bot/report.rb:48 | each piece found by backing off is a piece of a match |
| Report.MatchAt | lib/bot/report.rb:48 | the pattern tried at a position: the pieces it marks start there and are ordered inside the line |
| Report.MatchAtSound | lib/bot/report.rb:48 | at a line start, what is found is a match of the whole pattern with a maximal URL |
| Report.Search | lib/bot/report.rb:48 | `=~`: the leftmost match at or after the position, its pieces ordered |
| Report.SearchSound | lib/bot/report.rb:48 | whatever the search finds is a match of the pattern, with a maximal URL |
| Report.NewsMatchSpec | lib/bot/report.rb:48-50 | `$1` is one line of at least one character; `$2` starts with http:// or https:// and holds no space |
| Report.NewsMatchOf | lib/bot/report.rb:49-50 | `$1` and `$2` are the slices the match marks |
| Report.SummaryMatchAt | lib/bot/report.rb:48 | the pattern matches a line laid out as "N. name — link" at its start, with the lazy title stopping exactly at the end of the name |
| Report.TitleEndsAtName | lib/bot/report.rb:48 | no title end inside the name lets the URL part match, so the lazy title reaches the end of the name |
| Report.NoUrlInsideName | lib/bot/report.rb:48 | the URL part cannot start inside a name without a dash |
| Report.UrlAfterName | lib/bot/report.rb:48 | after the name, " — " and a link with a scheme, the URL part matches and takes the whole link |
| Report.NumberedLineMatch | lib/bot/report.rb:48-50 | the pattern reads the title and the URL back from a numbered line |
| Report.SummaryLineShape | services/news.rb:116 | "N. name — link" has the numbered shape, with the name and the link where the title and the URL are read |
| Report.LaidOutLineMatch | lib/bot/report.rb:48-50 | a line "N. name — link" yields exactly the name and the link |
| Report.SummaryLineMatch | lib/bot/report.rb:48-50 | a line as the news summary writes it yields the name and the link, when the name is one line without a dash or spaces at its ends and the link has a scheme and no space |
| Report.SummaryLineRendered | lib/bot/report.rb:47-51 | such a line becomes the bulleted link `• <a href="link">name</a>` with both parts escaped |
| Report.LineWithoutDash | lib/bot/report.rb:52-53 | a line without a dash is only escaped |
| Report.RenderLines | lib/bot/report.rb:47-55 | one rendered line per news line, in order |
| Report.RenderLineNewlines | lib/bot/report.rb:47-55 | a rendered line holds a line break only if its source line did |
| Report.AnchorNewlines | lib/bot/report.rb:51 | the bulleted link of a one-line title and URL is one line |
| Report.NewsBlock | lib/bot/report.rb:36-56 | a failed or empty summary gives the placeholder; otherwise, when no summary line holds a line break, the block's lines are the rendered news lines, one each, in order |
| Report.RenderLine | lib/bot/report.rb:47-55 | a summary line is rendered as a link, starting "• <a href=\"", exactly when it has the "n. title — url" shape |
| Report.RepliesDistinct | lib/bot/report.rb:9-15 | the three early replies differ from each other and none opens with a bold tag |
| Report.BodyOpensBold | lib/bot/report.rb:58-59 | the report body opens with a bold tag |
| Report.BuildReport | lib/bot/report.rb:7-17 | the guards run in order: the city is asked for exactly when it is empty, "not found" exactly when the city is set but no place was found, "not responding" exactly when the place is set but no forecast came, and a bold body exactly when all three are present, whatever the music and news sources did |
| Report.MarkupAround | lib/bot/util.rb:9-11 | an escaped text between two pieces adds nothing to their markup |
| Report.PicksMarkup | lib/bot/report.rb:64-68 | the markup of the music part is that of its fixed pieces, whatever the picks hold |
| Report.BodyMarkup | lib/bot/report.rb:58-68 | the weather text and the three music lines are escaped where they are inserted, so the body's markup is that of its fixed pieces with the news block's in its place |

## Left out

- Telegram Bot API: `send_message`, `delete_message` and `answer_callback_query` are modelled as entries of a call log, and a sent message gets its id from a counter. Keyboard markup, parse modes and the API's own failures are not modelled; a failed deletion is rescued by the source, so a deletion is just a logged call.
- HTTP: `Net::HTTP`, HTTParty, the retry-and-sleep loop of `Weather.get_json` and the geocoder's Open-Meteo then Nominatim fallback are network I/O. Their answers are inputs: the connection boxes or the exception class, the geocoded place, the forecast's current record, the recommender's status code and parsed body.
- `News.http_get_utf8` (services/news.rb:17-49) is left out. It re-encodes bytes to UTF-8, which is network I/O and library transcoding. The page's bytes are read one character per byte.
- `fetch_and_save` and `read_saved` in services/news.rb are file I/O. The saved dictionary is an input.
- Files: the CSV user table, the music and Spotify JSON files and the saved news are in-memory values. CSV quoting and `CSV.table`'s conversion of numeric cells are not modelled; user ids are compared as their decimal text.
- Nokogiri CSS selection: a connection box and each of its legs is a record of already-selected optional texts. The primary and fallback leg selectors of services/buses.rb become "the first one present", and a news page is its list of anchors.
- Nokogiri's `doc.to_html` (services/buses.rb:60) is not modelled. The date-and-time fallback searches the page text it is given, where the source searches Nokogiri's re-serialisation of the parsed page.
- `JSON.parse` and `JSON.pretty_generate`: parsed values are the `Json` datatype, and the pretty-printed text used by `format_recs` is a parameter.
- `URI(href).to_s` and `URI.join(base, href).to_s` are left out as library codecs (section 5.2 of RFC 3986). `News.Absolutize` takes them as the parameters `uri` and `join`, each of which may raise, and an error from either propagates out of `fetch_as_dictionary`. Scheme lowercasing and the removal of a default port happen inside them and are not modelled.
- Seqs.SortBy: the order of elements with equal keys is the model's choice (stable). Ruby's `sort_by` does not promise one. Every property built on it assumes strictly increasing keys, where `Seqs.SortedPermutationUnique` shows any sort agrees.
- Json.Inspect: a Hash member is written `"k" => v`, as Ruby 3.4 does; older Rubies write `"k"=>v`. Quotes and backslashes inside strings are not escaped.
- `URI()` and `CGI.parse` on the query URL are left out as library codecs. The model takes the `date` and `time` values they yield, or the error `URI()` raises.
- `CGI.escapeHTML` and `URI.encode_www_form` are modelled in full, as `Text` and `FormEncoding`. The latter follows section 5.2 of the WHATWG URL Standard.
- `Text.Downcase`: `String#downcase` and the `/i` flag are modelled on ASCII letters only. Ruby also folds non-ASCII letters, which none of the compared literals contain.
- Randomness: `tracks.sample` in `random_music_song` and `random_spotify_song` is not modelled. The three music picks of the report are inputs.
- `Time.parse` in `get_user_last_start` is a parameter of `CsvStore.LastStartOf`. Any error it returns, such as Ruby's ArgumentError on a malformed or empty cell, propagates; what it accepts and the time it builds are not modelled.
- Clock: `Time.now` and `DateTime.now` are parameters: the timestamp of the user table and the timer's `now`.
- Timer.DateTime: the fraction of a second is not modelled. `DateTime.now` carries one, so when the time to the end is a whole number of hours plus a fraction, Ruby's `to_i` gives one hour fewer than the model's `Timer.WholeHours` in the "until" line.
- Timer.DateTime: the calendar is proleptic Gregorian. Ruby's `Date` and `DateTime` switch from the Julian calendar on 15 October 1582 (October 1582 has 21 days), so the month lengths, and the day bound of `Timer.DiffDaysBounds`, hold only for dates after that reform.
- lib/bot/rec.rb is modelled only in part. `send_health_then_request` and `run_recommender_for` are HTTP requests, sleeps and sends; the router records them as one effect each. Only `format_recs` is modelled.
- Scheduling and process lifetime are not modelled. This covers the rufus-scheduler cron jobs, the `listen` loop's sleep-and-retry, the SSL-error rescue, `warn`/`puts` logging, the bot's start-up, the keyboard, and the creation of the CSV file.
- services/spotify.rb is not part of this model. It is browser automation.
- lib/bot/broadcast.rb is not part of this model. It is a scheduled fan-out with sleeps; the router records the broadcast as one effect.
- lib/bot/http.rb is not part of this model. It is a thin HTTP wrapper.
- lib/bot/bot.rb and lib/bot/util.rb are module wiring. The only piece modelled is `Util.chid`, as `Messaging.Chid`.
- Floating-point values are kept as opaque text: temperature, wind, humidity and the music feature defaults are passed through as the strings Ruby's interpolation would give.
- The emoji in config.rb and services/weather.rb are stored as mis-decoded UTF-8. They are kept character for character, and no proof looks inside them.
- config.rb constants that no modelled logic reads (tokens, file paths, API hosts) are left out.
- Transport.ScanRoundTrip: the pieces of `scan` are proved to join back to the text only when no line reaches the size `N`. With a longer line the regex skips characters; `Transport.Scan` and `Transport.ScanPiecesShape` then state only the pieces' lengths and their order.

## Findings

| source | as written | input that shows it | evidently intended | confidence | as-written member | corrected member |
|---|---|---|---|---|---|---|
| main.rb:211 | `start_bus_flow(bot, message.chat.id)` passes two arguments to a method defined with one (lib/bot/transport.rb:16). Ruby raises ArgumentError, and the `rescue => e ... retry` at main.rb:236-239 re-runs the same update, which raises again, forever. | the message "buses" (or "/buses", "transport", "/transport") from any chat outside the flow | `start_bus_flow(message.chat.id)`: open the flow at its first step | not executed | Router.TransportCommandRetriesForever | Router.TransportCommandStartsFlow |
| lib/bot/messaging.rb:50-52 | The flush test does not check that the chunk is non-empty. When the first line alone is at least `TELEGRAM_MAX_CHARS` long and the whole text is over the limit, an empty message is sent first, and the sent texts no longer join back to the text. | lines ["x" repeated 4096 times, "y"] | flush only a non-empty chunk | not executed | Messaging.EmptyChunkFlushed | Messaging.ChunksRoundTrip |
