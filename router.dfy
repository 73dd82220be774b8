/** The `bot.listen` block of `main.rb`: how one update from Telegram is
    routed. The collaborators' answers for the update (admin list, clock,
    transport fetch, geocoder, forecast) are inputs; the outcome is the new
    user table and transport sessions, and the ordered list of effects the
    update has on the outside world. */
module Router {
  import opened Wrappers
  import opened Text
  import opened Config
  import opened CsvStore
  import opened Buses
  import opened Messaging
  import opened Transport
  import Weather

  datatype Update =
    | CallbackQuery(data: string, chat: int)
    | Message(chat: int, from: Option<int>, text: Option<string>)
    | OtherUpdate

  /** What the collaborators answer while the update is handled: the
      `ADMIN_ID` environment string, `Time.now.utc.iso8601`, what
      `handle_bus_flow_input` did with the message (its answer, the chat's
      next session and what it sent), the geocoded place's name and the
      current weather. */
  datatype Env = Env(adminEnv: string, now: string, flow: Reaction,
                     place: Option<string>, current: Option<Weather.Current>)

  datatype Effect =
    | RegisterUser(id: int)                  // add_user_if_missing
    | RunTransport(outs: seq<Outgoing>)      // handle_bus_flow_input and what it sends
    | SaveCity(id: int, city: string)        // update_city
    | Geocode(city: string)
    | Forecast
    | Reply(reply: Reply)                    // send_message
    | ClearRecommender                        // clear_recommender_messages
    | ClearTransport                          // clear_transport_messages
    | AnswerCallback                          // answer_callback_query(text: "Cleared ✅")
    | StartTransport                          // start_bus_flow
    | SendTimer                               // Timer.message
    | SendReport(id: int)                     // build_fresh_report_for
    | SendMusic                               // send_music_links(limit: nil)
    | RunRecommender(id: int)                 // run_recommender_for
    | BroadcastReports                        // broadcast_daily_reports

  /** The state the routing reads and writes: the users file and `BUS_FLOW`. */
  datatype World = World(users: seq<Row>, sessions: map<int, Session>)

  predicate ValidWorld(w: World) {
    ValidSessions(w.sessions)
  }

  /** The update was handled, or it raised `error` after the given effects;
      the world is the one the effects left behind. */
  datatype Outcome =
    | Done(world: World, effects: seq<Effect>)
    | Raised(world: World, effects: seq<Effect>, error: string)

  // ---------------------------------------------------------------------------
  // Texts

  /** The replies the routing sends itself. */
  datatype Reply =
    | NoGeocode | NoWeather | Welcome | WelcomeBack(city: string) | SubscribeHint | PleaseSubscribe
    | Calling | Unauthorized | Generating | Loading | Broadcasting | TypeStart
    | Subscribed(city: string, place: string, current: Weather.Current)

  /** The text of a reply. */
  function ReplyText(r: Reply): string {
    match r
    case NoGeocode => NoGeocodeText
    case NoWeather => NoWeatherText
    case Welcome => WelcomeText
    case WelcomeBack(city) => WelcomeBackText(city)
    case SubscribeHint => SubscribeHintText
    case PleaseSubscribe => PleaseSubscribeText
    case Calling => CallingText
    case Unauthorized => UnauthorizedText
    case Generating => GeneratingText
    case Loading => LoadingText
    case Broadcasting => BroadcastingText
    case TypeStart => TypeStartText
    case Subscribed(city, place, current) => SubscribedText(city, Weather.FormatWeather(place, current))
  }

  const ClearedText: string := "Cleared \U{2705}"
  const NoGeocodeText: string := "Could not geocode the city."
  const NoWeatherText: string := "Weather API is not available."
  const WelcomeText: string := "\U{1F44B} Welcome!\nTo *subscribe* and receive daily reports, set your city:\n`w <city>` (e.g. `w London`)\n\nAfter that, you\U{2019}ll get broadcasts automatically."
  const SubscribeHintText: string := "To subscribe, send: `w <city>` (e.g., `w London`)."
  const PleaseSubscribeText: string := "Please subscribe first: `w <city>`"
  const CallingText: string := "Calling test site..."
  const UnauthorizedText: string := "Unauthorized."
  const GeneratingText: string := "Generating report..."
  const LoadingText: string := "Loading link..."
  const BroadcastingText: string := "Broadcasting..."
  const TypeStartText: string := "Type start"

  function WelcomeBackText(city: string): string {
    "\U{1F44B} Welcome back!\nYou're subscribed for *" + city + "*.\n\nUse the buttons below or type `report`."
  }

  function SubscribedText(city: string, weather: string): string {
    "\U{2705} Subscribed for *" + city + "*.\n\n" + weather
  }

  // ---------------------------------------------------------------------------
  // raw_text =~ /^w\s+(.+)/i

  /** The end of the line holding `j`: `.+` stops before "\n". */
  function LineEnd(s: string, j: nat): (r: nat)
    requires j <= |s|
    ensures j <= r <= |s|
    ensures forall k :: j <= k < r ==> s[k] != '\n'
    ensures r == |s| || s[r] == '\n'
    decreases |s| - j
  {
    if j < |s| && s[j] != '\n' then LineEnd(s, j + 1) else j
  }

  /** Backtracking of the greedy `\s+`: the largest `k` in `lo..j` at which
      `.+` can start. */
  function BackOff(s: string, j: nat, lo: nat): (r: Option<nat>)
    requires j <= |s|
    ensures r.Some? ==> lo <= r.value <= j && r.value < |s| && s[r.value] != '\n'
    ensures r.None? ==> forall k :: lo <= k <= j && k < |s| ==> s[k] == '\n'
    decreases j
  {
    if j < lo then None
    else if j < |s| && s[j] != '\n' then Some(j)
    else if j == 0 then None
    else BackOff(s, j - 1, lo)
  }

  /** The capture of the match that starts at `p`, if one does. */
  function CaptureAt(s: string, p: nat): (r: Option<string>)
    requires p <= |s|
    ensures r.Some? ==> '\n' !in r.value && |r.value| >= 1
  {
    if LineStart(s, p) && p + 1 < |s| && (s[p] == 'w' || s[p] == 'W') && IsRegexSpace(s[p + 1]) then
      match BackOff(s, RunEnd(s, p + 1, IsRegexSpace), p + 2)
      case None => None
      case Some(k) =>
        var e := LineEnd(s, k);
        assert forall i :: 0 <= i < e - k ==> s[k..e][i] == s[k + i];
        Some(s[k..e])
    else None
  }

  /** `Regexp.last_match(1).strip` of the leftmost match at or after `p`. */
  function CityCommand(s: string, p: nat): (r: Option<string>)
    requires p <= |s|
    ensures r.Some? ==> '\n' !in r.value
    decreases |s| - p
  {
    if p == |s| then None
    else
      match CaptureAt(s, p)
      case Some(c) => StripNoBreak(c); Some(Strip(c))
      case None => CityCommand(s, p + 1)
  }

  lemma StripNoBreak(c: string)
    requires '\n' !in c
    ensures '\n' !in Strip(c)
  {
    var l := StripLeft(c);
    assert forall i :: 0 <= i < |l| ==> l[i] == c[|c| - |l| + i];
    var r := StripRight(l);
    assert forall i :: 0 <= i < |r| ==> r[i] == l[i];
    assert Strip(c) == r;
  }

  /** "w", then blanks, then a city on the same line reads as that city,
      stripped. */
  lemma CityOfSimpleCommand(w: char, blanks: string, city: string)
    requires w == 'w' || w == 'W'
    requires |blanks| >= 1 && forall i :: 0 <= i < |blanks| ==> IsRegexSpace(blanks[i]) && blanks[i] != '\n'
    requires |city| >= 1 && !IsRegexSpace(city[0]) && '\n' !in city
    ensures CityCommand([w] + blanks + city, 0) == Some(Strip(city))
  {
    var s := [w] + blanks + city;
    var q := |blanks| + 1;
    assert s[1] == blanks[0];
    assert forall k :: 1 <= k < q ==> s[k] == blanks[k - 1];
    assert s[q] == city[0];
    RunEndAt(s, 1, q, IsRegexSpace);
    assert BackOff(s, q, 2) == Some(q);
    LineEndAt(s, q);
    assert s[q..|s|] == city;
  }

  lemma {:induction false} LineEndAt(s: string, j: nat)
    requires j <= |s| && forall k :: j <= k < |s| ==> s[k] != '\n'
    ensures LineEnd(s, j) == |s|
    decreases |s| - j
  {
    if j < |s| {
      LineEndAt(s, j + 1);
    }
  }

  // ---------------------------------------------------------------------------
  // case text

  datatype Command = Start | Subscribe | TimerCmd | Recommender | Report | Buses | Music | Broadcast | Unknown

  function CommandOf(text: string): Command {
    if text == "/start" || text == "start" then Start
    else if text == "subscribe" || text == "/subscribe" then Subscribe
    else if text == "timer" || text == "/timer" then TimerCmd
    else if text == "recommender" || text == "/recommender" then Recommender
    else if text == "report" || text == "/report" then Report
    else if text == "buses" || text == "/buses" || text == "transport" || text == "/transport" then Buses
    else if text == "music" || text == "/music" then Music
    else if text == "broadcast 4 all" || text == "/broadcast" then Broadcast
    else Unknown
  }

  /** The effects of a command other than the transport one, given whether
      the sender is subscribed (with `city`) and whether they are an admin. */
  function CommandEffects(cmd: Command, id: int, subscribed: bool, city: string, admin: bool): (r: seq<Effect>)
    requires cmd != Buses
    ensures |r| >= 1
  {
    match cmd
    case Start => if subscribed then [Reply(WelcomeBack(city))] else [Reply(Welcome)]
    case Subscribe => [Reply(SubscribeHint)]
    case TimerCmd => if subscribed then [SendTimer] else [Reply(PleaseSubscribe)]
    case Recommender => if admin then [Reply(Calling), RunRecommender(id)] else [Reply(Unauthorized)]
    case Report => if subscribed then [Reply(Generating), SendReport(id)] else [Reply(Generating), Reply(PleaseSubscribe)]
    case Music => if subscribed then [Reply(Loading), SendMusic] else [Reply(Loading), Reply(PleaseSubscribe)]
    case Broadcast => if admin then [Reply(Broadcasting), BroadcastReports] else [Reply(Unauthorized)]
    case Unknown => [Reply(TypeStart)]
  }

  /** The "w <city>" handler: the city is saved first, then geocoded, then
      the weather fetched. */
  function CityEffects(id: int, city: string, env: Env): (r: seq<Effect>)
    ensures |r| >= 3 && r[0] == SaveCity(id, city) && r[1] == Geocode(city)
    ensures env.place.None? <==> r == [SaveCity(id, city), Geocode(city), Reply(NoGeocode)]
  {
    var saved := [SaveCity(id, city), Geocode(city)];
    if env.place.None? then saved + [Reply(NoGeocode)]
    else if env.current.None? then saved + [Forecast, Reply(NoWeather)]
    else saved + [Forecast, Reply(Subscribed(city, env.place.value, env.current.value))]
  }

  /** Routing after the transport check. `fixedCall` chooses between the
      transport command as written (`start_bus_flow(bot, chat_id)`, one
      argument too many) and as intended (`start_bus_flow(chat_id)`). */
  function Commands(chat: int, id: int, raw: string, w: World, pre: seq<Effect>, env: Env, fixedCall: bool): Outcome
    requires ValidWorld(w)
  {
    match CityCommand(raw, 0)
    case Some(city) =>
      Done(w.(users := WithCity(w.users, id, city)), pre + CityEffects(id, city, env))
    case None =>
      var cmd := CommandOf(Downcase(raw));
      if cmd == Buses then
        if fixedCall then Done(w.(sessions := w.sessions[chat := Session(GroundZero, NoData)]), pre + [StartTransport])
        else Raised(w, pre, "ArgumentError")
      else Done(w, pre + CommandEffects(cmd, id, IsSubscribed(w.users, id), CityOf(w.users, id), IsAdmin(env.adminEnv, id)))
  }

  function Dispatch(u: Update, w: World, env: Env, fixedCall: bool): Outcome
    requires ValidWorld(w)
  {
    match u
    case OtherUpdate => Done(w, [])
    case CallbackQuery(data, chat) =>
      if data == "rec_clear" then Done(w, [ClearRecommender, AnswerCallback])
      else if data == "bus_clear" then Done(w, [ClearTransport, AnswerCallback])
      else Done(w, [])
    case Message(chat, from, text) =>
      if from.None? then Done(w, []) else FromSender(chat, from.value, text, w, env, fixedCall)
  }

  /** A message with a sender: the sender is registered, then a chat inside
      the transport flow hands the message to the flow first. */
  function FromSender(chat: int, id: int, text: Option<string>, w: World, env: Env, fixedCall: bool): Outcome
    requires ValidWorld(w)
  {
    var registered := w.(users := AddedUser(w.users, id, env.now));
    var raw := Strip(text.GetOr(""));
    if SessionIn(w.sessions, chat).step != Idle then
      var r := env.flow;
      if r.handled then
        Done(registered.(sessions := w.sessions[chat := r.next]), [RegisterUser(id), RunTransport(r.outs)])
      else Commands(chat, id, raw, registered, [RegisterUser(id), RunTransport(r.outs)], env, fixedCall)
    else Commands(chat, id, raw, registered, [RegisterUser(id)], env, fixedCall)
  }

  /** One pass of the `begin` block of `bot.listen` as written: an update
      that is not a message from a sender (a callback button, a message
      without `from`, any other update) changes no stored state. */
  function RouteAsWritten(u: Update, w: World, env: Env): (r: Outcome)
    requires ValidWorld(w)
    ensures !(u.Message? && u.from.Some?) ==> r.Done? && r.world == w
  {
    Dispatch(u, w, env, false)
  }

  /** One pass of the `begin` block with the transport call corrected: it
      raises nothing, keeps the sessions well formed, registers every sender
      before anything else, and an update that is not a message from a
      sender changes no stored state. */
  function Route(u: Update, w: World, env: Env): (r: Outcome)
    requires ValidWorld(w)
    ensures !(u.Message? && u.from.Some?) ==> r.Done? && r.world == w
    ensures WellFormed(env.flow.next) ==> r.Done? && ValidWorld(r.world)
    ensures WellFormed(env.flow.next) && u.Message? && u.from.Some? ==>
      |r.effects| >= 2 && r.effects[0] == RegisterUser(u.from.value)
  {
    DispatchSpec(u, w, env);
    Dispatch(u, w, env, true)
  }

  // ---------------------------------------------------------------------------
  // Properties

  /** After the transport check the corrected routing raises nothing, keeps
      the sessions well formed and only appends to the effects so far. */
  lemma CommandsSpec(chat: int, id: int, raw: string, w: World, pre: seq<Effect>, env: Env)
    requires ValidWorld(w)
    ensures var o := Commands(chat, id, raw, w, pre, env, true);
      o.Done? && ValidWorld(o.world) && |o.effects| > |pre| && o.effects[..|pre|] == pre
  {
    match CityCommand(raw, 0)
    case Some(city) =>
      var e := CityEffects(id, city, env);
      assert Commands(chat, id, raw, w, pre, env, true) == Done(w.(users := WithCity(w.users, id, city)), pre + e);
      PrefixOfAppend(pre, e);
    case None =>
      var cmd := CommandOf(Downcase(raw));
      if cmd == Buses {
        CommandsBuses(chat, id, raw, w, pre, env);
        PrefixOfAppend(pre, [StartTransport]);
      } else {
        var e := CommandEffects(cmd, id, IsSubscribed(w.users, id), CityOf(w.users, id), IsAdmin(env.adminEnv, id));
        assert Commands(chat, id, raw, w, pre, env, true) == Done(w, pre + e);
        PrefixOfAppend(pre, e);
      }
  }

  lemma CommandsBuses(chat: int, id: int, raw: string, w: World, pre: seq<Effect>, env: Env)
    requires ValidWorld(w) && CityCommand(raw, 0).None? && CommandOf(Downcase(raw)) == Buses
    ensures Commands(chat, id, raw, w, pre, env, true) == Done(w.(sessions := w.sessions[chat := Session(GroundZero, NoData)]), pre + [StartTransport])
    ensures ValidWorld(w.(sessions := w.sessions[chat := Session(GroundZero, NoData)]))
  {
  }

  lemma PrefixOfAppend(pre: seq<Effect>, e: seq<Effect>)
    requires |e| > 0
    ensures |pre + e| > |pre| && (pre + e)[..|pre|] == pre
  {
  }

  lemma DispatchSpec(u: Update, w: World, env: Env)
    requires ValidWorld(w)
    ensures WellFormed(env.flow.next) ==> Dispatch(u, w, env, true).Done? && ValidWorld(Dispatch(u, w, env, true).world)
    ensures WellFormed(env.flow.next) && u.Message? && u.from.Some? ==>
      |Dispatch(u, w, env, true).effects| >= 2 && Dispatch(u, w, env, true).effects[0] == RegisterUser(u.from.value)
  {
    if WellFormed(env.flow.next) && u.Message? && u.from.Some? {
      var id := u.from.value;
      var registered := w.(users := AddedUser(w.users, id, env.now));
      var raw := Strip(u.text.GetOr(""));
      var o := FromSender(u.chat, id, u.text, w, env, true);
      assert Dispatch(u, w, env, true) == o;
      if SessionIn(w.sessions, u.chat).step != Idle {
        if env.flow.handled {
          assert ValidSessions(o.world.sessions);
        } else {
          CommandsSpec(u.chat, id, raw, registered, [RegisterUser(id), RunTransport(env.flow.outs)], env);
          assert o.effects[..2][0] == o.effects[0];
        }
      } else {
        CommandsSpec(u.chat, id, raw, registered, [RegisterUser(id)], env);
        assert o.effects[..1][0] == o.effects[0];
      }
    }
  }

  /** A chat inside the transport flow has its message handled by the flow
      and nothing else: no command, no "w <city>", whatever the text. */
  lemma TransportFirst(chat: int, id: int, text: Option<string>, w: World, env: Env, fetched: Result<seq<BoxNode>>)
    requires ValidWorld(w) && SessionIn(w.sessions, chat).step != Idle
    requires env.flow == Handle(SessionIn(w.sessions, chat), text, fetched)
    ensures Route(Message(chat, Some(id), text), w, env)
        == Done(World(AddedUser(w.users, id, env.now), w.sessions[chat := env.flow.next]), [RegisterUser(id), RunTransport(env.flow.outs)])
    ensures ValidWorld(Route(Message(chat, Some(id), text), w, env).world)
  {
    InFlow(chat, id, text, w, env);
    assert ValidSessions(w.sessions[chat := env.flow.next]);
  }

  /** "w <city>" registers the sender, then saves the city before the
      geocoder and the forecast are asked (see `CityEffects`), so the city is
      kept whether or not they answer. */
  lemma CitySavedFirst(chat: int, id: int, text: Option<string>, w: World, env: Env)
    requires ValidWorld(w) && SessionIn(w.sessions, chat).step == Idle
    requires CityCommand(Strip(text.GetOr("")), 0).Some?
    ensures var city := CityCommand(Strip(text.GetOr("")), 0).value;
      Route(Message(chat, Some(id), text), w, env)
      == Done(World(WithCity(AddedUser(w.users, id, env.now), id, city), w.sessions), [RegisterUser(id)] + CityEffects(id, city, env))
  {
    AtIdle(chat, id, text, w, env, true);
    CommandsCity(chat, id, Strip(text.GetOr("")), w.(users := AddedUser(w.users, id, env.now)), [RegisterUser(id)], env, true);
  }

  /** Outside the transport flow the message goes straight to the commands,
      after the sender is registered. */
  lemma AtIdle(chat: int, id: int, text: Option<string>, w: World, env: Env, fixedCall: bool)
    requires ValidWorld(w) && SessionIn(w.sessions, chat).step == Idle
    ensures Dispatch(Message(chat, Some(id), text), w, env, fixedCall)
         == Commands(chat, id, Strip(text.GetOr("")), w.(users := AddedUser(w.users, id, env.now)), [RegisterUser(id)], env, fixedCall)
  {
  }

  lemma CommandsCity(chat: int, id: int, raw: string, w: World, pre: seq<Effect>, env: Env, fixedCall: bool)
    requires ValidWorld(w) && CityCommand(raw, 0).Some?
    ensures Commands(chat, id, raw, w, pre, env, fixedCall)
         == Done(w.(users := WithCity(w.users, id, CityCommand(raw, 0).value)), pre + CityEffects(id, CityCommand(raw, 0).value, env))
  {
  }

  /** Outside the transport flow and the "w <city>" form, the downcased text
      picks the command (`CommandOf`), whose effects follow the registration;
      the transport command opens the flow at its first step. */
  lemma CommandRouting(chat: int, id: int, text: Option<string>, w: World, env: Env)
    requires ValidWorld(w) && SessionIn(w.sessions, chat).step == Idle
    requires CityCommand(Strip(text.GetOr("")), 0).None?
    ensures var cmd := CommandOf(Downcase(Strip(text.GetOr(""))));
      var users := AddedUser(w.users, id, env.now);
      Route(Message(chat, Some(id), text), w, env)
      == if cmd == Buses then Done(World(users, w.sessions[chat := Session(GroundZero, NoData)]), [RegisterUser(id), StartTransport])
         else Done(World(users, w.sessions), [RegisterUser(id)] + CommandEffects(cmd, id, IsSubscribed(users, id), CityOf(users, id), IsAdmin(env.adminEnv, id)))
  {
    var raw := Strip(text.GetOr(""));
    AtIdle(chat, id, text, w, env, true);
    CommandsOther(chat, id, raw, w.(users := AddedUser(w.users, id, env.now)), [RegisterUser(id)], env);
  }

  lemma CommandsOther(chat: int, id: int, raw: string, w: World, pre: seq<Effect>, env: Env)
    requires ValidWorld(w) && CityCommand(raw, 0).None?
    ensures var cmd := CommandOf(Downcase(raw));
      Commands(chat, id, raw, w, pre, env, true)
      == if cmd == Buses then Done(w.(sessions := w.sessions[chat := Session(GroundZero, NoData)]), pre + [StartTransport])
         else Done(w, pre + CommandEffects(cmd, id, IsSubscribed(w.users, id), CityOf(w.users, id), IsAdmin(env.adminEnv, id)))
  {
  }

  /** Timer, report and music do nothing for a user who is not subscribed
      but ask them to subscribe; report says it is generating first. The
      recommender and the broadcast answer "Unauthorized." to non-admins. */
  lemma Guards(cmd: Command, id: int, subscribed: bool, city: string, admin: bool)
    requires cmd != Buses
    ensures !subscribed && cmd == TimerCmd ==> CommandEffects(cmd, id, subscribed, city, admin) == [Reply(PleaseSubscribe)]
    ensures !subscribed && cmd == Report ==> CommandEffects(cmd, id, subscribed, city, admin) == [Reply(Generating), Reply(PleaseSubscribe)]
    ensures !subscribed && cmd == Music ==> CommandEffects(cmd, id, subscribed, city, admin) == [Reply(Loading), Reply(PleaseSubscribe)]
    ensures !admin && (cmd == Recommender || cmd == Broadcast) ==> CommandEffects(cmd, id, subscribed, city, admin) == [Reply(Unauthorized)]
    ensures admin && cmd == Recommender ==> RunRecommender(id) in CommandEffects(cmd, id, subscribed, city, admin)
    ensures admin && cmd == Broadcast ==> BroadcastReports in CommandEffects(cmd, id, subscribed, city, admin)
    ensures !subscribed ==> forall e :: e in CommandEffects(cmd, id, subscribed, city, admin) ==> !e.SendTimer? && !e.SendReport? && !e.SendMusic?
    ensures !admin ==> forall e :: e in CommandEffects(cmd, id, subscribed, city, admin) ==> !e.RunRecommender? && !e.BroadcastReports?
  {
  }

  /** Every spelling of the transport command is one command, matched in
      any letter case. */
  lemma TransportSpellings()
    ensures CommandOf("buses") == Buses && CommandOf("/buses") == Buses
    ensures CommandOf("transport") == Buses && CommandOf("/transport") == Buses
    ensures CommandOf(Downcase("Transport")) == Buses
  {
    assert Downcase("Transport") == "transport";
  }

  /** Callbacks clear the bucket they name and are answered; any other
      callback data is ignored. */
  lemma CallbackRouting(data: string, chat: int, w: World, env: Env)
    requires ValidWorld(w)
    ensures data == "rec_clear" ==> Route(CallbackQuery(data, chat), w, env) == Done(w, [ClearRecommender, AnswerCallback])
    ensures data == "bus_clear" ==> Route(CallbackQuery(data, chat), w, env) == Done(w, [ClearTransport, AnswerCallback])
    ensures data != "rec_clear" && data != "bus_clear" ==> Route(CallbackQuery(data, chat), w, env) == Done(w, [])
  {
  }

  // ---------------------------------------------------------------------------
  // The transport command as written

  /** `start_bus_flow(bot, message.chat.id)` raises ArgumentError, which the
      `rescue => e` clause answers with `retry`: the same update is routed
      again from a world where only the sender's `last_start` moved, and
      raises again, whatever the collaborators answer the next time. The
      update is never passed, so no later update is ever read. */
  lemma TransportCommandRetriesForever(chat: int, id: int, text: Option<string>, w: World, env: Env, env': Env)
    requires ValidWorld(w) && SessionIn(w.sessions, chat).step == Idle
    requires CityCommand(Strip(text.GetOr("")), 0).None?
    requires CommandOf(Downcase(Strip(text.GetOr("")))) == Buses
    ensures var o := RouteAsWritten(Message(chat, Some(id), text), w, env);
      && o == Raised(World(AddedUser(w.users, id, env.now), w.sessions), [RegisterUser(id)], "ArgumentError")
      && ValidWorld(o.world)
      && RouteAsWritten(Message(chat, Some(id), text), o.world, env').Raised?
  {
  }

  /** With the call corrected the transport command opens the flow, and the
      chat's next message, whatever it says, is swallowed by the flow, which
      then asks for the origin. */
  lemma TransportCommandStartsFlow(chat: int, id: int, text: Option<string>, next: Option<string>, w: World, env: Env, env': Env,
                                   fetched: Result<seq<BoxNode>>)
    requires ValidWorld(w) && SessionIn(w.sessions, chat).step == Idle
    requires env'.flow == Handle(Session(GroundZero, NoData), next, fetched)
    requires CityCommand(Strip(text.GetOr("")), 0).None?
    requires CommandOf(Downcase(Strip(text.GetOr("")))) == Buses
    ensures var w1 := World(AddedUser(w.users, id, env.now), w.sessions[chat := Session(GroundZero, NoData)]);
      && Route(Message(chat, Some(id), text), w, env) == Done(w1, [RegisterUser(id), StartTransport])
      && ValidWorld(w1)
      && Route(Message(chat, Some(id), next), w1, env')
         == Done(World(AddedUser(w1.users, id, env'.now), w1.sessions[chat := Session(AskFrom, NoData)]),
                 [RegisterUser(id), RunTransport(env'.flow.outs)])
  {
    var w1 := World(AddedUser(w.users, id, env.now), w.sessions[chat := Session(GroundZero, NoData)]);
    AtIdle(chat, id, text, w, env, true);
    CommandsBuses(chat, id, Strip(text.GetOr("")), w.(users := AddedUser(w.users, id, env.now)), [RegisterUser(id)], env);
    var s := Session(GroundZero, NoData);
    assert SessionIn(w1.sessions, chat) == s;
    GroundZeroIgnoresText(NoData, next, next, fetched, fetched);
    InFlow(chat, id, next, w1, env');
  }

  /** Inside the transport flow a message the flow handled ends there. */
  lemma InFlow(chat: int, id: int, text: Option<string>, w: World, env: Env)
    requires ValidWorld(w) && SessionIn(w.sessions, chat).step != Idle && env.flow.handled
    ensures Route(Message(chat, Some(id), text), w, env)
         == Done(World(AddedUser(w.users, id, env.now), w.sessions[chat := env.flow.next]), [RegisterUser(id), RunTransport(env.flow.outs)])
  {
  }
}
