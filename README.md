# jepcobird-bot decision logic in Dafny

A model of the decision logic of the jepcobird Slack bot (`jepcobird_bot.js`),
a Botkit script that answers weather questions for a handful of Japanese
cities, remembers user nicknames and can be asked to shut down. The model
covers what the script itself decides; the Botkit library that routes
messages and drives conversations is not part of it.

- `Text`: substring tests. Every pattern a handler tests its text against is
  an unanchored regular expression of plain words, so "matches" is "contains
  one of the words".
- `Resolver`: `cityIdOf` (free text to a livedoor city code, first match in
  declared order, `-1` when nothing matches) and the day offset of the
  weather handler (`明日` gives 1, otherwise `明後日` gives 2, otherwise 0).
- `Forecast`: the reply `weatherHacks` builds from one answer of the weather
  service, over an abstract answer: a transport error, or a status code and
  a decoded body.
- `Users`: user records in a store keyed by user id; get-or-create-then-set
  for "call me" / "my name is", and the reply choices of the hello and
  who-am-i handlers. A record "has a name" as JavaScript's `user && user.name`
  reads it, so an empty name counts as none.
- `Conversation`: the conversation status (`Active`, `Completed`, `Stopped`),
  an answer to a yes / no / default branch set, and the bot's effects.
- `WeatherScript`, `NicknameScript`, `ShutdownScript`: the three dialogue
  scripts, each as a state datatype with a step function, a `Run` over any
  sequence of replies with lemmas about its outcome, and a class whose
  fields the handler updates in place, proved to follow the step function.
  The nickname session writes the confirmed name into the `UserStore`.

How the yes and no patterns of a branch set match a reply is decided by
Botkit; an `Answer` carries the results of those two tests as booleans, and
the branch taken is the first entry in declared order whose test holds, the
default one only when none does.

## Model

| member | source | states |
|---|---|---|
| Resolver.CityIdOf | jepcobird_bot.js:130-147 | the result is one of the six city codes or -1 |
| Resolver.CityIdOfResolvesIffMentioned | jepcobird_bot.js:130-147 | the code is positive exactly when the text contains one of the listed place words, and is -1 otherwise |
| Resolver.CityIdOfIsFirstMatch | jepcobird_bot.js:131-145 | the if/else chain equals an ordered first-match lookup over the table of regions |
| Resolver.FirstMatchEarliest | jepcobird_bot.js:131-145 | an ordered lookup yields the code of the earliest entry whose words occur |
| Resolver.FirstMatchUnresolved | jepcobird_bot.js:143-145 | over positive codes, the lookup is unresolved exactly when no entry matches |
| Resolver.CityIdOfEarliestRegion | jepcobird_bot.js:131-145 | the earliest region in declared order whose words occur decides the code, whatever later regions also occur |
| Resolver.TokyoComesFirst | jepcobird_bot.js:131-132 | any text containing 東京 resolves to 130010 |
| Resolver.TokyoPrefectureIsNotKyoto | jepcobird_bot.js:131-138 | 東京都 contains 京都 yet resolves to Tokyo; 京都 alone resolves to 260010 |
| Resolver.TokyoBeatsOsaka | jepcobird_bot.js:131-136 | a text naming both Tokyo and Osaka, in either order, resolves to Tokyo |
| Resolver.DayOffset | jepcobird_bot.js:90-97 | the offset is at most 2; it is 1 iff the text contains 明日, 2 iff it contains 明後日 but not 明日, 0 iff neither |
| Resolver.DayAfterTomorrowIsTwo | jepcobird_bot.js:93-97 | 明後日 does not contain 明日, so it yields offset 2 |
| Resolver.TomorrowWinsOverDayAfter | jepcobird_bot.js:93-97 | a text containing both words yields offset 1 |
| Forecast.ForecastReply | jepcobird_bot.js:158-190 | on a transport error or a status other than 200 the reply is the "lookup failed" text; with no entry for the day it is the "no forecast" text with no attachments; otherwise the sentence dateLabel+の+title+は+telop+だってさ。 with exactly one attachment carrying title, link, description, image url and color #7CD197 |
| Forecast.ForecastReplyAsWritten | jepcobird_bot.js:157-190 | as written, the callback sends no reply exactly on a transport error, and otherwise the reply above |
| Forecast.TransportErrorIsSilentAsWritten | jepcobird_bot.js:184-190 | a transport error gets no reply as written and the "lookup failed" reply once fixed |
| Forecast.SentenceIsNoFallback | jepcobird_bot.js:166-188 | a forecast sentence is never equal to either fallback text |
| Forecast.OutcomesAreDistinguishable | jepcobird_bot.js:158-190 | a reply has an attachment iff a forecast for the day was found, and its text is the failure text iff the lookup failed, the no-forecast text iff the day is missing |
| Users.WithName | jepcobird_bot.js:226-232 | the name is set; an existing record keeps its id and all other fields; a missing one is created as {id, name} |
| Users.LastNameWins | jepcobird_bot.js:232 | setting a name twice leaves only the second |
| Users.StoreName | jepcobird_bot.js:226-234 | after save, the user's record carries the new name under its own id, keeps its other fields, and every other user's record is unchanged |
| Users.HelloText | jepcobird_bot.js:215-221 | "Hello name!!" when a non-empty name is stored, "Hello." otherwise |
| Users.WhoAmI | jepcobird_bot.js:241-245 | tells "Your name is name" with no conversation iff a name is stored, otherwise opens the nickname conversation |
| Users.NameIsRemembered | jepcobird_bot.js:224-245 | after "call me name" with a non-empty name, hello greets by that name and who-am-i tells it without a conversation |
| Users.EmptyNameIsNoName | jepcobird_bot.js:224-245 | an empty name is saved but hello and who-am-i treat it as absent |
| Users.OthersUnaffected | jepcobird_bot.js:226-234 | saving one user's name leaves every other user's record as it was |
| Users.UserStore.Save | jepcobird_bot.js:233 | the record is stored under its own id and nothing else changes |
| Users.UserStore.CallMe | jepcobird_bot.js:224-236 | the store becomes StoreName of the old store and the reply is "Got it. I will call you name from now on." |
| Users.UserStore.Hello | jepcobird_bot.js:215-221 | the reply is the greeting for the stored record |
| Users.UserStore.WhoAmIFor | jepcobird_bot.js:241-245 | the decision is the who-am-i choice for the stored record |
| Conversation.BranchOf | jepcobird_bot.js:249-272 | yes is taken iff its pattern matches, no iff yes does not and no does, the default iff neither |
| WeatherScript.Handle | jepcobird_bot.js:89-105 | day and city come from the message; no conversation starts iff the city resolves |
| WeatherScript.Hear | jepcobird_bot.js:107-124 | a reply ends an active conversation (completed or stopped) and keeps the day; once ended, replies change nothing |
| WeatherScript.RunAfterEnd | jepcobird_bot.js:116-124 | after the conversation has ended, or when none started, further replies change nothing |
| WeatherScript.WeatherOutcome | jepcobird_bot.js:87-128 | a resolvable message is looked up at once with its day; otherwise the question is asked and the first reply either completes with a lookup of its city and the original day or stops with どこそれ？知らないから自分で調べて。 |
| WeatherScript.CompletedLooksUpKnownPlace | jepcobird_bot.js:107-120 | a completed weather conversation looks up a positive city code with the message's day |
| WeatherScript.WeatherRequest.constructor | jepcobird_bot.js:89-105 | the handler's locals and first effect are those of Handle |
| WeatherScript.WeatherRequest.HearReply | jepcobird_bot.js:107-124 | the new state is Hear of the old state |
| NicknameScript.Hear | jepcobird_bot.js:248-276 | the first reply is captured as nickname and the confirmation is asked; then yes completes, no stops, anything else re-asks the same confirmation and keeps the slot |
| NicknameScript.RunAfterEnd | jepcobird_bot.js:278-300 | an ended conversation ignores further replies |
| NicknameScript.ConfirmRun | jepcobird_bot.js:249-300 | while confirming, the slot is kept; the first non-default reply decides completed or stopped, and the transcript ends with the end handler's effects |
| NicknameScript.NicknameOutcome | jepcobird_bot.js:245-300 | from the opening, the first reply is the nickname and the conversation completes on the first yes, stops on the first no, and stays open while replies fall to the default |
| NicknameScript.SavedNameIsNickname | jepcobird_bot.js:278-298 | on completion the name saved and confirmed is the captured nickname; on a stop the last words are "OK, nevermind!" |
| NicknameScript.NameThenYes | jepcobird_bot.js:248-290 | a name followed by yes completes and saves that name, with the exact transcript |
| NicknameScript.NicknameSession.constructor | jepcobird_bot.js:245-248 | the session opens with the no-name message and the name question |
| NicknameScript.NicknameSession.HearAnswer | jepcobird_bot.js:248-300 | the new state is Hear of the old one, and the store changes only on completion, to StoreName with the captured nickname |
| ShutdownScript.Hear | jepcobird_bot.js:312-331 | the first reply completes the conversation, scheduling the exit only for a yes |
| ShutdownScript.RunAfterEnd | jepcobird_bot.js:310-331 | a completed shutdown conversation ignores further replies |
| ShutdownScript.ShutdownOutcome | jepcobird_bot.js:310-331 | for every reply sequence the conversation completes, the exit is scheduled iff the first reply is a yes, and the bot says Bye! or *Phew!* accordingly |
| ShutdownScript.ShutdownSession.constructor | jepcobird_bot.js:310-312 | the session opens with the confirmation question |
| ShutdownScript.ShutdownSession.HearAnswer | jepcobird_bot.js:312-331 | the new state is Hear of the old one |

## Findings

| source | as written | input that shows it | evidently intended | confidence | as-written member | corrected member |
|---|---|---|---|---|---|---|
| jepcobird_bot.js:184-190 | the error branch logs `response.statusCode` before building the reply | a transport error, for which the request library passes no response: reading its status code throws, so the callback never replies | reply 天気わかんなかった。。へへ on any error, as the `!error &&` test at line 158 suggests | medium, not executed | Forecast.ForecastReplyAsWritten, Forecast.TransportErrorIsSilentAsWritten | Forecast.ForecastReply, Forecast.OutcomesAreDistinguishable |

## Left out

- Botkit's message routing: `hears` patterns, scopes, rule order and the catch-all empty pattern. Which handler a message reaches is decided by library code (`lib/Botkit.js`) that is not part of this model. The handlers that only send a fixed text (sushi, 呼んだ？, 自己紹介) are left out with it.
- Botkit's conversation engine: queues, `say`/`ask`/`next`/`stop`/`repeat`, one session per user and channel, and how the yes and no patterns match. Each script is modelled directly as a state machine, and the two pattern tests are inputs of an `Answer`.
- The failure of `startConversation` (the `if (!err)` guards at lines 106 and 246): when the engine cannot open a conversation the handler does nothing. The model always opens it.
- Conversation timeouts: the script defines none, so no state for one exists.
- The HTTP request to the livedoor service, the URL built from the city code, and JSON decoding. The weather handler records a `Lookup(day, cityId)` effect; the reply to a given answer is `Forecast.ForecastReply`. A 200 body missing `description` or `forecasts` would throw in the source and is not modelled.
- Storage I/O: asynchrony and the ignored `err` of `get` and `save`. The store is a map from user id to record.
- The emoji reaction of the hello handler (a foreign API call).
- The token check and `process.exit(1)` at start-up.
- The three-second timer and `process.exit()` of the shutdown: recorded only as `exitScheduled`.
- The uptime / identify handler and `formatUptime`: floating-point division, number formatting and `os.hostname()` are foreign.
- Console logging throughout.
- The assignment to the undeclared global `city_id` inside `cityIdOf`: every caller uses only the return value, so it is a pure function here.
