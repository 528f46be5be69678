/** The weather handler: resolve the day and the place from the message;
    look the forecast up at once when the place is known, otherwise ask for
    it in a one-question conversation. */
module WeatherScript {
  import opened Options
  import opened Text
  import opened Resolver
  import opened Conversation

  const WhereQuestion: string := "どこの天気？"
  const UnknownPlaceText: string := "どこそれ？知らないから自分で調べて。"

  /** The handler's locals `day` and `city_id`, the status of its
      conversation (`None` when none was started) and what it has done. */
  datatype WeatherState = WeatherState(day: nat, cityId: int, convo: Option<Status>, out: seq<Effect>)

  /** The handler run on the message text. */
  function Handle(text: string): (s: WeatherState)
    ensures s.day == DayOffset(text) && s.cityId == CityIdOf(text)
    ensures s.convo.None? <==> CityIdOf(text) > 0
  {
    var day := DayOffset(text);
    var cityId := CityIdOf(text);
    if cityId > 0 then WeatherState(day, cityId, None, [Lookup(day, cityId)])
    else WeatherState(day, cityId, Some(Active), [Say(WhereQuestion)])
  }

  /** A reply delivered to the conversation: the ask callback resolves the
      reply and calls `next()` or `stop()`, then the `end` handler runs.
      A reply ends an active conversation and changes nothing otherwise. */
  function Hear(s: WeatherState, reply: string): (r: WeatherState)
    ensures s.convo != Some(Active) ==> r == s
    ensures s.convo == Some(Active) ==> r.convo.Some? && r.convo != Some(Active) && r.day == s.day
  {
    if s.convo != Some(Active) then s
    else
      var cityId := CityIdOf(reply);
      if cityId > 0 then s.(cityId := cityId, convo := Some(Completed), out := s.out + [Lookup(s.day, cityId)])
      else s.(cityId := cityId, convo := Some(Stopped), out := s.out + [Say(UnknownPlaceText)])
  }

  /** The handler followed by the replies that reach its conversation. */
  function Run(s: WeatherState, replies: seq<string>): WeatherState
    decreases |replies|
  {
    if replies == [] then s else Run(Hear(s, replies[0]), replies[1..])
  }

  /** Once no conversation is active, further replies change nothing. */
  lemma {:induction false} RunAfterEnd(s: WeatherState, replies: seq<string>)
    requires s.convo != Some(Active)
    ensures Run(s, replies) == s
    decreases |replies|
  {
    if replies != [] {
      RunAfterEnd(Hear(s, replies[0]), replies[1..]);
    }
  }

  /** The whole handler, for every message and every sequence of replies:
      a resolvable message is looked up at once with its day and no
      conversation starts; otherwise the question is asked, and the first
      reply either completes the conversation and is looked up with the
      message's day, or stops it with the "unknown place" reply. */
  lemma {:induction false} WeatherOutcome(text: string, replies: seq<string>)
    ensures var f := Run(Handle(text), replies);
      var day := DayOffset(text);
      f.day == day &&
      (CityIdOf(text) > 0 ==>
        f.convo == None && f.out == [Lookup(day, CityIdOf(text))]) &&
      (CityIdOf(text) <= 0 && replies == [] ==>
        f.convo == Some(Active) && f.out == [Say(WhereQuestion)]) &&
      (CityIdOf(text) <= 0 && replies != [] && CityIdOf(replies[0]) > 0 ==>
        f.convo == Some(Completed) && f.cityId == CityIdOf(replies[0]) &&
        f.out == [Say(WhereQuestion), Lookup(day, CityIdOf(replies[0]))]) &&
      (CityIdOf(text) <= 0 && replies != [] && CityIdOf(replies[0]) <= 0 ==>
        f.convo == Some(Stopped) && f.out == [Say(WhereQuestion), Say(UnknownPlaceText)])
  {
    var s := Handle(text);
    if CityIdOf(text) > 0 {
      RunAfterEnd(s, replies);
    } else if replies != [] {
      RunAfterEnd(Hear(s, replies[0]), replies[1..]);
    }
  }

  /** A conversation that completes always looks up a resolved place. */
  lemma CompletedLooksUpKnownPlace(text: string, replies: seq<string>)
    requires Run(Handle(text), replies).convo == Some(Completed)
    ensures Run(Handle(text), replies).cityId > 0
    ensures |Run(Handle(text), replies).out| == 2
    ensures Run(Handle(text), replies).out[1] == Lookup(DayOffset(text), Run(Handle(text), replies).cityId)
  {
    WeatherOutcome(text, replies);
  }

  /** The weather handler with its locals and its conversation, updated in
      place as the message and then the reply arrive. */
  class WeatherRequest {
    var day: nat
    var cityId: int
    var convo: Option<Status>
    var out: seq<Effect>

    function State(): WeatherState
      reads this
    {
      WeatherState(day, cityId, convo, out)
    }

    /** The handler for a message with text `text`. */
    constructor (text: string)
      ensures State() == Handle(text)
    {
      var d: nat := 0;
      var c := 0;
      if Contains(text, Tomorrow) {
        d := 1;
      } else if Contains(text, DayAfterTomorrow) {
        d := 2;
      }
      c := CityIdOf(text);
      day, cityId := d, c;
      if c > 0 {
        convo := None;
        out := [Lookup(d, c)];
      } else {
        convo := Some(Active);
        out := [Say(WhereQuestion)];
      }
    }

    /** A reply to "どこの天気？": the ask callback, then the `end` handler. */
    method HearReply(reply: string)
      modifies this
      ensures State() == Hear(old(State()), reply)
    {
      if convo == Some(Active) {
        cityId := CityIdOf(reply);
        if cityId > 0 {
          convo := Some(Completed);
        } else {
          convo := Some(Stopped);
        }
        if convo == Some(Completed) {
          out := out + [Lookup(day, cityId)];
        } else {
          out := out + [Say(UnknownPlaceText)];
        }
      }
    }
  }
}
