/** The reply that `weatherHacks` builds from one answer of the livedoor
    Weather Hacks service. The HTTP request itself and the JSON decoding are
    not modelled: an answer is either a transport error (no response at all)
    or a response with a status code and an already decoded body. */
module Forecast {
  import opened Options

  /** One entry of `forecasts`: `dateLabel`, `telop` and `image.url`. */
  datatype Entry = Entry(dateLabel: string, telop: string, imageUrl: string)

  /** The decoded body: `title`, `description.text`, `link`, `forecasts`. */
  datatype Body = Body(title: string, description: string, link: string, forecasts: seq<Entry>)

  datatype HttpResult =
    | TransportError
    | Response(statusCode: int, body: Body)

  /** The rich attachment of a forecast reply. */
  datatype Attachment = Attachment(
    fallback: string, title: string, titleLink: string,
    text: string, imageUrl: string, color: string)

  /** A reply message: its text and its attachments (none for plain text). */
  datatype Reply = Reply(text: string, attachments: seq<Attachment>)

  const LookupFailedText: string := "天気わかんなかった。。へへ"
  const NoForecastText: string := "天気わかんないや。へへ"
  const Fallback: string := "Display weather from Weather Hacks"
  const Color: string := "#7CD197"
  const SentenceEnd: string := "だってさ。"

  /** No error and status 200: the only answers whose body is read. */
  predicate Succeeded(res: HttpResult) {
    res.Response? && res.statusCode == 200
  }

  /** The sentence of a forecast reply: "<dateLabel>の<title>は<telop>だってさ。". */
  function Sentence(title: string, e: Entry): string {
    e.dateLabel + "の" + title + "は" + e.telop + SentenceEnd
  }

  /** The reply for offset `day`: the forecast sentence with one attachment
      when the lookup succeeded and has an entry for that day, the
      "no forecast" text when it has none, the "lookup failed" text on a
      transport error or a status other than 200. */
  function ForecastReply(day: nat, res: HttpResult): (r: Reply)
    ensures !Succeeded(res) ==> r == Reply(LookupFailedText, [])
    ensures Succeeded(res) && day >= |res.body.forecasts| ==> r == Reply(NoForecastText, [])
    ensures Succeeded(res) && day < |res.body.forecasts| ==>
      var b, e := res.body, res.body.forecasts[day];
      r.text == Sentence(b.title, e) &&
      r.attachments == [Attachment(Fallback, b.title, b.link, b.description, e.imageUrl, Color)]
  {
    if Succeeded(res) then
      var b := res.body;
      if day < |b.forecasts| then
        var e := b.forecasts[day];
        Reply(Sentence(b.title, e), [Attachment(Fallback, b.title, b.link, b.description, e.imageUrl, Color)])
      else
        Reply(NoForecastText, [])
    else
      Reply(LookupFailedText, [])
  }

  /** The callback as written: its error branch logs `response.statusCode`
      before building the reply, and on a transport error there is no
      response, so the callback throws and no reply is ever sent. */
  function ForecastReplyAsWritten(day: nat, res: HttpResult): (r: Option<Reply>)
    ensures res.TransportError? <==> r.None?
    ensures r.Some? ==> r.value == ForecastReply(day, res)
  {
    if res.TransportError? then None else Some(ForecastReply(day, res))
  }

  /** The discrepancy: a transport error gets no reply in the code as
      written, while the fixed reply reports the failed lookup. */
  lemma TransportErrorIsSilentAsWritten(day: nat)
    ensures ForecastReplyAsWritten(day, TransportError) == None
    ensures ForecastReply(day, TransportError).text == LookupFailedText
  {
  }

  /** A forecast sentence never ends the way either fallback text does. */
  lemma SentenceIsNoFallback(title: string, e: Entry)
    ensures Sentence(title, e) != LookupFailedText
    ensures Sentence(title, e) != NoForecastText
  {
    var s := Sentence(title, e);
    assert s[|s| - 2] == 'さ';
    assert LookupFailedText[|LookupFailedText| - 2] == 'へ';
    assert NoForecastText[|NoForecastText| - 2] == 'へ';
  }

  /** The three outcomes can be told apart from the reply alone: it carries
      an attachment exactly when a forecast was found, and its text is the
      "lookup failed" text exactly when the lookup failed. */
  lemma OutcomesAreDistinguishable(day: nat, res: HttpResult)
    ensures |ForecastReply(day, res).attachments| == 1 <==>
            Succeeded(res) && day < |res.body.forecasts|
    ensures ForecastReply(day, res).attachments == [] <==>
            !(Succeeded(res) && day < |res.body.forecasts|)
    ensures ForecastReply(day, res).text == LookupFailedText <==> !Succeeded(res)
    ensures ForecastReply(day, res).text == NoForecastText <==>
            Succeeded(res) && day >= |res.body.forecasts|
  {
    assert LookupFailedText != NoForecastText by {
      assert |LookupFailedText| != |NoForecastText|;
    }
    if Succeeded(res) && day < |res.body.forecasts| {
      SentenceIsNoFallback(res.body.title, res.body.forecasts[day]);
    }
  }
}
