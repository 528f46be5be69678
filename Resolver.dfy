/** The place resolver (`cityIdOf`) and the day parser of the weather
    handler: free text to a livedoor city code and a day offset. */
module Resolver {
  import opened Text

  const Tokyo: int := 130010
  const Kanagawa: int := 140010
  const Osaka: int := 270000
  const Kyoto: int := 260010
  const Aichi: int := 230010
  const Okinawa: int := 471010
  /** The code returned for a text that names no known place. */
  const Unresolved: int := -1

  const TokyoWords: seq<string> := ["東京", "港区", "中央区", "新宿", "渋谷", "赤坂"]
  const KanagawaWords: seq<string> := ["神奈川", "横浜"]
  const OsakaWords: seq<string> := ["大阪"]
  const KyotoWords: seq<string> := ["京都"]
  const AichiWords: seq<string> := ["愛知", "名古屋"]
  const OkinawaWords: seq<string> := ["沖縄", "那覇"]

  /** One test of the chain: the words it looks for and the code it yields. */
  datatype Region = Region(words: seq<string>, id: int)

  /** The tests of `cityIdOf`, in the order they are tried. */
  const Regions: seq<Region> := [
    Region(TokyoWords, Tokyo),
    Region(KanagawaWords, Kanagawa),
    Region(OsakaWords, Osaka),
    Region(KyotoWords, Kyoto),
    Region(AichiWords, Aichi),
    Region(OkinawaWords, Okinawa)
  ]

  /** The text names one of the places of some region. */
  predicate MentionsPlace(text: string) {
    exists k :: 0 <= k < |Regions| && ContainsAny(text, Regions[k].words)
  }

  /** `cityIdOf`: the first region, in declared order, one of whose words
      the text contains; `Unresolved` when there is none. */
  function CityIdOf(text: string): (id: int)
    ensures id in {Tokyo, Kanagawa, Osaka, Kyoto, Aichi, Okinawa, Unresolved}
  {
    if ContainsAny(text, TokyoWords) then Tokyo
    else if ContainsAny(text, KanagawaWords) then Kanagawa
    else if ContainsAny(text, OsakaWords) then Osaka
    else if ContainsAny(text, KyotoWords) then Kyoto
    else if ContainsAny(text, AichiWords) then Aichi
    else if ContainsAny(text, OkinawaWords) then Okinawa
    else Unresolved
  }

  /** Reference definition of an ordered, first-match lookup over a table. */
  function FirstMatch(rs: seq<Region>, text: string): int {
    if rs == [] then Unresolved
    else if ContainsAny(text, rs[0].words) then rs[0].id
    else FirstMatch(rs[1..], text)
  }

  /** The if/else chain of `cityIdOf` is the first-match lookup over `Regions`. */
  lemma CityIdOfIsFirstMatch(text: string)
    ensures CityIdOf(text) == FirstMatch(Regions, text)
  {
    var r := Regions;
    assert r[5..][1..] == [];
    assert FirstMatch(r[5..], text) == if ContainsAny(text, OkinawaWords) then Okinawa else Unresolved;
    assert r[4..][1..] == r[5..];
    assert FirstMatch(r[4..], text) == if ContainsAny(text, AichiWords) then Aichi else FirstMatch(r[5..], text);
    assert r[3..][1..] == r[4..];
    assert FirstMatch(r[3..], text) == if ContainsAny(text, KyotoWords) then Kyoto else FirstMatch(r[4..], text);
    assert r[2..][1..] == r[3..];
    assert FirstMatch(r[2..], text) == if ContainsAny(text, OsakaWords) then Osaka else FirstMatch(r[3..], text);
    assert r[1..][1..] == r[2..];
    assert FirstMatch(r[1..], text) == if ContainsAny(text, KanagawaWords) then Kanagawa else FirstMatch(r[2..], text);
    assert FirstMatch(r, text) == if ContainsAny(text, TokyoWords) then Tokyo else FirstMatch(r[1..], text);
  }

  /** A first-match lookup yields the code of the earliest matching entry. */
  lemma {:induction false} FirstMatchEarliest(rs: seq<Region>, text: string, k: nat)
    requires k < |rs| && ContainsAny(text, rs[k].words)
    requires forall j :: 0 <= j < k ==> !ContainsAny(text, rs[j].words)
    ensures FirstMatch(rs, text) == rs[k].id
  {
    if k > 0 {
      assert !ContainsAny(text, rs[0].words);
      FirstMatchEarliest(rs[1..], text, k - 1);
    }
  }

  /** A first-match lookup over a table of positive codes is unresolved
      exactly when no entry matches. */
  lemma {:induction false} FirstMatchUnresolved(rs: seq<Region>, text: string)
    requires forall j :: 0 <= j < |rs| ==> rs[j].id > 0
    ensures FirstMatch(rs, text) == Unresolved <==>
            (forall j :: 0 <= j < |rs| ==> !ContainsAny(text, rs[j].words))
  {
    if rs != [] && !ContainsAny(text, rs[0].words) {
      FirstMatchUnresolved(rs[1..], text);
      assert forall j :: 1 <= j < |rs| ==> rs[1..][j - 1] == rs[j];
    }
  }

  /** `cityIdOf` yields a positive code exactly when the text names one of
      the listed places, and `Unresolved` otherwise. */
  lemma CityIdOfResolvesIffMentioned(text: string)
    ensures CityIdOf(text) > 0 <==> MentionsPlace(text)
    ensures CityIdOf(text) <= 0 <==> CityIdOf(text) == Unresolved
  {
    CityIdOfIsFirstMatch(text);
    FirstMatchUnresolved(Regions, text);
  }

  /** First match in declared order: region `k` wins whenever it is the
      earliest region whose words occur, whatever later regions also occur. */
  lemma CityIdOfEarliestRegion(text: string, k: nat)
    requires k < |Regions| && ContainsAny(text, Regions[k].words)
    requires forall j :: 0 <= j < k ==> !ContainsAny(text, Regions[j].words)
    ensures CityIdOf(text) == Regions[k].id
  {
    CityIdOfIsFirstMatch(text);
    FirstMatchEarliest(Regions, text, k);
  }

  /** Any text that mentions Tokyo resolves to Tokyo, even when it also
      names Osaka or contains the word for Kyoto. */
  lemma TokyoComesFirst(text: string)
    requires Contains(text, "東京")
    ensures CityIdOf(text) == Tokyo
  {
    assert TokyoWords[0] == "東京";
  }

  /** `東京都` contains `京都`, yet it resolves to Tokyo and not to Kyoto;
      `京都` alone resolves to Kyoto. */
  lemma TokyoPrefectureIsNotKyoto()
    ensures Contains("東京都", "京都") && CityIdOf("東京都") == Tokyo
    ensures CityIdOf("京都") == Kyoto
  {
    ContainsInfix("東", "京都", "");
    assert "東" + "京都" + "" == "東京都";
    TokyoComesFirst("東京都");
    assert "京都" <= "京都";
    assert KyotoWords[0] == "京都";
    forall w | w in TokyoWords + KanagawaWords + OsakaWords
      ensures !Contains("京都", w)
    {
      NotContainsFirstChar("京都", w);
    }
    assert forall j :: 0 <= j < 3 ==> ContainsAny("京都", Regions[j].words) == false;
    CityIdOfEarliestRegion("京都", 3);
  }

  /** A text that names both Osaka and Tokyo resolves to Tokyo. */
  lemma TokyoBeatsOsaka(a: string, b: string, c: string)
    ensures CityIdOf(a + "東京" + b + "大阪" + c) == Tokyo
    ensures CityIdOf(a + "大阪" + b + "東京" + c) == Tokyo
  {
    ContainsInfix(a, "東京", b + "大阪" + c);
    assert a + "東京" + (b + "大阪" + c) == a + "東京" + b + "大阪" + c;
    TokyoComesFirst(a + "東京" + b + "大阪" + c);
    ContainsInfix(a + "大阪" + b, "東京", c);
    TokyoComesFirst(a + "大阪" + b + "東京" + c);
  }

  const Tomorrow: string := "明日"
  const DayAfterTomorrow: string := "明後日"

  /** The day offset of the weather handler: 1 for a text containing
      `明日`, otherwise 2 for a text containing `明後日`, otherwise 0. */
  function DayOffset(text: string): (day: nat)
    ensures day <= 2
    ensures day == 1 <==> Contains(text, Tomorrow)
    ensures day == 2 <==> !Contains(text, Tomorrow) && Contains(text, DayAfterTomorrow)
    ensures day == 0 <==> !Contains(text, Tomorrow) && !Contains(text, DayAfterTomorrow)
  {
    if Contains(text, Tomorrow) then 1
    else if Contains(text, DayAfterTomorrow) then 2
    else 0
  }

  /** `明後日` does not contain `明日` (the characters are not adjacent),
      so the second test is reachable: the day after tomorrow is offset 2. */
  lemma DayAfterTomorrowIsTwo()
    ensures DayOffset(DayAfterTomorrow) == 2
  {
    forall i: nat ensures !OccursAt(DayAfterTomorrow, Tomorrow, i) {
      if i == 0 {
        assert DayAfterTomorrow[0..2][1] == '後';
      } else if i == 1 {
        assert DayAfterTomorrow[1..3][0] == '後';
      }
    }
    NotContainsAt(DayAfterTomorrow, Tomorrow);
  }

  /** A text that names both days yields offset 1. */
  lemma TomorrowWinsOverDayAfter(a: string, b: string, c: string)
    ensures DayOffset(a + Tomorrow + b + DayAfterTomorrow + c) == 1
  {
    ContainsInfix(a, Tomorrow, b + DayAfterTomorrow + c);
    assert a + Tomorrow + (b + DayAfterTomorrow + c) == a + Tomorrow + b + DayAfterTomorrow + c;
  }
}
