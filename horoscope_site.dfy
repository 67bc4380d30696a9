/** The sign detection and the request decision of utils/horoscope.py: `detect_zodiac`
    finds the first sign, in declaration order, one of whose forms occurs anywhere in the
    lower-cased text; `get_horoscope_from_website` refuses a sign it has no slug for and
    otherwise fetches `<base><slug>/`. The page itself is an oracle. */
module HoroscopeSite {
  import opened Optional
  import opened Strings

  /** Signs with the word forms that name them, in declaration order. */
  type SignTable = seq<(string, seq<string>)>

  const Base := "https://abc-moon.ru/goroskop/"

  const NotUnderstood := "Не понял знак. Пример: 'гороскоп для овна'."

  /** `_ZODIAC`: canonical sign to the site's slug. */
  const Slugs: map<string, string> := map[
    "овен" := "oven",
    "телец" := "telec",
    "близнецы" := "bliznecy",
    "рак" := "rak",
    "лев" := "lev",
    "дева" := "deva",
    "весы" := "vesy",
    "скорпион" := "skorpion",
    "стрелец" := "strelec",
    "козерог" := "kozerog",
    "водолей" := "vodolej",
    "рыбы" := "ryby"
  ]

  /** `_ZODIAC_FORMS`. */
  const ZodiacForms: SignTable := [
    ("овен", ["овен", "овна", "овну", "овном", "овне"]),
    ("телец", ["телец", "тельца", "тельцу", "тельцом", "тельце"]),
    ("близнецы", ["близнецы", "близнеца", "близнецам", "близнецов", "близнецу"]),
    ("рак", ["рак", "рака", "раку", "раком", "раке"]),
    ("лев", ["лев", "льва", "льву", "львом", "льве"]),
    ("дева", ["дева", "девы", "деве", "девой", "дев"]),
    ("весы", ["весы", "весов", "весам", "весами"]),
    ("скорпион", ["скорпион", "скорпиона", "скорпиону", "скорпионом", "скорпионе"]),
    ("стрелец", ["стрелец", "стрельца", "стрельцу", "стрельцом", "стрельце"]),
    ("козерог", ["козерог", "козерога", "козерогу", "козерогом", "козероге"]),
    ("водолей", ["водолей", "водолея", "водолею", "водолеем", "водолее"]),
    ("рыбы", ["рыбы", "рыб", "рыбе", "рыбам", "рыбами"])
  ]

  /** The loop of `detect_zodiac` over a table: the first entry, in order, one of whose
      forms is a plain substring of `low` (no word boundaries). */
  function FirstSign(table: SignTable, low: string): (r: Option<string>)
    ensures r.Some? ==> exists k :: 0 <= k < |table| && r.value == table[k].0
    decreases |table|
  {
    if |table| == 0 then None
    else if ContainsAny(low, table[0].1) then Some(table[0].0)
    else FirstSign(table[1..], low)
  }

  /** `FirstSign` finds a sign exactly when some form occurs, and the sign it finds is
      that of the first entry with an occurring form. */
  lemma {:induction false} FirstSignSpec(table: SignTable, low: string)
    ensures FirstSign(table, low).None? <==> forall k :: 0 <= k < |table| ==> !ContainsAny(low, table[k].1)
    ensures FirstSign(table, low).Some? ==>
              exists k :: 0 <= k < |table| && table[k].0 == FirstSign(table, low).value
                          && ContainsAny(low, table[k].1)
                          && forall j :: 0 <= j < k ==> !ContainsAny(low, table[j].1)
    decreases |table|
  {
    if |table| > 0 && !ContainsAny(low, table[0].1) {
      var rest := table[1..];
      FirstSignSpec(rest, low);
      if FirstSign(rest, low).Some? {
        var k :| 0 <= k < |rest| && rest[k].0 == FirstSign(rest, low).value
                 && ContainsAny(low, rest[k].1)
                 && forall j :: 0 <= j < k ==> !ContainsAny(low, rest[j].1);
        assert table[k + 1] == rest[k];
        forall j | 0 <= j < k + 1
          ensures !ContainsAny(low, table[j].1)
        {
          if j > 0 {
            assert table[j] == rest[j - 1];
          }
        }
      } else {
        forall k | 0 <= k < |table|
          ensures !ContainsAny(low, table[k].1)
        {
          if k > 0 {
            assert table[k] == rest[k - 1];
          }
        }
      }
    }
  }

  /** `detect_zodiac`: the text (`None` being `""`) is lower-cased first. */
  function DetectZodiac(text: string): (r: Option<string>)
    ensures r.Some? ==> r.value in Slugs
  {
    ZodiacNamesKnown();
    FirstSign(ZodiacForms, Lower(text))
  }

  /** Detection ignores case. */
  lemma DetectIgnoresCase(text: string)
    ensures DetectZodiac(Lower(text)) == DetectZodiac(text)
  {
    LowerIdempotent(text);
  }

  /** What `get_horoscope_from_website` does with a sign: refuse it, or fetch the page at
      the given address. */
  datatype SiteCall = Refuse(message: string) | Fetch(sign: string, url: string)

  function SiteRequest(zodiac: string): (r: SiteCall)
    ensures r.Fetch? <==> Strip(Lower(zodiac)) in Slugs
    ensures r.Fetch? ==> r.sign == Strip(Lower(zodiac))
    ensures r.Refuse? ==> r.message == NotUnderstood
  {
    SlugsNonEmpty();
    var z := Strip(Lower(zodiac));
    if z in Slugs && Slugs[z] != "" then Fetch(z, Base + Slugs[z] + "/") else Refuse(NotUnderstood)
  }

  /** A sign without a slug is refused with the fixed text and nothing is fetched; a sign
      with one is fetched from the base address, the slug and a slash. */
  lemma SiteRequestCases(zodiac: string)
    ensures var z := Strip(Lower(zodiac));
            SiteRequest(zodiac) == if z in Slugs then Fetch(z, Base + Slugs[z] + "/") else Refuse(NotUnderstood)
  {
    SlugsNonEmpty();
  }

  lemma SlugsNonEmpty()
    ensures forall z :: z in Slugs ==> Slugs[z] != ""
  {
  }

  /** The text `get_horoscope_from_website` returns, given what the fetch and the
      extraction of the page yield (`page`, an oracle on the address). */
  function HoroscopeFromWebsite(zodiac: string, page: string -> string): (r: string)
    ensures SiteRequest(zodiac).Refuse? ==> r == NotUnderstood
  {
    match SiteRequest(zodiac)
    case Refuse(message) => message
    case Fetch(_, url) => page(url)
  }

  /** A word of lower-case Cyrillic letters. */
  predicate LowerCyrillic(s: string) {
    forall i :: 0 <= i < |s| ==> 'а' <= s[i] <= 'я'
  }

  lemma LowerCyrillicFixed(s: string)
    requires LowerCyrillic(s)
    ensures Strip(Lower(s)) == s
  {
    assert Lower(s) == s;
    StripUnpadded(s);
  }

  /** Every sign in the table has a slug, and its canonical name is already lower-case
      and trimmed. */
  lemma ZodiacNamesKnown()
    ensures forall k :: 0 <= k < |ZodiacForms| ==> ZodiacForms[k].0 in Slugs && LowerCyrillic(ZodiacForms[k].0)
  {
  }

  /** Every sign `detect_zodiac` returns is fetched, never refused. */
  lemma DetectedSignsFetched(text: string)
    requires DetectZodiac(text).Some?
    ensures SiteRequest(DetectZodiac(text).value).Fetch?
  {
    FirstSignSpec(ZodiacForms, Lower(text));
    ZodiacNamesKnown();
    var z := DetectZodiac(text).value;
    LowerCyrillicFixed(z);
    SlugsNonEmpty();
  }
}
