/** `get_artwork_info` after the response is decoded: look the artwork up in `body`, parse its
    `updateDate`, build the date and the original-image URL. */
module ArtworkInfo {
  import opened Wrappers
  import opened Digits
  import opened UpdateDate
  import opened Endpoints

  /** A JSON value in an artwork record: a string, or anything else. */
  datatype Field = Text(text: string) | NonText

  /** One artwork's record and the `body` object of the response, keyed by artwork id text. */
  type Record = map<string, Field>
  type Body = map<string, Record>

  /** An artwork id as passed in: an integer, or the key text the listing endpoint returns. */
  datatype ArtworkId = IntId(n: int) | StrId(s: string)

  /** `str(artwork_id)`, which is also what the f-string inserts in the URL. */
  function Key(id: ArtworkId): (k: string)
    ensures id.IntId? && id.n >= 0 ==> IsDigitRun(k) && Value(k) == id.n && (|k| == 1 || k[0] != '0')
    ensures id.IntId? && id.n < 0 ==> |k| > 1 && k[0] == '-' && IsDigitRun(k[1..]) && Value(k[1..]) == -id.n && k[1] != '0'
    ensures id.StrId? ==> k == id.s
  {
    match id
    case IntId(n) => IntToString(n)
    case StrId(s) => s
  }

  /** The dict the function returns: the raw record, the parsed date and the image URL. */
  datatype Info = Info(raw: Record, updateDate: DateTime, url: string)

  /** The exception each failing step raises. */
  datatype InfoError =
    | MissingArtwork      // KeyError: body[str(artwork_id)]
    | MissingUpdateDate   // KeyError: raw["updateDate"]
    | UpdateDateNotText   // TypeError: re.match on a non-string
    | DateMismatch        // AttributeError: groupdict() on the None of a failed match
    | DateOutOfRange      // ValueError: datetime(...) rejects a field value

  function GetArtworkInfo(body: Body, id: ArtworkId): (r: Result<Info, InfoError>)
    ensures r.Success? ==>
      Key(id) in body && r.value.raw == body[Key(id)] &&
      "updateDate" in r.value.raw && r.value.raw["updateDate"].Text? &&
      exists f :: ValidFields(f) && Format(f) <= r.value.raw["updateDate"].text &&
        MakeDateTime(f) == Some(r.value.updateDate) && r.value.url == ImageUrl(f, Key(id))
  {
    var key := Key(id);
    if key !in body then Failure(MissingArtwork)
    else
      var raw := body[key];
      if "updateDate" !in raw then Failure(MissingUpdateDate)
      else if !raw["updateDate"].Text? then Failure(UpdateDateNotText)
      else
        var text := raw["updateDate"].text;
        match Parse(text)
        case None => Failure(DateMismatch)
        case Some(d) =>
          ParseSound(text);
          match MakeDateTime(d)
          case None => Failure(DateOutOfRange)
          case Some(t) => Success(Info(raw, t, ImageUrl(d, key)))
  }

  /** Round trip through the record: a date text made of six digit runs and the `+09:00`
      offset, with anything after it, yields the URL with those digit runs pasted verbatim. */
  lemma GetArtworkInfoFromText(body: Body, id: ArtworkId, f: DateFields, suffix: string)
    requires ValidFields(f)
    requires Key(id) in body && "updateDate" in body[Key(id)]
    requires body[Key(id)]["updateDate"] == Text(Format(f) + suffix)
    requires MakeDateTime(f).Some?
    ensures GetArtworkInfo(body, id) == Success(Info(body[Key(id)], MakeDateTime(f).value,
      "https://i.pximg.net/img-original/img/" + f.year + "/" + f.month + "/" + f.day + "/" +
      f.hour + "/" + f.minute + "/" + f.second + "/" + Key(id) + "_p0.jpg"))
  {
    ParseFormat(f, suffix);
  }

  /** Each failure, and the condition that raises it, in the order the steps run. */
  lemma GetArtworkInfoFailures(body: Body, id: ArtworkId)
    ensures GetArtworkInfo(body, id) == Failure(MissingArtwork) <==> Key(id) !in body
    ensures GetArtworkInfo(body, id) == Failure(MissingUpdateDate) <==>
      Key(id) in body && "updateDate" !in body[Key(id)]
    ensures GetArtworkInfo(body, id) == Failure(UpdateDateNotText) <==>
      Key(id) in body && "updateDate" in body[Key(id)] && !body[Key(id)]["updateDate"].Text?
    ensures GetArtworkInfo(body, id) == Failure(DateMismatch) <==>
      Key(id) in body && "updateDate" in body[Key(id)] && body[Key(id)]["updateDate"].Text? &&
      !Matches(body[Key(id)]["updateDate"].text)
    ensures GetArtworkInfo(body, id) == Failure(DateOutOfRange) <==>
      Key(id) in body && "updateDate" in body[Key(id)] && body[Key(id)]["updateDate"].Text? &&
      Parse(body[Key(id)]["updateDate"].text).Some? &&
      MakeDateTime(Parse(body[Key(id)]["updateDate"].text).value).None?
  {
    if Key(id) in body && "updateDate" in body[Key(id)] && body[Key(id)]["updateDate"].Text? {
      ParseIffMatches(body[Key(id)]["updateDate"].text);
    }
  }

  lemma ExampleKey()
    ensures Key(IntId(12345)) == "12345"
  {
    assert Decimal(1) == "1";
    assert Decimal(12) == "12";
    assert Decimal(123) == "123";
    assert Decimal(1234) == "1234";
  }

  lemma ExampleYear()
    ensures Value("2021") == 2021
  {
    assert Value("2") == 2;
    assert "20"[..1] == "2";
    assert Value("20") == 20;
    assert "202"[..2] == "20";
    assert Value("202") == 202;
    assert "2021"[..3] == "202";
  }

  lemma ExampleDateTime()
    ensures MakeDateTime(DateFields("2021", "05", "03", "10", "20", "30")) ==
            Some(DateTime(2021, 5, 3, 10, 20, 30))
  {
    ExampleYear();
    assert Value("0") == 0 && Value("1") == 1 && Value("2") == 2 && Value("3") == 3;
    assert "05"[..1] == "0" && "03"[..1] == "0";
    assert "10"[..1] == "1" && "20"[..1] == "2" && "30"[..1] == "3";
  }

  /** The example's date text and URL, assembled from their pieces; proved on their own so that
      the example's proof stays small. */
  lemma ExampleText()
    ensures Format(DateFields("2021", "05", "03", "10", "20", "30")) + "" == "2021-05-03T10:20:30+09:00"
  {
  }

  lemma ExampleUrlText()
    ensures "https://i.pximg.net/img-original/img/" + "2021" + "/" + "05" + "/" + "03" + "/" +
      "10" + "/" + "20" + "/" + "30" + "/" + "12345" + "_p0.jpg" ==
      "https://i.pximg.net/img-original/img/2021/05/03/10/20/30/12345_p0.jpg"
  {
  }

  /** The worked example: `2021-05-03T10:20:30+09:00` for artwork 12345, zero padding kept. */
  lemma ExampleImageUrl()
    ensures var body := map["12345" := map["updateDate" := Text("2021-05-03T10:20:30+09:00")]];
      GetArtworkInfo(body, IntId(12345)) == Success(Info(body["12345"],
        DateTime(2021, 5, 3, 10, 20, 30),
        "https://i.pximg.net/img-original/img/2021/05/03/10/20/30/12345_p0.jpg"))
  {
    var f := DateFields("2021", "05", "03", "10", "20", "30");
    ExampleText();
    ExampleUrlText();
    ExampleKey();
    ExampleDateTime();
    var body := map["12345" := map["updateDate" := Text("2021-05-03T10:20:30+09:00")]];
    GetArtworkInfoFromText(body, IntId(12345), f, "");
  }
}
