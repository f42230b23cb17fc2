/** The current book-feed job (fetch_book_feeds/main.py): a Hanmoto RSS
    entry becomes a record keyed by the ISBN at the end of its id, enriched
    with what openBD returns for that ISBN, and the entries are handled in
    batches of 200. */
module BookFeeds {

  import opened Results
  import opened Strings
  import opened Json
  import opened Batches
  import opened Onix
  import opened Hanmoto

  // ---------------------------------------------------------------------------
  // openBD records

  /** What `parse_openbd` returns; every value is whatever JSON the record
      holds at that place. `label` and `series` are JNull for Python's None. */
  datatype Openbd = Openbd(
    title: Json,
    description: Json,
    authors: Json,
    subjects: Json,
    keyword: Json,
    cCode: Json,
    labelName: Json,
    series: Json)

  const TitlePath: seq<string> := ["DescriptiveDetail", "TitleDetail", "TitleElement", "TitleText", "content"]

  /** `parse_openbd`, step by step in the order the code evaluates. */
  function OpenbdOf(record: Json): Result<Openbd> {
    var onix :- GetItem(record, "onix");
    var title :- GetPath(onix, TitlePath);
    var texts :- TextContents(onix);
    var description :- Description(texts);
    var authors :- GetPath(onix, ["DescriptiveDetail", "Contributor"]);
    var detail :- TitleDetail(onix);
    var subjects :- Subjects(onix);
    var descriptive :- GetItem(onix, "DescriptiveDetail");
    var subjectList :- GetOr(descriptive, "Subject", JNull);
    Ok(Openbd(title, description, authors, subjectList, subjects.0, subjects.1, detail.0, detail.1))
  }

  /** `parse_openbd`, running the description, title-detail and subject loops. */
  method ParseOpenbd(record: Json) returns (r: Result<Openbd>)
    ensures r == OpenbdOf(record)
  {
    var onix := GetItem(record, "onix");
    if onix.Err? {
      return Err(onix.error);
    }
    var title := GetPath(onix.value, TitlePath);
    if title.Err? {
      return Err(title.error);
    }
    var texts := TextContents(onix.value);
    if texts.Err? {
      return Err(texts.error);
    }
    var description := FindDescription(texts.value);
    if description.Err? {
      return Err(description.error);
    }
    var authors := GetPath(onix.value, ["DescriptiveDetail", "Contributor"]);
    if authors.Err? {
      return Err(authors.error);
    }
    var detail := GetTitleDetail(onix.value);
    if detail.Err? {
      return Err(detail.error);
    }
    var subjects := ScanSubjects(onix.value);
    if subjects.Err? {
      return Err(subjects.error);
    }
    // the title path already went through DescriptiveDetail
    assert GetItem(onix.value, "DescriptiveDetail").Ok?;
    var descriptive := GetItem(onix.value, "DescriptiveDetail").value;
    var subjectList := GetOr(descriptive, "Subject", JNull);
    if subjectList.Err? {
      return Err(subjectList.error);
    }
    var s := subjects.value;
    var d := detail.value;
    return Ok(Openbd(title.value, description.value, authors.value, subjectList.value, s.0, s.1, d.0, d.1));
  }

  /** Where each field of a parsed record comes from: the title at
      DescriptiveDetail.TitleDetail.TitleElement.TitleText.content, the
      authors at DescriptiveDetail.Contributor, `subjects` the Subject list or
      None, the description, keyword/C-code and label/series as their scans
      settle (see `Onix`). */
  lemma OpenbdFields(record: Json)
    requires OpenbdOf(record).Ok?
    ensures GetItem(record, "onix").Ok?
    ensures var onix := GetItem(record, "onix").value;
            var o := OpenbdOf(record).value;
            && GetPath(onix, TitlePath) == Ok(o.title)
            && GetPath(onix, ["DescriptiveDetail", "Contributor"]) == Ok(o.authors)
            && TextContents(onix).Ok? && Description(TextContents(onix).value) == Ok(o.description)
            && TitleDetail(onix) == Ok((o.labelName, o.series))
            && Subjects(onix) == Ok((o.keyword, o.cCode))
            && GetItem(onix, "DescriptiveDetail").Ok?
            && GetOr(GetItem(onix, "DescriptiveDetail").value, "Subject", JNull) == Ok(o.subjects)
  {
  }

  // ---------------------------------------------------------------------------
  // fetch_openbk

  /** `requests.get(url).json()` on the openBD API. */
  type OpenbdApi = string -> Result<Json>

  const OpenbdEndpoint: string := "https://api.openbd.jp/v1/get?isbn="

  function OpenbdUrl(isbns: seq<string>): string {
    OpenbdEndpoint + Join(isbns, ",")
  }

  /** `fetch_openbk`: the records parsed and keyed by RecordReference. */
  function OpenbdMap(api: OpenbdApi, isbns: seq<string>): Result<Dict<Json, Openbd>> {
    var response :- api(OpenbdUrl(isbns));
    var records :- Iterate(response);
    KeyRecords(records, OpenbdOf, [])
  }

  /** `fetch_openbk`, running its loop. */
  method FetchOpenbk(api: OpenbdApi, isbns: seq<string>) returns (r: Result<Dict<Json, Openbd>>)
    ensures r == OpenbdMap(api, isbns)
  {
    var response := api(OpenbdUrl(isbns));
    if response.Err? {
      return Err(response.error);
    }
    var records := Iterate(response.value);
    if records.Err? {
      return Err(records.error);
    }
    var items := records.value;
    var value: Dict<Json, Openbd> := [];
    var i := 0;
    while i < |items|
      invariant 0 <= i <= |items|
      invariant KeyRecords(items, OpenbdOf, []) == KeyRecords(items[i..], OpenbdOf, value)
    {
      assert items[i..][1..] == items[i + 1..];
      var d := items[i];
      if d != JNull {
        var ref := RecordReference(d);
        if ref.Err? {
          return Err(ref.error);
        }
        var parsed := ParseOpenbd(d);
        if parsed.Err? {
          return Err(parsed.error);
        }
        if !Hashable(ref.value) {
          return Err(TypeError);
        }
        value := Put(value, ref.value, parsed.value);
      }
      i := i + 1;
    }
    return Ok(value);
  }

  /** The fetched map holds a key exactly when some record other than None
      has it as RecordReference, holds each key once, and under each key the
      last record with that reference. */
  lemma OpenbdMapKeys(api: OpenbdApi, isbns: seq<string>, key: Json, k: nat)
    requires OpenbdMap(api, isbns).Ok?
    ensures api(OpenbdUrl(isbns)).Ok? && Iterate(api(OpenbdUrl(isbns)).value).Ok?
    ensures var records := Iterate(api(OpenbdUrl(isbns)).value).value;
            var m := OpenbdMap(api, isbns).value;
            && (HasKey(m, key) <==> exists j :: 0 <= j < |records| && records[j] != JNull && RecordReference(records[j]) == Ok(key))
            && UniqueKeys(m)
            && (k < |records| && records[k] != JNull
                && (forall j :: k < j < |records| && records[j] != JNull ==> RecordReference(records[j]) != RecordReference(records[k])) ==>
                  RecordReference(records[k]).Ok? && OpenbdOf(records[k]).Ok?
                  && Lookup(m, RecordReference(records[k]).value) == Some(OpenbdOf(records[k]).value))
  {
    var records := Iterate(api(OpenbdUrl(isbns)).value).value;
    KeyRecordsKeys(records, OpenbdOf, [], key);
    if k < |records| && records[k] != JNull
       && forall j :: k < j < |records| && records[j] != JNull ==> RecordReference(records[j]) != RecordReference(records[k])
    {
      KeyRecordsLast(records, OpenbdOf, [], k);
    }
  }

  // ---------------------------------------------------------------------------
  // HanmotoData.to_dict

  /** One feed entry; `openbd` and `fromHanmotoweb` start as None (JNull). */
  datatype HanmotoData = HanmotoData(
    id: string,
    rawTitle: string,
    title: string,
    authors: string,
    publisher: string,
    publishDate: string,
    link: Json,
    isbn: string,
    openbd: Option<Openbd>,
    fromHanmotoweb: Json)

  /** The keys of `to_dict`, in order. */
  const ToDictKeys: seq<string> := [
    "id", "raw_title", "title", "authors", "publisher", "publish_date", "link", "isbn",
    "description", "keywords", "c_code", "author_data", "label", "series"]

  /** `to_dict`: openBD values or "" / []; the scraped C-code and description
      replace only empty ones. */
  function ToDict(d: HanmotoData): Result<Dict<string, Json>> {
    var description := if d.openbd.Some? then d.openbd.value.description else JStr("");
    var keyword := if d.openbd.Some? then d.openbd.value.keyword else JStr("");
    var cCode := if d.openbd.Some? then d.openbd.value.cCode else JStr("");
    var authorData := if d.openbd.Some? then d.openbd.value.authors else JArr([]);
    var cCode' :- if !Truthy(cCode) && Truthy(d.fromHanmotoweb) then GetItem(d.fromHanmotoweb, "ccode") else Ok(cCode);
    var description' :-
      if !Truthy(description) && Truthy(d.fromHanmotoweb) then GetItem(d.fromHanmotoweb, "description") else Ok(description);
    var labelName := if d.openbd.Some? then d.openbd.value.labelName else JStr("");
    var series := if d.openbd.Some? then d.openbd.value.series else JStr("");
    Ok([("id", JStr(d.id)), ("raw_title", JStr(d.rawTitle)), ("title", JStr(d.title)),
        ("authors", JStr(d.authors)), ("publisher", JStr(d.publisher)), ("publish_date", JStr(d.publishDate)),
        ("link", d.link), ("isbn", JStr(d.isbn)), ("description", description'), ("keywords", keyword),
        ("c_code", cCode'), ("author_data", authorData), ("label", labelName), ("series", series)])
  }

  /** The fourteen keys are distinct. */
  lemma ToDictKeysUnique()
    ensures forall i, j :: 0 <= i < j < |ToDictKeys| ==> ToDictKeys[i] != ToDictKeys[j]
  {
  }

  /** The dict has the fourteen keys, in order. */
  lemma ToDictShape(d: HanmotoData)
    requires ToDict(d).Ok?
    ensures |ToDict(d).value| == |ToDictKeys|
    ensures forall k :: 0 <= k < |ToDictKeys| ==> ToDict(d).value[k].0 == ToDictKeys[k]
  {
  }

  /** Each key appears once and looks up its own position's value. */
  lemma ToDictLookup(d: HanmotoData, k: nat)
    requires ToDict(d).Ok? && k < |ToDictKeys|
    ensures UniqueKeys(ToDict(d).value)
    ensures Lookup(ToDict(d).value, ToDictKeys[k]) == Some(ToDict(d).value[k].1)
  {
    ToDictShape(d);
    ToDictKeysUnique();
    LookupAt(ToDict(d).value, k);
  }

  /** The identity fields are copied unchanged. */
  lemma ToDictIdentity(d: HanmotoData)
    requires ToDict(d).Ok?
    ensures var r := ToDict(d).value;
            && r[0] == ("id", JStr(d.id))
            && r[1] == ("raw_title", JStr(d.rawTitle))
            && r[2] == ("title", JStr(d.title))
            && r[3] == ("authors", JStr(d.authors))
            && r[4] == ("publisher", JStr(d.publisher))
            && r[5] == ("publish_date", JStr(d.publishDate))
            && r[6] == ("link", d.link)
            && r[7] == ("isbn", JStr(d.isbn))
  {
  }

  /** Without openBD data or scraped data, every enrichment field is "" and
      `author_data` is []. */
  lemma ToDictWithoutOpenbd(d: HanmotoData)
    requires d.openbd.None? && !Truthy(d.fromHanmotoweb)
    ensures ToDict(d).Ok?
    ensures var r := ToDict(d).value;
            && r[8] == ("description", JStr(""))
            && r[9] == ("keywords", JStr(""))
            && r[10] == ("c_code", JStr(""))
            && r[11] == ("author_data", JArr([]))
            && r[12] == ("label", JStr(""))
            && r[13] == ("series", JStr(""))
  {
  }

  /** With openBD data and no scraped data, the enrichment fields are the
      openBD values as they are, None label and series included. */
  lemma ToDictWithOpenbd(d: HanmotoData)
    requires d.openbd.Some? && !Truthy(d.fromHanmotoweb)
    ensures ToDict(d).Ok?
    ensures var r := ToDict(d).value;
            var o := d.openbd.value;
            && r[8] == ("description", o.description)
            && r[9] == ("keywords", o.keyword)
            && r[10] == ("c_code", o.cCode)
            && r[11] == ("author_data", o.authors)
            && r[12] == ("label", o.labelName)
            && r[13] == ("series", o.series)
  {
  }

  /** Scraped values are used only where the C-code or the description is
      still empty (falsy); a non-empty value is kept. */
  lemma ToDictFallback(d: HanmotoData)
    requires ToDict(d).Ok?
    ensures var r := ToDict(d).value;
            var cCode := if d.openbd.Some? then d.openbd.value.cCode else JStr("");
            var description := if d.openbd.Some? then d.openbd.value.description else JStr("");
            && (Truthy(cCode) || !Truthy(d.fromHanmotoweb) ==> r[10].1 == cCode)
            && (!Truthy(cCode) && Truthy(d.fromHanmotoweb) ==> GetItem(d.fromHanmotoweb, "ccode") == Ok(r[10].1))
            && (Truthy(description) || !Truthy(d.fromHanmotoweb) ==> r[8].1 == description)
            && (!Truthy(description) && Truthy(d.fromHanmotoweb) ==> GetItem(d.fromHanmotoweb, "description") == Ok(r[8].1))
  {
  }

  // ---------------------------------------------------------------------------
  // handle_entries

  /** `parse_date(published)`: the ISO date text, or the error `strptime` raises. */
  type DateParser = Json -> Result<string>

  /** The first loop's body for one entry, in the code's order: title, id,
      link, published, the parsed date, the ISBN (last "/" segment of the id)
      and the title split. */
  function EntryData(entry: Json, parseDate: DateParser): Result<HanmotoData> {
    var rawTitle :- GetItem(entry, "title");
    var id :- GetItem(entry, "id");
    var link :- GetItem(entry, "link");
    var published :- GetItem(entry, "published");
    var date :- parseDate(published);
    if !id.JStr? then Err(AttributeError)
    else
      var isbn := LastSegment(id.s, '/');
      if !rawTitle.JStr? then Err(TypeError)
      else
        var parts :- ParseTitle(rawTitle.s, true);
        Ok(HanmotoData(id.s, rawTitle.s, parts.title, parts.author, parts.publisher, date, link, isbn, None, JNull))
  }

  function EntryParser(parseDate: DateParser): Json -> Result<HanmotoData> {
    entry => EntryData(entry, parseDate)
  }

  function Isbns(books: seq<HanmotoData>): (r: seq<string>)
    ensures |r| == |books| && forall k :: 0 <= k < |books| ==> r[k] == books[k].isbn
  {
    seq(|books|, k requires 0 <= k < |books| => books[k].isbn)
  }

  /** `if bd.isbn in openbd_data: bd = bd._replace(openbd=openbd_data[bd.isbn])`. */
  function Attach(bd: HanmotoData, openbdData: Dict<Json, Openbd>): HanmotoData {
    if HasKey(openbdData, JStr(bd.isbn)) then bd.(openbd := Lookup(openbdData, JStr(bd.isbn))) else bd
  }

  function AttachAll(books: seq<HanmotoData>, openbdData: Dict<Json, Openbd>): (r: seq<HanmotoData>)
    ensures |r| == |books| && forall k :: 0 <= k < |books| ==> r[k] == Attach(books[k], openbdData)
  {
    seq(|books|, k requires 0 <= k < |books| => Attach(books[k], openbdData))
  }

  /** `handle_entries`: the records, the openBD map fetched for their ISBNs,
      then one dict per record. The crawling branch is off
      (`ENABLE_CRAWLING = False`), so no record gets scraped data. */
  function HandleEntriesSpec(entries: seq<Json>, parseDate: DateParser, api: OpenbdApi): Result<seq<Dict<string, Json>>> {
    var books :- MapAll(entries, EntryParser(parseDate));
    var openbdData :- OpenbdMap(api, Isbns(books));
    MapAll(AttachAll(books, openbdData), ToDict)
  }

  /** The first loop of `handle_entries`: one record per entry, and their ISBNs. */
  method ParseEntries(entries: seq<Json>, parseDate: DateParser) returns (r: Result<seq<HanmotoData>>, isbns: seq<string>)
    ensures r == MapAll(entries, EntryParser(parseDate))
    ensures r.Ok? ==> isbns == Isbns(r.value)
  {
    isbns := [];
    var books: seq<HanmotoData> := [];
    var i := 0;
    while i < |entries|
      invariant 0 <= i <= |entries|
      invariant MapAll(entries[..i], EntryParser(parseDate)) == Ok(books)
      invariant isbns == Isbns(books)
    {
      var data := EntryData(entries[i], parseDate);
      MapAllStep(entries, i, EntryParser(parseDate), books);
      if data.Err? {
        return Err(data.error), isbns;
      }
      books := books + [data.value];
      isbns := isbns + [data.value.isbn];
      i := i + 1;
    }
    assert entries[..i] == entries;
    return Ok(books), isbns;
  }

  /** The second loop of `handle_entries`: attach the openBD data, then `to_dict`. */
  method ToDicts(books: seq<HanmotoData>, openbdData: Dict<Json, Openbd>) returns (r: Result<seq<Dict<string, Json>>>)
    ensures r == MapAll(AttachAll(books, openbdData), ToDict)
  {
    var attached := AttachAll(books, openbdData);
    var values: seq<Dict<string, Json>> := [];
    var j := 0;
    while j < |books|
      invariant 0 <= j <= |books|
      invariant MapAll(attached[..j], ToDict) == Ok(values)
    {
      var bd := books[j];
      if HasKey(openbdData, JStr(bd.isbn)) {
        bd := bd.(openbd := Lookup(openbdData, JStr(bd.isbn)));
      }
      assert bd == attached[j];
      var dict := ToDict(bd);
      MapAllStep(attached, j, ToDict, values);
      if dict.Err? {
        return Err(dict.error);
      }
      values := values + [dict.value];
      j := j + 1;
    }
    assert attached[..j] == attached;
    return Ok(values);
  }

  /** `handle_entries`. */
  method HandleEntries(entries: seq<Json>, parseDate: DateParser, api: OpenbdApi)
    returns (r: Result<seq<Dict<string, Json>>>)
    ensures r == HandleEntriesSpec(entries, parseDate, api)
  {
    var books, isbns := ParseEntries(entries, parseDate);
    if books.Err? {
      return Err(books.error);
    }
    var openbdData := FetchOpenbk(api, isbns);
    if openbdData.Err? {
      return Err(openbdData.error);
    }
    r := ToDicts(books.value, openbdData.value);
  }

  /** What an entry contributes: its id, title, link and date copied, the
      ISBN the last "/" segment of its id, the title split with DOTALL. */
  lemma EntryDataFields(entry: Json, parseDate: DateParser)
    requires EntryData(entry, parseDate).Ok?
    ensures var b := EntryData(entry, parseDate).value;
            && GetItem(entry, "id") == Ok(JStr(b.id))
            && GetItem(entry, "title") == Ok(JStr(b.rawTitle))
            && GetItem(entry, "link") == Ok(b.link)
            && GetItem(entry, "published").Ok? && parseDate(GetItem(entry, "published").value) == Ok(b.publishDate)
            && b.isbn == LastSegment(b.id, '/')
            && ParseTitle(b.rawTitle, true) == Ok(TitleParts(b.title, b.authors, b.publisher))
            && b.openbd.None? && b.fromHanmotoweb == JNull
  {
  }

  /** One dict per entry, in entry order: the dict of the entry's record,
      with the openBD data attached when its ISBN is a key of the map fetched
      for all the records' ISBNs. */
  lemma HandleEntriesOutputs(entries: seq<Json>, parseDate: DateParser, api: OpenbdApi, k: nat)
    requires HandleEntriesSpec(entries, parseDate, api).Ok?
    requires k < |entries|
    ensures MapAll(entries, EntryParser(parseDate)).Ok?
    ensures var books := MapAll(entries, EntryParser(parseDate)).value;
            var out := HandleEntriesSpec(entries, parseDate, api).value;
            && |books| == |entries| && |out| == |entries|
            && EntryData(entries[k], parseDate) == Ok(books[k])
            && OpenbdMap(api, Isbns(books)).Ok?
            && ToDict(Attach(books[k], OpenbdMap(api, Isbns(books)).value)) == Ok(out[k])
  {
    var f := EntryParser(parseDate);
    MapAllSpec(entries, f);
    var books := MapAll(entries, f).value;
    assert f(entries[k]) == Ok(books[k]);
    var m := OpenbdMap(api, Isbns(books)).value;
    var attached := AttachAll(books, m);
    assert HandleEntriesSpec(entries, parseDate, api) == MapAll(attached, ToDict);
    MapAllSpec(attached, ToDict);
    assert attached[k] == Attach(books[k], m);
  }

  // ---------------------------------------------------------------------------
  // The feed URL and the batching

  const HanmotoSearch: string := "https://www.hanmoto.com/ci/bd/search/sdate/"

  /** `get_url(date_int)`: the same day offset as start and end date. */
  function GetUrl(days: int): string {
    var day := IntToString(days) + "day";
    HanmotoSearch + day + "/edate/" + day + "/order/asc/vw/rss20/"
  }

  lemma NoLetterD(i: int)
    ensures 'd' !in IntToString(i)
  {
    var t := IntToString(i);
    if i < 0 {
      forall k | 0 <= k < |t| ensures t[k] != 'd' {
        if k > 0 { assert t[k] == NatToString(-i)[k - 1]; }
      }
    }
  }

  /** After a prefix `a`, the text `a + d + b + d + c` with `d` = the
      digits `n` + "day" is `n`, then "d", then the rest. */
  lemma DayLayout(a: string, n: string, b: string, c: string)
    ensures var d := n + "day";
            (a + d + b + d + c)[|a|..] == n + ['d'] + ("ay" + b + d + c)
  {
    var d := n + "day";
    assert "day" == ['d'] + "ay";
    assert a + d + b + d + c == a + (n + ['d'] + ("ay" + b + d + c));
  }

  /** The offset reads back from the URL, right after the search prefix, so
      different offsets give different URLs. */
  lemma GetUrlOffset(days: int)
    ensures |GetUrl(days)| > |HanmotoSearch|
    ensures GetUrl(days)[..|HanmotoSearch|] == HanmotoSearch
    ensures ParseInt(Split(GetUrl(days)[|HanmotoSearch|..], 'd')[0]) == Some(days)
  {
    var n := IntToString(days);
    var d := n + "day";
    var rest := "ay" + "/edate/" + d + "/order/asc/vw/rss20/";
    DayLayout(HanmotoSearch, n, "/edate/", "/order/asc/vw/rss20/");
    assert GetUrl(days)[|HanmotoSearch|..] == n + ['d'] + rest;
    NoLetterD(days);
    SplitPrefix(n, 'd', rest);
    IntToStringRoundTrip(days);
  }

  lemma GetUrlInjective(a: int, b: int)
    requires GetUrl(a) == GetUrl(b)
    ensures a == b
  {
    GetUrlOffset(a);
    GetUrlOffset(b);
  }

  /** Entries per `handle_entries` call. */
  const BatchSize: nat := 200

  function Handler(parseDate: DateParser, api: OpenbdApi): seq<Json> -> Result<seq<Dict<string, Json>>> {
    batch => HandleEntriesSpec(batch, parseDate, api)
  }

  /** What `fetch_feed` yields: the batches handled in order. */
  function Feed(entries: seq<Json>, parseDate: DateParser, api: OpenbdApi): Result<seq<Dict<string, Json>>> {
    HandleAll(Chunks(entries, BatchSize), Handler(parseDate, api))
  }

  /** `fetch_feed`: collect entries, hand over each full batch of 200 and
      start a new one, and hand over the partial batch left at the end. */
  method FetchFeed(entries: seq<Json>, parseDate: DateParser, api: OpenbdApi)
    returns (r: Result<seq<Dict<string, Json>>>)
    ensures r == Feed(entries, parseDate, api)
  {
    var h := Handler(parseDate, api);
    var pending: seq<Json> := [];
    ghost var done: seq<seq<Json>> := [];
    var out: seq<Dict<string, Json>> := [];
    BatchingStart(entries, BatchSize, h);
    var i := 0;
    while i < |entries|
      invariant Batching(entries, BatchSize, i, done, pending, out, h)
      decreases |entries| - i
    {
      var next := pending + [entries[i]];
      if |next| < BatchSize {
        BatchingPush(entries, BatchSize, i, done, pending, out, h);
        pending := next;
      } else {
        var books := HandleEntries(next, parseDate, api);
        if books.Err? {
          BatchingFail(entries, BatchSize, i, done, pending, out, h);
          return Err(books.error);
        }
        BatchingFlush(entries, BatchSize, i, done, pending, out, h);
        done := done + [next];
        out := out + books.value;
        pending := [];
      }
      i := i + 1;
    }
    BatchingEnd(entries, BatchSize, done, pending, out, h);
    if |pending| > 0 {
      var books := HandleEntries(pending, parseDate, api);
      if books.Err? {
        return Err(books.error);
      }
      out := out + books.value;
    }
    return Ok(out);
  }

  /** Every entry is handed over exactly once and in order: the batches
      concatenate back to the entries, hold 1 to 200 entries, all but the last
      exactly 200; a successful run gives one dict per entry. */
  lemma FeedBatches(entries: seq<Json>, parseDate: DateParser, api: OpenbdApi)
    ensures Flatten(Chunks(entries, BatchSize)) == entries
    ensures forall k :: 0 <= k < |Chunks(entries, BatchSize)| ==> 0 < |Chunks(entries, BatchSize)[k]| <= BatchSize
    ensures forall k :: 0 <= k < |Chunks(entries, BatchSize)| - 1 ==> |Chunks(entries, BatchSize)[k]| == BatchSize
    ensures Feed(entries, parseDate, api).Ok? ==> |Feed(entries, parseDate, api).value| == |entries|
  {
    ChunksFlatten(entries, BatchSize);
    ChunksSizes(entries, BatchSize);
    var bs := Chunks(entries, BatchSize);
    var h := Handler(parseDate, api);
    if Feed(entries, parseDate, api).Ok? {
      forall k | 0 <= k < |bs| && h(bs[k]).Ok? ensures |h(bs[k]).value| == |bs[k]| {
        HandleEntriesLength(bs[k], parseDate, api);
      }
      HandleAllLength(bs, h);
    }
  }

  lemma HandleEntriesLength(entries: seq<Json>, parseDate: DateParser, api: OpenbdApi)
    requires HandleEntriesSpec(entries, parseDate, api).Ok?
    ensures |HandleEntriesSpec(entries, parseDate, api).value| == |entries|
  {
    MapAllSpec(entries, EntryParser(parseDate));
    var books := MapAll(entries, EntryParser(parseDate)).value;
    MapAllSpec(AttachAll(books, OpenbdMap(api, Isbns(books)).value), ToDict);
  }
}
