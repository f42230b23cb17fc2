/** The older book-feed job (fetch_feeds/main.py): the same Hanmoto-to-openBD
    enrichment with a smaller record (no label, series or scraped data, the
    key `keyword` singular), a title split without DOTALL, and batches cut
    by slicing `range(0, len, 200)`. */
module LegacyFeeds {

  import opened Results
  import opened Strings
  import opened Json
  import opened Batches
  import opened Onix
  import opened Hanmoto
  import BookFeeds

  // ---------------------------------------------------------------------------
  // openBD records

  /** What this `parse_openbd` returns. */
  datatype LegacyOpenbd = LegacyOpenbd(
    title: Json,
    description: Json,
    authors: Json,
    subjects: Json,
    keyword: Json,
    cCode: Json)

  const TitlePath: seq<string> := ["DescriptiveDetail", "TitleDetail", "TitleElement", "TitleText", "content"]

  /** `parse_openbd`, step by step in the order the code evaluates. */
  function LegacyOpenbdOf(record: Json): Result<LegacyOpenbd> {
    var onix :- GetItem(record, "onix");
    var title :- GetPath(onix, TitlePath);
    var texts :- TextContents(onix);
    var description :- Description(texts);
    var authors :- GetPath(onix, ["DescriptiveDetail", "Contributor"]);
    var subjects :- Subjects(onix);
    var descriptive :- GetItem(onix, "DescriptiveDetail");
    var subjectList :- GetOr(descriptive, "Subject", JNull);
    Ok(LegacyOpenbd(title, description, authors, subjectList, subjects.0, subjects.1))
  }

  /** `parse_openbd`, running the description and subject loops. */
  method ParseOpenbd(record: Json) returns (r: Result<LegacyOpenbd>)
    ensures r == LegacyOpenbdOf(record)
  {
    var onix := GetItem(record, "onix");
    if onix.Err? {
      return Err(onix.error);
    }
    var title := GetPath(onix.value, TitlePath);
    if title.Err? {
      return Err(title.error);
    }
    var texts := TextContents(onix.value);
    if texts.Err? {
      return Err(texts.error);
    }
    var description := FindDescription(texts.value);
    if description.Err? {
      return Err(description.error);
    }
    var authors := GetPath(onix.value, ["DescriptiveDetail", "Contributor"]);
    if authors.Err? {
      return Err(authors.error);
    }
    var subjects := ScanSubjects(onix.value);
    if subjects.Err? {
      return Err(subjects.error);
    }
    // the title path already went through DescriptiveDetail
    assert GetItem(onix.value, "DescriptiveDetail").Ok?;
    var descriptive := GetItem(onix.value, "DescriptiveDetail").value;
    var subjectList := GetOr(descriptive, "Subject", JNull);
    if subjectList.Err? {
      return Err(subjectList.error);
    }
    var s := subjects.value;
    return Ok(LegacyOpenbd(title.value, description.value, authors.value, subjectList.value, s.0, s.1));
  }

  /** Where each field of a parsed record comes from. */
  lemma LegacyOpenbdFields(record: Json)
    requires LegacyOpenbdOf(record).Ok?
    ensures GetItem(record, "onix").Ok?
    ensures var onix := GetItem(record, "onix").value;
            var o := LegacyOpenbdOf(record).value;
            && GetPath(onix, TitlePath) == Ok(o.title)
            && GetPath(onix, ["DescriptiveDetail", "Contributor"]) == Ok(o.authors)
            && TextContents(onix).Ok? && Description(TextContents(onix).value) == Ok(o.description)
            && Subjects(onix) == Ok((o.keyword, o.cCode))
            && GetItem(onix, "DescriptiveDetail").Ok?
            && GetOr(GetItem(onix, "DescriptiveDetail").value, "Subject", JNull) == Ok(o.subjects)
  {
  }

  // ---------------------------------------------------------------------------
  // fetch_openbk

  /** `fetch_openbk`: the records parsed and keyed by RecordReference. */
  function OpenbdMap(api: BookFeeds.OpenbdApi, isbns: seq<string>): Result<Dict<Json, LegacyOpenbd>> {
    var response :- api(BookFeeds.OpenbdUrl(isbns));
    var records :- Iterate(response);
    KeyRecords(records, LegacyOpenbdOf, [])
  }

  /** `fetch_openbk`, running its loop. */
  method FetchOpenbk(api: BookFeeds.OpenbdApi, isbns: seq<string>) returns (r: Result<Dict<Json, LegacyOpenbd>>)
    ensures r == OpenbdMap(api, isbns)
  {
    var response := api(BookFeeds.OpenbdUrl(isbns));
    if response.Err? {
      return Err(response.error);
    }
    var records := Iterate(response.value);
    if records.Err? {
      return Err(records.error);
    }
    var items := records.value;
    var value: Dict<Json, LegacyOpenbd> := [];
    var i := 0;
    while i < |items|
      invariant 0 <= i <= |items|
      invariant KeyRecords(items, LegacyOpenbdOf, []) == KeyRecords(items[i..], LegacyOpenbdOf, value)
    {
      assert items[i..][1..] == items[i + 1..];
      var d := items[i];
      if d != JNull {
        var ref := RecordReference(d);
        if ref.Err? {
          return Err(ref.error);
        }
        var parsed := ParseOpenbd(d);
        if parsed.Err? {
          return Err(parsed.error);
        }
        if !Hashable(ref.value) {
          return Err(TypeError);
        }
        value := Put(value, ref.value, parsed.value);
      }
      i := i + 1;
    }
    return Ok(value);
  }

  /** The fetched map holds a key exactly when some record other than None
      has it as RecordReference, once, with the last such record's data. */
  lemma OpenbdMapKeys(api: BookFeeds.OpenbdApi, isbns: seq<string>, key: Json, k: nat)
    requires OpenbdMap(api, isbns).Ok?
    ensures api(BookFeeds.OpenbdUrl(isbns)).Ok? && Iterate(api(BookFeeds.OpenbdUrl(isbns)).value).Ok?
    ensures var records := Iterate(api(BookFeeds.OpenbdUrl(isbns)).value).value;
            var m := OpenbdMap(api, isbns).value;
            && (HasKey(m, key) <==> exists j :: 0 <= j < |records| && records[j] != JNull && RecordReference(records[j]) == Ok(key))
            && UniqueKeys(m)
            && (k < |records| && records[k] != JNull
                && (forall j :: k < j < |records| && records[j] != JNull ==> RecordReference(records[j]) != RecordReference(records[k])) ==>
                  RecordReference(records[k]).Ok? && LegacyOpenbdOf(records[k]).Ok?
                  && Lookup(m, RecordReference(records[k]).value) == Some(LegacyOpenbdOf(records[k]).value))
  {
    var records := Iterate(api(BookFeeds.OpenbdUrl(isbns)).value).value;
    KeyRecordsKeys(records, LegacyOpenbdOf, [], key);
    if k < |records| && records[k] != JNull
       && forall j :: k < j < |records| && records[j] != JNull ==> RecordReference(records[j]) != RecordReference(records[k])
    {
      KeyRecordsLast(records, LegacyOpenbdOf, [], k);
    }
  }

  // ---------------------------------------------------------------------------
  // HanmotoData.to_dict

  datatype LegacyData = LegacyData(
    id: string,
    rawTitle: string,
    title: string,
    authors: string,
    publisher: string,
    publishDate: string,
    link: Json,
    isbn: string,
    openbd: Option<LegacyOpenbd>)

  const LegacyKeys: seq<string> := [
    "id", "raw_title", "title", "authors", "publisher", "publish_date", "link", "isbn",
    "description", "keyword", "c_code", "author_data"]

  /** `to_dict`: the openBD values, or "" and [] without a record. */
  function LegacyToDict(d: LegacyData): Dict<string, Json> {
    var description := if d.openbd.Some? then d.openbd.value.description else JStr("");
    var keyword := if d.openbd.Some? then d.openbd.value.keyword else JStr("");
    var cCode := if d.openbd.Some? then d.openbd.value.cCode else JStr("");
    var authorData := if d.openbd.Some? then d.openbd.value.authors else JArr([]);
    [("id", JStr(d.id)), ("raw_title", JStr(d.rawTitle)), ("title", JStr(d.title)),
     ("authors", JStr(d.authors)), ("publisher", JStr(d.publisher)), ("publish_date", JStr(d.publishDate)),
     ("link", d.link), ("isbn", JStr(d.isbn)), ("description", description), ("keyword", keyword),
     ("c_code", cCode), ("author_data", authorData)]
  }

  lemma LegacyKeysUnique()
    ensures forall i, j :: 0 <= i < j < |LegacyKeys| ==> LegacyKeys[i] != LegacyKeys[j]
  {
  }

  /** The dict has the twelve keys in order, once each, the identity fields
      copied unchanged, and each key looks up its own position's value. */
  lemma LegacyToDictShape(d: LegacyData, k: nat)
    requires k < |LegacyKeys|
    ensures var r := LegacyToDict(d);
            && |r| == |LegacyKeys|
            && (forall i :: 0 <= i < |r| ==> r[i].0 == LegacyKeys[i])
            && UniqueKeys(r)
            && Lookup(r, LegacyKeys[k]) == Some(r[k].1)
            && r[..8] == [("id", JStr(d.id)), ("raw_title", JStr(d.rawTitle)), ("title", JStr(d.title)),
                          ("authors", JStr(d.authors)), ("publisher", JStr(d.publisher)),
                          ("publish_date", JStr(d.publishDate)), ("link", d.link), ("isbn", JStr(d.isbn))]
  {
    LegacyKeysUnique();
    LookupAt(LegacyToDict(d), k);
  }

  /** Without an openBD record the enrichment is "" for description, keyword
      and c_code and [] for author_data. */
  lemma LegacyToDictWithoutOpenbd(d: LegacyData)
    requires d.openbd.None?
    ensures LegacyToDict(d)[8..] ==
              [("description", JStr("")), ("keyword", JStr("")), ("c_code", JStr("")), ("author_data", JArr([]))]
  {
  }

  /** With one, it is the record's values as they are. */
  lemma LegacyToDictWithOpenbd(d: LegacyData)
    requires d.openbd.Some?
    ensures var o := d.openbd.value;
            LegacyToDict(d)[8..] ==
              [("description", o.description), ("keyword", o.keyword), ("c_code", o.cCode), ("author_data", o.authors)]
  {
  }

  // ---------------------------------------------------------------------------
  // handle_entries

  /** The first loop's body for one entry, in the code's order. */
  function LegacyEntry(entry: Json, parseDate: BookFeeds.DateParser): Result<LegacyData> {
    var rawTitle :- GetItem(entry, "title");
    var id :- GetItem(entry, "id");
    var link :- GetItem(entry, "link");
    var published :- GetItem(entry, "published");
    var date :- parseDate(published);
    if !id.JStr? then Err(AttributeError)
    else
      var isbn := LastSegment(id.s, '/');
      if !rawTitle.JStr? then Err(TypeError)
      else
        var parts :- ParseTitle(rawTitle.s, false);
        Ok(LegacyData(id.s, rawTitle.s, parts.title, parts.author, parts.publisher, date, link, isbn, None))
  }

  function EntryParser(parseDate: BookFeeds.DateParser): Json -> Result<LegacyData> {
    entry => LegacyEntry(entry, parseDate)
  }

  function Isbns(books: seq<LegacyData>): (r: seq<string>)
    ensures |r| == |books| && forall k :: 0 <= k < |books| ==> r[k] == books[k].isbn
  {
    seq(|books|, k requires 0 <= k < |books| => books[k].isbn)
  }

  function Attach(bd: LegacyData, openbdData: Dict<Json, LegacyOpenbd>): LegacyData {
    if HasKey(openbdData, JStr(bd.isbn)) then bd.(openbd := Lookup(openbdData, JStr(bd.isbn))) else bd
  }

  function AttachAll(books: seq<LegacyData>, openbdData: Dict<Json, LegacyOpenbd>): (r: seq<LegacyData>)
    ensures |r| == |books| && forall k :: 0 <= k < |books| ==> r[k] == Attach(books[k], openbdData)
  {
    seq(|books|, k requires 0 <= k < |books| => Attach(books[k], openbdData))
  }

  function LegacyDict(bd: LegacyData): Result<Dict<string, Json>> {
    Ok(LegacyToDict(bd))
  }

  /** `handle_entries`. */
  function LegacyEntriesSpec(entries: seq<Json>, parseDate: BookFeeds.DateParser, api: BookFeeds.OpenbdApi): Result<seq<Dict<string, Json>>> {
    var books :- MapAll(entries, EntryParser(parseDate));
    var openbdData :- OpenbdMap(api, Isbns(books));
    MapAll(AttachAll(books, openbdData), LegacyDict)
  }

  /** The first loop of `handle_entries`. */
  method ParseEntries(entries: seq<Json>, parseDate: BookFeeds.DateParser) returns (r: Result<seq<LegacyData>>, isbns: seq<string>)
    ensures r == MapAll(entries, EntryParser(parseDate))
    ensures r.Ok? ==> isbns == Isbns(r.value)
  {
    isbns := [];
    var books: seq<LegacyData> := [];
    var i := 0;
    while i < |entries|
      invariant 0 <= i <= |entries|
      invariant MapAll(entries[..i], EntryParser(parseDate)) == Ok(books)
      invariant isbns == Isbns(books)
    {
      var data := LegacyEntry(entries[i], parseDate);
      MapAllStep(entries, i, EntryParser(parseDate), books);
      if data.Err? {
        return Err(data.error), isbns;
      }
      books := books + [data.value];
      isbns := isbns + [data.value.isbn];
      i := i + 1;
    }
    assert entries[..i] == entries;
    return Ok(books), isbns;
  }

  /** The second loop of `handle_entries`, which cannot fail. */
  method ToDicts(books: seq<LegacyData>, openbdData: Dict<Json, LegacyOpenbd>) returns (values: seq<Dict<string, Json>>)
    ensures MapAll(AttachAll(books, openbdData), LegacyDict) == Ok(values)
  {
    var attached := AttachAll(books, openbdData);
    values := [];
    var j := 0;
    while j < |books|
      invariant 0 <= j <= |books|
      invariant MapAll(attached[..j], LegacyDict) == Ok(values)
    {
      var bd := books[j];
      if HasKey(openbdData, JStr(bd.isbn)) {
        bd := bd.(openbd := Lookup(openbdData, JStr(bd.isbn)));
      }
      assert bd == attached[j];
      MapAllStep(attached, j, LegacyDict, values);
      values := values + [LegacyToDict(bd)];
      j := j + 1;
    }
    assert attached[..j] == attached;
  }

  /** `handle_entries`. */
  method HandleEntries(entries: seq<Json>, parseDate: BookFeeds.DateParser, api: BookFeeds.OpenbdApi)
    returns (r: Result<seq<Dict<string, Json>>>)
    ensures r == LegacyEntriesSpec(entries, parseDate, api)
  {
    var books, isbns := ParseEntries(entries, parseDate);
    if books.Err? {
      return Err(books.error);
    }
    var openbdData := FetchOpenbk(api, isbns);
    if openbdData.Err? {
      return Err(openbdData.error);
    }
    var values := ToDicts(books.value, openbdData.value);
    return Ok(values);
  }

  /** What an entry contributes: the ISBN is the last "/" segment of its id
      and the title split (without DOTALL) holds no newline. */
  lemma LegacyEntryFields(entry: Json, parseDate: BookFeeds.DateParser)
    requires LegacyEntry(entry, parseDate).Ok?
    ensures var b := LegacyEntry(entry, parseDate).value;
            && GetItem(entry, "id") == Ok(JStr(b.id))
            && GetItem(entry, "title") == Ok(JStr(b.rawTitle))
            && GetItem(entry, "link") == Ok(b.link)
            && b.isbn == LastSegment(b.id, '/')
            && ParseTitle(b.rawTitle, false) == Ok(TitleParts(b.title, b.authors, b.publisher))
            && '\n' !in b.title && '\n' !in b.authors && '\n' !in b.publisher
            && b.openbd.None?
  {
    var b := LegacyEntry(entry, parseDate).value;
    ParseTitleOneLine(b.rawTitle);
  }

  /** One dict per entry, in entry order, from the entry's record with the
      openBD data attached when its ISBN is a key of the fetched map. */
  lemma LegacyEntriesOutputs(entries: seq<Json>, parseDate: BookFeeds.DateParser, api: BookFeeds.OpenbdApi, k: nat)
    requires LegacyEntriesSpec(entries, parseDate, api).Ok?
    requires k < |entries|
    ensures MapAll(entries, EntryParser(parseDate)).Ok?
    ensures var books := MapAll(entries, EntryParser(parseDate)).value;
            var out := LegacyEntriesSpec(entries, parseDate, api).value;
            && |books| == |entries| && |out| == |entries|
            && LegacyEntry(entries[k], parseDate) == Ok(books[k])
            && OpenbdMap(api, Isbns(books)).Ok?
            && out[k] == LegacyToDict(Attach(books[k], OpenbdMap(api, Isbns(books)).value))
  {
    var f := EntryParser(parseDate);
    MapAllSpec(entries, f);
    var books := MapAll(entries, f).value;
    assert f(entries[k]) == Ok(books[k]);
    var m := OpenbdMap(api, Isbns(books)).value;
    var attached := AttachAll(books, m);
    assert LegacyEntriesSpec(entries, parseDate, api) == MapAll(attached, LegacyDict);
    MapAllSpec(attached, LegacyDict);
    assert attached[k] == Attach(books[k], m);
  }

  /** The run fails only where an entry, the openBD call or a record does:
      with every entry parsed and the map fetched, `handle_entries` succeeds. */
  lemma LegacyEntriesSucceed(entries: seq<Json>, parseDate: BookFeeds.DateParser, api: BookFeeds.OpenbdApi)
    requires MapAll(entries, EntryParser(parseDate)).Ok?
    requires OpenbdMap(api, Isbns(MapAll(entries, EntryParser(parseDate)).value)).Ok?
    ensures LegacyEntriesSpec(entries, parseDate, api).Ok?
  {
    var books := MapAll(entries, EntryParser(parseDate)).value;
    var m := OpenbdMap(api, Isbns(books)).value;
    MapAllSpec(AttachAll(books, m), LegacyDict);
  }

  // ---------------------------------------------------------------------------
  // fetch_feed

  function Handler(parseDate: BookFeeds.DateParser, api: BookFeeds.OpenbdApi): seq<Json> -> Result<seq<Dict<string, Json>>> {
    batch => LegacyEntriesSpec(batch, parseDate, api)
  }

  /** What `fetch_feed` yields: `handle_entries` on `entries[i:i + 200]` for
      i = 0, 200, ..., in order. */
  function LegacyFeed(entries: seq<Json>, parseDate: BookFeeds.DateParser, api: BookFeeds.OpenbdApi): Result<seq<Dict<string, Json>>> {
    HandleAll(SlicesFrom(entries, 200, 0), Handler(parseDate, api))
  }

  lemma LegacyEntriesLength(entries: seq<Json>, parseDate: BookFeeds.DateParser, api: BookFeeds.OpenbdApi)
    requires LegacyEntriesSpec(entries, parseDate, api).Ok?
    ensures |LegacyEntriesSpec(entries, parseDate, api).value| == |entries|
  {
    MapAllSpec(entries, EntryParser(parseDate));
    var books := MapAll(entries, EntryParser(parseDate)).value;
    MapAllSpec(AttachAll(books, OpenbdMap(api, Isbns(books)).value), LegacyDict);
  }

  /** The slices concatenate back to the entries, each holds 1 to 200
      entries, all but the last exactly 200, and a successful run yields one
      dict per entry. */
  lemma LegacyFeedSlices(entries: seq<Json>, parseDate: BookFeeds.DateParser, api: BookFeeds.OpenbdApi)
    ensures var slices := SlicesFrom(entries, 200, 0);
            && Flatten(slices) == entries
            && (forall k :: 0 <= k < |slices| ==> 0 < |slices[k]| <= 200)
            && (forall k :: 0 <= k < |slices| - 1 ==> |slices[k]| == 200)
    ensures LegacyFeed(entries, parseDate, api).Ok? ==> |LegacyFeed(entries, parseDate, api).value| == |entries|
  {
    SlicesAreChunks(entries, 200);
    ChunksFlatten(entries, 200);
    ChunksSizes(entries, 200);
    var bs := SlicesFrom(entries, 200, 0);
    var h := Handler(parseDate, api);
    if LegacyFeed(entries, parseDate, api).Ok? {
      forall k | 0 <= k < |bs| && h(bs[k]).Ok? ensures |h(bs[k]).value| == |bs[k]| {
        LegacyEntriesLength(bs[k], parseDate, api);
      }
      HandleAllLength(bs, h);
    }
  }
}
