/** The book-post job: pick one upcoming book that has not been posted yet,
    remember it in the `new_books` collection, and format the day's posts. */
module BookPost {

  import opened Results
  import opened Strings
  import opened Json

  /** A row of the new-books query: the columns the job reads. */
  datatype NewBook = NewBook(
    isbn: string, publishDate: string, title: string, authors: string,
    publisher: string, description: string, link: string)

  // ---------------------------------------------------------------------------
  // Which stored posts still count

  /** `d["publish_date"]` of a stored record; comparing it with a string
      needs a string. */
  function PublishDate(d: Json): Result<string> {
    var v :- GetItem(d, "publish_date");
    if v.JStr? then Ok(v.s) else Err(TypeError)
  }

  /** `[d for d in posted if d["publish_date"] >= today]`, raising at the
      first record that cannot be compared. */
  function KeepPosted(posted: seq<Json>, today: string): Result<seq<Json>> {
    if |posted| == 0 then Ok([])
    else
      var date :- PublishDate(posted[0]);
      var rest :- KeepPosted(posted[1..], today);
      Ok((if LessEq(today, date) then [posted[0]] else []) + rest)
  }

  /** The filter fails exactly when some record has no string publish date. */
  lemma {:induction false} KeepPostedOk(posted: seq<Json>, today: string)
    ensures KeepPosted(posted, today).Ok? <==> forall i :: 0 <= i < |posted| ==> PublishDate(posted[i]).Ok?
  {
    if |posted| > 0 {
      KeepPostedOk(posted[1..], today);
      assert forall i :: 1 <= i < |posted| ==> posted[i] == posted[1..][i - 1];
    }
  }

  /** A record is kept exactly when it was stored and its date is today or later. */
  lemma {:induction false} KeepPostedMembers(posted: seq<Json>, today: string)
    requires KeepPosted(posted, today).Ok?
    ensures forall d :: d in KeepPosted(posted, today).value <==>
              d in posted && PublishDate(d).Ok? && LessEq(today, PublishDate(d).value)
  {
    if |posted| > 0 {
      KeepPostedMembers(posted[1..], today);
      assert posted == [posted[0]] + posted[1..];
    }
  }

  /** The filter keeps order: it distributes over concatenation. */
  lemma {:induction false} KeepPostedAppend(a: seq<Json>, b: seq<Json>, today: string)
    requires KeepPosted(a, today).Ok? && KeepPosted(b, today).Ok?
    ensures KeepPosted(a + b, today) == Ok(KeepPosted(a, today).value + KeepPosted(b, today).value)
  {
    if |a| == 0 {
      assert a + b == b;
      assert [] + KeepPosted(b, today).value == KeepPosted(b, today).value;
    } else {
      assert (a + b)[0] == a[0] && (a + b)[1..] == a[1..] + b;
      KeepPostedAppend(a[1..], b, today);
      var x := if LessEq(today, PublishDate(a[0]).value) then [a[0]] else [];
      assert x + (KeepPosted(a[1..], today).value + KeepPosted(b, today).value)
          == (x + KeepPosted(a[1..], today).value) + KeepPosted(b, today).value;
    }
  }

  /** Filtering what was kept keeps all of it. */
  lemma {:induction false} KeepPostedIdempotent(posted: seq<Json>, today: string)
    requires KeepPosted(posted, today).Ok?
    ensures KeepPosted(KeepPosted(posted, today).value, today) == KeepPosted(posted, today)
  {
    if |posted| > 0 {
      KeepPostedIdempotent(posted[1..], today);
      var rest := KeepPosted(posted[1..], today).value;
      if LessEq(today, PublishDate(posted[0]).value) {
        assert ([posted[0]] + rest)[1..] == rest;
      } else {
        assert [] + rest == rest;
      }
    }
  }

  /** `d["isbn"]` of a stored record, which must be hashable to go in a set. */
  function IsbnKey(d: Json): Result<Json> {
    var v :- GetItem(d, "isbn");
    if Hashable(v) then Ok(v) else Err(TypeError)
  }

  /** `{d["isbn"] for d in kept}`. */
  function PostedIsbns(kept: seq<Json>): Result<set<Json>> {
    if |kept| == 0 then Ok({})
    else
      var k :- IsbnKey(kept[0]);
      var rest :- PostedIsbns(kept[1..]);
      Ok({k} + rest)
  }

  /** The set is built exactly when every record has a hashable ISBN, and it
      holds exactly those ISBNs. */
  lemma {:induction false} PostedIsbnsSpec(kept: seq<Json>)
    ensures PostedIsbns(kept).Ok? <==> forall i :: 0 <= i < |kept| ==> IsbnKey(kept[i]).Ok?
    ensures PostedIsbns(kept).Ok? ==>
              forall x :: x in PostedIsbns(kept).value <==> exists i :: 0 <= i < |kept| && IsbnKey(kept[i]) == Ok(x)
  {
    if |kept| > 0 {
      PostedIsbnsSpec(kept[1..]);
      assert forall i :: 1 <= i < |kept| ==> kept[i] == kept[1..][i - 1];
      if PostedIsbns(kept).Ok? {
        forall x | x in PostedIsbns(kept).value
          ensures exists i :: 0 <= i < |kept| && IsbnKey(kept[i]) == Ok(x)
        {
          if x != IsbnKey(kept[0]).value {
            var i :| 0 <= i < |kept[1..]| && IsbnKey(kept[1..][i]) == Ok(x);
            assert kept[i + 1] == kept[1..][i];
          }
        }
      }
    }
  }

  // ---------------------------------------------------------------------------
  // Candidates

  /** The rows whose ISBN was not posted, in data order. */
  function Fresh(data: seq<NewBook>, posted: set<Json>): seq<NewBook> {
    if |data| == 0 then []
    else
      var last := data[|data| - 1];
      Fresh(data[..|data| - 1], posted) + (if JStr(last.isbn) in posted then [] else [last])
  }

  /** A row is a candidate exactly when it is in the data and its ISBN was
      not posted. */
  lemma {:induction false} FreshMembers(data: seq<NewBook>, posted: set<Json>)
    ensures forall b :: b in Fresh(data, posted) <==> b in data && JStr(b.isbn) !in posted
  {
    if |data| > 0 {
      FreshMembers(data[..|data| - 1], posted);
      assert data == data[..|data| - 1] + [data[|data| - 1]];
    }
  }

  /** Candidates keep data order: the filter distributes over concatenation. */
  lemma {:induction false} FreshAppend(a: seq<NewBook>, b: seq<NewBook>, posted: set<Json>)
    ensures Fresh(a + b, posted) == Fresh(a, posted) + Fresh(b, posted)
    decreases |b|
  {
    if |b| == 0 {
      assert a + b == a;
    } else {
      var b' := b[..|b| - 1];
      assert (a + b)[..|a + b| - 1] == a + b';
      assert (a + b)[|a + b| - 1] == b[|b| - 1];
      FreshAppend(a, b', posted);
    }
  }

  /** With nothing posted every row is a candidate. */
  lemma {:induction false} FreshNothingPosted(data: seq<NewBook>)
    ensures Fresh(data, {}) == data
  {
    if |data| > 0 {
      FreshNothingPosted(data[..|data| - 1]);
    }
  }

  /** The loop over the query rows of `get_random_book`. */
  method SelectEntries(data: seq<NewBook>, posted: set<Json>) returns (entries: seq<NewBook>)
    ensures entries == Fresh(data, posted)
  {
    entries := [];
    var i := 0;
    while i < |data|
      invariant i <= |data|
      invariant entries == Fresh(data[..i], posted)
    {
      assert data[..i + 1][..i] == data[..i];
      if JStr(data[i].isbn) !in posted {
        entries := entries + [data[i]];
      }
      i := i + 1;
    }
    assert data[..i] == data;
  }

  /** The kept posts and the candidates, or the error raised computing them. */
  function Candidates(records: seq<Json>, today: string, data: seq<NewBook>): Result<(seq<Json>, seq<NewBook>)> {
    var kept :- KeepPosted(records, today);
    var isbns :- PostedIsbns(kept);
    Ok((kept, Fresh(data, isbns)))
  }

  /** The record remembered for a chosen book. */
  function NewRecord(b: NewBook): Json {
    JObj([("isbn", JStr(b.isbn)), ("publish_date", JStr(b.publishDate)), ("title", JStr(b.title))])
  }

  /** The remembered record carries the book's ISBN, date and title. */
  lemma NewRecordFields(b: NewBook)
    ensures IsbnKey(NewRecord(b)) == Ok(JStr(b.isbn))
    ensures PublishDate(NewRecord(b)) == Ok(b.publishDate)
    ensures GetItem(NewRecord(b), "title") == Ok(JStr(b.title))
  {
    var d := NewRecord(b).fields;
    LookupAt(d, 0);
    LookupAt(d, 1);
    LookupAt(d, 2);
  }

  // ---------------------------------------------------------------------------
  // The `new_books` collection

  /** The `new_books` collection of the bot's database. */
  class Store {
    var records: seq<Json>

    constructor (records: seq<Json>)
      ensures this.records == records
    {
      this.records := records;
    }

    /** `get_db_data`: every stored record, in storage order. */
    method FindAll() returns (rs: seq<Json>)
      ensures rs == records
    {
      rs := records;
    }

    /** `update_db`: `delete_many({})` then `insert_many(rs)`; an empty list
        is refused by `insert_many` after the delete has happened. */
    method Replace(rs: seq<Json>) returns (r: Result<()>)
      modifies this
      ensures |rs| > 0 ==> r.Ok? && records == rs
      ensures |rs| == 0 ==> r == Err(TypeError) && records == []
    {
      records := [];
      if |rs| == 0 {
        return Err(TypeError);
      }
      records := rs;
      r := Ok(());
    }
  }

  /** `get_random_book`: an error raised while filtering leaves the store
      alone; no candidate gives None; otherwise some candidate is chosen and,
      with `enableUpdate`, the store becomes the kept posts followed by the
      chosen book's record. `data` is the query's answer for the next 30 days. */
  method GetRandomBook(store: Store, today: string, data: seq<NewBook>, enableUpdate: bool)
    returns (r: Result<Option<NewBook>>)
    modifies store
    ensures var c := Candidates(old(store.records), today, data);
            && (c.Err? ==> r == Err(c.error) && store.records == old(store.records))
            && (c.Ok? && c.value.1 == [] ==> r == Ok(None) && store.records == old(store.records))
            && (c.Ok? && c.value.1 != [] ==>
                  && r.Ok? && r.value.Some? && r.value.value in c.value.1
                  && (enableUpdate ==> store.records == c.value.0 + [NewRecord(r.value.value)])
                  && (!enableUpdate ==> store.records == old(store.records)))
  {
    var posted := store.FindAll();
    var keptR := KeepPosted(posted, today);
    if keptR.Err? {
      return Err(keptR.error);
    }
    var kept := keptR.value;
    var isbnsR := PostedIsbns(kept);
    if isbnsR.Err? {
      return Err(isbnsR.error);
    }
    var entries := SelectEntries(data, isbnsR.value);
    if |entries| == 0 {
      return Ok(None);
    }
    var k :| 0 <= k < |entries|;
    var choice := entries[k];
    if enableUpdate {
      var _ := store.Replace(kept + [NewRecord(choice)]);
    }
    r := Ok(Some(choice));
  }

  // ---------------------------------------------------------------------------
  // What one selection guarantees for the next

  /** Every stored record carries a hashable ISBN, no two the same. */
  predicate DistinctIsbns(records: seq<Json>) {
    && (forall i :: 0 <= i < |records| ==> IsbnKey(records[i]).Ok?)
    && (forall i, j :: 0 <= i < j < |records| ==> IsbnKey(records[i]) != IsbnKey(records[j]))
  }

  /** Distinct ISBNs in the kept posts stay distinct after the chosen book is
      remembered: its ISBN was not among them. */
  lemma UpdateKeepsIsbnsDistinct(records: seq<Json>, today: string, data: seq<NewBook>, b: NewBook)
    requires Candidates(records, today, data).Ok?
    requires b in Candidates(records, today, data).value.1
    requires DistinctIsbns(Candidates(records, today, data).value.0)
    ensures DistinctIsbns(Candidates(records, today, data).value.0 + [NewRecord(b)])
  {
    var kept := KeepPosted(records, today).value;
    var isbns := PostedIsbns(kept).value;
    PostedIsbnsSpec(kept);
    FreshMembers(data, isbns);
    NewRecordFields(b);
    var s := kept + [NewRecord(b)];
    forall i, j | 0 <= i < j < |s| ensures IsbnKey(s[i]) != IsbnKey(s[j]) {
      if j == |kept| {
        assert IsbnKey(s[i]) == IsbnKey(kept[i]);
      } else {
        assert s[i] == kept[i] && s[j] == kept[j];
      }
    }
  }

  /** A book remembered with a publish date of `today'` or later is never a
      candidate again on `today'`, whatever the query returns then. */
  lemma ChosenNotRepeated(kept: seq<Json>, b: NewBook, today': string, data': seq<NewBook>)
    requires LessEq(today', b.publishDate)
    requires Candidates(kept + [NewRecord(b)], today', data').Ok?
    ensures b !in Candidates(kept + [NewRecord(b)], today', data').value.1
  {
    var s := kept + [NewRecord(b)];
    NewRecordFields(b);
    KeepPostedOk(s, today');
    assert forall i :: 0 <= i < |kept| ==> kept[i] == s[i];
    KeepPostedOk(kept, today');
    assert [NewRecord(b)][1..] == [] && [NewRecord(b)] + [] == [NewRecord(b)];
    assert KeepPosted([NewRecord(b)], today') == Ok([NewRecord(b)]);
    KeepPostedAppend(kept, [NewRecord(b)], today');
    var kept' := KeepPosted(s, today').value;
    assert kept'[|kept'| - 1] == NewRecord(b);
    PostedIsbnsSpec(kept');
    assert JStr(b.isbn) in PostedIsbns(kept').value;
    FreshMembers(data', PostedIsbns(kept').value);
  }

  // ---------------------------------------------------------------------------
  // Formatting

  /** `link_to_a`: the URL as the text and the target of an anchor. */
  function LinkToA(u: string): (r: string)
    ensures |r| == 2 * |u| + 13
    ensures r[8..8 + |u|] == u
    ensures '\n' !in u ==> '\n' !in r
  {
    "<a href=" + u + ">" + u + "</a>"
  }

  /** Different URLs give different anchors. */
  lemma LinkToAInjective(u: string, v: string)
    requires LinkToA(u) == LinkToA(v)
    ensures u == v
  {
    assert |u| == |v|;
  }

  /** `authors『title』publisher`. */
  function Heading(b: NewBook): string {
    b.authors + "『" + b.title + "』" + b.publisher
  }

  predicate HeadingOneLine(b: NewBook) {
    '\n' !in b.authors && '\n' !in b.title && '\n' !in b.publisher && '\n' !in b.link
  }

  /** One book of the day's post: its heading, then its link. */
  function TodayItem(b: NewBook): string {
    Heading(b) + "\n" + LinkToA(b.link)
  }

  function TodayItems(data: seq<NewBook>): (items: seq<string>)
    ensures |items| == |data|
  {
    seq(|data|, k requires 0 <= k < |data| => TodayItem(data[k]))
  }

  /** The second line of the day's post ("books out today"). */
  const TodayHeader: string := "本日出る本"

  /** `get_todays_book_post` for the query rows of `today`, whose date
      is rendered as `dateStr`. */
  function TodayPost(dateStr: string, data: seq<NewBook>): string {
    dateStr + "\n" + TodayHeader + "\n" + Join(TodayItems(data), "\n\n")
  }

  /** The loop of `get_todays_book_post`. */
  method TodaysBookPost(dateStr: string, data: seq<NewBook>) returns (post: string)
    ensures post == TodayPost(dateStr, data)
  {
    var items: seq<string> := [];
    var i := 0;
    while i < |data|
      invariant i <= |data|
      invariant |items| == i
      invariant forall k :: 0 <= k < i ==> items[k] == TodayItem(data[k])
    {
      var link := LinkToA(data[i].link);
      var item := data[i].authors + "『" + data[i].title + "』" + data[i].publisher + "\n" + link;
      items := items + [item];
      i := i + 1;
    }
    assert items == TodayItems(data);
    post := dateStr + "\n" + TodayHeader + "\n" + Join(items, "\n\n");
  }

  /** The lines of the day's post after the two header lines: each book's
      heading and link, a blank line between books. */
  function ItemLines(data: seq<NewBook>): (lines: seq<string>)
    requires |data| >= 1
    ensures |lines| == 3 * |data| - 1
  {
    if |data| == 1 then [Heading(data[0]), LinkToA(data[0].link)]
    else [Heading(data[0]), LinkToA(data[0].link), ""] + ItemLines(data[1..])
  }

  /** All lines of the day's post; with no book the header ends in a newline,
      so the last line is empty. */
  function TodayLines(dateStr: string, data: seq<NewBook>): seq<string> {
    [dateStr, TodayHeader] + (if |data| == 0 then [""] else ItemLines(data))
  }

  lemma JoinCons(x: string, xs: seq<string>, sep: string)
    requires |xs| >= 1
    ensures Join([x] + xs, sep) == x + sep + Join(xs, sep)
  {
    assert ([x] + xs)[1..] == xs;
  }

  lemma {:induction false} JoinItems(data: seq<NewBook>)
    requires |data| >= 1
    ensures Join(TodayItems(data), "\n\n") == Join(ItemLines(data), "\n")
  {
    if |data| > 1 {
      JoinItems(data[1..]);
      assert TodayItems(data) == [TodayItem(data[0])] + TodayItems(data[1..]);
      JoinItemStep(Heading(data[0]), LinkToA(data[0].link), TodayItems(data[1..]), ItemLines(data[1..]));
    }
  }

  lemma JoinItemStep(h: string, l: string, items: seq<string>, lines: seq<string>)
    requires |items| >= 1 && |lines| >= 1
    requires Join(items, "\n\n") == Join(lines, "\n")
    ensures Join([h + "\n" + l] + items, "\n\n") == Join([h, l, ""] + lines, "\n")
  {
    var j := Join(lines, "\n");
    JoinCons(h + "\n" + l, items, "\n\n");
    JoinCons("", lines, "\n");
    JoinCons(l, [""] + lines, "\n");
    assert [h, l, ""] + lines == [h] + ([l] + ([""] + lines));
    JoinCons(h, [l] + ([""] + lines), "\n");
    Regroup(h, l, j);
  }

  lemma Regroup(h: string, l: string, j: string)
    ensures h + "\n" + l + "\n\n" + j == h + "\n" + (l + "\n" + ("" + "\n" + j))
  {
    assert "\n\n" == "\n" + "\n";
  }

  /** With no newline in the fields, no line after the header holds one. */
  lemma {:induction false} ItemLinesOneLine(data: seq<NewBook>)
    requires |data| >= 1
    requires forall k :: 0 <= k < |data| ==> HeadingOneLine(data[k])
    ensures forall k :: 0 <= k < |ItemLines(data)| ==> '\n' !in ItemLines(data)[k]
  {
    assert HeadingOneLine(data[0]);
    if |data| > 1 {
      ItemLinesOneLine(data[1..]);
      var rest := ItemLines(data[1..]);
      forall k | 3 <= k < |ItemLines(data)| ensures '\n' !in ItemLines(data)[k] {
        assert ItemLines(data)[k] == rest[k - 3];
      }
    }
  }

  lemma JoinTwoMore(a: string, b: string, tail: seq<string>, sep: string)
    requires |tail| >= 1
    ensures Join([a, b] + tail, sep) == a + sep + b + sep + Join(tail, sep)
  {
    JoinCons(b, tail, sep);
    JoinCons(a, [b] + tail, sep);
    assert [a, b] + tail == [a] + ([b] + tail);
  }

  /** The day's post is its lines joined by newlines. */
  lemma TodayPostJoin(dateStr: string, data: seq<NewBook>)
    ensures TodayPost(dateStr, data) == Join(TodayLines(dateStr, data), "\n")
  {
    var tail := if |data| == 0 then [""] else ItemLines(data);
    if |data| > 0 {
      JoinItems(data);
    }
    JoinTwoMore(dateStr, TodayHeader, tail, "\n");
  }

  /** When neither the date nor any heading or link holds a newline,
      splitting the day's post at newlines gives its lines back: two header
      lines, then per book its heading and its link, a blank line between
      books, so `3 * n + 1` lines for `n > 0` books. */
  lemma TodayPostLines(dateStr: string, data: seq<NewBook>)
    requires '\n' !in dateStr
    requires forall k :: 0 <= k < |data| ==> HeadingOneLine(data[k])
    ensures Split(TodayPost(dateStr, data), '\n') == TodayLines(dateStr, data)
    ensures |data| > 0 ==> |TodayLines(dateStr, data)| == 3 * |data| + 1
  {
    TodayPostJoin(dateStr, data);
    var lines := TodayLines(dateStr, data);
    if |data| > 0 {
      ItemLinesOneLine(data);
      forall k | 2 <= k < |lines| ensures '\n' !in lines[k] {
        assert lines[k] == ItemLines(data)[k - 2];
      }
    }
    SplitJoin(lines, '\n');
  }

  /** `get_random_book_post`'s text for a book whose date is rendered as
      `dateStr`. */
  function RandomPostText(dateStr: string, b: NewBook): string {
    dateStr + OnSale + "\n" + Heading(b) + "\n" + b.description + "\n" + LinkToA(b.link) + "\n"
  }

  /** What follows the date on the first line of the random post ("on sale"). */
  const OnSale: string := "発売予定"

  lemma JoinFourLines(a: string, b: string, c: string, d: string)
    ensures Join([a, b, c, d, ""], "\n") == a + "\n" + b + "\n" + c + "\n" + d + "\n"
  {
    var lines := [a, b, c, d, ""];
    JoinCons(d, [""], "\n");
    assert lines[3..] == [d] + [""];
    JoinCons(c, lines[3..], "\n");
    assert lines[2..] == [c] + lines[3..];
    JoinCons(b, lines[2..], "\n");
    assert lines[1..] == [b] + lines[2..];
    JoinCons(a, lines[1..], "\n");
    assert lines == [a] + lines[1..];
  }

  /** The random post is five newline-separated lines, the last one empty;
      with no newline in the fields they are exactly the split. */
  lemma RandomPostLines(dateStr: string, b: NewBook)
    ensures var lines := [dateStr + OnSale, Heading(b), b.description, LinkToA(b.link), ""];
            && RandomPostText(dateStr, b) == Join(lines, "\n")
            && ('\n' !in dateStr && '\n' !in b.description && HeadingOneLine(b) ==>
                  Split(RandomPostText(dateStr, b), '\n') == lines)
  {
    var lines := [dateStr + OnSale, Heading(b), b.description, LinkToA(b.link), ""];
    JoinFourLines(dateStr + OnSale, Heading(b), b.description, LinkToA(b.link));
    if '\n' !in dateStr && '\n' !in b.description && HeadingOneLine(b) {
      assert '\n' !in dateStr + OnSale;
      SplitJoin(lines, '\n');
    }
  }

  /** The random post for a chosen book; `formatDate` stands for
      `date.fromisoformat(..).strftime("%Y年%m月%d日")`, None where the date
      does not parse. */
  function RandomPost(b: NewBook, formatDate: string -> Option<string>): Result<string> {
    match formatDate(b.publishDate)
    case None => Err(ValueError)
    case Some(d) => Ok(RandomPostText(d, b))
  }

  /** `get_random_book_post`: with no candidate the lookup on None raises
      TypeError; otherwise the post of some candidate, the store having been
      updated before the date is formatted. */
  method RandomBookPost(store: Store, today: string, data: seq<NewBook>,
                        formatDate: string -> Option<string>, enableUpdate: bool)
    returns (r: Result<string>)
    modifies store
    ensures var c := Candidates(old(store.records), today, data);
            && (c.Err? ==> r == Err(c.error) && store.records == old(store.records))
            && (c.Ok? && c.value.1 == [] ==> r == Err(TypeError) && store.records == old(store.records))
            && (c.Ok? && c.value.1 != [] ==>
                  exists b :: b in c.value.1 && r == RandomPost(b, formatDate) &&
                    store.records == (if enableUpdate then c.value.0 + [NewRecord(b)] else old(store.records)))
  {
    var book := GetRandomBook(store, today, data, enableUpdate);
    if book.Err? {
      return Err(book.error);
    }
    if book.value.None? {
      return Err(TypeError);
    }
    var b := book.value.value;
    var ds := formatDate(b.publishDate);
    if ds.None? {
      r := Err(ValueError);
    } else {
      var heading := b.authors + "『" + b.title + "』" + b.publisher;
      var link := LinkToA(b.link);
      r := Ok(ds.value + OnSale + "\n" + heading + "\n" + b.description + "\n" + link + "\n");
    }
    assert r == RandomPost(b, formatDate);
  }

  // ---------------------------------------------------------------------------
  // The HTTP entry point

  datatype Mode = RandomMode | TodayMode | InvalidMode

  /** `json_data.get("mode", "random")` and the comparisons against it. */
  function ModeOf(body: Json): Result<Mode> {
    var m :- GetOr(body, "mode", JStr("random"));
    Ok(if m == JStr("random") then RandomMode else if m == JStr("today") then TodayMode else InvalidMode)
  }

  /** "random" is the default; only "random" and "today" are accepted; a body
      that is not a dict raises. */
  lemma ModeOfSpec(body: Json)
    ensures ModeOf(body).Err? <==> !body.JObj?
    ensures ModeOf(body) == Ok(RandomMode) <==>
              body.JObj? && (Lookup(body.fields, "mode") == None || Lookup(body.fields, "mode") == Some(JStr("random")))
    ensures ModeOf(body) == Ok(TodayMode) <==> body.JObj? && Lookup(body.fields, "mode") == Some(JStr("today"))
  {
  }

  datatype Response = Response(text: string, status: nat)

  /** `handle_request`. `upcoming` and `todays` are the query's answers for
      the next 30 days and for today, `todayIso` and `todayStr` today's date
      in ISO form and as the post renders it. The post itself goes nowhere:
      the delivery call is commented out. */
  method HandleRequest(store: Store, body: Json, todayIso: string, todayStr: string,
                       upcoming: seq<NewBook>, todays: seq<NewBook>,
                       formatDate: string -> Option<string>)
    returns (r: Result<Response>)
    modifies store
    ensures ModeOf(body).Err? ==> r == Err(ModeOf(body).error) && store.records == old(store.records)
    ensures ModeOf(body) == Ok(InvalidMode) ==>
              r == Ok(Response("Invalid mode", 400)) && store.records == old(store.records)
    ensures ModeOf(body) == Ok(TodayMode) ==>
              r == Ok(Response("OK", 200)) && store.records == old(store.records)
    ensures ModeOf(body) == Ok(RandomMode) ==>
              var c := Candidates(old(store.records), todayIso, upcoming);
              && (c.Err? ==> r == Err(c.error) && store.records == old(store.records))
              && (c.Ok? && c.value.1 == [] ==> r == Err(TypeError) && store.records == old(store.records))
              && (c.Ok? && c.value.1 != [] ==>
                    exists b :: b in c.value.1 && store.records == c.value.0 + [NewRecord(b)] &&
                      r == (if RandomPost(b, formatDate).Ok? then Ok(Response("OK", 200)) else Err(ValueError)))
  {
    var mode := ModeOf(body);
    if mode.Err? {
      return Err(mode.error);
    }
    if mode.value == RandomMode {
      var post := RandomBookPost(store, todayIso, upcoming, formatDate, true);
      if post.Err? {
        return Err(post.error);
      }
    } else if mode.value == TodayMode {
      var post := TodaysBookPost(todayStr, todays);
    } else {
      return Ok(Response("Invalid mode", 400));
    }
    r := Ok(Response("OK", 200));
  }
}
