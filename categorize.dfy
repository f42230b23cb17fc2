/** The genre job (categorize/main.py): the day's novels are sent to a chat
    model five at a time, the answer is checked against the number of books
    sent, chunks with a wrong count are dropped and the others are labelled
    with the genres in answer order. */
module Categorize {

  import opened Results
  import opened Strings
  import opened Json
  import opened Batches

  /** One row of the fetched frame. */
  datatype Row = Row(
    isbn: string,
    rawTitle: string,
    authors: string,
    title: string,
    publisher: string,
    description: string,
    labelName: string)

  /** A kept row: its position in the fetched frame, the row, and the genre
      the model gave it. */
  datatype Categorized = Categorized(index: nat, row: Row, genre: Json)

  /** Rows per chat request. */
  const ChunkSize: nat := 5

  /** Characters of description per book in the prompt. */
  const DescriptionLimit: nat := 500

  // ---------------------------------------------------------------------------
  // The prompt

  /** The description with each newline written as backslash-n, then cut to
      500 characters. */
  function EscapedDescription(d: string): string {
    Take(Replace(d, "\n", "\\n"), DescriptionLimit)
  }

  /** "(label)" for a non-empty label, nothing otherwise. */
  function LabelPart(name: string): string {
    if name != "" then "(" + name + ")" else ""
  }

  /** The prompt line of the row at frame position `index`. */
  function BookLine(index: nat, row: Row): string {
    NatToString(index + 1) + ". " + row.authors + "『" + row.title + "』" + LabelPart(row.labelName) + row.publisher
    + "\n    \"" + EscapedDescription(row.description) + "\""
  }

  function BookLines(start: nat, rows: seq<Row>): (r: seq<string>)
    ensures |r| == |rows| && forall k :: 0 <= k < |rows| ==> r[k] == BookLine(start + k, rows[k])
  {
    seq(|rows|, k requires 0 <= k < |rows| => BookLine(start + k, rows[k]))
  }

  /** The user prompt for the rows at frame positions `start`, `start + 1`, .... */
  function Prompt(start: nat, rows: seq<Row>): string {
    "# BOOKS\n" + Join(BookLines(start, rows), "\n")
  }

  /** The line-building loop of `do_openai_api`. */
  method BuildPrompt(start: nat, rows: seq<Row>) returns (prompt: string)
    ensures prompt == Prompt(start, rows)
  {
    var lines: seq<string> := [];
    var i := 0;
    while i < |rows|
      invariant 0 <= i <= |rows|
      invariant lines == BookLines(start, rows[..i])
    {
      var row := rows[i];
      var description := Take(Replace(row.description, "\n", "\\n"), 500);
      var labelPart := if row.labelName != "" then "(" + row.labelName + ")" else "";
      var line := NatToString(start + i + 1) + ". " + row.authors + "『" + row.title + "』" + labelPart + row.publisher;
      line := line + "\n    \"" + description + "\"";
      lines := lines + [line];
      i := i + 1;
      assert rows[..i][..i - 1] == rows[..i - 1];
    }
    assert rows[..i] == rows;
    prompt := "# BOOKS\n" + Join(lines, "\n");
  }

  lemma NewlineOccurs(s: string)
    requires !('\n' in s)
    ensures !Occurs(s, "\n")
  {
    forall i | 0 <= i <= |s| - 1 ensures !At(s, i, "\n") {
      assert s[i..i + 1] == [s[i]];
    }
  }

  /** The escaped description holds no newline and at most 500 characters,
      is a prefix of the fully escaped text, and is the description itself
      when that has no newline and fits. */
  lemma EscapedDescriptionSpec(d: string)
    ensures '\n' !in EscapedDescription(d)
    ensures |EscapedDescription(d)| <= DescriptionLimit
    ensures EscapedDescription(d) == Replace(d, "\n", "\\n")[..|EscapedDescription(d)|]
    ensures '\n' !in d && |d| <= DescriptionLimit ==> EscapedDescription(d) == d
  {
    var full := Replace(d, "\n", "\\n");
    ReplaceCharRemoves(d, '\n', "\\n");
    var r := EscapedDescription(d);
    assert r == full[..|r|];
    forall k | 0 <= k < |r| ensures r[k] != '\n' {
      assert r[k] == full[k];
    }
    if '\n' !in d {
      NewlineOccurs(d);
      ReplaceAbsent(d, "\n", "\\n");
    }
  }

  lemma PeelNumber(n: string, a: string, b: string, c: string, d: string, e: string, f: string,
                   g: string, h: string, k: string)
    ensures n + ". " + a + b + c + d + e + f + g + h + k == n + ['.'] + (" " + a + b + c + d + e + f + g + h + k)
  {
    assert ". " == ['.'] + " ";
  }

  /** Each line starts with its frame position + 1 in decimal, before the
      first ".", so the model's numbers can be read back to rows. */
  lemma BookLineNumber(index: nat, row: Row)
    ensures ParseInt(Split(BookLine(index, row), '.')[0]) == Some(index + 1)
  {
    var n := NatToString(index + 1);
    var rest := " " + row.authors + "『" + row.title + "』" + LabelPart(row.labelName) + row.publisher
                + "\n    \"" + EscapedDescription(row.description) + "\"";
    PeelNumber(n, row.authors, "『", row.title, "』", LabelPart(row.labelName), row.publisher,
               "\n    \"", EscapedDescription(row.description), "\"");
    assert '.' !in n;
    SplitPrefix(n, '.', rest);
    IntToStringRoundTrip(index + 1);
  }

  /** The prompt opens with the header and holds one line per row, numbered
      from `start + 1`. */
  lemma PromptLines(start: nat, rows: seq<Row>, k: nat)
    requires k < |rows|
    ensures Prompt(start, rows)[..8] == "# BOOKS\n"
    ensures |BookLines(start, rows)| == |rows|
    ensures ParseInt(Split(BookLines(start, rows)[k], '.')[0]) == Some(start + k + 1)
  {
    BookLineNumber(start + k, rows[k]);
  }

  // ---------------------------------------------------------------------------
  // The chat call and the answer

  /** The chat completion for a user prompt: the message content, or what
      the client raises. */
  type Chat = string -> Result<string>

  /** `json.loads`; an invalid document is JSONDecodeError. */
  type Loads = string -> Result<Json>

  /** `parse_json`: None (JNull) for an invalid document; any other error of
      `json.loads` propagates. */
  function ParseJson(loads: Loads, text: string): (r: Result<Json>)
    ensures r != Err(JSONDecodeError)
    ensures loads(text).Ok? ==> r == loads(text)
    ensures loads(text) == Err(JSONDecodeError) ==> r == Ok(JNull)
    ensures loads(text).Err? && loads(text) != Err(JSONDecodeError) ==> r == loads(text)
  {
    match loads(text)
    case Err(JSONDecodeError) => Ok(JNull)
    case other => other
  }

  /** `do_openai_api` on the rows at frame positions `start`, .... */
  function OpenaiResult(chat: Chat, loads: Loads, start: nat, rows: seq<Row>): Result<Json> {
    var content :- chat(Prompt(start, rows));
    ParseJson(loads, content)
  }

  method DoOpenaiApi(chat: Chat, loads: Loads, start: nat, rows: seq<Row>) returns (r: Result<Json>)
    ensures r == OpenaiResult(chat, loads, start, rows)
  {
    var prompt := BuildPrompt(start, rows);
    var content := chat(prompt);
    if content.Err? {
      return Err(content.error);
    }
    r := ParseJson(loads, content.value);
  }

  function Genre(item: Json): Result<Json> {
    GetItem(item, "genre")
  }

  /** `check_result`: `items` must have one entry per row sent; the genres in
      item order. */
  function CheckResult(result: Json, n: nat): (r: Result<seq<Json>>)
    ensures r.Ok? ==> |r.value| == n
  {
    var items :- GetItem(result, "items");
    var count :- Len(items);
    if count != n then Err(AssertionError)
    else
      var xs :- Iterate(items);
      MapAllSpec(xs, Genre);
      MapAll(xs, Genre)
  }

  /** `check_result`, running its loop. */
  method CheckResultLoop(result: Json, n: nat) returns (r: Result<seq<Json>>)
    ensures r == CheckResult(result, n)
  {
    var items := GetItem(result, "items");
    if items.Err? {
      return Err(items.error);
    }
    var count := Len(items.value);
    if count.Err? {
      return Err(count.error);
    }
    if count.value != n {
      return Err(AssertionError);
    }
    var xs := Iterate(items.value);
    if xs.Err? {
      return Err(xs.error);
    }
    var genres: seq<Json> := [];
    var i := 0;
    while i < |xs.value|
      invariant 0 <= i <= |xs.value|
      invariant MapAll(xs.value[..i], Genre) == Ok(genres)
    {
      var item := xs.value[i];
      var genre := GetItem(item, "genre");
      MapAllStep(xs.value, i, Genre, genres);
      if genre.Err? {
        return Err(genre.error);
      }
      genres := genres + [genre.value];
      i := i + 1;
    }
    assert xs.value[..i] == xs.value;
    return Ok(genres);
  }

  /** A successful check gives one genre per row, each the `genre` of the
      item at the same place; the check fails with AssertionError exactly
      when `items` reads but its length is not the number of rows. */
  lemma CheckResultSpec(result: Json, n: nat)
    ensures CheckResult(result, n).Ok? ==>
              && GetItem(result, "items").Ok?
              && Iterate(GetItem(result, "items").value).Ok?
              && var xs := Iterate(GetItem(result, "items").value).value;
                 |xs| == n && forall k :: 0 <= k < n ==> Genre(xs[k]) == Ok(CheckResult(result, n).value[k])
    ensures CheckResult(result, n) == Err(AssertionError) <==>
              GetItem(result, "items").Ok? && Len(GetItem(result, "items").value).Ok?
              && Len(GetItem(result, "items").value).value != n
  {
    if GetItem(result, "items").Ok? && Len(GetItem(result, "items").value).Ok?
       && Len(GetItem(result, "items").value).value == n && Iterate(GetItem(result, "items").value).Ok?
    {
      var xs := Iterate(GetItem(result, "items").value).value;
      MapAllSpec(xs, Genre);
      MapAllErrors(xs, Genre);
    }
  }

  /** `items` of size n reads back with `len` n. */
  lemma MapAllErrors(xs: seq<Json>, f: Json -> Result<Json>)
    requires forall x :: f(x) != Err(AssertionError)
    ensures MapAll(xs, f) != Err(AssertionError)
  {
    if MapAll(xs, f) == Err(AssertionError) {
      MapAllFirstError(xs, f);
    }
  }

  /** A failed map fails with the error of some element. */
  lemma {:induction false} MapAllFirstError(xs: seq<Json>, f: Json -> Result<Json>)
    requires MapAll(xs, f).Err?
    ensures exists k :: 0 <= k < |xs| && f(xs[k]) == Err(MapAll(xs, f).error)
  {
    if f(xs[0]).Ok? {
      MapAllFirstError(xs[1..], f);
      var k :| 0 <= k < |xs[1..]| && f(xs[1..][k]) == Err(MapAll(xs[1..], f).error);
      assert f(xs[k + 1]) == Err(MapAll(xs, f).error);
    }
  }

  /** Parsing the answer gives None for an invalid document, and checking
      None raises TypeError, which is not caught. */
  lemma InvalidAnswer(loads: Loads, text: string, n: nat)
    requires loads(text) == Err(JSONDecodeError)
    ensures ParseJson(loads, text) == Ok(JNull)
    ensures CheckResult(JNull, n) == Err(TypeError)
  {
  }

  // ---------------------------------------------------------------------------
  // categorize

  function ChunkEnd(rows: seq<Row>, start: nat): nat {
    if start + ChunkSize <= |rows| then start + ChunkSize else |rows|
  }

  /** `df.loc[start : start + 4]`: the rows at labels start to start + 4 that exist. */
  function Chunk(rows: seq<Row>, start: nat): seq<Row>
    requires start <= |rows|
  {
    rows[start..ChunkEnd(rows, start)]
  }

  /** The chunk's rows with their frame positions and genres. */
  function Label(start: nat, chunk: seq<Row>, genres: seq<Json>): (r: seq<Categorized>)
    requires |genres| == |chunk|
    ensures |r| == |chunk|
    ensures forall k :: 0 <= k < |chunk| ==> r[k] == Categorized(start + k, chunk[k], genres[k])
  {
    seq(|chunk|, k requires 0 <= k < |chunk| => Categorized(start + k, chunk[k], genres[k]))
  }

  /** What happens to one chunk: an error that propagates, a skip (the check
      raised AssertionError), or the genres to keep it with. */
  datatype Outcome = Failed(error: PyError) | Skipped | Kept(genres: seq<Json>)

  /** The outcome of the chunk starting at `start`: the chat call's errors
      propagate, a check failing with AssertionError skips the chunk, any
      other check error propagates. */
  function ChunkOutcome(rows: seq<Row>, start: nat, chat: Chat, loads: Loads): (o: Outcome)
    requires start <= |rows|
    ensures o.Kept? ==> |o.genres| == |Chunk(rows, start)|
  {
    var chunk := Chunk(rows, start);
    match OpenaiResult(chat, loads, start, chunk)
    case Err(e) => Failed(e)
    case Ok(raw) =>
      match CheckResult(raw, |chunk|)
      case Err(AssertionError) => Skipped
      case Err(e) => Failed(e)
      case Ok(genres) => Kept(genres)
  }

  /** Kept outcomes carry one genre per row of their chunk. */
  ghost predicate Consistent(rows: seq<Row>, out: nat -> Outcome) {
    forall s: nat :: s < |rows| && out(s).Kept? ==> |out(s).genres| == |Chunk(rows, s)|
  }

  function Outcomes(rows: seq<Row>, chat: Chat, loads: Loads): nat -> Outcome {
    (s: nat) => if s < |rows| then ChunkOutcome(rows, s, chat, loads) else Skipped
  }

  lemma OutcomesConsistent(rows: seq<Row>, chat: Chat, loads: Loads)
    ensures Consistent(rows, Outcomes(rows, chat, loads))
  {
  }

  /** The loop of `categorize` from frame position `start` on, for the chunk
      outcomes `out`. */
  function KeepFrom(rows: seq<Row>, start: nat, out: nat -> Outcome): Result<seq<Categorized>>
    requires Consistent(rows, out)
    decreases |rows| - start
  {
    if start >= |rows| then Ok([])
    else
      match out(start)
      case Failed(e) => Err(e)
      case Skipped => KeepFrom(rows, start + ChunkSize, out)
      case Kept(genres) =>
        var rest :- KeepFrom(rows, start + ChunkSize, out);
        Ok(Label(start, Chunk(rows, start), genres) + rest)
  }

  /** `categorize`: `pd.concat` of no chunk at all raises ValueError. */
  function CategorizeSpec(rows: seq<Row>, chat: Chat, loads: Loads): Result<seq<Categorized>> {
    OutcomesConsistent(rows, chat, loads);
    var kept :- KeepFrom(rows, 0, Outcomes(rows, chat, loads));
    if |kept| == 0 then Err(ValueError) else Ok(kept)
  }

  /** The kept rows so far, followed by what the rest of the loop keeps. */
  function Prepend(kept: seq<Categorized>, rest: Result<seq<Categorized>>): Result<seq<Categorized>> {
    if rest.Err? then rest else Ok(kept + rest.value)
  }

  /** One pass of the loop, whatever the chunk's outcome. */
  lemma KeepStep(rows: seq<Row>, i: nat, out: nat -> Outcome, dfs: seq<Categorized>)
    requires Consistent(rows, out) && i < |rows|
    ensures out(i).Failed? ==> Prepend(dfs, KeepFrom(rows, i, out)) == Err(out(i).error)
    ensures out(i).Skipped? ==> Prepend(dfs, KeepFrom(rows, i, out)) == Prepend(dfs, KeepFrom(rows, i + ChunkSize, out))
    ensures out(i).Kept? ==>
              Prepend(dfs, KeepFrom(rows, i, out)) ==
              Prepend(dfs + Label(i, Chunk(rows, i), out(i).genres), KeepFrom(rows, i + ChunkSize, out))
  {
    if out(i).Kept? && KeepFrom(rows, i + ChunkSize, out).Ok? {
      var front := Label(i, Chunk(rows, i), out(i).genres);
      var rest := KeepFrom(rows, i + ChunkSize, out).value;
      assert dfs + (front + rest) == (dfs + front) + rest;
    }
  }

  lemma KeepEnd(rows: seq<Row>, i: nat, out: nat -> Outcome, dfs: seq<Categorized>)
    requires Consistent(rows, out) && i >= |rows|
    ensures Prepend(dfs, KeepFrom(rows, i, out)) == Ok(dfs)
  {
    assert dfs + [] == dfs;
  }

  /** `categorize`, running its loop. */
  method Categorize(rows: seq<Row>, chat: Chat, loads: Loads) returns (r: Result<seq<Categorized>>)
    ensures r == CategorizeSpec(rows, chat, loads)
  {
    ghost var out := Outcomes(rows, chat, loads);
    OutcomesConsistent(rows, chat, loads);
    var dfs: seq<Categorized> := [];
    assert Prepend(dfs, KeepFrom(rows, 0, out)) == KeepFrom(rows, 0, out) by {
      if KeepFrom(rows, 0, out).Ok? {
        assert [] + KeepFrom(rows, 0, out).value == KeepFrom(rows, 0, out).value;
      }
    }
    var i := 0;
    while i < |rows|
      invariant KeepFrom(rows, 0, out) == Prepend(dfs, KeepFrom(rows, i, out))
      decreases |rows| - i
    {
      KeepStep(rows, i, out, dfs);
      var end := if i + 5 <= |rows| then i + 5 else |rows|;
      var target := rows[i..end];
      assert target == Chunk(rows, i);
      var raw := DoOpenaiApi(chat, loads, i, target);
      if raw.Err? {
        assert out(i) == Failed(raw.error);
        return Err(raw.error);
      }
      var result := CheckResultLoop(raw.value, |target|);
      if result == Err(AssertionError) {
        assert out(i) == Skipped;
        i := i + 5;
        continue;
      }
      if result.Err? {
        assert out(i) == Failed(result.error);
        return Err(result.error);
      }
      assert out(i) == Kept(result.value);
      dfs := dfs + Label(i, target, result.value);
      i := i + 5;
    }
    KeepEnd(rows, i, out, dfs);
    if |dfs| == 0 {
      return Err(ValueError);
    }
    return Ok(dfs);
  }

  /** A chunk is kept when it was answered and its check passed, skipped
      when the check raised AssertionError, and fails otherwise. */
  lemma ChunkOutcomeSpec(rows: seq<Row>, start: nat, chat: Chat, loads: Loads)
    requires start <= |rows|
    ensures var raw := OpenaiResult(chat, loads, start, Chunk(rows, start));
            var o := ChunkOutcome(rows, start, chat, loads);
            && (o.Kept? <==> raw.Ok? && CheckResult(raw.value, |Chunk(rows, start)|).Ok?)
            && (o.Kept? ==> Ok(o.genres) == CheckResult(raw.value, |Chunk(rows, start)|))
            && (o.Skipped? <==> raw.Ok? && CheckResult(raw.value, |Chunk(rows, start)|) == Err(AssertionError))
            && (o.Failed? ==> o.error != AssertionError || raw.Err?)
  {
  }

  /** The frame position where the chunk holding position `i` starts. */
  function ChunkStart(i: nat): nat {
    i - i % ChunkSize
  }

  /** One step of the loop: a skipped chunk adds nothing, a kept chunk adds
      its labelled rows in front of what the rest keeps. */
  lemma KeepFromUnfold(rows: seq<Row>, start: nat, out: nat -> Outcome)
    requires Consistent(rows, out) && start < |rows| && KeepFrom(rows, start, out).Ok?
    ensures !out(start).Failed? && KeepFrom(rows, start + ChunkSize, out).Ok?
    ensures out(start).Skipped? ==> KeepFrom(rows, start, out) == KeepFrom(rows, start + ChunkSize, out)
    ensures out(start).Kept? ==>
              KeepFrom(rows, start, out).value ==
              Label(start, Chunk(rows, start), out(start).genres) + KeepFrom(rows, start + ChunkSize, out).value
  {
  }

  /** Kept rows are rows of the frame at their own positions. */
  lemma {:induction false} KeepFromRows(rows: seq<Row>, start: nat, out: nat -> Outcome)
    requires Consistent(rows, out) && KeepFrom(rows, start, out).Ok?
    ensures var kept := KeepFrom(rows, start, out).value;
            forall k :: 0 <= k < |kept| ==> start <= kept[k].index < |rows| && kept[k].row == rows[kept[k].index]
    decreases |rows| - start
  {
    if start < |rows| {
      KeepFromUnfold(rows, start, out);
      KeepFromRows(rows, start + ChunkSize, out);
      if out(start).Kept? {
        var kept := KeepFrom(rows, start, out).value;
        var front := Label(start, Chunk(rows, start), out(start).genres);
        var rest := KeepFrom(rows, start + ChunkSize, out).value;
        forall k | 0 <= k < |kept| ensures start <= kept[k].index < |rows| && kept[k].row == rows[kept[k].index] {
          if k < |front| {
            assert kept[k] == front[k];
          } else {
            assert kept[k] == rest[k - |front|];
          }
        }
      }
    }
  }

  /** Kept rows come in frame order. */
  lemma {:induction false} KeepFromOrder(rows: seq<Row>, start: nat, out: nat -> Outcome)
    requires Consistent(rows, out) && KeepFrom(rows, start, out).Ok?
    ensures var kept := KeepFrom(rows, start, out).value;
            forall k, l :: 0 <= k < l < |kept| ==> kept[k].index < kept[l].index
    decreases |rows| - start
  {
    if start < |rows| {
      KeepFromUnfold(rows, start, out);
      KeepFromOrder(rows, start + ChunkSize, out);
      if out(start).Kept? {
        KeepFromRows(rows, start + ChunkSize, out);
        var kept := KeepFrom(rows, start, out).value;
        var front := Label(start, Chunk(rows, start), out(start).genres);
        var rest := KeepFrom(rows, start + ChunkSize, out).value;
        forall k, l | 0 <= k < l < |kept| ensures kept[k].index < kept[l].index {
          if l < |front| {
            assert kept[k] == front[k] && kept[l] == front[l];
          } else if k < |front| {
            assert kept[k] == front[k] && kept[l] == rest[l - |front|];
          } else {
            assert kept[k] == rest[k - |front|] && kept[l] == rest[l - |front|];
          }
        }
      }
    }
  }

  /** A kept row carries the genre its chunk's outcome gave at its place. */
  lemma {:induction false} KeepFromGenres(rows: seq<Row>, start: nat, out: nat -> Outcome)
    requires start % ChunkSize == 0
    requires Consistent(rows, out) && KeepFrom(rows, start, out).Ok?
    ensures var kept := KeepFrom(rows, start, out).value;
            forall k :: 0 <= k < |kept| ==>
              && out(ChunkStart(kept[k].index)).Kept?
              && kept[k].index % ChunkSize < |out(ChunkStart(kept[k].index)).genres|
              && kept[k].genre == out(ChunkStart(kept[k].index)).genres[kept[k].index % ChunkSize]
    decreases |rows| - start
  {
    if start < |rows| {
      KeepFromUnfold(rows, start, out);
      KeepFromGenres(rows, start + ChunkSize, out);
      if out(start).Kept? {
        var kept := KeepFrom(rows, start, out).value;
        var front := Label(start, Chunk(rows, start), out(start).genres);
        var rest := KeepFrom(rows, start + ChunkSize, out).value;
        forall k | 0 <= k < |front|
          ensures ChunkStart(kept[k].index) == start && kept[k].index % ChunkSize == k
        {
          assert kept[k] == front[k];
        }
        forall k | |front| <= k < |kept| ensures kept[k] == rest[k - |front|] { }
      }
    }
  }

  /** Some kept row is at frame position `i`. */
  predicate KeptAt(kept: seq<Categorized>, i: nat) {
    exists k :: 0 <= k < |kept| && kept[k].index == i
  }

  lemma KeptAtConcat(a: seq<Categorized>, b: seq<Categorized>, i: nat)
    ensures KeptAt(a + b, i) <==> KeptAt(a, i) || KeptAt(b, i)
  {
    if KeptAt(a + b, i) {
      var k :| 0 <= k < |a + b| && (a + b)[k].index == i;
      if k >= |a| {
        assert b[k - |a|] == (a + b)[k];
      }
    }
    if KeptAt(a, i) {
      var k :| 0 <= k < |a| && a[k].index == i;
      assert (a + b)[k] == a[k];
    }
    if KeptAt(b, i) {
      var k :| 0 <= k < |b| && b[k].index == i;
      assert (a + b)[k + |a|] == b[k];
    }
  }

  lemma KeptAtLabel(start: nat, chunk: seq<Row>, genres: seq<Json>, i: nat)
    requires |genres| == |chunk|
    ensures KeptAt(Label(start, chunk, genres), i) <==> start <= i < start + |chunk|
  {
    var r := Label(start, chunk, genres);
    if start <= i < start + |chunk| {
      assert r[i - start].index == i;
    }
  }

  /** A frame position is kept exactly when its chunk's outcome keeps it. */
  lemma {:induction false} KeepFromCoverage(rows: seq<Row>, start: nat, out: nat -> Outcome, i: nat)
    requires start % ChunkSize == 0
    requires Consistent(rows, out) && KeepFrom(rows, start, out).Ok?
    requires start <= i < |rows|
    ensures KeptAt(KeepFrom(rows, start, out).value, i) <==> out(ChunkStart(i)).Kept?
    decreases |rows| - start
  {
    KeepFromUnfold(rows, start, out);
    var rest := KeepFrom(rows, start + ChunkSize, out).value;
    if out(start).Kept? {
      var chunk := Chunk(rows, start);
      KeptAtConcat(Label(start, chunk, out(start).genres), rest, i);
      KeptAtLabel(start, chunk, out(start).genres, i);
    }
    if i < start + ChunkSize {
      assert ChunkStart(i) == start;
      KeepFromRows(rows, start + ChunkSize, out);
    } else {
      KeepFromCoverage(rows, start + ChunkSize, out, i);
      assert ChunkStart(i) >= start + ChunkSize;
    }
  }

  /** What `categorize` returns: rows of the frame at their own positions, in
      frame order; a position is there exactly when its chunk was answered
      and passed its check, and it carries the genre at its place in that
      check's list. */
  lemma CategorizeKept(rows: seq<Row>, chat: Chat, loads: Loads, i: nat)
    requires CategorizeSpec(rows, chat, loads).Ok?
    requires i < |rows|
    ensures var kept := CategorizeSpec(rows, chat, loads).value;
            && (forall k :: 0 <= k < |kept| ==> kept[k].index < |rows| && kept[k].row == rows[kept[k].index])
            && (forall k, l :: 0 <= k < l < |kept| ==> kept[k].index < kept[l].index)
            && ((exists k :: 0 <= k < |kept| && kept[k].index == i) <==> ChunkOutcome(rows, ChunkStart(i), chat, loads).Kept?)
            && (forall k :: 0 <= k < |kept| ==>
                  var c := ChunkOutcome(rows, ChunkStart(kept[k].index), chat, loads);
                  c.Kept? && kept[k].index % ChunkSize < |c.genres| && kept[k].genre == c.genres[kept[k].index % ChunkSize])
  {
    var out := Outcomes(rows, chat, loads);
    OutcomesConsistent(rows, chat, loads);
    KeepFromRows(rows, 0, out);
    KeepFromOrder(rows, 0, out);
    KeepFromGenres(rows, 0, out);
    KeepFromCoverage(rows, 0, out, i);
    var kept := CategorizeSpec(rows, chat, loads).value;
    forall k | 0 <= k < |kept|
      ensures out(ChunkStart(kept[k].index)) == ChunkOutcome(rows, ChunkStart(kept[k].index), chat, loads)
    {
    }
  }

  /** When every chunk passes its check, every row is kept, in order. */
  lemma {:induction false} KeepFromAll(rows: seq<Row>, start: nat, out: nat -> Outcome)
    requires Consistent(rows, out)
    requires forall s: nat :: start <= s < |rows| ==> out(s).Kept?
    ensures KeepFrom(rows, start, out).Ok?
    ensures start <= |rows| ==> |KeepFrom(rows, start, out).value| == |rows| - start
    decreases |rows| - start
  {
    if start < |rows| {
      KeepFromAll(rows, start + ChunkSize, out);
    }
  }

  // ---------------------------------------------------------------------------
  // categorize_date

  /** `categorize_date`'s result: `count` 0 for an empty frame, otherwise the
      number of rows kept, with the date. */
  function CategorizeDate(rows: seq<Row>, dateStr: string, chat: Chat, loads: Loads): Result<(nat, string)> {
    if |rows| == 0 then Ok((0, dateStr))
    else
      var kept :- CategorizeSpec(rows, chat, loads);
      Ok((|kept|, dateStr))
  }

  /** The count is 0 exactly for an empty frame and never exceeds the rows
      fetched. */
  lemma CategorizeDateCount(rows: seq<Row>, dateStr: string, chat: Chat, loads: Loads)
    requires CategorizeDate(rows, dateStr, chat, loads).Ok?
    ensures CategorizeDate(rows, dateStr, chat, loads).value.1 == dateStr
    ensures CategorizeDate(rows, dateStr, chat, loads).value.0 == 0 <==> |rows| == 0
    ensures CategorizeDate(rows, dateStr, chat, loads).value.0 <= |rows|
  {
    if |rows| > 0 {
      var out := Outcomes(rows, chat, loads);
      OutcomesConsistent(rows, chat, loads);
      KeepFromRows(rows, 0, out);
      KeepFromOrder(rows, 0, out);
      var kept := CategorizeSpec(rows, chat, loads).value;
      IncreasingBound(kept, |rows|);
    }
  }

  /** Strictly increasing positions below `n` are at most `n` many. */
  lemma {:induction false} IncreasingBound(kept: seq<Categorized>, n: nat)
    requires forall k :: 0 <= k < |kept| ==> kept[k].index < n
    requires forall k, l :: 0 <= k < l < |kept| ==> kept[k].index < kept[l].index
    ensures |kept| <= n
  {
    if |kept| > 0 {
      var last := kept[|kept| - 1].index;
      IncreasingBound(kept[..|kept| - 1], last);
    }
  }
}
