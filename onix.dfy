/** Field extraction from openBD records, which carry ONIX for Books 3.0 data
    as JSON, shared by the two book-feed jobs: nested item access, the
    "first TextContent of TextType 03" description, the last-wins scans over
    Subject (scheme identifiers 20 and 78) and TitleElement (levels 02 and
    03) lists, the CollectionType 10 label/series rule, and the keying of the
    API answer by RecordReference. */
module Onix {

  import opened Results
  import opened Json

  /** `j[k0][k1]...[kn]`. */
  function GetPath(j: Json, keys: seq<string>): Result<Json>
    decreases |keys|
  {
    if |keys| == 0 then Ok(j)
    else
      var v :- GetItem(j, keys[0]);
      GetPath(v, keys[1..])
  }

  // ---------------------------------------------------------------------------
  // Last-wins scans

  /** A loop over a list of ONIX composites that reads `key` and, by its code,
      overwrites the first variable with the value at `pathA` (code `codeA`)
      or, failing that, the second with the value at `pathB` (code `codeB`). */
  datatype Selector = Selector(key: string, codeA: string, pathA: seq<string>, codeB: string, pathB: seq<string>)

  /** `SubjectSchemeIdentifier` 20 sets the keyword from `SubjectHeadingText`,
      78 sets the C-code from `SubjectCode`. */
  const SubjectSelector: Selector :=
    Selector("SubjectSchemeIdentifier", "20", ["SubjectHeadingText"], "78", ["SubjectCode"])

  /** `TitleElementLevel` 02 sets the label, 03 sets the series, both from
      `TitleText.content`. */
  const TitleElementSelector: Selector :=
    Selector("TitleElementLevel", "02", ["TitleText", "content"], "03", ["TitleText", "content"])

  /** The scan, one item after another, from the starting values `a` and `b`. */
  function Scan(items: seq<Json>, sel: Selector, a: Json, b: Json): Result<(Json, Json)>
    decreases |items|
  {
    if |items| == 0 then Ok((a, b))
    else
      var code :- GetItem(items[0], sel.key);
      if code == JStr(sel.codeA) then
        var v :- GetPath(items[0], sel.pathA);
        Scan(items[1..], sel, v, b)
      else if code == JStr(sel.codeB) then
        var v :- GetPath(items[0], sel.pathB);
        Scan(items[1..], sel, a, v)
      else Scan(items[1..], sel, a, b)
  }

  /** The loop itself: `for x in items: if x[key] == codeA: a = x[pathA] elif
      x[key] == codeB: b = x[pathB]`. */
  method ScanLastTwo(items: seq<Json>, sel: Selector, a0: Json, b0: Json) returns (r: Result<(Json, Json)>)
    ensures r == Scan(items, sel, a0, b0)
  {
    var a, b := a0, b0;
    var i := 0;
    while i < |items|
      invariant 0 <= i <= |items|
      invariant Scan(items, sel, a0, b0) == Scan(items[i..], sel, a, b)
    {
      assert items[i..][1..] == items[i + 1..];
      var code := GetItem(items[i], sel.key);
      if code.Err? {
        return Err(code.error);
      }
      if code.value == JStr(sel.codeA) {
        var v := GetPath(items[i], sel.pathA);
        if v.Err? {
          return Err(v.error);
        }
        a := v.value;
      } else if code.value == JStr(sel.codeB) {
        var v := GetPath(items[i], sel.pathB);
        if v.Err? {
          return Err(v.error);
        }
        b := v.value;
      }
      i := i + 1;
    }
    return Ok((a, b));
  }

  /** An item the scan can read: its code exists, and the value its code
      selects exists. */
  predicate Readable(x: Json, sel: Selector) {
    && GetItem(x, sel.key).Ok?
    && (GetItem(x, sel.key).value == JStr(sel.codeA) ==> GetPath(x, sel.pathA).Ok?)
    && (GetItem(x, sel.key).value == JStr(sel.codeB) && GetItem(x, sel.key).value != JStr(sel.codeA) ==>
          GetPath(x, sel.pathB).Ok?)
  }

  /** The scan fails exactly when some item lacks its code or the value its
      code selects. */
  lemma {:induction false} ScanOk(items: seq<Json>, sel: Selector, a: Json, b: Json)
    ensures Scan(items, sel, a, b).Ok? <==> forall k :: 0 <= k < |items| ==> Readable(items[k], sel)
    decreases |items|
  {
    if |items| > 0 {
      var x := items[0];
      assert forall k :: 1 <= k < |items| ==> items[k] == items[1..][k - 1];
      if Readable(x, sel) {
        var code := GetItem(x, sel.key).value;
        if code == JStr(sel.codeA) {
          ScanOk(items[1..], sel, GetPath(x, sel.pathA).value, b);
        } else if code == JStr(sel.codeB) {
          ScanOk(items[1..], sel, a, GetPath(x, sel.pathB).value);
        } else {
          ScanOk(items[1..], sel, a, b);
        }
      }
    }
  }

  /** With no item of code A, the first value is the starting one. */
  lemma {:induction false} ScanKeepsA(items: seq<Json>, sel: Selector, a: Json, b: Json)
    requires Scan(items, sel, a, b).Ok?
    requires forall j :: 0 <= j < |items| ==> GetItem(items[j], sel.key) != Ok(JStr(sel.codeA))
    ensures Scan(items, sel, a, b).value.0 == a
    decreases |items|
  {
    if |items| > 0 {
      assert forall j :: 1 <= j < |items| ==> items[j] == items[1..][j - 1];
      var code := GetItem(items[0], sel.key).value;
      if code == JStr(sel.codeB) {
        ScanKeepsA(items[1..], sel, a, GetPath(items[0], sel.pathB).value);
      } else {
        ScanKeepsA(items[1..], sel, a, b);
      }
    }
  }

  /** With no item of code B (other than code A), the second value is the
      starting one. */
  lemma {:induction false} ScanKeepsB(items: seq<Json>, sel: Selector, a: Json, b: Json)
    requires Scan(items, sel, a, b).Ok?
    requires forall j :: 0 <= j < |items| ==>
               GetItem(items[j], sel.key) != Ok(JStr(sel.codeB)) || GetItem(items[j], sel.key) == Ok(JStr(sel.codeA))
    ensures Scan(items, sel, a, b).value.1 == b
    decreases |items|
  {
    if |items| > 0 {
      assert forall j :: 1 <= j < |items| ==> items[j] == items[1..][j - 1];
      var code := GetItem(items[0], sel.key).value;
      if code == JStr(sel.codeA) {
        ScanKeepsB(items[1..], sel, GetPath(items[0], sel.pathA).value, b);
      } else {
        ScanKeepsB(items[1..], sel, a, b);
      }
    }
  }

  /** The last item of code A decides the first value: a later one
      overwrites an earlier one. */
  lemma {:induction false} ScanLastA(items: seq<Json>, sel: Selector, a: Json, b: Json, k: nat)
    requires Scan(items, sel, a, b).Ok?
    requires k < |items| && GetItem(items[k], sel.key) == Ok(JStr(sel.codeA))
    requires forall j :: k < j < |items| ==> GetItem(items[j], sel.key) != Ok(JStr(sel.codeA))
    ensures GetPath(items[k], sel.pathA).Ok?
    ensures Scan(items, sel, a, b).value.0 == GetPath(items[k], sel.pathA).value
    decreases |items|
  {
    assert forall j :: 1 <= j < |items| ==> items[j] == items[1..][j - 1];
    var code := GetItem(items[0], sel.key).value;
    if k == 0 {
      ScanKeepsA(items[1..], sel, GetPath(items[0], sel.pathA).value, b);
    } else if code == JStr(sel.codeA) {
      ScanLastA(items[1..], sel, GetPath(items[0], sel.pathA).value, b, k - 1);
    } else if code == JStr(sel.codeB) {
      ScanLastA(items[1..], sel, a, GetPath(items[0], sel.pathB).value, k - 1);
    } else {
      ScanLastA(items[1..], sel, a, b, k - 1);
    }
  }

  /** The last item of code B (and not code A) decides the second value. */
  lemma {:induction false} ScanLastB(items: seq<Json>, sel: Selector, a: Json, b: Json, k: nat)
    requires Scan(items, sel, a, b).Ok?
    requires k < |items| && GetItem(items[k], sel.key) == Ok(JStr(sel.codeB)) && sel.codeB != sel.codeA
    requires forall j :: k < j < |items| ==> GetItem(items[j], sel.key) != Ok(JStr(sel.codeB))
    ensures GetPath(items[k], sel.pathB).Ok?
    ensures Scan(items, sel, a, b).value.1 == GetPath(items[k], sel.pathB).value
    decreases |items|
  {
    assert forall j :: 1 <= j < |items| ==> items[j] == items[1..][j - 1];
    var code := GetItem(items[0], sel.key).value;
    if k == 0 {
      ScanKeepsB(items[1..], sel, a, GetPath(items[0], sel.pathB).value);
    } else if code == JStr(sel.codeA) {
      ScanLastB(items[1..], sel, GetPath(items[0], sel.pathA).value, b, k - 1);
    } else if code == JStr(sel.codeB) {
      ScanLastB(items[1..], sel, a, GetPath(items[0], sel.pathB).value, k - 1);
    } else {
      ScanLastB(items[1..], sel, a, b, k - 1);
    }
  }

  // ---------------------------------------------------------------------------
  // The description: the first TextContent of TextType 03

  /** `onix["CollateralDetail"].get("TextContent", [])`, iterated. */
  function TextContents(onix: Json): Result<seq<Json>> {
    var collateral :- GetItem(onix, "CollateralDetail");
    var texts :- GetOr(collateral, "TextContent", JArr([]));
    Iterate(texts)
  }

  /** The description the loop settles on: the `Text` of the first item whose
      `TextType` is "03", or "" when none is. */
  function Description(items: seq<Json>): Result<Json>
    decreases |items|
  {
    if |items| == 0 then Ok(JStr(""))
    else
      var kind :- GetItem(items[0], "TextType");
      if kind == JStr("03") then GetItem(items[0], "Text")
      else Description(items[1..])
  }

  /** The loop with its `break`. */
  method FindDescription(items: seq<Json>) returns (r: Result<Json>)
    ensures r == Description(items)
  {
    var description := JStr("");
    var i := 0;
    while i < |items|
      invariant 0 <= i <= |items|
      invariant Description(items) == Description(items[i..])
    {
      assert items[i..][1..] == items[i + 1..];
      var kind := GetItem(items[i], "TextType");
      if kind.Err? {
        return Err(kind.error);
      }
      if kind.value == JStr("03") {
        var text := GetItem(items[i], "Text");
        if text.Err? {
          return Err(text.error);
        }
        description := text.value;
        break;
      }
      i := i + 1;
    }
    return Ok(description);
  }

  /** Items before the first of TextType 03 are read only for their type,
      and that first one's `Text` is the description. */
  lemma {:induction false} DescriptionFirst(items: seq<Json>, k: nat)
    requires k < |items| && GetItem(items[k], "TextType") == Ok(JStr("03"))
    requires forall j :: 0 <= j < k ==> GetItem(items[j], "TextType").Ok? && GetItem(items[j], "TextType") != Ok(JStr("03"))
    ensures Description(items) == GetItem(items[k], "Text")
    decreases k
  {
    if k > 0 {
      assert forall j :: 1 <= j < |items| ==> items[j] == items[1..][j - 1];
      DescriptionFirst(items[1..], k - 1);
    }
  }

  /** With no item of TextType 03 (and every type readable) the description is "". */
  lemma {:induction false} DescriptionAbsent(items: seq<Json>)
    requires forall j :: 0 <= j < |items| ==> GetItem(items[j], "TextType").Ok? && GetItem(items[j], "TextType") != Ok(JStr("03"))
    ensures Description(items) == Ok(JStr(""))
    decreases |items|
  {
    if |items| > 0 {
      assert forall j :: 1 <= j < |items| ==> items[j] == items[1..][j - 1];
      DescriptionAbsent(items[1..]);
    }
  }

  // ---------------------------------------------------------------------------
  // Keyword and C-code

  /** `keyword` and `c_code` after the Subject loop, both "" when
      `DescriptiveDetail` has no `Subject`. */
  function Subjects(onix: Json): Result<(Json, Json)> {
    var detail :- GetItem(onix, "DescriptiveDetail");
    var has :- Contains(detail, "Subject");
    if !has then Ok((JStr(""), JStr("")))
    else
      var subjects :- GetItem(detail, "Subject");
      var items :- Iterate(subjects);
      Scan(items, SubjectSelector, JStr(""), JStr(""))
  }

  /** The Subject step, running the loop. */
  method ScanSubjects(onix: Json) returns (r: Result<(Json, Json)>)
    ensures r == Subjects(onix)
  {
    var detail := GetItem(onix, "DescriptiveDetail");
    if detail.Err? {
      return Err(detail.error);
    }
    var has := Contains(detail.value, "Subject");
    if has.Err? {
      return Err(has.error);
    }
    if !has.value {
      return Ok((JStr(""), JStr("")));
    }
    var subjects := GetItem(detail.value, "Subject");
    if subjects.Err? {
      return Err(subjects.error);
    }
    var items := Iterate(subjects.value);
    if items.Err? {
      return Err(items.error);
    }
    r := ScanLastTwo(items.value, SubjectSelector, JStr(""), JStr(""));
  }

  /** The keyword is the heading text of the last subject of scheme 20 and
      the C-code the code of the last subject of scheme 78; either stays ""
      when no subject has its scheme. */
  lemma SubjectsLastWins(items: seq<Json>, k: nat)
    requires Scan(items, SubjectSelector, JStr(""), JStr("")).Ok? && k < |items|
    ensures GetItem(items[k], "SubjectSchemeIdentifier") == Ok(JStr("20"))
            && (forall j :: k < j < |items| ==> GetItem(items[j], "SubjectSchemeIdentifier") != Ok(JStr("20"))) ==>
              GetItem(items[k], "SubjectHeadingText") == Ok(Scan(items, SubjectSelector, JStr(""), JStr("")).value.0)
    ensures GetItem(items[k], "SubjectSchemeIdentifier") == Ok(JStr("78"))
            && (forall j :: k < j < |items| ==> GetItem(items[j], "SubjectSchemeIdentifier") != Ok(JStr("78"))) ==>
              GetItem(items[k], "SubjectCode") == Ok(Scan(items, SubjectSelector, JStr(""), JStr("")).value.1)
    ensures (forall j :: 0 <= j < |items| ==> GetItem(items[j], "SubjectSchemeIdentifier") != Ok(JStr("20"))) ==>
              Scan(items, SubjectSelector, JStr(""), JStr("")).value.0 == JStr("")
    ensures (forall j :: 0 <= j < |items| ==> GetItem(items[j], "SubjectSchemeIdentifier") != Ok(JStr("78"))) ==>
              Scan(items, SubjectSelector, JStr(""), JStr("")).value.1 == JStr("")
  {
    var sel := SubjectSelector;
    if forall j :: 0 <= j < |items| ==> GetItem(items[j], sel.key) != Ok(JStr(sel.codeA)) {
      ScanKeepsA(items, sel, JStr(""), JStr(""));
    }
    if forall j :: 0 <= j < |items| ==> GetItem(items[j], sel.key) != Ok(JStr(sel.codeB)) {
      ScanKeepsB(items, sel, JStr(""), JStr(""));
    }
    if GetItem(items[k], sel.key) == Ok(JStr(sel.codeA))
       && forall j :: k < j < |items| ==> GetItem(items[j], sel.key) != Ok(JStr(sel.codeA))
    {
      ScanLastA(items, sel, JStr(""), JStr(""), k);
    }
    if GetItem(items[k], sel.key) == Ok(JStr(sel.codeB))
       && forall j :: k < j < |items| ==> GetItem(items[j], sel.key) != Ok(JStr(sel.codeB))
    {
      ScanLastB(items, sel, JStr(""), JStr(""), k);
    }
  }

  /** Without a `Subject` in `DescriptiveDetail`, keyword and C-code are "". */
  lemma SubjectsAbsent(onix: Json)
    requires GetItem(onix, "DescriptiveDetail").Ok?
    requires Contains(GetItem(onix, "DescriptiveDetail").value, "Subject") == Ok(false)
    ensures Subjects(onix) == Ok((JStr(""), JStr("")))
  {
  }

  // ---------------------------------------------------------------------------
  // Label and series

  /** `get_title_detail`: (label, series), both None (JNull) unless
      `DescriptiveDetail.Collection.CollectionType` is "10". */
  function TitleDetail(onix: Json): Result<(Json, Json)> {
    var detail :- GetItem(onix, "DescriptiveDetail");
    var hasCollection :- Contains(detail, "Collection");
    if !hasCollection then Ok((JNull, JNull))
    else
      var collection :- GetItem(detail, "Collection");
      var kind :- GetOr(collection, "CollectionType", JNull);
      if kind != JStr("10") then Ok((JNull, JNull))
      else
        var hasTitle :- Contains(collection, "TitleDetail");
        if !hasTitle then Ok((JNull, JNull))
        else
          var title :- GetItem(collection, "TitleDetail");
          var elements :- GetOr(title, "TitleElement", JArr([]));
          var items :- Iterate(elements);
          Scan(items, TitleElementSelector, JNull, JNull)
  }

  /** `get_title_detail`, running the loop. */
  method GetTitleDetail(onix: Json) returns (r: Result<(Json, Json)>)
    ensures r == TitleDetail(onix)
  {
    var detail := GetItem(onix, "DescriptiveDetail");
    if detail.Err? {
      return Err(detail.error);
    }
    var hasCollection := Contains(detail.value, "Collection");
    if hasCollection.Err? {
      return Err(hasCollection.error);
    }
    if !hasCollection.value {
      return Ok((JNull, JNull));
    }
    var collection := GetItem(detail.value, "Collection");
    if collection.Err? {
      return Err(collection.error);
    }
    var kind := GetOr(collection.value, "CollectionType", JNull);
    if kind.Err? {
      return Err(kind.error);
    }
    if kind.value != JStr("10") {
      return Ok((JNull, JNull));
    }
    var hasTitle := Contains(collection.value, "TitleDetail");
    if hasTitle.Err? {
      return Err(hasTitle.error);
    }
    if !hasTitle.value {
      return Ok((JNull, JNull));
    }
    var title := GetItem(collection.value, "TitleDetail");
    if title.Err? {
      return Err(title.error);
    }
    var elements := GetOr(title.value, "TitleElement", JArr([]));
    if elements.Err? {
      return Err(elements.error);
    }
    var items := Iterate(elements.value);
    if items.Err? {
      return Err(items.error);
    }
    r := ScanLastTwo(items.value, TitleElementSelector, JNull, JNull);
  }

  /** The collection's `TitleElement` list. */
  function TitleElements(onix: Json): Result<seq<Json>> {
    var title :- GetPath(onix, ["DescriptiveDetail", "Collection", "TitleDetail"]);
    var elements :- GetOr(title, "TitleElement", JArr([]));
    Iterate(elements)
  }

  /** A label or series is set only for a collection of type "10"; there,
      with a `TitleDetail`, the label is the title of the last element of
      level 02 and the series that of the last element of level 03 (None
      when there is no such element). */
  lemma TitleDetailRule(onix: Json, k: nat)
    requires TitleDetail(onix).Ok?
    ensures TitleDetail(onix).value != (JNull, JNull) ==>
              GetPath(onix, ["DescriptiveDetail", "Collection", "CollectionType"]) == Ok(JStr("10"))
    ensures TitleDetail(onix).value != (JNull, JNull) ==> TitleElements(onix).Ok?
    ensures TitleDetail(onix).value != (JNull, JNull) && k < |TitleElements(onix).value| ==>
              var items := TitleElements(onix).value;
              && (GetItem(items[k], "TitleElementLevel") == Ok(JStr("02"))
                  && (forall j :: k < j < |items| ==> GetItem(items[j], "TitleElementLevel") != Ok(JStr("02"))) ==>
                    GetPath(items[k], ["TitleText", "content"]) == Ok(TitleDetail(onix).value.0))
              && (GetItem(items[k], "TitleElementLevel") == Ok(JStr("03"))
                  && (forall j :: k < j < |items| ==> GetItem(items[j], "TitleElementLevel") != Ok(JStr("03"))) ==>
                    GetPath(items[k], ["TitleText", "content"]) == Ok(TitleDetail(onix).value.1))
    ensures TitleDetail(onix).value != (JNull, JNull) ==>
              var items := TitleElements(onix).value;
              && ((forall j :: 0 <= j < |items| ==> GetItem(items[j], "TitleElementLevel") != Ok(JStr("02"))) ==>
                    TitleDetail(onix).value.0 == JNull)
              && ((forall j :: 0 <= j < |items| ==> GetItem(items[j], "TitleElementLevel") != Ok(JStr("03"))) ==>
                    TitleDetail(onix).value.1 == JNull)
  {
    if TitleDetail(onix).value != (JNull, JNull) {
      var detail := GetItem(onix, "DescriptiveDetail").value;
      var collection := GetItem(detail, "Collection").value;
      assert collection.JObj?;
      assert GetItem(collection, "CollectionType") == Ok(JStr("10"));
      var title := GetItem(collection, "TitleDetail").value;
      assert GetPath(onix, ["DescriptiveDetail", "Collection", "TitleDetail"]) == Ok(title) by {
        assert ["DescriptiveDetail", "Collection", "TitleDetail"][1..] == ["Collection", "TitleDetail"];
        assert ["Collection", "TitleDetail"][1..] == ["TitleDetail"];
      }
      assert GetPath(onix, ["DescriptiveDetail", "Collection", "CollectionType"]) == Ok(JStr("10")) by {
        assert ["DescriptiveDetail", "Collection", "CollectionType"][1..] == ["Collection", "CollectionType"];
        assert ["Collection", "CollectionType"][1..] == ["CollectionType"];
      }
      var items := TitleElements(onix).value;
      var sel := TitleElementSelector;
      assert TitleDetail(onix) == Scan(items, sel, JNull, JNull);
      if k < |items| {
        if GetItem(items[k], sel.key) == Ok(JStr(sel.codeA))
           && forall j :: k < j < |items| ==> GetItem(items[j], sel.key) != Ok(JStr(sel.codeA))
        {
          ScanLastA(items, sel, JNull, JNull, k);
        }
        if GetItem(items[k], sel.key) == Ok(JStr(sel.codeB))
           && forall j :: k < j < |items| ==> GetItem(items[j], sel.key) != Ok(JStr(sel.codeB))
        {
          ScanLastB(items, sel, JNull, JNull, k);
        }
      }
      if forall j :: 0 <= j < |items| ==> GetItem(items[j], sel.key) != Ok(JStr(sel.codeA)) {
        ScanKeepsA(items, sel, JNull, JNull);
      }
      if forall j :: 0 <= j < |items| ==> GetItem(items[j], sel.key) != Ok(JStr(sel.codeB)) {
        ScanKeepsB(items, sel, JNull, JNull);
      }
    }
  }

  // ---------------------------------------------------------------------------
  // Keying the API answer by RecordReference

  /** `d["onix"]["RecordReference"]`. */
  function RecordReference(d: Json): Result<Json> {
    var onix :- GetItem(d, "onix");
    GetItem(onix, "RecordReference")
  }

  /** The `fetch_openbk` loop from the dict `acc` on: None records are
      skipped; each other record is parsed and stored under its
      RecordReference, replacing an earlier record with the same reference. */
  function KeyRecords<T>(items: seq<Json>, parse: Json -> Result<T>, acc: Dict<Json, T>): Result<Dict<Json, T>>
    decreases |items|
  {
    if |items| == 0 then Ok(acc)
    else if items[0] == JNull then KeyRecords(items[1..], parse, acc)
    else
      var ref :- RecordReference(items[0]);
      var parsed :- parse(items[0]);
      if !Hashable(ref) then Err(TypeError)
      else KeyRecords(items[1..], parse, Put(acc, ref, parsed))
  }

  /** A record the loop can store. */
  predicate Keyable<T>(d: Json, parse: Json -> Result<T>) {
    d != JNull ==> RecordReference(d).Ok? && parse(d).Ok? && Hashable(RecordReference(d).value)
  }

  /** The loop fails exactly when a record other than None has no
      reference, cannot be parsed, or has an unhashable reference. */
  lemma {:induction false} KeyRecordsOk<T>(items: seq<Json>, parse: Json -> Result<T>, acc: Dict<Json, T>)
    ensures KeyRecords(items, parse, acc).Ok? <==> forall k :: 0 <= k < |items| ==> Keyable(items[k], parse)
    decreases |items|
  {
    if |items| > 0 {
      assert forall k :: 1 <= k < |items| ==> items[k] == items[1..][k - 1];
      if items[0] == JNull {
        KeyRecordsOk(items[1..], parse, acc);
      } else if Keyable(items[0], parse) {
        KeyRecordsOk(items[1..], parse, Put(acc, RecordReference(items[0]).value, parse(items[0]).value));
      }
    }
  }

  /** A key no record carries keeps the value it had in `acc`. */
  lemma {:induction false} KeyRecordsUntouched<T>(items: seq<Json>, parse: Json -> Result<T>, acc: Dict<Json, T>, key: Json)
    requires KeyRecords(items, parse, acc).Ok?
    requires forall j :: 0 <= j < |items| && items[j] != JNull ==> RecordReference(items[j]) != Ok(key)
    ensures Lookup(KeyRecords(items, parse, acc).value, key) == Lookup(acc, key)
    decreases |items|
  {
    if |items| > 0 {
      assert forall j :: 1 <= j < |items| ==> items[j] == items[1..][j - 1];
      if items[0] == JNull {
        KeyRecordsUntouched(items[1..], parse, acc, key);
      } else {
        var ref := RecordReference(items[0]).value;
        var next := Put(acc, ref, parse(items[0]).value);
        KeyRecordsUntouched(items[1..], parse, next, key);
        PutSpec(acc, ref, parse(items[0]).value);
      }
    }
  }

  /** The last record with a given reference is the one stored under it. */
  lemma {:induction false} KeyRecordsLast<T>(items: seq<Json>, parse: Json -> Result<T>, acc: Dict<Json, T>, k: nat)
    requires KeyRecords(items, parse, acc).Ok?
    requires k < |items| && items[k] != JNull
    requires forall j :: k < j < |items| && items[j] != JNull ==> RecordReference(items[j]) != RecordReference(items[k])
    ensures RecordReference(items[k]).Ok? && parse(items[k]).Ok?
    ensures Lookup(KeyRecords(items, parse, acc).value, RecordReference(items[k]).value) == Some(parse(items[k]).value)
    decreases |items|
  {
    assert forall j :: 1 <= j < |items| ==> items[j] == items[1..][j - 1];
    if items[0] == JNull {
      KeyRecordsLast(items[1..], parse, acc, k - 1);
    } else {
      var ref := RecordReference(items[0]).value;
      var next := Put(acc, ref, parse(items[0]).value);
      if k == 0 {
        KeyRecordsUntouched(items[1..], parse, next, ref);
        PutSpec(acc, ref, parse(items[0]).value);
      } else {
        KeyRecordsLast(items[1..], parse, next, k - 1);
      }
    }
  }

  /** The stored keys are those of `acc` and the references of the records
      other than None; no key is stored twice. */
  lemma {:induction false} KeyRecordsKeys<T>(items: seq<Json>, parse: Json -> Result<T>, acc: Dict<Json, T>, key: Json)
    requires KeyRecords(items, parse, acc).Ok?
    ensures HasKey(KeyRecords(items, parse, acc).value, key) <==>
              HasKey(acc, key) || exists j :: 0 <= j < |items| && items[j] != JNull && RecordReference(items[j]) == Ok(key)
    ensures UniqueKeys(acc) ==> UniqueKeys(KeyRecords(items, parse, acc).value)
    decreases |items|
  {
    if |items| > 0 {
      assert forall j :: 1 <= j < |items| ==> items[j] == items[1..][j - 1];
      if items[0] == JNull {
        KeyRecordsKeys(items[1..], parse, acc, key);
        if exists j :: 0 <= j < |items| && items[j] != JNull && RecordReference(items[j]) == Ok(key) {
          var j :| 0 <= j < |items| && items[j] != JNull && RecordReference(items[j]) == Ok(key);
          assert items[1..][j - 1] == items[j];
        }
      } else {
        var ref := RecordReference(items[0]).value;
        var next := Put(acc, ref, parse(items[0]).value);
        KeyRecordsKeys(items[1..], parse, next, key);
        PutSpec(acc, ref, parse(items[0]).value);
        assert HasKey(next, key) <==> HasKey(acc, key) || key == ref by {
          if key != ref {
            assert Lookup(next, key) == Lookup(acc, key);
          }
        }
        if exists j :: 0 <= j < |items| && items[j] != JNull && RecordReference(items[j]) == Ok(key) {
          var j :| 0 <= j < |items| && items[j] != JNull && RecordReference(items[j]) == Ok(key);
          if j > 0 { assert items[1..][j - 1] == items[j]; }
        }
      }
    }
  }
}
