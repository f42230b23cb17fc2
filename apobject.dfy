/** The ActivityStreams 2.0 objects the bot builds (Accept, Note, Create), the
    date format it uses, and its two MongoDB collections, `note` and
    `follower`, kept here as in-memory sequences. */
module ApObject {

  import opened Results
  import opened Strings
  import opened Json
  import opened Config

  const ActivityStreams: string := "https://www.w3.org/ns/activitystreams"
  const PublicCollection: string := "https://www.w3.org/ns/activitystreams#Public"

  // ---------------------------------------------------------------------------
  // Dates

  /** A datetime as `strftime` sees it: `clock` is its rendering by
      "%a, %d %b %Y %H:%M:%S" and `zone` its `%Z` (the zone name: "UTC" for an
      aware UTC datetime, "" for a naive one). */
  datatype DateTime = DateTime(clock: string, zone: string)

  /** `format_datetime`: "%a, %d %b %Y %H:%M:%S %Z", then "UTC" replaced by "GMT". */
  function FormatDatetime(d: DateTime): string {
    Replace(d.clock + " " + d.zone, "UTC", "GMT")
  }

  /** The formatted date never contains "UTC". */
  lemma FormatDatetimeNoUtc(d: DateTime)
    ensures !Occurs(FormatDatetime(d), "UTC")
  {
    ReplaceUtcGone(d.clock + " " + d.zone);
  }

  /** For a clock text without "UTC", an aware UTC datetime ends in " GMT" and a
      naive one in a bare space, the clock text kept as it is. */
  lemma FormatDatetimeZone(d: DateTime)
    requires !Occurs(d.clock, "UTC")
    ensures d.zone == "UTC" ==> FormatDatetime(d) == d.clock + " GMT"
    ensures d.zone == "" ==> FormatDatetime(d) == d.clock + " "
  {
    var t := " " + d.zone;
    forall i | 0 <= i < |d.clock| ensures !At(d.clock + t, i, "UTC") {
      if i + 3 <= |d.clock| {
        assert (d.clock + t)[i..i + 3] == d.clock[i..i + 3];
        assert !At(d.clock, i, "UTC");
      } else if i + 3 <= |d.clock + t| {
        assert (d.clock + t)[i..i + 3][|d.clock| - i] == ' ';
      }
    }
    ReplaceSkip(d.clock, t, "UTC", "GMT");
    assert d.clock + " " + d.zone == d.clock + t;
    if d.zone == "UTC" {
      assert t == " UTC";
      SpaceUtc();
    } else if d.zone == "" {
      assert t == " ";
    }
  }

  lemma SpaceUtc()
    ensures Replace(" UTC", "UTC", "GMT") == " GMT"
  {
    var s := " UTC";
    assert s[..3][0] == ' ';
    assert s[1..] == "UTC";
    assert Replace(s[1..], "UTC", "GMT") == "GMT" + Replace("", "UTC", "GMT");
  }

  // ---------------------------------------------------------------------------
  // Activity objects

  /** `get_accept`. */
  function GetAccept(conf: Config, obj: Json): Json {
    JObj([("@context", JStr(ActivityStreams)), ("type", JStr("Accept")),
          ("actor", JStr(conf.BotId())), ("object", obj)])
  }

  /** The Accept embeds its argument unchanged, from the bot, with the
      ActivityStreams context. */
  lemma GetAcceptSpec(conf: Config, obj: Json)
    ensures GetItem(GetAccept(conf, obj), "object") == Ok(obj)
    ensures GetItem(GetAccept(conf, obj), "type") == Ok(JStr("Accept"))
    ensures GetItem(GetAccept(conf, obj), "actor") == Ok(JStr(conf.baseUrl + "user/" + conf.botPreferredUsername))
    ensures GetItem(GetAccept(conf, obj), "@context") == Ok(JStr(ActivityStreams))
  {
    BotIdShape(conf);
    var d := GetAccept(conf, obj).fields;
    LookupAt(d, 0);
    LookupAt(d, 1);
    LookupAt(d, 2);
    LookupAt(d, 3);
  }

  /** The text form of an ObjectId: 24 lower-case hexadecimal digits. */
  function OidText(oid: nat): string {
    HexDigits(oid, 24)
  }

  /** `convert_note` on a document with `_id`, `content` and `published`. */
  function ConvertNote(conf: Config, oid: nat, content: string, published: DateTime): Json {
    NoteObject(conf.GetLink("note/" + OidText(oid)), conf.BotId(), content, FormatDatetime(published))
  }

  /** The Note object `convert_note` builds from its computed values. */
  function NoteObject(id: string, actor: string, content: string, published: string): Json {
    JObj([("@context", JStr(ActivityStreams)),
          ("type", JStr("Note")),
          ("id", JStr(id)),
          ("attributedTo", JStr(actor)),
          ("content", JStr(content)),
          ("published", JStr(published)),
          ("to", JArr([JStr(PublicCollection)]))])
  }

  lemma NoteObjectFields(id: string, actor: string, content: string, published: string)
    ensures GetItem(NoteObject(id, actor, content, published), "id") == Ok(JStr(id))
    ensures GetItem(NoteObject(id, actor, content, published), "attributedTo") == Ok(JStr(actor))
    ensures GetItem(NoteObject(id, actor, content, published), "content") == Ok(JStr(content))
    ensures GetItem(NoteObject(id, actor, content, published), "to") == Ok(JArr([JStr(PublicCollection)]))
    ensures GetItem(NoteObject(id, actor, content, published), "published") == Ok(JStr(published))
  {
    var d := NoteObject(id, actor, content, published).fields;
    LookupAt(d, 2);
    LookupAt(d, 3);
    LookupAt(d, 4);
    LookupAt(d, 5);
    LookupAt(d, 6);
  }

  /** A converted note links to "note/<id>", is attributed to the bot, carries
      the content unchanged and is addressed to the Public collection only. */
  lemma ConvertNoteSpec(conf: Config, oid: nat, content: string, published: DateTime)
    ensures GetItem(ConvertNote(conf, oid, content, published), "id") == Ok(JStr(conf.baseUrl + "note/" + OidText(oid)))
    ensures GetItem(ConvertNote(conf, oid, content, published), "attributedTo") == Ok(JStr(conf.BotId()))
    ensures GetItem(ConvertNote(conf, oid, content, published), "content") == Ok(JStr(content))
    ensures GetItem(ConvertNote(conf, oid, content, published), "to") == Ok(JArr([JStr(PublicCollection)]))
    ensures GetItem(ConvertNote(conf, oid, content, published), "published") == Ok(JStr(FormatDatetime(published)))
  {
    assert conf.GetLink("note/" + OidText(oid)) == conf.baseUrl + "note/" + OidText(oid);
    NoteObjectFields(conf.GetLink("note/" + OidText(oid)), conf.BotId(), content, FormatDatetime(published));
  }

  /** The Create activity around an embedded note. */
  function CreateObject(conf: Config, url: string, published: Json, to: Json, sub: Dict<string, Json>): Json {
    JObj([("@context", JStr(ActivityStreams)), ("id", JStr(url)), ("type", JStr("Create")),
          ("actor", JStr(conf.BotId())), ("published", published), ("to", to), ("note", JObj(sub))])
  }

  lemma CreateObjectFields(conf: Config, url: string, published: Json, to: Json, sub: Dict<string, Json>)
    ensures GetItem(CreateObject(conf, url, published, to, sub), "id") == Ok(JStr(url))
    ensures GetItem(CreateObject(conf, url, published, to, sub), "type") == Ok(JStr("Create"))
    ensures GetItem(CreateObject(conf, url, published, to, sub), "actor") == Ok(JStr(conf.BotId()))
    ensures GetItem(CreateObject(conf, url, published, to, sub), "published") == Ok(published)
    ensures GetItem(CreateObject(conf, url, published, to, sub), "to") == Ok(to)
    ensures GetItem(CreateObject(conf, url, published, to, sub), "note") == Ok(JObj(sub))
  {
    CreateObjectHead(conf, url, published, to, sub);
    CreateObjectTail(conf, url, published, to, sub);
  }

  lemma CreateObjectHead(conf: Config, url: string, published: Json, to: Json, sub: Dict<string, Json>)
    ensures GetItem(CreateObject(conf, url, published, to, sub), "id") == Ok(JStr(url))
    ensures GetItem(CreateObject(conf, url, published, to, sub), "type") == Ok(JStr("Create"))
    ensures GetItem(CreateObject(conf, url, published, to, sub), "actor") == Ok(JStr(conf.BotId()))
  {
    var d := CreateObject(conf, url, published, to, sub).fields;
    LookupAt(d, 1);
    LookupAt(d, 2);
    LookupAt(d, 3);
  }

  lemma CreateObjectTail(conf: Config, url: string, published: Json, to: Json, sub: Dict<string, Json>)
    ensures GetItem(CreateObject(conf, url, published, to, sub), "published") == Ok(published)
    ensures GetItem(CreateObject(conf, url, published, to, sub), "to") == Ok(to)
    ensures GetItem(CreateObject(conf, url, published, to, sub), "note") == Ok(JObj(sub))
  {
    var d := CreateObject(conf, url, published, to, sub).fields;
    LookupAt(d, 4);
    LookupAt(d, 5);
    LookupAt(d, 6);
  }

  /** `get_note_create_activity`. */
  function GetNoteCreateActivity(conf: Config, note: Json): Result<Json> {
    if !note.JObj? then Err(TypeError)
    else
      var idValue :- GetItem(note, "id");
      var noteId :- LastSegmentOf(idValue, '/');
      var sub := Without(note.fields, "@context");
      var url := conf.GetLink("note" + noteId + "/activity");
      var published :- GetItem(JObj(sub), "published");
      var to :- GetItem(JObj(sub), "to");
      Ok(CreateObject(conf, url, published, to, sub))
  }

  /** The predicate under which `get_note_create_activity` does not raise. */
  predicate CreatableNote(note: Json) {
    note.JObj? && GetItem(note, "id").Ok? && GetItem(note, "id").value.JStr?
    && HasKey(note.fields, "published") && HasKey(note.fields, "to")
  }

  /** The Create activity exists exactly when the note is a dict with a string
      `id` and with `published` and `to`; it embeds the note minus `@context`
      (every other key unchanged), copies `published` and `to`, and its id is
      the base URL, "note", the last `/`-segment of the note id, then
      "/activity". */
  lemma CreateActivitySpec(conf: Config, note: Json)
    ensures GetNoteCreateActivity(conf, note).Ok? <==> CreatableNote(note)
    ensures CreatableNote(note) ==>
              var c := GetNoteCreateActivity(conf, note).value;
              && GetItem(c, "note") == Ok(JObj(Without(note.fields, "@context")))
              && GetItem(c, "published") == GetItem(note, "published")
              && GetItem(c, "to") == GetItem(note, "to")
              && GetItem(c, "type") == Ok(JStr("Create"))
              && GetItem(c, "actor") == Ok(JStr(conf.BotId()))
              && GetItem(c, "id") == Ok(JStr(conf.baseUrl + "note" + LastSegment(GetItem(note, "id").value.s, '/') + "/activity"))
  {
    if CreatableNote(note) {
      CreateActivityValue(conf, note);
      var url := conf.GetLink("note" + LastSegment(GetItem(note, "id").value.s, '/') + "/activity");
      assert url == conf.baseUrl + "note" + LastSegment(GetItem(note, "id").value.s, '/') + "/activity";
      CreateObjectFields(conf, url, GetItem(note, "published").value, GetItem(note, "to").value,
                         Without(note.fields, "@context"));
    } else if note.JObj? {
      CreateActivityNote(note);
    }
  }

  lemma CreateActivityValue(conf: Config, note: Json)
    requires CreatableNote(note)
    ensures GetNoteCreateActivity(conf, note) ==
              Ok(CreateObject(conf, conf.GetLink("note" + LastSegment(GetItem(note, "id").value.s, '/') + "/activity"),
                              GetItem(note, "published").value, GetItem(note, "to").value,
                              Without(note.fields, "@context")))
  {
    var sub := Without(note.fields, "@context");
    CreateActivityNote(note);
    assert GetItem(JObj(sub), "published") == GetItem(note, "published");
    assert GetItem(JObj(sub), "to") == GetItem(note, "to");
  }

  /** The embedded note has no `@context` and keeps every other key's value. */
  lemma CreateActivityNote(note: Json)
    requires note.JObj?
    ensures Lookup(Without(note.fields, "@context"), "@context") == None
    ensures forall k :: k != "@context" ==> Lookup(Without(note.fields, "@context"), k) == Lookup(note.fields, k)
  {
    WithoutLookup(note.fields, "@context");
  }

  /** The Create activity of a converted note: its id is "note" + ObjectId +
      "/activity" after the base URL, which is not the note's own link with
      "/activity" appended, because the slash after "note" is missing. */
  lemma CreateOfConvertedNote(conf: Config, oid: nat, content: string, published: DateTime)
    ensures GetNoteCreateActivity(conf, ConvertNote(conf, oid, content, published)).Ok?
    ensures GetItem(GetNoteCreateActivity(conf, ConvertNote(conf, oid, content, published)).value, "id")
              == Ok(JStr(conf.baseUrl + "note" + OidText(oid) + "/activity"))
    ensures GetItem(GetNoteCreateActivity(conf, ConvertNote(conf, oid, content, published)).value, "id")
              != Ok(JStr(conf.GetLink("note/" + OidText(oid) + "/activity")))
  {
    var note := ConvertNote(conf, oid, content, published);
    ConvertedCreatable(conf, oid, content, published);
    CreateActivitySpec(conf, note);
    NoteIdSegment(conf, oid);
    assert |conf.baseUrl + "note" + OidText(oid) + "/activity"| != |conf.GetLink("note/" + OidText(oid) + "/activity")|;
  }

  lemma ConvertedCreatable(conf: Config, oid: nat, content: string, published: DateTime)
    ensures CreatableNote(ConvertNote(conf, oid, content, published))
    ensures GetItem(ConvertNote(conf, oid, content, published), "id").value.s == conf.baseUrl + "note/" + OidText(oid)
  {
    ConvertNoteSpec(conf, oid, content, published);
  }

  /** The last `/`-segment of a note's link is its ObjectId text. */
  lemma NoteIdSegment(conf: Config, oid: nat)
    ensures LastSegment(conf.baseUrl + "note/" + OidText(oid), '/') == OidText(oid)
  {
    assert '/' !in OidText(oid) by {
      forall k | 0 <= k < 24 ensures OidText(oid)[k] != '/' {
        assert IsHexChar(OidText(oid)[k]);
      }
    }
    assert conf.baseUrl + "note/" + OidText(oid) == (conf.baseUrl + "note") + ['/'] + OidText(oid);
    LastSegmentAfter(conf.baseUrl + "note", '/', OidText(oid));
  }

  // ---------------------------------------------------------------------------
  // The note and follower collections

  /** A stored note: its ObjectId as a number, its content, and the wall-clock
      text of its UTC publication time. */
  datatype NoteDoc = NoteDoc(oid: nat, content: string, published: string)

  /** A document's `_id`: an ObjectId the driver generated, or the value the
      inserted document carried itself. */
  datatype DocId = ObjectId(n: nat) | Given(v: Json)

  /** A stored follower: its `_id` and the inserted document's entries. */
  datatype FollowerDoc = FollowerDoc(id: DocId, fields: seq<(string, Json)>)

  /** Some stored follower has `_id` `id`. */
  predicate HasId(fs: seq<FollowerDoc>, id: DocId) {
    exists i :: 0 <= i < |fs| && fs[i].id == id
  }

  /** The `_id` `insert_one` stores a document under: the document's own
      `_id` when it has one, else a fresh ObjectId. */
  function NewFollowerId(fields: seq<(string, Json)>, nextOid: nat): DocId {
    match Lookup(fields, "_id")
    case Some(v) => Given(v)
    case None => ObjectId(nextOid)
  }

  /** Why the server refuses to insert the document, if it does: an array
      `_id` is a WriteError, and an `_id` already in the collection breaks the
      unique `_id` index, a DuplicateKeyError. A generated ObjectId is new. */
  function InsertRefusal(fs: seq<FollowerDoc>, fields: seq<(string, Json)>): Option<PyError> {
    match Lookup(fields, "_id")
    case Some(v) =>
      if v.JArr? then Some(WriteError)
      else if HasId(fs, Given(v)) then Some(DuplicateKeyError)
      else None
    case None => None
  }

  /** A document with its own non-array `_id`, once stored, cannot be
      inserted again: the second insert is a DuplicateKeyError, however the
      collection looked before. A document without `_id` is never refused. */
  lemma InsertTwiceRefused(fs: seq<FollowerDoc>, fields: seq<(string, Json)>, nextOid: nat)
    ensures Lookup(fields, "_id").None? ==> InsertRefusal(fs, fields).None?
    ensures Lookup(fields, "_id").Some? && !Lookup(fields, "_id").value.JArr? ==>
              InsertRefusal(fs + [FollowerDoc(NewFollowerId(fields, nextOid), fields)], fields) == Some(DuplicateKeyError)
  {
    var gs := fs + [FollowerDoc(NewFollowerId(fields, nextOid), fields)];
    assert gs[|fs|].id == NewFollowerId(fields, nextOid);
  }

  /** The first note with ObjectId `oid`, or `|notes|`. */
  function FindNote(notes: seq<NoteDoc>, oid: nat): (i: nat)
    ensures i <= |notes|
    ensures forall j :: 0 <= j < i ==> notes[j].oid != oid
    ensures i < |notes| ==> notes[i].oid == oid
  {
    if |notes| == 0 then 0 else if notes[0].oid == oid then 0 else 1 + FindNote(notes[1..], oid)
  }

  lemma FindNoteAt(notes: seq<NoteDoc>, oid: nat, i: nat)
    requires i < |notes| && notes[i].oid == oid
    requires forall j :: 0 <= j < i ==> notes[j].oid != oid
    ensures FindNote(notes, oid) == i
  {
  }

  /** The query `{"actor": actor}` matches the document, as MongoDB reads an
      equality query: a stored value equal to `actor`, a stored array with an
      element equal to `actor`, or, for a `null` query, no `actor` field. */
  predicate MatchesActor(doc: FollowerDoc, actor: Json) {
    match Lookup(doc.fields, "actor")
    case None => actor == JNull
    case Some(v) => v == actor || (v.JArr? && actor in v.items)
  }

  /** A document with no `actor` field matches exactly the `null` query, and
      one whose `actor` is an array matches each of its elements. */
  lemma MatchesActorCases(doc: FollowerDoc, actor: Json)
    ensures Lookup(doc.fields, "actor").None? ==> (MatchesActor(doc, actor) <==> actor == JNull)
    ensures Lookup(doc.fields, "actor").Some? && Lookup(doc.fields, "actor").value.JArr? ==>
              forall k :: 0 <= k < |Lookup(doc.fields, "actor").value.items| ==>
                MatchesActor(doc, Lookup(doc.fields, "actor").value.items[k])
  {
  }

  /** The first follower matching `{"actor": actor}`, or `|fs|`. */
  function FindActor(fs: seq<FollowerDoc>, actor: Json): (i: nat)
    ensures i <= |fs|
    ensures forall j :: 0 <= j < i ==> !MatchesActor(fs[j], actor)
    ensures i < |fs| ==> MatchesActor(fs[i], actor)
  {
    if |fs| == 0 then 0 else if MatchesActor(fs[0], actor) then 0 else 1 + FindActor(fs[1..], actor)
  }

  /** `delete_one({"actor": actor})`: the first matching document goes. */
  function RemoveFirst(fs: seq<FollowerDoc>, actor: Json): seq<FollowerDoc> {
    var i := FindActor(fs, actor);
    if i < |fs| then fs[..i] + fs[i + 1..] else fs
  }

  /** How many followers match `{"actor": actor}`. */
  function CountActor(fs: seq<FollowerDoc>, actor: Json): nat {
    if |fs| == 0 then 0 else (if MatchesActor(fs[0], actor) then 1 else 0) + CountActor(fs[1..], actor)
  }

  lemma {:induction false} CountActorAppend(fs: seq<FollowerDoc>, gs: seq<FollowerDoc>, actor: Json)
    ensures CountActor(fs + gs, actor) == CountActor(fs, actor) + CountActor(gs, actor)
  {
    if |fs| > 0 {
      assert (fs + gs)[1..] == fs[1..] + gs;
      CountActorAppend(fs[1..], gs, actor);
    } else {
      assert fs + gs == gs;
    }
  }

  lemma {:induction false} CountActorZero(fs: seq<FollowerDoc>, actor: Json)
    ensures CountActor(fs, actor) == 0 <==> FindActor(fs, actor) == |fs|
  {
    if |fs| > 0 {
      CountActorZero(fs[1..], actor);
    }
  }

  lemma {:induction false} CountActorNone(fs: seq<FollowerDoc>, actor: Json)
    requires forall j :: 0 <= j < |fs| ==> !MatchesActor(fs[j], actor)
    ensures CountActor(fs, actor) == 0
  {
    if |fs| > 0 {
      CountActorNone(fs[1..], actor);
    }
  }

  /** Deleting by actor removes at most one document, exactly one when some
      document matches, that one being the first match; the others stay in
      order, and the number of matching documents drops by the number removed. */
  lemma RemoveFirstSpec(fs: seq<FollowerDoc>, actor: Json)
    ensures CountActor(fs, actor) == 0 ==> RemoveFirst(fs, actor) == fs
    ensures CountActor(fs, actor) > 0 ==>
              && FindActor(fs, actor) < |fs|
              && RemoveFirst(fs, actor) == fs[..FindActor(fs, actor)] + fs[FindActor(fs, actor) + 1..]
              && |RemoveFirst(fs, actor)| == |fs| - 1
              && CountActor(RemoveFirst(fs, actor), actor) == CountActor(fs, actor) - 1
  {
    CountActorZero(fs, actor);
    var i := FindActor(fs, actor);
    if i < |fs| {
      RemoveAtCount(fs, actor, i);
    }
  }

  lemma RemoveAtCount(fs: seq<FollowerDoc>, actor: Json, i: nat)
    requires i < |fs| && MatchesActor(fs[i], actor)
    requires forall j :: 0 <= j < i ==> !MatchesActor(fs[j], actor)
    ensures CountActor(fs[..i] + fs[i + 1..], actor) == CountActor(fs, actor) - 1
  {
    var pre, post := fs[..i], fs[i + 1..];
    assert fs == pre + ([fs[i]] + post);
    CountActorAppend(pre, [fs[i]] + post, actor);
    CountActorAppend(pre, post, actor);
    assert ([fs[i]] + post)[1..] == post;
  }

  /** Inserting a document whose `actor` is `actor` adds one more match, however
      many there already were: there is no uniqueness check. */
  lemma InsertAddsMatch(fs: seq<FollowerDoc>, doc: FollowerDoc, actor: Json)
    requires MatchesActor(doc, actor)
    ensures CountActor(fs + [doc], actor) == CountActor(fs, actor) + 1
    ensures FindActor(fs + [doc], actor) < |fs| + 1
  {
    CountActorAppend(fs, [doc], actor);
    CountActorZero(fs + [doc], actor);
  }

  /** The bot's MongoDB database: the `note` and `follower` collections and
      the source of fresh ObjectIds. */
  class Database {
    var notes: seq<NoteDoc>
    var followers: seq<FollowerDoc>
    var nextOid: nat

    /** Every generated ObjectId was handed out before `nextOid`, notes in
        increasing order, and no two followers share an `_id` (the collection's
        unique `_id` index). */
    ghost predicate Valid()
      reads this
    {
      && (forall i :: 0 <= i < |notes| ==> notes[i].oid < nextOid)
      && (forall i, j :: 0 <= i < j < |notes| ==> notes[i].oid < notes[j].oid)
      && (forall i :: 0 <= i < |followers| && followers[i].id.ObjectId? ==> followers[i].id.n < nextOid)
      && (forall i, j :: 0 <= i < j < |followers| ==> followers[i].id != followers[j].id)
    }

    constructor ()
      ensures notes == [] && followers == [] && nextOid == 0
      ensures Valid()
    {
      notes := [];
      followers := [];
      nextOid := 0;
    }

    /** `insert_note`: store the note published `now` (UTC) and return it
        converted, its date formatted from the aware value. */
    method InsertNote(conf: Config, content: string, now: string) returns (note: Json)
      requires Valid()
      modifies this
      ensures Valid()
      ensures notes == old(notes) + [NoteDoc(old(nextOid), content, now)]
      ensures followers == old(followers) && nextOid == old(nextOid) + 1
      ensures note == ConvertNote(conf, old(nextOid), content, DateTime(now, "UTC"))
    {
      var oid := nextOid;
      notes := notes + [NoteDoc(oid, content, now)];
      nextOid := nextOid + 1;
      note := ConvertNote(conf, oid, content, DateTime(now, "UTC"));
    }

    /** `insert_follower`: `insert_one` stores the document as it is, under
        its own `_id` or a fresh ObjectId, and returns that `_id`; a value that
        is not a dict raises TypeError, and a document the server refuses
        raises and changes nothing. */
    method InsertFollower(actorData: Json) returns (r: Result<DocId>)
      requires Valid()
      modifies this
      ensures Valid()
      ensures notes == old(notes)
      ensures r.Ok? <==> actorData.JObj? && InsertRefusal(old(followers), actorData.fields).None?
      ensures !actorData.JObj? ==> r == Err(TypeError)
      ensures actorData.JObj? && InsertRefusal(old(followers), actorData.fields).Some? ==>
                r == Err(InsertRefusal(old(followers), actorData.fields).value)
      ensures r.Ok? ==>
                && r.value == NewFollowerId(actorData.fields, old(nextOid))
                && followers == old(followers) + [FollowerDoc(r.value, actorData.fields)]
                && nextOid == old(nextOid) + (if r.value.ObjectId? then 1 else 0)
      ensures r.Err? ==> followers == old(followers) && nextOid == old(nextOid)
    {
      if !actorData.JObj? {
        return Err(TypeError);
      }
      var refusal := InsertRefusal(followers, actorData.fields);
      if refusal.Some? {
        return Err(refusal.value);
      }
      var id := NewFollowerId(actorData.fields, nextOid);
      ghost var fs := followers;
      followers := followers + [FollowerDoc(id, actorData.fields)];
      if id.ObjectId? {
        nextOid := nextOid + 1;
      }
      r := Ok(id);
      forall i | 0 <= i < |fs| ensures fs[i].id != id {
        if id.Given? {
          assert !HasId(fs, id);
        }
      }
    }

    /** `remove_follower`: a missing `actor` raises before anything changes;
        otherwise the first follower matching the actor is deleted and the
        deleted count (0 or 1) returned. */
    method RemoveFollower(actorData: Json) returns (r: Result<nat>)
      requires Valid()
      modifies this
      ensures Valid()
      ensures notes == old(notes) && nextOid == old(nextOid)
      ensures r.Ok? <==> GetItem(actorData, "actor").Ok?
      ensures r.Err? ==> r == Err(GetItem(actorData, "actor").error) && followers == old(followers)
      ensures r.Ok? ==>
                && followers == RemoveFirst(old(followers), GetItem(actorData, "actor").value)
                && r.value == (if CountActor(old(followers), GetItem(actorData, "actor").value) > 0 then 1 else 0)
    {
      var actor := GetItem(actorData, "actor");
      if actor.Err? {
        return Err(actor.error);
      }
      CountActorZero(followers, actor.value);
      var i := FindActor(followers, actor.value);
      if i < |followers| {
        followers := followers[..i] + followers[i + 1..];
        r := Ok(1);
      } else {
        r := Ok(0);
      }
    }
  }

  /** `get_note`: the text must be an ObjectId (24 hexadecimal digits),
      else InvalidId; None when no note has that id; otherwise the note
      converted, its date read back from MongoDB as a naive datetime. */
  function GetNote(conf: Config, notes: seq<NoteDoc>, idText: string): Result<Option<Json>>
  {
    if |idText| != 24 || !(forall k :: 0 <= k < |idText| ==> IsHexChar(idText[k])) then Err(InvalidId)
    else
      var i := FindNote(notes, ParseHex(idText));
      if i < |notes| then Ok(Some(ConvertNote(conf, notes[i].oid, notes[i].content, DateTime(notes[i].published, ""))))
      else Ok(None)
  }

  /** How many notes remain after skipping `skip` of them. */
  function Remaining(notes: seq<NoteDoc>, skip: nat): nat {
    if skip <= |notes| then |notes| - skip else 0
  }

  /** `get_notes`: a negative skip raises; a limit of 0 means no limit and a
      negative limit counts as its absolute value. */
  function GetNotes(conf: Config, notes: seq<NoteDoc>, limit: int, skip: int): (r: Result<seq<Json>>)
    ensures r.Ok? <==> skip >= 0
    ensures r.Ok? && limit == 0 ==> |r.value| == Remaining(notes, skip)
    ensures r.Ok? && limit != 0 ==>
              |r.value| == Min(if limit < 0 then -limit else limit, Remaining(notes, skip))
    ensures r.Ok? ==> forall i :: 0 <= i < |r.value| ==>
              r.value[i] == ConvertNote(conf, notes[skip + i].oid, notes[skip + i].content, DateTime(notes[skip + i].published, ""))
  {
    if skip < 0 then Err(ValueError)
    else
      var rest := if skip <= |notes| then notes[skip..] else [];
      var bound := if limit < 0 then -limit else limit;
      var n := if limit == 0 || bound > |rest| then |rest| else bound;
      Ok(seq(n, i requires 0 <= i < n => ConvertNote(conf, rest[i].oid, rest[i].content, DateTime(rest[i].published, ""))))
  }

  function Min(a: int, b: int): int {
    if a <= b then a else b
  }

  /** The defaults of `get_notes`. */
  const DefaultNotesLimit: int := 100
  const DefaultNotesSkip: int := 0

  /** With the defaults, `get_notes` gives the first 100 notes, or all of
      them when there are fewer, converted in storage order. */
  lemma GetNotesDefaults(conf: Config, notes: seq<NoteDoc>)
    ensures GetNotes(conf, notes, DefaultNotesLimit, DefaultNotesSkip).Ok?
    ensures var r := GetNotes(conf, notes, DefaultNotesLimit, DefaultNotesSkip).value;
            && |r| == Min(100, |notes|)
            && forall i :: 0 <= i < |r| ==>
                 r[i] == ConvertNote(conf, notes[i].oid, notes[i].content, DateTime(notes[i].published, ""))
  {
  }

  /** Paging: a page of `a` notes from `skip` followed by a page of `b` notes
      from `skip + a` is the page of `a + b` notes from `skip`. */
  lemma GetNotesPages(conf: Config, notes: seq<NoteDoc>, a: nat, b: nat, skip: nat)
    requires a > 0 && b > 0
    ensures GetNotes(conf, notes, a, skip).value + GetNotes(conf, notes, b, skip + a).value
              == GetNotes(conf, notes, a + b, skip).value
  {
    var p := GetNotes(conf, notes, a, skip).value;
    var q := GetNotes(conf, notes, b, skip + a).value;
    var w := GetNotes(conf, notes, a + b, skip).value;
    assert |p + q| == |w|;
    forall i | 0 <= i < |w| ensures (p + q)[i] == w[i] {
      if i >= |p| {
        assert |p| == a;
        assert (p + q)[i] == q[i - a];
      }
    }
  }

  /** `find_one({"actor": actor})` on the follower collection. */
  function FindFollower(followers: seq<FollowerDoc>, actor: Json): Option<FollowerDoc>
  {
    var i := FindActor(followers, actor);
    if i < |followers| then Some(followers[i]) else None
  }

  /** After `insert_note` stored `content` under the next ObjectId, `get_note`
      on that ObjectId's text returns a note with that content (its date now
      read back as a naive datetime). */
  lemma InsertThenGetNote(conf: Config, notes: seq<NoteDoc>, nextOid: nat, content: string, now: string)
    requires forall i :: 0 <= i < |notes| ==> notes[i].oid < nextOid
    requires nextOid < Pow16(24)
    ensures GetNote(conf, notes + [NoteDoc(nextOid, content, now)], OidText(nextOid))
              == Ok(Some(ConvertNote(conf, nextOid, content, DateTime(now, ""))))
    ensures GetItem(GetNote(conf, notes + [NoteDoc(nextOid, content, now)], OidText(nextOid)).value.value, "content")
              == Ok(JStr(content))
  {
    ParseHexDigits(nextOid, 24);
    var all := notes + [NoteDoc(nextOid, content, now)];
    assert forall j :: 0 <= j < |notes| ==> all[j].oid != nextOid;
    FindNoteAt(all, nextOid, |notes|);
    ConvertNoteSpec(conf, nextOid, content, DateTime(now, ""));
  }

  /** `get_note` on ObjectId text (in either case) that names no stored note is
      None, and on any other text raises InvalidId. */
  lemma GetNoteAbsent(conf: Config, notes: seq<NoteDoc>, idText: string)
    ensures !(|idText| == 24 && forall k :: 0 <= k < 24 ==> IsHexChar(idText[k])) ==>
              GetNote(conf, notes, idText) == Err(InvalidId)
    ensures (|idText| == 24 && forall k :: 0 <= k < 24 ==> IsHexChar(idText[k]))
            && (forall i :: 0 <= i < |notes| ==> OidText(notes[i].oid) != Lower(idText)) ==>
              GetNote(conf, notes, idText) == Ok(None)
  {
    if |idText| == 24 && forall k :: 0 <= k < 24 ==> IsHexChar(idText[k]) {
      HexOfParse(idText);
    }
  }
}
