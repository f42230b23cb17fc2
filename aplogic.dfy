/** Handling a Follow: resolve the remote actor, store it as a follower, and
    deliver a signed Accept to the actor's inbox (the Follow/Accept exchange of
    sections 7.5 and 7.12 of W3C ActivityPub, as far as the bot implements it). */
module ApLogic {

  import opened Results
  import opened Strings
  import opened Json
  import opened Config
  import opened HttpSignature
  import opened ApObject

  /** `requests.get(actor, ...).json()`: the decoded actor document, or None
      when the request or the decoding raises. */
  type Fetch = Json -> Option<Json>

  /** `urlparse(inbox)` reduced to the host and path `accept_follow` reads from
      it, or None where reading them raises. */
  type UrlParts = Json -> Option<(string, string)>

  /** One `requests.post(url, json=body, headers=headers)`. */
  datatype Delivery = Delivery(url: Json, body: Json, headers: Dict<string, string>)

  /** `requests.post` for a delivery: true when the call returns. */
  type Post = Delivery -> bool

  /** The keys an actor document must have. */
  const RequiredActorKeys: seq<string> := ["id", "preferredUsername", "inbox"]

  /** `for key in keys: assert key in doc`. */
  function CheckKeys(doc: Json, keys: seq<string>): Result<()> {
    if |keys| == 0 then Ok(())
    else
      var has :- Contains(doc, keys[0]);
      if !has then Err(AssertionError) else CheckKeys(doc, keys[1..])
  }

  /** The check passes exactly when every key is `in` the document. */
  lemma {:induction false} CheckKeysSpec(doc: Json, keys: seq<string>)
    ensures CheckKeys(doc, keys).Ok? <==> forall k :: k in keys ==> Contains(doc, k) == Ok(true)
  {
    if |keys| > 0 {
      CheckKeysSpec(doc, keys[1..]);
      assert forall k :: k in keys <==> k == keys[0] || k in keys[1..];
    }
  }

  /** `get_actor_data`. */
  function GetActorData(fetch: Fetch, actor: Json): Result<Json> {
    var response := fetch(actor);
    if response.None? then Err(ServiceError)
    else
      var _ :- CheckKeys(response.value, RequiredActorKeys);
      Ok(response.value)
  }

  /** An actor resolves exactly when its document was fetched and has `id`,
      `preferredUsername` and `inbox`; the document is returned unchanged. */
  lemma GetActorDataSpec(fetch: Fetch, actor: Json)
    ensures GetActorData(fetch, actor).Ok? <==>
              fetch(actor).Some?
              && Contains(fetch(actor).value, "id") == Ok(true)
              && Contains(fetch(actor).value, "preferredUsername") == Ok(true)
              && Contains(fetch(actor).value, "inbox") == Ok(true)
    ensures GetActorData(fetch, actor).Ok? ==> GetActorData(fetch, actor).value == fetch(actor).value
  {
    if fetch(actor).Some? {
      CheckKeysSpec(fetch(actor).value, RequiredActorKeys);
      assert forall k :: k in RequiredActorKeys <==> k == "id" || k == "preferredUsername" || k == "inbox";
    }
  }

  /** The headers `accept_follow` signs: `Date` (the local time's ISO text)
      then `Host`. */
  function AcceptHeaders(now: string, host: string): Dict<string, string> {
    [("Date", now), ("Host", host)]
  }

  /** What `accept_follow` sends, or the exception it raises before sending. */
  function AcceptDelivery(conf: Config, sign: Signer, urlParts: UrlParts, now: string,
                          actorData: Json, requestData: Json): Result<Delivery>
  {
    var requestJson := GetAccept(conf, requestData);
    var inbox :- GetItem(actorData, "inbox");
    var parts := urlParts(inbox);
    if parts.None? then Err(AttributeError)
    else
      var signed :- SignHeader(conf, sign, "POST", parts.value.1, AcceptHeaders(now, parts.value.0));
      Ok(Delivery(inbox, requestJson, signed))
  }

  /** The lower-cased verb and header names of an Accept. */
  lemma LowerWords()
    ensures Lower("POST") == "post" && Lower("Date") == "date" && Lower("Host") == "host"
  {
    assert Lower("POST")[0] == 'p' && Lower("POST")[1] == 'o' && Lower("POST")[2] == 's' && Lower("POST")[3] == 't';
    assert Lower("Date")[0] == 'd';
    assert Lower("Host")[0] == 'h';
  }

  /** The base string signed for an Accept: the POST request-target line, then
      the date line, then the host line. */
  lemma AcceptBaseString(path: string, now: string, host: string)
    ensures BaseString("POST", path, AcceptHeaders(now, host)) ==
              "(request-target): post " + path + "\n" + "date: " + now + "\n" + "host: " + host
  {
    LowerWords();
    assert "(request-target): " + "post" + " " == "(request-target): post ";
    assert "date" + ": " == "date: ";
    assert "host" + ": " == "host: ";
    var lines := BaseLines("POST", path, AcceptHeaders(now, host));
    assert lines == ["(request-target): post " + path, "date: " + now, "host: " + host];
    assert lines[1..][1..] == ["host: " + host];
    assert Join(lines[1..], "\n") == "date: " + now + "\n" + "host: " + host;
  }

  /** The signed lines follow the dict's order (date, then host) while the
      declared list says "host date": a reader that rebuilds the base string in
      the declared order gets a different text. */
  lemma DeclaredOrderDiffers(path: string, now: string, host: string)
    ensures BaseString("POST", path, AcceptHeaders(now, host)) !=
              "(request-target): post " + path + "\n" + "host: " + host + "\n" + "date: " + now
  {
    AcceptBaseString(path, now, host);
    var prefix := "(request-target): post " + path + "\n";
    var signed := prefix + "date: " + now + "\n" + "host: " + host;
    var declared := prefix + "host: " + host + "\n" + "date: " + now;
    assert signed[|prefix|] == 'd';
    assert declared[|prefix|] == 'h';
  }

  /** The Accept goes to the actor's inbox, embeds the Follow unchanged, and
      carries the `Date` and `Host` headers plus a `Signature` computed over the
      request-target, date and host lines; it fails when the inbox is missing,
      its parts cannot be read, or signing fails. */
  lemma AcceptDeliverySpec(conf: Config, sign: Signer, urlParts: UrlParts, now: string,
                           actorData: Json, requestData: Json)
    ensures AcceptDelivery(conf, sign, urlParts, now, actorData, requestData).Ok? <==>
              && GetItem(actorData, "inbox").Ok?
              && urlParts(GetItem(actorData, "inbox").value).Some?
              && var parts := urlParts(GetItem(actorData, "inbox").value).value;
                 SignHeader(conf, sign, "POST", parts.1, AcceptHeaders(now, parts.0)).Ok?
    ensures AcceptDelivery(conf, sign, urlParts, now, actorData, requestData).Ok? ==>
              var d := AcceptDelivery(conf, sign, urlParts, now, actorData, requestData).value;
              var parts := urlParts(GetItem(actorData, "inbox").value).value;
              var message := EncodeAscii("(request-target): post " + parts.1 + "\n" + "date: " + now + "\n" + "host: " + parts.0);
              && d.url == GetItem(actorData, "inbox").value
              && d.body == GetAccept(conf, requestData)
              && GetItem(d.body, "object") == Ok(requestData)
              && message.Ok?
              && sign(conf.kms.keyRingId, conf.kms.keyId, "1", message.value).Some?
              && d.headers == [("Date", now), ("Host", parts.0),
                               ("Signature", SignatureValue(conf.BotId(), sign(conf.kms.keyRingId, conf.kms.keyId, "1", message.value).value))]
  {
    GetAcceptSpec(conf, requestData);
    var r := AcceptDelivery(conf, sign, urlParts, now, actorData, requestData);
    if r.Ok? {
      var parts := urlParts(GetItem(actorData, "inbox").value).value;
      AcceptBaseString(parts.1, now, parts.0);
      SignHeaderSpec(conf, sign, "POST", parts.1, AcceptHeaders(now, parts.0));
      assert !HasKey(AcceptHeaders(now, parts.0), "Signature") by {
        assert Find(AcceptHeaders(now, parts.0), "Signature") == 2;
      }
    }
  }

  /** `urlparse` returns a `ParseResult`, which has `netloc`, `hostname` and
      `path` but no attribute `host`: as written, `netloc.host` raises
      AttributeError for every inbox. */
  const HostAttributeMissing: UrlParts := (inbox: Json) => None

  /** As written, `accept_follow` never sends: it raises KeyError or TypeError
      when the inbox cannot be read and AttributeError otherwise. */
  lemma AcceptAsWrittenRaises(conf: Config, sign: Signer, now: string, actorData: Json, requestData: Json)
    ensures AcceptDelivery(conf, sign, HostAttributeMissing, now, actorData, requestData).Err?
    ensures GetItem(actorData, "inbox").Ok? ==>
              AcceptDelivery(conf, sign, HostAttributeMissing, now, actorData, requestData) == Err(AttributeError)
  {
  }

  /** As written, every Follow whose actor resolves to a document reaches
      `accept_follow` with a readable inbox, after the follower was stored,
      and raises AttributeError there: no Accept is ever sent. */
  lemma FollowAsWrittenNeverAccepts(conf: Config, sign: Signer, fetch: Fetch, now: string, requestData: Json)
    requires ResolveActor(fetch, requestData).Ok? && ResolveActor(fetch, requestData).value.JObj?
    ensures GetItem(ResolveActor(fetch, requestData).value, "inbox").Ok?
    ensures AcceptDelivery(conf, sign, HostAttributeMissing, now, ResolveActor(fetch, requestData).value, requestData)
              == Err(AttributeError)
  {
    var actor := GetItem(requestData, "actor").value;
    GetActorDataSpec(fetch, actor);
    var fs := ResolveActor(fetch, requestData).value.fields;
    assert HasKey(fs, "inbox");
  }

  /** `request_data["actor"]` resolved by `get_actor_data`. */
  function ResolveActor(fetch: Fetch, requestData: Json): Result<Json> {
    var actor :- GetItem(requestData, "actor");
    GetActorData(fetch, actor)
  }

  /** `handle_follow`: resolve the actor, then insert it as a follower, then
      send the Accept. A failed resolution or a refused insert (such as a
      repeated `_id`) stores and sends nothing; a stored follower stays stored
      even when the Accept fails. `sent` is the list of
      deliveries attempted. */
  method HandleFollow(db: Database, conf: Config, fetch: Fetch, urlParts: UrlParts, sign: Signer,
                      post: Post, now: string, requestData: Json)
    returns (r: Result<()>, sent: seq<Delivery>)
    requires db.Valid()
    modifies db
    ensures db.Valid()
    ensures db.notes == old(db.notes)
    ensures ResolveActor(fetch, requestData).Err? ==>
              r.Err? && sent == [] && db.followers == old(db.followers) && db.nextOid == old(db.nextOid)
    ensures ResolveActor(fetch, requestData).Ok? && !ResolveActor(fetch, requestData).value.JObj? ==>
              r == Err(TypeError) && sent == [] && db.followers == old(db.followers) && db.nextOid == old(db.nextOid)
    ensures ResolveActor(fetch, requestData).Ok? && ResolveActor(fetch, requestData).value.JObj?
            && InsertRefusal(old(db.followers), ResolveActor(fetch, requestData).value.fields).Some? ==>
              && r == Err(InsertRefusal(old(db.followers), ResolveActor(fetch, requestData).value.fields).value)
              && sent == [] && db.followers == old(db.followers) && db.nextOid == old(db.nextOid)
    ensures ResolveActor(fetch, requestData).Ok? && ResolveActor(fetch, requestData).value.JObj?
            && InsertRefusal(old(db.followers), ResolveActor(fetch, requestData).value.fields).None? ==>
              var actorData := ResolveActor(fetch, requestData).value;
              var id := NewFollowerId(actorData.fields, old(db.nextOid));
              var delivery := AcceptDelivery(conf, sign, urlParts, now, actorData, requestData);
              && db.followers == old(db.followers) + [FollowerDoc(id, actorData.fields)]
              && db.nextOid == old(db.nextOid) + (if id.ObjectId? then 1 else 0)
              && sent == (if delivery.Ok? then [delivery.value] else [])
              && (r.Ok? <==> delivery.Ok? && post(delivery.value))
  {
    sent := [];
    var actorData := ResolveActor(fetch, requestData);
    if actorData.Err? {
      return Err(actorData.error), sent;
    }
    var followId := db.InsertFollower(actorData.value);
    if followId.Err? {
      return Err(followId.error), sent;
    }
    var delivery := AcceptDelivery(conf, sign, urlParts, now, actorData.value, requestData);
    if delivery.Err? {
      return Err(delivery.error), sent;
    }
    sent := [delivery.value];
    if post(delivery.value) {
      r := Ok(());
    } else {
      r := Err(ServiceError);
    }
  }
}
