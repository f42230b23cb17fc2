/** The `/inbox` route: Flask's method dispatch, then the view's decision tree
    from the request and the outcomes of the Follow and Unfollow handlers to
    an HTTP status. */
module Inbox {

  import opened Results
  import opened Strings
  import opened Json

  /** An incoming request: its method as werkzeug reports it (upper case), its
      headers, and its body decoded as JSON, or None when the body does not
      decode (Flask then answers 400 itself). */
  datatype Request = Request(verb: string, headers: Dict<string, string>, body: Option<Json>)

  /** What the route answers: a status, or nothing at all (the view returns
      None, which Flask turns into a server error). */
  datatype Response = Status(code: int) | NoResponse

  datatype Handler = FollowHandler | UnfollowHandler

  /** The response together with the handlers invoked, in order. */
  datatype Outcome = Outcome(response: Response, called: seq<Handler>)

  /** A handler's outcome on the activity: true when it returns, false when it raises. */
  type HandlerOutcome = Json -> bool

  const ActivityJson: string := "application/activity+json"

  /** `request.headers[name]`: header names compare without regard to case;
      None stands for the KeyError Flask answers with 400. */
  function HeaderValue(headers: Dict<string, string>, name: string): Option<string> {
    if |headers| == 0 then None
    else if Lower(headers[0].0) == Lower(name) then Some(headers[0].1)
    else HeaderValue(headers[1..], name)
  }

  /** The body of the view `inbox()`, with the handlers' outcomes as inputs. */
  function InboxView(req: Request, follow: HandlerOutcome, unfollow: HandlerOutcome): Outcome {
    if HeaderValue(req.headers, "Content-Type") != Some(ActivityJson) then Outcome(Status(400), [])
    else if req.body.None? then Outcome(Status(400), [])
    else
      var data := req.body.value;
      if !data.JObj? || !HasKey(data.fields, "type") then Outcome(Status(400), [])
      else
        var kind := Lookup(data.fields, "type").value;
        if kind == JStr("Follow") then
          Outcome(Status(if follow(data) then 200 else 500), [FollowHandler])
        else if kind == JStr("Undo") then
          match GetItem(data, "object")
          case Err(_) => Outcome(Status(500), [])
          case Ok(obj) =>
            match GetItem(obj, "type")
            case Err(_) => Outcome(Status(500), [])
            case Ok(objectKind) =>
              if objectKind == JStr("Follow") then
                Outcome(Status(if unfollow(data) then 200 else 500), [UnfollowHandler])
              else Outcome(Status(200), [])
        else Outcome(NoResponse, [])
  }

  /** A Flask route for `/inbox` declared with `methods`: a listed method, or
      HEAD when GET is listed, runs the view; OPTIONS is answered by Flask with
      200; any other method is answered with 405. */
  function InboxRoute(methods: seq<string>, req: Request, follow: HandlerOutcome, unfollow: HandlerOutcome): Outcome {
    if req.verb in methods || (req.verb == "HEAD" && "GET" in methods) then InboxView(req, follow, unfollow)
    else if req.verb == "OPTIONS" then Outcome(Status(200), [])
    else Outcome(Status(405), [])
  }

  /** `@app.route("/inbox")` lists no methods, so Flask takes GET only. */
  const InboxMethods: seq<string> := ["GET"]

  /** The `/inbox` endpoint as declared. */
  function HandleInbox(req: Request, follow: HandlerOutcome, unfollow: HandlerOutcome): Outcome {
    InboxRoute(InboxMethods, req, follow, unfollow)
  }

  /** ActivityPub delivers activities to an inbox by POST (section 7 of W3C
      ActivityPub): the route evidently meant to list POST. */
  const IntendedInboxMethods: seq<string> := ["POST"]

  /** The `/inbox` endpoint with POST listed. */
  function IntendedInbox(req: Request, follow: HandlerOutcome, unfollow: HandlerOutcome): Outcome {
    InboxRoute(IntendedInboxMethods, req, follow, unfollow)
  }

  /** As declared, GET and HEAD reach the view, OPTIONS gets 200 and every
      other method gets 405 with no handler run. */
  lemma InboxMethodsOutcome(req: Request, follow: HandlerOutcome, unfollow: HandlerOutcome)
    ensures req.verb == "GET" || req.verb == "HEAD" ==> HandleInbox(req, follow, unfollow) == InboxView(req, follow, unfollow)
    ensures req.verb == "OPTIONS" ==> HandleInbox(req, follow, unfollow) == Outcome(Status(200), [])
    ensures req.verb != "GET" && req.verb != "HEAD" && req.verb != "OPTIONS" ==>
              HandleInbox(req, follow, unfollow) == Outcome(Status(405), [])
  {
  }

  /** As declared, a POSTed activity, which is how ActivityPub servers deliver,
      gets 405 and never reaches the Follow or Undo handling. */
  lemma InboxRejectsPost(req: Request, follow: HandlerOutcome, unfollow: HandlerOutcome)
    requires req.verb == "POST"
    ensures HandleInbox(req, follow, unfollow) == Outcome(Status(405), [])
  {
  }

  /** With POST listed, a POSTed activity reaches the view, so the view's
      lemmas below describe what a delivered activity gets; GET and HEAD,
      no longer listed, get 405. */
  lemma IntendedInboxRunsView(req: Request, follow: HandlerOutcome, unfollow: HandlerOutcome)
    ensures req.verb == "POST" ==> IntendedInbox(req, follow, unfollow) == InboxView(req, follow, unfollow)
    ensures req.verb == "GET" || req.verb == "HEAD" ==> IntendedInbox(req, follow, unfollow) == Outcome(Status(405), [])
  {
  }

  /** The activity the handlers see, when the request gets that far. */
  predicate Activity(req: Request, data: Json) {
    HeaderValue(req.headers, "Content-Type") == Some(ActivityJson)
    && req.body == Some(data) && data.JObj? && HasKey(data.fields, "type")
  }

  /** A request whose Content-Type is missing or is not
      "application/activity+json", or whose body is not a dict with a `type`,
      gets 400 and runs no handler. */
  lemma RejectedRequest(req: Request, follow: HandlerOutcome, unfollow: HandlerOutcome)
    requires forall data :: !Activity(req, data)
    ensures InboxView(req, follow, unfollow) == Outcome(Status(400), [])
  {
    if HeaderValue(req.headers, "Content-Type") == Some(ActivityJson) && req.body.Some? {
      assert !Activity(req, req.body.value);
    }
  }

  /** A Follow runs the follow handler once: 200 when it returns, 500 when it raises. */
  lemma FollowOutcome(req: Request, data: Json, follow: HandlerOutcome, unfollow: HandlerOutcome)
    requires Activity(req, data) && Lookup(data.fields, "type") == Some(JStr("Follow"))
    ensures InboxView(req, follow, unfollow).called == [FollowHandler]
    ensures InboxView(req, follow, unfollow).response == Status(if follow(data) then 200 else 500)
  {
  }

  /** An Undo runs the unfollow handler only when `object.type` is "Follow"
      (200 or 500 by its outcome); an Undo of anything else is 200 with no
      handler; a missing `object` or `object.type` is 500 with no handler. */
  lemma UndoOutcome(req: Request, data: Json, follow: HandlerOutcome, unfollow: HandlerOutcome)
    requires Activity(req, data) && Lookup(data.fields, "type") == Some(JStr("Undo"))
    ensures InboxView(req, follow, unfollow).called == [UnfollowHandler] <==>
              GetItem(data, "object").Ok? && GetItem(GetItem(data, "object").value, "type") == Ok(JStr("Follow"))
    ensures InboxView(req, follow, unfollow).called == [UnfollowHandler] ==>
              InboxView(req, follow, unfollow).response == Status(if unfollow(data) then 200 else 500)
    ensures InboxView(req, follow, unfollow).called == [] ==>
              InboxView(req, follow, unfollow).response ==
                Status(if GetItem(data, "object").Ok? && GetItem(GetItem(data, "object").value, "type").Ok? then 200 else 500)
    ensures |InboxView(req, follow, unfollow).called| <= 1
  {
  }

  /** Any other activity type (Like, Announce, ...) runs no handler and
      reaches no response. */
  lemma OtherActivity(req: Request, data: Json, follow: HandlerOutcome, unfollow: HandlerOutcome)
    requires Activity(req, data)
    requires Lookup(data.fields, "type") != Some(JStr("Follow")) && Lookup(data.fields, "type") != Some(JStr("Undo"))
    ensures InboxView(req, follow, unfollow) == Outcome(NoResponse, [])
  {
  }

  /** Whatever the request and whichever methods the route lists, at most one
      handler runs, and a handler runs only for an accepted activity. */
  lemma AtMostOneHandler(methods: seq<string>, req: Request, follow: HandlerOutcome, unfollow: HandlerOutcome)
    ensures |InboxRoute(methods, req, follow, unfollow).called| <= 1
    ensures InboxRoute(methods, req, follow, unfollow).called != [] ==> req.body.Some? && Activity(req, req.body.value)
  {
  }

  /** Header lookup ignores the case of the name. */
  lemma {:induction false} HeaderValueCase(headers: Dict<string, string>, name: string, other: string)
    requires Lower(name) == Lower(other)
    ensures HeaderValue(headers, name) == HeaderValue(headers, other)
  {
    if |headers| > 0 {
      HeaderValueCase(headers[1..], name, other);
    }
  }
}
