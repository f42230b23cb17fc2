# Book-news bot: a Dafny model

This project models two parts of a small Japanese new-book news system.

The first part is the **ActivityPub bot** (`apub_bot_func`). It covers:

- its configuration;
- the `/inbox` route: Flask's method dispatch and the view that answers `Follow` and `Undo` activities;
- resolving a remote actor, then storing it as a follower;
- the signed `Accept` sent back to the actor, with its HTTP `Signature` header built from a request-target line and one line per header;
- the ActivityStreams objects the bot builds (Accept, Note, Create);
- the MongoDB-backed note and follower collections.

The second part is the **book-feed jobs**:

- `fetch_book_feeds` and its older variant `fetch_feeds`. Both read the Hanmoto RSS feed, split each title into title, author and publisher, and enrich the records with openBD (ONIX) data. They hand the entries over in batches of 200.
- `categorize`. It sends rows to a chat model five at a time, checks the answer and keeps the rows whose answer passed.
- `book_post`. It picks a not-yet-posted upcoming book at random and remembers it so it is not posted twice, or it lists the day's books.

Python values are modelled by the `Json` datatype (module `Json`). A dict is an ordered association list with unique keys, so iteration order is observable; this matters, because the signed header lines follow dict order. Every Python exception the code can raise is an `Err` of `Results.Result` with the exception's class. Where a Python loop accumulates, the model has a `method` with that `while` loop, proved equal to a recursive specification function, and the properties are lemmas about that function.

The two stores that the code changes in place are classes:

- `ApObject.Database`, with its `notes` and `followers` collections and the next ObjectId;
- `BookPost.Store`, the `new_books` collection.

Their methods' contracts give the whole new state.

Everything outside the program is a function parameter:

- HTTP;
- the KMS signer;
- `json.loads`;
- the chat model;
- `strptime`;
- the clock;
- the URL parser;
- `random.choice`, which becomes a nondeterministic choice.

Behaviours of the code worth noting, each captured in the model:

- The `Signature` header declares the constant list `(request-target) host date`. No `Digest` header is computed or sent, and the bot verifies no incoming signature.
- The lines that are signed follow the dict's order (`date` before `host`). They do not follow the declared order. `ApLogic.DeclaredOrderDiffers` proves that the two texts differ.
- Inserting a follower checks only the `_id` index, never the actor. A second Follow from an actor whose document has no `_id` stores a second document under a fresh ObjectId (`ApObject.InsertAddsMatch`). A document that carries its own `_id` is stored under it, and a second Follow from it gets DuplicateKeyError: nothing is stored and no Accept is sent (`ApObject.InsertTwiceRefused`, `ApLogic.HandleFollow`). Nothing fans notes out to followers.
- `format_datetime` renders `%Z` and then replaces "UTC" by "GMT". A note read back from MongoDB has a naive datetime, so its zone renders as the empty string (`ApObject.FormatDatetimeZone`, `ApObject.InsertThenGetNote`).
- The Create activity's id is `base + "note" + id + "/activity"`. The slash after "note" is missing, so it is not the note's link followed by "/activity" (`ApObject.CreateOfConvertedNote`).
- `@app.route("/inbox")` lists no methods, so Flask accepts only GET (and HEAD and OPTIONS). A POSTed activity, the way ActivityPub servers deliver, gets 405 (`Inbox.InboxRejectsPost`; see Findings).
- `urlparse` returns a `ParseResult`, which has no `host` attribute, so `accept_follow` raises AttributeError on every Follow, after `handle_follow` has stored the follower (`ApLogic.FollowAsWrittenNeverAccepts`; see Findings). The outcomes of a successful delivery hold for a corrected host extraction only.
- An inbox activity other than Follow or Undo reaches no `return`. The handler then produces no response (`Inbox.OtherActivity`).
- `categorize` skips a chunk whose answer has the wrong number of items. It does not retry it.

## Model

| member | source | states |
|---|---|---|
| Config.LoadConfig | apub_bot_func/apub_bot/config.py:19-32 | The configuration exists exactly when BOT_NAME, BOT_ID, MONGODB_DATABASE and BASE_URL are all set; otherwise a KeyError. Its fields are those variables' values, plus the fixed MongoDB URL, the password secret name and the KMS key ring, key and version "1". |
| Config.GetLinkSplits | apub_bot_func/apub_bot/config.py:34-35 | A link is the base URL followed by exactly the path, with no separator added. |
| Config.BotIdShape | apub_bot_func/apub_bot/config.py:43-45 | The bot id is the base URL, then "user/", then the preferred user name. |
| Config.LoadConfigDeterministic | apub_bot_func/apub_bot/config.py:48-52 | Environments agreeing on the four variables give the same configuration. |
| HttpSignature.EncodeAscii | apub_bot_func/apub_bot/ap_logic.py:62 | Encoding succeeds exactly for ASCII text, one byte per character; otherwise UnicodeEncodeError. |
| HttpSignature.EncodeDecode | apub_bot_func/apub_bot/ap_logic.py:62 | Decoding the encoded bytes gives the text back. |
| HttpSignature.SignHeaderMessage | apub_bot_func/apub_bot/ap_logic.py:56-63 | The line-building loop, then join and encode, produce the signature base of verb, path and headers. |
| HttpSignature.BaseStringLines | apub_bot_func/apub_bot/ap_logic.py:57-62 | Splitting the base string at newlines gives 1 + len(headers) lines: first "(request-target): " + lower(verb) + " " + path, then lower(key) + ": " + value per header in dict order. |
| HttpSignature.SignatureBaseAscii | apub_bot_func/apub_bot/ap_logic.py:56-63 | The message can be built exactly when the path and every header value are ASCII and the verb and every header key lower-case to ASCII, that is, hold only ASCII characters and the Kelvin sign; otherwise UnicodeEncodeError. |
| HttpSignature.KelvinVerbEncodes | apub_bot_func/apub_bot/ap_logic.py:58 | A verb that is the non-ASCII Kelvin sign still gives a message, because it lower-cases to "k". |
| HttpSignature.SignatureBaseDecodes | apub_bot_func/apub_bot/ap_logic.py:62 | A built message decodes to the joined base string. |
| HttpSignature.SignatureValueLayout | apub_bot_func/apub_bot/ap_logic.py:44-50 | The Signature value is keyId="bot id", algorithm="rsa-sha256", headers="(request-target) host date" and signature="sig", separated by commas, in that order. |
| HttpSignature.SignatureValueParams | apub_bot_func/apub_bot/ap_logic.py:44-50 | A reader splitting the value at commas gets back the four name="value" parameters when neither the key id nor the signature holds a comma. |
| HttpSignature.SignHeaderSpec | apub_bot_func/apub_bot/ap_logic.py:39-53 | Signing succeeds exactly when the message encodes and the signer answers for key ring, key, version "1" and that message. Encoding failures are UnicodeEncodeError. The result maps Signature to the value built from the bot id and the signer's answer, keeps every other entry, and appends Signature last when it was absent. |
| ApLogic.CheckKeysSpec | apub_bot_func/apub_bot/ap_logic.py:22-23 | The key assertions pass exactly when every key is `in` the document. |
| ApLogic.GetActorDataSpec | apub_bot_func/apub_bot/ap_logic.py:17-24 | An actor resolves exactly when its document is fetched and has id, preferredUsername and inbox; the document is returned unchanged. |
| ApLogic.AcceptBaseString | apub_bot_func/apub_bot/ap_logic.py:30-35 | The text signed for an Accept is the POST request-target line for the inbox path, then "date: " + now, then "host: " + host. |
| ApLogic.DeclaredOrderDiffers | apub_bot_func/apub_bot/ap_logic.py:31-35 | That text differs from the one a reader rebuilding lines in the declared "host date" order would get. |
| ApLogic.AcceptAsWrittenRaises | apub_bot_func/apub_bot/ap_logic.py:30-33 | With the `host` attribute missing from the parse result, `accept_follow` never builds a delivery: AttributeError whenever the inbox can be read. |
| ApLogic.FollowAsWrittenNeverAccepts | apub_bot_func/apub_bot/ap_logic.py:9-33 | Every Follow whose actor resolves to a document reaches `accept_follow` with a readable inbox and raises AttributeError there. |
| ApLogic.AcceptDeliverySpec | apub_bot_func/apub_bot/ap_logic.py:27-36 | For a URL parser that yields host and path, the Accept is sent exactly when the actor has an inbox, the inbox URL parses and signing succeeds. It goes to the inbox, its body is the Accept embedding the Follow unchanged, and its headers are Date, Host, then the Signature over the request-target, date and host lines. |
| ApLogic.HandleFollow | apub_bot_func/apub_bot/ap_logic.py:9-14 | A failed resolution stores and sends nothing; a resolved non-dict actor raises TypeError before storing, and an insert the server refuses (an array or repeated `_id`) raises its error with nothing stored or sent. Otherwise the actor document is appended as a follower under its own `_id` or the next ObjectId and stays stored even when the Accept fails; exactly one Accept is attempted when it can be built, and success means it was built and posted. Notes are unchanged. |
| Inbox.InboxMethodsOutcome | apub_bot_func/main.py:21 | As declared, GET and HEAD run the view, OPTIONS gets 200, and every other method gets 405 with no handler run. |
| Inbox.InboxRejectsPost | apub_bot_func/main.py:21 | As declared, a POST gets 405. |
| Inbox.IntendedInboxRunsView | apub_bot_func/main.py:21-22 | With POST listed, a POST runs the view, and GET and HEAD get 405. |
| Inbox.RejectedRequest | apub_bot_func/main.py:23-27 | A request with the wrong or missing Content-Type, no JSON body, or a body that is not a dict with `type` gets 400 and runs no handler. |
| Inbox.FollowOutcome | apub_bot_func/main.py:28-33 | A Follow runs the follow handler once: 200 if it returns, 500 if it raises. |
| Inbox.UndoOutcome | apub_bot_func/main.py:34-40 | An Undo runs the unfollow handler exactly when object.type is "Follow" (200 or 500 by its outcome); an Undo of anything else is 200; a missing object or object.type is 500 with no handler. |
| Inbox.OtherActivity | apub_bot_func/main.py:21-40 | Any other activity type runs no handler and reaches no response. |
| Inbox.AtMostOneHandler | apub_bot_func/main.py:21-40 | Whichever methods the route lists, at most one handler runs per request, and only for an accepted activity. |
| Inbox.HeaderValueCase | apub_bot_func/main.py:23 | Header lookup does not depend on the case of the name. |
| ApObject.FormatDatetimeNoUtc | apub_bot_func/apub_bot/ap_object.py:12-14 | A formatted date never contains "UTC". |
| ApObject.FormatDatetimeZone | apub_bot_func/apub_bot/ap_object.py:12-14 | For clock text without "UTC", an aware UTC datetime renders as the clock text + " GMT", and a naive one as the clock text + " ". |
| ApObject.GetAcceptSpec | apub_bot_func/apub_bot/ap_object.py:29-37 | The Accept has the ActivityStreams context, type Accept, the bot as actor, and its argument unchanged as object. |
| ApObject.ConvertNoteSpec | apub_bot_func/apub_bot/ap_object.py:73-89 | A converted note's id is the base URL + "note/" + the ObjectId text. It is attributed to the bot, keeps the content, is published at the formatted date and is addressed only to the Public collection. |
| ApObject.CreateObjectFields | apub_bot_func/apub_bot/ap_object.py:97-105 | The Create activity has its context, id, type Create, the bot as actor, published, to and note fields. |
| ApObject.CreateActivitySpec | apub_bot_func/apub_bot/ap_object.py:91-105 | A Create activity exists exactly when the note is a dict with a string id, published and to. It embeds the note minus @context, copies published and to, and has id base + "note" + last id segment + "/activity". |
| ApObject.CreateActivityValue | apub_bot_func/apub_bot/ap_object.py:91-105 | The activity built is the Create object around the note without @context. |
| ApObject.CreateActivityNote | apub_bot_func/apub_bot/ap_object.py:95 | The embedded note lacks @context and keeps every other key's value. |
| ApObject.CreateOfConvertedNote | apub_bot_func/apub_bot/ap_object.py:77-96 | For a converted note, the activity id is base + "note" + ObjectId + "/activity", which differs from the note's link + "/activity". |
| ApObject.ConvertedCreatable | apub_bot_func/apub_bot/ap_object.py:73-105 | Every converted note can be turned into a Create activity. |
| ApObject.NoteIdSegment | apub_bot_func/apub_bot/ap_object.py:94 | The last "/" segment of a note's link is its ObjectId text. |
| ApObject.FindNote | apub_bot_func/apub_bot/ap_object.py:110 | The position found is the first note with that ObjectId, or the end. |
| ApObject.MatchesActorCases | apub_bot_func/apub_bot/ap_object.py:128 | A follower with no actor field matches exactly the null query; one whose actor is an array matches each element. |
| ApObject.FindActor | apub_bot_func/apub_bot/ap_object.py:128 | The position found is the first follower matching {"actor": actor} as MongoDB matches it, or the end. |
| ApObject.RemoveFirstSpec | apub_bot_func/apub_bot/ap_object.py:128 | delete_one removes at most one document: exactly the first match when there is one. The rest stay in order, and the match count drops by the number removed. |
| ApObject.InsertAddsMatch | apub_bot_func/apub_bot/ap_object.py:120-123 | An insert that goes through adds one more match for its actor however many exist: the actor is not checked for uniqueness. |
| ApObject.InsertTwiceRefused | apub_bot_func/apub_bot/ap_object.py:120-123 | A document with no `_id` is never refused; one with its own non-array `_id`, once stored, is refused as a DuplicateKeyError when inserted again. |
| ApObject.CountActorAppend | apub_bot_func/apub_bot/ap_object.py:128 | Match counts add over concatenated collections. |
| ApObject.CountActorZero | apub_bot_func/apub_bot/ap_object.py:128 | No match is found exactly when the count is zero. |
| ApObject.Database.constructor | apub_bot_func/apub_bot/ap_object.py:61-129 | An empty database: no notes, no followers. |
| ApObject.Database.InsertNote | apub_bot_func/apub_bot/ap_object.py:61-70 | The note is appended with the next ObjectId and published `now` in UTC. The result is that note converted, its date formatted from the aware value. Followers are unchanged. |
| ApObject.Database.InsertFollower | apub_bot_func/apub_bot/ap_object.py:120-123 | A dict is stored as it is under its own `_id`, or else under the next ObjectId, and that `_id` is returned; an array `_id` is a WriteError, an `_id` already stored a DuplicateKeyError, and a non-dict a TypeError, each changing nothing. Followers' `_id`s stay distinct. |
| ApObject.Database.RemoveFollower | apub_bot_func/apub_bot/ap_object.py:126-129 | A missing actor field raises before anything changes. Otherwise the first follower matching the actor is deleted, and the deleted count is 1 if one matched, else 0. |
| ApObject.GetNotes | apub_bot_func/apub_bot/ap_object.py:116-117 | A negative skip raises. Otherwise the result holds exactly min(limit, remaining) notes, where remaining is the count after skipping; limit 0 means all remaining, and a negative limit counts as its absolute value. The notes are converted from skip on, in storage order. |
| ApObject.GetNotesDefaults | apub_bot_func/apub_bot/ap_object.py:116-117 | With the defaults limit 100 and skip 0, the result is the first min(100, n) notes converted, in storage order. |
| ApObject.GetNotesPages | apub_bot_func/apub_bot/ap_object.py:116-117 | A page of a notes from skip followed by a page of b notes from skip + a is the page of a + b notes from skip. |
| ApObject.InsertThenGetNote | apub_bot_func/apub_bot/ap_object.py:61-113 | After a note is stored under the next ObjectId, getting that ObjectId's text returns a note with that id and content, its date read back as naive. |
| ApObject.GetNoteAbsent | apub_bot_func/apub_bot/ap_object.py:108-113 | Text that is not 24 hex digits raises InvalidId; a valid id naming no note gives None. |
| Json.PutSpec | apub_bot_func/apub_bot/ap_logic.py:51-52 | After d[k] = v, k maps to v, other keys keep their values, the dict grows by one exactly when k was new, and keys stay unique. |
| Json.WithoutLookup | apub_bot_func/apub_bot/ap_object.py:95 | Filtering out a key leaves it absent and every other key with its value. |
| Json.WithoutAbsent | apub_bot_func/apub_bot/ap_object.py:95 | Filtering out an absent key changes nothing. |
| Json.WithoutSubsequence | apub_bot_func/apub_bot/ap_object.py:95 | Every remaining entry is an original entry with another key, in the same order. |
| Json.LookupAt | apub_bot_func/apub_bot/ap_object.py:95 | The value at a key's first position is what a lookup returns. |
| Strings.JoinSplit | apub_bot_func/apub_bot/ap_object.py:94 | Joining the pieces of a split with the separator gives the string back. |
| Strings.SplitJoin | apub_bot_func/apub_bot/ap_logic.py:62 | Splitting a join gives back the pieces when none holds the separator. |
| Strings.SplitPieces | apub_bot_func/apub_bot/ap_object.py:94 | No piece holds the separator; there is one piece exactly when the separator is absent. |
| Strings.LastSegmentSpec | fetch_book_feeds/main.py:287 | s.split(c)[-1] is the suffix after the last separator, or the whole string. |
| Strings.LastSegmentAfter | apub_bot_func/apub_bot/ap_object.py:94 | The last segment of p + c + q is q when q has no separator. |
| Strings.ReplaceAbsent | apub_bot_func/apub_bot/ap_object.py:14 | Replacing an absent pattern leaves the text unchanged. |
| Strings.ReplaceCharRemoves | categorize/main.py:93 | Replacing a character by text without it removes every occurrence. |
| Strings.ReplaceUtcGone | apub_bot_func/apub_bot/ap_object.py:14 | After replacing "UTC" by "GMT", no "UTC" remains. |
| Strings.LessEqTotal | book_post/main.py:103 | String comparison is total and reflexive. |
| Strings.IntToStringRoundTrip | fetch_book_feeds/main.py:322 | The decimal text of an int reads back as that int. |
| Strings.ParseHexDigits | apub_bot_func/apub_bot/ap_object.py:110 | An ObjectId rendered in w hex digits reads back as itself. |
| Strings.HexOfParse | apub_bot_func/apub_bot/ap_object.py:110 | Reading hex digits and rendering them again gives the text in lower case. |
| Strings.HexDigitsInjective | apub_bot_func/apub_bot/ap_object.py:77 | Different ObjectIds have different texts. |
| Strings.LowerAscii | apub_bot_func/apub_bot/ap_logic.py:58-61 | A text lower-cases to ASCII exactly when its characters are ASCII or the Kelvin sign. |
| Strings.LowerKelvin | apub_bot_func/apub_bot/ap_logic.py:58-61 | The Kelvin sign lower-cases to "k": a non-ASCII text with an ASCII lower case. |
| Onix.ScanLastTwo | fetch_book_feeds/main.py:216-220 | The two-branch overwrite loop computes the scan specification. |
| Onix.ScanOk | fetch_book_feeds/main.py:216-220 | The loop raises exactly when some item lacks its code or the value its code selects. |
| Onix.ScanKeepsA | fetch_book_feeds/main.py:216-220 | With no item of the first code, the first value keeps its start value. |
| Onix.ScanKeepsB | fetch_book_feeds/main.py:216-220 | With no item of the second code, the second value keeps its start value. |
| Onix.ScanLastA | fetch_book_feeds/main.py:216-220 | The last item of the first code decides the first value. |
| Onix.ScanLastB | fetch_book_feeds/main.py:216-220 | The last item of the second code (and not the first) decides the second value. |
| Onix.FindDescription | fetch_book_feeds/main.py:203-207 | The loop with break computes the description specification. |
| Onix.DescriptionFirst | fetch_book_feeds/main.py:203-207 | The description is the Text of the first item of TextType "03"; earlier items are read only for their type. |
| Onix.DescriptionAbsent | fetch_book_feeds/main.py:203-207 | With no item of TextType "03", the description is "". |
| Onix.ScanSubjects | fetch_book_feeds/main.py:212-220 | The Subject step computes keyword and C-code as specified. |
| Onix.SubjectsLastWins | fetch_book_feeds/main.py:212-220 | The keyword is the heading of the last scheme-20 subject, and the C-code the code of the last scheme-78 subject; each is "" when absent. |
| Onix.SubjectsAbsent | fetch_book_feeds/main.py:212-214 | Without Subject, keyword and C-code are "". |
| Onix.GetTitleDetail | fetch_book_feeds/main.py:171-190 | The loop computes label and series as specified. |
| Onix.TitleDetailRule | fetch_book_feeds/main.py:171-190 | Label and series are None unless the collection type is "10". There, with a TitleDetail, they are the titles of the last level-02 and level-03 elements. |
| Onix.KeyRecordsOk | fetch_book_feeds/main.py:242-247 | The keying loop raises exactly when a non-None record lacks a reference, fails to parse, or has an unhashable reference. |
| Onix.KeyRecordsUntouched | fetch_book_feeds/main.py:242-247 | A key no record carries keeps its earlier value. |
| Onix.KeyRecordsLast | fetch_book_feeds/main.py:242-247 | Under each reference is the last record with it. |
| Onix.KeyRecordsKeys | fetch_book_feeds/main.py:242-247 | The keys are the references of the non-None records, each once. |
| Hanmoto.LineEnd | fetch_feeds/main.py:101 | The position returned is the first newline at or after the start, or the end. |
| Hanmoto.LastBar | fetch_book_feeds/main.py:267-268 | The position returned is the last whitespace-bar-whitespace separator in the range, or None if there is none. |
| Hanmoto.OneLineBelow | fetch_feeds/main.py:101 | A range holds no newline exactly when it ends by the first newline. |
| Hanmoto.AuthorEndSpec | fetch_book_feeds/main.py:267-268 | For a given title end, the author end found is valid and the largest valid one. |
| Hanmoto.TitleEndSpec | fetch_book_feeds/main.py:267-268 | The split found is valid and lexicographically the largest below the bound. |
| Hanmoto.MatchTitleGreedy | fetch_book_feeds/main.py:261-270 | re.match matches exactly when some split is valid. It then picks the greedy split: the longest title, then the longest author. |
| Hanmoto.ParseTitleRebuilds | fetch_book_feeds/main.py:261-270 | With DOTALL, title, separator, author, separator and publisher rebuild the raw title. |
| Hanmoto.ParseTitleOneLine | fetch_feeds/main.py:95-102 | Without DOTALL, no part holds a newline. |
| Hanmoto.ParseTitleLineRebuilds | fetch_feeds/main.py:95-102 | Without DOTALL, the parts and separators rebuild the raw title up to the newline after the publisher, or to its end. |
| BookFeeds.ParseOpenbd | fetch_book_feeds/main.py:193-230 | Running the three loops gives the specified record. |
| BookFeeds.OpenbdFields | fetch_book_feeds/main.py:193-230 | Each parsed field comes from its ONIX path or its scan: title, authors, subjects or None, description, keyword/C-code and label/series. |
| BookFeeds.FetchOpenbk | fetch_book_feeds/main.py:233-248 | The loop over the API answer gives the keyed map specification. |
| BookFeeds.OpenbdMapKeys | fetch_book_feeds/main.py:233-248 | A key is present exactly when some non-None record has that reference. It appears once, holding the last such record. |
| BookFeeds.ToDictKeysUnique | fetch_book_feeds/main.py:76-91 | The fourteen keys are distinct. |
| BookFeeds.ToDictShape | fetch_book_feeds/main.py:76-91 | The dict has the fourteen keys, in order. |
| BookFeeds.ToDictLookup | fetch_book_feeds/main.py:76-91 | Each key looks up its own position's value. |
| BookFeeds.ToDictIdentity | fetch_book_feeds/main.py:77-84 | The identity fields are copied unchanged. |
| BookFeeds.ToDictWithoutOpenbd | fetch_book_feeds/main.py:66-75 | Without openBD or scraped data, description, keywords, c_code, label and series are "", and author_data is []. |
| BookFeeds.ToDictWithOpenbd | fetch_book_feeds/main.py:66-75 | With openBD data only, the fields are openBD's values as they are, a None label or series included. |
| BookFeeds.ToDictFallback | fetch_book_feeds/main.py:70-73 | Scraped C-code and description replace only empty values. |
| BookFeeds.Isbns | fetch_book_feeds/main.py:300 | One ISBN per record, in order. |
| BookFeeds.AttachAll | fetch_book_feeds/main.py:303-305 | One record per record, with openBD data attached exactly when its ISBN is a key. |
| BookFeeds.ParseEntries | fetch_book_feeds/main.py:281-300 | The first loop computes the records and their ISBNs as specified. |
| BookFeeds.ToDicts | fetch_book_feeds/main.py:302-313 | The second loop attaches the openBD data and converts each record. |
| BookFeeds.HandleEntries | fetch_book_feeds/main.py:273-313 | handle_entries computes its specification. |
| BookFeeds.EntryDataFields | fetch_book_feeds/main.py:282-298 | A record keeps the entry's id, title, link and date. Its ISBN is the last "/" segment of the id, and its title is split with DOTALL. |
| BookFeeds.HandleEntriesOutputs | fetch_book_feeds/main.py:273-313 | One dict per entry, in entry order, from that entry's record, with openBD data attached when its ISBN was fetched. |
| BookFeeds.HandleEntriesLength | fetch_book_feeds/main.py:273-313 | A successful run gives one dict per entry. |
| BookFeeds.GetUrlOffset | fetch_book_feeds/main.py:316-324 | The day offset reads back from the URL right after the search prefix. |
| BookFeeds.GetUrlInjective | fetch_book_feeds/main.py:316-324 | Different offsets give different URLs. |
| BookFeeds.FetchFeed | fetch_book_feeds/main.py:351-367 | The accumulate-and-flush loop yields the batches' outputs in order. |
| BookFeeds.FeedBatches | fetch_book_feeds/main.py:359-367 | Every entry is handed over once, in order. Batches hold 1 to 200 entries, all but the last exactly 200, and a successful run gives one dict per entry. |
| LegacyFeeds.ParseOpenbd | fetch_feeds/main.py:44-69 | Running the two loops gives the specified record. |
| LegacyFeeds.LegacyOpenbdFields | fetch_feeds/main.py:44-69 | Each field comes from its ONIX path or its scan, with no label or series. |
| LegacyFeeds.FetchOpenbk | fetch_feeds/main.py:72-82 | The loop gives the keyed map specification. |
| LegacyFeeds.OpenbdMapKeys | fetch_feeds/main.py:72-82 | A key is present exactly for non-None records' references, once, holding the last such record. |
| LegacyFeeds.LegacyKeysUnique | fetch_feeds/main.py:30-34 | The twelve keys are distinct. |
| LegacyFeeds.LegacyToDictShape | fetch_feeds/main.py:25-34 | The twelve keys (with singular "keyword") are in order. Identity fields are copied, and each key looks up its position's value. |
| LegacyFeeds.LegacyToDictWithoutOpenbd | fetch_feeds/main.py:26-29 | Without openBD data, description, keyword and c_code are "" and author_data is []. |
| LegacyFeeds.LegacyToDictWithOpenbd | fetch_feeds/main.py:26-29 | With openBD data, the fields are its values. |
| LegacyFeeds.Isbns | fetch_feeds/main.py:120 | One ISBN per record, in order. |
| LegacyFeeds.AttachAll | fetch_feeds/main.py:123-125 | One record per record, with openBD data attached exactly when its ISBN is a key. |
| LegacyFeeds.ParseEntries | fetch_feeds/main.py:108-120 | The first loop computes the records and ISBNs. |
| LegacyFeeds.ToDicts | fetch_feeds/main.py:122-127 | The second loop cannot fail and gives one dict per record. |
| LegacyFeeds.HandleEntries | fetch_feeds/main.py:105-127 | handle_entries computes its specification. |
| LegacyFeeds.LegacyEntryFields | fetch_feeds/main.py:109-118 | The ISBN is the last "/" segment of the id, and no title part holds a newline. |
| LegacyFeeds.LegacyEntriesOutputs | fetch_feeds/main.py:105-127 | One dict per entry, in order, with openBD data attached when fetched. |
| LegacyFeeds.LegacyEntriesSucceed | fetch_feeds/main.py:105-127 | A run fails only where an entry, the openBD call or a record does. |
| LegacyFeeds.LegacyEntriesLength | fetch_feeds/main.py:105-127 | A successful run gives one dict per entry. |
| LegacyFeeds.LegacyFeedSlices | fetch_feeds/main.py:130-136 | The range slices rebuild the entries and hold 1 to 200 entries, all but the last 200. A successful run gives one dict per entry. |
| Batches.ChunksFlatten | fetch_book_feeds/main.py:359-367 | The batches concatenate back to the input. |
| Batches.ChunksSizes | fetch_book_feeds/main.py:359-367 | Batches hold 1 to n elements, all but the last exactly n; only an empty input has no batches. |
| Batches.ChunksAfterFull | fetch_book_feeds/main.py:359-367 | Full batches in front are kept as they are. |
| Batches.SlicesFromChunks | fetch_feeds/main.py:133-134 | Slicing from a start gives the batches of the rest. |
| Batches.SlicesAreChunks | fetch_feeds/main.py:133-134 | range slicing and accumulate-and-flush batching cut a list alike. |
| Batches.HandleAllAppend | fetch_book_feeds/main.py:364-367 | Handling one more batch appends its output. |
| Batches.HandleAllFailed | fetch_book_feeds/main.py:364-367 | A failed run stays failed. |
| Batches.HandleAllOutputs | fetch_book_feeds/main.py:364-367 | The outputs come in batch order, one per element when the handler keeps lengths. |
| Batches.HandleAllLength | fetch_book_feeds/main.py:364-367 | A length-keeping handler gives one output per element. |
| Batches.BatchingStart | fetch_book_feeds/main.py:359-361 | The loop invariant holds before the first entry. |
| Batches.BatchingPush | fetch_book_feeds/main.py:361-363 | Appending to a short batch keeps the invariant. |
| Batches.BatchingFlush | fetch_book_feeds/main.py:363-365 | Flushing a full batch keeps the invariant. |
| Batches.BatchingFail | fetch_book_feeds/main.py:363-365 | A handler error on a full batch is the error of the whole run. |
| Batches.BatchingEnd | fetch_book_feeds/main.py:366-367 | The final partial batch completes the run. |
| Batches.MapAllSpec | fetch_book_feeds/main.py:281-300 | A map succeeds exactly when every element succeeds, then gives one result per element, in order. |
| Batches.MapAllAppend | fetch_book_feeds/main.py:281-300 | Mapping one more element extends the result. |
| Batches.MapAllStep | fetch_book_feeds/main.py:281-300 | One loop pass extends the prefix result or fails the whole map. |
| Batches.MapAllFailed | fetch_book_feeds/main.py:281-300 | A failed map stays failed. |
| Categorize.BookLines | categorize/main.py:89-100 | One line per row, in row order. |
| Categorize.BuildPrompt | categorize/main.py:88-102 | The line loop builds the specified prompt. |
| Categorize.EscapedDescriptionSpec | categorize/main.py:93 | The escaped description holds no newline and has at most 500 characters. It is a prefix of the fully escaped text, and is the description itself when that is short and has no newline. |
| Categorize.BookLineNumber | categorize/main.py:98 | Each line starts with its frame position + 1 in decimal, before the first ".". |
| Categorize.PromptLines | categorize/main.py:101-102 | The prompt opens with "# BOOKS" and holds one line per row, numbered from start + 1. |
| Categorize.ParseJson | categorize/main.py:121-125 | An invalid document gives None; any other loads error propagates. |
| Categorize.DoOpenaiApi | categorize/main.py:75-118 | The call sends the built prompt and parses the answer as specified. |
| Categorize.CheckResult | categorize/main.py:144-150 | A passing check gives one genre per row. |
| Categorize.CheckResultLoop | categorize/main.py:144-150 | The loop computes the check specification. |
| Categorize.CheckResultSpec | categorize/main.py:144-150 | The genres are the items' genres in order. The check fails with AssertionError exactly when items reads but its length differs from the row count. |
| Categorize.MapAllErrors | categorize/main.py:148-149 | A genre lookup that never raises AssertionError cannot make the map fail with AssertionError, so only the length assertion is caught. |
| Categorize.MapAllFirstError | categorize/main.py:148-149 | A failed map fails with some element's error. |
| Categorize.InvalidAnswer | categorize/main.py:121-146 | An invalid answer becomes None, and checking None raises an uncaught TypeError. |
| Categorize.Label | categorize/main.py:139 | The chunk's rows keep their positions and get the genres in order. |
| Categorize.ChunkOutcome | categorize/main.py:132-140 | A chunk is kept with one genre per row, skipped on AssertionError, and fails with any other error. |
| Categorize.OutcomesConsistent | categorize/main.py:132-140 | Kept outcomes carry one genre per row of their chunk. |
| Categorize.KeepStep | categorize/main.py:131-140 | One loop pass keeps the invariant, whatever the chunk outcome. |
| Categorize.KeepEnd | categorize/main.py:141 | Past the last row the loop keeps nothing more: the result is what was kept so far. |
| Categorize.Categorize | categorize/main.py:128-141 | The chunk loop computes the specification; concatenating no chunk raises ValueError. |
| Categorize.ChunkOutcomeSpec | categorize/main.py:132-140 | A chunk is kept exactly when answered and checked, skipped on AssertionError, and failed otherwise. |
| Categorize.KeepFromRows | categorize/main.py:131-141 | Kept rows are frame rows at their own positions. |
| Categorize.KeepFromOrder | categorize/main.py:131-141 | Kept rows come in frame order. |
| Categorize.KeepFromGenres | categorize/main.py:139 | A kept row carries the genre at its place in its chunk's outcome. |
| Categorize.KeepFromCoverage | categorize/main.py:131-141 | A position is kept exactly when its chunk's outcome keeps it. |
| Categorize.CategorizeKept | categorize/main.py:128-141 | The result holds frame rows at their own positions, in order. A position is kept exactly when its chunk was answered and passed its check, and such a row carries its genre. |
| Categorize.KeepFromAll | categorize/main.py:131-141 | When every chunk passes, every row is kept, in order. |
| Categorize.CategorizeDateCount | categorize/main.py:167-184 | The count is 0 exactly for an empty frame and never exceeds the rows fetched. |
| Categorize.IncreasingBound | categorize/main.py:184 | Strictly increasing positions below n are at most n. |
| BookPost.KeepPostedOk | book_post/main.py:103 | The filter fails exactly when some record lacks a string publish_date. |
| BookPost.KeepPostedMembers | book_post/main.py:103 | A record is kept exactly when it is stored and dated today or later. |
| BookPost.KeepPostedAppend | book_post/main.py:103 | The filter distributes over concatenation. |
| BookPost.KeepPostedIdempotent | book_post/main.py:103 | Filtering kept records keeps them all. |
| BookPost.PostedIsbnsSpec | book_post/main.py:104 | The set is built exactly when every ISBN is hashable, and it holds exactly those ISBNs. |
| BookPost.FreshMembers | book_post/main.py:106-111 | A row is a candidate exactly when its ISBN has not been posted. |
| BookPost.FreshAppend | book_post/main.py:106-111 | Candidates keep data order. |
| BookPost.FreshNothingPosted | book_post/main.py:106-111 | With no posts, every row is a candidate. |
| BookPost.SelectEntries | book_post/main.py:106-111 | The loop computes the candidates. |
| BookPost.NewRecordFields | book_post/main.py:117-121 | The remembered record has the book's ISBN, publish date and title. |
| BookPost.Store.constructor | book_post/main.py:51-61 | The store starts with the given records. |
| BookPost.Store.FindAll | book_post/main.py:51-54 | Returns every record, in storage order, and changes nothing. |
| BookPost.Store.Replace | book_post/main.py:57-61 | The store becomes the new records; an empty list raises TypeError after the delete, leaving the store empty. |
| BookPost.GetRandomBook | book_post/main.py:98-123 | A filtering error leaves the store alone; no candidate gives None. Otherwise a candidate is chosen and, with update on, the store becomes the kept posts plus its record. |
| BookPost.UpdateKeepsIsbnsDistinct | book_post/main.py:103-122 | Distinct ISBNs among the kept posts stay distinct after the chosen book is remembered. |
| BookPost.ChosenNotRepeated | book_post/main.py:103-122 | A remembered book dated today' or later is no candidate on today'. |
| BookPost.LinkToA | book_post/main.py:77-78 | The anchor is twice the URL's length plus 13 characters long, holds the URL itself from position 8, and has no newline when the URL has none. |
| BookPost.LinkToAInjective | book_post/main.py:77-78 | Different URLs give different anchors. |
| BookPost.TodayItems | book_post/main.py:69-73 | One item per row, in order. |
| BookPost.TodaysBookPost | book_post/main.py:64-74 | The loop builds the specified post. |
| BookPost.ItemLines | book_post/main.py:72-74 | For n >= 1 books there are 3n - 1 lines: each book's heading and link, with a blank line between books. |
| BookPost.JoinItems | book_post/main.py:74 | The joined items hold each book's lines. |
| BookPost.ItemLinesOneLine | book_post/main.py:72 | With newline-free fields, no item line holds a newline. |
| BookPost.TodayPostJoin | book_post/main.py:74 | The post is its lines joined by newlines. |
| BookPost.TodayPostLines | book_post/main.py:64-74 | Splitting the post gives two header lines, then each book's heading and link, separated by blank lines: 3n + 1 lines for n > 0 books. |
| BookPost.RandomPostLines | book_post/main.py:90-94 | The random post has five newline-separated lines, the last empty. |
| BookPost.RandomBookPost | book_post/main.py:81-95 | No candidate raises TypeError. Otherwise the post is for some candidate, with the store updated before the date is formatted. |
| BookPost.ModeOfSpec | book_post/main.py:130-136 | "random" is the default, only "random" and "today" are accepted, and a non-dict body raises. |
| BookPost.HandleRequest | book_post/main.py:126-148 | A non-dict body raises and an invalid mode gives 400, both leaving the store alone. "today" answers "OK" with the store unchanged. "random" raises TypeError with no candidate; otherwise the store gains the chosen book's record and the answer is "OK", or ValueError when its date does not format. |

## Left out

- The KMS signer (`gcp.sign_asymmetric`, `gcp.get_public_key`), Secret Manager and the RSA signature itself. The signer is a parameter, and a signature is whatever text it returns.
- `sig.py` and `mongodb.py`, and the real MongoDB and BigQuery clients. The collections are in-memory sequences in `ApObject.Database` and `BookPost.Store`.
- `get_person`, `get_public_key` and `Config.summary`. They only read KMS or a file.
- Clocks (`get_now`, `datetime.now`, `get_today`). The current time is a `now`/`today` text parameter.
- `urlparse` itself. The host and path come from a URL-parts parameter. As written the code reads the missing attribute `host`, which `ApLogic.HostAttributeMissing` models as a parser that always fails.
- `handle_unfollow` and the unfollow path of the inbox. That handler is not in the source, so only its outcome is an input of `Inbox.InboxView`.
- Flask's OPTIONS answer is modelled by its status alone; its `Allow` header and the body dropped for HEAD are not modelled.
- The other Flask routes (actor document, notes, webfinger). They only wrap the objects modelled here.
- HTTP (`requests`, `feedparser`) and the openBD API. Each is a fetch, post or API parameter.
- `parse_date` (`strptime`) and the date formatting in `book_post`. Each is a parameter returning None where Python raises.
- `get_book_info` (HTML scraping). It runs only when `ENABLE_CRAWLING` is on, and that constant is off. `to_dict`'s fallback to scraped data is still modelled.
- `fetch_feed_by_date`'s day arithmetic, and `fetch_and_save`'s gzip, GCS upload and counting. They are I/O.
- The SQL query and `book.sql`. `fetch` and `fetch_new_books` are the `data` parameters.
- The chat model's system prompt, JSON schema and model arguments. They are constants passed to an external service, which is the `Chat` parameter. `json.loads` is the `Loads` parameter.
- `categorize_date`'s column selection, JSON-lines upload and `book_type` column. pandas frames are sequences of rows with their frame positions.
- `insert_many`'s and `insert_one`'s mutation of their argument (adding `_id` to a document without one). The caller does not read that key afterwards.
- ApObject.InsertRefusal: other server-side refusals of a document (an `_id` dict with `$` keys, a document over the size limit) are not modelled.
- Floating-point numbers. `Json` has no float case, so a document holding a number such as `1.5` (an actor document, an openBD record, the chat model's answer) cannot be represented.
- `random.choice`, which becomes a nondeterministic choice among the candidates.
- The delivery POST in `handle_request`, which is commented out in the code.
- Python generators' partial output. A batch run that raises is modelled as the error alone, not the dicts yielded before it.
- The hash equality of `1` and `True` as dict keys.
- Strings.Lower, Strings.LowerAscii, HttpSignature.SignatureBaseAscii: `str.lower` is modelled on ASCII capitals and the Kelvin sign, the one non-ASCII character whose lower case is ASCII. Every other character is kept as it is. Its Python lower case is never ASCII, so whether the message encodes matches Python, but the exact lowered text of a line that fails to encode is not modelled; for instance U+0130 becomes two characters in Python.
- ApObject.MatchesActor, ApObject.FindActor, ApObject.Database.RemoveFollower: the query `{"actor": value}` follows MongoDB's equality matching on arrays and on a missing field, but a dict value holding `$` operators is compared as a plain value, where MongoDB would read it as operators.

## Findings

| source | as written | input that shows it | evidently intended | confidence | as-written member | corrected member |
|---|---|---|---|---|---|---|
| apub_bot_func/apub_bot/ap_logic.py:30-33 | The host is read as `urlparse(inbox).host`, an attribute a `ParseResult` does not have. | Any Follow whose actor document has an `inbox`: the follower is stored, then AttributeError, and the inbox answers 500. | The host read as `netloc.netloc` or `netloc.hostname`, so that the signed Accept is sent. | not executed | ApLogic.FollowAsWrittenNeverAccepts | ApLogic.AcceptDeliverySpec |
| apub_bot_func/main.py:21 | `@app.route("/inbox")` with no `methods`, so only GET, HEAD and OPTIONS are routed to the view. | A POST of a Follow to `/inbox`: 405, no handler runs. | `methods=["POST"]`, the method ActivityPub delivery uses. | not executed | Inbox.InboxRejectsPost | Inbox.IntendedInboxRunsView |
