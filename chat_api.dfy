/**
 * The AI request adapter of src/lib/api/chat.ts: which attachments contribute
 * uploads, how the request body is assembled (extracted text appended to the
 * question under a labelled separator, binary uploads sent alongside), how a
 * response or a thrown error becomes the caller's result, and the metadata
 * summary of an attachment list.
 *
 * The converter `convertAttachmentToFlowiseUpload` lives in a file that is not
 * part of this model; it is a parameter. The HTTP exchange is a parameter too:
 * `send` maps the request body to what `fetch` produced.
 */
module ChatApi {
  import opened Common
  import opened Attachments

  // ---------------------------------------------------------------------------
  // convertAttachmentsToUploads
  // ---------------------------------------------------------------------------

  /** What one attachment contributes: its converted uploads when ready, nothing otherwise. */
  function Contribution(a: Attachment, convert: Attachment -> Converted): seq<Upload>
  {
    if a.status == Ready then AsList(convert(a)) else []
  }

  /** `attachments.filter(ready).flatMap(convert-and-wrap)` */
  function ReadyUploads(attachments: seq<Attachment>, convert: Attachment -> Converted): (r: seq<Upload>)
    ensures (forall i | 0 <= i < |attachments| :: attachments[i].status != Ready) ==> r == []
    decreases |attachments|
  {
    if attachments == [] then []
    else Contribution(attachments[0], convert) + ReadyUploads(attachments[1..], convert)
  }

  /** The uploads of a concatenation are the uploads of the parts, in order. */
  lemma {:induction false} ReadyUploadsAppend(xs: seq<Attachment>, ys: seq<Attachment>, convert: Attachment -> Converted)
    ensures ReadyUploads(xs + ys, convert) == ReadyUploads(xs, convert) + ReadyUploads(ys, convert)
    decreases |xs|
  {
    if xs == [] {
      assert xs + ys == ys;
    } else {
      assert (xs + ys)[0] == xs[0];
      assert (xs + ys)[1..] == xs[1..] + ys;
      ReadyUploadsAppend(xs[1..], ys, convert);
    }
  }

  /** A single attachment contributes nothing unless it is ready; a single converted item becomes a singleton. */
  lemma ReadyUploadsOfOne(a: Attachment, convert: Attachment -> Converted)
    ensures a.status != Ready ==> ReadyUploads([a], convert) == []
    ensures a.status == Ready && convert(a).One? ==> ReadyUploads([a], convert) == [convert(a).upload]
    ensures a.status == Ready && convert(a).Many? ==> ReadyUploads([a], convert) == convert(a).uploads
  {
  }

  /** An upload is sent exactly when some ready attachment converted to it. */
  lemma {:induction false} ReadyUploadsMembership(attachments: seq<Attachment>, convert: Attachment -> Converted, u: Upload)
    ensures u in ReadyUploads(attachments, convert) <==>
            exists i :: 0 <= i < |attachments| && attachments[i].status == Ready && u in AsList(convert(attachments[i]))
    decreases |attachments|
  {
    if attachments != [] {
      ReadyUploadsMembership(attachments[1..], convert, u);
      if u in ReadyUploads(attachments[1..], convert) {
        var j :| 0 <= j < |attachments[1..]| && attachments[1..][j].status == Ready && u in AsList(convert(attachments[1..][j]));
        assert attachments[j + 1] == attachments[1..][j];
      }
      forall i | 1 <= i < |attachments| && attachments[i].status == Ready && u in AsList(convert(attachments[i]))
        ensures u in ReadyUploads(attachments[1..], convert)
      {
        assert attachments[1..][i - 1] == attachments[i];
      }
    }
  }

  // ---------------------------------------------------------------------------
  // The request body of fetchAIResponse
  // ---------------------------------------------------------------------------

  const TextKind: string := "text"

  /** `{ question, overrideConfig: { sessionId }, uploads? }` */
  datatype RequestBody = RequestBody(question: string, sessionId: string, uploads: Option<seq<Upload>>)

  /** A template literal renders a missing `name` as "undefined". */
  function NameText(name: Option<string>): string
  {
    match name
    case None => "undefined"
    case Some(n) => n
  }

  /** The labelled block a text upload adds to the question. */
  function TextBlock(u: Upload): (r: string)
    ensures "\n\n--- Content from " <= r
  {
    "\n\n--- Content from " + NameText(u.name) + " ---\n" + u.data
  }

  /** The blocks pushed into `textContent`, one per text upload, in order. */
  function TextBlocks(uploads: seq<Upload>): seq<string>
    decreases |uploads|
  {
    if uploads == [] then []
    else
      var last := uploads[|uploads| - 1];
      TextBlocks(uploads[..|uploads| - 1]) + (if last.kind == TextKind then [TextBlock(last)] else [])
  }

  /** The uploads pushed into `fileUploads`: every non-text upload, in order. */
  function FileUploads(uploads: seq<Upload>): seq<Upload>
    decreases |uploads|
  {
    if uploads == [] then []
    else
      var last := uploads[|uploads| - 1];
      FileUploads(uploads[..|uploads| - 1]) + (if last.kind != TextKind then [last] else [])
  }

  /** `parts.join('')` */
  function Join(parts: seq<string>): string
    decreases |parts|
  {
    if parts == [] then "" else Join(parts[..|parts| - 1]) + parts[|parts| - 1]
  }

  /** The question sent for a message and the uploads of the ready attachments. */
  function QuestionText(message: string, uploads: seq<Upload>): string
  {
    message + Join(TextBlocks(uploads))
  }

  /**
   * The body construction of fetchAIResponse: the forEach that separates text
   * content from file uploads, then the two conditional updates of the body.
   */
  method BuildRequestBody(message: string, sessionId: string, attachments: seq<Attachment>, convert: Attachment -> Converted)
    returns (body: RequestBody)
    ensures body.sessionId == sessionId
    ensures message <= body.question
    ensures body.question == QuestionText(message, ReadyUploads(attachments, convert))
    ensures body.uploads == (var files := FileUploads(ReadyUploads(attachments, convert));
                             if files == [] then None else Some(files))
    ensures body.uploads.Some? ==> forall u :: u in body.uploads.value ==> u.kind != TextKind
  {
    body := RequestBody(message, sessionId, None);
    var uploads := ReadyUploads(attachments, convert);
    var textContent: seq<string> := [];
    var fileUploads: seq<Upload> := [];
    var i := 0;
    while i < |uploads|
      invariant 0 <= i <= |uploads|
      invariant textContent == TextBlocks(uploads[..i])
      invariant fileUploads == FileUploads(uploads[..i])
      invariant forall u :: u in fileUploads ==> u.kind != TextKind
    {
      var upload := uploads[i];
      assert uploads[..i + 1][..i] == uploads[..i];
      if upload.kind == TextKind {
        textContent := textContent + [TextBlock(upload)];
      } else {
        fileUploads := fileUploads + [upload];
      }
      i := i + 1;
    }
    assert uploads[..i] == uploads;
    if |textContent| > 0 {
      body := body.(question := message + Join(textContent));
    }
    if |fileUploads| > 0 {
      body := body.(uploads := Some(fileUploads));
    }
  }

  lemma {:induction false} TextBlocksAppend(xs: seq<Upload>, ys: seq<Upload>)
    ensures TextBlocks(xs + ys) == TextBlocks(xs) + TextBlocks(ys)
    decreases |ys|
  {
    if ys == [] {
      assert xs + ys == xs;
    } else {
      var ys' := ys[..|ys| - 1];
      assert (xs + ys)[..|xs + ys| - 1] == xs + ys';
      TextBlocksAppend(xs, ys');
    }
  }

  lemma {:induction false} JoinAppend(xs: seq<string>, ys: seq<string>)
    ensures Join(xs + ys) == Join(xs) + Join(ys)
    decreases |ys|
  {
    if ys == [] {
      assert xs + ys == xs;
    } else {
      var ys' := ys[..|ys| - 1];
      var last := ys[|ys| - 1];
      assert (xs + ys)[..|xs + ys| - 1] == xs + ys';
      assert (xs + ys)[|xs + ys| - 1] == last;
      assert Join(xs + ys) == Join(xs + ys') + last;
      JoinAppend(xs, ys');
      assert Join(ys) == Join(ys') + last;
    }
  }

  /** Each text upload, taken in order, appends its own labelled block to the question. */
  lemma TextUploadAppendsBlock(message: string, uploads: seq<Upload>, u: Upload)
    ensures QuestionText(message, uploads + [u]) ==
            QuestionText(message, uploads) + (if u.kind == TextKind then TextBlock(u) else "")
  {
    TextBlocksAppend(uploads, [u]);
    JoinAppend(TextBlocks(uploads), TextBlocks([u]));
    assert [u][..0] == [];
  }

  /** There are no text blocks exactly when there is no text upload. */
  lemma {:induction false} TextBlocksEmptyIff(uploads: seq<Upload>)
    ensures TextBlocks(uploads) == [] <==> forall u :: u in uploads ==> u.kind != TextKind
    decreases |uploads|
  {
    if uploads != [] {
      var init := uploads[..|uploads| - 1];
      TextBlocksEmptyIff(init);
      assert uploads == init + [uploads[|uploads| - 1]];
    }
  }

  lemma {:induction false} JoinOfBlocksEmpty(uploads: seq<Upload>)
    ensures Join(TextBlocks(uploads)) == "" <==> TextBlocks(uploads) == []
    decreases |uploads|
  {
    if uploads != [] {
      var init := uploads[..|uploads| - 1];
      JoinOfBlocksEmpty(init);
      var blocks := TextBlocks(uploads);
      var last := uploads[|uploads| - 1];
      if last.kind == TextKind {
        assert blocks[..|blocks| - 1] == TextBlocks(init);
        assert Join(blocks) == Join(TextBlocks(init)) + TextBlock(last);
        assert |TextBlock(last)| > 0;
      } else {
        assert blocks == TextBlocks(init);
      }
    }
  }

  /** The question equals the message exactly when no ready attachment produced text. */
  lemma QuestionUnchangedIff(message: string, uploads: seq<Upload>)
    ensures QuestionText(message, uploads) == message <==> forall u :: u in uploads ==> u.kind != TextKind
  {
    TextBlocksEmptyIff(uploads);
    JoinOfBlocksEmpty(uploads);
    var q := QuestionText(message, uploads);
    assert q == message ==> |Join(TextBlocks(uploads))| == 0;
  }

  /** The file uploads are exactly the non-text uploads. */
  lemma {:induction false} FileUploadsMembership(uploads: seq<Upload>, u: Upload)
    ensures u in FileUploads(uploads) <==> u in uploads && u.kind != TextKind
    decreases |uploads|
  {
    if uploads != [] {
      var init := uploads[..|uploads| - 1];
      FileUploadsMembership(init, u);
      assert uploads == init + [uploads[|uploads| - 1]];
    }
  }

  /** `uploads` is omitted exactly when every upload is text. */
  lemma FileUploadsEmptyIff(uploads: seq<Upload>)
    ensures FileUploads(uploads) == [] <==> forall u :: u in uploads ==> u.kind == TextKind
  {
  }

  /** A typed message plus one extracted text upload: the text is appended under its file name and nothing is sent as a file. */
  lemma SingleTextUpload(message: string, name: string, text: string, mime: Option<string>)
    ensures QuestionText(message, [Upload(TextKind, Some(name), text, mime)])
            == message + "\n\n--- Content from " + name + " ---\n" + text
    ensures FileUploads([Upload(TextKind, Some(name), text, mime)]) == []
  {
    var u := Upload(TextKind, Some(name), text, mime);
    assert [] + [u] == [u];
    TextUploadAppendsBlock(message, [], u);
    assert QuestionText(message, []) == message;
    var header := "\n\n--- Content from ";
    var tail := " ---\n";
    assert TextBlock(u) == header + name + tail + text;
    assert message + (header + name + tail + text) == message + header + name + tail + text;
    assert [u][..0] == [];
  }

  // ---------------------------------------------------------------------------
  // Response and error classification in fetchAIResponse
  // ---------------------------------------------------------------------------

  /** `response.json()`: the two fields read from it, or the error reading it threw. */
  datatype JsonBody = Parsed(text: Option<string>, sessionId: Option<string>) | Unreadable(err: Thrown)

  /** The response: status, status text, the body as text (read when not OK) and as JSON (read when OK). */
  datatype HttpResponse = HttpResponse(status: nat, statusText: string, bodyText: string, json: JsonBody)

  datatype FetchOutcome = Responded(response: HttpResponse) | FetchThrew(err: Thrown)

  /** `{ text, sessionId }` on success; the message of the error thrown to the caller otherwise. */
  datatype AiResult = Answer(text: string, sessionId: Option<string>) | Failure(message: string)

  // The fixed messages are written as short pieces so that the proofs below can
  // see, piece by piece, which characters they contain.
  const BadGatewayMessage: string :=
    "The AI service is " + "temporarily unavailable " + "(502 Bad Gateway). " + "This usually means " +
    "the server is down " + "for maintenance or " + "experiencing high load. " + "Please try again " + "in a few minutes."
  const ServiceUnavailableMessage: string :=
    "The AI service is " + "temporarily unavailable " + "(503 Service Unavailable). " + "Please try again " + "in a few minutes."
  const GatewayTimeoutMessage: string :=
    "The AI service is " + "taking too long " + "to respond " + "(504 Gateway Timeout). " + "Please try again."
  const InvalidResponseMessage: string :=
    "Invalid response " + "from Flowise API - " + "no text field found"
  const NetworkErrorMessage: string :=
    "Network error: " + "Unable to connect " + "to the AI service. " + "This might be due " + "to network connectivity " +
    "issues or server " + "configuration. " + "Please try again " + "or contact support " + "if the problem persists."
  const ConnectionErrorMessage: string :=
    "Connection error: " + "Could not reach " + "the AI service. " + "Please check your " + "internet connection " + "and try again."
  const UnknownFailureMessage: string := "Failed to get AI response"

  function ServerErrorMessage(status: nat): string
  {
    "The AI service is " + "experiencing technical " + "difficulties (" + NatToString(status) + "). " + "Please try again later."
  }

  function RequestFailedMessage(status: nat, statusText: string, body: string): string
  {
    "API request failed: " + NatToString(status) + " " + statusText + ". Response: " + body
  }

  /** `response.ok` */
  predicate IsOk(status: nat) { 200 <= status <= 299 }

  /** The message thrown for a response that is not OK. */
  function StatusFailureMessage(r: HttpResponse): (m: string)
    ensures r.status >= 500 ==> Unmatched(m)
    ensures r.status < 500 ==> Contains(m, NatToString(r.status)) && Contains(m, r.bodyText)
  {
    if r.status == 502 then BadGatewayUnmatched(); BadGatewayMessage
    else if r.status == 503 then ServiceUnavailableUnmatched(); ServiceUnavailableMessage
    else if r.status == 504 then GatewayTimeoutUnmatched(); GatewayTimeoutMessage
    else if r.status >= 500 then ServerErrorUnmatched(r.status); ServerErrorMessage(r.status)
    else RequestFailedMentions(r.status, r.statusText, r.bodyText); RequestFailedMessage(r.status, r.statusText, r.bodyText)
  }

  predicate LooksLikeCors(m: string)
  {
    Contains(m, "Failed to fetch") || Contains(m, "CORS") || Contains(m, "Access-Control-Allow-Origin")
  }

  predicate LooksLikeNetwork(m: string)
  {
    Contains(m, "NetworkError") || Contains(m, "TypeError")
  }

  /** The catch block: what the caller finally receives for a thrown value. */
  function CaughtMessage(e: Thrown): (m: string)
    ensures e.OtherThrown? ==> m == UnknownFailureMessage
    ensures e.ErrorThrown? ==> m in {NetworkErrorMessage, ConnectionErrorMessage, e.message}
    ensures e.ErrorThrown? && Unmatched(e.message) ==> m == e.message
  {
    match e
    case OtherThrown(_) => UnknownFailureMessage
    case ErrorThrown(m) =>
      if LooksLikeCors(m) then NetworkErrorMessage
      else if LooksLikeNetwork(m) then ConnectionErrorMessage
      else m
  }

  /** Everything after `fetch` settles; every error raised inside the try passes through the catch block. */
  function ResultOf(outcome: FetchOutcome): (res: AiResult)
    ensures res.Answer? <==>
              outcome.Responded? && IsOk(outcome.response.status) &&
              outcome.response.json.Parsed? && Present(outcome.response.json.text)
    ensures res.Answer? ==>
              res == Answer(outcome.response.json.text.value, outcome.response.json.sessionId)
  {
    match outcome
    case FetchThrew(e) => Failure(CaughtMessage(e))
    case Responded(r) =>
      if !IsOk(r.status) then Failure(CaughtMessage(ErrorThrown(StatusFailureMessage(r))))
      else
        match r.json
        case Unreadable(e) => Failure(CaughtMessage(e))
        case Parsed(text, sid) =>
          if !Present(text) then Failure(CaughtMessage(ErrorThrown(InvalidResponseMessage)))
          else Answer(text.value, sid)
  }

  /** fetchAIResponse: build the body, hand it to the transport, classify what comes back. */
  method FetchAIResponse(message: string, sessionId: string, attachments: seq<Attachment>,
                         convert: Attachment -> Converted, send: RequestBody -> FetchOutcome)
    returns (body: RequestBody, result: AiResult)
    ensures body.sessionId == sessionId
    ensures body.question == QuestionText(message, ReadyUploads(attachments, convert))
    ensures body.uploads == (var files := FileUploads(ReadyUploads(attachments, convert));
                             if files == [] then None else Some(files))
    ensures result == ResultOf(send(body))
  {
    body := BuildRequestBody(message, sessionId, attachments, convert);
    var outcome := send(body);
    result := ResultOf(outcome);
  }

  /** A message free of 'O', 'E' and `f` (one of 'F' and 'h') matches none of the catch block's patterns. */
  predicate Plain(m: string, f: char)
  {
    'O' !in m && 'E' !in m && f !in m
  }

  /** A message the catch block passes through unchanged. */
  predicate Unmatched(m: string)
  {
    !LooksLikeCors(m) && !LooksLikeNetwork(m)
  }

  /** `Plain`, stated index by index: the form the verifier checks cheaply on a literal. */
  predicate PlainAt(m: string, f: char)
  {
    forall i | 0 <= i < |m| :: m[i] != 'O' && m[i] != 'E' && m[i] != f
  }

  lemma PlainFromIndices(m: string, f: char)
    requires PlainAt(m, f)
    ensures Plain(m, f)
  {
  }

  lemma NoPatternWithout(m: string)
    requires Plain(m, 'F') || Plain(m, 'h')
    ensures Unmatched(m)
  {
    var fetch := "Failed to fetch";
    if 'F' !in m {
      MissingCharMeansAbsent(m, fetch, 0);
    } else {
      assert fetch[14] == 'h';
      MissingCharMeansAbsent(m, fetch, 14);
    }
    MissingCharMeansAbsent(m, "CORS", 1);
    MissingCharMeansAbsent(m, "Access-Control-Allow-Origin", 21);
    MissingCharMeansAbsent(m, "NetworkError", 7);
    MissingCharMeansAbsent(m, "TypeError", 4);
  }

  // None of the adapter's own messages matches a pattern of the catch block. The
  // fixed messages are shown free of the letters above one piece at a time.

  lemma Piece01() ensures Plain("The AI service is ", 'F') { PlainFromIndices("The AI service is ", 'F'); }
  lemma Piece02() ensures Plain("temporarily unavailable ", 'F') { PlainFromIndices("temporarily unavailable ", 'F'); }
  lemma Piece03() ensures Plain("(502 Bad Gateway). ", 'F') { PlainFromIndices("(502 Bad Gateway). ", 'F'); }
  lemma Piece04() ensures Plain("This usually means ", 'F') { PlainFromIndices("This usually means ", 'F'); }
  lemma Piece05() ensures Plain("the server is down ", 'F') { PlainFromIndices("the server is down ", 'F'); }
  lemma Piece06() ensures Plain("for maintenance or ", 'F') { PlainFromIndices("for maintenance or ", 'F'); }
  lemma Piece07() ensures Plain("experiencing high load. ", 'F') { PlainFromIndices("experiencing high load. ", 'F'); }
  lemma Piece08() ensures Plain("Please try again ", 'F') { PlainFromIndices("Please try again ", 'F'); }
  lemma Piece09() ensures Plain("in a few minutes.", 'F') { PlainFromIndices("in a few minutes.", 'F'); }
  lemma Piece10() ensures Plain("(503 Service Unavailable). ", 'F') { PlainFromIndices("(503 Service Unavailable). ", 'F'); }
  lemma Piece11() ensures Plain("taking too long ", 'F') { PlainFromIndices("taking too long ", 'F'); }
  lemma Piece12() ensures Plain("to respond ", 'F') { PlainFromIndices("to respond ", 'F'); }
  lemma Piece13() ensures Plain("(504 Gateway Timeout). ", 'F') { PlainFromIndices("(504 Gateway Timeout). ", 'F'); }
  lemma Piece14() ensures Plain("Please try again.", 'F') { PlainFromIndices("Please try again.", 'F'); }
  lemma Piece15() ensures Plain("Invalid response ", 'h') { PlainFromIndices("Invalid response ", 'h'); }
  lemma Piece16() ensures Plain("from Flowise API - ", 'h') { PlainFromIndices("from Flowise API - ", 'h'); }
  lemma Piece17() ensures Plain("no text field found", 'h') { PlainFromIndices("no text field found", 'h'); }
  lemma Piece18() ensures Plain("Network error: ", 'F') { PlainFromIndices("Network error: ", 'F'); }
  lemma Piece19() ensures Plain("Unable to connect ", 'F') { PlainFromIndices("Unable to connect ", 'F'); }
  lemma Piece20() ensures Plain("to the AI service. ", 'F') { PlainFromIndices("to the AI service. ", 'F'); }
  lemma Piece21() ensures Plain("This might be due ", 'F') { PlainFromIndices("This might be due ", 'F'); }
  lemma Piece22() ensures Plain("to network connectivity ", 'F') { PlainFromIndices("to network connectivity ", 'F'); }
  lemma Piece23() ensures Plain("issues or server ", 'F') { PlainFromIndices("issues or server ", 'F'); }
  lemma Piece24() ensures Plain("configuration. ", 'F') { PlainFromIndices("configuration. ", 'F'); }
  lemma Piece25() ensures Plain("or contact support ", 'F') { PlainFromIndices("or contact support ", 'F'); }
  lemma Piece26() ensures Plain("if the problem persists.", 'F') { PlainFromIndices("if the problem persists.", 'F'); }
  lemma Piece27() ensures Plain("Connection error: ", 'F') { PlainFromIndices("Connection error: ", 'F'); }
  lemma Piece28() ensures Plain("Could not reach ", 'F') { PlainFromIndices("Could not reach ", 'F'); }
  lemma Piece29() ensures Plain("the AI service. ", 'F') { PlainFromIndices("the AI service. ", 'F'); }
  lemma Piece30() ensures Plain("Please check your ", 'F') { PlainFromIndices("Please check your ", 'F'); }
  lemma Piece31() ensures Plain("internet connection ", 'F') { PlainFromIndices("internet connection ", 'F'); }
  lemma Piece32() ensures Plain("and try again.", 'F') { PlainFromIndices("and try again.", 'F'); }
  lemma Piece33() ensures Plain("experiencing technical ", 'F') { PlainFromIndices("experiencing technical ", 'F'); }
  lemma Piece34() ensures Plain("difficulties (", 'F') { PlainFromIndices("difficulties (", 'F'); }
  lemma Piece35() ensures Plain("). ", 'F') { PlainFromIndices("). ", 'F'); }
  lemma Piece36() ensures Plain("Please try again later.", 'F') { PlainFromIndices("Please try again later.", 'F'); }

  lemma BadGatewayUnmatched()
    ensures Unmatched(BadGatewayMessage)
  {
    Piece01(); Piece02(); Piece03(); Piece04(); Piece05(); Piece06(); Piece07(); Piece08(); Piece09();
    NoPatternWithout(BadGatewayMessage);
  }

  lemma ServiceUnavailableUnmatched()
    ensures Unmatched(ServiceUnavailableMessage)
  {
    Piece01(); Piece02(); Piece10(); Piece08(); Piece09();
    NoPatternWithout(ServiceUnavailableMessage);
  }

  lemma GatewayTimeoutUnmatched()
    ensures Unmatched(GatewayTimeoutMessage)
  {
    Piece01(); Piece11(); Piece12(); Piece13(); Piece14();
    NoPatternWithout(GatewayTimeoutMessage);
  }

  lemma InvalidResponseUnmatched()
    ensures Unmatched(InvalidResponseMessage)
  {
    Piece15(); Piece16(); Piece17();
    NoPatternWithout(InvalidResponseMessage);
  }

  lemma NetworkErrorUnmatched()
    ensures Unmatched(NetworkErrorMessage)
  {
    Piece18(); Piece19(); Piece20(); Piece21(); Piece22(); Piece23(); Piece24(); Piece08(); Piece25(); Piece26();
    NoPatternWithout(NetworkErrorMessage);
  }

  lemma ConnectionErrorUnmatched()
    ensures Unmatched(ConnectionErrorMessage)
  {
    Piece27(); Piece28(); Piece29(); Piece30(); Piece31(); Piece32();
    NoPatternWithout(ConnectionErrorMessage);
  }

  lemma ServerErrorUnmatched(status: nat)
    ensures Unmatched(ServerErrorMessage(status))
  {
    Piece01(); Piece33(); Piece34(); Piece35(); Piece36();
    assert Plain(NatToString(status), 'F');
    NoPatternWithout(ServerErrorMessage(status));
  }

  lemma UnknownFailureUnmatched()
    ensures Unmatched(UnknownFailureMessage)
  {
    PlainFromIndices(UnknownFailureMessage, 'h');
    NoPatternWithout(UnknownFailureMessage);
  }

  /** 502, 503 and 504 each surface their own message; any other status of 500 or more a generic server error. */
  lemma ServerStatusMessages(r: HttpResponse)
    requires r.status >= 500
    ensures r.status == 502 ==> ResultOf(Responded(r)) == Failure(BadGatewayMessage)
    ensures r.status == 503 ==> ResultOf(Responded(r)) == Failure(ServiceUnavailableMessage)
    ensures r.status == 504 ==> ResultOf(Responded(r)) == Failure(GatewayTimeoutMessage)
    ensures r.status !in {502, 503, 504} ==> ResultOf(Responded(r)) == Failure(ServerErrorMessage(r.status))
  {
    if r.status == 502 {
      BadGatewayUnmatched();
    } else if r.status == 503 {
      ServiceUnavailableUnmatched();
    } else if r.status == 504 {
      GatewayTimeoutUnmatched();
    } else {
      ServerErrorUnmatched(r.status);
    }
  }

  /** The failure message for a status below 500 names the status and carries the whole response body. */
  lemma RequestFailedMentions(status: nat, statusText: string, body: string)
    ensures Contains(RequestFailedMessage(status, statusText, body), NatToString(status))
    ensures Contains(RequestFailedMessage(status, statusText, body), body)
  {
    var digits := NatToString(status);
    var front := "API request failed: ";
    var middle := " " + statusText + ". Response: ";
    var m := RequestFailedMessage(status, statusText, body);
    assert m == front + (digits + (middle + body));
    assert digits <= digits + (middle + body);
    ContainsInSuffix(front, digits + (middle + body), digits);
    assert m == (front + digits + middle) + body;
    assert body <= body;
    ContainsInSuffix(front + digits + middle, body, body);
  }

  /**
   * Below 500 the failure names the status and carries the response body,
   * unless the status text or the body itself matches one of the catch
   * block's patterns.
   */
  lemma ClientStatusMessage(r: HttpResponse)
    requires !IsOk(r.status) && r.status < 500
    requires Unmatched(RequestFailedMessage(r.status, r.statusText, r.bodyText))
    ensures ResultOf(Responded(r)) == Failure(RequestFailedMessage(r.status, r.statusText, r.bodyText))
    ensures Contains(ResultOf(Responded(r)).message, NatToString(r.status))
    ensures Contains(ResultOf(Responded(r)).message, r.bodyText)
  {
    var m := RequestFailedMessage(r.status, r.statusText, r.bodyText);
    assert StatusFailureMessage(r) == m;
    assert CaughtMessage(ErrorThrown(m)) == m;
  }

  /** Because the catch block also sees errors thrown inside the try, a body mentioning CORS turns a 4xx failure into the network error. */
  lemma CorsInBodyBecomesNetworkError(r: HttpResponse)
    requires !IsOk(r.status) && r.status < 500
    requires Contains(r.bodyText, "CORS")
    ensures ResultOf(Responded(r)) == Failure(NetworkErrorMessage)
  {
    var m := RequestFailedMessage(r.status, r.statusText, r.bodyText);
    var front := "API request failed: " + NatToString(r.status) + " " + r.statusText + ". Response: ";
    assert m == front + r.bodyText;
    ContainsInSuffix(front, r.bodyText, "CORS");
  }

  /** An OK response succeeds exactly when it carries a non-empty `text`; the result is then taken from the body. */
  lemma OkResponseResult(r: HttpResponse, text: Option<string>, sid: Option<string>)
    requires IsOk(r.status) && r.json == Parsed(text, sid)
    ensures Present(text) ==> ResultOf(Responded(r)) == Answer(text.value, sid)
    ensures !Present(text) ==> ResultOf(Responded(r)) == Failure(InvalidResponseMessage)
  {
    InvalidResponseUnmatched();
  }

  /** The mapping in the catch block: CORS-like messages, then network-like ones, else rethrown; non-Errors get a fixed message. */
  lemma CatchBlockMapping(m: string, other: Option<string>)
    ensures LooksLikeCors(m) ==> CaughtMessage(ErrorThrown(m)) == NetworkErrorMessage
    ensures !LooksLikeCors(m) && LooksLikeNetwork(m) ==> CaughtMessage(ErrorThrown(m)) == ConnectionErrorMessage
    ensures !LooksLikeCors(m) && !LooksLikeNetwork(m) ==> CaughtMessage(ErrorThrown(m)) == m
    ensures CaughtMessage(OtherThrown(other)) == UnknownFailureMessage
  {
  }

  /** Re-catching what the catch block produced changes nothing: its own messages match none of its patterns. */
  lemma CatchBlockIdempotent(e: Thrown)
    ensures CaughtMessage(ErrorThrown(CaughtMessage(e))) == CaughtMessage(e)
  {
    match e
    case OtherThrown(_) =>
      UnknownFailureUnmatched();
    case ErrorThrown(m) =>
      if LooksLikeCors(m) {
        NetworkErrorUnmatched();
      } else if LooksLikeNetwork(m) {
        ConnectionErrorUnmatched();
      }
  }

  /** Chromium's transport failure ("Failed to fetch") reaches the caller as the network error. */
  lemma ChromiumTransportFailure()
    ensures ResultOf(FetchThrew(ErrorThrown("Failed to fetch"))) == Failure(NetworkErrorMessage)
  {
  }

  // ---------------------------------------------------------------------------
  // getAttachmentMetadata
  // ---------------------------------------------------------------------------

  datatype AttachmentMetadata = AttachmentMetadata(
    name: string, mime: string, size: nat, uploadType: UploadType, status: Status, hasError: bool)

  function AttachmentMetadataOf(attachments: seq<Attachment>): (r: seq<AttachmentMetadata>)
    ensures |r| == |attachments|
    ensures forall i :: 0 <= i < |r| ==>
              r[i].name == attachments[i].file.name && r[i].mime == attachments[i].file.mime &&
              r[i].size == attachments[i].file.size && r[i].uploadType == attachments[i].uploadType &&
              r[i].status == attachments[i].status &&
              (r[i].hasError <==> attachments[i].error.Some? && attachments[i].error.value != "")
  {
    seq(|attachments|, i requires 0 <= i < |attachments| =>
      var a := attachments[i];
      AttachmentMetadata(a.file.name, a.file.mime, a.file.size, a.uploadType, a.status, Present(a.error)))
  }
}
