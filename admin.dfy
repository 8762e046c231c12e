/**
 * The admin dashboard's question list (src/pages/Admin.tsx): the status
 * filter and search, the counters, and the handlers that change the list
 * (mark answered, send a response, delete) or the set of expanded cards.
 * Every database or webhook call is an outcome handed in by the caller; the
 * board records the requests it makes. The question record's declaring file
 * (src/types/admin.ts) is not part of this model: the fields below are the
 * ones the dashboard reads or writes.
 */
module Admin {
  import opened Common

  /** A row of `doctor_questions`. Timestamps are ISO strings. */
  datatype Question = Question(
    id: string,
    name: string,
    email: string,
    phone: Option<string>,
    question: string,
    ai_response: Option<string>,
    response: Option<string>,
    answered: bool,
    answered_at: Option<string>,
    response_sent: bool,
    response_sent_at: Option<string>)

  // ---------------------------------------------------------------------------
  // filteredQuestions and the counters
  // ---------------------------------------------------------------------------

  /** The filter buttons: 'all' | 'pending' | 'answered'. */
  datatype QuestionFilter = AllQuestions | PendingOnly | AnsweredOnly

  predicate MatchesFilter(q: Question, filter: QuestionFilter)
  {
    filter == AllQuestions || (filter == PendingOnly && !q.answered) || (filter == AnsweredOnly && q.answered)
  }

  /** An empty query matches everything; otherwise it must occur, ignoring case, in the name, the email or the question. */
  predicate MatchesSearch(q: Question, query: string)
  {
    var needle := ToLower(query);
    query == "" || Contains(ToLower(q.name), needle) || Contains(ToLower(q.email), needle) ||
    Contains(ToLower(q.question), needle)
  }

  predicate Shown(q: Question, filter: QuestionFilter, query: string)
  {
    MatchesFilter(q, filter) && MatchesSearch(q, query)
  }

  function FilteredQuestions(questions: seq<Question>, filter: QuestionFilter, query: string): (r: seq<Question>)
    ensures forall i | 0 <= i < |r| :: r[i] in questions && Shown(r[i], filter, query)
    ensures forall i | 0 <= i < |questions| :: Shown(questions[i], filter, query) ==> questions[i] in r
  {
    Filter(questions, (q: Question) => Shown(q, filter, query))
  }

  /** The shown questions keep the order of the full list. */
  lemma FilteredInOrder(questions: seq<Question>, filter: QuestionFilter, query: string)
    ensures IsSubsequence(FilteredQuestions(questions, filter, query), questions)
  {
    FilterIsSubsequence(questions, (q: Question) => Shown(q, filter, query));
  }

  /** 'all' with an empty search shows the whole list. */
  lemma NoFilterShowsAll(questions: seq<Question>)
    ensures FilteredQuestions(questions, AllQuestions, "") == questions
  {
    FilterKeepsAll(questions, (q: Question) => Shown(q, AllQuestions, ""));
  }

  /** Status filter and search combine by AND: applying them one after the other gives the same list. */
  lemma FilterThenSearch(questions: seq<Question>, filter: QuestionFilter, query: string)
    ensures Filter(Filter(questions, (q: Question) => MatchesFilter(q, filter)), (q: Question) => MatchesSearch(q, query))
            == FilteredQuestions(questions, filter, query)
  {
    FilterTwice(questions, (q: Question) => MatchesFilter(q, filter), (q: Question) => MatchesSearch(q, query),
                (q: Question) => Shown(q, filter, query));
  }

  /** The search ignores the case of the query. */
  lemma SearchIgnoresQueryCase(q: Question, query: string)
    ensures MatchesSearch(q, ToLower(query)) == MatchesSearch(q, query)
  {
    ToLowerIdempotent(query);
  }

  /** A piece of the name, the email or the question, typed in any case, finds the question. */
  lemma SearchFindsPart(q: Question, part: string)
    requires Contains(q.name, part) || Contains(q.email, part) || Contains(q.question, part)
    ensures MatchesSearch(q, part)
  {
    if Contains(q.name, part) {
      ContainsLowered(q.name, part);
    } else if Contains(q.email, part) {
      ContainsLowered(q.email, part);
    } else {
      ContainsLowered(q.question, part);
    }
  }

  /** 'pending' shows exactly the unanswered questions and 'answered' exactly the answered ones. */
  lemma StatusFilters(questions: seq<Question>, q: Question)
    requires q in questions
    ensures q in FilteredQuestions(questions, PendingOnly, "") <==> !q.answered
    ensures q in FilteredQuestions(questions, AnsweredOnly, "") <==> q.answered
  {
  }

  function PendingCount(questions: seq<Question>): nat
  {
    |Filter(questions, (q: Question) => !q.answered)|
  }

  function AnsweredCount(questions: seq<Question>): nat
  {
    |Filter(questions, (q: Question) => q.answered)|
  }

  lemma CountsAddUp(questions: seq<Question>)
    ensures PendingCount(questions) + AnsweredCount(questions) == |questions|
  {
    FilterSplit(questions, (q: Question) => !q.answered, (q: Question) => q.answered);
  }

  // ---------------------------------------------------------------------------
  // The local list updates
  // ---------------------------------------------------------------------------

  /** toggleAnswered's update: the question with that id gets the new flag, and a time exactly when it is now answered. */
  function MarkAnswered(questions: seq<Question>, id: string, answered: bool, now: string): (r: seq<Question>)
    ensures |r| == |questions|
    ensures forall i | 0 <= i < |questions| ::
              r[i] == (if questions[i].id == id
                       then questions[i].(answered := answered, answered_at := if answered then Some(now) else None)
                       else questions[i])
  {
    seq(|questions|, i requires 0 <= i < |questions| =>
      if questions[i].id == id
      then questions[i].(answered := answered, answered_at := if answered then Some(now) else None)
      else questions[i])
  }

  /** After marking, a question with that id has no answer time exactly when it is not answered. */
  lemma MarkedTimeMatchesFlag(questions: seq<Question>, id: string, answered: bool, now: string, i: nat)
    requires i < |questions| && questions[i].id == id
    ensures MarkAnswered(questions, id, answered, now)[i].answered == answered
    ensures MarkAnswered(questions, id, answered, now)[i].answered_at.None? <==> !answered
  {
  }

  /** Marking a question answered takes it off the pending list and keeps the total. */
  lemma MarkedLeavesPending(questions: seq<Question>, id: string, now: string)
    ensures forall q | q in FilteredQuestions(MarkAnswered(questions, id, true, now), PendingOnly, "") :: q.id != id
    ensures |MarkAnswered(questions, id, true, now)| == |questions|
  {
  }

  /** handleSendResponse's update of the target question. */
  function RecordResponse(questions: seq<Question>, id: string, response: string, answeredAt: string, sentAt: string): (r: seq<Question>)
    ensures |r| == |questions|
    ensures forall i | 0 <= i < |questions| ::
              r[i] == (if questions[i].id == id
                       then questions[i].(response := Some(response), answered := true, answered_at := Some(answeredAt),
                                          response_sent := true, response_sent_at := Some(sentAt))
                       else questions[i])
  {
    seq(|questions|, i requires 0 <= i < |questions| =>
      if questions[i].id == id
      then questions[i].(response := Some(response), answered := true, answered_at := Some(answeredAt),
                         response_sent := true, response_sent_at := Some(sentAt))
      else questions[i])
  }

  /** A sent response leaves the target answered, with its response, and in the answered list. */
  lemma RespondedIsAnswered(questions: seq<Question>, id: string, response: string, answeredAt: string, sentAt: string, i: nat)
    requires i < |questions| && questions[i].id == id
    ensures var q := RecordResponse(questions, id, response, answeredAt, sentAt)[i];
            q.answered && q.response_sent && q.response == Some(response) &&
            q in FilteredQuestions(RecordResponse(questions, id, response, answeredAt, sentAt), AnsweredOnly, "")
  {
  }

  /** handleDeleteQuestion's update: the questions with other ids, in order. */
  function WithoutQuestion(questions: seq<Question>, id: string): (r: seq<Question>)
    ensures forall i | 0 <= i < |r| :: r[i] in questions && r[i].id != id
    ensures forall i | 0 <= i < |questions| :: questions[i].id != id ==> questions[i] in r
  {
    Filter(questions, (q: Question) => q.id != id)
  }

  lemma WithoutQuestionInOrder(questions: seq<Question>, id: string)
    ensures IsSubsequence(WithoutQuestion(questions, id), questions)
  {
    FilterIsSubsequence(questions, (q: Question) => q.id != id);
  }

  /** toggleExpanded's update of the set of open cards. */
  function ToggledSet(s: set<string>, id: string): (r: set<string>)
    ensures id in r <==> id !in s
    ensures forall other | other != id :: other in r <==> other in s
  {
    if id in s then s - {id} else s + {id}
  }

  lemma ToggleTwice(s: set<string>, id: string)
    ensures ToggledSet(ToggledSet(s, id), id) == s
  {
  }

  // ---------------------------------------------------------------------------
  // The dashboard's state and handlers
  // ---------------------------------------------------------------------------

  /** How the webhook request ended: a response with some status, or a thrown error. */
  datatype WebhookOutcome = Delivered(status: nat) | WebhookThrew

  /** The fields sent to the email webhook besides the rendered email body. */
  datatype WebhookPayload = WebhookPayload(name: string, email: string, phone: Option<string>, question: string, ai_response: Option<string>)

  /** The database writes the dashboard makes. */
  datatype DbWrite =
    | SetAnswered(id: string, answered: bool, answeredTime: Option<string>)
    | SaveResponse(id: string, response: string, answered_at: string, response_sent_at: string)
    | DeleteQuestionRow(id: string)

  /** The two `new Date().toISOString()` readings of one object literal: the answer time, then the sent time. */
  datatype Stamps = Stamps(answeredAt: string, sentAt: string)

  const SendFailed: string := "Failed to send response. Please try again."
  const DeleteFailed: string := "Failed to delete question. Please try again."

  class QuestionBoard {
    var questions: seq<Question>
    var error: Option<string>
    var expanded: set<string>
    var deletingId: Option<string>
    var webhookCalls: seq<WebhookPayload>
    var writes: seq<DbWrite>

    constructor (questions: seq<Question>)
      ensures this.questions == questions && error == None && expanded == {} && deletingId == None
      ensures webhookCalls == [] && writes == []
    {
      this.questions := questions;
      error, expanded, deletingId := None, {}, None;
      webhookCalls, writes := [], [];
    }

    /** toggleExpanded: open or close one card. */
    method ToggleExpanded(id: string)
      modifies this
      ensures expanded == ToggledSet(old(expanded), id)
      ensures questions == old(questions) && error == old(error) && deletingId == old(deletingId)
      ensures webhookCalls == old(webhookCalls) && writes == old(writes)
    {
      expanded := ToggledSet(expanded, id);
    }

    /**
     * toggleAnswered: the new flag is the negation of the `currentStatus`
     * argument. On success the list is updated locally; on failure only the
     * error changes, to the failure's own message. The update and the local
     * copy each read the clock: `writeNow` and `localNow` are those readings.
     */
    method ToggleAnswered(id: string, currentStatus: bool, db: Outcome, writeNow: string, localNow: string)
      modifies this
      ensures writes == old(writes) + [SetAnswered(id, !currentStatus, if !currentStatus then Some(writeNow) else None)]
      ensures webhookCalls == old(webhookCalls) && expanded == old(expanded) && deletingId == old(deletingId)
      ensures db.Done? ==> questions == MarkAnswered(old(questions), id, !currentStatus, localNow) && error == old(error)
      ensures db.Failed? ==> questions == old(questions) && error == Some(db.reason)
    {
      writes := writes + [SetAnswered(id, !currentStatus, if !currentStatus then Some(writeNow) else None)];
      if db.Failed? {
        error := Some(db.reason);
      } else {
        questions := MarkAnswered(questions, id, !currentStatus, localNow);
      }
    }

    /**
     * handleSendResponse: look the question up, post it to the webhook, then
     * save the response. An unknown id, a webhook call that throws or a failed
     * save each leave the list as it was and set the same message. A webhook
     * that answers with an error status does not stop the save. The saved
     * row and the local copy read the clock twice each: `saved` and `local`
     * hold those readings.
     */
    method SendResponse(id: string, response: string, webhook: WebhookOutcome, db: Outcome, saved: Stamps, local: Stamps)
      modifies this
      ensures expanded == old(expanded) && deletingId == old(deletingId)
      ensures var found := FindFirst(old(questions), (q: Question) => q.id == id);
              (found.None? ==>
                 questions == old(questions) && error == Some(SendFailed) &&
                 webhookCalls == old(webhookCalls) && writes == old(writes)) &&
              (found.Some? ==>
                 var q := old(questions)[found.value];
                 webhookCalls == old(webhookCalls) + [WebhookPayload(q.name, q.email, q.phone, q.question, q.ai_response)] &&
                 (webhook.WebhookThrew? ==>
                    questions == old(questions) && error == Some(SendFailed) && writes == old(writes)) &&
                 (webhook.Delivered? ==>
                    writes == old(writes) + [SaveResponse(id, response, saved.answeredAt, saved.sentAt)] &&
                    (db.Failed? ==> questions == old(questions) && error == Some(SendFailed)) &&
                    (db.Done? ==> questions == RecordResponse(old(questions), id, response, local.answeredAt, local.sentAt) &&
                                  error == old(error))))
    {
      var found := FindFirst(questions, (q: Question) => q.id == id);
      if found.None? {
        error := Some(SendFailed);
        return;
      }
      var q := questions[found.value];
      webhookCalls := webhookCalls + [WebhookPayload(q.name, q.email, q.phone, q.question, q.ai_response)];
      if webhook.WebhookThrew? {
        error := Some(SendFailed);
        return;
      }
      writes := writes + [SaveResponse(id, response, saved.answeredAt, saved.sentAt)];
      if db.Failed? {
        error := Some(SendFailed);
        return;
      }
      questions := RecordResponse(questions, id, response, local.answeredAt, local.sentAt);
    }

    /** handleDeleteQuestion: after the user confirms, delete the row; remove it locally only on success. */
    method DeleteQuestion(id: string, confirmed: bool, db: Outcome)
      modifies this
      ensures expanded == old(expanded) && webhookCalls == old(webhookCalls)
      ensures !confirmed ==> questions == old(questions) && error == old(error) && writes == old(writes) &&
                             deletingId == old(deletingId)
      ensures confirmed ==> deletingId == None && writes == old(writes) + [DeleteQuestionRow(id)]
      ensures confirmed && db.Done? ==> questions == WithoutQuestion(old(questions), id) && error == old(error)
      ensures confirmed && db.Failed? ==> questions == old(questions) && error == Some(DeleteFailed)
    {
      if !confirmed {
        return;
      }
      deletingId := Some(id);
      writes := writes + [DeleteQuestionRow(id)];
      if db.Failed? {
        error := Some(DeleteFailed);
      } else {
        questions := WithoutQuestion(questions, id);
      }
      deletingId := None;
    }
  }
}
