/**
 * The chat widget's history and session logic (src/components/ChatBot.tsx):
 * rebuilding a stored conversation into message pairs, grouping stored rows
 * into one entry per conversation, and the local state changes of the
 * session handlers and the submit guard. The messages and attachments live
 * in a chat hook that is not part of this model; here they are fields
 * replaced the way its `setMessages` and `clearAttachments` are called.
 */
module ChatBot {
  import opened Common
  import opened Attachments

  /** A row of `chat_history`; `created_at` as milliseconds since the epoch. */
  datatype HistoryRow = HistoryRow(session_id: string, user_message: string, ai_response: string, created_at: int)

  datatype Sender = User | Bot

  datatype Message = Message(sender: Sender, content: string, timestamp: int, read: bool)

  /** An entry of the history panel. */
  datatype ChatSession = ChatSession(id: string, timestamp: int, preview: string)

  // ---------------------------------------------------------------------------
  // History reconstruction (fetchChatHistory, loadChatSession)
  // ---------------------------------------------------------------------------

  /** The two messages a stored row stands for: the user's text, then the bot's answer, both read and stamped with the row's time. */
  function PairOf(row: HistoryRow): seq<Message>
  {
    [Message(User, row.user_message, row.created_at, true), Message(Bot, row.ai_response, row.created_at, true)]
  }

  /** The conversation a sequence of rows stands for: each row's pair, in row order. */
  function History(rows: seq<HistoryRow>): (r: seq<Message>)
    ensures |r| == 2 * |rows|
    decreases |rows|
  {
    if rows == [] then [] else History(rows[..|rows| - 1]) + PairOf(rows[|rows| - 1])
  }

  /** Message 2i of the history is row i's user message and message 2i+1 its answer. */
  lemma {:induction false} HistoryPairs(rows: seq<HistoryRow>)
    ensures forall i | 0 <= i < |rows| ::
              History(rows)[2 * i] == Message(User, rows[i].user_message, rows[i].created_at, true) &&
              History(rows)[2 * i + 1] == Message(Bot, rows[i].ai_response, rows[i].created_at, true)
    decreases |rows|
  {
    if rows != [] {
      var front := rows[..|rows| - 1];
      HistoryPairs(front);
      assert History(rows) == History(front) + PairOf(rows[|rows| - 1]);
      forall i | 0 <= i < |rows|
        ensures History(rows)[2 * i] == Message(User, rows[i].user_message, rows[i].created_at, true) &&
                History(rows)[2 * i + 1] == Message(Bot, rows[i].ai_response, rows[i].created_at, true)
      {
        if i < |front| {
          assert rows[i] == front[i];
        }
      }
    }
  }

  /** fetchChatHistory's and loadChatSession's `forEach` over the rows, pushing each row's two messages. */
  method RebuildHistory(rows: seq<HistoryRow>) returns (messages: seq<Message>)
    ensures messages == History(rows)
    ensures |messages| == 2 * |rows|
    ensures forall i | 0 <= i < |rows| ::
              messages[2 * i] == Message(User, rows[i].user_message, rows[i].created_at, true) &&
              messages[2 * i + 1] == Message(Bot, rows[i].ai_response, rows[i].created_at, true)
  {
    messages := [];
    var i := 0;
    while i < |rows|
      invariant 0 <= i <= |rows|
      invariant messages == History(rows[..i])
    {
      var row := rows[i];
      assert rows[..i + 1][..i] == rows[..i];
      messages := messages + [Message(User, row.user_message, row.created_at, true)];
      messages := messages + [Message(Bot, row.ai_response, row.created_at, true)];
      i := i + 1;
    }
    assert rows[..i] == rows;
    HistoryPairs(rows);
  }

  // ---------------------------------------------------------------------------
  // Session grouping (fetchAllChatSessions)
  // ---------------------------------------------------------------------------

  /** `slice(0, 50)` plus "..." when the message is longer than 50 characters. */
  function Preview(message: string): (r: string)
    ensures |r| <= 53
    ensures |message| <= 50 ==> r == message
    ensures |message| > 50 ==> |r| == 53 && r[..50] == message[..50] && r[50..] == "..."
  {
    if |message| > 50 then message[..50] + "..." else message
  }

  function SessionOf(row: HistoryRow): ChatSession
  {
    ChatSession(row.session_id, row.created_at, Preview(row.user_message))
  }

  function SessionIdsOf(rows: seq<HistoryRow>): set<string>
  {
    set i | 0 <= i < |rows| :: rows[i].session_id
  }

  function IdsOf(sessions: seq<ChatSession>): set<string>
  {
    set j | 0 <= j < |sessions| :: sessions[j].id
  }

  /** What the map ends up holding, in insertion order: one entry per session id, made from the first row with that id. */
  function FirstPerSession(rows: seq<HistoryRow>): (r: seq<ChatSession>)
    ensures |r| <= |rows|
    ensures rows != [] ==> |r| >= 1
    decreases |rows|
  {
    if rows == [] then []
    else
      var init := rows[..|rows| - 1];
      var last := rows[|rows| - 1];
      if last.session_id in SessionIdsOf(init) then FirstPerSession(init)
      else FirstPerSession(init) + [SessionOf(last)]
  }

  lemma SessionIdsOfSnoc(rows: seq<HistoryRow>, row: HistoryRow)
    ensures SessionIdsOf(rows + [row]) == SessionIdsOf(rows) + {row.session_id}
    ensures (rows + [row])[..|rows|] == rows
  {
    var all := rows + [row];
    assert all[..|rows|] == rows;
    assert all[|rows|] == row;
    forall id | id in SessionIdsOf(all) ensures id in SessionIdsOf(rows) + {row.session_id} {
      var i :| 0 <= i < |all| && all[i].session_id == id;
      if i < |rows| { assert rows[i] == all[i]; }
    }
    forall id | id in SessionIdsOf(rows) ensures id in SessionIdsOf(all) {
      var i :| 0 <= i < |rows| && rows[i].session_id == id;
      assert all[i] == rows[i];
    }
  }

  /** One entry per distinct session id: the entries' ids are exactly the rows' ids, and no id repeats. */
  lemma {:induction false} OneEntryPerSession(rows: seq<HistoryRow>)
    ensures IdsOf(FirstPerSession(rows)) == SessionIdsOf(rows)
    ensures forall j, k | 0 <= j < k < |FirstPerSession(rows)| :: FirstPerSession(rows)[j].id != FirstPerSession(rows)[k].id
    decreases |rows|
  {
    if rows != [] {
      var init := rows[..|rows| - 1];
      var last := rows[|rows| - 1];
      assert init + [last] == rows;
      SessionIdsOfSnoc(init, last);
      OneEntryPerSession(init);
      var before := FirstPerSession(init);
      if last.session_id !in SessionIdsOf(init) {
        var after := before + [SessionOf(last)];
        assert after[|before|].id == last.session_id;
        forall id | id in IdsOf(after) ensures id in IdsOf(before) + {last.session_id} {
          var j :| 0 <= j < |after| && after[j].id == id;
          if j < |before| { assert after[j] == before[j]; }
        }
        forall id | id in IdsOf(before) ensures id in IdsOf(after) {
          var j :| 0 <= j < |before| && before[j].id == id;
          assert after[j] == before[j];
        }
        forall j, k | 0 <= j < k < |after| ensures after[j].id != after[k].id {
          if k == |before| {
            assert after[j] == before[j];
            assert after[j].id in IdsOf(before);
          }
        }
      }
    }
  }

  /** Row `i` is the first row carrying its session id. */
  predicate FirstRowOfSession(rows: seq<HistoryRow>, i: int)
  {
    0 <= i < |rows| && forall k | 0 <= k < i :: rows[k].session_id != rows[i].session_id
  }

  /** Every entry is the session made from the first row carrying its id. */
  lemma {:induction false} EntriesFromFirstRows(rows: seq<HistoryRow>)
    ensures forall j | 0 <= j < |FirstPerSession(rows)| ::
              exists i :: FirstRowOfSession(rows, i) && FirstPerSession(rows)[j] == SessionOf(rows[i])
    decreases |rows|
  {
    if rows != [] {
      var init := rows[..|rows| - 1];
      var last := rows[|rows| - 1];
      SessionIdsOfSnoc(init, last);
      EntriesFromFirstRows(init);
      var before := FirstPerSession(init);
      var after := FirstPerSession(rows);
      forall j | 0 <= j < |after|
        ensures exists i :: FirstRowOfSession(rows, i) && after[j] == SessionOf(rows[i])
      {
        if j < |before| {
          assert after[j] == before[j];
          var i :| FirstRowOfSession(init, i) && before[j] == SessionOf(init[i]);
          assert forall k | 0 <= k <= i :: rows[k] == init[k];
          assert FirstRowOfSession(rows, i);
          assert after[j] == SessionOf(rows[i]);
        } else {
          var i := |rows| - 1;
          assert last.session_id !in SessionIdsOf(init);
          forall k | 0 <= k < i ensures rows[k].session_id != rows[i].session_id {
            assert rows[k] == init[k];
            assert init[k].session_id in SessionIdsOf(init);
          }
          assert FirstRowOfSession(rows, i);
          assert after[j] == SessionOf(rows[i]);
        }
      }
      assert forall j | 0 <= j < |after| :: exists i :: FirstRowOfSession(rows, i) && after[j] == SessionOf(rows[i]);
    } else {
      assert FirstPerSession(rows) == [];
    }
  }

  predicate RowsNewestFirst(rows: seq<HistoryRow>)
  {
    forall i, j | 0 <= i < j < |rows| :: rows[i].created_at >= rows[j].created_at
  }

  /** With the rows in descending time order, as they are requested, each entry carries its session's most recent time. */
  lemma EntryIsMostRecent(rows: seq<HistoryRow>)
    requires RowsNewestFirst(rows)
    ensures forall j, i | 0 <= j < |FirstPerSession(rows)| && 0 <= i < |rows| &&
                          rows[i].session_id == FirstPerSession(rows)[j].id ::
              FirstPerSession(rows)[j].timestamp >= rows[i].created_at
  {
    EntriesFromFirstRows(rows);
    var r := FirstPerSession(rows);
    forall j, i | 0 <= j < |r| && 0 <= i < |rows| && rows[i].session_id == r[j].id
      ensures r[j].timestamp >= rows[i].created_at
    {
      var first :| FirstRowOfSession(rows, first) && r[j] == SessionOf(rows[first]);
      FirstRowIsNewest(rows, first, i);
    }
  }

  lemma FirstRowIsNewest(rows: seq<HistoryRow>, first: int, i: int)
    requires RowsNewestFirst(rows) && FirstRowOfSession(rows, first)
    requires 0 <= i < |rows| && rows[i].session_id == rows[first].session_id
    ensures rows[first].created_at >= rows[i].created_at
  {
  }

  // The sort: a stable insertion sort, newest first, as `Array.prototype.sort` with `b - a` on the timestamps.

  predicate NewestFirst(s: seq<ChatSession>)
  {
    forall i, j | 0 <= i < j < |s| :: s[i].timestamp >= s[j].timestamp
  }

  /** Place `x` after every entry at least as recent, before the first older one. */
  function InsertByTime(sorted: seq<ChatSession>, x: ChatSession): (r: seq<ChatSession>)
    ensures |r| == |sorted| + 1
    ensures multiset(r) == multiset(sorted) + multiset{x}
    decreases |sorted|
  {
    if sorted == [] then [x]
    else if sorted[0].timestamp >= x.timestamp then
      var rest := InsertByTime(sorted[1..], x);
      assert sorted == [sorted[0]] + sorted[1..];
      [sorted[0]] + rest
    else [x] + sorted
  }

  lemma {:induction false} InsertBounded(sorted: seq<ChatSession>, x: ChatSession, bound: int)
    requires x.timestamp <= bound
    requires forall k | 0 <= k < |sorted| :: sorted[k].timestamp <= bound
    ensures forall k | 0 <= k < |InsertByTime(sorted, x)| :: InsertByTime(sorted, x)[k].timestamp <= bound
    decreases |sorted|
  {
    if sorted != [] && sorted[0].timestamp >= x.timestamp {
      InsertBounded(sorted[1..], x, bound);
    }
  }

  lemma {:induction false} InsertKeepsNewestFirst(sorted: seq<ChatSession>, x: ChatSession)
    requires NewestFirst(sorted)
    ensures NewestFirst(InsertByTime(sorted, x))
    decreases |sorted|
  {
    if sorted != [] && sorted[0].timestamp >= x.timestamp {
      var tail := sorted[1..];
      assert NewestFirst(tail);
      InsertKeepsNewestFirst(tail, x);
      InsertBounded(tail, x, sorted[0].timestamp);
      var rest := InsertByTime(tail, x);
      var r := [sorted[0]] + rest;
      forall i, j | 0 <= i < j < |r| ensures r[i].timestamp >= r[j].timestamp {
        assert r[j] == rest[j - 1];
        if i > 0 { assert r[i] == rest[i - 1]; }
      }
    }
  }

  lemma {:induction false} InsertOldest(sorted: seq<ChatSession>, x: ChatSession)
    requires forall k | 0 <= k < |sorted| :: sorted[k].timestamp >= x.timestamp
    ensures InsertByTime(sorted, x) == sorted + [x]
    decreases |sorted|
  {
    if sorted != [] {
      InsertOldest(sorted[1..], x);
      assert [sorted[0]] + (sorted[1..] + [x]) == sorted + [x];
    }
  }

  function SortNewestFirst(s: seq<ChatSession>): (r: seq<ChatSession>)
    ensures multiset(r) == multiset(s)
    decreases |s|
  {
    if s == [] then []
    else
      assert s == s[..|s| - 1] + [s[|s| - 1]];
      InsertByTime(SortNewestFirst(s[..|s| - 1]), s[|s| - 1])
  }

  /** The sorted list is newest first. */
  lemma {:induction false} SortIsNewestFirst(s: seq<ChatSession>)
    ensures NewestFirst(SortNewestFirst(s))
    decreases |s|
  {
    if s != [] {
      SortIsNewestFirst(s[..|s| - 1]);
      InsertKeepsNewestFirst(SortNewestFirst(s[..|s| - 1]), s[|s| - 1]);
    }
  }

  /** The sort is stable: a list already newest first comes back unchanged. */
  lemma {:induction false} SortKeepsSorted(s: seq<ChatSession>)
    requires NewestFirst(s)
    ensures SortNewestFirst(s) == s
    decreases |s|
  {
    if s != [] {
      var init := s[..|s| - 1];
      assert NewestFirst(init);
      SortKeepsSorted(init);
      InsertOldest(init, s[|s| - 1]);
      assert init + [s[|s| - 1]] == s;
    }
  }

  /** Rows in descending time give entries in descending time. */
  lemma {:induction false} FirstPerSessionNewestFirst(rows: seq<HistoryRow>)
    requires RowsNewestFirst(rows)
    ensures NewestFirst(FirstPerSession(rows))
    ensures forall j | 0 <= j < |FirstPerSession(rows)| :: exists i | 0 <= i < |rows| :: FirstPerSession(rows)[j].timestamp == rows[i].created_at
    decreases |rows|
  {
    if rows != [] {
      var init := rows[..|rows| - 1];
      var last := rows[|rows| - 1];
      assert RowsNewestFirst(init);
      FirstPerSessionNewestFirst(init);
      var before := FirstPerSession(init);
      var after := FirstPerSession(rows);
      forall j | 0 <= j < |after| ensures exists i | 0 <= i < |rows| :: after[j].timestamp == rows[i].created_at {
        if j < |before| {
          assert after[j] == before[j];
          var i :| 0 <= i < |init| && before[j].timestamp == init[i].created_at;
          assert rows[i] == init[i];
        } else {
          assert after[j].timestamp == rows[|rows| - 1].created_at;
        }
      }
      if last.session_id !in SessionIdsOf(init) {
        forall j, k | 0 <= j < k < |after| ensures after[j].timestamp >= after[k].timestamp {
          if k == |before| {
            assert after[j] == before[j];
            var i :| 0 <= i < |init| && before[j].timestamp == init[i].created_at;
            assert rows[i] == init[i];
          } else {
            assert after[j] == before[j] && after[k] == before[k];
          }
        }
      }
    }
  }

  /**
   * fetchAllChatSessions: one pass over the rows keeping the first entry per
   * id in a map with its insertion order, then the values sorted newest first.
   */
  method GroupSessions(rows: seq<HistoryRow>) returns (sessions: seq<ChatSession>)
    ensures sessions == SortNewestFirst(FirstPerSession(rows))
  {
    var sessionMap: map<string, ChatSession> := map[];
    var order: seq<string> := [];
    var i := 0;
    while i < |rows|
      invariant 0 <= i <= |rows|
      invariant sessionMap.Keys == SessionIdsOf(rows[..i])
      invariant |order| == |FirstPerSession(rows[..i])|
      invariant forall j | 0 <= j < |order| :: order[j] in sessionMap && sessionMap[order[j]] == FirstPerSession(rows[..i])[j]
    {
      var row := rows[i];
      SessionIdsOfSnoc(rows[..i], row);
      assert rows[..i + 1] == rows[..i] + [row];
      if row.session_id !in sessionMap {
        sessionMap := sessionMap[row.session_id := SessionOf(row)];
        order := order + [row.session_id];
      }
      i := i + 1;
    }
    assert rows[..i] == rows;
    var values := seq(|order|, j requires 0 <= j < |order| && order[j] in sessionMap => sessionMap[order[j]]);
    assert values == FirstPerSession(rows);
    sessions := SortNewestFirst(values);
  }

  /** For rows requested newest first, the grouping is newest first, one entry per id, each the session's most recent row. */
  lemma GroupedSessions(rows: seq<HistoryRow>)
    requires RowsNewestFirst(rows)
    ensures SortNewestFirst(FirstPerSession(rows)) == FirstPerSession(rows)
    ensures NewestFirst(SortNewestFirst(FirstPerSession(rows)))
  {
    FirstPerSessionNewestFirst(rows);
    SortKeepsSorted(FirstPerSession(rows));
  }

  lemma SameIds(a: seq<ChatSession>, b: seq<ChatSession>)
    requires multiset(a) == multiset(b)
    ensures IdsOf(a) <= IdsOf(b)
  {
    forall id | id in IdsOf(a) ensures id in IdsOf(b) {
      var j :| 0 <= j < |a| && a[j].id == id;
      assert a[j] in multiset(b);
      var k :| 0 <= k < |b| && b[k] == a[j];
    }
  }

  /** Sorting keeps the set of session ids: the listed ids are exactly those of the rows. */
  lemma GroupedIds(rows: seq<HistoryRow>)
    ensures IdsOf(SortNewestFirst(FirstPerSession(rows))) == SessionIdsOf(rows)
  {
    OneEntryPerSession(rows);
    var s := FirstPerSession(rows);
    var r := SortNewestFirst(s);
    SameIds(r, s);
    SameIds(s, r);
  }

  // ---------------------------------------------------------------------------
  // The submit guard
  // ---------------------------------------------------------------------------

  /** `quickReplyText || input.trim()` */
  function SubmittedText(quickReply: Option<string>, input: string): (r: string)
    ensures Present(quickReply) ==> r == quickReply.value
    ensures !Present(quickReply) ==> r == Trim(input)
  {
    if Present(quickReply) then quickReply.value else Trim(input)
  }

  /** Without a quick reply, an input of only whitespace yields no text. */
  lemma BlankInputGivesNoText(input: string)
    requires forall i | 0 <= i < |input| :: IsSpace(input[i])
    ensures SubmittedText(None, input) == ""
  {
  }

  // ---------------------------------------------------------------------------
  // The widget's state and handlers
  // ---------------------------------------------------------------------------

  /** The result of a `chat_history` query: its rows, a reply with neither data nor error, or a failure. */
  datatype Fetched = Rows(rows: seq<HistoryRow>) | NoData | FetchFailed

  /** The list after a deletion: `filter(s => s.id !== id)`. */
  function WithoutSession(sessions: seq<ChatSession>, id: string): seq<ChatSession>
  {
    Filter(sessions, (s: ChatSession) => s.id != id)
  }

  /** The deleted id is gone, every other entry stays, and nothing new appears. */
  lemma WithoutSessionDrops(sessions: seq<ChatSession>, id: string)
    ensures id !in IdsOf(WithoutSession(sessions, id))
    ensures forall j | 0 <= j < |sessions| :: sessions[j].id != id ==> sessions[j] in WithoutSession(sessions, id)
    ensures forall j | 0 <= j < |WithoutSession(sessions, id)| :: WithoutSession(sessions, id)[j] in sessions
  {
  }

  class ChatState {
    var sessionId: string
    /** The `chatSessionId` entry of local storage. */
    var storedId: Option<string>
    var historyLoaded: bool
    var messages: seq<Message>
    var attachments: seq<Attachment>
    var chatSessions: seq<ChatSession>
    var deleteError: Option<string>
    var loadingHistory: bool
    var deletingSession: Option<string>
    var showHistory: bool
    var input: string
    /** The texts handed to the chat hook's `sendMessage`, in order. */
    var sent: seq<string>

    /** Mount: reuse a stored session id when there is a non-empty one, otherwise store the fresh one. */
    constructor (stored: Option<string>, freshId: string)
      ensures Present(stored) ==> sessionId == stored.value && storedId == stored
      ensures !Present(stored) ==> sessionId == freshId && storedId == Some(freshId)
      ensures !historyLoaded && messages == [] && attachments == [] && chatSessions == []
      ensures deleteError == None && !loadingHistory && deletingSession == None && !showHistory
      ensures input == "" && sent == []
    {
      if Present(stored) {
        sessionId := stored.value;
        storedId := stored;
      } else {
        sessionId := freshId;
        storedId := Some(freshId);
      }
      historyLoaded, messages, attachments, chatSessions := false, [], [], [];
      deleteError, loadingHistory, deletingSession, showHistory := None, false, None, false;
      input, sent := "", [];
    }

    /** When the history effect fetches. */
    predicate ShouldFetchHistory()
      reads this
    {
      sessionId != "" && !historyLoaded
    }

    /**
     * The history effect and fetchChatHistory: fetch only for a known session
     * not loaded yet; replace the messages only when rows came back; mark the
     * history loaded whatever the outcome, so it is not fetched again.
     */
    method SyncHistory(result: Fetched) returns (fetched: bool)
      modifies this`historyLoaded, this`messages
      ensures fetched == old(ShouldFetchHistory())
      ensures fetched ==> !ShouldFetchHistory()
      ensures fetched ==> historyLoaded
      ensures !fetched ==> unchanged(this`historyLoaded, this`messages)
      ensures fetched && result.Rows? && |result.rows| > 0 ==> messages == History(result.rows)
      ensures fetched && !(result.Rows? && |result.rows| > 0) ==> unchanged(this`messages)
    {
      fetched := ShouldFetchHistory();
      if !fetched {
        return;
      }
      if result.Rows? && |result.rows| > 0 {
        messages := RebuildHistory(result.rows);
      }
      historyLoaded := true;
    }

    /** fetchAllChatSessions: clear the error, then list the grouped sessions, keep the list when no data came, or report the failure. */
    method FetchAllChatSessions(result: Fetched)
      modifies this`loadingHistory, this`deleteError, this`chatSessions
      ensures !loadingHistory
      ensures result.Rows? ==> chatSessions == SortNewestFirst(FirstPerSession(result.rows)) && deleteError == None
      ensures result.NoData? ==> chatSessions == old(chatSessions) && deleteError == None
      ensures result.FetchFailed? ==> chatSessions == old(chatSessions) && deleteError == Some("Failed to load chat sessions")
    {
      loadingHistory := true;
      deleteError := None;
      if result.Rows? {
        chatSessions := GroupSessions(result.rows);
      } else if result.FetchFailed? {
        deleteError := Some("Failed to load chat sessions");
      }
      loadingHistory := false;
    }

    /**
     * deleteChatSession: on success drop the entry, clear the open
     * conversation when it is the deleted one (keeping its id), then refresh
     * the list from `refresh`. On failure only the error changes.
     */
    method DeleteChatSession(target: string, db: Outcome, refresh: Fetched)
      modifies this`deletingSession, this`deleteError, this`chatSessions, this`messages, this`attachments, this`loadingHistory
      ensures deletingSession == None
      ensures db.Failed? ==> unchanged(this`chatSessions, this`messages, this`attachments, this`loadingHistory) &&
                             deleteError == Some("Failed to delete conversation")
      ensures db.Done? ==> !loadingHistory
      ensures db.Done? && target == sessionId ==> messages == [] && attachments == []
      ensures db.Done? && target != sessionId ==> unchanged(this`messages, this`attachments)
      ensures db.Done? && refresh.Rows? ==>
                chatSessions == SortNewestFirst(FirstPerSession(refresh.rows)) && deleteError == None
      ensures db.Done? && refresh.NoData? ==>
                chatSessions == WithoutSession(old(chatSessions), target) && deleteError == None
      ensures db.Done? && refresh.FetchFailed? ==>
                chatSessions == WithoutSession(old(chatSessions), target) && deleteError == Some("Failed to load chat sessions")
    {
      deletingSession := Some(target);
      deleteError := None;
      if db.Failed? {
        deleteError := Some("Failed to delete conversation");
      } else {
        DeleteSucceeded(target, refresh);
      }
      deletingSession := None;
    }

    /** What follows a successful delete: the local removal, then the refresh of the list. */
    method DeleteSucceeded(target: string, refresh: Fetched)
      modifies this`deleteError, this`chatSessions, this`messages, this`attachments, this`loadingHistory
      ensures !loadingHistory
      ensures target == sessionId ==> messages == [] && attachments == []
      ensures target != sessionId ==> unchanged(this`messages, this`attachments)
      ensures refresh.Rows? ==> chatSessions == SortNewestFirst(FirstPerSession(refresh.rows)) && deleteError == None
      ensures refresh.NoData? ==> chatSessions == WithoutSession(old(chatSessions), target) && deleteError == None
      ensures refresh.FetchFailed? ==>
                chatSessions == WithoutSession(old(chatSessions), target) && deleteError == Some("Failed to load chat sessions")
    {
      ForgetSession(target);
      FetchAllChatSessions(refresh);
    }

    /** The local effect of a successful delete: drop the entry, and clear the conversation when it is the open one. */
    method ForgetSession(target: string)
      modifies this`chatSessions, this`messages, this`attachments
      ensures chatSessions == WithoutSession(old(chatSessions), target)
      ensures target == sessionId ==> messages == [] && attachments == []
      ensures target != sessionId ==> unchanged(this`messages, this`attachments)
    {
      chatSessions := WithoutSession(chatSessions, target);
      if target == sessionId {
        messages := [];
        attachments := [];
      }
    }

    /**
     * loadChatSession: switch to the chosen session (also in local storage)
     * before fetching; on success show its messages (when data came back),
     * clear the attachments and leave the history panel; on failure report it.
     */
    method LoadChatSession(target: string, result: Fetched)
      modifies this`loadingHistory, this`sessionId, this`storedId, this`messages, this`attachments, this`showHistory, this`deleteError
      ensures sessionId == target && storedId == Some(target) && !loadingHistory
      ensures result.Rows? ==> messages == History(result.rows) && attachments == [] && !showHistory &&
                               unchanged(this`deleteError)
      ensures result.NoData? ==> unchanged(this`messages, this`attachments, this`deleteError) && !showHistory
      ensures result.FetchFailed? ==> unchanged(this`messages, this`attachments, this`showHistory) &&
                                      deleteError == Some("Failed to load conversation")
    {
      loadingHistory := true;
      sessionId := target;
      storedId := Some(target);
      if result.FetchFailed? {
        deleteError := Some("Failed to load conversation");
      } else {
        if result.Rows? {
          messages := RebuildHistory(result.rows);
          attachments := [];
        }
        showHistory := false;
      }
      loadingHistory := false;
    }

    /** clearChat: empty the conversation and start a new session under a fresh id. */
    method ClearChat(freshId: string)
      modifies this`messages, this`attachments, this`storedId, this`sessionId
      ensures messages == [] && attachments == []
      ensures sessionId == freshId && storedId == Some(freshId)
    {
      messages := [];
      attachments := [];
      storedId := Some(freshId);
      sessionId := freshId;
    }

    /**
     * handleSubmit: a quick reply's text wins over the trimmed input. Nothing
     * is sent when there is no text and no attachment; the input is cleared
     * only for a send that is not a quick reply.
     */
    method HandleSubmit(quickReply: Option<string>)
      modifies this`input, this`sent
      ensures var text := SubmittedText(quickReply, old(input));
              (text == "" && |old(attachments)| == 0 ==> sent == old(sent) && input == old(input)) &&
              (!(text == "" && |old(attachments)| == 0) ==>
                 sent == old(sent) + [text] && input == (if Present(quickReply) then old(input) else ""))
    {
      var text := SubmittedText(quickReply, input);
      if text == "" && |attachments| == 0 {
        return;
      }
      if !Present(quickReply) {
        input := "";
      }
      sent := sent + [text];
    }
  }
}
