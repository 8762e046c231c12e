# Medical practice site: verified model of its client-side logic

The site is a React single-page application for a medical practice. It has
public pages (news, an "ask the doctor" form, a chat widget backed by an AI
service) and an admin area (posts, patient questions). Storage, email, the AI
endpoint and rendering are external services. This project models the data
handling that the page handlers perform around those services:

- **ChatApi**: the AI request adapter. It keeps only ready attachments,
  appends their extracted text to the question under a labelled separator,
  sends the other uploads separately, and maps HTTP status codes and caught
  errors to fixed messages.
- **PostForm**: the admin post editor. It covers validation, the en → ka → ru
  auto-fill of empty locale fields, the image checks, and the title/content
  writers.
- **Admin**: the admin question list. It covers the status filter and the
  case-insensitive search, the counters, toggle-answered, send-response,
  delete and the expanded-row set.
- **PostsList**: the admin post list. It covers the filter and search on the
  localised title, the counters, toggle-published and delete.
- **Posts**: the post data types and the per-language title/content
  selectors.
- **ChatBot**: the chat widget. It covers:
  - rebuilding history rows into user/bot message pairs;
  - grouping rows into one session per id, from the most recent row, with a
    50-character preview, sorted newest first;
  - the state effects of loading, deleting and clearing a session, and the
    submit guard.
- **AskDoctor**: the ask-the-doctor form. It covers:
  - the attachment list: add, update by id, remove;
  - the upload type derived from the MIME type;
  - the storage file-name sanitiser and path;
  - the three-attempt upload retry with exponential backoff;
  - the rule that a failed file is recorded without stopping the others.
- **News**: the excerpt (markdown marks stripped, truncated with an ellipsis)
  and the locale of the publication date.
- **Common** and **Attachments**: the JavaScript string primitives the
  handlers rely on (truthiness, `includes`, `trim`, `toLowerCase`,
  `split('.').pop()`) and the chat attachment record.

Remote calls are abstract outcomes passed in as parameters (`Outcome`,
`Fetched`, `FetchOutcome`, `Attempt`, ...). Random ids, `Date.now()` and
`toISOString()` are parameters too. Each handler that replaces React state
step by step is a method of a class whose fields are that state. Each method
is proved against a specification function, and the properties the page
promises are lemmas about those functions.

Behaviour worth knowing, modelled as written:

- In `fetchAIResponse` the `catch` block also sees the errors the `try` block
  throws for non-OK statuses. So a client-error response whose body mentions
  "CORS" is reported as the network error (`ChatApi.CorsInBodyBecomesNetworkError`).
- In the admin "send response" handler, only a thrown webhook call aborts.
  A webhook that answers with an error status still leads to the database
  update.

## Model

| member | source | states |
|---|---|---|
| Attachments.AsList | src/lib/api/chat.ts:27-29 | a converted attachment yields its single upload as a singleton and an array of uploads as itself |
| ChatApi.ReadyUploads | src/lib/api/chat.ts:23-31 | a list without a ready attachment sends no uploads |
| ChatApi.ReadyUploadsAppend | src/lib/api/chat.ts:23-31 | the ready-upload list of a concatenation is the concatenation of the lists, so attachment order is kept |
| ChatApi.ReadyUploadsOfOne | src/lib/api/chat.ts:23-31 | an attachment that is not ready contributes nothing; a ready one contributes its single upload as a singleton, or its whole array |
| ChatApi.ReadyUploadsMembership | src/lib/api/chat.ts:24-30 | an upload is in the result iff it comes from the conversion of some ready attachment |
| ChatApi.TextBlock | src/lib/api/chat.ts:58 | every text block starts with the "--- Content from" separator |
| ChatApi.BuildRequestBody | src/lib/api/chat.ts:43-81 | the body carries the given session id; the message is a prefix of the question; the question is the message plus the text blocks of the ready uploads; `uploads` is absent when there are no non-text uploads and otherwise holds exactly them, none of them of text type |
| ChatApi.TextBlocksAppend | src/lib/api/chat.ts:56-62 | the text blocks of a concatenation are the concatenated text blocks, in order |
| ChatApi.JoinAppend | src/lib/api/chat.ts:66 | `join('')` distributes over concatenation |
| ChatApi.TextUploadAppendsBlock | src/lib/api/chat.ts:56-66 | one more upload appends its block to the question when it is text and leaves the question unchanged otherwise |
| ChatApi.TextBlocksEmptyIff | src/lib/api/chat.ts:56-65 | there are no text blocks iff no upload is of text type |
| ChatApi.JoinOfBlocksEmpty | src/lib/api/chat.ts:65-66 | the joined text is empty iff there are no text blocks |
| ChatApi.QuestionUnchangedIff | src/lib/api/chat.ts:43-72 | the question equals the message exactly iff no upload is of text type |
| ChatApi.FileUploadsMembership | src/lib/api/chat.ts:56-62 | an upload is sent as a file iff it is an upload not of text type |
| ChatApi.FileUploadsEmptyIff | src/lib/api/chat.ts:74-77 | there are no file uploads iff every upload is of text type |
| ChatApi.SingleTextUpload | src/lib/api/chat.ts:56-66 | a single text upload gives message + "\n\n--- Content from " + name + " ---\n" + text and no file upload |
| ChatApi.FetchAIResponse | src/lib/api/chat.ts:36-184 | the sent body is the one the builder describes, and the result is the classification of the transport outcome |
| ChatApi.BadGatewayUnmatched | src/lib/api/chat.ts:126-179 | the 502 message matches none of the catch block's patterns, so it reaches the caller unchanged |
| ChatApi.ServiceUnavailableUnmatched | src/lib/api/chat.ts:128-179 | the same for the 503 message |
| ChatApi.GatewayTimeoutUnmatched | src/lib/api/chat.ts:130-179 | the same for the 504 message |
| ChatApi.ServerErrorUnmatched | src/lib/api/chat.ts:132-179 | the same for the generic server-error message, for every status |
| ChatApi.InvalidResponseUnmatched | src/lib/api/chat.ts:149-179 | the same for the missing-text message |
| ChatApi.NetworkErrorUnmatched | src/lib/api/chat.ts:165-179 | the network-error message does not match the patterns again |
| ChatApi.ConnectionErrorUnmatched | src/lib/api/chat.ts:165-179 | the connection-error message does not match the patterns again |
| ChatApi.UnknownFailureUnmatched | src/lib/api/chat.ts:182 | the non-Error fallback message matches none of the patterns |
| ChatApi.StatusFailureMessage | src/lib/api/chat.ts:117-137 | a message for a status of 500 or more matches none of the catch block's patterns; one below 500 names the status and carries the response body |
| ChatApi.ServerStatusMessages | src/lib/api/chat.ts:126-134 | 502, 503 and 504 each fail with their own message; any other status of at least 500 fails with the generic server-error message |
| ChatApi.RequestFailedMentions | src/lib/api/chat.ts:136 | the request-failed message contains the status number and the response body |
| ChatApi.ClientStatusMessage | src/lib/api/chat.ts:117-179 | a non-OK status below 500 whose message matches no pattern fails with the request-failed message, which names the status and the body |
| ChatApi.CorsInBodyBecomesNetworkError | src/lib/api/chat.ts:136-171 | a non-OK status below 500 with "CORS" in the body is reported as the network error |
| ChatApi.OkResponseResult | src/lib/api/chat.ts:149-157 | an OK response with a non-empty text gives that text and the body's session id; otherwise it fails with the missing-text message |
| ChatApi.CaughtMessage | src/lib/api/chat.ts:158-182 | a thrown non-Error gives the fallback message; an Error gives the network error, the connection error or its own message, and its own message whenever that matches no pattern |
| ChatApi.ResultOf | src/lib/api/chat.ts:117-182 | the call answers iff `fetch` responded with an OK status and a body with a non-empty text, and then it answers with that text and the body's session id |
| ChatApi.CatchBlockMapping | src/lib/api/chat.ts:165-182 | CORS-like messages map to the network error, otherwise network-like ones to the connection error, other Errors pass unchanged, non-Errors become the fallback message |
| ChatApi.CatchBlockIdempotent | src/lib/api/chat.ts:165-182 | passing a mapped message through the catch block again changes nothing |
| ChatApi.ChromiumTransportFailure | src/lib/api/chat.ts:101-170 | a fetch that throws "Failed to fetch" ends as the network error |
| ChatApi.AttachmentMetadataOf | src/lib/api/chat.ts:263-271 | same length and order, each entry copies name, type, size, upload type and status, and `hasError` holds iff the error is a non-empty string |
| Posts.LocalizedTitle | src/components/admin/PostsList.tsx:140-144 | the ka or ru title for "ka" or "ru", the en title for any other language |
| Posts.LocalizedContent | src/pages/News.tsx:41-45 | the ka or ru content for "ka" or "ru", the en content for any other language |
| Posts.UniformPostReadsAlike | src/pages/News.tsx:35-45 | a post whose three locales agree reads the same in every language |
| Posts.FilledPostReadsFilled | src/pages/News.tsx:35-45 | a post with all six fields filled shows a non-empty title and content in every language |
| PostForm.InitialForm | src/components/admin/PostForm.tsx:20-29 | a new post starts empty and unpublished; an edited post's texts and flag are copied; the image path is kept only when it is a non-empty string |
| PostForm.FirstNonEmpty | src/components/admin/PostForm.tsx:142-143 | the first non-empty of en, ka, ru; empty iff all three are |
| PostForm.Validate | src/components/admin/PostForm.tsx:129-162 | fails iff the titles or the contents are all empty; the title check comes first; on success it yields the auto-filled form with `published` set to the argument |
| PostForm.ValidatedIsFilled | src/components/admin/PostForm.tsx:145-153 | after validation passes all six title/content fields are non-empty |
| PostForm.AutoFill | src/components/admin/PostForm.tsx:142-153 | when one title is filled all three are, when one content is filled all three are; image path and published flag are kept |
| PostForm.AutoFillKeepsFilled | src/components/admin/PostForm.tsx:145-153 | non-empty fields are kept, empty ones get the fallback, and the image path and flag are untouched |
| PostForm.ValidateIdempotent | src/components/admin/PostForm.tsx:129-153 | validating an already validated form changes only the published flag |
| PostForm.SavedFlagIsArgument | src/components/admin/PostForm.tsx:158-162 | the saved flag is the argument, whatever the form's previous flag |
| PostForm.SaveRequestFor | src/components/admin/PostForm.tsx:164-175 | an edited post is updated by its id, a new one inserted, with the validated data |
| PostForm.ImageProblem | src/components/admin/PostForm.tsx:58-68 | accepted iff the type starts with "image/" and the size is at most 5 MiB; the type check is made first |
| PostForm.FiveMiBBoundary | src/components/admin/PostForm.tsx:64-68 | exactly 5·1024·1024 bytes is accepted and one byte more is rejected |
| PostForm.StorageName | src/components/admin/PostForm.tsx:75-76 | the stored name is the timestamp, "-" and the random part, then "." and the original's AfterLast text, which for a dotted name is exactly what follows its last dot and holds no dot |
| PostForm.PostEditor.constructor | src/components/admin/PostForm.tsx:20-38 | the initial form, a preview only for an existing image, no flags set, no error |
| PostForm.PostEditor.SetTitle | src/components/admin/PostForm.tsx:276-282 | all three title fields get the typed value, which is then the shown title; nothing else changes |
| PostForm.PostEditor.SetContent | src/components/admin/PostForm.tsx:294-300 | all three content fields get the typed value; nothing else changes |
| PostForm.PostEditor.Submit | src/components/admin/PostForm.tsx:127-184 | an invalid form sets the validation error and saves nothing; a valid one issues exactly one save request and reports the database's error or success |
| PostForm.PostEditor.UploadImage | src/components/admin/PostForm.tsx:54-113 | no file does nothing; a rejected file sets the check's error and uploads nothing; otherwise one upload under the generated name; after a successful upload the old image, if any, is removed; the form and preview change only when both succeed |
| PostForm.PostEditor.RemoveImage | src/components/admin/PostForm.tsx:115-125 | the image path and preview become empty, and the old image is removed only when there was one |
| PostsList.FilteredPosts | src/components/admin/PostsList.tsx:146-155 | exactly the posts passing both the status filter and the title search are shown |
| PostsList.FilteredInOrder | src/components/admin/PostsList.tsx:146-155 | the shown posts keep the list's order |
| PostsList.NoFilterShowsAll | src/components/admin/PostsList.tsx:146-155 | filter "all" with an empty search shows every post |
| PostsList.FilterThenSearch | src/components/admin/PostsList.tsx:146-155 | the two conditions combine with AND: filtering by status and then by search gives the same list |
| PostsList.SearchIgnoresQueryCase | src/components/admin/PostsList.tsx:152-153 | lowercasing the query first changes no match |
| PostsList.SearchFindsTitlePart | src/components/admin/PostsList.tsx:152-153 | any piece of the title in the current language finds the post, whatever the case of the query |
| PostsList.StatusFilters | src/components/admin/PostsList.tsx:146-149 | "published" keeps exactly the published posts and "draft" exactly the others |
| PostsList.CountsAddUp | src/components/admin/PostsList.tsx:157-159 | published count + draft count = total |
| PostsList.FlipPublished | src/components/admin/PostsList.tsx:132-134 | only the posts with the id have their flag flipped; all others are as before |
| PostsList.FlipTwice | src/components/admin/PostsList.tsx:132-134 | flipping twice restores the list |
| PostsList.WithoutPost | src/components/admin/PostsList.tsx:115 | exactly the posts with other ids remain |
| PostsList.WithoutPostInOrder | src/components/admin/PostsList.tsx:115 | the remaining posts keep their order, and an absent id leaves the list unchanged |
| PostsList.PostsBoard.constructor | src/components/admin/PostsList.tsx:101-121 | the board starts with the loaded posts, no error and no deletion in progress |
| PostsList.PostsBoard.ImageOf | src/components/admin/PostsList.tsx:107-108 | a found image path is non-empty and belongs to a post with that id |
| PostsList.PostsBoard.TogglePublished | src/components/admin/PostsList.tsx:123-137 | one update with the negated flag; on success only that post flips, on failure the list is unchanged and the error set |
| PostsList.PostsBoard.Delete | src/components/admin/PostsList.tsx:101-121 | without confirmation nothing happens; the image is removed first, only when the post has one; on success exactly that post disappears; on any failure the list is unchanged |
| Admin.FilteredQuestions | src/pages/Admin.tsx:130-141 | exactly the questions passing both the status filter and the search are shown |
| Admin.FilteredInOrder | src/pages/Admin.tsx:130-141 | the shown questions keep the list's order |
| Admin.NoFilterShowsAll | src/pages/Admin.tsx:130-141 | filter "all" with an empty search shows everything |
| Admin.FilterThenSearch | src/pages/Admin.tsx:130-141 | the status filter and the search combine with AND |
| Admin.SearchIgnoresQueryCase | src/pages/Admin.tsx:135-138 | lowercasing the query first changes no match |
| Admin.SearchFindsPart | src/pages/Admin.tsx:135-138 | any piece of the name, the email or the question finds the question, whatever the case of the query |
| Admin.StatusFilters | src/pages/Admin.tsx:130-133 | "pending" keeps exactly the unanswered questions and "answered" exactly the answered ones |
| Admin.CountsAddUp | src/pages/Admin.tsx:144-146 | pending count + answered count = total |
| Admin.MarkAnswered | src/pages/Admin.tsx:245-251 | only the questions with the id change, to the new flag, with a time iff it is set |
| Admin.MarkedTimeMatchesFlag | src/pages/Admin.tsx:245-251 | the target's `answered_at` is null iff the new flag is false |
| Admin.MarkedLeavesPending | src/pages/Admin.tsx:130-251 | a question marked answered is no longer in the pending list |
| Admin.RecordResponse | src/pages/Admin.tsx:342-351 | only the target gets the response, answered and sent flags and their times |
| Admin.RespondedIsAnswered | src/pages/Admin.tsx:130-351 | after a response the target is answered and sent and shows under "answered" |
| Admin.WithoutQuestion | src/pages/Admin.tsx:398 | exactly the questions with other ids remain |
| Admin.WithoutQuestionInOrder | src/pages/Admin.tsx:398 | the remaining questions keep their order |
| Admin.ToggledSet | src/pages/Admin.tsx:118-128 | the id's membership flips and every other id's stays |
| Admin.ToggleTwice | src/pages/Admin.tsx:118-128 | toggling twice restores the set |
| Admin.QuestionBoard.constructor | src/pages/Admin.tsx:130-146 | the board starts with the loaded questions, nothing expanded and no error |
| Admin.QuestionBoard.ToggleExpanded | src/pages/Admin.tsx:118-128 | only the expanded set changes, by the toggle |
| Admin.QuestionBoard.ToggleAnswered | src/pages/Admin.tsx:233-255 | one update with the negated flag and the write's own time reading; on success the list is marked with the local reading, on failure unchanged with the error message set |
| Admin.QuestionBoard.SendResponse | src/pages/Admin.tsx:302-358 | an unknown id sets the error and sends nothing; a thrown webhook call or a database error leaves the list unchanged with the error set; the save carries its own two time readings and, on success, only the target records the response with the local two |
| Admin.QuestionBoard.DeleteQuestion | src/pages/Admin.tsx:387-404 | without confirmation nothing happens; on success exactly that question disappears; on failure the list is unchanged and the error set |
| ChatBot.History | src/components/ChatBot.tsx:135-153 | n history rows give 2n messages |
| ChatBot.HistoryPairs | src/components/ChatBot.tsx:135-153 | message 2i of the history is row i's user text and message 2i+1 its bot answer, both with the row's time and marked read |
| ChatBot.RebuildHistory | src/components/ChatBot.tsx:135-153 | the loop builds History of the rows: n rows give 2n messages, message 2i the user's text and 2i+1 the bot's, both with the row's time and marked read |
| ChatBot.Preview | src/components/ChatBot.tsx:189 | at most 53 characters: the message itself up to 50, else its first 50 characters and "..." |
| ChatBot.FirstPerSession | src/components/ChatBot.tsx:182-192 | the map holds at most one entry per row and at least one when there are rows |
| ChatBot.SessionIdsOfSnoc | src/components/ChatBot.tsx:184-192 | the set of ids of rows + [row] is the old set plus the row's id |
| ChatBot.OneEntryPerSession | src/components/ChatBot.tsx:182-192 | the grouped entries have exactly the rows' session ids, each once |
| ChatBot.EntriesFromFirstRows | src/components/ChatBot.tsx:184-190 | each entry is built from the first row seen with its id |
| ChatBot.EntryIsMostRecent | src/components/ChatBot.tsx:172-192 | with rows in descending time, each entry's time is that session's latest |
| ChatBot.FirstRowIsNewest | src/components/ChatBot.tsx:172-176 | with rows in descending time, the first row of a session is at least as recent as any other of its rows |
| ChatBot.InsertByTime | src/components/ChatBot.tsx:195-197 | an insertion keeps every entry and adds exactly one |
| ChatBot.InsertBounded | src/components/ChatBot.tsx:195-197 | an insertion keeps an upper bound on the times |
| ChatBot.InsertKeepsNewestFirst | src/components/ChatBot.tsx:195-197 | inserting into a newest-first list keeps it newest first |
| ChatBot.InsertOldest | src/components/ChatBot.tsx:195-197 | an entry no newer than all others goes to the end; this is the stability the sort relies on |
| ChatBot.SortNewestFirst | src/components/ChatBot.tsx:195-197 | the sort is a permutation |
| ChatBot.SortIsNewestFirst | src/components/ChatBot.tsx:195-197 | the sorted list is newest first |
| ChatBot.SortKeepsSorted | src/components/ChatBot.tsx:195-197 | a list already newest first is left as it is |
| ChatBot.FirstPerSessionNewestFirst | src/components/ChatBot.tsx:173-192 | with rows in descending time, the grouped entries are already newest first and each time is some row's |
| ChatBot.GroupSessions | src/components/ChatBot.tsx:180-199 | the map-building loop yields the first-row-per-session entries, sorted newest first |
| ChatBot.GroupedSessions | src/components/ChatBot.tsx:173-199 | for rows in descending time the sort changes nothing and the result is newest first |
| ChatBot.SameIds | src/components/ChatBot.tsx:195-197 | a permutation keeps the set of ids |
| ChatBot.GroupedIds | src/components/ChatBot.tsx:180-199 | the session list has exactly the rows' session ids |
| ChatBot.SubmittedText | src/components/ChatBot.tsx:336 | a non-empty quick reply takes precedence; otherwise the trimmed input |
| ChatBot.BlankInputGivesNoText | src/components/ChatBot.tsx:336-337 | input of only whitespace gives no text |
| ChatBot.WithoutSessionDrops | src/components/ChatBot.tsx:222 | the removed id is gone, every other session stays, nothing new appears |
| ChatBot.ChatState.constructor | src/components/ChatBot.tsx:58-88 | a stored session id is reused; otherwise the fresh id is stored and used |
| ChatBot.ChatState.SyncHistory | src/components/ChatBot.tsx:108-165 | fetches iff the session id is non-empty and history not yet loaded; afterwards history counts as loaded whether or not the fetch succeeded; a non-empty result replaces the messages by History of the rows; only the loaded flag and the messages can change |
| ChatBot.ChatState.FetchAllChatSessions | src/components/ChatBot.tsx:168-207 | on success the list is the grouped, sorted sessions and the error is cleared; a reply with no data and no error keeps the list with the error cleared; on failure the list stays and the error is set |
| ChatBot.ChatState.DeleteChatSession | src/components/ChatBot.tsx:210-238 | the deleting marker ends cleared; on failure nothing but the error changes; on success the messages and attachments are cleared only when the current session was deleted, the session id stays, and the list is refreshed (a refresh with no data keeps the list without the session); the input, sent texts and other fields are outside its frame |
| ChatBot.ChatState.DeleteSucceeded | src/components/ChatBot.tsx:221-231 | the loading flag ends cleared; the current chat is cleared only when it was the deleted session; a refresh that succeeds puts the grouped sessions and clears the error; one with no data keeps the list without the session and clears the error; one that fails leaves the list without the session and sets the error |
| ChatBot.ChatState.ForgetSession | src/components/ChatBot.tsx:221-228 | the session leaves the list and the current chat is cleared only when it was that session |
| ChatBot.ChatState.LoadChatSession | src/components/ChatBot.tsx:241-292 | the target becomes the stored current session; on success the messages are History of the rows, the attachments are cleared, the history view is closed and the error kept; a reply with no data closes the history view and keeps the messages, attachments and error; on failure the error is set; nothing outside its frame changes |
| ChatBot.ChatState.ClearChat | src/components/ChatBot.tsx:351-358 | messages and attachments are emptied and the fresh id is stored and current; nothing else changes |
| ChatBot.ChatState.HandleSubmit | src/components/ChatBot.tsx:329-344 | nothing is sent when the text is empty and there are no attachments; otherwise the text is sent and the input cleared unless it was a quick reply; only the input and the sent texts can change |
| AskDoctor.UploadTypeOf | src/pages/AskDoctor.tsx:99-100 | image iff the type starts with "image/", pdf iff it is "application/pdf", document otherwise |
| AskDoctor.InitialAttachment | src/pages/AskDoctor.tsx:96-109 | processing at 0 percent with the derived upload type, and a preview iff the file is an image |
| AskDoctor.WithProgress | src/pages/AskDoctor.tsx:118-122 | only the attachments with the id get the new progress |
| AskDoctor.WithProcessed | src/pages/AskDoctor.tsx:125-129 | only the attachments with the id take the processed fields and keep their id, file, type and preview |
| AskDoctor.WithoutAttachmentDrops | src/pages/AskDoctor.tsx:149-157 | the id is gone, every other attachment stays, in order |
| AskDoctor.StripExtension | src/pages/AskDoctor.tsx:220 | the result is a prefix of the name, and the whole name when there is no dot; with a dot the cut is at the last one: the name continues with '.' and no dot follows it |
| AskDoctor.KeepAllowed | src/pages/AskDoctor.tsx:222 | no longer than the input and taken from its characters (as a multiset), and every word character, whitespace and '-' of the input is still there |
| AskDoctor.KeepAllowedDistributes | src/pages/AskDoctor.tsx:222 | the filter distributes over concatenation, so characters keep their order and count |
| AskDoctor.KeepAllowedOne | src/pages/AskDoctor.tsx:222 | a single character is kept iff it is a word character, whitespace or '-', and deleted otherwise; with KeepAllowedDistributes this fixes the result for every input |
| AskDoctor.DropSpaces | src/pages/AskDoctor.tsx:224 | a suffix of the input: everything dropped is whitespace, and what remains is empty or starts with a non-space |
| AskDoctor.CollapseSpaces | src/pages/AskDoctor.tsx:224 | no longer than the input, and no whitespace is left |
| AskDoctor.CollapseRun | src/pages/AskDoctor.tsx:224 | a whitespace-free word, one non-empty whitespace run and a rest not starting with whitespace: the word is kept and the run becomes exactly one '-' |
| AskDoctor.KeepAllowedKeeps | src/pages/AskDoctor.tsx:222 | only word characters, whitespace and '-' survive |
| Common.TrimIsSlice | src/pages/AskDoctor.tsx:223 | `trim()` leaves the input's slice that starts where `trimStart()` stops, with only whitespace cut off on both sides |
| AskDoctor.TrimKeeps | src/pages/AskDoctor.tsx:223 | trimming keeps that property |
| AskDoctor.CollapseNameChars | src/pages/AskDoctor.tsx:224 | after whitespace runs become '-', only word characters and '-' remain |
| AskDoctor.CleanName | src/pages/AskDoctor.tsx:219-225 | at most 50 characters: a prefix of the whitespace-collapsed name, all of it when it fits and exactly its first 50 when it is longer |
| AskDoctor.CleanNameChars | src/pages/AskDoctor.tsx:222-225 | the cleaned name has at most 50 characters, all word characters or '-' |
| AskDoctor.SanitizedBase | src/pages/AskDoctor.tsx:219-229 | 3 to 50 word characters or '-': the cleaned name when it has at least 3, "medical-document" otherwise |
| AskDoctor.KeepAllKept | src/pages/AskDoctor.tsx:222 | a name of allowed characters passes the filter unchanged |
| AskDoctor.TrimOfNoSpaces | src/pages/AskDoctor.tsx:223 | a name without whitespace is not trimmed |
| AskDoctor.CollapseOfNoSpaces | src/pages/AskDoctor.tsx:224 | a name without whitespace is not collapsed |
| AskDoctor.CleanNameKept | src/pages/AskDoctor.tsx:219-229 | an already clean name of 3 to 50 characters is used as it is |
| Common.AfterLast | src/pages/AskDoctor.tsx:218 | free of the separator; the whole text without one, otherwise exactly the suffix that follows its last occurrence |
| AskDoctor.Extension | src/pages/AskDoctor.tsx:218 | non-empty and dot-free: AfterLast's text, i.e. what follows the last dot or the whole name without a dot, when that is non-empty, and "pdf" when it is empty |
| AskDoctor.StoredExtension | src/pages/AskDoctor.tsx:217-232 | the text after the path's last dot is the original's extension |
| AskDoctor.JoinedExtension | src/pages/AskDoctor.tsx:231 | a dot-free extension is what follows the last dot of the joined name |
| AskDoctor.StoredUnderQuestion | src/pages/AskDoctor.tsx:232 | the path starts with the question id and '/' |
| AskDoctor.StoragePath | src/pages/AskDoctor.tsx:231-232 | the path is the question id and '/', then the sanitised base name and '-', then the decimal timestamp, then '.' and the extension, every segment fixed by position |
| AskDoctor.JoinedFolder | src/pages/AskDoctor.tsx:232 | the joined path starts with its folder and '/', followed by the base and '-', the stamp, then '.' and the extension |
| AskDoctor.LastIndexOfAfterSeparator | src/pages/AskDoctor.tsx:218-231 | the last separator is found where it was placed when none follows |
| AskDoctor.RetryFrom | src/pages/AskDoctor.tsx:240-265 | from attempt `retry` below 3 the first step is an upload, upserting unless it is the first attempt; past the third attempt nothing happens; the run succeeds iff one of the remaining attempts does |
| AskDoctor.RetryFailedStep | src/pages/AskDoctor.tsx:240-265 | a failed attempt records the upload, upserting after the first, then a wait of 1 s × 2^retry only when another attempt follows |
| AskDoctor.UploadWithRetry | src/pages/AskDoctor.tsx:237-265 | the loop performs exactly the schedule the retry definition gives |
| AskDoctor.RetrySchedule | src/pages/AskDoctor.tsx:237-269 | at most three attempts stopping at the first success; upsert only after the first; waits of 1000 then 2000 ms only between attempts; the last error is kept |
| AskDoctor.RetrySucceedsIff | src/pages/AskDoctor.tsx:237-269 | the upload succeeds iff one of the three attempts does, and a failure keeps an error to rethrow |
| AskDoctor.FailureMessage | src/pages/AskDoctor.tsx:314 | an Error's message, otherwise "Upload failed" |
| AskDoctor.UploadFile | src/pages/AskDoctor.tsx:214-319 | one file's storage calls and attachment-row insert requests are those FileSteps gives |
| AskDoctor.FileRows | src/pages/AskDoctor.tsx:267-318 | one to three attachment-row insert requests, the first for this question and file; exactly one request, for a "failed" row, iff the upload failed |
| AskDoctor.FileAlwaysRecorded | src/pages/AskDoctor.tsx:271-319 | every file makes one to three attachment-row insert requests, all for it; a failed upload makes exactly one, for a row with status "failed" and no path; a successful one starts with the success row |
| AskDoctor.FileStepsRecorded | src/pages/AskDoctor.tsx:214-319 | every file makes a first insert request with its name |
| AskDoctor.PerFile | src/pages/AskDoctor.tsx:213 | one result per attachment |
| AskDoctor.UploadAll | src/pages/AskDoctor.tsx:212-321 | the loop over the attachments gives the concatenation of the per-file results, file k stamped with its own clock reading `now(k)` plus k |
| AskDoctor.JoinedKeepsFirstRows | src/pages/AskDoctor.tsx:213-320 | concatenating the results keeps each file's first insert request |
| AskDoctor.EveryFileRecorded | src/pages/AskDoctor.tsx:213-320 | every attachment gets an insert request with its name, so a failing file does not stop the others |
| AskDoctor.QuestionRowOf | src/pages/AskDoctor.tsx:197-204 | phone is null iff empty, the AI answer is stored as given, and its time iff the answer is non-empty |
| AskDoctor.IdsOf | src/pages/AskDoctor.tsx:56 | the ids of the attachments, in order |
| AskDoctor.AskDoctorForm.constructor | src/pages/AskDoctor.tsx:35-44 | an empty form with no attachments, flags cleared and no error |
| AskDoctor.AskDoctorForm.AddFiles | src/pages/AskDoctor.tsx:83-111 | failed validation sets its error (or the fallback) and changes no attachment; otherwise the new attachments follow the old ones in file order |
| AskDoctor.AskDoctorForm.ApplyProgress | src/pages/AskDoctor.tsx:117-123 | the list becomes the per-id progress update |
| AskDoctor.AskDoctorForm.ApplyProcessed | src/pages/AskDoctor.tsx:125-129 | the list becomes the per-id processed update |
| AskDoctor.AskDoctorForm.FinishProcessing | src/pages/AskDoctor.tsx:134-140 | the upload flags are reset and a failure sets the processing error |
| AskDoctor.AskDoctorForm.RemoveAttachment | src/pages/AskDoctor.tsx:149-157 | the id leaves the list, and that entry alone is cleaned up when it was present |
| AskDoctor.AskDoctorForm.SubmitQuestion | src/pages/AskDoctor.tsx:177-329 | one question insert is requested; on rejection the error is set and the form kept; on success every attachment's uploads and insert requests, each file with its own clock reading, are appended, then the form is cleared and marked submitted; the upload indicator is outside its frame and stays as it was |
| AskDoctor.AskDoctorForm.ClearFormAndAttachments | src/pages/AskDoctor.tsx:55-63 | every attachment is cleaned up, the fields are emptied and the form is marked submitted |
| News.StripMarkdown | src/pages/News.tsx:48 | no '#', '*', '_' or '`' remains, and the text does not grow |
| News.StripMarkFree | src/pages/News.tsx:48 | text without those marks is unchanged, so stripping is idempotent |
| News.StripDistributes | src/pages/News.tsx:48 | stripping distributes over concatenation |
| News.StripOne | src/pages/News.tsx:48 | a single mark is deleted and any other character kept; with StripDistributes this fixes the result for every input |
| News.GetExcerpt | src/pages/News.tsx:47-51 | free of marks and at most maxLength + 3 long; the stripped text when it fits, otherwise its first maxLength characters trimmed plus "..." |
| News.ShortExcerptUnchanged | src/pages/News.tsx:47-51 | a short text without marks is its own excerpt |
| News.DateLocale | src/pages/News.tsx:57 | "ka-GE" for "ka", "ru-RU" for "ru", "en-US" otherwise |
| News.FormatDate | src/pages/News.tsx:53-59 | a missing or empty date gives ""; otherwise the date rendered in the language's locale |

## Left out

- Remote services are not modelled: the database, storage, the webhook, the AI endpoint and `localStorage`. Each call is an abstract outcome parameter, and storage writes are recorded as request lists.
- Nondeterminism is not modelled: `Math.random` ids, `Date.now()`, `new Date().toISOString()` and `URL.createObjectURL` are parameters. Where the source reads the clock more than once, each reading is a parameter of its own: Admin's database update and its local copy take separate readings, and AskDoctor's file loop reads `Date.now()` on every pass, so its clock is a function `now` of the file's position.
- The `Promise.all` file processing in AskDoctor runs concurrently in the source. Here the per-id progress and completion updates are applied one at a time, so interleavings are not modelled.
- The `setTimeout` auto-dismiss of errors and the backoff sleeps are not modelled; only the delay values and the attempt count are.
- `validateMultipleFiles`, `processFileForUpload`, `convertAttachmentToFlowiseUpload`, `cleanupAttachments` and `DEFAULT_FILE_CONFIG` live in src/utils/fileUpload and src/types/chat, which are not part of this model. Validation and processing results are inputs, the conversion is a function parameter, and cleanup is recorded as the list of ids cleaned.
- The attachment record is inferred from its uses; src/types/chat.ts is not part of this model.
- AskDoctor.WithProcessed: the processed result's spread overwrites exactly the status, data, extracted text, page count, progress and error fields.
- The chat hook `useFlowiseChat` is not part of this model. ChatBot keeps the messages and attachments it exposes as fields, and the sent texts as a list.
- `.normalize('NFKD')` in the file-name sanitiser is a function parameter.
- Common.ToLower: covers ASCII, Latin-1, basic Cyrillic and Georgian Mtavruli, not all of Unicode's case mapping.
- String lengths are counted in code points, while JavaScript counts UTF-16 units. This affects the 50-character preview and cut, and the excerpt length, for characters outside the Basic Multilingual Plane.
- `marked`, `DOMPurify` and the `createEmailHTML` templates are rendering and are not modelled; the webhook payload records the question's fields.
- Admin authentication is not modelled: the login page and the session check in the admin page.
- Presentation-only files are not modelled: App, Header, Education, Gallery, ResponseForm, NewsPost and the i18n strings.
- The FileReader preview in the post editor is a parameter (the data URL), and `window.confirm` is a boolean parameter.
- PostsList.PostsBoard.Delete: the error the storage client's `remove` returns is not modelled, because the source never reads it; `removal` says only whether the call threw, and only a thrown removal stops the deletion.
- PostForm.PostEditor.UploadImage: the `'image/jpeg'` fallback for an empty MIME type is unreachable after the "image/" prefix check, so the model uses the file's type. A failing `file.arrayBuffer()` is not modelled. As in PostsList, `removal` says only whether the removal of the old image threw; the error it returns is never read.
- ChatBot.ChatState.SyncHistory: a fetch that returns no data and no error (`NoData`) keeps the messages, as an empty result does.
- AskDoctor.UploadFile: a failing `file.arrayBuffer()` is not modelled. Whether the database client's errors are `Error` instances is a field of the error (`isErrorInstance`). The outcome of the insert of the "failed" row is ignored, as the source ignores it.
- AskDoctor.AskDoctorForm.SubmitQuestion: the AI answer is an `Option<string>` parameter, because the call that produces it is `fetchAIResponse`, modelled in ChatApi.
- AskDoctor.AskDoctorForm.SubmitQuestion: `questionRows` and `attachmentRows` list the inserts requested, refused ones included; which rows the database ends up holding is not modelled.
- News.GetExcerpt: `maxLength` is a natural number; the source's negative or fractional lengths are not modelled.
- News.FormatDate: `toLocaleDateString` is a function parameter taking the date and the locale.
- ChatBot.SortNewestFirst: the sort is an insertion sort that keeps equal timestamps in input order. This is the stable sort ECMAScript 2019 requires of `Array.prototype.sort`.
- ChatApi.ResultOf: the body of a non-OK response is a plain string, so a throw from `response.text()` in that branch, which the source sends straight to its catch block, is not represented.
- ChatApi.ChromiumTransportFailure: only the message Chromium-based browsers give a failed `fetch` is stated; other browsers' messages fall under ChatApi.CatchBlockMapping.
- The health check and connectivity test in src/lib/api/chat.ts are not modelled. They are diagnostics outside the request path.
