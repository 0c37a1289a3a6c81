# Quiz client core, modelled and verified in Dafny

This project models the logic at the centre of a Nuxt/Pinia quiz-game client
and proves properties of it. It covers:

- **The WebSocket service.** Listeners are registered per event type, each
  type holding an ordered list of callbacks; `on` returns an unsubscribe
  closure, and `off` and `notifyListeners` act on the lists. The model also
  covers the guard in front of `send`, the dispatch of incoming frames, and a
  reconnect loop bounded at five attempts with at most one timer pending.
- **The navigation rules.** A router guard and a route middleware send a user
  who leaves a sub-page for another section to the parent of the page left.
- **Pagination and quiz-list queries.** This covers the page record of
  `getPaginationInfo`, the query dictionary of `buildQueryParams`, and the
  normalised result (with its failure default) of `fetchQuizAll`.
- **Two serialisers.** `objectToFormData` flattens an object into form
  entries; `Helper.getHttp` adds an `http://` scheme.
- **The Pinia stores.** There are two `auth` stores, the question-dialog
  store, the pagination store, and the quiz and question editing stores.

## Layout

- `common.dfy`: optional values and the string tests `startsWith` and
  `includes`.
- `js_values.dfy`: JavaScript values, truthiness, property lookup and
  `String(v)`.
- `websocket.dfy`: the service as a class.
  - Each listener array is a `ListenerList` object, because the unsubscribe
    closure captures the array itself.
  - Socket, timer and listener effects are recorded in fields (`transmitted`,
    `invocations`, `pendingTimers`, `socketsCreated`), and browser events are
    method calls.
- `paths.dfy`: `split`, `filter(Boolean)` and `join`, with their round trips.
- `router_plugin.dfy`, `navigation_middleware.dfy`: the two navigation rules.
- `js_math.dfy`, `quiz_pagination.dfy`: floor and ceiling division, and
  `getPaginationInfo`.
- `quiz_api.dfy`: query building and result normalisation.
- `form_data.dfy`, `helper.dfy`: the serialisers.
- `users.dfy`, `quiz_types.dfy`: the entities the stores hold, and
  filter-by-id.
- Store classes:
  - `pagination_store.dfy`
  - `auth_store.dfy`
  - `auth_refs.dfy`
  - `question_modal.dfy`
  - `quiz_store.dfy`
  - `question_store.dfy`

Calls to external code are not in the model. Their outcomes are parameters:
the HTTP or API result of each store action and of `fetchQuizAll`, the frame
received, the set of listeners that throw, and `process.client`.

Where the type declarations and the code disagree, the model follows the code:

- The types declare capitalised fields (`ID`, `Questions`, `Choices`), but the
  code reads `id`, `questions` and `answers`
  (types/Quiz/quiz.interface.ts:2,11,20).
- `addQuestion`/`removeQuestion` and `addChoice`/`removeChoice` are modelled
  even though their stores return only the entity and its reset action
  (stores/Quiz/useQuizStore.ts:20-23, stores/Question/useQuestionStore.ts:20-23).
- stores/Auth/useAuthStore.ts and stores/Auth/auth.ts both register a store
  under the id `auth`. They are modelled as two independent classes.

## Model

| member | source | states |
|---|---|---|
| JsValues.Get | api/Websocket/websocket.service.ts:120-121 | an absent key reads as undefined, and a present one reads as a value stored under it |
| WebSocket.IndexOf | api/Websocket/websocket.service.ts:149 | `indexOf` finds the first position holding the callback, and -1 exactly when the callback is absent |
| WebSocket.RemoveFirst | api/Websocket/websocket.service.ts:148-153 | the unsubscribe splice: a no-op when the callback is absent; otherwise exactly the first copy of the callback is cut out, the elements before and after it keeping their order, so one fewer element and one fewer copy |
| WebSocket.SubscribeThenUnsubscribe | api/Websocket/websocket.service.ts:144-153 | push then unsubscribe restores a list that did not hold the callback; if the list already held it, the earlier copy goes and the new one stays last |
| WebSocket.IndexOfIsFirst | api/Websocket/websocket.service.ts:149 | a position holding the callback with no earlier copy is the one `indexOf` returns |
| WebSocket.UnsubscribeTwice | api/Websocket/websocket.service.ts:148-153 | for a callback registered once, the first call removes it and a second call changes nothing |
| WebSocket.Invoke | api/Websocket/websocket.service.ts:168-174 | the loop makes one call per listener, in list order, each with the payload; a listener that throws does not stop the later ones |
| WebSocket.Notifications | api/Websocket/websocket.service.ts:73-87 | a malformed frame, or one that parses to null, notifies nobody; an object frame whose `type` is a string notifies that type with its `payload`, then 'message' with the whole envelope; any other frame notifies 'message' alone |
| WebSocket.DeliverThenMessage | api/Websocket/websocket.service.ts:80-83 | delivering the typed notice and then the 'message' notice is the typed listeners' calls followed by the 'message' listeners' calls |
| WebSocket.InvokeSnoc | api/Websocket/websocket.service.ts:168-174 | one more listener at the end of the list adds exactly its own call at the end |
| WebSocket.SendAllowed | api/Websocket/websocket.service.ts:113-125 | a send is allowed exactly when the socket is OPEN and the payload is falsy, an array, a File, or an object whose `sessionId` is absent or truthy; so it is refused for a falsy `sessionId` and for a truthy primitive payload (the `in` test throws into the catch) |
| WebSocket.Service.constructor | api/Websocket/websocket.service.ts:15-26 | no socket, not connected, empty registry, zero attempts, no timer |
| WebSocket.Service.CreateSocket | api/Websocket/websocket.service.ts:44 | a new CONNECTING socket with a fresh pending promise, counted once |
| WebSocket.Service.Connect | api/Websocket/websocket.service.ts:34-45 | resolves at once, creating no socket, exactly when a socket exists and the service is connected; otherwise it creates one socket |
| WebSocket.Service.OnOpen | api/Websocket/websocket.service.ts:47-52 | connected, the attempt counter reset to 0, the promise resolved |
| WebSocket.Service.OnClose | api/Websocket/websocket.service.ts:54-66 | disconnected; an unclean close below five attempts schedules the single pending timer; the promise is never rejected, because the flag is cleared before it is tested; the invariant is kept |
| WebSocket.Service.OnError | api/Websocket/websocket.service.ts:68-71 | rejects the promise; when the reconnect timer made the connect, its catch reschedules while attempts remain |
| WebSocket.Service.ScheduleReconnect | api/Websocket/websocket.service.ts:181-196 | the previous timer is cleared, so exactly one new timer is pending |
| WebSocket.Service.ReconnectTimerFires | api/Websocket/websocket.service.ts:186-188 | the fired timer is gone, attempts grow by one within the bound, and a connect runs |
| WebSocket.Service.Disconnect | api/Websocket/websocket.service.ts:96-109 | without a socket nothing changes (a pending reconnect survives); with one, the socket is gone, the flag is cleared and no timer is pending |
| WebSocket.Service.Send | api/Websocket/websocket.service.ts:112-135 | returns the guard's verdict, and transmits exactly that one frame when it is true and nothing otherwise |
| WebSocket.Service.On | api/Websocket/websocket.service.ts:138-154 | the callback is appended to its type's list, which is created when absent; every other type's list is unchanged; the returned closure captures that list |
| WebSocket.Service.Unsubscribe | api/Websocket/websocket.service.ts:148-153 | only the captured list changes, losing its first copy of the callback; a detached list leaves the registry unchanged |
| WebSocket.Service.Off | api/Websocket/websocket.service.ts:157-160 | the type and all its listeners leave the registry; nothing else changes |
| WebSocket.Service.NotifyListeners | api/Websocket/websocket.service.ts:163-178 | the calls made are exactly `Invoke` of that type's current list, missing lists included; the registry is unchanged |
| WebSocket.Service.OnMessage | api/Websocket/websocket.service.ts:73-87 | the calls made are exactly those for the frame's notices, in order |
| WebSocket.OffDetaches | api/Websocket/websocket.service.ts:140-160 | after `off` and a new `on`, the type holds only the new listener and the old array is in no registry entry |
| WebSocket.UnsubscribeAfterOff | api/Websocket/websocket.service.ts:148-160 | an unsubscribe obtained before `off` cannot remove a listener registered after it |
| WebSocket.ReconnectUntilGivingUp | api/Websocket/websocket.service.ts:59-194 | if every attempt fails, exactly five sockets are created and then no timer stays pending |
| Paths.Split | plugins/router-plugin-dynamic.ts:14 | `split` always yields at least one piece, and no piece holds the separator |
| Paths.NonEmpty | plugins/router-plugin-dynamic.ts:14 | `filter(Boolean)` keeps only non-empty pieces, each taken from the input |
| Paths.Segments | plugins/router-plugin-dynamic.ts:14 | every segment is non-empty and free of '/' |
| Paths.NonEmptyAppend | plugins/router-plugin-dynamic.ts:14 | filtering distributes over concatenation |
| Paths.NonEmptyOfProper | plugins/router-plugin-dynamic.ts:14 | filtering a list of non-empty pieces changes nothing |
| Paths.SplitWithoutSeparator | plugins/router-plugin-dynamic.ts:14 | a separator-free string splits into itself alone |
| Paths.SplitAfterPiece | plugins/router-plugin-dynamic.ts:14 | the piece before the first separator is the first split component |
| Paths.SplitJoin | plugins/router-plugin-dynamic.ts:14-22 | splitting a join of separator-free pieces gives the pieces back |
| Paths.JoinSplit | plugins/router-plugin-dynamic.ts:14-22 | joining the split of a string gives the string back |
| Paths.FirstPiece | plugins/router-plugin-dynamic.ts:28-29 | the first split component is the text before the first separator, or the whole string |
| Paths.SplitAtFirstSeparator | plugins/router-plugin-dynamic.ts:28-29 | a string holding the separator splits into the text before its first separator followed by the split of the rest |
| Paths.RootedSegments | plugins/router-plugin-dynamic.ts:22 | '/' followed by joined segments has exactly those segments |
| Paths.FirstSegmentIsSecondComponent | plugins/router-plugin-dynamic.ts:28-32 | for a path starting with a single '/', the raw second split component is the first segment |
| RouterPlugin.GetParentPath | plugins/router-plugin-dynamic.ts:12-23 | the parent always starts with '/', and is exactly '/' for a path of at most one segment |
| RouterPlugin.ParentPathSegments | plugins/router-plugin-dynamic.ts:14-22 | a path of at most one segment has parent '/', and otherwise the parent keeps all segments but the last, so n segments give max(0, n-1) |
| RouterPlugin.ParentOfRooted | plugins/router-plugin-dynamic.ts:22 | with two or more segments, the parent is '/' and all segments but the last, joined by '/' |
| RouterPlugin.JoinThree | plugins/router-plugin-dynamic.ts:22 | three segments behind '/' join to "/a/b/c", and the first two to "/a/b" |
| RouterPlugin.ParentOfThree | plugins/router-plugin-dynamic.ts:12-23 | the parent of /a/b/c is /a/b |
| RouterPlugin.ParentOfTwo | plugins/router-plugin-dynamic.ts:12-23 | the parent of /a/b is /a |
| RouterPlugin.ParentOfReviewsPage | plugins/router-plugin-dynamic.ts:8 | /products/123/reviews has parent /products/123 |
| RouterPlugin.ParentOfEditPage | plugins/router-plugin-dynamic.ts:9 | /user/profile/edit has parent /user/profile |
| RouterPlugin.ParentOfQuizPage | plugins/router-plugin-dynamic.ts:10 | /quizz/1 has parent /quizz |
| RouterPlugin.SecondComponent | plugins/router-plugin-dynamic.ts:28-29 | `path.split('/')[1]` is undefined exactly when the path holds no '/', and otherwise is the text between the first '/' and the next '/' or the end |
| RouterPlugin.BeforeEach | plugins/router-plugin-dynamic.ts:26-42 | a redirect happens exactly when the from-path has more than one segment and the raw second split components differ; its target is `GetParentPath` of the from-path, which holds the from-path's segments without the last |
| RouterPlugin.SampleComponents | plugins/router-plugin-dynamic.ts:28-29 | the raw second components of "/a/b", "/a", "/c" and "a" |
| RouterPlugin.RawComponentsCompared | plugins/router-plugin-dynamic.ts:28-35 | '/a' and 'a' compare differently, so from /a/b the guard lets /a through but redirects 'a' and /c to /a |
| RouterPlugin.RootedStartsWithOneSlash | plugins/router-plugin-dynamic.ts:22 | a parent with segments starts with exactly one '/' |
| RouterPlugin.GuardSettles | plugins/router-plugin-dynamic.ts:26-42 | for a from-path starting with a single '/', following the redirect does not redirect again |
| Common.Contains | middleware/dynamic-navigation-middleware.ts:5 | `s.includes(sub)` holds exactly when `sub` occurs at some position of `s` |
| NavigationMiddleware.Exempt | middleware/dynamic-navigation-middleware.ts:5-7 | a navigation is exempt exactly when '/auth/' or '/callback' occurs somewhere in the to-path or the from-path |
| NavigationMiddleware.DynamicNavigation | middleware/dynamic-navigation-middleware.ts:1-30 | off the client, on '/auth/' or '/callback' paths, or from at most one segment there is no redirect; otherwise a redirect happens exactly when the to-path has no segment or another first segment; both ways of building the target equal the plugin's `getParentPath` |
| NavigationMiddleware.MiddlewareSettles | middleware/dynamic-navigation-middleware.ts:16-26 | the target keeps the first from-segment, so navigating to it from the same page is not redirected again |
| JsMath.FloorDiv | composables/Quiz/useQuiz.ts:76 | `Math.floor(a / b)` for b > 0 is the q with q·b ≤ a < (q+1)·b |
| JsMath.CeilDiv | composables/Quiz/useQuiz.ts:75 | `Math.ceil(a / b)` for b > 0 is the q with (q−1)·b < a ≤ q·b |
| JsMath.FloorDivUnique | composables/Quiz/useQuiz.ts:76 | the floor bounds pin a single integer |
| JsMath.CeilDivUnique | composables/Quiz/useQuiz.ts:75 | the ceiling bounds pin a single integer |
| QuizPagination.GetPaginationInfo | composables/Quiz/useQuiz.ts:74-86 | totalPages = ⌈total/limit⌉ and currentPage = ⌊offset/limit⌋+1, by their bounds; hasNext ⇔ currentPage < totalPages, and nextPage is currentPage+1 exactly then; hasPrev ⇔ currentPage > 1, and prevPage is currentPage−1 exactly then |
| QuizPagination.CurrentPageIsPositive | composables/Quiz/useQuiz.ts:76 | a non-negative offset is on page 1 or later |
| QuizPagination.NeighboursInRange | composables/Quiz/useQuiz.ts:81-82 | a present prevPage is at least 1, and a present nextPage is at most totalPages |
| QuizPagination.EmptyTotal | composables/Quiz/useQuiz.ts:75-83 | total 0 gives no pages and no next page |
| QuizPagination.HasNextIffItemsRemain | composables/Quiz/useQuiz.ts:75-83 | there is a next page exactly when currentPage·limit < total |
| PaginationStore.Pagination.constructor | stores/Base/usePagination.ts:4-8 | page 1, 10 items per page, 0 items |
| PaginationStore.Pagination.SetCurrentPage | stores/Base/usePagination.ts:10-12 | sets the page with no range check; nothing else changes |
| PaginationStore.Pagination.SetTotalItems | stores/Base/usePagination.ts:13-15 | sets the total; nothing else changes |
| PaginationStore.Pagination.TotalPages | stores/Base/usePagination.ts:18 | the page count is ⌈totalItems/itemsPerPage⌉, by its bounds |
| PaginationStore.SettersKeepPageSize | stores/Base/usePagination.ts:9-18 | the actions never touch the page size, so the page count follows the total alone |
| QuizApi.BuildQueryParams | api/Quiz/quiz.api.ts:36-64 | search, sort and order appear exactly when truthy, categories exactly when non-empty, limit exactly when non-zero and offset whenever defined (0 included), each with its own value, and no other key appears |
| QuizApi.DescribesUnique | api/Quiz/quiz.api.ts:36-64 | those conditions leave exactly one possible dictionary |
| QuizApi.ZeroLimitDroppedZeroOffsetSent | api/Quiz/quiz.api.ts:47-53 | limit 0 and offset 0 give the dictionary holding only offset 0 |
| QuizApi.ParamLimit | api/Quiz/quiz.api.ts:93 | the fallback of the parameters' limit to 10 is never 0: it is the caller's limit when that is a non-zero number, and otherwise 10 |
| QuizApi.ParamOffset | api/Quiz/quiz.api.ts:94 | the fallback of the parameters' offset to 0 is the caller's offset whenever one is given, 0 included, and 0 when none is |
| QuizApi.HasMore | api/Quiz/quiz.api.ts:86 | a missing total, offset or limit never claims more; with all three present, more remain exactly when total − offset exceeds limit |
| QuizApi.FetchResult | api/Quiz/quiz.api.ts:68-98 | the limit is never 0; a failure gives empty data, total 0, no more pages, and the parameters' limit/offset defaults; a body's limit and offset fall back from server to parameters to 10/0, with zero falling through; hasMore holds only when the server sent total, offset and limit and total > offset + limit; a missing body uses the fallback object's values |
| QuizApi.HasMoreIgnoresDefaults | api/Quiz/quiz.api.ts:84-86 | 30 items and no server limit show limit 10 and offset 0, yet hasMore is false |
| QuizApi.MissingBodyHasNoMore | api/Quiz/quiz.api.ts:74-86 | a missing body with non-negative parameters never claims more pages |
| QuizApi.FetchQuizAll | api/Quiz/quiz.api.ts:68-98 | without parameters an empty query is sent, and otherwise the built one; the result is the normalised answer |
| JsValues.ToJsString | utils/formData.ts:15 | `String(v)`: a string is itself, null and undefined are their names, and a number is its decimal digits, after '-' when negative |
| JsValues.NatToDecimalValue | utils/formData.ts:15 | the decimal digits of n read back as n, with no leading zero except for 0 |
| FormData.EntriesFor | utils/formData.ts:5-15 | a null or undefined value gives no entry; an array gives one `key[]` entry per item in order; anything else gives one entry under `key`, a file kept and other values stringified |
| FormData.FormEntries | utils/formData.ts:4-18 | an object whose fields are all null or undefined gives an empty form |
| FormData.FormEntriesNames | utils/formData.ts:4-15 | every entry is named after a field of the object, as `key` or `key[]` |
| FormData.ItemEntries | utils/formData.ts:6-10 | an array of n items gives n entries under one name, in order, each item kept or stringified, none filtered out |
| FormData.ConcatAppend | utils/formData.ts:4 | concatenating per-element pieces distributes over concatenation |
| FormData.ObjectToFormData | utils/formData.ts:1-21 | the nested loops build exactly `FormEntries(data)` |
| FormData.ItemEntriesSnoc | utils/formData.ts:8-10 | one more item adds exactly its entry at the end |
| FormData.FormEntriesSnoc | utils/formData.ts:4 | one more field adds exactly its entries at the end |
| FormData.FormEntriesAppend | utils/formData.ts:4 | entry order follows field order: two objects' fields in sequence give their forms in sequence |
| FormData.NullishFieldIgnored | utils/formData.ts:5 | a null or undefined field adds no entry wherever it stands |
| FormData.ArrayFieldEntries | utils/formData.ts:6-10 | an array field of n items adds exactly n `key[]` entries, in array order; an empty array adds none |
| FormData.SampleForm | utils/formData.ts:5-15 | an array holding null gives "null", a null field gives nothing, a file stays a file, and 3 becomes "3" |
| Helper.GetHttp | utils/helper.ts:2-7 | null maps to null; "" and anything starting with "http" (https included) come back unchanged; any other string gets "http://" in front |
| Helper.GetHttpHasScheme | utils/helper.ts:2-7 | the result is null, empty, or starts with "http" |
| Helper.GetHttpIdempotent | utils/helper.ts:2-7 | applying it twice equals applying it once |
| Helper.GetHttpExamples | utils/helper.ts:3-4 | "example.com" gets the scheme, and "https://example.com" is kept |
| QuizTypes.WithoutId | stores/Quiz/useQuizStore.ts:14 | the filter keeps no element with the id and never grows the list |
| QuizTypes.WithoutIdMembers | stores/Quiz/useQuizStore.ts:14 | an element survives exactly when it was there and has another id |
| QuizTypes.WithoutIdAppend | stores/Question/useQuestionStore.ts:17 | the filter distributes over concatenation, so survivors keep their order |
| QuizTypes.WithoutAbsentId | stores/Question/useQuestionStore.ts:17 | removing an id nobody has changes nothing |
| QuizTypes.WithoutIdIdempotent | stores/Quiz/useQuizStore.ts:14 | removing the same id twice equals removing it once |
| AuthStore.Auth.constructor | stores/Auth/useAuthStore.ts:12-16 | no user, not authenticated, not loading |
| AuthStore.Auth.IsLoggedIn | stores/Auth/useAuthStore.ts:19 | logged in implies a user and the flag; under the invariant, logged in ⇔ a user is held |
| AuthStore.Auth.SetUser | stores/Auth/useAuthStore.ts:49-52 | user := u and authenticated ⇔ u is a user |
| AuthStore.Auth.ClearUser | stores/Auth/useAuthStore.ts:54-57 | no user and not authenticated |
| AuthStore.Auth.FetchUser | stores/Auth/useAuthStore.ts:24-42 | authenticated with the returned user exactly when the API returns one; otherwise, or on an exception, both are cleared; loading is off afterwards |
| AuthStore.Auth.Logout | stores/Auth/useAuthStore.ts:59-76 | clears only on reported success and returns that report; on failure or an exception the user is kept; loading is off afterwards |
| AuthStore.Auth.InitAuth | stores/Auth/useAuthStore.ts:81-91 | returns the authenticated flag after the fetch; loading is off afterwards |
| AuthStore.Replay | stores/Auth/useAuthStore.ts:12-76 | from the initial state, any sequence of actions keeps authenticated ⇔ user held |
| AuthRefs.AuthRefStore.constructor | stores/Auth/auth.ts:6-7 | no user and not authenticated |
| AuthRefs.AuthRefStore.SetUser | stores/Auth/auth.ts:9-12 | user := the argument and authenticated |
| AuthRefs.AuthRefStore.ClearUser | stores/Auth/auth.ts:14-17 | no user and not authenticated |
| AuthRefs.Replay | stores/Auth/auth.ts:6-17 | after any sequence of calls the invariant holds, and the user held is the one of the last call |
| QuestionModal.ModalStore.constructor | stores/Question/questionModal.ts:7-9 | closed, no question, no quiz id |
| QuestionModal.ModalStore.ToggleQuestionModal | stores/Question/questionModal.ts:12-14 | sets the open flag only |
| QuestionModal.ModalStore.SetCurrentQuestion | stores/Question/questionModal.ts:16-18 | sets the current question only |
| QuestionModal.ModalStore.SetQuizId | stores/Question/questionModal.ts:20-22 | sets the quiz id only |
| QuestionModal.ModalStore.OpenDialog | stores/Question/questionModal.ts:25-28 | opens on the given question (none by default) and keeps the quiz id |
| QuestionModal.ModalStore.CloseDialog | stores/Question/questionModal.ts:30-33 | closes and forgets the question, keeping the quiz id |
| QuestionModal.OpenThenClose | stores/Question/questionModal.ts:20-33 | open, set quiz id, close: back to closed with no question, and the quiz id kept |
| QuizStore.QuizDraft.constructor | types/Quiz/quiz.interface.ts:1-13 | a quiz object with the given id and questions |
| QuizStore.Store.constructor | stores/Quiz/useQuizStore.ts:5 | no quiz |
| QuizStore.Store.AddQuestion | stores/Quiz/useQuizStore.ts:7-11 | with a quiz, the question goes at the end, growing the list by one; without a quiz, nothing changes |
| QuizStore.Store.RemoveQuestion | stores/Quiz/useQuizStore.ts:12-16 | with a quiz, every question with the id goes and the rest keep their order; without a quiz, nothing changes |
| QuizStore.Store.ResetQuiz | stores/Quiz/useQuizStore.ts:17-19 | no quiz |
| QuizStore.AddThenRemove | stores/Quiz/useQuizStore.ts:7-16 | adding a question with a new id and removing that id restores the list |
| QuestionStore.QuestionDraft.constructor | types/Quiz/quiz.interface.ts:15-21 | a question object with the given id and answers |
| QuestionStore.Store.constructor | stores/Question/useQuestionStore.ts:6 | no question |
| QuestionStore.Store.AddChoice | stores/Question/useQuestionStore.ts:10-14 | with a question, the answer goes at the end, growing the list by one; without a question, nothing changes |
| QuestionStore.Store.RemoveChoice | stores/Question/useQuestionStore.ts:15-19 | with a question, every answer with the id goes and the rest keep their order; without a question, nothing changes |
| QuestionStore.Store.ResetQuestion | stores/Question/useQuestionStore.ts:7-9 | no question |

## Left out

- Logging: `console` output and the `isConnected` getter, which returns the
  reactive ref itself, are not modelled.
- Superseded sockets: every event is taken to come from the most recent
  socket. Handlers of an older socket still fire in the browser and act on
  the current fields; the model does not capture that.
- `new WebSocket(url)` throwing (an invalid URL) is not modelled. That path
  rejects the connect promise at websocket.service.ts:88-91.
- `JSON.parse`: a frame is given as already parsed or malformed. Text that
  parses to a primitive other than null reaches only the 'message'
  listeners; the model treats it the same way.
- `JSON.stringify` in `send` is not modelled. It would throw only for cyclic
  or BigInt payloads. Frames are recorded as the action itself.
- Timer durations (`reconnectInterval`): the model tracks only whether a timer
  is pending.
- Listeners that change the registry while `notifyListeners` iterates over it
  are not modelled. A listener is known only by its identity and by whether
  it throws.
- Numbers are integers: NaN, infinities, fractions and floating-point
  rounding of `total / limit` are left out.
- QuizPagination.GetPaginationInfo: requires `limit > 0`. The source divides without a check,
  and a zero limit yields Infinity or NaN pages.
- PaginationStore.Pagination.TotalPages: requires a positive page size. No
  action changes the page size from its initial 10, but outside code could set
  it through Pinia's `$patch`.
- Object key order: an object's entries are taken in the order
  `Object.entries` yields them, as a sequence.
- A `null` field in the server's JSON (arithmetic treats it as 0) is not
  modelled. A server field is either present or missing.
- Which query the server answers: the response is a parameter, unrelated to
  the query sent.
- Asynchrony: each awaited API call happens in one step, so another action
  cannot interleave with an action while `isLoading` is true.
- `loginWithGoogle` (useAuthStore.ts:44-47) is left out. It only redirects the
  browser.
- The `userProfile` getter (useAuthStore.ts:20) is left out. It returns
  `user` unchanged.
- Stores are objects of their own, an instance per class. Pinia's sharing of
  one instance per store id, and the clash between the two `auth` stores, are
  not modelled.
- Shared drafts: the quiz and question objects held by the stores are classes
  updated in place. A question inside a quiz's list is a value, so changing a
  question draft does not show in a quiz that lists it.
- User fields: types/Auth/auth.interface.ts is not part of this model, so a
  user is only an identity.
- `openDialog`'s parameter is typed by its default `null`, but callers pass a
  question. The model takes an optional question.
