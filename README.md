# Request coalescing in the Qt HTTP file source

This project models `HTTPFileSource::Impl` of the Qt platform layer of mapbox-gl-native
(`platform/qt/src/http_file_source.cpp`). The class keeps one table, `m_pending`. It maps a
request URL to a pair: the one `QNetworkReply` in flight for that URL, and the ordered vector of
`HTTPRequest*` subscribers waiting for it. Three slots work on the table:

- `request` appends a subscriber. Only the first subscriber for a URL issues a network `get`.
- `cancel` removes the first occurrence of a subscriber. When that empties the vector, it erases
  the entry and, in the Qt 5 build, aborts the reply.
- `onReplyFinished` finds the entry by the finishing reply's URL. It hands the reply to every
  subscriber in registration order and then erases the entry.

The project has three modules:

- `PendingTable` (`pending.dfy`) holds the entry and state datatypes and the table invariant
  `Valid`. It also holds the subscriber-vector functions `FirstIndex`, `RemoveFirst` and
  `FanOut`, and the three slots as pure transitions `RequestStep`, `CancelStep` and `FinishStep`.
  Each transition's contract states the slot's promise.
- `PendingProperties` (`properties.dfy`) holds the lemmas that relate several calls. Every
  reachable state satisfies the invariant. Coalesced requests share one reply. Cancellation is
  independent per subscriber. The last cancel aborts. A URL whose entry is gone gets a fresh
  `get`. A whole scenario is worked through event by event.
- `HttpFileSource` (`impl.dfy`) holds the class `Impl`. Its map field is updated in place by the
  methods `Request`, `Cancel` and `OnReplyFinished`. These contain the source's loops: the index
  loop of `cancel` (`IndexOf`) and the delivery loop of `onReplyFinished`. Each method is proved
  to perform exactly its transition and to keep `Valid`.

Calls into Qt and into `HTTPRequest` become logs. The network access manager is the sequence
`started`, which holds the URL of every reply it returned. A reply's id is its position in
`started`, so `reply->url()` is `started[reply]`, and a new reply id is always fresh. `abort()`
calls are logged in `aborted`. Calls of `req->handleNetworkReply(reply)` are logged in
`delivered`. The preprocessor choice between Qt 5 and Qt 4 in `cancel` is the constant
`abortOnLastCancel` of `Impl`, passed as `abortOnLast` to the transition.

Three behaviours of the code are worth stating explicitly:

- The code has no generation token. A finishing reply is matched to an entry by its URL alone
  (line 96). It is never compared with the reply stored in the entry. `FinishMatchesByUrlOnly`
  and `Qt4StaleReplyRun` state what follows from this. In the Qt 4 build, a cancelled reply
  keeps running. If a new request for the same URL is waiting when that reply finishes, the new
  request receives the old reply and its entry is erased. Its own reply later finds no entry.
- The code erases the entry after the delivery loop (line 109), not before it.
- `cancel` removes one occurrence per call. Calling it twice is a no-op only when the request
  was registered once (`CancelIdempotent`). A request appended twice is removed in two calls.

## Model

| member | source | states |
|---|---|---|
| PendingTable.FirstIndex | platform/qt/src/http_file_source.cpp:72-77 | the index loop of `cancel` stops at the first position holding the request, with no earlier occurrence, or at the end when there is none |
| PendingTable.RemoveFirst | platform/qt/src/http_file_source.cpp:72-77 | removing from the vector takes away exactly one copy of the request (multiset difference), and an absent request leaves the vector unchanged |
| PendingTable.RemoveFirstAt | platform/qt/src/http_file_source.cpp:72-77 | the removed position is the first occurrence: the vector is cut there, and everything before and after keeps its order |
| PendingTable.FanOut | platform/qt/src/http_file_source.cpp:105-107 | the delivery loop makes one call per subscriber, in registration order, all with the same reply |
| PendingTable.RequestStep | platform/qt/src/http_file_source.cpp:39-57 | the request becomes the last subscriber and the earlier ones are unchanged; a `get` with a fresh reply happens exactly when the vector has one element after the append (for a valid table: exactly when the URL had no entry); otherwise the stored reply is kept; other URLs and the abort and delivery logs are untouched; the invariant is kept |
| PendingTable.CancelStep | platform/qt/src/http_file_source.cpp:59-91 | an unknown URL leaves the state unchanged; otherwise the entry keeps its reply with the first occurrence removed, and it is erased exactly when that leaves no subscriber; the reply is aborted exactly when the entry is erased in the Qt 5 branch; other URLs, the started replies and the deliveries are untouched |
| PendingTable.FinishStep | platform/qt/src/http_file_source.cpp:93-111 | a reply whose URL has no entry changes nothing; otherwise each subscriber of that URL's entry receives the reply once, in order, appended to the delivery log, and only that entry is erased; the invariant is kept |
| PendingProperties.InitialValid | platform/qt/src/http_file_source.cpp:20 | the empty table of a new source satisfies the invariant |
| PendingProperties.ErasePreservesValid | platform/qt/src/http_file_source.cpp:79-83 | erasing an entry, with or without aborting its reply, keeps the invariant, including that no reply is aborted twice or aborted while still stored |
| PendingProperties.ShrinkPreservesValid | platform/qt/src/http_file_source.cpp:72-79 | an entry whose vector stays non-empty after a removal keeps the invariant |
| PendingProperties.CancelPreservesValid | platform/qt/src/http_file_source.cpp:59-91 | `cancel` keeps every entry non-empty, every stored reply tracked, and aborts each reply at most once |
| PendingProperties.StepPreservesValid | platform/qt/src/http_file_source.cpp:39-111 | each of the three slots keeps the invariant |
| PendingProperties.RunPreservesValid | platform/qt/src/http_file_source.cpp:39-111 | any sequence of requests, cancels and reply signals keeps the invariant |
| PendingProperties.ReachableValid | platform/qt/src/http_file_source.cpp:39-111 | every state reachable from a new source satisfies the invariant, so no entry is ever empty |
| PendingProperties.RunLogsGrow | platform/qt/src/http_file_source.cpp:39-111 | started replies, aborts and deliveries are only ever appended to |
| PendingProperties.Qt4NeverAborts | platform/qt/src/http_file_source.cpp:84-88 | in the Qt 4 branch no sequence of events aborts a reply |
| PendingProperties.OneReplyPerUrl | platform/qt/src/http_file_source.cpp:43-54 | in a valid table, distinct URLs hold distinct replies |
| PendingProperties.Coalescing | platform/qt/src/http_file_source.cpp:39-57 | two requests for a URL without an entry start one `get`; on completion both receive that reply, in order, and the entry is gone |
| PendingProperties.IndependentCancel | platform/qt/src/http_file_source.cpp:72-80 | with two coalesced subscribers, cancelling one aborts nothing and the reply later reaches only the other |
| PendingProperties.LastCancelAborts | platform/qt/src/http_file_source.cpp:79-83 | cancelling the only subscriber (Qt 5) erases the entry and aborts its not-yet-aborted reply once; the next request starts a different reply |
| PendingProperties.RequestAfterFinishStartsFresh | platform/qt/src/http_file_source.cpp:104-109 | after completion erases a URL's entry, a new request for it issues a new `get` with a new reply |
| PendingProperties.CancelIdempotent | platform/qt/src/http_file_source.cpp:59-91 | for a request registered at most once, a second `cancel` changes nothing |
| PendingProperties.CancelAfterFinish | platform/qt/src/http_file_source.cpp:63-66 | `cancel` after the reply finished finds no entry and changes nothing |
| PendingProperties.FinishMatchesByUrlOnly | platform/qt/src/http_file_source.cpp:95-98 | a reply other than the stored one, finishing for a pending URL, is still delivered to that URL's current subscribers, and the entry is erased |
| PendingProperties.JoinThenCancelRun | platform/qt/src/http_file_source.cpp:43-80 | request 1 starts reply 0, request 2 joins without a `get`, and request 2's cancel leaves request 1 waiting with nothing aborted |
| PendingProperties.FinishThenRequestRun | platform/qt/src/http_file_source.cpp:93-111 | reply 0 reaches request 1 alone, and a later request 3 starts reply 1 |
| PendingProperties.CoalesceCancelFinishRun | platform/qt/src/http_file_source.cpp:39-111 | the whole scenario: two `get`s in all, one delivery to request 1, no abort, and request 3 waiting on the new reply |
| PendingProperties.Qt4CancelThenRequestRun | platform/qt/src/http_file_source.cpp:84-88 | in the Qt 4 branch a last cancel erases the entry without aborting, and a new request starts a second reply |
| PendingProperties.Qt4StaleReplyRun | platform/qt/src/http_file_source.cpp:96-109 | the first, unaborted reply finishing is delivered to the newer request, and the newer reply then finds no entry |
| HttpFileSource.IndexOf | platform/qt/src/http_file_source.cpp:72-77 | the loop returns the first index holding the request, with no earlier occurrence, or the vector's size when it is absent |
| HttpFileSource.Impl.constructor | platform/qt/src/http_file_source.cpp:20 | a new source has an empty table and empty logs, which satisfy the invariant |
| HttpFileSource.Impl.NetworkGet | platform/qt/src/http_file_source.cpp:54 | `get` returns a fresh reply id and records its URL, and changes nothing else |
| HttpFileSource.Impl.AbortReply | platform/qt/src/http_file_source.cpp:82 | `abort()` is recorded once and changes nothing else |
| HttpFileSource.Impl.HandleNetworkReply | platform/qt/src/http_file_source.cpp:106 | one delivery is recorded and nothing else changes |
| HttpFileSource.Impl.Request | platform/qt/src/http_file_source.cpp:39-57 | the new table and logs are exactly `RequestStep` of the old ones, and the invariant is kept |
| HttpFileSource.Impl.Cancel | platform/qt/src/http_file_source.cpp:59-91 | the new table and logs are exactly `CancelStep` of the old ones for the build's branch, and the invariant is kept |
| HttpFileSource.Impl.OnReplyFinished | platform/qt/src/http_file_source.cpp:93-111 | the new table and logs are exactly `FinishStep` of the old ones, and the invariant is kept |

## Left out

- The constructor's proxy, TLS protocol and CA-bundle setup (lines 20-37) and `initResources` are
  Qt configuration and resource loading, with no logic that bears on the table.
- Building the `QNetworkRequest` and attaching the SSL configuration (lines 51-52) are left out.
  Only the `get` itself is modelled, as a fresh reply id.
- Reply lifetime (`deleteLater`, lines 100 and 110) is not modelled. Replies are ids that are
  never freed.
- The `connect` calls (lines 55-56) hook both `finished` and `error` to `onReplyFinished`. The
  model lets any started reply signal at any time and any number of times, which covers both.
  It does not model Qt's rule that `abort()` emits `finished` at once. So in the model's Qt 5
  branch an aborted reply can still finish later and reach a newer entry for the same URL, and
  no lemma claims that late completions of aborted replies are discarded.
- `HTTPRequest` and its `handleNetworkReply` are not part of this model. The callback is only
  recorded. Calls back into `request` or `cancel` made from inside it are not modelled. In the
  code, a `request` for the same URL made from inside `handleNetworkReply` is appended to the
  vector that the loop at lines 105-107 is walking. Line 109 then erases it, with neither a `get`
  nor a delivery, so that request is lost. This is the one case where a request after a
  completion does not start a fresh `get`.
- `HTTPFileSource::request` (lines 119-122) only constructs an `HTTPRequest`, which registers
  itself through `Impl::request`. The model takes the request's URL as an argument.
- `maximumConcurrentRequests` (lines 124-130) is a build-time constant. Admission is enforced
  by the caller.
- URLs are compared as exact strings. `QUrl` normalisation is not modelled.
- The `Cancel` method writes the shortened vector back only when it is non-empty. The
  code writes it back in place and then erases the entry. The resulting states are the same.
- FinishStep: assumes that `reply->url()` (line 96) is the URL the entry was stored under, that
  is, that the `QNetworkRequest` built at line 51 carries `req->requestUrl()` and that Qt does
  not rewrite the reply's URL, for example after a redirect. `HTTPRequest` is not part of this
  model, so this cannot be checked here. If the two URLs differed, line 98 would find no entry.
  The entry would then never be erased, and every later `request` for that URL would join it at
  line 47 without a `get`. `Coalescing`, `RequestAfterFinishStartsFresh` and the delivery clause
  of `FinishStep` hold only under this assumption.
