/** The request-coalescing table of the Qt HTTP file source, as values.

    `m_pending` maps a request URL to one in-flight network reply and the ordered
    vector of `HTTPRequest` subscribers waiting for it. The network access manager
    is reduced to three logs: the URL of every reply it started (a reply's id is its
    position in that log, so `reply->url()` is `started[id]`), the replies aborted,
    and the `(request, reply)` pairs handed to `HTTPRequest::handleNetworkReply`.

    The three slots of `HTTPFileSource::Impl` are given here as pure state
    transitions; the class in module HttpFileSource is proved against them. */
module PendingTable {

  /** A request URL; URLs are compared by exact equality and never normalised. */
  type Url = string

  /** An `HTTPRequest*` subscriber, compared by identity. */
  type RequestId = nat

  /** A `QNetworkReply*` returned by the network access manager. */
  type ReplyId = nat

  /** The value of `m_pending[url]`: the reply in flight and its subscribers. */
  datatype Entry = Entry(reply: ReplyId, subs: seq<RequestId>)

  /** One call `req->handleNetworkReply(reply)`. */
  datatype Delivery = Delivery(req: RequestId, reply: ReplyId)

  /** The table together with the logs of the calls made to code outside the core. */
  datatype State = State(
    pending: map<Url, Entry>,
    started: seq<Url>,
    aborted: seq<ReplyId>,
    delivered: seq<Delivery>)

  /** The state of a freshly constructed `HTTPFileSource::Impl`. */
  const Initial := State(map[], [], [], [])

  // ---------------------------------------------------------------------------
  // Invariant

  /** No entry of the table is left with an empty subscriber vector. */
  predicate EntriesNonEmpty(pending: map<Url, Entry>)
  {
    forall u :: u in pending ==> |pending[u].subs| > 0
  }

  /** Every stored reply was started by the manager, for the URL it is stored under. */
  predicate RepliesTracked(st: State)
  {
    forall u :: u in st.pending ==>
      st.pending[u].reply < |st.started| && st.started[st.pending[u].reply] == u
  }

  /** Only started replies are aborted, none twice, and none still stored in the table. */
  predicate AbortsSound(st: State)
  {
    && (forall k :: 0 <= k < |st.aborted| ==> st.aborted[k] < |st.started|)
    && (forall i, j :: 0 <= i < j < |st.aborted| ==> st.aborted[i] != st.aborted[j])
    && (forall u :: u in st.pending ==> st.pending[u].reply !in st.aborted)
  }

  predicate Valid(st: State)
  {
    EntriesNonEmpty(st.pending) && RepliesTracked(st) && AbortsSound(st)
  }

  // ---------------------------------------------------------------------------
  // Subscriber vectors

  /** The vector `m_pending[url].second`, empty when `operator[]` would insert a new entry. */
  function Waiting(pending: map<Url, Entry>, url: Url): seq<RequestId>
  {
    if url in pending then pending[url].subs else []
  }

  /** The position at which the index loop of `cancel` stops: the first one holding
      `x`, or `|s|` when `x` does not occur. */
  function FirstIndex(s: seq<RequestId>, x: RequestId): (i: nat)
    ensures i <= |s|
    ensures x !in s[..i]
    ensures i < |s| ==> s[i] == x
  {
    if s == [] || s[0] == x then 0
    else
      var j := FirstIndex(s[1..], x);
      assert s[..j + 1] == [s[0]] + s[1..][..j];
      j + 1
  }

  /** The vector after the loop of `cancel`: the first occurrence of `x` is removed,
      everything else keeps its order; without an occurrence nothing changes. */
  function RemoveFirst(s: seq<RequestId>, x: RequestId): (r: seq<RequestId>)
    ensures x !in s ==> r == s
    ensures multiset(r) == multiset(s) - multiset{x}
  {
    var i := FirstIndex(s, x);
    if i < |s| then
      assert s == s[..i] + [s[i]] + s[i + 1..];
      s[..i] + s[i + 1..]
    else
      assert s[..i] == s;
      s
  }

  /** Any position that holds `x` with no `x` before it is the one `cancel` removes. */
  lemma RemoveFirstAt(s: seq<RequestId>, x: RequestId, i: nat)
    requires i < |s| && s[i] == x && x !in s[..i]
    ensures RemoveFirst(s, x) == s[..i] + s[i + 1..]
  {
  }

  /** The calls made by the loop of `onReplyFinished`: one per subscriber, in
      registration order, all with the same reply. */
  function FanOut(subs: seq<RequestId>, reply: ReplyId): (d: seq<Delivery>)
    ensures |d| == |subs|
    ensures forall k :: 0 <= k < |subs| ==> d[k] == Delivery(subs[k], reply)
  {
    if subs == [] then []
    else FanOut(subs[..|subs| - 1], reply) + [Delivery(subs[|subs| - 1], reply)]
  }

  // ---------------------------------------------------------------------------
  // The three slots as state transitions

  /** `Impl::request`: append the subscriber; only the first subscriber of a URL
      starts a network `get`, whose fresh reply is stored in the entry. */
  function RequestStep(st: State, url: Url, req: RequestId): (r: State)
    // the subscriber is appended; the earlier ones keep their order
    ensures url in r.pending
    ensures var old_ := Waiting(st.pending, url);
      |r.pending[url].subs| == |old_| + 1 && r.pending[url].subs[|old_|] == req &&
      r.pending[url].subs[..|old_|] == old_
    // a get is issued exactly when the vector holds one subscriber after the append
    ensures |r.pending[url].subs| == 1 ==>
      r.started == st.started + [url] && r.pending[url].reply == |st.started|
    ensures |r.pending[url].subs| > 1 ==>
      r.started == st.started && r.pending[url].reply == st.pending[url].reply
    ensures Valid(st) ==> (url in st.pending <==> r.started == st.started)
    // nothing else changes
    ensures r.pending - {url} == st.pending - {url}
    ensures r.aborted == st.aborted && r.delivered == st.delivered
    ensures Valid(st) ==> Valid(r)
  {
    var subs := Waiting(st.pending, url) + [req];
    if |subs| > 1 then
      st.(pending := st.pending[url := Entry(st.pending[url].reply, subs)])
    else
      st.(pending := st.pending[url := Entry(|st.started|, subs)], started := st.started + [url])
  }

  /** `Impl::cancel`: drop the first occurrence of `req` from the URL's vector; when
      that empties the vector, erase the entry and, when `abortOnLast` holds (the
      Qt 5 branch), abort its reply. An unknown URL is a no-op. */
  function CancelStep(st: State, url: Url, req: RequestId, abortOnLast: bool): (r: State)
    ensures url !in st.pending ==> r == st
    ensures url in st.pending ==>
      var e := st.pending[url];
      // the entry stays exactly when a subscriber is left, holding the same reply
      && (url in r.pending <==> RemoveFirst(e.subs, req) != [])
      && (url in r.pending ==> r.pending[url] == Entry(e.reply, RemoveFirst(e.subs, req)))
      // the reply is aborted exactly when the entry goes and the Qt 5 branch is taken
      && (url !in r.pending && abortOnLast ==> r.aborted == st.aborted + [e.reply])
      && (url in r.pending || !abortOnLast ==> r.aborted == st.aborted)
    ensures r.pending - {url} == st.pending - {url}
    ensures r.started == st.started && r.delivered == st.delivered
  {
    if url !in st.pending then st
    else
      var e := st.pending[url];
      var subs := RemoveFirst(e.subs, req);
      if subs == [] then
        st.(pending := st.pending - {url},
            aborted := if abortOnLast then st.aborted + [e.reply] else st.aborted)
      else
        st.(pending := st.pending[url := Entry(e.reply, subs)])
  }

  /** `Impl::onReplyFinished` for `reply`: the entry is found by the reply's URL alone;
      every subscriber of that entry receives the reply, in order, and the entry is
      erased. A URL with no entry is a no-op. */
  function FinishStep(st: State, reply: ReplyId): (r: State)
    requires reply < |st.started|
    ensures st.started[reply] !in st.pending ==> r == st
    ensures st.started[reply] in st.pending ==>
      var subs := st.pending[st.started[reply]].subs;
      && r.pending == st.pending - {st.started[reply]}
      && |r.delivered| == |st.delivered| + |subs|
      && r.delivered[..|st.delivered|] == st.delivered
      && (forall k :: 0 <= k < |subs| ==> r.delivered[|st.delivered| + k] == Delivery(subs[k], reply))
    ensures r.started == st.started && r.aborted == st.aborted
    ensures Valid(st) ==> Valid(r)
  {
    var url := st.started[reply];
    if url !in st.pending then st
    else
      st.(pending := st.pending - {url},
          delivered := st.delivered + FanOut(st.pending[url].subs, reply))
  }
}
