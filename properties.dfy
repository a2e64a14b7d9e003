/** What the coalescing table promises over several calls: the invariant holds in
    every reachable state, requests for one URL share one reply, cancellation is
    independent per subscriber, and a URL whose entry is gone gets a fresh reply. */
module PendingProperties {
  import opened PendingTable

  /** An event the table reacts to: a call of `request` or `cancel` for a request
      whose URL is `url`, or the `finished`/`error` signal of a reply. */
  datatype Event =
    | Requested(url: Url, req: RequestId)
    | Cancelled(url: Url, req: RequestId)
    | Finished(reply: ReplyId)

  /** One event. Only replies the manager returned can emit a signal, so a
      `Finished` for any other id does not occur and leaves the state alone. */
  function Step(st: State, ev: Event, abortOnLast: bool): State
  {
    match ev
    case Requested(url, req) => RequestStep(st, url, req)
    case Cancelled(url, req) => CancelStep(st, url, req, abortOnLast)
    case Finished(reply) => if reply < |st.started| then FinishStep(st, reply) else st
  }

  /** The state after the events of `evs`, in order. */
  function Run(st: State, evs: seq<Event>, abortOnLast: bool): State
    decreases |evs|
  {
    if evs == [] then st else Run(Step(st, evs[0], abortOnLast), evs[1..], abortOnLast)
  }

  // ---------------------------------------------------------------------------
  // The invariant

  lemma InitialValid()
    ensures Valid(Initial)
  {
  }

  /** Erasing an entry, and aborting its reply, keeps the invariant: the reply
      belongs to that URL alone and was never aborted before. */
  lemma ErasePreservesValid(st: State, url: Url, abort: bool)
    requires Valid(st) && url in st.pending
    ensures var reply := st.pending[url].reply;
      Valid(st.(pending := st.pending - {url},
                aborted := if abort then st.aborted + [reply] else st.aborted))
  {
  }

  /** Replacing an entry's vector by a non-empty one keeps the invariant. */
  lemma ShrinkPreservesValid(st: State, url: Url, rest: seq<RequestId>)
    requires Valid(st) && url in st.pending && rest != []
    ensures Valid(st.(pending := st.pending[url := Entry(st.pending[url].reply, rest)]))
  {
  }

  /** `cancel` keeps every entry non-empty and aborts a reply at most once. */
  lemma CancelPreservesValid(st: State, url: Url, req: RequestId, abortOnLast: bool)
    requires Valid(st)
    ensures Valid(CancelStep(st, url, req, abortOnLast))
  {
    if url in st.pending {
      var rest := RemoveFirst(st.pending[url].subs, req);
      if rest == [] {
        ErasePreservesValid(st, url, abortOnLast);
      } else {
        ShrinkPreservesValid(st, url, rest);
      }
    }
  }

  lemma StepPreservesValid(st: State, ev: Event, abortOnLast: bool)
    requires Valid(st)
    ensures Valid(Step(st, ev, abortOnLast))
  {
    if ev.Cancelled? {
      CancelPreservesValid(st, ev.url, ev.req, abortOnLast);
    }
  }

  /** Every state reachable by `request`, `cancel` and reply signals satisfies the
      invariant: no entry is empty and each stored reply is live and started for its URL. */
  lemma {:induction false} RunPreservesValid(st: State, evs: seq<Event>, abortOnLast: bool)
    requires Valid(st)
    ensures Valid(Run(st, evs, abortOnLast))
    decreases |evs|
  {
    if evs != [] {
      StepPreservesValid(st, evs[0], abortOnLast);
      RunPreservesValid(Step(st, evs[0], abortOnLast), evs[1..], abortOnLast);
    }
  }

  lemma ReachableValid(evs: seq<Event>, abortOnLast: bool)
    ensures Valid(Run(Initial, evs, abortOnLast))
  {
    InitialValid();
    RunPreservesValid(Initial, evs, abortOnLast);
  }

  /** The logs of the manager and of the callbacks only grow. */
  lemma {:induction false} RunLogsGrow(st: State, evs: seq<Event>, abortOnLast: bool)
    ensures var r := Run(st, evs, abortOnLast);
      st.started <= r.started && st.aborted <= r.aborted && st.delivered <= r.delivered
    decreases |evs|
  {
    if evs != [] {
      RunLogsGrow(Step(st, evs[0], abortOnLast), evs[1..], abortOnLast);
    }
  }

  /** In the Qt 4 branch `cancel` never aborts a reply. */
  lemma {:induction false} Qt4NeverAborts(st: State, evs: seq<Event>)
    ensures Run(st, evs, false).aborted == st.aborted
    decreases |evs|
  {
    if evs != [] {
      Qt4NeverAborts(Step(st, evs[0], false), evs[1..]);
    }
  }

  /** Distinct pending URLs never hold the same reply. */
  lemma OneReplyPerUrl(st: State, u: Url, v: Url)
    requires Valid(st) && u in st.pending && v in st.pending && u != v
    ensures st.pending[u].reply != st.pending[v].reply
  {
  }

  // ---------------------------------------------------------------------------
  // Coalescing, fan-out and cancellation

  /** Two requests for a URL with no entry start one `get`; when it finishes both
      subscribers receive that one reply, in the order they registered. */
  lemma Coalescing(st: State, url: Url, a: RequestId, b: RequestId)
    requires Valid(st) && url !in st.pending
    ensures var s := RequestStep(RequestStep(st, url, a), url, b);
      && s.started == st.started + [url]
      && s.pending[url] == Entry(|st.started|, [a, b])
      && FinishStep(s, |st.started|).delivered
         == st.delivered + [Delivery(a, |st.started|), Delivery(b, |st.started|)]
      && url !in FinishStep(s, |st.started|).pending
  {
  }

  /** With `a` and `b` coalesced, cancelling `a` aborts nothing and keeps `b`: the
      reply reaches `b` alone. */
  lemma IndependentCancel(st: State, url: Url, a: RequestId, b: RequestId, abortOnLast: bool)
    requires Valid(st) && url !in st.pending && a != b
    ensures var s := CancelStep(RequestStep(RequestStep(st, url, a), url, b), url, a, abortOnLast);
      && s.aborted == st.aborted
      && s.pending[url] == Entry(|st.started|, [b])
      && FinishStep(s, |st.started|).delivered == st.delivered + [Delivery(b, |st.started|)]
  {
  }

  /** When the last subscriber cancels (Qt 5 branch) the entry goes and its reply,
      never aborted before, is aborted once; the next request starts a new reply. */
  lemma LastCancelAborts(st: State, url: Url, req: RequestId, next: RequestId)
    requires Valid(st) && url in st.pending && st.pending[url].subs == [req]
    ensures var s := CancelStep(st, url, req, true);
      && url !in s.pending
      && st.pending[url].reply !in st.aborted
      && s.aborted == st.aborted + [st.pending[url].reply]
      && RequestStep(s, url, next).pending[url] == Entry(|st.started|, [next])
      && RequestStep(s, url, next).pending[url].reply != st.pending[url].reply
  {
  }

  /** A request for a URL whose entry was just erased by its reply finishing starts
      a fresh `get` instead of joining the finished one. */
  lemma RequestAfterFinishStartsFresh(st: State, url: Url, req: RequestId)
    requires Valid(st) && url in st.pending
    ensures var r := RequestStep(FinishStep(st, st.pending[url].reply), url, req);
      && r.started == st.started + [url]
      && r.pending[url] == Entry(|st.started|, [req])
      && r.pending[url].reply != st.pending[url].reply
  {
  }

  /** `cancel` twice for a request registered once is `cancel` once: the second
      call neither removes another subscriber nor aborts again. */
  lemma CancelIdempotent(st: State, url: Url, req: RequestId, abortOnLast: bool)
    requires multiset(Waiting(st.pending, url))[req] <= 1
    ensures var once := CancelStep(st, url, req, abortOnLast);
      CancelStep(once, url, req, abortOnLast) == once
  {
    var once := CancelStep(st, url, req, abortOnLast);
    if url in once.pending {
      var rest := RemoveFirst(st.pending[url].subs, req);
      var left: multiset<RequestId> := multiset(rest);
      assert left[req] == 0;
      assert req !in rest;
      assert once.pending[url] == Entry(st.pending[url].reply, rest);
      assert once.pending[url := Entry(st.pending[url].reply, rest)] == once.pending;
    }
  }

  /** Cancelling after the reply finished is a no-op. */
  lemma CancelAfterFinish(st: State, reply: ReplyId, req: RequestId, abortOnLast: bool)
    requires reply < |st.started|
    ensures var f := FinishStep(st, reply);
      CancelStep(f, st.started[reply], req, abortOnLast) == f
  {
  }

  /** The reply is matched to an entry by its URL alone: a reply that is not the one
      stored in the entry (one left running by the Qt 4 branch, say) is still handed
      to every current subscriber of that URL, and the entry is erased. */
  lemma FinishMatchesByUrlOnly(st: State, reply: ReplyId)
    requires Valid(st) && reply < |st.started|
    requires st.started[reply] in st.pending && st.pending[st.started[reply]].reply != reply
    ensures var f := FinishStep(st, reply);
      && f.delivered == st.delivered + FanOut(st.pending[st.started[reply]].subs, reply)
      && st.started[reply] !in f.pending
  {
  }

  // ---------------------------------------------------------------------------
  // Whole runs

  /** Running two event sequences one after the other is running their concatenation. */
  lemma {:induction false} RunConcat(st: State, a: seq<Event>, b: seq<Event>, abortOnLast: bool)
    ensures Run(st, a + b, abortOnLast) == Run(Run(st, a, abortOnLast), b, abortOnLast)
    decreases |a|
  {
    if a != [] {
      assert (a + b)[0] == a[0] && (a + b)[1..] == a[1..] + b;
      RunConcat(Step(st, a[0], abortOnLast), a[1..], b, abortOnLast);
    } else {
      assert a + b == b;
    }
  }

  /** Request 1 starts a `get`, request 2 joins it, then request 2 cancels: the
      entry keeps request 1 and nothing is aborted. */
  lemma JoinThenCancelRun(d: Url)
    ensures Run(Initial, [Requested(d, 1), Requested(d, 2), Cancelled(d, 2)], true)
      == State(map[d := Entry(0, [1])], [d], [], [])
  {
    var e3 := [Requested(d, 1), Requested(d, 2), Cancelled(d, 2)];
    var s1 := RequestStep(Initial, d, 1);
    assert s1 == State(map[d := Entry(0, [1])], [d], [], []);
    var s2 := RequestStep(s1, d, 2);
    assert Waiting(s1.pending, d) + [2] == [1, 2];
    assert s2 == State(map[d := Entry(0, [1, 2])], [d], [], []);
    assert RemoveFirst([1, 2], 2) == [1];
    var s3 := CancelStep(s2, d, 2, true);
    assert s3 == State(map[d := Entry(0, [1])], [d], [], []);
    assert Run(Initial, e3, true) == Run(s1, e3[1..], true);
    assert Run(s1, e3[1..], true) == Run(s2, e3[2..], true);
    assert Run(s2, e3[2..], true) == Run(s3, [], true);
  }

  /** The reply finishes and reaches request 1 alone; a later request 3 for the same
      URL starts a second `get`. */
  lemma FinishThenRequestRun(d: Url)
    ensures Run(State(map[d := Entry(0, [1])], [d], [], []), [Finished(0), Requested(d, 3)], true)
      == State(map[d := Entry(1, [3])], [d, d], [], [Delivery(1, 0)])
  {
    var s3 := State(map[d := Entry(0, [1])], [d], [], []);
    var e2 := [Finished(0), Requested(d, 3)];
    var s4 := FinishStep(s3, 0);
    assert s4 == State(map[], [d], [], [Delivery(1, 0)]);
    var s5 := RequestStep(s4, d, 3);
    assert s5 == State(map[d := Entry(1, [3])], [d, d], [], [Delivery(1, 0)]);
    assert Run(s3, e2, true) == Run(s4, e2[1..], true);
    assert Run(s4, e2[1..], true) == Run(s5, [], true);
  }

  /** Request 1, request 2 joins it, request 2 cancels, the reply finishes, and a
      later request 3 starts a second `get`: one `get` served the first two requests,
      request 2 received nothing, and no reply was aborted. */
  lemma CoalesceCancelFinishRun()
    ensures var d := "res://tileset/12/34/56";
      var r := Run(Initial, [Requested(d, 1), Requested(d, 2), Cancelled(d, 2), Finished(0), Requested(d, 3)], true);
      && r.started == [d, d]
      && r.delivered == [Delivery(1, 0)]
      && r.aborted == []
      && r.pending == map[d := Entry(1, [3])]
  {
    var d := "res://tileset/12/34/56";
    var a := [Requested(d, 1), Requested(d, 2), Cancelled(d, 2)];
    var b := [Finished(0), Requested(d, 3)];
    assert a + b == [Requested(d, 1), Requested(d, 2), Cancelled(d, 2), Finished(0), Requested(d, 3)];
    RunConcat(Initial, a, b, true);
    JoinThenCancelRun(d);
    FinishThenRequestRun(d);
  }

  /** Qt 4 branch: request 1 starts reply 0 and cancels, which erases the entry but
      leaves reply 0 running; request 2 for the same URL then starts reply 1. */
  lemma Qt4CancelThenRequestRun(u: Url)
    ensures Run(Initial, [Requested(u, 1), Cancelled(u, 1), Requested(u, 2)], false)
      == State(map[u := Entry(1, [2])], [u, u], [], [])
  {
    var e3 := [Requested(u, 1), Cancelled(u, 1), Requested(u, 2)];
    var s1 := RequestStep(Initial, u, 1);
    assert s1 == State(map[u := Entry(0, [1])], [u], [], []);
    assert RemoveFirst([1], 1) == [];
    var s2 := CancelStep(s1, u, 1, false);
    assert s2 == State(map[], [u], [], []);
    var s3 := RequestStep(s2, u, 2);
    assert s3 == State(map[u := Entry(1, [2])], [u, u], [], []);
    assert Run(Initial, e3, false) == Run(s1, e3[1..], false);
    assert Run(s1, e3[1..], false) == Run(s2, e3[2..], false);
    assert Run(s2, e3[2..], false) == Run(s3, [], false);
  }

  /** In the Qt 4 branch a cancelled reply keeps running. When a new request for the
      same URL is waiting by the time it finishes, that request receives the old reply,
      and its own reply later finds no entry and is discarded. */
  lemma Qt4StaleReplyRun()
    ensures var u := "res://tile";
      var s := Run(Initial, [Requested(u, 1), Cancelled(u, 1), Requested(u, 2), Finished(0)], false);
      && s.delivered == [Delivery(2, 0)]
      && s.pending == map[]
      && Run(s, [Finished(1)], false) == s
  {
    var u := "res://tile";
    var a := [Requested(u, 1), Cancelled(u, 1), Requested(u, 2)];
    assert a + [Finished(0)] == [Requested(u, 1), Cancelled(u, 1), Requested(u, 2), Finished(0)];
    RunConcat(Initial, a, [Finished(0)], false);
    Qt4CancelThenRequestRun(u);
    var s3 := State(map[u := Entry(1, [2])], [u, u], [], []);
    var s4 := FinishStep(s3, 0);
    assert s4 == State(map[], [u, u], [], [Delivery(2, 0)]);
    assert Run(s3, [Finished(0)], false) == Run(s4, [], false);
    assert Run(s4, [Finished(1)], false) == Run(FinishStep(s4, 1), [], false);
  }
}
