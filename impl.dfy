/** `HTTPFileSource::Impl` as an object: `m_pending` is a map field that the three
    slots update in place, and the network access manager and the subscribers'
    callbacks are the logs `started`, `aborted` and `delivered`. Each slot is proved
    to perform exactly the transition of module PendingTable and to keep its invariant. */
module HttpFileSource {
  import opened PendingTable
  import PendingProperties

  /** The index loop of `Impl::cancel` up to its `break`: the first position holding
      `req`, or `|subs|` when no position does. */
  method IndexOf(subs: seq<RequestId>, req: RequestId) returns (i: nat)
    ensures i <= |subs|
    ensures req !in subs[..i]
    ensures i < |subs| ==> subs[i] == req
  {
    i := 0;
    while i < |subs|
      invariant i <= |subs|
      invariant req !in subs[..i]
    {
      if req == subs[i] {
        return;
      }
      assert subs[..i + 1] == subs[..i] + [subs[i]];
      i := i + 1;
    }
  }

  class Impl {
    /** `m_pending`: URL to (reply in flight, subscribers in registration order). */
    var pending: map<Url, Entry>
    /** The URL of every reply `m_manager->get` returned; a reply's id is its index. */
    var started: seq<Url>
    /** The replies on which `abort()` was called, in order. */
    var aborted: seq<ReplyId>
    /** The calls `req->handleNetworkReply(reply)`, in order. */
    var delivered: seq<Delivery>
    /** True for the Qt 5 build, which aborts the reply when its last subscriber cancels. */
    const abortOnLastCancel: bool

    function Snapshot(): State
      reads this
    {
      State(pending, started, aborted, delivered)
    }

    ghost predicate Valid()
      reads this
    {
      PendingTable.Valid(Snapshot())
    }

    constructor (abortOnLastCancel: bool)
      ensures Valid() && Snapshot() == Initial
      ensures this.abortOnLastCancel == abortOnLastCancel
    {
      pending, started, aborted, delivered := map[], [], [], [];
      this.abortOnLastCancel := abortOnLastCancel;
    }

    /** `m_manager->get(networkRequest)`: a fresh reply for `url`. */
    method NetworkGet(url: Url) returns (reply: ReplyId)
      modifies this
      ensures reply == |old(started)| && started == old(started) + [url]
      ensures pending == old(pending) && aborted == old(aborted) && delivered == old(delivered)
    {
      reply := |started|;
      started := started + [url];
    }

    /** `reply->abort()`. */
    method AbortReply(reply: ReplyId)
      modifies this
      ensures aborted == old(aborted) + [reply]
      ensures pending == old(pending) && started == old(started) && delivered == old(delivered)
    {
      aborted := aborted + [reply];
    }

    /** `req->handleNetworkReply(reply)`. */
    method HandleNetworkReply(req: RequestId, reply: ReplyId)
      modifies this
      ensures delivered == old(delivered) + [Delivery(req, reply)]
      ensures pending == old(pending) && started == old(started) && aborted == old(aborted)
    {
      delivered := delivered + [Delivery(req, reply)];
    }

    /** `Impl::request`: `m_pending[url]` inserts an empty entry when the URL is new;
        the subscriber is appended, and only a vector of size one issues a `get`. */
    method Request(url: Url, req: RequestId)
      requires Valid()
      modifies this
      ensures Valid()
      ensures Snapshot() == RequestStep(old(Snapshot()), url, req)
    {
      // reply id 0 stands for the null pointer of a default-constructed entry; it is
      // replaced below before anything reads it
      var data := if url in pending then pending[url] else Entry(0, []);
      var subs := data.subs + [req];
      pending := pending[url := Entry(data.reply, subs)];
      if |subs| > 1 {
        return;
      }
      var reply := NetworkGet(url);
      pending := pending[url := Entry(reply, subs)];
    }

    /** `Impl::cancel`: the index loop finds and removes the first occurrence of `req`; an
        emptied vector erases the entry and, in the Qt 5 build, aborts its reply. */
    method Cancel(url: Url, req: RequestId)
      requires Valid()
      modifies this
      ensures Valid()
      ensures Snapshot() == CancelStep(old(Snapshot()), url, req, abortOnLastCancel)
    {
      ghost var before := Snapshot();
      if url !in pending {
        return;
      }
      var data := pending[url];
      var reply := data.reply;
      var subs := data.subs;
      var i := IndexOf(subs, req);
      if i < |subs| {
        RemoveFirstAt(subs, req, i);
        subs := subs[..i] + subs[i + 1..];
      } else {
        assert subs[..|subs|] == subs;
      }
      assert subs == RemoveFirst(data.subs, req);
      if |subs| == 0 {
        pending := pending - {url};
        if abortOnLastCancel {
          AbortReply(reply);
        }
      } else {
        pending := pending[url := Entry(reply, subs)];
      }
      assert Snapshot() == CancelStep(before, url, req, abortOnLastCancel);
      PendingProperties.CancelPreservesValid(before, url, req, abortOnLastCancel);
    }

    /** `Impl::onReplyFinished` for `reply`: the entry is looked up by the reply's URL;
        every subscriber is handed the reply in order, then the entry is erased. */
    method OnReplyFinished(reply: ReplyId)
      requires Valid() && reply < |started|
      modifies this
      ensures Valid()
      ensures Snapshot() == FinishStep(old(Snapshot()), reply)
    {
      var url := started[reply];
      if url !in pending {
        return;
      }
      var subs := pending[url].subs;
      for i := 0 to |subs|
        invariant delivered == old(delivered) + FanOut(subs[..i], reply)
        invariant pending == old(pending) && started == old(started) && aborted == old(aborted)
      {
        assert subs[..i + 1][..i] == subs[..i];
        HandleNetworkReply(subs[i], reply);
      }
      assert subs[..|subs|] == subs;
      pending := pending - {url};
    }
  }
}
