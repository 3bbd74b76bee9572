/** The segment downloader of downloader.go. It drains its work queue in
    order; for every URL it makes one request, skips the item on a
    transport error, a nil response or a non-200 status, and otherwise
    copies the body to its output, adds the bytes to a running total,
    recomputes the rate when the copy took a measurable time, and sends one
    `Status` naming the URL. */
module SegmentDownloader {
  import opened Hls

  /** What is sent on the status channel after each copied segment. */
  datatype Status = Status(bytesTotal: int, bytesPerSecond: int, lastFile: string)

  const NanosPerSecond: nat := 1_000_000_000

  /** `bytesTotal` after the replies `replies`: the bytes of the 200
      bodies. */
  function Total(replies: seq<Response<Transfer>>): nat {
    if replies == [] then 0
    else
      var last := replies[|replies| - 1];
      Total(replies[..|replies| - 1]) + (if Delivered(last) then |last.body.bytes| else 0)
  }

  /** The rate of one copy of `bytes` bytes that took `nanos` nanoseconds,
      truncated to a whole number of bytes per second. */
  function CopyRate(bytes: nat, nanos: nat): (r: nat)
    requires nanos != 0
    ensures r * nanos <= bytes * NanosPerSecond < (r + 1) * nanos
  {
    bytes * NanosPerSecond / nanos
  }

  /** `bytesPerSecond` after the replies `replies`: the rate of the last
      200 reply whose copy took a nonzero time, 0 when there is none. */
  function Rate(replies: seq<Response<Transfer>>): nat {
    if replies == [] then 0
    else
      var last := replies[|replies| - 1];
      if Delivered(last) && last.body.nanos != 0 then CopyRate(|last.body.bytes|, last.body.nanos)
      else Rate(replies[..|replies| - 1])
  }

  /** The statuses sent while downloading `uris`, whose replies are
      `replies`: one for each 200 reply, carrying the running total, the
      current rate and the URL. */
  function Reports(uris: seq<string>, replies: seq<Response<Transfer>>): (r: seq<Status>)
    requires |uris| == |replies|
    ensures |r| <= |replies|
  {
    if replies == [] then []
    else
      var k := |replies| - 1;
      Reports(uris[..k], replies[..k])
        + (if Delivered(replies[k]) then [Status(Total(replies), Rate(replies), uris[k])] else [])
  }

  /** The URLs whose download succeeded, in work-queue order. */
  function DeliveredUris(uris: seq<string>, replies: seq<Response<Transfer>>): (r: seq<string>)
    requires |uris| == |replies|
  {
    if replies == [] then []
    else
      var k := |replies| - 1;
      DeliveredUris(uris[..k], replies[..k]) + (if Delivered(replies[k]) then [uris[k]] else [])
  }

  function Files(statuses: seq<Status>): (r: seq<string>)
    ensures |r| == |statuses|
    ensures forall i :: 0 <= i < |statuses| ==> r[i] == statuses[i].lastFile
  {
    seq(|statuses|, i requires 0 <= i < |statuses| => statuses[i].lastFile)
  }

  /** The running total is exactly the number of bytes written. */
  lemma {:induction false} TotalIsCopied(replies: seq<Response<Transfer>>)
    ensures Total(replies) == |Copied(replies)|
  {
    if replies != [] {
      TotalIsCopied(replies[..|replies| - 1]);
    }
  }

  /** Exactly one status per successful download, naming it: the files
      reported are the successful URLs, in work-queue order. */
  lemma {:induction false} ReportsNameDeliveredUris(uris: seq<string>, replies: seq<Response<Transfer>>)
    requires |uris| == |replies|
    ensures Files(Reports(uris, replies)) == DeliveredUris(uris, replies)
  {
    if replies != [] {
      var k := |replies| - 1;
      ReportsNameDeliveredUris(uris[..k], replies[..k]);
    }
  }

  /** Every status reports at most the final total, and the last one
      reports exactly the final total. */
  lemma {:induction false} ReportsBoundedByTotal(uris: seq<string>, replies: seq<Response<Transfer>>)
    requires |uris| == |replies|
    ensures var r := Reports(uris, replies);
      && (forall i :: 0 <= i < |r| ==> r[i].bytesTotal <= Total(replies))
      && (r != [] ==> r[|r| - 1].bytesTotal == Total(replies))
  {
    if replies != [] {
      var k := |replies| - 1;
      ReportsBoundedByTotal(uris[..k], replies[..k]);
    }
  }

  /** The totals reported never decrease. */
  lemma {:induction false} TotalsNeverDecrease(uris: seq<string>, replies: seq<Response<Transfer>>)
    requires |uris| == |replies|
    ensures var r := Reports(uris, replies);
      forall i, j :: 0 <= i <= j < |r| ==> r[i].bytesTotal <= r[j].bytesTotal
  {
    if replies != [] {
      var k := |replies| - 1;
      TotalsNeverDecrease(uris[..k], replies[..k]);
      ReportsBoundedByTotal(uris[..k], replies[..k]);
    }
  }

  /** A failed item changes nothing: no bytes, no status, the same total
      and the same rate. */
  lemma SkipChangesNothing(uris: seq<string>, replies: seq<Response<Transfer>>, uri: string, reply: Response<Transfer>)
    requires |uris| == |replies| && !Delivered(reply)
    ensures Copied(replies + [reply]) == Copied(replies)
    ensures Total(replies + [reply]) == Total(replies)
    ensures Rate(replies + [reply]) == Rate(replies)
    ensures Reports(uris + [uri], replies + [reply]) == Reports(uris, replies)
  {
    assert (replies + [reply])[..|replies|] == replies;
    assert (uris + [uri])[..|uris|] == uris;
  }

  /** A successful item adds its bytes to the total and reports the total,
      the rate of this copy when it took a nonzero time and otherwise the
      previous rate, and its URL. */
  lemma DeliveryReport(uris: seq<string>, replies: seq<Response<Transfer>>, uri: string, reply: Response<Transfer>)
    requires |uris| == |replies| && Delivered(reply)
    ensures Copied(replies + [reply]) == Copied(replies) + reply.body.bytes
    ensures Total(replies + [reply]) == Total(replies) + |reply.body.bytes|
    ensures Rate(replies + [reply])
         == if reply.body.nanos != 0 then CopyRate(|reply.body.bytes|, reply.body.nanos) else Rate(replies)
    ensures Reports(uris + [uri], replies + [reply]) == Reports(uris, replies) + [Status(
      Total(replies) + |reply.body.bytes|,
      if reply.body.nanos != 0 then CopyRate(|reply.body.bytes|, reply.body.nanos) else Rate(replies),
      uri)]
  {
    assert (replies + [reply])[..|replies|] == replies;
    assert (uris + [uri])[..|uris|] == uris;
  }

  /** Until a copy takes a measurable time the reported rate is 0. */
  lemma {:induction false} RateStartsAtZero(replies: seq<Response<Transfer>>)
    requires forall i :: 0 <= i < |replies| ==> !(Delivered(replies[i]) && replies[i].body.nanos != 0)
    ensures Rate(replies) == 0
  {
    if replies != [] {
      RateStartsAtZero(replies[..|replies| - 1]);
    }
  }

  class Downloader {
    /** The URLs `Work` delivers before it is closed. */
    const work: seq<string>
    /** `http.DefaultClient`. */
    const net: Client<Transfer>
    /** What has been written to `Output`. */
    var output: seq<bv8>
    /** What has been sent on `statusChan`. */
    var statuses: seq<Status>

    constructor (work: seq<string>, net: Client<Transfer>)
      ensures this.work == work && this.net == net && output == [] && statuses == []
    {
      this.work := work;
      this.net := net;
      output := [];
      statuses := [];
    }

    /** The body of the loop after the request for `uri`, whose reply is
        `resp`, when `uris` have been handled with replies `rs`: skip the
        item unless the reply is a 200; otherwise copy the body, add its
        length to the total, recompute the rate when the copy took a
        nonzero time, and send the status. */
    method Handle(uri: string, resp: Response<Transfer>, bytesTotal: nat, bytesPerSecond: nat,
                  ghost uris: seq<string>, ghost rs: seq<Response<Transfer>>, ghost output0: seq<bv8>, ghost statuses0: seq<Status>)
      returns (bytesTotal': nat, bytesPerSecond': nat)
      requires |uris| == |rs|
      requires output == output0 + Copied(rs) && statuses == statuses0 + Reports(uris, rs)
      requires bytesTotal == Total(rs) && bytesPerSecond == Rate(rs)
      modifies this`output, this`statuses
      ensures output == output0 + Copied(rs + [resp])
      ensures statuses == statuses0 + Reports(uris + [uri], rs + [resp])
      ensures bytesTotal' == Total(rs + [resp]) && bytesPerSecond' == Rate(rs + [resp])
    {
      bytesTotal', bytesPerSecond' := bytesTotal, bytesPerSecond;
      if !Delivered(resp) {
        SkipChangesNothing(uris, rs, uri, resp);
        return;
      }
      DeliveryReport(uris, rs, uri, resp);
      output := output + resp.body.bytes;
      var n := |resp.body.bytes|;
      bytesTotal' := bytesTotal + n;
      var elapsed := resp.body.nanos;
      if elapsed != 0 {
        bytesPerSecond' := CopyRate(n, elapsed);
      }
      statuses := statuses + [Status(bytesTotal', bytesPerSecond', uri)];
    }

    /** The `for uri = range d.Work` loop. The first `n` URLs of the queue
        are requested, `n` being the queue's length unless the network runs
        out of replies first; the output grows by the 200 bodies, and one
        status is sent for each of them. */
    method Run()
      modifies net, this`output, this`statuses
      ensures var n := if |work| <= |old(net.pending)| then |work| else |old(net.pending)|;
        && output == old(output) + Copied(old(net.pending)[..n])
        && statuses == old(statuses) + Reports(work[..n], old(net.pending)[..n])
        && net.requested == old(net.requested) + work[..n]
        && net.pending == old(net.pending)[n..]
    {
      ghost var replies := net.pending;
      var bytesTotal := 0;
      var bytesPerSecond := 0;
      var i := 0;
      while i < |work|
        invariant i <= |work| && i <= |replies|
        invariant net.pending == replies[i..]
        invariant net.requested == old(net.requested) + work[..i]
        invariant output == old(output) + Copied(replies[..i])
        invariant statuses == old(statuses) + Reports(work[..i], replies[..i])
        invariant bytesTotal == Total(replies[..i]) && bytesPerSecond == Rate(replies[..i])
      {
        var uri := work[i];
        var got := net.Do(uri);
        if got.None? {
          return;
        }
        assert replies[..i + 1] == replies[..i] + [got.value];
        assert work[..i + 1] == work[..i] + [uri];
        bytesTotal, bytesPerSecond := Handle(uri, got.value, bytesTotal, bytesPerSecond,
                                             work[..i], replies[..i], old(output), old(statuses));
        i := i + 1;
      }
    }
  }
}
