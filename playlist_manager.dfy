/** The `PlaylistManager` version of the live poller (playlist_manager.go).
    After the token and an initial variant have been obtained, every cycle
    fetches the variant's media playlist, re-resolves the variant (up to
    five attempts, one second apart) when that fetch fails, queues the
    segment URIs that miss the cache, and sleeps for the target duration.
    `stop` closes both the status and the output channel. */
module PlaylistManagerPoller {
  import opened Hls
  import Lru
  import Segments
  import opened Variants
  import opened Runs

  /** How the poller goroutine ends. `NoMoreReplies` stands for a network
      that has nothing more to say; the others are the source's own exits. */
  datatype Exit =
    | TokenFailed         // getToken returned an error: stop
    | VariantNotAcquired  // five failed getVariant calls before polling: stop
    | ReResolutionFailed  // five failed getVariant calls after a failed fetch: stop
    | Stopped             // Done was signalled: stop
    | Panicked            // a nil dereference or a failed type assertion
    | NoMoreReplies
  {
    /** The exits that go through `stop`. */
    predicate Teardown() {
      TokenFailed? || VariantNotAcquired? || ReResolutionFailed? || Stopped?
    }
  }

  /** The `variantcounter` ceiling of both variant loops. */
  const MaxAttempts: nat := 5

  /** What a bounded `getVariant` loop did: how many requests it made and
      how it ended. */
  datatype Resolution = Resolution(requests: nat, outcome: Outcome<Variant>)
  {
    /** The calls that returned an error (each is followed by a pause in
        the re-resolution loop). */
    function Failures(): nat {
      if outcome.Ok? || outcome.Panic? then if requests == 0 then 0 else requests - 1
      else requests
    }
  }

  /** The `getVariant` loop with at most `budget` attempts, given the
      replies the network will give: it stops at the first reply that is
      not an error, and gives up with an error after `budget` errors. */
  function Resolve(replies: seq<Response<Doc>>, desired: string, budget: nat): (r: Resolution)
    ensures r.requests <= budget && r.requests <= |replies|
    decreases budget
  {
    if budget == 0 then Resolution(0, Err)
    else if replies == [] then Resolution(0, NoReply)
    else
      var o := MasterReply(replies[0], desired);
      if o.Err? then
        var rest := Resolve(replies[1..], desired, budget - 1);
        Resolution(1 + rest.requests, rest.outcome)
      else Resolution(1, o)
  }

  /** What the bounded loop guarantees: every call before the last one
      failed; it gives up exactly when the first `budget` replies are all
      errors, and then after `budget` requests; it runs out of replies only
      before the budget is spent; otherwise its outcome is that of its last
      call. */
  lemma {:induction false} ResolveSpec(replies: seq<Response<Doc>>, desired: string, budget: nat)
    ensures var r := Resolve(replies, desired, budget);
      && (forall i :: 0 <= i < r.Failures() ==> MasterReply(replies[i], desired).Err?)
      && (r.outcome.Err? <==>
            budget <= |replies| && forall i :: 0 <= i < budget ==> MasterReply(replies[i], desired).Err?)
      && (r.outcome.Err? ==> r.requests == budget && r.Failures() == budget)
      && (r.outcome.NoReply? ==> r.requests == |replies| < budget && r.Failures() == r.requests)
      && (r.outcome.Ok? || r.outcome.Panic? ==>
            0 < r.requests && r.outcome == MasterReply(replies[r.requests - 1], desired))
    decreases budget
  {
    if budget > 0 && replies != [] && MasterReply(replies[0], desired).Err? {
      ResolveSpec(replies[1..], desired, budget - 1);
      var r := Resolve(replies, desired, budget);
      forall i | 0 <= i < r.Failures() ensures MasterReply(replies[i], desired).Err? {
        if i > 0 {
          assert replies[i] == replies[1..][i - 1];
        }
      }
      if budget <= |replies| && forall i :: 0 <= i < budget ==> MasterReply(replies[i], desired).Err? {
        forall i | 0 <= i < budget - 1 ensures MasterReply(replies[1..][i], desired).Err? {
          assert replies[1..][i] == replies[i + 1];
        }
      }
    }
  }

  /** Skipping `k` failed replies leaves a loop with `k` fewer attempts. */
  lemma {:induction false} ResolveAfterFailures(replies: seq<Response<Doc>>, desired: string, budget: nat, k: nat)
    requires k <= budget && k <= |replies|
    requires forall i :: 0 <= i < k ==> MasterReply(replies[i], desired).Err?
    ensures Resolve(replies, desired, budget).outcome == Resolve(replies[k..], desired, budget - k).outcome
    ensures Resolve(replies, desired, budget).requests == k + Resolve(replies[k..], desired, budget - k).requests
    decreases k
  {
    if k > 0 {
      assert replies[1..][k - 1..] == replies[k..];
      ResolveAfterFailures(replies[1..], desired, budget - 1, k - 1);
    }
  }

  /** The result of one pass of the polling loop's `default` branch up to
      the segment loop: the media playlist to walk, or the way the goroutine
      ends. */
  datatype Step = Media(targetDuration: int, segments: seq<Option<string>>) | Abort(exit: Exit)

  /** How the goroutine leaves its preamble: polling with a variant, or
      finished. */
  datatype Started = Polling(variant: Variant) | Ended(exit: Exit)

  datatype Cycle = Cycle(requests: nat, pauses: nat, step: Step, variant: Variant)

  /** The failure test on the playlist fetch. A nil response without an
      error passes it. */
  predicate FetchFailed(r: Response<Doc>) {
    r.TransportError? || (r.Reply? && r.code != StatusOK)
  }

  /** Decoding a response body as a media playlist; anything else fails
      the type assertion, and a nil response fails on its body. */
  function DecodeMedia(r: Response<Doc>): (s: Step)
    ensures s.Media? <==> r.Reply? && r.body.MediaDoc?
    ensures s.Media? ==> r.body == MediaDoc(s.targetDuration, s.segments)
    ensures s.Abort? ==> s.exit == Panicked
  {
    if r.Reply? && r.body.MediaDoc? then Media(r.body.targetDuration, r.body.segments)
    else Abort(Panicked)
  }

  /** One cycle's fetch, given the replies the network will give. After a
      failed fetch and a successful re-resolution the cycle goes on with the
      response of the FAILED fetch: it is that body that gets decoded, and
      after a transport error there is no response to decode. */
  function PollOnce(replies: seq<Response<Doc>>, desired: string, variant: Variant): (c: Cycle)
    ensures c.requests <= |replies|
    ensures c.step.Media? ==> 1 <= c.requests
    ensures c.step.Abort? ==>
      c.step.exit.ReResolutionFailed? || c.step.exit.Panicked? || c.step.exit.NoMoreReplies?
  {
    if replies == [] then Cycle(0, 0, Abort(NoMoreReplies), variant)
    else if !FetchFailed(replies[0]) then Cycle(1, 0, DecodeMedia(replies[0]), variant)
    else
      var res := Resolve(replies[1..], desired, MaxAttempts);
      var n := 1 + res.requests;
      match res.outcome
      case Err => Cycle(n, res.Failures(), Abort(ReResolutionFailed), variant)
      case NoReply => Cycle(n, res.Failures(), Abort(NoMoreReplies), variant)
      case Panic => Cycle(n, res.Failures(), Abort(Panicked), variant)
      case Ok(v) => Cycle(n, res.Failures(), DecodeMedia(replies[0]), v)
  }

  /** What one cycle guarantees. A successful fetch is decoded at once,
      with no re-resolution. Segments only ever come from the body of the
      first reply, the one to the variant's own URI, even when that reply
      was a failure and the variant has since been re-resolved. After a
      transport error the cycle never reaches the segments. Re-resolution
      gives up exactly when the five attempts all fail, after six requests
      and five one-second pauses; a variant it finds has the desired label. */
  lemma PollOnceSpec(replies: seq<Response<Doc>>, desired: string, variant: Variant)
    ensures var c := PollOnce(replies, desired, variant);
      && c.requests <= 1 + MaxAttempts && c.pauses <= MaxAttempts
      && (replies == [] ==> c == Cycle(0, 0, Abort(NoMoreReplies), variant))
      && (replies != [] && !FetchFailed(replies[0]) ==>
            c == Cycle(1, 0, DecodeMedia(replies[0]), variant))
      && (c.step.Media? ==>
            replies[0].Reply? && replies[0].body == MediaDoc(c.step.targetDuration, c.step.segments))
      && (c.step == Abort(ReResolutionFailed) <==>
            && replies != [] && FetchFailed(replies[0]) && MaxAttempts < |replies|
            && forall i :: 1 <= i <= MaxAttempts ==> MasterReply(replies[i], desired).Err?)
      && (c.step == Abort(ReResolutionFailed) ==> c.requests == 1 + MaxAttempts && c.pauses == MaxAttempts)
      && (replies != [] && replies[0].TransportError? ==> c.step.Abort?)
      && (c.variant == variant || c.variant.video == desired)
  {
    if replies != [] && FetchFailed(replies[0]) {
      var rest := replies[1..];
      ResolveSpec(rest, desired, MaxAttempts);
      var res := Resolve(rest, desired, MaxAttempts);
      if res.outcome.Ok? {
        assert res.outcome == MasterReply(rest[res.requests - 1], desired);
      }
      if MaxAttempts < |replies| && forall i :: 1 <= i <= MaxAttempts ==> MasterReply(replies[i], desired).Err? {
        forall i | 0 <= i < MaxAttempts ensures MasterReply(rest[i], desired).Err? {
          assert rest[i] == replies[i + 1];
        }
      }
      if res.outcome.Err? {
        forall i | 1 <= i <= MaxAttempts ensures MasterReply(replies[i], desired).Err? {
          assert rest[i - 1] == replies[i];
        }
      }
    }
  }

  /** The URLs one cycle requests: the variant's URI, then the usher URL
      once per re-resolution attempt. */
  function CycleRequests(variant: Variant, usher: string, n: nat): seq<string> {
    if n == 0 then [] else [variant.uri] + Repeat(usher, n - 1)
  }

  /** How the goroutine leaves its preamble, given the replies the network
      will give: how many of them `getToken` and the variant loop use, and
      whether polling starts and with which variant. */
  function Opening(replies: seq<Response<Doc>>, desired: string): (o: (nat, Started))
    ensures o.0 <= |replies|
  {
    if replies == [] then (0, Ended(NoMoreReplies))
    else if TokenReply(replies[0]).Err? then (1, Ended(TokenFailed))
    else if !TokenReply(replies[0]).Ok? then (1, Ended(Panicked))
    else
      var r := Resolve(replies[1..], desired, MaxAttempts);
      (1 + r.requests, Acquired(r.outcome))
  }

  /** How the variant loop's outcome ends the preamble. */
  function Acquired(o: Outcome<Variant>): (s: Started)
    ensures s.Polling? <==> o.Ok?
    ensures s.Polling? ==> s.variant == o.value
    ensures s == Ended(VariantNotAcquired) <==> o.Err?
  {
    match o
    case Err => Ended(VariantNotAcquired)
    case Panic => Ended(Panicked)
    case NoReply => Ended(NoMoreReplies)
    case Ok(v) => Polling(v)
  }

  /** How the preamble can end. A token error ends it at once, and
      exactly then; the variant loop gives up exactly when the token was
      obtained and the five usher replies after it all fail; a variant it
      finds has the desired label. */
  lemma OpeningSpec(replies: seq<Response<Doc>>, desired: string)
    ensures var s := Opening(replies, desired).1;
      && (s.Ended? ==> s.exit.TokenFailed? || s.exit.VariantNotAcquired? || s.exit.Panicked? || s.exit.NoMoreReplies?)
      && (s == Ended(TokenFailed) <==> replies != [] && TokenReply(replies[0]).Err?)
      && (s == Ended(VariantNotAcquired) <==>
            replies != [] && TokenReply(replies[0]).Ok? && Resolve(replies[1..], desired, MaxAttempts).outcome.Err?)
      && (s.Polling? ==> s.variant.video == desired)
  {
    if replies != [] && TokenReply(replies[0]).Ok? {
      ResolveSpec(replies[1..], desired, MaxAttempts);
    }
  }

  /** One evaluation of the polling `select`, given the replies the
      network will give and whether a `Done` is waiting: how many replies
      and `Done` flags it uses, the exit it takes if it ends the loop, and
      otherwise the segment entries it walks and the variant the loop goes
      on with. */
  type Pass = Turn<Exit, Option<string>>

  function SelectOnce(replies: seq<Response<Doc>>, done: seq<bool>, desired: string, variant: Variant): (p: Pass)
    ensures p.consumed <= |replies| && p.used <= |done|
    ensures p.exit.None? ==> 0 < p.consumed
  {
    var used := if done == [] then 0 else 1;
    if done != [] && done[0] then Turn(0, 1, Some(Stopped), [], variant)
    else
      var c := PollOnce(replies, desired, variant);
      match c.step
      case Abort(e) => Turn(c.requests, used, Some(e), [], c.variant)
      case Media(_, segs) => Turn(c.requests, used, None, segs, c.variant)
  }

  /** What the polling loop does, given the replies the network will give
      and, for each evaluation of its `select`, whether a `Done` is
      waiting: how many replies and evaluations it uses, how it ends, and
      the segment entries of the media playlists it walks, in order. */
  datatype Trace = Trace(consumed: nat, doneUsed: nat, exit: Exit, processed: seq<Option<string>>)

  function PollTrace(replies: seq<Response<Doc>>, done: seq<bool>, desired: string, variant: Variant): (t: Trace)
    ensures t.consumed <= |replies| && t.doneUsed <= |done|
    decreases |replies|
  {
    var p := SelectOnce(replies, done, desired, variant);
    if p.exit.Some? then Trace(p.consumed, p.used, p.exit.value, [])
    else
      var r := PollTrace(replies[p.consumed..], done[p.used..], desired, p.next);
      Trace(p.consumed + r.consumed, p.used + r.doneUsed, r.exit, p.walked + r.processed)
  }

  /** `hist` are the first |hist| evaluations of the `select` when the loop
      starts from `replies`, `done` and `variant`: each is what `SelectOnce`
      makes of the state the earlier ones left. */
  ghost predicate Ran(replies: seq<Response<Doc>>, done: seq<bool>, desired: string, variant: Variant, hist: seq<Pass>) {
    forall i {:trigger Nth(hist, i)} :: 0 <= i < |hist| ==>
      && Consumed(hist[..i]) <= |replies| && Used(hist[..i]) <= |done|
      && Nth(hist, i) == SelectOnce(replies[Consumed(hist[..i])..], done[Used(hist[..i])..], desired, VariantAfter(variant, hist[..i]))
  }

  lemma RanSnoc(replies: seq<Response<Doc>>, done: seq<bool>, desired: string, variant: Variant, hist: seq<Pass>, p: Pass)
    requires Ran(replies, done, desired, variant, hist)
    requires Consumed(hist) <= |replies| && Used(hist) <= |done|
    requires p == SelectOnce(replies[Consumed(hist)..], done[Used(hist)..], desired, VariantAfter(variant, hist))
    ensures Ran(replies, done, desired, variant, hist + [p])
  {
    var h := hist + [p];
    forall i | 0 <= i < |h|
      ensures && Consumed(h[..i]) <= |replies| && Used(h[..i]) <= |done|
              && Nth(h, i) == SelectOnce(replies[Consumed(h[..i])..], done[Used(h[..i])..], desired, VariantAfter(variant, h[..i]))
    {
      if i < |hist| {
        assert h[..i] == hist[..i] && Nth(h, i) == Nth(hist, i);
      } else {
        assert h[..i] == hist;
      }
    }
  }

  /** After its first evaluation the loop runs on as if it had started
      from the state that evaluation left. */
  lemma RanTail(replies: seq<Response<Doc>>, done: seq<bool>, desired: string, variant: Variant, hist: seq<Pass>)
    requires Ran(replies, done, desired, variant, hist) && hist != []
    ensures hist[0].consumed <= |replies| && hist[0].used <= |done|
    ensures Ran(replies[hist[0].consumed..], done[hist[0].used..], desired, hist[0].next, hist[1..])
  {
    var p, rest := hist[0], hist[1..];
    assert hist[..0] == [];
    assert Nth(hist, 0) == SelectOnce(replies, done, desired, variant);
    var replies', done' := replies[p.consumed..], done[p.used..];
    forall i | 0 <= i < |rest|
      ensures && Consumed(rest[..i]) <= |replies'| && Used(rest[..i]) <= |done'|
              && Nth(rest, i) == SelectOnce(replies'[Consumed(rest[..i])..], done'[Used(rest[..i])..], desired, VariantAfter(p.next, rest[..i]))
    {
      var h := hist[..i + 1];
      assert h[0] == p && h[1..] == rest[..i];
      assert Nth(rest, i) == Nth(hist, i + 1);
      assert replies[Consumed(h)..] == replies'[Consumed(rest[..i])..];
      assert done[Used(h)..] == done'[Used(rest[..i])..];
    }
  }

  /** A single evaluation is a run. */
  lemma RanOne(replies: seq<Response<Doc>>, done: seq<bool>, desired: string, variant: Variant, p: Pass)
    requires p == SelectOnce(replies, done, desired, variant)
    ensures Ran(replies, done, desired, variant, [p])
  {
    assert [p][..0] == [] && Nth([p], 0) == p;
  }

  /** Extending a run by an evaluation made from the state it left. */
  lemma RanJoin(replies: seq<Response<Doc>>, done: seq<bool>, desired: string, variant: Variant, hist: seq<Pass>, p: Pass)
    requires Ran(replies, done, desired, variant, hist)
    requires Consumed(hist) <= |replies| && Used(hist) <= |done|
    requires Ran(replies[Consumed(hist)..], done[Used(hist)..], desired, VariantAfter(variant, hist), [p])
    ensures Ran(replies, done, desired, variant, hist + [p])
    ensures Consumed(hist + [p]) == Consumed(hist) + p.consumed <= |replies|
    ensures Used(hist + [p]) == Used(hist) + p.used <= |done|
    ensures replies[Consumed(hist)..][p.consumed..] == replies[Consumed(hist + [p])..]
    ensures done[Used(hist)..][p.used..] == done[Used(hist + [p])..]
    ensures VariantAfter(variant, hist + [p]) == p.next
    ensures Walked(hist + [p]) == Walked(hist) + p.walked
  {
    assert [p][..0] == [] && Nth([p], 0) == p;
    RanSnoc(replies, done, desired, variant, hist, p);
    Snoc(variant, hist, p);
  }

  /** A run of evaluations of which only the last ends the loop determines
      the loop's trace. */
  lemma {:induction false} RanTrace(replies: seq<Response<Doc>>, done: seq<bool>, desired: string, variant: Variant, hist: seq<Pass>)
    requires Ran(replies, done, desired, variant, hist)
    requires hist != [] && hist[|hist| - 1].exit.Some?
    requires forall i :: 0 <= i < |hist| - 1 ==> hist[i].exit.None?
    ensures PollTrace(replies, done, desired, variant)
      == Trace(Consumed(hist), Used(hist), hist[|hist| - 1].exit.value, Walked(hist))
    decreases |hist|
  {
    var p := hist[0];
    assert hist[..0] == [];
    assert Nth(hist, 0) == SelectOnce(replies, done, desired, variant);
    var rest := hist[1..];
    if rest == [] {
      assert Walked(hist) == p.walked + [] && p.walked == [];
    } else {
      RanTail(replies, done, desired, variant, hist);
      forall i | 0 <= i < |rest| - 1 ensures rest[i].exit.None? {
        assert rest[i] == hist[i + 1];
      }
      RanTrace(replies[p.consumed..], done[p.used..], desired, p.next, rest);
    }
  }

  /** The loop ends only through a `Done`, a failed re-resolution, a panic
      or the end of the replies: never with a token or start-up exit. */
  lemma {:induction false} TraceExits(replies: seq<Response<Doc>>, done: seq<bool>, desired: string, variant: Variant)
    ensures var t := PollTrace(replies, done, desired, variant);
      t.exit.ReResolutionFailed? || t.exit.Stopped? || t.exit.Panicked? || t.exit.NoMoreReplies?
    decreases |replies|
  {
    var p := SelectOnce(replies, done, desired, variant);
    if p.exit.None? {
      TraceExits(replies[p.consumed..], done[p.used..], desired, p.next);
    }
  }

  /** A reply the polling loop decodes at once: a 200 with a media
      playlist. */
  predicate Healthy(r: Response<Doc>) {
    r.Reply? && r.code == StatusOK && r.body.MediaDoc?
  }

  /** The segment entries of a run of healthy replies, playlist after
      playlist. */
  function Playlists(replies: seq<Response<Doc>>): seq<Option<string>>
    requires forall i :: 0 <= i < |replies| ==> Healthy(replies[i])
  {
    if replies == [] then []
    else
      assert Healthy(replies[0]);
      replies[0].body.segments + Playlists(replies[1..])
  }

  /** A stream that keeps answering with media playlists and is never told
      to stop is polled until the replies run out, and every playlist is
      walked, in order, with the variant never re-resolved. */
  lemma {:induction false} HealthyStream(replies: seq<Response<Doc>>, done: seq<bool>, desired: string, variant: Variant)
    requires forall i :: 0 <= i < |replies| ==> Healthy(replies[i])
    requires forall i :: 0 <= i < |done| ==> !done[i]
    ensures var t := PollTrace(replies, done, desired, variant);
      t.exit == NoMoreReplies && t.consumed == |replies| && t.processed == Playlists(replies)
    decreases |replies|
  {
    if replies != [] {
      var used := if done == [] then 0 else 1;
      assert PollOnce(replies, desired, variant) == Cycle(1, 0, DecodeMedia(replies[0]), variant);
      assert SelectOnce(replies, done, desired, variant) == Turn(1, used, None, replies[0].body.segments, variant);
      HealthyStream(replies[1..], done[used..], desired, variant);
    }
  }

  /** A `Done` waiting at a `select` ends the loop there: the trace stops
      with `Stopped` exactly at the first evaluation that finds one, if the
      replies last that long. */
  lemma {:induction false} DoneStops(replies: seq<Response<Doc>>, done: seq<bool>, desired: string, variant: Variant)
    ensures var t := PollTrace(replies, done, desired, variant);
      t.exit == Stopped <==> 0 < t.doneUsed && done[t.doneUsed - 1]
    decreases |replies|
  {
    var p := SelectOnce(replies, done, desired, variant);
    if p.exit.None? {
      DoneStops(replies[p.consumed..], done[p.used..], desired, p.next);
      var r := PollTrace(replies[p.consumed..], done[p.used..], desired, p.next);
      if 0 < r.doneUsed {
        assert done[p.used + r.doneUsed - 1] == done[p.used..][r.doneUsed - 1];
      }
    }
  }

  class PlaylistManager {
    const channelName: string
    const desiredVariant: string
    /** `http.DefaultClient`. */
    const net: Client<Doc>

    var token: string
    var signature: string
    /** What has been sent on `outputChan`. */
    var output: seq<string>
    var statusClosed: bool
    var outputClosed: bool
    /** For each evaluation of the polling `select`, whether a `Done` send
        is waiting on `doneChan`. */
    var doneReady: seq<bool>
    /** The durations, in seconds, of the `time.Sleep` calls made. */
    ghost var sleeps: seq<int>

    constructor (channelName: string, desiredVariant: string, net: Client<Doc>, doneReady: seq<bool>)
      ensures this.channelName == channelName && this.desiredVariant == desiredVariant
      ensures this.net == net && this.doneReady == doneReady
      ensures token == "" && signature == "" && output == [] && sleeps == []
      ensures !statusClosed && !outputClosed
    {
      this.channelName := channelName;
      this.desiredVariant := desiredVariant;
      this.net := net;
      this.doneReady := doneReady;
      token := "";
      signature := "";
      output := [];
      statusClosed := false;
      outputClosed := false;
      sleeps := [];
    }

    /** `stop`: closes the status and the output channel. */
    method Stop()
      modifies this`statusClosed, this`outputClosed
      ensures statusClosed && outputClosed
    {
      statusClosed := true;
      outputClosed := true;
    }

    /** `getToken`: one request to the token endpoint; the credential is
        stored only when the reply is a 200 with a token document. */
    method GetToken() returns (o: Outcome<Credential>)
      modifies net, this`token, this`signature
      ensures old(net.pending) == [] ==>
        && o == NoReply && net.pending == [] && net.requested == old(net.requested)
      ensures old(net.pending) != [] ==>
        && o == TokenReply(old(net.pending)[0])
        && net.pending == old(net.pending)[1..]
        && net.requested == old(net.requested) + [TokenUrl(channelName)]
      ensures o.Ok? ==> token == o.value.token && signature == o.value.signature
      ensures !o.Ok? ==> token == old(token) && signature == old(signature)
    {
      var got := net.Do(TokenUrl(channelName));
      if got.None? {
        return NoReply;
      }
      match got.value
      case TransportError =>
        o := Err;
      case NilResponse =>
        o := Panic;
      case Reply(code, body) =>
        if code != StatusOK {
          o := Err;
        } else if !body.TokenDoc? {
          o := Err;
        } else {
          token := body.token;
          signature := body.signature;
          o := Ok(Credential(body.token, body.signature));
        }
    }

    /** `getVariant`: one request to the usher endpoint with the stored
        credential, then the selection scan over the master playlist. */
    method GetVariant() returns (o: Outcome<Variant>)
      modifies net
      ensures old(net.pending) == [] ==>
        && o == NoReply && net.pending == [] && net.requested == old(net.requested)
      ensures old(net.pending) != [] ==>
        && o == MasterReply(old(net.pending)[0], desiredVariant)
        && net.pending == old(net.pending)[1..]
        && net.requested == old(net.requested) + [UsherUrl(channelName, token, signature)]
    {
      var got := net.Do(UsherUrl(channelName, token, signature));
      if got.None? {
        return NoReply;
      }
      match got.value
      case TransportError =>
        o := Err;
      case NilResponse =>
        o := Panic;
      case Reply(code, body) =>
        if code != StatusOK {
          o := Err;
        } else if !body.MasterDoc? {
          o := Panic;
        } else {
          var labels, target := Scan(body.variants, desiredVariant);
          if target.None? {
            o := Err;
          } else {
            o := Ok(target.value);
          }
        }
    }

    /** The `variantcounter` loops: at most five `getVariant` calls, ending
        at the first call that does not return an error. The loop before
        polling does not pause; the re-resolution loop (`pause`) sleeps one
        second after each error. */
    method AcquireVariant(pause: bool) returns (o: Outcome<Variant>)
      modifies net, this`sleeps
      ensures var r := Resolve(old(net.pending), desiredVariant, MaxAttempts);
        && o == r.outcome
        && net.pending == old(net.pending)[r.requests..]
        && net.requested == old(net.requested) + Repeat(UsherUrl(channelName, token, signature), r.requests)
        && sleeps == old(sleeps) + (if pause then Repeat(1, r.Failures()) else [])
      ensures o.Ok? ==> o.value.video == desiredVariant
      ensures o.Err? ==>
        net.requested == old(net.requested) + Repeat(UsherUrl(channelName, token, signature), MaxAttempts)
    {
      ghost var replies, requested, slept := net.pending, net.requested, sleeps;
      ghost var usher := UsherUrl(channelName, token, signature);
      var variantcounter := 0;
      while true
        invariant variantcounter <= MaxAttempts && variantcounter <= |replies|
        invariant net.pending == replies[variantcounter..]
        invariant forall i :: 0 <= i < variantcounter ==> MasterReply(replies[i], desiredVariant).Err?
        invariant net.requested == requested + Repeat(usher, variantcounter)
        invariant sleeps == slept + (if pause then Repeat(1, variantcounter) else [])
        decreases MaxAttempts - variantcounter
      {
        if variantcounter == MaxAttempts {
          ResolveAfterFailures(replies, desiredVariant, MaxAttempts, variantcounter);
          return Err;
        }
        ghost var rest := net.pending;
        o := GetVariant();
        if o.Err? {
          if pause {
            sleeps := sleeps + [1];
            assert sleeps == slept + (Repeat(1, variantcounter) + [1]);
          }
          assert net.requested == requested + (Repeat(usher, variantcounter) + [usher]);
          assert rest[1..] == replies[variantcounter + 1..];
          variantcounter := variantcounter + 1;
          continue;
        }
        ResolveAfterFailures(replies, desiredVariant, MaxAttempts, variantcounter);
        if rest != [] {
          assert Resolve(rest, desiredVariant, MaxAttempts - variantcounter) == Resolution(1, o);
          assert net.requested == requested + Repeat(usher, variantcounter + 1);
          assert rest[1..] == replies[variantcounter + 1..];
        } else {
          assert Resolve(rest, desiredVariant, MaxAttempts - variantcounter) == Resolution(0, NoReply);
        }
        return;
      }
    }

    /** One pass of the `retrycounter` loop's body: `GET` the variant's
        URI and, when that fails, re-resolve the variant; `abort` is the
        branch that leaves the goroutine, `resp` the response the cycle goes
        on with. */
    method Fetch(variant: Variant) returns (abort: Option<Exit>, resp: Response<Doc>, next: Variant)
      modifies net, this`sleeps
      ensures var c := PollOnce(old(net.pending), desiredVariant, variant);
        && (abort.Some? ==> c.step == Abort(abort.value))
        && (abort.None? ==> DecodeMedia(resp) == c.step)
        && next == c.variant
        && net.pending == old(net.pending)[c.requests..]
        && net.requested == old(net.requested)
             + CycleRequests(variant, UsherUrl(channelName, token, signature), c.requests)
        && sleeps == old(sleeps) + Repeat(1, c.pauses)
    {
      ghost var replies := net.pending;
      ghost var usher := UsherUrl(channelName, token, signature);
      next := variant;
      var got := net.Do(next.uri);
      if got.None? {
        return Some(NoMoreReplies), NilResponse, next;
      }
      resp := got.value;
      abort := None;
      if resp.TransportError? || (resp.Reply? && resp.code != StatusOK) {
        ghost var res := Resolve(replies[1..], desiredVariant, MaxAttempts);
        var o := AcquireVariant(true);
        assert net.requested == old(net.requested) + [variant.uri] + Repeat(usher, res.requests);
        assert CycleRequests(variant, usher, 1 + res.requests) == [variant.uri] + Repeat(usher, res.requests);
        if o.Err? {
          return Some(ReResolutionFailed), resp, variant;
        } else if o.NoReply? {
          return Some(NoMoreReplies), resp, variant;
        } else if o.Panic? {
          return Some(Panicked), resp, variant;
        }
        next := o.value;
      }
    }

    /** The polling `default` branch up to the segment loop. Its inner
        `retrycounter` loop leaves on every path of its first pass (the
        closing `break` sets `fetched`) and never increments the counter, so
        its abort is unreachable. */
    method PollCycle(variant: Variant) returns (step: Step, next: Variant)
      modifies net, this`sleeps
      ensures var c := PollOnce(old(net.pending), desiredVariant, variant);
        && step == c.step && next == c.variant
        && net.pending == old(net.pending)[c.requests..]
        && net.requested == old(net.requested)
             + CycleRequests(variant, UsherUrl(channelName, token, signature), c.requests)
        && sleeps == old(sleeps) + Repeat(1, c.pauses)
    {
      ghost var replies := net.pending;
      next := variant;
      var resp: Response<Doc> := NilResponse;
      var retrycounter := 0;
      var fetched := false;
      while !fetched
        invariant retrycounter == 0
        invariant !fetched ==>
          net.pending == replies && net.requested == old(net.requested) && sleeps == old(sleeps) && next == variant
        invariant fetched ==> var c := PollOnce(replies, desiredVariant, variant);
          && DecodeMedia(resp) == c.step && next == c.variant
          && net.pending == replies[c.requests..]
          && net.requested == old(net.requested) + CycleRequests(variant, UsherUrl(channelName, token, signature), c.requests)
          && sleeps == old(sleeps) + Repeat(1, c.pauses)
        decreases if fetched then 0 else 1
      {
        if retrycounter == 5 {
          assert false;
        }
        var abort;
        abort, resp, next := Fetch(next);
        if abort.Some? {
          return Abort(abort.value), next;
        }
        fetched := true;
      }
      step := DecodeMedia(resp);
    }

    /** The segment loop: each non-nil segment's URI that misses the cache
        is sent on `outputChan` and then added to the cache. */
    method EnqueueSegments(segs: seq<Option<string>>, cache: Lru.Cache) returns (cache': Lru.Cache)
      requires Lru.Valid(cache)
      modifies this`output
      ensures output == old(output) + Segments.Misses(segs, cache).0
      ensures cache' == Segments.Misses(segs, cache).1
    {
      cache' := cache;
      for i := 0 to |segs|
        invariant Lru.Valid(cache')
        invariant old(output) + Segments.Misses(segs, cache).0 == output + Segments.Misses(segs[i..], cache').0
        invariant Segments.Misses(segs, cache).1 == Segments.Misses(segs[i..], cache').1
      {
        assert segs[i..][1..] == segs[i + 1..];
        if segs[i].Some? {
          var lookup := Lru.Get(cache', segs[i].value);
          cache' := lookup.1;
          if !lookup.0 {
            output := output + [segs[i].value];
            cache' := Lru.Add(cache', segs[i].value);
          }
        }
      }
      assert segs[|segs|..] == [];
    }

    /** The `default` branch of the polling `select`: one cycle's fetch,
        the segment loop over the media playlist it decoded (`segs`), and
        the sleep for its target duration; a failed re-resolution stops the
        manager. */
    method PollPass(current: Variant, cache: Lru.Cache) returns (exit: Option<Exit>, next: Variant, cache': Lru.Cache, ghost segs: seq<Option<string>>)
      requires Lru.Valid(cache)
      modifies net, this`output, this`sleeps, this`statusClosed, this`outputClosed
      ensures var c := PollOnce(old(net.pending), desiredVariant, current);
        && net.pending == old(net.pending)[c.requests..]
        && net.requested == old(net.requested)
             + CycleRequests(current, UsherUrl(channelName, token, signature), c.requests)
        && next == c.variant
        && (exit.Some? <==> c.step.Abort?)
        && (c.step.Abort? ==>
              && exit == Some(c.step.exit) && segs == [] && output == old(output)
              && sleeps == old(sleeps) + Repeat(1, c.pauses))
        && (c.step.Media? ==>
              && segs == c.step.segments
              && sleeps == old(sleeps) + Repeat(1, c.pauses) + [c.step.targetDuration])
      ensures exit.None? ==>
        && output == old(output) + Segments.Misses(segs, cache).0
        && cache' == Segments.Misses(segs, cache).1
      ensures exit == Some(ReResolutionFailed) ==> statusClosed && outputClosed
      ensures exit != Some(ReResolutionFailed) ==>
        statusClosed == old(statusClosed) && outputClosed == old(outputClosed)
    {
      var step;
      step, next := PollCycle(current);
      if step.Abort? {
        if step.exit == ReResolutionFailed {
          Stop();
        }
        return Some(step.exit), next, cache, [];
      }
      segs := step.segments;
      cache' := EnqueueSegments(step.segments, cache);
      sleeps := sleeps + [step.targetDuration];
      exit := None;
    }

    /** One evaluation of the polling `select`: a pending `Done` ends the
        loop through `stop`; otherwise one pass of the `default` branch
        runs, and a failed re-resolution ends it through `stop` too. */
    method Select(current: Variant, cache: Lru.Cache)
      returns (exit: Option<Exit>, next: Variant, cache': Lru.Cache, ghost p: Pass)
      requires Lru.Valid(cache)
      modifies net, this`output, this`doneReady, this`sleeps, this`statusClosed, this`outputClosed
      ensures Ran(old(net.pending), old(doneReady), desiredVariant, current, [p])
      ensures exit == p.exit && next == p.next && (exit.None? ==> 0 < p.consumed)
      ensures p.consumed <= |old(net.pending)| && p.used <= |old(doneReady)|
      ensures net.pending == old(net.pending)[p.consumed..] && doneReady == old(doneReady)[p.used..]
      ensures exit.Some? ==> output == old(output) && p.walked == []
      ensures exit.None? ==>
        && output == old(output) + Segments.Misses(p.walked, cache).0
        && cache' == Segments.Misses(p.walked, cache).1
      ensures exit.Some? && exit.value.Teardown() ==> statusClosed && outputClosed
      ensures !(exit.Some? && exit.value.Teardown()) ==>
        statusClosed == old(statusClosed) && outputClosed == old(outputClosed)
    {
      p := SelectOnce(net.pending, doneReady, desiredVariant, current);
      RanOne(net.pending, doneReady, desiredVariant, current, p);
      if doneReady != [] {
        var done := doneReady[0];
        doneReady := doneReady[1..];
        if done {
          Stop();
          return Some(Stopped), current, cache, p;
        }
      }
      ghost var segs;
      exit, next, cache', segs := PollPass(current, cache);
    }

    /** The polling loop, from a fresh cache, as a run `hist` of `select`
        evaluations of which only the last ends it. */
    method Loop(variant: Variant)
      returns (exit: Exit, ghost hist: seq<Pass>, ghost queued: seq<string>, ghost processed: seq<Option<string>>)
      modifies net, this`output, this`doneReady, this`sleeps, this`statusClosed, this`outputClosed
      ensures Ran(old(net.pending), old(doneReady), desiredVariant, variant, hist)
      ensures hist != [] && hist[|hist| - 1].exit == Some(exit)
      ensures forall i :: 0 <= i < |hist| - 1 ==> hist[i].exit.None?
      ensures Consumed(hist) <= |old(net.pending)| && Used(hist) <= |old(doneReady)|
      ensures net.pending == old(net.pending)[Consumed(hist)..] && doneReady == old(doneReady)[Used(hist)..]
      ensures processed == Walked(hist) && queued == Segments.Misses(processed, Lru.New()).0
      ensures output == old(output) + queued
      ensures exit.Teardown() ==> statusClosed && outputClosed
      ensures !exit.Teardown() ==> statusClosed == old(statusClosed) && outputClosed == old(outputClosed)
    {
      ghost var replies0, done0 := net.pending, doneReady;
      hist := [];
      queued := [];
      processed := [];
      var cache := Lru.New();
      var current := variant;
      while true
        invariant Ran(replies0, done0, desiredVariant, variant, hist)
        invariant forall i :: 0 <= i < |hist| ==> hist[i].exit.None?
        invariant Consumed(hist) <= |replies0| && Used(hist) <= |done0|
        invariant net.pending == replies0[Consumed(hist)..] && doneReady == done0[Used(hist)..]
        invariant current == VariantAfter(variant, hist) && processed == Walked(hist)
        invariant queued == Segments.Misses(processed, Lru.New()).0
        invariant cache == Segments.Misses(processed, Lru.New()).1
        invariant output == old(output) + queued
        invariant statusClosed == old(statusClosed) && outputClosed == old(outputClosed)
        decreases |net.pending|
      {
        ghost var p;
        var stopped, next, cache';
        stopped, next, cache', p := Select(current, cache);
        RanJoin(replies0, done0, desiredVariant, variant, hist, p);
        hist := hist + [p];
        if stopped.Some? {
          assert processed + [] == processed;
          return stopped.value, hist, queued, processed;
        }
        Segments.MissesAppend(processed, p.walked, Lru.New());
        current := next;
        queued := queued + Segments.Misses(p.walked, cache).0;
        processed := processed + p.walked;
        cache := cache';
      }
    }

    /** The polling loop, from a fresh cache. `processed` are the segment
        entries of every media playlist it walked, as `PollTrace` determines
        them from the replies; `queued` the URIs it sent, which are the
        misses of one cache over all of them. */
    method Poll(variant: Variant) returns (exit: Exit, ghost queued: seq<string>, ghost processed: seq<Option<string>>)
      modifies net, this`output, this`doneReady, this`sleeps, this`statusClosed, this`outputClosed
      ensures exit.ReResolutionFailed? || exit.Stopped? || exit.Panicked? || exit.NoMoreReplies?
      ensures var t := PollTrace(old(net.pending), old(doneReady), desiredVariant, variant);
        && exit == t.exit && processed == t.processed
        && net.pending == old(net.pending)[t.consumed..] && doneReady == old(doneReady)[t.doneUsed..]
      ensures queued == Segments.Misses(processed, Lru.New()).0
      ensures exit.Teardown() ==> statusClosed && outputClosed
      ensures !exit.Teardown() ==> statusClosed == old(statusClosed) && outputClosed == old(outputClosed)
      ensures output == old(output) + queued
      ensures Segments.IsSubsequence(queued, Segments.Present(processed))
      ensures forall u :: u in Segments.Present(processed) ==> u in queued
      ensures |processed| <= Lru.Capacity ==> Lru.Distinct(queued)
    {
      ghost var hist;
      exit, hist, queued, processed := Loop(variant);
      RanTrace(old(net.pending), old(doneReady), desiredVariant, variant, hist);
      Segments.SessionOf(processed);
      TraceExits(old(net.pending), old(doneReady), desiredVariant, variant);
    }

    /** The goroutine up to the polling loop: `getToken`, then the variant
        loop (five attempts, no pause). A token error is reported before any
        usher request is made; the variant loop gives up exactly when the
        five replies after the token are all `getVariant` errors. */
    method Start() returns (s: Started)
      modifies net, this`token, this`signature, this`sleeps
      ensures var o := Opening(old(net.pending), desiredVariant);
        s == o.1 && net.pending == old(net.pending)[o.0..]
      ensures s.Ended? ==>
        s.exit.TokenFailed? || s.exit.VariantNotAcquired? || s.exit.Panicked? || s.exit.NoMoreReplies?
      ensures s == Ended(TokenFailed) <==> old(net.pending) != [] && TokenReply(old(net.pending)[0]).Err?
      ensures s == Ended(TokenFailed) ==> net.requested == old(net.requested) + [TokenUrl(channelName)]
      ensures s == Ended(VariantNotAcquired) <==>
        && old(net.pending) != [] && TokenReply(old(net.pending)[0]).Ok?
        && Resolve(old(net.pending)[1..], desiredVariant, MaxAttempts).outcome.Err?
      ensures s == Ended(VariantNotAcquired) ==>
        net.requested == old(net.requested) + [TokenUrl(channelName)] + Repeat(UsherUrl(channelName, token, signature), MaxAttempts)
      ensures s.Polling? ==> s.variant.video == desiredVariant
      ensures sleeps == old(sleeps)
    {
      var t := GetToken();
      match t
      case Err => s := Ended(TokenFailed);
      case Panic => s := Ended(Panicked);
      case NoReply => s := Ended(NoMoreReplies);
      case Ok(_) =>
        ghost var rest := net.pending;
        assert rest == old(net.pending)[1..];
        assert old(net.pending)[1..][Resolve(rest, desiredVariant, MaxAttempts).requests..]
          == old(net.pending)[1 + Resolve(rest, desiredVariant, MaxAttempts).requests..];
        var o := AcquireVariant(false);
        s := Acquired(o);
      OpeningSpec(old(net.pending), desiredVariant);
    }

    /** The poller goroutine: `Start`, a `stop` when it gives up, then the
        polling loop over the replies `Start` left. */
    method Run() returns (exit: Exit, ghost queued: seq<string>, ghost processed: seq<Option<string>>)
      modifies this, net
      ensures var o := Opening(old(net.pending), desiredVariant);
        && (o.1.Ended? ==> exit == o.1.exit && processed == [] && net.pending == old(net.pending)[o.0..])
        && (o.1.Polling? ==>
              var t := PollTrace(old(net.pending)[o.0..], old(doneReady), desiredVariant, o.1.variant);
              exit == t.exit && processed == t.processed && net.pending == old(net.pending)[o.0 + t.consumed..])
      ensures queued == Segments.Misses(processed, Lru.New()).0
      ensures exit.Teardown() ==> statusClosed && outputClosed
      ensures !exit.Teardown() ==> statusClosed == old(statusClosed) && outputClosed == old(outputClosed)
      ensures output == old(output) + queued
      ensures Segments.IsSubsequence(queued, Segments.Present(processed))
      ensures forall u :: u in Segments.Present(processed) ==> u in queued
      ensures |processed| <= Lru.Capacity ==> Lru.Distinct(queued)
      ensures exit.TokenFailed? || exit.VariantNotAcquired? ==> queued == []
    {
      var s := Start();
      if s.Ended? {
        if s.exit.Teardown() {
          Stop();
        }
        exit, queued, processed := s.exit, [], [];
      } else {
        exit, queued, processed := Poll(s.variant);
      }
    }
  }
}
