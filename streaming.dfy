/** The first version of the live poller (streaming.go). A
    `PlaylistWatcher` fetches its token when it is created; its goroutine
    then asks for the master playlist until a reply other than a non-200
    status comes back, picks the variant, and polls that variant's media
    playlist for ever, sending each new segment URL on `Output` and, when
    there is a `Status` channel, a "Queueing" message after it. The
    `Downloader` beside it fetches each queued URL and copies the bodies of
    the 200 replies to its output. */
module StreamingWatcher {
  import opened Hls
  import Lru
  import Segments
  import Urls
  import opened Variants

  /** How the watcher ends. `TokenFailed`: the constructor returned the
      token error and no goroutine was started. The polling goroutine itself
      never returns; it ends only by a panic or when the network has nothing
      more to say. */
  datatype Exit = TokenFailed | Panicked | NoMoreReplies

  /** `getToken` of streaming.go. The error built for a non-200 status is
      discarded, so any reply whose body decodes as a token is accepted; a
      transport error or an undecodable body is an error, and a nil
      response panics on `resp.StatusCode`. */
  function LenientTokenReply(r: Response<Doc>): (o: Outcome<Credential>)
    ensures o.Ok? <==> r.Reply? && r.body.TokenDoc?
    ensures o.Ok? ==> o.value == Credential(r.body.token, r.body.signature)
    ensures o.Panic? <==> r.NilResponse?
    ensures !o.NoReply?
  {
    match r
    case TransportError => Err
    case NilResponse => Panic
    case Reply(_, body) =>
      if body.TokenDoc? then Ok(Credential(body.token, body.signature)) else Err
  }

  /** Compared with the later versions, the only replies judged differently
      are the non-200 replies carrying a token, which are accepted here. */
  lemma LenientTokenVersusStrict(r: Response<Doc>)
    ensures TokenReply(r).Ok? ==> LenientTokenReply(r) == TokenReply(r)
    ensures LenientTokenReply(r) != TokenReply(r) <==> r.Reply? && r.code != StatusOK && r.body.TokenDoc?
  {
  }

  /** A reply that sends the master-playlist loop (and the media-playlist
      loop) round again after a 5-second sleep: a non-200 status. */
  predicate Retried(r: Response<Doc>) {
    r.Reply? && r.code != StatusOK
  }

  /** The master playlist reply that ends the retry loop, and what comes of
      it. A transport error satisfies the loop condition but panics in the
      loop body, whose log line reads the status of a nil response; a nil
      response leaves the loop and panics when its body is decoded; so do a
      body that is not a master playlist and a playlist without the desired
      label (`target_variant.Video` on a nil variant). */
  function Settle(r: Response<Doc>, desired: string): (o: Outcome<Variant>)
    ensures o.Ok? || o.Panic?
    ensures o.Ok? <==>
      && r.Reply? && r.code == StatusOK && r.body.MasterDoc?
      && exists j :: 0 <= j < |r.body.variants| && IsMatch(r.body.variants[j], desired)
    ensures o.Ok? ==> o.value == Selected(r.body.variants, desired).value
  {
    match r
    case Reply(code, body) =>
      if code == StatusOK && body.MasterDoc? then
        match Selected(body.variants, desired)
        case None => Panic
        case Some(v) => Ok(v)
      else Panic
    case _ => Panic
  }

  /** Where the later versions' `getVariant` reports an error, this version
      panics; the variant it settles on is the same. */
  lemma SettleVersusMasterReply(r: Response<Doc>, desired: string)
    requires !Retried(r)
    ensures Settle(r, desired) == if MasterReply(r, desired).Ok? then MasterReply(r, desired) else Panic
  {
  }

  /** The outcome of the master-playlist loop: requests made, 5-second
      sleeps taken, and the variant chosen. */
  datatype Resolution = Resolution(requests: nat, pauses: nat, outcome: Outcome<Variant>)

  /** The master-playlist loop given the replies the network will give. */
  function Resolve(replies: seq<Response<Doc>>, desired: string): (r: Resolution)
    ensures r.requests <= |replies|
    ensures !r.outcome.Err?
    decreases |replies|
  {
    if replies == [] then Resolution(0, 0, NoReply)
    else if Retried(replies[0]) then
      var rest := Resolve(replies[1..], desired);
      Resolution(rest.requests + 1, rest.pauses + 1, rest.outcome)
    else Resolution(1, 0, Settle(replies[0], desired))
  }

  /** The loop asks again after every non-200 reply, with no ceiling: it
      stops at the first other reply, after one sleep per earlier reply, or
      runs out of replies having slept after each. */
  lemma {:induction false} ResolveSpec(replies: seq<Response<Doc>>, desired: string)
    ensures var r := Resolve(replies, desired);
      && (r.outcome.NoReply? <==> forall i :: 0 <= i < |replies| ==> Retried(replies[i]))
      && (r.outcome.NoReply? ==> r.requests == r.pauses == |replies|)
      && (!r.outcome.NoReply? ==>
            && r.requests == r.pauses + 1
            && (forall i :: 0 <= i < r.pauses ==> Retried(replies[i]))
            && !Retried(replies[r.pauses])
            && r.outcome == Settle(replies[r.pauses], desired))
    decreases |replies|
  {
    if replies != [] && Retried(replies[0]) {
      ResolveSpec(replies[1..], desired);
      var r := Resolve(replies, desired);
      forall i | 0 <= i < |replies| && i != 0
        ensures replies[i] == replies[1..][i - 1]
      {
      }
    }
  }

  /** The variant the loop settles on carries the label asked for. */
  lemma {:induction false} ResolveLabel(replies: seq<Response<Doc>>, desired: string)
    ensures var r := Resolve(replies, desired);
      r.outcome.Ok? ==> r.outcome.value.video == desired
    decreases |replies|
  {
    if replies != [] && Retried(replies[0]) {
      ResolveLabel(replies[1..], desired);
    }
  }

  /** Non-200 replies at the front only add a request and a sleep each;
      the outcome is decided by what follows them. */
  lemma {:induction false} ResolveSkip(replies: seq<Response<Doc>>, desired: string, k: nat)
    requires k <= |replies|
    requires forall i :: 0 <= i < k ==> Retried(replies[i])
    ensures var r := Resolve(replies[k..], desired);
      Resolve(replies, desired) == Resolution(r.requests + k, r.pauses + k, r.outcome)
    decreases k
  {
    if k == 0 {
      assert replies[k..] == replies;
    } else {
      assert replies[1..][k - 1..] == replies[k..];
      forall i | 0 <= i < k - 1
        ensures Retried(replies[1..][i])
      {
        assert replies[1..][i] == replies[i + 1];
      }
      ResolveSkip(replies[1..], desired, k - 1);
    }
  }

  /** However many non-200 replies come first, the loop gets past them to
      the first other reply. */
  lemma {:induction false} NoRetryCeiling(failures: seq<Response<Doc>>, answer: Response<Doc>, desired: string)
    requires forall i :: 0 <= i < |failures| ==> Retried(failures[i])
    requires !Retried(answer)
    ensures Resolve(failures + [answer], desired) == Resolution(|failures| + 1, |failures|, Settle(answer, desired))
    decreases |failures|
  {
    if failures == [] {
      assert failures + [answer] == [answer];
    } else {
      assert (failures + [answer])[1..] == failures[1..] + [answer];
      NoRetryCeiling(failures[1..], answer, desired);
    }
  }

  /** One pass of the polling loop, given the reply to the media-playlist
      request: sleep 5 seconds and ask the same URI again, walk a media
      playlist, or end. A transport error panics on the log line that reads
      `resp.Status`; a nil response and a body that is not a media playlist
      panic when decoded. */
  datatype Step = Retry | Media(targetDuration: int, segments: seq<Option<string>>) | Abort(exit: Exit)

  function PassStep(r: Response<Doc>): (s: Step)
    ensures s.Retry? <==> Retried(r)
    ensures s.Media? ==> r.Reply? && r.code == StatusOK && r.body == MediaDoc(s.targetDuration, s.segments)
    ensures s.Abort? ==> s.exit == Panicked
  {
    match r
    case Reply(code, body) =>
      if code != StatusOK then Retry
      else if body.MediaDoc? then Media(body.targetDuration, body.segments)
      else Abort(Panicked)
    case _ => Abort(Panicked)
  }

  /** What the watcher does over a stretch of replies: how many it used,
      how it ended, the segment entries of the media playlists it walked,
      and the durations of the sleeps it took, in order. */
  datatype Watched = Watched(consumed: nat, exit: Exit, walked: seq<Option<string>>, pauses: seq<int>)

  /** The polling loop given the replies the network will give: it goes
      round after every non-200 reply and every media playlist, and ends
      only by a panic or when the replies run out. */
  function WatchTrace(replies: seq<Response<Doc>>): (t: Watched)
    ensures t.consumed <= |replies|
    ensures t.exit.Panicked? || t.exit.NoMoreReplies?
    decreases |replies|
  {
    if replies == [] then Watched(0, NoMoreReplies, [], [])
    else
      match PassStep(replies[0])
      case Abort(e) => Watched(1, e, [], [])
      case Retry =>
        var r := WatchTrace(replies[1..]);
        Watched(1 + r.consumed, r.exit, r.walked, [5] + r.pauses)
      case Media(d, segs) =>
        var r := WatchTrace(replies[1..]);
        Watched(1 + r.consumed, r.exit, segs + r.walked, [d] + r.pauses)
  }

  /** `t` preceded by `n` replies that walked `walked` and slept `pauses`. */
  function Then(walked: seq<Option<string>>, pauses: seq<int>, n: nat, t: Watched): Watched {
    Watched(n + t.consumed, t.exit, walked + t.walked, pauses + t.pauses)
  }

  lemma ThenThen(a: seq<Option<string>>, p: seq<int>, n: nat, b: seq<Option<string>>, q: seq<int>, m: nat, t: Watched)
    ensures Then(a, p, n, Then(b, q, m, t)) == Then(a + b, p + q, n + m, t)
  {
    assert a + (b + t.walked) == (a + b) + t.walked;
    assert p + (q + t.pauses) == (p + q) + t.pauses;
  }

  /** The loop's bookkeeping after walking `processed` from a fresh cache:
      `cache` is the cache they leave, `queued` the raw URIs that missed it
      in order, and `sent` is what was sent before the loop followed by
      their announcements. */
  ghost predicate Tracked(processed: seq<Option<string>>, cache: Lru.Cache, queued: seq<string>,
                          base: Urls.Url, status: bool, sent0: seq<Send>, sent: seq<Send>) {
    && queued == Segments.Misses(processed, Lru.New()).0
    && cache == Segments.Misses(processed, Lru.New()).1
    && sent == sent0 + Announced(base, queued, status)
  }

  /** How far the polling loop has got: replies used, segment entries
      walked, sleeps taken and raw URIs announced. */
  datatype Progress = Progress(consumed: nat, processed: seq<Option<string>>, slept: seq<int>, queued: seq<string>)

  /** The loop runs until the first reply that panics, and otherwise uses
      every reply; it sleeps once for every reply before that one. */
  lemma {:induction false} WatchTraceSpec(replies: seq<Response<Doc>>)
    ensures var t := WatchTrace(replies);
      && (t.exit.NoMoreReplies? <==> forall i :: 0 <= i < |replies| ==> !PassStep(replies[i]).Abort?)
      && (t.exit.NoMoreReplies? ==> t.consumed == |replies| && |t.pauses| == |replies|)
      && (t.exit.Panicked? ==>
            && 0 < t.consumed && PassStep(replies[t.consumed - 1]).Abort?
            && (forall i :: 0 <= i < t.consumed - 1 ==> !PassStep(replies[i]).Abort?)
            && |t.pauses| == t.consumed - 1)
    decreases |replies|
  {
    if replies != [] && !PassStep(replies[0]).Abort? {
      WatchTraceSpec(replies[1..]);
      forall i | 1 <= i < |replies|
        ensures replies[i] == replies[1..][i - 1]
      {
      }
    }
  }

  /** The goroutine given the replies: the master-playlist loop, then, when
      it settles on a variant, the polling loop. */
  function RunTrace(replies: seq<Response<Doc>>, desired: string): (t: Watched)
    ensures t.consumed <= |replies|
  {
    Continue(replies, Resolve(replies, desired))
  }

  /** The goroutine after the master-playlist loop `r` over `replies`. */
  function Continue(replies: seq<Response<Doc>>, r: Resolution): (t: Watched)
    requires r.requests <= |replies|
    ensures t.consumed <= |replies|
  {
    match r.outcome
    case Ok(_) =>
      var w := WatchTrace(replies[r.requests..]);
      Watched(r.requests + w.consumed, w.exit, w.walked, Repeat(5, r.pauses) + w.pauses)
    case NoReply => Watched(r.requests, NoMoreReplies, [], Repeat(5, r.pauses))
    case _ => Watched(r.requests, Panicked, [], Repeat(5, r.pauses))
  }

  /** After a settled master loop, `Continue` is the polling loop's trace
      over the replies the master loop left, behind its requests and pauses. */
  lemma ContinueOk(replies: seq<Response<Doc>>, r: Resolution, slept: seq<int>)
    requires r.outcome.Ok? && r.requests <= |replies|
    ensures var w := WatchTrace(replies[r.requests..]);
      var t := Continue(replies, r);
      && t.exit == w.exit && t.walked == w.walked && t.consumed == r.requests + w.consumed
      && replies[r.requests..][w.consumed..] == replies[t.consumed..]
      && slept + Repeat(5, r.pauses) + w.pauses == slept + t.pauses
  {
    var w := WatchTrace(replies[r.requests..]);
    assert slept + Repeat(5, r.pauses) + w.pauses == slept + (Repeat(5, r.pauses) + w.pauses);
  }

  /** `NewPlaylistWatcher` given the replies: the token request, then the
      goroutine when a token came back. */
  function LaunchTrace(replies: seq<Response<Doc>>, desired: string): (t: Watched)
    ensures t.consumed <= |replies|
  {
    if replies == [] then Watched(0, NoMoreReplies, [], [])
    else
      match LenientTokenReply(replies[0])
      case Ok(_) =>
        var r := RunTrace(replies[1..], desired);
        Watched(1 + r.consumed, r.exit, r.walked, r.pauses)
      case Err => Watched(1, TokenFailed, [], [])
      case _ => Watched(1, Panicked, [], [])
  }

  /** The watcher fails with the token error only when the token reply is
      an error; once the goroutine starts it ends by a panic or when the
      replies run out; segments are walked only after a variant was
      settled on. */
  lemma LaunchTraceSpec(replies: seq<Response<Doc>>, desired: string)
    ensures var t := LaunchTrace(replies, desired);
      && (t.exit.TokenFailed? <==> replies != [] && LenientTokenReply(replies[0]).Err?)
      && (t.walked != [] ==>
            && replies != [] && LenientTokenReply(replies[0]).Ok?
            && Resolve(replies[1..], desired).outcome.Ok?)
  {
  }

  /** A send on one of the watcher's channels. */
  datatype Send = ToOutput(url: string) | ToStatus(message: string)

  /** The message names the URI, after "Queueing ". */
  function Queueing(uri: string): (r: string)
    ensures |r| == |uri| + 26 && r[9..9 + |uri|] == uri
  {
    "Queueing " + uri + " for downloading."
  }

  /** The sends for one segment URI that missed the cache, found in the
      media playlist at `base`: its URL on `Output`, then, when there is a
      `Status` channel, its message. */
  function Announcement(base: Urls.Url, uri: string, status: bool): (r: seq<Send>)
    ensures |r| == if status then 2 else 1
  {
    [ToOutput(Urls.SegmentUrl(base, uri))] + (if status then [ToStatus(Queueing(uri))] else [])
  }

  /** The URL goes first, and a status message is sent exactly when there
      is a `Status` channel, and then it is the "Queueing" message. */
  lemma AnnouncementSpec(base: Urls.Url, uri: string, status: bool)
    ensures var r := Announcement(base, uri, status);
      && r[0] == ToOutput(Urls.SegmentUrl(base, uri))
      && forall m :: ToStatus(m) in r <==> status && m == Queueing(uri)
  {
  }

  /** The sends for the segment URIs `uris` that missed the cache, all
      found in the media playlist at `base`, in order. */
  function Announced(base: Urls.Url, uris: seq<string>, status: bool): seq<Send> {
    if uris == [] then [] else Announcement(base, uris[0], status) + Announced(base, uris[1..], status)
  }

  lemma {:induction false} AnnouncedAppend(base: Urls.Url, a: seq<string>, b: seq<string>, status: bool)
    ensures Announced(base, a + b, status) == Announced(base, a, status) + Announced(base, b, status)
  {
    if a == [] {
      assert a + b == b;
    } else {
      assert (a + b)[1..] == a[1..] + b;
      AnnouncedAppend(base, a[1..], b, status);
    }
  }

  /** Announcing one more batch after the sends made so far. */
  lemma AnnouncedExtend(sent: seq<Send>, base: Urls.Url, queued: seq<string>, batch: seq<string>, status: bool)
    ensures sent + Announced(base, queued, status) + Announced(base, batch, status)
         == sent + Announced(base, queued + batch, status)
  {
    AnnouncedAppend(base, queued, batch, status);
  }

  /** With a `Status` channel, the k-th URI queued gives the sends 2k and
      2k+1: its URL on `Output`, then its message on `Status`. */
  lemma {:induction false} AnnouncedWithStatus(base: Urls.Url, uris: seq<string>)
    ensures |Announced(base, uris, true)| == 2 * |uris|
    ensures forall k :: 0 <= k < |uris| ==>
      && Announced(base, uris, true)[2 * k] == ToOutput(Urls.SegmentUrl(base, uris[k]))
      && Announced(base, uris, true)[2 * k + 1] == ToStatus(Queueing(uris[k]))
  {
    if uris != [] {
      AnnouncedWithStatus(base, uris[1..]);
      var r := Announced(base, uris, true);
      var rest := Announced(base, uris[1..], true);
      assert r == [ToOutput(Urls.SegmentUrl(base, uris[0])), ToStatus(Queueing(uris[0]))] + rest;
      forall k | 1 <= k < |uris|
        ensures r[2 * k] == ToOutput(Urls.SegmentUrl(base, uris[k]))
        ensures r[2 * k + 1] == ToStatus(Queueing(uris[k]))
      {
        assert r[2 * k] == rest[2 * (k - 1)];
        assert r[2 * k + 1] == rest[2 * (k - 1) + 1];
      }
    }
  }

  /** The URLs sent on `Output`, in order. */
  function Outputs(sends: seq<Send>): (r: seq<string>)
    ensures |r| <= |sends|
  {
    if sends == [] then []
    else (if sends[0].ToOutput? then [sends[0].url] else []) + Outputs(sends[1..])
  }

  /** With or without a `Status` channel, what goes on `Output` is the
      segment URLs, in the order queued, as in the later versions. */
  lemma {:induction false} AnnouncedOutputs(base: Urls.Url, uris: seq<string>, status: bool)
    ensures Outputs(Announced(base, uris, status)) == Urls.Join(base, uris)
  {
    if uris != [] {
      var head := Announcement(base, uris[0], status);
      var rest := Announced(base, uris[1..], status);
      OutputsAppend(head, rest);
      AnnouncedOutputs(base, uris[1..], status);
      if status {
        assert head[1..][1..] == [];
      }
    }
  }

  lemma {:induction false} OutputsAppend(a: seq<Send>, b: seq<Send>)
    ensures Outputs(a + b) == Outputs(a) + Outputs(b)
  {
    if a == [] {
      assert a + b == b;
    } else {
      assert (a + b)[0] == a[0] && (a + b)[1..] == a[1..] + b;
      OutputsAppend(a[1..], b);
    }
  }

  class PlaylistWatcher {
    const channelName: string
    /** `Variant`, the label asked for. */
    const desiredVariant: string
    /** Whether `Status` is a channel rather than nil. */
    const hasStatus: bool
    /** `http.DefaultClient`. */
    const net: Client<Doc>

    var token: string
    var signature: string
    /** The sends made on `Output` and `Status`, in the order made. */
    var sent: seq<Send>
    /** The durations, in seconds, of the `time.Sleep` calls made. */
    ghost var sleeps: seq<int>

    constructor (channelName: string, desiredVariant: string, hasStatus: bool, net: Client<Doc>)
      ensures this.channelName == channelName && this.desiredVariant == desiredVariant
      ensures this.hasStatus == hasStatus && this.net == net
      ensures token == "" && signature == "" && sent == [] && sleeps == []
    {
      this.channelName := channelName;
      this.desiredVariant := desiredVariant;
      this.hasStatus := hasStatus;
      this.net := net;
      token := "";
      signature := "";
      sent := [];
      sleeps := [];
    }

    /** `getToken`: one request to the token endpoint; the credential is
        stored whenever the body decodes, whatever the status. */
    method GetToken() returns (o: Outcome<Credential>)
      modifies net, this`token, this`signature
      ensures old(net.pending) == [] ==>
        && o == NoReply && net.pending == [] && net.requested == old(net.requested)
      ensures old(net.pending) != [] ==>
        && o == LenientTokenReply(old(net.pending)[0])
        && net.pending == old(net.pending)[1..]
        && net.requested == old(net.requested) + [TokenUrl(channelName)]
      ensures o.Ok? ==> token == o.value.token && signature == o.value.signature
      ensures !o.Ok? ==> token == old(token) && signature == old(signature)
    {
      var got := net.Do(TokenUrl(channelName));
      if got.None? {
        return NoReply;
      }
      match got.value
      case TransportError =>
        o := Err;
      case NilResponse =>
        o := Panic;
      case Reply(_, body) =>
        if !body.TokenDoc? {
          o := Err;
        } else {
          token := body.token;
          signature := body.signature;
          o := Ok(Credential(body.token, body.signature));
        }
    }

    /** The master-playlist loop of streaming.go: ask, and after each
        non-200 reply sleep 5 seconds and ask again. It stops at the first
        other reply, which it hands back, or when the network runs out;
        `k` is the number of sleeps. A transport error stops it too, to
        panic on its log line. */
    method AwaitMaster() returns (got: Option<Response<Doc>>, ghost k: nat)
      modifies net, this`sleeps
      ensures k <= |old(net.pending)| && sleeps == old(sleeps) + Repeat(5, k)
      ensures got.None? ==>
        && k == |old(net.pending)| && net.pending == []
        && net.requested == old(net.requested) + Repeat(UsherUrl(channelName, token, signature), k)
      ensures got.Some? ==>
        && k < |old(net.pending)| && got.value == old(net.pending)[k] && !Retried(got.value)
        && net.pending == old(net.pending)[k + 1..]
        && net.requested == old(net.requested) + Repeat(UsherUrl(channelName, token, signature), k + 1)
      ensures forall i :: 0 <= i < k ==> Retried(old(net.pending)[i])
    {
      ghost var replies := net.pending;
      ghost var requested := net.requested;
      ghost var slept := sleeps;
      var usher := UsherUrl(channelName, token, signature);
      k := 0;
      got := net.Do(usher);
      while got.Some? && (got.value.TransportError? || Retried(got.value))
        invariant k <= |replies|
        invariant got.Some? ==>
          && k < |replies| && got.value == replies[k] && net.pending == replies[k + 1..]
          && net.requested == requested + Repeat(usher, k + 1)
        invariant got.None? ==> k == |replies| && net.pending == [] && net.requested == requested + Repeat(usher, k)
        invariant sleeps == slept + Repeat(5, k)
        invariant forall i :: 0 <= i < k ==> Retried(replies[i])
        decreases |net.pending| + (if got.Some? then 1 else 0)
      {
        if got.value.TransportError? {
          break;
        }
        sleeps := sleeps + [5];
        got := net.Do(usher);
        k := k + 1;
      }
    }

    /** The master-playlist loop and the variant scan, at the start of the
        goroutine. */
    method AcquireVariant() returns (o: Outcome<Variant>)
      modifies net, this`sleeps
      ensures var r := Resolve(old(net.pending), desiredVariant);
        && o == r.outcome
        && net.pending == old(net.pending)[r.requests..]
        && net.requested == old(net.requested) + Repeat(UsherUrl(channelName, token, signature), r.requests)
        && sleeps == old(sleeps) + Repeat(5, r.pauses)
    {
      ghost var replies := net.pending;
      var got, k := AwaitMaster();
      ResolveSkip(replies, desiredVariant, k);
      if got.None? {
        return NoReply;
      }
      var resp := got.value;
      if resp.TransportError? || resp.NilResponse? || !resp.body.MasterDoc? {
        return Panic;
      }
      var labels, target := Scan(resp.body.variants, desiredVariant);
      if target.None? {
        return Panic;
      }
      return Ok(target.value);
    }

    /** The sends for one segment URI that missed the cache: its URL on
        `Output`, then its message on `Status` when there is one. */
    method Announce(base: Urls.Url, uri: string)
      modifies this`sent
      ensures sent == old(sent) + Announcement(base, uri, hasStatus)
    {
      sent := sent + [ToOutput(Urls.SegmentUrl(base, uri))];
      if hasStatus {
        sent := sent + [ToStatus(Queueing(uri))];
      }
    }

    /** The segment loop: each non-nil segment whose URI misses the cache
        is sent on `Output` joined onto the directory of `base`, its raw URI
        is added to the cache, and, when there is a `Status` channel, the
        message is sent there. */
    method EnqueueSegments(base: Urls.Url, segs: seq<Option<string>>, cache: Lru.Cache) returns (cache': Lru.Cache)
      requires Lru.Valid(cache)
      modifies this`sent
      ensures sent == old(sent) + Announced(base, Segments.Misses(segs, cache).0, hasStatus)
      ensures cache' == Segments.Misses(segs, cache).1
    {
      cache' := cache;
      for i := 0 to |segs|
        invariant Lru.Valid(cache')
        invariant old(sent) + Announced(base, Segments.Misses(segs, cache).0, hasStatus)
               == sent + Announced(base, Segments.Misses(segs[i..], cache').0, hasStatus)
        invariant Segments.Misses(segs, cache).1 == Segments.Misses(segs[i..], cache').1
      {
        assert segs[i..][1..] == segs[i + 1..];
        if segs[i].Some? {
          var lookup := Lru.Get(cache', segs[i].value);
          cache' := lookup.1;
          if !lookup.0 {
            ghost var rest := Segments.Misses(segs[i + 1..], Lru.Add(cache', segs[i].value)).0;
            assert ([segs[i].value] + rest)[1..] == rest;
            assert Announced(base, [segs[i].value] + rest, hasStatus)
                == Announcement(base, segs[i].value, hasStatus) + Announced(base, rest, hasStatus);
            Announce(base, segs[i].value);
            cache' := Lru.Add(cache', segs[i].value);
          }
        }
      }
      assert segs[|segs|..] == [];
    }

    /** One pass of the polling loop: the request for `uri`, then a
        5-second sleep after a non-200 reply, or the segment loop and the
        sleep for the target duration. */
    method PollPass(base: Urls.Url, uri: string, cache: Lru.Cache)
      returns (exit: Option<Exit>, cache': Lru.Cache, ghost segs: seq<Option<string>>, ghost pause: seq<int>, ghost used: nat)
      requires Lru.Valid(cache)
      modifies net, this`sent, this`sleeps
      ensures used <= 1 && used <= |old(net.pending)| && net.pending == old(net.pending)[used..]
      ensures net.requested == old(net.requested) + Repeat(uri, used) && sleeps == old(sleeps) + pause
      ensures exit.None? ==> used == 1 && WatchTrace(old(net.pending)) == Then(segs, pause, 1, WatchTrace(net.pending))
      ensures exit.Some? ==> WatchTrace(old(net.pending)) == Watched(used, exit.value, [], []) && pause == []
      ensures old(net.pending) == [] <==> exit == Some(NoMoreReplies)
      ensures old(net.pending) == [] ==> net.pending == [] && net.requested == old(net.requested)
      ensures old(net.pending) != [] ==>
        && net.pending == old(net.pending)[1..]
        && net.requested == old(net.requested) + [uri]
        && var s := PassStep(old(net.pending)[0]);
        && (s.Abort? <==> exit.Some?)
        && (s.Retry? ==> segs == [] && sleeps == old(sleeps) + [5])
        && (s.Media? ==> segs == s.segments && sleeps == old(sleeps) + [s.targetDuration])
      ensures exit.Some? ==> exit.value != TokenFailed && sent == old(sent)
      ensures exit.None? ==>
        && sent == old(sent) + Announced(base, Segments.Misses(segs, cache).0, hasStatus)
        && cache' == Segments.Misses(segs, cache).1
    {
      var got := net.Do(uri);
      if got.None? {
        return Some(NoMoreReplies), cache, [], [], 0;
      }
      assert Repeat(uri, 1) == [uri];
      var step := PassStep(got.value);
      match step
      case Abort(e) =>
        return Some(e), cache, [], [], 1;
      case Retry =>
        sleeps := sleeps + [5];
        return None, cache, [], [5], 1;
      case Media(targetDuration, segments) =>
        cache' := EnqueueSegments(base, segments, cache);
        sleeps := sleeps + [targetDuration];
        return None, cache', segments, [targetDuration], 1;
    }

    /** One pass of the polling loop within the loop, whose earlier passes
        walked `processed` and announced `queued`: what it announces
        extends both in order. */
    method Tick(base: Urls.Url, uri: string, cache: Lru.Cache, ghost processed: seq<Option<string>>, ghost queued: seq<string>, ghost sent0: seq<Send>)
      returns (exit: Option<Exit>, cache': Lru.Cache, ghost segs: seq<Option<string>>, ghost pause: seq<int>, ghost used: nat, ghost queued': seq<string>)
      requires Tracked(processed, cache, queued, base, hasStatus, sent0, sent)
      modifies net, this`sent, this`sleeps
      ensures used <= |old(net.pending)| && net.pending == old(net.pending)[used..]
      ensures net.requested == old(net.requested) + Repeat(uri, used) && sleeps == old(sleeps) + pause
      ensures exit.None? ==>
        && WatchTrace(old(net.pending)) == Then(segs, pause, used, WatchTrace(net.pending)) && 0 < used
        && Tracked(processed + segs, cache', queued', base, hasStatus, sent0, sent)
      ensures exit.Some? ==> WatchTrace(old(net.pending)) == Watched(used, exit.value, [], []) && pause == [] && sent == old(sent)
    {
      exit, cache', segs, pause, used := PollPass(base, uri, cache);
      queued' := queued;
      if exit.None? {
        ghost var missed := Segments.Misses(segs, cache).0;
        AnnouncedExtend(sent0, base, queued, missed, hasStatus);
        Segments.MissesAppend(processed, segs, Lru.New());
        queued' := queued + missed;
      }
    }

    /** The polling loop has got as far as `g` since it started on
        `replies` with `requested`, `slept` and `sent` already recorded,
        and holds `cache`. */
    ghost predicate Sofar(uri: string, base: Urls.Url, replies: seq<Response<Doc>>, requested: seq<string>,
                          slept: seq<int>, sent0: seq<Send>, cache: Lru.Cache, g: Progress)
      reads this, net
    {
      && g.consumed <= |replies| && net.pending == replies[g.consumed..]
      && net.requested == requested + Repeat(uri, g.consumed)
      && sleeps == slept + g.slept
      && Tracked(g.processed, cache, g.queued, base, hasStatus, sent0, sent)
      && WatchTrace(replies) == Then(g.processed, g.slept, g.consumed, WatchTrace(net.pending))
    }

    /** One pass of the polling loop, as progress from `g`. */
    method Advance(uri: string, base: Urls.Url, cache: Lru.Cache, ghost replies: seq<Response<Doc>>, ghost requested: seq<string>,
                   ghost slept: seq<int>, ghost sent0: seq<Send>, ghost g: Progress)
      returns (exit: Option<Exit>, cache': Lru.Cache, ghost g': Progress)
      requires Sofar(uri, base, replies, requested, slept, sent0, cache, g)
      modifies net, this`sent, this`sleeps
      ensures exit.None? ==> Sofar(uri, base, replies, requested, slept, sent0, cache', g') && |net.pending| < old(|net.pending|)
      ensures exit.Some? ==>
        && g'.consumed <= |replies| && net.pending == replies[g'.consumed..]
        && net.requested == requested + Repeat(uri, g'.consumed) && sleeps == slept + g.slept
        && WatchTrace(replies) == Watched(g'.consumed, exit.value, g.processed, g.slept)
        && g.queued == Segments.Misses(g.processed, Lru.New()).0 && sent == sent0 + Announced(base, g.queued, hasStatus)
    {
      ghost var segs, pause, used, queued';
      exit, cache', segs, pause, used, queued' := Tick(base, uri, cache, g.processed, g.queued, sent0);
      ghost var total := g.consumed + used;
      RepeatAppend(uri, g.consumed, used);
      assert net.requested == requested + (Repeat(uri, g.consumed) + Repeat(uri, used));
      assert replies[g.consumed..][used..] == replies[total..];
      assert sleeps == slept + (g.slept + pause);
      ThenThen(g.processed, g.slept, g.consumed, segs, pause, used, WatchTrace(net.pending));
      if exit.Some? {
        assert g.processed + [] == g.processed && g.slept + [] == g.slept;
        g' := g.(consumed := total);
      } else {
        g' := Progress(total, g.processed + segs, g.slept + pause, queued');
      }
    }

    /** The polling loop, from a fresh cache, over the chosen variant. Every
        request is for the variant's URI: a failed fetch is retried as is,
        never re-resolved. `queued` are the raw URIs announced, `processed`
        the segment entries of every media playlist walked, `consumed` the
        replies used. */
    method Stream(variant: Variant) returns (exit: Exit, ghost queued: seq<string>, ghost processed: seq<Option<string>>, ghost consumed: nat)
      modifies net, this`sent, this`sleeps
      ensures var t := WatchTrace(old(net.pending));
        && exit == t.exit && processed == t.walked && consumed == t.consumed
        && net.pending == old(net.pending)[t.consumed..] && sleeps == old(sleeps) + t.pauses
      ensures queued == Segments.Misses(processed, Lru.New()).0
      ensures sent == old(sent) + Announced(Urls.Parse(variant.uri), queued, hasStatus)
      ensures net.requested == old(net.requested) + Repeat(variant.uri, consumed)
    {
      ghost var replies := net.pending;
      ghost var g := Progress(0, [], [], []);
      var cache := Lru.New();
      var base := Urls.Parse(variant.uri);
      assert replies[0..] == replies;
      while true
        invariant Sofar(variant.uri, base, replies, old(net.requested), old(sleeps), old(sent), cache, g)
        decreases |net.pending|
      {
        var stopped, cache';
        ghost var g';
        stopped, cache', g' := Advance(variant.uri, base, cache, replies, old(net.requested), old(sleeps), old(sent), g);
        if stopped.Some? {
          return stopped.value, g.queued, g.processed, g'.consumed;
        }
        cache, g := cache', g';
      }
    }

    /** The goroutine started by `run`: the master-playlist loop, then the
        polling loop over the chosen variant. */
    method Run() returns (exit: Exit, ghost queued: seq<string>, ghost processed: seq<Option<string>>)
      modifies net, this`sent, this`sleeps
      ensures var t := RunTrace(old(net.pending), desiredVariant);
        && exit == t.exit && processed == t.walked
        && net.pending == old(net.pending)[t.consumed..] && sleeps == old(sleeps) + t.pauses
      ensures queued == Segments.Misses(processed, Lru.New()).0
      ensures exit.Panicked? || exit.NoMoreReplies?
      ensures var r := Resolve(old(net.pending), desiredVariant);
        && (!r.outcome.Ok? ==> sent == old(sent) && queued == [])
        && (r.outcome.Ok? ==> sent == old(sent) + Announced(Urls.Parse(r.outcome.value.uri), queued, hasStatus))
        && (r.outcome.Ok? ==> r.outcome.value.video == desiredVariant)
      ensures Segments.IsSubsequence(queued, Segments.Present(processed))
      ensures forall u :: u in Segments.Present(processed) ==> u in queued
      ensures |processed| <= Lru.Capacity ==> Lru.Distinct(queued)
    {
      ResolveLabel(net.pending, desiredVariant);
      var o := AcquireVariant();
      exit, queued, processed := Follow(o, old(net.pending), Resolve(old(net.pending), desiredVariant), old(sleeps));
      Segments.SessionOf(processed);
    }

    /** What the goroutine does once the master-playlist loop `r` over
        `replies` is over: the polling loop over the variant it settled on,
        or the end. */
    method Follow(o: Outcome<Variant>, ghost replies: seq<Response<Doc>>, ghost r: Resolution, ghost slept: seq<int>)
      returns (exit: Exit, ghost queued: seq<string>, ghost processed: seq<Option<string>>)
      requires o == r.outcome && r.requests <= |replies|
      requires net.pending == replies[r.requests..] && sleeps == slept + Repeat(5, r.pauses)
      modifies net, this`sent, this`sleeps
      ensures var t := Continue(replies, r);
        && exit == t.exit && processed == t.walked
        && net.pending == replies[t.consumed..] && sleeps == slept + t.pauses
      ensures !o.Ok? ==> sent == old(sent) && queued == []
      ensures o.Ok? ==> sent == old(sent) + Announced(Urls.Parse(o.value.uri), queued, hasStatus)
      ensures exit.Panicked? || exit.NoMoreReplies?
      ensures queued == Segments.Misses(processed, Lru.New()).0
    {
      if o.Ok? {
        ghost var consumed;
        exit, queued, processed, consumed := Stream(o.value);
        ContinueOk(replies, r, slept);
      } else {
        exit := if o.NoReply? then NoMoreReplies else Panicked;
        queued, processed := [], [];
        assert slept + Repeat(5, r.pauses) + [] == slept + Repeat(5, r.pauses);
      }
    }

    /** `NewPlaylistWatcher`: `getToken`, returning its error before any
        goroutine starts, then `run`. */
    method Launch() returns (exit: Exit, ghost queued: seq<string>, ghost processed: seq<Option<string>>)
      modifies net, this`token, this`signature, this`sent, this`sleeps
      ensures var t := LaunchTrace(old(net.pending), desiredVariant);
        && exit == t.exit && processed == t.walked
        && net.pending == old(net.pending)[t.consumed..] && sleeps == old(sleeps) + t.pauses
      ensures queued == Segments.Misses(processed, Lru.New()).0
      ensures exit == TokenFailed <==> old(net.pending) != [] && LenientTokenReply(old(net.pending)[0]).Err?
      ensures exit == TokenFailed ==>
        && net.requested == old(net.requested) + [TokenUrl(channelName)]
        && sent == old(sent) && sleeps == old(sleeps)
      ensures Segments.IsSubsequence(queued, Segments.Present(processed))
      ensures forall u :: u in Segments.Present(processed) ==> u in queued
      ensures |processed| <= Lru.Capacity ==> Lru.Distinct(queued)
    {
      var t := GetToken();
      if t.Err? {
        return TokenFailed, [], [];
      } else if t.Panic? {
        return Panicked, [], [];
      } else if t.NoReply? {
        return NoMoreReplies, [], [];
      }
      ghost var rest := net.pending;
      exit, queued, processed := Run();
      ghost var r := RunTrace(rest, desiredVariant);
      assert old(net.pending)[1..][r.consumed..] == old(net.pending)[1 + r.consumed..];
    }
  }

  /** The downloader of streaming.go: for each URL received on `Work`, in
      order, one request; the body of a 200 reply is copied to the output,
      anything else is skipped. */
  class Downloader {
    /** The URLs `Work` delivers before it is closed. */
    const work: seq<string>
    const net: Client<Transfer>
    /** What has been written to `Output`. */
    var output: seq<bv8>

    constructor (work: seq<string>, net: Client<Transfer>)
      ensures this.work == work && this.net == net && output == []
    {
      this.work := work;
      this.net := net;
      output := [];
    }

    /** The `for range d.Work` loop. The first `n` URLs of the queue are
        requested, `n` being the queue's length unless the network runs out
        of replies first; the output grows by the 200 bodies, in order. */
    method Run()
      modifies net, this`output
      ensures var n := if |work| <= |old(net.pending)| then |work| else |old(net.pending)|;
        && output == old(output) + Copied(old(net.pending)[..n])
        && net.requested == old(net.requested) + work[..n]
        && net.pending == old(net.pending)[n..]
    {
      ghost var replies := net.pending;
      var i := 0;
      while i < |work|
        invariant i <= |work| && i <= |replies|
        invariant net.pending == replies[i..]
        invariant net.requested == old(net.requested) + work[..i]
        invariant output == old(output) + Copied(replies[..i])
      {
        var got := net.Do(work[i]);
        if got.None? {
          return;
        }
        assert replies[..i + 1][..i] == replies[..i];
        assert work[..i + 1] == work[..i] + [work[i]];
        var resp := got.value;
        if resp.Reply? && resp.code == StatusOK {
          output := output + resp.body.bytes;
        }
        i := i + 1;
      }
    }
  }
}
