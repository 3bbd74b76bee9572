/** The `Playlister` version of the live poller (playlister.go). After the
    token and one `getVariant` call, every pass of the polling loop fetches
    the variant's media playlist. A failed fetch triggers a single
    re-resolution, after which the loop starts over. A successful fetch
    queues, for every segment URI that misses the cache, the segment's URL
    joined onto the directory of the variant URL, then sleeps for the
    target duration. Every way out closes `Status` and none closes
    `Output`. */
module PlaylisterPoller {
  import opened Hls
  import Lru
  import Segments
  import Urls
  import opened Variants
  import opened Runs

  /** How the poller goroutine ends. `NoMoreReplies` stands for a network
      that has nothing more to say; the others are the source's own exits. */
  datatype Exit =
    | TokenFailed         // getToken returned an error: close Status
    | VariantNotFound     // the first getVariant returned an error: close Status
    | ReResolutionFailed  // the getVariant after a failed fetch returned an error: close Status
    | Stopped             // Done was signalled: close Status
    | Panicked            // a nil dereference or a failed type assertion
    | NoMoreReplies
  {
    /** The exits that close `Status`. */
    predicate Teardown() {
      TokenFailed? || VariantNotFound? || ReResolutionFailed? || Stopped?
    }
  }

  /** How the goroutine leaves its preamble: polling with a variant, or
      finished. */
  datatype Started = Polling(variant: Variant) | Ended(exit: Exit)

  /** The result of one pass of the polling loop's `default` branch up to
      the segment loop: a media playlist to walk, a re-resolved variant to
      start over with, or the way the goroutine ends. */
  datatype Step =
    | Media(targetDuration: int, segments: seq<Option<string>>)
    | Resolved(variant: Variant)
    | Abort(exit: Exit)

  datatype Pass = Pass(requests: nat, step: Step)

  /** A pass, given the replies the network will give. A transport error on
      the playlist fetch panics, because the log line reads the status of a
      nil response. Any other non-200 reply leads to exactly one
      `getVariant` call. A nil response gets past the failure test and
      panics when its body is decoded. */
  function PassOnce(replies: seq<Response<Doc>>, desired: string): (p: Pass)
    ensures p.requests <= |replies|
    ensures !p.step.Abort? ==> 1 <= p.requests
    ensures p.step.Abort? ==>
      p.step.exit.ReResolutionFailed? || p.step.exit.Panicked? || p.step.exit.NoMoreReplies?
  {
    if replies == [] then Pass(0, Abort(NoMoreReplies))
    else match replies[0]
      case TransportError => Pass(1, Abort(Panicked))
      case NilResponse => Pass(1, Abort(Panicked))
      case Reply(code, body) =>
        if code != StatusOK then
          if |replies| == 1 then Pass(1, Abort(NoMoreReplies))
          else match MasterReply(replies[1], desired)
            case Ok(v) => Pass(2, Resolved(v))
            case Panic => Pass(2, Abort(Panicked))
            case _ => Pass(2, Abort(ReResolutionFailed))
        else if body.MediaDoc? then Pass(1, Media(body.targetDuration, body.segments))
        else Pass(1, Abort(Panicked))
  }

  /** What one pass guarantees. Segments come only from a 200 reply to the
      variant's URI. A non-200 reply makes exactly one more request, and
      then either the goroutine ends or the loop starts over with a variant
      of the desired label, queuing nothing. A transport error always ends
      in a panic. */
  lemma PassOnceSpec(replies: seq<Response<Doc>>, desired: string)
    ensures var p := PassOnce(replies, desired);
      && p.requests <= 2
      && (p.step.Media? <==> replies != [] && replies[0].Reply? && replies[0].code == StatusOK && replies[0].body.MediaDoc?)
      && (p.step.Media? ==> p.requests == 1 && replies[0].body == MediaDoc(p.step.targetDuration, p.step.segments))
      && (p.step.Resolved? ==>
            && p.requests == 2 && replies[0].Reply? && replies[0].code != StatusOK
            && MasterReply(replies[1], desired) == Ok(p.step.variant)
            && p.step.variant.video == desired)
      && (p.step == Abort(ReResolutionFailed) <==>
            |replies| >= 2 && replies[0].Reply? && replies[0].code != StatusOK && MasterReply(replies[1], desired).Err?)
      && (replies != [] && replies[0].TransportError? ==> p == Pass(1, Abort(Panicked)))
  {
  }

  /** How the goroutine leaves its preamble, given the replies the network
      will give: how many of them `getToken` and `getVariant` use, and
      whether polling starts and with which variant. */
  function Opening(replies: seq<Response<Doc>>, desired: string): (o: (nat, Started))
    ensures o.0 <= |replies|
  {
    if replies == [] then (0, Ended(NoMoreReplies))
    else if TokenReply(replies[0]).Err? then (1, Ended(TokenFailed))
    else if !TokenReply(replies[0]).Ok? then (1, Ended(Panicked))
    else if |replies| == 1 then (1, Ended(NoMoreReplies))
    else match MasterReply(replies[1], desired)
      case Ok(v) => (2, Polling(v))
      case Panic => (2, Ended(Panicked))
      case _ => (2, Ended(VariantNotFound))
  }

  /** A media playlist the polling loop walked: the variant it was fetched
      for and its segment entries. */
  datatype Walk = Walk(from: Variant, segments: seq<Option<string>>)

  /** One evaluation of the polling `select`: how many replies and `Done`
      flags it used, whether it ended the loop, the media playlist it
      walked (none or one), and the variant the loop goes on with. */
  type Evaluation = Turn<Exit, Walk>

  /** One evaluation of the polling `select`, given the replies and the
      `Done` flags to come. A pending `Done` ends the loop before any
      request. */
  function SelectOnce(replies: seq<Response<Doc>>, done: seq<bool>, desired: string, variant: Variant): (s: Evaluation)
    ensures s.consumed <= |replies| && s.used <= |done|
    ensures s.exit.None? ==> 0 < s.consumed
    ensures s.exit.Some? ==> s.walked == []
    ensures |s.walked| <= 1 && forall w :: w in s.walked ==> w.from == variant
  {
    var used := if done == [] then 0 else 1;
    if done != [] && done[0] then Turn(0, 1, Some(Stopped), [], variant)
    else
      var p := PassOnce(replies, desired);
      match p.step
      case Abort(e) => Turn(p.requests, used, Some(e), [], variant)
      case Resolved(v) => Turn(p.requests, used, None, [], v)
      case Media(_, segs) => Turn(p.requests, used, None, [Walk(variant, segs)], variant)
  }

  /** The whole polling loop: replies and `Done` flags used, how it ended,
      and the media playlists it walked, in order. */
  datatype Trace = Trace(consumed: nat, doneUsed: nat, exit: Exit, walks: seq<Walk>)

  function PollTrace(replies: seq<Response<Doc>>, done: seq<bool>, desired: string, variant: Variant): (t: Trace)
    ensures t.consumed <= |replies| && t.doneUsed <= |done|
    decreases |replies|
  {
    var s := SelectOnce(replies, done, desired, variant);
    if s.exit.Some? then Trace(s.consumed, s.used, s.exit.value, [])
    else
      var r := PollTrace(replies[s.consumed..], done[s.used..], desired, s.next);
      Trace(s.consumed + r.consumed, s.used + r.doneUsed, r.exit, s.walked + r.walks)
  }

  /** `hist` are the first |hist| evaluations of the `select` when the loop
      starts from `replies`, `done` and `variant`: each is what `SelectOnce`
      makes of the state the earlier ones left. This predicate and the
      lemmas `RanSnoc` to `RanTrace` below are the playlist manager's, word
      for word, instantiated with this module's own `SelectOnce`, whose
      passes re-resolve once instead of up to five times. */
  ghost predicate Ran(replies: seq<Response<Doc>>, done: seq<bool>, desired: string, variant: Variant, hist: seq<Evaluation>) {
    forall i {:trigger Nth(hist, i)} :: 0 <= i < |hist| ==>
      && Consumed(hist[..i]) <= |replies| && Used(hist[..i]) <= |done|
      && Nth(hist, i) == SelectOnce(replies[Consumed(hist[..i])..], done[Used(hist[..i])..], desired, VariantAfter(variant, hist[..i]))
  }

  lemma RanSnoc(replies: seq<Response<Doc>>, done: seq<bool>, desired: string, variant: Variant, hist: seq<Evaluation>, p: Evaluation)
    requires Ran(replies, done, desired, variant, hist)
    requires Consumed(hist) <= |replies| && Used(hist) <= |done|
    requires p == SelectOnce(replies[Consumed(hist)..], done[Used(hist)..], desired, VariantAfter(variant, hist))
    ensures Ran(replies, done, desired, variant, hist + [p])
  {
    var h := hist + [p];
    forall i | 0 <= i < |h|
      ensures && Consumed(h[..i]) <= |replies| && Used(h[..i]) <= |done|
              && Nth(h, i) == SelectOnce(replies[Consumed(h[..i])..], done[Used(h[..i])..], desired, VariantAfter(variant, h[..i]))
    {
      if i < |hist| {
        assert h[..i] == hist[..i] && Nth(h, i) == Nth(hist, i);
      } else {
        assert h[..i] == hist;
      }
    }
  }

  /** After its first evaluation the loop runs on as if it had started
      from the state that evaluation left. */
  lemma RanTail(replies: seq<Response<Doc>>, done: seq<bool>, desired: string, variant: Variant, hist: seq<Evaluation>)
    requires Ran(replies, done, desired, variant, hist) && hist != []
    ensures hist[0].consumed <= |replies| && hist[0].used <= |done|
    ensures Ran(replies[hist[0].consumed..], done[hist[0].used..], desired, hist[0].next, hist[1..])
  {
    var p, rest := hist[0], hist[1..];
    assert hist[..0] == [];
    assert Nth(hist, 0) == SelectOnce(replies, done, desired, variant);
    var replies', done' := replies[p.consumed..], done[p.used..];
    forall i | 0 <= i < |rest|
      ensures && Consumed(rest[..i]) <= |replies'| && Used(rest[..i]) <= |done'|
              && Nth(rest, i) == SelectOnce(replies'[Consumed(rest[..i])..], done'[Used(rest[..i])..], desired, VariantAfter(p.next, rest[..i]))
    {
      var h := hist[..i + 1];
      assert h[0] == p && h[1..] == rest[..i];
      assert Nth(rest, i) == Nth(hist, i + 1);
      assert replies[Consumed(h)..] == replies'[Consumed(rest[..i])..];
      assert done[Used(h)..] == done'[Used(rest[..i])..];
    }
  }

  /** A single evaluation is a run. */
  lemma RanOne(replies: seq<Response<Doc>>, done: seq<bool>, desired: string, variant: Variant, p: Evaluation)
    requires p == SelectOnce(replies, done, desired, variant)
    ensures Ran(replies, done, desired, variant, [p])
  {
    assert [p][..0] == [] && Nth([p], 0) == p;
  }

  /** Extending a run by an evaluation made from the state it left. */
  lemma RanJoin(replies: seq<Response<Doc>>, done: seq<bool>, desired: string, variant: Variant, hist: seq<Evaluation>, p: Evaluation)
    requires Ran(replies, done, desired, variant, hist)
    requires Consumed(hist) <= |replies| && Used(hist) <= |done|
    requires Ran(replies[Consumed(hist)..], done[Used(hist)..], desired, VariantAfter(variant, hist), [p])
    ensures Ran(replies, done, desired, variant, hist + [p])
    ensures Consumed(hist + [p]) == Consumed(hist) + p.consumed <= |replies|
    ensures Used(hist + [p]) == Used(hist) + p.used <= |done|
    ensures replies[Consumed(hist)..][p.consumed..] == replies[Consumed(hist + [p])..]
    ensures done[Used(hist)..][p.used..] == done[Used(hist + [p])..]
    ensures VariantAfter(variant, hist + [p]) == p.next
    ensures Walked(hist + [p]) == Walked(hist) + p.walked
  {
    assert [p][..0] == [] && Nth([p], 0) == p;
    RanSnoc(replies, done, desired, variant, hist, p);
    Snoc(variant, hist, p);
  }

  /** A run of evaluations of which only the last ends the loop determines
      the loop's trace. */
  lemma {:induction false} RanTrace(replies: seq<Response<Doc>>, done: seq<bool>, desired: string, variant: Variant, hist: seq<Evaluation>)
    requires Ran(replies, done, desired, variant, hist)
    requires hist != [] && hist[|hist| - 1].exit.Some?
    requires forall i :: 0 <= i < |hist| - 1 ==> hist[i].exit.None?
    ensures PollTrace(replies, done, desired, variant)
      == Trace(Consumed(hist), Used(hist), hist[|hist| - 1].exit.value, Walked(hist))
    decreases |hist|
  {
    var p := hist[0];
    assert hist[..0] == [];
    assert Nth(hist, 0) == SelectOnce(replies, done, desired, variant);
    var rest := hist[1..];
    if rest == [] {
      assert Walked(hist) == p.walked + [] && p.walked == [];
    } else {
      RanTail(replies, done, desired, variant, hist);
      forall i | 0 <= i < |rest| - 1 ensures rest[i].exit.None? {
        assert rest[i] == hist[i + 1];
      }
      RanTrace(replies[p.consumed..], done[p.used..], desired, p.next, rest);
    }
  }

  /** The loop ends only through a `Done`, a failed re-resolution, a panic
      or a silent network. */
  lemma {:induction false} TraceExits(replies: seq<Response<Doc>>, done: seq<bool>, desired: string, variant: Variant)
    ensures var e := PollTrace(replies, done, desired, variant).exit;
      e.ReResolutionFailed? || e.Stopped? || e.Panicked? || e.NoMoreReplies?
    decreases |replies|
  {
    var s := SelectOnce(replies, done, desired, variant);
    if s.exit.None? {
      TraceExits(replies[s.consumed..], done[s.used..], desired, s.next);
    }
  }

  /** Every media playlist the loop walks is that of the variant it
      started with or of a re-resolved variant with the desired label. */
  lemma {:induction false} TraceVariants(replies: seq<Response<Doc>>, done: seq<bool>, desired: string, variant: Variant)
    ensures forall w :: w in PollTrace(replies, done, desired, variant).walks ==>
      w.from == variant || w.from.video == desired
    decreases |replies|
  {
    var s := SelectOnce(replies, done, desired, variant);
    if s.exit.None? {
      PassOnceSpec(replies, desired);
      assert s.next == variant || s.next.video == desired;
      TraceVariants(replies[s.consumed..], done[s.used..], desired, s.next);
    }
  }

  /** The segment entries of the playlists walked, in order. */
  function Flatten(walks: seq<Walk>): seq<Option<string>> {
    if walks == [] then [] else walks[0].segments + Flatten(walks[1..])
  }

  /** For each URI queued over `walks` from cache `c`, the URL of the
      playlist it was found in, the URL its segment URL is joined onto. */
  function Bases(walks: seq<Walk>, c: Lru.Cache): seq<Urls.Url>
    requires Lru.Valid(c)
  {
    if walks == [] then []
    else
      var r := Segments.Misses(walks[0].segments, c);
      Repeat(Urls.Parse(walks[0].from.uri), |r.0|) + Bases(walks[1..], r.1)
  }

  /** One base per URI queued, each the URL of a playlist walked. */
  lemma {:induction false} BasesSpec(walks: seq<Walk>, c: Lru.Cache)
    requires Lru.Valid(c)
    ensures |Bases(walks, c)| == |Segments.Misses(Flatten(walks), c).0|
    ensures forall b :: b in Bases(walks, c) ==> exists w :: w in walks && b == Urls.Parse(w.from.uri)
    decreases |walks|
  {
    if walks != [] {
      var r := Segments.Misses(walks[0].segments, c);
      BasesSpec(walks[1..], r.1);
      Segments.MissesAppend(walks[0].segments, Flatten(walks[1..]), c);
      forall b | b in Bases(walks, c) ensures exists w :: w in walks && b == Urls.Parse(w.from.uri) {
        if b in Bases(walks[1..], r.1) {
          var w :| w in walks[1..] && b == Urls.Parse(w.from.uri);
          assert w in walks;
        } else {
          assert b == Urls.Parse(walks[0].from.uri);
        }
      }
    }
  }

  lemma {:induction false} FlattenAppend(walks: seq<Walk>, w: seq<Walk>)
    ensures Flatten(walks + w) == Flatten(walks) + Flatten(w)
    decreases |walks|
  {
    if walks == [] {
      assert walks + w == w;
    } else {
      var head, rest := walks[0].segments, Flatten(walks[1..]);
      assert (walks + w)[0] == walks[0] && (walks + w)[1..] == walks[1..] + w;
      assert Flatten(walks + w) == head + Flatten(walks[1..] + w);
      FlattenAppend(walks[1..], w);
      assert head + (rest + Flatten(w)) == (head + rest) + Flatten(w);
    }
  }

  /** Walking more playlists adds their bases after the earlier ones, from
      the cache the earlier ones left. */
  lemma {:induction false} BasesAppend(walks: seq<Walk>, w: seq<Walk>, c: Lru.Cache)
    requires Lru.Valid(c)
    ensures Bases(walks + w, c) == Bases(walks, c) + Bases(w, Segments.Misses(Flatten(walks), c).1)
    decreases |walks|
  {
    if walks == [] {
      assert walks + w == w;
    } else {
      var v := walks[0];
      var r := Segments.Misses(v.segments, c);
      var head := Repeat(Urls.Parse(v.from.uri), |r.0|);
      assert (walks + w)[0] == v && (walks + w)[1..] == walks[1..] + w;
      assert Bases(walks + w, c) == head + Bases(walks[1..] + w, r.1);
      BasesAppend(walks[1..], w, r.1);
      Segments.MissesAppend(v.segments, Flatten(walks[1..]), c);
      var tail := Bases(w, Segments.Misses(Flatten(walks[1..]), r.1).1);
      assert Segments.Misses(Flatten(walks), c).1 == Segments.Misses(Flatten(walks[1..]), r.1).1;
      assert head + (Bases(walks[1..], r.1) + tail) == (head + Bases(walks[1..], r.1)) + tail;
    }
  }

  /** The bases of at most one playlist, fetched for `v`. */
  lemma BasesOfOne(w: seq<Walk>, v: Variant, c: Lru.Cache)
    requires Lru.Valid(c) && |w| <= 1 && forall x :: x in w ==> x.from == v
    ensures Bases(w, c) == Repeat(Urls.Parse(v.uri), |Segments.Misses(Flatten(w), c).0|)
  {
    if w != [] {
      var r := Segments.Misses(w[0].segments, c);
      assert w[0] in w && w[1..] == [];
      assert Flatten(w) == w[0].segments + [] == w[0].segments;
      assert Bases(w, c) == Repeat(Urls.Parse(v.uri), |r.0|) + [];
    }
  }

  /** Walking at most one more playlist, fetched for `v`, with the cache
      the earlier walks left: what is queued and the bases grow by that
      playlist's misses, all under `v`'s playlist URL. */
  lemma WalkOne(walks: seq<Walk>, w: seq<Walk>, v: Variant)
    requires |w| <= 1 && forall x :: x in w ==> x.from == v
    ensures var c := Segments.Misses(Flatten(walks), Lru.New()).1;
      var m := Segments.Misses(Flatten(w), c);
      && Segments.Misses(Flatten(walks + w), Lru.New()) == (Segments.Misses(Flatten(walks), Lru.New()).0 + m.0, m.1)
      && Bases(walks + w, Lru.New()) == Bases(walks, Lru.New()) + Repeat(Urls.Parse(v.uri), |m.0|)
  {
    FlattenAppend(walks, w);
    BasesAppend(walks, w, Lru.New());
    BasesOfOne(w, v, Segments.Misses(Flatten(walks), Lru.New()).1);
    Segments.MissesAppend(Flatten(walks), Flatten(w), Lru.New());
  }

  /** The loop's bookkeeping after walking `walks` from a fresh cache:
      `cache` is the cache they leave, `queued` the raw URIs that missed it
      in order, `bases` the playlist URL each was joined onto, and `output`
      is what was sent before the loop followed by those URLs. */
  ghost predicate Tracked(walks: seq<Walk>, cache: Lru.Cache, queued: seq<string>, bases: seq<Urls.Url>, sent: seq<string>, output: seq<string>) {
    && cache == Segments.Misses(Flatten(walks), Lru.New()).1
    && queued == Segments.Misses(Flatten(walks), Lru.New()).0
    && bases == Bases(walks, Lru.New())
    && |bases| == |queued| && output == sent + Urls.JoinEach(bases, queued)
  }

  /** Every URL queued by the loop is the segment URL of the URI at the
      same index joined onto the playlist URL of the variant it started
      with or of a re-resolved variant with the desired label. */
  lemma QueuedUnder(replies: seq<Response<Doc>>, done: seq<bool>, desired: string, variant: Variant)
    ensures var walks := PollTrace(replies, done, desired, variant).walks;
      forall b :: b in Bases(walks, Lru.New()) ==>
        b == Urls.Parse(variant.uri) || exists v: Variant :: v.video == desired && b == Urls.Parse(v.uri)
  {
    var walks := PollTrace(replies, done, desired, variant).walks;
    TraceVariants(replies, done, desired, variant);
    BasesSpec(walks, Lru.New());
    forall b | b in Bases(walks, Lru.New())
      ensures b == Urls.Parse(variant.uri) || exists v: Variant :: v.video == desired && b == Urls.Parse(v.uri)
    {
      var w :| w in walks && b == Urls.Parse(w.from.uri);
      if w.from != variant {
        assert w.from.video == desired;
      }
    }
  }

  class Playlister {
    const channelName: string
    const desiredVariant: string
    /** `http.DefaultClient`. */
    const net: Client<Doc>

    var token: string
    var signature: string
    /** What has been sent on `Output`. */
    var output: seq<string>
    var statusClosed: bool
    var outputClosed: bool
    /** For each evaluation of the polling `select`, whether a `Done` send
        is waiting. */
    var doneReady: seq<bool>
    /** The durations, in seconds, of the `time.Sleep` calls made. */
    ghost var sleeps: seq<int>

    constructor (channelName: string, desiredVariant: string, net: Client<Doc>, doneReady: seq<bool>)
      ensures this.channelName == channelName && this.desiredVariant == desiredVariant
      ensures this.net == net && this.doneReady == doneReady
      ensures token == "" && signature == "" && output == [] && sleeps == []
      ensures !statusClosed && !outputClosed
    {
      this.channelName := channelName;
      this.desiredVariant := desiredVariant;
      this.net := net;
      this.doneReady := doneReady;
      token := "";
      signature := "";
      output := [];
      statusClosed := false;
      outputClosed := false;
      sleeps := [];
    }

    /** `close(p.Status)`. */
    method CloseStatus()
      modifies this`statusClosed
      ensures statusClosed
    {
      statusClosed := true;
    }

    /** `getToken`: one request to the token endpoint; the credential is
        stored only when the reply is a 200 with a token document. */
    method GetToken() returns (o: Outcome<Credential>)
      modifies net, this`token, this`signature
      ensures old(net.pending) == [] ==>
        && o == NoReply && net.pending == [] && net.requested == old(net.requested)
      ensures old(net.pending) != [] ==>
        && o == TokenReply(old(net.pending)[0])
        && net.pending == old(net.pending)[1..]
        && net.requested == old(net.requested) + [TokenUrl(channelName)]
      ensures o.Ok? ==> token == o.value.token && signature == o.value.signature
      ensures !o.Ok? ==> token == old(token) && signature == old(signature)
    {
      var got := net.Do(TokenUrl(channelName));
      if got.None? {
        return NoReply;
      }
      match got.value
      case TransportError =>
        o := Err;
      case NilResponse =>
        o := Panic;
      case Reply(code, body) =>
        if code != StatusOK {
          o := Err;
        } else if !body.TokenDoc? {
          o := Err;
        } else {
          token := body.token;
          signature := body.signature;
          o := Ok(Credential(body.token, body.signature));
        }
    }

    /** `getVariant`: one request to the usher endpoint with the stored
        credential, then the selection scan over the master playlist. */
    method GetVariant() returns (o: Outcome<Variant>)
      modifies net
      ensures old(net.pending) == [] ==>
        && o == NoReply && net.pending == [] && net.requested == old(net.requested)
      ensures old(net.pending) != [] ==>
        && o == MasterReply(old(net.pending)[0], desiredVariant)
        && net.pending == old(net.pending)[1..]
        && net.requested == old(net.requested) + [UsherUrl(channelName, token, signature)]
    {
      var got := net.Do(UsherUrl(channelName, token, signature));
      if got.None? {
        return NoReply;
      }
      match got.value
      case TransportError =>
        o := Err;
      case NilResponse =>
        o := Panic;
      case Reply(code, body) =>
        if code != StatusOK {
          o := Err;
        } else if !body.MasterDoc? {
          o := Panic;
        } else {
          var labels, target := Scan(body.variants, desiredVariant);
          if target.None? {
            o := Err;
          } else {
            o := Ok(target.value);
          }
        }
    }

    /** The polling `default` branch up to the segment loop. */
    method PollStep(variant: Variant) returns (step: Step)
      modifies net
      ensures var p := PassOnce(old(net.pending), desiredVariant);
        && step == p.step
        && net.pending == old(net.pending)[p.requests..]
        && net.requested == old(net.requested)
             + (if p.requests == 0 then [] else [variant.uri])
             + (if p.requests == 2 then [UsherUrl(channelName, token, signature)] else [])
    {
      var got := net.Do(variant.uri);
      if got.None? {
        return Abort(NoMoreReplies);
      }
      var resp := got.value;
      if resp.TransportError? || (resp.Reply? && resp.code != StatusOK) {
        if resp.TransportError? {
          return Abort(Panicked);
        }
        var o := GetVariant();
        if o.Ok? {
          return Resolved(o.value);
        } else if o.Panic? {
          return Abort(Panicked);
        } else if o.NoReply? {
          return Abort(NoMoreReplies);
        }
        return Abort(ReResolutionFailed);
      }
      if resp.NilResponse? || !resp.body.MediaDoc? {
        return Abort(Panicked);
      }
      step := Media(resp.body.targetDuration, resp.body.segments);
    }

    /** The segment loop: each non-nil segment whose URI misses the cache
        is sent on `Output` joined onto the directory of `base`, then its
        raw URI is added to the cache. */
    method EnqueueSegments(base: Urls.Url, segs: seq<Option<string>>, cache: Lru.Cache) returns (cache': Lru.Cache)
      requires Lru.Valid(cache)
      modifies this`output
      ensures output == old(output) + Urls.Join(base, Segments.Misses(segs, cache).0)
      ensures cache' == Segments.Misses(segs, cache).1
    {
      cache' := cache;
      for i := 0 to |segs|
        invariant Lru.Valid(cache')
        invariant old(output) + Urls.Join(base, Segments.Misses(segs, cache).0)
               == output + Urls.Join(base, Segments.Misses(segs[i..], cache').0)
        invariant Segments.Misses(segs, cache).1 == Segments.Misses(segs[i..], cache').1
      {
        assert segs[i..][1..] == segs[i + 1..];
        if segs[i].Some? {
          var lookup := Lru.Get(cache', segs[i].value);
          cache' := lookup.1;
          if !lookup.0 {
            var rest := Segments.Misses(segs[i + 1..], Lru.Add(cache', segs[i].value)).0;
            assert ([segs[i].value] + rest)[1..] == rest;
            output := output + [Urls.SegmentUrl(base, segs[i].value)];
            cache' := Lru.Add(cache', segs[i].value);
          }
        }
      }
      assert segs[|segs|..] == [];
    }

    /** One pass of the `default` branch: the fetch, then either the
        re-resolved variant (`continue`), or the segment loop under the
        variant URL and the sleep for the target duration. `walks` is the
        media playlist walked, if any. A failed re-resolution closes
        `Status`. */
    method PollPass(variant: Variant, cache: Lru.Cache)
      returns (exit: Option<Exit>, next: Variant, cache': Lru.Cache, ghost walks: seq<Walk>)
      requires Lru.Valid(cache)
      modifies net, this`output, this`sleeps, this`statusClosed
      ensures var p := PassOnce(old(net.pending), desiredVariant);
        && net.pending == old(net.pending)[p.requests..]
        && (exit.Some? <==> p.step.Abort?)
        && (p.step.Abort? ==> exit == Some(p.step.exit) && walks == [] && next == variant && sleeps == old(sleeps))
        && (p.step.Resolved? ==> walks == [] && next == p.step.variant && sleeps == old(sleeps))
        && (p.step.Media? ==>
              && walks == [Walk(variant, p.step.segments)] && next == variant
              && sleeps == old(sleeps) + [p.step.targetDuration])
      ensures exit.Some? ==>
        && (exit.value.ReResolutionFailed? || exit.value.Panicked? || exit.value.NoMoreReplies?)
        && output == old(output)
      ensures exit.None? ==>
        && |net.pending| < |old(net.pending)|
        && output == old(output) + Urls.Join(Urls.Parse(variant.uri), Segments.Misses(Flatten(walks), cache).0)
        && cache' == Segments.Misses(Flatten(walks), cache).1
      ensures exit.None? && next != variant ==> walks == [] && next.video == desiredVariant
      ensures exit == Some(ReResolutionFailed) ==> statusClosed
      ensures exit != Some(ReResolutionFailed) ==> statusClosed == old(statusClosed)
    {
      var step := PollStep(variant);
      PassOnceSpec(old(net.pending), desiredVariant);
      match step
      case Abort(e) =>
        if e == ReResolutionFailed {
          CloseStatus();
        }
        return Some(e), variant, cache, [];
      case Resolved(v) =>
        return None, v, cache, [];
      case Media(targetDuration, segments) =>
        var base := Urls.Parse(variant.uri);
        cache' := EnqueueSegments(base, segments, cache);
        sleeps := sleeps + [targetDuration];
        assert [Walk(variant, segments)][1..] == [];
        assert Flatten([Walk(variant, segments)]) == segments + [] == segments;
        return None, variant, cache', [Walk(variant, segments)];
    }

    /** One evaluation of the polling `select`: a pending `Done` closes
        `Status` and ends the loop; otherwise one pass of the `default`
        branch runs. */
    method Select(current: Variant, cache: Lru.Cache)
      returns (exit: Option<Exit>, next: Variant, cache': Lru.Cache, ghost s: Evaluation)
      requires Lru.Valid(cache)
      modifies net, this`output, this`doneReady, this`sleeps, this`statusClosed
      ensures Ran(old(net.pending), old(doneReady), desiredVariant, current, [s])
      ensures exit == s.exit && next == s.next && (exit.None? ==> 0 < s.consumed)
      ensures s.consumed <= |old(net.pending)| && s.used <= |old(doneReady)|
      ensures net.pending == old(net.pending)[s.consumed..] && doneReady == old(doneReady)[s.used..]
      ensures |s.walked| <= 1 && forall w :: w in s.walked ==> w.from == current
      ensures exit.Some? ==> output == old(output) && s.walked == []
      ensures exit.None? ==>
        && output == old(output) + Urls.Join(Urls.Parse(current.uri), Segments.Misses(Flatten(s.walked), cache).0)
        && cache' == Segments.Misses(Flatten(s.walked), cache).1
      ensures exit.Some? && exit.value.Teardown() ==> statusClosed
      ensures !(exit.Some? && exit.value.Teardown()) ==> statusClosed == old(statusClosed)
    {
      s := SelectOnce(net.pending, doneReady, desiredVariant, current);
      RanOne(net.pending, doneReady, desiredVariant, current, s);
      if doneReady != [] {
        var done := doneReady[0];
        doneReady := doneReady[1..];
        if done {
          CloseStatus();
          return Some(Stopped), current, cache, s;
        }
      }
      ghost var walks;
      exit, next, cache', walks := PollPass(current, cache);
    }

    /** One evaluation of the polling `select` within the loop, whose
        earlier walks `walks` queued `queued` under `bases` and left
        `cache`: what it queues extends both in order. */
    method Advance(current: Variant, cache: Lru.Cache, ghost walks: seq<Walk>, ghost queued: seq<string>, ghost bases: seq<Urls.Url>, ghost sent: seq<string>)
      returns (exit: Option<Exit>, next: Variant, cache': Lru.Cache, ghost s: Evaluation, ghost queued': seq<string>, ghost bases': seq<Urls.Url>)
      requires Tracked(walks, cache, queued, bases, sent, output)
      modifies net, this`output, this`doneReady, this`sleeps, this`statusClosed
      ensures Ran(old(net.pending), old(doneReady), desiredVariant, current, [s])
      ensures exit == s.exit && next == s.next && (exit.None? ==> 0 < s.consumed)
      ensures s.consumed <= |old(net.pending)| && s.used <= |old(doneReady)|
      ensures net.pending == old(net.pending)[s.consumed..] && doneReady == old(doneReady)[s.used..]
      ensures exit.Some? ==> output == old(output) && s.walked == []
      ensures exit.None? ==> Tracked(walks + s.walked, cache', queued', bases', sent, output)
      ensures exit.Some? && exit.value.Teardown() ==> statusClosed
      ensures !(exit.Some? && exit.value.Teardown()) ==> statusClosed == old(statusClosed)
    {
      exit, next, cache', s := Select(current, cache);
      queued', bases' := queued, bases;
      if exit.None? {
        ghost var missed := Segments.Misses(Flatten(s.walked), cache).0;
        WalkOne(walks, s.walked, current);
        Urls.JoinEachExtend(sent, bases, queued, Urls.Parse(current.uri), missed);
        queued', bases' := queued + missed, bases + Repeat(Urls.Parse(current.uri), |missed|);
      }
    }

    /** The polling loop, from a fresh cache, as a run `hist` of `select`
        evaluations of which only the last ends it. */
    method Loop(variant: Variant)
      returns (exit: Exit, ghost hist: seq<Evaluation>, ghost queued: seq<string>, ghost bases: seq<Urls.Url>)
      modifies net, this`output, this`doneReady, this`sleeps, this`statusClosed
      ensures Ran(old(net.pending), old(doneReady), desiredVariant, variant, hist)
      ensures hist != [] && hist[|hist| - 1].exit == Some(exit)
      ensures forall i :: 0 <= i < |hist| - 1 ==> hist[i].exit.None?
      ensures Consumed(hist) <= |old(net.pending)| && Used(hist) <= |old(doneReady)|
      ensures net.pending == old(net.pending)[Consumed(hist)..] && doneReady == old(doneReady)[Used(hist)..]
      ensures queued == Segments.Misses(Flatten(Walked(hist)), Lru.New()).0
      ensures bases == Bases(Walked(hist), Lru.New())
      ensures |bases| == |queued| && output == old(output) + Urls.JoinEach(bases, queued)
      ensures exit.Teardown() ==> statusClosed
      ensures !exit.Teardown() ==> statusClosed == old(statusClosed)
    {
      ghost var replies0, done0 := net.pending, doneReady;
      hist, queued, bases := [], [], [];
      ghost var walks: seq<Walk> := [];
      var cache := Lru.New();
      var current := variant;
      while true
        invariant Ran(replies0, done0, desiredVariant, variant, hist)
        invariant forall i :: 0 <= i < |hist| ==> hist[i].exit.None?
        invariant Consumed(hist) <= |replies0| && Used(hist) <= |done0|
        invariant net.pending == replies0[Consumed(hist)..] && doneReady == done0[Used(hist)..]
        invariant current == VariantAfter(variant, hist) && walks == Walked(hist)
        invariant Tracked(walks, cache, queued, bases, old(output), output)
        invariant statusClosed == old(statusClosed)
        decreases |net.pending|
      {
        ghost var s, queued', bases';
        var stopped, next, cache';
        stopped, next, cache', s, queued', bases' := Advance(current, cache, walks, queued, bases, old(output));
        RanJoin(replies0, done0, desiredVariant, variant, hist, s);
        hist := hist + [s];
        if stopped.Some? {
          assert walks + [] == walks;
          return stopped.value, hist, queued, bases;
        }
        queued, bases := queued', bases';
        walks := walks + s.walked;
        cache := cache';
        current := next;
      }
    }

    /** The polling loop, from a fresh cache. `walks` are the media
        playlists walked, as `PollTrace` determines them from the replies
        and the `Done` flags; `processed` their segment entries; `queued`
        the raw URIs whose URLs were sent, the misses of one cache over all
        of them; each was joined onto the URL in `bases` at its index, the
        URL of the playlist it was found in. */
    method Poll(variant: Variant)
      returns (exit: Exit, ghost queued: seq<string>, ghost bases: seq<Urls.Url>, ghost processed: seq<Option<string>>, ghost walks: seq<Walk>)
      modifies net, this`output, this`doneReady, this`sleeps, this`statusClosed
      ensures var t := PollTrace(old(net.pending), old(doneReady), desiredVariant, variant);
        && exit == t.exit && walks == t.walks
        && net.pending == old(net.pending)[t.consumed..] && doneReady == old(doneReady)[t.doneUsed..]
      ensures processed == Flatten(walks) && queued == Segments.Misses(processed, Lru.New()).0
      ensures bases == Bases(walks, Lru.New())
      ensures exit.ReResolutionFailed? || exit.Stopped? || exit.Panicked? || exit.NoMoreReplies?
      ensures exit.Teardown() ==> statusClosed
      ensures !exit.Teardown() ==> statusClosed == old(statusClosed)
      ensures |bases| == |queued| && output == old(output) + Urls.JoinEach(bases, queued)
      ensures Segments.IsSubsequence(queued, Segments.Present(processed))
      ensures forall u :: u in Segments.Present(processed) ==> u in queued
      ensures |processed| <= Lru.Capacity ==> Lru.Distinct(queued)
    {
      ghost var hist;
      exit, hist, queued, bases := Loop(variant);
      walks := Walked(hist);
      processed := Flatten(walks);
      RanTrace(old(net.pending), old(doneReady), desiredVariant, variant, hist);
      Segments.SessionOf(processed);
      TraceExits(old(net.pending), old(doneReady), desiredVariant, variant);
    }

    /** The goroutine up to the polling loop: `getToken`, then a single
        `getVariant`. A token error is reported before any usher request. */
    method Start() returns (s: Started)
      modifies net, this`token, this`signature
      ensures var o := Opening(old(net.pending), desiredVariant);
        s == o.1 && net.pending == old(net.pending)[o.0..]
      ensures s.Ended? ==>
        s.exit.TokenFailed? || s.exit.VariantNotFound? || s.exit.Panicked? || s.exit.NoMoreReplies?
      ensures s == Ended(TokenFailed) <==> old(net.pending) != [] && TokenReply(old(net.pending)[0]).Err?
      ensures s == Ended(TokenFailed) ==> net.requested == old(net.requested) + [TokenUrl(channelName)]
      ensures s == Ended(VariantNotFound) <==>
        && |old(net.pending)| >= 2 && TokenReply(old(net.pending)[0]).Ok?
        && MasterReply(old(net.pending)[1], desiredVariant).Err?
      ensures s.Polling? ==>
        && |old(net.pending)| >= 2
        && MasterReply(old(net.pending)[1], desiredVariant) == Ok(s.variant)
        && s.variant.video == desiredVariant
    {
      var t := GetToken();
      match t
      case Err => s := Ended(TokenFailed);
      case Panic => s := Ended(Panicked);
      case NoReply => s := Ended(NoMoreReplies);
      case Ok(_) =>
        var o := GetVariant();
        match o
        case Err => s := Ended(VariantNotFound);
        case Panic => s := Ended(Panicked);
        case NoReply => s := Ended(NoMoreReplies);
        case Ok(v) => s := Polling(v);
    }

    /** The poller goroutine: `Start`, closing `Status` when it gives up,
        then the polling loop. `Output` is never closed. */
    method Run()
      returns (exit: Exit, ghost queued: seq<string>, ghost bases: seq<Urls.Url>, ghost processed: seq<Option<string>>, ghost walks: seq<Walk>)
      modifies this, net
      ensures var o := Opening(old(net.pending), desiredVariant);
        && (o.1.Ended? ==> exit == o.1.exit && walks == [] && net.pending == old(net.pending)[o.0..])
        && (o.1.Polling? ==>
              var t := PollTrace(old(net.pending)[o.0..], old(doneReady), desiredVariant, o.1.variant);
              exit == t.exit && walks == t.walks && net.pending == old(net.pending)[o.0 + t.consumed..])
      ensures processed == Flatten(walks) && queued == Segments.Misses(processed, Lru.New()).0
      ensures bases == Bases(walks, Lru.New())
      ensures exit.Teardown() ==> statusClosed
      ensures !exit.Teardown() ==> statusClosed == old(statusClosed)
      ensures outputClosed == old(outputClosed)
      ensures |bases| == |queued| && output == old(output) + Urls.JoinEach(bases, queued)
      ensures Segments.IsSubsequence(queued, Segments.Present(processed))
      ensures forall u :: u in Segments.Present(processed) ==> u in queued
      ensures |processed| <= Lru.Capacity ==> Lru.Distinct(queued)
      ensures exit.TokenFailed? || exit.VariantNotFound? ==> queued == []
    {
      var s := Start();
      if s.Ended? {
        if s.exit.Teardown() {
          CloseStatus();
        }
        exit, queued, bases, processed, walks := s.exit, [], [], [], [];
      } else {
        exit, queued, bases, processed, walks := Poll(s.variant);
      }
    }
  }
}
