/** What one poll cycle does with the segment list of a media playlist,
    common to the three poller versions: for each non-nil segment in
    playlist order, look its raw URI up in the LRU cache; on a miss, queue
    it and add it to the cache; on a hit, queue nothing. `Misses` is that
    cycle as a function of the playlist and the cache; the lemmas say what
    it guarantees, within a cycle and over a whole session. */
module Segments {
  import opened Hls
  import Lru

  /** The URIs of the non-nil segments, in playlist order. */
  function Present(segs: seq<Option<string>>): (r: seq<string>)
    ensures forall u :: u in r <==> Some(u) in segs
    ensures |r| <= |segs|
  {
    if segs == [] then []
    else (if segs[0].Some? then [segs[0].value] else []) + Present(segs[1..])
  }

  lemma {:induction false} PresentAppend(a: seq<Option<string>>, b: seq<Option<string>>)
    ensures Present(a + b) == Present(a) + Present(b)
  {
    if a != [] {
      assert (a + b)[1..] == a[1..] + b;
      PresentAppend(a[1..], b);
    } else {
      assert a + b == b;
    }
  }

  /** `a` can be obtained from `b` by deleting elements. */
  ghost predicate IsSubsequence(a: seq<string>, b: seq<string>)
    decreases |b|
  {
    a == [] || (b != [] && ((a[0] == b[0] && IsSubsequence(a[1..], b[1..])) || IsSubsequence(a, b[1..])))
  }

  lemma {:induction false} SubsequenceWiden(a: seq<string>, p: seq<string>, b: seq<string>)
    requires IsSubsequence(a, b)
    ensures IsSubsequence(a, p + b)
    decreases |p|
  {
    if a != [] && p != [] {
      assert (p + b)[1..] == p[1..] + b;
      SubsequenceWiden(a, p[1..], b);
    } else if p == [] {
      assert p + b == b;
    }
  }

  lemma {:induction false} SubsequenceAppend(a1: seq<string>, b1: seq<string>, a2: seq<string>, b2: seq<string>)
    requires IsSubsequence(a1, b1) && IsSubsequence(a2, b2)
    ensures IsSubsequence(a1 + a2, b1 + b2)
    decreases |b1|
  {
    if a1 == [] {
      assert a1 + a2 == a2;
      SubsequenceWiden(a2, b1, b2);
    } else {
      assert (b1 + b2)[1..] == b1[1..] + b2;
      if a1[0] == b1[0] && IsSubsequence(a1[1..], b1[1..]) {
        assert (a1 + a2)[1..] == a1[1..] + a2;
        SubsequenceAppend(a1[1..], b1[1..], a2, b2);
      } else {
        SubsequenceAppend(a1, b1[1..], a2, b2);
      }
    }
  }

  /** One cycle over a media playlist's segments: the raw URIs that missed
      the cache, in the order they were queued, and the cache afterwards. */
  function Misses(segs: seq<Option<string>>, c: Lru.Cache): (r: (seq<string>, Lru.Cache))
    requires Lru.Valid(c)
    ensures Lru.Valid(r.1)
    ensures |r.0| <= |segs|
    decreases |segs|
  {
    if segs == [] then ([], c)
    else if segs[0].None? then Misses(segs[1..], c)
    else
      var u := segs[0].value;
      var lookup := Lru.Get(c, u);
      if lookup.0 then Misses(segs[1..], lookup.1)
      else
        var rest := Misses(segs[1..], Lru.Add(lookup.1, u));
        ([u] + rest.0, rest.1)
  }

  /** Two playlists walked one after the other queue what the first
      queues and then what the second queues from the cache the first left
      behind. */
  lemma {:induction false} MissesAppend(a: seq<Option<string>>, b: seq<Option<string>>, c: Lru.Cache)
    requires Lru.Valid(c)
    ensures Misses(a + b, c) == (Misses(a, c).0 + Misses(b, Misses(a, c).1).0, Misses(b, Misses(a, c).1).1)
    decreases |a|
  {
    if a == [] {
      assert a + b == b;
      assert Misses(a, c) == ([], c);
      assert [] + Misses(b, c).0 == Misses(b, c).0;
    } else {
      assert (a + b)[0] == a[0] && (a + b)[1..] == a[1..] + b;
      if a[0].None? {
        MissesAppend(a[1..], b, c);
      } else {
        var lookup := Lru.Get(c, a[0].value);
        if lookup.0 {
          MissesAppend(a[1..], b, lookup.1);
        } else {
          var u := a[0].value;
          var c1 := Lru.Add(lookup.1, u);
          MissesAppend(a[1..], b, c1);
          var r1 := Misses(a[1..], c1);
          var rb := Misses(b, r1.1);
          assert Misses(a, c) == ([u] + r1.0, r1.1);
          assert Misses(a + b, c) == ([u] + (r1.0 + rb.0), rb.1);
          assert [u] + (r1.0 + rb.0) == ([u] + r1.0) + rb.0;
        }
      }
    }
  }

  /** Queued URIs follow playlist order: they are a subsequence of the
      playlist's non-nil segment URIs. */
  lemma {:induction false} MissesInOrder(segs: seq<Option<string>>, c: Lru.Cache)
    requires Lru.Valid(c)
    ensures IsSubsequence(Misses(segs, c).0, Present(segs))
    decreases |segs|
  {
    if segs != [] {
      var r := Misses(segs, c);
      if segs[0].None? {
        assert Present(segs) == Present(segs[1..]);
        assert r == Misses(segs[1..], c);
        MissesInOrder(segs[1..], c);
      } else {
        var u := segs[0].value;
        var lookup := Lru.Get(c, u);
        assert Present(segs) == [u] + Present(segs[1..]);
        if lookup.0 {
          MissesInOrder(segs[1..], lookup.1);
          if r.0 != [] {
            assert ([u] + Present(segs[1..]))[1..] == Present(segs[1..]);
          }
        } else {
          MissesInOrder(segs[1..], Lru.Add(lookup.1, u));
          assert r.0[1..] == Misses(segs[1..], Lru.Add(lookup.1, u)).0;
        }
      }
    }
  }

  /** Nothing is overlooked: every non-nil segment was either cached
      before the cycle or is queued by it; and everything in the cache
      afterwards was cached before or is queued by the cycle. */
  lemma {:induction false} MissesCover(segs: seq<Option<string>>, c: Lru.Cache)
    requires Lru.Valid(c)
    ensures forall u :: u in Present(segs) ==> u in c.keys || u in Misses(segs, c).0
    ensures forall u :: u in Misses(segs, c).1.keys ==> u in c.keys || u in Misses(segs, c).0
    decreases |segs|
  {
    if segs != [] {
      if segs[0].None? {
        MissesCover(segs[1..], c);
      } else {
        var u := segs[0].value;
        var lookup := Lru.Get(c, u);
        if lookup.0 {
          MissesCover(segs[1..], lookup.1);
        } else {
          MissesCover(segs[1..], Lru.Add(lookup.1, u));
        }
      }
    }
  }

  /** A cached URI is not queued again while it stays recent enough: if at
      most `Capacity - 1 - Rank` segments come before the cache could lose
      it, the cycle does not queue it and it is still cached afterwards,
      aged by at most one step per segment. */
  lemma {:induction false} MissesSkipCached(segs: seq<Option<string>>, c: Lru.Cache, x: string)
    requires Lru.Valid(c) && x in c.keys && Lru.Rank(c.keys, x) + |segs| < Lru.Capacity
    ensures x !in Misses(segs, c).0
    ensures x in Misses(segs, c).1.keys
    ensures Lru.Rank(Misses(segs, c).1.keys, x) <= Lru.Rank(c.keys, x) + |segs|
    decreases |segs|
  {
    if segs != [] {
      if segs[0].None? {
        MissesSkipCached(segs[1..], c, x);
      } else {
        var u := segs[0].value;
        var lookup := Lru.Get(c, u);
        if u == x {
          assert lookup.0 && lookup.1.keys[0] == x;
          MissesSkipCached(segs[1..], lookup.1, x);
        } else if lookup.0 {
          Lru.GetAges(c, u, x);
          MissesSkipCached(segs[1..], lookup.1, x);
        } else {
          Lru.AddAges(c, u, x);
          MissesSkipCached(segs[1..], Lru.Add(lookup.1, u), x);
        }
      }
    }
  }

  /** In a playlist of at most `Capacity` segments, every URI the cycle
      queues is still cached at its end, among the |segs| most recent. */
  lemma {:induction false} MissesRecent(segs: seq<Option<string>>, c: Lru.Cache)
    requires Lru.Valid(c) && |segs| <= Lru.Capacity
    ensures forall u :: u in Misses(segs, c).0 ==>
      u in Misses(segs, c).1.keys && Lru.Rank(Misses(segs, c).1.keys, u) < |segs|
    decreases |segs|
  {
    if segs != [] {
      if segs[0].None? {
        MissesRecent(segs[1..], c);
      } else {
        var u := segs[0].value;
        var lookup := Lru.Get(c, u);
        if lookup.0 {
          MissesRecent(segs[1..], lookup.1);
        } else {
          var c1 := Lru.Add(lookup.1, u);
          MissesRecent(segs[1..], c1);
          MissesSkipCached(segs[1..], c1, u);
        }
      }
    }
  }

  /** After a cycle over at most `Capacity` entries every URI the playlist
      lists is cached, among the |segs| most recently used, whether it was
      queued or found in the cache. */
  lemma {:induction false} MissesRefresh(segs: seq<Option<string>>, c: Lru.Cache)
    requires Lru.Valid(c) && |segs| <= Lru.Capacity
    ensures forall u :: u in Present(segs) ==>
      u in Misses(segs, c).1.keys && Lru.Rank(Misses(segs, c).1.keys, u) < |segs|
    decreases |segs|
  {
    if segs != [] {
      assert Present(segs) == (if segs[0].Some? then [segs[0].value] else []) + Present(segs[1..]);
      if segs[0].None? {
        MissesRefresh(segs[1..], c);
      } else {
        var u := segs[0].value;
        var lookup := Lru.Get(c, u);
        var c1 := if lookup.0 then lookup.1 else Lru.Add(lookup.1, u);
        assert Misses(segs, c).1 == Misses(segs[1..], c1).1;
        assert c1.keys[0] == u;
        MissesRefresh(segs[1..], c1);
        MissesSkipCached(segs[1..], c1, u);
      }
    }
  }

  /** A live playlist slides: no URI listed in one playlist is queued by
      the next cycle, whatever the cache held before, as long as the two
      playlists together have at most `Capacity` entries. */
  lemma ListedNotRequeued(c: Lru.Cache, segs: seq<Option<string>>, next: seq<Option<string>>)
    requires Lru.Valid(c) && |segs| + |next| <= Lru.Capacity
    ensures forall u :: u in Present(segs) ==> u !in Misses(next, Misses(segs, c).1).0
  {
    MissesRefresh(segs, c);
    forall u | u in Present(segs) ensures u !in Misses(next, Misses(segs, c).1).0 {
      MissesSkipCached(next, Misses(segs, c).1, u);
    }
  }

  /** In a playlist of at most `Capacity` segments no URI is queued twice. */
  lemma {:induction false} MissesDistinct(segs: seq<Option<string>>, c: Lru.Cache)
    requires Lru.Valid(c) && |segs| <= Lru.Capacity
    ensures Lru.Distinct(Misses(segs, c).0)
    decreases |segs|
  {
    if segs != [] {
      if segs[0].None? {
        MissesDistinct(segs[1..], c);
      } else {
        var u := segs[0].value;
        var lookup := Lru.Get(c, u);
        if lookup.0 {
          MissesDistinct(segs[1..], lookup.1);
        } else {
          var c1 := Lru.Add(lookup.1, u);
          MissesDistinct(segs[1..], c1);
          MissesSkipCached(segs[1..], c1, u);
          var m := Misses(segs[1..], c1).0;
          assert Misses(segs, c).0 == [u] + m;
          forall i, j | 0 <= i < j < |[u] + m| ensures ([u] + m)[i] != ([u] + m)[j] {
            if i == 0 {
              assert ([u] + m)[j] == m[j - 1];
            } else {
              assert ([u] + m)[i] == m[i - 1] && ([u] + m)[j] == m[j - 1];
            }
          }
        }
      }
    }
  }

  /** What holds after any number of poll cycles, starting from an empty
      cache: `queued` are the raw URIs queued so far, `processed` all the
      segment entries of the playlists decoded so far. Queued URIs follow
      playlist order, every segment seen has been queued, everything cached
      has been queued, and as long as no more than `Capacity` segment
      entries have been processed no URI has been queued twice. */
  ghost predicate Session(c: Lru.Cache, queued: seq<string>, processed: seq<Option<string>>) {
    && Lru.Valid(c)
    && IsSubsequence(queued, Present(processed))
    && (forall u :: u in Present(processed) ==> u in queued)
    && (forall u :: u in c.keys ==> u in queued)
    && (|processed| <= Lru.Capacity ==>
          && Lru.Distinct(queued)
          && forall u :: u in queued ==> u in c.keys && Lru.Rank(c.keys, u) < |processed|)
  }

  lemma SessionStart()
    ensures Session(Lru.New(), [], [])
  {
  }

  /** One more cycle keeps the session invariant. */
  lemma SessionStep(c: Lru.Cache, queued: seq<string>, processed: seq<Option<string>>, segs: seq<Option<string>>)
    requires Session(c, queued, processed)
    ensures Session(Misses(segs, c).1, queued + Misses(segs, c).0, processed + segs)
  {
    var r := Misses(segs, c);
    PresentAppend(processed, segs);
    MissesInOrder(segs, c);
    SubsequenceAppend(queued, Present(processed), r.0, Present(segs));
    MissesCover(segs, c);
    if |processed + segs| <= Lru.Capacity {
      MissesRecent(segs, c);
      MissesDistinct(segs, c);
      forall u | u in queued
        ensures u !in r.0 && u in r.1.keys && Lru.Rank(r.1.keys, u) < |processed + segs|
      {
        MissesSkipCached(segs, c, u);
      }
      var q := queued + r.0;
      forall i, j | 0 <= i < j < |q| ensures q[i] != q[j] {
        if j < |queued| {
          assert q[i] == queued[i] && q[j] == queued[j];
        } else if i >= |queued| {
          assert q[i] == r.0[i - |queued|] && q[j] == r.0[j - |queued|];
        } else {
          assert q[i] in queued && q[j] in r.0;
        }
      }
    }
  }

  /** The session invariant holds of the queue and the cache that walking
      `processed` from an empty cache produces, however many cycles it
      took: the queue is decided by the segment entries alone. */
  lemma {:induction false} SessionOf(processed: seq<Option<string>>)
    ensures Session(Misses(processed, Lru.New()).1, Misses(processed, Lru.New()).0, processed)
    decreases |processed|
  {
    if processed == [] {
      SessionStart();
    } else {
      var init := processed[..|processed| - 1];
      var last := [processed[|processed| - 1]];
      assert init + last == processed;
      SessionOf(init);
      MissesAppend(init, last, Lru.New());
      SessionStep(Misses(init, Lru.New()).1, Misses(init, Lru.New()).0, init, last);
    }
  }

  /** However long the session, a cycle queues none of the URIs listed in
      the playlist walked just before it, as long as the two playlists
      together have at most `Capacity` entries. */
  lemma SessionNoRequeue(prior: seq<Option<string>>, segs: seq<Option<string>>, next: seq<Option<string>>)
    requires |segs| + |next| <= Lru.Capacity
    ensures var before := Misses(prior + segs, Lru.New()).0;
      && Misses(prior + segs + next, Lru.New()).0 == before + Misses(next, Misses(prior + segs, Lru.New()).1).0
      && forall u :: u in Present(segs) ==> u !in Misses(prior + segs + next, Lru.New()).0[|before|..]
  {
    var c := Misses(prior, Lru.New()).1;
    MissesAppend(prior, segs, Lru.New());
    MissesAppend(prior + segs, next, Lru.New());
    ListedNotRequeued(c, segs, next);
  }
}
