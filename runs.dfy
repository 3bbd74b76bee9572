/** Runs of a polling loop's body, shared by the poller versions whose loop
    evaluates a `select` over a `Done` channel and a `default` branch. An
    evaluation is summarised by what it used of the replies and of the
    `Done` flags, whether it ended the loop, what it walked, and the
    variant the loop goes on with; a run is the sequence of evaluations in
    the order made. */
module Runs {
  import opened Hls

  /** One evaluation of the loop's body: `consumed` replies and `used`
      `Done` flags taken, the exit if it ended the loop, the items it
      walked, and the variant the next evaluation starts from. */
  datatype Turn<X, W> = Turn(consumed: nat, used: nat, exit: Option<X>, walked: seq<W>, next: Variant)

  /** What a run accounts for, counted from the front. */
  function Consumed<X, W>(hist: seq<Turn<X, W>>): nat {
    if hist == [] then 0 else hist[0].consumed + Consumed(hist[1..])
  }

  function Used<X, W>(hist: seq<Turn<X, W>>): nat {
    if hist == [] then 0 else hist[0].used + Used(hist[1..])
  }

  function Walked<X, W>(hist: seq<Turn<X, W>>): seq<W> {
    if hist == [] then [] else hist[0].walked + Walked(hist[1..])
  }

  /** The variant the loop holds after the run, having started with
      `variant`. */
  function VariantAfter<X, W>(variant: Variant, hist: seq<Turn<X, W>>): Variant
    decreases |hist|
  {
    if hist == [] then variant else VariantAfter(hist[0].next, hist[1..])
  }

  /** Extending a run by one evaluation adds what that evaluation used
      and walked, and hands on its variant. */
  lemma {:induction false} Snoc<X, W>(variant: Variant, hist: seq<Turn<X, W>>, p: Turn<X, W>)
    ensures Consumed(hist + [p]) == Consumed(hist) + p.consumed
    ensures Used(hist + [p]) == Used(hist) + p.used
    ensures Walked(hist + [p]) == Walked(hist) + p.walked
    ensures VariantAfter(variant, hist + [p]) == p.next
    decreases |hist|
  {
    if hist == [] {
      assert [] + [p] == [p] && [p][1..] == [];
      assert Walked([p]) == p.walked + [];
    } else {
      assert (hist + [p])[0] == hist[0] && (hist + [p])[1..] == hist[1..] + [p];
      Snoc(hist[0].next, hist[1..], p);
      assert hist[0].walked + (Walked(hist[1..]) + p.walked) == (hist[0].walked + Walked(hist[1..])) + p.walked;
    }
  }

  /** The `i`th evaluation of a run: the term the facts about a run hang
      on, so that they are brought in only where a proof names it. */
  function Nth<X, W>(hist: seq<Turn<X, W>>, i: nat): (p: Turn<X, W>)
    requires i < |hist|
    ensures p == hist[i]
  {
    hist[i]
  }
}
