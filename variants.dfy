/** Variant selection, the same scan in all three poller versions: walk the
    master playlist's entries, record each non-nil entry's `Video` label at
    its index, and keep the entry whose label equals the desired one; a
    later match overwrites an earlier one. */
module Variants {
  import opened Hls

  /** The label reported for an entry; a nil entry leaves the empty string. */
  function Label(e: Option<Variant>): string {
    if e.Some? then e.value.video else ""
  }

  predicate IsMatch(e: Option<Variant>, desired: string) {
    e.Some? && e.value.video == desired
  }

  /** The index of the last entry whose label is `desired`, if any. */
  function LastMatch(vs: seq<Option<Variant>>, desired: string): (r: Option<nat>)
    ensures r.Some? ==>
      && r.value < |vs| && IsMatch(vs[r.value], desired)
      && forall j :: r.value < j < |vs| ==> !IsMatch(vs[j], desired)
    ensures r.None? ==> forall j :: 0 <= j < |vs| ==> !IsMatch(vs[j], desired)
  {
    if |vs| == 0 then None
    else if IsMatch(vs[|vs| - 1], desired) then Some(|vs| - 1)
    else LastMatch(vs[..|vs| - 1], desired)
  }

  /** The entry `getVariant` returns, if any. */
  function Selected(vs: seq<Option<Variant>>, desired: string): (r: Option<Variant>)
    ensures r.Some? ==> r.value.video == desired && Some(r.value) in vs
    ensures r.None? <==> forall j :: 0 <= j < |vs| ==> !IsMatch(vs[j], desired)
  {
    match LastMatch(vs, desired)
    case None => None
    case Some(i) => vs[i]
  }

  /** The loop over `master_playlist.Variants`: the label list, as long as
      the variant list, and the target entry. */
  method Scan(vs: seq<Option<Variant>>, desired: string) returns (labels: seq<string>, target: Option<Variant>)
    ensures |labels| == |vs|
    ensures forall i :: 0 <= i < |vs| ==> labels[i] == Label(vs[i])
    ensures target == Selected(vs, desired)
  {
    labels := seq(|vs|, _ => "");
    target := None;
    for i := 0 to |vs|
      invariant |labels| == |vs|
      invariant forall j :: 0 <= j < i ==> labels[j] == Label(vs[j])
      invariant forall j :: i <= j < |vs| ==> labels[j] == ""
      invariant target == Selected(vs[..i], desired)
    {
      assert vs[..i + 1][..i] == vs[..i];
      if vs[i].Some? {
        labels := labels[i := vs[i].value.video];
        if desired == vs[i].value.video {
          target := vs[i];
        }
      }
    }
    assert vs[..|vs|] == vs;
  }

  /** Selection is decided by the last matching entry: whatever comes
      before it, including other matches, does not change the choice. */
  lemma {:induction false} SelectedIgnoresEarlierEntries(front: seq<Option<Variant>>, v: Variant, back: seq<Option<Variant>>)
    requires forall j :: 0 <= j < |back| ==> !IsMatch(back[j], v.video)
    ensures Selected(front + [Some(v)] + back, v.video) == Some(v)
    decreases |back|
  {
    var vs := front + [Some(v)] + back;
    if back == [] {
      assert vs[|vs| - 1] == Some(v);
    } else {
      assert vs[|vs| - 1] == back[|back| - 1];
      assert vs[..|vs| - 1] == front + [Some(v)] + back[..|back| - 1];
      SelectedIgnoresEarlierEntries(front, v, back[..|back| - 1]);
    }
  }

  /** `getVariant` in playlist_manager.go and playlister.go, given the reply
      to the master-playlist request: a transport error, a non-200 status
      and a master playlist without the desired label are errors; a nil
      response, or a 200 body that is not a master playlist, panics. */
  function MasterReply(r: Response<Doc>, desired: string): (o: Outcome<Variant>)
    ensures o.Ok? <==>
      && r.Reply? && r.code == StatusOK && r.body.MasterDoc?
      && exists j :: 0 <= j < |r.body.variants| && IsMatch(r.body.variants[j], desired)
    ensures o.Ok? ==> o == Ok(Selected(r.body.variants, desired).value) && o.value.video == desired
    ensures o.Panic? <==> r.NilResponse? || (r.Reply? && r.code == StatusOK && !r.body.MasterDoc?)
    ensures !o.NoReply?
  {
    match r
    case TransportError => Err
    case NilResponse => Panic
    case Reply(code, body) =>
      if code != StatusOK then Err
      else if !body.MasterDoc? then Panic
      else match Selected(body.variants, desired)
        case None => Err
        case Some(v) => Ok(v)
  }
}
