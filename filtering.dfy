/** Keep-and-transform over a sequence: the shape shared by the analyser's
    loops that append to a result list only for the elements that pass a
    test (and by the comprehension that drops blank lines). */
module Filtering {
  import opened Wrappers

  /** What one element contributes: its image if `f` keeps it, else nothing. */
  function Emit<B>(o: Option<B>): seq<B> {
    match o
    case Some(b) => [b]
    case None => []
  }

  /** The images under `f` of the elements `f` keeps, in input order. Defined
      from the last element so that a left-to-right loop that appends extends
      it one element at a time. */
  function FilterMap<A, B>(s: seq<A>, f: A -> Option<B>): (r: seq<B>)
    ensures |r| <= |s|
  {
    if s == [] then [] else FilterMap(s[..|s| - 1], f) + Emit(f(s[|s| - 1]))
  }

  /** One more element examined extends the result by that element's
      contribution. */
  lemma FilterMapSnoc<A, B>(s: seq<A>, i: nat, f: A -> Option<B>)
    requires i < |s|
    ensures FilterMap(s[..i + 1], f) == FilterMap(s[..i], f) + Emit(f(s[i]))
  {
    assert s[..i + 1][..i] == s[..i];
  }

  /** The same after whatever `pre` a loop accumulated before. */
  lemma FilterMapStep<A, B>(pre: seq<B>, s: seq<A>, i: nat, f: A -> Option<B>)
    requires i < |s|
    ensures pre + FilterMap(s[..i + 1], f) == pre + FilterMap(s[..i], f) + Emit(f(s[i]))
  {
    FilterMapSnoc(s, i, f);
  }

  /** `idx` lists, in increasing order, the positions of `s` that `f` keeps,
      and `r` holds their images in that order. */
  ghost predicate IsOrigins<A, B>(s: seq<A>, f: A -> Option<B>, r: seq<B>, idx: seq<nat>) {
    && |idx| == |r|
    && (forall k :: 0 <= k < |idx| ==> idx[k] < |s| && f(s[idx[k]]) == Some(r[k]))
    && (forall k, l :: 0 <= k < l < |idx| ==> idx[k] < idx[l])
    && (forall i :: 0 <= i < |s| ==> (f(s[i]).Some? <==> i in idx))
  }

  /** One more element keeps the correspondence, with its position added
      when `f` keeps it. */
  lemma OriginsSnoc<A, B>(s: seq<A>, x: A, f: A -> Option<B>, r: seq<B>, idx: seq<nat>)
    requires IsOrigins(s, f, r, idx)
    ensures IsOrigins(s + [x], f, r + Emit(f(x)), idx + if f(x).Some? then [|s|] else [])
  {
    var t := s + [x];
    assert forall k :: 0 <= k < |s| ==> t[k] == s[k];
    match f(x)
    case None =>
      assert r + Emit(f(x)) == r;
      assert idx + [] == idx;
    case Some(b) =>
      var r', idx' := r + [b], idx + [|s|];
      assert forall k :: 0 <= k < |idx| ==> idx'[k] == idx[k] && r'[k] == r[k];
      assert forall i :: 0 <= i < |s| ==> (i in idx' <==> i in idx);
  }

  /** The result of `FilterMap` corresponds, position by position, to a
      strictly increasing list of input positions; those positions are exactly
      the elements `f` keeps, and each result is the image of its element. */
  lemma {:induction false} FilterMapOrigins<A, B>(s: seq<A>, f: A -> Option<B>) returns (idx: seq<nat>)
    ensures IsOrigins(s, f, FilterMap(s, f), idx)
  {
    if s == [] {
      idx := [];
    } else {
      var init, last := s[..|s| - 1], s[|s| - 1];
      var prev := FilterMapOrigins(init, f);
      OriginsSnoc(init, last, f, FilterMap(init, f), prev);
      assert init + [last] == s;
      idx := prev + if f(last).Some? then [|init|] else [];
    }
  }
}
