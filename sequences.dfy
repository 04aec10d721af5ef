/**
  Swift's `flatMap` over an array with a closure returning an optional (what later Swift
  calls `compactMap`): the non-nil results, in the order of the input.
*/
module Sequences {
  import opened Wrappers

  /** The non-nil results of `f` over `s`, left to right. */
  function FilterMap<A, B>(s: seq<A>, f: A -> Option<B>): (r: seq<B>)
    ensures |r| <= |s|
  {
    if s == [] then []
    else
      var n := |s| - 1;
      FilterMap(s[..n], f) + (match f(s[n]) case Some(x) => [x] case None => [])
  }

  /** The positions of `s` at which `f` succeeds, in increasing order. */
  function Kept<A, B>(s: seq<A>, f: A -> Option<B>): seq<nat>
  {
    if s == [] then []
    else
      var n := |s| - 1;
      Kept(s[..n], f) + (if f(s[n]).Some? then [n] else [])
  }

  /** `FilterMap` keeps exactly the elements whose conversion succeeds, in their original
      order: its j-th result is the conversion of the j-th succeeding position, those
      positions increase, and every succeeding position is among them. */
  lemma FilterMapSelects<A, B>(s: seq<A>, f: A -> Option<B>)
    ensures |Kept(s, f)| == |FilterMap(s, f)|
    ensures forall j :: 0 <= j < |Kept(s, f)| ==>
      Kept(s, f)[j] < |s| && f(s[Kept(s, f)[j]]).Some? && FilterMap(s, f)[j] == f(s[Kept(s, f)[j]]).value
    ensures forall j, k :: 0 <= j < k < |Kept(s, f)| ==> Kept(s, f)[j] < Kept(s, f)[k]
    ensures forall i :: 0 <= i < |s| && f(s[i]).Some? ==> i in Kept(s, f)
  {
    KeptSelects(s, f);
  }

  /** `positions` are, in increasing order, exactly the positions of `s` at which `f`
      succeeds, and `results` are the conversions at those positions. */
  ghost predicate Selects<A, B>(s: seq<A>, f: A -> Option<B>, positions: seq<nat>, results: seq<B>) {
    && |positions| == |results|
    && (forall j :: 0 <= j < |positions| ==>
          positions[j] < |s| && f(s[positions[j]]).Some? && results[j] == f(s[positions[j]]).value)
    && (forall j, k :: 0 <= j < k < |positions| ==> positions[j] < positions[k])
    && (forall i :: 0 <= i < |s| && f(s[i]).Some? ==> i in positions)
  }

  lemma {:induction false} KeptSelects<A, B>(s: seq<A>, f: A -> Option<B>)
    ensures Selects(s, f, Kept(s, f), FilterMap(s, f))
    decreases |s|
  {
    if s != [] {
      var n := |s| - 1;
      KeptSelects(s[..n], f);
      SelectsStep(s, f, Kept(s[..n], f), FilterMap(s[..n], f));
    }
  }

  /** Looking at one more element extends the positions and results by that element when
      its conversion succeeds. */
  lemma SelectsStep<A, B>(s: seq<A>, f: A -> Option<B>, positions: seq<nat>, results: seq<B>)
    requires s != [] && Selects(s[..|s| - 1], f, positions, results)
    ensures Selects(s, f,
      positions + (if f(s[|s| - 1]).Some? then [|s| - 1] else []),
      results + (match f(s[|s| - 1]) case Some(x) => [x] case None => []))
  {
    var n := |s| - 1;
    var init := s[..n];
    var K := positions + (if f(s[n]).Some? then [n] else []);
    var R := results + (match f(s[n]) case Some(x) => [x] case None => []);
    forall j | 0 <= j < |K|
      ensures K[j] < |s| && f(s[K[j]]).Some? && R[j] == f(s[K[j]]).value
    {
      if j < |positions| {
        assert K[j] == positions[j] && R[j] == results[j];
        assert s[positions[j]] == init[positions[j]];
      }
    }
    forall j, k | 0 <= j < k < |K| ensures K[j] < K[k] {
      assert K[j] == positions[j] && positions[j] < n;
      if k < |positions| {
        assert K[k] == positions[k];
      }
    }
    forall i | 0 <= i < |s| && f(s[i]).Some? ensures i in K {
      if i < n {
        assert init[i] == s[i];
        assert i in positions;
      }
    }
  }

  /** When every conversion succeeds, nothing is dropped. */
  lemma {:induction false} FilterMapAllSome<A, B>(s: seq<A>, f: A -> Option<B>)
    requires forall i :: 0 <= i < |s| ==> f(s[i]).Some?
    ensures |FilterMap(s, f)| == |s|
    ensures forall i :: 0 <= i < |s| ==> FilterMap(s, f)[i] == f(s[i]).value
  {
    if s != [] {
      var n := |s| - 1;
      assert forall i :: 0 <= i < n ==> s[..n][i] == s[i];
      FilterMapAllSome(s[..n], f);
    }
  }

  /** When every conversion fails, everything is dropped. */
  lemma {:induction false} FilterMapAllNone<A, B>(s: seq<A>, f: A -> Option<B>)
    requires forall i :: 0 <= i < |s| ==> f(s[i]).None?
    ensures FilterMap(s, f) == []
  {
    if s != [] {
      var n := |s| - 1;
      assert forall i :: 0 <= i < n ==> s[..n][i] == s[i];
      FilterMapAllNone(s[..n], f);
    }
  }

  // ---------------------------------------------------------------------------
  // Swift's `map` and `flatMap` with a throwing closure: elements are visited left to
  // right and the first error thrown ends the traversal and is rethrown.

  /** `map` with a throwing closure: succeeds exactly when every element converts, with one
      result per element in order; otherwise throws the error of the first failing element. */
  function MapAll<A, B, E>(s: seq<A>, f: A -> Result<B, E>): (r: Result<seq<B>, E>)
    ensures r.Ok? <==> forall i :: 0 <= i < |s| ==> f(s[i]).Ok?
    ensures r.Ok? ==> |r.value| == |s| && forall i :: 0 <= i < |s| ==> r.value[i] == f(s[i]).value
    ensures r.Err? ==> exists i :: 0 <= i < |s| && f(s[i]) == Err(r.error) && forall j :: 0 <= j < i ==> f(s[j]).Ok?
  {
    if s == [] then Ok([])
    else
      var n := |s| - 1;
      assert forall i :: 0 <= i < n ==> s[..n][i] == s[i];
      match MapAll(s[..n], f)
      case Err(e) => Err(e)
      case Ok(init) =>
        match f(s[n])
        case Err(e) => Err(e)
        case Ok(x) => Ok(init + [x])
  }

  /** The non-nil results of a closure that cannot throw. */
  function Successes<A, B, E>(f: A -> Result<Option<B>, E>): A -> Option<B> {
    x => match f(x) case Ok(o) => o case Err(_) => None
  }

  /** `flatMap` with a throwing closure returning an optional: succeeds exactly when no
      element throws, keeping the non-nil results in order; otherwise throws the error of
      the first element that throws. */
  function FlatMapAll<A, B, E>(s: seq<A>, f: A -> Result<Option<B>, E>): (r: Result<seq<B>, E>)
    ensures r.Ok? <==> forall i :: 0 <= i < |s| ==> f(s[i]).Ok?
    ensures r.Ok? ==> r.value == FilterMap(s, Successes(f))
    ensures r.Err? ==> exists i :: 0 <= i < |s| && f(s[i]) == Err(r.error) && forall j :: 0 <= j < i ==> f(s[j]).Ok?
  {
    if s == [] then Ok([])
    else
      var n := |s| - 1;
      assert forall i :: 0 <= i < n ==> s[..n][i] == s[i];
      match FlatMapAll(s[..n], f)
      case Err(e) => Err(e)
      case Ok(init) =>
        match f(s[n])
        case Err(e) => Err(e)
        case Ok(o) => Ok(init + (match o case Some(x) => [x] case None => []))
  }
}
