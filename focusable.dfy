/**
 * The focusable-set resolver of the mobile navigation (app.js:39-49).
 *
 * A container is given as the list of its descendant elements in document
 * order, or None when the container is absent from the page. CSS selector
 * matching and computed style are not evaluated here: every element carries
 * the outcome of both as booleans.
 */
module Focusable {

  import opened Wrappers

  /** Identity of a DOM element (what `===` compares). */
  type ElementId = nat

  /**
   * A descendant element of a container.
   *   matchesSelector  - it matches the focusable selector list (links with an
   *                      href, enabled form controls, a tabindex other than -1)
   *   displayNone      - its computed `display` is `none`
   *   visibilityHidden - its computed `visibility` is `hidden`
   */
  datatype Element = Element(
    id: ElementId,
    matchesSelector: bool,
    displayNone: bool,
    visibilityHidden: bool)

  /** The `querySelectorAll` stage. */
  predicate MatchesSelector(e: Element) {
    e.matchesSelector
  }

  /** The style filter stage. */
  predicate IsRendered(e: Element) {
    !e.displayNone && !e.visibilityHidden
  }

  /** What an element must satisfy to end up in the focusable set. */
  predicate IsFocusable(e: Element) {
    MatchesSelector(e) && IsRendered(e)
  }

  /** Order-preserving filter, as `Array.prototype.filter` and `querySelectorAll` keep document order. */
  function Filter<T>(s: seq<T>, p: T -> bool): (r: seq<T>)
    ensures |r| <= |s|
    ensures forall x :: x in r ==> x in s && p(x)
    decreases |s|
  {
    if s == [] then []
    else
      var init, last := s[..|s| - 1], s[|s| - 1];
      assert forall x :: x in init ==> x in s;
      Filter(init, p) + (if p(last) then [last] else [])
  }

  /** The positions of `s` whose element satisfies `p`, in increasing order. */
  function Positions<T>(s: seq<T>, p: T -> bool): (idx: seq<nat>)
    ensures forall k :: 0 <= k < |idx| ==> idx[k] < |s|
    decreases |s|
  {
    if s == [] then []
    else Positions(s[..|s| - 1], p) + (if p(s[|s| - 1]) then [|s| - 1] else [])
  }

  /**
   * `r` is the subsequence of `s` at the increasing positions `idx`, and
   * `idx` holds exactly the positions whose element satisfies `p`.
   */
  ghost predicate SelectedAt<T>(r: seq<T>, s: seq<T>, idx: seq<nat>, p: T -> bool) {
    && |idx| == |r|
    && (forall k :: 0 <= k < |idx| ==> idx[k] < |s| && r[k] == s[idx[k]])
    && (forall k, l :: 0 <= k < l < |idx| ==> idx[k] < idx[l])
    && (forall i :: 0 <= i < |s| ==> (p(s[i]) <==> i in idx))
  }

  /** Filter(s, p) is exactly the subsequence of `s` at Positions(s, p). */
  lemma {:induction false} FilterSelects<T>(s: seq<T>, p: T -> bool)
    ensures SelectedAt(Filter(s, p), s, Positions(s, p), p)
    decreases |s|
  {
    if s != [] {
      var n := |s| - 1;
      var init := s[..n];
      FilterSelects(init, p);
      var r0, idx0 := Filter(init, p), Positions(init, p);
      var r, idx := Filter(s, p), Positions(s, p);
      assert r == r0 + (if p(s[n]) then [s[n]] else []);
      assert idx == idx0 + (if p(s[n]) then [n] else []);
      assert n !in idx0;
      forall k | 0 <= k < |idx|
        ensures idx[k] < |s| && r[k] == s[idx[k]]
      {
        if k < |idx0| {
          assert s[idx0[k]] == init[idx0[k]];
        }
      }
      forall i | 0 <= i < |s|
        ensures p(s[i]) <==> i in idx
      {
        if i < n {
          assert s[i] == init[i];
        }
      }
    }
  }

  /** Filtering a concatenation filters each part. */
  lemma {:induction false} FilterAppend<T>(a: seq<T>, b: seq<T>, p: T -> bool)
    ensures Filter(a + b, p) == Filter(a, p) + Filter(b, p)
    decreases |b|
  {
    if b == [] {
      assert a + b == a;
    } else {
      var init := b[..|b| - 1];
      assert (a + b)[..|a + b| - 1] == a + init;
      assert (a + b)[|a + b| - 1] == b[|b| - 1];
      FilterAppend(a, init, p);
    }
  }

  /** Selecting the matches and then dropping the hidden ones is one filter by IsFocusable. */
  lemma {:induction false} FilterStagesFuse(s: seq<Element>)
    ensures Filter(Filter(s, MatchesSelector), IsRendered) == Filter(s, IsFocusable)
    decreases |s|
  {
    if s != [] {
      var init, last := s[..|s| - 1], s[|s| - 1];
      var tail := if MatchesSelector(last) then [last] else [];
      FilterAppend(Filter(init, MatchesSelector), tail, IsRendered);
      FilterStagesFuse(init);
      if MatchesSelector(last) {
        assert Filter(tail, IsRendered) == Filter([], IsRendered) + (if IsRendered(last) then [last] else []);
      }
    }
  }

  /**
   * getFocusableElements: no container gives the empty list; otherwise the
   * selector matches of the container, in document order, without those
   * that are not rendered.
   */
  function GetFocusableElements(container: Option<seq<Element>>): (r: seq<Element>)
    ensures container.None? ==> r == []
    ensures container.Some? ==> r == Filter(container.value, IsFocusable)
  {
    match container
    case None => []
    case Some(descendants) =>
      FilterStagesFuse(descendants);
      Filter(Filter(descendants, MatchesSelector), IsRendered)
  }

  /**
   * The result for a present container is an order-preserving subsequence of
   * the descendants, at exactly the positions of the selector matches that
   * are displayed and visible; in particular it holds no element with
   * display:none or visibility:hidden.
   */
  lemma GetFocusableElementsSelects(descendants: seq<Element>)
    ensures SelectedAt(GetFocusableElements(Some(descendants)), descendants,
                       Positions(descendants, IsFocusable), IsFocusable)
    ensures forall e :: e in GetFocusableElements(Some(descendants)) ==>
              e in descendants && e.matchesSelector && !e.displayNone && !e.visibilityHidden
  {
    FilterSelects(descendants, IsFocusable);
  }

}
