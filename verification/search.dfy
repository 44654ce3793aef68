/**
 First-match search over a sequence in document order: the shape shared by
 BeautifulSoup's `find`, and by a `for ... : if ...: ...; break` scan.
 */
module Search {
  import opened Values

  /** `i` is the earliest position of `xs` whose element satisfies `p`. */
  ghost predicate IsFirst<T>(xs: seq<T>, p: T -> bool, i: int) {
    0 <= i < |xs| && p(xs[i]) && forall j :: 0 <= j < i ==> !p(xs[j])
  }

  /** No element of `xs` satisfies `p`. */
  ghost predicate NoneSatisfy<T>(xs: seq<T>, p: T -> bool) {
    forall i :: 0 <= i < |xs| ==> !p(xs[i])
  }

  /** The element at the earliest position satisfying `p`, or `None`. */
  function Find<T>(xs: seq<T>, p: T -> bool): (r: Option<T>)
    ensures r.None? <==> NoneSatisfy(xs, p)
    ensures forall i :: IsFirst(xs, p, i) ==> r == Some(xs[i])
  {
    if |xs| == 0 then None
    else if p(xs[0]) then Some(xs[0])
    else
      var r := Find(xs[1..], p);
      assert NoneSatisfy(xs[1..], p) ==> NoneSatisfy(xs, p) by {
        if NoneSatisfy(xs[1..], p) {
          forall i | 0 < i < |xs| ensures !p(xs[i]) { assert xs[i] == xs[1..][i - 1]; }
        }
      }
      assert forall i :: IsFirst(xs, p, i) ==> IsFirst(xs[1..], p, i - 1) by {
        forall i | IsFirst(xs, p, i) ensures IsFirst(xs[1..], p, i - 1) {
          assert i > 0;
          forall j | 0 <= j < i - 1 ensures !p(xs[1..][j]) { assert xs[1..][j] == xs[j + 1]; }
        }
      }
      r
  }

  /** When some element satisfies `p`, an earliest one exists. */
  lemma FirstExists<T>(xs: seq<T>, p: T -> bool) returns (i: nat)
    requires !NoneSatisfy(xs, p)
    ensures IsFirst(xs, p, i)
  {
    i := 0;
    while !p(xs[i])
      invariant 0 <= i < |xs|
      invariant forall j :: 0 <= j < i ==> !p(xs[j])
      invariant exists k :: i <= k < |xs| && p(xs[k])
      decreases |xs| - i
    {
      i := i + 1;
    }
  }
}
