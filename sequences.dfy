/** Facts about sequences shared by the command loops that visit one directory after another. */
module Sequences {
  import opened Outcomes

  /** Whether `p` holds of some element of `xs`, decided from the last element back. */
  predicate AnyOf<T>(p: T -> bool, xs: seq<T>) {
    |xs| > 0 && (AnyOf(p, xs[..|xs| - 1]) || p(xs[|xs| - 1]))
  }

  /** `AnyOf` is the existential it is named after. */
  lemma {:induction false} AnyOfIff<T>(p: T -> bool, xs: seq<T>)
    ensures AnyOf(p, xs) <==> exists k :: 0 <= k < |xs| && p(xs[k])
  {
    if |xs| > 0 {
      var init := xs[..|xs| - 1];
      AnyOfIff(p, init);
      assert forall k :: 0 <= k < |init| ==> init[k] == xs[k];
    }
  }

  /** One more element: `AnyOf` of a longer prefix. */
  lemma AnyOfStep<T>(p: T -> bool, xs: seq<T>, i: nat)
    requires i < |xs|
    ensures AnyOf(p, xs[..i + 1]) <==> AnyOf(p, xs[..i]) || p(xs[i])
  {
    assert xs[..i + 1][..i] == xs[..i];
  }

  /** The values `f` gives for the elements of `xs`, in order, leaving out the missing ones. */
  function Somes<T, E>(f: T -> Option<E>, xs: seq<T>): seq<E> {
    if |xs| == 0 then []
    else Somes(f, xs[..|xs| - 1]) + (if f(xs[|xs| - 1]).Some? then [f(xs[|xs| - 1]).value] else [])
  }

  /** Nothing is collected exactly when `f` gives no value for any element. */
  lemma {:induction false} SomesEmpty<T, E>(f: T -> Option<E>, xs: seq<T>)
    ensures |Somes(f, xs)| == 0 <==> forall k :: 0 <= k < |xs| ==> f(xs[k]).None?
  {
    if |xs| > 0 {
      var init := xs[..|xs| - 1];
      SomesEmpty(f, init);
      assert forall k :: 0 <= k < |init| ==> init[k] == xs[k];
    }
  }

  /** Concatenation is associative; stated on its own so that heavy contexts need not find it. */
  lemma AppendAssoc<T>(a: seq<T>, b: seq<T>, c: seq<T>)
    ensures a + b + c == a + (b + c)
  {
  }
}
