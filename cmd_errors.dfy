/**
 * Error flattening of the command-line tools.
 *
 * `JoinErrors` is `errors.Join` after replacing each argument by what `UnwrapJoinedErrors`
 * gives: a joined error by its members, a single-wrap error by the error it wraps, anything
 * else (nil included) by itself. Joining repeatedly therefore keeps one flat list of errors.
 */
module CmdErrors {
  import opened Outcomes
  import opened GoErrors

  /** Each error as a non-nil error value. */
  function Somes(errs: seq<Error>): (r: seq<Option<Error>>)
    ensures |r| == |errs|
    ensures forall i :: 0 <= i < |r| ==> r[i] == Some(errs[i])
  {
    if |errs| == 0 then [] else [Some(errs[0])] + Somes(errs[1..])
  }

  lemma {:induction false} NonNilSomes(errs: seq<Error>)
    ensures NonNil(Somes(errs)) == errs
  {
    if |errs| > 0 {
      NonNilSomes(errs[1..]);
    }
  }

  /** `UnwrapJoinedErrors`. */
  function UnwrapJoinedErrors(e: Option<Error>): (r: seq<Option<Error>>)
    ensures e.Some? && e.value.Joined? ==> NonNil(r) == e.value.errs
    ensures e.Some? && e.value.Wrap? ==> NonNil(r) == [e.value.inner]
    ensures e.Some? && e.value.Leaf? ==> NonNil(r) == [e.value]
    ensures e.None? ==> NonNil(r) == []
  {
    match e
    case None => [None]
    case Some(Joined(_, errs)) => NonNilSomes(errs); Somes(errs)
    case Some(Wrap(_, inner)) => [Some(inner)]
    case Some(Leaf(_)) => [e]
  }

  /** The arguments of `JoinErrors`, each replaced by its unwrapped list, in order. */
  function Flatten(errs: seq<Option<Error>>): seq<Option<Error>> {
    if |errs| == 0 then [] else Flatten(errs[..|errs| - 1]) + UnwrapJoinedErrors(errs[|errs| - 1])
  }

  /** `JoinErrors`. */
  method JoinErrors(errs: seq<Option<Error>>) returns (r: Option<Error>)
    ensures r == Join(Flatten(errs))
  {
    var flattened: seq<Option<Error>> := [];
    for i := 0 to |errs|
      invariant flattened == Flatten(errs[..i])
    {
      flattened := flattened + UnwrapJoinedErrors(errs[i]);
      assert errs[..i + 1][..i] == errs[..i];
    }
    assert errs[..|errs|] == errs;
    r := Join(flattened);
  }

  // ---------------------------------------------------------------- properties

  lemma {:induction false} NonNilAppend(a: seq<Option<Error>>, b: seq<Option<Error>>)
    ensures NonNil(a + b) == NonNil(a) + NonNil(b)
  {
    if |a| > 0 {
      assert (a + b)[0] == a[0] && (a + b)[1..] == a[1..] + b;
      NonNilAppend(a[1..], b);
    } else {
      assert a + b == b;
    }
  }

  /** The errors that `JoinErrors` keeps: the unwrapped non-nil ones, in argument order. */
  function Members(errs: seq<Option<Error>>): seq<Error> {
    if |errs| == 0 then [] else Members(errs[..|errs| - 1]) + MembersOf(errs[|errs| - 1])
  }

  /** What one argument contributes: nothing for nil, the members of a join, the wrapped error of a wrap. */
  function MembersOf(e: Option<Error>): seq<Error> {
    match e
    case None => []
    case Some(Joined(_, es)) => es
    case Some(Wrap(_, inner)) => [inner]
    case Some(Leaf(m)) => [Leaf(m)]
  }

  /** `JoinErrors` joins exactly `Members(errs)`. */
  lemma {:induction false} FlattenMembers(errs: seq<Option<Error>>)
    ensures NonNil(Flatten(errs)) == Members(errs)
  {
    if |errs| > 0 {
      var init, last := errs[..|errs| - 1], errs[|errs| - 1];
      FlattenMembers(init);
      NonNilAppend(Flatten(init), UnwrapJoinedErrors(last));
      assert NonNil(UnwrapJoinedErrors(last)) == MembersOf(last);
    }
  }

  /**
   * `JoinErrors` returns nil exactly when every argument is nil or an empty join; in
   * particular with no arguments or only nil ones.
   */
  lemma {:induction false} JoinErrorsNil(errs: seq<Option<Error>>)
    ensures Join(Flatten(errs)).None? <==>
      forall i :: 0 <= i < |errs| ==> errs[i].None? || (errs[i].value.Joined? && |errs[i].value.errs| == 0)
  {
    FlattenMembers(errs);
    MembersEmpty(errs);
  }

  lemma {:induction false} MembersEmpty(errs: seq<Option<Error>>)
    ensures |Members(errs)| == 0 <==>
      forall i :: 0 <= i < |errs| ==> errs[i].None? || (errs[i].value.Joined? && |errs[i].value.errs| == 0)
  {
    if |errs| > 0 {
      var init := errs[..|errs| - 1];
      MembersEmpty(init);
      assert forall i :: 0 <= i < |init| ==> init[i] == errs[i];
    }
  }

  /** On plain errors (no joins, no wraps) `JoinErrors` is `errors.Join`: nils dropped, order kept. */
  lemma {:induction false} JoinErrorsPlain(errs: seq<Option<Error>>)
    requires forall i :: 0 <= i < |errs| ==> errs[i].None? || errs[i].value.Leaf?
    ensures Join(Flatten(errs)) == Join(errs)
  {
    FlattenMembers(errs);
    PlainMembers(errs);
  }

  lemma {:induction false} PlainMembers(errs: seq<Option<Error>>)
    requires forall i :: 0 <= i < |errs| ==> errs[i].None? || errs[i].value.Leaf?
    ensures Members(errs) == NonNil(errs)
  {
    if |errs| > 0 {
      var init, last := errs[..|errs| - 1], errs[|errs| - 1];
      PlainMembers(init);
      assert errs == init + [last];
      NonNilAppend(init, [last]);
    }
  }

  // ---------------------------------------------------------------- counting leaf errors

  /** The number of errors in `e` counting through joins, not through single wraps. */
  function Count(e: Error): nat
    decreases e, 1
  {
    if e.Joined? then CountAll(e.errs) else 1
  }

  function CountAll(es: seq<Error>): nat
    decreases es, 0
  {
    if |es| == 0 then 0 else Count(es[0]) + CountAll(es[1..])
  }

  lemma {:induction false} CountAllAppend(a: seq<Error>, b: seq<Error>)
    ensures CountAll(a + b) == CountAll(a) + CountAll(b)
  {
    if |a| > 0 {
      assert (a + b)[0] == a[0] && (a + b)[1..] == a[1..] + b;
      CountAllAppend(a[1..], b);
    } else {
      assert a + b == b;
    }
  }

  /** A single wrap around a joined error would count once before and several times after. */
  predicate NoWrappedJoin(errs: seq<Option<Error>>) {
    forall i :: 0 <= i < |errs| && errs[i].Some? && errs[i].value.Wrap? ==> !errs[i].value.inner.Joined?
  }

  /** Flattening keeps the number of leaf errors. */
  lemma {:induction false} MembersCount(errs: seq<Option<Error>>)
    requires NoWrappedJoin(errs)
    ensures CountAll(Members(errs)) == CountAll(NonNil(errs))
  {
    if |errs| > 0 {
      var init, last := errs[..|errs| - 1], errs[|errs| - 1];
      assert NoWrappedJoin(init) by {
        forall i | 0 <= i < |init| ensures init[i] == errs[i] {}
      }
      MembersCount(init);
      assert errs == init + [last];
      NonNilAppend(init, [last]);
      var tail := MembersOf(last);
      CountAllAppend(Members(init), tail);
      CountAllAppend(NonNil(init), NonNil([last]));
      assert CountAll(tail) == CountAll(NonNil([last])) by {
        if last.Some? && last.value.Joined? {
          assert CountAll(NonNil([last])) == Count(last.value) + CountAll([]);
        }
      }
    }
  }

  /**
   * The joined error holds as many leaf errors as the arguments did, and unwrapping it again
   * gives them back as one flat list of that size.
   */
  lemma JoinErrorsCount(errs: seq<Option<Error>>)
    requires NoWrappedJoin(errs)
    ensures var r := Join(Flatten(errs));
      (r.None? ==> CountAll(NonNil(errs)) == 0) &&
      (r.Some? ==> Count(r.value) == CountAll(NonNil(errs)) &&
                   CountAll(NonNil(UnwrapJoinedErrors(r))) == CountAll(NonNil(errs)))
  {
    FlattenMembers(errs);
    MembersCount(errs);
  }
  /**
   * Joining an accumulated error with one more: the result is the join of the accumulated
   * list extended by the new error's unwrapped list.
   */
  lemma JoinStep(acc: seq<Option<Error>>, e: Option<Error>)
    ensures Join(Flatten([Join(acc), e])) == Join(acc + UnwrapJoinedErrors(e))
  {
    var x := Join(acc);
    assert [x, e][..1] == [x];
    assert [x][..0] == [];
    assert Flatten([x]) == Flatten([]) + UnwrapJoinedErrors(x);
    assert Flatten([x]) == UnwrapJoinedErrors(x);
    assert Flatten([x, e]) == Flatten([x]) + UnwrapJoinedErrors(e);
    NonNilAppend(UnwrapJoinedErrors(x), UnwrapJoinedErrors(e));
    NonNilAppend(acc, UnwrapJoinedErrors(e));
    assert NonNil(UnwrapJoinedErrors(x)) == NonNil(acc);
  }

  /** `JoinErrors(nil, e)` is the join of `e`'s unwrapped list. */
  lemma JoinErrorsNilFirst(e: Option<Error>)
    ensures Join(Flatten([None, e])) == Join(UnwrapJoinedErrors(e))
  {
    JoinStep([], e);
    assert [] + UnwrapJoinedErrors(e) == UnwrapJoinedErrors(e);
  }

  /** `JoinErrors(nil, e)` gives back `e` itself when `e` came from `errors.Join`. */
  lemma RejoinJoined(acc: seq<Option<Error>>)
    ensures Join(Flatten([None, Join(acc)])) == Join(acc)
  {
    JoinErrorsNilFirst(Join(acc));
  }
}
