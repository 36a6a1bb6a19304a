/** The split of a sequence of outcomes into a success list and an error
    list. Pool.Collect (gogo.go:238-246) and StreamPool.Collect
    (gogo.go:425-433) run the same loop: a failed outcome contributes its
    error, any other outcome its result, each appended in sequence order. */
module Partitions {
  import opened Optionals
  import opened Permutations

  /** What a Collect call returns: successes and errors. */
  datatype Collected<T> = Collected(results: seq<T>, errors: seq<Error>)

  /** The positions i of s whose outcome has s[i].Failed() == failed, in
      ascending order. */
  function Positions<T>(s: seq<Optional<T>>, failed: bool): (p: seq<nat>)
    ensures forall k :: 0 <= k < |p| ==> p[k] < |s| && s[p[k]].Failed() == failed
    ensures forall i :: 0 <= i < |s| && s[i].Failed() == failed ==> i in p
    ensures forall k, l :: 0 <= k < l < |p| ==> p[k] < p[l]
  {
    if |s| == 0 then []
    else
      var q := Positions(s[..|s| - 1], failed);
      if s[|s| - 1].Failed() == failed then q + [|s| - 1] else q
  }

  /** The loop of Collect: walks the outcomes in order, appending each error
      to `errors` and each other result to `results`. */
  function Partition<T>(s: seq<Optional<T>>): (c: Collected<T>)
    ensures |c.results| + |c.errors| == |s|
  {
    if |s| == 0 then Collected([], [])
    else
      var c := Partition(s[..|s| - 1]);
      var o := s[|s| - 1];
      if o.error.Some? then c.(errors := c.errors + [o.error.value])
      else c.(results := c.results + [o.result])
  }

  /** The results are exactly the successful outcomes' results, in
      ascending position order. */
  lemma {:induction false} ResultsByPositions<T>(s: seq<Optional<T>>)
    ensures |Partition(s).results| == |Positions(s, false)|
    ensures forall k :: 0 <= k < |Partition(s).results| ==>
      Partition(s).results[k] == s[Positions(s, false)[k]].result
  {
    if |s| > 0 {
      var s' := s[..|s| - 1];
      ResultsByPositions(s');
      assert forall i :: 0 <= i < |s'| ==> s'[i] == s[i];
    }
  }

  /** The errors are exactly the failed outcomes' errors, in ascending
      position order. */
  lemma {:induction false} ErrorsByPositions<T>(s: seq<Optional<T>>)
    ensures |Partition(s).errors| == |Positions(s, true)|
    ensures forall k :: 0 <= k < |Partition(s).errors| ==>
      Some(Partition(s).errors[k]) == s[Positions(s, true)[k]].error
  {
    if |s| > 0 {
      var s' := s[..|s| - 1];
      ErrorsByPositions(s');
      assert forall i :: 0 <= i < |s'| ==> s'[i] == s[i];
    }
  }

  /** Some outcome of s is a failure. */
  predicate AnyFailed<T>(s: seq<Optional<T>>) {
    exists i :: 0 <= i < |s| && s[i].Failed()
  }

  /** Collect reports an error exactly when some outcome failed. */
  lemma {:induction false} ErrorsIffAnyFailed<T>(s: seq<Optional<T>>)
    ensures |Partition(s).errors| > 0 <==> AnyFailed(s)
  {
    ErrorsByPositions(s);
    if AnyFailed(s) {
      var i :| 0 <= i < |s| && s[i].Failed();
      assert i in Positions(s, true);
    }
    if |Partition(s).errors| > 0 {
      var i := Positions(s, true)[0];
      assert s[i].Failed();
    }
  }

  /** When no outcome failed, the results are all the outcomes' results in
      order and there are no errors (the contract Map inherits). */
  lemma {:induction false} PartitionAllSucceed<T>(s: seq<Optional<T>>)
    requires forall i :: 0 <= i < |s| ==> !s[i].Failed()
    ensures Partition(s).results == MapSeq((o: Optional<T>) => o.result, s)
    ensures Partition(s).errors == []
  {
    if |s| > 0 {
      PartitionAllSucceed(s[..|s| - 1]);
    }
  }

  /** When every outcome failed, the errors are all the outcomes' errors in
      order and there are no results. */
  lemma {:induction false} PartitionAllFail<T>(s: seq<Optional<T>>)
    requires forall i :: 0 <= i < |s| ==> s[i].Failed()
    ensures Partition(s).results == []
    ensures |Partition(s).errors| == |s|
    ensures forall i :: 0 <= i < |s| ==> Some(Partition(s).errors[i]) == s[i].error
  {
    if |s| > 0 {
      PartitionAllFail(s[..|s| - 1]);
    }
  }

  /** Collecting two stretches one after the other is collecting their
      concatenation. */
  lemma {:induction false} PartitionConcat<T>(a: seq<Optional<T>>, b: seq<Optional<T>>)
    ensures Partition(a + b).results == Partition(a).results + Partition(b).results
    ensures Partition(a + b).errors == Partition(a).errors + Partition(b).errors
    decreases |b|
  {
    if |b| == 0 {
      assert a + b == a;
    } else {
      var b' := b[..|b| - 1];
      assert (a + b)[..|a + b| - 1] == a + b';
      PartitionConcat(a, b');
    }
  }

  /** Taking one outcome out of the middle of a stretch takes its
      contribution out of the collected lists. */
  lemma PartitionMiddle<T>(b1: seq<Optional<T>>, x: Optional<T>, b2: seq<Optional<T>>)
    ensures multiset(Partition(b1 + [x] + b2).results)
         == multiset(Partition([x]).results) + multiset(Partition(b1 + b2).results)
    ensures multiset(Partition(b1 + [x] + b2).errors)
         == multiset(Partition([x]).errors) + multiset(Partition(b1 + b2).errors)
  {
    PartitionConcat(b1, [x]);
    PartitionConcat(b1 + [x], b2);
    PartitionConcat(b1, b2);
  }

  /** Collecting the same outcomes in any other order yields the same
      successes and the same errors, up to order: the promise of
      StreamPool.Collect, whose input arrives in completion order. */
  lemma {:induction false} PartitionPermutation<T>(a: seq<Optional<T>>, b: seq<Optional<T>>)
    requires multiset(a) == multiset(b)
    ensures multiset(Partition(a).results) == multiset(Partition(b).results)
    ensures multiset(Partition(a).errors) == multiset(Partition(b).errors)
    decreases |a|
  {
    if |a| == 0 {
      assert |b| == |multiset(b)| == 0;
    } else {
      var x := a[0];
      assert x in multiset(b);
      var i :| 0 <= i < |b| && b[i] == x;
      var a', b1, b2 := a[1..], b[..i], b[i + 1..];
      assert a == [] + [x] + a';
      RemoveAt(b, i);
      PartitionPermutation(a', b1 + b2);
      PartitionMiddle([], x, a');
      PartitionMiddle(b1, x, b2);
      assert [] + a' == a';
    }
  }
}
