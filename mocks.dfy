/**
 * The mock asynchronous collector: a sink that records the items written to
 * it in a list it may share with the test, merges (or rather, fails to merge)
 * items a caller-supplied predicate calls equal, and fails on demand
 * according to its exception policy.
 */
module Mocks {
  import opened Wrappers
  import opened Policies

  /** The default merge predicate, used when the caller supplies none: nothing ever matches. */
  function DefaultMatchLogic<T>(input: T, compareTo: T): (r: bool)
    ensures !r
  {
    false
  }

  /** Some stored item satisfies `matchLogic(item, stored)`. */
  predicate AnyMatch<T>(matchLogic: (T, T) -> bool, item: T, items: seq<T>)
  {
    exists j :: 0 <= j < |items| && matchLogic(item, items[j])
  }

  /**
   * The stored item a full scan of `items` leaves behind as the last match,
   * or `None` when nothing matched.
   */
  function LastMatch<T>(matchLogic: (T, T) -> bool, item: T, items: seq<T>): (r: Option<T>)
    ensures r.Some? <==> AnyMatch(matchLogic, item, items)
    ensures r.Some? ==> exists k :: 0 <= k < |items| && items[k] == r.value && matchLogic(item, items[k]) &&
                                    forall j :: k < j < |items| ==> !matchLogic(item, items[j])
  {
    if items == [] then None
    else
      var init := items[..|items| - 1];
      assert forall j :: 0 <= j < |init| ==> init[j] == items[j];
      if matchLogic(item, items[|items| - 1]) then Some(items[|items| - 1])
      else LastMatch(matchLogic, item, init)
  }

  /** The outcome of one call and the list it leaves. */
  datatype Step<T, E> = Step(outcome: Outcome<E>, items: seq<T>)

  /** The outcomes of a series of calls and the list they leave. */
  datatype Trace<T, E> = Trace(outcomes: seq<Outcome<E>>, items: seq<T>)

  /** One `AddAsync` on a list holding `items`. */
  ghost function AddStep<T, E>(policy: TestExceptionPolicy<E>, matchLogic: (T, T) -> bool, items: seq<T>, item: T): (r: Step<T, E>)
    ensures r.outcome == Pass <==> policy.writeException.None?
    ensures r.outcome.Fail? ==> r.outcome.error == policy.writeException.value
    ensures r.items == items || r.items == items + [item]
    ensures r.items == items + [item] <==> policy.writeException.None? && !AnyMatch(matchLogic, item, items)
  {
    match policy.writeException
    case Some(e) => Step(Fail(e), items)
    case None => if AnyMatch(matchLogic, item, items) then Step(Pass, items) else Step(Pass, items + [item])
  }

  /** `AddAsync` called once for each of `xs` in turn, starting from `items`. */
  ghost function AddAll<T, E>(policy: TestExceptionPolicy<E>, matchLogic: (T, T) -> bool, items: seq<T>, xs: seq<T>): (r: Trace<T, E>)
    ensures |r.outcomes| == |xs|
    decreases |xs|
  {
    if xs == [] then Trace([], items)
    else
      var step := AddStep(policy, matchLogic, items, xs[0]);
      var rest := AddAll(policy, matchLogic, step.items, xs[1..]);
      Trace([step.outcome] + rest.outcomes, rest.items)
  }

  /**
   * The scan `AddAsync` runs over the stored items: every item is compared,
   * the loop never stops early, so `foundItem` ends as the last match.
   */
  method ScanForMatch<T>(matchLogic: (T, T) -> bool, item: T, items: seq<T>) returns (found: bool, foundItem: Option<T>)
    ensures found <==> exists j :: 0 <= j < |items| && matchLogic(item, items[j])
    ensures found <==> foundItem.Some?
    ensures foundItem == LastMatch(matchLogic, item, items)
  {
    foundItem := None;
    found := false;
    var i := 0;
    while i < |items|
      invariant 0 <= i <= |items|
      invariant found <==> AnyMatch(matchLogic, item, items[..i])
      invariant foundItem == LastMatch(matchLogic, item, items[..i])
    {
      var compareTo := items[i];
      assert items[..i + 1][..i] == items[..i];
      if matchLogic(item, compareTo) {
        foundItem := Some(compareTo);
        found := true;
      }
      i := i + 1;
    }
    assert items[..i] == items;
  }

  /**
   * A successful write never drops or reorders what was stored: the old list is a
   * prefix of the new one and everything after it is one of the written items.
   */
  lemma {:induction false} AddsNeverRemoveOrReorder<T, E>(policy: TestExceptionPolicy<E>, matchLogic: (T, T) -> bool, items: seq<T>, xs: seq<T>)
    ensures var r := AddAll(policy, matchLogic, items, xs).items;
      items <= r && |r| <= |items| + |xs| && forall k :: |items| <= k < |r| ==> r[k] in xs
    decreases |xs|
  {
    if xs != [] {
      var step := AddStep(policy, matchLogic, items, xs[0]);
      AddsNeverRemoveOrReorder(policy, matchLogic, step.items, xs[1..]);
      var r := AddAll(policy, matchLogic, items, xs).items;
      forall k | |items| <= k < |r| ensures r[k] in xs {
        if k >= |step.items| {
          assert r[k] in xs[1..];
        } else {
          assert r[k] == step.items[k] == xs[0];
        }
      }
    }
  }

  /** Every call made while a write error is configured fails with exactly that error and leaves the list alone. */
  lemma {:induction false} WriteFailureOnEveryCall<T, E>(policy: TestExceptionPolicy<E>, matchLogic: (T, T) -> bool, items: seq<T>, xs: seq<T>, e: E)
    requires policy.writeException == Some(e)
    ensures AddAll(policy, matchLogic, items, xs).items == items
    ensures var outs := AddAll(policy, matchLogic, items, xs).outcomes;
      |outs| == |xs| && forall k :: 0 <= k < |outs| ==> outs[k] == Fail(e)
    decreases |xs|
  {
    if xs != [] {
      WriteFailureOnEveryCall(policy, matchLogic, items, xs[1..], e);
    }
  }

  /** With a predicate that never matches, successful writes append every item, in order. */
  lemma {:induction false} NeverMatchingAddsAppendInOrder<T, E>(policy: TestExceptionPolicy<E>, matchLogic: (T, T) -> bool, items: seq<T>, xs: seq<T>)
    requires policy.writeException.None?
    requires forall a, b :: !matchLogic(a, b)
    ensures AddAll(policy, matchLogic, items, xs).items == items + xs
    ensures var outs := AddAll(policy, matchLogic, items, xs).outcomes;
      |outs| == |xs| && forall k :: 0 <= k < |outs| ==> outs[k] == Pass
    decreases |xs|
  {
    if xs != [] {
      NeverMatchingAddsAppendInOrder(policy, matchLogic, items + [xs[0]], xs[1..]);
      assert items + [xs[0]] + xs[1..] == items + xs;
    }
  }

  /** A collector built without a match function keeps the initial list followed by every written item. */
  lemma DefaultMatchAppendsInOrder<T, E>(policy: TestExceptionPolicy<E>, items: seq<T>, xs: seq<T>)
    requires policy.writeException.None?
    ensures AddAll(policy, DefaultMatchLogic, items, xs).items == items + xs
  {
    NeverMatchingAddsAppendInOrder(policy, DefaultMatchLogic, items, xs);
  }

  /**
   * Items written to the collector never match an item that was already in
   * the list when they were written (all comparisons in `matchLogic(new, stored)` order).
   */
  lemma {:induction false} WrittenItemsMatchNothingBefore<T, E>(policy: TestExceptionPolicy<E>, matchLogic: (T, T) -> bool, items: seq<T>, xs: seq<T>)
    ensures var r := AddAll(policy, matchLogic, items, xs).items;
      forall k, j :: |items| <= k < |r| && 0 <= j < k ==> !matchLogic(r[k], r[j])
    decreases |xs|
  {
    if xs != [] {
      var step := AddStep(policy, matchLogic, items, xs[0]);
      WrittenItemsMatchNothingBefore(policy, matchLogic, step.items, xs[1..]);
      AddsNeverRemoveOrReorder(policy, matchLogic, step.items, xs[1..]);
      var r := AddAll(policy, matchLogic, items, xs).items;
      forall k, j | |items| <= k < |r| && 0 <= j < k ensures !matchLogic(r[k], r[j]) {
        if k < |step.items| {
          assert r[k] == step.items[k] == xs[0];
          assert r[j] == items[j];
        }
      }
    }
  }

  /**
   * A write that matches a stored item succeeds and leaves the list as it was:
   * the new item does not take the matched one's place.
   */
  lemma MatchDoesNotReplace<T, E>(policy: TestExceptionPolicy<E>, matchLogic: (T, T) -> bool, items: seq<T>, item: T, k: nat)
    requires policy.writeException.None?
    requires k < |items| && matchLogic(item, items[k])
    ensures AddStep(policy, matchLogic, items, item) == Step(Pass, items)
    ensures item != items[k] ==> AddStep(policy, matchLogic, items, item).items[k] != item
  {
  }

  /** The list object the collector writes to; the test may hold the same reference. */
  class ItemList<T> {
    var items: seq<T>

    constructor (initial: seq<T>)
      ensures items == initial
    {
      items := initial;
    }

    /** Appends `x` at the end. */
    method Add(x: T)
      modifies this
      ensures items == old(items) + [x]
    {
      items := items + [x];
    }

    /** Removes every item. */
    method Clear()
      modifies this
      ensures items == []
    {
      items := [];
    }
  }

  /** The mock collector itself. */
  class TestAsyncCollector<T, E> {
    const policy: TestExceptionPolicy<E>
    /** The backing list, exposed to the test as `WrittenItems`. */
    const writtenItems: ItemList<T>
    const matchLogic: (T, T) -> bool

    /**
     * A missing list becomes a fresh empty one, a given list is shared by
     * reference; a missing predicate becomes `DefaultMatchLogic`; a missing
     * policy injects no failures.
     */
    constructor (initialisingList: ItemList?<T>, matchLogic: Option<(T, T) -> bool>, policy: Option<TestExceptionPolicy<E>>)
      ensures initialisingList != null ==> writtenItems == initialisingList
      ensures initialisingList == null ==> fresh(writtenItems) && writtenItems.items == []
      ensures matchLogic.Some? ==> this.matchLogic == matchLogic.value
      ensures matchLogic.None? ==> forall a, b :: !this.matchLogic(a, b)
      ensures policy.Some? ==> this.policy == policy.value
      ensures policy.None? ==> this.policy.writeException.None? && this.policy.flushException.None?
    {
      if matchLogic.None? {
        this.matchLogic := DefaultMatchLogic;
      } else {
        this.matchLogic := matchLogic.value;
      }
      this.policy := if policy.None? then NoFailures() else policy.value;
      if initialisingList == null {
        this.writtenItems := new ItemList([]);
      } else {
        this.writtenItems := initialisingList;
      }
    }

    /**
     * Writes `item`: fails with the configured write error, or appends the
     * item when no stored item matches it, or (on a match) leaves the list as it was.
     */
    method AddAsync(item: T) returns (r: Outcome<E>)
      modifies writtenItems
      ensures policy.writeException.Some? ==> r == Fail(policy.writeException.value) && writtenItems.items == old(writtenItems.items)
      ensures policy.writeException.None? ==> r == Pass
      ensures policy.writeException.None? && AnyMatch(matchLogic, item, old(writtenItems.items)) ==> writtenItems.items == old(writtenItems.items)
      ensures policy.writeException.None? && !AnyMatch(matchLogic, item, old(writtenItems.items)) ==> writtenItems.items == old(writtenItems.items) + [item]
      ensures Step(r, writtenItems.items) == AddStep(policy, matchLogic, old(writtenItems.items), item)
    {
      if policy.writeException.Some? {
        return Fail(policy.writeException.value);
      }
      var found, foundItem := ScanForMatch(matchLogic, item, writtenItems.items);
      if found {
        // Only the local is updated: the stored item stays where it was.
        foundItem := Some(item);
      } else {
        writtenItems.Add(item);
      }
      return Pass;
    }

    /** Fails with the configured flush error and changes nothing, or empties the list. */
    method FlushAsync() returns (r: Outcome<E>)
      modifies writtenItems
      ensures policy.flushException.Some? ==> r == Fail(policy.flushException.value) && writtenItems.items == old(writtenItems.items)
      ensures policy.flushException.None? ==> r == Pass && writtenItems.items == []
    {
      if policy.flushException.Some? {
        return Fail(policy.flushException.value);
      }
      writtenItems.Clear();
      return Pass;
    }
  }

  /**
   * A test that seeds its own list, hands it to a collector with no match
   * function and no policy, and reads the same list back after a write and a flush.
   */
  method SharedListScenario(seed: int, x: int) returns (afterAdd: seq<int>, afterFlush: seq<int>)
    ensures afterAdd == [seed, x]
    ensures afterFlush == []
  {
    var shared := new ItemList([seed]);
    var collector := new TestAsyncCollector<int, string>(shared, None, None);
    var r := collector.AddAsync(x);
    afterAdd := shared.items;
    r := collector.FlushAsync();
    afterFlush := shared.items;
  }
}
