/**
 * The event source: a list of listeners that `subscribe` appends to, `unsubscribe` removes the
 * first equal listener from, and `emit` calls in order. A listener stands for a Java `Consumer`,
 * compared with `==`; what a listener does when called is outside the model, so `Emit` returns
 * the calls it makes, in order.
 */
module Events {
  /** One call `listener.accept(event)`. */
  datatype Call<L, T> = Call(listener: L, event: T)

  /** The list without its first element equal to `x`; unchanged when there is none. */
  function RemoveFirst<L(==)>(s: seq<L>, x: L): (r: seq<L>)
    ensures x !in s ==> r == s
    ensures x in s ==> |r| == |s| - 1
  {
    if s == [] then []
    else if s[0] == x then s[1..]
    else [s[0]] + RemoveFirst(s[1..], x)
  }

  /** The index of the first element equal to `x`. */
  function FirstIndex<L(==)>(s: seq<L>, x: L): (i: nat)
    requires x in s
    ensures i < |s| && s[i] == x && x !in s[..i]
  {
    if s[0] == x then 0 else 1 + FirstIndex(s[1..], x)
  }

  /** Removing cuts out exactly the first occurrence: everything before and after it is kept. */
  lemma {:induction false} RemoveFirstCuts<L>(s: seq<L>, x: L)
    requires x in s
    ensures var i := FirstIndex(s, x); RemoveFirst(s, x) == s[..i] + s[i + 1..]
  {
    if s[0] != x {
      RemoveFirstCuts(s[1..], x);
      var i := FirstIndex(s[1..], x);
      assert s[1..][..i] == s[1..i + 1];
      assert s[1..][i + 1..] == s[i + 2..];
      assert [s[0]] + s[1..i + 1] == s[..i + 1];
    }
  }

  /** Exactly one occurrence of `x` goes, when there is one; every other element stays. */
  lemma {:induction false} RemoveFirstMultiset<L>(s: seq<L>, x: L)
    ensures multiset(RemoveFirst(s, x)) == multiset(s) - multiset{x}
  {
    if s != [] {
      RemoveFirstMultiset(s[1..], x);
      assert s == [s[0]] + s[1..];
      if s[0] != x {
        assert multiset(s) == multiset{s[0]} + multiset(s[1..]);
      }
    }
  }

  /**
   * Removing from a concatenation: the first occurrence is in the front part when the front
   * has one, and in the back part otherwise.
   */
  lemma {:induction false} RemoveFirstAppend<L>(s: seq<L>, t: seq<L>, x: L)
    ensures RemoveFirst(s + t, x) == if x in s then RemoveFirst(s, x) + t else s + RemoveFirst(t, x)
  {
    if s != [] {
      assert (s + t)[1..] == s[1..] + t;
      RemoveFirstAppend(s[1..], t, x);
      assert x in s <==> s[0] == x || x in s[1..];
    } else {
      assert s + t == t;
    }
  }

  /** Unsubscribing a listener that was just subscribed, and not before, restores the list. */
  lemma SubscribeThenUnsubscribe<L>(s: seq<L>, x: L)
    requires x !in s
    ensures RemoveFirst(s + [x], x) == s
  {
    RemoveFirstAppend(s, [x], x);
  }

  /** A listener subscribed twice stays subscribed once after one unsubscription. */
  lemma UnsubscribeKeepsDuplicate<L>(s: seq<L>, x: L)
    ensures x in RemoveFirst(s + [x] + [x], x)
  {
    RemoveFirstAppend(s + [x], [x], x);
  }

  /** The calls `emit` makes to `listeners`: one per element, in order, each with `event`. */
  ghost predicate Delivers<L, T>(listeners: seq<L>, event: T, calls: seq<Call<L, T>>) {
    |calls| == |listeners| && forall i :: 0 <= i < |calls| ==> calls[i] == Call(listeners[i], event)
  }

  /** A subscriber list and the event type it delivers. */
  class EventSource<L(==), T> {
    var listeners: seq<L>

    constructor ()
      ensures listeners == []
    {
      listeners := [];
    }

    /** `subscribe`: append at the end; a listener already there is added again. */
    method Subscribe(listener: L)
      modifies this
      ensures listeners == old(listeners) + [listener]
    {
      listeners := listeners + [listener];
    }

    /** `unsubscribe`: `List.remove` drops the first equal listener, if any. */
    method Unsubscribe(listener: L)
      modifies this
      ensures listeners == RemoveFirst(old(listeners), listener)
      ensures multiset(listeners) == multiset(old(listeners)) - multiset{listener}
    {
      RemoveFirstMultiset(listeners, listener);
      listeners := RemoveFirst(listeners, listener);
    }

    /**
     * `emit`: call every listener with `event`, in subscription order, once per time it was
     * subscribed. The list itself does not change.
     */
    method Emit(event: T) returns (calls: seq<Call<L, T>>)
      ensures Delivers(listeners, event, calls)
    {
      calls := [];
      for i := 0 to |listeners|
        invariant Delivers(listeners[..i], event, calls)
      {
        calls := calls + [Call(listeners[i], event)];
      }
      assert listeners[..|listeners|] == listeners;
    }
  }
}
