/** What happens to one category's listener list when it is fired
    (`triggerCallbackArray`) or when a callback is unregistered (`off`). */
module Listeners {
  import opened Events

  /** The invocations made when `list` is fired for `e`: the list walked
      from its last entry to its first, each entry called exactly once. */
  function Invoked(e: EventType, list: seq<Listener>): (r: seq<Invocation>)
    ensures |r| == |list|
    ensures forall k :: 0 <= k < |r| ==> r[k] == Invocation(e, list[|list| - 1 - k].callback)
  {
    if list == [] then [] else Invoked(e, list[1..]) + [Invocation(e, list[0].callback)]
  }

  /** The list left behind after firing: the entries registered with
      `isOne` are gone, every other entry stays. */
  function Keep(list: seq<Listener>): (r: seq<Listener>)
    ensures |r| <= |list|
  {
    if list == [] then [] else (if list[0].isOne then [] else [list[0]]) + Keep(list[1..])
  }

  /** Exactly the entries not registered with `isOne` survive. */
  lemma {:induction false} KeepMembers(list: seq<Listener>)
    ensures forall x :: x in Keep(list) <==> x in list && !x.isOne
  {
    if list != [] {
      KeepMembers(list[1..]);
      assert list == [list[0]] + list[1..];
    }
  }

  /** Keeping is done entry by entry, so the kept entries stay in their
      original relative order: keeping a concatenation keeps each part. */
  lemma {:induction false} KeepAppend(a: seq<Listener>, b: seq<Listener>)
    ensures Keep(a + b) == Keep(a) + Keep(b)
  {
    if a == [] {
      assert a + b == b;
    } else {
      assert (a + b)[1..] == a[1..] + b;
      KeepAppend(a[1..], b);
    }
  }

  /** A list without one-shot entries survives firing unchanged. */
  lemma {:induction false} KeepWithoutOnes(list: seq<Listener>)
    requires forall x :: x in list ==> !x.isOne
    ensures Keep(list) == list
  {
    if list != [] {
      KeepWithoutOnes(list[1..]);
    }
  }

  /** Firing category `e`: the invocations made and the lists afterwards. */
  function Fire(e: EventType, lists: Lists): (r: (seq<Invocation>, Lists))
    ensures |r.0| == |lists.Get(e)|
    ensures forall x :: x in r.1.Get(e) <==> x in lists.Get(e) && !x.isOne
    ensures forall d: EventType :: d != e ==> r.1.Get(d) == lists.Get(d)
  {
    KeepMembers(lists.Get(e));
    (Invoked(e, lists.Get(e)), lists.Set(e, Keep(lists.Get(e))))
  }

  /** The list `off` leaves: the first entry whose callback is `cb` removed,
      or the list unchanged when there is none. */
  function RemoveFirst(list: seq<Listener>, cb: CallbackId): (r: seq<Listener>)
    ensures |r| == |list| || |r| == |list| - 1
    ensures |r| == |list| <==> forall x :: x in list ==> x.callback != cb
    ensures forall x :: x in r ==> x in list
  {
    if list == [] then []
    else if list[0].callback == cb then list[1..]
    else [list[0]] + RemoveFirst(list[1..], cb)
  }

  /** When entry `k` is the first with callback `cb`, exactly that entry goes. */
  lemma {:induction false} RemoveFirstAt(list: seq<Listener>, cb: CallbackId, k: nat)
    requires k < |list| && list[k].callback == cb
    requires forall j :: 0 <= j < k ==> list[j].callback != cb
    ensures RemoveFirst(list, cb) == list[..k] + list[k + 1..]
  {
    if k > 0 {
      RemoveFirstAt(list[1..], cb, k - 1);
      assert list[..k] == [list[0]] + list[1..][..k - 1];
      assert list[k + 1..] == list[1..][k..];
    }
  }

  /** When no entry has callback `cb`, the list is left as it is. */
  lemma {:induction false} RemoveFirstAbsent(list: seq<Listener>, cb: CallbackId)
    requires forall j :: 0 <= j < |list| ==> list[j].callback != cb
    ensures RemoveFirst(list, cb) == list
  {
    if list != [] {
      RemoveFirstAbsent(list[1..], cb);
    }
  }
}
