/**
 * The subscriber list behind the task queue and the file stash: notifiers are
 * kept in subscription order without duplicates, and a notification is handed
 * to each of them once, in that order, with the same keyword arguments.
 * Notifiers are callables in the source; here they are identities, and a call
 * is recorded as a delivery.
 */
module Observable {
  import opened Common
  import opened Json
  import opened Lists

  type Notifier = nat

  /** The keyword arguments of one `notify` call. */
  type Kwargs = map<string, Json>

  datatype Delivery = Delivery(notifier: Notifier, kwargs: Kwargs)

  /** What one `notify(**kwargs)` hands out: each notifier, in order, with the
      same arguments. */
  function Deliveries(ns: seq<Notifier>, kwargs: Kwargs): (d: seq<Delivery>)
    ensures |d| == |ns|
    ensures forall i :: 0 <= i < |d| ==> d[i] == Delivery(ns[i], kwargs)
  {
    if ns == [] then [] else Deliveries(ns[..|ns| - 1], kwargs) + [Delivery(ns[|ns| - 1], kwargs)]
  }

  /** How many of the deliveries went to notifier `n`. */
  function DeliveredTo(d: seq<Delivery>, n: Notifier): nat {
    if d == [] then 0
    else DeliveredTo(d[..|d| - 1], n) + (if d[|d| - 1].notifier == n then 1 else 0)
  }

  /** With a duplicate-free list, a notification reaches every subscriber exactly
      once and nobody else at all. */
  lemma {:induction false} DeliveredOnce(ns: seq<Notifier>, kwargs: Kwargs, n: Notifier)
    requires NoDuplicates(ns)
    ensures DeliveredTo(Deliveries(ns, kwargs), n) == if n in ns then 1 else 0
  {
    if ns != [] {
      var k := |ns| - 1;
      var init := ns[..k];
      assert Deliveries(ns, kwargs)[..k] == Deliveries(init, kwargs);
      assert NoDuplicates(init);
      DeliveredOnce(init, kwargs, n);
      assert ns == init + [ns[k]];
      assert ns[k] !in init by {
        forall i | 0 <= i < k ensures init[i] != ns[k] {
          assert init[i] == ns[i];
        }
      }
    }
  }

  /** After `unsubscribe(x)`, a notification no longer reaches `x` and still reaches
      every other subscriber once, whatever position `x` held. */
  lemma AfterUnsubscribe(ns: seq<Notifier>, x: Notifier, kwargs: Kwargs, m: Notifier)
    requires NoDuplicates(ns)
    ensures DeliveredTo(Deliveries(RemoveFirst(ns, x), kwargs), x) == 0
    ensures m != x && m in ns ==> DeliveredTo(Deliveries(RemoveFirst(ns, x), kwargs), m) == 1
  {
    RemoveFirstExact(ns, x);
    DeliveredOnce(RemoveFirst(ns, x), kwargs, x);
    DeliveredOnce(RemoveFirst(ns, x), kwargs, m);
  }

  /** The events the task queue and the file stash announce to their observers. */
  predicate ChangeEvent(eventType: string) {
    eventType == "add" || eventType == "change" || eventType == "remove"
  }

  class Observable {
    var notifiers: seq<Notifier>

    ghost predicate Valid()
      reads this
    {
      NoDuplicates(notifiers)
    }

    constructor()
      ensures Valid()
      ensures notifiers == []
    {
      notifiers := [];
    }

    /** `subscribe`: a notifier already present is refused and the list is left alone;
        otherwise it is appended. */
    method Subscribe(n: Notifier) returns (r: Outcome<string>)
      requires Valid()
      modifies this
      ensures Valid()
      ensures r.Fail? <==> n in old(notifiers)
      ensures r.Fail? ==> notifiers == old(notifiers)
      ensures r.Pass? ==> notifiers == old(notifiers) + [n]
    {
      if n in notifiers {
        return Fail("Attempting to subscribe the same notifier multiple times");
      }
      notifiers := notifiers + [n];
      r := Pass;
    }

    /** `unsubscribe`: the notifier is removed, wherever it sits in the list; one that
        is not subscribed is refused. */
    method Unsubscribe(n: Notifier) returns (r: Outcome<string>)
      requires Valid()
      modifies this
      ensures Valid()
      ensures r.Fail? <==> n !in old(notifiers)
      ensures notifiers == RemoveFirst(old(notifiers), n)
      ensures n !in notifiers
    {
      RemoveFirstExact(notifiers, n);
      if n !in notifiers {
        return Fail("Attempting to unsubscribe a notifier that is not currently subscribed");
      }
      notifiers := RemoveFirst(notifiers, n);
      r := Pass;
    }

    /** `notify(**kwargs)`: the loop over the notifiers, recording each call. */
    method Notify(kwargs: Kwargs) returns (delivered: seq<Delivery>)
      ensures delivered == Deliveries(notifiers, kwargs)
    {
      delivered := [];
      var i := 0;
      while i < |notifiers|
        invariant 0 <= i <= |notifiers|
        invariant delivered == Deliveries(notifiers[..i], kwargs)
      {
        assert notifiers[..i + 1][..i] == notifiers[..i];
        delivered := delivered + [Delivery(notifiers[i], kwargs)];
        i := i + 1;
      }
      assert notifiers[..i] == notifiers;
    }
  }
}
