/**
 * The update-callback registry (data/sharedState.ts): a module-level list of
 * callbacks that screens subscribe to, each subscription returning a function
 * that removes the callback again, and a notify that calls every callback.
 */
module SharedState {
  import Seqs

  /**
   * A callback, identified by the function object it is. The app compares
   * callbacks with `!==`, that is by identity, so an identity is all the model
   * keeps; calling one is recorded in the trace `NotifyUpdates` returns.
   */
  type Callback = nat

  /** The registry after the unsubscribe function of `cb` has run: every entry other than `cb`. */
  function Without(callbacks: seq<Callback>, cb: Callback): (r: seq<Callback>)
    ensures cb !in r
    ensures forall c :: c != cb ==> (c in r <==> c in callbacks)
    ensures |r| <= |callbacks|
  {
    Seqs.Filter(callbacks, (c: Callback) => c != cb)
  }

  /** Unsubscribing keeps the other callbacks in their relative order: it works piecewise. */
  lemma WithoutKeepsOrder(a: seq<Callback>, b: seq<Callback>, cb: Callback)
    ensures Without(a + b, cb) == Without(a, cb) + Without(b, cb)
  {
    Seqs.FilterConcat(a, b, (c: Callback) => c != cb);
  }

  /** Calling an unsubscribe function a second time changes nothing more. */
  lemma WithoutTwice(callbacks: seq<Callback>, cb: Callback)
    ensures Without(Without(callbacks, cb), cb) == Without(callbacks, cb)
  {
    Seqs.FilterTwice(callbacks, (c: Callback) => c != cb);
  }

  /** Removing a callback that is not registered changes nothing. */
  lemma WithoutAbsent(callbacks: seq<Callback>, cb: Callback)
    requires cb !in callbacks
    ensures Without(callbacks, cb) == callbacks
  {
    Seqs.FilterKeepsAll(callbacks, (c: Callback) => c != cb);
  }

  /** Subscribing a callback that is not yet registered and unsubscribing it restores the registry. */
  lemma SubscribeThenUnsubscribe(callbacks: seq<Callback>, cb: Callback)
    requires cb !in callbacks
    ensures Without(callbacks + [cb], cb) == callbacks
  {
    WithoutKeepsOrder(callbacks, [cb], cb);
    WithoutAbsent(callbacks, cb);
    assert Without([cb], cb) == [];
  }

  /** The registry, `updateCallbacks` of the app. */
  class UpdateRegistry {
    var callbacks: seq<Callback>

    constructor ()
      ensures callbacks == []
    {
      callbacks := [];
    }

    /** `subscribeToUpdates(cb)`: `cb` goes last, earlier entries keep their order. */
    method Subscribe(cb: Callback)
      modifies this
      ensures callbacks == old(callbacks) + [cb]
    {
      callbacks := callbacks + [cb];
    }

    /**
     * The function `subscribeToUpdates(cb)` returns: every occurrence of `cb`
     * goes, duplicate registrations included; the rest keep their order.
     */
    method Unsubscribe(cb: Callback)
      modifies this
      ensures callbacks == Without(old(callbacks), cb)
    {
      callbacks := Without(callbacks, cb);
    }

    /**
     * `notifyUpdates()`: calls each registered callback once, in registration
     * order, and leaves the registry as it is. `invoked` is the sequence of
     * calls made.
     */
    method NotifyUpdates() returns (invoked: seq<Callback>)
      ensures invoked == callbacks
    {
      invoked := [];
      var i := 0;
      while i < |callbacks|
        invariant 0 <= i <= |callbacks|
        invariant invoked == callbacks[..i]
      {
        invoked := invoked + [callbacks[i]];
        i := i + 1;
      }
    }
  }
}
