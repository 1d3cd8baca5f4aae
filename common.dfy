/** Failure-carrying wrappers shared by every module of the model, and the
    exceptions the modelled Java code throws, named after their Java class. */
module Common {

  /** A Java reference that may be null. */
  datatype Option<+T> = None | Some(value: T)

  /** A value, or the exception that a Java method throws instead of returning one. */
  datatype Result<+T, +E> = Success(value: T) | Failure(error: E)

  /** The outcome of a Java method returning void: normal return or a thrown exception. */
  datatype Outcome<+E> = Pass | Fail(error: E)

  datatype Fault =
    | DuplicateIdentifier        // DuplicateIdentifierException (ItemManager)
    | BagAlreadyDefined          // BagAlreadyDefinedException (BagManager)
    | FeatureSelfNesting         // FeatureException: sub feature of its own class
    | CallbackError              // a java.lang.Error thrown by a user callback
    | CallbackException          // a java.lang.Exception thrown by a user callback
    | NullPointer                // NullPointerException
    | ClassCast                  // ClassCastException
    | IndexOutOfBounds           // String/ArrayIndexOutOfBoundsException
    | IllegalArgument            // IllegalArgumentException (Bukkit argument checks)
    | IllegalState               // IllegalStateException (Gson element conversions)
    | UnsupportedOperation       // UnsupportedOperationException (Gson element conversions)
    | Runtime(reason: string)    // a RuntimeException thrown with a message
    | Storage                    // SQLException
    | ConcurrentModification     // ConcurrentModificationException (HashMap iterator)

  /** `order` lists every element of `keys` exactly once: an iteration order
      of a hash map's key set. */
  predicate Enumerates<T>(order: seq<T>, keys: set<T>)
  {
    |order| == |keys|
    && (forall i :: 0 <= i < |order| ==> order[i] in keys)
    && (forall i, j :: 0 <= i < j < |order| ==> order[i] != order[j])
  }

  /** An enumeration lists every key. */
  lemma EnumeratedKeys<T>(order: seq<T>, keys: set<T>)
    requires Enumerates(order, keys)
    ensures forall c :: c in keys <==> c in order
  {
    var listed := set i | 0 <= i < |order| :: order[i];
    assert listed <= keys;
    DistinctCount(order);
    var rest := keys - listed;
    assert keys == listed + rest;
    assert listed * rest == {};
  }

  /** A sequence without repetitions has as many distinct elements as entries. */
  lemma {:induction false} DistinctCount<T>(order: seq<T>)
    requires forall i, j :: 0 <= i < j < |order| ==> order[i] != order[j]
    ensures |set i | 0 <= i < |order| :: order[i]| == |order|
  {
    if order != [] {
      var init := order[..|order| - 1];
      DistinctCount(init);
      var before := set i | 0 <= i < |init| :: init[i];
      var all := set i | 0 <= i < |order| :: order[i];
      assert all == before + {order[|order| - 1]};
      assert order[|order| - 1] !in before;
    }
  }

  /** Listing one more, new, element extends an enumeration. */
  lemma EnumeratesSnoc<T>(order: seq<T>, keys: set<T>, x: T)
    requires Enumerates(order, keys) && x !in keys
    ensures Enumerates(order + [x], keys + {x})
  {
    EnumeratedKeys(order, keys);
  }

  /** Removing keys one more at a time is removing the set of them. */
  lemma MapMinusStep<K, V>(m: map<K, V>, gone: set<K>, k: K)
    ensures (m - gone) - {k} == m - (gone + {k})
  {
    assert ((m - gone) - {k}).Keys == (m - (gone + {k})).Keys;
  }

  /** The order in which a hash map hands out the keys `keys`: some order
      that lists each key once. */
  method Enumerate<T>(keys: set<T>) returns (order: seq<T>)
    ensures Enumerates(order, keys)
  {
    var pending := keys;
    order := [];
    while pending != {}
      invariant pending <= keys
      invariant Enumerates(order, keys - pending)
      decreases pending
    {
      var x :| x in pending;
      EnumeratesSnoc(order, keys - pending, x);
      assert (keys - pending) + {x} == keys - (pending - {x});
      pending := pending - {x};
      order := order + [x];
    }
    assert keys - pending == keys;
  }
}
