/** `BagManager`: the registry of bags (plugin data stores), keyed by bag id,
    that enables a bag when it is registered and disables it when it is
    unregistered. */
module Bags {
  import opened Common

  /** A bag; bags are told apart by identity, registered under their id. */
  class Bag {
    const id: string

    constructor(id: string)
      ensures this.id == id
    {
      this.id := id;
    }
  }

  /** A call the manager makes into a bag. */
  datatype BagCall = Enabled(bag: Bag) | Disabled(bag: Bag)

  /** The registry and the calls made into bags so far. */
  datatype BagState = BagState(bags: map<string, Bag>, calls: seq<BagCall>)

  /** `registerBags(bag)`: a taken id is refused before anything happens;
      otherwise the bag is stored under its id and then enabled. */
  function RegisterBagSpec(bag: Bag, s: BagState): (r: (BagState, Outcome<Fault>))
    ensures bag.id in s.bags <==> r.1 == Fail(BagAlreadyDefined)
    ensures r.1.Fail? ==> r.0 == s
    ensures r.1.Pass? ==> r.0.bags == s.bags[bag.id := bag] && r.0.calls == s.calls + [Enabled(bag)]
  {
    if bag.id in s.bags then (s, Fail(BagAlreadyDefined))
    else (BagState(s.bags[bag.id := bag], s.calls + [Enabled(bag)]), Pass)
  }

  /** `unregisterBags(bag)`: an id that is not registered changes nothing;
      otherwise the bag passed in is disabled and the entry is removed only
      when the id maps to that same bag (`remove(key, value)`). */
  function UnregisterBagSpec(bag: Bag, s: BagState): (r: BagState)
    ensures bag.id !in s.bags ==> r == s
    ensures bag.id in s.bags ==> r.calls == s.calls + [Disabled(bag)]
    ensures bag.id in s.bags && s.bags[bag.id] == bag ==> r.bags == s.bags - {bag.id}
    ensures bag.id in s.bags && s.bags[bag.id] != bag ==> r.bags == s.bags
  {
    if bag.id !in s.bags then s
    else BagState(if s.bags[bag.id] == bag then s.bags - {bag.id} else s.bags, s.calls + [Disabled(bag)])
  }

  /** Registering a fresh bag and unregistering it restores the registry. */
  lemma RegisterThenUnregister(bag: Bag, s: BagState)
    requires bag.id !in s.bags
    ensures UnregisterBagSpec(bag, RegisterBagSpec(bag, s).0).bags == s.bags
    ensures UnregisterBagSpec(bag, RegisterBagSpec(bag, s).0).calls == s.calls + [Enabled(bag), Disabled(bag)]
  {
    assert s.bags[bag.id := bag] - {bag.id} == s.bags;
  }

  /** The calls that run `call` on the bag of every id in `order`. */
  function CallsFor(order: seq<string>, bags: map<string, Bag>, enable: bool): (r: seq<BagCall>)
    requires forall i :: 0 <= i < |order| ==> order[i] in bags
    ensures |r| == |order|
    ensures forall i :: 0 <= i < |order| ==>
      r[i] == if enable then Enabled(bags[order[i]]) else Disabled(bags[order[i]])
  {
    if order == [] then []
    else CallsFor(order[..|order| - 1], bags, enable) + [if enable then Enabled(bags[order[|order| - 1]]) else Disabled(bags[order[|order| - 1]])]
  }

  /** The registry of bags. */
  class BagManager {
    var bags: map<string, Bag>
    /** The `onEnable`/`onDisable` calls made so far; what the bags do in
        them is not part of this model. */
    var calls: seq<BagCall>

    /** Every bag is stored under its own id. */
    predicate Valid()
      reads this
    {
      forall id :: id in bags ==> bags[id].id == id
    }

    function State(): BagState
      reads this
    {
      BagState(bags, calls)
    }

    constructor()
      ensures Valid() && bags == map[] && calls == []
    {
      bags := map[];
      calls := [];
    }

    /** `registerBags(bag)`. */
    method RegisterBags(bag: Bag) returns (r: Outcome<Fault>)
      requires Valid()
      modifies this
      ensures Valid()
      ensures (State(), r) == RegisterBagSpec(bag, old(State()))
    {
      if bag.id in bags {
        return Fail(BagAlreadyDefined);
      }
      bags := bags[bag.id := bag];
      calls := calls + [Enabled(bag)];
      return Pass;
    }

    /** `unregisterBags(bag)`. */
    method UnregisterBags(bag: Bag)
      requires Valid()
      modifies this
      ensures Valid()
      ensures State() == UnregisterBagSpec(bag, old(State()))
    {
      if bag.id !in bags {
        return;
      }
      calls := calls + [Disabled(bag)];
      if bags[bag.id] == bag {
        bags := bags - {bag.id};
      }
    }

    /** `getBag(id)`: the bag registered under `id`, if any. */
    method GetBag(id: string) returns (r: Option<Bag>)
      ensures r.Some? <==> id in bags
      ensures r.Some? ==> r.value == bags[id]
    {
      if id in bags {
        return Some(bags[id]);
      }
      return None;
    }

    /** `getRegisteredBags()`: a copy of the registry; maps are values, so
        changing the copy cannot change the registry. */
    method GetRegisteredBags() returns (r: map<string, Bag>)
      ensures r == bags
    {
      r := bags;
    }

    /** `enableBags()` and `disableBags()`: the callback runs once on every
        registered bag, in the map's iteration order; the registry is not
        changed. */
    method CallAll(enable: bool)
      modifies this`calls
      ensures exists order ::
        Enumerates(order, bags.Keys) && calls == old(calls) + CallsFor(order, bags, enable)
    {
      var order := Enumerate(bags.Keys);
      EnumeratedKeys(order, bags.Keys);
      for i := 0 to |order|
        invariant calls == old(calls) + CallsFor(order[..i], bags, enable)
      {
        var bag := bags[order[i]];
        calls := calls + [if enable then Enabled(bag) else Disabled(bag)];
        assert order[..i + 1][..i] == order[..i];
      }
      assert order[..|order|] == order;
    }

    /** `enableBags()`. */
    method EnableBags()
      modifies this`calls
      ensures exists order ::
        Enumerates(order, bags.Keys) && calls == old(calls) + CallsFor(order, bags, true)
    {
      CallAll(true);
    }

    /** `disableBags()`. */
    method DisableBags()
      modifies this`calls
      ensures exists order ::
        Enumerates(order, bags.Keys) && calls == old(calls) + CallsFor(order, bags, false)
    {
      CallAll(false);
    }
  }
}
