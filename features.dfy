/** `LightFeature` and `FeatureConfig`: a feature bundles listeners, bags,
    items and sub-features, and owns a configuration section whose path is
    the chain of feature ids from the root feature down to it. */
module Features {
  import opened Common
  import opened JavaStrings
  import opened Host
  import opened Items
  import opened ItemRegistry
  import opened Bags

  /** What a user callback (`onLoad`, `onEnable`, `onDisable`) does: return,
      throw a `java.lang.Error`, or throw an `Exception`. */
  datatype Callback = Returns | ThrowsError | ThrowsException

  /** The fault a throwing callback raises. */
  function Raised(c: Callback): (r: Outcome<Fault>)
    ensures r.Pass? <==> c == Returns
    ensures c == ThrowsError ==> r == Fail(CallbackError)
    ensures c == ThrowsException ==> r == Fail(CallbackException)
  {
    match c
    case Returns => Pass
    case ThrowsError => Fail(CallbackError)
    case ThrowsException => Fail(CallbackException)
  }

  /** A feature. Its id, its runtime class and what its callbacks do are
      fixed by its definition; the resource lists and the configuration are
      state. */
  class LightFeature {
    const id: string
    const kind: string
    const onLoad: Callback
    const onEnable: Callback
    const onDisable: Callback
    var eventsList: seq<Listener>
    var bagsList: seq<Bag>
    var itemsList: seq<LightItem>
    var subFeatures: seq<LightFeature>
    var featureConfig: Option<FeatureConfig>

    /** A new feature: the four resource lists start empty and no
        configuration is set. */
    constructor(id: string, kind: string, onLoad: Callback, onEnable: Callback, onDisable: Callback)
      ensures this.id == id && this.kind == kind
      ensures this.onLoad == onLoad && this.onEnable == onEnable && this.onDisable == onDisable
      ensures eventsList == [] && bagsList == [] && itemsList == [] && subFeatures == []
      ensures featureConfig == None
    {
      this.id := id;
      this.kind := kind;
      this.onLoad := onLoad;
      this.onEnable := onEnable;
      this.onDisable := onDisable;
      eventsList := [];
      bagsList := [];
      itemsList := [];
      subFeatures := [];
      featureConfig := None;
    }

    /** `unregisterItems`: `ItemManager.unregisterItems` once per listed item,
        in list order. */
    method UnregisterItems(manager: ItemManager)
      requires manager.Valid()
      modifies manager, manager.server
      ensures manager.Valid()
      ensures manager.State() == UnregisterEach(itemsList, old(manager.State()))
      ensures manager.server.handlers == old(manager.server.handlers)
    {
      for i := 0 to |itemsList|
        invariant manager.Valid()
        invariant UnregisterEach(itemsList, old(manager.State())) == UnregisterEach(itemsList[i..], manager.State())
        invariant manager.server.handlers == old(manager.server.handlers)
      {
        manager.UnregisterItems(itemsList[i]);
        assert itemsList[i..][1..] == itemsList[i + 1..];
      }
    }

    /** `unregisterBags`: `BagManager.unregisterBags` once per listed bag, in
        list order. */
    method UnregisterBags(manager: BagManager)
      requires manager.Valid()
      modifies manager
      ensures manager.Valid()
      ensures manager.State() == DisposeEach(bagsList, old(manager.State()))
    {
      for i := 0 to |bagsList|
        invariant manager.Valid()
        invariant DisposeEach(bagsList, old(manager.State())) == DisposeEach(bagsList[i..], manager.State())
      {
        manager.UnregisterBags(bagsList[i]);
        assert bagsList[i..][1..] == bagsList[i + 1..];
      }
    }

    /** `unregisterEvents`: `HandlerList.unregisterAll` for every listed listener. */
    method UnregisterEvents(server: Server)
      modifies server
      ensures server.handlers == WithoutEach(old(server.handlers), eventsList)
      ensures server.recipes == old(server.recipes)
    {
      for i := 0 to |eventsList|
        invariant WithoutEach(old(server.handlers), eventsList) == WithoutEach(server.handlers, eventsList[i..])
        invariant server.recipes == old(server.recipes)
      {
        server.UnregisterAll(eventsList[i]);
        assert eventsList[i..][1..] == eventsList[i + 1..];
      }
    }
  }

  /** Unregistering `items` one after the other. */
  function UnregisterEach(items: seq<LightItem>, s: ItemState): (r: ItemState)
    decreases |items|
  {
    if items == [] then s else UnregisterEach(items[1..], UnregisterItemSpec(items[0], s))
  }

  /** After unregistering a list of items none of their identifiers is
      registered, and every other registration is kept. */
  lemma {:induction false} UnregisterEachItems(items: seq<LightItem>, s: ItemState)
    ensures UnregisterEach(items, s).items == s.items - Identifiers(items)
    decreases |items|
  {
    if items != [] {
      UnregisterEachItems(items[1..], UnregisterItemSpec(items[0], s));
      assert Identifiers(items) == {items[0].identifier} + Identifiers(items[1..]) by {
        forall x | x in Identifiers(items)
          ensures x in {items[0].identifier} + Identifiers(items[1..])
        {
          var i :| 0 <= i < |items| && items[i].identifier == x;
          if i > 0 {
            assert items[1..][i - 1].identifier == x;
          }
        }
      }
    }
  }

  /** The identifiers of `items`. */
  function Identifiers(items: seq<LightItem>): (r: set<string>)
    ensures forall i :: 0 <= i < |items| ==> items[i].identifier in r
    ensures forall x :: x in r ==> exists i :: 0 <= i < |items| && items[i].identifier == x
  {
    set i | 0 <= i < |items| :: items[i].identifier
  }

  /** Unregistering `bags` one after the other. */
  function DisposeEach(bags: seq<Bag>, s: BagState): (r: BagState)
    decreases |bags|
  {
    if bags == [] then s else DisposeEach(bags[1..], UnregisterBagSpec(bags[0], s))
  }

  /** After unregistering a list of bags the registry only lost entries, none
      of its ids is left mapped to a listed bag, and every entry holding an
      unlisted bag is kept. */
  lemma {:induction false} DisposeEachBags(bags: seq<Bag>, s: BagState)
    ensures DisposeEach(bags, s).bags.Keys <= s.bags.Keys
    ensures forall id :: id in DisposeEach(bags, s).bags ==> DisposeEach(bags, s).bags[id] == s.bags[id]
    ensures forall i :: 0 <= i < |bags| && bags[i].id in DisposeEach(bags, s).bags ==> DisposeEach(bags, s).bags[bags[i].id] != bags[i]
    ensures forall id :: id in s.bags && s.bags[id] !in bags ==> id in DisposeEach(bags, s).bags
    decreases |bags|
  {
    if bags != [] {
      var s1 := UnregisterBagSpec(bags[0], s);
      DisposeEachBags(bags[1..], s1);
      var r := DisposeEach(bags, s);
      forall id | id in s.bags && s.bags[id] !in bags
        ensures id in r.bags
      {
        assert s.bags[id] != bags[0];
        assert id in s1.bags && s1.bags[id] == s.bags[id];
        assert s.bags[id] !in bags[1..];
      }
      forall i | 0 <= i < |bags| && bags[i].id in r.bags
        ensures r.bags[bags[i].id] != bags[i]
      {
        if i > 0 {
          assert bags[1..][i - 1] == bags[i];
        }
      }
    }
  }

  /** `HandlerList.unregisterAll` for each of `listeners`, in order. */
  function WithoutEach(handlers: seq<Listener>, listeners: seq<Listener>): (r: seq<Listener>)
    decreases |listeners|
  {
    if listeners == [] then handlers else WithoutEach(Without(handlers, listeners[0]), listeners[1..])
  }

  /** After unregistering a list of listeners none of them is registered, and
      every other listener still is. */
  lemma {:induction false} WithoutEachListeners(handlers: seq<Listener>, listeners: seq<Listener>)
    ensures forall i :: 0 <= i < |listeners| ==> listeners[i] !in WithoutEach(handlers, listeners)
    ensures forall i :: 0 <= i < |handlers| && handlers[i] !in listeners ==> handlers[i] in WithoutEach(handlers, listeners)
    ensures forall l :: l in WithoutEach(handlers, listeners) ==> l in handlers
    decreases |listeners|
  {
    if listeners != [] {
      var h1 := Without(handlers, listeners[0]);
      WithoutEachListeners(h1, listeners[1..]);
      var r := WithoutEach(handlers, listeners);
      forall i | 0 <= i < |listeners|
        ensures listeners[i] !in r
      {
        if i > 0 {
          assert listeners[1..][i - 1] == listeners[i];
        } else {
          assert forall l :: l in r ==> l in h1;
        }
      }
      forall i | 0 <= i < |handlers| && handlers[i] !in listeners
        ensures handlers[i] in r
      {
        assert handlers[i] in h1;
        var j :| 0 <= j < |h1| && h1[j] == handlers[i];
        assert h1[j] !in listeners[1..];
      }
    }
  }

  /** A feature's configuration section: the feature and the configuration of
      the feature it was registered under, if any. */
  datatype FeatureConfig = FeatureConfig(feature: LightFeature, parent: Option<FeatureConfig>)

  /** `new FeatureConfig(feature, plugin)`: the three-argument constructor
      with a null parent. */
  function RootConfig(feature: LightFeature): (r: FeatureConfig)
    ensures r.feature == feature && r.parent.None?
    ensures GetPath(r) == feature.id && Chain(r) == [feature.id]
  {
    FeatureConfig(feature, None)
  }

  /** `getPath()`: the feature id, after the parent's path and a dot when
      there is a parent. */
  function GetPath(c: FeatureConfig): string
  {
    match c.parent
    case None => c.feature.id
    case Some(p) => GetPath(p) + "." + c.feature.id
  }

  /** The feature ids along the parent chain, from the root feature down to
      `c`'s own feature. */
  function Chain(c: FeatureConfig): (r: seq<string>)
    ensures |r| > 0 && r[|r| - 1] == c.feature.id
  {
    match c.parent
    case None => [c.feature.id]
    case Some(p) => Chain(p) + [c.feature.id]
  }

  /** The path is the chain of ids joined with dots. */
  lemma {:induction false} PathIsJoinedChain(c: FeatureConfig)
    ensures GetPath(c) == Join(Chain(c), ".")
  {
    match c.parent
    case None =>
    case Some(p) =>
      PathIsJoinedChain(p);
      JoinSnoc(Chain(p), c.feature.id, ".");
  }

  /** `generatePath(key)`: the path, a dot, and the key. */
  function GeneratePath(c: FeatureConfig, key: string): (r: string)
    ensures r == Join(Chain(c) + [key], ".")
  {
    PathIsJoinedChain(c);
    JoinSnoc(Chain(c), key, ".");
    GetPath(c) + "." + key
  }

  /** What `LightConfig.add` answers: the entry's full path and its value. */
  datatype ConfigEntry<V> = ConfigEntry(key: string, value: V)

  /** `addEntry(key, defaultValue)`: the default is registered under
      `generatePath(key)` and under no other path. */
  function AddEntry<V>(c: FeatureConfig, key: string, defaultValue: V, defaults: map<string, V>): (r: (map<string, V>, ConfigEntry<V>))
    ensures r.1.key in r.0 && r.0[r.1.key] == defaultValue && r.1.value == defaultValue
    ensures r.1.key == Join(Chain(c) + [key], ".")
    ensures forall p :: p != r.1.key ==> (p in r.0 <==> p in defaults) && (p in defaults ==> r.0[p] == defaults[p])
  {
    var path := GeneratePath(c, key);
    (defaults[path := defaultValue], ConfigEntry(path, defaultValue))
  }

  /** The resource lists of a feature and, recursively, of its sub-features,
      as they stand: a finite unfolding of the feature graph. */
  datatype Shape = Node(feature: LightFeature, listeners: seq<Listener>, bags: seq<Bag>, items: seq<LightItem>, children: seq<Shape>)

  /** The features of a shape. */
  function Nodes(s: Shape): (r: set<LightFeature>)
    ensures s.feature in r
    ensures forall i :: 0 <= i < |s.children| ==> Nodes(s.children[i]) <= r
    decreases s, 1
  {
    {s.feature} + ChildNodes(s, 0)
  }

  /** The features of the shapes `s.children[n..]`. */
  function ChildNodes(s: Shape, n: nat): (r: set<LightFeature>)
    ensures forall i :: n <= i < |s.children| ==> Nodes(s.children[i]) <= r
    decreases s, 0, |s.children| - n
  {
    if n >= |s.children| then {} else Nodes(s.children[n]) + ChildNodes(s, n + 1)
  }

  /** The items listed anywhere in a shape. */
  function ItemsIn(s: Shape): (r: set<LightItem>)
    ensures forall i :: 0 <= i < |s.items| ==> s.items[i] in r
    ensures forall i :: 0 <= i < |s.children| ==> ItemsIn(s.children[i]) <= r
    decreases s, 1
  {
    (set i | 0 <= i < |s.items| :: s.items[i]) + ChildItems(s, 0)
  }

  /** The items listed in the shapes `s.children[n..]`. */
  function ChildItems(s: Shape, n: nat): (r: set<LightItem>)
    ensures forall i :: n <= i < |s.children| ==> ItemsIn(s.children[i]) <= r
    decreases s, 0, |s.children| - n
  {
    if n >= |s.children| then {} else ItemsIn(s.children[n]) + ChildItems(s, n + 1)
  }

  /** The bags listed anywhere in a shape. */
  function BagsIn(s: Shape): (r: set<Bag>)
    ensures forall i :: 0 <= i < |s.bags| ==> s.bags[i] in r
    ensures forall i :: 0 <= i < |s.children| ==> BagsIn(s.children[i]) <= r
    decreases s, 1
  {
    (set i | 0 <= i < |s.bags| :: s.bags[i]) + ChildBags(s, 0)
  }

  /** The bags listed in the shapes `s.children[n..]`. */
  function ChildBags(s: Shape, n: nat): (r: set<Bag>)
    ensures forall i :: n <= i < |s.children| ==> BagsIn(s.children[i]) <= r
    decreases s, 0, |s.children| - n
  {
    if n >= |s.children| then {} else BagsIn(s.children[n]) + ChildBags(s, n + 1)
  }

  /** The shape describes the features in the heap: every node's lists are
      the ones recorded, and its sub-features are the children's features. */
  predicate Matches(s: Shape)
    reads Nodes(s)`eventsList, Nodes(s)`bagsList, Nodes(s)`itemsList, Nodes(s)`subFeatures
    decreases s
  {
    && s.feature.eventsList == s.listeners
    && s.feature.bagsList == s.bags
    && s.feature.itemsList == s.items
    && |s.feature.subFeatures| == |s.children|
    && (forall i :: 0 <= i < |s.children| ==> s.feature.subFeatures[i] == s.children[i].feature)
    && (forall i :: 0 <= i < |s.children| ==> Matches(s.children[i]))
  }

  /** A shape keeps describing the heap while the lists of its features are
      left alone. */
  twostate lemma MatchesKept(s: Shape)
    requires old(Matches(s))
    requires forall f :: f in Nodes(s) ==> old(allocated(f)) && unchanged(f`eventsList, f`bagsList, f`itemsList, f`subFeatures)
    ensures Matches(s)
    decreases s
  {
    var f := s.feature;
    assert f in Nodes(s);
    assert f.subFeatures == old(f.subFeatures);
    forall i | 0 <= i < |s.children|
      ensures Matches(s.children[i])
    {
      assert Nodes(s.children[i]) <= Nodes(s);
      MatchesKept(s.children[i]);
    }
  }
}
