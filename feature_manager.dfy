/** `FeatureManager`: registers a feature tree (configuration, callbacks,
    sub-features, items, bags, listeners, in that order per feature), tears
    it down again, and runs the enable and disable callbacks of every
    registered feature. */
module FeatureRegistry {
  import opened Common
  import opened Host
  import opened Recipes
  import opened Items
  import opened ItemRegistry
  import opened Bags
  import opened Features

  /** A callback the manager makes into a feature. */
  datatype FeatureCall = Load(feature: LightFeature) | Enable(feature: LightFeature) | Disable(feature: LightFeature)

  /** Everything feature registration touches: the item registry and recipe
      book, the bag registry, the server's listeners, the feature map, the
      callbacks made so far and the configuration of every feature in view. */
  datatype World = World(
    items: ItemState,
    bags: BagState,
    handlers: seq<Listener>,
    features: map<string, LightFeature>,
    calls: seq<FeatureCall>,
    configs: map<LightFeature, Option<FeatureConfig>>)

  /** The configuration a feature receives: a root configuration without a
      parent, or one chained to whatever configuration the parent holds. */
  function NewConfig(f: LightFeature, parent: Option<LightFeature>, configs: map<LightFeature, Option<FeatureConfig>>): (r: FeatureConfig)
    ensures r.feature == f
    ensures parent.None? ==> r.parent.None?
    ensures parent.Some? && parent.value in configs ==> r.parent == configs[parent.value]
  {
    if parent.None? then RootConfig(f) else FeatureConfig(f, if parent.value in configs then configs[parent.value] else None)
  }

  /** The same runtime class as the parent: the feature would nest itself. */
  predicate SelfNesting(f: LightFeature, parent: Option<LightFeature>)
  {
    parent.Some? && parent.value.kind == f.kind
  }

  /** `registerFeatures(feature, parent, plugin)` on the feature tree `s`:
      the class check, the configuration, `onLoad`, `onEnable`, then the
      rest in `Grow`. Nothing is undone when a step throws. */
  function Cascade(s: Shape, parent: Option<LightFeature>, w: World, store: RecipeStore): (r: (World, Outcome<Fault>))
    reads store
    decreases s, 2
  {
    if SelfNesting(s.feature, parent) then (w, Fail(FeatureSelfNesting))
    else
      var (w2, o) := Start(s.feature, parent, w);
      if o.Fail? then (w2, o) else Grow(s, w2, store)
  }

  /** The configuration, `onLoad`, and `onEnable` when `onLoad` returned. */
  function Start(f: LightFeature, parent: Option<LightFeature>, w: World): (r: (World, Outcome<Fault>))
    ensures r.0 == w.(configs := r.0.configs, calls := r.0.calls)
    ensures r.0.configs == w.configs[f := Some(NewConfig(f, parent, w.configs))]
    ensures f.onLoad != Returns ==> r.0.calls == w.calls + [Load(f)] && r.1 == Raised(f.onLoad)
    ensures f.onLoad == Returns ==> r.0.calls == w.calls + [Load(f), Enable(f)] && r.1 == Raised(f.onEnable)
  {
    var w1 := w.(configs := w.configs[f := Some(NewConfig(f, parent, w.configs))], calls := w.calls + [Load(f)]);
    if f.onLoad != Returns then (w1, Raised(f.onLoad))
    else (w1.(calls := w1.calls + [Enable(f)]), Raised(f.onEnable))
  }

  /** After `onEnable`: the sub-features, then the feature's own resources. */
  function Grow(s: Shape, w: World, store: RecipeStore): (r: (World, Outcome<Fault>))
    reads store
    decreases s, 1
  {
    var (w1, o) := Children(s, 0, w, store);
    if o.Fail? then (w1, o) else Resources(s, w1, store)
  }

  /** The sub-features `s.children[n..]` registered one after the other under
      `s.feature`, stopping at the first exception. */
  function Children(s: Shape, n: nat, w: World, store: RecipeStore): (r: (World, Outcome<Fault>))
    reads store
    decreases s, 0, |s.children| - n
  {
    if n >= |s.children| then (w, Pass)
    else
      var (w1, o) := Cascade(s.children[n], Some(s.feature), w, store);
      if o.Fail? then (w1, o) else Children(s, n + 1, w1, store)
  }

  /** The feature's items, then its bags, then its listeners; last, the
      feature is put in the map under its id, replacing any feature already
      there. */
  function Resources(s: Shape, w: World, store: RecipeStore): (r: (World, Outcome<Fault>))
    reads store
  {
    var (items, o) := RegisterEach(s.items, w.items, store);
    if o.Fail? then (w.(items := items), o) else Attach(s, w.(items := items))
  }

  /** `Resources` after the items: the bags, the listeners, the map entry. */
  function Attach(s: Shape, w: World): (r: (World, Outcome<Fault>))
  {
    var (bags, o) := EnableEach(s.bags, w.bags);
    if o.Fail? then (w.(bags := bags), o)
    else (w.(bags := bags, handlers := w.handlers + s.listeners, features := w.features[s.feature.id := s.feature]), Pass)
  }

  /** `ItemManager.registerItems` for each of `items`, stopping at the first
      exception. */
  function RegisterEach(items: seq<LightItem>, s: ItemState, store: RecipeStore): (r: (ItemState, Outcome<Fault>))
    reads store
    decreases |items|
  {
    if items == [] then (s, Pass)
    else
      var (s1, o) := RegisterItemSpec(items[0], s, store.Lookup(items[0].name));
      if o.Fail? then (s1, o) else RegisterEach(items[1..], s1, store)
  }

  /** `BagManager.registerBags` for each of `bags`, stopping at the first
      exception. */
  function EnableEach(bags: seq<Bag>, s: BagState): (r: (BagState, Outcome<Fault>))
    decreases |bags|
  {
    if bags == [] then (s, Pass)
    else
      var (s1, o) := RegisterBagSpec(bags[0], s);
      if o.Fail? then (s1, o) else EnableEach(bags[1..], s1)
  }

  /** The callbacks a successful registration of `s` makes: the feature's
      `onLoad` and `onEnable`, then those of its sub-features in list order. */
  function Trace(s: Shape): (r: seq<FeatureCall>)
    ensures |r| >= 2 && r[0] == Load(s.feature) && r[1] == Enable(s.feature)
    decreases s, 1
  {
    [Load(s.feature), Enable(s.feature)] + ChildTraces(s, 0)
  }

  /** The callbacks of the sub-features `s.children[n..]`. */
  function ChildTraces(s: Shape, n: nat): seq<FeatureCall>
    decreases s, 0, |s.children| - n
  {
    if n >= |s.children| then [] else Trace(s.children[n]) + ChildTraces(s, n + 1)
  }

  /** The listeners a successful registration of `s` adds: those of the
      sub-features first, then the feature's own. */
  function Listened(s: Shape): (r: seq<Listener>)
    decreases s, 1
  {
    ChildListened(s, 0) + s.listeners
  }

  /** The listeners of the sub-features `s.children[n..]`. */
  function ChildListened(s: Shape, n: nat): seq<Listener>
    decreases s, 0, |s.children| - n
  {
    if n >= |s.children| then [] else Listened(s.children[n]) + ChildListened(s, n + 1)
  }

  /** Registering the resources leaves the configurations and the callbacks
      alone and only adds to the feature map; on success it adds the
      feature's listeners and maps its id to it, and on failure the listeners
      and the feature map are as they were. */
  lemma ResourcesEffect(s: Shape, w: World, store: RecipeStore)
    ensures Resources(s, w, store).0.configs == w.configs
    ensures Resources(s, w, store).0.calls == w.calls
    ensures Resources(s, w, store).1.Pass? ==>
      && Resources(s, w, store).0.handlers == w.handlers + s.listeners
      && Resources(s, w, store).0.features == w.features[s.feature.id := s.feature]
    ensures Resources(s, w, store).1.Fail? ==>
      Resources(s, w, store).0.handlers == w.handlers && Resources(s, w, store).0.features == w.features
  {
  }

  /** Registration only ever adds: to the configurations, to the feature map
      and to the end of the callback log. */
  lemma {:induction false} CascadeGrows(s: Shape, parent: Option<LightFeature>, w: World, store: RecipeStore)
    ensures w.configs.Keys <= Cascade(s, parent, w, store).0.configs.Keys
    ensures w.features.Keys <= Cascade(s, parent, w, store).0.features.Keys
    ensures w.calls <= Cascade(s, parent, w, store).0.calls
    decreases s, 2
  {
    if !SelfNesting(s.feature, parent) {
      var (w2, o) := Start(s.feature, parent, w);
      if o.Pass? {
        GrowGrows(s, w2, store);
      }
    }
  }

  /** `CascadeGrows` after `onEnable`. */
  lemma {:induction false} GrowGrows(s: Shape, w: World, store: RecipeStore)
    ensures w.configs.Keys <= Grow(s, w, store).0.configs.Keys
    ensures w.features.Keys <= Grow(s, w, store).0.features.Keys
    ensures w.calls <= Grow(s, w, store).0.calls
    decreases s, 1
  {
    ChildrenGrow(s, 0, w, store);
    var (w1, o) := Children(s, 0, w, store);
    if o.Pass? {
      ResourcesEffect(s, w1, store);
    }
  }

  /** `CascadeGrows` for the sub-features `s.children[n..]`. */
  lemma {:induction false} ChildrenGrow(s: Shape, n: nat, w: World, store: RecipeStore)
    ensures w.configs.Keys <= Children(s, n, w, store).0.configs.Keys
    ensures w.features.Keys <= Children(s, n, w, store).0.features.Keys
    ensures w.calls <= Children(s, n, w, store).0.calls
    decreases s, 0, |s.children| - n
  {
    if n < |s.children| {
      var c := s.children[n];
      CascadeGrows(c, Some(s.feature), w, store);
      var (w1, o) := Cascade(c, Some(s.feature), w, store);
      if o.Pass? {
        ChildrenGrow(s, n + 1, w1, store);
      }
    }
  }

  /** The class check comes first: a feature nested under a parent of its
      own class is refused before anything changes. */
  lemma CascadeSelfNesting(s: Shape, parent: Option<LightFeature>, w: World, store: RecipeStore)
    requires SelfNesting(s.feature, parent)
    ensures Cascade(s, parent, w, store) == (w, Fail(FeatureSelfNesting))
  {
  }

  /** Otherwise the feature receives its configuration and `onLoad` is the
      first callback; when `onLoad` throws, registration stops there with
      the configuration kept and nothing else done. */
  lemma CascadeLoadsFirst(s: Shape, parent: Option<LightFeature>, w: World, store: RecipeStore)
    requires !SelfNesting(s.feature, parent)
    ensures |w.calls| < |Cascade(s, parent, w, store).0.calls|
    ensures Cascade(s, parent, w, store).0.calls[|w.calls|] == Load(s.feature)
    ensures s.feature.onLoad != Returns ==>
      Cascade(s, parent, w, store) ==
        (w.(configs := w.configs[s.feature := Some(NewConfig(s.feature, parent, w.configs))], calls := w.calls + [Load(s.feature)]),
         Raised(s.feature.onLoad))
  {
    var (w2, o) := Start(s.feature, parent, w);
    if o.Pass? {
      GrowGrows(s, w2, store);
      assert w2.calls <= Cascade(s, parent, w, store).0.calls;
    }
  }

  /** A successful registration makes the callbacks of `Trace` in that
      order, adds the listeners of `Listened`, and leaves the id of every
      feature of the tree in the feature map, the feature's own id mapped to
      it. */
  lemma {:induction false} CascadeEffect(s: Shape, parent: Option<LightFeature>, w: World, store: RecipeStore)
    requires Cascade(s, parent, w, store).1.Pass?
    ensures Cascade(s, parent, w, store).0.calls == w.calls + Trace(s)
    ensures Cascade(s, parent, w, store).0.handlers == w.handlers + Listened(s)
    ensures forall x :: x in Nodes(s) ==> x.id in Cascade(s, parent, w, store).0.features
    ensures Cascade(s, parent, w, store).0.features[s.feature.id] == s.feature
    decreases s, 2
  {
    var w2 := Start(s.feature, parent, w).0;
    assert Cascade(s, parent, w, store) == Grow(s, w2, store);
    assert w2.calls + ChildTraces(s, 0) == w.calls + Trace(s);
    GrowEffect(s, w2, store);
  }

  /** `CascadeEffect` after `onEnable`. */
  lemma {:induction false} GrowEffect(s: Shape, w: World, store: RecipeStore)
    requires Grow(s, w, store).1.Pass?
    ensures Grow(s, w, store).0.calls == w.calls + ChildTraces(s, 0)
    ensures Grow(s, w, store).0.handlers == w.handlers + Listened(s)
    ensures forall x :: x in Nodes(s) ==> x.id in Grow(s, w, store).0.features
    ensures Grow(s, w, store).0.features[s.feature.id] == s.feature
    decreases s, 1
  {
    ChildrenEffect(s, 0, w, store);
    var (w1, _) := Children(s, 0, w, store);
    assert Grow(s, w, store) == Resources(s, w1, store);
    ResourcesEffect(s, w1, store);
    forall x | x in Nodes(s)
      ensures x.id in Grow(s, w, store).0.features
    {
      if x != s.feature {
        assert x in ChildNodes(s, 0);
      }
    }
  }

  /** The sub-feature part of `CascadeEffect`. */
  lemma {:induction false} ChildrenEffect(s: Shape, n: nat, w: World, store: RecipeStore)
    requires Children(s, n, w, store).1.Pass?
    ensures Children(s, n, w, store).0.calls == w.calls + ChildTraces(s, n)
    ensures Children(s, n, w, store).0.handlers == w.handlers + ChildListened(s, n)
    ensures forall x :: x in ChildNodes(s, n) ==> x.id in Children(s, n, w, store).0.features
    decreases s, 0, |s.children| - n
  {
    if n < |s.children| {
      var c := s.children[n];
      CascadeEffect(c, Some(s.feature), w, store);
      var w1 := Cascade(c, Some(s.feature), w, store).0;
      assert Children(s, n, w, store) == Children(s, n + 1, w1, store);
      ChildrenEffect(s, n + 1, w1, store);
      ChildrenGrow(s, n + 1, w1, store);
      Regroup(w1.calls, w.calls, Trace(c), ChildTraces(s, n + 1));
      Regroup(w1.handlers, w.handlers, Listened(c), ChildListened(s, n + 1));
      assert ChildNodes(s, n) == Nodes(c) + ChildNodes(s, n + 1);
    }
  }

  /** `x + c` regrouped when `x` is `a + b`. */
  lemma Regroup<T>(x: seq<T>, a: seq<T>, b: seq<T>, c: seq<T>)
    requires x == a + b
    ensures x + c == a + (b + c)
  {
  }

  /** `unregisterFeatures(feature, plugin)` with the sub-features
      unregistered: `onDisable`, then every sub-feature torn down the same way
      in list order, then the items, listeners and bags, and the map entry.
      An exception from a callback stops it there, with nothing undone. */
  function Teardown(s: Shape, w: World): (r: (World, Outcome<Fault>))
    decreases s, 1
  {
    var w1 := w.(calls := w.calls + [Disable(s.feature)]);
    if s.feature.onDisable != Returns then (w1, Raised(s.feature.onDisable))
    else
      var (w2, o) := TeardownChildren(s, 0, w1);
      if o.Fail? then (w2, o) else (Release(s, w2), Pass)
  }

  /** The sub-features `s.children[n..]` torn down one after the other. */
  function TeardownChildren(s: Shape, n: nat, w: World): (r: (World, Outcome<Fault>))
    decreases s, 0, |s.children| - n
  {
    if n >= |s.children| then (w, Pass)
    else
      var (w1, o) := Teardown(s.children[n], w);
      if o.Fail? then (w1, o) else TeardownChildren(s, n + 1, w1)
  }

  /** `unregisterItems`, `unregisterEvents`, `unregisterBags`, then
      `features.remove(id)`: the feature's items and listeners are gone, bag
      entries holding none of its bags stay, nothing is added, and the
      configurations and callbacks are left alone. */
  function Release(s: Shape, w: World): (r: World)
    ensures r.features == w.features - {s.feature.id}
    ensures r.items.items == w.items.items - Identifiers(s.items)
    ensures forall l :: l in r.handlers ==> l in w.handlers && l !in s.listeners
    ensures r.bags.bags.Keys <= w.bags.bags.Keys
    ensures forall id :: id in r.bags.bags ==> r.bags.bags[id] == w.bags.bags[id]
    ensures forall i :: 0 <= i < |s.bags| && s.bags[i].id in r.bags.bags ==> r.bags.bags[s.bags[i].id] != s.bags[i]
    ensures forall id :: id in w.bags.bags && w.bags.bags[id] !in s.bags ==> id in r.bags.bags
    ensures r.calls == w.calls && r.configs == w.configs
  {
    UnregisterEachItems(s.items, w.items);
    DisposeEachBags(s.bags, w.bags);
    WithoutEachListeners(w.handlers, s.listeners);
    w.(items := UnregisterEach(s.items, w.items), handlers := WithoutEach(w.handlers, s.listeners),
       bags := DisposeEach(s.bags, w.bags), features := w.features - {s.feature.id})
  }

  /** `unregisterFeatures(feature, plugin)` as written: the sub-feature loop
      calls `registerFeatures(subFeature, plugin)`, registering each
      sub-feature again as a root feature. */
  function TeardownAsWritten(s: Shape, w: World, store: RecipeStore): (r: (World, Outcome<Fault>))
    reads store
  {
    var w1 := w.(calls := w.calls + [Disable(s.feature)]);
    if s.feature.onDisable != Returns then (w1, Raised(s.feature.onDisable))
    else
      var (w2, o) := Reregister(s, 0, w1, store);
      if o.Fail? then (w2, o) else (Release(s, w2), Pass)
  }

  /** The sub-features `s.children[n..]` passed to `registerFeatures` with no
      parent, one after the other. */
  function Reregister(s: Shape, n: nat, w: World, store: RecipeStore): (r: (World, Outcome<Fault>))
    reads store
    decreases |s.children| - n
  {
    if n >= |s.children| then (w, Pass)
    else
      var (w1, o) := Cascade(s.children[n], None, w, store);
      if o.Fail? then (w1, o) else Reregister(s, n + 1, w1, store)
  }

  /** The callbacks a successful teardown of `s` makes: `onDisable` of the
      feature, then those of its sub-features in list order. */
  function DisableTrace(s: Shape): (r: seq<FeatureCall>)
    ensures |r| >= 1 && r[0] == Disable(s.feature)
    decreases s, 1
  {
    [Disable(s.feature)] + ChildDisableTraces(s, 0)
  }

  /** The callbacks of tearing down the sub-features `s.children[n..]`. */
  function ChildDisableTraces(s: Shape, n: nat): seq<FeatureCall>
    decreases s, 0, |s.children| - n
  {
    if n >= |s.children| then [] else DisableTrace(s.children[n]) + ChildDisableTraces(s, n + 1)
  }

  /** A teardown only ever removes: feature ids, listeners, items and bags,
      and of the bags only entries holding a bag of the tree; it leaves the
      configurations alone and only appends to the callback log. */
  lemma {:induction false} TeardownShrinks(s: Shape, w: World)
    ensures Teardown(s, w).0.features.Keys <= w.features.Keys
    ensures forall l :: l in Teardown(s, w).0.handlers ==> l in w.handlers
    ensures Teardown(s, w).0.items.items.Keys <= w.items.items.Keys
    ensures forall id :: id in Teardown(s, w).0.bags.bags ==> id in w.bags.bags && Teardown(s, w).0.bags.bags[id] == w.bags.bags[id]
    ensures forall id :: id in w.bags.bags && w.bags.bags[id] !in BagsIn(s) ==> id in Teardown(s, w).0.bags.bags
    ensures Teardown(s, w).0.configs == w.configs
    ensures w.calls <= Teardown(s, w).0.calls
    decreases s, 1
  {
    if s.feature.onDisable == Returns {
      var w1 := w.(calls := w.calls + [Disable(s.feature)]);
      TeardownChildrenShrink(s, 0, w1);
    }
  }

  /** `TeardownShrinks` for the sub-features `s.children[n..]`. */
  lemma {:induction false} TeardownChildrenShrink(s: Shape, n: nat, w: World)
    ensures TeardownChildren(s, n, w).0.features.Keys <= w.features.Keys
    ensures forall l :: l in TeardownChildren(s, n, w).0.handlers ==> l in w.handlers
    ensures TeardownChildren(s, n, w).0.items.items.Keys <= w.items.items.Keys
    ensures forall id :: id in TeardownChildren(s, n, w).0.bags.bags ==> id in w.bags.bags && TeardownChildren(s, n, w).0.bags.bags[id] == w.bags.bags[id]
    ensures forall id :: id in w.bags.bags && w.bags.bags[id] !in ChildBags(s, n) ==> id in TeardownChildren(s, n, w).0.bags.bags
    ensures TeardownChildren(s, n, w).0.configs == w.configs
    ensures w.calls <= TeardownChildren(s, n, w).0.calls
    decreases s, 0, |s.children| - n
  {
    if n < |s.children| {
      var c := s.children[n];
      TeardownShrinks(c, w);
      var (w1, o) := Teardown(c, w);
      if o.Pass? {
        TeardownChildrenShrink(s, n + 1, w1);
      }
    }
  }

  /** A successful teardown calls `onDisable` on every feature of the tree,
      parents before their sub-features, and leaves no feature of the tree in
      the map, none of its listeners registered, none of its items
      registered, and none of its bags registered under its id. */
  lemma {:induction false} TeardownEffect(s: Shape, w: World)
    requires Teardown(s, w).1.Pass?
    ensures Teardown(s, w).0.calls == w.calls + DisableTrace(s)
    ensures forall x :: x in Nodes(s) ==> x.id !in Teardown(s, w).0.features
    ensures forall l :: l in Listened(s) ==> l !in Teardown(s, w).0.handlers
    ensures forall it :: it in ItemsIn(s) ==> it.identifier !in Teardown(s, w).0.items.items
    ensures forall b :: b in BagsIn(s) && b.id in Teardown(s, w).0.bags.bags ==> Teardown(s, w).0.bags.bags[b.id] != b
    decreases s, 1
  {
    var w1 := w.(calls := w.calls + [Disable(s.feature)]);
    TeardownChildrenEffect(s, 0, w1);
    TeardownChildrenShrink(s, 0, w1);
    var w2 := TeardownChildren(s, 0, w1).0;
    var r := Release(s, w2);
    assert Teardown(s, w) == (r, Pass);
    forall x | x in Nodes(s)
      ensures x.id !in r.features
    {
      if x != s.feature {
        assert x in ChildNodes(s, 0);
      }
    }
    forall it | it in ItemsIn(s)
      ensures it.identifier !in r.items.items
    {
      if it !in ChildItems(s, 0) {
        var i :| 0 <= i < |s.items| && s.items[i] == it;
        assert it.identifier in Identifiers(s.items);
      }
    }
    forall b | b in BagsIn(s) && b.id in r.bags.bags
      ensures r.bags.bags[b.id] != b
    {
      if b !in ChildBags(s, 0) {
        var i :| 0 <= i < |s.bags| && s.bags[i] == b;
      }
    }
  }

  /** The sub-feature part of `TeardownEffect`. */
  lemma {:induction false} TeardownChildrenEffect(s: Shape, n: nat, w: World)
    requires TeardownChildren(s, n, w).1.Pass?
    ensures TeardownChildren(s, n, w).0.calls == w.calls + ChildDisableTraces(s, n)
    ensures forall x :: x in ChildNodes(s, n) ==> x.id !in TeardownChildren(s, n, w).0.features
    ensures forall l :: l in ChildListened(s, n) ==> l !in TeardownChildren(s, n, w).0.handlers
    ensures forall it :: it in ChildItems(s, n) ==> it.identifier !in TeardownChildren(s, n, w).0.items.items
    ensures forall b :: b in ChildBags(s, n) && b.id in TeardownChildren(s, n, w).0.bags.bags ==> TeardownChildren(s, n, w).0.bags.bags[b.id] != b
    decreases s, 0, |s.children| - n
  {
    if n < |s.children| {
      var c := s.children[n];
      TeardownEffect(c, w);
      var w1 := Teardown(c, w).0;
      assert TeardownChildren(s, n, w) == TeardownChildren(s, n + 1, w1);
      TeardownChildrenEffect(s, n + 1, w1);
      TeardownChildrenShrink(s, n + 1, w1);
      Regroup(w1.calls, w.calls, DisableTrace(c), ChildDisableTraces(s, n + 1));
      assert ChildNodes(s, n) == Nodes(c) + ChildNodes(s, n + 1);
      assert ChildListened(s, n) == Listened(c) + ChildListened(s, n + 1);
      assert ChildItems(s, n) == ItemsIn(c) + ChildItems(s, n + 1);
      assert ChildBags(s, n) == BagsIn(c) + ChildBags(s, n + 1);
    }
  }

  /** While the sub-features are registered again the feature map only
      grows, and on success every one of them is in the map and has had its
      `onLoad` called. */
  lemma {:induction false} ReregisterKeeps(s: Shape, n: nat, w: World, store: RecipeStore)
    ensures w.features.Keys <= Reregister(s, n, w, store).0.features.Keys
    ensures w.calls <= Reregister(s, n, w, store).0.calls
    ensures Reregister(s, n, w, store).1.Pass? ==>
      forall i :: n <= i < |s.children| ==>
        s.children[i].feature.id in Reregister(s, n, w, store).0.features && Load(s.children[i].feature) in Reregister(s, n, w, store).0.calls
    decreases |s.children| - n
  {
    if n < |s.children| {
      var c := s.children[n];
      CascadeGrows(c, None, w, store);
      var (w1, o) := Cascade(c, None, w, store);
      if o.Pass? {
        CascadeEffect(c, None, w, store);
        ReregisterKeeps(s, n + 1, w1, store);
        var r := Reregister(s, n, w, store).0;
        assert Load(c.feature) in w1.calls by {
          assert w1.calls[|w.calls|] == Load(c.feature);
        }
        assert w1.calls <= r.calls;
        assert Load(c.feature) in r.calls by {
          var k :| 0 <= k < |w1.calls| && w1.calls[k] == Load(c.feature);
          assert r.calls[k] == Load(c.feature);
        }
      }
    }
  }

  /** The defect of `unregisterFeatures` as written: after a successful run
      every sub-feature whose id differs from the feature's is still in the
      feature map, and its `onLoad` has been called again. */
  lemma TeardownAsWrittenKeepsChildren(s: Shape, w: World, store: RecipeStore, i: nat)
    requires i < |s.children| && s.children[i].feature.id != s.feature.id
    requires TeardownAsWritten(s, w, store).1.Pass?
    ensures s.children[i].feature.id in TeardownAsWritten(s, w, store).0.features
    ensures Load(s.children[i].feature) in TeardownAsWritten(s, w, store).0.calls
  {
    var w1 := w.(calls := w.calls + [Disable(s.feature)]);
    ReregisterKeeps(s, 0, w1, store);
  }

  /** What `enableFeatures` makes of a callback's exception: a
      `java.lang.Error` is caught and ends the loop, an `Exception`
      propagates. */
  function CaughtByEnable(c: Callback): (r: Outcome<Fault>)
  {
    if c == ThrowsException then Fail(CallbackException) else Pass
  }

  /** What `disableFeatures` makes of a callback's exception: an `Exception`
      is caught and ends the loop, a `java.lang.Error` propagates. */
  function CaughtByDisable(c: Callback): (r: Outcome<Fault>)
  {
    if c == ThrowsError then Fail(CallbackError) else Pass
  }

  /** The features of `features` in the order `order` lists their ids. */
  function InOrder(order: seq<string>, features: map<string, LightFeature>): (r: seq<LightFeature>)
    requires forall i :: 0 <= i < |order| ==> order[i] in features
    ensures |r| == |order| && forall i :: 0 <= i < |order| ==> r[i] == features[order[i]]
  {
    seq(|order|, i requires 0 <= i < |order| => features[order[i]])
  }

  /** The loop of `enableFeatures` over `fs`: `onLoad` then `onEnable` on
      each, until a callback throws. */
  function EnableRun(fs: seq<LightFeature>): (r: (seq<FeatureCall>, Outcome<Fault>))
    decreases |fs|
  {
    if fs == [] then ([], Pass)
    else
      var f := fs[0];
      if f.onLoad != Returns then ([Load(f)], CaughtByEnable(f.onLoad))
      else if f.onEnable != Returns then ([Load(f), Enable(f)], CaughtByEnable(f.onEnable))
      else
        var (rest, o) := EnableRun(fs[1..]);
        ([Load(f), Enable(f)] + rest, o)
  }

  /** One step of `EnableRun` from position `i`. */
  lemma EnableRunAt(fs: seq<LightFeature>, i: int)
    requires 0 <= i < |fs|
    ensures var f := fs[i];
      EnableRun(fs[i..]) ==
        if f.onLoad != Returns then ([Load(f)], CaughtByEnable(f.onLoad))
        else if f.onEnable != Returns then ([Load(f), Enable(f)], CaughtByEnable(f.onEnable))
        else ([Load(f), Enable(f)] + EnableRun(fs[i + 1..]).0, EnableRun(fs[i + 1..]).1)
  {
    assert fs[i..][0] == fs[i] && fs[i..][1..] == fs[i + 1..];
  }

  /** The loop of `disableFeatures` over `fs`: `onDisable` on each, until
      one throws. */
  function DisableRun(fs: seq<LightFeature>): (r: (seq<FeatureCall>, Outcome<Fault>))
    decreases |fs|
  {
    if fs == [] then ([], Pass)
    else
      var f := fs[0];
      if f.onDisable != Returns then ([Disable(f)], CaughtByDisable(f.onDisable))
      else
        var (rest, o) := DisableRun(fs[1..]);
        ([Disable(f)] + rest, o)
  }

  /** When every callback returns, `enableFeatures` calls `onLoad` and then
      `onEnable` on each feature in turn and returns normally. */
  lemma {:induction false} EnableRunAllReturn(fs: seq<LightFeature>)
    requires forall i :: 0 <= i < |fs| ==> fs[i].onLoad == Returns && fs[i].onEnable == Returns
    ensures EnableRun(fs).1 == Pass
    ensures |EnableRun(fs).0| == 2 * |fs|
    ensures forall k :: 0 <= k < |fs| ==> EnableRun(fs).0[2 * k] == Load(fs[k]) && EnableRun(fs).0[2 * k + 1] == Enable(fs[k])
    decreases |fs|
  {
    if fs != [] {
      EnableRunAllReturn(fs[1..]);
      var rest := EnableRun(fs[1..]).0;
      assert EnableRun(fs).0 == [Load(fs[0]), Enable(fs[0])] + rest;
      forall k | 1 <= k < |fs|
        ensures EnableRun(fs).0[2 * k] == Load(fs[k]) && EnableRun(fs).0[2 * k + 1] == Enable(fs[k])
      {
        assert fs[1..][k - 1] == fs[k];
        assert rest[2 * (k - 1)] == Load(fs[k]) && rest[2 * (k - 1) + 1] == Enable(fs[k]);
      }
    }
  }

  /** The first callback that throws ends `enableFeatures`: the features
      after it receive no call, and the run returns normally exactly when
      that callback threw a `java.lang.Error`. */
  lemma {:induction false} EnableRunStops(fs: seq<LightFeature>, k: nat)
    requires k < |fs|
    requires forall i :: 0 <= i < k ==> fs[i].onLoad == Returns && fs[i].onEnable == Returns
    requires fs[k].onLoad != Returns || fs[k].onEnable != Returns
    ensures EnableRun(fs) == EnableRun(fs[..k + 1])
    ensures EnableRun(fs).1.Pass? <==> (if fs[k].onLoad != Returns then fs[k].onLoad else fs[k].onEnable) == ThrowsError
    ensures EnableRun(fs).1.Fail? ==> EnableRun(fs).1 == Fail(CallbackException)
    decreases k
  {
    if k > 0 {
      EnableRunStops(fs[1..], k - 1);
      assert fs[..k + 1][1..] == fs[1..][..k];
    }
  }

  /** When every `onDisable` returns, `disableFeatures` calls it on each
      feature in turn and returns normally. */
  lemma {:induction false} DisableRunAllReturn(fs: seq<LightFeature>)
    requires forall i :: 0 <= i < |fs| ==> fs[i].onDisable == Returns
    ensures DisableRun(fs).1 == Pass
    ensures |DisableRun(fs).0| == |fs|
    ensures forall k :: 0 <= k < |fs| ==> DisableRun(fs).0[k] == Disable(fs[k])
    decreases |fs|
  {
    if fs != [] {
      DisableRunAllReturn(fs[1..]);
      var rest := DisableRun(fs[1..]).0;
      forall k | 1 <= k < |fs|
        ensures DisableRun(fs).0[k] == Disable(fs[k])
      {
        assert fs[1..][k - 1] == fs[k];
      }
    }
  }

  /** The first `onDisable` that throws ends `disableFeatures`: the features
      after it receive no call, and the run returns normally exactly when it
      threw an `Exception`. */
  lemma {:induction false} DisableRunStops(fs: seq<LightFeature>, k: nat)
    requires k < |fs|
    requires forall i :: 0 <= i < k ==> fs[i].onDisable == Returns
    requires fs[k].onDisable != Returns
    ensures DisableRun(fs) == DisableRun(fs[..k + 1])
    ensures DisableRun(fs).1.Pass? <==> fs[k].onDisable == ThrowsException
    ensures DisableRun(fs).1.Fail? ==> DisableRun(fs).1 == Fail(CallbackError)
    decreases k
  {
    if k > 0 {
      DisableRunStops(fs[1..], k - 1);
      assert fs[..k + 1][1..] == fs[1..][..k];
    }
  }

  /** The configuration field of each feature of `scope`. */
  function Configs(scope: set<LightFeature>): (r: map<LightFeature, Option<FeatureConfig>>)
    reads scope`featureConfig
    ensures r.Keys == scope
    ensures forall f :: f in scope ==> r[f] == f.featureConfig
  {
    map f | f in scope :: f.featureConfig
  }

  /** `Configs(scope)` after the configuration of `f` alone was set, given
      the map as it was before. */
  lemma ConfigsSet(scope: set<LightFeature>, f: LightFeature, before: map<LightFeature, Option<FeatureConfig>>)
    requires f in scope && before.Keys == scope
    requires forall g :: g in scope && g != f ==> before[g] == g.featureConfig
    ensures Configs(scope) == before[f := f.featureConfig]
  {
  }

  /** The registry of features. */
  class FeatureManager {
    var features: map<string, LightFeature>
    /** The `onLoad`/`onEnable`/`onDisable` calls made so far. */
    var calls: seq<FeatureCall>
    const itemManager: ItemManager
    const bagManager: BagManager
    const server: Server

    /** The registries the manager drives are sound and the item registry
        uses the same server. */
    predicate Valid()
      reads itemManager, itemManager.lightItems.Values, bagManager
    {
      itemManager.Valid() && bagManager.Valid() && itemManager.server == server
    }

    /** The state registration changes, with the configuration of the
        features in `scope`. */
    function WorldOf(scope: set<LightFeature>): World
      reads this, itemManager, server, bagManager, scope`featureConfig
    {
      World(ItemState(itemManager.lightItems, server.recipes), bagManager.State(), server.handlers,
            features, calls, Configs(scope))
    }

    /** `new FeatureManager(plugin)`: no feature registered. */
    constructor(itemManager: ItemManager, bagManager: BagManager, server: Server)
      ensures features == map[] && calls == []
      ensures this.itemManager == itemManager && this.bagManager == bagManager && this.server == server
    {
      features := map[];
      calls := [];
      this.itemManager := itemManager;
      this.bagManager := bagManager;
      this.server := server;
    }

    /** `registerFeatures(feature, plugin)`: registration as a root, with no
        parent. */
    method RegisterFeatures(feature: LightFeature, ghost shape: Shape, ghost scope: set<LightFeature>) returns (r: Outcome<Fault>)
      requires Valid()
      requires shape.feature == feature && Matches(shape) && Nodes(shape) <= scope
      modifies this, itemManager, server, bagManager, ItemsIn(shape), Nodes(shape)`featureConfig
      ensures Valid()
      ensures (WorldOf(scope), r) == Cascade(shape, None, old(WorldOf(scope)), itemManager.store)
    {
      r := RegisterFeaturesUnder(feature, None, shape, scope);
    }

    /** `registerFeatures(feature, parent, plugin)`. */
    method RegisterFeaturesUnder(feature: LightFeature, parent: Option<LightFeature>, ghost shape: Shape, ghost scope: set<LightFeature>)
      returns (r: Outcome<Fault>)
      requires Valid()
      requires shape.feature == feature && Matches(shape) && Nodes(shape) <= scope
      requires parent.Some? ==> parent.value in scope
      modifies this, itemManager, server, bagManager, ItemsIn(shape), Nodes(shape)`featureConfig
      ensures Valid()
      ensures (WorldOf(scope), r) == Cascade(shape, parent, old(WorldOf(scope)), itemManager.store)
      decreases shape
    {
      ghost var w0 := WorldOf(scope);
      if parent.Some? && parent.value.kind == feature.kind {
        return Fail(FeatureSelfNesting);
      }
      r := StartFeature(feature, parent, scope);
      if r.Fail? {
        return;
      }
      MatchesKept(shape);
      assert Cascade(shape, parent, w0, itemManager.store) == Grow(shape, WorldOf(scope), itemManager.store);
      r := RegisterTree(feature, shape, scope);
    }

    /** The configuration and the `onLoad` and `onEnable` calls of
        `registerFeatures`. */
    method StartFeature(feature: LightFeature, parent: Option<LightFeature>, ghost scope: set<LightFeature>) returns (r: Outcome<Fault>)
      requires feature in scope && (parent.Some? ==> parent.value in scope)
      modifies this, feature`featureConfig
      ensures (WorldOf(scope), r) == Start(feature, parent, old(WorldOf(scope)))
    {
      ghost var w0 := WorldOf(scope);
      var config := if parent.None? then RootConfig(feature) else FeatureConfig(feature, parent.value.featureConfig);
      feature.featureConfig := Some(config);
      ConfigsSet(scope, feature, w0.configs);
      calls := calls + [Load(feature)];
      assert WorldOf(scope) == w0.(configs := w0.configs[feature := Some(NewConfig(feature, parent, w0.configs))], calls := w0.calls + [Load(feature)]);
      if feature.onLoad != Returns {
        return Raised(feature.onLoad);
      }
      calls := calls + [Enable(feature)];
      assert calls == w0.calls + [Load(feature), Enable(feature)];
      assert WorldOf(scope) == Start(feature, parent, w0).0;
      r := Raised(feature.onEnable);
    }

    /** `registerFeatures` after `onEnable`: the sub-features, then the
        feature's own resources. */
    method RegisterTree(feature: LightFeature, ghost shape: Shape, ghost scope: set<LightFeature>) returns (r: Outcome<Fault>)
      requires Valid()
      requires shape.feature == feature && Matches(shape) && Nodes(shape) <= scope
      modifies this, itemManager, server, bagManager, ItemsIn(shape), Nodes(shape)`featureConfig
      ensures Valid()
      ensures (WorldOf(scope), r) == Grow(shape, old(WorldOf(scope)), itemManager.store)
      decreases shape, 2
    {
      ghost var w0 := WorldOf(scope);
      r := RegisterSubFeatures(feature, shape, scope);
      ghost var w1 := WorldOf(scope);
      if r.Fail? {
        assert Grow(shape, w0, itemManager.store) == (w1, r);
        return;
      }
      assert Grow(shape, w0, itemManager.store) == Resources(shape, w1, itemManager.store);
      r := RegisterResources(feature, shape, scope);
    }

    /** The sub-feature loop of `registerFeatures`. */
    method RegisterSubFeatures(feature: LightFeature, ghost shape: Shape, ghost scope: set<LightFeature>) returns (r: Outcome<Fault>)
      requires Valid()
      requires shape.feature == feature && Matches(shape) && Nodes(shape) <= scope
      modifies this, itemManager, server, bagManager, ItemsIn(shape), Nodes(shape)`featureConfig
      ensures Valid() && Matches(shape)
      ensures (WorldOf(scope), r) == Children(shape, 0, old(WorldOf(scope)), itemManager.store)
      decreases shape, 1
    {
      ghost var w0 := WorldOf(scope);
      for i := 0 to |feature.subFeatures|
        invariant Valid() && Matches(shape)
        invariant Children(shape, 0, w0, itemManager.store) == Children(shape, i, WorldOf(scope), itemManager.store)
      {
        ghost var before := WorldOf(scope);
        r := RegisterChild(feature, i, shape, scope);
        if r.Fail? {
          return;
        }
        assert Children(shape, i, before, itemManager.store) == Children(shape, i + 1, WorldOf(scope), itemManager.store);
      }
      return Pass;
    }

    /** One turn of the sub-feature loop: the `i`th sub-feature registered
        with `feature` as its parent. */
    method RegisterChild(feature: LightFeature, i: nat, ghost shape: Shape, ghost scope: set<LightFeature>) returns (r: Outcome<Fault>)
      requires Valid()
      requires shape.feature == feature && Matches(shape) && Nodes(shape) <= scope
      requires i < |shape.children|
      modifies this, itemManager, server, bagManager, ItemsIn(shape), Nodes(shape)`featureConfig
      ensures Valid() && Matches(shape)
      ensures (WorldOf(scope), r) == Cascade(shape.children[i], Some(feature), old(WorldOf(scope)), itemManager.store)
      decreases shape, 0
    {
      var child := shape.children[i];
      assert Matches(child) && Nodes(child) <= Nodes(shape) && ItemsIn(child) <= ItemsIn(shape);
      r := RegisterFeaturesUnder(feature.subFeatures[i], Some(feature), child, scope);
      MatchesKept(shape);
    }

    /** The item, bag and listener loops of `registerFeatures`, then
        `features.put`. */
    method RegisterResources(feature: LightFeature, ghost shape: Shape, ghost scope: set<LightFeature>) returns (r: Outcome<Fault>)
      requires Valid()
      requires shape.feature == feature && Matches(shape)
      modifies this, itemManager, server, bagManager, ItemsIn(shape)
      ensures Valid()
      ensures (WorldOf(scope), r) == Resources(shape, old(WorldOf(scope)), itemManager.store)
    {
      ghost var w0 := WorldOf(scope);
      r := RegisterItemsOf(feature, shape);
      assert WorldOf(scope) == w0.(items := itemManager.State());
      if r.Fail? {
        return;
      }
      r := AttachResources(feature, shape, scope);
    }

    /** The bag and listener loops of `registerFeatures`, then
        `features.put`. */
    method AttachResources(feature: LightFeature, ghost shape: Shape, ghost scope: set<LightFeature>) returns (r: Outcome<Fault>)
      requires Valid()
      requires shape.feature == feature && feature.bagsList == shape.bags && feature.eventsList == shape.listeners
      modifies this, server, bagManager
      ensures Valid()
      ensures (WorldOf(scope), r) == Attach(shape, old(WorldOf(scope)))
    {
      ghost var w0 := WorldOf(scope);
      r := RegisterBagsOf(feature, shape);
      assert WorldOf(scope) == w0.(bags := bagManager.State());
      if r.Fail? {
        return;
      }
      RegisterListenersOf(feature, shape);
      features := features[feature.id := feature];
      assert WorldOf(scope) == w0.(bags := bagManager.State(), handlers := w0.handlers + shape.listeners,
                                   features := w0.features[feature.id := feature]);
    }

    /** `registerItems` for every item of the feature, in list order. */
    method RegisterItemsOf(feature: LightFeature, ghost shape: Shape) returns (r: Outcome<Fault>)
      requires Valid()
      requires feature.itemsList == shape.items
      modifies itemManager, server, ItemsIn(shape)
      ensures Valid()
      ensures (itemManager.State(), r) == RegisterEach(shape.items, old(itemManager.State()), itemManager.store)
      ensures server.handlers == old(server.handlers)
    {
      ghost var s0 := itemManager.State();
      for i := 0 to |feature.itemsList|
        invariant Valid() && server.handlers == old(server.handlers)
        invariant RegisterEach(shape.items, s0, itemManager.store) == RegisterEach(shape.items[i..], itemManager.State(), itemManager.store)
      {
        r := itemManager.RegisterItems(feature.itemsList[i]);
        if r.Fail? {
          return;
        }
        assert shape.items[i..][1..] == shape.items[i + 1..];
      }
      assert shape.items[|shape.items|..] == [];
      return Pass;
    }

    /** `registerBags` for every bag of the feature, in list order. */
    method RegisterBagsOf(feature: LightFeature, ghost shape: Shape) returns (r: Outcome<Fault>)
      requires Valid()
      requires feature.bagsList == shape.bags
      modifies bagManager
      ensures Valid()
      ensures (bagManager.State(), r) == EnableEach(shape.bags, old(bagManager.State()))
    {
      ghost var s0 := bagManager.State();
      for i := 0 to |feature.bagsList|
        invariant Valid()
        invariant EnableEach(shape.bags, s0) == EnableEach(shape.bags[i..], bagManager.State())
      {
        r := bagManager.RegisterBags(feature.bagsList[i]);
        if r.Fail? {
          return;
        }
        assert shape.bags[i..][1..] == shape.bags[i + 1..];
      }
      assert shape.bags[|shape.bags|..] == [];
      return Pass;
    }

    /** `registerEvents` for every listener of the feature, in list order. */
    method RegisterListenersOf(feature: LightFeature, ghost shape: Shape)
      requires Valid()
      requires feature.eventsList == shape.listeners
      modifies server
      ensures Valid()
      ensures server.handlers == old(server.handlers) + shape.listeners && server.recipes == old(server.recipes)
    {
      for i := 0 to |feature.eventsList|
        invariant Valid()
        invariant server.handlers == old(server.handlers) + feature.eventsList[..i] && server.recipes == old(server.recipes)
      {
        server.RegisterEvents(feature.eventsList[i]);
        assert feature.eventsList[..i + 1] == feature.eventsList[..i] + [feature.eventsList[i]];
      }
      assert feature.eventsList[..|feature.eventsList|] == shape.listeners;
    }
    /** `unregisterFeatures(feature, plugin)`, with the sub-features
        unregistered (see `TeardownAsWritten` for the loop as written).
        Tearing down touches no configuration, so the world is stated with
        none in view; `scope` holds the features of the tree. */
    method UnregisterFeatures(feature: LightFeature, ghost shape: Shape, ghost scope: set<LightFeature>) returns (r: Outcome<Fault>)
      requires Valid()
      requires shape.feature == feature && Matches(shape) && Nodes(shape) <= scope
      modifies this, itemManager, server, bagManager
      ensures Valid()
      ensures (WorldOf({}), r) == Teardown(shape, old(WorldOf({})))
      decreases shape, 2
    {
      ghost var w0 := WorldOf({});
      calls := calls + [Disable(feature)];
      if feature.onDisable != Returns {
        return Raised(feature.onDisable);
      }
      r := UnregisterSubFeatures(feature, shape, scope);
      if r.Fail? {
        return;
      }
      assert Teardown(shape, w0) == (Release(shape, WorldOf({})), Pass);
      ReleaseFeature(feature, shape);
    }

    /** `unregisterSubFeatures`: every sub-feature unregistered, in list
        order. */
    method UnregisterSubFeatures(feature: LightFeature, ghost shape: Shape, ghost scope: set<LightFeature>) returns (r: Outcome<Fault>)
      requires Valid()
      requires shape.feature == feature && Matches(shape) && Nodes(shape) <= scope
      modifies this, itemManager, server, bagManager
      ensures Valid()
      ensures (WorldOf({}), r) == TeardownChildren(shape, 0, old(WorldOf({})))
      decreases shape, 1
    {
      ghost var w0 := WorldOf({});
      var i := 0;
      while i < |feature.subFeatures|
        invariant 0 <= i <= |shape.children|
        invariant Valid() && Matches(shape)
        invariant TeardownChildren(shape, 0, w0) == TeardownChildren(shape, i, WorldOf({}))
      {
        ghost var before := WorldOf({});
        r := UnregisterChild(feature, i, shape, scope);
        if r.Fail? {
          return;
        }
        assert TeardownChildren(shape, i, before) == TeardownChildren(shape, i + 1, WorldOf({}));
        i := i + 1;
      }
      return Pass;
    }

    /** One turn of the sub-feature loop of `unregisterSubFeatures`. */
    method UnregisterChild(feature: LightFeature, i: nat, ghost shape: Shape, ghost scope: set<LightFeature>) returns (r: Outcome<Fault>)
      requires Valid()
      requires shape.feature == feature && Matches(shape) && Nodes(shape) <= scope
      requires i < |shape.children|
      modifies this, itemManager, server, bagManager
      ensures Valid() && Matches(shape)
      ensures (WorldOf({}), r) == Teardown(shape.children[i], old(WorldOf({})))
      decreases shape, 0
    {
      assert Nodes(shape.children[i]) <= Nodes(shape);
      r := UnregisterFeatures(feature.subFeatures[i], shape.children[i], scope);
      MatchesKept(shape);
    }

    /** `unregisterItems`, `unregisterEvents`, `unregisterBags`, then
        `features.remove(id)`. */
    method ReleaseFeature(feature: LightFeature, ghost shape: Shape)
      requires Valid()
      requires shape.feature == feature && feature.itemsList == shape.items
      requires feature.eventsList == shape.listeners && feature.bagsList == shape.bags
      modifies this, itemManager, server, bagManager
      ensures Valid()
      ensures WorldOf({}) == Release(shape, old(WorldOf({})))
    {
      feature.UnregisterItems(itemManager);
      feature.UnregisterEvents(server);
      feature.UnregisterBags(bagManager);
      features := features - {feature.id};
    }

    /** `getFeature(id)`: the feature registered under `id`, or null. */
    method GetFeature(id: string) returns (r: Option<LightFeature>)
      ensures r.Some? <==> id in features
      ensures r.Some? ==> r.value == features[id] && r.value in features.Values
    {
      if id in features {
        return Some(features[id]);
      }
      return None;
    }

    /** `enableFeatures()`: `onLoad` and `onEnable` on every registered
        feature, in the map's iteration order; a `java.lang.Error` ends the
        loop and is swallowed, an `Exception` propagates. */
    method EnableFeatures() returns (r: Outcome<Fault>)
      modifies this`calls
      ensures exists order ::
        && Enumerates(order, features.Keys)
        && calls == old(calls) + EnableRun(InOrder(order, features)).0
        && r == EnableRun(InOrder(order, features)).1
    {
      var order := Enumerate(features.Keys);
      EnumeratedKeys(order, features.Keys);
      var fs := InOrder(order, features);
      r := LoadAndEnable(fs);
      assert fs == InOrder(order, features);
      assert calls == old(calls) + EnableRun(fs).0 && r == EnableRun(fs).1;
    }

    /** The loop of `enableFeatures` over the features `fs`. */
    method LoadAndEnable(fs: seq<LightFeature>) returns (r: Outcome<Fault>)
      modifies this`calls
      ensures calls == old(calls) + EnableRun(fs).0 && r == EnableRun(fs).1
    {
      ghost var done: seq<FeatureCall> := [];
      assert fs[0..] == fs;
      for i := 0 to |fs|
        invariant calls == old(calls) + done
        invariant EnableRun(fs).0 == done + EnableRun(fs[i..]).0 && EnableRun(fs).1 == EnableRun(fs[i..]).1
      {
        var f := fs[i];
        EnableRunAt(fs, i);
        calls := calls + [Load(f)];
        if f.onLoad != Returns {
          return CaughtByEnable(f.onLoad);
        }
        calls := calls + [Enable(f)];
        if f.onEnable != Returns {
          return CaughtByEnable(f.onEnable);
        }
        done := done + [Load(f), Enable(f)];
      }
      assert fs[|fs|..] == [];
      return Pass;
    }

    /** `disableFeatures()`: `onDisable` on every registered feature, in the
        map's iteration order; an `Exception` ends the loop and is swallowed,
        a `java.lang.Error` propagates. */
    method DisableFeatures() returns (r: Outcome<Fault>)
      modifies this`calls
      ensures exists order ::
        && Enumerates(order, features.Keys)
        && calls == old(calls) + DisableRun(InOrder(order, features)).0
        && r == DisableRun(InOrder(order, features)).1
    {
      var order := Enumerate(features.Keys);
      EnumeratedKeys(order, features.Keys);
      var fs := InOrder(order, features);
      r := DisableAll(fs);
      assert fs == InOrder(order, features);
      assert calls == old(calls) + DisableRun(fs).0 && r == DisableRun(fs).1;
    }

    /** The loop of `disableFeatures` over the features `fs`. */
    method DisableAll(fs: seq<LightFeature>) returns (r: Outcome<Fault>)
      modifies this`calls
      ensures calls == old(calls) + DisableRun(fs).0 && r == DisableRun(fs).1
    {
      ghost var done: seq<FeatureCall> := [];
      assert fs[0..] == fs;
      for i := 0 to |fs|
        invariant calls == old(calls) + done
        invariant DisableRun(fs).0 == done + DisableRun(fs[i..]).0 && DisableRun(fs).1 == DisableRun(fs[i..]).1
      {
        var f := fs[i];
        assert fs[i..][0] == f && fs[i..][1..] == fs[i + 1..];
        calls := calls + [Disable(f)];
        if f.onDisable != Returns {
          return CaughtByDisable(f.onDisable);
        }
        done := done + [Disable(f)];
      }
      assert fs[|fs|..] == [];
      return Pass;
    }

    /** `registerFeatureEvents(listener, feature)`: the listener is appended
        to the feature's list. */
    method RegisterFeatureEvents(listener: Listener, feature: LightFeature)
      modifies feature`eventsList
      ensures feature.eventsList == old(feature.eventsList) + [listener]
    {
      feature.eventsList := feature.eventsList + [listener];
    }

    /** `registerFeatureBags(bag, feature)`. */
    method RegisterFeatureBags(bag: Bag, feature: LightFeature)
      modifies feature`bagsList
      ensures feature.bagsList == old(feature.bagsList) + [bag]
    {
      feature.bagsList := feature.bagsList + [bag];
    }

    /** `registerFeatureItems(item, feature)`. */
    method RegisterFeatureItems(item: LightItem, feature: LightFeature)
      modifies feature`itemsList
      ensures feature.itemsList == old(feature.itemsList) + [item]
    {
      feature.itemsList := feature.itemsList + [item];
    }

    /** `registerFeatureSubFeatures(subFeature, feature)`. */
    method RegisterFeatureSubFeatures(subFeature: LightFeature, feature: LightFeature)
      modifies feature`subFeatures
      ensures feature.subFeatures == old(feature.subFeatures) + [subFeature]
    {
      feature.subFeatures := feature.subFeatures + [subFeature];
    }
  }
}
