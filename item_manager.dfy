/** `ItemManager`: the registry of custom items, keyed by identifier, and the
    lookups that recognise a stack as one of them. */
module ItemRegistry {
  import opened Common
  import opened Inventory
  import opened Recipes
  import opened Host
  import opened Items

  /** `clean(stack)`: the stack without its persistent-data tags and its lore. */
  function Cleaned(stack: ItemStack): (r: ItemStack)
    ensures r.lore == None && r.tags == map[]
    ensures r.material == stack.material && r.amount == stack.amount
    ensures r.displayName == stack.displayName && r.modelData == stack.modelData
  {
    stack.(lore := None, tags := map[])
  }

  /** Cleaning twice is cleaning once. */
  lemma CleanedIdempotent(stack: ItemStack)
    ensures Cleaned(Cleaned(stack)) == Cleaned(stack)
  {
  }

  /** Stacks that differ only in lore and tags clean to the same stack. */
  lemma CleanedIgnoresDecoration(a: ItemStack, b: ItemStack)
    requires a.(lore := b.lore, tags := b.tags) == b
    ensures Cleaned(a) == Cleaned(b)
  {
  }

  /** Cleaned stacks are similar exactly when material, display name and
      model data agree. */
  lemma SimilarCleaned(a: ItemStack, b: ItemStack)
    ensures Similar(Cleaned(a), Cleaned(b))
        <==> a.material == b.material && a.displayName == b.displayName && a.modelData == b.modelData
  {
  }

  /** The registry and the server's recipe book, the state item
      registration changes. */
  datatype ItemState = ItemState(items: map<string, LightItem>, recipes: map<NamespacedKey, ShapedRecipe>)

  /** `Server.addRecipe` on the recipe book: a recipe whose key is taken is ignored. */
  function AddRecipe(recipes: map<NamespacedKey, ShapedRecipe>, recipe: ShapedRecipe): (r: map<NamespacedKey, ShapedRecipe>)
    ensures recipe.key in r
    ensures recipe.key in recipes ==> r == recipes
    ensures recipe.key !in recipes ==> r == recipes[recipe.key := recipe]
  {
    if recipe.key in recipes then recipes else recipes[recipe.key := recipe]
  }

  /** `registerItems(item)` given what loading the item's recipe answers: a
      taken identifier is refused; `init` may fail (an invalid key, an AIR
      material); a craftable item's recipe goes to the server next (an
      exception while loading it stops the registration); then the item is
      stored under its identifier. */
  function RegisterItemSpec(item: LightItem, s: ItemState, loaded: Result<Option<Decoded>, Fault>): (r: (ItemState, Outcome<Fault>))
    ensures item.identifier in s.items ==> r == (s, Fail(DuplicateIdentifier))
    ensures item.identifier !in s.items && item.InitOutcome().Fail? ==> r == (s, item.InitOutcome())
    ensures r.1.Fail? ==> r.0 == s
    ensures r.1.Pass? <==>
      && item.identifier !in s.items
      && item.InitOutcome().Pass?
      && (item.IsCraftable() ==> item.ChooseRecipe(loaded, Some(item.Template())).Success?)
    ensures r.1.Pass? ==>
      && r.0.items == s.items[item.identifier := item]
      && (!item.IsCraftable() ==> r.0.recipes == s.recipes)
    ensures r.1.Pass? && item.IsCraftable() ==>
      exists recipe :: item.ChooseRecipe(loaded, Some(item.Template())) == Success(Some(recipe))
        && r.0.recipes == AddRecipe(s.recipes, recipe)
  {
    if item.identifier in s.items then (s, Fail(DuplicateIdentifier))
    else if item.InitOutcome().Fail? then (s, item.InitOutcome())
    else if !item.IsCraftable() then (s.(items := s.items[item.identifier := item]), Pass)
    else match item.ChooseRecipe(loaded, Some(item.Template()))
      case Failure(e) => (s, Fail(e))
      case Success(None) => assert false; (s, Fail(NullPointer))
      case Success(Some(recipe)) =>
        (ItemState(s.items[item.identifier := item], AddRecipe(s.recipes, recipe)), Pass)
  }

  /** `unregisterItems(item)`: an identifier that is not registered changes
      nothing; otherwise a craftable item's recipe leaves the server and the
      identifier leaves the registry. */
  function UnregisterItemSpec(item: LightItem, s: ItemState): (r: ItemState)
    ensures r.items == s.items - {item.identifier}
    ensures item.identifier !in s.items ==> r == s
    ensures item.identifier in s.items ==>
      r.recipes == if item.IsCraftable() then s.recipes - {item.Key()} else s.recipes
  {
    if item.identifier !in s.items then s
    else ItemState(s.items - {item.identifier}, if item.IsCraftable() then s.recipes - {item.Key()} else s.recipes)
  }

  /** The recipe keys of the craftable items registered under `ids`. */
  function RecipeKeys(items: map<string, LightItem>, ids: set<string>): (r: set<NamespacedKey>)
    ensures forall id :: id in ids && id in items && items[id].IsCraftable() ==> items[id].Key() in r
  {
    set id | id in ids && id in items && items[id].IsCraftable() :: items[id].Key()
  }

  /** One more identifier adds its item's recipe key when the item is craftable. */
  lemma RecipeKeysAdd(items: map<string, LightItem>, ids: set<string>, id: string)
    requires id in items
    ensures RecipeKeys(items, ids + {id}) == RecipeKeys(items, ids) + (if items[id].IsCraftable() then {items[id].Key()} else {})
  {
  }

  /** `dispose()` as written: it walks `lightItems.keySet()` in iteration
      order `order` while `unregisterItems` removes from the same map. The
      first item is unregistered; the fail-fast iterator then throws when
      another key is left. */
  function DisposeAsWritten(order: seq<string>, s: ItemState): (r: (ItemState, Outcome<Fault>))
    requires forall i :: 0 <= i < |order| ==> order[i] in s.items
  {
    if order == [] then (s, Pass)
    else (UnregisterItemSpec(s.items[order[0]], s), if |order| > 1 then Fail(ConcurrentModification) else Pass)
  }

  /** The defect of `dispose()` as written: with two or more items registered
      it throws, and every item but one is still registered. */
  lemma DisposeAsWrittenStops(order: seq<string>, s: ItemState)
    requires Enumerates(order, s.items.Keys) && |s.items| >= 2
    requires forall id :: id in s.items ==> s.items[id].identifier == id
    ensures DisposeAsWritten(order, s).1 == Fail(ConcurrentModification)
    ensures DisposeAsWritten(order, s).0.items == s.items - {order[0]}
    ensures |DisposeAsWritten(order, s).0.items| == |s.items| - 1
  {
    assert order[0] in s.items;
  }

  /** Unregistering twice is unregistering once. */
  lemma UnregisterIdempotent(item: LightItem, s: ItemState)
    ensures UnregisterItemSpec(item, UnregisterItemSpec(item, s)) == UnregisterItemSpec(item, s)
  {
  }

  /** The registry of custom items. */
  class ItemManager {
    var lightItems: map<string, LightItem>
    const server: Server
    const store: RecipeStore
    const craftListener: Listener

    /** Every item is stored under its own identifier and has been
        initialised successfully, so its key is assigned. */
    predicate Valid()
      reads this, lightItems.Values
    {
      forall id :: id in lightItems ==>
        && lightItems[id].identifier == id && lightItems[id].InitOutcome().Pass?
        && lightItems[id].Initialized() && lightItems[id].keyed
    }

    /** The registry and the recipe book as one value. */
    function State(): ItemState
      reads this, server
    {
      ItemState(lightItems, server.recipes)
    }

    /** `new ItemManager(plugin)`: an empty registry; the crafting permission
        listener is registered with the server. */
    constructor(server: Server, store: RecipeStore)
      modifies server
      ensures Valid() && lightItems == map[]
      ensures this.server == server && this.store == store
      ensures server.handlers == old(server.handlers) + [craftListener]
      ensures server.recipes == old(server.recipes)
    {
      lightItems := map[];
      this.server := server;
      this.store := store;
      var l := new Listener("CustomRecipesListener");
      craftListener := l;
      new;
      server.RegisterEvents(l);
    }

    /** `registerItems(item, plugin)`. */
    method RegisterItems(lightItem: LightItem) returns (r: Outcome<Fault>)
      requires Valid()
      modifies this, lightItem, server
      ensures Valid()
      ensures (State(), r) == RegisterItemSpec(lightItem, old(State()), store.Lookup(lightItem.name))
      ensures lightItem.identifier in old(lightItems) ==> lightItem.item == old(lightItem.item)
      ensures lightItem.identifier !in old(lightItems) && lightItem.InitOutcome().Pass? ==> lightItem.Initialized()
      ensures server.handlers == old(server.handlers)
    {
      if lightItem.identifier in lightItems {
        return Fail(DuplicateIdentifier);
      }
      assert forall id :: id in lightItems ==> lightItems[id] != lightItem;
      var init := lightItem.Init();
      if init.Fail? {
        return init;
      }
      if lightItem.IsCraftable() {
        var recipe := lightItem.GetShapedRecipe(store);
        match recipe {
          case Failure(e) =>
            return Fail(e);
          case Success(None) =>
            return Fail(NullPointer);
          case Success(Some(rec)) =>
            var _ := server.AddRecipe(rec);
        }
      }
      lightItems := lightItems[lightItem.identifier := lightItem];
      return Pass;
    }

    /** `unregisterItems(item, plugin)`. */
    method UnregisterItems(lightItem: LightItem)
      requires Valid()
      modifies this, server
      ensures Valid()
      ensures State() == UnregisterItemSpec(lightItem, old(State()))
      ensures server.handlers == old(server.handlers)
    {
      if lightItem.identifier !in lightItems {
        return;
      }
      if lightItem.IsCraftable() {
        var _ := server.RemoveRecipe(lightItem.Key());
      }
      lightItems := lightItems - {lightItem.identifier};
    }

    /** `dispose()`, walking a snapshot of the identifiers so that removing
        entries cannot disturb the walk (see `DisposeAsWritten` for the loop
        as written): every item is unregistered and its recipe removed. */
    method Dispose()
      requires Valid()
      modifies this, server
      ensures Valid() && lightItems == map[]
      ensures server.recipes == old(server.recipes) - RecipeKeys(old(lightItems), old(lightItems).Keys)
      ensures server.handlers == old(server.handlers)
    {
      ghost var all := lightItems;
      var keys := lightItems.Keys;
      while keys != {}
        invariant Valid()
        invariant keys <= all.Keys && lightItems == all - (all.Keys - keys)
        invariant server.recipes == old(server.recipes) - RecipeKeys(all, all.Keys - keys)
        invariant server.handlers == old(server.handlers)
        decreases keys
      {
        var id :| id in keys;
        ghost var gone := all.Keys - keys;
        DisposeOne(id, all, gone, old(server.recipes));
        keys := keys - {id};
        assert all.Keys - keys == gone + {id};
      }
      assert all.Keys - keys == all.Keys;
      assert lightItems.Keys == {};
    }

    /** One turn of the `dispose()` walk: the item registered under `id`,
        one of the identifiers not yet walked, is unregistered. */
    method DisposeOne(id: string, ghost all: map<string, LightItem>, ghost gone: set<string>, ghost recipes: map<NamespacedKey, ShapedRecipe>)
      requires Valid() && id in all && id !in gone
      requires lightItems == all - gone && server.recipes == recipes - RecipeKeys(all, gone)
      modifies this, server
      ensures Valid() && lightItems == all - (gone + {id})
      ensures server.recipes == recipes - RecipeKeys(all, gone + {id})
      ensures server.handlers == old(server.handlers)
    {
      UnregisterItems(lightItems[id]);
      RecipeKeysAdd(all, gone, id);
      MapMinusStep(all, gone, id);
    }

    /** `get(identifier)`: the registered item with that identifier, by a walk
        over the registered items. */
    method GetById(identifier: string) returns (r: Option<LightItem>)
      requires Valid()
      ensures r == if identifier in lightItems then Some(lightItems[identifier]) else None
    {
      var pending := lightItems.Keys;
      while pending != {}
        invariant pending <= lightItems.Keys
        invariant identifier in lightItems ==> identifier in pending
        decreases pending
      {
        var k :| k in pending;
        if lightItems[k].identifier == identifier {
          return Some(lightItems[k]);
        }
        pending := pending - {k};
      }
      return None;
    }

    /** `get(itemClass)`: some registered item of that runtime class. */
    method GetByKind(kind: string) returns (r: Option<LightItem>)
      ensures r.Some? ==> r.value in lightItems.Values && r.value.kind == kind
      ensures r.None? ==> forall id :: id in lightItems ==> lightItems[id].kind != kind
    {
      var pending := lightItems.Keys;
      while pending != {}
        invariant pending <= lightItems.Keys
        invariant forall id :: id in lightItems && id !in pending ==> lightItems[id].kind != kind
        decreases pending
      {
        var k :| k in pending;
        if lightItems[k].kind == kind {
          return Some(lightItems[k]);
        }
        pending := pending - {k};
      }
      return None;
    }

    /** Some registered item's cleaned template is similar to the cleaned `stack`. */
    predicate Recognises(stack: ItemStack)
      reads this
    {
      exists id :: id in lightItems && Similar(Cleaned(stack), Cleaned(lightItems[id].Template()))
    }

    /** `clean(stack)`, as the loop over the tag keys that removes them one
        by one. An AIR stack has no metadata, so the loop meets a null
        pointer. */
    method Clean(stack: ItemStack) returns (r: Result<ItemStack, Fault>)
      ensures stack.material == Air ==> r == Failure(NullPointer)
      ensures stack.material != Air ==> r == Success(Cleaned(stack))
    {
      if stack.material == Air {
        return Failure(NullPointer);
      }
      var cleaned := stack;
      var keys := stack.tags.Keys;
      while keys != {}
        invariant keys <= stack.tags.Keys
        invariant cleaned == stack.(tags := map k | k in keys :: stack.tags[k])
        decreases keys
      {
        var k :| k in keys;
        cleaned := cleaned.(tags := cleaned.tags - {k});
        keys := keys - {k};
      }
      return Success(cleaned.(lore := None));
    }

    /** `get(stack)`: nothing for a null or AIR stack; otherwise a registered
        item whose cleaned template is similar to the cleaned stack, and
        nothing only when there is none. */
    method GetByStack(stack: Option<ItemStack>) returns (r: Option<LightItem>)
      requires Valid()
      ensures stack.None? || stack.value.material == Air ==> r.None?
      ensures r.Some? ==>
        && r.value in lightItems.Values
        && Similar(Cleaned(stack.value), Cleaned(r.value.Template()))
      ensures r.Some? <==> stack.Some? && stack.value.material != Air && Recognises(stack.value)
    {
      if stack.None? || stack.value.material == Air {
        return None;
      }
      var pending := lightItems.Keys;
      while pending != {}
        invariant pending <= lightItems.Keys
        invariant forall id :: id in lightItems && id !in pending ==>
          !Similar(Cleaned(stack.value), Cleaned(lightItems[id].Template()))
        decreases pending
      {
        var k :| k in pending;
        var item1 := Clean(stack.value);
        var current := lightItems[k].GetItemStack();
        var item2 := Clean(current.value);
        if Similar(item1.value, item2.value) {
          return Some(lightItems[k]);
        }
        pending := pending - {k};
      }
      return None;
    }

    /** `isRegistered(stack)`: false for a null stack; an AIR stack is not
        singled out, so cleaning it fails with a null pointer; otherwise
        whether some registered item recognises the stack. */
    method IsRegistered(stack: Option<ItemStack>) returns (r: Result<bool, Fault>)
      requires Valid()
      ensures r.Failure? <==> stack.Some? && stack.value.material == Air
      ensures r.Failure? ==> r.error == NullPointer
      ensures r.Success? ==> (r.value <==> stack.Some? && Recognises(stack.value))
    {
      if stack.None? {
        return Success(false);
      }
      var item := Clean(stack.value);
      if item.Failure? {
        return Failure(item.error);
      }
      var pending := lightItems.Keys;
      while pending != {}
        invariant pending <= lightItems.Keys
        invariant forall id :: id in lightItems && id !in pending ==>
          !Similar(Cleaned(lightItems[id].Template()), item.value)
        decreases pending
      {
        var k :| k in pending;
        var current := lightItems[k].GetItemStack();
        var item2 := Clean(current.value);
        if Similar(item2.value, item.value) {
          return Success(true);
        }
        pending := pending - {k};
      }
      return Success(false);
    }

    /** `getRegisteredItems()`: the registered items, as a fresh set. */
    method GetRegisteredItems() returns (r: set<LightItem>)
      ensures r == lightItems.Values
    {
      r := lightItems.Values;
    }
  }
}
