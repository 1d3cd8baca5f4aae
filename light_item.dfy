/** `LightItem`: a custom item. Its template stack is built once by `init`;
    its recipe is the one saved in the database when there is one, else the
    item's default recipe. */
module Items {
  import opened Common
  import opened JavaStrings
  import opened Inventory
  import opened Recipes
  import opened Host

  /** `ChatColor.WHITE` as text. */
  const White: string := "§f"

  /** A custom item. The identifier, the localized name (`getName()`, read from
      `items_name.<identifier>`), the lore, the model data, the material, the
      default recipe and the runtime class are fixed by the item's definition;
      only the template stack is state. */
  class LightItem {
    const identifier: string
    const name: string
    const lore: Option<seq<string>>
    const customModelData: int
    const vanillaMaterial: Material
    const defaultRecipe: Option<ShapedRecipe>
    const kind: string
    const namespace: string
    var item: Option<ItemStack>
    /** `init` has assigned the `namespacedKey` field (it is null before). */
    var keyed: bool

    constructor(identifier: string, name: string, lore: Option<seq<string>>, customModelData: int,
                vanillaMaterial: Material, defaultRecipe: Option<ShapedRecipe>, kind: string, namespace: string)
      ensures this.identifier == identifier && this.name == name && this.lore == lore
      ensures this.customModelData == customModelData && this.vanillaMaterial == vanillaMaterial
      ensures this.defaultRecipe == defaultRecipe && this.kind == kind && this.namespace == namespace
      ensures item == None && !keyed
    {
      this.identifier := identifier;
      this.name := name;
      this.lore := lore;
      this.customModelData := customModelData;
      this.vanillaMaterial := vanillaMaterial;
      this.defaultRecipe := defaultRecipe;
      this.kind := kind;
      this.namespace := namespace;
      item := None;
      keyed := false;
    }

    /** `getNamespacedKey()`, the key `init` creates: the plugin's namespace
        and the item identifier, lower-cased. */
    function Key(): (r: NamespacedKey)
      ensures r.namespace == namespace && |r.key| == |identifier|
      ensures forall i :: 0 <= i < |identifier| && !('A' <= identifier[i] <= 'Z') ==> r.key[i] == identifier[i]
    {
      NamespacedKey(namespace, LowerAscii(identifier))
    }

    /** The stack `init` builds: one of the vanilla material, named white with
        the localized name, with the lore only when there is one, the custom
        model data, and no persistent-data tags. */
    function Template(): ItemStack
    {
      ItemStack(vanillaMaterial, 1, Some(White + name), lore, Some(customModelData), map[])
    }

    /** How `init` ends: `new NamespacedKey` refuses an identifier that is
        not a valid key (IllegalArgumentException); an AIR stack has no
        metadata, so setting its display name meets a null pointer. */
    function InitOutcome(): (r: Outcome<Fault>)
      ensures r.Pass? <==> KeyAccepted(namespace, Key().key) && vanillaMaterial != Air
      ensures !KeyAccepted(namespace, Key().key) ==> r == Fail(IllegalArgument)
      ensures KeyAccepted(namespace, Key().key) && vanillaMaterial == Air ==> r == Fail(NullPointer)
    {
      if !KeyAccepted(namespace, Key().key) then Fail(IllegalArgument)
      else if vanillaMaterial == Air then Fail(NullPointer)
      else Pass
    }

    /** `init` has run. */
    predicate Initialized()
      reads this
    {
      item == Some(Template())
    }

    /** `init`: creates the key, then builds the template stack. The key is
        refused before anything is stored; an AIR stack is stored bare before
        its missing metadata is used. */
    method Init() returns (r: Outcome<Fault>)
      modifies this
      ensures r == InitOutcome()
      ensures r.Pass? ==> Initialized()
      ensures r == Fail(IllegalArgument) ==> item == old(item)
      ensures r == Fail(NullPointer) ==> item == Some(ItemStack(Air, 1, None, None, None, map[]))
      ensures keyed == (old(keyed) || KeyAccepted(namespace, Key().key))
    {
      if !KeyAccepted(namespace, Key().key) {
        return Fail(IllegalArgument);
      }
      keyed := true;
      var stack := ItemStack(vanillaMaterial, 1, None, None, None, map[]);
      item := Some(stack);
      if vanillaMaterial == Air {
        return Fail(NullPointer);
      }
      stack := stack.(displayName := Some(White + name));
      if lore.Some? {
        stack := stack.(lore := lore);
      }
      stack := stack.(modelData := Some(customModelData));
      item := Some(stack);
      return Pass;
    }

    /** `getItemStack()`: a copy of the template; before `init` there is none
        and the call fails. Stacks are values, so changing the copy cannot
        change the template. */
    function GetItemStack(): (r: Result<ItemStack, Fault>)
      reads this
      ensures r.Success? <==> item.Some?
      ensures r.Failure? ==> r.error == NullPointer
      ensures Initialized() ==> r == Success(Template())
    {
      if item.None? then Failure(NullPointer) else Success(item.value)
    }

    /** `isCraftable()`: the item has a default recipe. */
    predicate IsCraftable()
    {
      defaultRecipe.Some?
    }

    /** The recipe `getShapedRecipe` settles on, given what `loadRecipe`
        answered and the item's current template: a stored recipe is rebuilt
        under the item's key with the template as its result, and the shape
        checks of `ShapedRecipe` apply to it (`BuildRecipe`); a missing row
        or a database fault falls back to the default recipe; any other
        exception is not caught. */
    function ChooseRecipe(loaded: Result<Option<Decoded>, Fault>, current: Option<ItemStack>): (r: Result<Option<ShapedRecipe>, Fault>)
      ensures loaded == Success(None) ==> r == Success(defaultRecipe)
      ensures loaded == Failure(Storage) ==> r == Success(defaultRecipe)
      ensures loaded.Failure? && loaded.error != Storage ==> r == Failure(loaded.error)
      ensures loaded.Success? && loaded.value.Some? && current.None? ==> r == Failure(NullPointer)
      ensures loaded.Success? && loaded.value.Some? && current.Some? ==>
        && (r.Success? <==> ShapeAccepted(loaded.value.value.shape) && loaded.value.value.ingredients.Keys <= ShapeChars(loaded.value.value.shape))
        && (r.Failure? ==> r.error == IllegalArgument)
      ensures loaded.Success? && loaded.value.Some? && current.Some? && r.Success? ==>
        && r.value.Some?
        && r.value.value.key == Key()
        && r.value.value.result == current.value
        && r.value.value.shape == loaded.value.value.shape
        && r.value.value.ingredients.Keys == ShapeChars(loaded.value.value.shape)
        && Present(r.value.value.ingredients) == loaded.value.value.ingredients
    {
      match loaded
      case Failure(Storage) => Success(defaultRecipe)
      case Failure(e) => Failure(e)
      case Success(None) => Success(defaultRecipe)
      case Success(Some(d)) =>
        if current.None? then Failure(NullPointer)
        else
          match BuildRecipe(Key(), current.value, d)
          case Failure(e) => Failure(e)
          case Success(recipe) => Success(Some(recipe))
    }

    /** `getShapedRecipe(plugin)`: loads the item's recipe by its name and
        falls back to the default as `ChooseRecipe` says. */
    method GetShapedRecipe(store: RecipeStore) returns (r: Result<Option<ShapedRecipe>, Fault>)
      ensures r == ChooseRecipe(store.Lookup(name), item)
    {
      var loaded := store.LoadRecipe(name);
      r := ChooseRecipe(loaded, item);
    }

    /** `updateShapedRecipe(recipe, plugin)`: for a craftable item, saves the
        recipe (a database fault is only logged) and puts it in the server's
        book in place of the item's previous one. Before `init` has assigned
        the key, `removeRecipe` receives null and refuses it with an
        IllegalArgumentException, after the row is saved. */
    method UpdateShapedRecipe(recipe: ShapedRecipe, store: RecipeStore, server: Server) returns (r: Outcome<Fault>)
      modifies store, server
      ensures !IsCraftable() ==> r == Pass && store.rows == old(store.rows) && server.recipes == old(server.recipes)
      ensures r.Fail? <==> IsCraftable() && !keyed
      ensures r.Fail? ==> r.error == IllegalArgument && server.recipes == old(server.recipes)
      ensures store.online == old(store.online) && server.handlers == old(server.handlers)
      ensures IsCraftable() ==>
        && (old(store.online) ==> name in store.rows && store.rows == old(store.rows)[name := store.rows[name]])
        && (!old(store.online) ==> store.rows == old(store.rows))
      ensures IsCraftable() && keyed ==>
        server.recipes == (var removed := old(server.recipes) - {Key()};
                           if recipe.key in removed then removed else removed[recipe.key := recipe])
      ensures IsCraftable() && old(store.online)
              && WellFormedShape(recipe.shape) && WellFormedIngredients(recipe.ingredients)
              && Present(recipe.ingredients) != map[] ==>
        store.Lookup(name) == Success(Some(Decoded(recipe.shape, Present(recipe.ingredients))))
    {
      if !IsCraftable() {
        return Pass;
      }
      var saved := store.SaveRecipe(name, recipe);
      if saved.Pass? && WellFormedShape(recipe.shape) && WellFormedIngredients(recipe.ingredients)
         && Present(recipe.ingredients) != map[] {
        ghost var order :| Enumerates(order, recipe.ingredients.Keys)
          && store.rows[name].ingredients == EncodeIngredients(order, recipe.ingredients);
        RowRoundTrip(recipe, order);
      }
      if !keyed {
        return Fail(IllegalArgument);
      }
      var _ := server.RemoveRecipe(Key());
      var _ := server.AddRecipe(recipe);
      return Pass;
    }
  }

  /** Items whose identifiers differ only in the case of ASCII letters get
      the same key, and so share one place in the server's recipe book. */
  lemma {:induction false} KeyIgnoresCase(a: LightItem, b: LightItem)
    requires a.namespace == b.namespace && |a.identifier| == |b.identifier|
    requires forall i :: 0 <= i < |a.identifier| ==>
      a.identifier[i] == b.identifier[i] || LowerAscii([a.identifier[i]]) == LowerAscii([b.identifier[i]])
    ensures a.Key() == b.Key()
  {
    assert LowerAscii(a.identifier) == LowerAscii(b.identifier) by {
      forall i | 0 <= i < |a.identifier|
        ensures LowerAscii(a.identifier)[i] == LowerAscii(b.identifier)[i]
      {
        assert LowerAscii([a.identifier[i]])[0] == LowerAscii([b.identifier[i]])[0];
      }
    }
  }

  /** A recipe that `updateShapedRecipe` saved and `loadRecipe` reads back
      (its shape and present ingredients) is rebuilt as the same recipe,
      under the item's key and with the current stack as its result. */
  lemma SavedRecipeRebuilds(item: LightItem, recipe: ShapedRecipe, current: ItemStack)
    requires ShapeAccepted(recipe.shape) && recipe.ingredients.Keys == ShapeChars(recipe.shape)
    ensures item.ChooseRecipe(Success(Some(Decoded(recipe.shape, Present(recipe.ingredients)))), Some(current))
      == Success(Some(recipe.(key := item.Key(), result := current)))
  {
    BuildRebuilds(recipe.(key := item.Key(), result := current));
  }
}
