# LightLib core, modelled in Dafny

LightLib is a library for Bukkit/Paper plugins. This project models the parts of it that hold state and make decisions:

- **Custom items.** The item registry (`ItemManager`) and the items themselves (`LightItem`). An item has a template stack, a namespaced key and a recipe, either stored or default. Crafting one needs a permission (`CustomRecipesListener`).
- **Recipe table.** The `ShapedRecipe` table of `RecipeManager`, with its text encoding of shapes and ingredients.
- **Bags.** The bag registry (`BagManager`).
- **Features.** The feature tree (`LightFeature`, `FeatureConfig`, `FeatureManager`). A feature bundles listeners, bags, items and sub-features. Registering a feature calls `onLoad` and `onEnable`, registers everything it bundles, and enters it in the map. Unregistering tears the same things down.
- **Custom blocks.** A custom block (`LightBlock`) is an item display entity plus a row of the `BlocksPlaced` table. The static lookups reconcile the table with the live entities. The block listener turns server place, break and interact events into the library's own events.
- **Messages.** `Localization`: per-locale language files with an English fallback, colour codes and a prefix.
- **Configuration.** `ConfigProvider`: typed getters over the configuration and a type-preserving edit.
- **Helpers.** The console log layout (`ConsoleFormatter`), the banner generator of `ConfigManager`, and the merge that `YamlUpdater` applies to language files.

**Modelling choices.**
- Java objects whose fields change become Dafny classes: registries, features, items, blocks, events, the server and the recipe table.
- Values become datatypes: stacks, recipes, configurations, YAML trees and table rows.
- Every loop of the source is a method with invariants. Each method is proved against a specification function, and the properties the library promises are proved about those functions as lemmas.
- An exception is a `Fault` in a `Result` or `Outcome`. What a user callback does (return, throw an `Error`, throw an `Exception`) is an input.
- The iteration order of a `HashMap` is unknown. It appears as an enumeration of the keys, and every promise is proved for all orders.

## Model

| member | source | states |
|---|---|---|
| Bags.RegisterBagSpec | src/main/java/com/frahhs/lightlib/util/bag/BagManager.java:27-41 | an id already taken gives the `BagAlreadyDefined` failure exactly, with the registry and the call log unchanged; otherwise the bag is stored under its id and then enabled, in that order |
| Bags.UnregisterBagSpec | src/main/java/com/frahhs/lightlib/util/bag/BagManager.java:48-61 | an unregistered id changes nothing; otherwise the bag passed in is disabled, and its entry is removed only when the id maps to that very bag (`remove(key, value)`) |
| Bags.RegisterThenUnregister | src/main/java/com/frahhs/lightlib/util/bag/BagManager.java:27-61 | registering a bag under a free id and unregistering it restores the registry and logs enable then disable |
| Bags.CallsFor | src/main/java/com/frahhs/lightlib/util/bag/BagManager.java:85-98 | the i-th call is `onEnable` (or `onDisable`) of the bag stored under the i-th id of the order, one call per id |
| Bags.BagManager.constructor | src/main/java/com/frahhs/lightlib/util/bag/BagManager.java:18-20 | the registry starts empty, with no call made |
| Bags.BagManager.RegisterBags | src/main/java/com/frahhs/lightlib/util/bag/BagManager.java:27-41 | the new registry, the call log and the outcome are those of `RegisterBagSpec`; every bag stays under its own id |
| Bags.BagManager.UnregisterBags | src/main/java/com/frahhs/lightlib/util/bag/BagManager.java:48-61 | the new state is that of `UnregisterBagSpec` |
| Bags.BagManager.GetBag | src/main/java/com/frahhs/lightlib/util/bag/BagManager.java:69-71 | the bag registered under the id, and none exactly when the id is not registered |
| Bags.BagManager.GetRegisteredBags | src/main/java/com/frahhs/lightlib/util/bag/BagManager.java:78-80 | the whole registry, as a value the caller cannot use to change it |
| Bags.BagManager.CallAll | src/main/java/com/frahhs/lightlib/util/bag/BagManager.java:85-98 | for some iteration order of the ids, one callback per registered bag is appended to the log; the registry is unchanged |
| Bags.BagManager.EnableBags | src/main/java/com/frahhs/lightlib/util/bag/BagManager.java:85-89 | `onEnable` once on every registered bag, in some iteration order; the registry is unchanged |
| Bags.BagManager.DisableBags | src/main/java/com/frahhs/lightlib/util/bag/BagManager.java:94-98 | `onDisable` once on every registered bag, in some iteration order; the registry is unchanged |
| ItemRegistry.Cleaned | src/main/java/com/frahhs/lightlib/item/ItemManager.java:226-242 | the cleaned stack keeps material, amount, name and model data, and has no lore and no tags |
| ItemRegistry.CleanedIdempotent | src/main/java/com/frahhs/lightlib/item/ItemManager.java:226-242 | cleaning twice is cleaning once |
| ItemRegistry.CleanedIgnoresDecoration | src/main/java/com/frahhs/lightlib/item/ItemManager.java:226-242 | stacks that differ only in lore and tags clean to the same stack |
| ItemRegistry.SimilarCleaned | src/main/java/com/frahhs/lightlib/item/ItemManager.java:163-193 | cleaned stacks are similar exactly when material, display name and model data agree |
| ItemRegistry.AddRecipe | src/main/java/com/frahhs/lightlib/item/ItemManager.java:57-61 | the server adds a recipe only under a key not yet in the book; other keys are untouched |
| ItemRegistry.RegisterItemSpec | src/main/java/com/frahhs/lightlib/item/ItemManager.java:45-67 | a taken identifier fails with `DuplicateIdentifier`, and a failing `init` with its own fault; every failure changes nothing; it succeeds exactly when the identifier is free, `init` passes and, for a craftable item, `ChooseRecipe` gives a recipe; on success the identifier maps to the item, and a craftable item's recipe book gains that recipe (unless its key is taken) while a non-craftable item leaves the book alone |
| ItemRegistry.UnregisterItemSpec | src/main/java/com/frahhs/lightlib/item/ItemManager.java:74-94 | an unregistered identifier changes nothing; otherwise the identifier leaves the map, and a craftable item's recipe key leaves the server |
| ItemRegistry.RecipeKeys | src/main/java/com/frahhs/lightlib/item/ItemManager.java:84-88 | holds the recipe key of every craftable item among the given identifiers |
| ItemRegistry.RecipeKeysAdd | src/main/java/com/frahhs/lightlib/item/ItemManager.java:84-88 | one more identifier adds its item's key exactly when the item is craftable |
| ItemRegistry.DisposeAsWrittenStops | src/main/java/com/frahhs/lightlib/item/ItemManager.java:99-108 | with two or more items registered, `dispose` as written throws a concurrent modification, and every item but the first stays registered |
| ItemRegistry.UnregisterIdempotent | src/main/java/com/frahhs/lightlib/item/ItemManager.java:74-94 | unregistering an item twice is unregistering it once |
| ItemRegistry.ItemManager.constructor | src/main/java/com/frahhs/lightlib/item/ItemManager.java:30-38 | an empty registry; the crafting listener is registered with the server |
| ItemRegistry.ItemManager.RegisterItems | src/main/java/com/frahhs/lightlib/item/ItemManager.java:45-67 | the new registry, the recipe book and the outcome are those of `RegisterItemSpec` for what the recipe table answers; a new item whose `init` passes is initialised, an already registered one is left as it was; listeners are untouched; every registered item keeps a passing `init` |
| ItemRegistry.ItemManager.UnregisterItems | src/main/java/com/frahhs/lightlib/item/ItemManager.java:74-94 | the new registry and recipe book are those of `UnregisterItemSpec` |
| ItemRegistry.ItemManager.Dispose | src/main/java/com/frahhs/lightlib/item/ItemManager.java:99-108 | the corrected behaviour of the third Findings row (the loop as written stops after one item): every item is unregistered, the registry is empty and every registered craftable item's recipe key has left the server |
| ItemRegistry.ItemManager.DisposeOne | src/main/java/com/frahhs/lightlib/item/ItemManager.java:103-105 | one turn of the dispose walk: the identifier and its recipe key are gone and the others stay |
| ItemRegistry.ItemManager.GetById | src/main/java/com/frahhs/lightlib/item/ItemManager.java:139-155 | the item registered under the identifier, and none exactly when there is none |
| ItemRegistry.ItemManager.GetByKind | src/main/java/com/frahhs/lightlib/item/ItemManager.java:119-131 | a registered item of the runtime class, and none exactly when no registered item has it |
| ItemRegistry.ItemManager.Clean | src/main/java/com/frahhs/lightlib/item/ItemManager.java:226-242 | an AIR stack, which has no metadata, fails with a null pointer; any other stack comes back with its tags and lore dropped and everything else kept |
| ItemRegistry.ItemManager.GetByStack | src/main/java/com/frahhs/lightlib/item/ItemManager.java:163-193 | nothing for a null or AIR stack; otherwise a registered item that recognises the stack, and nothing only when no item does |
| ItemRegistry.ItemManager.IsRegistered | src/main/java/com/frahhs/lightlib/item/ItemManager.java:210-242 | false for a null stack; an AIR stack fails with a null pointer inside `clean`; otherwise exactly whether some registered item recognises it |
| ItemRegistry.ItemManager.GetRegisteredItems | src/main/java/com/frahhs/lightlib/item/ItemManager.java:200-202 | exactly the registered items |
| Items.LightItem.constructor | src/main/java/com/frahhs/lightlib/item/LightItem.java:21-26 | the item's definition is kept; no template exists and no key is assigned before `init` |
| Items.LightItem.Key | src/main/java/com/frahhs/lightlib/item/LightItem.java:29 | the key is the plugin namespace and the identifier with ASCII capitals lowered, one character for each, every other character kept |
| Items.LightItem.InitOutcome | src/main/java/com/frahhs/lightlib/item/LightItem.java:28-35 | `init` passes exactly when the lower-cased key is valid and the material is not AIR; an invalid key gives IllegalArgument, an AIR material a null pointer |
| Items.KeyIgnoresCase | src/main/java/com/frahhs/lightlib/item/LightItem.java:29 | identifiers that differ only in ASCII case give the same key, so the second item's recipe cannot enter the book |
| Items.LightItem.Init | src/main/java/com/frahhs/lightlib/item/LightItem.java:28-48 | the outcome is `InitOutcome`; on success the item holds its template (one stack of the material, named in white, with the lore only when there is one, the model data, no tags); a refused key leaves the item as it was and unkeyed; an AIR material leaves the bare AIR stack; the key counts as assigned once `init` has got past the key check |
| Items.LightItem.GetItemStack | src/main/java/com/frahhs/lightlib/item/LightItem.java:55-57 | fails with a null pointer exactly before `init`; after it, the template |
| Items.LightItem.ChooseRecipe | src/main/java/com/frahhs/lightlib/item/LightItem.java:93-108 | a missing row or a database fault gives the default recipe, and any other exception propagates; a stored row with no stack gives a null pointer; otherwise it succeeds exactly when `ShapedRecipe` accepts the shape and every ingredient character is in it (else IllegalArgument), giving a recipe under the item's key with the current stack, the stored shape, an entry for each shape character and exactly the stored ingredients |
| Items.LightItem.GetShapedRecipe | src/main/java/com/frahhs/lightlib/item/LightItem.java:93-108 | the recipe `ChooseRecipe` settles on for what the table holds |
| Items.SavedRecipeRebuilds | src/main/java/com/frahhs/lightlib/util/recipe/RecipeManager.java:66-75 | a recipe that `ShapedRecipe` holds, read back from its shape and present ingredients, is rebuilt unchanged under the item's key with the current stack |
| Items.LightItem.UpdateShapedRecipe | src/main/java/com/frahhs/lightlib/item/LightItem.java:110-126 | a non-craftable item passes and changes nothing; otherwise the row of the item is replaced (when the database answers) and reads back as the new recipe when it is well formed; it fails exactly when the item is craftable and `init` never assigned its key, with IllegalArgument and the server's book unchanged; otherwise the book loses the old key and gains the recipe |
| Features.Raised | src/main/java/com/frahhs/lightlib/feature/FeatureManager.java:67-70 | a callback passes exactly when it returns, and each kind of throw gives its own fault |
| Features.LightFeature.constructor | src/main/java/com/frahhs/lightlib/feature/LightFeature.java:18-21 | the four resource lists start empty and no configuration is set |
| Features.LightFeature.UnregisterItems | src/main/java/com/frahhs/lightlib/feature/LightFeature.java:74-82 | the registry after unregistering every listed item in list order; the listeners are untouched |
| Features.LightFeature.UnregisterBags | src/main/java/com/frahhs/lightlib/feature/LightFeature.java:84-92 | the registry after unregistering every listed bag in list order |
| Features.LightFeature.UnregisterEvents | src/main/java/com/frahhs/lightlib/feature/LightFeature.java:94-102 | every listed listener is unregistered; the recipe book is untouched |
| Features.UnregisterEachItems | src/main/java/com/frahhs/lightlib/feature/LightFeature.java:74-82 | the registry loses exactly the identifiers of the listed items |
| Features.Identifiers | src/main/java/com/frahhs/lightlib/feature/LightFeature.java:74-82 | exactly the identifiers of the listed items |
| Features.DisposeEachBags | src/main/java/com/frahhs/lightlib/feature/LightFeature.java:84-92 | entries are only removed, the entries kept are unchanged, no listed bag is still registered under its id, and every entry holding an unlisted bag is kept |
| Features.WithoutEachListeners | src/main/java/com/frahhs/lightlib/feature/LightFeature.java:94-102 | no listed listener is left, every unlisted handler stays, and nothing is added |
| Features.RootConfig | src/main/java/com/frahhs/lightlib/feature/FeatureConfig.java:26-28 | the two-argument configuration has no parent; its path is the feature id alone |
| Features.Chain | src/main/java/com/frahhs/lightlib/feature/FeatureConfig.java:18-23 | the chain of ids is never empty and ends with the configuration's own feature |
| Features.PathIsJoinedChain | src/main/java/com/frahhs/lightlib/feature/FeatureConfig.java:40-45 | the path is the feature ids from the root down, joined with dots |
| Features.GeneratePath | src/main/java/com/frahhs/lightlib/feature/FeatureConfig.java:35-37 | the path of a key is the chain of ids followed by the key, joined with dots |
| Features.AddEntry | src/main/java/com/frahhs/lightlib/feature/FeatureConfig.java:30-32 | the default is registered under the generated path and the entry names that path and value; every other path is unchanged |
| Features.Nodes | src/main/java/com/frahhs/lightlib/feature/LightFeature.java:21 | the features of a tree include the root and those of every sub-tree |
| Features.ChildNodes | src/main/java/com/frahhs/lightlib/feature/LightFeature.java:21 | the features of the later sub-trees |
| Features.ItemsIn | src/main/java/com/frahhs/lightlib/feature/LightFeature.java:20-21 | the items of a tree include its own list and those of every sub-tree |
| Features.ChildItems | src/main/java/com/frahhs/lightlib/feature/LightFeature.java:20-21 | the items of the later sub-trees |
| Features.BagsIn | src/main/java/com/frahhs/lightlib/feature/LightFeature.java:19-21 | the bags of a tree include its own list and those of every sub-tree |
| Features.ChildBags | src/main/java/com/frahhs/lightlib/feature/LightFeature.java:19-21 | the bags of the later sub-trees |
| FeatureRegistry.NewConfig | src/main/java/com/frahhs/lightlib/feature/FeatureManager.java:56-64 | a root feature gets a configuration with no parent; a sub-feature gets one whose parent is the parent's own configuration |
| FeatureRegistry.Start | src/main/java/com/frahhs/lightlib/feature/FeatureManager.java:56-70 | the configuration is set, then `onLoad` is logged, and `onEnable` only when `onLoad` returned; the outcome is the first throw |
| FeatureRegistry.Trace | src/main/java/com/frahhs/lightlib/feature/FeatureManager.java:67-80 | the callbacks of a successful registration start with the feature's `onLoad` and `onEnable` |
| FeatureRegistry.ResourcesEffect | src/main/java/com/frahhs/lightlib/feature/FeatureManager.java:73-83 | registering the resources keeps the configurations and the call log and only adds to the feature map; on success it adds the listeners and maps the id to the feature; on failure the listeners and the map are as they were |
| FeatureRegistry.CascadeGrows | src/main/java/com/frahhs/lightlib/feature/FeatureManager.java:46-86 | registration only adds: the configured features, the ids of the feature map and the call log only grow |
| FeatureRegistry.GrowGrows | src/main/java/com/frahhs/lightlib/feature/FeatureManager.java:73-83 | the same, for the part after `onEnable` |
| FeatureRegistry.ChildrenGrow | src/main/java/com/frahhs/lightlib/feature/FeatureManager.java:73-75 | the same, for the sub-feature loop |
| FeatureRegistry.CascadeSelfNesting | src/main/java/com/frahhs/lightlib/feature/FeatureManager.java:49-53 | a feature of its parent's own class is refused before anything changes |
| FeatureRegistry.CascadeLoadsFirst | src/main/java/com/frahhs/lightlib/feature/FeatureManager.java:56-67 | otherwise the configuration is set and `onLoad` is the first callback; a throwing `onLoad` stops registration there |
| FeatureRegistry.CascadeEffect | src/main/java/com/frahhs/lightlib/feature/FeatureManager.java:46-86 | a successful registration makes exactly the callbacks of `Trace` and adds exactly the listeners of the tree; every feature of the tree ends up in the map, the root under its own id |
| FeatureRegistry.GrowEffect | src/main/java/com/frahhs/lightlib/feature/FeatureManager.java:73-83 | the same, for the part after `onEnable` |
| FeatureRegistry.ChildrenEffect | src/main/java/com/frahhs/lightlib/feature/FeatureManager.java:73-75 | the same, for the sub-feature loop |
| FeatureRegistry.Release | src/main/java/com/frahhs/lightlib/feature/FeatureManager.java:98-107 | the feature's items and listeners are gone; its bags are gone unless another bag holds the id; every bag entry holding none of its bags is kept; nothing is added, surviving bag entries are unchanged, and the configurations and calls are kept |
| FeatureRegistry.DisableTrace | src/main/java/com/frahhs/lightlib/feature/FeatureManager.java:93-108 | a successful teardown starts with the feature's own `onDisable` |
| FeatureRegistry.TeardownShrinks | src/main/java/com/frahhs/lightlib/feature/FeatureManager.java:93-108 | a teardown only removes feature ids, listeners, items and bag entries (surviving entries unchanged), keeps every bag entry holding no bag of the tree, keeps the configurations, and only appends calls |
| FeatureRegistry.TeardownChildrenShrink | src/main/java/com/frahhs/lightlib/feature/LightFeature.java:64-72 | the same as `TeardownShrinks`, for the corrected sub-feature loop of the first Findings row |
| FeatureRegistry.TeardownEffect | src/main/java/com/frahhs/lightlib/feature/FeatureManager.java:93-108 | a successful teardown (the corrected behaviour of the first Findings row) calls `onDisable` on every feature of the tree, parents first, and leaves none of its features in the map, none of its listeners registered, none of its items registered, and none of its bags under its id |
| FeatureRegistry.TeardownChildrenEffect | src/main/java/com/frahhs/lightlib/feature/LightFeature.java:64-72 | the same as `TeardownEffect`, for the corrected sub-feature loop of the first Findings row |
| FeatureRegistry.ReregisterKeeps | src/main/java/com/frahhs/lightlib/feature/LightFeature.java:64-72 | re-registering the sub-features only grows the map; on success each is in it and has had `onLoad` called |
| FeatureRegistry.TeardownAsWrittenKeepsChildren | src/main/java/com/frahhs/lightlib/feature/LightFeature.java:68 | after `unregisterFeatures` as written succeeds, each sub-feature with an id other than the root's is still registered and has been loaded again |
| FeatureRegistry.InOrder | src/main/java/com/frahhs/lightlib/feature/FeatureManager.java:123-149 | one feature per id of the order, each the feature mapped to that id |
| FeatureRegistry.EnableRunAt | src/main/java/com/frahhs/lightlib/feature/FeatureManager.java:123-134 | one step of the enable loop: `onLoad`, then `onEnable` when `onLoad` returned, then the rest |
| FeatureRegistry.EnableRunAllReturn | src/main/java/com/frahhs/lightlib/feature/FeatureManager.java:123-134 | when every callback returns, `onLoad` then `onEnable` is called on each feature in turn, and the loop passes |
| FeatureRegistry.EnableRunStops | src/main/java/com/frahhs/lightlib/feature/FeatureManager.java:123-134 | the first callback that throws ends the loop; later features get no call; the loop passes exactly when that throw was an `Error` |
| FeatureRegistry.DisableRunAllReturn | src/main/java/com/frahhs/lightlib/feature/FeatureManager.java:139-149 | when every `onDisable` returns, each feature's is called in turn and the loop passes |
| FeatureRegistry.DisableRunStops | src/main/java/com/frahhs/lightlib/feature/FeatureManager.java:139-149 | the first throwing `onDisable` ends the loop; the loop passes exactly when it threw an `Exception` |
| FeatureRegistry.Configs | src/main/java/com/frahhs/lightlib/feature/FeatureManager.java:56-64 | one entry per feature in view, its configuration field |
| FeatureRegistry.ConfigsSet | src/main/java/com/frahhs/lightlib/feature/FeatureManager.java:56-64 | setting one feature's configuration changes only that entry |
| FeatureRegistry.FeatureManager.constructor | src/main/java/com/frahhs/lightlib/feature/FeatureManager.java:27-30 | no feature registered and no call made |
| FeatureRegistry.FeatureManager.RegisterFeatures | src/main/java/com/frahhs/lightlib/feature/FeatureManager.java:37-39 | the new world and outcome are those of registration with no parent |
| FeatureRegistry.FeatureManager.RegisterFeaturesUnder | src/main/java/com/frahhs/lightlib/feature/FeatureManager.java:46-86 | the new world and outcome are those of the cascade over the feature tree |
| FeatureRegistry.FeatureManager.StartFeature | src/main/java/com/frahhs/lightlib/feature/FeatureManager.java:56-70 | the new world and outcome are those of `Start` |
| FeatureRegistry.FeatureManager.RegisterTree | src/main/java/com/frahhs/lightlib/feature/FeatureManager.java:73-83 | the sub-features, then the feature's resources, as the specification functions say |
| FeatureRegistry.FeatureManager.RegisterSubFeatures | src/main/java/com/frahhs/lightlib/feature/FeatureManager.java:73-75 | the sub-feature loop, stopping at the first exception |
| FeatureRegistry.FeatureManager.RegisterChild | src/main/java/com/frahhs/lightlib/feature/FeatureManager.java:74 | one sub-feature registered with the feature as its parent |
| FeatureRegistry.FeatureManager.RegisterResources | src/main/java/com/frahhs/lightlib/feature/FeatureManager.java:76-83 | the items, bags and listeners, then the map entry |
| FeatureRegistry.FeatureManager.AttachResources | src/main/java/com/frahhs/lightlib/feature/FeatureManager.java:78-83 | the bags and listeners, then the map entry |
| FeatureRegistry.FeatureManager.RegisterItemsOf | src/main/java/com/frahhs/lightlib/feature/FeatureManager.java:76-77 | every item of the feature registered in list order, stopping at the first exception |
| FeatureRegistry.FeatureManager.RegisterBagsOf | src/main/java/com/frahhs/lightlib/feature/FeatureManager.java:78-79 | every bag of the feature registered in list order, stopping at the first exception |
| FeatureRegistry.FeatureManager.RegisterListenersOf | src/main/java/com/frahhs/lightlib/feature/FeatureManager.java:80 | every listener of the feature registered with the server, in list order |
| FeatureRegistry.FeatureManager.UnregisterFeatures | src/main/java/com/frahhs/lightlib/feature/FeatureManager.java:93-108 | the new world and outcome are those of `Teardown`, whose effect `TeardownEffect` states; this is the corrected behaviour of the first Findings row, not line 68 as written |
| FeatureRegistry.FeatureManager.UnregisterSubFeatures | src/main/java/com/frahhs/lightlib/feature/LightFeature.java:64-72 | the corrected loop of the first Findings row (line 68 as written re-registers instead): every sub-feature torn down in list order, stopping at the first exception |
| FeatureRegistry.FeatureManager.UnregisterChild | src/main/java/com/frahhs/lightlib/feature/LightFeature.java:67-69 | the corrected step of the first Findings row: one sub-feature torn down, where line 68 as written registers it again |
| FeatureRegistry.FeatureManager.ReleaseFeature | src/main/java/com/frahhs/lightlib/feature/FeatureManager.java:98-107 | the new world is `Release` of the old one |
| FeatureRegistry.FeatureManager.GetFeature | src/main/java/com/frahhs/lightlib/feature/FeatureManager.java:116-118 | the feature registered under the id, and none exactly when none is |
| FeatureRegistry.FeatureManager.EnableFeatures | src/main/java/com/frahhs/lightlib/feature/FeatureManager.java:123-134 | for some iteration order of the map, the calls and outcome are those of the enable loop over the features in that order |
| FeatureRegistry.FeatureManager.LoadAndEnable | src/main/java/com/frahhs/lightlib/feature/FeatureManager.java:125-133 | the enable loop over the given features appends exactly the loop's calls and gives its outcome |
| FeatureRegistry.FeatureManager.DisableFeatures | src/main/java/com/frahhs/lightlib/feature/FeatureManager.java:139-149 | for some iteration order of the map, the calls and outcome are those of the disable loop |
| FeatureRegistry.FeatureManager.DisableAll | src/main/java/com/frahhs/lightlib/feature/FeatureManager.java:141-148 | the disable loop over the given features appends exactly the loop's calls and gives its outcome |
| FeatureRegistry.FeatureManager.RegisterFeatureEvents | src/main/java/com/frahhs/lightlib/feature/FeatureManager.java:151-153 | the listener is appended to the feature's list and nothing else changes |
| FeatureRegistry.FeatureManager.RegisterFeatureBags | src/main/java/com/frahhs/lightlib/feature/FeatureManager.java:155-157 | the bag is appended to the feature's list and nothing else changes |
| FeatureRegistry.FeatureManager.RegisterFeatureItems | src/main/java/com/frahhs/lightlib/feature/FeatureManager.java:159-161 | the item is appended to the feature's list and nothing else changes |
| FeatureRegistry.FeatureManager.RegisterFeatureSubFeatures | src/main/java/com/frahhs/lightlib/feature/FeatureManager.java:163-165 | the sub-feature is appended to the feature's list and nothing else changes |
| Blocks.Direction | src/main/java/com/frahhs/lightlib/block/LightBlock.java:109-124 | the display's rotation is a whole number of right angles within one turn |
| Blocks.Yaw | src/main/java/com/frahhs/lightlib/block/LightBlock.java:109-124 | the yaw is a whole number of right angles, between half a turn and one and a half turns |
| Blocks.YawDistinguishesFacing | src/main/java/com/frahhs/lightlib/block/LightBlock.java:109-124 | different facings give different yaws, and opposite facings give yaws half a turn apart |
| Blocks.FirstAt | src/main/java/com/frahhs/lightlib/block/LightBlock.java:300-344 | the index of the first row at the position, and none exactly when no row has it |
| Blocks.FirstWithEntity | src/main/java/com/frahhs/lightlib/block/LightBlock.java:352-395 | the index of the first row naming the entity, and none exactly when no row names it |
| Blocks.IsLightBlockAt | src/main/java/com/frahhs/lightlib/block/LightBlock.java:219-267 | true exactly when some row has the position |
| Blocks.IsLightBlockEntity | src/main/java/com/frahhs/lightlib/block/LightBlock.java:275-292 | true exactly when some row names the entity |
| Blocks.DeleteAtFilters | src/main/java/com/frahhs/lightlib/block/LightBlock.java:197-211 | the delete leaves no row at the position, keeps every other row and adds none |
| Blocks.DeleteAtAbsent | src/main/java/com/frahhs/lightlib/block/LightBlock.java:197-211 | deleting at a position no row has leaves the table as it was |
| Blocks.DeleteAtAppend | src/main/java/com/frahhs/lightlib/block/LightBlock.java:197-211 | deleting distributes over appended rows |
| Blocks.ItemFor | src/main/java/com/frahhs/lightlib/block/LightBlock.java:317-319 | the item registered under the row's identifier, or none |
| Blocks.DisplayOf | src/main/java/com/frahhs/lightlib/block/LightBlock.java:325-335 | a missing entity gives no display, an item display gives itself, and any other entity type gives a runtime fault |
| Blocks.LookupAt | src/main/java/com/frahhs/lightlib/block/LightBlock.java:300-344 | nothing when no row has the position or its entity has the wrong type; otherwise a block built from the first row, at the position |
| Blocks.LookupEntity | src/main/java/com/frahhs/lightlib/block/LightBlock.java:352-395 | nothing when no row names the entity or it has the wrong type; otherwise a block built from the first such row, at that row's position |
| Blocks.SaveSpec | src/main/java/com/frahhs/lightlib/block/LightBlock.java:171-192 | fails exactly when the block has no display, with the `not placed` message; with a display, an item and a working database the table gains exactly one row with the placer, item, display and position, after which the block is found by position and by display; otherwise the table is unchanged |
| Blocks.RemoveSpec | src/main/java/com/frahhs/lightlib/block/LightBlock.java:197-211 | the rows at the position are deleted, unless the database fails |
| Blocks.DestroySpec | src/main/java/com/frahhs/lightlib/block/LightBlock.java:140-155 | nothing changes when the lookup at the position finds no block; dropped stacks are never touched |
| Blocks.DestroyClears | src/main/java/com/frahhs/lightlib/block/LightBlock.java:140-155 | when destroy acts: no row is left at the position (unless the database fails), the display is gone, the block is AIR, and rows and entities elsewhere are kept |
| Blocks.DestroyBlockedByForeignEntity | src/main/java/com/frahhs/lightlib/block/LightBlock.java:140-155 | a block whose recorded entity is no longer an item display cannot be destroyed |
| Blocks.PlaceSpec | src/main/java/com/frahhs/lightlib/block/LightBlock.java:105-135 | a display facing the placer is spawned at the block in every case; the world's blocks and drops are untouched; it fails with a null pointer exactly when there is no item or no template, with the table unchanged; otherwise the table is what `SaveSpec` leaves |
| Blocks.PlaceThenLookup | src/main/java/com/frahhs/lightlib/block/LightBlock.java:105-135 | a block placed where no row yet is, with a working database, is found again by position and by display as the block placed |
| Blocks.PlaceThenDestroy | src/main/java/com/frahhs/lightlib/block/LightBlock.java:105-155 | placing on a free position and destroying gives back the table and the entities, with the block AIR |
| Blocks.PlaceFailingOrphansDisplay | src/main/java/com/frahhs/lightlib/block/LightBlock.java:171-192 | with a failing database a placed display has no row, and destroy cannot remove it |
| Blocks.Directory.constructor | src/main/java/com/frahhs/lightlib/database/DatabaseManager.java:131-140 | the table and the world as given |
| Blocks.Directory.GetFromLocation | src/main/java/com/frahhs/lightlib/block/LightBlock.java:300-344 | a new block object exactly when `LookupAt` finds a block, showing that block |
| Blocks.Directory.GetFromUUID | src/main/java/com/frahhs/lightlib/block/LightBlock.java:352-395 | a new block object exactly when `LookupEntity` finds a block, showing that block |
| Blocks.LightBlock.constructor | src/main/java/com/frahhs/lightlib/block/LightBlock.java:37-41 | the item, location and placer as given, and no display |
| Blocks.LightBlock.SetLocation | src/main/java/com/frahhs/lightlib/block/LightBlock.java:48 | the location changes and nothing else does |
| Blocks.LightBlock.SetItemDisplay | src/main/java/com/frahhs/lightlib/block/LightBlock.java:66 | the display changes and nothing else does |
| Blocks.LightBlock.PersistentDataOwner | src/main/java/com/frahhs/lightlib/block/LightBlock.java:83-90 | the display entity, or a runtime fault exactly when there is none |
| Blocks.LightBlock.Save | src/main/java/com/frahhs/lightlib/block/LightBlock.java:171-192 | the new table and outcome are those of `SaveSpec` |
| Blocks.LightBlock.Remove | src/main/java/com/frahhs/lightlib/block/LightBlock.java:197-211 | the new table is that of `RemoveSpec` |
| Blocks.LightBlock.Place | src/main/java/com/frahhs/lightlib/block/LightBlock.java:105-135 | the new world and outcome are those of `PlaceSpec`; the block now records its display |
| Blocks.LightBlock.Destroy | src/main/java/com/frahhs/lightlib/block/LightBlock.java:140-155 | the new world is that of `DestroySpec` |
| Blocks.LightBlock.Clear | src/main/java/com/frahhs/lightlib/block/LightBlock.java:145-154 | the display goes, the block becomes AIR and the rows at the position are deleted |
| BlockListener.PlaceHandled | src/main/java/com/frahhs/lightlib/block/LightBlockListener.java:20-54 | a failing `isRegistered` fails with its fault and changes nothing; an unrecognised stack changes nothing; a recognised one that `get` does not name fails with a null pointer; a non-block material leaves the world alone; a block item without a template fails with the null pointer of the placement before the custom event, keeping the original cancelled flag; the original event ends cancelled exactly when it was, or when the placement happened and the custom event was cancelled |
| BlockListener.Answered | src/main/java/com/frahhs/lightlib/item/ItemManager.java:210-242 | what `isRegistered` answers: a null pointer exactly for an AIR stack, otherwise whether the stack is recognised |
| BlockListener.PlaceCancelledIsUndone | src/main/java/com/frahhs/lightlib/block/LightBlockListener.java:36-53 | a cancelled placement on a free position with a working database leaves the table and the entities as before, with the block AIR |
| BlockListener.PlaceCancelledFailingKeepsDisplay | src/main/java/com/frahhs/lightlib/block/LightBlockListener.java:36-53 | with a failing database a cancelled placement leaves its display entity behind |
| BlockListener.PlaceKeptIsFound | src/main/java/com/frahhs/lightlib/block/LightBlockListener.java:20-54 | an uncancelled placement leaves a block the lookups find, by position and by display |
| BlockListener.BreakHandled | src/main/java/com/frahhs/lightlib/block/LightBlockListener.java:57-94 | nothing changes unless the lookup finds a block; a failure is a null pointer that changes nothing; a cancelled custom event leaves the world alone and, for a registered block, cancels the original event |
| BlockListener.BreakEffect | src/main/java/com/frahhs/lightlib/block/LightBlockListener.java:57-94 | an uncancelled break drops the item exactly when both drop flags allow it outside creative mode, turns vanilla drops off, takes the custom event's experience, and removes the block from the table, the world and its display |
| BlockListener.BlockPlaceEvent.constructor | src/main/java/com/frahhs/lightlib/block/LightBlockListener.java:20-22 | the event's data as given, not cancelled |
| BlockListener.BlockBreakEvent.constructor | src/main/java/com/frahhs/lightlib/block/LightBlockListener.java:57 | the event's data as given, not cancelled |
| BlockListener.PlayerInteractEvent.constructor | src/main/java/com/frahhs/lightlib/block/LightBlockListener.java:97-99 | the clicked block as given, not cancelled |
| BlockListener.LightBlockListener.constructor | src/main/java/com/frahhs/lightlib/block/LightBlockListener.java:18-21 | the registry and directory as given |
| BlockListener.LightBlockListener.OnPlace | src/main/java/com/frahhs/lightlib/block/LightBlockListener.java:20-54 | the new world, the event's cancelled flag and the outcome are those of `PlaceHandled` for what `isRegistered` answers (a null pointer for an AIR stack) |
| BlockListener.LightBlockListener.PlaceAndFire | src/main/java/com/frahhs/lightlib/block/LightBlockListener.java:36-53 | the outcome is that of the placement; a failing placement stops before the custom event; otherwise the custom event is fired, a cancelled one undoes the placement and cancels the original event |
| BlockListener.LightBlockListener.OnBreak | src/main/java/com/frahhs/lightlib/block/LightBlockListener.java:57-94 | the new world, the event flags and the outcome are those of `BreakHandled` |
| BlockListener.LightBlockListener.BreakFound | src/main/java/com/frahhs/lightlib/block/LightBlockListener.java:73-93 | fire the custom event and act on its verdict |
| BlockListener.LightBlockListener.OnInteract | src/main/java/com/frahhs/lightlib/block/LightBlockListener.java:97-115 | the original event is cancelled exactly when a custom block was clicked and the custom event was cancelled |
| Messages.ColourAsWritten | src/main/java/com/frahhs/lightlib/provider/Localization.java:75 | no `&` is left |
| Messages.ColourAsWrittenShowsCodes | src/main/java/com/frahhs/lightlib/provider/Localization.java:75 | colouring `&a` as written leaves no colour character at all |
| Messages.ColourPositionwise | src/main/java/com/frahhs/lightlib/provider/Localization.java:75 | colouring keeps the length and every character, except that exactly the `&`s become `§` |
| Messages.ColourMakesCodes | src/main/java/com/frahhs/lightlib/provider/Localization.java:75 | `&a` becomes the colour code for green, with no `&` left |
| Messages.LocaleOfFileName | src/main/java/com/frahhs/lightlib/provider/Localization.java:118 | the locale of `<tag>.yml` is `tag`, for a tag without `.yml` in it |
| Messages.LocalesInMembers | src/main/java/com/frahhs/lightlib/provider/Localization.java:105-127 | a locale is among them exactly when some language file of the walk names it |
| Messages.LoadedIntoKeys | src/main/java/com/frahhs/lightlib/provider/Localization.java:105-127 | the locales after the walk are the old ones plus one per language file, in any order |
| Messages.LoadedAll | src/main/java/com/frahhs/lightlib/provider/Localization.java:105-127 | walking the whole folder in any order loads exactly the old locales and one per language file |
| Messages.Localization.constructor | src/main/java/com/frahhs/lightlib/provider/Localization.java:25-31 | the prefix and locale as given, and exactly one locale loaded per language file of the folder |
| Messages.Localization.Raw | src/main/java/com/frahhs/lightlib/provider/Localization.java:53-71 | no file for the locale gives null; otherwise the locale's message, else the English one, else empty; a missing English file fails when the fallback is needed |
| Messages.Localization.GetMessage | src/main/java/com/frahhs/lightlib/provider/Localization.java:53-91 | the raw message coloured by the corrected `Colour` of the second Findings row (`&` becomes `§`, not the U+0E22 U+0E07 that line 75 writes), with the prefix in front exactly when asked for; failures and nulls pass through |
| Messages.Localization.MessageShape | src/main/java/com/frahhs/lightlib/provider/Localization.java:53-91 | a found message has no `&` left, and the prefixed form is the prefix followed by the unprefixed one |
| Messages.Localization.LoadLanguageFiles | src/main/java/com/frahhs/lightlib/provider/Localization.java:105-127 | for some listing order, the language map is the old one after the walk that `LoadedInto` describes |
| Messages.Localization.Reload | src/main/java/com/frahhs/lightlib/provider/Localization.java:36-44 | a missing or non-string prefix fails before anything changes; otherwise the prefix is reread, the files reloaded, and a locale with no file switches to English |
| Messages.ReloadedFindsMessages | src/main/java/com/frahhs/lightlib/provider/Localization.java:36-81 | after a reload with an English file in the folder, every message lookup succeeds with a message |
| Crafting.CraftPermissionShape | src/main/java/com/frahhs/lightlib/item/CustomRecipesListener.java:25 | the permission is the prefix, `.craft.`, then the name with no ASCII capital left (the lowering of the model is ASCII-only, see Left out) |
| Crafting.CraftPermissionIgnoresCase | src/main/java/com/frahhs/lightlib/item/CustomRecipesListener.java:25 | names that differ only in ASCII case need the same permission |
| Crafting.Player.constructor | src/main/java/com/frahhs/lightlib/item/CustomRecipesListener.java:14 | the permissions as given and no message yet |
| Crafting.CraftItemEvent.constructor | src/main/java/com/frahhs/lightlib/item/CustomRecipesListener.java:13-15 | the player and result as given, not cancelled |
| Crafting.Refusing | src/main/java/com/frahhs/lightlib/item/CustomRecipesListener.java:19-30 | exactly the registered items that are craftable, similar to the result, and whose permission the player lacks |
| Crafting.RefusedOnlyLightItems | src/main/java/com/frahhs/lightlib/item/CustomRecipesListener.java:21-23 | a result no craftable item matches is never refused |
| Crafting.PermittedNeverRefused | src/main/java/com/frahhs/lightlib/item/CustomRecipesListener.java:25 | a player holding every crafting permission is never refused |
| Crafting.Notices | src/main/java/com/frahhs/lightlib/item/CustomRecipesListener.java:26-27 | one copy of the no-permission message per refusal when the message can be built, and none when it cannot |
| Crafting.CustomRecipesListener.constructor | src/main/java/com/frahhs/lightlib/item/ItemManager.java:36-37 | the registry, messages and prefix as given |
| Crafting.CustomRecipesListener.RefusingItems | src/main/java/com/frahhs/lightlib/item/CustomRecipesListener.java:19-30 | the loop finds exactly the refusing items |
| Crafting.CustomRecipesListener.OnCraft | src/main/java/com/frahhs/lightlib/item/CustomRecipesListener.java:13-33 | the event is cancelled exactly when some item refuses, and the player gets one no-permission message per refusal; a message that cannot be built fails with nothing sent or cancelled |
| Recipes.Present | src/main/java/com/frahhs/lightlib/util/recipe/RecipeManager.java:35-41 | exactly the characters that have an ingredient, with that ingredient |
| Recipes.DecodeEntry | src/main/java/com/frahhs/lightlib/util/recipe/RecipeManager.java:59-63 | a decoded entry's character is the first character of the segment; every failure is an index out of bounds |
| Recipes.DecodeSegments | src/main/java/com/frahhs/lightlib/util/recipe/RecipeManager.java:59-63 | every failure is an index out of bounds |
| Recipes.DecodeRow | src/main/java/com/frahhs/lightlib/util/recipe/RecipeManager.java:48-89 | on success the shape is the pattern split on `;`; only the index errors of the text decoding fail here, and the `ShapedRecipe` checks of the rest of `loadRecipe` are `Recipes.BuildRecipe` |
| Recipes.BuildRecipe | src/main/java/com/frahhs/lightlib/util/recipe/RecipeManager.java:66-75 | succeeds exactly when the shape has 1-3 rows of 1-3 characters, all as long as the first, and every ingredient character occurs in it; otherwise IllegalArgument; the recipe has the key, result and shape, an entry for every shape character and exactly the decoded ingredients |
| Recipes.BuildRebuilds | src/main/java/com/frahhs/lightlib/util/recipe/RecipeManager.java:66-75 | a recipe with an accepted shape and an entry per shape character is rebuilt unchanged from its shape and present ingredients |
| Recipes.SplitFirstChar | src/main/java/com/frahhs/lightlib/util/recipe/RecipeManager.java:59-63 | the first piece of a split starts with the text's first character unless that is the separator |
| Recipes.DecodePrefixFailure | src/main/java/com/frahhs/lightlib/util/recipe/RecipeManager.java:59-63 | a failing prefix of the segments makes the whole decode fail |
| Recipes.PatternRoundTrip | src/main/java/com/frahhs/lightlib/util/recipe/RecipeManager.java:33-57 | a well-formed shape survives the pattern column |
| Recipes.TerminatedSnoc | src/main/java/com/frahhs/lightlib/util/recipe/RecipeManager.java:35-41 | one more terminated segment goes at the end |
| Recipes.SplitAllTerminated | src/main/java/com/frahhs/lightlib/util/recipe/RecipeManager.java:59 | splitting terminated segments gives the segments and one empty piece |
| Recipes.JavaSplitTerminated | src/main/java/com/frahhs/lightlib/util/recipe/RecipeManager.java:59 | `split` undoes the termination of non-empty segments free of the separator |
| Recipes.Segments | src/main/java/com/frahhs/lightlib/util/recipe/RecipeManager.java:35-41 | at most one segment per listed character |
| Recipes.EncodeIsTerminated | src/main/java/com/frahhs/lightlib/util/recipe/RecipeManager.java:35-41 | the ingredients column is the segments, each followed by `;` |
| Recipes.EntryRoundTrip | src/main/java/com/frahhs/lightlib/util/recipe/RecipeManager.java:35-63 | a written entry decodes to its character and material |
| Recipes.Listed | src/main/java/com/frahhs/lightlib/util/recipe/RecipeManager.java:35-41 | the present ingredients of exactly the listed characters |
| Recipes.SegmentsWellFormed | src/main/java/com/frahhs/lightlib/util/recipe/RecipeManager.java:35-41 | every written segment is non-empty and free of `;` |
| Recipes.SegmentsDecode | src/main/java/com/frahhs/lightlib/util/recipe/RecipeManager.java:35-63 | decoding the written segments gives the present ingredients of the listed characters |
| Recipes.SegmentsEmpty | src/main/java/com/frahhs/lightlib/util/recipe/RecipeManager.java:35-41 | some segment is written exactly when a listed character has an ingredient |
| Recipes.DecodeEmptyColumn | src/main/java/com/frahhs/lightlib/util/recipe/RecipeManager.java:59-63 | the empty ingredients column fails to decode |
| Recipes.IngredientsRoundTrip | src/main/java/com/frahhs/lightlib/util/recipe/RecipeManager.java:35-63 | a well-formed ingredient map written in any order decodes to its present ingredients; with none present the column fails to decode |
| Recipes.RowRoundTrip | src/main/java/com/frahhs/lightlib/util/recipe/RecipeManager.java:27-89 | a well-formed recipe with an ingredient, saved in any order, loads back as its shape and present ingredients |
| Recipes.RecipeStore.constructor | src/main/java/com/frahhs/lightlib/util/recipe/RecipeManager.java:22-25 | an empty table |
| Recipes.RecipeStore.Lookup | src/main/java/com/frahhs/lightlib/util/recipe/RecipeManager.java:48-89 | a storage fault when the database is down; none when there is no row; otherwise the decoded row, before the `ShapedRecipe` checks that `Recipes.BuildRecipe` applies |
| Recipes.RecipeStore.SaveRecipe | src/main/java/com/frahhs/lightlib/util/recipe/RecipeManager.java:27-46 | the item's single row is replaced by the encoded recipe and no other row changes; a down database changes nothing |
| Recipes.RecipeStore.LoadRecipe | src/main/java/com/frahhs/lightlib/util/recipe/RecipeManager.java:48-89 | the answer is `Lookup`'s |
| Recipes.RecipeStore.IsRecipePresent | src/main/java/com/frahhs/lightlib/util/recipe/RecipeManager.java:91-101 | whether a row exists, or a storage fault when the database is down |
| Logging.Format | src/main/java/com/frahhs/lightlib/util/logging/ConsoleFormatter.java:12-64 | two or three pieces: the last is a colour reset, and the text before it ends with the message |
| Logging.FormatFollowsTable | src/main/java/com/frahhs/lightlib/util/logging/ConsoleFormatter.java:20-61 | a decorated level starts with its colour and carries its tag; any other level gives the name and message alone |
| Logging.FormatByValue | src/main/java/com/frahhs/lightlib/util/logging/ConsoleFormatter.java:20-58 | levels of equal value format alike |
| HeaderFormat.Repeat | src/main/java/com/frahhs/lightlib/util/ConfigManager.java:99-100 | `n` copies of the character |
| HeaderFormat.Spacing | src/main/java/com/frahhs/lightlib/util/ConfigManager.java:76-100 | the two blanks fill the 54 columns around the header, the right side taking the odd one |
| HeaderFormat.GenerateHeader | src/main/java/com/frahhs/lightlib/util/ConfigManager.java:75-106 | fails exactly when the header is wider than the 54 columns of the box |
| HeaderFormat.GenerateHeaderMiddle | src/main/java/com/frahhs/lightlib/util/ConfigManager.java:108-126 | fails exactly when the header is wider than the 54 columns of the box |
| HeaderFormat.HeaderMiddleShape | src/main/java/com/frahhs/lightlib/util/ConfigManager.java:108-126 | the middle line is one column narrower than the box and holds the header centred |
| HeaderFormat.GenerateHeaderLines | src/main/java/com/frahhs/lightlib/util/ConfigManager.java:75-106 | five lines of equal width: hashes, rule, the middle line closed by `#`, rule, hashes |
| YamlMerge.AsMap | src/main/java/com/frahhs/lightlib/util/YamlUpdater.java:142-143 | a mapping casts to itself, YAML null to a null reference, and anything else fails |
| YamlMerge.Merged | src/main/java/com/frahhs/lightlib/util/YamlUpdater.java:138-146 | the keys are those of both trees; a key only the remote tree has takes the remote value; a local value that is not merged recursively is kept |
| YamlMerge.Merge | src/main/java/com/frahhs/lightlib/util/YamlUpdater.java:138-146 | completes exactly when the trees are mergeable, and then is null exactly when the local tree is |
| YamlMerge.UpdateYaml | src/main/java/com/frahhs/lightlib/util/YamlUpdater.java:138-146 | completes exactly when the trees are mergeable, giving `Merge`'s tree; otherwise the failure is a null pointer or a class cast |
| YamlMerge.CoversSelf | src/main/java/com/frahhs/lightlib/util/YamlUpdater.java:138-146 | a tree covers itself |
| YamlMerge.CoversSelfEntry | src/main/java/com/frahhs/lightlib/util/YamlUpdater.java:138-146 | a value covers itself |
| YamlMerge.MergeCovers | src/main/java/com/frahhs/lightlib/util/YamlUpdater.java:138-146 | after a merge that completes, every remote key at every depth is present locally |
| YamlMerge.MergeCoveredIsIdentity | src/main/java/com/frahhs/lightlib/util/YamlUpdater.java:138-146 | merging into a tree that covers the remote one completes and changes nothing |
| YamlMerge.MergeIdempotent | src/main/java/com/frahhs/lightlib/util/YamlUpdater.java:138-146 | merging the same remote tree twice is merging it once |
| YamlMerge.LanguageFiles | src/main/java/com/frahhs/lightlib/util/YamlUpdater.java:77-79 | exactly the listed names ending with `.yml`, no more of them than names listed |
| YamlMerge.ElementName | src/main/java/com/frahhs/lightlib/util/YamlUpdater.java:75-76 | an element that is not an object throws IllegalStateException, an object without `name` a null pointer, and a primitive name reads as its text |
| YamlMerge.FetchedReadsEveryName | src/main/java/com/frahhs/lightlib/util/YamlUpdater.java:74-80 | the walk over the elements completes exactly when every element's name can be read, and then gives exactly the names ending with `.yml`, in listing order; a failing walk carries the fault of the first unreadable element |
| YamlMerge.FetchAvailableLanguages | src/main/java/com/frahhs/lightlib/util/YamlUpdater.java:61-83 | an empty list without a response; a null pointer for a body holding no JSON value, which Gson reads as null; null for a body that is not a JSON array; otherwise it fails exactly when some element's name cannot be read, with the walk's fault, and else gives the language files among the names |
| Config.ClassNameIsConstructor | src/main/java/com/frahhs/lightlib/provider/ConfigProvider.java:67-80 | values have the same class name exactly when they have the same kind |
| Config.Leaves | src/main/java/com/frahhs/lightlib/provider/ConfigProvider.java:36-51 | exactly the paths whose value is not a section, with their values |
| Config.Typed | src/main/java/com/frahhs/lightlib/provider/ConfigProvider.java:109-185 | a missing path fails with a null pointer, a value of another class with a class cast, otherwise the value |
| Config.TypedExclusive | src/main/java/com/frahhs/lightlib/provider/ConfigProvider.java:109-185 | at most one typed getter succeeds on a path |
| Config.EditSpec | src/main/java/com/frahhs/lightlib/provider/ConfigProvider.java:67-80 | a key not in the file is refused, then a null value fails, then a value of another class is refused, each with nothing changed; otherwise both maps take the new value |
| Config.EditKeepsClasses | src/main/java/com/frahhs/lightlib/provider/ConfigProvider.java:67-80 | an edit never changes the file's paths nor the class of any value |
| Config.EditThenGet | src/main/java/com/frahhs/lightlib/provider/ConfigProvider.java:67-90 | after an edit the key reads the new value and every other path its old one; a typed getter that worked before still works |
| Config.ConfigProvider.constructor | src/main/java/com/frahhs/lightlib/provider/ConfigProvider.java:25-31 | the configuration's leaf values are read |
| Config.ConfigProvider.ReadConfig | src/main/java/com/frahhs/lightlib/provider/ConfigProvider.java:36-58 | the map holds exactly the leaf values |
| Config.ConfigProvider.EditConfig | src/main/java/com/frahhs/lightlib/provider/ConfigProvider.java:67-80 | the new file, map and outcome are those of `EditSpec` |
| Config.ConfigProvider.Get | src/main/java/com/frahhs/lightlib/provider/ConfigProvider.java:88-90 | the value under the path, and null exactly when there is none |
| Config.ConfigProvider.PathExist | src/main/java/com/frahhs/lightlib/provider/ConfigProvider.java:98-100 | true exactly when `get` finds a value |
| Config.ConfigProvider.GetBoolean | src/main/java/com/frahhs/lightlib/provider/ConfigProvider.java:109-117 | the boolean under the path, failing exactly as `Typed` does |
| Config.ConfigProvider.GetInt | src/main/java/com/frahhs/lightlib/provider/ConfigProvider.java:126-134 | the integer under the path, failing exactly as `Typed` does |
| Config.ConfigProvider.GetDouble | src/main/java/com/frahhs/lightlib/provider/ConfigProvider.java:143-151 | the double under the path, failing exactly as `Typed` does |
| Config.ConfigProvider.GetString | src/main/java/com/frahhs/lightlib/provider/ConfigProvider.java:160-168 | the string under the path, failing exactly as `Typed` does |
| Config.ConfigProvider.GetStringList | src/main/java/com/frahhs/lightlib/provider/ConfigProvider.java:177-185 | the list under the path, failing exactly as `Typed` does |
| JavaStrings.JavaSplitJoin | src/main/java/com/frahhs/lightlib/util/recipe/RecipeManager.java:33-57 | `split` undoes `String.join` on non-empty rows free of the separator |

## Left out

- I/O is not modelled: the log output, JDBC connections and statements, the HTTP requests of `YamlUpdater`, and the loading and saving of YAML files. Their answers are parameters: a `failing` flag, an `online` table, a listing, a folder map.
- The database is the rows of two tables. `BlocksPlaced` has no unique location key, so several rows may share a position. `ShapedRecipe` has a unique `item` column.
- Floating point is not modelled. Locations use block coordinates, so the +0.5 centring offsets of `place` are dropped. The display's brightness and scale are not modelled. Configuration doubles are `real`.
- `HashMap` iteration order is an arbitrary enumeration of the keys, and each method promises its result for some such order.
- User callbacks (`onLoad`, `onEnable`, `onDisable`) are constants of each feature: return, throw an `Error`, or throw an `Exception`. What a bag does in `onEnable`/`onDisable` is not modelled; only the calls are logged.
- `Material.matchMaterial` is the identity on material names.
- An item's localized name is a constant of the item.
- `Bukkit.getPlayer` resolution of a placer is not modelled; the placer is an id.
- Custom events are not modelled as objects. What their listeners decide is an input of the listener methods.
- Whether a material is a block (`isBlock`) is a set parameter.
- The two-argument `LightBlock` constructor is the three-argument one with no placer.
- `Locale` normalisation is not modelled. A missing message in a YAML file is `None`. `String.format` arguments of `getMessage` are not modelled.
- `Integer` and `Long` values are both unbounded integers. The file write of `saveConfig` is not modelled.
- The `Localization` constructor receives the prefix already read from the configuration. `mkdirs` and `saveResource` of `loadLanguageFiles` are not modelled.
- The escape codes of `ConsoleColor` are not modelled; colours are symbolic.
- Crafting.CustomRecipesListener.OnCraft: the messages are appended after the walk over the items rather than one per turn. The player's inbox and the event's flag end the same.
- Features.Shape: the feature graph is described by a finite unfolding, so a feature that is its own descendant is outside the model.
- FeatureRegistry.FeatureManager.UnregisterFeatures: the world is stated with no configuration in view, because tearing down touches none.
- HeaderFormat.GenerateHeader and HeaderFormat.GenerateHeaderMiddle: the exception message leaves out the header length that the source formats into it.
- HeaderFormat.GenerateHeader, HeaderFormat.GenerateHeaderMiddle and Recipes.BuildRecipe: Java's `String.length()` counts UTF-16 code units and Dafny's `|s|` counts Unicode scalar values, so the widths, the 54-column bound and the 1-3 character shape rows agree with the source only for text inside the Basic Multilingual Plane; a supplementary character (an emoji, say) counts twice in Java and once here. The same holds for `Recipes.ShapeAccepted` and `Recipes.DecodeEntry`.
- ItemRegistry.ItemManager.UnregisterItems and ItemRegistry.UnregisterItemSpec: the item passed in is taken to have its key assigned. When a different, never-initialised instance with a registered identifier and a recipe is passed, `removeRecipe` receives null and throws IllegalArgumentException before the identifier leaves the map; the model removes the identifier. This also holds for `Features.LightFeature.UnregisterItems`.
- YamlMerge.FetchAvailableLanguages: the JSON text is not parsed. Which bodies Gson reads as null (`Blank`), rejects with a syntax error (`Malformed`) or reads as an array is part of the listing it receives, and a JSON primitive's text is taken as given. `update()`, which catches the null pointer, the IllegalStateException and the UnsupportedOperationException just as it handles a null answer, is I/O and not modelled.
- Items.LightItem.Key: Bukkit's `NamespacedKey` lower-cases with `toLowerCase(Locale.ROOT)`; the model lowers ASCII letters only. The one non-ASCII letter that folds into an allowed character (the Kelvin sign, U+212A, to `k`) is therefore refused by the model and accepted by Bukkit. The namespace is taken as the already lower-cased, valid plugin name.
- Items.LightItem.ChooseRecipe: the Bukkit checks modelled are the shape and ingredient checks of `ShapedRecipe.shape` and `setIngredient`; the space character gets no special treatment, and checks that newer Bukkit versions add on the result stack are not modelled.
- Recipes.DecodeRow and Recipes.RecipeStore.Lookup: they model the text decoding of `loadRecipe` only; the IllegalArgumentException that `shape` and `setIngredient` throw for a bad stored row is modelled by `Recipes.BuildRecipe` inside `Items.LightItem.ChooseRecipe`, where it escapes `getShapedRecipe` and `registerItems`.
- ItemRegistry.AddRecipe: a recipe whose key is taken is ignored, as `Server.addRecipe` documents with its `false` answer; server implementations that throw instead are not modelled.
- Crafting.CraftPermission: Java's `toLowerCase()` depends on the default locale and folds every Unicode letter (`É` to `é`, and `İ` to two characters); the model lowers ASCII capitals only, one character for each.
- Messages.Localization.Reload: `getLightConfig().getString("prefix")` belongs to `LightConfig`, which is not part of this model. The prefix is read with `Config.ConfigProvider.GetString`, so a missing or non-string prefix fails the reload, where a Bukkit configuration's `getString` would answer null or the value's text.
- Only AIR is treated as a material without item metadata (`init` and `clean` meet a null pointer on it); other materials without metadata are not singled out.
- Database failures inside the `isLightBlock` queries are not modelled; those queries always answer.
- Features.GetPath has no ensures of its own. Its meaning is stated by `Features.PathIsJoinedChain`.
- Items.LightItem.Template has no ensures of its own. What the template holds is stated by `Init` and `GetItemStack`.
- Blocks.DeleteAt has no ensures of its own. Its meaning is stated by `DeleteAtFilters`, `DeleteAtAbsent` and `DeleteAtAppend`.
- Crafting.CraftPermission has no ensures of its own. Its meaning is stated by the two lemmas after it.
- Messages.Colour has no ensures of its own. Its meaning is stated by the two lemmas after it.
- Not part of this model: the `LightPlugin` lifecycle, `UpdateChecker`, `FileUtil`, the GUI package, the `LightConfig` wrappers, and the initialisation and description parts of `ConfigManager`.
- Three trivial operations are not modelled: `Localization.getPrefix`, `ConfigProvider.reload` (which is `readConfig`, modelled by `ReadConfig`) and `LightItem.getName` (the name is a constant).

## Findings

| source | as written | input that shows it | evidently intended | confidence | as-written member | corrected member |
|---|---|---|---|---|---|---|
| src/main/java/com/frahhs/lightlib/feature/LightFeature.java:68 | `unregisterSubFeatures` calls `registerFeatures` on each sub-feature | a feature with one sub-feature whose id differs from its own, then `unregisterFeatures` on the feature | each sub-feature is torn down: `onDisable` runs and it leaves the feature map | not executed | FeatureRegistry.TeardownAsWrittenKeepsChildren | FeatureRegistry.TeardownEffect |
| src/main/java/com/frahhs/lightlib/provider/Localization.java:75 | every `&` is replaced by the two characters U+0E22 U+0E07, the Windows-874 reading of the UTF-8 bytes of `§` | the message `&a` | `&a` becomes `§a`, the colour code for green | not executed | Messages.ColourAsWrittenShowsCodes | Messages.ColourPositionwise |
| src/main/java/com/frahhs/lightlib/item/ItemManager.java:103-105 | `dispose` removes entries from the map whose key set it is iterating | two registered items, then `dispose()` | every item is unregistered | not executed | ItemRegistry.DisposeAsWrittenStops | ItemRegistry.ItemManager.Dispose |
