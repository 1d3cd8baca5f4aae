/** The server's item values as the library sees them: materials, namespaced
    keys, item stacks with their metadata, and shaped crafting recipes. */
module Inventory {
  import opened Common

  /** A material, by the name of its `Material` constant. */
  type Material = string

  const Air: Material := "AIR"

  /** `NamespacedKey(plugin, key)`: the plugin's namespace and the key. */
  datatype NamespacedKey = NamespacedKey(namespace: string, key: string)

  /** A character `NamespacedKey.isValidKey` allows: `a-z`, `0-9`, `/`, `.`,
      `_` and `-`. */
  predicate KeyChar(c: char)
  {
    'a' <= c <= 'z' || '0' <= c <= '9' || c == '/' || c == '.' || c == '_' || c == '-'
  }

  /** `new NamespacedKey(plugin, key)` accepts the (lower-cased) key: it is
      non-empty, every character is allowed, and `namespace:key` is shorter
      than 256 characters. */
  predicate KeyAccepted(namespace: string, key: string)
  {
    0 < |key| && |namespace| + 1 + |key| < 256 && forall i :: 0 <= i < |key| ==> KeyChar(key[i])
  }

  /** An item stack: its material and amount and the parts of its metadata the
      library reads or writes (display name, lore, custom model data and the
      persistent-data tags). */
  datatype ItemStack = ItemStack(
    material: Material,
    amount: int,
    displayName: Option<string>,
    lore: Option<seq<string>>,
    modelData: Option<int>,
    tags: map<NamespacedKey, string>)

  /** `ItemStack.isSimilar`: equal in everything except the amount. */
  predicate Similar(a: ItemStack, b: ItemStack)
  {
    a.material == b.material && a.displayName == b.displayName && a.lore == b.lore
    && a.modelData == b.modelData && a.tags == b.tags
  }

  /** A shaped recipe: its key, the stack it crafts, the rows of its shape and
      what each shape character stands for (`None` for a character with no
      ingredient). */
  datatype ShapedRecipe = ShapedRecipe(
    key: NamespacedKey,
    result: ItemStack,
    shape: seq<string>,
    ingredients: map<char, Option<Material>>)
}
