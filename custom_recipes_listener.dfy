/** `CustomRecipesListener`: crafting a light item needs the permission
    `<prefix>.craft.<name>`; without it the craft is cancelled and the player
    is told so. */
module Crafting {
  import opened Common
  import opened JavaStrings
  import opened Inventory
  import opened Items
  import opened ItemRegistry
  import opened Messages

  /** The permission prefix of `LightOptions` unless the plugin sets another. */
  const DefaultPermissionPrefix: string := "light"

  /** The message path of the refusal. */
  const NoPermissions: string := "general.no_permissions"

  /** The permission that crafting the item called `name` needs. */
  function CraftPermission(prefix: string, name: string): string
  {
    prefix + ".craft." + LowerAscii(name)
  }

  /** The permission is the prefix, `.craft.`, and the name with no ASCII
      capital left, one character for each character of the name. */
  lemma CraftPermissionShape(prefix: string, name: string)
    ensures var r := CraftPermission(prefix, name);
      && |r| == |prefix| + 7 + |name|
      && r[..|prefix| + 7] == prefix + ".craft."
      && forall i :: |prefix| + 7 <= i < |r| ==> !('A' <= r[i] <= 'Z')
  {
  }

  /** Names that differ only in the case of their ASCII letters need the same
      permission. */
  lemma {:induction false} CraftPermissionIgnoresCase(prefix: string, a: string, b: string)
    requires |a| == |b|
    requires forall i :: 0 <= i < |a| ==> a[i] == b[i] || LowerAscii([a[i]]) == LowerAscii([b[i]])
    ensures CraftPermission(prefix, a) == CraftPermission(prefix, b)
  {
    assert LowerAscii(a) == LowerAscii(b) by {
      forall i | 0 <= i < |a|
        ensures LowerAscii(a)[i] == LowerAscii(b)[i]
      {
        assert LowerAscii([a[i]])[0] == LowerAscii([b[i]])[0];
      }
    }
  }

  /** The player who crafts: the permissions they hold and the chat messages
      sent to them (a message the localization has no file for is null). */
  class Player {
    const permissions: set<string>
    var inbox: seq<Option<string>>

    constructor(permissions: set<string>)
      ensures this.permissions == permissions && inbox == []
    {
      this.permissions := permissions;
      inbox := [];
    }
  }

  /** A `CraftItemEvent`: who crafts, the result of the recipe, and whether
      the craft is cancelled. */
  class CraftItemEvent {
    const player: Player
    const result: ItemStack
    var cancelled: bool

    constructor(player: Player, result: ItemStack)
      ensures this.player == player && this.result == result && !cancelled
    {
      this.player := player;
      this.result := result;
      cancelled := false;
    }
  }

  /** The item stops a player holding `permissions` from crafting `result`:
      it is craftable, its stack is similar to the result and the player
      lacks its crafting permission. */
  predicate Forbids(cur: LightItem, result: ItemStack, permissions: set<string>, prefix: string)
  {
    cur.IsCraftable() && Similar(cur.Template(), result) && CraftPermission(prefix, cur.name) !in permissions
  }

  /** The identifiers of the registered items that refuse the craft. */
  function Refusing(lightItems: map<string, LightItem>, result: ItemStack, permissions: set<string>, prefix: string): (r: set<string>)
    ensures forall id :: id in r <==> id in lightItems && Forbids(lightItems[id], result, permissions, prefix)
  {
    set id | id in lightItems && Forbids(lightItems[id], result, permissions, prefix)
  }

  /** Only crafting the stack of a registered craftable item can be refused. */
  lemma RefusedOnlyLightItems(lightItems: map<string, LightItem>, result: ItemStack, permissions: set<string>, prefix: string)
    requires forall id :: id in lightItems ==> !lightItems[id].IsCraftable() || !Similar(lightItems[id].Template(), result)
    ensures Refusing(lightItems, result, permissions, prefix) == {}
  {
  }

  /** A player holding the crafting permission of every registered item is
      never refused. */
  lemma PermittedNeverRefused(lightItems: map<string, LightItem>, result: ItemStack, permissions: set<string>, prefix: string)
    requires forall id :: id in lightItems ==> CraftPermission(prefix, lightItems[id].name) in permissions
    ensures Refusing(lightItems, result, permissions, prefix) == {}
  {
  }

  /** The chat messages `n` refusals send: `n` copies of the message, none
      when the message cannot be built. */
  function Notices(message: Result<Option<string>, Fault>, n: nat): (r: seq<Option<string>>)
    ensures message.Failure? ==> r == []
    ensures message.Success? ==> |r| == n && forall i :: 0 <= i < n ==> r[i] == message.value
  {
    if message.Failure? || n == 0 then [] else Notices(message, n - 1) + [message.value]
  }

  /** The listener, with the item registry, the messages and the permission
      prefix of the plugin. */
  class CustomRecipesListener {
    const items: ItemManager
    const messages: Localization
    const permissionPrefix: string

    constructor(items: ItemManager, messages: Localization, permissionPrefix: string)
      ensures this.items == items && this.messages == messages && this.permissionPrefix == permissionPrefix
    {
      this.items := items;
      this.messages := messages;
      this.permissionPrefix := permissionPrefix;
    }

    /** The loop of `onCraft` over the registered items, as the set of
        those that refuse the craft: craftable, with a stack similar to the
        result, and a crafting permission the player lacks. */
    method RefusingItems(result: ItemStack, permissions: set<string>) returns (refused: set<string>)
      requires items.Valid()
      ensures refused == Refusing(items.lightItems, result, permissions, permissionPrefix)
    {
      var registered := items.lightItems;
      refused := {};
      var pending := registered.Keys;
      while pending != {}
        invariant pending <= registered.Keys
        invariant forall id :: id in refused <==>
          id in registered && id !in pending && Forbids(registered[id], result, permissions, permissionPrefix)
        decreases pending
      {
        var id :| id in pending;
        var cur := registered[id];
        if cur.IsCraftable() {
          var stack := cur.GetItemStack();
          if Similar(stack.value, result) && CraftPermission(permissionPrefix, cur.name) !in permissions {
            refused := refused + {id};
          }
        }
        pending := pending - {id};
      }
    }

    /** `onCraft(e)`: every registered item that refuses the craft sends the
        player the no-permission message and cancels the event. The message
        is the same at every refusal; one that fails to build stops the
        handler at the first refusal, before anything is sent. */
    method OnCraft(e: CraftItemEvent) returns (r: Outcome<Fault>)
      requires items.Valid()
      modifies e, e.player
      ensures var refused := Refusing(items.lightItems, e.result, e.player.permissions, permissionPrefix);
        var message := messages.GetMessage(NoPermissions, true);
        if refused != {} && message.Failure? then
          r == Fail(message.error) && e.cancelled == old(e.cancelled) && e.player.inbox == old(e.player.inbox)
        else
          && r == Pass
          && e.cancelled == (old(e.cancelled) || refused != {})
          && e.player.inbox == old(e.player.inbox) + Notices(message, |refused|)
    {
      var refused := RefusingItems(e.result, e.player.permissions);
      if refused == {} {
        return Pass;
      }
      var message := messages.GetMessage(NoPermissions, true);
      if message.Failure? {
        return Fail(message.error);
      }
      e.player.inbox := e.player.inbox + Notices(message, |refused|);
      e.cancelled := true;
      return Pass;
    }
  }
}
