/** The parts of the game server the library drives: its recipe book and its
    registry of event listeners. */
module Host {
  import opened Inventory

  /** An event listener object; listeners are told apart by identity. */
  class Listener {
    const name: string

    constructor(name: string)
      ensures this.name == name
    {
      this.name := name;
    }
  }

  /** Removes every occurrence of `l` from `handlers`. */
  function Without(handlers: seq<Listener>, l: Listener): (r: seq<Listener>)
    ensures l !in r
    ensures forall i :: 0 <= i < |r| ==> r[i] in handlers
    ensures forall i :: 0 <= i < |handlers| && handlers[i] != l ==> handlers[i] in r
  {
    if handlers == [] then []
    else (if handlers[0] == l then [] else [handlers[0]]) + Without(handlers[1..], l)
  }

  /** The recipe book and the listener registrations of the server. */
  class Server {
    var recipes: map<NamespacedKey, ShapedRecipe>
    var handlers: seq<Listener>

    constructor()
      ensures recipes == map[] && handlers == []
    {
      recipes := map[];
      handlers := [];
    }

    /** `Server.addRecipe`: a recipe whose key is already in the book is not added. */
    method AddRecipe(recipe: ShapedRecipe) returns (added: bool)
      modifies this
      ensures added <==> recipe.key !in old(recipes)
      ensures recipes == if added then old(recipes)[recipe.key := recipe] else old(recipes)
      ensures handlers == old(handlers)
    {
      added := recipe.key !in recipes;
      if added {
        recipes := recipes[recipe.key := recipe];
      }
    }

    /** `Server.removeRecipe`. */
    method RemoveRecipe(key: NamespacedKey) returns (removed: bool)
      modifies this
      ensures removed <==> key in old(recipes)
      ensures recipes == old(recipes) - {key}
      ensures handlers == old(handlers)
    {
      removed := key in recipes;
      recipes := recipes - {key};
    }

    /** `PluginManager.registerEvents`. */
    method RegisterEvents(l: Listener)
      modifies this
      ensures handlers == old(handlers) + [l]
      ensures recipes == old(recipes)
    {
      handlers := handlers + [l];
    }

    /** `HandlerList.unregisterAll(listener)`. */
    method UnregisterAll(l: Listener)
      modifies this
      ensures handlers == Without(old(handlers), l)
      ensures recipes == old(recipes)
    {
      handlers := Without(handlers, l);
    }
  }
}
