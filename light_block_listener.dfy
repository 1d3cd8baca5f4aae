/** `LightBlockListener`: turns the server's place, break and interact events
    on custom blocks into the library's own events and acts on what their
    listeners decide. */
module BlockListener {
  import opened Common
  import opened Inventory
  import opened Items
  import opened ItemRegistry
  import opened Blocks

  /** `BlockPlaceEvent`: the stack in hand, the block placed, the player and
      the way they face; only the cancelled flag is written. */
  class BlockPlaceEvent {
    const itemInHand: Option<ItemStack>
    const pos: BlockPos
    const player: Uuid
    const facing: Facing
    var cancelled: bool

    constructor(itemInHand: Option<ItemStack>, pos: BlockPos, player: Uuid, facing: Facing)
      ensures this.itemInHand == itemInHand && this.pos == pos && this.player == player && this.facing == facing
      ensures !cancelled
    {
      this.itemInHand := itemInHand;
      this.pos := pos;
      this.player := player;
      this.facing := facing;
      cancelled := false;
    }
  }

  /** `BlockBreakEvent`: the block broken and whether the player is in
      creative mode; the drop flag, the experience and the cancelled flag
      are written. */
  class BlockBreakEvent {
    const pos: BlockPos
    const creative: bool
    var dropItems: bool
    var exp: int
    var cancelled: bool

    constructor(pos: BlockPos, creative: bool, dropItems: bool, exp: int)
      ensures this.pos == pos && this.creative == creative && this.dropItems == dropItems && this.exp == exp
      ensures !cancelled
    {
      this.pos := pos;
      this.creative := creative;
      this.dropItems := dropItems;
      this.exp := exp;
      cancelled := false;
    }
  }

  /** `PlayerInteractEvent`: the clicked block, if any. */
  class PlayerInteractEvent {
    const clicked: Option<BlockPos>
    var cancelled: bool

    constructor(clicked: Option<BlockPos>)
      ensures this.clicked == clicked && !cancelled
    {
      this.clicked := clicked;
      cancelled := false;
    }
  }

  /** What the listeners of a `LightBlockBreakEvent` leave in it. */
  datatype BreakVerdict = BreakVerdict(cancelled: bool, dropItems: bool, exp: int)

  /** The flags of a `BlockBreakEvent`. */
  datatype BreakFlags = BreakFlags(cancelled: bool, dropItems: bool, exp: int)

  /** `onPlace(e)`: `isRegistered` fails on an AIR stack; nothing happens
      unless the stack in hand is recognised as a registered item
      (`recognised`); `get(stack)` then names the item
      (`chosen`; none for an AIR stack, which fails with a null pointer);
      nothing unless its material is a block. Otherwise the block is placed
      first, the custom event fires, and if it is cancelled the block is
      destroyed again and the original event cancelled. A placement that
      fails (an item with no template) throws before the custom event, with
      the display already spawned. */
  function PlaceHandled(g: Ground, e: BlockPlaceEvent, recognised: Result<bool, Fault>, chosen: Option<LightItem>,
                        blockMaterials: set<Material>, items: map<string, LightItem>, spawned: Uuid,
                        failing: bool, customCancelled: bool, wasCancelled: bool): (r: (Ground, bool, Outcome<Fault>))
    reads if chosen.Some? then {chosen.value} else {}
    ensures recognised.Failure? ==> r == (g, wasCancelled, Fail(recognised.error))
    ensures recognised == Success(false) ==> r == (g, wasCancelled, Pass)
    ensures recognised == Success(true) && chosen.None? ==> r == (g, wasCancelled, Fail(NullPointer))
    ensures chosen.Some? && chosen.value.vanillaMaterial !in blockMaterials ==> r.0 == g
    ensures recognised == Success(true) && chosen.Some? && chosen.value.vanillaMaterial in blockMaterials && chosen.value.item.None? ==>
      r.2 == Fail(NullPointer) && r.1 == wasCancelled
    ensures r.1 <==> wasCancelled || (recognised == Success(true) && chosen.Some? && chosen.value.vanillaMaterial in blockMaterials
                                      && chosen.value.item.Some? && customCancelled)
  {
    if recognised.Failure? then (g, wasCancelled, Fail(recognised.error))
    else if !recognised.value then (g, wasCancelled, Pass)
    else if chosen.None? then (g, wasCancelled, Fail(NullPointer))
    else if chosen.value.vanillaMaterial !in blockMaterials then (g, wasCancelled, Pass)
    else
      var (placed, placing) := PlaceSpec(g, chosen, e.pos, e.player, e.facing, spawned, failing);
      if placing.Fail? then (placed, wasCancelled, placing)
      else if customCancelled then (DestroySpec(placed, items, e.pos, failing), true, Pass)
      else (placed, wasCancelled, Pass)
  }

  /** A placement that the custom event cancels is undone: the table and the
      entities are as before and the block is AIR, when the position was free
      and the database works. */
  lemma PlaceCancelledIsUndone(g: Ground, e: BlockPlaceEvent, item: LightItem, blockMaterials: set<Material>,
                               items: map<string, LightItem>, spawned: Uuid, wasCancelled: bool)
    requires item.item.Some? && item.vanillaMaterial in blockMaterials
    requires !IsLightBlockAt(g.rows, e.pos) && !IsLightBlockEntity(g.rows, spawned) && spawned !in g.entities
    ensures var r := PlaceHandled(g, e, Success(true), Some(item), blockMaterials, items, spawned, false, true, wasCancelled);
      && r.0.rows == g.rows && r.0.entities == g.entities && r.0.blocks == g.blocks[e.pos := Air]
      && r.1
  {
    PlaceThenDestroy(g, item, items, e.pos, e.player, e.facing, spawned);
  }

  /** When the database refuses the row, a cancelled placement cannot be
      undone: `destroy` finds no row, and the display entity stays. */
  lemma PlaceCancelledFailingKeepsDisplay(g: Ground, e: BlockPlaceEvent, item: LightItem, blockMaterials: set<Material>,
                                          items: map<string, LightItem>, spawned: Uuid, wasCancelled: bool)
    requires item.item.Some? && item.vanillaMaterial in blockMaterials
    requires !IsLightBlockAt(g.rows, e.pos)
    ensures var r := PlaceHandled(g, e, Success(true), Some(item), blockMaterials, items, spawned, true, true, wasCancelled);
      && r.0.entities == g.entities[spawned := Entity(ItemDisplay, e.pos, Yaw(e.facing))]
      && r.0.rows == g.rows && r.1
  {
    PlaceFailingOrphansDisplay(g, item, items, e.pos, e.player, e.facing, spawned);
  }

  /** An uncancelled placement leaves a block that the lookups find, by
      position and by its display. */
  lemma PlaceKeptIsFound(g: Ground, e: BlockPlaceEvent, item: LightItem, blockMaterials: set<Material>,
                         spawned: Uuid, wasCancelled: bool)
    requires item.item.Some? && item.vanillaMaterial in blockMaterials
    requires !IsLightBlockAt(g.rows, e.pos) && !IsLightBlockEntity(g.rows, spawned)
    ensures var items := map[item.identifier := item];
      var r := PlaceHandled(g, e, Success(true), Some(item), blockMaterials, items, spawned, false, false, wasCancelled);
      && LookupAt(r.0.rows, r.0.entities, items, e.pos) == Some(View(Some(item), e.pos, e.player, Some(spawned)))
      && LookupEntity(r.0.rows, r.0.entities, items, spawned) == Some(View(Some(item), e.pos, e.player, Some(spawned)))
      && r.1 == wasCancelled
  {
    PlaceThenLookup(g, item, map[item.identifier := item], e.pos, e.player, e.facing, spawned);
  }

  /** `onBreak(e)`: nothing unless the position is a custom block that the
      lookup rebuilds; a block whose identifier is no longer registered fails
      with a null pointer (`getItem().getClass()`). A cancelled custom event
      cancels the original and does nothing else. Otherwise the stack of
      `dropped` (the item `get(itemClass)` returned) is dropped when both drop
      flags allow it and the player is not in creative mode, vanilla drops
      are switched off, the experience is taken from the custom event and
      the block is destroyed. */
  function BreakHandled(g: Ground, pos: BlockPos, creative: bool, flags: BreakFlags, items: map<string, LightItem>,
                        verdict: BreakVerdict, dropped: Option<LightItem>, failing: bool): (r: (Ground, BreakFlags, Outcome<Fault>))
    ensures LookupAt(g.rows, g.entities, items, pos).None? ==> r == (g, flags, Pass)
    ensures r.2.Fail? ==> r.0 == g && r.1 == flags && r.2.error == NullPointer
    ensures verdict.cancelled ==> r.0 == g
    ensures verdict.cancelled && LookupAt(g.rows, g.entities, items, pos).Some? && LookupAt(g.rows, g.entities, items, pos).value.item.Some?
      ==> r.1 == flags.(cancelled := true) && r.2 == Pass
  {
    if !IsLightBlockAt(g.rows, pos) then (g, flags, Pass)
    else match LookupAt(g.rows, g.entities, items, pos)
      case None => (g, flags, Pass)
      case Some(v) =>
        if v.item.None? then (g, flags, Fail(NullPointer))
        else if verdict.cancelled then (g, flags.(cancelled := true), Pass)
        else if verdict.dropItems && flags.dropItems && !creative && dropped.None? then (g, flags, Fail(NullPointer))
        else
          var drops := if verdict.dropItems && flags.dropItems && !creative then g.drops + [Drop(pos, dropped.value.Template())] else g.drops;
          (DestroySpec(g.(drops := drops), items, pos, failing), BreakFlags(flags.cancelled, false, verdict.exp), Pass)
  }

  /** An uncancelled break of a registered block: the custom item drops
      exactly when both drop flags allow it and the player is not in
      creative mode, vanilla drops are off, the experience is the custom
      event's, and the block is gone from the table, the world and its
      display. */
  lemma BreakEffect(g: Ground, pos: BlockPos, creative: bool, flags: BreakFlags, items: map<string, LightItem>,
                    verdict: BreakVerdict, dropped: LightItem)
    requires LookupAt(g.rows, g.entities, items, pos).Some? && LookupAt(g.rows, g.entities, items, pos).value.item.Some?
    requires !verdict.cancelled
    ensures var r := BreakHandled(g, pos, creative, flags, items, verdict, Some(dropped), false);
      && r.2 == Pass
      && r.1 == BreakFlags(flags.cancelled, false, verdict.exp)
      && r.0.drops == g.drops + (if verdict.dropItems && flags.dropItems && !creative then [Drop(pos, dropped.Template())] else [])
      && !IsLightBlockAt(r.0.rows, pos)
      && r.0.blocks == g.blocks[pos := Air]
  {
    var drops := if verdict.dropItems && flags.dropItems && !creative then g.drops + [Drop(pos, dropped.Template())] else g.drops;
    DestroyClears(g.(drops := drops), items, pos, false);
  }

  /** What `isRegistered` answers for the stack in hand. */
  function Answered(stack: Option<ItemStack>, items: ItemManager): (r: Result<bool, Fault>)
    reads items
    ensures r.Failure? <==> stack.Some? && stack.value.material == Air
    ensures r.Success? ==> (r.value <==> stack.Some? && items.Recognises(stack.value))
  {
    if stack.Some? && stack.value.material == Air then Failure(NullPointer)
    else Success(stack.Some? && items.Recognises(stack.value))
  }

  /** The listener, with the registry and the directory it consults. */
  class LightBlockListener {
    const items: ItemManager
    const dir: Directory

    constructor(items: ItemManager, dir: Directory)
      ensures this.items == items && this.dir == dir
    {
      this.items := items;
      this.dir := dir;
    }

    /** `onPlace(e)`; `spawned` is the UUID the server gives the new display,
        `customCancelled` what the custom event's listeners decide. */
    method OnPlace(e: BlockPlaceEvent, blockMaterials: set<Material>, spawned: Uuid, failing: bool, customCancelled: bool)
      returns (r: Outcome<Fault>, ghost chosen: Option<LightItem>)
      requires items.Valid()
      modifies dir`rows, dir`entities, dir`blocks, e`cancelled
      ensures chosen.Some? ==> chosen.value in items.lightItems.Values
      ensures (dir.State(), e.cancelled, r) == PlaceHandled(old(dir.State()), e, Answered(e.itemInHand, items),
                                                            chosen, blockMaterials, items.lightItems, spawned, failing, customCancelled, old(e.cancelled))
    {
      chosen := None;
      var registered := items.IsRegistered(e.itemInHand);
      if registered.Failure? {
        return Fail(registered.error), chosen;
      }
      if !registered.value {
        return Pass, chosen;
      }
      var lightItem := items.GetByStack(e.itemInHand);
      chosen := lightItem;
      if lightItem.None? {
        return Fail(NullPointer), chosen;
      }
      if lightItem.value.vanillaMaterial !in blockMaterials {
        return Pass, chosen;
      }
      r := PlaceAndFire(e, lightItem.value, spawned, failing, customCancelled);
    }

    /** The part of `onPlace` that acts: place the block, fire the custom
        event and undo the placement if it is cancelled; a failing placement
        throws before the event fires. */
    method PlaceAndFire(e: BlockPlaceEvent, lightItem: LightItem, spawned: Uuid, failing: bool, customCancelled: bool)
      returns (r: Outcome<Fault>)
      modifies dir`rows, dir`entities, dir`blocks, e`cancelled
      ensures var (placed, placing) := PlaceSpec(old(dir.State()), Some(lightItem), e.pos, e.player, e.facing, spawned, failing);
        && r == placing
        && dir.State() == if placing.Pass? && customCancelled then DestroySpec(placed, items.lightItems, e.pos, failing) else placed
      ensures e.cancelled == (old(e.cancelled) || (r.Pass? && customCancelled))
    {
      var block := new LightBlock(Some(lightItem), e.pos, None);
      r := block.Place(e.player, e.facing, spawned, dir, failing);
      if r.Fail? {
        return;
      }
      if customCancelled {
        block.Destroy(items.lightItems, dir, failing);
        e.cancelled := true;
      }
    }

    /** `onBreak(e)`; `verdict` is what the custom event's listeners leave
        in it. */
    method OnBreak(e: BlockBreakEvent, verdict: BreakVerdict, failing: bool)
      returns (r: Outcome<Fault>, ghost dropped: Option<LightItem>)
      requires items.Valid()
      modifies dir`rows, dir`entities, dir`blocks, dir`drops, e`cancelled, e`dropItems, e`exp
      ensures dropped.Some? ==> dropped.value in items.lightItems.Values
      ensures (dir.State(), BreakFlags(e.cancelled, e.dropItems, e.exp), r)
           == BreakHandled(old(dir.State()), e.pos, e.creative, old(BreakFlags(e.cancelled, e.dropItems, e.exp)),
                           items.lightItems, verdict, dropped, failing)
    {
      dropped := None;
      if !IsLightBlockAt(dir.rows, e.pos) {
        return Pass, dropped;
      }
      var block := dir.GetFromLocation(items.lightItems, e.pos);
      if block.None? {
        return Pass, dropped;
      }
      var b := block.value;
      if b.item.None? {
        return Fail(NullPointer), dropped;
      }
      var item := items.GetByKind(b.item.value.kind);
      dropped := item;
      BreakFound(e, b, item.value, verdict, failing);
      return Pass, dropped;
    }

    /** The part of `onBreak` after the block and its item were found: fire
        the custom event and act on its verdict. */
    method BreakFound(e: BlockBreakEvent, b: LightBlock, dropped: LightItem, verdict: BreakVerdict, failing: bool)
      requires dropped.Initialized()
      modifies dir`rows, dir`entities, dir`blocks, dir`drops, e`cancelled, e`dropItems, e`exp
      ensures verdict.cancelled ==> dir.State() == old(dir.State()) && e.cancelled && e.dropItems == old(e.dropItems) && e.exp == old(e.exp)
      ensures !verdict.cancelled ==>
        var drops := if verdict.dropItems && old(e.dropItems) && !e.creative then old(dir.drops) + [Drop(e.pos, dropped.Template())] else old(dir.drops);
        && dir.State() == DestroySpec(old(dir.State()).(drops := drops), items.lightItems, b.location, failing)
        && e.cancelled == old(e.cancelled) && !e.dropItems && e.exp == verdict.exp
    {
      if verdict.cancelled {
        e.cancelled := true;
        return;
      }
      if verdict.dropItems && e.dropItems && !e.creative {
        var stack := dropped.GetItemStack();
        dir.drops := dir.drops + [Drop(e.pos, stack.value)];
      }
      e.dropItems := false;
      e.exp := verdict.exp;
      b.Destroy(items.lightItems, dir, failing);
    }

    /** `onInteract(e)`: the original event is cancelled exactly when a
        custom block was clicked and the custom event was cancelled. */
    method OnInteract(e: PlayerInteractEvent, customCancelled: bool)
      modifies e`cancelled
      ensures e.cancelled == (old(e.cancelled) || (e.clicked.Some? && IsLightBlockAt(dir.rows, e.clicked.value) && customCancelled))
    {
      if e.clicked.None? {
        return;
      }
      if !IsLightBlockAt(dir.rows, e.clicked.value) {
        return;
      }
      var block := dir.GetFromLocation(items.lightItems, e.clicked.value);
      if customCancelled {
        e.cancelled := true;
      }
    }
  }
}
