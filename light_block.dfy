/** `LightBlock`: a custom block placed in the world. It is shown by an item
    display entity and recorded as a row of the `BlocksPlaced` table; the
    static queries find blocks by location or by display entity, reconciling
    the table with the entities that currently exist. */
module Blocks {
  import opened Common
  import opened Inventory
  import opened Items

  /** An entity or player UUID, as the text the table stores. */
  type Uuid = string

  /** A block position: the world's name and the block coordinates. */
  datatype BlockPos = BlockPos(world: string, x: int, y: int, z: int)

  /** A row of `BlocksPlaced`: placer, item identifier (column `material`),
      display entity, world and block coordinates. No column is unique. */
  datatype Row = Row(placer: Uuid, material: string, entity: Uuid, pos: BlockPos)

  /** The horizontal direction a player faces. */
  datatype Facing = North | East | South | West

  datatype EntityKind = ItemDisplay | OtherKind(name: string)

  /** A live entity: its type, the block it stands in and its yaw in degrees. */
  datatype Entity = Entity(kind: EntityKind, pos: BlockPos, yaw: int)

  /** A stack dropped into the world at a block. */
  datatype Drop = Drop(pos: BlockPos, stack: ItemStack)

  /** The table and the parts of the world the blocks touch. */
  datatype Ground = Ground(rows: seq<Row>, entities: map<Uuid, Entity>, blocks: map<BlockPos, Material>, drops: seq<Drop>)

  /** What a lookup reconstructs from a row: the item registered under the
      row's identifier (none for a dangling identifier), the position, the
      placer and the display entity when it still exists. */
  datatype View = View(item: Option<LightItem>, pos: BlockPos, placer: Uuid, display: Option<Uuid>)

  /** The rotation `place` gives the display for the placer's facing:
      SOUTH 0, WEST 90, NORTH 180, EAST 270. */
  function Direction(f: Facing): (r: int)
    ensures 0 <= r < 360 && r % 90 == 0
  {
    match f
    case South => 0
    case West => 90
    case North => 180
    case East => 270
  }

  /** The yaw of the display: the direction turned half a circle, so that the
      display faces the player who placed it. */
  function Yaw(f: Facing): (r: int)
    ensures 180 <= r < 540 && r % 90 == 0
  {
    Direction(f) + 180
  }

  function Opposite(f: Facing): Facing
  {
    match f
    case North => South
    case South => North
    case East => West
    case West => East
  }

  /** Facings are told apart by the yaw they give, up to a whole turn, and
      opposite facings give yaws half a turn apart. */
  lemma YawDistinguishesFacing(f: Facing, g: Facing)
    ensures Yaw(f) % 360 == Yaw(g) % 360 <==> f == g
    ensures (Yaw(Opposite(f)) - Yaw(f)) % 360 == 180
  {
  }

  /** The first row at `pos`, which is the row `rs.next()` hands out. */
  function FirstAt(rows: seq<Row>, pos: BlockPos): (r: Option<nat>)
    ensures r.Some? ==> r.value < |rows| && rows[r.value].pos == pos
    ensures r.Some? ==> forall i :: 0 <= i < r.value ==> rows[i].pos != pos
    ensures r.None? <==> forall i :: 0 <= i < |rows| ==> rows[i].pos != pos
  {
    if rows == [] then None
    else if rows[0].pos == pos then Some(0)
    else match FirstAt(rows[1..], pos)
      case None => None
      case Some(i) => Some(i + 1)
  }

  /** The first row that names the display entity `id`. */
  function FirstWithEntity(rows: seq<Row>, id: Uuid): (r: Option<nat>)
    ensures r.Some? ==> r.value < |rows| && rows[r.value].entity == id
    ensures r.Some? ==> forall i :: 0 <= i < r.value ==> rows[i].entity != id
    ensures r.None? <==> forall i :: 0 <= i < |rows| ==> rows[i].entity != id
  {
    if rows == [] then None
    else if rows[0].entity == id then Some(0)
    else match FirstWithEntity(rows[1..], id)
      case None => None
      case Some(i) => Some(i + 1)
  }

  /** `isLightBlock(location)` and `isLightBlock(block)`: some row has the
      position. */
  function IsLightBlockAt(rows: seq<Row>, pos: BlockPos): (r: bool)
    ensures r <==> exists i :: 0 <= i < |rows| && rows[i].pos == pos
  {
    FirstAt(rows, pos).Some?
  }

  /** `isLightBlock(entity)`: some row names the entity. */
  function IsLightBlockEntity(rows: seq<Row>, id: Uuid): (r: bool)
    ensures r <==> exists i :: 0 <= i < |rows| && rows[i].entity == id
  {
    FirstWithEntity(rows, id).Some?
  }

  /** `DELETE FROM BlocksPlaced WHERE world = ? AND blockX = ? ...`: every
      row at `pos` goes, every other row stays, in order. */
  function DeleteAt(rows: seq<Row>, pos: BlockPos): seq<Row>
  {
    if rows == [] then []
    else (if rows[0].pos == pos then [] else [rows[0]]) + DeleteAt(rows[1..], pos)
  }

  /** Deleting keeps exactly the rows at other positions: none left at
      `pos`, every other row kept, nothing added. */
  lemma {:induction false} DeleteAtFilters(rows: seq<Row>, pos: BlockPos)
    ensures var r := DeleteAt(rows, pos);
      && (forall i :: 0 <= i < |r| ==> r[i].pos != pos && r[i] in rows)
      && (forall i :: 0 <= i < |rows| && rows[i].pos != pos ==> rows[i] in r)
  {
    if rows != [] {
      DeleteAtFilters(rows[1..], pos);
      var r := DeleteAt(rows, pos);
      var rest := DeleteAt(rows[1..], pos);
      var head := if rows[0].pos == pos then [] else [rows[0]];
      assert r == head + rest;
      forall i | 0 <= i < |rows| && rows[i].pos != pos
        ensures rows[i] in r
      {
        if i > 0 {
          assert rows[i] == rows[1..][i - 1];
        }
      }
    }
  }

  /** Deleting at a position no row has leaves the table as it was. */
  lemma {:induction false} DeleteAtAbsent(rows: seq<Row>, pos: BlockPos)
    requires !IsLightBlockAt(rows, pos)
    ensures DeleteAt(rows, pos) == rows
  {
    if rows != [] {
      assert rows[0].pos != pos;
      assert !IsLightBlockAt(rows[1..], pos) by {
        forall i | 0 <= i < |rows[1..]| ensures rows[1..][i].pos != pos {
          assert rows[1..][i] == rows[i + 1];
        }
      }
      DeleteAtAbsent(rows[1..], pos);
      assert [rows[0]] + rows[1..] == rows;
    }
  }

  /** Deleting distributes over appending rows. */
  lemma {:induction false} DeleteAtAppend(rows: seq<Row>, more: seq<Row>, pos: BlockPos)
    ensures DeleteAt(rows + more, pos) == DeleteAt(rows, pos) + DeleteAt(more, pos)
  {
    if rows == [] {
      assert rows + more == more;
    } else {
      var head := if rows[0].pos == pos then [] else [rows[0]];
      assert (rows + more)[0] == rows[0];
      assert (rows + more)[1..] == rows[1..] + more;
      DeleteAtAppend(rows[1..], more, pos);
      assert DeleteAt(rows + more, pos) == head + DeleteAt(rows[1..] + more, pos);
      assert DeleteAt(rows, pos) == head + DeleteAt(rows[1..], pos);
    }
  }

  /** `itemManager.get(identifier)`: a registry lookup (the walk over the
      registered items returns exactly this, as `GetById` states). */
  function ItemFor(items: map<string, LightItem>, identifier: string): (r: Option<LightItem>)
    ensures r.Some? <==> identifier in items
    ensures r.Some? ==> r.value == items[identifier]
  {
    if identifier in items then Some(items[identifier]) else None
  }

  /** What the lookups make of the display entity a row names: gone (the
      block has no display), an item display, or an entity of another type,
      for which a `RuntimeException` is thrown. */
  function DisplayOf(id: Uuid, entities: map<Uuid, Entity>): (r: Result<Option<Uuid>, Fault>)
    ensures r.Failure? <==> id in entities && entities[id].kind != ItemDisplay
    ensures r.Failure? ==> r.error == Runtime("Database UUID is not an ItemDisplay UUID")
    ensures r.Success? ==> (r.value.Some? <==> id in entities) && (r.value.Some? ==> r.value.value == id)
  {
    if id !in entities then Success(None)
    else if entities[id].kind != ItemDisplay then Failure(Runtime("Database UUID is not an ItemDisplay UUID"))
    else Success(Some(id))
  }

  /** `getFromLocation(location)`: nothing when no row has the position;
      otherwise the block rebuilt from the first such row. The exception for
      an entity of the wrong type is caught by the method's own handler, so
      that lookup yields nothing too. */
  function LookupAt(rows: seq<Row>, entities: map<Uuid, Entity>, items: map<string, LightItem>, pos: BlockPos): (r: Option<View>)
    ensures !IsLightBlockAt(rows, pos) ==> r.None?
    ensures r.Some? ==> r.value.pos == pos
    ensures IsLightBlockAt(rows, pos) ==>
      var row := rows[FirstAt(rows, pos).value];
      && (r.None? <==> DisplayOf(row.entity, entities).Failure?)
      && (r.Some? ==> r == Some(View(ItemFor(items, row.material), pos, row.placer, DisplayOf(row.entity, entities).value)))
  {
    match FirstAt(rows, pos)
    case None => None
    case Some(i) =>
      match DisplayOf(rows[i].entity, entities)
      case Failure(_) => None
      case Success(d) => Some(View(ItemFor(items, rows[i].material), pos, rows[i].placer, d))
  }

  /** `getFromUUID(entityUUID)`: the block rebuilt from the first row naming
      the entity, at that row's position; nothing when no row names it or
      when the entity is of the wrong type. */
  function LookupEntity(rows: seq<Row>, entities: map<Uuid, Entity>, items: map<string, LightItem>, id: Uuid): (r: Option<View>)
    ensures !IsLightBlockEntity(rows, id) ==> r.None?
    ensures IsLightBlockEntity(rows, id) ==>
      var row := rows[FirstWithEntity(rows, id).value];
      && (r.None? <==> DisplayOf(id, entities).Failure?)
      && (r.Some? ==> r == Some(View(ItemFor(items, row.material), row.pos, row.placer, DisplayOf(id, entities).value)))
  {
    match FirstWithEntity(rows, id)
    case None => None
    case Some(i) =>
      match DisplayOf(rows[i].entity, entities)
      case Failure(_) => None
      case Success(d) => Some(View(ItemFor(items, rows[i].material), rows[i].pos, rows[i].placer, d))
  }

  /** `save(placer)`: refused for a block with no display; otherwise one row
      is inserted. A failing database, and the null pointer a block without
      an item meets inside the same `try`, are logged and swallowed: the
      table is then unchanged. */
  function SaveSpec(rows: seq<Row>, placer: Uuid, item: Option<LightItem>, display: Option<Uuid>, pos: BlockPos, failing: bool): (r: (seq<Row>, Outcome<Fault>))
    ensures display.None? <==> r.1.Fail?
    ensures r.1.Fail? ==> r.1.error == Runtime("Tried to save a not placed Light block!")
    ensures display.Some? && item.Some? && !failing ==> r.0 == rows + [Row(placer, item.value.identifier, display.value, pos)]
    ensures display.None? || item.None? || failing ==> r.0 == rows
    ensures display.Some? && item.Some? && !failing ==> IsLightBlockAt(r.0, pos) && IsLightBlockEntity(r.0, display.value)
  {
    if display.None? then (rows, Fail(Runtime("Tried to save a not placed Light block!")))
    else if failing || item.None? then (rows, Pass)
    else
      var row := Row(placer, item.value.identifier, display.value, pos);
      assert (rows + [row])[|rows|] == row;
      (rows + [row], Pass)
  }

  /** `remove()`: the rows at the block's position are deleted unless the
      database fails, which is logged and swallowed. */
  function RemoveSpec(rows: seq<Row>, pos: BlockPos, failing: bool): (r: seq<Row>)
    ensures !failing ==> !IsLightBlockAt(r, pos)
    ensures failing ==> r == rows
  {
    if failing then rows
    else
      DeleteAtFilters(rows, pos);
      DeleteAt(rows, pos)
  }

  /** `destroy()` on a block at `pos`: nothing unless the position has a row
      and the lookup rebuilds a block; then the display (if it still
      exists) is removed, the block is set to AIR and the rows are deleted. */
  function DestroySpec(g: Ground, items: map<string, LightItem>, pos: BlockPos, failing: bool): (r: Ground)
    ensures LookupAt(g.rows, g.entities, items, pos).None? ==> r == g
    ensures r.drops == g.drops
  {
    if !IsLightBlockAt(g.rows, pos) then g
    else match LookupAt(g.rows, g.entities, items, pos)
      case None => g
      case Some(v) =>
        var entities := if v.display.Some? then g.entities - {v.display.value} else g.entities;
        Ground(RemoveSpec(g.rows, pos, failing), entities, g.blocks[pos := Air], g.drops)
  }

  /** What `destroy` achieves when it acts: no row is left at the position
      (unless the database fails), the display is gone, the block is AIR,
      and rows and entities elsewhere are kept. */
  lemma DestroyClears(g: Ground, items: map<string, LightItem>, pos: BlockPos, failing: bool)
    requires LookupAt(g.rows, g.entities, items, pos).Some?
    ensures var r := DestroySpec(g, items, pos, failing);
      && (!failing ==> !IsLightBlockAt(r.rows, pos))
      && r.blocks == g.blocks[pos := Air]
      && r.entities == g.entities - {g.rows[FirstAt(g.rows, pos).value].entity}
      && (forall i :: 0 <= i < |g.rows| && g.rows[i].pos != pos ==> g.rows[i] in r.rows)
  {
    DeleteAtFilters(g.rows, pos);
  }

  /** A block whose recorded entity is now something other than an item
      display cannot be destroyed: its lookup fails and nothing changes. */
  lemma DestroyBlockedByForeignEntity(g: Ground, items: map<string, LightItem>, pos: BlockPos, failing: bool)
    requires IsLightBlockAt(g.rows, pos)
    requires var e := g.rows[FirstAt(g.rows, pos).value].entity; e in g.entities && g.entities[e].kind != ItemDisplay
    ensures DestroySpec(g, items, pos, failing) == g
  {
  }

  /** `place(placer)`: an item display is spawned at the block, facing the
      player; putting the item's stack on it fails with a null pointer when
      the block has no item or the item was never initialised, after the
      entity exists. Otherwise the display is recorded and the block saved. */
  function PlaceSpec(g: Ground, item: Option<LightItem>, pos: BlockPos, placer: Uuid, facing: Facing, spawned: Uuid, failing: bool): (r: (Ground, Outcome<Fault>))
    reads if item.Some? then {item.value} else {}
    ensures r.0.entities == g.entities[spawned := Entity(ItemDisplay, pos, Yaw(facing))]
    ensures r.0.blocks == g.blocks && r.0.drops == g.drops
    ensures r.1.Fail? <==> item.None? || item.value.item.None?
    ensures r.1.Fail? ==> r.0.rows == g.rows && r.1.error == NullPointer
    ensures r.1.Pass? ==> r.0.rows == SaveSpec(g.rows, placer, item, Some(spawned), pos, failing).0
  {
    var entities := g.entities[spawned := Entity(ItemDisplay, pos, Yaw(facing))];
    if item.None? || item.value.item.None? then (g.(entities := entities), Fail(NullPointer))
    else
      var saved := SaveSpec(g.rows, placer, item, Some(spawned), pos, failing);
      (Ground(saved.0, entities, g.blocks, g.drops), Pass)
  }

  /** A placed block is found again, by position and by its display, as the
      block that was placed, provided the database accepted the row and no
      earlier row claims the position or the entity. */
  lemma PlaceThenLookup(g: Ground, item: LightItem, items: map<string, LightItem>, pos: BlockPos, placer: Uuid, facing: Facing, spawned: Uuid)
    requires item.item.Some? && !IsLightBlockAt(g.rows, pos) && !IsLightBlockEntity(g.rows, spawned)
    requires items == map[item.identifier := item]
    ensures var r := PlaceSpec(g, Some(item), pos, placer, facing, spawned, false).0;
      && LookupAt(r.rows, r.entities, items, pos) == Some(View(Some(item), pos, placer, Some(spawned)))
      && LookupEntity(r.rows, r.entities, items, spawned) == Some(View(Some(item), pos, placer, Some(spawned)))
  {
    var r := PlaceSpec(g, Some(item), pos, placer, facing, spawned, false).0;
    assert r.rows == g.rows + [Row(placer, item.identifier, spawned, pos)];
    assert FirstAt(r.rows, pos) == Some(|g.rows|);
    assert FirstWithEntity(r.rows, spawned) == Some(|g.rows|);
  }

  /** Placing a block on a free position and destroying it again gives back
      the table and the entities; only the block itself is left as AIR. */
  lemma PlaceThenDestroy(g: Ground, item: LightItem, items: map<string, LightItem>, pos: BlockPos, placer: Uuid, facing: Facing, spawned: Uuid)
    requires item.item.Some? && !IsLightBlockAt(g.rows, pos) && !IsLightBlockEntity(g.rows, spawned)
    requires spawned !in g.entities
    ensures var r := DestroySpec(PlaceSpec(g, Some(item), pos, placer, facing, spawned, false).0, items, pos, false);
      && r.rows == g.rows
      && r.entities == g.entities
      && r.blocks == g.blocks[pos := Air]
  {
    var p := PlaceSpec(g, Some(item), pos, placer, facing, spawned, false).0;
    var row := Row(placer, item.identifier, spawned, pos);
    assert p.rows == g.rows + [row];
    assert FirstAt(p.rows, pos) == Some(|g.rows|);
    assert DisplayOf(spawned, p.entities) == Success(Some(spawned));
    var v := View(ItemFor(items, item.identifier), pos, placer, Some(spawned));
    assert LookupAt(p.rows, p.entities, items, pos) == Some(v);
    DeleteAtAppend(g.rows, [row], pos);
    DeleteAtAbsent(g.rows, pos);
    assert DeleteAt([row], pos) == [];
    assert p.entities - {spawned} == g.entities;
  }

  /** A failing database leaves a placed display with no row, and `destroy`
      then finds nothing to act on: the display stays in the world. */
  lemma PlaceFailingOrphansDisplay(g: Ground, item: LightItem, items: map<string, LightItem>, pos: BlockPos, placer: Uuid, facing: Facing, spawned: Uuid)
    requires item.item.Some? && !IsLightBlockAt(g.rows, pos)
    ensures var p := PlaceSpec(g, Some(item), pos, placer, facing, spawned, true).0;
      && spawned in p.entities
      && p.rows == g.rows
      && DestroySpec(p, items, pos, true) == p
  {
  }

  /** The table and the live world. */
  class Directory {
    var rows: seq<Row>
    var entities: map<Uuid, Entity>
    var blocks: map<BlockPos, Material>
    var drops: seq<Drop>

    constructor(rows: seq<Row>, entities: map<Uuid, Entity>, blocks: map<BlockPos, Material>)
      ensures this.rows == rows && this.entities == entities && this.blocks == blocks && drops == []
    {
      this.rows := rows;
      this.entities := entities;
      this.blocks := blocks;
      drops := [];
    }

    function State(): Ground
      reads this
    {
      Ground(rows, entities, blocks, drops)
    }

    /** `getFromLocation(location)`: a new block object for the view, if any. */
    method GetFromLocation(items: map<string, LightItem>, pos: BlockPos) returns (r: Option<LightBlock>)
      ensures r.None? <==> LookupAt(rows, entities, items, pos).None?
      ensures r.Some? ==> fresh(r.value) && r.value.Shows(LookupAt(rows, entities, items, pos).value)
    {
      var v := LookupAt(rows, entities, items, pos);
      if v.None? {
        return None;
      }
      var block := new LightBlock(v.value.item, pos, Some(v.value.placer));
      block.SetItemDisplay(v.value.display);
      return Some(block);
    }

    /** `getFromUUID(entityUUID)`: a new block object for the view, if any. */
    method GetFromUUID(items: map<string, LightItem>, id: Uuid) returns (r: Option<LightBlock>)
      ensures r.None? <==> LookupEntity(rows, entities, items, id).None?
      ensures r.Some? ==> fresh(r.value) && r.value.Shows(LookupEntity(rows, entities, items, id).value)
    {
      var v := LookupEntity(rows, entities, items, id);
      if v.None? {
        return None;
      }
      var block := new LightBlock(v.value.item, v.value.pos, Some(v.value.placer));
      block.SetItemDisplay(v.value.display);
      return Some(block);
    }
  }

  /** A block object: the item, the placer and, once placed or looked up,
      the display entity showing it. */
  class LightBlock {
    const item: Option<LightItem>
    const placer: Option<Uuid>
    var display: Option<Uuid>
    var location: BlockPos

    constructor(item: Option<LightItem>, location: BlockPos, placer: Option<Uuid>)
      ensures this.item == item && this.location == location && this.placer == placer && display == None
    {
      this.item := item;
      this.location := location;
      this.placer := placer;
      display := None;
    }

    /** The object is the block `v` describes. */
    predicate Shows(v: View)
      reads this
    {
      item == v.item && location == v.pos && placer == Some(v.placer) && display == v.display
    }

    method SetLocation(location: BlockPos)
      modifies this`location
      ensures this.location == location
    {
      this.location := location;
    }

    method SetItemDisplay(display: Option<Uuid>)
      modifies this`display
      ensures this.display == display
    {
      this.display := display;
    }

    /** `getPersistentDataContainer()`: the data of the display entity,
      identified here by the entity; with no display a `RuntimeException`. */
    function PersistentDataOwner(): (r: Result<Uuid, Fault>)
      reads this
      ensures r.Failure? <==> display.None?
      ensures r.Failure? ==> r.error == Runtime("Item Display not found.")
      ensures r.Success? ==> Some(r.value) == display
    {
      if display.None? then Failure(Runtime("Item Display not found.")) else Success(display.value)
    }

    /** `save(placer)`. */
    method Save(placerId: Uuid, dir: Directory, failing: bool) returns (r: Outcome<Fault>)
      modifies dir`rows
      ensures (dir.rows, r) == SaveSpec(old(dir.rows), placerId, item, display, location, failing)
    {
      if display.None? {
        return Fail(Runtime("Tried to save a not placed Light block!"));
      }
      if !failing && item.Some? {
        dir.rows := dir.rows + [Row(placerId, item.value.identifier, display.value, location)];
      }
      return Pass;
    }

    /** `remove()`. */
    method Remove(dir: Directory, failing: bool)
      modifies dir`rows
      ensures dir.rows == RemoveSpec(old(dir.rows), location, failing)
    {
      if !failing {
        dir.rows := DeleteAt(dir.rows, location);
      }
    }

    /** `place(placer)`. */
    method Place(placerId: Uuid, facing: Facing, spawned: Uuid, dir: Directory, failing: bool) returns (r: Outcome<Fault>)
      modifies this`display, dir`rows, dir`entities
      ensures (dir.State(), r) == PlaceSpec(old(dir.State()), item, location, placerId, facing, spawned, failing)
      ensures display == if r.Pass? then Some(spawned) else old(display)
    {
      dir.entities := dir.entities[spawned := Entity(ItemDisplay, location, Yaw(facing))];
      if item.None? || item.value.item.None? {
        return Fail(NullPointer);
      }
      display := Some(spawned);
      r := Save(placerId, dir, failing);
    }

    /** `destroy()`. */
    method Destroy(items: map<string, LightItem>, dir: Directory, failing: bool)
      modifies dir`rows, dir`entities, dir`blocks
      ensures dir.State() == DestroySpec(old(dir.State()), items, location, failing)
    {
      if !IsLightBlockAt(dir.rows, location) {
        return;
      }
      var block := dir.GetFromLocation(items, location);
      if block.None? {
        return;
      }
      block.value.Clear(dir, failing);
    }

    /** The part of `destroy()` that acts, on the block the lookup rebuilt:
        its display goes, the block becomes AIR and its rows are deleted. */
    method Clear(dir: Directory, failing: bool)
      modifies dir`rows, dir`entities, dir`blocks
      ensures dir.rows == RemoveSpec(old(dir.rows), location, failing)
      ensures dir.entities == if display.Some? then old(dir.entities) - {display.value} else old(dir.entities)
      ensures dir.blocks == old(dir.blocks)[location := Air]
    {
      if display.Some? {
        dir.entities := dir.entities - {display.value};
      }
      dir.blocks := dir.blocks[location := Air];
      Remove(dir, failing);
    }
  }
}
