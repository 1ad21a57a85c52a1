/**
 * The rules of the dungeon-buff module, as functions on values.
 *
 * A player's active auras are a set of spell ids. The module keeps two
 * configured ids, one for non-raid dungeons and one for raids, where 0 means
 * "disabled". Three rules decide the ids and the auras:
 *  - validation of a configured id against the host's spell registry;
 *  - the map-change rule, run whenever a player changes map;
 *  - the reload rule, run for every connected player when a configuration
 *    reload changes the pair of ids.
 * The imperative hooks in module DungeonBuff are proved against these.
 */
module SpellRules {

  /** Spell ids are unsigned 32-bit integers in the host. */
  type uint32 = x: int | 0 <= x < 0x1_0000_0000

  /** The id that stands for "this spell is disabled". */
  const Disabled: uint32 := 0

  /**
   * How the host classifies the map a player is on. A raid is never a
   * non-raid dungeon; battlegrounds, arenas and the like are Other.
   */
  datatype MapKind = World | NonRaidDungeon | Raid | Other {
    predicate IsNonRaidDungeon() { this == NonRaidDungeon }
    predicate IsRaid() { this == Raid }
  }

  datatype Option<T> = None | Some(value: T)

  /** The enabled (non-zero) ids among a configured pair. */
  function EnabledIds(dungeonId: uint32, raidId: uint32): (ids: set<uint32>)
    ensures forall x :: x in ids <==> x != Disabled && (x == dungeonId || x == raidId)
  {
    {dungeonId, raidId} - {Disabled}
  }

  // ---------------------------------------------------------------------
  // Validation of a configured id
  // ---------------------------------------------------------------------

  /** True when the host would log an error and reset this id to 0. */
  predicate IsUnknownSpell(id: uint32, registry: set<uint32>)
  {
    id != Disabled && id !in registry
  }

  /**
   * A configured id after validation: an enabled id the registry does not
   * know is reset to 0; every other id is kept.
   */
  function ValidatedId(id: uint32, registry: set<uint32>): (r: uint32)
    ensures r == Disabled || r in registry
    ensures IsUnknownSpell(id, registry) ==> r == Disabled
    ensures !IsUnknownSpell(id, registry) ==> r == id
  {
    if IsUnknownSpell(id, registry) then Disabled else id
  }

  /** Validating an already validated id changes nothing. */
  lemma ValidatedIdIdempotent(id: uint32, registry: set<uint32>)
    ensures ValidatedId(ValidatedId(id, registry), registry) == ValidatedId(id, registry)
  {
  }

  // ---------------------------------------------------------------------
  // The map-change rule
  // ---------------------------------------------------------------------

  /**
   * One spell's step of the map-change rule: when the id is enabled, the
   * aura is cast if the map qualifies and removed otherwise; a disabled id
   * leaves the auras alone.
   */
  function ApplySpellRule(auras: set<uint32>, id: uint32, qualifies: bool): (r: set<uint32>)
    ensures id != Disabled ==> (id in r <==> qualifies)
    ensures id == Disabled ==> r == auras
    ensures forall x :: x != id ==> (x in r <==> x in auras)
  {
    if id == Disabled then auras
    else if qualifies then auras + {id}
    else auras - {id}
  }

  /**
   * The auras after a map change: the dungeon step first, then the raid step.
   * The raid step comes last, so when both ids are equal it decides.
   */
  function AfterMapChange(auras: set<uint32>, dungeonId: uint32, raidId: uint32, kind: MapKind): (r: set<uint32>)
    ensures raidId != Disabled ==> (raidId in r <==> kind.IsRaid())
    ensures dungeonId != Disabled && dungeonId != raidId ==> (dungeonId in r <==> kind.IsNonRaidDungeon())
    ensures forall x :: x !in EnabledIds(dungeonId, raidId) ==> (x in r <==> x in auras)
  {
    var afterDungeon := ApplySpellRule(auras, dungeonId, kind.IsNonRaidDungeon());
    ApplySpellRule(afterDungeon, raidId, kind.IsRaid())
  }

  /**
   * A disabled id strips nothing: an aura the player already carries stays
   * unless it is one of the enabled ids.
   */
  lemma DisabledSpellNotStripped(auras: set<uint32>, stale: uint32, dungeonId: uint32, raidId: uint32, kind: MapKind)
    requires stale in auras
    requires stale != dungeonId && stale != raidId
    ensures stale in AfterMapChange(auras, dungeonId, raidId, kind)
  {
  }

  /** With both ids disabled a map change leaves the auras as they were. */
  lemma BothDisabledMapChangeIsNoOp(auras: set<uint32>, kind: MapKind)
    ensures AfterMapChange(auras, Disabled, Disabled, kind) == auras
  {
  }

  /**
   * When both ids are the same enabled spell, the raid step removes what the
   * dungeon step cast: on a non-raid dungeon the player ends without the
   * aura, on a raid with it, and elsewhere without it.
   */
  lemma SameIdsMapChange(auras: set<uint32>, id: uint32, kind: MapKind)
    requires id != Disabled
    ensures id in AfterMapChange(auras, id, id, kind) <==> kind == Raid
    ensures id !in AfterMapChange(auras, id, id, NonRaidDungeon)
  {
  }

  /** Running the map-change rule twice on the same map equals running it once. */
  lemma AfterMapChangeIdempotent(auras: set<uint32>, dungeonId: uint32, raidId: uint32, kind: MapKind)
    ensures AfterMapChange(AfterMapChange(auras, dungeonId, raidId, kind), dungeonId, raidId, kind)
         == AfterMapChange(auras, dungeonId, raidId, kind)
  {
  }

  /**
   * The auras after a player has travelled through a series of maps, one
   * map-change event per map, in order.
   */
  function AfterRoute(auras: set<uint32>, dungeonId: uint32, raidId: uint32, route: seq<MapKind>): (r: set<uint32>)
    ensures forall x :: x !in EnabledIds(dungeonId, raidId) ==> (x in r <==> x in auras)
    ensures route != [] && raidId != Disabled ==> (raidId in r <==> route[|route| - 1].IsRaid())
    ensures route != [] && dungeonId != Disabled && dungeonId != raidId
            ==> (dungeonId in r <==> route[|route| - 1].IsNonRaidDungeon())
    decreases |route|
  {
    if route == [] then auras
    else AfterMapChange(AfterRoute(auras, dungeonId, raidId, route[..|route| - 1]), dungeonId, raidId, route[|route| - 1])
  }

  /**
   * Only the last map matters: two routes that end on the same map leave a
   * player with the same auras, whatever the maps before it were.
   */
  lemma RouteHistoryForgotten(auras: set<uint32>, dungeonId: uint32, raidId: uint32,
                                route1: seq<MapKind>, route2: seq<MapKind>)
    requires route1 != [] && route2 != []
    requires route1[|route1| - 1] == route2[|route2| - 1]
    ensures AfterRoute(auras, dungeonId, raidId, route1) == AfterRoute(auras, dungeonId, raidId, route2)
  {
  }

  // ---------------------------------------------------------------------
  // The reload rule
  // ---------------------------------------------------------------------

  /**
   * An aura the reload does not remove: the player already carries it and it
   * is neither of the old enabled ids.
   */
  predicate KeptThroughReload(auras: set<uint32>, oldDungeonId: uint32, oldRaidId: uint32, id: uint32)
  {
    id in auras && id !in EnabledIds(oldDungeonId, oldRaidId)
  }

  /**
   * One player's auras after a reload that changed the pair of ids: the old
   * enabled ids are removed unconditionally; then, when the player's map is
   * resolved, the new enabled ids are cast where the map qualifies.
   */
  function AfterReload(auras: set<uint32>, oldDungeonId: uint32, oldRaidId: uint32,
                       newDungeonId: uint32, newRaidId: uint32, location: Option<MapKind>): (r: set<uint32>)
    ensures location == None ==> r == auras - EnabledIds(oldDungeonId, oldRaidId)
    ensures newDungeonId != Disabled && newDungeonId != newRaidId
            ==> (newDungeonId in r <==> location == Some(NonRaidDungeon) || KeptThroughReload(auras, oldDungeonId, oldRaidId, newDungeonId))
    ensures newRaidId != Disabled && newRaidId != newDungeonId
            ==> (newRaidId in r <==> location == Some(Raid) || KeptThroughReload(auras, oldDungeonId, oldRaidId, newRaidId))
    ensures newDungeonId != Disabled && newDungeonId == newRaidId
            ==> (newDungeonId in r <==> location == Some(NonRaidDungeon) || location == Some(Raid)
                                         || KeptThroughReload(auras, oldDungeonId, oldRaidId, newDungeonId))
    ensures forall x :: (x in EnabledIds(oldDungeonId, oldRaidId) && x !in EnabledIds(newDungeonId, newRaidId)
                         ==> x !in r)
    ensures forall x :: (x !in EnabledIds(oldDungeonId, oldRaidId) + EnabledIds(newDungeonId, newRaidId)
                         ==> (x in r <==> x in auras))
  {
    var withoutOldDungeon := if oldDungeonId != Disabled then auras - {oldDungeonId} else auras;
    var withoutOld := if oldRaidId != Disabled then withoutOldDungeon - {oldRaidId} else withoutOldDungeon;
    match location
    case None => withoutOld
    case Some(kind) =>
      var withDungeon := if newDungeonId != Disabled && kind.IsNonRaidDungeon()
                         then withoutOld + {newDungeonId} else withoutOld;
      if newRaidId != Disabled && kind.IsRaid() then withDungeon + {newRaidId} else withDungeon
  }

  /**
   * A reload to two distinct ids puts a player on a resolved map exactly in
   * the state the map-change rule keeps: a later map change to the same map
   * changes nothing. This needs the player not to carry a new id already
   * outside the old ids, since the reload only removes old ids.
   */
  lemma ReloadAgreesWithMapChange(auras: set<uint32>, oldDungeonId: uint32, oldRaidId: uint32,
                                  newDungeonId: uint32, newRaidId: uint32, kind: MapKind)
    requires newDungeonId != newRaidId || newDungeonId == Disabled
    requires newDungeonId != Disabled ==> !KeptThroughReload(auras, oldDungeonId, oldRaidId, newDungeonId)
    requires newRaidId != Disabled ==> !KeptThroughReload(auras, oldDungeonId, oldRaidId, newRaidId)
    ensures var reloaded := AfterReload(auras, oldDungeonId, oldRaidId, newDungeonId, newRaidId, Some(kind));
            AfterMapChange(reloaded, newDungeonId, newRaidId, kind) == reloaded
  {
  }

  /**
   * The exception to ReloadAgreesWithMapChange: with both new ids equal, a
   * reload leaves a player in a non-raid dungeon carrying the aura, while
   * the next map change to that same dungeon removes it again.
   */
  lemma ReloadAndMapChangeDisagreeOnSameIds(auras: set<uint32>, oldDungeonId: uint32, oldRaidId: uint32, id: uint32)
    requires id != Disabled
    ensures id in AfterReload(auras, oldDungeonId, oldRaidId, id, id, Some(NonRaidDungeon))
    ensures id !in AfterMapChange(AfterReload(auras, oldDungeonId, oldRaidId, id, id, Some(NonRaidDungeon)),
                                  id, id, NonRaidDungeon)
  {
  }

  /**
   * A reload strips only the old ids: an aura of a new id that the player
   * carried from before, while that id was not configured, survives even
   * off its qualifying map.
   */
  lemma ReloadKeepsStaleAuraOfNewId(auras: set<uint32>, oldDungeonId: uint32, oldRaidId: uint32,
                                    newDungeonId: uint32, newRaidId: uint32, kind: MapKind)
    requires newDungeonId != Disabled && newDungeonId in auras
    requires newDungeonId != oldDungeonId && newDungeonId != oldRaidId
    ensures newDungeonId in AfterReload(auras, oldDungeonId, oldRaidId, newDungeonId, newRaidId, Some(kind))
  {
  }

  // ---------------------------------------------------------------------
  // Worked scenarios
  // ---------------------------------------------------------------------

  /**
   * Dungeon spell 1000 and raid spell 2000: entering a dungeon grants 1000
   * only, then entering a raid swaps it for 2000, then the open world
   * removes both.
   */
  lemma ScenarioDungeonRaidWorld()
    ensures AfterRoute({}, 1000, 2000, [NonRaidDungeon]) == {1000}
    ensures AfterRoute({}, 1000, 2000, [NonRaidDungeon, Raid]) == {2000}
    ensures AfterRoute({}, 1000, 2000, [NonRaidDungeon, Raid, World]) == {}
  {
  }

  /**
   * A reload moves the raid spell from 2000 to 3000 while the dungeon spell
   * stays 1000; a player in a raid carrying 2000 ends with 3000 only.
   */
  lemma ScenarioReloadChangesRaidSpell()
    ensures AfterReload({2000}, 1000, 2000, 1000, 3000, Some(Raid)) == {3000}
  {
  }
}
