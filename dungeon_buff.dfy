/**
 * The dungeon-buff module's hooks, as they run against the host's state.
 *
 * The two configured spell ids are fields of ModuleState; each connected
 * player is a Player object whose set of active auras the hooks change in
 * place. The host's cast and remove calls become the two methods of Player;
 * the spell registry is the set of known spell ids; the connected-player
 * registry is a sequence of distinct Player objects.
 */
module DungeonBuff {
  import opened SpellRules

  /** The two configuration keys whose values are spell ids. */
  datatype ConfigKey = DungeonSpellKey | RaidSpellKey

  /** The error line logged when a configured id names no known spell. */
  datatype LogEntry = NonExistentSpell(key: ConfigKey, id: uint32)

  /** What validation logs for one configured id: one line when it is reset, none otherwise. */
  function ValidationLog(key: ConfigKey, id: uint32, registry: set<uint32>): (log: seq<LogEntry>)
    ensures log != [] <==> IsUnknownSpell(id, registry)
    ensures forall e :: e in log ==> e == NonExistentSpell(key, id)
    ensures |log| <= 1
  {
    if IsUnknownSpell(id, registry) then [NonExistentSpell(key, id)] else []
  }

  /** No player object appears twice in the registry. */
  predicate Distinct(players: seq<Player>)
  {
    forall i, j :: 0 <= i < j < |players| ==> players[i] != players[j]
  }

  /**
   * A connected player: the auras it carries and the map it is on, or None
   * while the host cannot resolve its map (between maps).
   */
  class Player {
    var auras: set<uint32>
    var location: Option<MapKind>

    constructor (auras: set<uint32>, location: Option<MapKind>)
      ensures this.auras == auras && this.location == location
    {
      this.auras := auras;
      this.location := location;
    }

    /** A triggered self-cast: assumed always to leave the aura present. */
    method CastSpell(id: uint32)
      modifies this`auras
      ensures auras == old(auras) + {id}
    {
      auras := auras + {id};
    }

    /** Removes the aura of this spell; nothing happens when it is absent. */
    method RemoveAurasDueToSpell(id: uint32)
      modifies this`auras
      ensures auras == old(auras) - {id}
    {
      auras := auras - {id};
    }
  }

  /**
   * The module's process-wide state: the configured dungeon and raid spell
   * ids (0 = disabled) and the host's spell registry they are checked
   * against, which does not change while the module runs.
   */
  class ModuleState {
    const spellRegistry: set<uint32>
    var dungeonSpellId: uint32
    var raidSpellId: uint32

    /** Every enabled id names a registered spell. */
    ghost predicate Valid()
      reads this
    {
      && (dungeonSpellId == Disabled || dungeonSpellId in spellRegistry)
      && (raidSpellId == Disabled || raidSpellId in spellRegistry)
    }

    /** Both ids start disabled, before any configuration is read. */
    constructor (spellRegistry: set<uint32>)
      ensures this.spellRegistry == spellRegistry
      ensures dungeonSpellId == Disabled && raidSpellId == Disabled
      ensures Valid()
    {
      this.spellRegistry := spellRegistry;
      dungeonSpellId := Disabled;
      raidSpellId := Disabled;
    }

    /**
     * Resets each enabled id the registry does not know to 0, logging one
     * error per reset. On a valid state it changes nothing.
     */
    method ValidateSpells() returns (log: seq<LogEntry>)
      modifies this`dungeonSpellId, this`raidSpellId
      ensures Valid()
      ensures dungeonSpellId == ValidatedId(old(dungeonSpellId), spellRegistry)
      ensures raidSpellId == ValidatedId(old(raidSpellId), spellRegistry)
      ensures log == ValidationLog(DungeonSpellKey, old(dungeonSpellId), spellRegistry)
                   + ValidationLog(RaidSpellKey, old(raidSpellId), spellRegistry)
      ensures old(Valid()) ==> dungeonSpellId == old(dungeonSpellId) && raidSpellId == old(raidSpellId) && log == []
    {
      log := [];
      if dungeonSpellId != Disabled && dungeonSpellId !in spellRegistry {
        log := log + [NonExistentSpell(DungeonSpellKey, dungeonSpellId)];
        dungeonSpellId := Disabled;
      }
      if raidSpellId != Disabled && raidSpellId !in spellRegistry {
        log := log + [NonExistentSpell(RaidSpellKey, raidSpellId)];
        raidSpellId := Disabled;
      }
    }

    /**
     * Reads both ids from configuration (the host's default for a missing
     * key is 0) and validates them.
     */
    method InitializeSpells(configuredDungeonId: uint32, configuredRaidId: uint32) returns (log: seq<LogEntry>)
      modifies this`dungeonSpellId, this`raidSpellId
      ensures Valid()
      ensures dungeonSpellId == ValidatedId(configuredDungeonId, spellRegistry)
      ensures raidSpellId == ValidatedId(configuredRaidId, spellRegistry)
      ensures log == ValidationLog(DungeonSpellKey, configuredDungeonId, spellRegistry)
                   + ValidationLog(RaidSpellKey, configuredRaidId, spellRegistry)
    {
      dungeonSpellId := configuredDungeonId;
      raidSpellId := configuredRaidId;
      log := ValidateSpells();
    }

    /** The start-up hook: the first load of the configuration. */
    method OnBeforeWorldInitialized(configuredDungeonId: uint32, configuredRaidId: uint32) returns (log: seq<LogEntry>)
      modifies this`dungeonSpellId, this`raidSpellId
      ensures Valid()
      ensures dungeonSpellId == ValidatedId(configuredDungeonId, spellRegistry)
      ensures raidSpellId == ValidatedId(configuredRaidId, spellRegistry)
      ensures log == ValidationLog(DungeonSpellKey, configuredDungeonId, spellRegistry)
                   + ValidationLog(RaidSpellKey, configuredRaidId, spellRegistry)
    {
      log := InitializeSpells(configuredDungeonId, configuredRaidId);
    }

    /**
     * The map-change hook. The player's map is resolved (the host hands the
     * hook a player on a map). Each enabled id is cast when the map
     * qualifies and removed otherwise; the raid step runs second.
     */
    method OnPlayerMapChanged(player: Player)
      requires player.location.Some?
      modifies player`auras
      ensures player.auras == AfterMapChange(old(player.auras), dungeonSpellId, raidSpellId, player.location.value)
      ensures raidSpellId != Disabled ==> (raidSpellId in player.auras <==> player.location == Some(Raid))
      ensures dungeonSpellId != Disabled && dungeonSpellId != raidSpellId
              ==> (dungeonSpellId in player.auras <==> player.location == Some(NonRaidDungeon))
      ensures forall x :: x !in EnabledIds(dungeonSpellId, raidSpellId) ==> (x in player.auras <==> x in old(player.auras))
    {
      var kind := player.location.value;
      if dungeonSpellId != Disabled {
        if kind.IsNonRaidDungeon() {
          player.CastSpell(dungeonSpellId);
        } else {
          player.RemoveAurasDueToSpell(dungeonSpellId);
        }
      }
      if raidSpellId != Disabled {
        if kind.IsRaid() {
          player.CastSpell(raidSpellId);
        } else {
          player.RemoveAurasDueToSpell(raidSpellId);
        }
      }
    }

    /**
     * The configuration-load hook. Only a reload does anything: it re-reads
     * and validates both ids and, when the pair changed, brings every
     * connected player in line with the new pair by the reload rule.
     */
    method OnAfterConfigLoad(reload: bool, configuredDungeonId: uint32, configuredRaidId: uint32, players: seq<Player>)
      returns (log: seq<LogEntry>)
      requires Distinct(players)
      modifies this`dungeonSpellId, this`raidSpellId, players`auras
      ensures !reload ==> && dungeonSpellId == old(dungeonSpellId) && raidSpellId == old(raidSpellId)
                          && log == []
                          && forall j :: 0 <= j < |players| ==> players[j].auras == old(players[j].auras)
      ensures reload ==> && Valid()
                         && dungeonSpellId == ValidatedId(configuredDungeonId, spellRegistry)
                         && raidSpellId == ValidatedId(configuredRaidId, spellRegistry)
                         && log == ValidationLog(DungeonSpellKey, configuredDungeonId, spellRegistry)
                                 + ValidationLog(RaidSpellKey, configuredRaidId, spellRegistry)
      ensures reload && dungeonSpellId == old(dungeonSpellId) && raidSpellId == old(raidSpellId)
              ==> forall j :: 0 <= j < |players| ==> players[j].auras == old(players[j].auras)
      ensures reload && (dungeonSpellId != old(dungeonSpellId) || raidSpellId != old(raidSpellId))
              ==> forall j :: 0 <= j < |players| ==>
                    players[j].auras == AfterReload(old(players[j].auras), old(dungeonSpellId), old(raidSpellId),
                                                    dungeonSpellId, raidSpellId, players[j].location)
    {
      if !reload {
        return [];
      }
      var oldDungeonSpellId, oldRaidSpellId := dungeonSpellId, raidSpellId;
      log := InitializeSpells(configuredDungeonId, configuredRaidId);
      if dungeonSpellId == oldDungeonSpellId && raidSpellId == oldRaidSpellId {
        return;
      }
      for i := 0 to |players|
        invariant dungeonSpellId == ValidatedId(configuredDungeonId, spellRegistry)
        invariant raidSpellId == ValidatedId(configuredRaidId, spellRegistry)
        invariant forall j :: 0 <= j < i ==>
                    players[j].auras == AfterReload(old(players[j].auras), oldDungeonSpellId, oldRaidSpellId,
                                                    dungeonSpellId, raidSpellId, players[j].location)
        invariant forall j :: i <= j < |players| ==> players[j].auras == old(players[j].auras)
      {
        var player := players[i];
        if oldDungeonSpellId != Disabled {
          player.RemoveAurasDueToSpell(oldDungeonSpellId);
        }
        if oldRaidSpellId != Disabled {
          player.RemoveAurasDueToSpell(oldRaidSpellId);
        }
        if player.location == None {
          continue;
        }
        var kind := player.location.value;
        if dungeonSpellId != Disabled && kind.IsNonRaidDungeon() {
          player.CastSpell(dungeonSpellId);
        }
        if raidSpellId != Disabled && kind.IsRaid() {
          player.CastSpell(raidSpellId);
        }
      }
    }
  }

  /**
   * Loading the same configuration twice: the second validation keeps both
   * ids and logs nothing.
   */
  method ValidationTwiceEqualsOnce(state: ModuleState, configuredDungeonId: uint32, configuredRaidId: uint32)
    returns (secondLog: seq<LogEntry>)
    modifies state
    ensures secondLog == []
    ensures state.dungeonSpellId == ValidatedId(configuredDungeonId, state.spellRegistry)
    ensures state.raidSpellId == ValidatedId(configuredRaidId, state.spellRegistry)
  {
    var firstLog := state.InitializeSpells(configuredDungeonId, configuredRaidId);
    secondLog := state.ValidateSpells();
  }
}
