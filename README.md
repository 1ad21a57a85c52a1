# Dungeon buff: a verified model

This project models the dungeon-buff module of a game-server plugin
(`src/dungeon_buff.cpp`). The module keeps two configured spell ids, a dungeon
spell and a raid spell, where 0 means "disabled". While a player is in a
non-raid dungeon, they get the dungeon spell's aura. While a player is in a
raid, they get the raid spell's aura. The module has three hooks:

- Start-up (`OnBeforeWorldInitialized`) reads and validates both ids. An
  enabled id that the spell registry does not know is logged and reset to 0.
- `OnPlayerMapChanged` casts or removes each enabled spell on every map change.
- `OnAfterConfigLoad` re-reads the ids on a reload. When the pair changed, it
  strips the old auras from every connected player and re-applies the new ones
  where the player's map qualifies.

The model has two modules:

- `SpellRules` (`spell_rules.dfy`) holds the rules as functions on values:
  - `ValidatedId`: validating one id;
  - `AfterMapChange`: the map-change rule, built from `ApplySpellRule`;
  - `AfterReload`: the reload rule for one player.

  It also holds the lemmas about these rules.
- `DungeonBuff` (`dungeon_buff.dfy`) holds the imperative hooks:
  - `ModuleState` holds the two ids as mutable fields, as the C++ globals do.
  - `Player` holds a mutable aura set and the player's map.
  - `OnAfterConfigLoad` loops over the connected players. Its loop invariant
    says which players are reconciled so far and that the rest are untouched.

Each hook is proved against the matching `SpellRules` function.

How host calls are modelled:
- The host's spell registry is a `set<uint32>`.
- A triggered `CastSpell` inserts the id into the player's aura set. This
  assumes that a triggered self-cast always leaves the aura present.
- `RemoveAurasDueToSpell` removes the id.
- `GetMap`/`FindMap` with `IsNonRaidDungeon`/`IsRaid` become an
  `Option<MapKind>`. `None` is a player whose map cannot be resolved.
- The connected-player registry is a sequence of distinct `Player` objects.
- The configured values that `GetOption` reads are method parameters.
- Spell ids are `uint32`, as in the source (lines 7-8).

Places where the code's behaviour differs from a plain description of the module:
- **Equal ids on a map change.** When both ids are the same enabled spell, a
  player entering a non-raid dungeon ends WITHOUT the aura. The raid step
  (line 30) removes what the dungeon step (line 20) cast. So "carries the
  dungeon effect iff in a non-raid dungeon" holds only when the two ids differ.
  See `SameIdsMapChange`.
- **Equal ids on a reload.** The reload applies the ids in a different way
  (lines 70-74): there, the same player keeps the aura. See
  `ReloadAndMapChangeDisagreeOnSameIds`.
- **Stale auras survive a reload.** A reload removes only the OLD enabled
  ids. Suppose a player already carries an aura of a NEW id that was not
  configured before. That aura survives the reload, even off its qualifying
  map. So the reload does not ensure that "no stale effect survives". The
  model follows the code here. See `ReloadKeepsStaleAuraOfNewId` and the
  precondition of `ReloadAgreesWithMapChange`.

## Model

| member | source | states |
|---|---|---|
| `SpellRules.ValidatedId` | src/dungeon_buff.cpp:91-104 | after validation an id is 0 or registered; an unknown enabled id becomes 0; an id that is 0 or registered is kept |
| `SpellRules.ValidatedIdIdempotent` | src/dungeon_buff.cpp:91-104 | validating twice equals validating once |
| `DungeonBuff.ValidationLog` | src/dungeon_buff.cpp:93-103 | one error line, naming the key and the id, exactly when that id is reset, and none otherwise |
| `SpellRules.ApplySpellRule` | src/dungeon_buff.cpp:17-23 | one spell's step: an enabled id is present afterwards iff the map qualifies; a disabled id changes nothing; every other aura is unchanged |
| `SpellRules.AfterMapChange` | src/dungeon_buff.cpp:15-32 | an enabled raid id is present iff the map is a raid; an enabled dungeon id that differs from the raid id is present iff the map is a non-raid dungeon; auras outside the enabled ids are unchanged |
| `SpellRules.DisabledSpellNotStripped` | src/dungeon_buff.cpp:17-31 | an aura that is neither configured id survives a map change, so disabling a spell does not strip it |
| `SpellRules.BothDisabledMapChangeIsNoOp` | src/dungeon_buff.cpp:17-31 | with both ids 0 a map change leaves the auras unchanged |
| `SpellRules.SameIdsMapChange` | src/dungeon_buff.cpp:20-30 | with both ids equal and enabled, the player holds the aura afterwards iff the map is a raid; on a non-raid dungeon it is gone |
| `SpellRules.AfterMapChangeIdempotent` | src/dungeon_buff.cpp:15-32 | a second map change to the same map changes nothing |
| `SpellRules.AfterRoute` | src/dungeon_buff.cpp:15-32 | after any series of map changes, auras outside the enabled ids are as at the start, and each enabled id is present as the last map dictates |
| `SpellRules.RouteHistoryForgotten` | src/dungeon_buff.cpp:15-32 | two series of map changes that end on the same map leave the same auras |
| `SpellRules.AfterReload` | src/dungeon_buff.cpp:56-75 | reload rule for one player. Unresolved map: the player only loses the old enabled ids. Resolved map: each new enabled id is present iff its map qualifies or the player already carried it outside the old ids. Old ids that are not new ids are absent. All other auras are unchanged |
| `SpellRules.ReloadAgreesWithMapChange` | src/dungeon_buff.cpp:66-74 | after a reload to distinct ids, a player on a resolved map holding no new id outside the old ones is in the state a map change to that map keeps |
| `SpellRules.ReloadAndMapChangeDisagreeOnSameIds` | src/dungeon_buff.cpp:70-74 | with equal new ids, a player in a non-raid dungeon holds the aura after the reload but loses it at the next map change to the same dungeon |
| `SpellRules.ReloadKeepsStaleAuraOfNewId` | src/dungeon_buff.cpp:60-64 | a reload does not remove an aura of a new id that is not an old id |
| `SpellRules.ScenarioDungeonRaidWorld` | src/dungeon_buff.cpp:15-32 | with ids 1000/2000: dungeon gives {1000}, then raid gives {2000}, then world gives {} |
| `SpellRules.ScenarioReloadChangesRaidSpell` | src/dungeon_buff.cpp:56-75 | a reload from (1000, 2000) to (1000, 3000) turns a raid player's {2000} into {3000} |
| `DungeonBuff.Player.CastSpell` | src/dungeon_buff.cpp:20 | a triggered self-cast adds exactly that aura, an assumption about the host |
| `DungeonBuff.Player.RemoveAurasDueToSpell` | src/dungeon_buff.cpp:22 | removes exactly that aura, and does nothing when it is absent |
| `DungeonBuff.ModuleState.constructor` | src/dungeon_buff.cpp:7-8 | both ids start at 0, which is a valid state |
| `DungeonBuff.ModuleState.ValidateSpells` | src/dungeon_buff.cpp:91-104 | each id becomes its validated value, one line is logged per reset, the state becomes valid, and an already valid state is unchanged with nothing logged |
| `DungeonBuff.ModuleState.InitializeSpells` | src/dungeon_buff.cpp:84-89 | the ids become the validated configured values, with the matching log |
| `DungeonBuff.ModuleState.OnBeforeWorldInitialized` | src/dungeon_buff.cpp:78-81 | start-up loads and validates the configuration |
| `DungeonBuff.ValidationTwiceEqualsOnce` | src/dungeon_buff.cpp:84-104 | validating a just-loaded configuration again logs nothing and keeps both ids |
| `DungeonBuff.ModuleState.OnPlayerMapChanged` | src/dungeon_buff.cpp:15-32 | the player's new auras are the map-change rule applied to the old ones, with the presence and frame facts stated directly |
| `DungeonBuff.ModuleState.OnAfterConfigLoad` | src/dungeon_buff.cpp:40-76 | no reload: ids, log and players unchanged. Reload: the ids become the validated configured values. If the pair is unchanged, no player changes. Otherwise every player's auras follow the reload rule applied to their old auras and map |

## Left out

- The shared lock on the player registry (line 54) is left out. It is concurrency: the registry is iterated sequentially as a sequence.
- The registry's iteration order is left out. The source iterates a hash map. The players are distinct objects and each is changed only through its own aura set, so the order does not affect the result.
- Logging: the text of `LOG_ERROR` (lines 95, 101) is not modelled. The model keeps only which key and which id were reported, as a `LogEntry`.
- Configuration reading: `GetOption` (lines 86-87) is not modelled. The configured values, with the host's default of 0 already applied, are parameters.
- Host internals: `GetSpellInfo`, `CastSpell`, `RemoveAurasDueToSpell`, `GetMap`/`FindMap`, `IsNonRaidDungeon`/`IsRaid` are host code and are not part of this model. They become set membership, set insert/remove and the `MapKind` enum.
- Cast outcome: aura duration, expiry, stacking and a cast that fails are not modelled. A triggered cast is assumed always to leave the aura present.
- `DungeonBuff.ModuleState.OnPlayerMapChanged` requires the player's map to be resolved. The source dereferences `GetMap()` without a check (lines 19, 27), so the host must hand it a player that is on a map.
- Script registration and the `PlayerScript`/`WorldScript` base classes (lines 10-13, 35-38, 107-111) are host plumbing and are left out.
