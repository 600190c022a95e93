/** The plugin object: the two tables it owns, the one-tick scheduler queue it
    posts deferred tasks to, and one method per event handler and per deferred
    task. Each method is proved to change the tables as the matching function of
    module Revival says, and to change the server's objects as the plugin's code
    does; the calls it makes into the server are returned as HostCall values and
    not interpreted. */
module Plugin {
  import opened Host
  import opened Revival

  class TotemGhostFix {
    var pendingTotemSaves: map<PlayerId, TotemSaveData>
    var totemReviveCooldowns: map<PlayerId, int>
    /** Tasks posted with a one-tick delay, oldest first. */
    var scheduled: seq<Task>

    function Tables(): Tables
      reads this
    {
      Revival.Tables(pendingTotemSaves, totemReviveCooldowns, scheduled)
    }

    constructor ()
      ensures Tables() == Empty
    {
      pendingTotemSaves := map[];
      totemReviveCooldowns := map[];
      scheduled := [];
    }

    method OnDisable()
      modifies this
      ensures Tables() == DisableStep(old(Tables()))
      ensures pendingTotemSaves == map[] && totemReviveCooldowns == map[]
    {
      pendingTotemSaves := map[];
      totemReviveCooldowns := map[];
    }

    /** The lethal-damage watcher; it reads the player and writes only the pending table. */
    method OnPreDeathDamageCheck(event: EntityDamageEvent, now: int)
      modifies this`pendingTotemSaves
      ensures Tables() == DamageCheck(old(Tables()), Victim(event), event.finalDamage, now)
    {
      if !event.entity.PlayerEntity? {
        return;
      }
      var player := event.entity.player;
      var playerId := player.id;
      if playerId in totemReviveCooldowns && now < totemReviveCooldowns[playerId] {
        return;
      }
      var healthAfterDamage := player.health + player.absorption - event.finalDamage;
      if healthAfterDamage <= 0.0 {
        var offhandItem := player.offHand;
        var mainHandItem := player.mainHand;
        var totemInOffhand := offhandItem.Some? && offhandItem.value.kind == TotemOfUndying && offhandItem.value.amount > 0;
        var totemInMainHand := mainHandItem.Some? && mainHandItem.value.kind == TotemOfUndying && mainHandItem.value.amount > 0;
        if (totemInOffhand || totemInMainHand) && playerId !in pendingTotemSaves {
          pendingTotemSaves := pendingTotemSaves[playerId := TotemSaveData(player.location, totemInOffhand, totemInMainHand)];
        }
      }
    }

    /** The death interceptor. */
    method OnPlayerDeath(event: PlayerDeathEvent)
      modifies this`pendingTotemSaves, this`scheduled, event, event.player`offHand, event.player`mainHand
      ensures Tables() == DeathStep(old(Tables()), event.player.id, old(event.player.offHand), old(event.player.mainHand))
      // the hands become exactly what the off-hand-first check leaves
      ensures var c := Consume(old(event.player.offHand), old(event.player.mainHand));
              if event.player.id in old(pendingTotemSaves) then
                event.player.offHand == c.offHand && event.player.mainHand == c.mainHand
              else
                event.player.offHand == old(event.player.offHand) && event.player.mainHand == old(event.player.mainHand)
      // a revival suppresses every default consequence of the death
      ensures event.player.id in old(pendingTotemSaves)
              && (HoldsTotem(old(event.player.offHand)) || HoldsTotem(old(event.player.mainHand))) ==>
                && event.keepInventory && event.keepLevel && event.droppedExp == 0
                && event.drops == [] && event.deathMessage.None?
      // otherwise the death proceeds untouched
      ensures !(event.player.id in old(pendingTotemSaves)
                && (HoldsTotem(old(event.player.offHand)) || HoldsTotem(old(event.player.mainHand)))) ==>
                unchanged(event) && unchanged(event.player)
    {
      var player := event.player;
      var playerId := player.id;
      if playerId in pendingTotemSaves {
        var consumed := false;
        var offhandStack := player.offHand;
        if offhandStack.Some? && offhandStack.value.kind == TotemOfUndying && offhandStack.value.amount > 0 {
          var decreased := offhandStack.value.(amount := offhandStack.value.amount - 1);
          player.offHand := if decreased.amount <= 0 then None else Some(decreased);
          consumed := true;
        } else {
          var mainHandStack := player.mainHand;
          if mainHandStack.Some? && mainHandStack.value.kind == TotemOfUndying && mainHandStack.value.amount > 0 {
            var decreased := mainHandStack.value.(amount := mainHandStack.value.amount - 1);
            player.mainHand := if decreased.amount <= 0 then None else Some(decreased);
            consumed := true;
          }
        }
        if !consumed {
          pendingTotemSaves := pendingTotemSaves - {playerId};
          return;
        }
        event.keepInventory := true;
        event.keepLevel := true;
        event.droppedExp := 0;
        event.drops := [];
        event.deathMessage := None;
        scheduled := scheduled + [RespawnTask(playerId)];
      }
    }

    /** The respawn finalizer. */
    method OnPlayerRespawn(event: PlayerRespawnEvent)
      modifies this`scheduled, event
      ensures Tables() == RespawnStep(old(Tables()), event.player.id)
      // with a pending save the player comes back exactly where the lethal damage was seen
      ensures event.respawnLocation ==
                if event.player.id in old(pendingTotemSaves) then old(pendingTotemSaves)[event.player.id].deathLocation
                else old(event.respawnLocation)
    {
      var player := event.player;
      var playerId := player.id;
      if playerId in pendingTotemSaves {
        var saveData := pendingTotemSaves[playerId];
        event.respawnLocation := saveData.deathLocation;
        scheduled := scheduled + [EffectsTask(playerId)];
      }
    }

    method OnPlayerQuit(event: PlayerQuitEvent)
      modifies this`pendingTotemSaves, this`totemReviveCooldowns
      ensures Tables() == QuitStep(old(Tables()), event.player.id)
    {
      var playerId := event.player.id;
      pendingTotemSaves := pendingTotemSaves - {playerId};
      totemReviveCooldowns := totemReviveCooldowns - {playerId};
    }

    /** The scheduler runs the oldest task; `player` is the player the task was posted
        for, `online` its connection state at that moment, `respawnThrows` whether the
        forced respawn fails, `now` the clock. Returns the calls made into the server. */
    method RunScheduledTask(player: Player, online: bool, respawnThrows: bool, now: int)
      returns (calls: seq<HostCall>)
      requires scheduled != [] && scheduled[0].id == player.id
      modifies this, player`health
      ensures Tables() == RunTask(old(Tables()), online, respawnThrows, now)
      ensures calls == TaskCalls(old(scheduled[0]), online)
      // only an online player's effects task restores health, to one point
      ensures player.health == if old(scheduled[0]).EffectsTask? && online then 1.0 else old(player.health)
    {
      var task := scheduled[0];
      scheduled := scheduled[1..];
      var playerId := task.id;
      calls := [];
      match task
      case RespawnTask(_) =>
        if online {
          calls := [ForceRespawn(playerId)];
          if respawnThrows {
            pendingTotemSaves := pendingTotemSaves - {playerId};
          }
        } else {
          pendingTotemSaves := pendingTotemSaves - {playerId};
        }
      case EffectsTask(_) =>
        if !online {
          pendingTotemSaves := pendingTotemSaves - {playerId};
          return;
        }
        player.health := 1.0;
        calls := TotemEffects(playerId);
        totemReviveCooldowns := totemReviveCooldowns[playerId := now + ReviveCooldownMilliseconds];
        pendingTotemSaves := pendingTotemSaves - {playerId};
    }
  }

  /** What the damage watcher sees of the damaged entity. */
  function Victim(event: EntityDamageEvent): Option<PlayerView>
    reads if event.entity.PlayerEntity? then {event.entity.player} else {}
  {
    match event.entity
    case PlayerEntity(p) => Some(p.View())
    case OtherEntity => None
  }

  /** The totem effects re-applied after a revival: the three potion effects are removed
      and added again with fixed durations and levels, then the sound and particles. */
  function TotemEffects(id: PlayerId): (calls: seq<HostCall>)
    ensures |calls| == 8
    ensures forall k :: 0 <= k < |calls| ==> calls[k].id == id
    ensures calls[3..6] == [AddPotionEffect(id, PotionEffect(Regeneration, 900, 1)),
                            AddPotionEffect(id, PotionEffect(Absorption, 100, 1)),
                            AddPotionEffect(id, PotionEffect(FireResistance, 800, 0))]
  {
    [RemovePotionEffect(id, Regeneration),
     RemovePotionEffect(id, Absorption),
     RemovePotionEffect(id, FireResistance),
     AddPotionEffect(id, PotionEffect(Regeneration, 900, 1)),
     AddPotionEffect(id, PotionEffect(Absorption, 100, 1)),
     AddPotionEffect(id, PotionEffect(FireResistance, 800, 0)),
     PlaySound(id, ItemTotemUse, 1.0, 1.0),
     SpawnParticle(id, TotemOfUndyingParticle, 50)]
  }

  /** The calls a deferred task makes into the server: a forced respawn attempt for an
      online player's respawn task, the totem effects for an online player's effects task,
      none for a player who has left. */
  function TaskCalls(task: Task, online: bool): (calls: seq<HostCall>)
    ensures !online ==> calls == []
    ensures online && task.RespawnTask? ==> calls == [ForceRespawn(task.id)]
    ensures online && task.EffectsTask? ==> calls == TotemEffects(task.id)
    ensures forall k :: 0 <= k < |calls| ==> calls[k].id == task.id
  {
    if !online then []
    else match task
      case RespawnTask(id) => [ForceRespawn(id)]
      case EffectsTask(id) => TotemEffects(id)
  }

  /** The successful revival driven through the plugin object, as the server would:
      damage, death, the forced-respawn task, the respawn event, the effects task. */
  method SuccessfulRevivalClient(at: Location, elsewhere: Location, t0: int)
  {
    var plugin := new TotemGhostFix();
    var player := new Player(7, 2.0, 0.0, at, Some(ItemStack(TotemOfUndying, 1)), None);
    plugin.OnPreDeathDamageCheck(EntityDamageEvent(PlayerEntity(player), 5.0), t0);
    assert plugin.pendingTotemSaves == map[7 := TotemSaveData(at, true, false)];

    var death := new PlayerDeathEvent(player, 30, [ItemStack(OtherMaterial("dirt"), 3)], Some("slain"));
    plugin.OnPlayerDeath(death);
    assert player.offHand == None && player.mainHand == None;
    assert death.drops == [] && death.deathMessage == None && death.keepInventory;
    assert death.keepLevel && death.droppedExp == 0;
    assert plugin.scheduled == [RespawnTask(7)];

    var calls := plugin.RunScheduledTask(player, true, false, t0 + 50);
    assert calls == [ForceRespawn(7)];

    var respawn := new PlayerRespawnEvent(player, elsewhere);
    plugin.OnPlayerRespawn(respawn);
    assert respawn.respawnLocation == at;

    calls := plugin.RunScheduledTask(player, true, false, t0 + 100);
    assert calls == TotemEffects(7);
    assert player.health == 1.0;
    assert plugin.pendingTotemSaves == map[] && plugin.totemReviveCooldowns == map[7 := t0 + 600];
    assert plugin.scheduled == [];

    // a second lethal hit inside the window is ignored even with a fresh totem
    player.offHand := Some(ItemStack(TotemOfUndying, 2));
    plugin.OnPreDeathDamageCheck(EntityDamageEvent(PlayerEntity(player), 5.0), t0 + 599);
    assert plugin.pendingTotemSaves == map[];
  }
}
