# TotemGhostFix, modelled in Dafny

TotemGhostFix is a Bukkit/Spigot server plugin that works around "ghost totems".
A ghost totem is a Totem of Undying that is used up without saving the player.
The plugin tracks each player through a three-stage state machine:

1. The **lethal-damage watcher** sees damage that would bring health plus absorption to zero or below while a hand holds a totem. It records a pending save holding the player's location.
2. The **death interceptor** checks both hands again when the player dies, off-hand first. It takes one totem, suppresses drops, XP loss and the death message, and queues a forced respawn one tick later.
3. The **respawn finalizer** sets the respawn point to the recorded location. One tick later it restores one point of health, re-applies the totem's potion effects, and starts a 500 ms cooldown during which damage is ignored.

A quit handler and the plugin's disable hook clear the tables.

The model has three modules:

- `Host` (host.dfy): the parts of the server the plugin touches.
  - `Player` is a class with two hand slots.
  - `PlayerDeathEvent` and `PlayerRespawnEvent` are classes the plugin mutates.
  - Damage and quit events are records.
  - `HostCall` lists the server calls the plugin makes but the model does not interpret.
- `Revival` (revival.dfy): the plugin's state as a value.
  - The value holds the pending-save table, the cooldown table and the FIFO queue of deferred tasks.
  - There is one transition function per handler and per deferred task.
  - `Apply` and `Run` cover whole event traces.
  - Lemmas prove properties of those traces.
- `Plugin` (plugin.dfy): the class `TotemGhostFix`.
  - Its fields are the two maps and the scheduler queue.
  - Each handler is a method. Each method is proved to update the fields exactly as the matching `Revival` function says. It is also proved to change the player and the events as the plugin's code does. The server calls it makes are returned as `HostCall` values and not interpreted.
  - `SuccessfulRevivalClient` drives one revival through the object's methods, as the server would. It relies only on their contracts.

Inputs the server supplies are method parameters:

- the clock (`now`, in milliseconds);
- whether a player is online when a deferred task runs;
- whether `player.spigot().respawn()` throws.

## Model

| member | source | states |
|---|---|---|
| `Revival.DamageCheck` | src/main/java/com/omdmrotat/totemghostfix/TotemGhostFix.java:79-125 | Non-players are ignored. So are players whose cooldown expiry is after `now`, even on lethal damage with a totem. The watcher never touches the cooldown table or the queue, and never removes or rewrites an entry. The tables change exactly when health + absorption - damage <= 0, a hand holds a totem with amount > 0, and no entry exists yet. The change is one new entry holding the location and both hand flags. |
| `Plugin.TotemGhostFix.OnPreDeathDamageCheck` | src/main/java/com/omdmrotat/totemghostfix/TotemGhostFix.java:79-125 | Changes the tables exactly as `DamageCheck` says. Its frame allows writes to the pending table only, so the inventory, the player and the cooldowns stay unchanged. |
| `Revival.TakeOne` | src/main/java/com/omdmrotat/totemghostfix/TotemGhostFix.java:151-152 | Taking one item empties the slot exactly when the count was 1. Otherwise the count drops by exactly 1 and the kind is kept. |
| `Revival.Consume` | src/main/java/com/omdmrotat/totemghostfix/TotemGhostFix.java:146-166 | The off-hand is consumed exactly when it holds a totem. The main hand is consumed exactly when the off-hand does not and the main hand does. Only the consumed hand changes. With no totem, both hands stay unchanged. On success the two hands together hold exactly one totem fewer. |
| `Revival.DeathStep` | src/main/java/com/omdmrotat/totemghostfix/TotemGhostFix.java:138-221 | With no entry, nothing changes. With an entry and a totem in a hand, the entry is kept and exactly one `RespawnTask` is queued. With an entry and no totem, the entry is deleted and nothing is queued. Cooldowns never change. |
| `Plugin.TotemGhostFix.OnPlayerDeath` | src/main/java/com/omdmrotat/totemghostfix/TotemGhostFix.java:130-221 | Tables change as `DeathStep` says, and the hands become what `Consume` leaves. On a revival, keepInventory and keepLevel are true, droppedExp is 0, drops are empty and the death message is null. Otherwise the event and the player are unchanged. |
| `Revival.RespawnStep` | src/main/java/com/omdmrotat/totemghostfix/TotemGhostFix.java:235-246 | With an entry, exactly one `EffectsTask` is queued and neither map changes. Without one, nothing changes. |
| `Plugin.TotemGhostFix.OnPlayerRespawn` | src/main/java/com/omdmrotat/totemghostfix/TotemGhostFix.java:227-288 | Tables change as `RespawnStep` says. With an entry, the respawn location becomes exactly the stored death location; otherwise it is left alone. |
| `Revival.RunTask` | src/main/java/com/omdmrotat/totemghostfix/TotemGhostFix.java:196-279 | Running a task pops the oldest task and touches only its own player's entries. A respawn task keeps the entry only when the player is online and the respawn did not throw, and it never changes cooldowns. An effects task always deletes the entry. It sets cooldown = now + 500 when the player is online and leaves cooldowns alone when offline. |
| `Plugin.TotemGhostFix.RunScheduledTask` | src/main/java/com/omdmrotat/totemghostfix/TotemGhostFix.java:194-283 | Tables change as `RunTask` says. The calls made are `TaskCalls`. Health becomes 1.0 exactly for an online player's effects task and is unchanged otherwise. |
| `Plugin.TaskCalls` | src/main/java/com/omdmrotat/totemghostfix/TotemGhostFix.java:197-269 | An offline player's task makes no server call. An online player's respawn task makes exactly one forced-respawn call. An online player's effects task makes exactly the `TotemEffects` calls. Every call is for the task's own player. |
| `Plugin.TotemEffects` | src/main/java/com/omdmrotat/totemghostfix/TotemGhostFix.java:259-269 | Exactly eight calls, all for the revived player. Calls 4 to 6 add Regeneration (900 ticks, amplifier 1), Absorption (100, 1) and Fire Resistance (800, 0). |
| `Revival.QuitStep` | src/main/java/com/omdmrotat/totemghostfix/TotemGhostFix.java:292-296 | Both entries of the departing player are gone. Every other player's entries and the queue are unchanged. |
| `Revival.QuitIdempotent` | src/main/java/com/omdmrotat/totemghostfix/TotemGhostFix.java:292-296 | Quitting twice is the same as quitting once. |
| `Plugin.TotemGhostFix.OnPlayerQuit` | src/main/java/com/omdmrotat/totemghostfix/TotemGhostFix.java:292-300 | Tables change as `QuitStep` says. |
| `Revival.DisableStep` | src/main/java/com/omdmrotat/totemghostfix/TotemGhostFix.java:70-74 | Both tables become empty. |
| `Plugin.TotemGhostFix.OnDisable` | src/main/java/com/omdmrotat/totemghostfix/TotemGhostFix.java:70-74 | Tables change as `DisableStep` says. |
| `Plugin.TotemGhostFix.constructor` | src/main/java/com/omdmrotat/totemghostfix/TotemGhostFix.java:49-50 | Both tables and the queue start empty. |
| `Revival.Apply` | src/main/java/com/omdmrotat/totemghostfix/TotemGhostFix.java:79-296 | No event rewrites an existing entry. A new entry comes only from a damage event the watcher accepts, and it holds that event's snapshot. A cooldown is written only by a deferred task, as its clock reading + 500. |
| `Revival.PendingEntryOrigin` | src/main/java/com/omdmrotat/totemghostfix/TotemGhostFix.java:99-118 | After any trace, a player has an entry only if some earlier damage event qualified: lethal, a totem in hand, outside the cooldown, no entry yet. The entry has existed since then without interruption, and it still holds that event's location and flags. |
| `Revival.StillDetectedAt` | src/main/java/com/omdmrotat/totemghostfix/TotemGhostFix.java:112-117 | The origin of an entry survives one more event that keeps the entry. |
| `Revival.CooldownBounded` | src/main/java/com/omdmrotat/totemghostfix/TotemGhostFix.java:275 | If every clock reading in a trace is at most `latest`, no cooldown expires after `latest` + 500. |
| `Revival.CooldownExpires` | src/main/java/com/omdmrotat/totemghostfix/TotemGhostFix.java:89-92 | Once the clock is at least 500 ms past every reading of a trace, no player is on cooldown. |
| `Revival.SuccessfulRevival` | src/main/java/com/omdmrotat/totemghostfix/TotemGhostFix.java:96-279 | Scenario: health 2, absorption 0, damage 5, one totem in the off-hand. The off-hand is emptied. The entry holds the death location until the effects task runs. The run ends with no entry, cooldown = t0 + 100 + 500 and an empty queue. |
| `Revival.TotemRemovedBeforeDeath` | src/main/java/com/omdmrotat/totemghostfix/TotemGhostFix.java:171-177 | Scenario: the totem is gone when the death resolves. The entry is deleted and nothing is queued. |
| `Revival.DisconnectBeforeRespawnTask` | src/main/java/com/omdmrotat/totemghostfix/TotemGhostFix.java:209-213 | Scenario: the player is offline when the forced-respawn task runs. The entry is deleted and nothing remains. |
| `Revival.RepeatedDeathTakesTwoTotems` | src/main/java/com/omdmrotat/totemghostfix/TotemGhostFix.java:138-194 | Scenario: the entry exists and the player dies twice holding two totems in the off-hand. Each death takes one totem. The entry stays, holding the first location, and two respawn tasks are queued. |
| `Revival.EffectsTaskAfterFailedRespawn` | src/main/java/com/omdmrotat/totemghostfix/TotemGhostFix.java:199-208 | Scenario: the respawn event queues the effects task and then the forced respawn throws. The entry is deleted and only the effects task remains queued. That task still sets cooldown = t0 + 100 + 500, because it does not check for the entry (lines 249-279). |

Facts about the code that the model keeps as written:

- Entries are deleted in seven places:
  - the death handler's abort path (line 174);
  - the respawn task, when the player is offline (line 212) or `respawn()` throws (line 206);
  - the effects task, in both branches (lines 251 and 279);
  - on quit (line 295);
  - on disable (line 71).
- Only the damage watcher consults the cooldown (line 89). The death and respawn handlers do not.
- The death handler runs again while an entry exists. A second death before the entry is deleted takes a second totem and queues a second respawn task for the same entry (`Revival.RepeatedDeathTakesTwoTotems`).
- The effects task does not check that the entry still exists (lines 249-279). If the forced respawn fires the respawn event and then throws, the entry is deleted, but the queued effects task still restores health and starts the cooldown (`Revival.EffectsTaskAfterFailedRespawn`).

## Left out

- Plugin start-up (`onEnable`) is not modelled: the server-version check, the event registration and every log line. They are server glue and output only.
- Event priorities and `ignoreCancelled` are not modelled. They decide whether and when the server calls a handler, not what the handler does.
- `player.spigot().respawn()` is an input flag, success or failure. On the server, a successful call fires the respawn event itself. In the model the respawn event is a separate `Respawn` event or method call.
- The scheduler is a FIFO queue of tasks. The one-tick delay and the server cancelling queued tasks when the plugin is disabled are not modelled.
- Potion effects, the sound and the particles are recorded as `HostCall` values. Their effect on the game is not modelled.
- Health, absorption and damage are `real`. Java's `double` rounding is not modelled.
- `Location.clone()` and world coordinates are not modelled. A location is an immutable value.
- Item stacks are values that the model reads, changes and writes back to a slot. The source changes the `ItemStack` object in place with `setAmount` and then writes it back. Aliasing of that object by other references is not modelled.
- Clock readings are unbounded integers. `System.currentTimeMillis() + 500` overflowing a Java `long` is not modelled.
- Player identities are natural numbers, standing for UUIDs.
- The read of `saveData` in `onPlayerDeath` (line 141) affects nothing, so it is not modelled. The two hand flags are stored, but no decision reads them.
