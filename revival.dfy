/** The plugin's own state as a value: the pending-save table, the cooldown
    table and the queue of deferred tasks, with one transition function per
    event handler and per deferred task. The class in plugin.dfy is proved to
    update its fields exactly as these functions say; the lemmas at the end
    are about whole sequences of events. */
module Revival {
  import opened Host

  /** Length of the window after a successful revival in which damage is ignored. */
  const ReviveCooldownMilliseconds: int := 500

  /** A pending save: where the player was when lethal damage was seen, and which
      hands held a totem then (kept for diagnostics, never used for decisions). */
  datatype TotemSaveData = TotemSaveData(
    deathLocation: Location,
    wasInOffhandInitially: bool,
    wasInMainHandInitially: bool)

  /** A deferred task, queued to run one tick later, for one player. */
  datatype Task = RespawnTask(id: PlayerId) | EffectsTask(id: PlayerId)

  datatype Tables = Tables(
    pending: map<PlayerId, TotemSaveData>,
    cooldowns: map<PlayerId, int>,
    queue: seq<Task>)

  const Empty: Tables := Tables(map[], map[], [])

  /** A slot holds a usable totem: not empty, the totem material, positive count. */
  predicate HoldsTotem(slot: Option<ItemStack>)
  {
    slot.Some? && slot.value.kind == TotemOfUndying && slot.value.amount > 0
  }

  /** The number of totems a slot counts for. */
  function Totems(slot: Option<ItemStack>): nat
  {
    if HoldsTotem(slot) then slot.value.amount else 0
  }

  /** Damage is ignored while the clock is strictly before the stored expiry. */
  predicate OnCooldown(t: Tables, id: PlayerId, now: int)
  {
    id in t.cooldowns && now < t.cooldowns[id]
  }

  /** Health plus absorption, minus the final damage, is not positive. */
  predicate Lethal(v: PlayerView, finalDamage: real)
  {
    v.health + v.absorption - finalDamage <= 0.0
  }

  function SaveOf(v: PlayerView): TotemSaveData
  {
    TotemSaveData(v.location, HoldsTotem(v.offHand), HoldsTotem(v.mainHand))
  }

  /** The whole condition under which the damage watcher records a new pending save. */
  predicate Detects(t: Tables, v: PlayerView, finalDamage: real, now: int)
  {
    && !OnCooldown(t, v.id, now)
    && Lethal(v, finalDamage)
    && (HoldsTotem(v.offHand) || HoldsTotem(v.mainHand))
    && v.id !in t.pending
  }

  /** The lethal-damage watcher; `victim` is `None` when the damaged entity is not a player. */
  function DamageCheck(t: Tables, victim: Option<PlayerView>, finalDamage: real, now: int): (r: Tables)
    // it only ever inserts into the pending table
    ensures r.cooldowns == t.cooldowns && r.queue == t.queue
    ensures forall id :: id in t.pending ==> id in r.pending && r.pending[id] == t.pending[id]
    // non-players and players on cooldown are ignored, even on lethal damage with a totem in hand
    ensures victim.None? ==> r == t
    ensures victim.Some? && OnCooldown(t, victim.value.id, now) ==> r == t
    // something changes exactly when the detection condition holds, and then one entry is added
    ensures r != t <==> victim.Some? && Detects(t, victim.value, finalDamage, now)
    ensures r != t ==> r.pending == t.pending[victim.value.id := SaveOf(victim.value)]
  {
    match victim
    case None => t
    case Some(v) =>
      if OnCooldown(t, v.id, now) then t
      else if !Lethal(v, finalDamage) then t
      else
        var inOffhand := HoldsTotem(v.offHand);
        var inMainHand := HoldsTotem(v.mainHand);
        if (inOffhand || inMainHand) && v.id !in t.pending then
          t.(pending := t.pending[v.id := TotemSaveData(v.location, inOffhand, inMainHand)])
        else
          t
  }

  datatype Hand = OffHand | MainHand

  /** The two hands after the death-time check, and the hand a totem was taken from. */
  datatype Consumption = Consumption(offHand: Option<ItemStack>, mainHand: Option<ItemStack>, consumed: Option<Hand>)

  /** A stack with one item fewer; the slot becomes empty when the count reaches zero. */
  function TakeOne(s: ItemStack): (r: Option<ItemStack>)
    requires s.amount > 0
    ensures r.None? <==> s.amount == 1
    ensures r.Some? ==> r.value.kind == s.kind && r.value.amount == s.amount - 1
  {
    var left := s.(amount := s.amount - 1);
    if left.amount <= 0 then None else Some(left)
  }

  /** The death-time re-validation: the off-hand first, then the main hand. */
  function Consume(offHand: Option<ItemStack>, mainHand: Option<ItemStack>): (c: Consumption)
    // slot priority: the off-hand whenever it qualifies, the main hand only otherwise
    ensures c.consumed == Some(OffHand) <==> HoldsTotem(offHand)
    ensures c.consumed == Some(MainHand) <==> !HoldsTotem(offHand) && HoldsTotem(mainHand)
    // only the consumed hand changes, by one item
    ensures c.consumed == Some(OffHand) ==> c.offHand == TakeOne(offHand.value) && c.mainHand == mainHand
    ensures c.consumed == Some(MainHand) ==> c.mainHand == TakeOne(mainHand.value) && c.offHand == offHand
    ensures c.consumed.None? ==> c.offHand == offHand && c.mainHand == mainHand
    // exactly one totem leaves the two hands on success
    ensures c.consumed.Some? ==> Totems(c.offHand) + Totems(c.mainHand) + 1 == Totems(offHand) + Totems(mainHand)
  {
    if HoldsTotem(offHand) then
      Consumption(TakeOne(offHand.value), mainHand, Some(OffHand))
    else if HoldsTotem(mainHand) then
      Consumption(offHand, TakeOne(mainHand.value), Some(MainHand))
    else
      Consumption(offHand, mainHand, None)
  }

  /** The death interceptor's effect on the tables, given the hands at the moment of death. */
  function DeathStep(t: Tables, id: PlayerId, offHand: Option<ItemStack>, mainHand: Option<ItemStack>): (r: Tables)
    ensures r.cooldowns == t.cooldowns
    // without a pending entry the death is left alone
    ensures id !in t.pending ==> r == t
    // with one, the revival goes ahead iff a hand holds a totem now: the entry is kept and one
    // forced respawn is queued; otherwise the entry is deleted and nothing is queued
    ensures id in t.pending && (HoldsTotem(offHand) || HoldsTotem(mainHand)) ==>
              r.pending == t.pending && r.queue == t.queue + [RespawnTask(id)]
    ensures id in t.pending && !(HoldsTotem(offHand) || HoldsTotem(mainHand)) ==>
              r.pending == t.pending - {id} && r.queue == t.queue
  {
    if id in t.pending then
      if Consume(offHand, mainHand).consumed.Some? then
        t.(queue := t.queue + [RespawnTask(id)])
      else
        t.(pending := t.pending - {id})
    else
      t
  }

  /** The respawn finalizer's effect on the tables. */
  function RespawnStep(t: Tables, id: PlayerId): (r: Tables)
    ensures r.pending == t.pending && r.cooldowns == t.cooldowns
    ensures id in t.pending ==> r.queue == t.queue + [EffectsTask(id)]
    ensures id !in t.pending ==> r == t
  {
    if id in t.pending then t.(queue := t.queue + [EffectsTask(id)]) else t
  }

  /** Running the oldest deferred task, given whether its player is still online,
      whether the forced respawn throws, and the clock. */
  function RunTask(t: Tables, online: bool, respawnThrows: bool, now: int): (r: Tables)
    requires t.queue != []
    ensures r.queue == t.queue[1..]
    // a task touches only its own player's entries
    ensures r.pending - {t.queue[0].id} == t.pending - {t.queue[0].id}
    ensures r.cooldowns - {t.queue[0].id} == t.cooldowns - {t.queue[0].id}
    // the respawn task keeps the entry only if the player is online and the respawn succeeded
    ensures t.queue[0].RespawnTask? ==> r.cooldowns == t.cooldowns
    ensures t.queue[0].RespawnTask? ==>
              if online && !respawnThrows then r.pending == t.pending else t.queue[0].id !in r.pending
    // the effects task always ends the pending save; only an online player gets the cooldown
    ensures t.queue[0].EffectsTask? ==> t.queue[0].id !in r.pending
    ensures t.queue[0].EffectsTask? ==>
              r.cooldowns == if online then t.cooldowns[t.queue[0].id := now + ReviveCooldownMilliseconds]
                             else t.cooldowns
  {
    var rest := t.queue[1..];
    match t.queue[0]
    case RespawnTask(id) =>
      if online && !respawnThrows then t.(queue := rest)
      else t.(pending := t.pending - {id}, queue := rest)
    case EffectsTask(id) =>
      if !online then t.(pending := t.pending - {id}, queue := rest)
      else t.(pending := t.pending - {id},
              cooldowns := t.cooldowns[id := now + ReviveCooldownMilliseconds],
              queue := rest)
  }

  /** The quit handler: both entries of the departing player go, everyone else's stay. */
  function QuitStep(t: Tables, id: PlayerId): (r: Tables)
    ensures id !in r.pending && id !in r.cooldowns && r.queue == t.queue
    ensures r.pending - {id} == t.pending - {id} && r.cooldowns - {id} == t.cooldowns - {id}
  {
    t.(pending := t.pending - {id}, cooldowns := t.cooldowns - {id})
  }

  /** Quitting twice is the same as quitting once. */
  lemma QuitIdempotent(t: Tables, id: PlayerId)
    ensures QuitStep(QuitStep(t, id), id) == QuitStep(t, id)
  {
  }

  /** Disabling the plugin empties both tables; the queue belongs to the scheduler. */
  function DisableStep(t: Tables): (r: Tables)
    ensures r.pending == map[] && r.cooldowns == map[] && r.queue == t.queue
  {
    t.(pending := map[], cooldowns := map[])
  }

  /** What the server delivers to the plugin, one at a time on its single thread.
      `Tick` runs the oldest queued task, if any. */
  datatype Event =
    | Damage(victim: Option<PlayerView>, finalDamage: real, now: int)
    | Death(id: PlayerId, offHand: Option<ItemStack>, mainHand: Option<ItemStack>)
    | Respawn(id: PlayerId)
    | Tick(online: bool, respawnThrows: bool, now: int)
    | Quit(id: PlayerId)
    | Disable

  /** The event is a damage event that makes the watcher record a new entry for `id`. */
  predicate Creates(t: Tables, e: Event, id: PlayerId)
  {
    e.Damage? && e.victim.Some? && e.victim.value.id == id && Detects(t, e.victim.value, e.finalDamage, e.now)
  }

  function Apply(t: Tables, e: Event): (r: Tables)
    // an entry is never rewritten while it exists
    ensures forall id :: id in t.pending && id in r.pending ==> r.pending[id] == t.pending[id]
    // a new entry comes only from an accepted damage event, and holds that event's snapshot
    ensures forall id :: id !in t.pending && id in r.pending ==>
              Creates(t, e, id) && r.pending[id] == SaveOf(e.victim.value)
    // a cooldown is only ever written by a deferred task, as its clock reading plus the window
    ensures forall id :: id in r.cooldowns && (id !in t.cooldowns || r.cooldowns[id] != t.cooldowns[id]) ==>
              e.Tick? && r.cooldowns[id] == e.now + ReviveCooldownMilliseconds
  {
    match e
    case Damage(victim, finalDamage, now) => DamageCheck(t, victim, finalDamage, now)
    case Death(id, offHand, mainHand) => DeathStep(t, id, offHand, mainHand)
    case Respawn(id) => RespawnStep(t, id)
    case Tick(online, respawnThrows, now) => if t.queue == [] then t else RunTask(t, online, respawnThrows, now)
    case Quit(id) => QuitStep(t, id)
    case Disable => DisableStep(t)
  }

  /** The tables after a sequence of events. */
  function Run(t: Tables, es: seq<Event>): Tables
    decreases |es|
  {
    if es == [] then t else Apply(Run(t, es[..|es| - 1]), es[|es| - 1])
  }

  /** Event `i` of the trace made the watcher record an entry for `id`. */
  ghost predicate DetectedAt(es: seq<Event>, i: nat, id: PlayerId)
    requires i < |es|
  {
    Creates(Run(Empty, es[..i]), es[i], id)
  }

  /** No stage has deleted the entry for `id` since event `i`. */
  ghost predicate PendingSince(es: seq<Event>, i: nat, id: PlayerId)
    requires i < |es|
  {
    forall j :: i < j <= |es| ==> id in Run(Empty, es[..j]).pending
  }

  /** A pending entry exists only if a lethal damage event with a usable totem, outside the
      cooldown window and with no entry yet, was seen for that player, no terminal stage has
      run since, and the entry still holds exactly the location and flags of that event. */
  lemma {:induction false} PendingEntryOrigin(es: seq<Event>, id: PlayerId)
    requires id in Run(Empty, es).pending
    ensures exists i :: 0 <= i < |es| && DetectedAt(es, i, id) && PendingSince(es, i, id)
                        && Run(Empty, es).pending[id] == SaveOf(es[i].victim.value)
  {
    if es == [] {
      assert false;
    } else {
      var n := |es| - 1;
      var prev := es[..n];
      var before := Run(Empty, prev);
      assert Run(Empty, es) == Apply(before, es[n]);
      if id in before.pending {
        PendingEntryOrigin(prev, id);
        var i :| 0 <= i < |prev| && DetectedAt(prev, i, id) && PendingSince(prev, i, id)
                 && before.pending[id] == SaveOf(prev[i].victim.value);
        StillDetectedAt(es, i, id);
        assert Run(Empty, es).pending[id] == SaveOf(es[i].victim.value);
      } else {
        assert DetectedAt(es, n, id);
        assert PendingSince(es, n, id) by {
          assert es[..|es|] == es;
        }
      }
    }
  }

  /** Extending a trace by one event that keeps the entry keeps its origin. */
  lemma StillDetectedAt(es: seq<Event>, i: nat, id: PlayerId)
    requires i < |es| - 1
    requires DetectedAt(es[..|es| - 1], i, id) && PendingSince(es[..|es| - 1], i, id)
    requires id in Run(Empty, es).pending
    ensures DetectedAt(es, i, id) && PendingSince(es, i, id)
  {
    var prev := es[..|es| - 1];
    assert prev[..i] == es[..i];
    forall j | i < j <= |es|
      ensures id in Run(Empty, es[..j]).pending
    {
      if j < |es| {
        assert es[..j] == prev[..j];
      } else {
        assert es[..j] == es;
      }
    }
  }

  /** Every clock reading an event carries is at most `limit`. */
  predicate ClockAtMost(e: Event, limit: int)
  {
    match e
    case Damage(_, _, now) => now <= limit
    case Tick(_, _, now) => now <= limit
    case _ => true
  }

  ghost predicate CooldownsAtMost(t: Tables, limit: int)
  {
    forall id :: id in t.cooldowns ==> t.cooldowns[id] <= limit
  }

  /** No cooldown ever expires later than the window past the latest clock reading. */
  lemma {:induction false} CooldownBounded(t: Tables, es: seq<Event>, latest: int)
    requires CooldownsAtMost(t, latest + ReviveCooldownMilliseconds)
    requires forall i :: 0 <= i < |es| ==> ClockAtMost(es[i], latest)
    ensures CooldownsAtMost(Run(t, es), latest + ReviveCooldownMilliseconds)
  {
    if es != [] {
      var n := |es| - 1;
      CooldownBounded(t, es[..n], latest);
      assert ClockAtMost(es[n], latest);
    }
  }

  /** Once the clock has passed every reading of a trace by the window, nobody is on
      cooldown: the window cannot lock a player out of revival for longer. */
  lemma {:induction false} CooldownExpires(es: seq<Event>, latest: int, id: PlayerId, now: int)
    requires forall i :: 0 <= i < |es| ==> ClockAtMost(es[i], latest)
    requires now >= latest + ReviveCooldownMilliseconds
    ensures !OnCooldown(Run(Empty, es), id, now)
  {
    CooldownBounded(Empty, es, latest);
  }

  /** A player at 2 health with no absorption takes 5 damage holding one totem in the
      off-hand: the save is recorded, the totem is taken and the slot emptied at death,
      the respawn goes to the death location, and the cooldown ends 500 ms after the
      effects task ran, with no entry left behind. */
  lemma SuccessfulRevival(id: PlayerId, at: Location, t0: int)
    ensures var totem := Some(ItemStack(TotemOfUndying, 1));
            var v := PlayerView(id, 2.0, 0.0, at, totem, None);
            var es := [Damage(Some(v), 5.0, t0), Death(id, totem, None), Tick(true, false, t0 + 50),
                       Respawn(id), Tick(true, false, t0 + 100)];
            && Consume(totem, None) == Consumption(None, None, Some(OffHand))
            && Run(Empty, es[..4]).pending == map[id := TotemSaveData(at, true, false)]
            && Run(Empty, es) == Tables(map[], map[id := t0 + 600], [])
  {
    var totem := Some(ItemStack(TotemOfUndying, 1));
    var v := PlayerView(id, 2.0, 0.0, at, totem, None);
    var es := [Damage(Some(v), 5.0, t0), Death(id, totem, None), Tick(true, false, t0 + 50),
               Respawn(id), Tick(true, false, t0 + 100)];
    var save := TotemSaveData(at, true, false);
    assert es[..0] == [];
    assert Run(Empty, es[..1]) == Tables(map[id := save], map[], []);
    assert es[..1] == es[..2][..1];
    assert Run(Empty, es[..2]) == Tables(map[id := save], map[], [RespawnTask(id)]);
    assert es[..2] == es[..3][..2];
    assert Run(Empty, es[..3]) == Tables(map[id := save], map[], []);
    assert es[..3] == es[..4][..3];
    assert Run(Empty, es[..4]) == Tables(map[id := save], map[], [EffectsTask(id)]);
    assert es[..4] == es[..5][..4];
    assert es[..5] == es;
  }

  /** The same start, but the totem is gone from both hands when the death is resolved:
      the entry is deleted, nothing is queued, and no cooldown is set. */
  lemma TotemRemovedBeforeDeath(id: PlayerId, at: Location, t0: int)
    ensures var v := PlayerView(id, 2.0, 0.0, at, Some(ItemStack(TotemOfUndying, 1)), None);
            Run(Empty, [Damage(Some(v), 5.0, t0), Death(id, None, None)]) == Empty
  {
    var v := PlayerView(id, 2.0, 0.0, at, Some(ItemStack(TotemOfUndying, 1)), None);
    var es := [Damage(Some(v), 5.0, t0), Death(id, None, None)];
    assert es[..0] == [];
    assert es[..1] == [Damage(Some(v), 5.0, t0)];
    assert Run(Empty, es[..1]) == Tables(map[id := TotemSaveData(at, true, false)], map[], []);
  }

  /** The player leaves after the death stage queued the forced respawn and before it runs:
      the task finds the player offline and deletes the entry; nothing is left queued. */
  lemma DisconnectBeforeRespawnTask(id: PlayerId, at: Location, t0: int)
    ensures var totem := Some(ItemStack(TotemOfUndying, 1));
            var v := PlayerView(id, 2.0, 0.0, at, totem, None);
            Run(Empty, [Damage(Some(v), 5.0, t0), Death(id, totem, None), Tick(false, false, t0 + 50)]) == Empty
  {
    var totem := Some(ItemStack(TotemOfUndying, 1));
    var v := PlayerView(id, 2.0, 0.0, at, totem, None);
    var es := [Damage(Some(v), 5.0, t0), Death(id, totem, None), Tick(false, false, t0 + 50)];
    var save := TotemSaveData(at, true, false);
    assert es[..0] == [];
    assert Run(Empty, es[..1]) == Tables(map[id := save], map[], []);
    assert es[..1] == es[..2][..1];
    assert Run(Empty, es[..2]) == Tables(map[id := save], map[], [RespawnTask(id)]);
  }

  /** The death handler runs again while the entry exists: a second death before the entry
      is deleted takes a second totem and queues a second respawn task for the same entry. */
  lemma RepeatedDeathTakesTwoTotems(id: PlayerId, at: Location, t0: int)
    ensures var two := Some(ItemStack(TotemOfUndying, 2));
            var one := Some(ItemStack(TotemOfUndying, 1));
            var v := PlayerView(id, 2.0, 0.0, at, two, None);
            && Consume(two, None) == Consumption(one, None, Some(OffHand))
            && Consume(one, None) == Consumption(None, None, Some(OffHand))
            && Run(Empty, [Damage(Some(v), 5.0, t0), Death(id, two, None), Death(id, one, None)])
               == Tables(map[id := TotemSaveData(at, true, false)], map[], [RespawnTask(id), RespawnTask(id)])
  {
    var two := Some(ItemStack(TotemOfUndying, 2));
    var one := Some(ItemStack(TotemOfUndying, 1));
    var v := PlayerView(id, 2.0, 0.0, at, two, None);
    var es := [Damage(Some(v), 5.0, t0), Death(id, two, None), Death(id, one, None)];
    var save := TotemSaveData(at, true, false);
    assert es[..0] == [];
    assert Run(Empty, es[..1]) == Tables(map[id := save], map[], []);
    assert es[..1] == es[..2][..1];
    assert Run(Empty, es[..2]) == Tables(map[id := save], map[], [RespawnTask(id)]);
  }

  /** The effects task does not check that the entry still exists: when the forced respawn
      fires the respawn event and then throws, the entry is deleted, yet the effects task
      queued by the respawn event still starts the cooldown. */
  lemma EffectsTaskAfterFailedRespawn(id: PlayerId, at: Location, t0: int)
    ensures var totem := Some(ItemStack(TotemOfUndying, 1));
            var v := PlayerView(id, 2.0, 0.0, at, totem, None);
            var es := [Damage(Some(v), 5.0, t0), Death(id, totem, None), Respawn(id),
                       Tick(true, true, t0 + 50), Tick(true, false, t0 + 100)];
            && Run(Empty, es[..4]) == Tables(map[], map[], [EffectsTask(id)])
            && Run(Empty, es) == Tables(map[], map[id := t0 + 600], [])
  {
    var totem := Some(ItemStack(TotemOfUndying, 1));
    var v := PlayerView(id, 2.0, 0.0, at, totem, None);
    var es := [Damage(Some(v), 5.0, t0), Death(id, totem, None), Respawn(id),
               Tick(true, true, t0 + 50), Tick(true, false, t0 + 100)];
    var save := TotemSaveData(at, true, false);
    assert es[..0] == [];
    assert Run(Empty, es[..1]) == Tables(map[id := save], map[], []);
    assert es[..1] == es[..2][..1];
    assert Run(Empty, es[..2]) == Tables(map[id := save], map[], [RespawnTask(id)]);
    assert es[..2] == es[..3][..2];
    assert Run(Empty, es[..3]) == Tables(map[id := save], map[], [RespawnTask(id), EffectsTask(id)]);
    assert es[..3] == es[..4][..3];
    assert Run(Empty, es[..4]) == Tables(map[], map[], [EffectsTask(id)]);
    assert es[..4] == es[..5][..4];
    assert es[..5] == es;
  }
}
