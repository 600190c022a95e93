/** The parts of the game server (Bukkit) that the plugin observes and mutates:
    players with two hand slots, the mutable death and respawn events, and the
    calls the plugin makes into the server that the model records but does not
    interpret. */
module Host {

  datatype Option<T> = None | Some(value: T)

  /** A player's stable unique identity (a UUID on the server). */
  type PlayerId = nat

  /** A world position, an opaque immutable value. */
  datatype Location = Location(world: string, x: real, y: real, z: real, yaw: real, pitch: real)

  datatype Material = TotemOfUndying | OtherMaterial(name: string)

  /** An item stack as a value; `None` in a slot stands for the empty (null) slot. */
  datatype ItemStack = ItemStack(kind: Material, amount: int)

  /** What the damage watcher reads from a player at one moment. */
  datatype PlayerView = PlayerView(
    id: PlayerId,
    health: real,
    absorption: real,
    location: Location,
    offHand: Option<ItemStack>,
    mainHand: Option<ItemStack>)

  class Player {
    const id: PlayerId
    var health: real
    var absorption: real
    var location: Location
    var offHand: Option<ItemStack>
    var mainHand: Option<ItemStack>

    constructor (id: PlayerId, health: real, absorption: real, location: Location,
                 offHand: Option<ItemStack>, mainHand: Option<ItemStack>)
      ensures View() == PlayerView(id, health, absorption, location, offHand, mainHand)
    {
      this.id := id;
      this.health := health;
      this.absorption := absorption;
      this.location := location;
      this.offHand := offHand;
      this.mainHand := mainHand;
    }

    function View(): PlayerView
      reads this
    {
      PlayerView(id, health, absorption, location, offHand, mainHand)
    }
  }

  datatype Entity = PlayerEntity(player: Player) | OtherEntity

  /** A damage event after the server has computed the final damage. */
  datatype EntityDamageEvent = EntityDamageEvent(entity: Entity, finalDamage: real)

  /** The death event, whose consequences a listener may change. `deathMessage`
      is `None` for a suppressed (null) message. */
  class PlayerDeathEvent {
    const player: Player
    var keepInventory: bool
    var keepLevel: bool
    var droppedExp: int
    var drops: seq<ItemStack>
    var deathMessage: Option<string>

    constructor (player: Player, droppedExp: int, drops: seq<ItemStack>, deathMessage: Option<string>)
      ensures this.player == player && !keepInventory && !keepLevel
      ensures this.droppedExp == droppedExp && this.drops == drops && this.deathMessage == deathMessage
    {
      this.player := player;
      keepInventory, keepLevel := false, false;
      this.droppedExp := droppedExp;
      this.drops := drops;
      this.deathMessage := deathMessage;
    }
  }

  /** The respawn event, whose respawn location a listener may change. */
  class PlayerRespawnEvent {
    const player: Player
    var respawnLocation: Location

    constructor (player: Player, respawnLocation: Location)
      ensures this.player == player && this.respawnLocation == respawnLocation
    {
      this.player := player;
      this.respawnLocation := respawnLocation;
    }
  }

  datatype PlayerQuitEvent = PlayerQuitEvent(player: Player)

  datatype PotionEffectType = Regeneration | Absorption | FireResistance

  datatype PotionEffect = PotionEffect(kind: PotionEffectType, durationTicks: int, amplifier: int)

  datatype Sound = ItemTotemUse

  datatype Particle = TotemOfUndyingParticle

  /** A call into the server whose behaviour is not modelled. */
  datatype HostCall =
    | ForceRespawn(id: PlayerId)
    | RemovePotionEffect(id: PlayerId, kind: PotionEffectType)
    | AddPotionEffect(id: PlayerId, effect: PotionEffect)
    | PlaySound(id: PlayerId, sound: Sound, volume: real, pitch: real)
    | SpawnParticle(id: PlayerId, particle: Particle, count: int)
}
