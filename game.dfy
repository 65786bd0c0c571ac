/** The per-tick character controller of the platformer: the state it keeps
    between ticks, the pure transition of one tick, and the engine objects
    that the tick mutates in place. */
module Game {

  /** Horizontal speed set on the body while LEFT or RIGHT is held (`hozMove`). */
  const HozMove: int := 160
  /** Vertical velocity given to the body on a jump; negative is upward (`vertMove`). */
  const VertMove: int := -120
  /** Milliseconds after a jump during which no further jump can fire. */
  const JumpCooldown: int := 650

  /** The only two values the controller ever gives `facing`. */
  datatype Facing = Left | Right

  /** The two spritesheets the sprite can show: 'character' and 'jumping'. */
  datatype TextureKey = Character | Jumping

  /** What one tick reads: the three keys, the body's floor contact and the game clock. */
  datatype Tick = Tick(left: bool, right: bool, spacebar: bool, onFloor: bool, now: int)

  /** Everything a tick reads or writes: the two module variables of the
      controller and the four fields of the player sprite and its body. */
  datatype State = State(
    facing: Facing,
    jumpTimer: int,
    velocityX: int,
    velocityY: int,
    key: TextureKey,
    frame: int)

  /** The state set up before the first tick: facing left, no cooldown, the
      'character' sheet at its first frame, the body at rest. */
  const Initial: State := State(Left, 0, 0, 0, Character, 0)

  /** The static frame shown for a facing: 0 for left, 1 otherwise. */
  function FrameFor(f: Facing): int {
    if f == Left then 0 else 1
  }

  /** The jump guard: SPACEBAR down, the body on the floor, and the clock
      strictly past the cooldown timestamp. */
  predicate JumpFires(s: State, t: Tick) {
    t.spacebar && t.onFloor && t.now > s.jumpTimer
  }

  /** What every tick leaves behind: the base sheet selected and the frame
      that matches the facing. */
  predicate Settled(s: State) {
    s.key == Character && s.frame == FrameFor(s.facing)
  }

  // The four phases of a tick, in the order the source runs them.

  /** Phase 1: reset the horizontal velocity, then LEFT before RIGHT. */
  function Horizontal(s: State, t: Tick): State {
    var s := s.(velocityX := 0);
    if t.left then s.(velocityX := -HozMove, facing := Left)
    else if t.right then s.(velocityX := HozMove, facing := Right)
    else s
  }

  /** Phase 2: the guarded jump; loading the 'jumping' sheet selects frame 0. */
  function Jump(s: State, t: Tick): State {
    if JumpFires(s, t) then
      s.(key := Jumping, frame := 0, velocityY := VertMove, jumpTimer := t.now + JumpCooldown)
    else s
  }

  /** Phase 3: whenever the 'jumping' sheet is selected, load 'character' again. */
  function RevertTexture(s: State): State {
    if s.key == Jumping then s.(key := Character, frame := 0) else s
  }

  /** Phase 4: the frame follows the facing; this is the last write of a tick. */
  function ShowFacing(s: State): State {
    s.(frame := FrameFor(s.facing))
  }

  /** One call of the controller's update. */
  function Step(s: State, t: Tick): (r: State)
    // LEFT wins whatever RIGHT is
    ensures t.left ==> r.velocityX == -HozMove && r.facing == Left
    ensures !t.left && t.right ==> r.velocityX == HozMove && r.facing == Right
    // no direction key: the body stops and the facing is kept
    ensures !t.left && !t.right ==> r.velocityX == 0 && r.facing == s.facing
    ensures r.velocityX in {-HozMove, 0, HozMove}
    // a fired jump kicks the body upward and restarts the cooldown from now
    ensures JumpFires(s, t) ==> r.velocityY == VertMove && r.jumpTimer == t.now + JumpCooldown
    ensures !JumpFires(s, t) ==> r.velocityY == s.velocityY && r.jumpTimer == s.jumpTimer
    // the timer only moves forward, and it moves exactly when a jump fires
    ensures r.jumpTimer >= s.jumpTimer
    ensures r.jumpTimer > s.jumpTimer <==> JumpFires(s, t)
    // the 'jumping' sheet never survives the tick that loaded it
    ensures Settled(r)
  {
    ShowFacing(RevertTexture(Jump(Horizontal(s, t), t)))
  }

  /** LEFT and RIGHT together behave exactly as LEFT alone. */
  lemma LeftWinsTies(s: State, t: Tick)
    requires t.left
    ensures Step(s, t) == Step(s, t.(right := false))
  {
  }

  /** The sprite as the controller sees it: its physics body's velocity, the
      key of the loaded spritesheet and the displayed frame. */
  class Sprite {
    var velocityX: int
    var velocityY: int
    var key: TextureKey
    var frame: int

    /** A sprite spawned on a spritesheet shows that sheet's first frame at rest. */
    constructor (key: TextureKey)
      ensures this.key == key && frame == 0
      ensures velocityX == 0 && velocityY == 0
    {
      this.key := key;
      frame := 0;
      velocityX, velocityY := 0, 0;
    }

    /** Select another spritesheet, starting at the given frame; the body is untouched. */
    method LoadTexture(key: TextureKey, frame: int)
      modifies this
      ensures this.key == key && this.frame == frame
      ensures velocityX == old(velocityX) && velocityY == old(velocityY)
    {
      this.key := key;
      this.frame := frame;
    }
  }

  /** The controller: its two module variables and the player sprite it drives. */
  class Controller {
    const player: Sprite
    var facing: Facing
    var jumpTimer: int

    /** The state a tick reads and writes, gathered into one value. */
    function Snapshot(): State
      reads this, player
    {
      State(facing, jumpTimer, player.velocityX, player.velocityY, player.key, player.frame)
    }

    /** The one-time setup: a fresh sprite on the 'character' sheet, facing
        left, with a zero cooldown timestamp. */
    constructor ()
      ensures fresh(player)
      ensures Snapshot() == Initial
      ensures Settled(Snapshot())
    {
      player := new Sprite(Character);
      facing := Left;
      jumpTimer := 0;
    }

    /** One tick of the game loop. The keys, the floor contact and the clock
        are passed in; `jumped` tells whether the jump fired (the only case in
        which the jump animation is registered and played). */
    method Update(left: bool, right: bool, spacebar: bool, onFloor: bool, now: int)
      returns (jumped: bool)
      modifies this, player
      ensures Snapshot() == Step(old(Snapshot()), Tick(left, right, spacebar, onFloor, now))
      ensures jumped == JumpFires(old(Snapshot()), Tick(left, right, spacebar, onFloor, now))
      ensures Settled(Snapshot())
    {
      player.velocityX := 0;
      if left {
        player.velocityX := -HozMove;
        if facing != Left {
          facing := Left;
        }
      } else if right {
        player.velocityX := HozMove;
        if facing != Right {
          facing := Right;
        }
      }

      jumped := spacebar && onFloor && now > jumpTimer;
      if jumped {
        player.LoadTexture(Jumping, 0);
        player.velocityY := VertMove;
        jumpTimer := now + JumpCooldown;
      }

      if player.key == Jumping {
        player.LoadTexture(Character, 0);
      }

      if facing == Left {
        player.frame := 0;
      } else {
        player.frame := 1;
      }
    }
  }
}
