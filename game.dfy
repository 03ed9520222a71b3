// game_logic as the source runs it: the GameState record and the engine's
// tables are objects updated in place, the collision queue is drained by a
// loop, and each block of the callback is a method proved to do what the
// matching function of module Logic says.

module Game {
  import opened Format
  import opened Logic

  /** The part of the engine game_logic reads and writes. */
  class Engine {
    var sprites: map<string, Sprite>             // engine.sprites, by label
    var texts: map<string, string>               // engine.texts, the displayed value by label
    var collisionEvents: seq<CollisionEvent>     // engine.collision_events, oldest first
    var sfxPlayed: nat                           // how many sound effects the audio manager was asked to play

    /** Game::new(): no sprites, no texts, nothing queued, nothing played. */
    constructor ()
      ensures sprites == map[] && texts == map[] && collisionEvents == [] && sfxPlayed == 0
    {
      sprites, texts, collisionEvents, sfxPlayed := map[], map[], [], 0;
    }
  }

  /** The game's own record, kept by the engine between frames. */
  class GameState {
    var highScore: nat
    var score: nat
    var ferrisIndex: nat

    /** GameState::default(): everything starts at zero. */
    constructor ()
      ensures highScore == 0 && score == 0 && ferrisIndex == 0
    {
      highScore, score, ferrisIndex := 0, 0, 0;
    }
  }

  /** The values of both objects, as the functions of module Logic see them. */
  function Snapshot(engine: Engine, state: GameState): World
    reads engine, state
  {
    World(state.score, state.highScore, state.ferrisIndex, engine.sprites, engine.texts, engine.sfxPlayed)
  }

  /**
   * main() up to game.run: a new engine with the player car at the origin and
   * both HUD lines, and the default game state. The result is the world the
   * first frame starts from.
   */
  method NewGame() returns (engine: Engine, state: GameState)
    ensures Snapshot(engine, state) == Startup()
    ensures engine.collisionEvents == []
  {
    engine := new Engine();
    engine.sprites := engine.sprites[PlayerLabel := Sprite("RacingCarGreen", Point(0.0, 0.0), true)];
    engine.texts := engine.texts[ScoreKey := "Score: 0"];
    engine.texts := engine.texts[HighScoreKey := "High Score: 0"];
    state := new GameState();
  }

  /** Drain the collision queue, scoring every begin-contact event that involves the player. */
  method HandleCollisions(engine: Engine, state: GameState)
    requires ScoreKey in engine.texts && HighScoreKey in engine.texts
    modifies engine, state
    ensures engine.collisionEvents == []
    ensures Snapshot(engine, state) == ApplyEvents(old(Snapshot(engine, state)), old(engine.collisionEvents))
  {
    ghost var start := Snapshot(engine, state);
    var events := engine.collisionEvents;
    engine.collisionEvents := [];
    for i := 0 to |events|
      invariant engine.collisionEvents == []
      invariant ScoreKey in engine.texts && HighScoreKey in engine.texts
      invariant Snapshot(engine, state) == ApplyEvents(start, events[..i])
    {
      HandleEvent(engine, state, events[i]);
      assert events[..i + 1][..i] == events[..i];
    }
    assert events[..|events|] == events;
  }

  /** One pass of the drain loop. */
  method HandleEvent(engine: Engine, state: GameState, event: CollisionEvent)
    requires ScoreKey in engine.texts && HighScoreKey in engine.texts
    modifies engine, state
    ensures Snapshot(engine, state) == ApplyEvent(old(Snapshot(engine, state)), event)
    ensures engine.collisionEvents == old(engine.collisionEvents)
  {
    if event.state == Begin && OneStartsWith(event, PlayerLabel) {
      RemovePairSprites(engine, event);
      state.score := state.score + 1;
      engine.texts := engine.texts[ScoreKey := ScoreText(state.score)];
      if state.score > state.highScore {
        state.highScore := state.score;
        engine.texts := engine.texts[HighScoreKey := HighScoreText(state.highScore)];
      }
    }
    engine.sfxPlayed := engine.sfxPlayed + 1;
  }

  /** The inner loop over the pair: remove every label of it that is not "player". */
  method RemovePairSprites(engine: Engine, event: CollisionEvent)
    requires Scores(event)
    modifies engine
    ensures engine.sprites == old(engine.sprites) - Removed(event)
    ensures engine.texts == old(engine.texts) && engine.sfxPlayed == old(engine.sfxPlayed)
    ensures engine.collisionEvents == old(engine.collisionEvents)
  {
    var pair := [event.first, event.second];
    for j := 0 to |pair|
      invariant engine.sprites == old(engine.sprites) - NonPlayer(pair[..j])
      invariant engine.texts == old(engine.texts) && engine.sfxPlayed == old(engine.sfxPlayed)
      invariant engine.collisionEvents == old(engine.collisionEvents)
    {
      if pair[j] != PlayerLabel {
        engine.sprites := engine.sprites - {pair[j]};
      }
      assert pair[..j + 1] == pair[..j] + [pair[j]];
    }
    assert pair[..2] == pair;
  }

  /**
   * The labels of a list other than "player": for the pair of a scoring
   * event, NonPlayer([first, second]) is Logic.Removed(event), which the
   * postcondition of RemovePairSprites states.
   */
  ghost function NonPlayer(labels: seq<string>): set<string>
  {
    set l | l in labels && l != PlayerLabel
  }

  /** Move the player with the arrow keys held this frame. */
  method MovePlayer(engine: Engine, state: GameState, input: FrameInput)
    requires PlayerLabel in engine.sprites
    modifies engine
    ensures Snapshot(engine, state) == MoveStep(old(Snapshot(engine, state)), input)
    ensures engine.collisionEvents == old(engine.collisionEvents)
  {
    var player := engine.sprites[PlayerLabel];
    var at := player.translation;
    var step := Step(input.delta);
    if input.up {
      at := at.(y := at.y + step);
    }
    if input.down {
      at := at.(y := at.y - step);
    }
    if input.left {
      at := at.(x := at.x - step);
    }
    if input.right {
      at := at.(x := at.x + step);
    }
    engine.sprites := engine.sprites[PlayerLabel := player.(translation := at)];
  }

  /** Spawn one target at the given place, labelled from the counter, and bump the counter. */
  method SpawnTarget(engine: Engine, state: GameState, at: Point)
    modifies engine, state
    ensures Snapshot(engine, state) == Spawn(old(Snapshot(engine, state)), at)
    ensures engine.collisionEvents == old(engine.collisionEvents)
  {
    var name := FerrisLabel(state.ferrisIndex);
    state.ferrisIndex := state.ferrisIndex + 1;
    engine.sprites := engine.sprites[name := Sprite(TargetImage, at, true)];
  }

  /** A left click spawns a target under the cursor, if the engine knows where the cursor is. */
  method HandleMouse(engine: Engine, state: GameState, input: FrameInput)
    modifies engine, state
    ensures Snapshot(engine, state) == MouseStep(old(Snapshot(engine, state)), input)
    ensures engine.collisionEvents == old(engine.collisionEvents)
  {
    if input.mouseJustPressed {
      match input.mouseLocation {
        case Some(location) => SpawnTarget(engine, state, location);
        case None =>
      }
    }
  }

  /** When the spawn timer completes a period, spawn a target at the drawn spot. */
  method HandleTimer(engine: Engine, state: GameState, input: FrameInput)
    modifies engine, state
    ensures Snapshot(engine, state) == TimerStep(old(Snapshot(engine, state)), input)
    ensures engine.collisionEvents == old(engine.collisionEvents)
  {
    if input.timerJustFinished {
      SpawnTarget(engine, state, input.randomSpot);
    }
  }

  /** The reset key zeroes the score and its line on the HUD. */
  method HandleReset(engine: Engine, state: GameState, input: FrameInput)
    requires ScoreKey in engine.texts
    modifies engine, state
    ensures Snapshot(engine, state) == ResetStep(old(Snapshot(engine, state)), input)
    ensures engine.collisionEvents == old(engine.collisionEvents)
  {
    if input.resetJustPressed {
      state.score := 0;
      engine.texts := engine.texts[ScoreKey := "Score: 0"];
    }
  }

  /** The per-frame callback: every block in source order, leaving the collision queue empty. */
  method GameLogic(engine: Engine, state: GameState, input: FrameInput)
    requires Ready(Snapshot(engine, state))
    modifies engine, state
    ensures engine.collisionEvents == []
    ensures Snapshot(engine, state) == Frame(old(Snapshot(engine, state)), old(engine.collisionEvents), input)
  {
    HandleCollisions(engine, state);
    MovePlayer(engine, state, input);
    HandleMouse(engine, state, input);
    HandleTimer(engine, state, input);
    HandleReset(engine, state, input);
  }
}
