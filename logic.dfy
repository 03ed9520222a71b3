// The bookkeeping of one call of game_logic, as functions over a snapshot of
// the game state and the engine's sprite and text tables, and the properties
// that hold of it over one event, one frame and a run of frames.

module Logic {
  import opened Format

  datatype Option<T> = None | Some(value: T)

  /** A position in the window; the engine's f32 pair, read as exact reals. */
  datatype Point = Point(x: real, y: real)

  /** The sprite attributes the game sets: its image, its translation and whether it collides. */
  datatype Sprite = Sprite(image: string, translation: Point, collision: bool)

  datatype CollisionState = Begin | End

  /** One event of the engine's collision queue: a begin or end of contact between two labels. */
  datatype CollisionEvent = CollisionEvent(state: CollisionState, first: string, second: string)

  /** What the engine tells the callback about this frame, apart from the collision queue. */
  datatype FrameInput = FrameInput(
    up: bool, down: bool, left: bool, right: bool,   // arrow keys held
    delta: real,                                     // seconds since the last frame
    mouseJustPressed: bool,                          // left button went down this frame
    mouseLocation: Option<Point>,                    // cursor position, if the engine has one
    timerJustFinished: bool,                         // the 2-second spawn timer completed a period
    randomSpot: Point,                               // where a timed spawn is placed
    resetJustPressed: bool)                          // the R key went down this frame

  /**
   * The part of the world game_logic reads and writes: GameState's counters,
   * the engine's sprite table and text values (by label), and the number of
   * sound effects played.
   */
  datatype World = World(
    score: nat,
    highScore: nat,
    ferrisIndex: nat,
    sprites: map<string, Sprite>,
    texts: map<string, string>,
    sfxPlayed: nat)

  const ScoreKey: string := "score"
  const HighScoreKey: string := "high_score"
  const TargetImage: string := "cute-ferris.png"

  function Max(a: nat, b: nat): nat { if a < b then b else a }

  /** The entities game_logic looks up with unwrap() are present. */
  predicate Ready(w: World) {
    PlayerLabel in w.sprites && ScoreKey in w.texts && HighScoreKey in w.texts
  }

  /**
   * The engine's `pair.one_starts_with("player")`: either label of the pair
   * begins with "player". An exclusive reading (exactly one label) differs
   * only when both labels begin with "player", and no target label does.
   */
  predicate OneStartsWith(e: CollisionEvent, prefix: string) {
    prefix <= e.first || prefix <= e.second
  }

  /** An event that scores: contact begins and the player is one of the pair. */
  predicate Scores(e: CollisionEvent) {
    e.state == Begin && OneStartsWith(e, PlayerLabel)
  }

  /** The sprites a scoring event removes: the labels of its pair other than "player". */
  function Removed(e: CollisionEvent): (gone: set<string>)
    ensures PlayerLabel !in gone
    ensures gone <= {e.first, e.second}
    ensures Scores(e) ==> forall l :: l in {e.first, e.second} && l != PlayerLabel ==> l in gone
    ensures !Scores(e) ==> gone == {}
  {
    if Scores(e) then
      (if e.first != PlayerLabel then {e.first} else {}) +
      (if e.second != PlayerLabel then {e.second} else {})
    else {}
  }

  // ---------------------------------------------------------------------------
  // Collision handling

  /** One pass of the drain loop: handle one collision event and play the sound effect. */
  function ApplyEvent(w: World, e: CollisionEvent): (r: World)
    requires ScoreKey in w.texts && HighScoreKey in w.texts
    ensures r.texts.Keys == w.texts.Keys
    ensures r.ferrisIndex == w.ferrisIndex && r.sfxPlayed == w.sfxPlayed + 1
  {
    var played := w.(sfxPlayed := w.sfxPlayed + 1);
    if !Scores(e) then played
    else
      var scored := played.(sprites := w.sprites - Removed(e), score := w.score + 1);
      var shown := scored.(texts := scored.texts[ScoreKey := ScoreText(scored.score)]);
      if shown.score > shown.highScore then
        shown.(highScore := shown.score,
               texts := shown.texts[HighScoreKey := HighScoreText(shown.score)])
      else shown
  }

  /**
   * What one event does: a scoring event adds exactly one to the score, lifts
   * the high score to the larger of the two, removes the pair's non-player
   * sprites and rewrites the score line; the high-score line is rewritten only
   * when the high score rises. Any other event changes none of these.
   */
  lemma EventEffect(w: World, e: CollisionEvent)
    requires ScoreKey in w.texts && HighScoreKey in w.texts
    ensures var r := ApplyEvent(w, e);
            && r.score == w.score + (if Scores(e) then 1 else 0)
            && r.highScore == (if Scores(e) then Max(w.highScore, r.score) else w.highScore)
            && r.sprites == w.sprites - Removed(e)
            && r.texts[ScoreKey] == (if Scores(e) then ScoreText(r.score) else w.texts[ScoreKey])
            && r.texts[HighScoreKey] ==
                 (if r.highScore > w.highScore then HighScoreText(r.highScore) else w.texts[HighScoreKey])
            && (forall k :: k in w.texts && k != ScoreKey && k != HighScoreKey ==> r.texts[k] == w.texts[k])
  {
  }

  /** The whole drain loop: the events of the queue handled in queue order. */
  function ApplyEvents(w: World, es: seq<CollisionEvent>): (r: World)
    requires ScoreKey in w.texts && HighScoreKey in w.texts
    ensures r.texts.Keys == w.texts.Keys
    ensures PlayerLabel in w.sprites ==> PlayerLabel in r.sprites
    ensures r.ferrisIndex == w.ferrisIndex
    ensures r.sfxPlayed == w.sfxPlayed + |es|
    decreases |es|
  {
    if es == [] then w
    else ApplyEvent(ApplyEvents(w, es[..|es| - 1]), es[|es| - 1])
  }

  /** How many events of the queue score. */
  function CountScoring(es: seq<CollisionEvent>): (n: nat)
    ensures n <= |es|
    ensures (forall i :: 0 <= i < |es| ==> Scores(es[i])) ==> n == |es|
    decreases |es|
  {
    if es == [] then 0
    else CountScoring(es[..|es| - 1]) + (if Scores(es[|es| - 1]) then 1 else 0)
  }

  /** Every sprite label the scoring events of the queue remove. */
  function RemovedBy(es: seq<CollisionEvent>): (gone: set<string>)
    ensures PlayerLabel !in gone
    decreases |es|
  {
    if es == [] then {} else RemovedBy(es[..|es| - 1]) + Removed(es[|es| - 1])
  }

  /** Draining the queue adds one to the score per scoring event and nothing for the others. */
  lemma {:induction false} EventsScore(w: World, es: seq<CollisionEvent>)
    requires ScoreKey in w.texts && HighScoreKey in w.texts
    ensures ApplyEvents(w, es).score == w.score + CountScoring(es)
  {
    if es != [] {
      EventsScore(w, es[..|es| - 1]);
      EventEffect(ApplyEvents(w, es[..|es| - 1]), es[|es| - 1]);
    }
  }

  /**
   * After the drain the high score is the larger of the old high score and the
   * new score, so it never drops and never falls below the score.
   */
  lemma {:induction false} EventsHighScore(w: World, es: seq<CollisionEvent>)
    requires ScoreKey in w.texts && HighScoreKey in w.texts
    requires w.score <= w.highScore
    ensures ApplyEvents(w, es).highScore == Max(w.highScore, ApplyEvents(w, es).score)
  {
    if es != [] {
      EventsHighScore(w, es[..|es| - 1]);
      EventsScore(w, es[..|es| - 1]);
      EventEffect(ApplyEvents(w, es[..|es| - 1]), es[|es| - 1]);
    }
  }

  /**
   * The drain removes exactly the non-player labels of the scoring events; the
   * player and every other sprite keep their entries unchanged.
   */
  lemma {:induction false} EventsSprites(w: World, es: seq<CollisionEvent>)
    requires ScoreKey in w.texts && HighScoreKey in w.texts
    ensures ApplyEvents(w, es).sprites == w.sprites - RemovedBy(es)
  {
    if es != [] {
      EventsSprites(w, es[..|es| - 1]);
      EventEffect(ApplyEvents(w, es[..|es| - 1]), es[|es| - 1]);
    }
  }

  /** A queue with no scoring event changes nothing but the count of sound effects. */
  lemma {:induction false} EventsWithoutScoring(w: World, es: seq<CollisionEvent>)
    requires ScoreKey in w.texts && HighScoreKey in w.texts
    requires forall i :: 0 <= i < |es| ==> !Scores(es[i])
    ensures ApplyEvents(w, es) == w.(sfxPlayed := w.sfxPlayed + |es|)
  {
    if es != [] {
      EventsWithoutScoring(w, es[..|es| - 1]);
      EventEffect(ApplyEvents(w, es[..|es| - 1]), es[|es| - 1]);
    }
  }

  // ---------------------------------------------------------------------------
  // The invariant every frame keeps

  /** No label "ferris<k>" with k at or past the counter is in the sprite table yet. */
  ghost predicate FreshLabels(w: World) {
    forall k: nat :: w.ferrisIndex <= k ==> FerrisLabel(k) !in w.sprites
  }

  /** The HUD shows the current counters. */
  predicate HudCurrent(w: World)
    requires ScoreKey in w.texts && HighScoreKey in w.texts
  {
    w.texts[ScoreKey] == ScoreText(w.score) && w.texts[HighScoreKey] == HighScoreText(w.highScore)
  }

  ghost predicate Consistent(w: World) {
    && Ready(w)
    && w.score <= w.highScore
    && HudCurrent(w)
    && FreshLabels(w)
  }

  /** The drain keeps the invariant: scores and texts stay in step, no label is re-created. */
  lemma {:induction false} EventsConsistent(w: World, es: seq<CollisionEvent>)
    requires Consistent(w)
    ensures Consistent(ApplyEvents(w, es))
  {
    if es != [] {
      var before := ApplyEvents(w, es[..|es| - 1]);
      EventsConsistent(w, es[..|es| - 1]);
      EventsSprites(w, es[..|es| - 1]);
      var after := ApplyEvent(before, es[|es| - 1]);
      EventEffect(before, es[|es| - 1]);
      assert after.sprites.Keys <= before.sprites.Keys;
      assert after.score <= after.highScore;
    }
  }

  // ---------------------------------------------------------------------------
  // Movement, spawning and reset

  /** How far one held arrow key moves the player in a frame: MOVEMENT_SPEED (200 units per second) times the frame time. */
  function Step(delta: real): real { 200.0 * delta }

  /**
   * The arrow keys move the player by one step along their axis each; two
   * opposite keys held together cancel out.
   */
  function MovePoint(p: Point, input: FrameInput): (q: Point)
    ensures q.x == p.x + (if input.right == input.left then 0.0
                          else if input.right then Step(input.delta) else -Step(input.delta))
    ensures q.y == p.y + (if input.up == input.down then 0.0
                          else if input.up then Step(input.delta) else -Step(input.delta))
  {
    var step := Step(input.delta);
    var p1 := if input.up then p.(y := p.y + step) else p;
    var p2 := if input.down then p1.(y := p1.y - step) else p1;
    var p3 := if input.left then p2.(x := p2.x - step) else p2;
    if input.right then p3.(x := p3.x + step) else p3
  }

  /** The movement block: only the player's translation changes. */
  function MoveStep(w: World, input: FrameInput): (r: World)
    requires PlayerLabel in w.sprites
    ensures r.sprites.Keys == w.sprites.Keys
    ensures r.score == w.score && r.highScore == w.highScore && r.ferrisIndex == w.ferrisIndex
    ensures r.texts == w.texts && r.sfxPlayed == w.sfxPlayed
    ensures forall l :: l in w.sprites && l != PlayerLabel ==> r.sprites[l] == w.sprites[l]
    ensures r.sprites[PlayerLabel] ==
              w.sprites[PlayerLabel].(translation := MovePoint(w.sprites[PlayerLabel].translation, input))
  {
    var player := w.sprites[PlayerLabel];
    w.(sprites := w.sprites[PlayerLabel := player.(translation := MovePoint(player.translation, input))])
  }

  lemma MoveConsistent(w: World, input: FrameInput)
    requires Consistent(w)
    ensures Consistent(MoveStep(w, input))
  {
    var r := MoveStep(w, input);
    assert forall k: nat :: FerrisLabel(k) in r.sprites ==> FerrisLabel(k) in w.sprites;
  }

  /** Add a collidable target labelled from the counter at the given place, then bump the counter. */
  function Spawn(w: World, at: Point): (r: World)
    ensures r.ferrisIndex == w.ferrisIndex + 1
    ensures FerrisLabel(w.ferrisIndex) in r.sprites
    ensures r.sprites[FerrisLabel(w.ferrisIndex)] == Sprite(TargetImage, at, true)
    ensures r.sprites.Keys == w.sprites.Keys + {FerrisLabel(w.ferrisIndex)}
    ensures forall l :: l in w.sprites && l != FerrisLabel(w.ferrisIndex) ==> r.sprites[l] == w.sprites[l]
    ensures r.score == w.score && r.highScore == w.highScore
    ensures r.texts == w.texts && r.sfxPlayed == w.sfxPlayed
  {
    var name := FerrisLabel(w.ferrisIndex);
    var counted := w.(ferrisIndex := w.ferrisIndex + 1);
    counted.(sprites := counted.sprites[name := Sprite(TargetImage, at, true)])
  }

  /**
   * Under the invariant a spawn adds a sprite whose label was not in the
   * table, so the number of sprites grows by exactly one, and the invariant holds after.
   */
  lemma SpawnAddsOne(w: World, at: Point)
    requires Consistent(w)
    ensures FerrisLabel(w.ferrisIndex) !in w.sprites
    ensures |Spawn(w, at).sprites| == |w.sprites| + 1
    ensures Consistent(Spawn(w, at))
  {
    var r := Spawn(w, at);
    forall k: nat | r.ferrisIndex <= k
      ensures FerrisLabel(k) !in r.sprites
    {
      FerrisLabelInjective(k, w.ferrisIndex);
    }
    assert r.sprites.Keys == w.sprites.Keys + {FerrisLabel(w.ferrisIndex)};
  }

  /** The reset block: score back to zero and the score line back to "Score: 0". */
  function Reset(w: World): (r: World)
    requires ScoreKey in w.texts
    ensures r.texts.Keys == w.texts.Keys
    ensures r.score == 0 && r.texts[ScoreKey] == "Score: 0"
    ensures r.highScore == w.highScore && r.ferrisIndex == w.ferrisIndex
    ensures r.sprites == w.sprites && r.sfxPlayed == w.sfxPlayed
    ensures forall k :: k in w.texts && k != ScoreKey ==> r.texts[k] == w.texts[k]
  {
    w.(score := 0, texts := w.texts[ScoreKey := "Score: 0"])
  }

  /** "Score: 0" is what ScoreText renders for zero, so a reset keeps the invariant. */
  lemma ResetConsistent(w: World)
    requires Consistent(w)
    ensures Consistent(Reset(w))
    ensures Reset(w).highScore == w.highScore
  {
    assert NatToString(0) == "0";
    assert ScoreText(0) == "Score: 0";
  }

  // ---------------------------------------------------------------------------
  // A whole frame and a run of frames

  /** A click this frame, with the engine knowing where the cursor is. */
  predicate MouseSpawns(input: FrameInput) {
    input.mouseJustPressed && input.mouseLocation.Some?
  }

  function SpawnCount(input: FrameInput): (n: nat)
    ensures n <= 2
  {
    (if MouseSpawns(input) then 1 else 0) + (if input.timerJustFinished then 1 else 0)
  }

  /** The mouse block: a click with a cursor position spawns a target there; a click without one does nothing. */
  function MouseStep(w: World, input: FrameInput): (r: World)
    ensures r.score == w.score && r.highScore == w.highScore
    ensures r.texts == w.texts && r.sfxPlayed == w.sfxPlayed
    ensures r.ferrisIndex == w.ferrisIndex + (if MouseSpawns(input) then 1 else 0)
    ensures w.sprites.Keys <= r.sprites.Keys
    ensures MouseSpawns(input) ==>
              r.sprites == w.sprites[FerrisLabel(w.ferrisIndex) := Sprite(TargetImage, input.mouseLocation.value, true)]
    ensures !MouseSpawns(input) ==> r == w
  {
    if MouseSpawns(input) then Spawn(w, input.mouseLocation.value) else w
  }

  /** The timer block: when the spawn timer completes a period a target appears at the drawn spot. */
  function TimerStep(w: World, input: FrameInput): (r: World)
    ensures r.score == w.score && r.highScore == w.highScore
    ensures r.texts == w.texts && r.sfxPlayed == w.sfxPlayed
    ensures r.ferrisIndex == w.ferrisIndex + (if input.timerJustFinished then 1 else 0)
    ensures w.sprites.Keys <= r.sprites.Keys
    ensures input.timerJustFinished ==>
              r.sprites == w.sprites[FerrisLabel(w.ferrisIndex) := Sprite(TargetImage, input.randomSpot, true)]
    ensures !input.timerJustFinished ==> r == w
  {
    if input.timerJustFinished then Spawn(w, input.randomSpot) else w
  }

  /** The reset block, run only when the reset key went down this frame. */
  function ResetStep(w: World, input: FrameInput): (r: World)
    requires ScoreKey in w.texts
    ensures r.score == (if input.resetJustPressed then 0 else w.score)
    ensures r.highScore == w.highScore && r.ferrisIndex == w.ferrisIndex
    ensures r.sprites == w.sprites && r.sfxPlayed == w.sfxPlayed
    ensures r.texts.Keys == w.texts.Keys
    ensures r.texts == (if input.resetJustPressed then w.texts[ScoreKey := "Score: 0"] else w.texts)
  {
    if input.resetJustPressed then Reset(w) else w
  }

  /** One call of game_logic: drain, move, mouse spawn, timed spawn, reset, in that order. */
  function Frame(w: World, events: seq<CollisionEvent>, input: FrameInput): (r: World)
    requires Ready(w)
    ensures Ready(r)
  {
    ResetStep(TimerStep(MouseStep(MoveStep(ApplyEvents(w, events), input), input), input), input)
  }

  /** The score after a frame: zero when the reset key went down, otherwise the old score plus the frame's scoring events. */
  lemma FrameScore(w: World, events: seq<CollisionEvent>, input: FrameInput)
    requires Ready(w)
    ensures Frame(w, events, input).score ==
              (if input.resetJustPressed then 0 else w.score + CountScoring(events))
  {
    EventsScore(w, events);
  }

  /**
   * The score and high score after a frame: the high score takes in the
   * frame's scoring even when the reset key zeroes the score in the same frame.
   */
  lemma FrameScores(w: World, events: seq<CollisionEvent>, input: FrameInput)
    requires Ready(w) && w.score <= w.highScore
    ensures Frame(w, events, input).highScore == Max(w.highScore, w.score + CountScoring(events))
    ensures Frame(w, events, input).score ==
              (if input.resetJustPressed then 0 else w.score + CountScoring(events))
  {
    EventsScore(w, events);
    EventsHighScore(w, events);
  }

  /** The target counter advances by one per spawn, and one sound effect plays per drained event. */
  lemma FrameCounters(w: World, events: seq<CollisionEvent>, input: FrameInput)
    requires Ready(w)
    ensures Frame(w, events, input).ferrisIndex == w.ferrisIndex + SpawnCount(input)
    ensures Frame(w, events, input).sfxPlayed == w.sfxPlayed + |events|
  {
  }

  /** A frame keeps the invariant. */
  lemma FrameConsistent(w: World, events: seq<CollisionEvent>, input: FrameInput)
    requires Consistent(w)
    ensures Consistent(Frame(w, events, input))
  {
    var drained := ApplyEvents(w, events);
    EventsConsistent(w, events);
    var moved := MoveStep(drained, input);
    MoveConsistent(drained, input);
    var clicked := MouseStep(moved, input);
    if MouseSpawns(input) {
      SpawnAddsOne(moved, input.mouseLocation.value);
    }
    var timed := TimerStep(clicked, input);
    if input.timerJustFinished {
      SpawnAddsOne(clicked, input.randomSpot);
    }
    if input.resetJustPressed {
      ResetConsistent(timed);
    }
  }

  /** One frame's collision queue and inputs. */
  datatype Tick = Tick(events: seq<CollisionEvent>, input: FrameInput)

  /** Frames one after another, as the engine calls game_logic. */
  function Run(w: World, ticks: seq<Tick>): (r: World)
    requires Ready(w)
    ensures Ready(r)
    decreases |ticks|
  {
    if ticks == [] then w
    else
      var last := ticks[|ticks| - 1];
      Frame(Run(w, ticks[..|ticks| - 1]), last.events, last.input)
  }

  /** Over any run of frames the invariant holds. */
  lemma {:induction false} RunConsistent(w: World, ticks: seq<Tick>)
    requires Consistent(w)
    ensures Consistent(Run(w, ticks))
  {
    if ticks != [] {
      var last := ticks[|ticks| - 1];
      RunConsistent(w, ticks[..|ticks| - 1]);
      FrameConsistent(Run(w, ticks[..|ticks| - 1]), last.events, last.input);
    }
  }

  /** Over any run the high score never decreases and never falls below the score. */
  lemma {:induction false} RunHighScore(w: World, ticks: seq<Tick>)
    requires Ready(w) && w.score <= w.highScore
    ensures Run(w, ticks).score <= Run(w, ticks).highScore
    ensures Run(w, ticks).highScore >= w.highScore
  {
    if ticks != [] {
      var last := ticks[|ticks| - 1];
      RunHighScore(w, ticks[..|ticks| - 1]);
      FrameScores(Run(w, ticks[..|ticks| - 1]), last.events, last.input);
    }
  }

  /**
   * Over any run the target counter advances by the number of spawns, so it
   * never goes back and no label is handed out twice.
   */
  lemma {:induction false} RunSpawns(w: World, ticks: seq<Tick>)
    requires Ready(w)
    ensures Run(w, ticks).ferrisIndex == w.ferrisIndex + TotalSpawns(ticks)
  {
    if ticks != [] {
      var last := ticks[|ticks| - 1];
      RunSpawns(w, ticks[..|ticks| - 1]);
      FrameCounters(Run(w, ticks[..|ticks| - 1]), last.events, last.input);
    }
  }

  function TotalSpawns(ticks: seq<Tick>): nat
    decreases |ticks|
  {
    if ticks == [] then 0 else TotalSpawns(ticks[..|ticks| - 1]) + SpawnCount(ticks[|ticks| - 1].input)
  }

  /** Running frames a and then frames b is running a + b. */
  lemma {:induction false} RunAppend(w: World, a: seq<Tick>, b: seq<Tick>)
    requires Ready(w)
    ensures Run(w, a + b) == Run(Run(w, a), b)
    decreases |b|
  {
    if b == [] {
      assert a + b == a;
    } else {
      SplitLast(a, b);
      RunAppend(w, a, b[..|b| - 1]);
    }
  }

  /** The last frame of a + b is the last frame of b, and the frames before it are a and the rest of b. */
  lemma SplitLast(a: seq<Tick>, b: seq<Tick>)
    requires b != []
    ensures (a + b)[..|a + b| - 1] == a + b[..|b| - 1] && (a + b)[|a + b| - 1] == b[|b| - 1]
  {
  }

  /** Cutting a run at k: the first m frames are the first k and then frames k to m. */
  lemma SplitAt(ticks: seq<Tick>, k: nat, m: nat)
    requires k <= m <= |ticks|
    ensures ticks[..m] == ticks[..k] + ticks[k..m]
  {
  }

  /** The number of scoring events since the last frame in which the reset key went down. */
  function ScoreSinceReset(start: nat, ticks: seq<Tick>): nat
    decreases |ticks|
  {
    if ticks == [] then start
    else if ticks[|ticks| - 1].input.resetJustPressed then 0
    else ScoreSinceReset(start, ticks[..|ticks| - 1]) + CountScoring(ticks[|ticks| - 1].events)
  }

  /** The score after a run counts the scoring events since the last reset (or from the start score, if none). */
  lemma {:induction false} RunScore(w: World, ticks: seq<Tick>)
    requires Ready(w)
    ensures Run(w, ticks).score == ScoreSinceReset(w.score, ticks)
    decreases |ticks|
  {
    if ticks != [] {
      var last := ticks[|ticks| - 1];
      RunScore(w, ticks[..|ticks| - 1]);
      FrameScore(Run(w, ticks[..|ticks| - 1]), last.events, last.input);
    }
  }

  /**
   * The largest score reached during a run that starts at score `start`:
   * the start score and, for every frame, the score right after its drain,
   * before any reset in that frame.
   */
  function PeakScore(start: nat, ticks: seq<Tick>): nat
    decreases |ticks|
  {
    if ticks == [] then start
    else
      Max(PeakScore(start, ticks[..|ticks| - 1]),
          ScoreSinceReset(start, ticks[..|ticks| - 1]) + CountScoring(ticks[|ticks| - 1].events))
  }

  /** At every point of a run the high score is the larger of its start value and the largest score reached. */
  lemma {:induction false} RunHighScoreIsPeak(w: World, ticks: seq<Tick>)
    requires Ready(w) && w.score <= w.highScore
    ensures Run(w, ticks).highScore == Max(w.highScore, PeakScore(w.score, ticks))
    decreases |ticks|
  {
    if ticks != [] {
      var front, last := ticks[..|ticks| - 1], ticks[|ticks| - 1];
      RunHighScoreIsPeak(w, front);
      RunHighScore(w, front);
      RunScore(w, front);
      FrameScores(Run(w, front), last.events, last.input);
    }
  }

  /** Any later point of a run has a high score at least the score and the high score of any earlier point. */
  lemma HighScoreCoversEarlier(w: World, ticks: seq<Tick>, k: nat, m: nat)
    requires Ready(w) && w.score <= w.highScore
    requires k <= m <= |ticks|
    ensures Run(w, ticks[..k]).score <= Run(w, ticks[..m]).highScore
    ensures Run(w, ticks[..k]).highScore <= Run(w, ticks[..m]).highScore
  {
    SplitAt(ticks, k, m);
    RunAppend(w, ticks[..k], ticks[k..m]);
    RunHighScore(w, ticks[..k]);
    RunHighScore(Run(w, ticks[..k]), ticks[k..m]);
  }

  // ---------------------------------------------------------------------------
  // Start of the game

  /** The default GameState with the tables main() sets up before the first frame. */
  function Startup(): (w: World)
  {
    World(0, 0, 0,
          map[PlayerLabel := Sprite("RacingCarGreen", Point(0.0, 0.0), true)],
          map[ScoreKey := "Score: 0", HighScoreKey := "High Score: 0"],
          0)
  }

  /** The game starts at score 0, high score 0, counter 0, with the invariant in force. */
  lemma StartupConsistent()
    ensures Startup().score == 0 && Startup().highScore == 0 && Startup().ferrisIndex == 0
    ensures Consistent(Startup())
  {
    assert NatToString(0) == "0";
    assert ScoreText(0) == "Score: 0";
    assert HighScoreText(0) == "High Score: 0";
  }

  // ---------------------------------------------------------------------------
  // Two concrete frames

  /** Three hits from a fresh start show 3 and 3 on the HUD; a reset then zeroes only the score. */
  lemma ThreeHitsThenReset(input: FrameInput, quiet: FrameInput)
    requires !input.resetJustPressed && !MouseSpawns(input) && !input.timerJustFinished
    requires quiet.resetJustPressed
    ensures var hit := CollisionEvent(Begin, PlayerLabel, FerrisLabel(0));
            var w := Frame(Startup(), [hit, hit, hit], input);
            && w.score == 3 && w.highScore == 3
            && w.texts[ScoreKey] == "Score: 3" && w.texts[HighScoreKey] == "High Score: 3"
            && Frame(w, [], quiet).score == 0 && Frame(w, [], quiet).highScore == 3
            && Frame(w, [], quiet).texts[ScoreKey] == "Score: 0"
            && Frame(w, [], quiet).texts[HighScoreKey] == "High Score: 3"
  {
    var hit := CollisionEvent(Begin, PlayerLabel, FerrisLabel(0));
    var hits := [hit, hit, hit];
    assert Scores(hit);
    assert CountScoring(hits) == 3;
    StartupConsistent();
    FrameScores(Startup(), hits, input);
    FrameConsistent(Startup(), hits, input);
    var w := Frame(Startup(), hits, input);
    assert NatToString(3) == "3";
    assert w.texts[ScoreKey] == ScoreText(3) == "Score: 3";
    assert w.texts[HighScoreKey] == HighScoreText(3) == "High Score: 3";
    FrameConsistent(w, [], quiet);
    FrameScores(w, [], quiet);
    assert CountScoring([]) == 0;
    var after := Frame(w, [], quiet);
    assert after.texts[HighScoreKey] == HighScoreText(3);
  }

  /** A click at (100, 50) adds one collidable target there, labelled with the counter before the click. */
  lemma ClickSpawnsAtCursor(w: World, events: seq<CollisionEvent>, input: FrameInput)
    requires Consistent(w)
    requires input.mouseJustPressed && input.mouseLocation == Some(Point(100.0, 50.0))
    requires !input.timerJustFinished && !input.resetJustPressed
    ensures var r := Frame(w, events, input);
            && FerrisLabel(w.ferrisIndex) !in w.sprites
            && r.sprites[FerrisLabel(w.ferrisIndex)] == Sprite(TargetImage, Point(100.0, 50.0), true)
            && r.ferrisIndex == w.ferrisIndex + 1
            && r.sprites.Keys == w.sprites.Keys - RemovedBy(events) + {FerrisLabel(w.ferrisIndex)}
  {
    EventsSprites(w, events);
  }
}
