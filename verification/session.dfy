/**
 The game session as a state machine. The engine's callbacks become events:
 a frame tick (with the keys held and the position the physics step left the
 player at), an item overlap, an exit overlap, an enemy contact, and the R
 key. Pausing the physics is modelled as leaving the Playing phase: no
 overlap or contact has an effect afterwards and the player is no longer
 moved, until R rebuilds the whole session.
 */
module GameSession {
  import opened World
  import opened Movement
  import opened Scoring

  datatype Phase = Playing | Won | Lost

  datatype Body = Body(pos: Point, vel: Velocity)

  datatype Session = Session(
    phase: Phase,
    collected: nat,          // items picked up so far
    items: seq<Item>,        // items still in the world
    player: Body,
    enemies: seq<Point>,
    exit: Point)

  datatype Event =
    | Frame(keys: Keys, moved: Point)   // one update() call
    | TouchItem(id: ItemId)             // player overlaps item `id`
    | TouchExit                         // player overlaps the exit
    | TouchEnemy                        // player collides with any enemy
    | PressR                            // the R key goes down

  /** The session a (re)start builds: everything at its spawn point, score 0. */
  function Initial(): (s: Session)
    ensures s.phase == Playing && s.collected == 0
    ensures Valid(s)
    ensures |s.items| == TotalItems && UniqueIds(s.items)
  {
    Session(Playing, 0, ItemSpawns, Body(PlayerSpawn, Still), EnemySpawns, ExitAt)
  }

  /** One frame: a fresh velocity from the keys, then the wrap teleport. While
      the physics is paused the engine leaves the player where it was. */
  function OnFrame(s: Session, keys: Keys, moved: Point): Session
  {
    var pos := if s.phase == Playing then moved else s.player.pos;
    s.(player := Body(Wrap(pos), SelectVelocity(keys)))
  }

  /** The item overlap: the item is destroyed and the count goes up by one. */
  function OnItem(s: Session, id: ItemId): Session
  {
    if s.phase == Playing && id in IdsOf(s.items) then
      s.(items := RemoveItem(s.items, id), collected := s.collected + 1)
    else s
  }

  /** The exit overlap: a win only when every item has been collected. */
  function OnExit(s: Session): Session
  {
    if s.phase == Playing && s.collected == TotalItems then s.(phase := Won) else s
  }

  /** The enemy contact: the game is lost whatever the score. */
  function OnEnemy(s: Session): Session
  {
    if s.phase == Playing then s.(phase := Lost) else s
  }

  /** The R key restarts only once a win or loss armed the listener; the
      restart zeroes the count and rebuilds the scene from its spawn table. */
  function OnRestart(s: Session): Session
  {
    if s.phase != Playing then Initial() else s
  }

  function Step(s: Session, e: Event): Session
  {
    match e
    case Frame(keys, moved) => OnFrame(s, keys, moved)
    case TouchItem(id) => OnItem(s, id)
    case TouchExit => OnExit(s)
    case TouchEnemy => OnEnemy(s)
    case PressR => OnRestart(s)
  }

  /** The session after a sequence of events, applied in order. */
  function Run(s: Session, es: seq<Event>): Session
    decreases |es|
  {
    if |es| == 0 then s else Run(Step(s, es[0]), es[1..])
  }

  /** What every reachable session satisfies: each spawned item is either
      still in the world or counted, never both and never twice, and the
      player is inside the world. */
  predicate Valid(s: Session)
  {
    && s.collected + |s.items| == TotalItems
    && UniqueIds(s.items)
    && (forall it :: it in s.items ==> it in ItemSpawns)
    && InWorld(s.player.pos)
  }

  lemma InitialValid()
    ensures Valid(Initial())
  {
  }

  lemma StepValid(s: Session, e: Event)
    requires Valid(s)
    ensures Valid(Step(s, e))
  {
    match e
    case TouchItem(id) =>
      if s.phase == Playing && id in IdsOf(s.items) {
        var t := Step(s, e);
        assert |t.items| == |s.items| - 1;
      }
    case _ =>
  }

  lemma {:induction false} RunValid(s: Session, es: seq<Event>)
    requires Valid(s)
    ensures Valid(Run(s, es))
    decreases |es|
  {
    if |es| > 0 {
      StepValid(s, es[0]);
      RunValid(Step(s, es[0]), es[1..]);
    }
  }

  /** From the start, whatever happens, the count stays within 0..3 and the
      player stays inside the world. */
  lemma ScoreBounded(es: seq<Event>)
    ensures Run(Initial(), es).collected <= TotalItems
    ensures |Run(Initial(), es).items| == TotalItems - Run(Initial(), es).collected
    ensures InWorld(Run(Initial(), es).player.pos)
  {
    InitialValid();
    RunValid(Initial(), es);
  }

  /** A frame with no key held leaves the player still. */
  lemma FrameWithoutKeys(s: Session, moved: Point)
    ensures Step(s, Frame(Keys(false, false, false, false), moved)).player.vel == Still
  {
  }

  /** A frame lands the player at the wrapped engine position while playing,
      and leaves a paused player in place; nothing else changes. */
  lemma FramePosition(s: Session, keys: Keys, moved: Point)
    requires Valid(s)
    ensures var t := Step(s, Frame(keys, moved));
      && t.player.pos == (if s.phase == Playing then Wrap(moved) else s.player.pos)
      && t.player.vel == SelectVelocity(keys)
      && t.(player := s.player) == s
  {
  }

  /** Collecting a present item removes exactly that item and adds one. */
  lemma CollectPresent(s: Session, id: ItemId)
    requires Valid(s) && s.phase == Playing && id in IdsOf(s.items)
    ensures var t := Step(s, TouchItem(id));
      && t.collected == s.collected + 1
      && id !in IdsOf(t.items)
      && (forall it :: it in t.items <==> it in s.items && it.id != id)
      && |t.items| == |s.items| - 1
      && t == s.(items := t.items, collected := t.collected)
  {
  }

  /** No item is counted twice: touching an item again, once it is gone,
      changes nothing. */
  lemma CollectIdempotent(s: Session, id: ItemId)
    ensures Step(Step(s, TouchItem(id)), TouchItem(id)) == Step(s, TouchItem(id))
  {
    var t := Step(s, TouchItem(id));
    assert id !in IdsOf(t.items) || t == s;
  }

  /** The exit does nothing before every item is in hand, and wins after. */
  lemma ExitRule(s: Session)
    requires s.phase == Playing
    ensures s.collected < TotalItems ==> Step(s, TouchExit) == s
    ensures s.collected == TotalItems ==> Step(s, TouchExit) == s.(phase := Won)
  {
  }

  /** Enemy contact while playing loses, whatever the score. */
  lemma EnemyRule(s: Session)
    requires s.phase == Playing
    ensures Step(s, TouchEnemy) == s.(phase := Lost)
  {
  }

  /** Restart from a win or a loss yields the spawn layout with score 0; in
      play the R key does nothing. */
  lemma RestartRule(s: Session)
    ensures s.phase != Playing ==> Step(s, PressR) == Initial()
    ensures s.phase == Playing ==> Step(s, PressR) == s
  {
  }

  /** Won and Lost are frozen: until R, no event changes phase, count or items. */
  lemma TerminalFrozen(s: Session, e: Event)
    requires s.phase != Playing && !e.PressR?
    ensures Step(s, e).phase == s.phase
    ensures Step(s, e).collected == s.collected
    ensures Step(s, e).items == s.items
  {
  }

  /** The only phase changes: Playing to Won at the exit with a full count,
      Playing to Lost on contact, and Won or Lost back to a fresh start on R. */
  lemma PhaseTransitions(s: Session, e: Event)
    requires Step(s, e).phase != s.phase
    ensures
      || (s.phase == Playing && e == TouchExit && s.collected == TotalItems && Step(s, e).phase == Won)
      || (s.phase == Playing && e == TouchEnemy && Step(s, e).phase == Lost)
      || (s.phase != Playing && e == PressR && Step(s, e) == Initial())
  {
  }

  /** The count only falls on a restart, and then to zero. */
  lemma ScoreMonotone(s: Session, e: Event)
    ensures Step(s, e).collected < s.collected ==> e == PressR && s.phase != Playing && Step(s, e).collected == 0
    ensures s.phase == Playing ==> Step(s, e).collected >= s.collected
  {
  }

  /** Over any run without a restart, the count never falls. */
  lemma {:induction false} RunWithoutRestartMonotone(s: Session, es: seq<Event>)
    requires forall i :: 0 <= i < |es| ==> !es[i].PressR?
    ensures Run(s, es).collected >= s.collected
    decreases |es|
  {
    if |es| > 0 {
      ScoreMonotone(s, es[0]);
      RunWithoutRestartMonotone(Step(s, es[0]), es[1..]);
    }
  }

  /** Winning: pick up the three items, showing 1/3 after the first, then
      reach the exit. */
  lemma WinScenario()
    ensures var s1 := Run(Initial(), [TouchItem(0)]);
      s1.collected == 1 && ScoreText(s1.collected) == "Items: 1/3"
    ensures var s3 := Run(Initial(), [TouchItem(0), TouchItem(1), TouchItem(2)]);
      s3.collected == 3 && s3.items == [] && s3.phase == Playing
    ensures Run(Initial(), [TouchItem(0), TouchItem(1), TouchItem(2), TouchExit]).phase == Won
  {
    ScoreTextValues();
    var s0 := Initial();
    var s1 := Step(s0, TouchItem(0));
    assert s1.items == ItemSpawns[1..];
    var s2 := Step(s1, TouchItem(1));
    assert s2.items == ItemSpawns[2..];
    var s3 := Step(s2, TouchItem(2));
    assert s3.items == [];
    assert Run(Initial(), [TouchItem(0)]) == s1;
    assert Run(Initial(), [TouchItem(0), TouchItem(1), TouchItem(2)]) == s3;
    assert Run(Initial(), [TouchItem(0), TouchItem(1), TouchItem(2), TouchExit]) == Step(s3, TouchExit);
  }

  /** Losing before every item is collected, then restarting. */
  lemma LoseScenario()
    ensures Run(Initial(), [TouchItem(0), TouchEnemy]).phase == Lost
    ensures Run(Initial(), [TouchItem(0), TouchEnemy, TouchExit]).phase == Lost
    ensures Run(Initial(), [TouchItem(0), TouchEnemy, PressR]) == Initial()
  {
    var s1 := Step(Initial(), TouchItem(0));
    var s2 := Step(s1, TouchEnemy);
    assert Run(Initial(), [TouchItem(0), TouchEnemy]) == s2;
    assert Run(Initial(), [TouchItem(0), TouchEnemy, TouchExit]) == Step(s2, TouchExit);
    assert Run(Initial(), [TouchItem(0), TouchEnemy, PressR]) == Step(s2, PressR);
  }

  /** A player reported at x = -5 is teleported to the right edge. */
  lemma WrapScenario(s: Session)
    requires s.phase == Playing
    ensures Step(s, Frame(Keys(true, false, false, false), Point(-5.0, 300.0))).player
         == Body(Point(Width, 300.0), Velocity(-Speed, 0))
  {
  }
}
