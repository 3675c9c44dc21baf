/** The rules of the game on plain values: the state of a match as integers, one
    function per state change of `GameState` and `TerminalOutput`, and the
    properties those changes have. The classes in module `Game` are proved to
    follow these functions. */
module Rules {
  import opened Platform

  /** `GameState::paddle_size`: two columns wide, four rows tall. */
  const PaddleWidth: int := 2
  const PaddleHeight: int := 4
  const U16Max: int := 0xFFFF

  datatype Paddle = Paddle(score: int, x: int, y: int)
  /** The ball cell and its velocity; the ball is always a 1x1 `Rect`. */
  datatype Ball = Ball(x: int, y: int, vx: int, vy: int)
  /** Everything a `GameState` holds, as values. */
  datatype GameView = GameView(player: Paddle, opponent: Paddle, ball: Ball, arena: Rect)

  // The four borders of `get_game_borders`, and the cell the code calls the centre.
  function Top(a: Rect): int { a.y as int }
  function Bottom(a: Rect): int { a.y as int + a.height as int }
  function LeftEdge(a: Rect): int { a.x as int }
  function RightEdge(a: Rect): int { a.x as int + a.width as int }
  function CentreX(a: Rect): int { RightEdge(a) / 2 }
  function CentreY(a: Rect): int { Bottom(a) / 2 }

  /** The arenas the game is defined on: the borders fit in `u16`, the
      opponent's column leaves room for the `opponent.x - 1` of the hit test,
      and the centre cell lies far enough inside that both paddles start
      strictly between the top and bottom borders and a served ball cannot
      leave the arena. */
  predicate ArenaOk(a: Rect) {
    && RightEdge(a) <= U16Max
    && Bottom(a) <= U16Max
    && RightEdge(a) >= PaddleWidth + 2
    && LeftEdge(a) + 1 <= CentreX(a) <= RightEdge(a) - 2
    && Top(a) + 3 <= CentreY(a) <= Bottom(a) - 3
  }

  predicate Unit(v: int) { v == 1 || v == -1 }

  /** The paddle's top row is below the top border and its row `y + 4` is above
      the bottom border: what the clamp of `move_paddle` keeps. */
  predicate PaddleInside(p: Paddle, a: Rect) {
    Top(a) < p.y && p.y + PaddleHeight < Bottom(a)
  }

  /** The ball is inside the arena; on the first row below the top border it
      is moving up and on the last row it is moving down (it only arrives at
      either row that way, and bounces off it on the next tick). */
  predicate BallInside(b: Ball, a: Rect) {
    && LeftEdge(a) <= b.x < RightEdge(a)
    && Top(a) + 1 <= b.y < Bottom(a)
    && (b.y == Top(a) + 1 ==> b.vy == -1)
    && (b.y == Bottom(a) - 1 ==> b.vy == 1)
  }

  /** What holds of every state a match goes through. */
  predicate Inv(g: GameView) {
    && ArenaOk(g.arena)
    && g.player.x == LeftEdge(g.arena) + 1
    && g.opponent.x == RightEdge(g.arena) - (PaddleWidth + 1)
    && PaddleInside(g.player, g.arena)
    && PaddleInside(g.opponent, g.arena)
    && 0 <= g.player.score <= U16Max
    && 0 <= g.opponent.score <= U16Max
    && Unit(g.ball.vx)
    && Unit(g.ball.vy)
    && BallInside(g.ball, g.arena)
  }

  /** `GameState::new`: both paddles one column in from their side wall with
      their top row two above the centre row, the ball on the centre cell
      moving (1, 1), no points. */
  function Initial(a: Rect): (g: GameView)
    requires ArenaOk(a)
    ensures Inv(g)
  {
    var paddleY := CentreY(a) - PaddleHeight / 2;
    GameView(
      Paddle(0, LeftEdge(a) + 1, paddleY),
      Paddle(0, RightEdge(a) - (PaddleWidth + 1), paddleY),
      Ball(CentreX(a), CentreY(a), 1, 1),
      a)
  }

  // The conditions `move_pong_ball` tests, all on the ball cell (x, y) it read first.

  predicate NearWall(a: Rect, y: int) { y <= Top(a) + 1 || y >= Bottom(a) - 1 }

  /** The ball is in the column right of the player's paddle, within the rows
      `paddle.y ..= paddle.y + 4`. */
  predicate HitsPlayer(p: Paddle, x: int, y: int) {
    x == p.x + PaddleWidth && p.y <= y <= p.y + PaddleHeight
  }

  /** The ball is in the column left of the opponent's paddle, same rows. */
  predicate HitsOpponent(p: Paddle, x: int, y: int) {
    x == p.x - 1 && p.y <= y <= p.y + PaddleHeight
  }

  predicate PastLeft(a: Rect, x: int) { x <= LeftEdge(a) }
  predicate PastRight(a: Rect, x: int) { x >= RightEdge(a) - 1 }

  /** The score that is about to rise is below the `u16` maximum. */
  predicate ScoreRoom(g: GameView) {
    && (PastLeft(g.arena, g.ball.x) ==> g.opponent.score < U16Max)
    && (PastRight(g.arena, g.ball.x) ==> g.player.score < U16Max)
  }

  function Flip(v: int, c: bool): int { if c then -v else v }
  function StepToward(p: int, v: int): int { if v < 0 then p - 1 else p + 1 }
  function Point(c: bool): int { if c then 1 else 0 }

  // The stages of `move_pong_ball`, each on the state before the tick.

  /** The vertical velocity after the wall check. */
  function WallVy(g: GameView): int {
    Flip(g.ball.vy, NearWall(g.arena, g.ball.y))
  }

  /** The horizontal velocity after the two paddle checks. */
  function PaddleVx(g: GameView): int {
    Flip(Flip(g.ball.vx, HitsPlayer(g.player, g.ball.x, g.ball.y)), HitsOpponent(g.opponent, g.ball.x, g.ball.y))
  }

  /** The horizontal velocity after the two edge checks. */
  function ScoreVx(g: GameView): int {
    Flip(Flip(PaddleVx(g), PastLeft(g.arena, g.ball.x)), PastRight(g.arena, g.ball.x))
  }

  predicate Scored(g: GameView) {
    PastLeft(g.arena, g.ball.x) || PastRight(g.arena, g.ball.x)
  }

  /** The cell the ball steps from: the centre after a point, else where it was. */
  function ServeX(g: GameView): int { if Scored(g) then CentreX(g.arena) else g.ball.x }
  function ServeY(g: GameView): int { if Scored(g) then CentreY(g.arena) else g.ball.y }

  /** `move_pong_ball`: wall bounce, player hit, opponent hit, left-edge score,
      right-edge score (each score also reverses the ball and puts it back on
      the centre cell), then one cell in each axis. */
  function BallMoved(g: GameView): (r: GameView)
    requires Inv(g) && ScoreRoom(g)
    ensures Inv(r)
    ensures r.arena == g.arena
    ensures r.player.x == g.player.x && r.player.y == g.player.y
    ensures r.opponent.x == g.opponent.x && r.opponent.y == g.opponent.y
    ensures g.player.score <= r.player.score <= g.player.score + 1
    ensures g.opponent.score <= r.opponent.score <= g.opponent.score + 1
  {
    var vx, vy := ScoreVx(g), WallVy(g);
    GameView(
      g.player.(score := g.player.score + Point(PastRight(g.arena, g.ball.x))),
      g.opponent.(score := g.opponent.score + Point(PastLeft(g.arena, g.ball.x))),
      Ball(StepToward(ServeX(g), vx), StepToward(ServeY(g), vy), vx, vy),
      g.arena)
  }

  /** The final step of `move_pong_ball` stays in `u16`: the ball never steps
      left of column 0 or above row 0, nor past 0xFFFF. */
  lemma StepInRange(g: GameView)
    requires Inv(g) && ScoreRoom(g)
    ensures Unit(ScoreVx(g)) && Unit(WallVy(g))
    ensures 0 <= ServeX(g) <= U16Max && 0 <= ServeY(g) <= U16Max
    ensures 0 <= StepToward(ServeX(g), ScoreVx(g)) <= U16Max
    ensures 0 <= StepToward(ServeY(g), WallVy(g)) <= U16Max
  {
  }

  /** `move_paddle`: `w`/`s` move the player's paddle and `Up`/`Down` the
      opponent's, one row, only while the paddle stays clear of the border. */
  function PaddleMoved(g: GameView, key: KeyCode): (r: GameView)
    requires Inv(g)
    ensures Inv(r)
    ensures r.ball == g.ball && r.arena == g.arena
    ensures r.player.x == g.player.x && r.player.score == g.player.score
    ensures r.opponent.x == g.opponent.x && r.opponent.score == g.opponent.score
    ensures key != Char('w') && key != Char('s') ==> r.player == g.player
    ensures key != Up && key != Down ==> r.opponent == g.opponent
  {
    var top, bottom := Top(g.arena), Bottom(g.arena);
    match key
    case Char(c) =>
      if c == 'w' && g.player.y - 1 > top then
        g.(player := g.player.(y := g.player.y - 1))
      else if c == 's' && g.player.y + PaddleHeight + 1 < bottom then
        g.(player := g.player.(y := g.player.y + 1))
      else g
    case Up =>
      if g.opponent.y - 1 > top then g.(opponent := g.opponent.(y := g.opponent.y - 1)) else g
    case Down =>
      if g.opponent.y + PaddleHeight + 1 < bottom then g.(opponent := g.opponent.(y := g.opponent.y + 1)) else g
    case OtherKey => g
  }

  /** What `read_key` does with one event. */
  datatype KeyAction = Quit | Steer(code: KeyCode) | Ignore

  predicate SteeringKey(code: KeyCode) {
    code == Char('w') || code == Char('s') || code == Up || code == Down
  }

  /** Ctrl-C ends the game; `w`, `s`, `Up` and `Down` without modifiers move a
      paddle; every other event is ignored. */
  function KeyDispatch(e: Event): (r: KeyAction)
    ensures r.Steer? ==> SteeringKey(r.code)
  {
    match e
    case Key(k) =>
      if k.code == Char('c') && k.modifiers == {Control} then Quit
      else if SteeringKey(k.code) && k.modifiers == {} then Steer(k.code)
      else Ignore
    case _ => Ignore
  }

  predicate IsQuit(poll: Option<Event>) {
    poll.Some? && KeyDispatch(poll.value) == Quit
  }

  /** Room for one more point on each side, for each of `n` ticks. */
  predicate Budget(g: GameView, n: nat) {
    g.player.score + n <= U16Max && g.opponent.score + n <= U16Max
  }

  /** One pass of the loop of `TerminalOutput::run`: the event the poll
      produced, if any, goes to `read_key`; a quit leaves the loop before the
      ball moves; otherwise the ball moves. The flag says whether the loop
      goes on. A pass overflows a score exactly when it does not quit and the
      ball's column scores for a side already at 0xFFFF, which the
      precondition excludes (a paddle move never changes that column). */
  function Ticked(g: GameView, poll: Option<Event>): (r: (GameView, bool))
    requires Inv(g) && (IsQuit(poll) || ScoreRoom(g))
    ensures Inv(r.0)
    ensures r.1 <==> !IsQuit(poll)
    ensures !r.1 ==> r.0 == g
    ensures g.player.score <= r.0.player.score <= g.player.score + 1
    ensures g.opponent.score <= r.0.opponent.score <= g.opponent.score + 1
  {
    if poll.None? then (BallMoved(g), true)
    else
      match KeyDispatch(poll.value)
      case Quit => (g, false)
      case Steer(code) => (BallMoved(PaddleMoved(g, code)), true)
      case Ignore => (BallMoved(g), true)
  }

  /** The loop of `TerminalOutput::run` over a finite run of poll results: the
      state after the last of them, or after the quit that ended the loop. */
  function Played(g: GameView, polls: seq<Option<Event>>): (r: GameView)
    requires Inv(g) && Budget(g, |polls|)
    ensures Inv(r)
    ensures g.player.score <= r.player.score <= g.player.score + |polls|
    ensures g.opponent.score <= r.opponent.score <= g.opponent.score + |polls|
    decreases |polls|
  {
    if polls == [] then g
    else
      var (next, running) := Ticked(g, polls[0]);
      if running then Played(next, polls[1..]) else next
  }
}
