/** What the rules of module `Rules` promise: the layout of a new game, the
    bounce, hit, scoring and step rules of one tick, the clamp of the paddle
    keys, the key dispatch, and how a run of ticks ends on Ctrl-C. */
module Properties {
  import opened Platform
  import opened Rules

  /** A new game is laid out symmetrically: each paddle leaves one free column
      between itself and its side wall, both paddles share a top row two rows
      above the ball, the ball sits on the centre cell moving right and down,
      and nobody has a point. */
  lemma InitialLayout(a: Rect)
    requires ArenaOk(a)
    ensures var g := Initial(a);
      && g.player.score == 0 && g.opponent.score == 0
      && g.player.x - LeftEdge(a) == 1
      && RightEdge(a) - (g.opponent.x + PaddleWidth) == 1
      && g.player.y == g.opponent.y
      && g.player.y + PaddleHeight / 2 == g.ball.y
      && g.ball == Ball(CentreX(a), CentreY(a), 1, 1)
  {
  }

  /** Wall rule: the vertical velocity reverses exactly when the ball is on the
      first or last row inside the arena, and it then points back inside. */
  lemma WallBounce(g: GameView)
    requires Inv(g) && ScoreRoom(g)
    ensures var r := BallMoved(g);
      && (r.ball.vy == -g.ball.vy <==> g.ball.y == Top(g.arena) + 1 || g.ball.y == Bottom(g.arena) - 1)
      && (r.ball.vy == g.ball.vy <==> Top(g.arena) + 1 < g.ball.y < Bottom(g.arena) - 1)
      && (g.ball.y == Top(g.arena) + 1 ==> r.ball.vy == 1)
      && (g.ball.y == Bottom(g.arena) - 1 ==> r.ball.vy == -1)
  {
  }

  /** How many of the four horizontal events of a tick fire. */
  function HorizontalEvents(g: GameView): nat {
    Point(HitsPlayer(g.player, g.ball.x, g.ball.y)) + Point(HitsOpponent(g.opponent, g.ball.x, g.ball.y))
    + Point(PastLeft(g.arena, g.ball.x)) + Point(PastRight(g.arena, g.ball.x))
  }

  /** Paddle and edge rule: the horizontal velocity ends reversed exactly when
      an odd number of the two paddle hits and two edge checks fire; the
      paddle hits leave the vertical velocity to the wall rule. */
  lemma HorizontalBounce(g: GameView)
    requires Inv(g) && ScoreRoom(g)
    ensures var r := BallMoved(g);
      && (r.ball.vx == -g.ball.vx <==> HorizontalEvents(g) % 2 == 1)
      && r.ball.vy == Flip(g.ball.vy, NearWall(g.arena, g.ball.y))
  {
  }

  /** In an arena wider than four columns, a ball that touches only one paddle
      comes back off it (in a four-column arena the opponent's hit column is
      the left border, where the point reverses the ball a second time). */
  lemma PaddleReturnsBall(g: GameView)
    requires Inv(g) && ScoreRoom(g) && g.arena.width > 4
    requires HitsPlayer(g.player, g.ball.x, g.ball.y) != HitsOpponent(g.opponent, g.ball.x, g.ball.y)
    ensures BallMoved(g).ball.vx == -g.ball.vx
  {
  }

  /** Scoring rule: reaching the left border gives the opponent exactly one
      point, reaching the last column gives the player exactly one point, no
      score ever falls, and in an arena wider than one column at most one
      point is given per tick. A point serves the ball from the centre cell
      away from its previous direction unless a paddle hit also fired. */
  lemma Scoring(g: GameView)
    requires Inv(g) && ScoreRoom(g)
    ensures var r := BallMoved(g);
      && r.opponent.score == g.opponent.score + Point(g.ball.x <= LeftEdge(g.arena))
      && r.player.score == g.player.score + Point(g.ball.x >= RightEdge(g.arena) - 1)
      && r.player.score >= g.player.score && r.opponent.score >= g.opponent.score
      && (g.arena.width > 1 ==> r.player.score + r.opponent.score <= g.player.score + g.opponent.score + 1)
      && (Scored(g) && !HitsOpponent(g.opponent, g.ball.x, g.ball.y) && !HitsPlayer(g.player, g.ball.x, g.ball.y)
          ==> r.ball.vx == -g.ball.vx && r.ball.x == CentreX(g.arena) + r.ball.vx)
  {
  }

  /** Step rule: after the checks the ball moves one cell along each axis in
      the sign of its final velocity, from where it was, or from the centre
      cell when a point was scored. */
  lemma Step(g: GameView)
    requires Inv(g) && ScoreRoom(g)
    ensures var r := BallMoved(g);
      && Unit(r.ball.vx) && Unit(r.ball.vy)
      && (!Scored(g) ==> r.ball.x == g.ball.x + r.ball.vx && r.ball.y == g.ball.y + r.ball.vy)
      && (Scored(g) ==> r.ball.x == CentreX(g.arena) + r.ball.vx && r.ball.y == CentreY(g.arena) + r.ball.vy)
  {
  }

  /** A `w` that moved the player's paddle is undone by an `s`, and the other
      way round; the same holds for `Up`, `Down` and the opponent's paddle. */
  lemma UpDownInverse(g: GameView)
    requires Inv(g)
    ensures PaddleMoved(g, Char('w')) != g ==> PaddleMoved(PaddleMoved(g, Char('w')), Char('s')) == g
    ensures PaddleMoved(g, Char('s')) != g ==> PaddleMoved(PaddleMoved(g, Char('s')), Char('w')) == g
    ensures PaddleMoved(g, Up) != g ==> PaddleMoved(PaddleMoved(g, Up), Down) == g
    ensures PaddleMoved(g, Down) != g ==> PaddleMoved(PaddleMoved(g, Down), Up) == g
  {
  }

  /** The clamp is tight: a paddle stops going up exactly on the first row
      below the top border, and stops going down exactly when its row `y + 4`
      is the last row inside the arena. */
  lemma ClampStops(g: GameView)
    requires Inv(g)
    ensures PaddleMoved(g, Char('w')) == g <==> g.player.y == Top(g.arena) + 1
    ensures PaddleMoved(g, Char('s')) == g <==> g.player.y + PaddleHeight == Bottom(g.arena) - 1
    ensures PaddleMoved(g, Up) == g <==> g.opponent.y == Top(g.arena) + 1
    ensures PaddleMoved(g, Down) == g <==> g.opponent.y + PaddleHeight == Bottom(g.arena) - 1
  {
  }

  /** Key dispatch: only Ctrl-C (with no other modifier) quits; exactly the
      unmodified `w`, `s`, `Up` and `Down` steer, each its own key; all other
      events, key or not, are ignored. */
  lemma Dispatch(e: Event)
    ensures KeyDispatch(e) == Quit <==> e == Key(KeyEvent(Char('c'), {Control}))
    ensures KeyDispatch(e).Steer? <==> e.Key? && e.key.modifiers == {} && SteeringKey(e.key.code)
    ensures KeyDispatch(e).Steer? ==> KeyDispatch(e).code == e.key.code
    ensures !e.Key? ==> KeyDispatch(e) == Ignore
  {
  }

  /** Nothing after a Ctrl-C has any effect: the run ends on it. */
  lemma {:induction false} QuitEndsRun(g: GameView, polls: seq<Option<Event>>, i: nat)
    requires Inv(g) && Budget(g, |polls|)
    requires i < |polls| && IsQuit(polls[i])
    ensures Played(g, polls) == Played(g, polls[..i])
    decreases i
  {
    if i == 0 {
      assert polls[..0] == [];
    } else {
      var (next, running) := Ticked(g, polls[0]);
      if running {
        QuitEndsRun(next, polls[1..], i - 1);
        assert polls[1..][..i - 1] == polls[..i][1..];
      }
    }
  }

  /** Running two stretches of polls one after the other is running them
      joined, as long as the first stretch holds no Ctrl-C. */
  lemma {:induction false} PlayedAppend(g: GameView, first: seq<Option<Event>>, second: seq<Option<Event>>)
    requires Inv(g) && Budget(g, |first| + |second|)
    requires forall j :: 0 <= j < |first| ==> !IsQuit(first[j])
    ensures Budget(Played(g, first), |second|)
    ensures Played(g, first + second) == Played(Played(g, first), second)
    decreases |first|
  {
    if first == [] {
      assert first + second == second;
    } else {
      var next := Ticked(g, first[0]).0;
      assert (first + second)[0] == first[0];
      assert (first + second)[1..] == first[1..] + second;
      assert !IsQuit(first[0]);
      assert Played(g, first) == Played(next, first[1..]);
      assert Played(g, first + second) == Played(next, first[1..] + second);
      PlayedAppend(next, first[1..], second);
    }
  }

  /** The scores never fall over a run of ticks: a longer prefix of the same
      polls ends with scores at least as high. */
  lemma {:induction false} ScoresNeverFall(g: GameView, polls: seq<Option<Event>>, k: nat)
    requires Inv(g) && Budget(g, |polls|) && k <= |polls|
    ensures Played(g, polls[..k]).player.score <= Played(g, polls).player.score
    ensures Played(g, polls[..k]).opponent.score <= Played(g, polls).opponent.score
    decreases k
  {
    if k == 0 {
      assert polls[..0] == [];
    } else {
      var (next, running) := Ticked(g, polls[0]);
      assert polls[..k][0] == polls[0];
      if running {
        assert polls[..k][1..] == polls[1..][..k - 1];
        ScoresNeverFall(next, polls[1..], k - 1);
      }
    }
  }

  // Worked ticks on the 160 x 40 arena the terminal game is built with.

  const Arena160x40 := Rect(0, 0, 160, 40)

  /** The new game on that arena: paddles in columns 1 and 157 from row 18,
      the ball on (80, 20). */
  lemma Initial160x40()
    ensures ArenaOk(Arena160x40)
    ensures Initial(Arena160x40) == GameView(Paddle(0, 1, 18), Paddle(0, 157, 18), Ball(80, 20, 1, 1), Arena160x40)
  {
    assert CentreX(Arena160x40) == 80 && CentreY(Arena160x40) == 20;
  }

  /** The first tick of a new game moves the ball diagonally from the centre
      cell (80, 20) to (81, 21) and changes nothing else. */
  lemma FirstTick()
    ensures ArenaOk(Arena160x40)
    ensures BallMoved(Initial(Arena160x40)) == Initial(Arena160x40).(ball := Ball(81, 21, 1, 1))
  {
    Initial160x40();
    var g := Initial(Arena160x40);
    assert WallVy(g) == 1 && ScoreVx(g) == 1 && !Scored(g);
  }

  /** A ball on the first row below the top border moving up turns down and
      moves one row down. */
  lemma TopBounce()
    ensures Inv(GameView(Paddle(0, 1, 18), Paddle(0, 157, 18), Ball(50, 1, 1, -1), Arena160x40))
    ensures BallMoved(GameView(Paddle(0, 1, 18), Paddle(0, 157, 18), Ball(50, 1, 1, -1), Arena160x40)).ball
            == Ball(51, 2, 1, 1)
  {
    Initial160x40();
    var g := GameView(Paddle(0, 1, 18), Paddle(0, 157, 18), Ball(50, 1, 1, -1), Arena160x40);
    assert Inv(g);
    assert WallVy(g) == 1 && ScoreVx(g) == 1 && !Scored(g);
  }

  /** A ball on the left border gives the opponent a point and is served
      from the centre cell toward the right. */
  lemma LeftEdgePoint()
    ensures Inv(GameView(Paddle(0, 1, 18), Paddle(0, 157, 18), Ball(0, 10, -1, 1), Arena160x40))
    ensures BallMoved(GameView(Paddle(0, 1, 18), Paddle(0, 157, 18), Ball(0, 10, -1, 1), Arena160x40))
            == GameView(Paddle(0, 1, 18), Paddle(1, 157, 18), Ball(81, 21, 1, 1), Arena160x40)
  {
    Initial160x40();
    var g := GameView(Paddle(0, 1, 18), Paddle(0, 157, 18), Ball(0, 10, -1, 1), Arena160x40);
    assert Inv(g);
    assert WallVy(g) == 1 && PaddleVx(g) == -1 && ScoreVx(g) == 1 && Scored(g);
    assert ServeX(g) == 80 && ServeY(g) == 20;
  }

  /** Ctrl-C on the second poll ends the run after a single tick; the `w`
      after it is never read. */
  lemma CtrlCStopsGame()
    ensures ArenaOk(Arena160x40)
    ensures var g := Initial(Arena160x40);
      var quit := Some(Key(KeyEvent(Char('c'), {Control})));
      var up := Some(Key(KeyEvent(Char('w'), {})));
      Played(g, [None, quit, up]) == BallMoved(g)
  {
    Initial160x40();
    var g := Initial(Arena160x40);
    var quit := Some(Key(KeyEvent(Char('c'), {Control})));
    var up := Some(Key(KeyEvent(Char('w'), {})));
    var polls := [None, quit, up];
    assert IsQuit(quit);
    assert Ticked(g, None) == (BallMoved(g), true);
    assert polls[1..] == [quit, up];
    assert Played(BallMoved(g), [quit, up]) == BallMoved(g);
  }
}
