/** The game state of the view (GameStateModel), its actions
    (GameStateController) and its derived views (GameStateViewModel). */
module GameStates {
  import opened Wrappers
  import opened Utils
  import opened Dominoes
  import opened Players
  import LegacyBoard

  /** QueryType: the kind of question the server is asking. Only MOVE is
      known to the controller; any other value stands for the rest of the
      enumeration. */
  datatype QueryType = Move | OtherQuery(name: string)

  /** GameEvent: a transient announcement (a pass, a score, ...) shown for
      `duration` milliseconds. */
  datatype GameEvent = GameEvent(id: int, kind: string, duration: int, seat: Option<int>, score: Option<int>)

  /** GameConfigModel: the number of seats and the size of a starting hand. */
  datatype Config = Config(nPlayers: int, handSize: int)

  /** GameStateModel. */
  datatype GameState = GameState(
    config: Config,
    started: bool,
    gameOver: bool,
    winner: Option<string>,
    currentPlayerIndex: Option<int>,
    players: seq<Player>,
    logs: seq<string>,
    board: LegacyBoard.Board,
    currentQueryType: Option<QueryType>,
    events: seq<GameEvent>)

  /** The ways an action throws instead of updating the state. */
  datatype StateError =
    | NotAnInteger           // the integer field refuses NaN (a zero divisor)
    | NoSuchPlayer           // a method call on the undefined result of find
    | InvalidQueryType(t: QueryType)
    | BoardRejected          // the board's bounding-box computation threw

  // ---------------------------------------------------------------------
  // Arithmetic as JavaScript does it

  function Abs(n: int): nat {
    if n < 0 then -n else n
  }

  /** JavaScript's `%`: the remainder takes the sign of the dividend and its
      magnitude is that of the magnitudes' remainder, whatever the signs. */
  function JsRemainder(a: int, n: int): (r: int)
    requires n != 0
    ensures a >= 0 && n > 0 ==> r == a % n
    ensures a >= 0 ==> r >= 0
    ensures a < 0 ==> r <= 0
    ensures Abs(r) == Abs(a) % Abs(n)
    ensures Abs(r) < Abs(n)
  {
    if a >= 0 then a % Abs(n) else -((-a) % Abs(n))
  }

  /** The remainder differs from the dividend by a whole multiple of the
      divisor: the quotient truncated towards zero. */
  lemma JsRemainderIsTruncatedDivision(a: int, n: int)
    requires n != 0
    ensures a == TruncatedQuotient(a, n) * Abs(n) + JsRemainder(a, n)
  {
    var m: int, b: int := Abs(n), Abs(a);
    var q, r := b / m, b % m;
    assert b == q * m + r;
    if a < 0 {
      assert a == -(q * m) - r;
      assert -(q * m) == (-q) * m;
    }
  }

  /** The quotient of `a` by `|n|`, truncated towards zero (`Math.trunc`). */
  function TruncatedQuotient(a: int, n: int): int
    requires n != 0
  {
    if a >= 0 then Abs(a) / Abs(n) else -(Abs(a) / Abs(n))
  }

  /** The divisor's sign never matters; negating the dividend negates the
      remainder. */
  lemma JsRemainderSigns(a: int, n: int)
    requires n != 0
    ensures JsRemainder(a, n) == JsRemainder(a, -n)
    ensures JsRemainder(-a, n) == -JsRemainder(a, n)
  {
    JsRemainderDivisorSign(a, n);
    var m := Abs(n);
    if a == 0 {
      assert 0 % m == 0;
    }
  }

  lemma JsRemainderDivisorSign(a: int, n: int)
    requires n != 0
    ensures JsRemainder(a, n) == JsRemainder(a, -n)
  {
    assert Abs(-n) == Abs(n);
  }

  // ---------------------------------------------------------------------
  // GameStateViewModel

  /** The first index whose player sits at `seat` (Array.find). */
  function PlayerAtSeat(ps: seq<Player>, seat: int): (r: Option<nat>)
    ensures r.None? <==> forall i :: 0 <= i < |ps| ==> ps[i].seatNumber != seat
    ensures r.Some? ==>
              && r.value < |ps| && ps[r.value].seatNumber == seat
              && forall j :: 0 <= j < r.value ==> ps[j].seatNumber != seat
  {
    if |ps| == 0 then None
    else if ps[0].seatNumber == seat then Some(0)
    else match PlayerAtSeat(ps[1..], seat)
      case None => None
      case Some(i) => Some(i + 1)
  }

  /** The first index whose player is the local one. */
  function MeIndex(ps: seq<Player>): (r: Option<nat>)
    ensures r.None? <==> forall i :: 0 <= i < |ps| ==> !ps[i].isMe
    ensures r.Some? ==>
              && r.value < |ps| && ps[r.value].isMe
              && forall j :: 0 <= j < r.value ==> !ps[j].isMe
  {
    if |ps| == 0 then None
    else if ps[0].isMe then Some(0)
    else match MeIndex(ps[1..])
      case None => None
      case Some(i) => Some(i + 1)
  }

  /** Me: the first local player, undefined when there is none. */
  function Me(gs: GameState): (r: Option<Player>)
    ensures r.None? <==> forall i :: 0 <= i < |gs.players| ==> !gs.players[i].isMe
    ensures r.Some? ==>
              exists i :: 0 <= i < |gs.players| && gs.players[i] == r.value && r.value.isMe
                && forall j :: 0 <= j < i ==> !gs.players[j].isMe
  {
    match MeIndex(gs.players)
    case None => None
    case Some(i) => Some(gs.players[i])
  }

  /** The players that are not the local one, in seat-list order. */
  function OpponentsOf(ps: seq<Player>): (r: seq<Player>)
    ensures forall p :: p in r <==> p in ps && !p.isMe
    ensures |r| <= |ps|
  {
    if |ps| == 0 then []
    else if ps[0].isMe then OpponentsOf(ps[1..])
    else [ps[0]] + OpponentsOf(ps[1..])
  }

  /** Opponents: the players other than the local one, order kept. */
  function Opponents(gs: GameState): (r: seq<Player>)
    ensures forall p :: p in r <==> p in gs.players && !p.isMe
  {
    OpponentsOf(gs.players)
  }

  /** Selecting opponents from a concatenation selects from each part in
      turn, so their relative order is the seat list's. */
  lemma {:induction false} OpponentsOfAppend(a: seq<Player>, b: seq<Player>)
    ensures OpponentsOf(a + b) == OpponentsOf(a) + OpponentsOf(b)
    decreases |a|
  {
    if |a| == 0 {
      assert a + b == b;
    } else {
      assert (a + b)[1..] == a[1..] + b;
      OpponentsOfAppend(a[1..], b);
    }
  }

  /** Without a local player every player is an opponent. */
  lemma {:induction false} NoMeAllOpponents(ps: seq<Player>)
    requires forall i :: 0 <= i < |ps| ==> !ps[i].isMe
    ensures OpponentsOf(ps) == ps
    decreases |ps|
  {
    if |ps| > 0 {
      NoMeAllOpponents(ps[1..]);
      assert ps == [ps[0]] + ps[1..];
    }
  }

  /** CurrentEvent: the head of the event queue, null when it is empty. */
  function CurrentEvent(gs: GameState): (r: Option<GameEvent>)
    ensures r.None? <==> |gs.events| == 0
    ensures r.Some? ==> r.value == gs.events[0]
  {
    if |gs.events| > 0 then Some(gs.events[0]) else None
  }

  /** CurrentPlayer: the player at the current index; an index that is
      null or outside the list reads as undefined. */
  function CurrentPlayer(gs: GameState): (r: Option<Player>)
    ensures r.Some? <==>
              gs.currentPlayerIndex.Some? && 0 <= gs.currentPlayerIndex.value < |gs.players|
    ensures r.Some? ==> r.value in gs.players
  {
    match gs.currentPlayerIndex
    case Some(i) => if 0 <= i < |gs.players| then Some(gs.players[i]) else None
    case None => None
  }

  /** The table shared by SeatToPositionMapping and IndexToViewPosition:
      my seat is drawn at position 0; with two players the other seat is at
      1; with three, the next seat is at 2 and the one after at 1; with
      four, the next three seats are at 2, 1 and 3. Other player counts
      place only my seat. Later entries overwrite earlier ones, as Map.set
      does. */
  function PositionMap(mySeat: int, n: int): (r: map<int, int>)
    ensures mySeat in r
    ensures n !in {2, 3, 4} ==> r == map[mySeat := 0]
  {
    var m := map[mySeat := 0];
    if n == 2 then m[JsRemainder(mySeat + 1, n) := 1]
    else if n == 3 then m[JsRemainder(mySeat + 1, n) := 2][JsRemainder(mySeat + 2, n) := 1]
    else if n == 4 then
      m[JsRemainder(mySeat + 1, n) := 2][JsRemainder(mySeat + 2, n) := 1][JsRemainder(mySeat + 3, n) := 3]
    else m
  }

  /** The seat offset from mine that the table draws at position `p`: the
      inverse reading of PositionMap. */
  function OffsetAt(p: int, n: int): int {
    if (n == 3 || n == 4) && (p == 1 || p == 2) then 3 - p else p
  }

  /** `m` places my seat at 0, holds exactly the seats 0..n-1, shows the
      seat OffsetAt(p) places after mine at each position `p` in 0..n-1,
      and gives distinct seats distinct positions. */
  ghost predicate IsSeatTable(m: map<int, int>, mySeat: int, n: int)
    requires 0 <= mySeat < n
  {
    && mySeat in m && m[mySeat] == 0
    && (forall s :: s in m <==> 0 <= s < n)
    && (forall s :: s in m ==> 0 <= m[s] < n)
    && (forall p :: 0 <= p < n ==> Wrapped(mySeat + OffsetAt(p, n), n) in m && m[Wrapped(mySeat + OffsetAt(p, n), n)] == p)
    && (forall a, b :: a in m && b in m && a != b ==> m[a] != m[b])
  }

  /** With two to four players and my seat among them, the table is a
      one-to-one correspondence between the seats 0..n-1 and the positions
      0..n-1: my seat is at 0 and position `p` shows the seat OffsetAt(p)
      places after mine. */
  lemma PositionMapIsBijection(mySeat: int, n: int)
    requires 2 <= n <= 4 && 0 <= mySeat < n
    ensures IsSeatTable(PositionMap(mySeat, n), mySeat, n)
  {
    if n == 2 {
      SeatTablesOfTwo(mySeat);
    } else if n == 3 {
      SeatTablesOfThree(mySeat);
    } else {
      SeatTablesOfFour(mySeat);
    }
  }

  lemma SeatTablesOfTwo(mySeat: int)
    requires 0 <= mySeat < 2
    ensures IsSeatTable(PositionMap(mySeat, 2), mySeat, 2)
  {
    if mySeat == 0 {
      assert PositionMap(mySeat, 2) == map[0 := 0, 1 := 1];
      SeatTable(mySeat, 2, PositionMap(mySeat, 2));
    } else {
      assert PositionMap(mySeat, 2) == map[1 := 0, 0 := 1];
      SeatTable(mySeat, 2, PositionMap(mySeat, 2));
    }
  }

  lemma SeatTablesOfThree(mySeat: int)
    requires 0 <= mySeat < 3
    ensures IsSeatTable(PositionMap(mySeat, 3), mySeat, 3)
  {
    if mySeat == 0 {
      assert PositionMap(mySeat, 3) == map[0 := 0, 1 := 2, 2 := 1];
      SeatTable(mySeat, 3, PositionMap(mySeat, 3));
    } else if mySeat == 1 {
      assert PositionMap(mySeat, 3) == map[1 := 0, 2 := 2, 0 := 1];
      SeatTable(mySeat, 3, PositionMap(mySeat, 3));
    } else {
      assert PositionMap(mySeat, 3) == map[2 := 0, 0 := 2, 1 := 1];
      SeatTable(mySeat, 3, PositionMap(mySeat, 3));
    }
  }

  lemma SeatTablesOfFour(mySeat: int)
    requires 0 <= mySeat < 4
    ensures IsSeatTable(PositionMap(mySeat, 4), mySeat, 4)
  {
    if mySeat < 2 {
      SeatTablesOfFourFirstHalf(mySeat);
    } else {
      SeatTablesOfFourSecondHalf(mySeat);
    }
  }

  lemma SeatTablesOfFourFirstHalf(mySeat: int)
    requires 0 <= mySeat < 2
    ensures IsSeatTable(PositionMap(mySeat, 4), mySeat, 4)
  {
    if mySeat == 0 {
      assert PositionMap(mySeat, 4) == map[0 := 0, 1 := 2, 2 := 1, 3 := 3];
      SeatTable(mySeat, 4, PositionMap(mySeat, 4));
    } else {
      assert PositionMap(mySeat, 4) == map[1 := 0, 2 := 2, 3 := 1, 0 := 3];
      SeatTable(mySeat, 4, PositionMap(mySeat, 4));
    }
  }

  lemma SeatTablesOfFourSecondHalf(mySeat: int)
    requires 2 <= mySeat < 4
    ensures IsSeatTable(PositionMap(mySeat, 4), mySeat, 4)
  {
    if mySeat == 2 {
      assert PositionMap(mySeat, 4) == map[2 := 0, 3 := 2, 0 := 1, 1 := 3];
      SeatTable(mySeat, 4, PositionMap(mySeat, 4));
    } else {
      assert PositionMap(mySeat, 4) == map[3 := 0, 0 := 2, 1 := 1, 2 := 3];
      SeatTable(mySeat, 4, PositionMap(mySeat, 4));
    }
  }

  /** One concrete table: `m` is what PositionMap builds and it is a seat
      table. */
  lemma SeatTable(mySeat: int, n: int, m: map<int, int>)
    requires 2 <= n <= 4 && 0 <= mySeat < n
    requires forall s :: s in m <==> 0 <= s < n
    requires forall s :: s in m ==> 0 <= m[s] < n && Wrapped(mySeat + OffsetAt(m[s], n), n) == s
    requires forall p :: 0 <= p < n ==> Wrapped(mySeat + OffsetAt(p, n), n) in m && m[Wrapped(mySeat + OffsetAt(p, n), n)] == p
    requires PositionMap(mySeat, n) == m
    ensures IsSeatTable(m, mySeat, n)
  {
    forall a, b | a in m && b in m && a != b
      ensures m[a] != m[b]
    {
    }
  }

  /** SeatToPositionMapping: the seat table seen from the local player's
      seat; reading the seat of a missing local player throws. My seat is
      always drawn at position 0. */
  function SeatToPositionMapping(gs: GameState): (r: Option<map<int, int>>)
    ensures r.None? <==> Me(gs).None?
    ensures r.Some? ==> Me(gs).value.seatNumber in r.value && r.value[Me(gs).value.seatNumber] == 0
    ensures r.Some? && 2 <= gs.config.nPlayers <= 4 && 0 <= Me(gs).value.seatNumber < gs.config.nPlayers ==>
              IsSeatTable(r.value, Me(gs).value.seatNumber, gs.config.nPlayers)
  {
    match Me(gs)
    case None => None
    case Some(me) =>
      MySeatAtZero(me.seatNumber, gs.config.nPlayers);
      if 2 <= gs.config.nPlayers <= 4 && 0 <= me.seatNumber < gs.config.nPlayers then
        PositionMapIsBijection(me.seatNumber, gs.config.nPlayers);
        Some(PositionMap(me.seatNumber, gs.config.nPlayers))
      else
        Some(PositionMap(me.seatNumber, gs.config.nPlayers))
  }

  /** Whatever the seat and the count, no later entry overwrites my seat:
      the seats after mine wrap to a different number. */
  lemma MySeatAtZero(mySeat: int, n: int)
    ensures PositionMap(mySeat, n)[mySeat] == 0
  {
  }

  // ---------------------------------------------------------------------
  // GameStateController

  /** The turn passes on: the index plus one, modulo the number of seats,
      with null read as 0 and JavaScript's remainder; a zero seat count
      makes NaN, which the integer field refuses. */
  function NextPlayerIndex(current: Option<int>, n: int): (r: Result<int, StateError>)
    ensures r.Failure? <==> n == 0
    ensures r.Failure? ==> r.error == NotAnInteger
    ensures n > 0 && current.Some? && 0 <= current.value < n ==>
              r == Success(if current.value == n - 1 then 0 else current.value + 1)
    ensures n > 0 && current.None? ==> r == Success(if n == 1 then 0 else 1)
  {
    if n == 0 then Failure(NotAnInteger)
    else
      var i := match current case None => 0 case Some(v) => v;
      NextSeat(i, n);
      Success(JsRemainder(i + 1, n))
  }

  /** From a seat in range, one more seat wraps to 0 only past the last. */
  lemma NextSeat(i: int, n: int)
    requires n != 0
    ensures 0 <= i < n ==> JsRemainder(i + 1, n) == if i == n - 1 then 0 else i + 1
  {
    if 0 <= i < n {
      if i == n - 1 {
        assert (i + 1) % n == 0;
      } else {
        assert (i + 1) % n == i + 1;
      }
    }
  }

  /** ProcessTurn: a played tile (a pass carries none) goes on the board,
      then the turn passes to the next seat, on a pass as well. Nothing
      else in the state changes. */
  function ProcessTurn(gs: GameState, domino: Option<Domino>, direction: Direction, coordinate: LegacyBoard.Coordinate): (r: Result<GameState, StateError>)
    ensures r.Success? <==>
              && gs.config.nPlayers != 0
              && (domino.None? || LegacyBoard.AddDomino(gs.board, domino.value, direction, coordinate).Some?)
    ensures domino.Some? && LegacyBoard.AddDomino(gs.board, domino.value, direction, coordinate).None? ==>
              r == Failure(BoardRejected)
    ensures r.Success? && domino.None? ==> r.value.board == gs.board
    ensures r.Success? && domino.Some? ==>
              Some(r.value.board) == LegacyBoard.AddDomino(gs.board, domino.value, direction, coordinate)
    ensures r.Success? ==>
              && r.value.currentPlayerIndex.Some?
              && NextPlayerIndex(gs.currentPlayerIndex, gs.config.nPlayers) == Success(r.value.currentPlayerIndex.value)
    ensures r.Success? ==> r.value.(board := gs.board, currentPlayerIndex := gs.currentPlayerIndex) == gs
  {
    var board := match domino
      case None => Some(gs.board)
      case Some(d) => LegacyBoard.AddDomino(gs.board, d, direction, coordinate);
    if board.None? then Failure(BoardRejected)
    else match NextPlayerIndex(gs.currentPlayerIndex, gs.config.nPlayers)
      case Failure(e) => Failure(e)
      case Success(next) => Success(gs.(board := board.value, currentPlayerIndex := Some(next)))
  }

  /** `k` passes in a row. */
  function Passes(gs: GameState, k: nat, direction: Direction, coordinate: LegacyBoard.Coordinate): Result<GameState, StateError>
    decreases k
  {
    if k == 0 then Success(gs)
    else match ProcessTurn(gs, None, direction, coordinate)
      case Failure(e) => Failure(e)
      case Success(next) => Passes(next, k - 1, direction, coordinate)
  }

  /** Within one round, `k` passes from a valid turn index move the turn
      `k` seats on, wrapping past the last seat, and touch nothing else. */
  lemma {:induction false} PassesRotateTurn(gs: GameState, k: nat, direction: Direction, coordinate: LegacyBoard.Coordinate)
    requires gs.currentPlayerIndex.Some? && 0 <= gs.currentPlayerIndex.value < gs.config.nPlayers
    requires k <= gs.config.nPlayers
    ensures Passes(gs, k, direction, coordinate)
            == Success(gs.(currentPlayerIndex := Some(Wrapped(gs.currentPlayerIndex.value + k, gs.config.nPlayers))))
    decreases k
  {
    var n := gs.config.nPlayers;
    var i := gs.currentPlayerIndex.value;
    if k > 0 {
      var next := PassOnce(gs, direction, coordinate);
      PassesRotateTurn(next, k - 1, direction, coordinate);
      assert next.(currentPlayerIndex := Some(Wrapped(i + k, n))) == gs.(currentPlayerIndex := Some(Wrapped(i + k, n)));
    }
  }

  /** One pass from a valid index moves the turn to the next seat. */
  lemma PassOnce(gs: GameState, direction: Direction, coordinate: LegacyBoard.Coordinate) returns (next: GameState)
    requires gs.currentPlayerIndex.Some? && 0 <= gs.currentPlayerIndex.value < gs.config.nPlayers
    ensures var i := gs.currentPlayerIndex.value;
            next == gs.(currentPlayerIndex := Some(if i == gs.config.nPlayers - 1 then 0 else i + 1))
    ensures ProcessTurn(gs, None, direction, coordinate) == Success(next)
  {
    var i := gs.currentPlayerIndex.value;
    next := gs.(currentPlayerIndex := Some(if i == gs.config.nPlayers - 1 then 0 else i + 1));
  }

  /** After one pass per seat the turn is back where it started and the
      state is as it was. */
  lemma FullRoundOfPasses(gs: GameState, direction: Direction, coordinate: LegacyBoard.Coordinate)
    requires gs.currentPlayerIndex.Some? && 0 <= gs.currentPlayerIndex.value < gs.config.nPlayers
    ensures Passes(gs, gs.config.nPlayers, direction, coordinate) == Success(gs)
  {
    PassesRotateTurn(gs, gs.config.nPlayers, direction, coordinate);
  }

  /** A seat count past the last seat, wrapped once. */
  function Wrapped(j: int, n: int): int {
    if j < n then j else j - n
  }

  /** The total of all scores. */
  function TotalScore(ps: seq<Player>): int {
    if |ps| == 0 then 0 else ps[0].score + TotalScore(ps[1..])
  }

  lemma {:induction false} TotalScoreUpdate(ps: seq<Player>, k: nat, p: Player)
    requires k < |ps|
    ensures TotalScore(ps[k := p]) == TotalScore(ps) - ps[k].score + p.score
    decreases |ps|
  {
    if k > 0 {
      assert ps[k := p][1..] == ps[1..][k - 1 := p];
      TotalScoreUpdate(ps[1..], k - 1, p);
    }
  }

  /** ProcessScore: the points go to the first player at that seat; a seat
      nobody holds makes the call throw. The other players and the rest of
      the state are untouched. */
  function ProcessScore(gs: GameState, seat: int, score: int): (r: Result<GameState, StateError>)
    ensures r.Failure? <==> forall i :: 0 <= i < |gs.players| ==> gs.players[i].seatNumber != seat
    ensures r.Failure? ==> r.error == NoSuchPlayer
    ensures r.Success? ==>
              && |r.value.players| == |gs.players|
              && exists k :: 0 <= k < |gs.players| && gs.players[k].seatNumber == seat
                   && (forall j :: 0 <= j < k ==> gs.players[j].seatNumber != seat)
                   && r.value.players[k] == SetScore(gs.players[k], gs.players[k].score + score)
                   && forall j :: 0 <= j < |gs.players| && j != k ==> r.value.players[j] == gs.players[j]
    ensures r.Success? ==> TotalScore(r.value.players) == TotalScore(gs.players) + score
    ensures r.Success? ==> r.value.(players := gs.players) == gs
  {
    match PlayerAtSeat(gs.players, seat)
    case None => Failure(NoSuchPlayer)
    case Some(k) =>
      var p := SetScore(gs.players[k], gs.players[k].score + score);
      TotalScoreUpdate(gs.players, k, p);
      Success(gs.(players := gs.players[k := p]))
  }

  /** SetQueryType: only MOVE is accepted; anything else throws. */
  function SetQueryType(gs: GameState, t: QueryType): (r: Result<GameState, StateError>)
    ensures r.Success? <==> t == Move
    ensures r.Success? ==> r.value.currentQueryType == Some(Move) && r.value.(currentQueryType := gs.currentQueryType) == gs
    ensures r.Failure? ==> r.error == InvalidQueryType(t)
  {
    if t == Move then Success(gs.(currentQueryType := Some(Move)))
    else Failure(InvalidQueryType(t))
  }

  /** AddPlayer: the player joins the end of the seat list. */
  function AddPlayer(gs: GameState, p: Player): (r: GameState)
    ensures |r.players| == |gs.players| + 1 && r.players[..|gs.players|] == gs.players
    ensures r.players[|gs.players|] == p
    ensures r.(players := gs.players) == gs
  {
    gs.(players := gs.players + [p])
  }

  /** A new player is an opponent unless they are the local one. */
  lemma AddPlayerExtendsOpponents(gs: GameState, p: Player)
    ensures Opponents(AddPlayer(gs, p)) == Opponents(gs) + (if p.isMe then [] else [p])
  {
    OpponentsOfAppend(gs.players, [p]);
    assert OpponentsOf([p]) == (if p.isMe then [] else [p]) by {
      assert [p][1..] == [];
    }
  }

  /** Joining never changes who the local player is once there is one;
      before that, a joining local player becomes Me. */
  lemma AddPlayerKeepsMe(gs: GameState, p: Player)
    ensures Me(gs).Some? ==> Me(AddPlayer(gs, p)) == Me(gs)
    ensures Me(gs).None? ==> Me(AddPlayer(gs, p)) == (if p.isMe then Some(p) else None)
  {
    var ps := AddPlayer(gs, p).players;
    var i := MeIndex(gs.players);
    var k := MeIndex(ps);
    if i.Some? {
      assert ps[i.value] == gs.players[i.value];
      assert k == i;
    } else if p.isMe {
      assert ps[|gs.players|] == p;
      assert k == Some(|gs.players|);
    } else {
      assert forall j :: 0 <= j < |ps| ==> !ps[j].isMe by {
        forall j | 0 <= j < |ps| ensures !ps[j].isMe {
          if j < |gs.players| { assert ps[j] == gs.players[j]; }
        }
      }
    }
  }

  /** Start: the game is marked as started. */
  function Start(gs: GameState): (r: GameState)
    ensures r.started
    ensures r.(started := gs.started) == gs
  {
    gs.(started := true)
  }

  /** SetCurrentPlayerIndex: the server names whose turn it is. */
  function SetCurrentPlayerIndex(gs: GameState, seat: int): (r: GameState)
    ensures r.currentPlayerIndex == Some(seat)
    ensures r.(currentPlayerIndex := gs.currentPlayerIndex) == gs
  {
    gs.(currentPlayerIndex := Some(seat))
  }

  /** With one seat per player and a current index that is null or in
      range, the turn always passes to a player who is there: the next one
      in the list, or the first after the last. */
  lemma TurnGoesToASeatedPlayer(gs: GameState, domino: Option<Domino>, direction: Direction, coordinate: LegacyBoard.Coordinate)
    requires gs.config.nPlayers == |gs.players|
    requires gs.currentPlayerIndex.None? || 0 <= gs.currentPlayerIndex.value < |gs.players|
    requires ProcessTurn(gs, domino, direction, coordinate).Success?
    ensures var r := ProcessTurn(gs, domino, direction, coordinate).value;
            && CurrentPlayer(r).Some?
            && (gs.currentPlayerIndex.Some? && gs.currentPlayerIndex.value < |gs.players| - 1 ==>
                  CurrentPlayer(r).value == gs.players[gs.currentPlayerIndex.value + 1])
            && (gs.currentPlayerIndex == Some(|gs.players| - 1) ==> CurrentPlayer(r).value == gs.players[0])
  {
  }

  /** Finish: the game is over and the winner recorded. */
  function Finish(gs: GameState, winner: string): (r: GameState)
    ensures r.gameOver && r.winner == Some(winner)
    ensures r.(gameOver := gs.gameOver, winner := gs.winner) == gs
  {
    gs.(gameOver := true, winner := Some(winner))
  }

  /** The hidden tile an opponent's hand shows. */
  const Hidden := Domino(-1, -1)

  /** A hand of `n` hidden tiles. lodash's range counts down for a negative
      end, so the hand has |n| tiles either way. */
  function HiddenHand(n: int): (r: seq<Domino>)
    ensures |r| == Abs(n)
    ensures forall i :: 0 <= i < |r| ==> r[i] == Hidden
  {
    seq(Abs(n), _ => Hidden)
  }

  /** Every opponent's hand replaced by `hand`; the local player untouched. */
  function Deal(ps: seq<Player>, hand: seq<Domino>): (r: seq<Player>)
    ensures |r| == |ps|
    ensures forall i :: 0 <= i < |ps| ==> r[i] == if ps[i].isMe then ps[i] else SetHand(ps[i], hand)
  {
    if |ps| == 0 then []
    else [if ps[0].isMe then ps[0] else SetHand(ps[0], hand)] + Deal(ps[1..], hand)
  }

  /** InitializeOpponentHands: each opponent is dealt HAND_SIZE hidden
      tiles. */
  function InitializeOpponentHands(gs: GameState): (r: GameState)
    ensures |r.players| == |gs.players|
    ensures forall i :: 0 <= i < |gs.players| && gs.players[i].isMe ==> r.players[i] == gs.players[i]
    ensures forall i :: 0 <= i < |gs.players| && !gs.players[i].isMe ==>
              && r.players[i].hand == HiddenHand(gs.config.handSize)
              && r.players[i] == SetHand(gs.players[i], r.players[i].hand)
    ensures r.(players := gs.players) == gs
  {
    gs.(players := Deal(gs.players, HiddenHand(gs.config.handSize)))
  }

  /** After the deal the opponents are the same seats in the same order,
      each holding HAND_SIZE hidden tiles when HAND_SIZE is not negative. */
  lemma {:induction false} DealtOpponents(ps: seq<Player>, hand: seq<Domino>)
    ensures |OpponentsOf(Deal(ps, hand))| == |OpponentsOf(ps)|
    ensures forall i :: 0 <= i < |OpponentsOf(ps)| ==>
              OpponentsOf(Deal(ps, hand))[i] == SetHand(OpponentsOf(ps)[i], hand)
    decreases |ps|
  {
    if |ps| > 0 {
      var d := Deal(ps, hand);
      DealtOpponents(ps[1..], hand);
      assert d[1..] == Deal(ps[1..], hand);
      assert d[0].isMe == ps[0].isMe;
      if ps[0].isMe {
        assert OpponentsOf(d) == OpponentsOf(d[1..]);
        assert OpponentsOf(ps) == OpponentsOf(ps[1..]);
      } else {
        assert d[0] == SetHand(ps[0], hand);
        assert OpponentsOf(d) == [d[0]] + OpponentsOf(d[1..]);
        assert OpponentsOf(ps) == [ps[0]] + OpponentsOf(ps[1..]);
      }
    }
  }

  lemma OpponentsHoldHiddenHands(gs: GameState)
    requires gs.config.handSize >= 0
    ensures |Opponents(InitializeOpponentHands(gs))| == |Opponents(gs)|
    ensures forall i :: 0 <= i < |Opponents(gs)| ==>
              && Opponents(InitializeOpponentHands(gs))[i].seatNumber == Opponents(gs)[i].seatNumber
              && |Opponents(InitializeOpponentHands(gs))[i].hand| == gs.config.handSize
              && forall t :: t in Opponents(InitializeOpponentHands(gs))[i].hand ==> t == Hidden
  {
    DealtOpponents(gs.players, HiddenHand(gs.config.handSize));
  }

  /** ClearBoard: the board is emptied. */
  function ClearBoard(gs: GameState): (r: GameState)
    ensures LegacyBoard.IsEmpty(r.board) && r.board.spinnerIndex.None?
    ensures r.(board := gs.board) == gs
  {
    gs.(board := LegacyBoard.ClearBoard())
  }

  /** AddLog: the line goes to the end of the log. */
  function AddLog(gs: GameState, log: string): (r: GameState)
    ensures |r.logs| == |gs.logs| + 1 && r.logs[..|gs.logs|] == gs.logs && r.logs[|gs.logs|] == log
    ensures r.(logs := gs.logs) == gs
  {
    gs.(logs := gs.logs + [log])
  }

  /** AddEvent: the event joins the back of the queue. */
  function AddEvent(gs: GameState, e: GameEvent): (r: GameState)
    ensures |r.events| == |gs.events| + 1 && r.events[..|gs.events|] == gs.events && r.events[|gs.events|] == e
    ensures r.(events := gs.events) == gs
  {
    gs.(events := gs.events + [e])
  }

  /** ClearEvent: the event at the front of the queue is dropped; an empty
      queue stays as it is. */
  function ClearEvent(gs: GameState): (r: GameState)
    ensures |gs.events| > 0 ==> [gs.events[0]] + r.events == gs.events
    ensures |gs.events| == 0 ==> r == gs
    ensures r.(events := gs.events) == gs
  {
    if |gs.events| > 0 then gs.(events := gs.events[1..]) else gs
  }

  /** The queue is first in, first out: a new event is shown only once the
      ones before it are cleared, and clearing after adding is adding after
      clearing when the queue was not empty. */
  lemma EventQueueIsFifo(gs: GameState, e: GameEvent)
    ensures CurrentEvent(AddEvent(gs, e)) == if |gs.events| == 0 then Some(e) else CurrentEvent(gs)
    ensures |gs.events| == 0 ==> ClearEvent(AddEvent(gs, e)) == gs
    ensures |gs.events| > 0 ==> ClearEvent(AddEvent(gs, e)) == AddEvent(ClearEvent(gs), e)
  {
    if |gs.events| == 0 {
      assert AddEvent(gs, e).events[1..] == [];
    } else {
      assert (gs.events + [e])[1..] == gs.events[1..] + [e];
    }
  }

  /** Clearing `k` times. */
  function ClearEvents(gs: GameState, k: nat): GameState
    decreases k
  {
    if k == 0 then gs else ClearEvents(ClearEvent(gs), k - 1)
  }

  /** Clearing `k` events shows the event that was `k`-th in line. */
  lemma {:induction false} ClearingWalksTheQueue(gs: GameState, k: nat)
    requires k <= |gs.events|
    ensures ClearEvents(gs, k).events == gs.events[k..]
    ensures k < |gs.events| ==> CurrentEvent(ClearEvents(gs, k)) == Some(gs.events[k])
    decreases k
  {
    if k > 0 {
      assert ClearEvent(gs).events == gs.events[1..];
      ClearingWalksTheQueue(ClearEvent(gs), k - 1);
      assert gs.events[1..][k - 1..] == gs.events[k..];
    }
  }
}
