/** GameViewState: the state the newer game view keeps next to the masked
    game state the server sends. */
module GameViewStates {
  import opened Wrappers
  import GameStates

  /** The two parts of the server's masked game state the view reads: the
      local player's seat index and the number of seats. */
  datatype MaskedGameState = MaskedGameState(myIndex: int, nPlayers: int)

  datatype ViewState = ViewState(
    gameState: Option<MaskedGameState>,
    gameOver: bool,
    winnerId: Option<string>,
    logs: seq<string>,
    events: seq<GameStates.GameEvent>,
    currentQueryType: Option<GameStates.QueryType>)

  /** The constructor: a running game with no winner, no log lines, no
      events and no pending query. */
  function NewViewState(gameState: Option<MaskedGameState>): (r: ViewState)
    ensures r.gameState == gameState
    ensures !r.gameOver && r.winnerId.None? && r.currentQueryType.None?
    ensures |r.logs| == 0 && |r.events| == 0
  {
    ViewState(gameState, false, None, [], [], None)
  }

  /** IndexToViewPosition: null before a game state arrives, otherwise the
      seat table seen from the local player's index. */
  function IndexToViewPosition(vs: ViewState): (r: Option<map<int, int>>)
    ensures r.None? <==> vs.gameState.None?
    ensures r.Some? ==> vs.gameState.value.myIndex in r.value && r.value[vs.gameState.value.myIndex] == 0
  {
    match vs.gameState
    case None => None
    case Some(gs) => Some(GameStates.PositionMap(gs.myIndex, gs.nPlayers))
  }

  /** The newer view places seats exactly as the older view model does for
      a state whose local player sits at the same index with the same
      number of seats, so with two to four players every seat gets its own
      position. */
  lemma ViewPositionsMatchSeatPositions(vs: ViewState, gs: GameStates.GameState)
    requires vs.gameState.Some? && GameStates.Me(gs).Some?
    requires GameStates.Me(gs).value.seatNumber == vs.gameState.value.myIndex
    requires gs.config.nPlayers == vs.gameState.value.nPlayers
    ensures IndexToViewPosition(vs) == GameStates.SeatToPositionMapping(gs)
    ensures 2 <= gs.config.nPlayers <= 4 && 0 <= vs.gameState.value.myIndex < gs.config.nPlayers ==>
              GameStates.IsSeatTable(IndexToViewPosition(vs).value, vs.gameState.value.myIndex, gs.config.nPlayers)
  {
    var m := vs.gameState.value;
    if 2 <= gs.config.nPlayers <= 4 && 0 <= m.myIndex < gs.config.nPlayers {
      GameStates.PositionMapIsBijection(m.myIndex, m.nPlayers);
    }
  }

  /** AddLog: the line goes to the end of the log. The class repeats the
      code of the game state's own AddLog, AddEvent and ClearEvent;
      LogAndQueueAgreeWithGameState relates the two copies. */
  function AddLog(vs: ViewState, log: string): (r: ViewState)
    ensures |r.logs| == |vs.logs| + 1 && r.logs[..|vs.logs|] == vs.logs && r.logs[|vs.logs|] == log
    ensures r.(logs := vs.logs) == vs
  {
    vs.(logs := vs.logs + [log])
  }

  /** AddEvent: the event joins the end of the queue. The class also arms a
      timer that expires the event `duration` milliseconds later; the timer
      is not modelled, the expiry it runs is ExpireEvent. */
  function AddEvent(vs: ViewState, e: GameStates.GameEvent): (r: ViewState)
    ensures |r.events| == |vs.events| + 1 && r.events[..|vs.events|] == vs.events && r.events[|vs.events|] == e
    ensures r.(events := vs.events) == vs
  {
    vs.(events := vs.events + [e])
  }

  /** The events whose id differs from `id`, in queue order. */
  function WithoutId(es: seq<GameStates.GameEvent>, id: int): (r: seq<GameStates.GameEvent>)
    ensures forall e :: e in r <==> e in es && e.id != id
    ensures |r| <= |es|
  {
    if |es| == 0 then []
    else (if es[0].id == id then [] else [es[0]]) + WithoutId(es[1..], id)
  }

  lemma {:induction false} WithoutIdAppend(a: seq<GameStates.GameEvent>, b: seq<GameStates.GameEvent>, id: int)
    ensures WithoutId(a + b, id) == WithoutId(a, id) + WithoutId(b, id)
    decreases |a|
  {
    if |a| == 0 {
      assert a + b == b;
    } else {
      assert (a + b)[0] == a[0];
      assert (a + b)[1..] == a[1..] + b;
      WithoutIdAppend(a[1..], b, id);
    }
  }

  lemma {:induction false} WithoutFreshId(es: seq<GameStates.GameEvent>, id: int)
    requires forall i :: 0 <= i < |es| ==> es[i].id != id
    ensures WithoutId(es, id) == es
    decreases |es|
  {
    if |es| > 0 {
      WithoutFreshId(es[1..], id);
    }
  }

  /** The timer's callback: every event carrying the id leaves the queue,
      whether or not it is still at the front. */
  function ExpireEvent(vs: ViewState, id: int): (r: ViewState)
    ensures forall e :: e in r.events <==> e in vs.events && e.id != id
    ensures r.(events := vs.events) == vs
  {
    vs.(events := WithoutId(vs.events, id))
  }

  /** An event added under a fresh id and then expired leaves the view as
      it was before the event arrived. */
  lemma AddThenExpire(vs: ViewState, e: GameStates.GameEvent)
    requires forall i :: 0 <= i < |vs.events| ==> vs.events[i].id != e.id
    ensures ExpireEvent(AddEvent(vs, e), e.id) == vs
  {
    WithoutIdAppend(vs.events, [e], e.id);
    WithoutFreshId(vs.events, e.id);
    assert WithoutId([e], e.id) == [];
  }

  /** ClearEvent as the class writes it: it shifts the LOG, so the first
      log line is lost and the event stays on screen. */
  function ClearEventAsWritten(vs: ViewState): (r: ViewState)
    ensures |vs.logs| > 0 ==> [vs.logs[0]] + r.logs == vs.logs
    ensures r.events == vs.events
    ensures r.(logs := vs.logs) == vs
  {
    if |vs.logs| > 0 then vs.(logs := vs.logs[1..]) else vs
  }

  /** One event on screen and one log line: clearing the event as written
      leaves the event showing and empties the log. */
  lemma ClearEventAsWrittenKeepsTheEvent(e: GameStates.GameEvent)
    ensures var vs := AddLog(NewViewState(None), "a move").(events := [e]);
            && ClearEventAsWritten(vs).events == [e]
            && ClearEventAsWritten(vs).logs == []
  {
  }

  /** ClearEvent as the controller of the older model does it: the event at
      the front of the queue goes, an empty queue stays, the log is kept. */
  function ClearEvent(vs: ViewState): (r: ViewState)
    ensures |vs.events| > 0 ==> [vs.events[0]] + r.events == vs.events
    ensures |vs.events| == 0 ==> r == vs
    ensures r.(events := vs.events) == vs
  {
    if |vs.events| > 0 then vs.(events := vs.events[1..]) else vs
  }

  /** The corrected ClearEvent treats the queue as the controller does:
      clearing removes exactly the front event and keeps every log line. */
  lemma ClearEventAgreesWithController(vs: ViewState, gs: GameStates.GameState)
    requires gs.events == vs.events
    ensures ClearEvent(vs).events == GameStates.ClearEvent(gs).events
    ensures ClearEvent(vs).logs == vs.logs
  {
  }

  /** The view's log and event queue evolve as the game state's do: adding
      a line or an event, and clearing with the corrected ClearEvent, give
      the same log and queue from the same log and queue. */
  lemma LogAndQueueAgreeWithGameState(vs: ViewState, gs: GameStates.GameState, log: string, e: GameStates.GameEvent)
    requires gs.logs == vs.logs && gs.events == vs.events
    ensures AddLog(vs, log).logs == GameStates.AddLog(gs, log).logs
    ensures AddEvent(vs, e).events == GameStates.AddEvent(gs, e).events
    ensures ClearEvent(vs).events == GameStates.ClearEvent(gs).events
  {
    ClearEventAgreesWithController(vs, gs);
  }

  /** SetQueryType: the view records whatever query the server sends. */
  function SetQueryType(vs: ViewState, t: GameStates.QueryType): (r: ViewState)
    ensures r.currentQueryType == Some(t)
    ensures r.(currentQueryType := vs.currentQueryType) == vs
  {
    vs.(currentQueryType := Some(t))
  }

  /** UpdateGameState: a new masked state replaces the old one. */
  function UpdateGameState(vs: ViewState, gameState: Option<MaskedGameState>): (r: ViewState)
    ensures r.gameState == gameState
    ensures r.(gameState := vs.gameState) == vs
  {
    vs.(gameState := gameState)
  }
}
