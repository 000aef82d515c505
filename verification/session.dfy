/** One two-seat table on the server (`GameSession` in src/Server.java),
    taken as sequential logic: the session lock serialises commands, and a
    socket becomes a handler that is open or closed plus the list of messages
    the server writes to each seat. */
module Session {
  import opened Wrappers
  import opened Text
  import opened Cards
  import opened Scoring
  import opened Settlement
  import opened Blackjack

  /** A connected client as the session sees it: its name and whether its
      socket is still open. */
  datatype Handler = Handler(name: string, open: bool)

  /** `GameStateUpdate`: the per-seat snapshot the server sends. The dealer
      hand may hold the face-down placeholder card, so it is a `seq<Card>`. */
  datatype Snapshot = Snapshot(
    names: seq<string>,
    hands: seq<seq<PlayingCard>>,
    sums: seq<int>,
    results: seq<Outcome>,
    moneys: seq<int>,
    bets: seq<int>,
    dealerHand: seq<Card>,
    dealerSum: int,
    phase: Phase,
    currentTurn: int,
    myId: int)

  /** What travels to a client: a plain string or a snapshot. */
  datatype Message = Notice(text: string) | Update(snapshot: Snapshot)

  /** One `sendObject` that reached the wire: the seat and the message. */
  datatype Sent = Sent(seat: int, msg: Message)

  datatype Session = Session(
    player1: Handler,
    player2: Handler,
    game: Game,
    wants1: bool,
    wants2: bool,
    ended: bool)

  /** The session after a step, and what the step sent, in order. */
  datatype Step = Step(session: Session, sent: seq<Sent>)

  const BetPrefix: string := "BET:"
  const BettingErrorPrefix: string := "BETTING_ERROR:"
  const InvalidAmountReason: string := "Số tiền không hợp lệ"
  const RefusedBetReason: string := "Không đủ tiền hoặc số cược không hợp lệ"
  const NewGameRequested: string := "NEW_GAME_REQUESTED"
  const NewGameDeclined: string := "NEW_GAME_DECLINED"
  const OpponentDisconnected: string := "OPPONENT_DISCONNECTED"

  /** The session's invariant: the engine it owns is well formed and has
      the two seats `new Blackjack(2)` creates. */
  predicate SessionWf(s: Session) {
    Wf(s.game) && |s.game.hands| == 2
  }

  function HandlerOf(s: Session, seat: int): Handler {
    if seat == 0 then s.player1 else s.player2
  }

  /** `sendObject`: a closed socket swallows the message. */
  function SendTo(s: Session, seat: int, msg: Message): (r: seq<Sent>)
    ensures HandlerOf(s, seat).open ==> r == [Sent(seat, msg)]
    ensures !HandlerOf(s, seat).open ==> r == []
  {
    if HandlerOf(s, seat).open then [Sent(seat, msg)] else []
  }

  /** Whether the snapshot shows the dealer's whole hand. */
  predicate DealerRevealed(p: Phase) {
    p == GameOver || p == DealerTurn
  }

  /** `createUpdateForPlayer`. Until the dealer's turn the first dealer card
      is replaced by the face-down placeholder and the dealer total is the
      plain sum of the visible cards, aces at 11; afterwards both are the
      real ones. Everything else is the engine's state as its getters give
      it, for both seats alike. */
  function CreateUpdate(s: Session, id: int): (u: Snapshot)
    requires SessionWf(s)
    ensures u.names == [s.player1.name, s.player2.name] && u.myId == id
    ensures u.hands == s.game.hands && u.results == s.game.results
    ensures u.moneys == s.game.moneys && u.bets == s.game.bets
    ensures u.phase == s.game.phase && u.currentTurn == s.game.current
    ensures |u.sums| == 2 && forall i :: 0 <= i < 2 ==> u.sums[i] == GetPlayerSum(s.game, i)
    ensures DealerRevealed(s.game.phase) ==>
      u.dealerHand == s.game.dealerHand && u.dealerSum == HandScore(s.game.dealerHand)
    ensures !DealerRevealed(s.game.phase) ==>
      var d := s.game.dealerHand;
      && |u.dealerHand| == (if |d| > 1 then |d| else 1)
      && u.dealerHand[0] == BackCard
      && (forall k :: 1 <= k < |d| ==> u.dealerHand[k] == d[k])
      && u.dealerSum == (if |d| > 1 then RawTotal(d[1..]) else 0)
  {
    var g := s.game;
    var shown: seq<Card> :=
      if DealerRevealed(g.phase) then g.dealerHand
      else [BackCard] + (if |g.dealerHand| > 1 then g.dealerHand[1..] else []);
    var shownSum :=
      if DealerRevealed(g.phase) then GetDealerSum(g)
      else if |g.dealerHand| > 1 then RawTotal(g.dealerHand[1..]) else 0;
    Snapshot([s.player1.name, s.player2.name], g.hands, GetPlayersSums(g), g.results,
             g.moneys, g.bets, shown, shownSum, g.phase, g.current, id)
  }

  /** `broadcastGameState`: nothing once the session has ended, otherwise
      seat 0's snapshot to seat 0 and then seat 1's to seat 1, each only if
      that socket is open. */
  function Broadcast(s: Session): (r: seq<Sent>)
    requires SessionWf(s)
    ensures s.ended ==> r == []
    ensures !s.ended ==> r == SendTo(s, 0, Update(CreateUpdate(s, 0))) + SendTo(s, 1, Update(CreateUpdate(s, 1)))
    ensures forall k :: 0 <= k < |r| ==> 0 <= r[k].seat < 2 && HandlerOf(s, r[k].seat).open
  {
    if s.ended then []
    else SendTo(s, 0, Update(CreateUpdate(s, 0))) + SendTo(s, 1, Update(CreateUpdate(s, 1)))
  }

  /** The two snapshots of one broadcast are the same but for the
      recipient's seat number: neither seat's hand, total, bet or balance
      is hidden from the other seat. */
  lemma SnapshotsDifferOnlyInId(s: Session)
    requires SessionWf(s)
    ensures CreateUpdate(s, 1) == CreateUpdate(s, 0).(myId := 1)
  {
  }

  /** The face-down card does not leak: before the dealer's turn, two tables
      that differ only in the dealer's first card produce the same
      snapshots. */
  lemma HoleCardHidden(s: Session, hole: PlayingCard, id: int)
    requires SessionWf(s) && |s.game.dealerHand| > 0 && !DealerRevealed(s.game.phase)
    ensures
      var t := s.(game := s.game.(dealerHand := s.game.dealerHand[0 := hole]));
      SessionWf(t) && CreateUpdate(t, id) == CreateUpdate(s, id)
  {
    var t := s.(game := s.game.(dealerHand := s.game.dealerHand[0 := hole]));
    assert t.game.dealerHand[1..] == s.game.dealerHand[1..];
  }

  /** The commands `handleCommand` tells apart. */
  datatype Command =
    | BetCmd(amountText: string)
    | HitCmd
    | StandCmd
    | RequestCmd
    | DeclineCmd
    | OtherCmd

  /** How `handleCommand` reads a command string: the `BET:` prefix first,
      then the exact words, with `REQUEST_NEW_GAME` and `ACCEPT_NEW_GAME`
      treated alike; anything else is ignored. */
  function ParseCommand(command: string): (c: Command)
    ensures c.BetCmd? <==> StartsWith(command, BetPrefix)
    ensures c.BetCmd? ==> c.amountText == command[|BetPrefix|..]
    ensures c == HitCmd <==> command == "HIT"
    ensures c == StandCmd <==> command == "STAND"
    ensures c == RequestCmd <==> command == "REQUEST_NEW_GAME" || command == "ACCEPT_NEW_GAME"
    ensures c == DeclineCmd <==> command == "DECLINE_NEW_GAME"
  {
    if StartsWith(command, BetPrefix) then
      assert command[0] == 'B';
      BetCmd(command[|BetPrefix|..])
    else if command == "HIT" then HitCmd
    else if command == "STAND" then StandCmd
    else if command == "REQUEST_NEW_GAME" || command == "ACCEPT_NEW_GAME" then RequestCmd
    else if command == "DECLINE_NEW_GAME" then DeclineCmd
    else OtherCmd
  }

  /** The exceptions `deck.remove` would throw are ruled out: whatever the
      command sets off in the engine finds the cards it draws. */
  predicate CommandDeckLasts(s: Session, command: string, seat: int)
    requires SessionWf(s)
  {
    match ParseCommand(command)
    case BetCmd(t) => ParseInt(t).Some? ==> BetDeckLasts(s.game, seat, ParseInt(t).value)
    case HitCmd => s.game.current == seat ==> HitDeckLasts(s.game)
    case StandCmd => s.game.current == seat ==> StandDeckLasts(s.game)
    case _ => true
  }

  /** `resetNewGameRequests`. */
  function ResetRequests(s: Session): (r: Session)
    ensures !r.wants1 && !r.wants2
    ensures r == s.(wants1 := r.wants1, wants2 := r.wants2)
  {
    s.(wants1 := false, wants2 := false)
  }

  /** `startNewGame`: clear both requests, reopen betting on a fresh deck,
      and broadcast. */
  function StartNewGame(s: Session, shuffled: seq<PlayingCard>): (r: Step)
    requires SessionWf(s) && IsShuffle(shuffled)
    ensures SessionWf(r.session) && !r.session.wants1 && !r.session.wants2
    ensures r.session.game.phase == Betting && |r.session.game.deck| == 52
    ensures r.session.game.moneys == s.game.moneys
    ensures r.session.player1 == s.player1 && r.session.player2 == s.player2 && r.session.ended == s.ended
    ensures r.sent == Broadcast(r.session)
  {
    var t := ResetRequests(s).(game := StartGame(s.game, shuffled));
    Step(t, Broadcast(t))
  }

  /** `handleNewGameRequest`: the sender's flag is raised; with both flags
      up a new round starts, otherwise the other seat is told of the
      request. */
  function HandleNewGameRequest(s: Session, seat: int, shuffled: seq<PlayingCard>): (r: Step)
    requires SessionWf(s) && IsShuffle(shuffled)
    ensures SessionWf(r.session)
    ensures
      var otherWants := if seat == 0 then s.wants2 else s.wants1;
      && (otherWants ==> r == StartNewGame(s, shuffled))
      && (!otherWants ==>
            && r.session == (if seat == 0 then s.(wants1 := true) else s.(wants2 := true))
            && r.sent == SendTo(s, 1 - (if seat == 0 then 0 else 1), Notice(NewGameRequested)))
  {
    var t := if seat == 0 then s.(wants1 := true) else s.(wants2 := true);
    if t.wants1 && t.wants2 then StartNewGame(t, shuffled)
    else if seat == 0 then Step(t, SendTo(t, 1, Notice(NewGameRequested)))
    else Step(t, SendTo(t, 0, Notice(NewGameRequested)))
  }

  /** The `BET:` branch of `handleCommand`, given the text after the
      prefix: a text that is not an `int` and a bet the engine refuses each
      send the sender an error and change nothing; an accepted bet is
      broadcast. */
  function HandleBet(s: Session, amountText: string, seat: int): (r: Step)
    requires SessionWf(s) && (seat == 0 || seat == 1)
    requires ParseInt(amountText).Some? ==> BetDeckLasts(s.game, seat, ParseInt(amountText).value)
    ensures SessionWf(r.session)
    ensures ParseInt(amountText).None? ==>
      r == Step(s, SendTo(s, seat, Notice(BettingErrorPrefix + InvalidAmountReason)))
    ensures ParseInt(amountText).Some? && !BetAccepted(s.game, seat, ParseInt(amountText).value) ==>
      r == Step(s, SendTo(s, seat, Notice(BettingErrorPrefix + RefusedBetReason)))
    ensures ParseInt(amountText).Some? && BetAccepted(s.game, seat, ParseInt(amountText).value) ==>
      && r.session == s.(game := r.session.game)
      && r.session.game == PlaceBet(s.game, seat, ParseInt(amountText).value).value
      && r.sent == Broadcast(r.session)
  {
    match ParseInt(amountText)
    case None => Step(s, SendTo(s, seat, Notice(BettingErrorPrefix + InvalidAmountReason)))
    case Some(amount) =>
      match PlaceBet(s.game, seat, amount)
      case None => Step(s, SendTo(s, seat, Notice(BettingErrorPrefix + RefusedBetReason)))
      case Some(g) =>
        var t := s.(game := g);
        Step(t, Broadcast(t))
  }

  /** The `HIT`/`STAND` branch of `handleCommand`: only the seat whose turn
      it is, during the players' turns, reaches the engine, and then the new
      state is broadcast; any other sender is ignored without a reply. */
  function HandleMove(s: Session, hit: bool, seat: int): (r: Step)
    requires SessionWf(s) && (seat == 0 || seat == 1)
    requires s.game.current == seat ==> (hit ==> HitDeckLasts(s.game)) && (!hit ==> StandDeckLasts(s.game))
    ensures SessionWf(r.session)
    ensures s.game.phase != PlayerTurn || s.game.current != seat ==> r == Step(s, [])
    ensures s.game.phase == PlayerTurn && s.game.current == seat ==>
      && r.session == s.(game := r.session.game)
      && (hit ==> |r.session.game.hands[seat]| == |s.game.hands[seat]| + 1
                  && r.session.game.hands[1 - seat] == s.game.hands[1 - seat])
      && (!hit ==> r.session.game.hands == s.game.hands
                   && (r.session.game.current == seat + 1 || r.session.game.phase == GameOver))
      && r.sent == Broadcast(r.session)
  {
    if s.game.phase != PlayerTurn || s.game.current != seat then Step(s, [])
    else if hit then HitStep(s, seat)
    else StandStep(s)
  }

  /** A `HIT` that reaches the engine, and its broadcast. */
  function HitStep(s: Session, seat: int): (r: Step)
    requires SessionWf(s) && s.game.phase == PlayerTurn && s.game.current == seat && HitDeckLasts(s.game)
    ensures SessionWf(r.session) && r.session == s.(game := r.session.game)
    ensures r.session.game == PlayerHit(s.game) && r.sent == Broadcast(r.session)
    ensures |r.session.game.hands[seat]| == |s.game.hands[seat]| + 1
    ensures r.session.game.hands[1 - seat] == s.game.hands[1 - seat]
  {
    HitKeepsWf(s.game);
    var t := s.(game := PlayerHit(s.game));
    Step(t, Broadcast(t))
  }

  /** A `STAND` that reaches the engine, and its broadcast. */
  function StandStep(s: Session): (r: Step)
    requires SessionWf(s) && s.game.phase == PlayerTurn && StandDeckLasts(s.game)
    ensures SessionWf(r.session) && r.session == s.(game := r.session.game)
    ensures r.session.game == PlayerStand(s.game) && r.sent == Broadcast(r.session)
    ensures r.session.game.hands == s.game.hands
    ensures r.session.game.current == s.game.current + 1 || r.session.game.phase == GameOver
  {
    StandKeepsWf(s.game);
    var t := s.(game := PlayerStand(s.game));
    Step(t, Broadcast(t))
  }

  /** `handleCommand` for the seat `seat`: nothing once the session has
      ended; otherwise a dispatch on the command string, in the source's
      order, with unknown commands ignored. */
  function HandleCommand(s: Session, command: string, seat: int, shuffled: seq<PlayingCard>): (r: Step)
    requires SessionWf(s) && (seat == 0 || seat == 1) && IsShuffle(shuffled)
    requires CommandDeckLasts(s, command, seat)
    ensures SessionWf(r.session)
    ensures s.ended ==> r == Step(s, [])
    ensures r.session.player1 == s.player1 && r.session.player2 == s.player2 && r.session.ended == s.ended
    ensures !s.ended && StartsWith(command, BetPrefix) ==> r == HandleBet(s, command[|BetPrefix|..], seat)
    ensures !s.ended && (command == "HIT" || command == "STAND") ==> r == HandleMove(s, command == "HIT", seat)
    ensures !s.ended && (command == "REQUEST_NEW_GAME" || command == "ACCEPT_NEW_GAME") ==>
      r == HandleNewGameRequest(s, seat, shuffled)
    ensures !s.ended && command == "DECLINE_NEW_GAME" ==>
      r == Step(ResetRequests(s), SendTo(s, 0, Notice(NewGameDeclined)) + SendTo(s, 1, Notice(NewGameDeclined)))
    ensures (!s.ended && !StartsWith(command, BetPrefix)
             && command !in {"HIT", "STAND", "REQUEST_NEW_GAME", "ACCEPT_NEW_GAME", "DECLINE_NEW_GAME"}) ==>
      r == Step(s, [])
  {
    if s.ended then Step(s, [])
    else
      match ParseCommand(command)
      case BetCmd(amountText) => HandleBet(s, amountText, seat)
      case HitCmd => HandleMove(s, true, seat)
      case StandCmd => HandleMove(s, false, seat)
      case RequestCmd => HandleNewGameRequest(s, seat, shuffled)
      case DeclineCmd =>
        Step(ResetRequests(s), SendTo(s, 0, Notice(NewGameDeclined)) + SendTo(s, 1, Notice(NewGameDeclined)))
      case OtherCmd => Step(s, [])
  }

  /** `removePlayer` with `endSession`: the first call tells the other seat,
      if its socket is open, that its opponent left, then closes both
      sockets and marks the session ended; later calls do nothing. */
  function RemovePlayer(s: Session, seat: int): (r: Step)
    ensures s.ended ==> r == Step(s, [])
    ensures r.session.ended && r.session.game == s.game
    ensures !s.ended ==>
      var other := if seat == 0 then 1 else 0;
      && !r.session.player1.open && !r.session.player2.open
      && r.sent == SendTo(s, other, Notice(OpponentDisconnected))
  {
    if s.ended then Step(s, [])
    else
      var other := if seat == 0 then 1 else 0;
      var closed := s.(ended := true, player1 := s.player1.(open := false), player2 := s.player2.(open := false));
      Step(closed, SendTo(s, other, Notice(OpponentDisconnected)))
  }

  /** `GameSession.run` on a fresh `GameSession`: a two-seat engine
      (`new Blackjack(2)`, shuffled once) whose first round is opened at
      once (reshuffled), and a broadcast to both seats. */
  function StartSession(p1: Handler, p2: Handler, built: seq<PlayingCard>, shuffled: seq<PlayingCard>): (r: Step)
    requires IsShuffle(built) && IsShuffle(shuffled)
    ensures SessionWf(r.session) && !r.session.ended && !r.session.wants1 && !r.session.wants2
    ensures r.session.player1 == p1 && r.session.player2 == p2
    ensures r.session.game.phase == Betting
    ensures forall i :: 0 <= i < 2 ==> r.session.game.moneys[i] == StartingMoney && r.session.game.bets[i] == 0
    ensures r.sent == Broadcast(r.session)
  {
    var t := Session(p1, p2, StartGame(NewGame(2, built), shuffled), false, false, false);
    Step(t, Broadcast(t))
  }

  /** Once the session has ended, no command, broadcast or disconnect sends
      anything or changes anything. */
  lemma EndedSessionIsInert(s: Session, command: string, seat: int, shuffled: seq<PlayingCard>)
    requires SessionWf(s) && s.ended && (seat == 0 || seat == 1) && IsShuffle(shuffled)
    requires CommandDeckLasts(s, command, seat)
    ensures HandleCommand(s, command, seat, shuffled) == Step(s, [])
    ensures Broadcast(s) == [] && RemovePlayer(s, seat) == Step(s, [])
  {
  }

  /** A disconnect is handled once: a second report of either seat changes
      nothing and sends nothing. */
  lemma DisconnectIdempotent(s: Session, seat1: int, seat2: int)
    ensures
      var r := RemovePlayer(s, seat1);
      RemovePlayer(r.session, seat2) == Step(r.session, [])
  {
  }

  /** After a disconnect the session sends at most the one notice, and it
      goes to the seat that stayed. */
  lemma DisconnectNotifiesOnlyOther(s: Session, seat: int)
    requires !s.ended && (seat == 0 || seat == 1)
    ensures
      var r := RemovePlayer(s, seat);
      |r.sent| <= 1 && forall k :: 0 <= k < |r.sent| ==> r.sent[k] == Sent(1 - seat, Notice(OpponentDisconnected))
  {
  }

  /** A bet that is not a number, or that the engine refuses, leaves the
      session as it was and answers only the sender, with an error. */
  lemma RejectedBetChangesNothing(s: Session, command: string, seat: int, shuffled: seq<PlayingCard>)
    requires SessionWf(s) && !s.ended && (seat == 0 || seat == 1) && IsShuffle(shuffled)
    requires CommandDeckLasts(s, command, seat)
    requires StartsWith(command, BetPrefix)
    requires ParseInt(command[|BetPrefix|..]).None? || PlaceBet(s.game, seat, ParseInt(command[|BetPrefix|..]).value).None?
    ensures
      var r := HandleCommand(s, command, seat, shuffled);
      && r.session == s
      && |r.sent| <= 1
      && forall k :: 0 <= k < |r.sent| ==> r.sent[k].seat == seat && StartsWith(r.sent[k].msg.text, BettingErrorPrefix)
  {
    var r := HandleCommand(s, command, seat, shuffled);
    StripPrefix(BettingErrorPrefix, InvalidAmountReason);
    StripPrefix(BettingErrorPrefix, RefusedBetReason);
  }

  /** A new round needs both seats: a request starts one exactly when the
      other seat has already asked, and a decline clears both requests. */
  lemma RematchNeedsBoth(s: Session, seat: int, shuffled: seq<PlayingCard>)
    requires SessionWf(s) && !s.ended && (seat == 0 || seat == 1) && IsShuffle(shuffled)
    requires s.game.phase != Betting
    ensures
      var r := HandleCommand(s, "REQUEST_NEW_GAME", seat, shuffled);
      var otherWants := if seat == 0 then s.wants2 else s.wants1;
      && (r.session.game.phase == Betting <==> otherWants)
      && (otherWants ==> !r.session.wants1 && !r.session.wants2)
      && (!otherWants ==> r.session.game == s.game && (if seat == 0 then r.session.wants1 else r.session.wants2))
    ensures
      var r := HandleCommand(s, "DECLINE_NEW_GAME", seat, shuffled);
      !r.session.wants1 && !r.session.wants2 && r.session.game == s.game
  {
    assert !StartsWith("REQUEST_NEW_GAME", BetPrefix) by {
      assert "REQUEST_NEW_GAME"[0] != BetPrefix[0];
    }
    assert !StartsWith("DECLINE_NEW_GAME", BetPrefix) by {
      assert "DECLINE_NEW_GAME"[0] != BetPrefix[0];
    }
  }

  /** Every message in `sent` goes to seat 0 or 1, and only to a seat whose
      socket is open in `s`. */
  predicate SentToOpen(s: Session, sent: seq<Sent>) {
    forall k :: 0 <= k < |sent| ==> 0 <= sent[k].seat < 2 && HandlerOf(s, sent[k].seat).open
  }

  /** A broadcast from a session with the same two handlers reaches only
      open seats. */
  lemma BroadcastToOpen(s: Session, t: Session)
    requires SessionWf(t) && t.player1 == s.player1 && t.player2 == s.player2
    ensures SentToOpen(s, Broadcast(t))
  {
    assert forall seat :: HandlerOf(t, seat) == HandlerOf(s, seat);
  }

  /** A bet command answers or broadcasts only to open seats. */
  lemma BetSendsToOpen(s: Session, amountText: string, seat: int)
    requires SessionWf(s) && (seat == 0 || seat == 1)
    requires ParseInt(amountText).Some? ==> BetDeckLasts(s.game, seat, ParseInt(amountText).value)
    ensures SentToOpen(s, HandleBet(s, amountText, seat).sent)
  {
    BroadcastToOpen(s, HandleBet(s, amountText, seat).session);
  }

  /** A hit or stand broadcasts only to open seats. */
  lemma MoveSendsToOpen(s: Session, hit: bool, seat: int)
    requires SessionWf(s) && (seat == 0 || seat == 1)
    requires s.game.current == seat ==> (hit ==> HitDeckLasts(s.game)) && (!hit ==> StandDeckLasts(s.game))
    ensures SentToOpen(s, HandleMove(s, hit, seat).sent)
  {
    BroadcastToOpen(s, HandleMove(s, hit, seat).session);
  }

  /** A rematch request notifies or broadcasts only to open seats. */
  lemma RequestSendsToOpen(s: Session, seat: int, shuffled: seq<PlayingCard>)
    requires SessionWf(s) && IsShuffle(shuffled)
    ensures SentToOpen(s, HandleNewGameRequest(s, seat, shuffled).sent)
  {
    BroadcastToOpen(s, StartNewGame(s, shuffled).session);
  }

  /** Every message a command sends goes to an open seat of this table. */
  lemma SentOnlyToOpenSeats(s: Session, command: string, seat: int, shuffled: seq<PlayingCard>)
    requires SessionWf(s) && (seat == 0 || seat == 1) && IsShuffle(shuffled)
    requires CommandDeckLasts(s, command, seat)
    ensures SentToOpen(s, HandleCommand(s, command, seat, shuffled).sent)
  {
    if !s.ended {
      match ParseCommand(command)
      case BetCmd(amountText) => BetSendsToOpen(s, amountText, seat);
      case HitCmd => MoveSendsToOpen(s, true, seat);
      case StandCmd => MoveSendsToOpen(s, false, seat);
      case RequestCmd => RequestSendsToOpen(s, seat, shuffled);
      case DeclineCmd =>
      case OtherCmd =>
    }
  }
}
