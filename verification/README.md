# Blackjack engine, session and client helpers in Dafny

This project models the core of a two-player networked Blackjack game written
in Java:

- the cards (`Card`);
- the authoritative engine (`Blackjack`), which covers:
  - the 52-card deck, drawn from its end;
  - ace-reduction scoring;
  - bets;
  - the round-robin initial deal;
  - the natural-21 short cut;
  - hit and stand;
  - the dealer's draw-to-17;
  - settlement with integer money;
- the server's per-table `GameSession`, which covers:
  - command dispatch, including `BET:<int>`;
  - per-seat snapshots that hide the dealer's hole card;
  - the two-flag rematch protocol;
  - the disconnect latch;
- the FIFO pairing of waiting connections in `Server.main`;
- the pure decisions of the Swing client.

Every mutator of the engine and the session is a pure function from the old
state to the new one. A session step returns the new session together with
the list of messages the server wrote, each tagged with the seat it went to.

The files:

- `wrappers.dfy` holds `Option`.
- `text.dfy` holds `startsWith`, `contains`, `Integer.parseInt` and decimal rendering.
- `cards.dfy` holds cards, their string forms and the built deck.
- `scoring.dfy` holds `calculateOptimalScore` and full-hand scoring.
- `deck.dfy` holds drawing, the deal loop and the dealer's draw.
- `settlement.dfy` holds outcomes and payouts.
- `blackjack.dfy` holds the engine state machine, its invariant, the money ledger and card conservation.
- `session.dfy` holds `GameSession`.
- `matchmaker.dfy` holds the waiting queue.
- `client.dfy` holds the client's helpers.

The model keeps the engine's quirks as the code has them:

- The blackjack payout is `bet + bet*3/2` with integer division.
- A second bet by the same seat overwrites the bet but debits the balance again (`RepeatBetLosesFirstBet`).
- The sum getters apply ace reduction again to an already-reduced total, so a bust K, Q, 5, A is reported as 16 (`BustAceHandReportedAs16`).
- In the natural-21 branch, a seat without 21 ends the round with result `""` and no refund.
- `calculateOptimalScore` stops at the first total within 21, so A, A, A, 8 scores 21 (`ThreeAcesAndEight`).

## Model

| member | source | states |
|---|---|---|
| Cards.Value | src/Card.java:42-50 | a card is worth 2 to 11 points, exactly 11 for an ace and exactly 10 for a ten, jack, queen or king |
| Cards.SymbolValueAgrees | src/Card.java:42-50 | the string-level rule reaches the same value for every real rank: a rank inside "AJQK" is 11 for "A" and 10 otherwise, and any other rank goes through `parseInt` |
| Cards.PlaceholderHasNoValue | src/Card.java:42-50 | the "BACK" placeholder is not inside "AJQK" and does not parse, so `getValue` has no value for it |
| Cards.CardString | src/Card.java:31-33 | the string form starts with the rank symbol, has a dash right after it, and ends with the suit symbol; its length is the sum of the three |
| Cards.CardStringRoundTrip | src/Card.java:31-33 | reading the string form back yields the same card |
| Cards.CardStringInjective | src/Card.java:31-33 | two different cards never have the same string form |
| Cards.ImagePath | src/Card.java:64-66 | the image path is "resources/cards/", then the card's string form, then ".png" |
| Cards.ImagePathInjective | src/Card.java:64-66 | two different cards never share an image path |
| Cards.IsAce | src/Card.java:56-58 | a card is an ace exactly when its rank string is "A" |
| Cards.SymbolValue | src/Card.java:42-50 | a rank string inside "AJQK" always has a value, 11 exactly for "A" and 10 for the others; any other string gets what `Integer.parseInt` gives, and nothing when that throws; a value always fits 32 bits |
| Cards.FullDeck | src/Blackjack.java:420-431 | the built deck has 52 cards, no card twice, and holds every rank of every suit |
| Cards.ShuffleIsDeck | src/Blackjack.java:433-435 | any permutation of the built deck again has 52 distinct cards |
| Scoring.OptimalScore | src/Blackjack.java:438-454 | the result is the sum unchanged when there is no ace or the sum is within 21; otherwise the sum less 10 per demoted ace, never more aces than held, over 21 only when every ace is demoted, and above 11 whenever any ace is demoted |
| Scoring.OptimalScoreMeetsSpec | src/Blackjack.java:438-454 | the result demotes some k of the aces, k no larger than the number held, and meets every clause of the reduction rule |
| Scoring.OptimalScoreUnique | src/Blackjack.java:438-454 | any value meeting the reduction rule equals the function's result |
| Scoring.ReapplyStableIff | src/Blackjack.java:470-489 | reducing an already-reduced total again changes it exactly when the total is over 21 and the hand holds an ace |
| Scoring.HandScore | src/Blackjack.java:186-202 | a hand's score lies between its total with aces as 1 and its total with aces as 11, and an empty hand scores 0 |
| Scoring.TotalsConcat | src/Blackjack.java:288-293 | raw total and ace count of two hands put together are the sums of each hand's |
| Scoring.TotalsPermutation | src/Blackjack.java:288-293 | raw total and ace count depend only on which cards are held |
| Scoring.HandScorePermutation | src/Blackjack.java:284-296 | the full-hand score does not depend on the order the cards arrived in |
| Scoring.HardTotalAtLeastSize | src/Blackjack.java:342-355 | a hand's total with aces as 1 is at least its number of cards |
| Scoring.TwoAcesAndNine | src/Blackjack.java:438-454 | A, A, 9 scores 21 |
| Scoring.AceAndTen | src/Blackjack.java:438-454 | A, 10 scores 21 |
| Scoring.ThreeAcesAndEight | src/Blackjack.java:438-454 | A, A, A, 8 scores 21 |
| Deck.DealEach | src/Blackjack.java:163-170 | seats i onward each receive one card, in seat order, taken from the end of the deck; earlier seats are untouched |
| Deck.DealerDraw | src/Blackjack.java:341-358 | the dealer stops at a score of 17 or more; every hand it held before stopping scored under 17; the cards drawn are the deck's tail, taken from the end |
| Deck.EnoughForDealer | src/Blackjack.java:342-344 | 17 minus the hand's total with aces as 1 is enough cards for the dealer to finish |
| Deck.DealerHandBound | src/Blackjack.java:342-358 | after drawing, the dealer never holds more than 17 cards unless it held more to begin with |
| Deck.DealerDrawConserves | src/Blackjack.java:343-344 | the dealer's draw moves cards from the deck to the hand and loses or creates none |
| Settlement.LabelMarksLoss | src/Blackjack.java:374-375 | among all results, only the loss label contains "Thua" |
| Settlement.Outcome.Label | src/Blackjack.java:251-274 | only the empty result has the empty label; every settled label ends in "!" |
| Settlement.Payout | src/Blackjack.java:367-413 | for a positive bet, a seat gets nothing back exactly on a loss, its stake back exactly on a push, and at least twice the stake exactly on a win or a blackjack; never more than 5/2 of the bet |
| Settlement.PayoutBounds | src/Blackjack.java:251-274 | what a settled seat gets back is one of 0, the bet, twice the bet, or bet + bet*3/2, and never more than 5/2 of the bet |
| Settlement.NaturalSettle | src/Blackjack.java:251-274 | both at 21 pushes; the player alone at 21 wins the natural; the dealer alone at 21 loses the seat; neither leaves no result; money grows by exactly the payout |
| Settlement.FinalSettle | src/Blackjack.java:367-413 | the result obeys the final rule and money grows by exactly the payout: an earlier loss pushes only on a dealer bust; otherwise a player bust loses unless the dealer busts; a dealer bust or a higher total wins; equal totals push; a lower total loses |
| Settlement.FinalRuleDetermines | src/Blackjack.java:367-413 | the final rule allows at most one result for a seat |
| Blackjack.NewGame | src/Blackjack.java:57-84 | a new engine meets the invariant and has each seat at 1000 with no bet, no cards and no result; it waits for players; its deck is 52 distinct cards |
| Blackjack.StartGame | src/Blackjack.java:94-117 | a new round opens betting at seat 0 with every hand, sum, bet and result cleared, the dealer hand empty and a fresh 52-card deck; balances carry over |
| Blackjack.RoundIsLoop | src/Blackjack.java:161-183 | dealing seat by seat, each taking the deck's last card, and then the dealer, ends with seat i holding the (i+1)-th card from the end, the dealer the next, and n+1 fewer cards in the deck |
| Blackjack.TwoRounds | src/Blackjack.java:161-183 | over both rounds, seat i gets the cards at distance i and n+1+i from the end, the dealer those at n and 2n+1, and the deck shrinks by 2(n+1) |
| Blackjack.DealCards | src/Blackjack.java:159-202 | after the deal each seat's stored sum and ace count are those of its whole two-card hand |
| Blackjack.CheckNaturals | src/Blackjack.java:216-248 | the dealer's two cards, the hole card included, are scored; if anyone has 21 the round ends and every seat is settled by the natural rule, otherwise the players' turns begin at seat 0 with nothing else changed |
| Blackjack.DealInitial | src/Blackjack.java:159-213 | the deal keeps the invariant, gives every seat and the dealer two cards, takes 2(n+1) cards from the deck, and pays each seat exactly its payout |
| Blackjack.PlaceBet | src/Blackjack.java:120-156 | a bet is refused, changing nothing, exactly when betting is closed, the seat is out of range, the amount is not positive or it exceeds the balance; otherwise the bet is overwritten and the balance debited by the amount, and the deal starts exactly when every seat has a nonzero bet |
| Blackjack.FinalSettleSeats | src/Blackjack.java:367-413 | the settlement loop gives every seat the result the final rule demands of its earlier result, its total and the dealer's, and pays each exactly that result's payout |
| Blackjack.DealerPlay | src/Blackjack.java:324-365 | the dealer's hand grows by the deck's tail, taken from the end, until it scores 17 or more; the stored dealer total becomes the whole hand's score; every seat is settled by the final rule and paid exactly its payout |
| Blackjack.PlayerStand | src/Blackjack.java:311-322 | outside the players' turns nothing changes; otherwise the turn moves to the next seat, and past the last seat the dealer plays and every seat is settled |
| Blackjack.PlayerHit | src/Blackjack.java:276-309 | outside the players' turns nothing changes; otherwise the current seat takes the top card and is rescored from its whole hand, other seats' sums untouched; a score over 21 records a loss and passes the turn on, and on the last seat the hit ends exactly as a stand on the busted table does |
| Blackjack.LastBustSettles | src/Blackjack.java:302-309 | a bust on the last seat ends the round: the busted seat is settled as a loss, or a push if the dealer busts too, every other seat by the final rule, and each balance grows by its payout |
| Blackjack.GetPlayerSum | src/Blackjack.java:482-489 | out of range gives 0; in range the reported sum is the ace reduction applied once more to the hand's score, so it equals the score exactly when the hand is within 21 or holds no ace |
| Blackjack.GetPlayersSums | src/Blackjack.java:470-479 | the list has one entry per seat, each the same figure `getPlayerSum` gives |
| Blackjack.BustAceHandReportedAs16 | src/Blackjack.java:470-489 | in any game where a seat holds K, Q, 5, A, that hand scores 26 and is bust, yet `getPlayerSum` and `getPlayersSums` report 16 for the seat |
| Blackjack.GetDealerSum | src/Blackjack.java:494-508 | the dealer total is the whole hand's score, hole card included, and at the end of a round it equals the stored dealer total |
| Blackjack.PlayerTurnDeckLasts | src/Blackjack.java:276-344 | with 16 cards left in the players' turns, a hit or a stand and the dealer's play after it never draw from an empty deck |
| Blackjack.StandKeepsWf | src/Blackjack.java:311-322 | standing keeps the engine invariant: stored sums match the hands, balances stay non-negative, the stored dealer total is the final hand's |
| Blackjack.HitKeepsWf | src/Blackjack.java:276-309 | hitting keeps the engine invariant |
| Blackjack.StartOpensLedger | src/Blackjack.java:94-117 | at the opening of betting each balance equals the balance carried over, with no bet debited |
| Blackjack.FirstBetKeepsLedger | src/Blackjack.java:120-156 | a seat's first bet of the round keeps every balance equal to its opening balance, less its bet, plus its payout once the round is over |
| Blackjack.RepeatBetLosesFirstBet | src/Blackjack.java:130-136 | a second bet by a seat records only the new amount but leaves both amounts debited, so the ledger no longer balances |
| Blackjack.StandKeepsLedger | src/Blackjack.java:311-413 | standing, and the settlement it may set off, keeps the ledger |
| Blackjack.HitKeepsLedger | src/Blackjack.java:276-309 | hitting, and the settlement a bust on the last seat sets off, keeps the ledger |
| Blackjack.StartConserves | src/Blackjack.java:104-111 | opening a round gathers exactly the 52 built cards into the deck, with nothing in any hand |
| Blackjack.DealRoundKeepsCards | src/Blackjack.java:161-183 | one deal round moves cards from the deck into the hands and loses or creates none |
| Blackjack.DealInitialKeepsHoldings | src/Blackjack.java:159-213 | the whole deal, and the naturals check after it, keep every card |
| Blackjack.BetConserves | src/Blackjack.java:120-156 | a bet, and the deal it may set off, keeps the table holding exactly the 52 built cards |
| Blackjack.HitDrawKeepsHoldings | src/Blackjack.java:281-282 | a hit's draw moves the top card to the current seat and loses or creates none |
| Blackjack.HitKeepsHoldings | src/Blackjack.java:276-309 | hitting, and the dealer's play a bust on the last seat sets off, keeps every card |
| Blackjack.StandKeepsHoldings | src/Blackjack.java:311-365 | standing, and the dealer's play it may set off, keeps every card |
| Blackjack.HandsCardsAddCard | src/Blackjack.java:281-282 | one more card at one seat adds exactly that card to the cards the seats hold |
| Text.ParseInt | src/Server.java:122 | parsing succeeds exactly when an optional sign is followed by at least one digit and the signed value fits 32 bits; the value is the decimal value of the digits, negated after a minus sign |
| Text.ParseShowRoundTrip | src/Server.java:122 | every 32-bit integer, written in decimal and parsed again, comes back unchanged |
| Session.SendTo | src/Server.java:332-343 | a message to an open socket goes out once, tagged with its seat, and a message to a closed socket is dropped |
| Session.CreateUpdate | src/Server.java:176-221 | the snapshot carries both seats' hands, results, bets and balances as the engine has them, and each seat's reported sum; until the dealer's turn the first dealer card is the placeholder, later cards are shown, and the dealer total is the raw sum of the visible cards; from the dealer's turn on the whole hand and its score are shown |
| Session.Broadcast | src/Server.java:170-174 | nothing after the session ends; otherwise seat 0's snapshot to seat 0, then seat 1's to seat 1, each only to an open socket |
| Session.SnapshotsDifferOnlyInId | src/Server.java:205-220 | the two snapshots of one broadcast differ only in the recipient's seat number |
| Session.HoleCardHidden | src/Server.java:177-203 | before the dealer's turn, tables that differ only in the dealer's first card produce identical snapshots |
| Session.ResetRequests | src/Server.java:268-271 | both rematch flags are cleared and nothing else changes |
| Session.StartNewGame | src/Server.java:261-266 | the flags are cleared, betting reopens on a fresh 52-card deck with balances carried over, and both seats get a snapshot |
| Session.HandleNewGameRequest | src/Server.java:248-259 | the sender's flag is raised; if the other seat had asked a new round starts, otherwise only the other seat is told of the request |
| Session.HandleBet | src/Server.java:120-138 | a non-integer amount and a refused bet each answer only the sender with the matching error and change nothing; an accepted bet updates the engine and is broadcast |
| Session.HandleMove | src/Server.java:141-154 | a hit or stand reaches the engine only from the seat whose turn it is during the players' turns, and is then broadcast; any other is ignored with no reply |
| Session.HitStep | src/Server.java:146-152 | a hit that reaches the engine adds one card to the sender's hand, leaves the other seat's hand alone, and is broadcast |
| Session.StandStep | src/Server.java:146-152 | a stand that reaches the engine leaves the hands alone, passes the turn or ends the round, and is broadcast |
| Session.ParseCommand | src/Server.java:120-167 | a command is a bet exactly when it starts with `BET:`, the amount text being the rest; otherwise it is a hit, a stand, a rematch request (`REQUEST_NEW_GAME` or `ACCEPT_NEW_GAME`) or a decline exactly when it is that word, and anything else is ignored |
| Session.HandleCommand | src/Server.java:116-168 | an ended session ignores every command; otherwise the command is dispatched in the source's order: bet, then hit or stand, then rematch request, then decline, which tells both seats and clears both flags; unknown commands are ignored; the seats and the latch are never changed |
| Session.RemovePlayer | src/Server.java:224-245 | the first disconnect tells the other seat, if its socket is open, closes both sockets and ends the session; a later one does nothing; the engine is untouched |
| Session.StartSession | src/Server.java:92-114 | a new session seats its two handlers on a two-seat engine at 1000 each, opens betting with no bets and no rematch flags, and broadcasts |
| Session.EndedSessionIsInert | src/Server.java:116-117 | once the session has ended, commands, broadcasts and disconnects change nothing and send nothing |
| Session.DisconnectIdempotent | src/Server.java:224-227 | a second disconnect report, from either seat, changes nothing and sends nothing |
| Session.DisconnectNotifiesOnlyOther | src/Server.java:230-233 | a disconnect sends at most one message, the opponent-left notice, to the seat that stayed |
| Session.RejectedBetChangesNothing | src/Server.java:120-138 | a bet that does not parse or that the engine refuses leaves the session unchanged and sends at most one message, a betting error to the sender |
| Session.RematchNeedsBoth | src/Server.java:248-271 | a rematch request opens betting exactly when the other seat has already asked, and then clears both flags; a decline clears both flags and leaves the engine alone |
| Session.SentOnlyToOpenSeats | src/Server.java:332-333 | every message any command sends goes to seat 0 or 1, and only to a seat whose socket is open |
| Matchmaker.Accept | src/Server.java:52-73 | an arrival is queued; the queue releases a pair exactly when one was already waiting, earlier arrival first, and is then empty |
| Matchmaker.AcceptAll | src/Server.java:47-74 | over any arrival order the k-th session pairs arrivals 2k and 2k+1, and at most the last arrival is left waiting |
| Matchmaker.PairedSessionSeats | src/Server.java:59-70 | in a released pair the earlier arrival takes seat 0 and the later seat 1, both at 1000, with betting open |
| Client.CalculatePlayerScore | src/BlackjackClient.java:131-152 | the client's own score of a hand is the engine's full-hand score, the one the engine's dealer total uses too |
| Client.ClientScoreAgreesIff | src/BlackjackClient.java:520-527 | the client's score of a seat matches the sum the server sends for it exactly when the hand is within 21 or holds no ace |
| Client.ShouldShowPlayerCards | src/BlackjackClient.java:985-998 | the viewer's own hand is always shown; any other seat's hand exactly when the round is over |
| Client.OpponentHandSentButHidden | src/BlackjackClient.java:985-998 | the opponent's cards are in every snapshot; the viewer's own hand is always shown, the opponent's exactly when the round is over |
| Client.DecodeBettingError | src/BlackjackClient.java:874-880 | a betting error is recognised exactly when the prefix is present, and the reason shown is what follows it |
| Client.BettingErrorRoundTrip | src/BlackjackClient.java:875-877 | whatever reason the server appends to the prefix, the two it sends included, is exactly what the client shows |
| Client.BetButtonsEnabled | src/BlackjackClient.java:906-925 | outside betting every bet button is off; in betting each is on exactly when the viewer's balance covers its amount, and all are on when the viewer's seat or balance is unknown |
| Client.BetCommand | src/BlackjackClient.java:966-972 | a bet button sends a command that starts with the bet prefix |
| Client.EnabledButtonBetAccepted | src/BlackjackClient.java:914-925 | a button a snapshot enables sends a command the server parses back to the button's amount, and the engine accepts that amount |
| Client.ErrorEnablesRefusedBet | src/BlackjackClient.java:875-879 | after a betting error all four buttons are on, so a seat with less than 100 can press one the engine refuses |
| Client.NewCardAnimations | src/BlackjackClient.java:770-798 | exactly the cards past the count shown before are queued, for every seat and for the dealer, except the face-down placeholder; seats come in index order, then the dealer, slots in increasing order, so nothing is queued twice |
| Client.DealerLabel | src/BlackjackClient.java:466-472 | the dealer's score is hidden behind "?" until the round is over, and once it is over the label is "DEALER: " followed by the decimal text of the client's own score of the dealer's hand (never "?") |
| Client.DealerLabelShowsEngineTotal | src/BlackjackClient.java:466-472 | the dealer label shows the engine's stored dealer total once the round is over, and "?" in every other state, the dealer's turn included |

## Left out

- Sockets and object streams are not modelled. Neither are the `ClientHandler` read and send loops, the thread pool, `synchronized` or `volatile`. Commands and disconnects are sequential steps; the session lock serialises them.
- The startup race, where a command arrives before the first `startGame`, is concurrency and is not modelled.
- A failed write in `sendObject` calls `removePlayer` in the source. The model does not produce such failures; a closed socket drops the message.
- `Collections.shuffle` and its `Random` are not modelled. The shuffled deck is a parameter that must be a permutation of the built deck.
- `deck.remove` on an empty deck throws, and the model does not include that exception. Each draw instead requires the cards it takes: `HitDeckLasts`, `StandDeckLasts`, `BetDeckLasts`, `CommandDeckLasts` and `CanFinish`. `Blackjack.PlayerTurnDeckLasts` shows that 16 cards in the deck are enough for any hit or stand.
- `Integer.parseInt` is modelled only for an optional sign followed by ASCII digits within 32 bits. Non-ASCII digits are not.
- Money and scores are unbounded integers. Java `int` overflow of balances is not modelled, because it needs balances beyond 2^31.
- `getValue` on the placeholder card throws. Scoring therefore takes only real cards (`PlayingCard`).
- Client.DealerLabel: requires that a finished round's dealer hand holds no placeholder, because the client's scoring would throw on one. The server never sends one then.
- `dealInitialCards` updates the seat sums card by card during the two rounds. It then overwrites them from the whole hands, so only the final values are modelled. The stored `dealerSum` after round 1 is modelled as the code has it.
- `reducePlayerAce` is `calculateOptimalScore` under another name. `reduceDealerAce` is never called. Neither has its own member.
- The client's other server notices (`OPPONENT_DISCONNECTED`, `NEW_GAME_REQUESTED`) only change labels and buttons and are not modelled. The same goes for the animation timer and the `pendingUpdate` hand-off, sound, painting, `getImageURL`, `HomeScreen`, `Main` and console logging.
- `GameStateUpdate` is the `Session.Snapshot` datatype. It has getters only, so it has no members of its own.
