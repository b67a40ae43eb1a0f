/**
  The local Ludo engine of the LudoBoard widget: a 28-square loop with eight
  star (safe) squares, two or four players with four tokens each, the
  legality rule for a token, the move with captures, the winner check, the
  turn rule (a 6 rolls again), the automatic pass when nothing can move, the
  per-cycle "rolled" flags and the reset. The dice value is an input.
*/
module Ludo {
  import opened Options

  const TokensPerPlayer := 4
  const TrackLength := 28
  /** Safe squares: nobody is captured here. */
  const StarPositions: seq<int> := [2, 6, 10, 14, 16, 20, 24, 26]
  const BaseNames: seq<string> := ["Red", "Green", "Yellow", "Blue"]
  const BaseColors: seq<string> := ["#ff0000", "#009900", "#ffcc00", "#66ccff"]

  datatype TokenState = Home | Track | Done
  /** `steps` counts squares from the owner's start; `pos` is the board square
      (0..27) while on the track and -1 otherwise. */
  datatype Token = Token(state: TokenState, steps: int, pos: int)
  datatype PlayerState = PlayerState(id: int, name: string, color: string, startIndex: int, tokens: seq<Token>)
  datatype Phase = Idle | Rolled

  const HomeToken := Token(Home, 0, -1)

  /** JavaScript's `%`: the remainder takes the sign of the dividend. */
  function Rem(a: int, n: int): (r: int)
    requires n > 0
    ensures a >= 0 ==> 0 <= r < n
    ensures a < 0 ==> -n < r <= 0
    ensures (a - r) % n == 0
  {
    RemCongruent(if a >= 0 then a else -a, n);
    if a >= 0 then a % n else -((-a) % n)
  }

  /** A multiple of n strictly between -n and n is zero. */
  lemma MulBound(n: int, k: int)
    requires n > 0 && -n < n * k < n
    ensures k == 0
  {
  }

  /** Euclidean remainders are unique. */
  lemma ModUnique(y: int, n: int, q: int, r: int)
    requires n > 0 && 0 <= r < n && y == n * q + r
    ensures y % n == r
  {
    var q' := y / n;
    assert y == n * q' + y % n;
    assert n * (q - q') == y % n - r;
    MulBound(n, q - q');
  }

  /** A non-negative number and its remainder differ by a multiple of n, in
      either sign. */
  lemma RemCongruent(b: int, n: int)
    requires n > 0 && b >= 0
    ensures (b - b % n) % n == 0 && (-b + b % n) % n == 0
  {
    var q := b / n;
    assert b - b % n == n * q;
    ModUnique(b - b % n, n, q, 0);
    ModUnique(-b + b % n, n, -q, 0);
  }

  /** computePos: the board square `steps` squares after `startIndex`. */
  function ComputePos(startIndex: int, steps: int): (pos: int)
    ensures startIndex + steps >= 0 ==> 0 <= pos < TrackLength
    ensures (startIndex + steps - pos) % TrackLength == 0
  {
    Rem(startIndex + steps, TrackLength)
  }

  /** The start square of player i: floor(28 * i / playerCount). The players
      start evenly spaced around the loop. */
  function StartIndex(i: int, playerCount: int): (s: int)
    requires playerCount == 2 || playerCount == 4
    ensures 0 <= i < playerCount ==> 0 <= s < TrackLength && s == i * (TrackLength / playerCount)
  {
    (TrackLength * i) / playerCount
  }

  /** A token's three fields agree: home and done tokens are off the board,
      a track token is strictly short of the finish and sits on the square its
      steps give. */
  predicate WellFormed(t: Token, startIndex: int) {
    match t.state
    case Home => t.steps == 0 && t.pos == -1
    case Track => 0 <= t.steps < TrackLength && t.pos == ComputePos(startIndex, t.steps)
    case Done => t.steps == TrackLength && t.pos == -1
  }

  /** canMoveToken: a 6 is needed to leave home, a finished token never moves,
      and a track token may not overshoot the end of the track. */
  predicate CanMoveToken(t: Token, dice: int) {
    if dice <= 0 then false
    else if t.state == Done then false
    else if t.state == Home then dice == 6
    else t.steps + dice <= TrackLength
  }

  /** The legality rule on a well-formed token: a finished token never moves,
      a home token moves exactly on a 6, and a track token moves exactly when
      the dice does not carry it past the end of the track, so a 1 always moves it. */
  lemma MoveLegality(t: Token, startIndex: int, dice: int)
    requires WellFormed(t, startIndex)
    ensures t.state == Done ==> !CanMoveToken(t, dice)
    ensures t.state == Home ==> (CanMoveToken(t, dice) <==> dice == 6)
    ensures t.state == Track ==> (CanMoveToken(t, dice) <==> 1 <= dice <= TrackLength - t.steps)
    ensures t.state == Track ==> CanMoveToken(t, 1)
  {
  }

  /** The moved token. Leaving home puts it on its start square with no steps;
      a track move adds exactly the dice (never clamped), finishing exactly
      when it reaches the track length. */
  function Advance(t: Token, startIndex: int, dice: int): (r: Token)
    requires CanMoveToken(t, dice)
    ensures r.state != Home
    ensures t.state == Home && 0 <= startIndex < TrackLength ==> r == Token(Track, 0, startIndex)
    ensures t.state == Track ==> r.steps == t.steps + dice && (r.state == Done <==> r.steps == TrackLength)
    ensures WellFormed(t, startIndex) ==> WellFormed(r, startIndex)
  {
    if t.state == Home then Token(Track, 0, ComputePos(startIndex, 0))
    else if t.steps + dice == TrackLength then Token(Done, t.steps + dice, -1)
    else Token(Track, t.steps + dice, ComputePos(startIndex, t.steps + dice))
  }

  /** Every track token on square pos goes back home. */
  function SendHome(tokens: seq<Token>, pos: int): (r: seq<Token>)
    ensures |r| == |tokens|
  {
    seq(|tokens|, i requires 0 <= i < |tokens| =>
      if tokens[i].state == Track && tokens[i].pos == pos then HomeToken else tokens[i])
  }

  /** The capture pass: every player other than the mover sends home its track tokens on pos. */
  function Capture(players: seq<PlayerState>, moverId: int, pos: int): (r: seq<PlayerState>)
    ensures |r| == |players|
  {
    seq(|players|, p requires 0 <= p < |players| =>
      if players[p].id == moverId then players[p]
      else players[p].(tokens := SendHome(players[p].tokens, pos)))
  }

  /** A capture happens only where the moved token lands on the track off the star squares. */
  predicate Captures(landed: Token) {
    landed.state == Track && landed.pos !in StarPositions
  }

  predicate PlayerValid(player: PlayerState, i: int, playerCount: int)
    requires playerCount == 2 || playerCount == 4
  {
    && player.id == i
    && player.startIndex == StartIndex(i, playerCount)
    && |player.tokens| == TokensPerPlayer
    && forall k :: 0 <= k < |player.tokens| ==> WellFormed(player.tokens[k], player.startIndex)
  }

  /** Players are numbered by position, start on their own square and hold four well-formed tokens. */
  predicate PlayersValid(players: seq<PlayerState>, playerCount: int)
    requires playerCount == 2 || playerCount == 4
  {
    |players| == playerCount && forall i :: 0 <= i < |players| ==> PlayerValid(players[i], i, playerCount)
  }

  /** The players after `mover` moves token `tokenIndex` by `dice` (the body of
      the setPlayers updater in handleTokenClick). */
  function MoveOutcome(players: seq<PlayerState>, mover: int, tokenIndex: int, dice: int): (r: seq<PlayerState>)
    requires 0 <= mover < |players| && 0 <= tokenIndex < |players[mover].tokens|
    requires CanMoveToken(players[mover].tokens[tokenIndex], dice)
    // the player list and each player's identity, start and token count are kept
    ensures |r| == |players|
    ensures forall p :: 0 <= p < |r| ==>
              && r[p].id == players[p].id && r[p].name == players[p].name && r[p].color == players[p].color
              && r[p].startIndex == players[p].startIndex && |r[p].tokens| == |players[p].tokens|
    // the moved token advances
    ensures r[mover].tokens[tokenIndex] == Advance(players[mover].tokens[tokenIndex], players[mover].startIndex, dice)
    // the mover's other tokens never change
    ensures forall k :: 0 <= k < |r[mover].tokens| && k != tokenIndex ==> r[mover].tokens[k] == players[mover].tokens[k]
    // an opponent's token goes home exactly when it is on the track at the landing square and that square is not a star
    ensures var landed := Advance(players[mover].tokens[tokenIndex], players[mover].startIndex, dice);
            forall p, k :: 0 <= p < |r| && players[p].id != players[mover].id && 0 <= k < |r[p].tokens| ==>
              r[p].tokens[k] == (if Captures(landed) && players[p].tokens[k].state == Track && players[p].tokens[k].pos == landed.pos
                                 then HomeToken else players[p].tokens[k])
  {
    var player := players[mover];
    var landed := Advance(player.tokens[tokenIndex], player.startIndex, dice);
    var moved := players[mover := player.(tokens := player.tokens[tokenIndex := landed])];
    if Captures(landed) then Capture(moved, player.id, landed.pos) else moved
  }

  /** The player list computed by the setPlayers updater of handleTokenClick:
      copy the players, advance the chosen token of the mover, then send home
      the opponents' tokens on a non-star landing square. */
  method MovePlayers(prev: seq<PlayerState>, me: int, tokenIndex: int, d: int) returns (r: seq<PlayerState>)
    requires 0 <= me < |prev| && 0 <= tokenIndex < |prev[me].tokens|
    requires CanMoveToken(prev[me].tokens[tokenIndex], d)
    ensures r == MoveOutcome(prev, me, tokenIndex, d)
  {
    var token := prev[me].tokens[tokenIndex];
    var next := new PlayerState[|prev|](i requires 0 <= i < |prev| => prev[i]);
    assert next[..] == prev;
    var start := next[me].startIndex;
    // CanMoveToken rules out an overshoot, so a track move lands at most on the track length
    if token.state == Home && d == 6 {
      token := Token(Track, 0, ComputePos(start, 0));
    } else if token.state == Track {
      var newSteps := token.steps + d;
      if newSteps == TrackLength {
        token := Token(Done, newSteps, -1);
      } else {
        token := Token(Track, newSteps, ComputePos(start, newSteps));
      }
    }
    next[me] := next[me].(tokens := next[me].tokens[tokenIndex := token]);
    assert token == Advance(prev[me].tokens[tokenIndex], prev[me].startIndex, d);
    ghost var moved := prev[me := prev[me].(tokens := prev[me].tokens[tokenIndex := token])];
    assert next[..] == moved;
    var meId := next[me].id;
    if token.state == Track && token.pos !in StarPositions {
      CapturePass(next, meId, token.pos);
    }
    r := next[..];
  }

  /** A move keeps every player and token well-formed: in particular every
      track token stays short of the track length on the square its steps give. */
  lemma MoveKeepsPlayersValid(players: seq<PlayerState>, playerCount: int, mover: int, tokenIndex: int, dice: int)
    requires playerCount == 2 || playerCount == 4
    requires PlayersValid(players, playerCount)
    requires 0 <= mover < |players| && 0 <= tokenIndex < |players[mover].tokens|
    requires CanMoveToken(players[mover].tokens[tokenIndex], dice)
    ensures PlayersValid(MoveOutcome(players, mover, tokenIndex, dice), playerCount)
  {
    var r := MoveOutcome(players, mover, tokenIndex, dice);
    forall p | 0 <= p < |r|
      ensures PlayerValid(r[p], p, playerCount)
    {
      assert PlayerValid(players[p], p, playerCount);
      forall k | 0 <= k < |r[p].tokens|
        ensures WellFormed(r[p].tokens[k], r[p].startIndex)
      {
        assert WellFormed(players[p].tokens[k], players[p].startIndex);
      }
    }
  }

  predicate AllDone(tokens: seq<Token>) {
    forall k :: 0 <= k < |tokens| ==> tokens[k].state == Done
  }

  predicate AnyMovable(tokens: seq<Token>, dice: int) {
    exists k :: 0 <= k < |tokens| && CanMoveToken(tokens[k], dice)
  }

  /** endTurn's choice of the next player: a 6 keeps the turn, any other roll
      passes it round-robin. */
  function NextPlayer(current: int, lastRoll: int, playerCount: int): (r: int)
    requires playerCount == 2 || playerCount == 4
    requires 0 <= current < playerCount
    ensures 0 <= r < playerCount
    ensures lastRoll == 6 ==> r == current
    ensures lastRoll != 6 ==> r == (if current + 1 == playerCount then 0 else current + 1)
  {
    if lastRoll == 6 then current else Rem(current + 1, playerCount)
  }

  /** The player to move after a sequence of turns ending with the given rolls. */
  function AfterRolls(current: int, rolls: seq<int>, playerCount: int): (r: int)
    requires playerCount == 2 || playerCount == 4
    requires 0 <= current < playerCount
    ensures 0 <= r < playerCount
  {
    if rolls == [] then current
    else NextPlayer(AfterRolls(current, rolls[..|rolls| - 1], playerCount), rolls[|rolls| - 1], playerCount)
  }

  /** Number of rolls that are not a 6. */
  function NonSixes(rolls: seq<int>): nat {
    if rolls == [] then 0 else NonSixes(rolls[..|rolls| - 1]) + (if rolls[|rolls| - 1] == 6 then 0 else 1)
  }

  /** Round robin with extra turns: after any sequence of turns, the player to
      move is the first one advanced once for every roll that was not a 6. */
  lemma {:induction false} AfterRollsRoundRobin(current: int, rolls: seq<int>, playerCount: int)
    requires playerCount == 2 || playerCount == 4
    requires 0 <= current < playerCount
    ensures AfterRolls(current, rolls, playerCount) == (current + NonSixes(rolls)) % playerCount
  {
    if rolls != [] {
      var prefix := rolls[..|rolls| - 1];
      AfterRollsRoundRobin(current, prefix, playerCount);
      if rolls[|rolls| - 1] != 6 {
        SuccessorMod(current + NonSixes(prefix), playerCount);
      }
    }
  }

  /** Passing the turn once more is adding one modulo the player count. */
  lemma SuccessorMod(a: nat, playerCount: int)
    requires playerCount == 2 || playerCount == 4
    ensures (if a % playerCount + 1 == playerCount then 0 else a % playerCount + 1) == (a + 1) % playerCount
  {
    if playerCount == 2 {
      assert a % 2 == 0 || a % 2 == 1;
    } else {
      assert a % 4 == 0 || a % 4 == 1 || a % 4 == 2 || a % 4 == 3;
    }
  }

  /** handleRoll's update of the rolled flags: start from a fresh all-false
      list if the length is off, then mark the current player. */
  function MarkRolled(flags: seq<bool>, playerCount: nat, current: int): (r: seq<bool>)
    ensures |r| == playerCount
    ensures 0 <= current < playerCount ==> r[current]
    ensures forall i :: 0 <= i < playerCount && i != current ==> r[i] == (|flags| == playerCount && flags[i])
  {
    var base := if |flags| == playerCount then flags else seq(playerCount, _ => false);
    if 0 <= current < |base| then base[current := true] else base
  }

  /** Every one of the playerCount players has rolled in the current cycle. */
  predicate AllRolled(flags: seq<bool>, playerCount: int) {
    playerCount > 0 && |flags| == playerCount && forall i :: 0 <= i < |flags| ==> flags[i]
  }

  /** createInitialPlayers: players 0..n-1 named and coloured in the order Red,
      Green, Yellow, Blue, each on its evenly spaced start square with four
      tokens at home. */
  method CreateInitialPlayers(playerCount: int) returns (players: seq<PlayerState>)
    requires playerCount == 2 || playerCount == 4
    ensures PlayersValid(players, playerCount)
    ensures forall i :: 0 <= i < playerCount ==>
              && players[i].name == BaseNames[i] + " Player" && players[i].color == BaseColors[i]
              && players[i].startIndex == i * (TrackLength / playerCount)
              && players[i].tokens == seq(TokensPerPlayer, _ => HomeToken)
  {
    players := [];
    for i := 0 to playerCount
      invariant |players| == i
      invariant forall j :: 0 <= j < i ==> PlayerValid(players[j], j, playerCount)
      invariant forall j :: 0 <= j < i ==>
                  && players[j].name == BaseNames[j] + " Player" && players[j].color == BaseColors[j]
                  && players[j].tokens == seq(TokensPerPlayer, _ => HomeToken)
    {
      var startIndex := (TrackLength * i) / playerCount;
      players := players + [PlayerState(i, BaseNames[i] + " Player", BaseColors[i], startIndex,
                                        seq(TokensPerPlayer, _ => HomeToken))];
    }
  }

  /** The capture loops of handleTokenClick over the copied players: every
      player other than the mover sends home its track tokens on pos. */
  method CapturePass(next: array<PlayerState>, meId: int, pos: int)
    modifies next
    ensures next[..] == Capture(old(next[..]), meId, pos)
  {
    ghost var moved := next[..];
    for p := 0 to next.Length
      invariant forall q :: 0 <= q < p ==> next[q] == Capture(moved, meId, pos)[q]
      invariant forall q :: p <= q < next.Length ==> next[q] == moved[q]
    {
      if next[p].id == meId {
        continue;
      }
      var tokens := next[p].tokens;
      for k := 0 to |tokens|
        invariant |tokens| == |moved[p].tokens|
        invariant forall j :: 0 <= j < k ==> tokens[j] == SendHome(moved[p].tokens, pos)[j]
        invariant forall j :: k <= j < |tokens| ==> tokens[j] == moved[p].tokens[j]
      {
        if tokens[k].state == Track && tokens[k].pos == pos {
          tokens := tokens[k := HomeToken];
        }
      }
      assert tokens == SendHome(moved[p].tokens, pos);
      next[p] := next[p].(tokens := tokens);
    }
    assert next[..] == Capture(moved, meId, pos);
  }

  /** The widget's game state (`isRolling` and the displayed dice face belong
      to the roll animation and are not part of it). */
  class Game {
    const playerCount: int
    var players: seq<PlayerState>
    var currentPlayer: int
    var dice: Option<int>
    var phase: Phase
    var winner: Option<int>
    var rolledFlags: seq<bool>

    /** Players and tokens are well-formed, the current player exists, a dice
        value is held exactly while rolled, and a winner has finished all four
        tokens. */
    ghost predicate Valid()
      reads this
    {
      && (playerCount == 2 || playerCount == 4)
      && PlayersValid(players, playerCount)
      && 0 <= currentPlayer < playerCount
      && (phase == Rolled <==> dice.Some?)
      && (dice.Some? ==> 1 <= dice.value <= 6)
      && (winner.Some? ==> 0 <= winner.value < playerCount && AllDone(players[winner.value].tokens) && phase == Idle)
    }

    /** isMyTurn: the local participant is the player to move. */
    predicate IsMyTurn(playerIndex: Option<int>)
      reads this
    {
      playerIndex.Some? && playerIndex.value == currentPlayer
    }

    /** Only one participant is on turn, and a spectator never is. */
    lemma TurnExclusive(p: Option<int>, q: Option<int>)
      ensures !IsMyTurn(None)
      ensures IsMyTurn(p) && IsMyTurn(q) ==> p == q
    {
    }

    /** currentCanMove: some token of the player to move can use the dice. */
    predicate CurrentCanMove()
      reads this
      requires Valid()
    {
      dice.Some? && AnyMovable(players[currentPlayer].tokens, dice.value)
    }

    /** The preconditions under which handleTokenClick moves a token. */
    predicate MoveAccepted(playerIndex: Option<int>, tokenIndex: int)
      reads this
      requires Valid() && 0 <= tokenIndex < TokensPerPlayer
    {
      phase == Rolled && dice.Some? && winner.None? && IsMyTurn(playerIndex)
      && CanMoveToken(players[currentPlayer].tokens[tokenIndex], dice.value)
    }

    /** In the rolled phase with no winner, the player to move is stuck (and
        the turn auto-passes) exactly when no click of theirs on any token
        would be accepted; a 6 with a token at home is never stuck. */
    lemma StuckIffNoClickAccepted()
      requires Valid() && phase == Rolled && winner.None?
      ensures !CurrentCanMove() <==>
                forall k :: 0 <= k < TokensPerPlayer ==> !MoveAccepted(Some(currentPlayer), k)
      ensures (dice == Some(6) && exists k :: 0 <= k < TokensPerPlayer && players[currentPlayer].tokens[k].state == Home)
              ==> CurrentCanMove()
    {
      assert PlayerValid(players[currentPlayer], currentPlayer, playerCount);
      if CurrentCanMove() {
        var k :| 0 <= k < |players[currentPlayer].tokens| && CanMoveToken(players[currentPlayer].tokens[k], dice.value);
        assert MoveAccepted(Some(currentPlayer), k);
      }
    }

    /** The initial state: fresh players, player 0 to roll, no dice, no winner, no flags set. */
    constructor (playerCount: int)
      requires playerCount == 2 || playerCount == 4
      ensures Valid() && this.playerCount == playerCount
      ensures forall i :: 0 <= i < playerCount ==>
                && players[i].name == BaseNames[i] + " Player" && players[i].color == BaseColors[i]
                && players[i].tokens == seq(TokensPerPlayer, _ => HomeToken)
      ensures currentPlayer == 0 && dice == None && phase == Idle && winner == None
      ensures rolledFlags == seq(playerCount, _ => false)
    {
      this.playerCount := playerCount;
      var initial := CreateInitialPlayers(playerCount);
      players := initial;
      currentPlayer := 0;
      dice := None;
      phase := Idle;
      winner := None;
      rolledFlags := seq(playerCount, _ => false);
    }

    /** handleRoll with the dice value as input: only the player to move, only
        before rolling and only while nobody has won; records the value, enters
        the rolled phase and marks the player as having rolled this cycle. */
    method Roll(playerIndex: Option<int>, value: int)
      requires Valid() && 1 <= value <= 6
      modifies this
      ensures Valid()
      ensures !old(phase == Idle && winner.None? && IsMyTurn(playerIndex)) ==> unchanged(this)
      ensures old(phase == Idle && winner.None? && IsMyTurn(playerIndex)) ==>
                && dice == Some(value) && phase == Rolled
                && rolledFlags == MarkRolled(old(rolledFlags), |players|, currentPlayer)
                && players == old(players) && currentPlayer == old(currentPlayer) && winner == old(winner)
    {
      if phase == Rolled || winner.Some? {
        return;
      }
      if !IsMyTurn(playerIndex) {
        return;
      }
      dice := Some(value);
      phase := Rolled;
      rolledFlags := MarkRolled(rolledFlags, |players|, currentPlayer);
    }

    /** endTurn: unless someone has won, a 6 keeps the player and any other roll
        passes the turn round-robin; either way the phase returns to idle and
        the dice is cleared. */
    method EndTurn(lastRoll: int)
      requires Valid()
      modifies this
      ensures Valid()
      ensures old(winner).Some? ==> unchanged(this)
      ensures old(winner).None? ==>
                && currentPlayer == NextPlayer(old(currentPlayer), lastRoll, playerCount)
                && phase == Idle && dice == None
                && players == old(players) && winner == old(winner) && rolledFlags == old(rolledFlags)
    {
      if winner.Some? {
        return;
      }
      if lastRoll == 6 {
        phase := Idle;
        dice := None;
        return;
      }
      currentPlayer := Rem(currentPlayer + 1, |players|);
      phase := Idle;
      dice := None;
    }

    /** handleTokenClick: when the move is accepted, the chosen token of the
        player to move advances, opponents' tokens on a non-star landing square
        go home, the player wins if all four tokens are done, and the turn
        ends. endTurn reads the winner as it was before the move (nobody), so
        the turn is handed on even after a winning move. A click that is not
        accepted changes nothing. */
    method ClickToken(playerIndex: Option<int>, tokenIndex: int)
      requires Valid() && 0 <= tokenIndex < TokensPerPlayer
      modifies this
      ensures Valid()
      ensures !old(MoveAccepted(playerIndex, tokenIndex)) ==> unchanged(this)
      ensures old(MoveAccepted(playerIndex, tokenIndex)) ==>
                && players == MoveOutcome(old(players), old(currentPlayer), tokenIndex, old(dice).value)
                && winner == (if AllDone(players[old(currentPlayer)].tokens) then Some(old(currentPlayer)) else None)
                && currentPlayer == NextPlayer(old(currentPlayer), old(dice).value, playerCount)
                && phase == Idle && dice == None && rolledFlags == old(rolledFlags)
    {
      if phase != Rolled || dice.None? || winner.Some? {
        return;
      }
      if !IsMyTurn(playerIndex) {
        return;
      }
      var d := dice.value;
      // `next.find(p => p.id === currentPlayer)`: player ids are their positions
      var me := currentPlayer;
      if !CanMoveToken(players[me].tokens[tokenIndex], d) {
        return;
      }
      ApplyMove(tokenIndex, d);
    }

    /** The setPlayers updater of handleTokenClick for an accepted move: the
        new players, then the winner check and endTurn. endTurn is the callback
        of the render in which the click happened, so it sees no winner. */
    method ApplyMove(tokenIndex: int, d: int)
      requires Valid() && 0 <= tokenIndex < TokensPerPlayer
      requires phase == Rolled && dice == Some(d) && winner.None?
      requires CanMoveToken(players[currentPlayer].tokens[tokenIndex], d)
      modifies this
      ensures Valid()
      ensures players == MoveOutcome(old(players), old(currentPlayer), tokenIndex, d)
      ensures winner == (if AllDone(players[old(currentPlayer)].tokens) then Some(old(currentPlayer)) else None)
      ensures currentPlayer == NextPlayer(old(currentPlayer), d, playerCount)
      ensures phase == Idle && dice == None && rolledFlags == old(rolledFlags)
    {
      var me := currentPlayer;
      var next := MovePlayers(players, me, tokenIndex, d);
      MoveKeepsPlayersValid(players, playerCount, me, tokenIndex, d);
      players := next;
      EndTurn(d);
      if AllDone(players[me].tokens) {
        winner := Some(players[me].id);
      }
    }

    /** The automatic pass: rolled, nobody has won and no token can use the
        dice, so the turn ends as after a move. Otherwise nothing changes. */
    method AutoPass()
      requires Valid()
      modifies this
      ensures Valid()
      ensures !old(winner.None? && phase == Rolled && dice.Some? && !CurrentCanMove()) ==> unchanged(this)
      ensures old(winner.None? && phase == Rolled && dice.Some? && !CurrentCanMove()) ==>
                && currentPlayer == NextPlayer(old(currentPlayer), old(dice).value, playerCount)
                && phase == Idle && dice == None
                && players == old(players) && winner == old(winner) && rolledFlags == old(rolledFlags)
    {
      if winner.Some? {
        return;
      }
      if phase != Rolled || dice.None? {
        return;
      }
      if CurrentCanMove() {
        return;
      }
      EndTurn(dice.value);
    }

    /** The rolled-flags effect: once every player has rolled in the current
        cycle, all flags are cleared. Nothing else changes. */
    method ResetRolledFlags()
      requires Valid()
      modifies this
      ensures Valid()
      ensures AllRolled(old(rolledFlags), |players|) ==> rolledFlags == seq(|players|, _ => false)
      ensures !AllRolled(old(rolledFlags), |players|) ==> rolledFlags == old(rolledFlags)
      ensures players == old(players) && currentPlayer == old(currentPlayer) && dice == old(dice)
      ensures phase == old(phase) && winner == old(winner)
    {
      if |players| == 0 {
        return;
      }
      if |rolledFlags| != |players| {
        return;
      }
      if forall i :: 0 <= i < |rolledFlags| ==> rolledFlags[i] {
        rolledFlags := seq(|players|, _ => false);
      }
    }

    /** resetGame: fresh players, player 0 to roll, no dice, no winner. The
        rolled flags are left as they were. */
    method ResetGame()
      requires playerCount == 2 || playerCount == 4
      modifies this
      ensures Valid()
      ensures currentPlayer == 0 && dice == None && phase == Idle && winner == None
      ensures forall i :: 0 <= i < playerCount ==>
                && players[i].name == BaseNames[i] + " Player" && players[i].color == BaseColors[i]
                && players[i].tokens == seq(TokensPerPlayer, _ => HomeToken)
      ensures rolledFlags == old(rolledFlags)
    {
      var initial := CreateInitialPlayers(playerCount);
      players := initial;
      currentPlayer := 0;
      dice := None;
      phase := Idle;
      winner := None;
    }
  }
}
