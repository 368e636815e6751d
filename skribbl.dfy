/**
 * The turn engine of a Playing room (`Skribbl`): the game snapshot, the
 * secret word, the cycling word source and the players still owed a turn
 * in the current round.
 */
module TurnEngine {
  import opened Wrappers
  import opened World
  import Guessing

  /** The largest `usize`, all 64 bits set. */
  const USIZE_ALL_ONES: int := 0xFFFF_FFFF_FFFF_FFFF

  /**
   * The early-return test of `reveal_random_char` as written:
   * `!hints.len() < word_length / 2`, where `!` is the bitwise NOT of a `usize`.
   */
  predicate HintGuardAsWritten(hintCount: nat, wordLen: nat) {
    USIZE_ALL_ONES - hintCount < wordLen / 2
  }

  /** The test the comment above `reveal_random_char` describes: stop once half the word is shown. */
  predicate HintGuardIntended(hintCount: nat, wordLen: nat) {
    hintCount >= wordLen / 2
  }

  /**
   * For any realistic sizes the written guard never returns early, so the
   * cap is not enforced: three of four characters shown, and a fourth is
   * still revealed.
   */
  lemma HintCapNotEnforced(hintCount: nat, wordLen: nat)
    requires hintCount < 0x8000_0000_0000_0000 && wordLen < 0x8000_0000_0000_0000
    ensures !HintGuardAsWritten(hintCount, wordLen)
    ensures !HintGuardAsWritten(3, 4) && HintGuardIntended(3, 4)
  {
  }

  /** The game a fresh `Skribbl` starts from: empty canvas, round 0, no word yet. */
  function InitialGame(opts: GameOpts): (g: Game)
    ensures g.dimensions == opts.dimensions && g.canvas == map[]
    ensures g.turn.currentRound == 0 && g.turn.lastRound == opts.numberOfRounds
    ensures g.turn.word == Draw("") && g.turn.endInstant == 0
  {
    Game(opts.dimensions, map[], Turn(Drawing, Draw(""), 0, 0, opts.numberOfRounds))
  }

  /** The names of `players`, in order. */
  function Names(players: seq<Player>): (r: seq<Username>)
    ensures |r| == |players|
    ensures forall k :: 0 <= k < |r| ==> r[k] == players[k].name
  {
    seq(|players|, k requires 0 <= k < |players| => players[k].name)
  }

  class Skribbl {
    /** The current game snapshot (canvas and turn). */
    var game: Game
    /** The word to guess in the current turn. */
    var currentWord: string
    /** Players that did not draw yet in the current round. */
    var playersLeftInRound: seq<Username>
    /** The word source: `words` cycled forever, `drawn` words taken so far. */
    var words: seq<string>
    var drawn: nat

    /**
     * `Skribbl::new`. The shuffle in the source acts on a local copy that is
     * then dropped, so the cycle runs over the configured list in order.
     */
    constructor (opts: GameOpts)
      ensures game == InitialGame(opts)
      ensures currentWord == "" && playersLeftInRound == []
      ensures words == opts.customWords && drawn == 0
    {
      game := InitialGame(opts);
      currentWord := "";
      playersLeftInRound := [];
      words := opts.customWords;
      drawn := 0;
    }

    /** `is_last_turn`: at most one player is still owed a turn. */
    predicate IsLastTurn()
      reads this
    {
      |playersLeftInRound| <= 1
    }

    /** `is_last_round`. */
    predicate IsLastRound()
      reads this
    {
      game.turn.currentRound == game.turn.lastRound
    }

    /** `get_drawing_player`: the drawer is stored only in the guessers' view of the word. */
    function DrawingPlayer(): PlayerId
      reads this
      requires game.turn.word.Guess?
    {
      game.turn.word.who.id
    }

    /** `is_drawing`. */
    predicate IsDrawing(id: PlayerId)
      reads this
      requires game.turn.word.Guess?
    {
      DrawingPlayer() == id
    }

    /**
     * `next_turn`: take the next word of the cycle and hand the turn to the
     * first player still owed one, removing that player from the list.
     */
    method NextTurn()
      requires |playersLeftInRound| > 0 && |words| > 0
      modifies this
      ensures drawn == old(drawn) + 1 && words == old(words)
      ensures currentWord == words[old(drawn) % |words|]
      ensures playersLeftInRound == old(playersLeftInRound)[1..]
      ensures game == old(game).(turn := WithWord(old(game).turn, GuessWord(old(playersLeftInRound)[0], currentWord)))
      ensures IsDrawing(old(playersLeftInRound)[0].id)
      ensures forall id :: IsDrawing(id) <==> id == old(playersLeftInRound)[0].id
    {
      currentWord := words[drawn % |words|];
      drawn := drawn + 1;
      var who := playersLeftInRound[0];
      playersLeftInRound := playersLeftInRound[1..];
      game := game.(turn := game.turn.(word := GuessWord(who, currentWord)));
    }

    /**
     * `start_round`: count the round, snapshot the players' names in order
     * and hand the first turn to the first of them.
     */
    method StartRound(players: seq<Player>)
      requires |players| > 0 && |words| > 0
      modifies this
      ensures game.turn.currentRound == old(game.turn.currentRound) + 1
      ensures game.turn.lastRound == old(game.turn.lastRound)
      ensures game.turn.state == old(game.turn.state) && game.turn.endInstant == old(game.turn.endInstant)
      ensures game.canvas == old(game.canvas) && game.dimensions == old(game.dimensions)
      ensures playersLeftInRound == Names(players)[1..]
      ensures words == old(words) && drawn == old(drawn) + 1 && currentWord == words[old(drawn) % |words|]
      ensures game.turn.word == GuessWord(players[0].name, currentWord)
      ensures forall id :: IsDrawing(id) <==> id == players[0].name.id
    {
      game := game.(turn := game.turn.(currentRound := game.turn.currentRound + 1));
      playersLeftInRound := Names(players);
      NextTurn();
    }

    /**
     * `reveal_random_char` as written: reveal one character of the current
     * word that is not yet a hint, chosen at random. The guard meant to stop
     * at half the word almost never fires (see `HintCapNotEnforced`).
     */
    method RevealRandomChar()
      requires game.turn.word.Guess?
      requires !HintGuardAsWritten(|game.turn.word.hints|, game.turn.word.wordLen) ==>
        exists i: nat :: i < |currentWord| && i !in game.turn.word.hints
      modifies this
      ensures HintGuardAsWritten(|old(game.turn.word.hints)|, old(game.turn.word.wordLen)) ==> game == old(game)
      ensures !HintGuardAsWritten(|old(game.turn.word.hints)|, old(game.turn.word.wordLen)) ==>
        exists i: nat :: i < |currentWord| && i !in old(game.turn.word.hints)
          && game == old(game).(turn := old(game.turn).(word := old(game.turn.word).(hints := old(game.turn.word.hints)[i := currentWord[i]])))
      ensures currentWord == old(currentWord) && playersLeftInRound == old(playersLeftInRound)
      ensures words == old(words) && drawn == old(drawn)
    {
      var hints := game.turn.word.hints;
      if HintGuardAsWritten(|hints|, game.turn.word.wordLen) {
        return;
      }
      var idx: nat :| idx < |currentWord| && idx !in hints;
      game := game.(turn := game.turn.(word := game.turn.word.(hints := hints[idx := currentWord[idx]])));
    }

    /**
     * `reveal_random_char` with the guard its comment describes: nothing is
     * revealed once half the word is shown, so a hint map within the cap stays within it.
     */
    method RevealRandomCharCapped()
      requires game.turn.word.Guess?
      requires !HintGuardIntended(|game.turn.word.hints|, game.turn.word.wordLen) ==>
        exists i: nat :: i < |currentWord| && i !in game.turn.word.hints
      modifies this
      ensures game.turn.word.Guess?
      ensures |old(game.turn.word.hints)| <= old(game.turn.word.wordLen) / 2 ==>
        |game.turn.word.hints| <= game.turn.word.wordLen / 2
      ensures old(game.turn.word.hints).Keys <= game.turn.word.hints.Keys
      ensures HintGuardIntended(|old(game.turn.word.hints)|, old(game.turn.word.wordLen)) ==> game == old(game)
      ensures !HintGuardIntended(|old(game.turn.word.hints)|, old(game.turn.word.wordLen)) ==>
        exists i: nat :: i < |currentWord| && i !in old(game.turn.word.hints)
          && game == old(game).(turn := old(game.turn).(word := old(game.turn.word).(hints := old(game.turn.word.hints)[i := currentWord[i]])))
      ensures currentWord == old(currentWord) && playersLeftInRound == old(playersLeftInRound)
      ensures words == old(words) && drawn == old(drawn)
    {
      var hints := game.turn.word.hints;
      if HintGuardIntended(|hints|, game.turn.word.wordLen) {
        return;
      }
      var idx: nat :| idx < |currentWord| && idx !in hints;
      game := game.(turn := game.turn.(word := game.turn.word.(hints := hints[idx := currentWord[idx]])));
    }

    /**
     * `do_guess`: the distance between the guess and the secret word; at
     * distance 0 the player earns 50 plus the time bonus. The
     * `solved_current_round` flag is left as it was.
     */
    method DoGuess(player: Player, guess: string, now: U64) returns (dist: nat, updated: Player)
      requires game.turn.word.Guess?
      ensures dist == Guessing.EditDistance(guess, currentWord)
      ensures dist == 0 ==> updated == player.(score := player.score + 50 +
        Guessing.CalculateScoreIncrease(RemainingRoundTime(game, now), IsDrawing(player.name.id)))
      ensures dist == 0 ==> updated.score >= player.score + 100
      ensures dist != 0 ==> updated == player
      ensures updated.solvedCurrentRound == player.solvedCurrentRound && updated.name == player.name
    {
      var remainingTime := RemainingRoundTime(game, now);
      dist := Guessing.LevenshteinDistance(guess, currentWord);
      updated := player;
      if dist == 0 {
        Guessing.ScoreIncreaseBounds(remainingTime, IsDrawing(player.name.id));
        updated := player.(score := player.score + 50 + Guessing.CalculateScoreIncrease(remainingTime, IsDrawing(player.name.id)));
      }
    }
  }
}
