/**
 * The manager's game state as a value: who is selected, the three scores
 * and game totals, the letters already called, the tossup, the puzzle text
 * shown to the host, the cash settings, and everything sent so far on each
 * queue the manager writes. Each operation of `ManagerLayout` is a function
 * here, and module Manager proves the class against them.
 *
 * Players are numbered as in `selected_player`: 1 red, 2 yellow, 3 blue, and
 * 0 when nobody is selected. Player `p`'s score is `scores[p - 1]`.
 */
module Turn {
  import opened Options
  import opened Text
  import opened Channels

  /** Everything sent so far on the queues the manager writes. */
  datatype Outboxes = Outboxes(
    board: seq<Command>,     // puzzle_queue.a, read by the puzzleboard
    red: seq<Command>,       // red_q, read by the red score display
    yellow: seq<Command>,    // ylw_q
    blue: seq<Command>,      // blu_q
    letters: seq<Command>)   // letters_q, read by the letterboard

  datatype MState = MState(
    selected: int,               // selected_player
    scores: seq<int>,            // btn_red.score, btn_ylw.score, btn_blu.score
    totals: seq<int>,            // btn_red.total, btn_ylw.total, btn_blu.total
    unavailable: seq<string>,    // unavailable_letters
    tossupRunning: bool,         // tossup_running
    playersDone: seq<int>,       // tossup_players_done
    buzzers: bool,               // tossup_layout shows the three ring-in buttons
    puzzleString: string,        // puzzle_string
    puzzleClue: string,          // puzzle_clue
    vowelPrice: int,             // vowel_price
    customValue: Option<int>,    // the custom cash box, None while it is empty
    presetValue: int,            // the value the cash spinner shows
    out: Outboxes)

  /** Three players, and a selection that is one of them or nobody. */
  predicate Valid(s: MState) {
    0 <= s.selected <= 3 && |s.scores| == 3 && |s.totals| == 3
  }

  predicate IsPlayer(p: int) {
    1 <= p <= 3
  }

  /** The colour name the letterboard uses for player `p`. */
  function SeatOf(p: int): Seat
    requires IsPlayer(p)
  {
    if p == 1 then Red else if p == 2 then Yellow else Blue
  }

  /** The queue of player `p`'s score display. */
  function PlayerOut(o: Outboxes, p: int): seq<Command>
    requires IsPlayer(p)
  {
    if p == 1 then o.red else if p == 2 then o.yellow else o.blue
  }

  /** `q.put(c)` on player `p`'s score display queue. */
  function ToPlayer(o: Outboxes, p: int, c: Command): (r: Outboxes)
    requires IsPlayer(p)
    ensures PlayerOut(r, p) == PlayerOut(o, p) + [c]
    ensures forall q :: IsPlayer(q) && q != p ==> PlayerOut(r, q) == PlayerOut(o, q)
    ensures r.board == o.board && r.letters == o.letters
  {
    if p == 1 then o.(red := o.red + [c])
    else if p == 2 then o.(yellow := o.yellow + [c])
    else o.(blue := o.blue + [c])
  }

  function ToBoard(o: Outboxes, c: Command): Outboxes {
    o.(board := o.board + [c])
  }

  function ToLetters(o: Outboxes, c: Command): Outboxes {
    o.(letters := o.letters + [c])
  }

  // ---------------------------------------------------------------------------
  // Selection
  // ---------------------------------------------------------------------------

  /** `stop_all_flashing()`: every score display and every seat of the letterboard stops flashing. */
  function StopAllFlashing(o: Outboxes): (r: Outboxes)
    ensures forall p :: IsPlayer(p) ==> PlayerOut(r, p) == PlayerOut(o, p) + [StopFlash]
    ensures r.letters == o.letters + [StopFlashFor(Red), StopFlashFor(Yellow), StopFlashFor(Blue)]
    ensures r.board == o.board
  {
    Outboxes(o.board, o.red + [StopFlash], o.yellow + [StopFlash], o.blue + [StopFlash],
      o.letters + [StopFlashFor(Red), StopFlashFor(Yellow), StopFlashFor(Blue)])
  }

  /** `select_red()`, `select_yellow()`, `select_blue()` for player `p`. */
  function Select(s: MState, p: int): MState
    requires IsPlayer(p)
  {
    s.(selected := p, out := ToLetters(ToPlayer(StopAllFlashing(s.out), p, Flash), FlashFor(SeatOf(p))))
  }

  /**
   * Selecting a player makes them the selected one, stops every display
   * flashing and then starts theirs; nothing else changes.
   */
  lemma SelectEffect(s: MState, p: int)
    requires IsPlayer(p)
    ensures Select(s, p).selected == p
    ensures PlayerOut(Select(s, p).out, p) == PlayerOut(s.out, p) + [StopFlash, Flash]
    ensures forall q :: IsPlayer(q) && q != p ==> PlayerOut(Select(s, p).out, q) == PlayerOut(s.out, q) + [StopFlash]
    ensures Select(s, p).out.letters ==
      s.out.letters + [StopFlashFor(Red), StopFlashFor(Yellow), StopFlashFor(Blue), FlashFor(SeatOf(p))]
    ensures Select(s, p).out.board == s.out.board
    ensures Select(s, p) == s.(selected := p, out := Select(s, p).out)
  {
  }

  /** The player after `p`: red, yellow, blue, red again; nobody selected counts as blue. */
  function NextPlayer(p: int): int {
    if p == 1 then 2 else if p == 2 then 3 else 1
  }

  /** `select_next_player()` */
  function SelectNextPlayer(s: MState): MState {
    Select(s, NextPlayer(s.selected))
  }

  /**
   * `select_next_player` goes 1 -> 2 -> 3 -> 1 and selects red when nobody
   * is selected; three turns bring the selection back to the same player.
   */
  lemma SelectNextCycles(s: MState)
    requires Valid(s)
    ensures SelectNextPlayer(s).selected == (if s.selected == 1 then 2 else if s.selected == 2 then 3 else 1)
    ensures IsPlayer(s.selected) ==>
      SelectNextPlayer(SelectNextPlayer(SelectNextPlayer(s))).selected == s.selected
    ensures Valid(SelectNextPlayer(s))
  {
  }

  // ---------------------------------------------------------------------------
  // Scores and totals of the selected player
  // ---------------------------------------------------------------------------

  /** `get_score()`: 0 when nobody is selected. */
  function GetScore(s: MState): int
    requires Valid(s)
  {
    if IsPlayer(s.selected) then s.scores[s.selected - 1] else 0
  }

  /** `set_score(v)`: update the selected player's score and tell their display and the letterboard. */
  function SetScore(s: MState, v: int): MState
    requires Valid(s)
  {
    if IsPlayer(s.selected) then
      var p := s.selected;
      s.(scores := s.scores[p - 1 := v], out := ToLetters(ToPlayer(s.out, p, Score(v)), ScoreFor(SeatOf(p), v)))
    else s
  }

  /** `add_score(v)` */
  function AddScore(s: MState, v: int): MState
    requires Valid(s)
  {
    SetScore(s, GetScore(s) + v)
  }

  /** `get_total()`: 0 when nobody is selected. */
  function GetTotal(s: MState): int
    requires Valid(s)
  {
    if IsPlayer(s.selected) then s.totals[s.selected - 1] else 0
  }

  /** `set_total(v)` */
  function SetTotal(s: MState, v: int): MState
    requires Valid(s)
  {
    if IsPlayer(s.selected) then
      var p := s.selected;
      s.(totals := s.totals[p - 1 := v], out := ToLetters(ToPlayer(s.out, p, Total(v)), TotalFor(SeatOf(p), v)))
    else s
  }

  /** `add_total(v)` */
  function AddTotal(s: MState, v: int): MState
    requires Valid(s)
  {
    SetTotal(s, GetTotal(s) + v)
  }

  /**
   * With nobody selected a score reads as 0 and setting one changes nothing
   * and sends nothing. With a player selected, setting a score changes that
   * player's score alone, reads back, and is announced on their display and
   * the letterboard.
   */
  lemma SetScoreEffect(s: MState, v: int)
    requires Valid(s)
    ensures Valid(SetScore(s, v))
    ensures s.selected == 0 ==> GetScore(s) == 0 && SetScore(s, v) == s
    ensures IsPlayer(s.selected) ==>
      var p, r := s.selected, SetScore(s, v);
      && GetScore(r) == v
      && r.scores[p - 1] == v
      && (forall q :: IsPlayer(q) && q != p ==> r.scores[q - 1] == s.scores[q - 1])
      && PlayerOut(r.out, p) == PlayerOut(s.out, p) + [Score(v)]
      && (forall q :: IsPlayer(q) && q != p ==> PlayerOut(r.out, q) == PlayerOut(s.out, q))
      && r.out.letters == s.out.letters + [ScoreFor(SeatOf(p), v)]
      && r.out.board == s.out.board
      && r == s.(scores := r.scores, out := r.out)
  {
  }

  /** The same for game totals. */
  lemma SetTotalEffect(s: MState, v: int)
    requires Valid(s)
    ensures Valid(SetTotal(s, v))
    ensures s.selected == 0 ==> GetTotal(s) == 0 && SetTotal(s, v) == s
    ensures IsPlayer(s.selected) ==>
      var p, r := s.selected, SetTotal(s, v);
      && GetTotal(r) == v
      && r.totals[p - 1] == v
      && (forall q :: IsPlayer(q) && q != p ==> r.totals[q - 1] == s.totals[q - 1])
      && PlayerOut(r.out, p) == PlayerOut(s.out, p) + [Total(v)]
      && (forall q :: IsPlayer(q) && q != p ==> PlayerOut(r.out, q) == PlayerOut(s.out, q))
      && r.out.letters == s.out.letters + [TotalFor(SeatOf(p), v)]
      && r.out.board == s.out.board
      && r == s.(totals := r.totals, out := r.out)
  {
  }

  /** Adding to the score of a selected player raises it by exactly that much. */
  lemma AddScoreAdds(s: MState, v: int)
    requires Valid(s) && IsPlayer(s.selected)
    ensures GetScore(AddScore(s, v)) == GetScore(s) + v
    ensures AddScore(s, v).scores == s.scores[s.selected - 1 := s.scores[s.selected - 1] + v]
  {
    SetScoreEffect(s, GetScore(s) + v);
  }

  /** `bankrupt()` */
  function Bankrupt(s: MState): MState
    requires Valid(s)
  {
    SetScore(s, 0)
  }

  /** Bankrupt zeroes the selected player's score and no other; with nobody selected it does nothing. */
  lemma BankruptEffect(s: MState)
    requires Valid(s)
    ensures IsPlayer(s.selected) ==> Bankrupt(s).scores == s.scores[s.selected - 1 := 0]
    ensures s.selected == 0 ==> Bankrupt(s) == s
    ensures Bankrupt(s).totals == s.totals && Bankrupt(s).selected == s.selected
  {
    SetScoreEffect(s, 0);
  }

  /** The scores of players 1 to `n` set to 0 one after the other, as the loop of `bank_score` does. */
  function ZeroScoresThrough(s: MState, n: int): (r: MState)
    requires Valid(s) && 0 <= n <= 3
    ensures Valid(r)
    decreases n
  {
    if n == 0 then s
    else SetScore(ZeroScoresThrough(s, n - 1).(selected := n), 0)
  }

  /** `bank_score()`: bank the selected score, zero every score, restore the selection. */
  function BankScore(s: MState): MState
    requires Valid(s)
  {
    ZeroScoresThrough(AddTotal(s, GetScore(s)), 3).(selected := s.selected)
  }

  /** `n` zeros. */
  function Zeros(n: nat): (r: seq<int>)
    ensures |r| == n && forall i :: 0 <= i < n ==> r[i] == 0
  {
    if n == 0 then [] else Zeros(n - 1) + [0]
  }

  /** After the loop has reached player `n`, the first `n` scores are 0 and only scores and messages changed. */
  lemma {:induction false} ZeroScoresThroughEffect(s: MState, n: int)
    requires Valid(s) && 0 <= n <= 3
    ensures var r := ZeroScoresThrough(s, n);
      && r.scores == Zeros(n) + s.scores[n..]
      && r == s.(selected := r.selected, scores := r.scores, out := r.out)
    decreases n
  {
    if n > 0 {
      ZeroScoresThroughEffect(s, n - 1);
      var before := ZeroScoresThrough(s, n - 1);
      assert before.scores[n - 1 := 0] == Zeros(n) + s.scores[n..];
    } else {
      assert s.scores[0..] == s.scores;
    }
  }

  /**
   * Banking adds the selected player's score to their total and no other
   * total, sets all three scores to 0, and keeps the selection; with nobody
   * selected no total changes.
   */
  lemma BankScoreEffect(s: MState)
    requires Valid(s)
    ensures var r := BankScore(s);
      && Valid(r)
      && r.scores == [0, 0, 0]
      && r.selected == s.selected
      && (IsPlayer(s.selected) ==>
            r.totals == s.totals[s.selected - 1 := s.totals[s.selected - 1] + s.scores[s.selected - 1]])
      && (s.selected == 0 ==> r.totals == s.totals)
      && r == s.(scores := r.scores, totals := r.totals, out := r.out)
  {
    var banked := AddTotal(s, GetScore(s));
    ZeroScoresThroughEffect(banked, 3);
    var r := BankScore(s);
    assert Zeros(3) + banked.scores[3..] == [0, 0, 0];
  }

  // ---------------------------------------------------------------------------
  // Letters
  // ---------------------------------------------------------------------------

  /** `get_value()`: the custom cash value when one is typed in, the spinner's otherwise. */
  function GetValue(s: MState): int {
    match s.customValue
    case Some(v) => v
    case None => s.presetValue
  }

  /** `guess_letter()` opens the letter prompt only with a player selected and a nonzero value. */
  predicate CanGuess(s: MState) {
    s.selected != 0 && GetValue(s) != 0
  }

  /** `letter.lower() in 'aeiou'` */
  predicate IsVowel(letter: string) {
    IsSubstring(Lower(letter), Vowels)
  }

  /**
   * `guessed_letter(letter)`: a vowel costs `vowel_price` and is refused when
   * the selected player cannot pay; a letter that goes through is marked
   * unavailable, sent to the puzzleboard and removed from the letterboard.
   */
  function GuessedLetter(s: MState, letter: string): MState
    requires Valid(s)
  {
    if IsVowel(letter) && GetScore(s) < s.vowelPrice then s
    else
      var paid := if IsVowel(letter) then AddScore(s, -s.vowelPrice) else s;
      paid.(unavailable := paid.unavailable + [Lower(letter)],
            out := ToLetters(ToBoard(paid.out, Letter(letter)), RemoveLetter(letter)))
  }

  /** A vowel the selected player cannot afford changes nothing and sends nothing. */
  lemma UnaffordableVowel(s: MState, letter: string)
    requires Valid(s) && IsVowel(letter) && GetScore(s) < s.vowelPrice
    ensures GuessedLetter(s, letter) == s
  {
  }

  /**
   * Any other guess debits exactly the vowel price for a vowel (from the
   * selected player, if any), appends the lower-cased letter to the letters
   * called, sends it to the puzzleboard and removes it from the letterboard;
   * nothing else changes.
   */
  lemma GuessedLetterEffect(s: MState, letter: string)
    requires Valid(s) && !(IsVowel(letter) && GetScore(s) < s.vowelPrice)
    ensures var r := GuessedLetter(s, letter);
      && Valid(r)
      && r.unavailable == s.unavailable + [Lower(letter)]
      && r.out.board == s.out.board + [Letter(letter)]
      && (IsVowel(letter) && IsPlayer(s.selected) ==>
            r.scores == s.scores[s.selected - 1 := s.scores[s.selected - 1] - s.vowelPrice])
      && (!IsVowel(letter) || s.selected == 0 ==> r.scores == s.scores)
      && r.out.letters ==
           (if IsVowel(letter) && IsPlayer(s.selected)
            then s.out.letters + [ScoreFor(SeatOf(s.selected), s.scores[s.selected - 1] - s.vowelPrice)]
            else s.out.letters) + [RemoveLetter(letter)]
      && (forall p :: IsPlayer(p) ==>
            PlayerOut(r.out, p) ==
            PlayerOut(s.out, p) + (if IsVowel(letter) && p == s.selected then [Score(s.scores[p - 1] - s.vowelPrice)] else []))
      && r == s.(scores := r.scores, unavailable := r.unavailable, out := r.out)
  {
    if IsVowel(letter) {
      SetScoreEffect(s, GetScore(s) - s.vowelPrice);
    }
  }

  /** A consonant guess never costs anything, whatever the score. */
  lemma ConsonantIsFree(s: MState, letter: string)
    requires Valid(s) && !IsVowel(letter)
    ensures GuessedLetter(s, letter).scores == s.scores
    ensures GuessedLetter(s, letter).unavailable == s.unavailable + [Lower(letter)]
  {
  }

  /**
   * `correct_letter((letter, matches))`: a consonant earns `matches` times
   * the cash value; the custom value box is emptied either way.
   */
  function CorrectLetter(s: MState, letter: string, matches: int): MState
    requires Valid(s)
  {
    var credited := if !IsVowel(letter) then AddScore(s, matches * GetValue(s)) else s;
    credited.(customValue := None)
  }

  /**
   * A consonant adds `matches` times the value to the selected player's
   * score, a vowel leaves every score alone, and afterwards the value is
   * the spinner's again.
   */
  lemma CorrectLetterEffect(s: MState, letter: string, matches: int)
    requires Valid(s)
    ensures var r := CorrectLetter(s, letter, matches);
      && Valid(r)
      && r.customValue == None && GetValue(r) == s.presetValue
      && (!IsVowel(letter) && IsPlayer(s.selected) ==>
            r.scores == s.scores[s.selected - 1 := s.scores[s.selected - 1] + matches * GetValue(s)])
      && (IsVowel(letter) || s.selected == 0 ==> r.scores == s.scores)
      && (!IsVowel(letter) && IsPlayer(s.selected) ==>
            var p, v := s.selected, s.scores[s.selected - 1] + matches * GetValue(s);
            && PlayerOut(r.out, p) == PlayerOut(s.out, p) + [Score(v)]
            && (forall q :: IsPlayer(q) && q != p ==> PlayerOut(r.out, q) == PlayerOut(s.out, q))
            && r.out.letters == s.out.letters + [ScoreFor(SeatOf(p), v)]
            && r.out.board == s.out.board)
      && (IsVowel(letter) || s.selected == 0 ==> r.out == s.out)
      && r == s.(scores := r.scores, customValue := None, out := r.out)
  {
    if !IsVowel(letter) {
      SetScoreEffect(s, GetScore(s) + matches * GetValue(s));
    }
  }

  /** `lose_turn()` */
  function LoseTurn(s: MState): MState {
    SelectNextPlayer(s)
  }

  // ---------------------------------------------------------------------------
  // Tossups
  // ---------------------------------------------------------------------------

  /** The players who have rung in, as a set. */
  function DoneSet(done: seq<int>): set<int> {
    set p | p in done
  }

  /**
   * `tossup(player)`, with 0 standing for `None`: a player rings in at most
   * once per puzzle; a running tossup is paused (selecting the player who
   * rang in), a paused one is restarted unless all three players are done.
   */
  function Tossup(s: MState, player: int): MState {
    if player != 0 && player in s.playersDone then s
    else
      var rung := if player != 0 then s.(playersDone := s.playersDone + [player]) else s;
      if rung.tossupRunning then
        var paused := rung.(out := ToBoard(rung.out, PauseTossup), buzzers := false);
        var chosen := if IsPlayer(player) then Select(paused, player) else paused;
        chosen.(tossupRunning := false)
      else if DoneSet(rung.playersDone) == {1, 2, 3} then rung
      else rung.(out := StopAllFlashing(ToBoard(rung.out, Command.Tossup)), buzzers := true, tossupRunning := true)
  }

  /** A player who already rang in cannot ring in again. */
  lemma RepeatBuzzIgnored(s: MState, player: int)
    requires player != 0 && player in s.playersDone
    ensures Tossup(s, player) == s
  {
  }

  /** Once all three players are done, no tossup starts: nothing is sent and it stays stopped. */
  lemma NoTossupWhenAllDone(s: MState, player: int)
    requires !s.tossupRunning
    requires !(player != 0 && player in s.playersDone)
    requires DoneSet(s.playersDone + (if player != 0 then [player] else [])) == {1, 2, 3}
    ensures !Tossup(s, player).tossupRunning
    ensures Tossup(s, player).out == s.out
    ensures Tossup(s, player).selected == s.selected
  {
    if player == 0 {
      assert s.playersDone + [] == s.playersDone;
    }
  }

  /**
   * Every other call flips `tossup_running` exactly once: a running tossup is
   * paused, and the player who rang in is selected (with the messages of a
   * selection); a stopped one starts and the displays stop flashing. Scores,
   * totals, letters called, the puzzle and the settings never change.
   */
  lemma TossupToggles(s: MState, player: int)
    requires !(player != 0 && player in s.playersDone)
    requires !(!s.tossupRunning && DoneSet(s.playersDone + (if player != 0 then [player] else [])) == {1, 2, 3})
    ensures var r := Tossup(s, player);
      && r.tossupRunning == !s.tossupRunning
      && r.buzzers == !s.tossupRunning
      && r.playersDone == s.playersDone + (if player != 0 then [player] else [])
      && (s.tossupRunning ==> r.out.board == s.out.board + [PauseTossup])
      && (s.tossupRunning && IsPlayer(player) ==> r.selected == player)
      && (s.tossupRunning && !IsPlayer(player) ==> r.selected == s.selected)
      && (!s.tossupRunning ==> r.out.board == s.out.board + [Command.Tossup] && r.selected == s.selected)
      && (!s.tossupRunning ==>
            && (forall p :: IsPlayer(p) ==> PlayerOut(r.out, p) == PlayerOut(s.out, p) + [StopFlash])
            && r.out.letters == s.out.letters + [StopFlashFor(Red), StopFlashFor(Yellow), StopFlashFor(Blue)])
      && (s.tossupRunning && IsPlayer(player) ==>
            && PlayerOut(r.out, player) == PlayerOut(s.out, player) + [StopFlash, Flash]
            && (forall q :: IsPlayer(q) && q != player ==> PlayerOut(r.out, q) == PlayerOut(s.out, q) + [StopFlash])
            && r.out.letters ==
               s.out.letters + [StopFlashFor(Red), StopFlashFor(Yellow), StopFlashFor(Blue), FlashFor(SeatOf(player))])
      && (s.tossupRunning && !IsPlayer(player) ==>
            r.out.red == s.out.red && r.out.yellow == s.out.yellow && r.out.blue == s.out.blue &&
            r.out.letters == s.out.letters)
      && r == s.(tossupRunning := r.tossupRunning, buzzers := r.buzzers, playersDone := r.playersDone,
                 selected := r.selected, out := r.out)
  {
    if s.tossupRunning && IsPlayer(player) {
      var rung := if player != 0 then s.(playersDone := s.playersDone + [player]) else s;
      SelectEffect(rung.(out := ToBoard(rung.out, PauseTossup), buzzers := false), player);
    }
    if player == 0 {
      assert s.playersDone + [] == s.playersDone;
    }
  }

  // ---------------------------------------------------------------------------
  // Puzzles and settings
  // ---------------------------------------------------------------------------

  /**
   * `load_puzzle(puzzle)`: pause a running tossup, forget the letters called
   * and the players who rang in, send the puzzle to the board and reload the
   * letterboard.
   */
  function LoadPuzzle(s: MState, p: Puzzle): MState {
    var stopped := if s.tossupRunning then Tossup(s, 0) else s;
    stopped.(unavailable := [], out := ToLetters(ToBoard(stopped.out, Load(p)), Reload), playersDone := [])
  }

  /**
   * After a load no letter is unavailable, nobody has rung in and no tossup
   * runs; the board hears the load last, after a pause if a tossup ran.
   */
  lemma LoadPuzzleResets(s: MState, p: Puzzle)
    ensures var r := LoadPuzzle(s, p);
      && r.unavailable == [] && r.playersDone == [] && !r.tossupRunning
      && r.out.board == s.out.board + (if s.tossupRunning then [PauseTossup] else []) + [Load(p)]
      && r.out.letters == s.out.letters + [Reload]
      && r.scores == s.scores && r.totals == s.totals && r.selected == s.selected
  {
    if !s.tossupRunning {
      assert s.out.board + [] == s.out.board;
    }
  }

  /** `' ' * n` */
  function Spaces(n: nat): (r: string)
    ensures |r| == n && forall i :: 0 <= i < n ==> r[i] == ' '
  {
    if n == 0 then "" else Spaces(n - 1) + " "
  }

  /** The puzzle `clear_puzzle` loads: no category, no clue, 52 spaces. */
  function BlankPuzzle(): Puzzle {
    Puzzle("", "", Spaces(52))
  }

  /** `clear_puzzle()` */
  function ClearPuzzle(s: MState): MState {
    LoadPuzzle(s, BlankPuzzle())
  }

  /**
   * The `puzzle_loaded` reply the manager polls for: remember the clue and the
   * puzzle text with every whitespace run collapsed to one space.
   */
  function ReceivePuzzle(s: MState, p: Puzzle): MState {
    s.(puzzleString := Collapse(p.text), puzzleClue := p.clue)
  }

  /**
   * The stored text keeps the puzzle's characters in order with single spaces
   * between words and none at the ends, and receiving it again changes nothing.
   */
  lemma ReceivePuzzleShape(s: MState, p: Puzzle)
    ensures NonSpace(ReceivePuzzle(s, p).puzzleString) == NonSpace(p.text)
    ensures SingleSpaced(ReceivePuzzle(s, p).puzzleString)
    ensures var r := ReceivePuzzle(s, p);
      ReceivePuzzle(r, p.(text := r.puzzleString)) == r
  {
    CollapseShape(p.text);
    CollapseIdempotent(p.text);
  }

  /** A value stored in the settings file: a number, or text such as `''`. */
  datatype Stored = StoredInt(n: int) | StoredText(t: string)

  /** `values.default_vowel_price` */
  const DefaultVowelPrice := 250

  /** `int(settings.get('vowel_price', ''))`, with the default where `int` raises `ValueError`. */
  function VowelPriceSetting(stored: Option<Stored>): int {
    match stored
    case None => DefaultVowelPrice
    case Some(StoredInt(n)) => n
    case Some(StoredText(t)) => match ParseInt(t) { case Some(n) => n case None => DefaultVowelPrice }
  }

  /** `load_settings()` as far as the vowel price goes. */
  function LoadSettings(s: MState, stored: Option<Stored>): MState {
    s.(vowelPrice := VowelPriceSetting(stored))
  }

  /**
   * A stored number, or its decimal text, becomes the vowel price; a missing
   * entry or text that is not an integer gives 250.
   */
  lemma LoadSettingsFallback(s: MState, stored: Option<Stored>)
    ensures stored == None ==> LoadSettings(s, stored).vowelPrice == 250
    ensures stored.Some? && stored.value.StoredInt? ==> LoadSettings(s, stored).vowelPrice == stored.value.n
    ensures stored.Some? && stored.value.StoredText? && ParseInt(stored.value.t) == None ==>
      LoadSettings(s, stored).vowelPrice == 250
    ensures forall n :: LoadSettings(s, Some(StoredText(Show(n)))).vowelPrice == n
  {
    forall n ensures LoadSettings(s, Some(StoredText(Show(n)))).vowelPrice == n {
      ParseShow(n);
    }
  }

  /** `reveal_puzzle()` */
  function RevealPuzzle(s: MState): MState {
    s.(out := StopAllFlashing(ToBoard(s.out, Reveal)))
  }

  /** `exit_other_apps()`: every other process is told to stop. */
  function ExitOtherApps(s: MState): MState {
    s.(out := Outboxes(s.out.board + [Exit], s.out.red + [Exit], s.out.yellow + [Exit],
                       s.out.blue + [Exit], s.out.letters + [ExitBoard]))
  }

  /**
   * The state `ManagerLayout.__init__` builds: nobody selected, nothing
   * called, no tossup, no puzzle, the single tossup button, and the vowel
   * price from the settings. The score displays start at 0.
   */
  function Start(stored: Option<Stored>, preset: int, out: Outboxes): (r: MState)
    ensures Valid(r) && r.selected == 0 && r.unavailable == [] && !r.tossupRunning && r.playersDone == []
  {
    LoadSettings(MState(0, [0, 0, 0], [0, 0, 0], [], false, [], false, "", "", DefaultVowelPrice, None, preset, out), stored)
  }
}
