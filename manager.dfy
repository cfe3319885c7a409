/**
 * `ManagerLayout`: the host's console as the object the game mutates. The
 * three player buttons' scores and totals sit in two arrays, the other
 * fields are the layout's own, and every `put` goes to one of the five
 * `Channel`s it was built with. `State()` reads all of it as a `Turn.MState`,
 * and every method is proved to move it exactly as the matching function of
 * module Turn does.
 */
module Manager {
  import opened Options
  import opened Text
  import opened Channels
  import Turn
  import Grid
  import Reveal

  class ManagerLayout {
    const puzzleQueue: CommQueue
    const redQ: Channel
    const ylwQ: Channel
    const bluQ: Channel
    const lettersQ: Channel
    /** `btn_red.score`, `btn_ylw.score`, `btn_blu.score` */
    const scores: array<int>
    /** `btn_red.total`, `btn_ylw.total`, `btn_blu.total` */
    const totals: array<int>
    var selected: int
    var unavailable: seq<string>
    var tossupRunning: bool
    var playersDone: seq<int>
    /** Whether `tossup_layout` holds the three ring-in buttons rather than the start button. */
    var buzzers: bool
    var puzzleString: string
    var puzzleClue: string
    var vowelPrice: int
    /** The custom cash value box: `None` while it is empty. */
    var customValue: Option<int>
    /** The value the cash spinner shows. */
    var presetValue: int

    /** The five queues the manager writes are five different queues. */
    predicate Separate()
    {
      && puzzleQueue.a != redQ && puzzleQueue.a != ylwQ && puzzleQueue.a != bluQ && puzzleQueue.a != lettersQ
      && redQ != ylwQ && redQ != bluQ && redQ != lettersQ
      && ylwQ != bluQ && ylwQ != lettersQ
      && bluQ != lettersQ
    }

    ghost predicate Valid()
      reads this
    {
      && scores.Length == 3 && totals.Length == 3 && scores != totals
      && 0 <= selected <= 3
      && Separate()
    }

    ghost function State(): Turn.MState
      reads this, scores, totals, puzzleQueue.a, redQ, ylwQ, bluQ, lettersQ
    {
      Turn.MState(selected, scores[..], totals[..], unavailable, tossupRunning, playersDone, buzzers,
        puzzleString, puzzleClue, vowelPrice, customValue, presetValue,
        Turn.Outboxes(puzzleQueue.a.items, redQ.items, ylwQ.items, bluQ.items, lettersQ.items))
    }

    /** Player `p`'s score display queue. */
    function SeatQueue(p: int): Channel
      requires Turn.IsPlayer(p)
    {
      if p == 1 then redQ else if p == 2 then ylwQ else bluQ
    }

    /**
     * `ManagerLayout.__init__`: nobody selected, no letters called, no
     * tossup, no puzzle, the settings loaded, the single tossup button.
     */
    constructor (puzzleQueue: CommQueue, redQ: Channel, ylwQ: Channel, bluQ: Channel, lettersQ: Channel,
                 stored: Option<Turn.Stored>, preset: int)
      requires puzzleQueue.a != redQ && puzzleQueue.a != ylwQ && puzzleQueue.a != bluQ && puzzleQueue.a != lettersQ
      requires redQ != ylwQ && redQ != bluQ && redQ != lettersQ && ylwQ != bluQ && ylwQ != lettersQ && bluQ != lettersQ
      ensures Valid()
      ensures State() == Turn.Start(stored, preset,
        Turn.Outboxes(puzzleQueue.a.items, redQ.items, ylwQ.items, bluQ.items, lettersQ.items))
    {
      this.puzzleQueue := puzzleQueue;
      this.redQ := redQ;
      this.ylwQ := ylwQ;
      this.bluQ := bluQ;
      this.lettersQ := lettersQ;
      var s := new int[3];
      s[0], s[1], s[2] := 0, 0, 0;
      var t := new int[3];
      t[0], t[1], t[2] := 0, 0, 0;
      scores, totals := s, t;
      selected := 0;
      unavailable := [];
      tossupRunning := false;
      playersDone := [];
      puzzleString, puzzleClue := "", "";
      vowelPrice := Turn.DefaultVowelPrice;
      customValue, presetValue := None, preset;
      buzzers := false;   // tossup_button(True)
      new;
      assert scores[..] == [0, 0, 0] && totals[..] == [0, 0, 0];
      LoadSettings(stored);
    }

    /** `stop_all_flashing()` */
    method StopAllFlashing()
      requires Valid()
      modifies redQ, ylwQ, bluQ, lettersQ
      ensures State() == old(State()).(out := Turn.StopAllFlashing(old(State()).out))
    {
      redQ.Put(StopFlash);
      ylwQ.Put(StopFlash);
      bluQ.Put(StopFlash);
      lettersQ.Put(StopFlashFor(Red));
      lettersQ.Put(StopFlashFor(Yellow));
      lettersQ.Put(StopFlashFor(Blue));
    }

    /** `select_red()`, `select_yellow()` and `select_blue()` for player `p`. */
    method Select(p: int)
      requires Valid() && Turn.IsPlayer(p)
      modifies this`selected, redQ, ylwQ, bluQ, lettersQ
      ensures Valid()
      ensures State() == Turn.Select(old(State()), p)
    {
      selected := p;
      StopAllFlashing();
      SeatQueue(p).Put(Flash);
      lettersQ.Put(FlashFor(Turn.SeatOf(p)));
    }

    /** `select_next_player()` */
    method SelectNextPlayer()
      requires Valid()
      modifies this`selected, redQ, ylwQ, bluQ, lettersQ
      ensures Valid()
      ensures State() == Turn.SelectNextPlayer(old(State()))
    {
      if selected == 1 {
        Select(2);
      } else if selected == 2 {
        Select(3);
      } else {
        Select(1);
      }
    }

    /** `get_score()` */
    method GetScore() returns (score: int)
      requires Valid()
      ensures score == Turn.GetScore(State())
    {
      score := if Turn.IsPlayer(selected) then scores[selected - 1] else 0;
    }

    /** `set_score(v)` */
    method SetScore(v: int)
      requires Valid()
      modifies scores, redQ, ylwQ, bluQ, lettersQ
      ensures Valid()
      ensures State() == Turn.SetScore(old(State()), v)
    {
      if Turn.IsPlayer(selected) {
        scores[selected - 1] := v;
        SeatQueue(selected).Put(Score(v));
        lettersQ.Put(ScoreFor(Turn.SeatOf(selected), v));
      }
    }

    /** `add_score(v)` */
    method AddScore(v: int)
      requires Valid()
      modifies scores, redQ, ylwQ, bluQ, lettersQ
      ensures Valid()
      ensures State() == Turn.AddScore(old(State()), v)
    {
      var score := GetScore();
      SetScore(score + v);
    }

    /** `get_total()` */
    method GetTotal() returns (total: int)
      requires Valid()
      ensures total == Turn.GetTotal(State())
    {
      total := if Turn.IsPlayer(selected) then totals[selected - 1] else 0;
    }

    /** `set_total(v)` */
    method SetTotal(v: int)
      requires Valid()
      modifies totals, redQ, ylwQ, bluQ, lettersQ
      ensures Valid()
      ensures State() == Turn.SetTotal(old(State()), v)
    {
      if Turn.IsPlayer(selected) {
        totals[selected - 1] := v;
        SeatQueue(selected).Put(Total(v));
        lettersQ.Put(TotalFor(Turn.SeatOf(selected), v));
      }
    }

    /** `add_total(v)` */
    method AddTotal(v: int)
      requires Valid()
      modifies totals, redQ, ylwQ, bluQ, lettersQ
      ensures Valid()
      ensures State() == Turn.AddTotal(old(State()), v)
    {
      var total := GetTotal();
      SetTotal(total + v);
    }

    /** `get_value()` */
    method GetValue() returns (value: int)
      ensures value == Turn.GetValue(State())
    {
      value := match customValue case Some(v) => v case None => presetValue;
    }

    /** `guess_letter()`: whether the letter prompt opens (the prompt itself is not modelled). */
    method GuessLetter() returns (opens: bool)
      requires Valid()
      ensures opens == Turn.CanGuess(State())
    {
      var value := GetValue();
      opens := !(selected == 0 || value == 0);
    }

    /** The end of `guessed_letter`: mark the letter called, send it to the board, remove it from the letterboard. */
    method CallLetter(letter: string)
      requires Valid()
      modifies this`unavailable, puzzleQueue.a, lettersQ
      ensures Valid()
      ensures State() == old(State()).(unavailable := old(State()).unavailable + [Lower(letter)],
        out := Turn.ToLetters(Turn.ToBoard(old(State()).out, Letter(letter)), RemoveLetter(letter)))
    {
      unavailable := unavailable + [Lower(letter)];
      puzzleQueue.a.Put(Letter(letter));
      lettersQ.Put(RemoveLetter(letter));
    }

    /** `guessed_letter(letter)` */
    method GuessedLetter(letter: string)
      requires Valid()
      modifies this`unavailable, scores, puzzleQueue.a, redQ, ylwQ, bluQ, lettersQ
      ensures Valid()
      ensures State() == Turn.GuessedLetter(old(State()), letter)
    {
      if IsSubstring(Lower(letter), Vowels) {
        var score := GetScore();
        if score < vowelPrice {
          return;   // not enough money for a vowel
        }
        AddScore(-vowelPrice);
      }
      CallLetter(letter);
    }

    /** `correct_letter((letter, matches))`; the matches label and its timer are not modelled. */
    method CorrectLetter(letter: string, matches: int)
      requires Valid()
      modifies this`customValue, scores, redQ, ylwQ, bluQ, lettersQ
      ensures Valid()
      ensures State() == Turn.CorrectLetter(old(State()), letter, matches)
    {
      if !IsSubstring(Lower(letter), Vowels) {
        var value := GetValue();
        AddScore(matches * value);
      }
      customValue := None;
    }

    /** `lose_turn()` */
    method LoseTurn()
      requires Valid()
      modifies this`selected, redQ, ylwQ, bluQ, lettersQ
      ensures Valid()
      ensures State() == Turn.LoseTurn(old(State()))
    {
      SelectNextPlayer();
    }

    /** `bankrupt()` */
    method Bankrupt()
      requires Valid()
      modifies scores, redQ, ylwQ, bluQ, lettersQ
      ensures Valid()
      ensures State() == Turn.Bankrupt(old(State()))
    {
      SetScore(0);
    }

    /** The loop of `bank_score()`: select each player in turn and zero their score. */
    method ZeroScores()
      requires Valid()
      modifies this`selected, scores, redQ, ylwQ, bluQ, lettersQ
      ensures Valid()
      ensures State() == Turn.ZeroScoresThrough(old(State()), 3)
    {
      ghost var start := State();
      for i := 1 to 4
        invariant Valid()
        invariant State() == Turn.ZeroScoresThrough(start, i - 1)
      {
        ghost var before := State();
        selected := i;
        assert State() == before.(selected := i);
        SetScore(0);
      }
    }

    /** `bank_score()`: add the selected player's score to their total, zero every score, keep the selection. */
    method BankScore()
      requires Valid()
      modifies this`selected, scores, totals, redQ, ylwQ, bluQ, lettersQ
      ensures Valid()
      ensures State() == Turn.BankScore(old(State()))
    {
      var score := GetScore();
      AddTotal(score);
      var tmp := selected;
      ZeroScores();
      ghost var zeroed := State();
      selected := tmp;
      assert State() == zeroed.(selected := tmp);
    }

    /** `tossup(player)`, with 0 for `None`. */
    method Tossup(player: int)
      requires Valid()
      modifies this`playersDone, this`tossupRunning, this`buzzers, this`selected
      modifies puzzleQueue.a, redQ, ylwQ, bluQ, lettersQ
      ensures Valid()
      ensures State() == Turn.Tossup(old(State()), player)
    {
      if player != 0 {
        if player in playersDone {
          return;
        }
        playersDone := playersDone + [player];
      }
      if tossupRunning {
        puzzleQueue.a.Put(PauseTossup);
        buzzers := false;   // tossup_button(): the single start button again
        if Turn.IsPlayer(player) {
          Select(player);
        }
      } else {
        if Turn.DoneSet(playersDone) == {1, 2, 3} {
          return;
        }
        puzzleQueue.a.Put(Command.Tossup);
        buzzers := true;    // tossup_button(single_button_mode=False)
        StopAllFlashing();
      }
      tossupRunning := !tossupRunning;
    }

    /** `reveal_puzzle()` */
    method RevealPuzzle()
      requires Valid()
      modifies puzzleQueue.a, redQ, ylwQ, bluQ, lettersQ
      ensures Valid()
      ensures State() == Turn.RevealPuzzle(old(State()))
    {
      puzzleQueue.a.Put(Command.Reveal);
      StopAllFlashing();
    }

    /** `load_puzzle(puzzle)` */
    method LoadPuzzle(p: Puzzle)
      requires Valid()
      modifies this`playersDone, this`tossupRunning, this`buzzers, this`selected, this`unavailable
      modifies puzzleQueue.a, redQ, ylwQ, bluQ, lettersQ
      ensures Valid()
      ensures State() == Turn.LoadPuzzle(old(State()), p)
    {
      if tossupRunning {
        Tossup(0);
      }
      unavailable := [];
      puzzleQueue.a.Put(Load(p));
      lettersQ.Put(Reload);
      playersDone := [];
    }

    /** `clear_puzzle()` */
    method ClearPuzzle()
      requires Valid()
      modifies this`playersDone, this`tossupRunning, this`buzzers, this`selected, this`unavailable
      modifies puzzleQueue.a, redQ, ylwQ, bluQ, lettersQ
      ensures Valid()
      ensures State() == Turn.ClearPuzzle(old(State()))
    {
      LoadPuzzle(Turn.BlankPuzzle());
    }

    /** The `puzzle_loaded` branch of `check_queue`; the label text is not modelled. */
    method ReceivePuzzle(p: Puzzle)
      requires Valid()
      modifies this`puzzleString, this`puzzleClue
      ensures Valid()
      ensures State() == Turn.ReceivePuzzle(old(State()), p)
    {
      puzzleString := Collapse(p.text);
      puzzleClue := p.clue;
    }

    /** `load_settings()` with the stored `vowel_price` entry, if any. */
    method LoadSettings(stored: Option<Turn.Stored>)
      requires Valid()
      modifies this`vowelPrice
      ensures Valid()
      ensures State() == Turn.LoadSettings(old(State()), stored)
    {
      vowelPrice := Turn.VowelPriceSetting(stored);
    }

    /** `exit_other_apps()` */
    method ExitOtherApps()
      requires Valid()
      modifies puzzleQueue.a, redQ, ylwQ, bluQ, lettersQ
      ensures Valid()
      ensures State() == Turn.ExitOtherApps(old(State()))
    {
      puzzleQueue.a.Put(Exit);
      redQ.Put(Exit);
      ylwQ.Put(Exit);
      bluQ.Put(Exit);
      lettersQ.Put(ExitBoard);
    }
  }

  /**
   * What `clear_puzzle` sends leaves the puzzleboard empty once loaded: every
   * panel blank, hidden and green, and no hide scheduled.
   */
  lemma ClearedBoard(b: Reveal.Board)
    requires Reveal.WellShaped(b)
    ensures var l := Reveal.LoadCells(b, Turn.BlankPuzzle().text);
      && Reveal.WellShaped(l)
      && (forall a :: Grid.IsPanel(a) ==> l[a] == Reveal.Panel("", false, Reveal.Green))
      && Reveal.LoadTimers(l) == []
  {
    var text := Turn.BlankPuzzle().text;
    var l := Reveal.LoadCells(b, text);
    Reveal.LoadFillsPanels(b, text);
    Grid.PanelNumbering();
    forall a | 0 <= a < |l|
      ensures !Reveal.Wants(l[a], Reveal.WithText)
    {
      if Grid.IsPanel(a) {
        assert l[Grid.PanelAt(Grid.Rank(a))] == Reveal.Loaded(' ');
      }
    }
    Reveal.NoPicks(l, Grid.RevealOrder(), Reveal.WithText);
  }
}
