# Wheel of Fortune: puzzleboard and host console

This project models the two stateful parts of a Wheel of Fortune game
written in Python with Kivy, and proves properties of the model:

- **The puzzleboard** (`PuzzleLayout` in `puzzleboard.py`). It is a 6 x 16
  grid of widgets. 52 of them are letter panels. Each panel holds a text,
  a visible/hidden label and a face (green logo, white, blue).
  - `load_puzzle` fills the panels from a string.
  - `check_all` reveals the hidden panels that match a guessed letter, one
    after the other.
  - `reveal_all` shows the whole puzzle.
  - `save_puzzle` writes the grid back to a string.
  - The `Panel` keyboard handler lets the host type a puzzle in by hand.
- **The host console** (`ManagerLayout` in `manager.py`). It tracks:
  - the selected player and the three players' scores and game totals;
  - the letters already called;
  - the tossup state;
  - the puzzle text shown to the host;
  - the vowel price.

  Every action is announced on the queues that feed the puzzleboard, the
  three score displays and the letterboard.

How each part is modelled:

- **Puzzleboard grid.** The grid is an `array<Widget>` in the order the
  widgets were added (row by row). Kivy's `children[k]` is widget number
  `95 - k`.
- **Timers.** `Clock.schedule_once` appends a `Timer(at, action, cell)` to a
  sequence. `at` counts hundredths of a second, so the delays 0.5, 0.9 and
  0.05 s are exact integers.
- **Queues.** Every `queue.put` appends a `Command` to a `Channel`, a FIFO
  object. `CommQueue` pairs two channels.
- **Console state.** The console is the class `Manager.ManagerLayout`:
  - the scores and totals sit in two arrays;
  - every method is proved to move `State()` exactly as the matching pure
    function of module `Turn` does;
  - the game rules are then proved as lemmas about those functions.
- **Board specification.** The board methods are proved against the
  functions of module `Reveal`. The lemmas there cover:
  - the exact set of matches;
  - the scan order;
  - the staggered timer ranks;
  - idempotence of reveal and guess;
  - both round trips between `load_puzzle` and `save_puzzle`.

The modules are:

| module | file | role |
|---|---|---|
| Options | options.dfy | `Option`, Python's `None` |
| Text | text.dfy | ASCII `lower`/`upper`, `x in y` on strings, `' '.join(s.split())`, `int(s)` |
| Grid | grid.dfy | grid geometry, panel numbering, the scan orders |
| Channels | channels.dfy | commands, `Channel`, `CommQueue` |
| Reveal | reveal.dfy | the board as a value, the panel callbacks, timers, specification functions |
| PanelKeys | keys.dfy | `Panel._on_keyboard_down` as a function of the key |
| PuzzleBoard | puzzleboard.dfy | class `PuzzleLayout` |
| Turn | turn.dfy | the console state as a value, its operations and rules |
| Manager | manager.dfy | class `ManagerLayout` |

Two behaviours of the code that the model keeps:

- **Pending timers survive a load.** A new `load_puzzle` does not cancel
  timers that are still pending; it only appends new ones.
- **Two separate steps for guessing.** The guard on the selected player and
  on the cash value sits in `guess_letter`, which only opens the letter
  prompt. `guessed_letter` itself does not repeat that guard.

## Model

| member | source | states |
|---|---|---|
| Text.LowerFolds | manager.py:397 | after `s.lower()` no capital is left, lowering again changes nothing, and only capitals were changed |
| Text.UpperFolds | puzzleboard.py:393 | after `s.upper()` no small letter is left, upper-casing is idempotent, and `upper` and `lower` differ only in case: each one after the other gives what the second alone gives |
| Text.SubstringOfLeft | puzzleboard.py:561 | a substring of a string is a substring of that string with anything appended |
| Text.SubstringOfRight | puzzleboard.py:561 | a substring of a string is a substring of that string with anything prepended |
| Text.SingleCharSubstring | puzzleboard.py:311 | for a one-character string, Python's `x in y` is plain membership |
| Text.EmptySubstring | puzzleboard.py:311 | `'' in s` always holds |
| Text.Alphabet | puzzleboard.py:311 | the first `n` letters of the alphabet, in order |
| Text.LettersSpelled | puzzleboard.py:311 | the letter constant is `abcdefghijklmnopqrstuvwxyz` |
| Text.InLetters | puzzleboard.py:311 | a character is in the alphabet string exactly when it is `a`..`z` |
| Text.LetterTest | puzzleboard.py:477 | `c.lower() in 'abc…z'` holds exactly for ASCII letters of either case |
| Text.VowelTest | manager.py:397 | `c.lower() in 'aeiou'` holds exactly for the five vowels of either case |
| Text.WordLength | manager.py:130 | the length of the leading run of non-whitespace: no whitespace in it, whitespace (or the end) after it |
| Text.Split | manager.py:130 | `str.split()` yields non-empty words without whitespace |
| Text.SplitKeepsText | manager.py:130 | the words of `split()` are the non-whitespace characters of the string, in order |
| Text.JoinKeepsText | manager.py:130 | `' '.join` adds only spaces between the words |
| Text.JoinSingleSpaced | manager.py:130 | joining words with single spaces gives a single-spaced string with nothing at the ends |
| Text.CollapseShape | manager.py:130 | `' '.join(s.split())` keeps the non-space characters in order, single-spaced and trimmed |
| Text.SplitJoin | manager.py:130 | splitting a single-spaced join of words gives the words back |
| Text.CollapseIdempotent | manager.py:130 | collapsing whitespace twice is collapsing once |
| Text.Decimal | manager.py:481 | `str(n)` of a natural number is a non-empty string of digits |
| Text.Strip | manager.py:481 | `s.strip()` is the slice of `s` after its leading whitespace, with only whitespace after it, and it neither starts nor ends with whitespace |
| Text.ParseInt | manager.py:481 | `int(s)` fails exactly when the stripped text is neither digits nor a sign followed by digits |
| Text.DecimalValue | manager.py:481 | the digits of `str(n)` evaluate to `n` |
| Text.ParseDecimal | manager.py:481 | `int(str(n)) == n` for a natural number |
| Text.ParseNegative | manager.py:481 | `int` of a minus sign followed by the digits of `n` is `-n` |
| Text.ParseShow | manager.py:481 | `int(str(n)) == n` for every integer |
| Grid.PanelRuns | puzzleboard.py:206-241 | the widgets added as numbers 18..29, 33..46, 49..62 and 66..77 are the letter panels, and no others |
| Grid.PanelNumbering | puzzleboard.py:206-241 | the 52 panels, numbered in addition order, are in strictly increasing positions; `Rank` is the inverse numbering |
| Grid.RankStep | puzzleboard.py:399-408 | passing one widget raises the panel count exactly when that widget is a panel |
| Grid.RankMonotone | puzzleboard.py:399-408 | the panel count never decreases along the addition order |
| Grid.PanelsBelowSize | puzzleboard.py:206-241 | the number of panels among the first `m` widgets is `Rank(m)` |
| Grid.PanelTotal | puzzleboard.py:206-241 | rows 1..4 times columns 1..14 minus the four inner corners: exactly 52 panels |
| Grid.ReversedKeeps | puzzleboard.py:317 | `s[::-1][::-1] == s`, and `s[::-1]` holds the same elements as `s`, as many times each |
| Grid.AsAddedInvolution | puzzleboard.py:323 | `children[k]` is widget `95 - k` and widget `a` is `children[95 - a]`: translating twice gives the indices back, the grid's range is kept, and `a` is visited exactly when `children[95 - a]` is |
| Grid.CheckOrderAt | puzzleboard.py:313-317 | the `n`-th position `check_all` visits is row `n % 6` of column `15 - n / 6`: columns right to left, each top to bottom |
| Grid.RevealOrderAt | puzzleboard.py:412-416 | the `n`-th position `reveal_all`/`load_puzzle` visit is row `n % 6` of column `n / 6`: columns left to right, each top to bottom |
| Grid.CheckOrderVisitsGridOnce | puzzleboard.py:313-317 | `check_all`'s index list is a permutation of all 96 positions |
| Grid.RevealOrderVisitsGridOnce | puzzleboard.py:412-416 | the index list of `reveal_all` and `load_puzzle` is a permutation of all 96 positions |
| Grid.ScansInRange | puzzleboard.py:321-323 | every `children[i]` the scans read exists |
| Channels.Channel.constructor | manager.py:51 | a new queue is empty |
| Channels.Channel.Put | manager.py:316 | `put` appends the command at the back |
| Channels.Channel.TryGet | manager.py:128 | `get(block=False)` takes the oldest command, or reports an empty queue and changes nothing |
| Channels.CommQueue.constructor | manager.py:50-52 | two fresh, distinct, empty queues `a` and `b` |
| Reveal.Hidden | puzzleboard.py:488-490 | `hidden()`: the label is transparent, i.e. the panel's letter is not shown (used by `GuessMatchesExactly` and `RevealAllSchedules`) |
| Reveal.CheckLetter | puzzleboard.py:492-500 | `check_letter(letter)`: the panel's text equals the letter ignoring case (used by `GuessMatchesExactly`) |
| Reveal.Blue | puzzleboard.py:457-459 | `blue()`: the panel's face turns blue; its text and visibility stay |
| Reveal.ShowLetter | puzzleboard.py:469-472 | `show_letter()`: the face turns white and the letter becomes visible |
| Reveal.Hide | puzzleboard.py:474-486 | `hide()`: a blank panel turns green and hidden, a text found in the alphabet string turns white and hidden, and any other text is shown instead (properties in `HideCases`, `HideIdempotent`) |
| Reveal.HideOne | puzzleboard.py:474-486 | `hide()` on a one-character panel: a letter is hidden on white, anything else stays visible |
| Reveal.HideCases | puzzleboard.py:474-486 | `hide()` keeps the text: letters white and hidden, punctuation shown, a blank panel green and hidden |
| Reveal.HideIdempotent | puzzleboard.py:474-486 | hiding twice is hiding once |
| Reveal.FireAllAppend | puzzleboard.py:327-334 | running one more timer after a batch is running the longer batch |
| Reveal.StaggerAt | puzzleboard.py:425-428 | the `k`-th timer of a stagger fires at `step * (k + 1)` on the `k`-th cell |
| Reveal.CheckTimersAt | puzzleboard.py:327-334 | the `k`-th match turns blue at 0.5·(k+1) s and is revealed at 0.9·(k+1) s |
| Reveal.Picks | puzzleboard.py:321-337 | the scan picks only grid positions of the order whose widget the criterion wants |
| Reveal.PicksStep | puzzleboard.py:321-337 | scanning one more position adds it exactly when it is wanted |
| Reveal.StaggerStep | puzzleboard.py:425-428 | one more pick adds one more timer, at the next rank |
| Reveal.ColumnStep | puzzleboard.py:420-428 | one step of a column scan adds the next staggered timer for a wanted cell and nothing otherwise |
| Reveal.CheckTimersStep | puzzleboard.py:327-334 | one more match adds its blue timer and then its reveal timer |
| Reveal.CheckStep | puzzleboard.py:321-334 | one step of `check_all`'s scan: a match raises the count by one and adds its two timers |
| Reveal.PicksExactly | puzzleboard.py:321-337 | along an order without repeats, the picks are exactly the wanted positions of the order, each once |
| Reveal.DistinctCard | puzzleboard.py:321-337 | a list without repeats has as many elements as its set |
| Reveal.PicksAlongGrid | puzzleboard.py:321-337 | along a permutation of the grid, the picks are every wanted position once, so their count is the number of wanted panels |
| Reveal.GuessMatches | puzzleboard.py:311-337 | the positions `check_all` matches: along its scan, the hidden panels whose text equals the letter ignoring case (characterised by `GuessMatchesExactly`) |
| Reveal.GuessMatchesExactly | puzzleboard.py:321-339 | `check_all` matches exactly the hidden panels whose text equals the letter ignoring case, each once, and counts them |
| Reveal.NoPicks | puzzleboard.py:321-337 | a board where nothing is wanted schedules nothing |
| Reveal.FireStagger | puzzleboard.py:352-363 | running a stagger over distinct cells applies its action to exactly those cells |
| Reveal.FireCheckTimers | puzzleboard.py:327-334 | running `check_all`'s timers shows exactly the matched panels |
| Reveal.GuessTwiceMatchesNothing | puzzleboard.py:321-339 | once its timers have run, the same guess matches nothing |
| Reveal.RevealAllTimers | puzzleboard.py:341-363 | the timers `reveal_all` schedules: `show_letter` on each hidden non-blank panel along the column scan, 0.05 s apart (characterised by `RevealAllSchedules`) |
| Reveal.RevealAllSchedules | puzzleboard.py:341-363 | `reveal_all` schedules exactly the hidden non-blank panels, each once, by column, the `k`-th at 0.05·(k+1) s |
| Reveal.RevealAllIdempotent | puzzleboard.py:341-363 | once the reveals have run, a second `reveal_all` schedules nothing |
| Reveal.HideEverythingKeeps | puzzleboard.py:615-626 | `hide_all` hides every one-letter panel on white, keeps every text (so `save_puzzle` writes the same string) and the layout, and a second `hide_all` changes nothing |
| Reveal.LoadCells | puzzleboard.py:398-408 | the panels after `load_puzzle`'s `pop(0)` loop: the `k`-th panel in addition order takes the `k`-th character, hidden and green, and the panels past the end of the text keep what they had (characterised by `LoadFillsPanels`) |
| Reveal.LoadTimers | puzzleboard.py:420-428 | the `hide` timers a complete load schedules on the non-blank panels, 0.05 s apart (characterised by `LoadHidesLetters`) |
| Reveal.Serialise | puzzleboard.py:365-377 | what `save_puzzle` writes: each panel's text in addition order, a space for a blank panel (properties in `SaveLength`, `SaveThenLoad`, `LoadThenSave`) |
| Reveal.LoadFillsPanels | puzzleboard.py:399-408 | `load_puzzle` gives the `k`-th panel the `k`-th character, hidden and green (a space is blank), keeps the panels past the end of the text, and leaves other widgets alone |
| Reveal.LoadHidesLetters | puzzleboard.py:420-428 | after a full load, the panels scheduled for `hide` are exactly those whose character is not a space |
| Reveal.LoadThenHides | puzzleboard.py:420-428 | once a load's timers have run, the board is what `hide()` on every panel gives |
| Reveal.LoadedPiece | puzzleboard.py:367-372 | a panel loaded with a character saves back as that character |
| Reveal.SaveStep | puzzleboard.py:367-372 | saving one more widget appends its loaded character, or nothing for a non-panel |
| Reveal.LoadSavePrefix | puzzleboard.py:367-372 | the first `m` widgets of a loaded board save as the first `Rank(m)` characters |
| Reveal.LoadThenSave | puzzleboard.py:365-377 | round trip: saving right after loading `p` (at least 52 characters) gives `p[:52]` |
| Reveal.SavedPiece | puzzleboard.py:367-372 | a blank or one-character panel saves as one character that loads back into the same text |
| Reveal.SaveLength | puzzleboard.py:367-372 | a board of loadable texts saves to one character per panel |
| Reveal.SavePrefix | puzzleboard.py:367-372 | each panel's saved character sits at its rank and loads back into its text |
| Reveal.SaveThenLoad | puzzleboard.py:365-377 | round trip: loading what `save_puzzle` wrote restores every panel's text |
| Reveal.SameTextsSameSave | puzzleboard.py:367-372 | `save_puzzle` depends only on the panel texts |
| Reveal.FireAllKeepsTexts | puzzleboard.py:457-486 | the panel callbacks never change a text or which widgets are panels |
| Reveal.TimersKeepSave | puzzleboard.py:457-486 | running any timers never changes what `save_puzzle` writes |
| PanelKeys.KeyEntry | puzzleboard.py:535-576 | `Panel._on_keyboard_down`: the outcome of a key, in the source's order of tests (characterised by `KeyEntryCases`) |
| PanelKeys.TypedLetter | puzzleboard.py:561 | every small letter key is one of the keys that type themselves |
| PanelKeys.InDigits | puzzleboard.py:561 | every digit is in the digit row |
| PanelKeys.TypedDigit | puzzleboard.py:561 | every digit key is one of the keys that type themselves |
| PanelKeys.SubstringPair | puzzleboard.py:561 | a substring of length two or more puts its first two characters side by side in the text |
| PanelKeys.PairSplit | puzzleboard.py:561 | a neighbouring pair in a concatenation lies in one part or across the seam |
| PanelKeys.LetterPairs | puzzleboard.py:561 | neighbours in the alphabet string are consecutive letters |
| PanelKeys.NoLowercasePair | puzzleboard.py:561 | a string with no small letters has no pair that starts with one |
| PanelKeys.NoTypedPair | puzzleboard.py:561 | two small letters that are not alphabet neighbours never stand side by side in the typed keys |
| PanelKeys.NamedKeyNotTyped | puzzleboard.py:561-569 | a key name such as `backspace`, `enter`, `spacebar` is not caught by the typed-key test |
| PanelKeys.KeyTypesItself | puzzleboard.py:561-564 | a plain letter or digit key sets the panel to its upper case and moves on |
| PanelKeys.ShiftKeysAreSingle | puzzleboard.py:545-551 | every key of the shift table is one character |
| PanelKeys.NamedKeys | puzzleboard.py:565-576 | backspace clears and moves back, enter finishes the entry, the space bar only moves on |
| PanelKeys.TypedPunctuation | puzzleboard.py:561 | every punctuation key of the typed-key string passes the typed-key test |
| PanelKeys.ShiftedLetter | puzzleboard.py:552-563 | a letter has no shift symbol, so with or without shift it types its capital and moves on |
| PanelKeys.PunctuationKey | puzzleboard.py:560-563 | an unshifted punctuation key types itself and moves on |
| PanelKeys.KeyEntryCases | puzzleboard.py:552-576 | the whole key table: ctrl only opens dialogs; shift gives the US symbol of a key in the shift table; letters (shifted or not), digits and punctuation type themselves upper-cased, as does any other key that passes the typed-key test; backspace, enter and space bar as above; every other key does nothing |
| PuzzleBoard.InitialShape | puzzleboard.py:206-241 | the board `__init__` builds has a panel exactly where the grid puts one, each empty, hidden and green |
| PuzzleBoard.PuzzleLayout.constructor | puzzleboard.py:200-247 | the widgets are created row by row, by kind; no timers, no category |
| PuzzleBoard.PuzzleLayout.MatchTimers | puzzleboard.py:320-337 | the loop of `check_all` schedules exactly the blue/reveal timers of the scan's matches, and its counter is their number |
| PuzzleBoard.PuzzleLayout.CheckAll | puzzleboard.py:306-339 | a letter appends the match timers and sends `('matches', n)` with `n` the number of matches; anything else changes nothing |
| PuzzleBoard.PuzzleLayout.ColumnTimers | puzzleboard.py:352-363 | a column scan schedules one staggered timer for each wanted cell, in scan order |
| PuzzleBoard.PuzzleLayout.RevealAll | puzzleboard.py:341-363 | `reveal_all` appends exactly `Reveal.RevealAllTimers` of the board |
| PuzzleBoard.PuzzleLayout.SavePuzzle | puzzleboard.py:365-377 | the string built is `Reveal.Serialise` of the board |
| PuzzleBoard.PuzzleLayout.SetLetters | puzzleboard.py:398-408 | the `pop(0)` loop loads the panels as specified, and succeeds exactly when the text has 52 characters or more |
| PuzzleBoard.PuzzleLayout.LoadPuzzle | puzzleboard.py:386-432 | upper-cased category, `puzzle_loaded` sent, panels loaded, and the hide timers appended only on a complete load |
| PuzzleBoard.PuzzleLayout.RunTimer | puzzleboard.py:457-486 | a timer's callback `blue`, `show_letter` or `hide` changes only its own panel |
| PuzzleBoard.PuzzleLayout.HideAll | puzzleboard.py:615-626 | `hide_all` leaves the board as `hide()` on every panel |
| PuzzleBoard.PuzzleLayout.PanelKeyDown | puzzleboard.py:535-576 | the key's effect on the panel being edited: its new text, all panels hidden on enter, nothing otherwise |
| PuzzleBoard.PuzzleLayout.BoardKeyDown | puzzleboard.py:439-450 | ctrl+s saves, enter reveals everything, any other key without ctrl is a guess |
| Turn.ToPlayer | manager.py:245-260 | a message to one player's score display reaches that queue alone |
| Turn.StopAllFlashing | manager.py:360-369 | every score display and every letterboard seat is told to stop flashing; the board hears nothing |
| Turn.Select | manager.py:155-192 | `select_red`/`select_yellow`/`select_blue`: the selection, then stop all flashing and flash the player (properties in `SelectEffect`) |
| Turn.SelectEffect | manager.py:155-192 | selecting a player stops every display flashing and then flashes theirs; only the selection changes |
| Turn.SelectNextCycles | manager.py:194-206 | the next player after 1 is 2, after 2 is 3, and after 3 or nobody is 1; three steps return to the same player |
| Turn.SetScore | manager.py:245-260 | `set_score(v)`: with a player selected, their score becomes `v`, announced on their display and the letterboard; with nobody selected nothing happens (properties in `SetScoreEffect`) |
| Turn.SetScoreEffect | manager.py:233-260 | with nobody selected a score reads 0 and setting it does nothing; otherwise only the selected score changes, it reads back, and it is announced twice |
| Turn.SetTotalEffect | manager.py:268-295 | the same for game totals |
| Turn.AddScoreAdds | manager.py:262-266 | `add_score(v)` raises the selected score by exactly `v` |
| Turn.BankruptEffect | manager.py:444-448 | bankrupt zeroes the selected player's score and no other |
| Turn.ZeroScoresThrough | manager.py:459-462 | the loop of `bank_score` keeps three players and a valid selection |
| Turn.Zeros | manager.py:459-462 | `n` zeros |
| Turn.ZeroScoresThroughEffect | manager.py:459-462 | after the loop reaches player `n`, the first `n` scores are 0 and only scores, selection and messages changed |
| Turn.BankScore | manager.py:450-464 | `bank_score()`: add the score to the total, zero all three scores one player at a time, restore the selection (properties in `BankScoreEffect`) |
| Turn.BankScoreEffect | manager.py:450-464 | the selected total grows by the selected score, no other total changes, all scores become 0, the selection is restored |
| Turn.GuessedLetter | manager.py:391-405 | `guessed_letter(letter)`: an unaffordable vowel does nothing; otherwise a vowel is paid for, and the letter is called, sent to the board and removed from the letterboard (properties in `UnaffordableVowel`, `GuessedLetterEffect`, `ConsonantIsFree`) |
| Turn.UnaffordableVowel | manager.py:397-400 | a vowel the selected player cannot afford changes nothing and sends nothing |
| Turn.GuessedLetterEffect | manager.py:397-405 | otherwise a vowel costs the selected player exactly the vowel price, the lower-cased letter becomes unavailable, and the letter goes to the board; the letterboard gets the score announcement of a paid vowel and then `remove_letter`, the payer's display gets the new score, no other display hears anything, and nothing else changes |
| Turn.ConsonantIsFree | manager.py:397-405 | a consonant never costs anything and is always marked called |
| Turn.CorrectLetter | manager.py:420-429 | `correct_letter((letter, matches))`: credit a consonant, then empty the custom value box (properties in `CorrectLetterEffect`) |
| Turn.CorrectLetterEffect | manager.py:420-429 | a consonant adds matches × value to the selected score and announces the new score on that player's display and the letterboard; a vowel, or nobody selected, changes no score and sends nothing; the custom value is cleared and nothing else changes |
| Turn.Tossup | manager.py:329-358 | `tossup(player)`: a repeat ring-in is ignored; a running tossup is paused and the player selected; a stopped one starts unless all three are done (properties in `RepeatBuzzIgnored`, `NoTossupWhenAllDone`, `TossupToggles`) |
| Turn.RepeatBuzzIgnored | manager.py:336-338 | a player who already rang in cannot ring in again |
| Turn.NoTossupWhenAllDone | manager.py:351-353 | once all three players are done, no tossup starts and nothing is sent |
| Turn.TossupToggles | manager.py:336-358 | every other call flips `tossup_running` once: a running tossup pauses and selects the player who rang in, with the messages of a selection, or leaves the displays and letterboard alone when nobody rang in; a stopped one starts and every display and letterboard seat stops flashing; nothing but the tossup fields, the selection and the outboxes changes |
| Turn.LoadPuzzle | manager.py:309-318 | `load_puzzle(puzzle)`: pause a running tossup, forget the called letters and the ring-ins, send the puzzle and reload the letterboard (properties in `LoadPuzzleResets`) |
| Turn.LoadPuzzleResets | manager.py:309-318 | after a load nothing is called, nobody has rung in and no tossup runs; the board hears the pause first, if any, then the load |
| Turn.Spaces | manager.py:327 | `' ' * n` is `n` spaces |
| Turn.ReceivePuzzle | manager.py:129-131 | the `puzzle_loaded` reply: keep the clue and the puzzle text with whitespace runs collapsed (properties in `ReceivePuzzleShape`) |
| Turn.ReceivePuzzleShape | manager.py:129-131 | the stored puzzle text keeps the characters in order, single-spaced, and storing it again changes nothing |
| Turn.VowelPriceSetting | manager.py:480-483 | `int(settings.get('vowel_price', ''))`, or 250 where `int` raises (properties in `LoadSettingsFallback`) |
| Turn.LoadSettingsFallback | manager.py:480-483 | a stored number or its decimal text becomes the vowel price; a missing entry or non-numeric text gives 250 |
| Turn.Start | manager.py:83-101 | the initial state: nobody selected, nothing called, no tossup |
| Manager.ManagerLayout.constructor | manager.py:83-101 | the console starts in `Turn.Start` with the stored vowel price |
| Manager.ManagerLayout.StopAllFlashing | manager.py:360-369 | the six stop-flash messages are sent, nothing else changes |
| Manager.ManagerLayout.Select | manager.py:155-192 | the console moves as `Turn.Select` |
| Manager.ManagerLayout.SelectNextPlayer | manager.py:194-206 | the console moves as `Turn.SelectNextPlayer` |
| Manager.ManagerLayout.GetScore | manager.py:233-243 | the selected player's score, 0 with nobody selected |
| Manager.ManagerLayout.SetScore | manager.py:245-260 | the console moves as `Turn.SetScore` |
| Manager.ManagerLayout.AddScore | manager.py:262-266 | the console moves as `Turn.AddScore` |
| Manager.ManagerLayout.GetTotal | manager.py:268-278 | the selected player's total, 0 with nobody selected |
| Manager.ManagerLayout.SetTotal | manager.py:280-295 | the console moves as `Turn.SetTotal` |
| Manager.ManagerLayout.AddTotal | manager.py:297-301 | the console moves as `Turn.AddTotal` |
| Manager.ManagerLayout.GetValue | manager.py:407-418 | the custom cash value when one is typed in, the spinner's otherwise |
| Manager.ManagerLayout.GuessLetter | manager.py:378-389 | the letter prompt opens only with a player selected and a nonzero value |
| Manager.ManagerLayout.CallLetter | manager.py:403-405 | the lower-cased letter joins the called letters, the letter goes to the board and is removed from the letterboard; nothing else changes |
| Manager.ManagerLayout.GuessedLetter | manager.py:391-405 | the console moves as `Turn.GuessedLetter` |
| Manager.ManagerLayout.CorrectLetter | manager.py:420-429 | the console moves as `Turn.CorrectLetter` |
| Manager.ManagerLayout.LoseTurn | manager.py:437-442 | the console moves as `Turn.LoseTurn` |
| Manager.ManagerLayout.Bankrupt | manager.py:444-448 | the console moves as `Turn.Bankrupt` |
| Manager.ManagerLayout.ZeroScores | manager.py:459-462 | the loop of `bank_score` moves the console as `Turn.ZeroScoresThrough` for all three players |
| Manager.ManagerLayout.BankScore | manager.py:450-464 | the console moves as `Turn.BankScore` |
| Manager.ManagerLayout.Tossup | manager.py:329-358 | the console moves as `Turn.Tossup` |
| Manager.ManagerLayout.RevealPuzzle | manager.py:371-376 | `reveal` goes to the board, then every display stops flashing |
| Manager.ManagerLayout.LoadPuzzle | manager.py:309-318 | the console moves as `Turn.LoadPuzzle` |
| Manager.ManagerLayout.ClearPuzzle | manager.py:320-327 | the console moves as `Turn.ClearPuzzle`, a load of 52 spaces |
| Manager.ManagerLayout.ReceivePuzzle | manager.py:129-131 | the console moves as `Turn.ReceivePuzzle` |
| Manager.ManagerLayout.LoadSettings | manager.py:475-483 | the console moves as `Turn.LoadSettings` |
| Manager.ManagerLayout.ExitOtherApps | manager.py:495-501 | `exit` goes to the board and the three score displays, and the letterboard gets its own exit |
| Manager.ClearedBoard | manager.py:324-327 | the blank puzzle that `clear_puzzle` sends leaves every panel blank, hidden and green, with no hide scheduled |

## Left out

- Rendering and layout are not modelled. This covers `do_layout` and its
  floating-point aspect ratios, images, colours as RGBA tuples, the kv
  rules, `RotatedImage` and the splitter widgets. A panel's colour is the
  `Face` value, and its alpha is the `shown` flag.
- Real time is not modelled. Timers are kept in the order they were
  scheduled, with integer hundredths of a second. Nothing is modelled about
  when the event loop runs them, or about timers that overlap.
- `load_puzzle` and pending timers: a new load does not cancel timers still
  pending from an earlier puzzle, as in the code. What those timers then do
  to the new puzzle is modelled only by `Reveal.Fire`.
- A board without a queue is not modelled. The source skips the
  `matches` and `puzzle_loaded` sends when it has no queue; the model's
  board always has one.
- The console's game rules are not tied to the board end to end. The
  board sends `('matches', n)` with a bare count, while `correct_letter`
  unpacks a `(letter, count)` pair; in the source the mismatch raises
  inside the swallowing `except` of `check_queue`. `CorrectLetter` is
  modelled on its documented pair input.
- The polling loops (`check_queue` of both layouts) are not modelled. The
  model keeps only the `puzzle_loaded` branch, as `ReceivePuzzle`. The
  `tossup_timeout` branch answers a message the board code shown never
  sends.
- Keyboard focus and navigation are not modelled. This covers
  `bind_keyboard`, `_keyboard_closed`, `Panel.click`,
  `select_next`/`select_prev` (including the text `select_prev` clears on
  the panel it moves to), and `select_*` on touch.
  `PanelKeyDown` returns the move it would make.
- Dialogs are not modelled: the save, load and settings prompts, and the
  letter prompt of `guess_letter`. `BoardKeyDown` returns the text that
  ctrl+s would show. ctrl+o opens a dialog and changes nothing in the model.
- Player names, `update_name`, `selection_color`, `show_puzzle` and the
  `puzzle_label` texts are not modelled. This includes the matches label of
  `correct_letter` and its timer.
- Settings: `min_win` and the cash dropdown's list are not modelled. The
  file `vars.json` and `data_caching` are not part of this model. Their
  results are fields of the console:
  - `customValue` for the custom cash box;
  - `presetValue` for the spinner, standing for `str_to_int` of the box
    texts;
  - a `Stored` value for the `vowel_price` entry.
- Turn.VowelPriceSetting: only numbers and texts are modelled as stored
  values. A JSON float, `null` or list, and Python's `_` digit separators
  in `int()`, are left out.
- Text.Lower: ASCII only. Python's Unicode case mapping is left out.
- Text.Upper: ASCII only, for the same reason.
- Text.Strip: ASCII whitespace only. Unicode whitespace in `strip()` and
  `split()` is left out.
- Process launch and `multiprocessing` are not modelled. Queues are
  unbounded FIFOs owned by one process each; there is no concurrency.
- The letterboard and score display apps are not part of this model.
  Only what the console sends them is modelled.
