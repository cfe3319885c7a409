/**
 * `PuzzleLayout`: the puzzleboard as the object the game mutates. Its 96
 * widgets sit in an array in addition order, `Clock.schedule_once` appends
 * to `timers`, and the board writes its replies to the manager on `queue.b`.
 * Each method is proved against the functions of module Reveal.
 */
module PuzzleBoard {
  import opened Options
  import opened Text
  import opened Grid
  import opened Reveal
  import opened Channels
  import opened PanelKeys

  /** The widget `__init__` creates for a grid cell of the given kind. */
  function WidgetOf(k: Kind): Widget {
    match k
    case CornerImage => Corner
    case Spacer => Blank
    case LetterPanel => Panel("", false, Green)
  }

  /** The freshly built board is shaped like the grid, with every panel empty, hidden and green. */
  lemma InitialShape()
    ensures WellShaped(seq(Size, a => WidgetOf(KindAt(a / Cols, a % Cols))))
    ensures forall a :: IsPanel(a) ==> WidgetOf(KindAt(a / Cols, a % Cols)) == Panel("", false, Green)
  {
  }

  class PuzzleLayout {
    const queue: CommQueue
    /** The widgets in the order they were added; `children[k]` is `cells[Size - 1 - k]`. */
    const cells: array<Widget>
    /** The text of the category strip. */
    var category: string
    /** The callbacks handed to `Clock.schedule_once`, in the order they were scheduled. */
    var timers: seq<Timer>

    ghost predicate Valid()
      reads cells
    {
      cells.Length == Size && WellShaped(cells[..])
    }

    /** `PuzzleLayout.__init__`: rows 0..5, columns 0..15, row by row. */
    constructor (queue: CommQueue)
      ensures Valid() && fresh(cells)
      ensures cells[..] == seq(Size, a => WidgetOf(KindAt(a / Cols, a % Cols)))
      ensures this.queue == queue && category == "" && timers == []
    {
      this.queue := queue;
      category := "";
      timers := [];
      var grid := new Widget[Size];
      for i := 0 to Rows
        invariant forall a :: 0 <= a < Cols * i ==> grid[a] == WidgetOf(KindAt(a / Cols, a % Cols))
      {
        for j := 0 to Cols
          invariant forall a :: 0 <= a < Cols * i + j ==> grid[a] == WidgetOf(KindAt(a / Cols, a % Cols))
        {
          DivMod16(Cols * i + j, i, j);
          grid[Cols * i + j] := WidgetOf(KindAt(i, j));
        }
      }
      cells := grid;
      InitialShape();
    }

    /**
     * The scan of `check_all`: walking the `children` indices in `indices`, a
     * blue-then-reveal pair of timers for every hidden panel showing
     * `letter`, the `k`-th match at 0.5 * (k + 1) s and 0.9 * (k + 1) s;
     * `matches` counts them.
     */
    method MatchTimers(indices: seq<int>, letter: string) returns (matches: nat, scheduled: seq<Timer>)
      requires cells.Length == Size
      requires forall n :: 0 <= n < |indices| ==> 0 <= Added(indices[n]) < Size
      ensures scheduled == CheckTimers(Picks(cells[..], AsAdded(indices), Guess(letter)))
      ensures matches == |Picks(cells[..], AsAdded(indices), Guess(letter))|
    {
      ghost var order := AsAdded(indices);
      ghost var board := cells[..];
      matches := 0;
      scheduled := [];
      for n := 0 to |indices|
        invariant matches == |Picks(board, order[..n], Guess(letter))|
        invariant scheduled == CheckTimers(Picks(board, order[..n], Guess(letter)))
      {
        var a := Added(indices[n]);
        CheckStep(board, order, n, letter, scheduled, matches + 1);
        var w := cells[a];
        if Wants(w, Guess(letter)) {   // hidden() and check_letter(letter)
          scheduled := scheduled + [Timer(BlueStep * (matches + 1), TurnBlue, a), Timer(RevealStep * (matches + 1), ShowText, a)];
          matches := matches + 1;
        }
      }
      assert order[..|indices|] == order;
    }

    /**
     * `check_all(letter)`: for a letter, schedule the matches and report
     * their number to the manager; for anything else, do nothing.
     */
    method CheckAll(letter: string)
      requires Valid()
      modifies this`timers, queue.b
      ensures IsSubstring(Lower(letter), Letters) ==>
        && timers == old(timers) + CheckTimers(GuessMatches(cells[..], letter))
        && queue.b.items == old(queue.b.items) + [Matches(|GuessMatches(cells[..], letter)|)]
      ensures !IsSubstring(Lower(letter), Letters) ==>
        timers == old(timers) && queue.b.items == old(queue.b.items)
    {
      if IsSubstring(Lower(letter), Letters) {
        ScansInRange();
        var matches, scheduled := MatchTimers(CheckIndices(), letter);
        timers := timers + scheduled;
        queue.b.Put(Matches(matches));
      }
    }

    /**
     * The scan shared by `reveal_all` and `load_puzzle`: walking the
     * `children` indices in `indices`, one `act` timer for every cell `crit`
     * wants, the `k`-th at `step * (k + 1)` hundredths of a second.
     */
    method ColumnTimers(indices: seq<int>, crit: Criterion, step: nat, act: Action) returns (scheduled: seq<Timer>)
      requires cells.Length == Size
      requires forall n :: 0 <= n < |indices| ==> 0 <= Added(indices[n]) < Size
      ensures scheduled == Stagger(Picks(cells[..], AsAdded(indices), crit), step, act)
    {
      ghost var order := AsAdded(indices);
      ghost var board := cells[..];
      scheduled := [];
      for n := 0 to |indices|
        invariant scheduled == Stagger(Picks(board, order[..n], crit), step, act)
      {
        var a := Added(indices[n]);
        var k := |scheduled| + 1;   // the number of the next timer in the stagger
        ColumnStep(board, order, n, crit, step, act, scheduled, k);
        var w := cells[a];
        if Wants(w, crit) {
          scheduled := scheduled + [Timer(step * k, act, a)];
        }
      }
      assert order[..|indices|] == order;
    }

    /** `reveal_all()`: schedule a reveal for every hidden panel with text, left to right by column. */
    method RevealAll()
      requires Valid()
      modifies this`timers
      ensures timers == old(timers) + RevealAllTimers(cells[..])
    {
      ScansInRange();
      var scheduled := ColumnTimers(RevealIndices(), HiddenWithText, RevealAllStep, ShowText);   // hidden() and the text is not empty
      timers := timers + scheduled;
    }

    /**
     * `save_puzzle()`: the text of every panel in addition order, a space for
     * a blank one (the dialog that shows the string is not modelled).
     */
    method SavePuzzle() returns (puzzle: string)
      requires Valid()
      ensures puzzle == Serialise(cells[..])
    {
      puzzle := "";
      for a := 0 to cells.Length
        invariant puzzle == Serialise(cells[..a])
      {
        assert cells[..a + 1][..a] == cells[..a];
        var w := cells[a];
        if w.Panel? {
          puzzle := puzzle + if w.text != "" then w.text else " ";
        }
      }
      assert cells[..cells.Length] == cells[..];
    }

    /**
     * The letter loop of `load_puzzle`: each panel in addition order takes the
     * next character. `ok` is false when the characters ran out first, where
     * `pop(0)` raises and the rest of `load_puzzle` is skipped.
     */
    method SetLetters(text: string) returns (ok: bool)
      requires Valid()
      modifies cells
      ensures Valid()
      ensures cells[..] == LoadCells(old(cells[..]), text)
      ensures ok <==> |text| >= PanelCount
    {
      ghost var before := cells[..];
      var rest := text;
      for a := 0 to cells.Length
        invariant Rank(a) <= |text| && rest == text[Rank(a)..]
        invariant forall x :: 0 <= x < a ==> cells[x] == LoadCells(before, text)[x]
        invariant forall x :: a <= x < Size ==> cells[x] == before[x]
      {
        RankStep(a);
        if cells[a].Panel? {
          if rest == [] {
            forall x | a <= x < Size
              ensures cells[x] == LoadCells(before, text)[x]
            {
              RankMonotone(a, x);
            }
            PanelNumbering();
            assert cells[..] == LoadCells(before, text);
            return false;
          }
          cells[a] := Loaded(rest[0]);
          rest := rest[1..];
        }
      }
      assert cells[..] == LoadCells(before, text);
      assert Rank(Size) == PanelCount;
      ok := true;
    }

    /**
     * `load_puzzle(puzzle)`: show the category in upper case, tell the
     * manager, load the panels and schedule their hiding. With fewer than 52
     * characters the load stops with an error (`ok` false) after the panels
     * that got a character, and no hide is scheduled. Timers already pending
     * stay pending.
     */
    method LoadPuzzle(p: Puzzle) returns (ok: bool)
      requires Valid()
      modifies this, cells, queue.b
      ensures Valid()
      ensures category == Upper(p.category)
      ensures queue.b.items == old(queue.b.items) + [PuzzleLoaded(p)]
      ensures cells[..] == LoadCells(old(cells[..]), p.text)
      ensures ok <==> |p.text| >= PanelCount
      ensures ok ==> timers == old(timers) + LoadTimers(cells[..])
      ensures !ok ==> timers == old(timers)
    {
      category := Upper(p.category);
      queue.b.Put(PuzzleLoaded(p));
      ok := SetLetters(p.text);
      if ok {
        ScansInRange();
        var scheduled := ColumnTimers(RevealIndices(), WithText, LoadStep, HideText);   // the text is not empty
        timers := timers + scheduled;
      }
    }

    /** A scheduled callback runs: `blue`, `show_letter` or `hide` on its panel. */
    method RunTimer(t: Timer)
      requires Valid()
      modifies cells
      ensures Valid()
      ensures cells[..] == Fire(old(cells[..]), t)
    {
      if 0 <= t.cell < cells.Length {
        var w := cells[t.cell];
        if w.Panel? {
          match t.action
          case TurnBlue => cells[t.cell] := w.(face := BlueFace);
          case ShowText => cells[t.cell] := w.(face := White, shown := true);
          case HideText => cells[t.cell] := Hide(w);
        }
      }
    }

    /** `Panel.hide_all()`: `hide()` on every panel of the board. */
    method HideAll()
      requires Valid()
      modifies cells
      ensures Valid()
      ensures cells[..] == HideEverything(old(cells[..]))
    {
      ghost var before := cells[..];
      for a := 0 to cells.Length
        invariant forall x :: 0 <= x < a ==> cells[x] == HideEverything(before)[x]
        invariant forall x :: a <= x < Size ==> cells[x] == before[x]
      {
        if cells[a].Panel? {
          cells[a] := Hide(cells[a]);
        }
      }
      assert cells[..] == HideEverything(before);
    }

    /**
     * `Panel._on_keyboard_down` on the panel at `a`: typing sets its text,
     * backspace clears it, enter hides every panel. Moving to the next or
     * previous panel and the dialogs are not modelled.
     */
    method PanelKeyDown(a: int, key: string, modifiers: set<string>) returns (o: KeyOutcome)
      requires Valid() && IsPanel(a)
      modifies cells
      ensures Valid()
      ensures o == KeyEntry(key, modifiers)
      ensures o.Type? ==> cells[..] == old(cells[..])[a := old(cells[a]).(text := o.newText)]
      ensures o == FinishEntry ==> cells[..] == HideEverything(old(cells[..]))
      ensures !o.Type? && o != FinishEntry ==> cells[..] == old(cells[..])
    {
      o := KeyEntry(key, modifiers);
      if o.Type? {
        cells[a] := cells[a].(text := o.newText);
      } else if o == FinishEntry {
        HideAll();
      }
    }

    /**
     * `PuzzleLayout._on_keyboard_down`: ctrl+s saves (the text to save is
     * returned), enter reveals the whole puzzle, any other key without ctrl
     * is a guess.
     */
    method BoardKeyDown(key: string, modifiers: set<string>) returns (saved: Option<string>)
      requires Valid()
      modifies this`timers, queue.b
      ensures saved == if "ctrl" in modifiers && key == "s" then Some(Serialise(cells[..])) else None
      ensures "ctrl" in modifiers ==> timers == old(timers) && queue.b.items == old(queue.b.items)
      ensures "ctrl" !in modifiers && key == "enter" ==>
        timers == old(timers) + RevealAllTimers(cells[..]) && queue.b.items == old(queue.b.items)
      ensures "ctrl" !in modifiers && key != "enter" && IsSubstring(Lower(key), Letters) ==>
        && timers == old(timers) + CheckTimers(GuessMatches(cells[..], key))
        && queue.b.items == old(queue.b.items) + [Matches(|GuessMatches(cells[..], key)|)]
      ensures "ctrl" !in modifiers && key != "enter" && !IsSubstring(Lower(key), Letters) ==>
        timers == old(timers) && queue.b.items == old(queue.b.items)
    {
      saved := None;
      if "ctrl" in modifiers {
        if key == "s" {
          var s := SavePuzzle();
          saved := Some(s);
        }
      } else if key == "enter" {
        RevealAll();
      } else {
        CheckAll(key);
      }
    }
  }
}
