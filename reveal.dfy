/**
 * The puzzleboard as a value: the 96 widgets in addition order, what each
 * panel callback does to a panel, the timers the board schedules, and the
 * functions that say what `check_all`, `reveal_all`, `load_puzzle` and
 * `save_puzzle` compute. The class in puzzleboard.dfy is proved against them.
 */
module Reveal {
  import opened Text
  import opened Grid

  /** The panel image: `panel.png` (green logo), `panel_white.png`, `panel_blue.png`. */
  datatype Face = Green | White | BlueFace

  /**
   * A widget of the grid. A letter panel holds its label text, whether the
   * label is visible (its colour alpha is 1) and its image.
   */
  datatype Widget = Corner | Blank | Panel(text: string, shown: bool, face: Face)

  type Board = seq<Widget>

  /** Every position holds a panel exactly when the grid layout puts one there. */
  predicate WellShaped(b: Board) {
    |b| == Size && forall a :: 0 <= a < Size ==> (b[a].Panel? <==> IsPanel(a))
  }

  // ---------------------------------------------------------------------------
  // LetterLayout
  // ---------------------------------------------------------------------------

  /** `hidden()`: the label colour is fully transparent. */
  predicate Hidden(w: Widget)
    requires w.Panel?
  {
    !w.shown
  }

  /** `check_letter(letter)`: the panel text equals `letter`, ignoring case. */
  predicate CheckLetter(w: Widget, letter: string)
    requires w.Panel?
  {
    Lower(w.text) == Lower(letter)
  }

  /** `blue()` */
  function Blue(w: Widget): Widget
    requires w.Panel?
  {
    w.(face := BlueFace)
  }

  /** `show_letter()`: white panel, visible label. */
  function ShowLetter(w: Widget): Widget
    requires w.Panel?
  {
    w.(face := White, shown := true)
  }

  /** `hide()` */
  function Hide(w: Widget): Widget
    requires w.Panel?
  {
    var text := Lower(w.text);
    if |text| > 0 then
      if !IsSubstring(text, Letters) then
        // punctuation stays visible
        ShowLetter(w)
      else
        w.(face := White, shown := false)
    else
      w.(face := Green, shown := false)
  }

  /**
   * `hide()` on a panel holding one character: a letter is hidden on a white
   * panel, anything else stays visible, and a blank panel turns green.
   */
  lemma HideOne(w: Widget, c: char)
    requires w.Panel? && w.text == [c]
    ensures Hide(w) == if IsAsciiLetter(c) then w.(face := White, shown := false) else ShowLetter(w)
  {
    LetterTest(c);
  }

  lemma HideCases(w: Widget)
    requires w.Panel?
    ensures Hide(w).Panel? && Hide(w).text == w.text
    ensures |w.text| == 1 && IsAsciiLetter(w.text[0]) ==> Hide(w) == w.(face := White, shown := false)
    ensures |w.text| == 1 && !IsAsciiLetter(w.text[0]) ==> Hide(w) == ShowLetter(w)
    ensures w.text == "" ==> Hide(w) == w.(face := Green, shown := false)
  {
    if |w.text| == 1 {
      HideOne(w, w.text[0]);
    }
  }

  /** Hiding twice is hiding once: `hide()` depends only on the text. */
  lemma HideIdempotent(w: Widget)
    requires w.Panel?
    ensures Hide(Hide(w)) == Hide(w)
  {
  }

  // ---------------------------------------------------------------------------
  // Timers: the calls of `Clock.schedule_once`
  // ---------------------------------------------------------------------------

  datatype Action = TurnBlue | ShowText | HideText

  /** `Clock.schedule_once(action of the panel at cell, at / 100 seconds)` */
  datatype Timer = Timer(at: nat, action: Action, cell: int)

  const BlueStep := 50       // blue_interval = 0.5 s in check_all
  const RevealStep := 90     // reveal_interval = 0.9 s in check_all
  const RevealAllStep := 5   // reveal_interval = 0.05 s in reveal_all
  const LoadStep := 5        // interval = 0.05 s in load_puzzle

  function Apply(w: Widget, act: Action): Widget {
    if !w.Panel? then w
    else match act
      case TurnBlue => Blue(w)
      case ShowText => ShowLetter(w)
      case HideText => Hide(w)
  }

  /** What the board looks like after the timer's callback ran. */
  function Fire(b: Board, t: Timer): (r: Board)
    ensures |r| == |b|
  {
    if 0 <= t.cell < |b| then b[t.cell := Apply(b[t.cell], t.action)] else b
  }

  /** The callbacks of `ts`, run in the order given. */
  function FireAll(b: Board, ts: seq<Timer>): (r: Board)
    ensures |r| == |b|
    decreases |ts|
  {
    if |ts| == 0 then b else FireAll(Fire(b, ts[0]), ts[1..])
  }

  lemma {:induction false} FireAllAppend(b: Board, ts: seq<Timer>, t: Timer)
    ensures FireAll(b, ts + [t]) == Fire(FireAll(b, ts), t)
    decreases |ts|
  {
    if |ts| == 0 {
      assert ts + [t] == [t];
      assert [t][1..] == [];
    } else {
      assert (ts + [t])[1..] == ts[1..] + [t];
      FireAllAppend(Fire(b, ts[0]), ts[1..], t);
    }
  }

  /** The `k`-th of `ms` is scheduled at `step * (k + 1)`: one timer per cell. */
  function Stagger(ms: seq<int>, step: nat, act: Action): (ts: seq<Timer>)
    ensures |ts| == |ms|
    decreases |ms|
  {
    if |ms| == 0 then []
    else Stagger(ms[..|ms| - 1], step, act) + [Timer(step * |ms|, act, ms[|ms| - 1])]
  }

  lemma {:induction false} StaggerAt(ms: seq<int>, step: nat, act: Action, k: int)
    requires 0 <= k < |ms|
    ensures Stagger(ms, step, act)[k] == Timer(step * (k + 1), act, ms[k])
    decreases |ms|
  {
    if k < |ms| - 1 {
      StaggerAt(ms[..|ms| - 1], step, act, k);
    }
  }

  /** The blue timer and then the reveal timer of each match of `check_all`. */
  function CheckTimers(ms: seq<int>): (ts: seq<Timer>)
    ensures |ts| == 2 * |ms|
    decreases |ms|
  {
    if |ms| == 0 then []
    else
      var m := ms[|ms| - 1];
      CheckTimers(ms[..|ms| - 1]) + [Timer(BlueStep * |ms|, TurnBlue, m), Timer(RevealStep * |ms|, ShowText, m)]
  }

  /** The `k`-th match turns blue at 0.5 * (k + 1) s and is revealed at 0.9 * (k + 1) s. */
  lemma {:induction false} CheckTimersAt(ms: seq<int>, k: int)
    requires 0 <= k < |ms|
    ensures CheckTimers(ms)[2 * k] == Timer(BlueStep * (k + 1), TurnBlue, ms[k])
    ensures CheckTimers(ms)[2 * k + 1] == Timer(RevealStep * (k + 1), ShowText, ms[k])
    decreases |ms|
  {
    if k < |ms| - 1 {
      CheckTimersAt(ms[..|ms| - 1], k);
    }
  }

  // ---------------------------------------------------------------------------
  // Selecting panels along a scan order
  // ---------------------------------------------------------------------------

  datatype Criterion =
    | Guess(letter: string)   // check_all: hidden and showing `letter`
    | HiddenWithText          // reveal_all: hidden and not blank
    | WithText                // load_puzzle: not blank

  predicate Wants(w: Widget, crit: Criterion) {
    w.Panel? &&
    match crit
    case Guess(letter) => Hidden(w) && CheckLetter(w, letter)
    case HiddenWithText => Hidden(w) && w.text != ""
    case WithText => w.text != ""
  }

  /** The positions of `order` whose widget the criterion picks, in scan order. */
  function Picks(b: Board, order: seq<int>, crit: Criterion): (ms: seq<int>)
    ensures forall x :: x in ms ==> x in order && 0 <= x < |b| && Wants(b[x], crit)
    decreases |order|
  {
    if |order| == 0 then []
    else
      var a := order[|order| - 1];
      var rest := Picks(b, order[..|order| - 1], crit);
      if 0 <= a < |b| && Wants(b[a], crit) then rest + [a] else rest
  }

  /** Scanning one more position of the order adds it when it is wanted. */
  lemma PicksStep(b: Board, order: seq<int>, n: int, crit: Criterion)
    requires 0 <= n < |order|
    ensures Picks(b, order[..n + 1], crit) ==
      if 0 <= order[n] < |b| && Wants(b[order[n]], crit) then Picks(b, order[..n], crit) + [order[n]]
      else Picks(b, order[..n], crit)
  {
    assert order[..n + 1][..n] == order[..n];
  }

  lemma StaggerStep(ms: seq<int>, x: int, step: nat, act: Action, k: nat)
    requires k == |ms| + 1
    ensures step * k >= 0
    ensures Stagger(ms + [x], step, act) == Stagger(ms, step, act) + [Timer(step * k, act, x)]
  {
    assert (ms + [x])[..|ms|] == ms;
  }

  /**
   * One step of a column scan: position `order[n]` adds the next timer of
   * the stagger when `crit` wants its cell, and nothing otherwise.
   */
  lemma ColumnStep(b: Board, order: seq<int>, n: int, crit: Criterion, step: nat, act: Action, ts: seq<Timer>, k: nat)
    requires 0 <= n < |order| && 0 <= order[n] < |b|
    requires ts == Stagger(Picks(b, order[..n], crit), step, act) && k == |ts| + 1
    ensures step * k >= 0
    ensures Wants(b[order[n]], crit) ==>
      Stagger(Picks(b, order[..n + 1], crit), step, act) == ts + [Timer(step * k, act, order[n])]
    ensures !Wants(b[order[n]], crit) ==>
      Stagger(Picks(b, order[..n + 1], crit), step, act) == ts
  {
    PicksStep(b, order, n, crit);
    StaggerStep(Picks(b, order[..n], crit), order[n], step, act, k);
  }

  lemma CheckTimersStep(ms: seq<int>, x: int)
    ensures CheckTimers(ms + [x]) ==
      CheckTimers(ms) + [Timer(BlueStep * (|ms| + 1), TurnBlue, x), Timer(RevealStep * (|ms| + 1), ShowText, x)]
  {
    assert (ms + [x])[..|ms|] == ms;
  }

  /** One step of `check_all`'s scan: a wanted position adds its blue and reveal timers. */
  lemma CheckStep(b: Board, order: seq<int>, n: int, letter: string, ts: seq<Timer>, k: nat)
    requires 0 <= n < |order| && 0 <= order[n] < |b|
    requires ts == CheckTimers(Picks(b, order[..n], Guess(letter))) && k == |Picks(b, order[..n], Guess(letter))| + 1
    ensures Wants(b[order[n]], Guess(letter)) ==>
      && |Picks(b, order[..n + 1], Guess(letter))| == k
      && CheckTimers(Picks(b, order[..n + 1], Guess(letter))) ==
         ts + [Timer(BlueStep * k, TurnBlue, order[n]), Timer(RevealStep * k, ShowText, order[n])]
    ensures !Wants(b[order[n]], Guess(letter)) ==>
      && |Picks(b, order[..n + 1], Guess(letter))| == k - 1
      && CheckTimers(Picks(b, order[..n + 1], Guess(letter))) == ts
  {
    PicksStep(b, order, n, Guess(letter));
    CheckTimersStep(Picks(b, order[..n], Guess(letter)), order[n]);
  }

  lemma {:induction false} PicksExactly(b: Board, order: seq<int>, crit: Criterion)
    requires Distinct(order)
    ensures Distinct(Picks(b, order, crit))
    ensures forall a :: a in Picks(b, order, crit) <==> a in order && 0 <= a < |b| && Wants(b[a], crit)
    decreases |order|
  {
    if |order| > 0 {
      var init := order[..|order| - 1];
      PicksExactly(b, init, crit);
      assert order == init + [order[|order| - 1]];
    }
  }

  lemma {:induction false} DistinctCard(s: seq<int>)
    requires Distinct(s)
    ensures |set x | x in s| == |s|
    decreases |s|
  {
    if |s| > 0 {
      var init := s[..|s| - 1];
      DistinctCard(init);
      assert s == init + [s[|s| - 1]];
      assert (set x | x in s) == (set x | x in init) + {s[|s| - 1]};
    } else {
      assert (set x | x in s) == {};
    }
  }

  /**
   * Along an order that visits the whole grid once, the criterion picks every
   * wanted position exactly once and nothing else, so the number of picks is
   * the number of wanted panels.
   */
  lemma PicksAlongGrid(b: Board, order: seq<int>, crit: Criterion)
    requires |b| == Size && VisitsGridOnce(order)
    ensures Distinct(Picks(b, order, crit))
    ensures forall a :: a in Picks(b, order, crit) <==> 0 <= a < Size && Wants(b[a], crit)
    ensures |Picks(b, order, crit)| == |set a | 0 <= a < Size && Wants(b[a], crit)|
  {
    var ms := Picks(b, order, crit);
    PicksExactly(b, order, crit);
    DistinctCard(ms);
    assert (set x | x in ms) == set a | 0 <= a < Size && Wants(b[a], crit);
  }

  // ---------------------------------------------------------------------------
  // check_all
  // ---------------------------------------------------------------------------

  /** The panels `check_all(letter)` matches, in its scan order. */
  function GuessMatches(b: Board, letter: string): seq<int> {
    Picks(b, CheckOrder(), Guess(letter))
  }

  /**
   * `check_all` selects exactly the hidden panels whose text equals the letter
   * ignoring case, each once, and the count it reports is their number.
   */
  lemma GuessMatchesExactly(b: Board, letter: string)
    requires WellShaped(b)
    ensures Distinct(GuessMatches(b, letter))
    ensures forall a :: a in GuessMatches(b, letter) <==>
      IsPanel(a) && Hidden(b[a]) && CheckLetter(b[a], letter)
    ensures |GuessMatches(b, letter)| ==
      |set a | 0 <= a < Size && Wants(b[a], Guess(letter))|
  {
    CheckOrderVisitsGridOnce();
    PicksAlongGrid(b, CheckOrder(), Guess(letter));
  }

  /** A board on which the criterion wants no widget yields no picks. */
  lemma {:induction false} NoPicks(b: Board, order: seq<int>, crit: Criterion)
    requires forall a :: 0 <= a < |b| ==> !Wants(b[a], crit)
    ensures Picks(b, order, crit) == []
    decreases |order|
  {
    if |order| > 0 {
      NoPicks(b, order[..|order| - 1], crit);
    }
  }

  /** Running a set of distinct timers of one action applies it to each of their panels. */
  lemma {:induction false} FireStagger(b: Board, ms: seq<int>, step: nat, act: Action)
    requires Distinct(ms)
    ensures forall a :: 0 <= a < |b| ==>
      FireAll(b, Stagger(ms, step, act))[a] == if a in ms then Apply(b[a], act) else b[a]
    decreases |ms|
  {
    if |ms| > 0 {
      var init, m := ms[..|ms| - 1], ms[|ms| - 1];
      FireStagger(b, init, step, act);
      FireAllAppend(b, Stagger(init, step, act), Timer(step * |ms|, act, m));
      assert ms == init + [m];
    }
  }

  /** Running the timers of `check_all` reveals each matched panel. */
  lemma {:induction false} FireCheckTimers(b: Board, ms: seq<int>)
    requires Distinct(ms)
    ensures forall a :: 0 <= a < |b| ==>
      FireAll(b, CheckTimers(ms))[a] == if a in ms then Apply(b[a], ShowText) else b[a]
    decreases |ms|
  {
    if |ms| > 0 {
      var init, m := ms[..|ms| - 1], ms[|ms| - 1];
      var blue, show := Timer(BlueStep * |ms|, TurnBlue, m), Timer(RevealStep * |ms|, ShowText, m);
      FireCheckTimers(b, init);
      assert CheckTimers(ms) == (CheckTimers(init) + [blue]) + [show];
      FireAllAppend(b, CheckTimers(init) + [blue], show);
      FireAllAppend(b, CheckTimers(init), blue);
      assert ms == init + [m];
    }
  }

  /**
   * Once the timers of `check_all(letter)` have run, a second
   * `check_all(letter)` matches nothing: the matched panels are visible.
   */
  lemma GuessTwiceMatchesNothing(b: Board, letter: string)
    requires WellShaped(b)
    ensures GuessMatches(FireAll(b, CheckTimers(GuessMatches(b, letter))), letter) == []
  {
    var ms := GuessMatches(b, letter);
    var b2 := FireAll(b, CheckTimers(ms));
    GuessMatchesExactly(b, letter);
    FireCheckTimers(b, ms);
    forall a | 0 <= a < |b2|
      ensures !Wants(b2[a], Guess(letter))
    {
      if a in ms {
        assert b2[a] == ShowLetter(b[a]);
      } else {
        assert b2[a] == b[a];
      }
    }
    NoPicks(b2, CheckOrder(), Guess(letter));
  }

  // ---------------------------------------------------------------------------
  // reveal_all
  // ---------------------------------------------------------------------------

  function RevealAllTimers(b: Board): seq<Timer> {
    Stagger(Picks(b, RevealOrder(), HiddenWithText), RevealAllStep, ShowText)
  }

  /**
   * `reveal_all` schedules exactly the hidden panels that are not blank, each
   * once, left to right by column, the `k`-th at 0.05 * (k + 1) s.
   */
  lemma RevealAllSchedules(b: Board)
    requires WellShaped(b)
    ensures var ms := Picks(b, RevealOrder(), HiddenWithText);
      && Distinct(ms)
      && (forall a :: a in ms <==> IsPanel(a) && Hidden(b[a]) && b[a].text != "")
      && (forall k :: 0 <= k < |ms| ==> RevealAllTimers(b)[k] == Timer(RevealAllStep * (k + 1), ShowText, ms[k]))
  {
    var ms := Picks(b, RevealOrder(), HiddenWithText);
    RevealOrderVisitsGridOnce();
    PicksAlongGrid(b, RevealOrder(), HiddenWithText);
    forall k | 0 <= k < |ms|
      ensures RevealAllTimers(b)[k] == Timer(RevealAllStep * (k + 1), ShowText, ms[k])
    {
      StaggerAt(ms, RevealAllStep, ShowText, k);
    }
  }

  /** Once the reveals of `reveal_all` have run, a second `reveal_all` schedules nothing. */
  lemma RevealAllIdempotent(b: Board)
    requires WellShaped(b)
    ensures RevealAllTimers(FireAll(b, RevealAllTimers(b))) == []
  {
    var ms := Picks(b, RevealOrder(), HiddenWithText);
    var b2 := FireAll(b, RevealAllTimers(b));
    RevealOrderVisitsGridOnce();
    PicksExactly(b, RevealOrder(), HiddenWithText);
    FireStagger(b, ms, RevealAllStep, ShowText);
    forall a | 0 <= a < |b2|
      ensures !Wants(b2[a], HiddenWithText)
    {
      if a in ms {
        assert b2[a] == ShowLetter(b[a]);
      } else {
        assert a in RevealOrder();
        assert b2[a] == b[a];
      }
    }
    NoPicks(b2, RevealOrder(), HiddenWithText);
  }

  // ---------------------------------------------------------------------------
  // hide_all (entry finished)
  // ---------------------------------------------------------------------------

  /** `Panel.hide_all()`: `hide()` on every panel. */
  function HideEverything(b: Board): (r: Board)
    ensures |r| == |b|
    ensures forall a :: 0 <= a < |b| ==> r[a] == if b[a].Panel? then Hide(b[a]) else b[a]
  {
    seq(|b|, a requires 0 <= a < |b| => if b[a].Panel? then Hide(b[a]) else b[a])
  }

  /**
   * Finishing an entry hides every one-letter panel on white and keeps every
   * text, so `save_puzzle` writes the same string; doing it twice is doing
   * it once.
   */
  lemma HideEverythingKeeps(b: Board)
    ensures HideEverything(HideEverything(b)) == HideEverything(b)
    ensures Serialise(HideEverything(b)) == Serialise(b)
    ensures WellShaped(b) ==> WellShaped(HideEverything(b))
    ensures forall a :: 0 <= a < |b| && b[a].Panel? && |b[a].text| == 1 && IsAsciiLetter(b[a].text[0]) ==>
      HideEverything(b)[a] == b[a].(face := White, shown := false)
  {
    var h := HideEverything(b);
    forall a | 0 <= a < |b| && b[a].Panel?
      ensures h[a].Panel? && h[a].text == b[a].text && Hide(h[a]) == h[a]
      ensures |b[a].text| == 1 && IsAsciiLetter(b[a].text[0]) ==> h[a] == b[a].(face := White, shown := false)
    {
      HideCases(b[a]);
      HideIdempotent(b[a]);
    }
    assert forall a :: 0 <= a < |b| ==> HideEverything(h)[a] == h[a];
    SameTextsSameSave(h, b);
  }

  // ---------------------------------------------------------------------------
  // load_puzzle and save_puzzle
  // ---------------------------------------------------------------------------

  /** A panel just loaded with character `c`: hidden, green, blank for a space. */
  function Loaded(c: char): Widget {
    Panel(if c == ' ' then "" else [c], false, Green)
  }

  /**
   * The letter loop of `load_puzzle(text)`: the `k`-th panel in addition
   * order takes `text[k]`; when `text` runs out, the panels from there on
   * keep what they had (the `pop` raised).
   */
  function LoadCells(b: Board, text: string): (r: Board)
    ensures |r| == |b|
  {
    seq(|b|, a requires 0 <= a < |b| =>
      if b[a].Panel? && Rank(a) < |text| then Loaded(text[Rank(a)]) else b[a])
  }

  /** The timers that turn the non-blank panels white after a load. */
  function LoadTimers(b: Board): seq<Timer> {
    Stagger(Picks(b, RevealOrder(), WithText), LoadStep, HideText)
  }

  /**
   * `load_puzzle` consumes one character per panel in addition order, turns a
   * space into a blank panel and leaves every loaded panel hidden and green;
   * the other widgets are untouched.
   */
  lemma LoadFillsPanels(b: Board, text: string)
    requires WellShaped(b)
    ensures WellShaped(LoadCells(b, text))
    ensures forall k :: 0 <= k < PanelCount && k < |text| ==> LoadCells(b, text)[PanelAt(k)] == Loaded(text[k])
    ensures forall k :: |text| <= k < PanelCount ==> LoadCells(b, text)[PanelAt(k)] == b[PanelAt(k)]
    ensures forall a :: 0 <= a < Size && !IsPanel(a) ==> LoadCells(b, text)[a] == b[a]
  {
    PanelNumbering();
  }

  /** After a complete load the non-blank panels are exactly those whose character is not a space. */
  lemma LoadHidesLetters(b: Board, text: string)
    requires WellShaped(b) && |text| >= PanelCount
    ensures forall a :: a in Picks(LoadCells(b, text), RevealOrder(), WithText) <==>
      IsPanel(a) && text[Rank(a)] != ' '
  {
    PanelNumbering();
    RevealOrderVisitsGridOnce();
    PicksExactly(LoadCells(b, text), RevealOrder(), WithText);
  }

  /**
   * Once the hide timers of a load have run, every panel looks as `hide()`
   * leaves it: letters white and hidden, punctuation visible, blanks green.
   */
  lemma LoadThenHides(b: Board, text: string)
    requires WellShaped(b) && |text| >= PanelCount
    ensures FireAll(LoadCells(b, text), LoadTimers(LoadCells(b, text))) == HideEverything(LoadCells(b, text))
  {
    var l := LoadCells(b, text);
    var ms := Picks(l, RevealOrder(), WithText);
    var fired := FireAll(l, LoadTimers(l));
    RevealOrderVisitsGridOnce();
    PicksExactly(l, RevealOrder(), WithText);
    FireStagger(l, ms, LoadStep, HideText);
    forall a | 0 <= a < Size
      ensures fired[a] == HideEverything(l)[a]
    {
      if l[a].Panel? && a !in ms {
        assert a in RevealOrder();
        assert l[a].text == "";
        assert IsPanel(a) by { PanelRuns(a); }
        PanelNumbering();
        assert l[a] == Loaded(text[Rank(a)]);
        HideCases(l[a]);
      }
    }
  }

  /** The character `save_puzzle` writes for one widget. */
  function Piece(w: Widget): string {
    if !w.Panel? then "" else if w.text != "" then w.text else " "
  }

  /** `save_puzzle`: the texts of the panels in addition order, a space for a blank panel. */
  function Serialise(b: Board): string
    decreases |b|
  {
    if |b| == 0 then "" else Serialise(b[..|b| - 1]) + Piece(b[|b| - 1])
  }

  /** A loaded panel saves back as the character it was loaded from. */
  lemma LoadedPiece(c: char)
    ensures Piece(Loaded(c)) == [c]
  {
  }

  /** Saving one more widget appends its loaded character, or nothing for a non-panel. */
  lemma SaveStep(l: Board, text: string, m: nat, k: nat)
    requires 0 < m <= |l| && k <= |text| && Serialise(l[..m - 1]) == text[..k]
    ensures k < |text| && l[m - 1] == Loaded(text[k]) ==> Serialise(l[..m]) == text[..k + 1]
    ensures !l[m - 1].Panel? ==> Serialise(l[..m]) == text[..k]
  {
    assert l[..m][..m - 1] == l[..m - 1];
    if k < |text| && l[m - 1] == Loaded(text[k]) {
      LoadedPiece(text[k]);
      assert text[..k + 1] == text[..k] + [text[k]];
    }
  }

  lemma {:induction false} LoadSavePrefix(b: Board, text: string, m: nat)
    requires WellShaped(b) && |text| >= PanelCount && m <= Size
    ensures Rank(m) <= |text|
    ensures Serialise(LoadCells(b, text)[..m]) == text[..Rank(m)]
    decreases m
  {
    if m > 0 {
      var l := LoadCells(b, text);
      LoadSavePrefix(b, text, m - 1);
      RankStep(m - 1);
      SaveStep(l, text, m, Rank(m - 1));
    }
  }

  /** Round trip: what `save_puzzle` writes after `load_puzzle(p)` is the first 52 characters of `p`. */
  lemma LoadThenSave(b: Board, text: string)
    requires WellShaped(b) && |text| >= PanelCount
    ensures Serialise(LoadCells(b, text)) == text[..PanelCount]
  {
    LoadSavePrefix(b, text, Size);
    assert LoadCells(b, text)[..Size] == LoadCells(b, text);
  }

  /** A panel text `load_puzzle` can produce: blank, or one character that is not a space. */
  predicate Loadable(b: Board) {
    forall a :: 0 <= a < |b| && b[a].Panel? ==> b[a].text == "" || (|b[a].text| == 1 && b[a].text[0] != ' ')
  }

  /** One panel's saved character loads back into the same text. */
  lemma SavedPiece(w: Widget)
    requires w.Panel? && (w.text == "" || (|w.text| == 1 && w.text[0] != ' '))
    ensures |Piece(w)| == 1 && Loaded(Piece(w)[0]).text == w.text
  {
  }

  lemma {:induction false} SaveLength(b: Board, m: nat)
    requires WellShaped(b) && Loadable(b) && m <= Size
    ensures |Serialise(b[..m])| == Rank(m)
    decreases m
  {
    if m > 0 {
      SaveLength(b, m - 1);
      RankStep(m - 1);
      assert b[..m][..m - 1] == b[..m - 1];
    }
  }

  lemma {:induction false} SavePrefix(b: Board, m: nat)
    requires WellShaped(b) && Loadable(b) && m <= Size
    ensures forall a :: 0 <= a < m && b[a].Panel? ==> Rank(a) < |Serialise(b[..m])| && Loaded(Serialise(b[..m])[Rank(a)]).text == b[a].text
    decreases m
  {
    if m > 0 {
      var s0, s := Serialise(b[..m - 1]), Serialise(b[..m]);
      SavePrefix(b, m - 1);
      SaveLength(b, m - 1);
      assert b[..m][..m - 1] == b[..m - 1];
      assert s == s0 + Piece(b[m - 1]);
      forall a | 0 <= a < m && b[a].Panel?
        ensures Rank(a) < |s| && Loaded(s[Rank(a)]).text == b[a].text
      {
        if a < m - 1 {
          assert s[Rank(a)] == s0[Rank(a)];
        } else {
          assert IsPanel(a);
          SavedPiece(b[a]);
          assert s[Rank(a)] == Piece(b[a])[0];
        }
      }
    }
  }

  /**
   * The other round trip: loading what `save_puzzle` wrote gives every panel
   * its text back, provided each text is one that a load can produce.
   */
  lemma SaveThenLoad(b: Board)
    requires WellShaped(b) && Loadable(b)
    ensures |Serialise(b)| == PanelCount
    ensures forall a :: 0 <= a < Size && b[a].Panel? ==> LoadCells(b, Serialise(b))[a].text == b[a].text
  {
    SaveLength(b, Size);
    SavePrefix(b, Size);
    assert b[..Size] == b;
    forall a | 0 <= a < Size && b[a].Panel?
      ensures Rank(a) < PanelCount
    {
      PanelNumbering();
    }
  }

  lemma {:induction false} SameTextsSameSave(b: Board, c: Board)
    requires |b| == |c|
    requires forall a :: 0 <= a < |b| ==> b[a].Panel? == c[a].Panel? && (b[a].Panel? ==> b[a].text == c[a].text)
    ensures Serialise(b) == Serialise(c)
    decreases |b|
  {
    if |b| > 0 {
      SameTextsSameSave(b[..|b| - 1], c[..|c| - 1]);
    }
  }

  lemma {:induction false} FireAllKeepsTexts(b: Board, ts: seq<Timer>)
    ensures forall a :: 0 <= a < |b| ==>
      FireAll(b, ts)[a].Panel? == b[a].Panel? && (b[a].Panel? ==> FireAll(b, ts)[a].text == b[a].text)
    decreases |ts|
  {
    if |ts| > 0 {
      FireAllKeepsTexts(Fire(b, ts[0]), ts[1..]);
    }
  }

  /** Timers only recolour and show or hide panels: what `save_puzzle` writes never changes. */
  lemma TimersKeepSave(b: Board, ts: seq<Timer>)
    ensures Serialise(FireAll(b, ts)) == Serialise(b)
  {
    FireAllKeepsTexts(b, ts);
    SameTextsSameSave(FireAll(b, ts), b);
  }
}
