/**
 * The fixed 6 x 16 puzzleboard grid. Widgets are added row by row, so the
 * widget at row `i`, column `j` is the `a`-th one added, `a = i * Cols + j`;
 * positions below are these addition indices. Kivy keeps `children` newest
 * first, so `children[k]` is the widget added as number `Size - 1 - k`.
 */
module Grid {
  const Rows := 6
  const Cols := 16
  const Size := 96
  const PanelCount := 52

  /** The three kinds of widget `PuzzleLayout.__init__` creates. */
  datatype Kind = CornerImage | Spacer | LetterPanel

  /** The widget created at row `i`, column `j`: the four inner corners first, then the border. */
  function KindAt(i: int, j: int): Kind {
    var corners := [(1, 1), (1, Cols - 2), (Rows - 2, 1), (Rows - 2, Cols - 2)];
    if (i, j) in corners then CornerImage
    else if i == 0 || i == Rows - 1 || j == 0 || j == Cols - 1 then Spacer
    else LetterPanel
  }

  /** The widget added `a`-th is a letter panel (it has a `layout`). */
  predicate IsPanel(a: int) {
    0 <= a < Size && KindAt(a / Cols, a % Cols) == LetterPanel
  }

  lemma DivMod16(x: int, q: int, r: int)
    requires x == 16 * q + r && 0 <= r < 16
    ensures x / 16 == q && x % 16 == r
  {
  }

  lemma DivMod6(x: int, q: int, r: int)
    requires x == 6 * q + r && 0 <= r < 6
    ensures x / 6 == q && x % 6 == r
  {
  }

  /** The panels are the runs 18..29, 33..46, 49..62 and 66..77 of the addition order. */
  lemma PanelRuns(a: int)
    ensures IsPanel(a) <==> (18 <= a < 30 || 33 <= a < 47 || 49 <= a < 63 || 66 <= a < 78)
  {
    if 0 <= a < Size {
      var i, j := a / 16, a % 16;
      DivMod16(a, i, j);
      assert a == 16 * i + j;
      assert 0 <= i < 6;
    }
  }

  /** The `k`-th panel in addition order (row 1: columns 2..13, rows 2 and 3: 1..14, row 4: 2..13). */
  function PanelAt(k: nat): nat
    requires k < PanelCount
  {
    if k < 12 then 18 + k
    else if k < 26 then 33 + (k - 12)
    else if k < 40 then 49 + (k - 26)
    else 66 + (k - 40)
  }

  /** How many panels were added before widget `a`. */
  function Rank(a: nat): nat {
    if a < 18 then 0
    else if a < 30 then a - 18
    else if a < 33 then 12
    else if a < 47 then 12 + (a - 33)
    else if a < 49 then 26
    else if a < 63 then 26 + (a - 49)
    else if a < 66 then 40
    else if a < 78 then 40 + (a - 66)
    else 52
  }

  /**
   * The grid has exactly 52 letter panels: `PanelAt` lists them in addition
   * order without gaps or repetitions and `Rank` is its inverse.
   */
  lemma PanelNumbering()
    ensures forall k :: 0 <= k < PanelCount ==> IsPanel(PanelAt(k)) && Rank(PanelAt(k)) == k
    ensures forall a :: IsPanel(a) ==> Rank(a) < PanelCount && PanelAt(Rank(a)) == a
    ensures forall k, k' :: 0 <= k < k' < PanelCount ==> PanelAt(k) < PanelAt(k')
  {
    forall k | 0 <= k < PanelCount
      ensures IsPanel(PanelAt(k)) && Rank(PanelAt(k)) == k
    {
      PanelRuns(PanelAt(k));
    }
    forall a | IsPanel(a)
      ensures Rank(a) < PanelCount && PanelAt(Rank(a)) == a
    {
      PanelRuns(a);
    }
  }

  /** Scanning one more widget counts it exactly when it is a panel. */
  lemma RankStep(a: nat)
    requires a < Size
    ensures Rank(a + 1) == Rank(a) + (if IsPanel(a) then 1 else 0)
  {
    PanelRuns(a);
  }

  /** Panels further on in the addition order have higher ranks. */
  lemma RankMonotone(x: nat, y: nat)
    requires x <= y
    ensures Rank(x) <= Rank(y)
  {
  }

  /** The panels among the first `m` widgets. */
  function PanelsBelow(m: nat): set<int> {
    set a | 0 <= a < m && IsPanel(a)
  }

  lemma {:induction false} PanelsBelowSize(m: nat)
    requires m <= Size
    ensures |PanelsBelow(m)| == Rank(m)
  {
    if m > 0 {
      PanelsBelowSize(m - 1);
      RankStep(m - 1);
      if IsPanel(m - 1) {
        assert PanelsBelow(m) == PanelsBelow(m - 1) + {m - 1};
      } else {
        assert PanelsBelow(m) == PanelsBelow(m - 1);
      }
    } else {
      assert PanelsBelow(0) == {};
    }
  }

  /** Rows 1..4 times columns 1..14 minus the four inner corners: 52 panels. */
  lemma PanelTotal()
    ensures |set a | 0 <= a < Size && IsPanel(a)| == PanelCount
  {
    PanelsBelowSize(Size);
    assert PanelsBelow(Size) == set a | 0 <= a < Size && IsPanel(a);
  }

  // ---------------------------------------------------------------------------
  // Scan orders
  // ---------------------------------------------------------------------------

  /** `s[::-1]` */
  function Reversed<T>(s: seq<T>): (r: seq<T>)
    ensures |r| == |s|
    ensures forall n :: 0 <= n < |s| ==> r[n] == s[|s| - 1 - n]
  {
    seq(|s|, n requires 0 <= n < |s| => s[|s| - 1 - n])
  }

  /** Reading backwards twice gives the original, and no element is lost or added. */
  lemma {:induction false} ReversedKeeps<T>(s: seq<T>)
    ensures Reversed(Reversed(s)) == s
    ensures multiset(Reversed(s)) == multiset(s)
    decreases |s|
  {
    assert forall n :: 0 <= n < |s| ==> Reversed(Reversed(s))[n] == s[n];
    if |s| > 0 {
      var t := s[1..];
      ReversedKeeps(t);
      assert Reversed(s) == Reversed(t) + [s[0]];
      assert s == [s[0]] + t;
    }
  }

  /** `[i + (j*cols) for i in range(cols-1, -1, -1) for j in range(rows)]` */
  function DescendingColumns(): seq<int> {
    seq(Size, m requires 0 <= m < Size => (Cols - 1 - m / Rows) + (m % Rows) * Cols)
  }

  /** `[i + (j*cols) for i in range(cols) for j in range(rows)]` */
  function AscendingColumns(): seq<int> {
    seq(Size, m requires 0 <= m < Size => m / Rows + (m % Rows) * Cols)
  }

  /** The widget `children[k]` refers to, as an addition index. */
  function Added(k: int): int {
    Size - 1 - k
  }

  /** The `children` indices `check_all` visits. */
  function CheckIndices(): seq<int> {
    Reversed(DescendingColumns())
  }

  /** The `children` indices `reveal_all` and `load_puzzle` visit. */
  function RevealIndices(): seq<int> {
    Reversed(AscendingColumns())
  }

  function AsAdded(ks: seq<int>): (r: seq<int>)
    ensures |r| == |ks|
    ensures forall n :: 0 <= n < |ks| ==> r[n] == Added(ks[n])
  {
    seq(|ks|, n requires 0 <= n < |ks| => Added(ks[n]))
  }

  /** `children[k]` and widget `k` name each other: `AsAdded` undoes itself and keeps the grid's range. */
  lemma AsAddedInvolution(ks: seq<int>)
    ensures AsAdded(AsAdded(ks)) == ks
    ensures (forall n :: 0 <= n < |ks| ==> 0 <= ks[n] < Size) ==>
      forall n :: 0 <= n < |ks| ==> 0 <= AsAdded(ks)[n] < Size
    ensures forall a :: a in AsAdded(ks) <==> Added(a) in ks
  {
    assert forall n :: 0 <= n < |ks| ==> AsAdded(AsAdded(ks))[n] == ks[n];
    forall a ensures a in AsAdded(ks) <==> Added(a) in ks {
      if Added(a) in ks {
        var n :| 0 <= n < |ks| && ks[n] == Added(a);
        assert AsAdded(ks)[n] == a;
      }
    }
  }

  function CheckOrder(): seq<int> {
    AsAdded(CheckIndices())
  }

  function RevealOrder(): seq<int> {
    AsAdded(RevealIndices())
  }

  /** `check_all` walks the columns from right to left, each from top to bottom. */
  lemma CheckOrderAt(n: int)
    requires 0 <= n < Size
    ensures |CheckOrder()| == Size
    ensures CheckOrder()[n] == Cols * (n % Rows) + (Cols - 1 - n / Rows)
  {
    var q, s := n / 6, n % 6;
    DivMod6(n, q, s);
    var m := Size - 1 - n;
    DivMod6(m, 15 - q, 5 - s);
    assert CheckIndices()[n] == DescendingColumns()[m];
  }

  /** `reveal_all` and `load_puzzle` walk the columns from left to right, each from top to bottom. */
  lemma RevealOrderAt(n: int)
    requires 0 <= n < Size
    ensures |RevealOrder()| == Size
    ensures RevealOrder()[n] == Cols * (n % Rows) + n / Rows
  {
    var q, s := n / 6, n % 6;
    DivMod6(n, q, s);
    var m := Size - 1 - n;
    DivMod6(m, 15 - q, 5 - s);
    assert RevealIndices()[n] == AscendingColumns()[m];
  }

  predicate Distinct(s: seq<int>) {
    forall n, n' :: 0 <= n < n' < |s| ==> s[n] != s[n']
  }

  /** An order that visits every grid position exactly once. */
  predicate VisitsGridOnce(order: seq<int>) {
    && |order| == Size
    && (forall n :: 0 <= n < Size ==> 0 <= order[n] < Size)
    && Distinct(order)
    && (forall a :: 0 <= a < Size ==> a in order)
  }

  /** `check_all`'s index list is a permutation of all grid positions. */
  lemma CheckOrderVisitsGridOnce()
    ensures VisitsGridOnce(CheckOrder())
  {
    var o := CheckOrder();
    forall n | 0 <= n < Size
      ensures 0 <= o[n] < Size
    {
      CheckOrderAt(n);
    }
    forall n, n' | 0 <= n < n' < Size
      ensures o[n] != o[n']
    {
      CheckOrderAt(n);
      CheckOrderAt(n');
      DivMod16(o[n], n % 6, 15 - n / 6);
      DivMod16(o[n'], n' % 6, 15 - n' / 6);
    }
    forall a | 0 <= a < Size
      ensures a in o
    {
      var i, j := a / 16, a % 16;
      DivMod16(a, i, j);
      var n := 6 * (15 - j) + i;
      DivMod6(n, 15 - j, i);
      CheckOrderAt(n);
      assert o[n] == a;
    }
  }

  /** The index list of `reveal_all` and `load_puzzle` is a permutation of all grid positions. */
  lemma RevealOrderVisitsGridOnce()
    ensures VisitsGridOnce(RevealOrder())
  {
    var o := RevealOrder();
    forall n | 0 <= n < Size
      ensures 0 <= o[n] < Size
    {
      RevealOrderAt(n);
    }
    forall n, n' | 0 <= n < n' < Size
      ensures o[n] != o[n']
    {
      RevealOrderAt(n);
      RevealOrderAt(n');
      DivMod16(o[n], n % 6, n / 6);
      DivMod16(o[n'], n' % 6, n' / 6);
    }
    forall a | 0 <= a < Size
      ensures a in o
    {
      var i, j := a / 16, a % 16;
      DivMod16(a, i, j);
      var n := 6 * j + i;
      DivMod6(n, j, i);
      RevealOrderAt(n);
      assert o[n] == a;
    }
  }

  /** Every position the scans of `check_all`, `reveal_all` and `load_puzzle` visit is on the grid. */
  lemma ScansInRange()
    ensures forall n :: 0 <= n < |CheckIndices()| ==> 0 <= Added(CheckIndices()[n]) < Size
    ensures forall n :: 0 <= n < |RevealIndices()| ==> 0 <= Added(RevealIndices()[n]) < Size
  {
    CheckOrderVisitsGridOnce();
    RevealOrderVisitsGridOnce();
  }
}
