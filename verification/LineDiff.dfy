/** The editor's line diff: trim the common prefix and suffix, LCS on what is left. */
module LineDiff {
  import opened Text

  /** One row of a diff. Line numbers start at 1. */
  datatype Op =
    | Keep(a: nat, b: nat, text: string)
    | Remove(a: nat, text: string)
    | Add(b: nat, text: string)

  /** An element of a `Uint32Array`. */
  newtype uint32 = x: int | 0 <= x < 0x1_0000_0000

  /** Above this many table cells the middle is shown as one replacement. */
  const MAX_CELLS := 4_000_000

  // ----- What a diff means -----

  /** The lines of the first text: unchanged and removed rows. */
  function OldSide(ops: seq<Op>): seq<string> {
    if ops == [] then [] else (if ops[0].Add? then [] else [ops[0].text]) + OldSide(ops[1..])
  }

  /** The lines of the second text: unchanged and added rows. */
  function NewSide(ops: seq<Op>): seq<string> {
    if ops == [] then [] else (if ops[0].Remove? then [] else [ops[0].text]) + NewSide(ops[1..])
  }

  /** The unchanged lines. */
  function Kept(ops: seq<Op>): seq<string> {
    if ops == [] then [] else (if ops[0].Keep? then [ops[0].text] else []) + Kept(ops[1..])
  }

  /** Rows on each side count 1, 2, 3, ... from the given numbers. */
  predicate Numbered(ops: seq<Op>, a: nat, b: nat) {
    ops == [] ||
    match ops[0]
    case Keep(i, j, _) => i == a && j == b && Numbered(ops[1..], a + 1, b + 1)
    case Remove(i, _) => i == a && Numbered(ops[1..], a + 1, b)
    case Add(j, _) => j == b && Numbered(ops[1..], a, b + 1)
  }

  /** No removal directly follows an addition: within a change, removals come first. */
  predicate RemovalsFirst(ops: seq<Op>) {
    forall i :: 0 <= i < |ops| - 1 ==> !(ops[i].Add? && ops[i + 1].Remove?)
  }

  predicate IsDiff(ops: seq<Op>, a: seq<string>, b: seq<string>) {
    OldSide(ops) == a && NewSide(ops) == b
  }

  /** `c` can be had from `a` by leaving lines out. */
  predicate Subseq(c: seq<string>, a: seq<string>) {
    c == [] || (a != [] && (Subseq(c, a[1..]) || (c[0] == a[0] && Subseq(c[1..], a[1..]))))
  }

  ghost predicate Common(c: seq<string>, a: seq<string>, b: seq<string>) {
    Subseq(c, a) && Subseq(c, b)
  }

  /** `c` is a longest common subsequence of `a` and `b`. */
  ghost predicate IsLcs(c: seq<string>, a: seq<string>, b: seq<string>) {
    Common(c, a, b) && forall d :: Common(d, a, b) ==> |d| <= |c|
  }

  /** The length of a longest common subsequence, by the recursion the table stores. */
  function Lcs(a: seq<string>, b: seq<string>): nat
    decreases |a| + |b|
  {
    if a == [] || b == [] then 0
    else if a[0] == b[0] then 1 + Lcs(a[1..], b[1..])
    else
      var down, right := Lcs(a[1..], b), Lcs(a, b[1..]);
      if down > right then down else right
  }

  // ----- Subsequences -----

  lemma {:induction false} SubseqTail(c: seq<string>, a: seq<string>)
    requires c != [] && Subseq(c, a)
    ensures Subseq(c[1..], a[1..])
    decreases |a|
  {
    if Subseq(c, a[1..]) {
      SubseqTail(c, a[1..]);
    }
  }

  lemma {:induction false} SubseqSelf(a: seq<string>)
    ensures Subseq(a, a)
  {
    if a != [] {
      SubseqSelf(a[1..]);
    }
  }

  lemma {:induction false} SameLength(c: seq<string>, a: seq<string>)
    requires Subseq(c, a) && |c| >= |a|
    ensures c == a
    decreases |a|
  {
    if a != [] {
      SubseqAtMost(c, a[1..]);
      SameLength(c[1..], a[1..]);
    }
  }

  lemma {:induction false} SubseqAtMost(c: seq<string>, a: seq<string>)
    ensures Subseq(c, a) ==> |c| <= |a|
    decreases |a|
  {
    if c != [] && a != [] {
      SubseqAtMost(c, a[1..]);
      SubseqAtMost(c[1..], a[1..]);
    }
  }

  lemma {:induction false} SubseqInit(c: seq<string>, a: seq<string>, x: string)
    requires c != [] && Subseq(c, a + [x])
    ensures Subseq(c[..|c| - 1], a)
    decreases |a|
  {
    if a == [] {
      assert (a + [x])[1..] == [];
    } else {
      assert (a + [x])[1..] == a[1..] + [x];
      if Subseq(c, a[1..] + [x]) {
        SubseqInit(c, a[1..], x);
      } else if |c| > 1 {
        SubseqInit(c[1..], a[1..], x);
        assert c[1..][..|c| - 2] == c[..|c| - 1][1..];
      }
    }
  }

  lemma {:induction false} SubseqSnoc(c: seq<string>, a: seq<string>, x: string)
    requires Subseq(c, a)
    ensures Subseq(c + [x], a + [x])
    decreases |a|
  {
    if a == [] {
      assert (c + [x])[1..] == [];
    } else {
      assert (a + [x])[1..] == a[1..] + [x];
      if c == [] {
        SubseqSnoc(c, a[1..], x);
      } else if Subseq(c, a[1..]) {
        SubseqSnoc(c, a[1..], x);
      } else {
        SubseqSnoc(c[1..], a[1..], x);
        assert (c + [x])[1..] == c[1..] + [x];
      }
    }
  }

  /** Trimming a common first line loses nothing. */
  lemma {:induction false} LcsPrefix(c: seq<string>, a: seq<string>, b: seq<string>, x: string)
    requires IsLcs(c, a, b)
    ensures IsLcs([x] + c, [x] + a, [x] + b)
  {
    assert ([x] + a)[1..] == a && ([x] + b)[1..] == b && ([x] + c)[1..] == c;
    forall d | Common(d, [x] + a, [x] + b) ensures |d| <= |[x] + c| {
      if d != [] {
        if d[0] == x {
          SubseqTail(d, [x] + a);
          SubseqTail(d, [x] + b);
          assert Common(d[1..], a, b);
        } else {
          assert Common(d, a, b);
        }
      }
    }
  }

  /** Trimming a common last line loses nothing. */
  lemma {:induction false} LcsSuffix(c: seq<string>, a: seq<string>, b: seq<string>, x: string)
    requires IsLcs(c, a, b)
    ensures IsLcs(c + [x], a + [x], b + [x])
  {
    SubseqSnoc(c, a, x);
    SubseqSnoc(c, b, x);
    forall d | Common(d, a + [x], b + [x]) ensures |d| <= |c + [x]| {
      if d != [] {
        SubseqInit(d, a, x);
        SubseqInit(d, b, x);
        assert Common(d[..|d| - 1], a, b);
      }
    }
  }

  lemma {:induction false} LcsPrefixes(p: seq<string>, c: seq<string>, a: seq<string>, b: seq<string>)
    requires IsLcs(c, a, b)
    ensures IsLcs(p + c, p + a, p + b)
  {
    if p == [] {
      assert p + c == c && p + a == a && p + b == b;
    } else {
      LcsPrefixes(p[1..], c, a, b);
      LcsPrefix(p[1..] + c, p[1..] + a, p[1..] + b, p[0]);
      assert forall t: seq<string> {:trigger p + t} :: [p[0]] + (p[1..] + t) == p + t;
    }
  }

  lemma {:induction false} LcsSuffixes(c: seq<string>, a: seq<string>, b: seq<string>, s: seq<string>)
    requires IsLcs(c, a, b)
    ensures IsLcs(c + s, a + s, b + s)
    decreases |s|
  {
    if s == [] {
      assert c + s == c && a + s == a && b + s == b;
    } else {
      LcsSuffix(c, a, b, s[0]);
      LcsSuffixes(c + [s[0]], a + [s[0]], b + [s[0]], s[1..]);
      assert forall t: seq<string> {:trigger t + s} :: (t + [s[0]]) + s[1..] == t + s;
    }
  }

  // ----- The recursion behind the table -----

  /** Nothing common to both texts is longer than the recursion says. */
  lemma {:induction false} LcsUpper(c: seq<string>, a: seq<string>, b: seq<string>)
    requires Common(c, a, b)
    ensures |c| <= Lcs(a, b)
    decreases |a| + |b|
  {
    if c != [] {
      if a[0] == b[0] {
        SubseqTail(c, a);
        SubseqTail(c, b);
        LcsUpper(c[1..], a[1..], b[1..]);
      } else if c[0] != a[0] {
        LcsUpper(c, a[1..], b);
      } else {
        LcsUpper(c, a, b[1..]);
      }
    }
  }

  /** One line more on either side adds at most one. */
  lemma {:induction false} LcsStep(a: seq<string>, b: seq<string>)
    ensures b != [] ==> Lcs(a, b[1..]) <= Lcs(a, b) <= 1 + Lcs(a, b[1..])
    ensures a != [] ==> Lcs(a[1..], b) <= Lcs(a, b) <= 1 + Lcs(a[1..], b)
    decreases |a| + |b|
  {
    if a != [] && b != [] {
      LcsStep(a[1..], b);
      LcsStep(a, b[1..]);
    }
  }

  lemma {:induction false} LcsAtMost(a: seq<string>, b: seq<string>)
    ensures Lcs(a, b) <= |a| && Lcs(a, b) <= |b|
    decreases |a| + |b|
  {
    if a != [] && b != [] {
      LcsAtMost(a[1..], b[1..]);
      LcsAtMost(a[1..], b);
      LcsAtMost(a, b[1..]);
    }
  }

  // ----- Diffs taken apart -----

  lemma {:induction false} OldSideAppend(ops: seq<Op>, more: seq<Op>)
    ensures OldSide(ops + more) == OldSide(ops) + OldSide(more)
  {
    if ops == [] {
      assert ops + more == more;
    } else {
      assert (ops + more)[1..] == ops[1..] + more;
      OldSideAppend(ops[1..], more);
    }
  }

  lemma {:induction false} NewSideAppend(ops: seq<Op>, more: seq<Op>)
    ensures NewSide(ops + more) == NewSide(ops) + NewSide(more)
  {
    if ops == [] {
      assert ops + more == more;
    } else {
      assert (ops + more)[1..] == ops[1..] + more;
      NewSideAppend(ops[1..], more);
    }
  }

  lemma {:induction false} KeptAppend(ops: seq<Op>, more: seq<Op>)
    ensures Kept(ops + more) == Kept(ops) + Kept(more)
  {
    if ops == [] {
      assert ops + more == more;
    } else {
      assert (ops + more)[1..] == ops[1..] + more;
      KeptAppend(ops[1..], more);
    }
  }

  lemma Sides(ops: seq<Op>, more: seq<Op>)
    ensures OldSide(ops + more) == OldSide(ops) + OldSide(more)
    ensures NewSide(ops + more) == NewSide(ops) + NewSide(more)
    ensures Kept(ops + more) == Kept(ops) + Kept(more)
  {
    OldSideAppend(ops, more);
    NewSideAppend(ops, more);
    KeptAppend(ops, more);
  }

  lemma {:induction false} NumberedAppend(ops: seq<Op>, more: seq<Op>, a: nat, b: nat)
    requires Numbered(ops, a, b) && Numbered(more, a + |OldSide(ops)|, b + |NewSide(ops)|)
    ensures Numbered(ops + more, a, b)
    decreases |ops|
  {
    if ops == [] {
      assert ops + more == more;
    } else {
      assert (ops + more)[1..] == ops[1..] + more;
      match ops[0]
      case Keep(_, _, _) => NumberedAppend(ops[1..], more, a + 1, b + 1);
      case Remove(_, _) => NumberedAppend(ops[1..], more, a + 1, b);
      case Add(_, _) => NumberedAppend(ops[1..], more, a, b + 1);
    }
  }

  /** One row more at the end. */
  lemma Push(ops: seq<Op>, op: Op, start: nat)
    requires Numbered(ops, start + 1, start + 1)
    requires op.Add? || op.a == start + |OldSide(ops)| + 1
    requires op.Remove? || op.b == start + |NewSide(ops)| + 1
    ensures Numbered(ops + [op], start + 1, start + 1)
    ensures OldSide(ops + [op]) == OldSide(ops) + if op.Add? then [] else [op.text]
    ensures NewSide(ops + [op]) == NewSide(ops) + if op.Remove? then [] else [op.text]
    ensures Kept(ops + [op]) == Kept(ops) + if op.Keep? then [op.text] else []
  {
    Sides(ops, [op]);
    NumberedAppend(ops, [op], start + 1, start + 1);
  }

  /** The unchanged lines of any diff are common to both sides. */
  lemma {:induction false} KeptIsCommon(ops: seq<Op>)
    ensures Common(Kept(ops), OldSide(ops), NewSide(ops))
  {
    if ops != [] {
      KeptIsCommon(ops[1..]);
      var c, a, b := Kept(ops[1..]), OldSide(ops[1..]), NewSide(ops[1..]);
      assert OldSide(ops) == if ops[0].Add? then a else [ops[0].text] + a;
      assert NewSide(ops) == if ops[0].Remove? then b else [ops[0].text] + b;
      assert Kept(ops) == if ops[0].Keep? then [ops[0].text] + c else c;
      if !ops[0].Add? {
        assert OldSide(ops)[1..] == a;
      }
      if !ops[0].Remove? {
        assert NewSide(ops)[1..] == b;
      }
      if ops[0].Keep? {
        assert Kept(ops)[1..] == c;
      }
    }
  }

  // ----- The table -----

  /** Cell `(x, y)` of a table with rows of `w` cells. */
  function Cell(x: nat, y: nat, w: nat): nat { x * w + y }

  lemma CellsApart(x: nat, y: nat, x': nat, y': nat, w: nat)
    requires y < w && y' < w
    ensures Cell(x, y, w) == Cell(x', y', w) ==> x == x' && y == y'
    ensures x < x' ==> Cell(x, y, w) < x' * w
  {
    if x < x' {
      RowsApart(x, x', w);
    } else if x' < x {
      RowsApart(x', x, w);
    }
  }

  lemma {:induction false} RowsApart(x: nat, x': nat, w: nat)
    requires x < x'
    ensures x * w + w <= x' * w
    decreases x' - x
  {
    assert (x + 1) * w == x * w + w;
    if x + 1 < x' {
      RowsApart(x + 1, x', w);
    }
  }

  /** Every LCS length of suffixes fits a `Uint32Array` element. */
  ghost predicate Fits(a: seq<string>, b: seq<string>) {
    forall x, y :: 0 <= x <= |a| && 0 <= y <= |b| ==> Lcs(a[x..], b[y..]) <= MAX_CELLS
  }

  /** Below the size limit no cell of the table wraps around. */
  lemma SmallFits(a: seq<string>, b: seq<string>)
    requires |a| * |b| <= MAX_CELLS
    ensures Fits(a, b)
  {
    forall x, y | 0 <= x <= |a| && 0 <= y <= |b| ensures Lcs(a[x..], b[y..]) <= MAX_CELLS {
      LcsAtMost(a[x..], b[y..]);
      if x < |a| && y < |b| {
        FactorAtMost(|a|, |b|);
      }
    }
  }

  lemma FactorAtMost(n: nat, m: nat)
    requires m > 0
    ensures n <= n * m
  {
  }

  ghost predicate CellRight(L: array<uint32>, a: seq<string>, b: seq<string>, x: nat, y: nat)
    requires x <= |a| && y <= |b|
    reads L
  {
    Cell(x, y, |b| + 1) < L.Length && L[Cell(x, y, |b| + 1)] as int == Lcs(a[x..], b[y..])
  }

  /** Rows from `x` on hold LCS lengths, row `x - 1` from column `y` on does, and so does the last column. */
  ghost predicate FilledFrom(L: array<uint32>, a: seq<string>, b: seq<string>, x: nat, y: nat)
    reads L
  {
    forall i, j :: 0 <= i <= |a| && 0 <= j <= |b| && (i >= x || (i + 1 == x && j >= y) || j == |b|) ==>
      CellRight(L, a, b, i, j)
  }

  /** A zeroed table is right where one suffix is empty. */
  method ZeroTable(a: seq<string>, b: seq<string>) returns (L: array<uint32>)
    ensures fresh(L) && FilledFrom(L, a, b, |a|, |b|)
  {
    L := new uint32[(|a| + 1) * (|b| + 1)](_ => 0);
    forall i, j | 0 <= i <= |a| && 0 <= j <= |b| && (i == |a| || j == |b|) ensures CellRight(L, a, b, i, j) {
      CellsApart(i, j, |a| + 1, 0, |b| + 1);
    }
  }

  /** Fills the flat table bottom-up: cell `(x, y)` is the LCS length of the suffixes from `x` and `y`. */
  method FillTable(a: seq<string>, b: seq<string>) returns (L: array<uint32>)
    requires Fits(a, b)
    ensures FilledFrom(L, a, b, 0, 0)
  {
    var n, m := |a|, |b|;
    L := ZeroTable(a, b);
    var x := n;
    while x > 0
      invariant 0 <= x <= n
      invariant FilledFrom(L, a, b, x, m)
    {
      x := x - 1;
      var y := m;
      while y > 0
        invariant 0 <= y <= m
        invariant FilledFrom(L, a, b, x + 1, y)
      {
        y := y - 1;
        FillCell(L, a, b, x, y);
      }
      assert FilledFrom(L, a, b, x, m);
    }
  }

  /** The table update for one cell, from the three cells after it. */
  method FillCell(L: array<uint32>, a: seq<string>, b: seq<string>, x: nat, y: nat)
    requires x < |a| && y < |b| && Fits(a, b)
    requires FilledFrom(L, a, b, x + 1, y + 1)
    modifies L
    ensures FilledFrom(L, a, b, x + 1, y)
  {
    var w := |b| + 1;
    assert a[x..][1..] == a[x + 1..] && b[y..][1..] == b[y + 1..];
    assert CellRight(L, a, b, x + 1, y) && CellRight(L, a, b, x, y + 1) && CellRight(L, a, b, x + 1, y + 1);
    assert Lcs(a[x..], b[y..]) <= MAX_CELLS;
    var down, right := L[Cell(x + 1, y, w)], L[Cell(x, y + 1, w)];
    L[Cell(x, y, w)] :=
      if a[x] == b[y] then L[Cell(x + 1, y + 1, w)] + 1 else if down > right then down else right;
    assert CellRight(L, a, b, x, y);
    forall i, j | 0 <= i <= |a| && 0 <= j <= |b| && (i != x || j != y) && old(CellRight(L, a, b, i, j))
      ensures CellRight(L, a, b, i, j)
    {
      CellsApart(i, j, x, y, w);
    }
  }

  // ----- The diff -----

  /** The walk's tie-break: dropping a line of the first text keeps at least as much. */
  function AtLeast(L: array<uint32>, a: seq<string>, b: seq<string>, p: nat, q: nat): (r: bool)
    requires p < |a| && q < |b| && FilledFrom(L, a, b, 0, 0)
    reads L
    ensures r <==> Lcs(a[p + 1..], b[q..]) >= Lcs(a[p..], b[q + 1..])
  {
    assert CellRight(L, a, b, p + 1, q) && CellRight(L, a, b, p, q + 1);
    L[Cell(p + 1, q, |b| + 1)] >= L[Cell(p, q + 1, |b| + 1)]
  }

  /** The walk so far: `ops` spells out the lines before `(p, q)` and can still reach an LCS. */
  ghost predicate Walked(ops: seq<Op>, a: seq<string>, b: seq<string>, p: nat, q: nat, start: nat)
    requires p <= |a| && q <= |b|
  {
    && IsDiff(ops, a[..p], b[..q])
    && Numbered(ops, start + 1, start + 1)
    && RemovalsFirst(ops)
    && |Kept(ops)| + Lcs(a[p..], b[q..]) == Lcs(a, b)
    // A last addition was taken because a removal here would lose length
    && (ops != [] && ops[|ops| - 1].Add? && p < |a| ==> Lcs(a[p + 1..], b[q..]) < Lcs(a[p..], b[q..]))
  }

  /** The rows of the trimmed middle, greedily along the table. */
  method Walk(L: array<uint32>, a: seq<string>, b: seq<string>, start: nat) returns (ops: seq<Op>)
    requires FilledFrom(L, a, b, 0, 0)
    ensures Walked(ops, a, b, |a|, |b|, start)
  {
    var n, m := |a|, |b|;
    ops := [];
    var p, q := 0, 0;
    assert a[0..] == a && b[0..] == b;
    while p < n || q < m
      invariant 0 <= p <= n && 0 <= q <= m
      invariant FilledFrom(L, a, b, 0, 0)
      invariant Walked(ops, a, b, p, q, start)
      decreases n - p + m - q
    {
      if p < n && q < m && a[p] == b[q] {
        WalkKeep(ops, a, b, p, q, start);
        ops := ops + [Keep(start + p + 1, start + q + 1, a[p])];
        p, q := p + 1, q + 1;
      } else if p < n && (q >= m || AtLeast(L, a, b, p, q)) {
        WalkRemove(ops, a, b, p, q, start);
        ops := ops + [Remove(start + p + 1, a[p])];
        p := p + 1;
      } else {
        WalkAdd(ops, a, b, p, q, start);
        ops := ops + [Add(start + q + 1, b[q])];
        q := q + 1;
      }
    }
  }

  lemma WalkKeep(ops: seq<Op>, a: seq<string>, b: seq<string>, p: nat, q: nat, start: nat)
    requires p < |a| && q < |b| && a[p] == b[q]
    requires Walked(ops, a, b, p, q, start)
    ensures Walked(ops + [Keep(start + p + 1, start + q + 1, a[p])], a, b, p + 1, q + 1, start)
  {
    var op := Keep(start + p + 1, start + q + 1, a[p]);
    Push(ops, op, start);
    assert a[p..][1..] == a[p + 1..] && a[..p] + [a[p]] == a[..p + 1];
    assert b[q..][1..] == b[q + 1..] && b[..q] + [b[q]] == b[..q + 1];
  }

  lemma WalkRemove(ops: seq<Op>, a: seq<string>, b: seq<string>, p: nat, q: nat, start: nat)
    requires p < |a| && q <= |b| && (q < |b| ==> a[p] != b[q])
    requires q < |b| ==> Lcs(a[p + 1..], b[q..]) >= Lcs(a[p..], b[q + 1..])
    requires Walked(ops, a, b, p, q, start)
    ensures Walked(ops + [Remove(start + p + 1, a[p])], a, b, p + 1, q, start)
  {
    var op := Remove(start + p + 1, a[p]);
    Push(ops, op, start);
    assert a[p..][1..] == a[p + 1..] && a[..p] + [a[p]] == a[..p + 1];
    assert q < |b| ==> b[q..][1..] == b[q + 1..];
    assert ops != [] ==> !ops[|ops| - 1].Add?;
  }

  lemma WalkAdd(ops: seq<Op>, a: seq<string>, b: seq<string>, p: nat, q: nat, start: nat)
    requires p <= |a| && q < |b| && (p < |a| ==> a[p] != b[q])
    requires p < |a| ==> Lcs(a[p + 1..], b[q..]) < Lcs(a[p..], b[q + 1..])
    requires Walked(ops, a, b, p, q, start)
    ensures Walked(ops + [Add(start + q + 1, b[q])], a, b, p, q + 1, start)
  {
    var op := Add(start + q + 1, b[q]);
    Push(ops, op, start);
    assert p < |a| ==> a[p..][1..] == a[p + 1..];
    assert b[q..][1..] == b[q + 1..] && b[..q] + [b[q]] == b[..q + 1];
    if p < |a| {
      LcsStep(a[p + 1..], b[q..]);
    }
  }

  // ----- Trimming -----

  /** The first `start` and the last `s` lines are common to both texts, and no more than that. */
  ghost predicate IsTrim(a: seq<string>, b: seq<string>, start: nat, s: nat) {
    && start + s <= |a| && start + s <= |b|
    && a[..start] == b[..start] && a[|a| - s..] == b[|b| - s..]
    && (start < |a| && start < |b| ==> a[start] != b[start])
    && (start + s < |a| && start + s < |b| ==> a[|a| - s - 1] != b[|b| - s - 1])
  }

  /** Whether a table for `n` and `m` lines stays below the size limit. */
  predicate SmallTable(n: nat, m: nat) { n * m <= MAX_CELLS }

  /** Whether what trimming leaves of two texts is below the size limit. */
  ghost predicate TableUsed(a: seq<string>, b: seq<string>) {
    exists start, s :: IsTrim(a, b, start, s) && SmallTable(|a| - start - s, |b| - start - s)
  }

  lemma TrimUnique(a: seq<string>, b: seq<string>, start: nat, s: nat, start': nat, s': nat)
    requires IsTrim(a, b, start, s) && IsTrim(a, b, start', s')
    ensures start == start' && s == s'
  {
    assert !(start < start') && !(start' < start);
    assert !(s < s') && !(s' < s);
  }

  /** Every line, removed. */
  method Removals(a: seq<string>, start: nat) returns (ops: seq<Op>)
    ensures OldSide(ops) == a && NewSide(ops) == [] && Kept(ops) == []
    ensures Numbered(ops, start + 1, start + 1)
    ensures forall i :: 0 <= i < |ops| ==> ops[i].Remove?
  {
    ops := [];
    for k := 0 to |a|
      invariant OldSide(ops) == a[..k] && NewSide(ops) == [] && Kept(ops) == []
      invariant Numbered(ops, start + 1, start + 1)
      invariant forall i :: 0 <= i < |ops| ==> ops[i].Remove?
    {
      var op := Remove(start + k + 1, a[k]);
      Push(ops, op, start);
      assert a[..k + 1] == a[..k] + [a[k]];
      ops := ops + [op];
    }
    assert a[..|a|] == a;
  }

  lemma PushAddition(ops: seq<Op>, op: Op)
    requires RemovalsFirst(ops) && op.Add?
    ensures RemovalsFirst(ops + [op])
  {
  }

  /** The diff shown for a middle too large for the table: everything out, everything in. */
  method Replacement(a: seq<string>, b: seq<string>, start: nat) returns (ops: seq<Op>)
    ensures IsDiff(ops, a, b) && Kept(ops) == []
    ensures Numbered(ops, start + 1, start + 1)
    ensures RemovalsFirst(ops)
  {
    ops := Removals(a, start);
    for k := 0 to |b|
      invariant OldSide(ops) == a && NewSide(ops) == b[..k] && Kept(ops) == []
      invariant Numbered(ops, start + 1, start + 1)
      invariant RemovalsFirst(ops)
    {
      var op := Add(start + k + 1, b[k]);
      Push(ops, op, start);
      PushAddition(ops, op);
      assert b[..k + 1] == b[..k] + [b[k]];
      ops := ops + [op];
    }
    assert b[..|b|] == b;
  }

  /** Counts the common first lines, then the common last lines of what is left. */
  method Trim(a: seq<string>, b: seq<string>) returns (start: nat, endA: int, endB: int)
    ensures start <= endA <= |a| && start <= endB <= |b| && |a| - endA == |b| - endB
    ensures IsTrim(a, b, start, |a| - endA) && a[endA..] == b[endB..]
  {
    start := 0;
    while start < |a| && start < |b| && a[start] == b[start]
      invariant 0 <= start <= |a| && start <= |b|
      invariant a[..start] == b[..start]
    {
      start := start + 1;
    }
    endA, endB := |a|, |b|;
    while endA > start && endB > start && a[endA - 1] == b[endB - 1]
      invariant start <= endA <= |a| && start <= endB <= |b| && |a| - endA == |b| - endB
      invariant a[endA..] == b[endB..]
    {
      endA, endB := endA - 1, endB - 1;
      assert a[endA..] == [a[endA]] + a[endA + 1..] && b[endB..] == [b[endB]] + b[endB + 1..];
    }
  }

  /** The diff of the trimmed middle: along the table, or one replacement when the table would be too large. */
  method DiffMiddle(a: seq<string>, b: seq<string>, start: nat) returns (ops: seq<Op>)
    ensures IsDiff(ops, a, b) && Numbered(ops, start + 1, start + 1) && RemovalsFirst(ops)
    ensures SmallTable(|a|, |b|) ==> IsLcs(Kept(ops), a, b)
  {
    if !SmallTable(|a|, |b|) {
      ops := Replacement(a, b, start);
    } else {
      SmallFits(a, b);
      var L := FillTable(a, b);
      ops := Walk(L, a, b, start);
      WalkDone(ops, a, b, start);
    }
  }

  lemma WalkDone(ops: seq<Op>, a: seq<string>, b: seq<string>, start: nat)
    requires Walked(ops, a, b, |a|, |b|, start)
    ensures IsDiff(ops, a, b) && IsLcs(Kept(ops), a, b)
  {
    assert a[..|a|] == a && b[..|b|] == b;
    KeptIsCommon(ops);
    forall d | Common(d, a, b) ensures |d| <= |Kept(ops)| {
      LcsUpper(d, a, b);
    }
  }

  /** A right diff of two texts; `best` when nothing longer can be kept. */
  ghost predicate RightDiff(ops: seq<Op>, a: seq<string>, b: seq<string>, best: bool) {
    && IsDiff(ops, a, b)
    && Numbered(ops, 1, 1)
    && RemovalsFirst(ops)
    && (best ==> IsLcs(Kept(ops), a, b))
  }

  lemma SameDiff(ops: seq<Op>, a: seq<string>, b: seq<string>, x: bool, a': seq<string>, b': seq<string>, y: bool)
    requires RightDiff(ops, a, b, x) && a == a' && b == b' && x == y
    ensures RightDiff(ops, a', b', y)
  {
  }

  /** One more line common to both texts. */
  lemma PushKeep(ops: seq<Op>, a: seq<string>, b: seq<string>, best: bool, i: nat, j: nat)
    requires i < |a| && j < |b| && a[i] == b[j]
    requires RightDiff(ops, a[..i], b[..j], best)
    ensures RightDiff(ops + [Keep(i + 1, j + 1, a[i])], a[..i + 1], b[..j + 1], best)
  {
    var x, y, t := a[..i], b[..j], a[i];
    assert x + [t] == a[..i + 1] && y + [t] == b[..j + 1];
    Push(ops, Keep(i + 1, j + 1, t), 0);
    if best {
      LcsSuffix(Kept(ops), x, y, t);
    }
  }

  /** The rows of the middle after those of the common first lines. */
  lemma PushMiddle(ops: seq<Op>, pre: seq<string>, mid: seq<Op>, x: seq<string>, y: seq<string>, best: bool)
    requires RightDiff(ops, pre, pre, true)
    requires IsDiff(mid, x, y) && Numbered(mid, |pre| + 1, |pre| + 1) && RemovalsFirst(mid)
    requires best ==> IsLcs(Kept(mid), x, y)
    requires ops == [] || ops[|ops| - 1].Keep?
    ensures RightDiff(ops + mid, pre + x, pre + y, best)
  {
    Sides(ops, mid);
    NumberedAppend(ops, mid, 1, 1);
    if best {
      assert Kept(ops) == pre by {
        SubseqSelf(pre);
        assert Common(pre, pre, pre);
        SameLength(Kept(ops), pre);
      }
      LcsPrefixes(pre, Kept(mid), x, y);
    }
  }

  /** `diffLines`: the rows shown for two texts. */
  method DiffLines(aText: string, bText: string) returns (ops: seq<Op>)
    ensures Join(OldSide(ops), '\n') == aText && Join(NewSide(ops), '\n') == bText
    ensures var a, b := Split(aText, '\n'), Split(bText, '\n'); RightDiff(ops, a, b, TableUsed(a, b))
  {
    JoinSplit(aText, '\n');
    JoinSplit(bText, '\n');
    ops := DiffSplit(Split(aText, '\n'), Split(bText, '\n'));
  }

  method DiffSplit(a: seq<string>, b: seq<string>) returns (ops: seq<Op>)
    ensures RightDiff(ops, a, b, TableUsed(a, b))
  {
    var start, endA, endB := Trim(a, b);
    ops := DiffTrimmed(a, b, start, endA, endB);
    TableUsedWhen(a, b, start, |a| - endA, endA - start, endB - start);
    ghost var used := TableUsed(a, b);
    SameDiff(ops, a, b, SmallTable(endA - start, endB - start), a, b, used);
  }

  method DiffTrimmed(a: seq<string>, b: seq<string>, start: nat, endA: int, endB: int) returns (ops: seq<Op>)
    requires start <= endA <= |a| && start <= endB <= |b| && |a| - endA == |b| - endB
    requires a[..start] == b[..start] && a[endA..] == b[endB..]
    ensures RightDiff(ops, a, b, SmallTable(endA - start, endB - start))
  {
    var head := KeepHead(a, b, start);
    var mid := DiffMiddle(a[start..endA], b[start..endB], start);
    ghost var best := SmallTable(endA - start, endB - start);
    MiddleDone(head, mid, a, b, start, endA, endB, best);
    ops := KeepTail(head + mid, a, b, endA, endB, best);
    assert a[..|a|] == a && b[..|b|] == b;
    SameDiff(ops, a[..|a|], b[..|b|], best, a, b, best);
  }

  method KeepHead(a: seq<string>, b: seq<string>, start: nat) returns (ops: seq<Op>)
    requires start <= |a| && start <= |b| && a[..start] == b[..start]
    ensures RightDiff(ops, a[..start], b[..start], true)
    ensures ops == [] || ops[|ops| - 1].Keep?
  {
    ops := [];
    for i := 0 to start
      invariant RightDiff(ops, a[..i], b[..i], true)
      invariant ops == [] || ops[|ops| - 1].Keep?
    {
      assert a[..start][i] == b[..start][i];
      PushKeep(ops, a, b, true, i, i);
      ops := ops + [Keep(i + 1, i + 1, a[i])];
    }
  }

  method KeepTail(before: seq<Op>, a: seq<string>, b: seq<string>, endA: int, endB: int, ghost best: bool)
    returns (ops: seq<Op>)
    requires 0 <= endA <= |a| && 0 <= endB <= |b| && a[endA..] == b[endB..] && |a| - endA == |b| - endB
    requires RightDiff(before, a[..endA], b[..endB], best)
    ensures RightDiff(ops, a[..|a|], b[..|b|], best)
  {
    ops := before;
    for i := endA to |a|
      invariant RightDiff(ops, a[..i], b[..i - endA + endB], best)
    {
      TailAt(a, b, endA, endB, i);
      PushKeep(ops, a, b, best, i, i - endA + endB);
      ops := ops + [Keep(i + 1, i - endA + endB + 1, a[i])];
    }
  }

  lemma TailAt(a: seq<string>, b: seq<string>, endA: int, endB: int, i: nat)
    requires 0 <= endA <= i < |a| && 0 <= endB <= |b| && a[endA..] == b[endB..]
    ensures 0 <= i - endA + endB < |b| && a[i] == b[i - endA + endB]
  {
    assert a[i] == a[endA..][i - endA];
  }

  lemma MiddleDone(ops: seq<Op>, mid: seq<Op>, a: seq<string>, b: seq<string>,
                   start: nat, endA: int, endB: int, best: bool)
    requires start <= endA <= |a| && start <= endB <= |b| && a[..start] == b[..start]
    requires RightDiff(ops, a[..start], b[..start], true) && (ops == [] || ops[|ops| - 1].Keep?)
    requires IsDiff(mid, a[start..endA], b[start..endB]) && Numbered(mid, start + 1, start + 1) && RemovalsFirst(mid)
    requires best ==> IsLcs(Kept(mid), a[start..endA], b[start..endB])
    ensures RightDiff(ops + mid, a[..endA], b[..endB], best)
  {
    PushMiddle(ops, a[..start], mid, a[start..endA], b[start..endB], best);
    assert a[..start] + a[start..endA] == a[..endA] && a[..start] + b[start..endB] == b[..endB];
    SameDiff(ops + mid, a[..start] + a[start..endA], a[..start] + b[start..endB], best, a[..endA], b[..endB], best);
  }

  lemma TableUsedWhen(a: seq<string>, b: seq<string>, start: nat, s: nat, n: int, m: int)
    requires IsTrim(a, b, start, s) && n == |a| - start - s && m == |b| - start - s
    ensures TableUsed(a, b) <==> n * m <= 4_000_000
  {
    if TableUsed(a, b) {
      var start', s' :| IsTrim(a, b, start', s') && SmallTable(|a| - start' - s', |b| - start' - s');
      TrimUnique(a, b, start, s, start', s');
    }
  }

  // ----- What the counts say -----

  /** The counts shown beside a diff. */
  method CountChanges(ops: seq<Op>) returns (added: nat, removed: nat)
    ensures added + |Kept(ops)| == |NewSide(ops)|
    ensures removed + |Kept(ops)| == |OldSide(ops)|
  {
    added, removed := 0, 0;
    assert ops[..|ops|] == ops;
    for i := 0 to |ops|
      invariant added + |Kept(ops[..i])| == |NewSide(ops[..i])|
      invariant removed + |Kept(ops[..i])| == |OldSide(ops[..i])|
    {
      assert ops[..i + 1] == ops[..i] + [ops[i]];
      Sides(ops[..i], [ops[i]]);
      if ops[i].Add? {
        added := added + 1;
      }
      if ops[i].Remove? {
        removed := removed + 1;
      }
    }
  }

  /** Below the size limit no other diff of the same texts changes fewer lines. */
  lemma FewestChanges(ops: seq<Op>, other: seq<Op>, a: seq<string>, b: seq<string>)
    requires IsDiff(ops, a, b) && IsLcs(Kept(ops), a, b)
    requires IsDiff(other, a, b)
    ensures |NewSide(ops)| - |Kept(ops)| <= |NewSide(other)| - |Kept(other)|
    ensures |OldSide(ops)| - |Kept(ops)| <= |OldSide(other)| - |Kept(other)|
  {
    KeptIsCommon(other);
  }

  /** In a diff of a text with itself every line is kept. */
  lemma SameTextKept(ops: seq<Op>, a: seq<string>, b: seq<string>)
    requires RightDiff(ops, a, b, TableUsed(a, b))
    ensures a == b ==> |Kept(ops)| >= |a|
  {
    if a == b {
      assert IsTrim(a, b, |a|, 0) && SmallTable(0, 0);
      SubseqSelf(a);
      assert Common(a, a, b);
    }
  }

  /** Both counts are zero, "No differences.", exactly when the texts are equal. */
  method NoDifferences(aText: string, bText: string) returns (same: bool)
    ensures same <==> aText == bText
  {
    var ops := DiffLines(aText, bText);
    var added, removed := CountChanges(ops);
    same := added == 0 && removed == 0;
    SameTextKept(ops, Split(aText, '\n'), Split(bText, '\n'));
    KeptIsCommon(ops);
    if same {
      SameLength(Kept(ops), OldSide(ops));
      SameLength(Kept(ops), NewSide(ops));
    }
  }
}
