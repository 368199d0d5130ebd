/**
 * Matching the lines of two texts: trim the common ends, fill the table of longest-common-subsequence lengths for
 * the middle, walk it. The pairs found are a longest possible increasing matching whenever the table is built.
 */
module LineMatch {

  type Lines = seq<string>

  const TABLE_LIMIT: nat := 4_000_000

  function Max(a: nat, b: nat): nat {
    if a >= b then a else b
  }

  /** A rectangle of line numbers: from `(i, j)` up to but not including `(m, n)`. */
  datatype Box = Box(i: nat, j: nat, m: nat, n: nat)

  predicate BoxOf(a: Lines, b: Lines, x: Box) {
    x.i <= x.m <= |a| && x.j <= x.n <= |b|
  }

  /** Length of a longest common subsequence of the lines in the box. */
  function Lcs(a: Lines, b: Lines, x: Box): nat
    requires BoxOf(a, b, x)
    decreases x.m - x.i + x.n - x.j
  {
    if x.i == x.m || x.j == x.n then 0
    else if a[x.i] == b[x.j] then 1 + Lcs(a, b, x.(i := x.i + 1, j := x.j + 1))
    else Max(Lcs(a, b, x.(i := x.i + 1)), Lcs(a, b, x.(j := x.j + 1)))
  }

  /** The walk through the table from the first corner of the box. */
  function Walk(a: Lines, b: Lines, x: Box): seq<(nat, nat)>
    requires BoxOf(a, b, x)
    decreases x.m - x.i + x.n - x.j
  {
    if x.i == x.m || x.j == x.n then []
    else if a[x.i] == b[x.j] then [(x.i, x.j)] + Walk(a, b, x.(i := x.i + 1, j := x.j + 1))
    else if Lcs(a, b, x.(i := x.i + 1)) >= Lcs(a, b, x.(j := x.j + 1)) then Walk(a, b, x.(i := x.i + 1))
    else Walk(a, b, x.(j := x.j + 1))
  }

  // ---------------------------------------------------------------- matchings

  predicate Match(a: Lines, b: Lines, p: (nat, nat), x: Box) {
    && x.i <= p.0 < x.m <= |a| && x.j <= p.1 < x.n <= |b|
    && a[p.0] == b[p.1]
  }

  predicate Before(p: (nat, nat), q: (nat, nat)) {
    p.0 < q.0 && p.1 < q.1
  }

  /** Pairs of equal lines in the box, both coordinates strictly increasing. */
  ghost predicate Matching(a: Lines, b: Lines, ps: seq<(nat, nat)>, x: Box) {
    && (forall k :: 0 <= k < |ps| ==> Match(a, b, ps[k], x))
    && (forall k, l :: 0 <= k < l < |ps| ==> Before(ps[k], ps[l]))
  }

  lemma JoinMatchings(a: Lines, b: Lines, ps: seq<(nat, nat)>, qs: seq<(nat, nat)>, x: Box, y: Box)
    requires Matching(a, b, ps, x) && Matching(a, b, qs, y)
    requires x.i <= x.m == y.i <= y.m <= |a| && x.j <= x.n == y.j <= y.n <= |b|
    ensures Matching(a, b, ps + qs, Box(x.i, x.j, y.m, y.n))
  {
    var rs, z := ps + qs, Box(x.i, x.j, y.m, y.n);
    forall k | 0 <= k < |rs| ensures Match(a, b, rs[k], z) {
      assert if k < |ps| then Match(a, b, ps[k], x) else Match(a, b, qs[k - |ps|], y);
    }
    forall k, l | 0 <= k < l < |rs| ensures Before(rs[k], rs[l]) {
      if l < |ps| {
        assert Before(ps[k], ps[l]);
      } else if k >= |ps| {
        assert Before(qs[k - |ps|], qs[l - |ps|]);
      } else {
        assert Match(a, b, ps[k], x) && Match(a, b, qs[l - |ps|], y);
      }
    }
  }

  lemma WiderMatching(a: Lines, b: Lines, ps: seq<(nat, nat)>, x: Box, y: Box)
    requires Matching(a, b, ps, x) && y.i <= x.i && y.j <= x.j && x.m <= y.m <= |a| && x.n <= y.n <= |b|
    ensures Matching(a, b, ps, y)
  {
    forall k | 0 <= k < |ps| ensures Match(a, b, ps[k], y) {
      assert Match(a, b, ps[k], x);
    }
  }

  lemma {:induction false} WalkMatches(a: Lines, b: Lines, x: Box)
    requires BoxOf(a, b, x)
    ensures Matching(a, b, Walk(a, b, x), x) && |Walk(a, b, x)| == Lcs(a, b, x)
    decreases x.m - x.i + x.n - x.j
  {
    if x.i < x.m && x.j < x.n {
      var both, down, right := x.(i := x.i + 1, j := x.j + 1), x.(i := x.i + 1), x.(j := x.j + 1);
      if a[x.i] == b[x.j] {
        WalkMatches(a, b, both);
        JoinMatchings(a, b, [(x.i, x.j)], Walk(a, b, both), Box(x.i, x.j, x.i + 1, x.j + 1), both);
      } else if Lcs(a, b, down) >= Lcs(a, b, right) {
        WalkMatches(a, b, down);
        WiderMatching(a, b, Walk(a, b, down), down, x);
      } else {
        WalkMatches(a, b, right);
        WiderMatching(a, b, Walk(a, b, right), right, x);
      }
    }
  }

  /** Behind its first pair a matching stays right of and below it. */
  lemma RestMatches(a: Lines, b: Lines, ps: seq<(nat, nat)>, x: Box)
    requires ps != [] && Matching(a, b, ps, x)
    ensures Matching(a, b, ps[1..], x.(i := x.i + 1, j := x.j + 1))
  {
    var qs := ps[1..];
    forall k | 0 <= k < |qs| ensures Match(a, b, qs[k], x.(i := x.i + 1, j := x.j + 1)) {
      assert Match(a, b, ps[0], x) && Match(a, b, ps[k + 1], x) && Before(ps[0], ps[k + 1]);
    }
    forall k, l | 0 <= k < l < |qs| ensures Before(qs[k], qs[l]) {
      assert Before(ps[k + 1], ps[l + 1]);
    }
  }

  lemma FrontMatches(a: Lines, b: Lines, ps: seq<(nat, nat)>, x: Box)
    requires ps != [] && Matching(a, b, ps, x) && x.m > 0 && x.n > 0
    ensures Matching(a, b, ps[..|ps| - 1], x.(m := x.m - 1, n := x.n - 1))
  {
    var last := |ps| - 1;
    var qs := ps[..last];
    forall k | 0 <= k < |qs| ensures Match(a, b, qs[k], x.(m := x.m - 1, n := x.n - 1)) {
      assert Match(a, b, ps[last], x) && Match(a, b, ps[k], x) && Before(ps[k], ps[last]);
    }
    forall k, l | 0 <= k < l < |qs| ensures Before(qs[k], qs[l]) {
      assert Before(ps[k], ps[l]);
    }
  }

  /** A matching whose first pair is further down, or further right, lies in the smaller box. */
  lemma LaterMatching(a: Lines, b: Lines, ps: seq<(nat, nat)>, x: Box, y: Box)
    requires ps != [] && Matching(a, b, ps, x) && y == x.(i := y.i, j := y.j)
    requires y.i <= ps[0].0 && y.j <= ps[0].1
    ensures Matching(a, b, ps, y)
  {
    forall k | 0 <= k < |ps| ensures Match(a, b, ps[k], y) {
      assert Match(a, b, ps[k], x) && (k > 0 ==> Before(ps[0], ps[k]));
    }
  }

  /** No matching is longer than the table says. */
  lemma {:induction false} LcsBounds(a: Lines, b: Lines, ps: seq<(nat, nat)>, x: Box)
    requires BoxOf(a, b, x) && Matching(a, b, ps, x)
    ensures |ps| <= Lcs(a, b, x)
    decreases x.m - x.i + x.n - x.j
  {
    if ps != [] {
      assert Match(a, b, ps[0], x);
      var both, down, right := x.(i := x.i + 1, j := x.j + 1), x.(i := x.i + 1), x.(j := x.j + 1);
      if a[x.i] == b[x.j] {
        RestMatches(a, b, ps, x);
        LcsBounds(a, b, ps[1..], both);
      } else if ps[0].0 > x.i {
        LaterMatching(a, b, ps, x, down);
        LcsBounds(a, b, ps, down);
      } else {
        LaterMatching(a, b, ps, x, right);
        LcsBounds(a, b, ps, right);
      }
    }
  }

  ghost predicate Bounded(a: Lines, b: Lines, x: Box, n: nat) {
    forall ps :: Matching(a, b, ps, x) ==> |ps| <= n
  }

  lemma LcsIsBound(a: Lines, b: Lines, x: Box)
    requires BoxOf(a, b, x)
    ensures Bounded(a, b, x, Lcs(a, b, x))
  {
    forall ps | Matching(a, b, ps, x) ensures |ps| <= Lcs(a, b, x) {
      LcsBounds(a, b, ps, x);
    }
  }

  // ---------------------------------------------------------------- common ends

  /** The first `p` and the last `s` lines of both agree. */
  predicate CommonEnds(a: Lines, b: Lines, p: nat, s: nat) {
    p + s <= |a| && p + s <= |b| && a[..p] == b[..p] && a[|a| - s..] == b[|b| - s..]
  }

  function PrefixLen(a: Lines, b: Lines, p: nat): (n: nat)
    requires CommonEnds(a, b, p, 0)
    ensures CommonEnds(a, b, n, 0)
    decreases |a| - p
  {
    if p < |a| && p < |b| && a[p] == b[p] then
      assert a[..p + 1] == a[..p] + [a[p]] && b[..p + 1] == b[..p] + [b[p]];
      PrefixLen(a, b, p + 1)
    else p
  }

  function SuffixLen(a: Lines, b: Lines, p: nat, s: nat): (n: nat)
    requires CommonEnds(a, b, p, s)
    ensures CommonEnds(a, b, p, n)
    decreases |a| - s
  {
    if s < |a| - p && s < |b| - p && a[|a| - 1 - s] == b[|b| - 1 - s] then
      assert a[|a| - 1 - s..] == [a[|a| - 1 - s]] + a[|a| - s..] && b[|b| - 1 - s..] == [b[|b| - 1 - s]] + b[|b| - s..];
      SuffixLen(a, b, p, s + 1)
    else s
  }

  /** `len` pairs side by side from `(i, j)` on. */
  function Diagonal(i: nat, j: nat, len: nat): seq<(nat, nat)> {
    seq(len, k requires 0 <= k < len => (i + k, j + k))
  }

  lemma DiagonalMatches(a: Lines, b: Lines, i: nat, j: nat, len: nat)
    requires i + len <= |a| && j + len <= |b| && a[i..i + len] == b[j..j + len]
    ensures Matching(a, b, Diagonal(i, j, len), Box(i, j, i + len, j + len))
  {
    var ps := Diagonal(i, j, len);
    forall k | 0 <= k < len ensures Match(a, b, ps[k], Box(i, j, i + len, j + len)) {
      assert a[i..i + len][k] == b[j..j + len][k];
    }
  }

  /** The middle, with the common ends set aside. */
  function MiddleOf(a: Lines, b: Lines): (x: Box)
    ensures IsMiddle(a, b, x)
  {
    var p := PrefixLen(a, b, 0);
    var s := SuffixLen(a, b, p, 0);
    Box(p, p, |a| - s, |b| - s)
  }

  /** The table is built only for a middle of limited size. */
  predicate TableFits(x: Box)
    requires x.i <= x.m && x.j <= x.n
  {
    (x.m - x.i) * (x.n - x.j) <= TABLE_LIMIT
  }

  predicate IsMiddle(a: Lines, b: Lines, x: Box) {
    BoxOf(a, b, x) && x.i == x.j && |a| - x.m == |b| - x.n && CommonEnds(a, b, x.i, |a| - x.m)
  }

  /** The matched pairs: the common prefix, the walk through the middle, the common suffix. */
  function PairsAround(a: Lines, b: Lines, x: Box): seq<(nat, nat)>
    requires BoxOf(a, b, x)
  {
    Diagonal(0, 0, x.i) + (if TableFits(x) then Walk(a, b, x) else []) + Diagonal(x.m, x.n, |a| - x.m)
  }

  function Pairs(a: Lines, b: Lines): seq<(nat, nat)> {
    PairsAround(a, b, MiddleOf(a, b))
  }

  function Whole(a: Lines, b: Lines): Box {
    Box(0, 0, |a|, |b|)
  }

  lemma EndsMatch(a: Lines, b: Lines, p: nat, s: nat)
    requires CommonEnds(a, b, p, s)
    ensures Matching(a, b, Diagonal(0, 0, p), Box(0, 0, p, p))
    ensures Matching(a, b, Diagonal(|a| - s, |b| - s, s), Box(|a| - s, |b| - s, |a|, |b|))
  {
    assert a[0..p] == a[..p] && b[0..p] == b[..p];
    DiagonalMatches(a, b, 0, 0, p);
    assert a[|a| - s..|a| - s + s] == a[|a| - s..] && b[|b| - s..|b| - s + s] == b[|b| - s..];
    DiagonalMatches(a, b, |a| - s, |b| - s, s);
  }

  lemma JoinThree(a: Lines, b: Lines, ps: seq<(nat, nat)>, qs: seq<(nat, nat)>, rs: seq<(nat, nat)>, x: Box)
    requires BoxOf(a, b, x) && Matching(a, b, qs, x)
    requires Matching(a, b, ps, Box(0, 0, x.i, x.j)) && Matching(a, b, rs, Box(x.m, x.n, |a|, |b|))
    ensures Matching(a, b, ps + qs + rs, Whole(a, b))
  {
    JoinMatchings(a, b, ps, qs, Box(0, 0, x.i, x.j), x);
    JoinMatchings(a, b, ps + qs, rs, Box(0, 0, x.m, x.n), Box(x.m, x.n, |a|, |b|));
  }

  lemma PairsAroundMatch(a: Lines, b: Lines, x: Box)
    requires IsMiddle(a, b, x)
    ensures Matching(a, b, PairsAround(a, b, x), Whole(a, b))
  {
    EndsMatch(a, b, x.i, |a| - x.m);
    WalkMatches(a, b, x);
    var mid := if TableFits(x) then Walk(a, b, x) else [];
    JoinThree(a, b, Diagonal(0, 0, x.i), mid, Diagonal(x.m, x.n, |a| - x.m), x);
  }

  /** The pairs are always an increasing matching of equal lines. */
  lemma PairsMatch(a: Lines, b: Lines)
    ensures Matching(a, b, Pairs(a, b), Whole(a, b))
  {
    PairsAroundMatch(a, b, MiddleOf(a, b));
  }

  /** No line of one text occurs in the other, within the box. */
  predicate NothingCommon(a: Lines, b: Lines, x: Box)
    requires BoxOf(a, b, x)
  {
    forall i, j :: x.i <= i < x.m && x.j <= j < x.n ==> a[i] != b[j]
  }

  lemma NothingToMatch(a: Lines, b: Lines, x: Box)
    requires BoxOf(a, b, x)
    ensures Lcs(a, b, x) == 0 <==> NothingCommon(a, b, x)
  {
    if Lcs(a, b, x) == 0 {
      forall i, j | x.i <= i < x.m && x.j <= j < x.n ensures a[i] != b[j] {
        if a[i] == b[j] {
          LcsBounds(a, b, [(i, j)], x);
        }
      }
    } else {
      WalkMatches(a, b, x);
      assert Match(a, b, Walk(a, b, x)[0], x);
    }
  }

  /** The matching the table would have given, whether or not it is built. */
  lemma TableWouldMatch(a: Lines, b: Lines, x: Box)
    requires IsMiddle(a, b, x)
    ensures var ps := Diagonal(0, 0, x.i) + Walk(a, b, x) + Diagonal(x.m, x.n, |a| - x.m);
            Matching(a, b, ps, Whole(a, b)) && |ps| == x.i + Lcs(a, b, x) + (|a| - x.m)
  {
    EndsMatch(a, b, x.i, |a| - x.m);
    WalkMatches(a, b, x);
    JoinThree(a, b, Diagonal(0, 0, x.i), Walk(a, b, x), Diagonal(x.m, x.n, |a| - x.m), x);
  }

  /**
   * They are a longest matching exactly if the middle is small enough for the table or has no line in common: the
   * middle is what is left when the common ends are set aside.
   */
  lemma PairsAreLongestIff(a: Lines, b: Lines)
    ensures Bounded(a, b, Whole(a, b), |Pairs(a, b)|)
            <==> TableFits(MiddleOf(a, b)) || NothingCommon(a, b, MiddleOf(a, b))
  {
    var x := MiddleOf(a, b);
    WalkMatches(a, b, x);
    NothingToMatch(a, b, x);
    LcsIsBound(a, b, x);
    EndsBound(a, b, x.i, |a| - x.m, Lcs(a, b, x));
    TableWouldMatch(a, b, x);
  }

  /** Two thousand lines with one in common, in the middle: too many cells for the table. */
  function LongText(line: string): Lines {
    seq(2001, i => if i == 1000 then "common" else line)
  }

  /** The common line is not matched, although it could be. */
  lemma LongTextsAreNotMatched(a: Lines, b: Lines)
    requires a == LongText("mine") && b == LongText("theirs")
    ensures Pairs(a, b) == [] && Matching(a, b, [(1000, 1000)], Whole(a, b))
  {
    assert a[0] == "mine" && b[0] == "theirs" && a[2000] == "mine" && b[2000] == "theirs";
    assert "mine"[0] != "theirs"[0];
    assert PrefixLen(a, b, 0) == 0;
    assert SuffixLen(a, b, 0, 0) == 0;
    assert MiddleOf(a, b) == Box(0, 0, 2001, 2001);
    assert 2001 * 2001 > TABLE_LIMIT;
    assert a[1000] == b[1000];
    assert Match(a, b, (1000, 1000), Whole(a, b));
  }

  /** One more common line in front adds at most one pair. */
  lemma FrontLineBound(a: Lines, b: Lines, x: Box, n: nat)
    requires x.i > 0 && x.j > 0 && Bounded(a, b, x, n)
    ensures Bounded(a, b, x.(i := x.i - 1, j := x.j - 1), n + 1)
  {
    var y := x.(i := x.i - 1, j := x.j - 1);
    forall ps | Matching(a, b, ps, y) ensures |ps| <= n + 1 {
      if ps != [] {
        RestMatches(a, b, ps, y);
        assert Matching(a, b, ps[1..], x);
      }
    }
  }

  lemma BackLineBound(a: Lines, b: Lines, x: Box, n: nat)
    requires x.m < |a| && x.n < |b| && Bounded(a, b, x, n)
    ensures Bounded(a, b, x.(m := x.m + 1, n := x.n + 1), n + 1)
  {
    var y := x.(m := x.m + 1, n := x.n + 1);
    forall ps | Matching(a, b, ps, y) ensures |ps| <= n + 1 {
      if ps != [] {
        FrontMatches(a, b, ps, y);
        assert Matching(a, b, ps[..|ps| - 1], x);
      }
    }
  }

  /** Setting the common ends aside loses nothing: they add exactly their own length. */
  lemma {:induction false} EndsBound(a: Lines, b: Lines, p: nat, s: nat, n: nat)
    requires p + s <= |a| && p + s <= |b| && Bounded(a, b, Box(p, p, |a| - s, |b| - s), n)
    ensures Bounded(a, b, Box(0, 0, |a|, |b|), p + n + s)
    decreases p + s
  {
    if p > 0 {
      FrontLineBound(a, b, Box(p, p, |a| - s, |b| - s), n);
      EndsBound(a, b, p - 1, s, n + 1);
    } else if s > 0 {
      BackLineBound(a, b, Box(p, p, |a| - s, |b| - s), n);
      EndsBound(a, b, p, s - 1, n + 1);
    }
  }

  // ---------------------------------------------------------------- the routine

  function At(x: Box, i: nat, j: nat): Box {
    x.(i := x.i + i, j := x.j + j)
  }

  ghost predicate IsTable(a: Lines, b: Lines, x: Box, dp: array2<nat>) {
    BoxOf(a, b, x) && dp.Length0 == x.m - x.i + 1 && dp.Length1 == x.n - x.j + 1
  }

  /** The table is right from row `i` on. */
  ghost predicate RowsDone(a: Lines, b: Lines, x: Box, dp: array2<nat>, i: nat)
    requires IsTable(a, b, x, dp)
    reads dp
  {
    forall k, l :: i <= k < dp.Length0 && 0 <= l < dp.Length1 ==> dp[k, l] == Lcs(a, b, At(x, k, l))
  }

  /** The last column above row `i` is still zero. */
  ghost predicate EdgeIsZero(dp: array2<nat>, i: nat)
    reads dp
  {
    forall k, l :: 0 <= k < i && k < dp.Length0 && 0 <= l < dp.Length1 && l + 1 == dp.Length1 ==> dp[k, l] == 0
  }

  method FillRow(a: Lines, b: Lines, x: Box, dp: array2<nat>, i: nat)
    requires IsTable(a, b, x, dp) && i < x.m - x.i && RowsDone(a, b, x, dp, i + 1) && EdgeIsZero(dp, i + 1)
    modifies dp
    ensures RowsDone(a, b, x, dp, i) && EdgeIsZero(dp, i)
  {
    var m := x.n - x.j;
    for j := m downto 0
      invariant RowsDone(a, b, x, dp, i + 1) && EdgeIsZero(dp, i + 1)
      invariant forall l :: j <= l <= m ==> dp[i, l] == Lcs(a, b, At(x, i, l))
    {
      if a[x.i + i] == b[x.j + j] {
        dp[i, j] := 1 + dp[i + 1, j + 1];
      } else {
        dp[i, j] := Max(dp[i + 1, j], dp[i, j + 1]);
      }
    }
  }

  method FillTable(a: Lines, b: Lines, x: Box) returns (dp: array2<nat>)
    requires BoxOf(a, b, x)
    ensures IsTable(a, b, x, dp) && fresh(dp) && RowsDone(a, b, x, dp, 0)
  {
    var n, m := x.m - x.i, x.n - x.j;
    dp := new nat[n + 1, m + 1]((i, j) => 0);
    for i := n downto 0
      invariant RowsDone(a, b, x, dp, i) && EdgeIsZero(dp, i)
    {
      FillRow(a, b, x, dp, i);
    }
  }

  lemma Reassociate(ps: seq<(nat, nat)>, q: (nat, nat), rest: seq<(nat, nat)>)
    ensures ps + ([q] + rest) == (ps + [q]) + rest
  {}

  /** One step of the walk. */
  lemma WalkStep(a: Lines, b: Lines, y: Box)
    requires BoxOf(a, b, y) && y.i < y.m && y.j < y.n
    ensures Walk(a, b, y)
         == if a[y.i] == b[y.j] then [(y.i, y.j)] + Walk(a, b, At(y, 1, 1))
            else if Lcs(a, b, At(y, 1, 0)) >= Lcs(a, b, At(y, 0, 1)) then Walk(a, b, At(y, 1, 0))
            else Walk(a, b, At(y, 0, 1))
  {}

  lemma AtAt(x: Box, i: nat, j: nat, di: nat, dj: nat)
    ensures At(At(x, i, j), di, dj) == At(x, i + di, j + dj)
  {}

  /** What the table says about the two neighbours. */
  lemma TableAt(a: Lines, b: Lines, x: Box, dp: array2<nat>, i: nat, j: nat)
    requires IsTable(a, b, x, dp) && RowsDone(a, b, x, dp, 0) && i < x.m - x.i && j < x.n - x.j
    ensures dp[i + 1, j] == Lcs(a, b, At(x, i + 1, j)) && dp[i, j + 1] == Lcs(a, b, At(x, i, j + 1))
  {}

  /** The walk has come to `(i, j)` and collected `pairs`. */
  ghost predicate Walking(a: Lines, b: Lines, x: Box, i: nat, j: nat, pairs: seq<(nat, nat)>)
    requires BoxOf(a, b, x)
  {
    i <= x.m - x.i && j <= x.n - x.j && pairs + Walk(a, b, At(x, i, j)) == Walk(a, b, x)
  }

  lemma WalkOn(a: Lines, b: Lines, x: Box, i: nat, j: nat, pairs: seq<(nat, nat)>)
    requires BoxOf(a, b, x) && Walking(a, b, x, i, j, pairs) && i < x.m - x.i && j < x.n - x.j
    ensures if a[x.i + i] == b[x.j + j] then Walking(a, b, x, i + 1, j + 1, pairs + [(x.i + i, x.j + j)])
            else if Lcs(a, b, At(x, i + 1, j)) >= Lcs(a, b, At(x, i, j + 1)) then Walking(a, b, x, i + 1, j, pairs)
            else Walking(a, b, x, i, j + 1, pairs)
  {
    WalkStep(a, b, At(x, i, j));
    Reassociate(pairs, (x.i + i, x.j + j), Walk(a, b, At(x, i + 1, j + 1)));
    AtAt(x, i, j, 1, 1);
    AtAt(x, i, j, 1, 0);
    AtAt(x, i, j, 0, 1);
  }

  lemma WalkEnds(a: Lines, b: Lines, x: Box, i: nat, j: nat, pairs: seq<(nat, nat)>)
    requires BoxOf(a, b, x) && Walking(a, b, x, i, j, pairs) && (i == x.m - x.i || j == x.n - x.j)
    ensures pairs == Walk(a, b, x)
  {
    assert pairs + [] == pairs;
  }

  method WalkTable(a: Lines, b: Lines, x: Box) returns (pairs: seq<(nat, nat)>)
    requires BoxOf(a, b, x)
    ensures pairs == Walk(a, b, x)
  {
    var n, m := x.m - x.i, x.n - x.j;
    var dp := FillTable(a, b, x);
    var i, j := 0, 0;
    pairs := [];
    WalkStarts(a, b, x);
    while i < n && j < m
      invariant Walking(a, b, x, i, j, pairs) && RowsDone(a, b, x, dp, 0)
      decreases n - i + m - j
    {
      TableAt(a, b, x, dp, i, j);
      WalkOn(a, b, x, i, j, pairs);
      if a[x.i + i] == b[x.j + j] {
        pairs := pairs + [(x.i + i, x.j + j)];
        i, j := i + 1, j + 1;
      } else if dp[i + 1, j] >= dp[i, j + 1] {
        i := i + 1;
      } else {
        j := j + 1;
      }
    }
    WalkEnds(a, b, x, i, j, pairs);
  }

  lemma WalkStarts(a: Lines, b: Lines, x: Box)
    requires BoxOf(a, b, x)
    ensures Walking(a, b, x, 0, 0, [])
  {
    assert At(x, 0, 0) == x;
    assert [] + Walk(a, b, x) == Walk(a, b, x);
  }

  method CommonPrefix(a: Lines, b: Lines) returns (p: nat)
    ensures p == PrefixLen(a, b, 0)
  {
    p := 0;
    while p < |a| && p < |b| && a[p] == b[p]
      invariant CommonEnds(a, b, p, 0) && PrefixLen(a, b, p) == PrefixLen(a, b, 0)
    {
      p := p + 1;
    }
  }

  method CommonSuffix(a: Lines, b: Lines, p: nat) returns (s: nat)
    requires CommonEnds(a, b, p, 0)
    ensures s == SuffixLen(a, b, p, 0)
  {
    s := 0;
    while s < |a| - p && s < |b| - p && a[|a| - 1 - s] == b[|b| - 1 - s]
      invariant CommonEnds(a, b, p, s) && SuffixLen(a, b, p, s) == SuffixLen(a, b, p, 0)
    {
      s := s + 1;
    }
  }

  method MatchedPairs(a: Lines, b: Lines) returns (pairs: seq<(nat, nat)>)
    ensures pairs == Pairs(a, b)
  {
    if a == [] || b == [] {
      return [];
    }
    var p := CommonPrefix(a, b);
    var s := CommonSuffix(a, b, p);
    var x := Box(p, p, |a| - s, |b| - s);
    assert x == MiddleOf(a, b);
    var middle := [];
    if x.i < x.m && x.j < x.n && (x.m - x.i) * (x.n - x.j) <= TABLE_LIMIT {
      middle := WalkTable(a, b, x);
    }
    pairs := Diagonal(0, 0, p);
    pairs := pairs + middle;
    pairs := pairs + Diagonal(|a| - s, |b| - s, s);
  }
}
