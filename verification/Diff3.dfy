/**
 * The three-way merge of note bodies. Lines matched in both edits anchor the three texts to each other; between
 * two anchors a change on one side is taken, the same change on both sides is taken once, and different changes
 * become a conflict that quotes all three.
 */
module Diff3 {
  import opened Text
  import opened LineMatch

  datatype BodyConflict = BodyConflict(baseLineStart: nat, baseLines: Lines, localLines: Lines, remoteLines: Lines)

  datatype MergeResult = MergeResult(mergedText: string, isClean: bool, conflicts: seq<BodyConflict>)

  // ---------------------------------------------------------------- anchors

  datatype Anchor = Anchor(b: nat, l: nat, r: nat)

  function Lookup(pairs: seq<(nat, nat)>, b: nat): Option<nat> {
    if pairs == [] then None
    else if pairs[0].0 == b then Some(pairs[0].1)
    else Lookup(pairs[1..], b)
  }

  /** The base lines matched on both sides. */
  function Anchors(ls: seq<(nat, nat)>, rs: seq<(nat, nat)>): seq<Anchor> {
    if ls == [] then []
    else
      var rest, r := Anchors(ls[1..], rs), Lookup(rs, ls[0].0);
      if r.None? then rest else [Anchor(ls[0].0, ls[0].1, r.value)] + rest
  }

  /** The anchors lead through the three texts from the given positions, each at three equal lines. */
  predicate Fits(base: Lines, local: Lines, remote: Lines, anchors: seq<Anchor>, at: Anchor)
    decreases |anchors|
  {
    if anchors == [] then at.b <= |base| && at.l <= |local| && at.r <= |remote|
    else
      var a := anchors[0];
      && at.b <= a.b < |base| && at.l <= a.l < |local| && at.r <= a.r < |remote|
      && base[a.b] == local[a.l] == remote[a.r]
      && Fits(base, local, remote, anchors[1..], After(a))
  }

  function After(a: Anchor): Anchor {
    Anchor(a.b + 1, a.l + 1, a.r + 1)
  }

  const START := Anchor(0, 0, 0)

  // ---------------------------------------------------------------- pieces

  /** A line all three agree on, or what lies between two such lines; `start` is where in the base. */
  datatype Piece =
    | Stable(line: string)
    | Chunk(start: nat, base: Lines, local: Lines, remote: Lines)

  function Weave(base: Lines, local: Lines, remote: Lines, anchors: seq<Anchor>, at: Anchor): seq<Piece>
    requires Fits(base, local, remote, anchors, at)
    decreases |anchors|
  {
    if anchors == [] then [Chunk(at.b, base[at.b..], local[at.l..], remote[at.r..])]
    else
      var a := anchors[0];
      [Chunk(at.b, base[at.b..a.b], local[at.l..a.l], remote[at.r..a.r]), Stable(base[a.b])]
      + Weave(base, local, remote, anchors[1..], After(a))
  }

  predicate InConflict(p: Piece) {
    p.Chunk? && p.local != p.base && p.remote != p.base && p.local != p.remote
  }

  function Marked(p: Piece): Lines
    requires p.Chunk?
  {
    ["<<<<<<< LOCAL"] + p.local + ["||||||| BASE"] + p.base + ["======="] + p.remote + [">>>>>>> REMOTE"]
  }

  function Output(p: Piece): Lines {
    if p.Stable? then [p.line]
    else if InConflict(p) then Marked(p)
    else if p.local != p.base then p.local
    else p.remote
  }

  function Outputs(ps: seq<Piece>): Lines {
    if ps == [] then [] else Output(ps[0]) + Outputs(ps[1..])
  }

  function Conflicts(ps: seq<Piece>): seq<BodyConflict> {
    if ps == [] then []
    else if InConflict(ps[0]) then
      [BodyConflict(ps[0].start + 1, ps[0].base, ps[0].local, ps[0].remote)] + Conflicts(ps[1..])
    else Conflicts(ps[1..])
  }

  // ---------------------------------------------------------------- the pieces cover all three texts

  function LocalPart(p: Piece): Lines {
    if p.Stable? then [p.line] else p.local
  }

  function BasePart(p: Piece): Lines {
    if p.Stable? then [p.line] else p.base
  }

  function LocalSide(ps: seq<Piece>): Lines {
    if ps == [] then [] else LocalPart(ps[0]) + LocalSide(ps[1..])
  }

  function BaseSide(ps: seq<Piece>): Lines {
    if ps == [] then [] else BasePart(ps[0]) + BaseSide(ps[1..])
  }

  function Swap(p: Piece): Piece {
    if p.Stable? then p else Chunk(p.start, p.base, p.remote, p.local)
  }

  function SwapAll(ps: seq<Piece>): seq<Piece> {
    if ps == [] then [] else [Swap(ps[0])] + SwapAll(ps[1..])
  }

  function RemoteSide(ps: seq<Piece>): Lines {
    LocalSide(SwapAll(ps))
  }

  lemma LocalSideStep(c: Piece, s: Piece, rest: seq<Piece>)
    requires c.Chunk? && s.Stable?
    ensures LocalSide([c, s] + rest) == c.local + ([s.line] + LocalSide(rest))
    ensures BaseSide([c, s] + rest) == c.base + ([s.line] + BaseSide(rest))
  {
    assert ([c, s] + rest)[1..] == [s] + rest && ([s] + rest)[1..] == rest;
  }

  lemma SingleSide(c: Piece)
    requires c.Chunk?
    ensures LocalSide([c]) == c.local && BaseSide([c]) == c.base
  {
    assert [c][1..] == [];
    assert c.local + [] == c.local && c.base + [] == c.base;
  }

  lemma Resume(xs: Lines, i: nat, j: nat)
    requires i <= j < |xs|
    ensures xs[i..j] + ([xs[j]] + xs[j + 1..]) == xs[i..]
  {}

  function FirstChunk(base: Lines, local: Lines, remote: Lines, a: Anchor, at: Anchor): Piece
    requires at.b <= a.b < |base| && at.l <= a.l < |local| && at.r <= a.r < |remote|
  {
    Chunk(at.b, base[at.b..a.b], local[at.l..a.l], remote[at.r..a.r])
  }

  /** One anchor further: if the rest covers its part, so does the whole. */
  lemma CoversFrom(base: Lines, local: Lines, remote: Lines, a: Anchor, at: Anchor, rest: seq<Piece>)
    requires at.b <= a.b < |base| && at.l <= a.l < |local| && at.r <= a.r < |remote| && base[a.b] == local[a.l]
    requires LocalSide(rest) == local[a.l + 1..] && BaseSide(rest) == base[a.b + 1..]
    ensures var ps := [FirstChunk(base, local, remote, a, at), Stable(base[a.b])] + rest;
            LocalSide(ps) == local[at.l..] && BaseSide(ps) == base[at.b..]
  {
    LocalSideStep(FirstChunk(base, local, remote, a, at), Stable(base[a.b]), rest);
    Resume(local, at.l, a.l);
    Resume(base, at.b, a.b);
  }

  lemma {:induction false} WeaveCovers(base: Lines, local: Lines, remote: Lines, anchors: seq<Anchor>, at: Anchor)
    requires Fits(base, local, remote, anchors, at)
    ensures LocalSide(Weave(base, local, remote, anchors, at)) == local[at.l..]
    ensures BaseSide(Weave(base, local, remote, anchors, at)) == base[at.b..]
    decreases |anchors|
  {
    if anchors == [] {
      SingleSide(Chunk(at.b, base[at.b..], local[at.l..], remote[at.r..]));
    } else {
      WeaveCovers(base, local, remote, anchors[1..], After(anchors[0]));
      CoversFrom(base, local, remote, anchors[0], at, Weave(base, local, remote, anchors[1..], After(anchors[0])));
    }
  }

  // ---------------------------------------------------------------- the merge is symmetric

  function SwapAnchor(a: Anchor): Anchor {
    Anchor(a.b, a.r, a.l)
  }

  function SwapAnchors(anchors: seq<Anchor>): seq<Anchor> {
    if anchors == [] then [] else [SwapAnchor(anchors[0])] + SwapAnchors(anchors[1..])
  }

  lemma {:induction false} SwapsConcat(ps: seq<Piece>, qs: seq<Piece>)
    ensures SwapAll(ps + qs) == SwapAll(ps) + SwapAll(qs)
  {
    if ps == [] {
      assert ps + qs == qs;
    } else {
      assert (ps + qs)[1..] == ps[1..] + qs;
      SwapsConcat(ps[1..], qs);
    }
  }

  lemma {:induction false} WeaveSwaps(base: Lines, local: Lines, remote: Lines, anchors: seq<Anchor>, at: Anchor)
    requires Fits(base, local, remote, anchors, at)
    ensures Fits(base, remote, local, SwapAnchors(anchors), SwapAnchor(at))
    ensures Weave(base, remote, local, SwapAnchors(anchors), SwapAnchor(at))
         == SwapAll(Weave(base, local, remote, anchors, at))
    decreases |anchors|
  {
    if anchors != [] {
      var a := anchors[0];
      WeaveSwaps(base, local, remote, anchors[1..], After(a));
      assert SwapAnchors(anchors)[1..] == SwapAnchors(anchors[1..]);
      var c, s := Chunk(at.b, base[at.b..a.b], local[at.l..a.l], remote[at.r..a.r]), Stable(base[a.b]);
      SwapsConcat([c, s], Weave(base, local, remote, anchors[1..], After(a)));
      SwapOfTwo(c, s);
    }
  }

  lemma SwapOfTwo(c: Piece, s: Piece)
    ensures SwapAll([c, s]) == [Swap(c), Swap(s)]
  {
    assert [c, s][1..] == [s] && [s][1..] == [];
    assert SwapAll([s]) == [Swap(s)] + SwapAll([]);
  }

  function SwapConflicts(cs: seq<BodyConflict>): seq<BodyConflict> {
    if cs == [] then []
    else [BodyConflict(cs[0].baseLineStart, cs[0].baseLines, cs[0].remoteLines,
                       cs[0].localLines)] + SwapConflicts(cs[1..])
  }

  lemma {:induction false} SwappedConflicts(ps: seq<Piece>)
    ensures Conflicts(SwapAll(ps)) == SwapConflicts(Conflicts(ps))
  {
    if ps != [] {
      SwappedConflicts(ps[1..]);
      assert SwapAll(ps)[1..] == SwapAll(ps[1..]);
    }
  }

  lemma {:induction false} SwappedOutputs(ps: seq<Piece>)
    requires Conflicts(ps) == []
    ensures Outputs(SwapAll(ps)) == Outputs(ps)
  {
    if ps != [] {
      SwappedOutputs(ps[1..]);
      assert SwapAll(ps)[1..] == SwapAll(ps[1..]);
    }
  }

  ghost predicate IncreasingKeys(ps: seq<(nat, nat)>) {
    forall k, l :: 0 <= k < l < |ps| ==> ps[k].0 < ps[l].0
  }

  lemma {:induction false} NoSuchKey(ps: seq<(nat, nat)>, b: nat)
    requires forall k :: 0 <= k < |ps| ==> ps[k].0 != b
    ensures Lookup(ps, b).None?
  {
    if ps != [] {
      NoSuchKey(ps[1..], b);
    }
  }

  /** A head whose key the other list does not have plays no part. */
  lemma {:induction false} UnusedHead(ls: seq<(nat, nat)>, rs: seq<(nat, nat)>)
    requires rs != [] && forall k :: 0 <= k < |ls| ==> ls[k].0 != rs[0].0
    ensures Anchors(ls, rs) == Anchors(ls, rs[1..])
  {
    if ls != [] {
      UnusedHead(ls[1..], rs);
    }
  }

  lemma {:induction false} AnchorsSwap(ls: seq<(nat, nat)>, rs: seq<(nat, nat)>)
    requires IncreasingKeys(ls) && IncreasingKeys(rs)
    ensures Anchors(rs, ls) == SwapAnchors(Anchors(ls, rs))
    decreases |ls| + |rs|
  {
    if ls == [] {
      NoAnchors(rs);
    } else if rs == [] {
      NoAnchors(ls);
    } else if ls[0].0 == rs[0].0 {
      AnchorsSwap(ls[1..], rs[1..]);
      UnusedHead(ls[1..], rs);
      UnusedHead(rs[1..], ls);
    } else if ls[0].0 < rs[0].0 {
      NoSuchKey(rs, ls[0].0);
      UnusedHead(rs, ls);
      AnchorsSwap(ls[1..], rs);
    } else {
      NoSuchKey(ls, rs[0].0);
      UnusedHead(ls, rs);
      AnchorsSwap(ls, rs[1..]);
    }
  }

  lemma {:induction false} NoAnchors(ls: seq<(nat, nat)>)
    ensures Anchors(ls, []) == []
  {
    if ls != [] {
      NoAnchors(ls[1..]);
    }
  }

  // ---------------------------------------------------------------- anchors of matchings fit

  lemma {:induction false} LookupFinds(ps: seq<(nat, nat)>, b: nat) returns (k: nat)
    requires Lookup(ps, b).Some?
    ensures k < |ps| && ps[k] == (b, Lookup(ps, b).value)
  {
    if ps[0].0 == b {
      k := 0;
    } else {
      k := LookupFinds(ps[1..], b);
      k := k + 1;
    }
  }

  /** Pairs at or below base line `at.b` point at or below remote line `at.r`. */
  ghost predicate Beyond(rs: seq<(nat, nat)>, at: Anchor) {
    forall k :: 0 <= k < |rs| && rs[k].0 >= at.b ==> rs[k].1 >= at.r
  }

  lemma BeyondNext(base: Lines, remote: Lines, rs: seq<(nat, nat)>, k: nat, a: Anchor)
    requires Matching(base, remote, rs, Whole(base, remote)) && k < |rs| && rs[k] == (a.b, a.r)
    ensures Beyond(rs, After(a)) && a.b < |base| && a.r < |remote| && base[a.b] == remote[a.r]
  {
    assert Match(base, remote, rs[k], Whole(base, remote));
    forall j | 0 <= j < |rs| && rs[j].0 >= a.b + 1 ensures rs[j].1 >= a.r + 1 {
      assert j < k ==> Before(rs[j], rs[k]);
      assert k < j ==> Before(rs[k], rs[j]);
    }
  }

  function LocalBox(base: Lines, local: Lines, at: Anchor): Box {
    Box(at.b, at.l, |base|, |local|)
  }

  lemma {:induction false} AnchorsFit(base: Lines, local: Lines, remote: Lines, ls: seq<(nat, nat)>,
                                      rs: seq<(nat, nat)>, at: Anchor)
    requires Matching(base, local, ls, LocalBox(base, local, at)) && Matching(base, remote, rs, Whole(base, remote))
    requires Beyond(rs, at) && at.b <= |base| && at.l <= |local| && at.r <= |remote|
    ensures Fits(base, local, remote, Anchors(ls, rs), at)
    decreases |ls|
  {
    if ls != [] {
      assert Match(base, local, ls[0], LocalBox(base, local, at));
      if Lookup(rs, ls[0].0).Some? {
        var k := LookupFinds(rs, ls[0].0);
        var a := Anchor(ls[0].0, ls[0].1, rs[k].1);
        BeyondNext(base, remote, rs, k, a);
        BehindFirst(base, local, ls, at);
        AnchorsFit(base, local, remote, ls[1..], rs, After(a));
        assert Anchors(ls, rs)[1..] == Anchors(ls[1..], rs);
      } else {
        RestMatches(base, local, ls, LocalBox(base, local, at));
        WiderMatching(base, local, ls[1..], Box(at.b + 1, at.l + 1, |base|, |local|), LocalBox(base, local, at));
        AnchorsFit(base, local, remote, ls[1..], rs, at);
      }
    }
  }

  lemma BehindFirst(base: Lines, local: Lines, ls: seq<(nat, nat)>, at: Anchor)
    requires ls != [] && Matching(base, local, ls, LocalBox(base, local, at))
    ensures Matching(base, local, ls[1..], Box(ls[0].0 + 1, ls[0].1 + 1, |base|, |local|))
  {
    LaterMatching(base, local, ls, LocalBox(base, local, at), Box(ls[0].0, ls[0].1, |base|, |local|));
    RestMatches(base, local, ls, Box(ls[0].0, ls[0].1, |base|, |local|));
  }

  function CommonAnchors(base: Lines, local: Lines, remote: Lines): seq<Anchor> {
    Anchors(Pairs(base, local), Pairs(base, remote))
  }

  lemma CommonAnchorsFit(base: Lines, local: Lines, remote: Lines)
    ensures Fits(base, local, remote, CommonAnchors(base, local, remote), START)
  {
    PairsMatch(base, local);
    PairsMatch(base, remote);
    AnchorsFit(base, local, remote, Pairs(base, local), Pairs(base, remote), START);
  }

  function Pieces(base: Lines, local: Lines, remote: Lines): seq<Piece> {
    CommonAnchorsFit(base, local, remote);
    Weave(base, local, remote, CommonAnchors(base, local, remote), START)
  }

  lemma {:induction false} LookupExactly(ps: seq<(nat, nat)>, b: nat, x: nat)
    requires IncreasingKeys(ps)
    ensures Lookup(ps, b) == Some(x) <==> (b, x) in ps
  {
    if ps != [] {
      LookupExactly(ps[1..], b, x);
      assert ps == [ps[0]] + ps[1..];
      assert forall k :: 1 <= k < |ps| ==> ps[0].0 < ps[k].0;
    }
  }

  lemma {:induction false} AnchorsAreShared(ls: seq<(nat, nat)>, rs: seq<(nat, nat)>, a: Anchor)
    requires IncreasingKeys(rs)
    ensures a in Anchors(ls, rs) <==> (a.b, a.l) in ls && (a.b, a.r) in rs
  {
    if ls != [] {
      AnchorsAreShared(ls[1..], rs, a);
      LookupExactly(rs, ls[0].0, a.r);
      assert ls == [ls[0]] + ls[1..];
    }
  }

  /** The anchors are exactly the base lines matched on both sides. */
  lemma CommonAnchorsAreShared(base: Lines, local: Lines, remote: Lines, a: Anchor)
    ensures a in CommonAnchors(base, local, remote)
            <==> (a.b, a.l) in Pairs(base, local) && (a.b, a.r) in Pairs(base, remote)
  {
    PairsMatch(base, remote);
    var rs := Pairs(base, remote);
    assert forall k, l :: 0 <= k < l < |rs| ==> Before(rs[k], rs[l]);
    AnchorsAreShared(Pairs(base, local), rs, a);
  }

  /** Where chunk number `i` of a weave starts: at the beginning, or after an anchor. */
  function StartOf(anchors: seq<Anchor>, at: Anchor, i: nat): Anchor
    requires i <= |anchors|
  {
    if i == 0 then at else After(anchors[i - 1])
  }

  /** Pieces alternate: what lies between two anchors, and the line of the anchor. */
  lemma {:induction false} WeaveAlternates(base: Lines, local: Lines, remote: Lines, anchors: seq<Anchor>, at: Anchor,
                                           i: nat)
    requires Fits(base, local, remote, anchors, at) && i < |anchors|
    ensures var ps, f, a := Weave(base, local, remote, anchors, at), StartOf(anchors, at, i), anchors[i];
            && |ps| == 2 * |anchors| + 1
            && f.b <= a.b < |base| && f.l <= a.l < |local| && f.r <= a.r < |remote|
            && ps[2 * i] == Chunk(f.b, base[f.b..a.b], local[f.l..a.l], remote[f.r..a.r])
            && ps[2 * i + 1] == Stable(base[a.b])
    decreases |anchors|
  {
    var rest := Weave(base, local, remote, anchors[1..], After(anchors[0]));
    if i > 0 {
      WeaveAlternates(base, local, remote, anchors[1..], After(anchors[0]), i - 1);
      assert StartOf(anchors, at, i) == StartOf(anchors[1..], After(anchors[0]), i - 1);
    } else if |anchors| > 1 {
      WeaveAlternates(base, local, remote, anchors[1..], After(anchors[0]), 0);
    }
  }

  /** So the lines around every anchor are merged apart, and its own line stands for itself. */
  lemma AnchorsKeepChunksApart(base: Lines, local: Lines, remote: Lines, i: nat)
    requires i < |CommonAnchors(base, local, remote)|
    ensures var anchors, ps := CommonAnchors(base, local, remote), Pieces(base, local, remote);
            var f, a := StartOf(anchors, START, i), anchors[i];
            && |ps| == 2 * |anchors| + 1
            && f.b <= a.b < |base| && f.l <= a.l < |local| && f.r <= a.r < |remote|
            && ps[2 * i] == Chunk(f.b, base[f.b..a.b], local[f.l..a.l], remote[f.r..a.r])
            && ps[2 * i + 1] == Stable(base[a.b])
  {
    CommonAnchorsFit(base, local, remote);
    WeaveAlternates(base, local, remote, CommonAnchors(base, local, remote), START, i);
  }

  /** The pieces put together give back each of the three texts. */
  lemma PiecesCover(base: Lines, local: Lines, remote: Lines)
    ensures BaseSide(Pieces(base, local, remote)) == base
    ensures LocalSide(Pieces(base, local, remote)) == local
    ensures RemoteSide(Pieces(base, local, remote)) == remote
  {
    CommonAnchorsFit(base, local, remote);
    WeaveCovers(base, local, remote, CommonAnchors(base, local, remote), START);
    PiecesSwap(base, local, remote);
    CommonAnchorsFit(base, remote, local);
    WeaveCovers(base, remote, local, CommonAnchors(base, remote, local), START);
  }

  lemma MatchingKeysIncrease(a: Lines, b: Lines, ps: seq<(nat, nat)>, x: Box)
    requires Matching(a, b, ps, x)
    ensures IncreasingKeys(ps)
  {
    forall k, l | 0 <= k < l < |ps| ensures ps[k].0 < ps[l].0 {
      assert Before(ps[k], ps[l]);
    }
  }

  lemma PiecesSwap(base: Lines, local: Lines, remote: Lines)
    ensures Pieces(base, remote, local) == SwapAll(Pieces(base, local, remote))
  {
    CommonAnchorsFit(base, local, remote);
    PairsMatch(base, local);
    PairsMatch(base, remote);
    MatchingKeysIncrease(base, local, Pairs(base, local), Whole(base, local));
    MatchingKeysIncrease(base, remote, Pairs(base, remote), Whole(base, remote));
    AnchorsSwap(Pairs(base, local), Pairs(base, remote));
    WeaveSwaps(base, local, remote, CommonAnchors(base, local, remote), START);
  }

  // ---------------------------------------------------------------- no edit is discarded

  lemma {:induction false} OutputsOfConcat(ps: seq<Piece>, qs: seq<Piece>)
    ensures Outputs(ps + qs) == Outputs(ps) + Outputs(qs)
  {
    if ps == [] {
      assert ps + qs == qs;
    } else {
      assert (ps + qs)[1..] == ps[1..] + qs;
      OutputsOfConcat(ps[1..], qs);
    }
  }

  lemma {:induction false} LocalOfConcat(ps: seq<Piece>, qs: seq<Piece>)
    ensures LocalSide(ps + qs) == LocalSide(ps) + LocalSide(qs)
  {
    if ps == [] {
      assert ps + qs == qs;
    } else {
      assert (ps + qs)[1..] == ps[1..] + qs;
      LocalOfConcat(ps[1..], qs);
    }
  }

  lemma {:induction false} BaseOfConcat(ps: seq<Piece>, qs: seq<Piece>)
    ensures BaseSide(ps + qs) == BaseSide(ps) + BaseSide(qs)
  {
    if ps == [] {
      assert ps + qs == qs;
    } else {
      assert (ps + qs)[1..] == ps[1..] + qs;
      BaseOfConcat(ps[1..], qs);
    }
  }

  lemma OutputAround(before: seq<Piece>, c: Piece, behind: seq<Piece>)
    ensures Outputs(before + ([c] + behind)) == Outputs(before) + (Output(c) + Outputs(behind))
  {
    OutputsOfConcat(before, [c] + behind);
    ConsOutputs(c, behind);
  }

  lemma SidesAround(before: seq<Piece>, c: Piece, behind: seq<Piece>)
    requires c.Chunk?
    ensures LocalSide(before + ([c] + behind)) == LocalSide(before) + (c.local + LocalSide(behind))
    ensures BaseSide(before + ([c] + behind)) == BaseSide(before) + (c.base + BaseSide(behind))
  {
    LocalOfConcat(before, [c] + behind);
    BaseOfConcat(before, [c] + behind);
    assert ([c] + behind)[1..] == behind;
  }

  lemma RemoteAround(before: seq<Piece>, c: Piece, behind: seq<Piece>)
    requires c.Chunk?
    ensures RemoteSide(before + ([c] + behind)) == RemoteSide(before) + (c.remote + RemoteSide(behind))
  {
    SwapsConcat(before, [c] + behind);
    assert ([c] + behind)[1..] == behind;
    SidesAround(SwapAll(before), Swap(c), SwapAll(behind));
  }

  /** The lines are local's, base's and remote's version, in this order, set off by the four marker lines. */
  predicate Quotes(out: Lines, base: Lines, local: Lines, remote: Lines) {
    var b, m, r := 1 + |local|, 2 + |local| + |base|, 3 + |local| + |base| + |remote|;
    && |out| == r + 1
    && out[0] == "<<<<<<< LOCAL" && out[1..b] == local
    && out[b] == "||||||| BASE" && out[b + 1..m] == base
    && out[m] == "=======" && out[m + 1..r] == remote
    && out[r] == ">>>>>>> REMOTE"
  }

  lemma MarkedQuotes(p: Piece)
    requires p.Chunk?
    ensures Quotes(Marked(p), p.base, p.local, p.remote)
  {}

  /** What stands for a chunk: the change of the side that made one, the common change, or all three versions. */
  lemma ChunkOutput(c: Piece)
    requires c.Chunk?
    ensures c.remote == c.base || c.remote == c.local ==> Output(c) == c.local
    ensures c.local == c.base ==> Output(c) == c.remote
    ensures c.local != c.base && c.remote != c.base && c.local != c.remote ==>
              Quotes(Output(c), c.base, c.local, c.remote)
  {
    MarkedQuotes(c);
  }

  /**
   * Nothing is discarded silently, and nothing moves. Every chunk cuts all three texts and the merged lines in
   * the same place; there the merged lines hold exactly the change of the side that made one (nothing at all, if it
   * deleted the lines), the common change, or all three versions between markers.
   */
  lemma NoEditIsDiscarded(base: Lines, local: Lines, remote: Lines, k: nat)
    requires k < |Pieces(base, local, remote)| && Pieces(base, local, remote)[k].Chunk?
    ensures var ps := Pieces(base, local, remote);
            var c, before, behind := ps[k], ps[..k], ps[k + 1..];
            && base == BaseSide(before) + (c.base + BaseSide(behind))
            && local == LocalSide(before) + (c.local + LocalSide(behind))
            && remote == RemoteSide(before) + (c.remote + RemoteSide(behind))
            && Outputs(ps) == Outputs(before) + (Output(c) + Outputs(behind))
            && (c.remote == c.base || c.remote == c.local ==> Output(c) == c.local)
            && (c.local == c.base ==> Output(c) == c.remote)
            && (c.local != c.base && c.remote != c.base && c.local != c.remote ==>
                  Quotes(Output(c), c.base, c.local, c.remote))
  {
    PiecesCover(base, local, remote);
    CutsAround(Pieces(base, local, remote), k);
    ChunkOutput(Pieces(base, local, remote)[k]);
  }

  /** A chunk cuts the three texts and the output of a list of pieces in the same place. */
  lemma CutsAround(ps: seq<Piece>, k: nat)
    requires k < |ps| && ps[k].Chunk?
    ensures var c, before, behind := ps[k], ps[..k], ps[k + 1..];
            && BaseSide(ps) == BaseSide(before) + (c.base + BaseSide(behind))
            && LocalSide(ps) == LocalSide(before) + (c.local + LocalSide(behind))
            && RemoteSide(ps) == RemoteSide(before) + (c.remote + RemoteSide(behind))
            && Outputs(ps) == Outputs(before) + (Output(c) + Outputs(behind))
  {
    var c, before, behind := ps[k], ps[..k], ps[k + 1..];
    assert ps == before + ([c] + behind);
    OutputAround(before, c, behind);
    SidesAround(before, c, behind);
    RemoteAround(before, c, behind);
  }

  // ---------------------------------------------------------------- one-sided edits

  /** The edit of one side is all there is: remote left every chunk alone, or both sides agree. */
  predicate LocalDecides(p: Piece) {
    p.Chunk? ==> p.remote == p.base || p.remote == p.local
  }

  predicate AllDecided(ps: seq<Piece>) {
    ps != [] ==> LocalDecides(ps[0]) && AllDecided(ps[1..])
  }

  lemma {:induction false} LocalDecidesAll(ps: seq<Piece>)
    requires AllDecided(ps)
    ensures Outputs(ps) == LocalSide(ps) && Conflicts(ps) == []
  {
    if ps != [] {
      LocalDecidesAll(ps[1..]);
    }
  }

  lemma TwoMoreDecided(c: Piece, s: Piece, rest: seq<Piece>)
    requires LocalDecides(c) && s.Stable? && AllDecided(rest)
    ensures AllDecided([c, s] + rest)
  {
    assert ([c, s] + rest)[1..] == [s] + rest && ([s] + rest)[1..] == rest;
  }

  /** A weave in which local decides every chunk comes out as local's text. */
  lemma DecidedWeave(base: Lines, local: Lines, remote: Lines, anchors: seq<Anchor>)
    requires Fits(base, local, remote, anchors, START) && AllDecided(Weave(base, local, remote, anchors, START))
    ensures Outputs(Weave(base, local, remote, anchors, START)) == local
    ensures Conflicts(Weave(base, local, remote, anchors, START)) == []
  {
    LocalDecidesAll(Weave(base, local, remote, anchors, START));
    WeaveCovers(base, local, remote, anchors, START);
    assert local[0..] == local;
  }

  /** Anchors that meet remote where they meet the base, or where they meet local. */
  predicate SameAsBase(anchors: seq<Anchor>) {
    forall k :: 0 <= k < |anchors| ==> anchors[k].r == anchors[k].b
  }

  predicate SameAsLocal(anchors: seq<Anchor>) {
    forall k :: 0 <= k < |anchors| ==> anchors[k].r == anchors[k].l
  }

  lemma {:induction false} WeaveWithBase(base: Lines, local: Lines, anchors: seq<Anchor>, at: Anchor)
    requires Fits(base, local, base, anchors, at) && SameAsBase(anchors) && at.r == at.b
    ensures AllDecided(Weave(base, local, base, anchors, at))
    decreases |anchors|
  {
    if anchors != [] {
      var a := anchors[0];
      WeaveWithBase(base, local, anchors[1..], After(a));
      TwoMoreDecided(Chunk(at.b, base[at.b..a.b], local[at.l..a.l], base[at.r..a.r]), Stable(base[a.b]),
                     Weave(base, local, base, anchors[1..], After(a)));
    }
  }

  lemma {:induction false} WeaveWithLocal(base: Lines, local: Lines, anchors: seq<Anchor>, at: Anchor)
    requires Fits(base, local, local, anchors, at) && SameAsLocal(anchors) && at.r == at.l
    ensures AllDecided(Weave(base, local, local, anchors, at))
    decreases |anchors|
  {
    if anchors != [] {
      var a := anchors[0];
      WeaveWithLocal(base, local, anchors[1..], After(a));
      TwoMoreDecided(Chunk(at.b, base[at.b..a.b], local[at.l..a.l], local[at.r..a.r]), Stable(base[a.b]),
                     Weave(base, local, local, anchors[1..], After(a)));
    }
  }

  lemma {:induction false} WholePrefix(a: Lines, p: nat)
    requires p <= |a|
    ensures PrefixLen(a, a, p) == |a|
    decreases |a| - p
  {
    if p < |a| {
      WholePrefix(a, p + 1);
    }
  }

  lemma PairsWithItself(a: Lines)
    ensures Pairs(a, a) == Diagonal(0, 0, |a|)
  {
    WholePrefix(a, 0);
    var n := |a|;
    assert MiddleOf(a, a) == Box(n, n, n, n);
    assert Diagonal(n, n, 0) == [];
    assert Diagonal(0, 0, n) + [] + [] == Diagonal(0, 0, n);
  }

  lemma {:induction false} AnchorsWithBase(ls: seq<(nat, nat)>, n: nat)
    ensures SameAsBase(Anchors(ls, Diagonal(0, 0, n)))
  {
    if ls != [] {
      AnchorsWithBase(ls[1..], n);
      if Lookup(Diagonal(0, 0, n), ls[0].0).Some? {
        var k := LookupFinds(Diagonal(0, 0, n), ls[0].0);
      }
    }
  }

  lemma {:induction false} AnchorsWithLocal(ls: seq<(nat, nat)>, all: seq<(nat, nat)>)
    requires IncreasingKeys(all) && forall k :: 0 <= k < |ls| ==> ls[k] in all
    ensures SameAsLocal(Anchors(ls, all))
  {
    if ls != [] {
      AnchorsWithLocal(ls[1..], all);
      if Lookup(all, ls[0].0).Some? {
        var k := LookupFinds(all, ls[0].0);
        var j :| 0 <= j < |all| && all[j] == ls[0];
        assert j == k;
      }
    }
  }

  /** If only local edited, the merge is local's text; the shortcut for an unchanged remote loses nothing. */
  lemma UnchangedRemoteYieldsLocal(base: Lines, local: Lines)
    ensures Outputs(Pieces(base, local, base)) == local && Conflicts(Pieces(base, local, base)) == []
  {
    CommonAnchorsFit(base, local, base);
    PairsWithItself(base);
    AnchorsWithBase(Pairs(base, local), |base|);
    WeaveWithBase(base, local, CommonAnchors(base, local, base), START);
    DecidedWeave(base, local, base, CommonAnchors(base, local, base));
  }

  /** The same edit on both sides merges to that edit. */
  lemma EqualEditsYieldEither(base: Lines, local: Lines)
    ensures Outputs(Pieces(base, local, local)) == local && Conflicts(Pieces(base, local, local)) == []
  {
    CommonAnchorsFit(base, local, local);
    PairsMatch(base, local);
    MatchingKeysIncrease(base, local, Pairs(base, local), Whole(base, local));
    AnchorsWithLocal(Pairs(base, local), Pairs(base, local));
    WeaveWithLocal(base, local, CommonAnchors(base, local, local), START);
    DecidedWeave(base, local, local, CommonAnchors(base, local, local));
  }

  /** And if only remote edited, remote's text. */
  lemma UnchangedLocalYieldsRemote(base: Lines, remote: Lines)
    ensures Outputs(Pieces(base, base, remote)) == remote && Conflicts(Pieces(base, base, remote)) == []
  {
    UnchangedRemoteYieldsLocal(base, remote);
    PiecesSwap(base, remote, base);
    SwappedOutputs(Pieces(base, remote, base));
    SwappedConflicts(Pieces(base, remote, base));
  }

  // ---------------------------------------------------------------- texts

  function ReplaceCr(s: string): string {
    if s == "" then "" else [if s[0] == '\r' then '\n' else s[0]] + ReplaceCr(s[1..])
  }

  function LinesOf(text: string): Lines {
    var unix := ReplaceCr(ReplaceCrLf(text));
    if unix == "" then [] else Split(unix, '\n')
  }

  function FullMerge(base: string, local: string, remote: string): MergeResult {
    var ps := Pieces(LinesOf(base), LinesOf(local), LinesOf(remote));
    MergeResult(Join(Outputs(ps), "\n"), Conflicts(ps) == [], Conflicts(ps))
  }

  function Merge(base: string, local: string, remote: string): MergeResult {
    if local == remote || remote == base then MergeResult(local, true, [])
    else if local == base then MergeResult(remote, true, [])
    else FullMerge(base, local, remote)
  }

  lemma LinesMergeSymmetrically(base: Lines, local: Lines, remote: Lines)
    ensures Conflicts(Pieces(base, remote, local)) == SwapConflicts(Conflicts(Pieces(base, local, remote)))
    ensures Conflicts(Pieces(base, local, remote)) == [] ==>
              Outputs(Pieces(base, remote, local)) == Outputs(Pieces(base, local, remote))
  {
    PiecesSwap(base, local, remote);
    SwappedConflicts(Pieces(base, local, remote));
    if Conflicts(Pieces(base, local, remote)) == [] {
      SwappedOutputs(Pieces(base, local, remote));
    }
  }

  /** One result is the other with the sides of every conflict exchanged. */
  predicate Mirrored(here: MergeResult, there: MergeResult) {
    && here.isClean == there.isClean
    && there.conflicts == SwapConflicts(here.conflicts)
    && (here.isClean ==> here.mergedText == there.mergedText)
  }

  lemma FullMergeIsSymmetric(base: string, local: string, remote: string)
    ensures Mirrored(FullMerge(base, local, remote), FullMerge(base, remote, local))
  {
    LinesMergeSymmetrically(LinesOf(base), LinesOf(local), LinesOf(remote));
  }

  /** Both devices get the same result: the same text if it is clean, else the same conflicts seen from each side. */
  lemma MergeIsSymmetric(base: string, local: string, remote: string)
    ensures Mirrored(Merge(base, local, remote), Merge(base, remote, local))
  {
    FullMergeIsSymmetric(base, local, remote);
  }

  /** A text with Unix line breaks. */
  predicate Unix(s: string) {
    '\r' !in s
  }

  lemma {:induction false} UnixIsKept(s: string)
    requires Unix(s)
    ensures ReplaceCrLf(s) == s && ReplaceCr(s) == s
  {
    if s != "" {
      assert s[0] in s;
      UnixIsKept(s[1..]);
      assert s == [s[0]] + s[1..];
    }
  }

  lemma {:induction false} NoCrLeft(s: string)
    ensures Unix(ReplaceCr(s))
  {
    if s != "" {
      NoCrLeft(s[1..]);
    }
  }

  /** Splitting into lines and joining them is replacing the line breaks. */
  lemma LinesComeBack(s: string)
    ensures Join(LinesOf(s), "\n") == ReplaceCr(ReplaceCrLf(s))
  {
    JoinSplit(ReplaceCr(ReplaceCrLf(s)), '\n');
  }

  /** A text is its own lines, joined, exactly if it has no carriage return. */
  lemma LinesComeBackIff(s: string)
    ensures Join(LinesOf(s), "\n") == s <==> Unix(s)
  {
    LinesComeBack(s);
    if Unix(s) {
      UnixIsKept(s);
    }
    NoCrLeft(ReplaceCrLf(s));
  }

  /** The side a shortcut returns. */
  function ShortcutSide(base: string, local: string, remote: string): string {
    if local == remote || remote == base then local else remote
  }

  lemma ShortcutMerge(base: string, local: string, remote: string)
    requires local == remote || remote == base || local == base
    ensures FullMerge(base, local, remote)
            == MergeResult(Join(LinesOf(ShortcutSide(base, local, remote)), "\n"), true, [])
    ensures Merge(base, local, remote) == MergeResult(ShortcutSide(base, local, remote), true, [])
  {
    if local == remote {
      EqualEditsYieldEither(LinesOf(base), LinesOf(local));
    } else if remote == base {
      UnchangedRemoteYieldsLocal(LinesOf(base), LinesOf(local));
    } else {
      UnchangedLocalYieldsRemote(LinesOf(base), LinesOf(remote));
    }
  }

  /** A shortcut gives what the full merge would have given exactly if the side it returns has no carriage return. */
  lemma ShortcutsAgreeIff(base: string, local: string, remote: string)
    requires local == remote || remote == base || local == base
    ensures Merge(base, local, remote) == FullMerge(base, local, remote) <==> Unix(ShortcutSide(base, local, remote))
  {
    ShortcutMerge(base, local, remote);
    LinesComeBackIff(ShortcutSide(base, local, remote));
  }

  lemma {:induction false} OneBreakReplaced(x: string, y: string)
    requires Unix(x) && Unix(y)
    ensures ReplaceCrLf(x + ("\r\n" + y)) == x + ("\n" + y)
  {
    var s := x + ("\r\n" + y);
    if x == "" {
      assert s == "\r\n" + y && s[2..] == y && s[..2] == "\r\n";
      UnixIsKept(y);
    } else {
      assert x[0] in x && s[0] == x[0];
      assert s[1..] == x[1..] + ("\r\n" + y);
      OneBreakReplaced(x[1..], y);
      assert [x[0]] + (x[1..] + ("\n" + y)) == x + ("\n" + y);
    }
  }

  /** A Windows line break between `x` and `y`: kept by a shortcut, rewritten by the full merge. */
  lemma ShortcutKeepsWindowsBreak(base: string, x: string, y: string)
    requires Unix(x) && Unix(y)
    ensures var local := x + ("\r\n" + y);
            && Merge(base, local, base).mergedText == local
            && FullMerge(base, local, base).mergedText == x + ("\n" + y) != local
  {
    var local := x + ("\r\n" + y);
    ShortcutMerge(base, local, base);
    LinesComeBack(local);
    OneBreakReplaced(x, y);
    UnixIsKept(x + ("\n" + y));
    assert |x + ("\n" + y)| + 1 == |local|;
  }

  // ---------------------------------------------------------------- the routine

  method ProcessChunk(p: Piece, out: Lines, conflicts: seq<BodyConflict>)
    returns (out': Lines, conflicts': seq<BodyConflict>)
    requires p.Chunk?
    ensures out' == out + Output(p) && conflicts' == conflicts + Conflicts([p])
  {
    out', conflicts' := out, conflicts;
    if p.local == p.base && p.remote == p.base {
      out' := out' + p.base;
    } else if p.remote == p.base {
      out' := out' + p.local;
    } else if p.local == p.base {
      out' := out' + p.remote;
    } else if p.local == p.remote {
      out' := out' + p.local;
    } else {
      conflicts' := conflicts' + [BodyConflict(p.start + 1, p.base, p.local, p.remote)];
      out' := out' + Marked(p);
    }
  }

  method FindAnchors(ls: seq<(nat, nat)>, rs: seq<(nat, nat)>) returns (anchors: seq<Anchor>)
    ensures anchors == Anchors(ls, rs)
  {
    anchors := [];
    for i := 0 to |ls|
      invariant anchors + Anchors(ls[i..], rs) == Anchors(ls, rs)
    {
      assert ls[i..][0] == ls[i] && ls[i..][1..] == ls[i + 1..];
      var r := Lookup(rs, ls[i].0);
      if r.Some? {
        var a := Anchor(ls[i].0, ls[i].1, r.value);
        assert anchors + ([a] + Anchors(ls[i + 1..], rs)) == (anchors + [a]) + Anchors(ls[i + 1..], rs);
        anchors := anchors + [a];
      }
    }
    assert anchors + [] == anchors;
  }

  lemma ConsOutputs(p: Piece, rest: seq<Piece>)
    ensures Outputs([p] + rest) == Output(p) + Outputs(rest)
  {
    assert ([p] + rest)[1..] == rest;
  }

  lemma ConsConflicts(p: Piece, rest: seq<Piece>)
    ensures Conflicts([p] + rest) == Conflicts([p]) + Conflicts(rest)
  {
    assert ([p] + rest)[1..] == rest && [p][1..] == [];
  }

  lemma StepOutputs(c: Piece, s: Piece, rest: seq<Piece>)
    requires s.Stable?
    ensures Outputs([c, s] + rest) == Output(c) + [s.line] + Outputs(rest)
  {
    assert [c, s] + rest == [c] + ([s] + rest);
    ConsOutputs(c, [s] + rest);
    ConsOutputs(s, rest);
  }

  lemma StepConflicts(c: Piece, s: Piece, rest: seq<Piece>)
    requires s.Stable?
    ensures Conflicts([c, s] + rest) == Conflicts([c]) + Conflicts(rest)
  {
    assert [c, s] + rest == [c] + ([s] + rest);
    ConsConflicts(c, [s] + rest);
    assert ([s] + rest)[1..] == rest;
  }

  method MergeLines(base: Lines, local: Lines, remote: Lines) returns (out: Lines, conflicts: seq<BodyConflict>)
    ensures out == Outputs(Pieces(base, local, remote)) && conflicts == Conflicts(Pieces(base, local, remote))
  {
    var ls := MatchedPairs(base, local);
    var rs := MatchedPairs(base, remote);
    var anchors := FindAnchors(ls, rs);
    CommonAnchorsFit(base, local, remote);
    var at := START;
    out, conflicts := [], [];
    for i := 0 to |anchors|
      invariant Fits(base, local, remote, anchors[i..], at)
      invariant out + Outputs(Weave(base, local, remote, anchors[i..], at)) == Outputs(Pieces(base, local, remote))
      invariant conflicts + Conflicts(Weave(base, local, remote, anchors[i..], at))
                == Conflicts(Pieces(base, local, remote))
    {
      assert anchors[i..][0] == anchors[i] && anchors[i..][1..] == anchors[i + 1..];
      var a := anchors[i];
      var c := Chunk(at.b, base[at.b..a.b], local[at.l..a.l], remote[at.r..a.r]);
      ghost var rest := Weave(base, local, remote, anchors[i + 1..], After(a));
      StepOutputs(c, Stable(base[a.b]), rest);
      StepConflicts(c, Stable(base[a.b]), rest);
      Regroup(out, Output(c), base[a.b], Outputs(rest));
      RegroupConflicts(conflicts, Conflicts([c]), Conflicts(rest));
      out, conflicts := ProcessChunk(c, out, conflicts);
      out := out + [base[a.b]];
      at := After(a);
    }
    var c := Chunk(at.b, base[at.b..], local[at.l..], remote[at.r..]);
    LastPiece(c);
    out, conflicts := ProcessChunk(c, out, conflicts);
  }

  lemma LastPiece(c: Piece)
    ensures Outputs([c]) == Output(c)
  {
    assert [c][1..] == [];
    assert Output(c) + [] == Output(c);
  }

  lemma Regroup(out: Lines, x: Lines, line: string, rest: Lines)
    ensures out + (x + [line] + rest) == (out + x) + [line] + rest
  {}

  lemma RegroupConflicts(a: seq<BodyConflict>, b: seq<BodyConflict>, c: seq<BodyConflict>)
    ensures a + (b + c) == (a + b) + c
  {}

  method Diff3Merge(base: string, local: string, remote: string) returns (r: MergeResult)
    ensures r == Merge(base, local, remote)
  {
    if local == remote {
      return MergeResult(local, true, []);
    }
    if remote == base {
      return MergeResult(local, true, []);
    }
    if local == base {
      return MergeResult(remote, true, []);
    }
    var out, conflicts := MergeLines(LinesOf(base), LinesOf(local), LinesOf(remote));
    return MergeResult(Join(out, "\n"), conflicts == [], conflicts);
  }
}
