/**
 * Reading a merged text with conflicts: whoever takes the LOCAL part of every marked region gets the merge in which
 * local wins every conflict, and likewise with REMOTE, as long as the texts themselves have no marker lines.
 */
module ConflictMarkers {
  import opened Text
  import opened LineMatch
  import opened Diff3

  datatype Side = Mine | Theirs

  // ---------------------------------------------------------------- the reader

  /** Where in a marked region the reader is. */
  datatype Where = Outside | InLocal | InBase | InRemote

  predicate IsMarker(line: string) {
    line == "<<<<<<< LOCAL" || line == "||||||| BASE" || line == "=======" || line == ">>>>>>> REMOTE"
  }

  predicate Keeps(at: Where, side: Side) {
    at.Outside? || (at.InLocal? && side.Mine?) || (at.InRemote? && side.Theirs?)
  }

  /** The line that ends this part, and the part it begins. */
  function Ending(at: Where): (string, Where) {
    match at
    case Outside => ("<<<<<<< LOCAL", InLocal)
    case InLocal => ("||||||| BASE", InBase)
    case InBase => ("=======", InRemote)
    case InRemote => (">>>>>>> REMOTE", Outside)
  }

  /** The lines outside the marked regions and, of each region, those of one side. */
  function Choose(lines: Lines, at: Where, side: Side): Lines
    decreases |lines|
  {
    if lines == [] then []
    else if lines[0] == Ending(at).0 then Choose(lines[1..], Ending(at).1, side)
    else (if Keeps(at, side) then [lines[0]] else []) + Choose(lines[1..], at, side)
  }

  predicate Markerless(lines: Lines) {
    forall i :: 0 <= i < |lines| ==> !IsMarker(lines[i])
  }

  /** Plain lines are kept or skipped as a whole. */
  lemma {:induction false} ChoosePlain(xs: Lines, rest: Lines, at: Where, side: Side)
    requires Markerless(xs)
    ensures Choose(xs + rest, at, side) == (if Keeps(at, side) then xs else []) + Choose(rest, at, side)
    decreases |xs|
  {
    if xs == [] {
      assert xs + rest == rest;
    } else {
      assert (xs + rest)[1..] == xs[1..] + rest && !IsMarker(xs[0]);
      ChoosePlain(xs[1..], rest, at, side);
      assert xs == [xs[0]] + xs[1..];
    }
  }

  /** Plain lines and the marker after them. */
  lemma ChoosePart(xs: Lines, rest: Lines, at: Where, side: Side)
    requires Markerless(xs)
    ensures Choose(xs + ([Ending(at).0] + rest), at, side)
         == (if Keeps(at, side) then xs else []) + Choose(rest, Ending(at).1, side)
  {
    ChoosePlain(xs, [Ending(at).0] + rest, at, side);
    assert ([Ending(at).0] + rest)[1..] == rest;
  }

  // ---------------------------------------------------------------- one side wins every conflict

  predicate PlainPiece(p: Piece) {
    if p.Stable? then !IsMarker(p.line) else Markerless(p.base) && Markerless(p.local) && Markerless(p.remote)
  }

  /** What a piece becomes if `side` wins where both changed it differently. */
  function Preferred(p: Piece, side: Side): Lines {
    if p.Stable? then [p.line]
    else if p.remote == p.base then p.local
    else if p.local == p.base then p.remote
    else if side.Mine? then p.local
    else p.remote
  }

  function AllPreferred(ps: seq<Piece>, side: Side): Lines {
    if ps == [] then [] else Preferred(ps[0], side) + AllPreferred(ps[1..], side)
  }

  lemma QuotedAsParts(out: Lines, p: Piece)
    requires p.Chunk? && Quotes(out, p.base, p.local, p.remote)
    ensures out == ["<<<<<<< LOCAL"]
                     + (p.local + (["||||||| BASE"] + (p.base + (["======="] + (p.remote + [">>>>>>> REMOTE"])))))
  {
    var b, m, r := 1 + |p.local|, 2 + |p.local| + |p.base|, 3 + |p.local| + |p.base| + |p.remote|;
    assert out == [out[0]] + (out[1..b] + ([out[b]] + (out[b + 1..m] + ([out[m]] + (out[m + 1..r] + [out[r]])))));
  }

  lemma RegionGrouped(l: Lines, b: Lines, r: Lines, x: string, y: string, z: string, w: string, rest: Lines)
    ensures ([x] + (l + ([y] + (b + ([z] + (r + [w])))))) + rest
         == [x] + (l + ([y] + (b + ([z] + (r + ([w] + rest))))))
  {
    assert (r + [w]) + rest == r + ([w] + rest);
    assert ([z] + (r + [w])) + rest == [z] + (r + ([w] + rest));
    assert (b + ([z] + (r + [w]))) + rest == b + ([z] + (r + ([w] + rest)));
    assert ([y] + (b + ([z] + (r + [w])))) + rest == [y] + (b + ([z] + (r + ([w] + rest))));
    assert (l + ([y] + (b + ([z] + (r + [w]))))) + rest == l + ([y] + (b + ([z] + (r + ([w] + rest)))));
  }

  lemma ChooseRegion(l: Lines, b: Lines, r: Lines, rest: Lines, side: Side)
    requires Markerless(l) && Markerless(b) && Markerless(r)
    ensures var theirs := ["======="] + (r + ([">>>>>>> REMOTE"] + rest));
            Choose(["<<<<<<< LOCAL"] + (l + (["||||||| BASE"] + (b + theirs))), Outside, side)
            == (if side.Mine? then l else r) + Choose(rest, Outside, side)
  {
    var tail3 := r + ([">>>>>>> REMOTE"] + rest);
    var tail2 := b + (["======="] + tail3);
    var tail1 := l + (["||||||| BASE"] + tail2);
    ChoosePart([], tail1, Outside, side);
    assert [] + (["<<<<<<< LOCAL"] + tail1) == ["<<<<<<< LOCAL"] + tail1;
    ChoosePart(l, tail2, InLocal, side);
    ChoosePart(b, tail3, InBase, side);
    ChoosePart(r, rest, InRemote, side);
  }

  lemma ChoosePiece(p: Piece, rest: Lines, side: Side)
    requires PlainPiece(p)
    ensures Choose(Output(p) + rest, Outside, side) == Preferred(p, side) + Choose(rest, Outside, side)
  {
    if InConflict(p) {
      MarkedQuotes(p);
      QuotedAsParts(Output(p), p);
      RegionGrouped(p.local, p.base, p.remote, "<<<<<<< LOCAL", "||||||| BASE", "=======", ">>>>>>> REMOTE", rest);
      ChooseRegion(p.local, p.base, p.remote, rest, side);
    } else {
      ChoosePlain(Output(p), rest, Outside, side);
    }
  }

  lemma {:induction false} ChoosePieces(ps: seq<Piece>, side: Side)
    requires forall i :: 0 <= i < |ps| ==> PlainPiece(ps[i])
    ensures Choose(Outputs(ps), Outside, side) == AllPreferred(ps, side)
  {
    if ps != [] {
      ChoosePieces(ps[1..], side);
      ChoosePiece(ps[0], Outputs(ps[1..]), side);
    }
  }

  // ---------------------------------------------------------------- the pieces of texts without marker lines

  lemma MarkerlessParts(xs: Lines, ys: Lines)
    requires Markerless(xs + ys)
    ensures Markerless(xs) && Markerless(ys)
  {
    assert forall i :: 0 <= i < |xs| ==> (xs + ys)[i] == xs[i];
    assert forall i :: 0 <= i < |ys| ==> (xs + ys)[|xs| + i] == ys[i];
  }

  lemma {:induction false} PlainPieces(ps: seq<Piece>)
    requires Markerless(BaseSide(ps)) && Markerless(LocalSide(ps)) && Markerless(RemoteSide(ps))
    ensures forall i :: 0 <= i < |ps| ==> PlainPiece(ps[i])
  {
    if ps != [] {
      var p := ps[0];
      MarkerlessParts(BasePart(p), BaseSide(ps[1..]));
      MarkerlessParts(LocalPart(p), LocalSide(ps[1..]));
      assert SwapAll(ps) == [Swap(p)] + SwapAll(ps[1..]) && ([Swap(p)] + SwapAll(ps[1..]))[1..] == SwapAll(ps[1..]);
      MarkerlessParts(LocalPart(Swap(p)), RemoteSide(ps[1..]));
      PlainPieces(ps[1..]);
      assert p.Stable? ==> BasePart(p)[0] == p.line;
    }
  }

  /** Of the merged lines, the choice of one side is the merge in which that side wins every conflict. */
  lemma ChoiceIsThatMerge(base: Lines, local: Lines, remote: Lines, side: Side)
    requires Markerless(base) && Markerless(local) && Markerless(remote)
    ensures Choose(Outputs(Pieces(base, local, remote)), Outside, side)
            == AllPreferred(Pieces(base, local, remote), side)
  {
    PiecesCover(base, local, remote);
    PlainPieces(Pieces(base, local, remote));
    ChoosePieces(Pieces(base, local, remote), side);
  }

  // ---------------------------------------------------------------- the merged text

  predicate OneLine(line: string) {
    '\n' !in line && '\r' !in line
  }

  predicate AreLines(lines: Lines) {
    forall i :: 0 <= i < |lines| ==> OneLine(lines[i])
  }

  lemma {:induction false} SplitHasLines(s: string)
    requires '\r' !in s
    ensures AreLines(Split(s, '\n'))
  {
    if s != "" {
      assert s[0] in s && forall c :: c in s[1..] ==> c in s;
      SplitHasLines(s[1..]);
    }
  }

  lemma LinesOfAreLines(text: string)
    ensures AreLines(LinesOf(text))
  {
    NoCrLeft(ReplaceCrLf(text));
    SplitHasLines(ReplaceCr(ReplaceCrLf(text)));
  }

  lemma LinePartsOf(xs: Lines, ys: Lines)
    ensures AreLines(xs + ys) <==> AreLines(xs) && AreLines(ys)
  {
    assert forall i :: 0 <= i < |xs| ==> (xs + ys)[i] == xs[i];
    assert forall i :: 0 <= i < |ys| ==> (xs + ys)[|xs| + i] == ys[i];
  }

  lemma MarkedAreLines(p: Piece)
    requires p.Chunk? && AreLines(p.base) && AreLines(p.local) && AreLines(p.remote)
    ensures AreLines(Marked(p))
  {
    LinePartsOf(["<<<<<<< LOCAL"], p.local);
    LinePartsOf(["<<<<<<< LOCAL"] + p.local, ["||||||| BASE"]);
    LinePartsOf(["<<<<<<< LOCAL"] + p.local + ["||||||| BASE"], p.base);
    LinePartsOf(["<<<<<<< LOCAL"] + p.local + ["||||||| BASE"] + p.base, ["======="]);
    LinePartsOf(["<<<<<<< LOCAL"] + p.local + ["||||||| BASE"] + p.base + ["======="], p.remote);
    LinePartsOf(["<<<<<<< LOCAL"] + p.local + ["||||||| BASE"] + p.base + ["======="] + p.remote, [">>>>>>> REMOTE"]);
  }

  lemma {:induction false} OutputsAreLines(ps: seq<Piece>)
    requires AreLines(BaseSide(ps)) && AreLines(LocalSide(ps)) && AreLines(RemoteSide(ps))
    ensures AreLines(Outputs(ps))
  {
    if ps != [] {
      var p := ps[0];
      LinePartsOf(BasePart(p), BaseSide(ps[1..]));
      LinePartsOf(LocalPart(p), LocalSide(ps[1..]));
      assert SwapAll(ps) == [Swap(p)] + SwapAll(ps[1..]) && ([Swap(p)] + SwapAll(ps[1..]))[1..] == SwapAll(ps[1..]);
      LinePartsOf(LocalPart(Swap(p)), RemoteSide(ps[1..]));
      if p.Chunk? {
        MarkedAreLines(p);
      }
      OutputsAreLines(ps[1..]);
      LinePartsOf(Output(p), Outputs(ps[1..]));
    }
  }

  lemma {:induction false} JoinHasNoCr(lines: Lines)
    requires AreLines(lines)
    ensures '\r' !in Join(lines, "\n")
  {
    if |lines| > 1 {
      JoinHasNoCr(lines[1..]);
    }
  }

  /** Joined lines are read back as they were; a single empty line is an empty text. */
  lemma JoinedLinesComeBack(lines: Lines)
    requires AreLines(lines)
    ensures LinesOf(Join(lines, "\n")) == if lines == [""] then [] else lines
  {
    if lines != [] {
      JoinHasNoCr(lines);
      UnixIsKept(Join(lines, "\n"));
      forall p | p in lines ensures '\n' !in p {
        var i :| 0 <= i < |lines| && lines[i] == p;
      }
      SplitJoin(lines, '\n');
      assert Join(lines, "\n") == "" ==> Split("", '\n') == [""];
    }
  }

  lemma ChosenLinesAreThatMerge(base: Lines, local: Lines, remote: Lines, side: Side)
    requires AreLines(base) && AreLines(local) && AreLines(remote)
    requires Markerless(base) && Markerless(local) && Markerless(remote)
    ensures var ps := Pieces(base, local, remote);
            Join(Choose(LinesOf(Join(Outputs(ps), "\n")), Outside, side), "\n") == Join(AllPreferred(ps, side), "\n")
  {
    var ps := Pieces(base, local, remote);
    PiecesCover(base, local, remote);
    OutputsAreLines(ps);
    JoinedLinesComeBack(Outputs(ps));
    ChoiceIsThatMerge(base, local, remote, side);
    if Outputs(ps) == [""] {
      assert Choose([""], Outside, side) == [""] + Choose([], Outside, side);
    }
  }

  /**
   * The merged text, read line by line and with one side chosen in every marked region, is the text of the merge in
   * which that side wins every conflict.
   */
  lemma ChosenTextIsThatMerge(base: string, local: string, remote: string, side: Side)
    requires Markerless(LinesOf(base)) && Markerless(LinesOf(local)) && Markerless(LinesOf(remote))
    ensures var ps := Pieces(LinesOf(base), LinesOf(local), LinesOf(remote));
            Join(Choose(LinesOf(FullMerge(base, local, remote).mergedText), Outside, side), "\n")
            == Join(AllPreferred(ps, side), "\n")
  {
    LinesOfAreLines(base);
    LinesOfAreLines(local);
    LinesOfAreLines(remote);
    ChosenLinesAreThatMerge(LinesOf(base), LinesOf(local), LinesOf(remote), side);
  }

  // ---------------------------------------------------------------- the list of conflicts

  /** Every chunk knows the line of the base where it starts; the first piece starts at `at`. */
  predicate Located(ps: seq<Piece>, at: nat) {
    ps != [] ==> (ps[0].Chunk? ==> ps[0].start == at) && Located(ps[1..], at + |BasePart(ps[0])|)
  }

  lemma {:induction false} WeaveIsLocated(base: Lines, local: Lines, remote: Lines, anchors: seq<Anchor>, at: Anchor)
    requires Fits(base, local, remote, anchors, at)
    ensures Located(Weave(base, local, remote, anchors, at), at.b)
    decreases |anchors|
  {
    var ps := Weave(base, local, remote, anchors, at);
    if anchors == [] {
      assert ps[1..] == [];
    } else {
      var a := anchors[0];
      WeaveIsLocated(base, local, remote, anchors[1..], After(a));
      var rest := Weave(base, local, remote, anchors[1..], After(a));
      assert ps[1..] == [Stable(base[a.b])] + rest && ps[1..][1..] == rest;
      assert |BasePart(ps[0])| == a.b - at.b && |BasePart(ps[1])| == 1;
      assert Located(ps[1..], a.b);
    }
  }

  /** The conflict that reports piece `k`, by line number counted from 1. */
  function ReportOf(ps: seq<Piece>, k: nat, at: nat): BodyConflict
    requires k < |ps| && ps[k].Chunk?
  {
    BodyConflict(at + |BaseSide(ps[..k])| + 1, ps[k].base, ps[k].local, ps[k].remote)
  }

  /** Both sides changed the chunk, and differently. */
  predicate Clashes(p: Piece) {
    p.Chunk? && p.local != p.base && p.remote != p.base && p.local != p.remote
  }

  lemma {:induction false} ClashIsReported(ps: seq<Piece>, k: nat, at: nat)
    requires k < |ps| && Clashes(ps[k]) && Located(ps, at)
    ensures ReportOf(ps, k, at) in Conflicts(ps)
  {
    if k > 0 {
      assert ps[..k][0] == ps[0] && ps[..k][1..] == ps[1..][..k - 1];
      ClashIsReported(ps[1..], k - 1, at + |BasePart(ps[0])|);
      assert ReportOf(ps, k, at) == ReportOf(ps[1..], k - 1, at + |BasePart(ps[0])|);
    }
  }

  lemma {:induction false} ReportIsAClash(ps: seq<Piece>, c: BodyConflict, at: nat) returns (k: nat)
    requires c in Conflicts(ps) && Located(ps, at)
    ensures k < |ps| && Clashes(ps[k]) && c == ReportOf(ps, k, at)
  {
    if InConflict(ps[0]) && c == BodyConflict(ps[0].start + 1, ps[0].base, ps[0].local, ps[0].remote) {
      k := 0;
    } else {
      var j := ReportIsAClash(ps[1..], c, at + |BasePart(ps[0])|);
      k := j + 1;
      assert ps[..k][0] == ps[0] && ps[..k][1..] == ps[1..][..j];
    }
  }

  /**
   * The list of conflicts reports exactly the chunks both sides changed differently, each with the number of its first
   * line in the base and its three versions.
   */
  lemma ConflictsAreTheClashes(base: Lines, local: Lines, remote: Lines, c: BodyConflict)
    ensures var ps := Pieces(base, local, remote);
            c in Conflicts(ps) <==> exists k :: 0 <= k < |ps| && Clashes(ps[k]) && c == ReportOf(ps, k, 0)
  {
    var ps := Pieces(base, local, remote);
    CommonAnchorsFit(base, local, remote);
    WeaveIsLocated(base, local, remote, CommonAnchors(base, local, remote), START);
    if c in Conflicts(ps) {
      var k := ReportIsAClash(ps, c, 0);
    }
    forall k | 0 <= k < |ps| && Clashes(ps[k]) && c == ReportOf(ps, k, 0) ensures c in Conflicts(ps) {
      ClashIsReported(ps, k, 0);
    }
  }
}
