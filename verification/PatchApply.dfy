/** Exact application of a parsed patch: no fuzz, no offset search. */
module PatchApply {
  import opened Outcome
  import opened PatchText
  import opened PatchParser
  import opened PatchRoundTrip

  datatype ApplyError = AlreadyExists | TargetMissing | NoTrailingNewline | Unordered | BeyondEnd | ContextMismatch

  /** Where the code splices.  `oldStart - 1` even for an empty old range. */
  function Start(h: Hunk): int {
    h.oldStart - 1
  }

  function End(h: Hunk): int {
    Start(h) + h.oldCount
  }

  predicate AllTagged(hunks: seq<Hunk>) {
    forall i :: 0 <= i < |hunks| ==> Tagged(hunks[i].lines)
  }

  /** The position hunk `k` may not start before. */
  function Floor(hunks: seq<Hunk>, k: nat, pos: nat): int
    requires k <= |hunks|
  {
    if k == 0 then pos else End(hunks[k - 1])
  }

  /** Hunks in order, inside the file, with matching context. */
  predicate Applicable(src: Lines, hunks: seq<Hunk>, pos: nat)
    requires AllTagged(hunks)
  {
    forall k :: 0 <= k < |hunks| ==> Fits(src, hunks[k], Floor(hunks, k, pos))
  }

  predicate Fits(src: Lines, h: Hunk, floor: int)
    requires Tagged(h.lines)
  {
    0 <= floor <= Start(h) && End(h) <= |src| && OldSide(h.lines) == src[Start(h)..End(h)]
  }

  /** The file with every hunk's old lines replaced by its new lines. */
  function Splice(src: Lines, hunks: seq<Hunk>, pos: nat): Lines
    requires AllTagged(hunks) && pos <= |src| && Applicable(src, hunks, pos)
  {
    if hunks == [] then src[pos..] else
    assert Fits(src, hunks[0], pos);
    ApplicableRest(src, hunks, pos);
    src[pos..Start(hunks[0])] + NewSide(hunks[0].lines) + Splice(src, hunks[1..], End(hunks[0]))
  }

  /** The first hunk of a splice, and the rest. */
  lemma FirstSplice(src: Lines, hunks: seq<Hunk>, pos: nat)
    requires AllTagged(hunks) && hunks != [] && pos <= |src| && Applicable(src, hunks, pos)
    ensures Fits(src, hunks[0], pos) && 0 <= End(hunks[0]) && Applicable(src, hunks[1..], End(hunks[0]))
    ensures Splice(src, hunks, pos) ==
            src[pos..Start(hunks[0])] + NewSide(hunks[0].lines) + Splice(src, hunks[1..], End(hunks[0]))
  {
    hide Tagged, OldSide, NewSide;
    ApplicableRest(src, hunks, pos);
  }

  lemma ApplicableRest(src: Lines, hunks: seq<Hunk>, pos: nat)
    requires AllTagged(hunks) && hunks != []
    ensures Applicable(src, hunks, pos) <==>
            Fits(src, hunks[0], pos) && 0 <= End(hunks[0]) && Applicable(src, hunks[1..], End(hunks[0]))
  {
    hide Tagged;
    var rest := hunks[1..];
    if Applicable(src, hunks, pos) {
      assert Fits(src, hunks[0], Floor(hunks, 0, pos));
      forall k | 0 <= k < |rest|
        ensures Fits(src, rest[k], Floor(rest, k, End(hunks[0])))
      {
        assert Fits(src, hunks[k + 1], Floor(hunks, k + 1, pos));
      }
    }
    if Fits(src, hunks[0], pos) && 0 <= End(hunks[0]) && Applicable(src, rest, End(hunks[0])) {
      forall k | 0 <= k < |hunks|
        ensures Fits(src, hunks[k], Floor(hunks, k, pos))
      {
        if k > 0 {
          assert Fits(src, rest[k - 1], Floor(rest, k - 1, End(hunks[0])));
        }
      }
    }
  }

  /** The error of the first hunk that does not fit. */
  function FirstFault(src: Lines, hunks: seq<Hunk>, pos: nat): Option<ApplyError>
    requires AllTagged(hunks)
  {
    if hunks == [] then None
    else if Start(hunks[0]) < pos then Some(Unordered)
    else if End(hunks[0]) > |src| then Some(BeyondEnd)
    else if OldSide(hunks[0].lines) != src[Start(hunks[0])..End(hunks[0])] then Some(ContextMismatch)
    else FirstFault(src, hunks[1..], End(hunks[0]))
  }

  lemma {:induction false} FaultFreeIffApplicable(src: Lines, hunks: seq<Hunk>, pos: nat)
    requires AllTagged(hunks)
    ensures FirstFault(src, hunks, pos).None? <==> Applicable(src, hunks, pos)
  {
    hide Tagged, OldSide;
    if hunks != [] {
      ApplicableRest(src, hunks, pos);
      if Fits(src, hunks[0], pos) {
        FaultFreeIffApplicable(src, hunks[1..], End(hunks[0]));
      }
    }
  }

  /** The hunk loop with its cursor into the source. */
  method ApplyHunks(src: Lines, hunks: seq<Hunk>) returns (r: Result<Lines, ApplyError>)
    requires AllTagged(hunks)
    ensures r.Ok? <==> Applicable(src, hunks, 0)
    ensures r.Ok? ==> r.value == Splice(src, hunks, 0)
    ensures r.Err? ==> FirstFault(src, hunks, 0) == Some(r.error)
  {
    hide Applicable, Tagged, OldSide, NewSide;
    var output: Lines := [];
    var pos := 0;
    FaultFreeIffApplicable(src, hunks, 0);
    for k := 0 to |hunks|
      invariant 0 <= pos <= |src|
      invariant FirstFault(src, hunks, 0) == FirstFault(src, hunks[k..], pos)
      invariant Applicable(src, hunks, 0) <==> Applicable(src, hunks[k..], pos)
      invariant Applicable(src, hunks, 0) ==> Splice(src, hunks, 0) == output + Splice(src, hunks[k..], pos)
    {
      var h := hunks[k];
      ghost var rest := hunks[k..];
      assert rest[0] == h && rest[1..] == hunks[k + 1..];
      FaultFreeIffApplicable(src, rest, pos);
      ApplicableRest(src, rest, pos);
      if Start(h) < pos {
        return Err(Unordered);
      }
      if End(h) > |src| {
        return Err(BeyondEnd);
      }
      if OldSide(h.lines) != src[Start(h)..End(h)] {
        return Err(ContextMismatch);
      }
      SpliceStep(src, rest, pos, output);
      output := output + src[pos..Start(h)] + NewSide(h.lines);
      pos := End(h);
    }
    assert hunks[|hunks|..] == [];
    FaultFreeIffApplicable(src, [], pos);
    return Ok(output + src[pos..]);
  }

  lemma SpliceStep(src: Lines, hunks: seq<Hunk>, pos: nat, done: Lines)
    requires AllTagged(hunks) && hunks != [] && pos <= |src| && Fits(src, hunks[0], pos)
    ensures 0 <= End(hunks[0])
    ensures Applicable(src, hunks, pos) ==> Applicable(src, hunks[1..], End(hunks[0]))
    ensures Applicable(src, hunks, pos) ==>
              done + Splice(src, hunks, pos) ==
              done + src[pos..Start(hunks[0])] + NewSide(hunks[0].lines) + Splice(src, hunks[1..], End(hunks[0]))
  {
    hide Applicable, Tagged, OldSide, NewSide;
    ApplicableRest(src, hunks, pos);
  }

  // ---- What a splice keeps ----

  function Delta(h: Hunk): int
    requires Tagged(h.lines)
  {
    |NewSide(h.lines)| - |OldSide(h.lines)|
  }

  /** How far the first `k` hunks move the lines after them. */
  function Shift(hunks: seq<Hunk>, k: nat): int
    requires AllTagged(hunks) && k <= |hunks|
  {
    if k == 0 then 0 else Delta(hunks[0]) + Shift(hunks[1..], k - 1)
  }

  function Count(lines: Lines, tag: char): nat
    requires Tagged(lines)
  {
    if lines == [] then 0 else (if lines[0][0] == tag then 1 else 0) + Count(lines[1..], tag)
  }

  /** Each hunk changes the line count by its additions minus its removals. */
  lemma {:induction false} DeltaCounts(lines: Lines)
    requires Tagged(lines)
    ensures |NewSide(lines)| - |OldSide(lines)| == Count(lines, '+') - Count(lines, '-')
  {
    if lines != [] {
      DeltaCounts(lines[1..]);
    }
  }

  lemma {:induction false} LineCount(src: Lines, hunks: seq<Hunk>, pos: nat)
    requires AllTagged(hunks) && pos <= |src| && Applicable(src, hunks, pos)
    ensures |Splice(src, hunks, pos)| == |src| - pos + Shift(hunks, |hunks|)
  {
    hide Applicable, Tagged, OldSide, NewSide;
    if hunks != [] {
      ApplicableRest(src, hunks, pos);
      LineCount(src, hunks[1..], End(hunks[0]));
    }
  }

  /** A line outside every hunk keeps its content and moves by the hunks before it, so order is
      kept too. */
  lemma {:induction false} UntouchedLineKept(src: Lines, hunks: seq<Hunk>, pos: nat, k: nat, i: nat)
    requires AllTagged(hunks) && pos <= |src| && Applicable(src, hunks, pos) && k <= |hunks|
    requires Floor(hunks, k, pos) <= i < if k == |hunks| then |src| else Start(hunks[k])
    ensures var j := i - pos + Shift(hunks, k);
            0 <= j < |Splice(src, hunks, pos)| && Splice(src, hunks, pos)[j] == src[i]
  {
    hide Applicable, Tagged, OldSide, NewSide;
    if hunks != [] {
      ApplicableRest(src, hunks, pos);
      var h, rest := hunks[0], hunks[1..];
      if k > 0 {
        UntouchedLineKept(src, rest, End(h), k - 1, i);
        var j := i - End(h) + Shift(rest, k - 1);
        var before := src[pos..Start(h)] + NewSide(h.lines);
        assert Splice(src, hunks, pos) == before + Splice(src, rest, End(h));
        assert Splice(src, hunks, pos)[|before| + j] == Splice(src, rest, End(h))[j];
      }
    }
  }

  /** Each hunk's new lines stand where the hunk was, moved by the hunks before it. */
  lemma {:induction false} HunkLands(src: Lines, hunks: seq<Hunk>, pos: nat, k: nat)
    requires AllTagged(hunks) && pos <= |src| && Applicable(src, hunks, pos) && k < |hunks|
    ensures var j := Start(hunks[k]) - pos + Shift(hunks, k);
            var lines := NewSide(hunks[k].lines);
            0 <= j && j + |lines| <= |Splice(src, hunks, pos)| && Splice(src, hunks, pos)[j..j + |lines|] == lines
  {
    hide Applicable, Tagged, OldSide, NewSide;
    ApplicableRest(src, hunks, pos);
    var h, rest := hunks[0], hunks[1..];
    var before := src[pos..Start(h)] + NewSide(h.lines);
    assert Splice(src, hunks, pos) == before + Splice(src, rest, End(h));
    if k > 0 {
      HunkLands(src, rest, End(h), k - 1);
      var j, n := Start(hunks[k]) - End(h) + Shift(rest, k - 1), |NewSide(hunks[k].lines)|;
      assert Splice(src, hunks, pos)[|before| + j..|before| + j + n] == Splice(src, rest, End(h))[j..j + n];
    }
  }

  // ---- Undoing a patch ----

  function FlipLine(line: string): string
    requires line != ""
  {
    [if line[0] == '-' then '+' else if line[0] == '+' then '-' else line[0]] + line[1..]
  }

  function Flip(lines: Lines): (r: Lines)
    requires Tagged(lines)
    ensures Tagged(r) && |r| == |lines|
  {
    if lines == [] then [] else [FlipLine(lines[0])] + Flip(lines[1..])
  }

  lemma {:induction false} FlipSwapsSides(lines: Lines)
    requires Tagged(lines)
    ensures OldSide(Flip(lines)) == NewSide(lines) && NewSide(Flip(lines)) == OldSide(lines)
    ensures Unbroken(lines) ==> Unbroken(Flip(lines))
  {
    if lines != [] {
      FlipSwapsSides(lines[1..]);
      SidesOf(lines[0], lines[1..]);
      SidesOf(FlipLine(lines[0]), Flip(lines[1..]));
      assert lines == [lines[0]] + lines[1..];
      hide OldSide, NewSide;
    }
  }

  /** The sides of a block, line by line. */
  lemma SidesOf(line: string, rest: Lines)
    requires line != "" && line[0] in {' ', '-', '+'} && Tagged(rest)
    ensures Tagged([line] + rest)
    ensures OldSide([line] + rest) == (if line[0] in {' ', '-'} then [line[1..]] else []) + OldSide(rest)
    ensures NewSide([line] + rest) == (if line[0] in {' ', '+'} then [line[1..]] else []) + NewSide(rest)
  {
    assert ([line] + rest)[1..] == rest;
  }

  predicate Ordered(hunks: seq<Hunk>, pos: int) {
    hunks == [] || (pos <= Start(hunks[0]) && Ordered(hunks[1..], End(hunks[0])))
  }

  /** Old and new exchanged, each start recomputed as the position in the output. */
  function Reverse(hunks: seq<Hunk>, pos: nat, at: nat): (r: seq<Hunk>)
    requires AllTagged(hunks) && Ordered(hunks, pos)
    ensures AllTagged(r) && |r| == |hunks|
  {
    if hunks == [] then [] else
    var h, start := hunks[0], at + Start(hunks[0]) - pos;
    [Hunk(start + 1, |NewSide(h.lines)|, h.oldStart, |OldSide(h.lines)|, Flip(h.lines))] +
    Reverse(hunks[1..], End(h), start + |NewSide(h.lines)|)
  }

  lemma {:induction false} ApplicableIsOrdered(src: Lines, hunks: seq<Hunk>, pos: nat)
    requires AllTagged(hunks) && Applicable(src, hunks, pos)
    ensures Ordered(hunks, pos)
  {
    hide Applicable, Tagged, OldSide;
    if hunks != [] {
      ApplicableRest(src, hunks, pos);
      ApplicableIsOrdered(src, hunks[1..], End(hunks[0]));
    }
  }

  /** The reversed hunks fit the output and give back the source. */
  lemma {:induction false} ReverseRestoresFrom(src: Lines, hunks: seq<Hunk>, pos: nat, done: Lines)
    requires AllTagged(hunks) && pos <= |src| && Applicable(src, hunks, pos) && Ordered(hunks, pos)
    ensures var output, back := done + Splice(src, hunks, pos), Reverse(hunks, pos, |done|);
            Applicable(output, back, |done|) && Splice(output, back, |done|) == src[pos..]
  {
    hide Applicable, Tagged, OldSide, NewSide, Flip, Splice, Ordered;
    var output, back := done + Splice(src, hunks, pos), Reverse(hunks, pos, |done|);
    if hunks == [] {
      NothingToApply(src, pos);
      NothingToApply(output, |done|);
      assert output[|done|..] == src[pos..];
    } else {
      FirstSplice(src, hunks, pos);
      OrderedRest(hunks, pos);
      var h := hunks[0];
      var kept, lines := src[pos..Start(h)], NewSide(h.lines);
      var next, tail := done + kept + lines, Splice(src, hunks[1..], End(h));
      ReverseRestoresFrom(src, hunks[1..], End(h), next);
      FlipSwapsSides(h.lines);
      Laid(done, kept, lines, tail);
      assert back[1..] == Reverse(hunks[1..], End(h), |next|);
      assert Start(back[0]) == |done + kept| && End(back[0]) == |next|;
      assert Fits(output, back[0], |done|);
      ApplicableRest(output, back, |done|);
      FirstSplice(output, back, |done|);
      assert kept + OldSide(h.lines) + src[End(h)..] == src[pos..];
    }
  }

  lemma OrderedRest(hunks: seq<Hunk>, pos: int)
    requires Ordered(hunks, pos) && hunks != []
    ensures pos <= Start(hunks[0]) && Ordered(hunks[1..], End(hunks[0]))
  {
  }

  /** Where the parts of an output stand. */
  lemma Laid(done: Lines, kept: Lines, lines: Lines, tail: Lines)
    ensures var output := done + (kept + lines + tail);
            && output == done + kept + lines + tail
            && output[|done|..|done + kept|] == kept
            && output[|done + kept|..|done + kept + lines|] == lines
  {
  }

  lemma NothingToApply(src: Lines, pos: nat)
    requires pos <= |src|
    ensures Applicable(src, [], pos) && Splice(src, [], pos) == src[pos..]
  {
  }

  // ---- Whole files ----

  function Added(lines: Lines): Lines
    requires Tagged(lines)
  {
    if lines == [] then [] else (if lines[0][0] == '+' then [lines[0][1..]] else []) + Added(lines[1..])
  }

  function SourceLines(text: string): (lines: Lines)
    ensures Unbroken(lines)
  {
    var pieces := Split(text, '\n');
    pieces[..|pieces| - 1]
  }

  /** The content a file patch gives, or why it does not apply. */
  function Patched(original: Option<string>, f: FilePatch): Result<string, ApplyError>
    requires f.hunks != [] && AllTagged(f.hunks)
  {
    if f.isNew then if original.Some? then Err(AlreadyExists) else Ok(Join(Added(f.hunks[0].lines)))
    else if original.None? then Err(TargetMissing)
    else if original.value != "" && original.value[|original.value| - 1] != '\n' then Err(NoTrailingNewline)
    else
      var src := SourceLines(original.value);
      if Applicable(src, f.hunks, 0) then Ok(Join(Splice(src, f.hunks, 0)))
      else
        FaultFreeIffApplicable(src, f.hunks, 0);
        Err(FirstFault(src, f.hunks, 0).value)
  }

  method ApplyFilePatch(original: Option<string>, f: FilePatch) returns (r: Result<string, ApplyError>)
    requires f.hunks != [] && AllTagged(f.hunks)
    ensures r == Patched(original, f)
  {
    if f.isNew {
      if original.Some? {
        return Err(AlreadyExists);
      }
      return Ok(Join(Added(f.hunks[0].lines)));
    }
    if original.None? {
      return Err(TargetMissing);
    }
    var text := original.value;
    if text != "" && text[|text| - 1] != '\n' {
      return Err(NoTrailingNewline);
    }
    var applied := ApplyHunks(SourceLines(text), f.hunks);
    return if applied.Ok? then Ok(Join(applied.value)) else Err(applied.error);
  }

  /** A parsed new file holds additions only, and its content is exactly its new side. */
  lemma NewFileIsAllAdditions(f: FilePatch)
    requires FileWellFormed(f) && f.isNew
    ensures Tagged(f.hunks[0].lines) && Added(f.hunks[0].lines) == NewSide(f.hunks[0].lines)
    ensures |f.hunks[0].lines| == f.hunks[0].newCount == |Added(f.hunks[0].lines)|
    ensures forall i :: 0 <= i < f.hunks[0].newCount ==> f.hunks[0].lines[i] == "+" + Added(f.hunks[0].lines)[i]
  {
    assert f.hunks[0] in f.hunks && HunkWellFormed(f.hunks[0]);
    AdditionsOnly(f.hunks[0].lines);
  }

  lemma {:induction false} AdditionsOnly(lines: Lines)
    requires Tagged(lines) && OldSide(lines) == []
    ensures Added(lines) == NewSide(lines) && |Added(lines)| == |lines|
    ensures forall i :: 0 <= i < |lines| ==> lines[i] == "+" + Added(lines)[i]
  {
    if lines != [] {
      AdditionsOnly(lines[1..]);
      assert lines[0] == "+" + lines[0][1..];
      forall i | 0 < i < |lines|
        ensures lines[i] == "+" + Added(lines)[i]
      {
        assert lines[i] == lines[1..][i - 1] && Added(lines)[i] == Added(lines[1..])[i - 1];
      }
    }
  }

  /** The patch that undoes `f`. */
  function Undo(f: FilePatch): (r: FilePatch)
    requires AllTagged(f.hunks) && Ordered(f.hunks, 0)
    ensures |r.hunks| == |f.hunks| && AllTagged(r.hunks)
  {
    FilePatch(f.path, f.isNew, Reverse(f.hunks, 0, 0))
  }

  lemma {:induction false} SpliceUnbroken(src: Lines, hunks: seq<Hunk>, pos: nat)
    requires AllTagged(hunks) && pos <= |src| && Applicable(src, hunks, pos)
    requires Unbroken(src) && forall h :: h in hunks ==> Unbroken(h.lines)
    ensures Unbroken(Splice(src, hunks, pos))
  {
    hide Applicable, Tagged, OldSide, NewSide;
    if hunks != [] {
      ApplicableRest(src, hunks, pos);
      SpliceUnbroken(src, hunks[1..], End(hunks[0]));
      NewSideUnbroken(hunks[0].lines);
    }
  }

  lemma {:induction false} NewSideUnbroken(lines: Lines)
    requires Tagged(lines) && Unbroken(lines)
    ensures Unbroken(NewSide(lines))
  {
    if lines != [] {
      assert '\n' !in lines[0];
      NewSideUnbroken(lines[1..]);
    }
  }

  lemma JoinedText(lines: Lines)
    requires Unbroken(lines)
    ensures SourceLines(Join(lines)) == lines
    ensures Join(lines) == "" || Join(lines)[|Join(lines)| - 1] == '\n'
  {
    SplitJoin(lines);
    JoinSplit(Join(lines));
  }

  lemma {:induction false} ReverseWellFormed(hunks: seq<Hunk>, pos: nat, at: nat)
    requires AllTagged(hunks) && Ordered(hunks, pos) && forall h :: h in hunks ==> HunkWellFormed(h)
    ensures forall h :: h in Reverse(hunks, pos, at) ==> HunkWellFormed(h)
  {
    hide OldSide, NewSide, Tagged, Flip;
    if hunks != [] {
      var h, start := hunks[0], at + Start(hunks[0]) - pos;
      assert h in hunks;
      FlipSwapsSides(h.lines);
      ReverseWellFormed(hunks[1..], End(h), start + |NewSide(h.lines)|);
    }
  }

  /** The undo patch is a patch: it is read back from its canonical text. */
  lemma UndoIsParsed(f: FilePatch)
    requires FileWellFormed(f) && !f.isNew && AllTagged(f.hunks) && Ordered(f.hunks, 0)
    ensures Parse(Print([Undo(f)])) == Ok([Undo(f)])
  {
    ReverseWellFormed(f.hunks, 0, 0);
    hide HunkWellFormed, PathWellFormed, Ordered, Parse, Reverse;
    assert FileWellFormed(Undo(f));
    PrintedParses([Undo(f)]);
  }

  /** For every patch text the parser accepts and every file it applies to, the undo patch is
      itself a patch, applies to the result and restores the original text exactly. */
  lemma UndoRestores(patch: string, k: nat, original: string, result: string)
    requires Parse(patch).Ok? && k < |Parse(patch).value| && !Parse(patch).value[k].isNew
    ensures AllTagged(Parse(patch).value[k].hunks) && Parse(patch).value[k].hunks != []
    ensures Patched(Some(original), Parse(patch).value[k]) == Ok(result) ==>
              && Ordered(Parse(patch).value[k].hunks, 0)
              && Parse(Print([Undo(Parse(patch).value[k])])) == Ok([Undo(Parse(patch).value[k])])
              && Patched(Some(result), Undo(Parse(patch).value[k])) == Ok(original)
  {
    hide Parse, Print, Applicable, WellFormed, FileWellFormed, Ordered, Tagged, Join, Split;
    ParsedIsWellFormed(patch);
    var f := Parse(patch).value[k];
    HunksOfParsed(Parse(patch).value, k);
    ParsedFile(Parse(patch).value, k);
    if Patched(Some(original), f) == Ok(result) {
      var src := SourceLines(original);
      var output := Splice(src, f.hunks, 0);
      ApplicableIsOrdered(src, f.hunks, 0);
      UndoIsParsed(f);
      ReverseRestoresFrom(src, f.hunks, 0, []);
      assert [] + output == output;
      SpliceUnbroken(src, f.hunks, 0);
      JoinedText(output);
      JoinSplit(original);
      var tail := Split(original, '\n')[|Split(original, '\n')| - 1];
      assert src[0..] == src && tail == "" && Join(src) + "" == original;
      assert Join(src) == original;
    }
  }

  lemma ParsedFile(files: seq<FilePatch>, k: nat)
    requires WellFormed(files) && k < |files|
    ensures FileWellFormed(files[k])
  {
  }

  lemma HunksOfParsed(files: seq<FilePatch>, k: nat)
    requires WellFormed(files) && k < |files|
    ensures files[k].hunks != [] && AllTagged(files[k].hunks) && forall h :: h in files[k].hunks ==> Unbroken(h.lines)
  {
    var f := files[k];
    assert FileWellFormed(f);
    forall i | 0 <= i < |f.hunks|
      ensures Tagged(f.hunks[i].lines)
    {
      assert f.hunks[i] in f.hunks && HunkWellFormed(f.hunks[i]);
    }
  }

  // ---- Empty old ranges ----

  /** POSIX numbers an empty range by the line before it, so the code would have to be given a start
      one higher to splice there. */
  function PosixHunk(h: Hunk): Hunk {
    if h.oldCount == 0 then h.(oldStart := h.oldStart + 1) else h
  }

  /** The hunks whose application by the code is the POSIX reading of `hunks`. */
  function PosixHunks(hunks: seq<Hunk>): (r: seq<Hunk>)
    ensures |r| == |hunks| && forall i :: 0 <= i < |hunks| ==> r[i] == PosixHunk(hunks[i])
    ensures AllTagged(hunks) ==> AllTagged(r)
  {
    seq(|hunks|, i requires 0 <= i < |hunks| => PosixHunk(hunks[i]))
  }

  predicate AllAre(lines: Lines, x: string) {
    forall i :: 0 <= i < |lines| ==> lines[i] == x
  }

  /** A hunk with an empty old range repeats the line it is numbered by. */
  predicate Repeats(src: Lines, h: Hunk)
    requires Tagged(h.lines)
  {
    h.oldCount == 0 ==> 1 <= h.oldStart <= |src| && AllAre(NewSide(h.lines), src[h.oldStart - 1])
  }

  predicate AllRepeat(src: Lines, hunks: seq<Hunk>)
    requires AllTagged(hunks)
  {
    forall k :: 0 <= k < |hunks| ==> Repeats(src, hunks[k])
  }

  lemma PosixHunksRest(hunks: seq<Hunk>)
    requires hunks != []
    ensures PosixHunks(hunks)[1..] == PosixHunks(hunks[1..]) && PosixHunks(hunks)[0] == PosixHunk(hunks[0])
  {
  }

  lemma AllRepeatRest(src: Lines, hunks: seq<Hunk>)
    requires AllTagged(hunks) && hunks != []
    ensures AllRepeat(src, hunks) <==> Repeats(src, hunks[0]) && AllRepeat(src, hunks[1..])
  {
    hide Repeats, Tagged;
    if Repeats(src, hunks[0]) && AllRepeat(src, hunks[1..]) {
      forall k | 0 <= k < |hunks|
        ensures Repeats(src, hunks[k])
      {
        assert k > 0 ==> hunks[k] == hunks[1..][k - 1];
      }
    }
  }

  /** For every list of hunks that applies under both readings, the code's file and the POSIX file
      are equal exactly when every hunk with an empty old range repeats the line before it. */
  lemma {:induction false} PosixReadingAgrees(src: Lines, hunks: seq<Hunk>, pos: nat)
    requires AllTagged(hunks) && pos <= |src|
    requires Applicable(src, hunks, pos) && Applicable(src, PosixHunks(hunks), pos)
    ensures Splice(src, hunks, pos) == Splice(src, PosixHunks(hunks), pos) <==> AllRepeat(src, hunks)
    decreases |hunks|, 1
  {
    hide Applicable, Tagged, OldSide, NewSide, AllRepeat, AllAre, Splice;
    if hunks == [] {
      NothingRepeats(src);
    } else {
      var h, rest := hunks[0], hunks[1..];
      PosixHunksRest(hunks);
      FirstSplice(src, hunks, pos);
      FirstSplice(src, PosixHunks(hunks), pos);
      AllRepeatRest(src, hunks);
      var kept, lines := src[pos..Start(h)], NewSide(h.lines);
      if h.oldCount > 0 {
        PosixReadingAgrees(src, rest, End(h));
        SamePrefix(kept + lines, Splice(src, rest, End(h)), Splice(src, PosixHunks(rest), End(h)));
      } else {
        var s := h.oldStart;
        InsertionAgrees(src, lines, rest, s);
        LaterInsertion(src, pos, s, lines, Splice(src, PosixHunks(rest), s));
        Regroup(kept, lines, Splice(src, rest, s - 1));
        SamePrefix(kept, lines + Splice(src, rest, s - 1), [src[s - 1]] + lines + Splice(src, PosixHunks(rest), s));
      }
    }
  }

  lemma Regroup(a: Lines, b: Lines, c: Lines)
    ensures a + b + c == a + (b + c)
  {
  }

  lemma LaterInsertion(src: Lines, pos: nat, s: nat, lines: Lines, tail: Lines)
    requires pos < s <= |src|
    ensures src[pos..s] + lines + tail == src[pos..s - 1] + ([src[s - 1]] + lines + tail)
  {
    assert src[pos..s] == src[pos..s - 1] + [src[s - 1]];
  }

  /** Lines already inserted before line `s` by the code and after it by POSIX, and hunks to come. */
  lemma {:induction false} InsertionAgrees(src: Lines, lines: Lines, rest: seq<Hunk>, s: nat)
    requires AllTagged(rest) && 1 <= s <= |src|
    requires Applicable(src, rest, s - 1) && Applicable(src, PosixHunks(rest), s)
    ensures lines + Splice(src, rest, s - 1) == [src[s - 1]] + lines + Splice(src, PosixHunks(rest), s) <==>
            AllAre(lines, src[s - 1]) && AllRepeat(src, rest)
    decreases |rest|, 2
  {
    hide Applicable, Tagged, OldSide, NewSide, AllRepeat, AllAre, Splice;
    var x := src[s - 1];
    if rest != [] && Start(rest[0]) == s - 1 {
      var more := NewSide(rest[0].lines);
      PosixHunksRest(rest);
      FirstSplice(src, rest, s - 1);
      FirstSplice(src, PosixHunks(rest), s);
      AllRepeatRest(src, rest);
      RepeatsAt(src, rest[0]);
      var code, posix := Splice(src, rest[1..], s - 1), Splice(src, PosixHunks(rest[1..]), s);
      InsertionAgrees(src, lines + more, rest[1..], s);
      AllAreBoth(lines, more, x);
      Inserted(src[s - 1..s - 1], lines, more, code);
      Inserted(src[s..s], [x] + lines, more, posix);
      Regroup([x], lines, more);
    } else {
      StartsLater(src, rest, s);
      PosixReadingAgrees(src, rest, s);
      var code, posix := Splice(src, rest, s), Splice(src, PosixHunks(rest), s);
      Regroup(lines, [x], code);
      SameParts(lines + [x], code, [x] + lines, posix);
      Rotation(x, lines);
    }
  }

  lemma RepeatsAt(src: Lines, h: Hunk)
    requires Tagged(h.lines) && h.oldCount == 0 && 1 <= h.oldStart <= |src|
    ensures Repeats(src, h) <==> AllAre(NewSide(h.lines), src[h.oldStart - 1])
  {
  }

  lemma Inserted(nothing: Lines, lines: Lines, more: Lines, tail: Lines)
    requires nothing == []
    ensures lines + (nothing + more + tail) == lines + more + tail
  {
  }

  /** A splice that does not touch line `s - 1` copies it. */
  lemma StartsLater(src: Lines, rest: seq<Hunk>, s: nat)
    requires AllTagged(rest) && 1 <= s <= |src| && Applicable(src, rest, s - 1)
    requires rest == [] || Start(rest[0]) != s - 1
    ensures Applicable(src, rest, s) && Splice(src, rest, s - 1) == [src[s - 1]] + Splice(src, rest, s)
  {
    hide Applicable, Tagged, OldSide, NewSide, Splice;
    if rest == [] {
      NothingToApply(src, s);
      NothingToApply(src, s - 1);
      assert src[s - 1..] == [src[s - 1]] + src[s..];
    } else {
      ApplicableRest(src, rest, s - 1);
      ApplicableRest(src, rest, s);
      FirstSplice(src, rest, s - 1);
      FirstSplice(src, rest, s);
      CopiesFirst(src, s, Start(rest[0]), NewSide(rest[0].lines), Splice(src, rest[1..], End(rest[0])));
    }
  }

  lemma CopiesFirst(src: Lines, s: nat, to: nat, lines: Lines, tail: Lines)
    requires 1 <= s <= to <= |src|
    ensures src[s - 1..to] + lines + tail == [src[s - 1]] + (src[s..to] + lines + tail)
  {
    assert src[s - 1..to] == [src[s - 1]] + src[s..to];
  }

  lemma NothingRepeats(src: Lines)
    ensures AllRepeat(src, []) && PosixHunks([]) == []
  {
  }

  lemma SamePrefix(a: Lines, b: Lines, c: Lines)
    ensures a + b == a + c <==> b == c
  {
    assert (a + b)[|a|..] == b && (a + c)[|a|..] == c;
  }

  lemma SameParts(a: Lines, b: Lines, c: Lines, d: Lines)
    requires |a| == |c|
    ensures a + b == c + d <==> a == c && b == d
  {
    assert (a + b)[..|a|] == a && (c + d)[..|a|] == c;
    assert (a + b)[|a|..] == b && (c + d)[|a|..] == d;
  }

  lemma AllAreBoth(a: Lines, b: Lines, x: string)
    ensures AllAre(a + b, x) <==> AllAre(a, x) && AllAre(b, x)
  {
    assert forall i :: 0 <= i < |a| ==> (a + b)[i] == a[i];
    assert forall i :: 0 <= i < |b| ==> (a + b)[|a| + i] == b[i];
  }

  /** A line commutes with a block exactly when the block repeats it. */
  lemma Rotation(x: string, lines: Lines)
    ensures lines + [x] == [x] + lines <==> AllAre(lines, x)
  {
    if lines + [x] == [x] + lines {
      forall i | 0 <= i < |lines|
        ensures lines[i] == x
      {
        RotationIsConstant(x, lines, i);
      }
    }
  }

  lemma {:induction false} RotationIsConstant(x: string, lines: Lines, i: nat)
    requires [x] + lines == lines + [x] && i < |lines|
    ensures lines[i] == x
  {
    assert ([x] + lines)[i] == (lines + [x])[i];
    if i > 0 {
      RotationIsConstant(x, lines, i - 1);
    }
  }

  /** An insertion at the top of an existing file, written the POSIX way, is always refused. */
  lemma PosixTopInsertionRefused(src: Lines, h: Hunk, rest: seq<Hunk>)
    requires AllTagged([h] + rest) && h.oldStart == 0
    ensures FirstFault(src, [h] + rest, 0) == Some(Unordered)
  {
  }

  /** A POSIX insertion of "b" after line 1 of a two-line file lands before line 1. */
  lemma InsertionDiffersFromPosix()
    ensures var h, src := Hunk(1, 0, 2, 1, ["+b"]), ["a", "c"];
            && HunkWellFormed(h) && AllTagged([h]) && Applicable(src, [h], 0) && Applicable(src, [PosixHunk(h)], 0)
            && Splice(src, [h], 0) == ["b", "a", "c"] && Splice(src, [PosixHunk(h)], 0) == ["a", "b", "c"]
  {
    var h, src := Hunk(1, 0, 2, 1, ["+b"]), ["a", "c"];
    PlusB();
    hide OldSide, NewSide;
    InsertsAt(src, [h], 0);
    InsertsAt(src, [PosixHunk(h)], 1);
  }

  lemma PlusB()
    ensures Tagged(["+b"]) && OldSide(["+b"]) == [] && NewSide(["+b"]) == ["b"]
  {
    assert ["+b"][1..] == [] && "+b"[1..] == "b";
  }

  lemma InsertsAt(src: Lines, hunks: seq<Hunk>, at: nat)
    requires |hunks| == 1 && AllTagged(hunks) && OldSide(hunks[0].lines) == []
    requires hunks[0].oldCount == 0 && hunks[0].oldStart == at + 1 && at <= |src|
    ensures Applicable(src, hunks, 0) && Splice(src, hunks, 0) == src[..at] + NewSide(hunks[0].lines) + src[at..]
  {
    hide Tagged, OldSide, NewSide, Applicable, Splice;
    assert Fits(src, hunks[0], 0) && hunks[1..] == [] && src[0..at] == src[..at];
    NothingToApply(src, at);
    ApplicableRest(src, hunks, 0);
    FirstSplice(src, hunks, 0);
  }
}
