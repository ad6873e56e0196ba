/** What the parser accepts is exactly what the canonical printer can say, and printing loses
    nothing, although body lines may look like file or hunk headers. */
module PatchRoundTrip {
  import opened Outcome
  import opened PatchText
  import opened PatchParser

  // ---- Everything accepted is well formed ----

  lemma {:induction false} BodySound(lines: Lines, wantOld: int, wantNew: int)
    requires Unbroken(lines) && Body(lines, wantOld, wantNew).Ok?
    ensures var (body, rest) := Body(lines, wantOld, wantNew).value;
            Tagged(body) && Unbroken(body) && |OldSide(body)| == wantOld && |NewSide(body)| == wantNew &&
            Unbroken(rest)
  {
    if lines != [] && (wantOld > 0 || wantNew > 0) {
      hide BodyLine, OldSide, NewSide, Tagged;
      var line := BodyLine(lines[0]).value;
      BodySound(lines[1..], wantOld - line.1, wantNew - line.2);
      var (more, rest) := Body(lines[1..], wantOld - line.1, wantNew - line.2).value;
      assert '\n' !in lines[0];
      TaggedLine(lines[0], more);
    }
  }

  lemma TaggedLine(line: string, more: Lines)
    requires BodyLine(line).Some? && '\n' !in line && Tagged(more) && Unbroken(more)
    ensures var (tagged, o, n) := BodyLine(line).value;
            var body := [tagged] + more;
            && Tagged(body) && Unbroken(body)
            && |OldSide(body)| == o + |OldSide(more)| && |NewSide(body)| == n + |NewSide(more)|
  {
    assert ([BodyLine(line).value.0] + more)[1..] == more;
  }

  lemma {:induction false} HunksSound(lines: Lines, isNew: bool)
    requires Unbroken(lines) && Hunks(lines, isNew).Ok?
    ensures var (hunks, rest) := Hunks(lines, isNew).value;
            Unbroken(rest) && forall h :: h in hunks ==> HunkWellFormed(h) && (isNew ==> h.oldStart == h.oldCount == 0)
    decreases |lines|
  {
    hide HunkHeader, Body, OldSide, NewSide, Tagged;
    if lines != [] && HunkHeader(lines[0]).Some? {
      var h := HunkHeader(lines[0]).value;
      BodySound(lines[1..], h.oldCount, h.newCount);
      var (hunk, rest) := OneHunk(lines[1..], h, isNew).value;
      HunksSound(rest, isNew);
    }
  }

  /** A token cut from one line is a printable path once its prefix passes. */
  lemma StrippedPathWellFormed(line: string, side: string)
    requires |line| >= 4 && '\n' !in line && |side| == 2
    requires StripPrefix(RawPath(line), side).Some? && RawPath(line) != DevNull
    ensures PathWellFormed(StripPrefix(RawPath(line), side).value)
  {
    var raw := RawPath(line);
    var path := raw[2..];
    assert path[|path| - 1] == raw[|raw| - 1];
    var token := Split(line[4..], '\t')[0];
    forall c | c in path
      ensures c != '\t' && c != '\n'
    {
      assert c in raw && c in token && c in line[4..] && c in line;
    }
  }

  lemma SectionSound(lines: Lines, seen: set<string>)
    requires lines != [] && Unbroken(lines) && Section(lines, seen).Ok?
    ensures var (f, rest) := Section(lines, seen).value;
            FileWellFormed(f) && f.path !in seen && Unbroken(rest)
  {
    hide Hunks, PathWellFormed, HunkWellFormed, Refused, StripPrefix, RawPath;
    var isNew := SectionPath(RawPath(lines[0]), RawPath(lines[1])).value.1;
    StrippedPathWellFormed(lines[1], "b/");
    HunksSound(lines[2..], isNew);
    var f := Section(lines, seen).value.0;
    assert f.hunks[0] in f.hunks;
  }

  lemma {:induction false} FilesSound(lines: Lines, seen: set<string>)
    requires Unbroken(lines) && Files(lines, seen).Ok?
    ensures var files := Files(lines, seen).value.0;
            (files != [] ==> WellFormed(files)) && forall i :: 0 <= i < |files| ==> files[i].path !in seen
    decreases |lines|
  {
    hide Section, Skippable, FileWellFormed;
    if lines != [] {
      if Skippable(lines[0]) {
        FilesSound(lines[1..], seen);
      } else {
        SectionSound(lines, seen);
        var (f, rest) := Section(lines, seen).value;
        FilesSound(rest, seen + {f.path});
      }
    }
  }

  /** Counts match the tagged lines, paths are legal and distinct, new files have one `-0,0` hunk. */
  lemma ParsedIsWellFormed(text: string)
    requires Parse(text).Ok?
    ensures WellFormed(Parse(text).value)
  {
    FilesSound(LinesOf(text), {});
  }

  // ---- Everything well formed can be printed and read back ----

  lemma {:induction false} BodyPrinted(body: Lines, rest: Lines)
    requires Tagged(body)
    ensures Body(body + rest, |OldSide(body)|, |NewSide(body)|) == Ok((body, rest))
  {
    if body == [] {
      assert body + rest == rest;
    } else {
      BodyPrinted(body[1..], rest);
      assert (body + rest)[1..] == body[1..] + rest;
      assert body[0] == [body[0][0]] + body[0][1..];
      assert body == [body[0]] + body[1..];
    }
  }

  lemma RangePrinted(start: nat, count: nat, rest: string)
    requires rest != "" && !IsDigit(rest[0])
    ensures Range(PrintRange(start, count) + rest) == Some((start, count, rest))
  {
    var tail := "," + Decimal(count) + rest;
    assert PrintRange(start, count) + rest == Decimal(start) + tail;
    NumberOfDecimal(start, tail);
    assert tail[1..] == Decimal(count) + rest;
    NumberOfDecimal(count, rest);
  }

  lemma HeaderPrinted(h: Hunk)
    ensures HunkHeader(PrintHeader(h)) == Some(Header(h.oldStart, h.oldCount, h.newStart, h.newCount))
    ensures '\n' !in PrintHeader(h)
  {
    hide Range;
    var newer := PrintRange(h.newStart, h.newCount) + " @@";
    var older := PrintRange(h.oldStart, h.oldCount) + (" +" + newer);
    assert PrintHeader(h) == "@@ -" + older;
    assert PrintHeader(h)[4..] == older;
    RangePrinted(h.oldStart, h.oldCount, " +" + newer);
    assert (" +" + newer)[2..] == newer;
    RangePrinted(h.newStart, h.newCount, " @@");
    RangeUnbroken(h.oldStart, h.oldCount);
    RangeUnbroken(h.newStart, h.newCount);
  }

  lemma RangeUnbroken(start: nat, count: nat)
    ensures '\n' !in PrintRange(start, count)
  {
    assert !IsDigit('\n');
  }

  lemma OneHunkPrinted(h: Hunk, isNew: bool, more: Lines)
    requires HunkWellFormed(h) && (isNew ==> h.oldStart == h.oldCount == 0)
    ensures OneHunk(h.lines + more, Header(h.oldStart, h.oldCount, h.newStart, h.newCount), isNew) == Ok((h, more))
  {
    hide Body, OldSide, NewSide, Tagged;
    BodyPrinted(h.lines, more);
  }

  lemma {:induction false} HunksUnbroken(hunks: seq<Hunk>)
    requires forall h :: h in hunks ==> Unbroken(h.lines)
    ensures Unbroken(PrintHunks(hunks))
  {
    hide PrintHeader;
    if hunks != [] {
      HeaderPrinted(hunks[0]);
      HunksUnbroken(hunks[1..]);
    }
  }

  lemma FirstHunk(line: string, tail: Lines, isNew: bool, h: Hunk, more: Lines)
    requires HunkHeader(line).Some? && OneHunk(tail, HunkHeader(line).value, isNew) == Ok((h, more))
    ensures |more| <= |tail| && Hunks([line] + tail, isNew) == Carry([h], Hunks(more, isNew))
  {
    assert ([line] + tail)[1..] == tail;
  }

  lemma FlattenPrinted(hunks: seq<Hunk>, rest: Lines)
    requires hunks != []
    ensures PrintHunks(hunks) + rest == [PrintHeader(hunks[0])] + (hunks[0].lines + (PrintHunks(hunks[1..]) + rest))
  {
    hide PrintHeader;
  }

  lemma {:induction false} HunksPrinted(hunks: seq<Hunk>, isNew: bool, rest: Lines)
    requires forall h :: h in hunks ==> HunkWellFormed(h) && (isNew ==> h.oldStart == h.oldCount == 0)
    requires rest == [] || HunkHeader(rest[0]).None?
    ensures Hunks(PrintHunks(hunks) + rest, isNew) == Ok((hunks, rest))
  {
    hide HunkHeader, OneHunk, HunkWellFormed, PrintHeader;
    if hunks == [] {
      assert PrintHunks(hunks) + rest == rest;
    } else {
      hide Hunks, PrintHunks;
      var h, more := hunks[0], PrintHunks(hunks[1..]) + rest;
      assert h in hunks;
      HunksPrinted(hunks[1..], isNew, rest);
      HeaderPrinted(h);
      FlattenPrinted(hunks, rest);
      OneHunkPrinted(h, isNew, more);
      FirstHunk(PrintHeader(h), h.lines + more, isNew, h, more);
      assert hunks == [h] + hunks[1..];
    }
  }

  /** A printed header line gives back its path token. */
  lemma RawPathPrinted(tag: string, raw: string)
    requires |tag| == 4 && raw != "" && '\t' !in raw && !IsSpace(raw[0]) && !IsSpace(raw[|raw| - 1])
    ensures RawPath(tag + raw) == raw
  {
    assert (tag + raw)[4..] == raw;
    SplitWhole(raw, '\t');
  }

  lemma SidePrinted(tag: string, side: string, path: string)
    requires |tag| == 4 && side in {"a/", "b/"} && PathWellFormed(path)
    ensures RawPath(tag + (side + path)) == side + path && side + path != DevNull
    ensures StripPrefix(side + path, side) == Some(path)
  {
    var raw := side + path;
    assert raw[|raw| - 1] == path[|path| - 1] && raw[2..] == path;
    assert raw[0] == side[0];
    RawPathPrinted(tag, raw);
    assert DevNull[0] == '/';
  }

  lemma PathsPrinted(f: FilePatch)
    requires PathWellFormed(f.path)
    ensures var lines := PrintFile(f);
            && "--- " <= lines[0] && "+++ " <= lines[1]
            && SectionPath(RawPath(lines[0]), RawPath(lines[1])) == Ok((f.path, f.isNew))
  {
    hide RawPath, StripPrefix, PathWellFormed;
    var lines := PrintFile(f);
    assert lines[1] == "+++ " + ("b/" + f.path);
    SidePrinted("+++ ", "b/", f.path);
    if f.isNew {
      RawPathPrinted("--- ", DevNull);
    } else {
      SidePrinted("--- ", "a/", f.path);
    }
  }

  lemma OldHeaderIsNoOther(line: string)
    requires "--- " <= line
    ensures !Skippable(line) && !Refused(line) && HunkHeader(line).None?
  {
    assert line[0] == '-';
  }

  lemma SectionPrinted(f: FilePatch, rest: Lines, seen: set<string>)
    requires FileWellFormed(f) && f.path !in seen && (rest == [] || HunkHeader(rest[0]).None?)
    ensures Section(PrintFile(f) + rest, seen) == Ok((f, rest))
    ensures Unbroken(PrintFile(f))
  {
    hide HunkWellFormed, SectionPath, HunkHeader, Hunks, PrintHunks, Skippable, Refused, RawPath, LegalPath;
    var lines := PrintFile(f) + rest;
    PathsPrinted(f);
    OldHeaderIsNoOther(lines[0]);
    assert lines[0] == PrintFile(f)[0] && lines[1] == PrintFile(f)[1];
    assert lines[2..] == PrintHunks(f.hunks) + rest;
    HunksPrinted(f.hunks, f.isNew, rest);
    BodiesUnbroken(f);
    HunksUnbroken(f.hunks);
  }

  lemma BodiesUnbroken(f: FilePatch)
    requires FileWellFormed(f)
    ensures forall h :: h in f.hunks ==> Unbroken(h.lines)
  {
  }

  lemma {:induction false} FilesPrinted(files: seq<FilePatch>, seen: set<string>)
    requires files != [] ==> WellFormed(files)
    requires forall i :: 0 <= i < |files| ==> files[i].path !in seen
    ensures Files(PrintFiles(files), seen) == Ok((files, []))
    ensures Unbroken(PrintFiles(files))
    ensures files != [] ==> "--- " <= PrintFiles(files)[0]
  {
    hide Section, Skippable, PrintFile, FileWellFormed, HunkHeader;
    if files != [] {
      var f, rest := files[0], PrintFiles(files[1..]);
      FilesPrinted(files[1..], seen + {f.path});
      if files[1..] != [] {
        OldHeaderIsNoOther(rest[0]);
      }
      FilePrinted(f);
      SectionPrinted(f, rest, seen);
      OldHeaderIsNoOther(PrintFiles(files)[0]);
      assert files == [f] + files[1..];
    }
  }

  lemma FilePrinted(f: FilePatch)
    requires FileWellFormed(f)
    ensures |PrintFile(f)| >= 2 && "--- " <= PrintFile(f)[0]
  {
  }

  lemma PrintedParses(files: seq<FilePatch>)
    requires WellFormed(files)
    ensures Parse(Print(files)) == Ok(files)
  {
    FilesPrinted(files, {});
    SplitJoin(PrintFiles(files));
    assert LinesOf(Print(files)) == PrintFiles(files);
  }

  /** Printing what was parsed and parsing again gives the same patch. */
  lemma RoundTrip(text: string)
    requires Parse(text).Ok?
    ensures Parse(Print(Parse(text).value)) == Parse(text)
  {
    ParsedIsWellFormed(text);
    PrintedParses(Parse(text).value);
  }

  /** The parser's range is exactly the well-formed patches. */
  lemma AcceptedIffWellFormed(files: seq<FilePatch>)
    ensures WellFormed(files) <==> exists text :: Parse(text) == Ok(files)
  {
    if WellFormed(files) {
      PrintedParses(files);
    }
    if text: string :| Parse(text) == Ok(files) {
      ParsedIsWellFormed(text);
    }
  }
}
