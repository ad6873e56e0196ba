/** The strict unified-diff parser: a cursor over lines, proved against a recursive grammar, and
    the canonical printer that inverts it. */
module PatchParser {
  import opened Outcome
  import opened PatchText

  /** Body lines keep their tag: ' ' context, '-' removal, '+' addition. */
  datatype Hunk = Hunk(oldStart: nat, oldCount: nat, newStart: nat, newCount: nat, lines: seq<string>)

  datatype FilePatch = FilePatch(path: string, isNew: bool, hunks: seq<Hunk>)

  datatype PatchError =
    | UnsupportedConstruct | UnexpectedLine | MissingNewHeader | DeletionUnsupported | IllegalPath
    | RenameUnsupported | DuplicateFile | IllegalBodyLine | CountMismatch | NewFileRange
    | NoHunks | NewFileHunks | NoFiles

  const DevNull := "/dev/null"

  // ---- What a parsed patch promises ----

  function OldSide(lines: seq<string>): (r: seq<string>)
    requires Tagged(lines)
    ensures |r| <= |lines|
  {
    if lines == [] then []
    else (if lines[0][0] in {' ', '-'} then [lines[0][1..]] else []) + OldSide(lines[1..])
  }

  function NewSide(lines: seq<string>): (r: seq<string>)
    requires Tagged(lines)
    ensures |r| <= |lines|
  {
    if lines == [] then []
    else (if lines[0][0] in {' ', '+'} then [lines[0][1..]] else []) + NewSide(lines[1..])
  }

  predicate Tagged(lines: seq<string>) {
    forall i :: 0 <= i < |lines| ==> lines[i] != "" && lines[i][0] in {' ', '-', '+'}
  }

  predicate HunkWellFormed(h: Hunk) {
    && Tagged(h.lines) && Unbroken(h.lines)
    && |OldSide(h.lines)| == h.oldCount && |NewSide(h.lines)| == h.newCount
  }

  predicate LegalPath(path: string) {
    && path != "" && path[0] != '/' && '\\' !in path && '\0' !in path
    && forall part :: part in Split(path, '/') ==> part != "" && part != "." && part != ".."
  }

  /** Legal, and it survives being cut at a tab, stripped, and read from one line. */
  predicate PathWellFormed(path: string) {
    LegalPath(path) && '\t' !in path && '\n' !in path && !IsSpace(path[|path| - 1])
  }

  predicate FileWellFormed(f: FilePatch) {
    && PathWellFormed(f.path)
    && f.hunks != [] && (forall h :: h in f.hunks ==> HunkWellFormed(h))
    && (f.isNew ==> |f.hunks| == 1 && f.hunks[0].oldStart == 0 && f.hunks[0].oldCount == 0)
  }

  predicate WellFormed(files: seq<FilePatch>) {
    && files != []
    && (forall i :: 0 <= i < |files| ==> FileWellFormed(files[i]))
    && (forall i, j :: 0 <= i < j < |files| ==> files[i].path != files[j].path)
  }

  // ---- The grammar, on lists of lines ----

  predicate Skippable(line: string) {
    line == "" || "diff " <= line || "index " <= line ||
    "new file mode" <= line || "old mode " <= line || "new mode " <= line
  }

  predicate Refused(line: string) {
    || "GIT binary patch" <= line || "Binary files " <= line || "rename from " <= line || "rename to " <= line
    || "copy from " <= line || "copy to " <= line || "\\ No newline at end of file" <= line
  }

  /** `start[,count]`, the count defaulting to one. */
  function Range(s: string): Option<(nat, nat, string)> {
    match Number(s)
    case None => None
    case Some((start, rest)) =>
      if "," <= rest && Number(rest[1..]).Some? then
        var (count, rest) := Number(rest[1..]).value;
        Some((start, count, rest))
      else Some((start, 1, rest))
  }

  datatype Header = Header(oldStart: nat, oldCount: nat, newStart: nat, newCount: nat)

  /** `@@ -range +range @@`; whatever follows is ignored. */
  function HunkHeader(line: string): Option<Header> {
    if !("@@ -" <= line) then None else
    match Range(line[4..])
    case None => None
    case Some((oldStart, oldCount, rest)) =>
      if !(" +" <= rest) then None else
      match Range(rest[2..])
      case None => None
      case Some((newStart, newCount, rest)) =>
        if " @@" <= rest then Some(Header(oldStart, oldCount, newStart, newCount)) else None
  }

  type Lines = seq<string>

  /** One tagged line with what it takes off the outstanding counts. */
  function BodyLine(line: string): Option<(string, int, int)> {
    if line == "" then Some((" ", 1, 1))
    else if line[0] == ' ' then Some((" " + line[1..], 1, 1))
    else if line[0] == '-' then Some((line, 1, 0))
    else if line[0] == '+' then Some((line, 0, 1))
    else None
  }

  /** Counted body: consume lines until both counts are used up. */
  function Body(lines: Lines, wantOld: int, wantNew: int): (r: Result<(Lines, Lines), PatchError>)
    ensures r.Ok? ==> |r.value.1| <= |lines|
  {
    if lines == [] || (wantOld <= 0 && wantNew <= 0) then
      if wantOld == 0 && wantNew == 0 then Ok(([], lines)) else Err(CountMismatch)
    else
      match BodyLine(lines[0])
      case None => Err(IllegalBodyLine)
      case Some((tagged, o, n)) =>
        Carry([tagged], Body(lines[1..], wantOld - o, wantNew - n))
  }

  /** A partial result with what came before it in front. */
  function Carry<T>(done: seq<T>, r: Result<(seq<T>, Lines), PatchError>): Result<(seq<T>, Lines), PatchError> {
    match r
    case Err(e) => Err(e)
    case Ok((more, rest)) => Ok((done + more, rest))
  }

  lemma CarryAll<T>(done: seq<T>, next: T, r: Result<(seq<T>, Lines), PatchError>)
    ensures Carry([], r) == r
    ensures Carry(done, Carry([next], r)) == Carry(done + [next], r)
  {
    if r.Ok? {
      assert [] + r.value.0 == r.value.0;
      assert done + ([next] + r.value.0) == done + [next] + r.value.0;
    }
  }

  /** A hunk whose header is already recognised. */
  function OneHunk(lines: Lines, h: Header, isNew: bool): (r: Result<(Hunk, Lines), PatchError>)
    ensures r.Ok? ==> |r.value.1| <= |lines|
  {
    match Body(lines, h.oldCount, h.newCount)
    case Err(e) => Err(e)
    case Ok((body, rest)) =>
      if isNew && (h.oldStart != 0 || h.oldCount != 0) then Err(NewFileRange)
      else Ok((Hunk(h.oldStart, h.oldCount, h.newStart, h.newCount, body), rest))
  }

  /** Hunks until a line that is no hunk header. */
  function Hunks(lines: Lines, isNew: bool): (r: Result<(seq<Hunk>, Lines), PatchError>)
    ensures r.Ok? ==> |r.value.1| <= |lines|
    decreases |lines|
  {
    if lines == [] || HunkHeader(lines[0]).None? then Ok(([], lines)) else
    match OneHunk(lines[1..], HunkHeader(lines[0]).value, isNew)
    case Err(e) => Err(e)
    case Ok((hunk, rest)) => Carry([hunk], Hunks(rest, isNew))
  }

  /** The path token of a `---` or `+++` line. */
  function RawPath(line: string): string
    requires |line| >= 4
  {
    Strip(Split(line[4..], '\t')[0])
  }

  function StripPrefix(raw: string, side: string): Option<string> {
    if raw == DevNull then Some(raw)
    else if side <= raw && LegalPath(raw[|side|..]) then Some(raw[|side|..])
    else None
  }

  /** The path a file section names and whether it is a new file. */
  function SectionPath(oldRaw: string, newRaw: string): Result<(string, bool), PatchError> {
    if newRaw == DevNull then Err(DeletionUnsupported)
    else if oldRaw != DevNull && StripPrefix(oldRaw, "a/").None? then Err(IllegalPath)
    else if StripPrefix(newRaw, "b/").None? then Err(IllegalPath)
    else
      var path := StripPrefix(newRaw, "b/").value;
      if oldRaw != DevNull && StripPrefix(oldRaw, "a/").value != path then Err(RenameUnsupported)
      else Ok((path, oldRaw == DevNull))
  }

  /** One file section: two header lines and its hunks. */
  function Section(lines: Lines, seen: set<string>): (r: Result<(FilePatch, Lines), PatchError>)
    requires lines != []
    ensures r.Ok? ==> |r.value.1| < |lines|
  {
    if Refused(lines[0]) then Err(UnsupportedConstruct)
    else if !("--- " <= lines[0]) then Err(UnexpectedLine)
    else if |lines| < 2 || !("+++ " <= lines[1]) then Err(MissingNewHeader)
    else
      match SectionPath(RawPath(lines[0]), RawPath(lines[1]))
      case Err(e) => Err(e)
      case Ok((path, isNew)) =>
        if path in seen then Err(DuplicateFile) else
        match Hunks(lines[2..], isNew)
        case Err(e) => Err(e)
        case Ok((hunks, rest)) =>
          if hunks == [] then Err(NoHunks)
          else if isNew && |hunks| != 1 then Err(NewFileHunks)
          else Ok((FilePatch(path, isNew, hunks), rest))
  }

  /** File sections, with skippable lines between them, up to the end of the patch. */
  function Files(lines: Lines, seen: set<string>): Result<(seq<FilePatch>, Lines), PatchError>
    decreases |lines|
  {
    if lines == [] then Ok(([], []))
    else if Skippable(lines[0]) then Files(lines[1..], seen)
    else
      match Section(lines, seen)
      case Err(e) => Err(e)
      case Ok((f, rest)) => Carry([f], Files(rest, seen + {f.path}))
  }

  /** The lines of a patch text; the tail after a final newline is not a line. */
  function LinesOf(text: string): (lines: Lines)
    ensures Unbroken(lines)
  {
    var pieces := Split(text, '\n');
    if pieces[|pieces| - 1] == "" then pieces[..|pieces| - 1] else pieces
  }

  function Parse(text: string): Result<seq<FilePatch>, PatchError> {
    match Files(LinesOf(text), {})
    case Err(e) => Err(e)
    case Ok((files, _)) => if files == [] then Err(NoFiles) else Ok(files)
  }

  // ---- The cursor program ----

  /** The body loop with its two counters. */
  method ParseBody(lines: Lines, at: nat, h: Header) returns (r: Result<Lines, PatchError>, i: nat)
    requires at <= |lines|
    ensures at <= i <= |lines|
    ensures r.Ok? ==> Body(lines[at..], h.oldCount, h.newCount) == Ok((r.value, lines[i..]))
    ensures r.Err? ==> Body(lines[at..], h.oldCount, h.newCount) == Err(r.error)
  {
    hide Body, Carry;
    i := at;
    var body: Lines := [];
    CarryAll([], "", Body(lines[at..], h.oldCount, h.newCount));
    var gotOld, gotNew := 0, 0;
    while i < |lines| && (gotOld < h.oldCount || gotNew < h.newCount)
      invariant at <= i <= |lines|
      invariant Body(lines[at..], h.oldCount, h.newCount) ==
                Carry(body, Body(lines[i..], h.oldCount - gotOld, h.newCount - gotNew))
    {
      var line := lines[i];
      BodyStep(lines[i..], h.oldCount - gotOld, h.newCount - gotNew, body);
      assert lines[i..][1..] == lines[i + 1..];
      if line == "" || line[0] == ' ' {
        gotOld, gotNew := gotOld + 1, gotNew + 1;
        body := body + [if line == "" then " " else " " + line[1..]];
      } else if line[0] == '-' {
        gotOld := gotOld + 1;
        body := body + [line];
      } else if line[0] == '+' {
        gotNew := gotNew + 1;
        body := body + [line];
      } else {
        return Err(IllegalBodyLine), i;
      }
      i := i + 1;
    }
    BodyEnd(lines[i..], h.oldCount - gotOld, h.newCount - gotNew, body);
    if gotOld != h.oldCount || gotNew != h.newCount {
      return Err(CountMismatch), i;
    }
    return Ok(body), i;
  }

  lemma BodyEnd(lines: Lines, wantOld: int, wantNew: int, done: Lines)
    requires lines == [] || (wantOld <= 0 && wantNew <= 0)
    ensures Carry(done, Body(lines, wantOld, wantNew)) ==
            if wantOld == 0 && wantNew == 0 then Ok((done, lines)) else Err(CountMismatch)
  {
    assert done + [] == done;
  }

  lemma BodyStep(lines: Lines, wantOld: int, wantNew: int, done: Lines)
    requires lines != [] && (wantOld > 0 || wantNew > 0)
    ensures BodyLine(lines[0]).None? ==> Carry(done, Body(lines, wantOld, wantNew)) == Err(IllegalBodyLine)
    ensures BodyLine(lines[0]).Some? ==>
              var line := BodyLine(lines[0]).value;
              Carry(done, Body(lines, wantOld, wantNew)) ==
                Carry(done + [line.0], Body(lines[1..], wantOld - line.1, wantNew - line.2))
  {
    var line := BodyLine(lines[0]);
    if line.Some? {
      CarryAll(done, line.value.0, Body(lines[1..], wantOld - line.value.1, wantNew - line.value.2));
    }
  }

  /** The hunk loop of one file section. */
  method ParseHunks(lines: Lines, at: nat, isNew: bool) returns (r: Result<seq<Hunk>, PatchError>, i: nat)
    requires at <= |lines|
    ensures at <= i <= |lines|
    ensures r.Ok? ==> Hunks(lines[at..], isNew) == Ok((r.value, lines[i..]))
    ensures r.Err? ==> Hunks(lines[at..], isNew) == Err(r.error)
  {
    hide Hunks, Carry, HunkHeader, Body;
    i := at;
    var hunks: seq<Hunk> := [];
    CarryAll([], Hunk(0, 0, 0, 0, []), Hunks(lines[at..], isNew));
    while i < |lines|
      invariant at <= i <= |lines|
      invariant Hunks(lines[at..], isNew) == Carry(hunks, Hunks(lines[i..], isNew))
      decreases |lines| - i
    {
      var header := HunkHeader(lines[i]);
      HunksStep(lines[i..], isNew, hunks);
      if header.None? {
        return Ok(hunks), i;
      }
      assert lines[i..][1..] == lines[i + 1..];
      var h := header.value;
      var body, next := ParseBody(lines, i + 1, h);
      if body.Err? {
        return Err(body.error), i;
      }
      if isNew && (h.oldStart != 0 || h.oldCount != 0) {
        return Err(NewFileRange), i;
      }
      hunks := hunks + [Hunk(h.oldStart, h.oldCount, h.newStart, h.newCount, body.value)];
      i := next;
    }
    HunksStep(lines[i..], isNew, hunks);
    return Ok(hunks), i;
  }

  lemma HunksStep(lines: Lines, isNew: bool, done: seq<Hunk>)
    ensures lines == [] || HunkHeader(lines[0]).None? ==> Carry(done, Hunks(lines, isNew)) == Ok((done, lines))
    ensures lines != [] && HunkHeader(lines[0]).Some? ==>
              var one := OneHunk(lines[1..], HunkHeader(lines[0]).value, isNew);
              Carry(done, Hunks(lines, isNew)) ==
                if one.Err? then Err(one.error) else Carry(done + [one.value.0], Hunks(one.value.1, isNew))
  {
    hide HunkHeader, OneHunk;
    assert done + [] == done;
    if lines != [] && HunkHeader(lines[0]).Some? {
      var one := OneHunk(lines[1..], HunkHeader(lines[0]).value, isNew);
      if one.Ok? {
        CarryAll(done, one.value.0, Hunks(one.value.1, isNew));
      }
    }
  }

  method ParseSection(lines: Lines, at: nat, seen: set<string>) returns (r: Result<FilePatch, PatchError>, i: nat)
    requires at < |lines|
    ensures r.Ok? ==> at < i <= |lines| && Section(lines[at..], seen) == Ok((r.value, lines[i..]))
    ensures r.Err? ==> Section(lines[at..], seen) == Err(r.error)
  {
    hide Refused, SectionPath, Hunks;
    i := at;
    if Refused(lines[i]) {
      return Err(UnsupportedConstruct), i;
    }
    if !("--- " <= lines[i]) {
      return Err(UnexpectedLine), i;
    }
    var oldRaw := RawPath(lines[i]);
    i := i + 1;
    if i >= |lines| || !("+++ " <= lines[i]) {
      return Err(MissingNewHeader), i;
    }
    var newRaw := RawPath(lines[i]);
    i := i + 1;
    var section := SectionPath(oldRaw, newRaw);
    if section.Err? {
      return Err(section.error), i;
    }
    var (path, isNew) := section.value;
    if path in seen {
      return Err(DuplicateFile), i;
    }
    assert lines[at..][2..] == lines[i..];
    var hunks;
    hunks, i := ParseHunks(lines, i, isNew);
    if hunks.Err? {
      return Err(hunks.error), i;
    }
    if hunks.value == [] {
      return Err(NoHunks), i;
    }
    if isNew && |hunks.value| != 1 {
      return Err(NewFileHunks), i;
    }
    return Ok(FilePatch(path, isNew, hunks.value)), i;
  }

  /** The whole program: the cursor only moves forward, and the result is the grammar's. */
  method ParsePatchText(text: string) returns (r: Result<seq<FilePatch>, PatchError>)
    ensures r == Parse(text)
  {
    var lines := LinesOf(text);
    var files: seq<FilePatch> := [];
    var seen: set<string> := {};
    var i := 0;
    hide Files, Carry, Skippable, Section;
    assert lines[0..] == lines;
    CarryAll([], FilePatch("", false, []), Files(lines, {}));
    while i < |lines|
      invariant i <= |lines|
      invariant Files(lines, {}) == Carry(files, Files(lines[i..], seen))
      decreases |lines| - i
    {
      FilesStep(lines[i..], seen, files);
      if Skippable(lines[i]) {
        assert lines[i..][1..] == lines[i + 1..];
        i := i + 1;
        continue;
      }
      var section, next := ParseSection(lines, i, seen);
      if section.Err? {
        return Err(section.error);
      }
      seen := seen + {section.value.path};
      files := files + [section.value];
      i := next;
    }
    FilesStep(lines[i..], seen, files);
    return if files == [] then Err(NoFiles) else Ok(files);
  }

  lemma FilesStep(lines: Lines, seen: set<string>, done: seq<FilePatch>)
    ensures lines == [] ==> Carry(done, Files(lines, seen)) == Ok((done, []))
    ensures lines != [] && Skippable(lines[0]) ==>
              Carry(done, Files(lines, seen)) == Carry(done, Files(lines[1..], seen))
    ensures lines != [] && !Skippable(lines[0]) ==>
              var one := Section(lines, seen);
              Carry(done, Files(lines, seen)) ==
                if one.Err? then Err(one.error)
                else Carry(done + [one.value.0], Files(one.value.1, seen + {one.value.0.path}))
  {
    hide Skippable, Section;
    assert done + [] == done;
    if lines != [] && !Skippable(lines[0]) && Section(lines, seen).Ok? {
      var one := Section(lines, seen).value;
      CarryAll(done, one.0, Files(one.1, seen + {one.0.path}));
    }
  }

  // ---- The canonical printer ----

  function PrintRange(start: nat, count: nat): string {
    Decimal(start) + "," + Decimal(count)
  }

  function PrintHeader(h: Hunk): string {
    "@@ -" + PrintRange(h.oldStart, h.oldCount) + " +" + PrintRange(h.newStart, h.newCount) + " @@"
  }

  function PrintHunks(hunks: seq<Hunk>): Lines {
    if hunks == [] then [] else [PrintHeader(hunks[0])] + hunks[0].lines + PrintHunks(hunks[1..])
  }

  function PrintFile(f: FilePatch): Lines {
    ["--- " + if f.isNew then DevNull else "a/" + f.path, "+++ b/" + f.path] + PrintHunks(f.hunks)
  }

  function PrintFiles(files: seq<FilePatch>): Lines {
    if files == [] then [] else PrintFile(files[0]) + PrintFiles(files[1..])
  }

  function Print(files: seq<FilePatch>): string {
    Join(PrintFiles(files))
  }
}
