/** Every way a patch may be spelled, written down without the parser, and the parser's answer to
    each of them: omitted counts, text behind a hunk header, timestamps and blanks around paths,
    blank context lines, and skipped lines between file sections. */
module PatchSpelling {
  import opened Outcome
  import opened PatchText
  import opened PatchParser
  import opened PatchRoundTrip

  // ---- The spellings ----

  ghost predicate AllDigits(s: string) {
    forall i :: 0 <= i < |s| ==> IsDigit(s[i])
  }

  ghost predicate NumberSpelled(s: string, n: nat) {
    s != "" && AllDigits(s) && Value(s) == n
  }

  /** `start,count`, or `start` alone for a count of one. */
  ghost predicate RangeSpelled(s: string, start: nat, count: nat) {
    || (NumberSpelled(s, start) && count == 1)
    || exists i :: 0 <= i < |s| && s[i] == ',' && NumberSpelled(s[..i], start) && NumberSpelled(s[i + 1..], count)
  }

  /** `@@ -range +range @@` and anything behind it. */
  ghost predicate HeaderSpelled(line: string, h: Header) {
    exists prior, newer ::
      && RangeSpelled(prior, h.oldStart, h.oldCount) && RangeSpelled(newer, h.newStart, h.newCount)
      && "@@ -" + prior + " +" + newer + " @@" <= line
  }

  /** A body line as it is kept, or nothing for an empty context line. */
  ghost predicate BodySpelled(lines: Lines, body: Lines) {
    |lines| == |body| && forall i :: 0 <= i < |body| ==> LineSpelled(lines[i], body[i])
  }

  ghost predicate LineSpelled(line: string, kept: string) {
    (kept != "" && kept[0] in {' ', '-', '+'} && line == kept) || (kept == " " && line == "")
  }

  ghost function HeaderOf(h: Hunk): Header {
    Header(h.oldStart, h.oldCount, h.newStart, h.newCount)
  }

  /** Hunk after hunk, nothing in between. */
  ghost predicate HunksSpelled(lines: Lines, hunks: seq<Hunk>)
    decreases |hunks|
  {
    if hunks == [] then lines == []
    else
      var n := |hunks[0].lines|;
      && |lines| >= n + 1 && HeaderSpelled(lines[0], HeaderOf(hunks[0])) && BodySpelled(lines[1..n + 1], hunks[0].lines)
      && HunksSpelled(lines[n + 1..], hunks[1..])
  }

  ghost predicate AllSpace(s: string) {
    forall i :: 0 <= i < |s| ==> IsSpace(s[i])
  }

  ghost predicate Trimmed(s: string) {
    s != "" ==> !IsSpace(s[0]) && !IsSpace(s[|s| - 1])
  }

  /** A token with blanks around it, up to the end of the line or a tab. */
  ghost predicate TokenSpelled(line: string, token: string) {
    exists i: nat, j: nat, k: nat :: TokenAt(line, token, i, j, k)
  }

  ghost predicate TokenAt(line: string, token: string, i: nat, j: nat, k: nat) {
    && 4 <= j <= k <= i <= |line| && '\t' !in line[4..i] && (i == |line| || line[i] == '\t')
    && AllSpace(line[4..j]) && AllSpace(line[k..i]) && line[j..k] == token && Trimmed(token)
  }

  /** Two header lines, then the hunks. */
  ghost predicate SectionSpelled(lines: Lines, f: FilePatch) {
    && |lines| >= 2 && "--- " <= lines[0] && "+++ " <= lines[1]
    && TokenSpelled(lines[0], if f.isNew then "/dev/null" else "a/" + f.path) && TokenSpelled(lines[1], "b/" + f.path)
    && HunksSpelled(lines[2..], f.hunks)
  }

  const IGNORED := ["diff ", "index ", "new file mode", "old mode ", "new mode "]

  ghost predicate Ignored(line: string) {
    line == "" || exists i :: 0 <= i < |IGNORED| && IGNORED[i] <= line
  }

  /** File sections with ignored lines before, between and behind them. */
  ghost predicate Spelled(lines: Lines, files: seq<FilePatch>)
    decreases |lines|
  {
    if lines == [] then files == []
    else
      || (Ignored(lines[0]) && Spelled(lines[1..], files))
      || (files != [] && exists n :: 2 <= n <= |lines| && SectionSpelled(lines[..n], files[0]) &&
                           Spelled(lines[n..], files[1..]))
  }

  // ---- Numbers and hunk headers ----

  lemma ReadNumber(s: string, n: nat, rest: string)
    requires NumberSpelled(s, n) && (rest == "" || !IsDigit(rest[0]))
    ensures Number(s + rest) == Some((n, rest))
  {
    LeadingDigitsOf(s, rest);
    assert (s + rest)[..|s|] == s && (s + rest)[|s|..] == rest;
  }

  lemma NumberRead(s: string)
    requires Number(s).Some?
    ensures var (n, rest) := Number(s).value;
            var i := |s| - |rest|;
            0 < i <= |s| && s[i..] == rest && NumberSpelled(s[..i], n)
  {
  }

  lemma RangeWithCount(text: string, start: nat, tail: string, count: nat, rest: string)
    requires Number(text) == Some((start, tail)) && tail != "" && tail[0] == ','
    requires Number(tail[1..]) == Some((count, rest))
    ensures Range(text) == Some((start, count, rest))
  {
    hide Number;
    assert "," <= tail;
  }

  lemma RangeWithoutCount(text: string, start: nat, rest: string)
    requires Number(text) == Some((start, rest)) && rest != "" && rest[0] == ' '
    ensures Range(text) == Some((start, 1, rest))
  {
    hide Number;
  }

  lemma ReadRange(s: string, start: nat, count: nat, rest: string)
    requires RangeSpelled(s, start, count) && rest != "" && rest[0] == ' '
    ensures Range(s + rest) == Some((start, count, rest))
  {
    hide Number, Range, NumberSpelled;
    if NumberSpelled(s, start) && count == 1 {
      ReadNumber(s, start, rest);
      RangeWithoutCount(s + rest, start, rest);
    } else {
      var i :| 0 <= i < |s| && s[i] == ',' && NumberSpelled(s[..i], start) && NumberSpelled(s[i + 1..], count);
      var tail := s[i..] + rest;
      assert s + rest == s[..i] + tail;
      ReadNumber(s[..i], start, tail);
      assert tail[1..] == s[i + 1..] + rest;
      ReadNumber(s[i + 1..], count, rest);
      RangeWithCount(s + rest, start, tail, count, rest);
    }
  }

  lemma RangeRead(s: string)
    requires Range(s).Some?
    ensures var (start, count, rest) := Range(s).value;
            var i := |s| - |rest|;
            0 < i <= |s| && s[i..] == rest && RangeSpelled(s[..i], start, count)
  {
    hide Number, NumberSpelled;
    NumberRead(s);
    var (start, rest) := Number(s).value;
    var i := |s| - |rest|;
    if "," <= rest && Number(rest[1..]).Some? {
      NumberRead(rest[1..]);
      var (count, more) := Number(rest[1..]).value;
      var j := |s| - |more|;
      assert s[i..][1..] == s[i + 1..] && s[i] == ',';
      assert s[i + 1..][|s| - i - 1 - |more|..] == s[j..];
      assert s[..j][..i] == s[..i] && s[..j][i + 1..] == s[i + 1..][..j - i - 1];
    }
  }

  lemma ReadHeader(line: string, h: Header)
    requires HeaderSpelled(line, h)
    ensures HunkHeader(line) == Some(h)
  {
    hide Range, RangeSpelled;
    var prior, newer :|
      && RangeSpelled(prior, h.oldStart, h.oldCount) && RangeSpelled(newer, h.newStart, h.newCount)
      && "@@ -" + prior + " +" + newer + " @@" <= line;
    var head := "@@ -" + prior + " +" + newer + " @@";
    var tail := " @@" + line[|head|..];
    var middle := " +" + (newer + tail);
    assert line == "@@ -" + (prior + middle);
    assert line[4..] == prior + middle;
    ReadRange(prior, h.oldStart, h.oldCount, middle);
    assert middle[2..] == newer + tail;
    ReadRange(newer, h.newStart, h.newCount, tail);
  }

  lemma HeaderPrefix(prior: string, newer: string, more: string)
    requires " @@" <= more
    ensures "@@ -" + prior + " +" + newer + " @@" <= "@@ -" + (prior + (" +" + (newer + more)))
  {
    assert more == " @@" + more[3..];
    assert "@@ -" + (prior + (" +" + (newer + more))) == "@@ -" + prior + " +" + newer + " @@" + more[3..];
  }

  lemma HeaderRead(line: string)
    requires HunkHeader(line).Some?
    ensures HeaderSpelled(line, HunkHeader(line).value)
  {
    hide Range, RangeSpelled;
    var s := line[4..];
    RangeRead(s);
    var (oldStart, oldCount, rest) := Range(s).value;
    var t := rest[2..];
    RangeRead(t);
    var (newStart, newCount, more) := Range(t).value;
    var prior, newer := s[..|s| - |rest|], t[..|t| - |more|];
    assert s == prior + rest;
    assert t == newer + more;
    assert rest == " +" + t;
    assert line == "@@ -" + s;
    HeaderPrefix(prior, newer, more);
  }

  lemma ReadRanges(prior: string, newer: string, h: Header, tail: string)
    requires RangeSpelled(prior, h.oldStart, h.oldCount) && RangeSpelled(newer, h.newStart, h.newCount)
    ensures HunkHeader("@@ -" + prior + " +" + newer + " @@" + tail) == Some(h)
  {
    hide HunkHeader, RangeSpelled;
    ReadHeader("@@ -" + prior + " +" + newer + " @@" + tail, h);
  }

  /** Counts left out on both sides, on the new one, on the old one and on neither, for every start
      and count and whatever follows. */
  lemma OmittedCounts(a: nat, b: nat, c: nat, d: nat, tail: string)
    ensures HunkHeader("@@ -" + Decimal(a) + " +" + Decimal(c) + " @@" + tail) == Some(Header(a, 1, c, 1))
    ensures HunkHeader("@@ -" + PrintRange(a, b) + " +" + Decimal(c) + " @@" + tail) == Some(Header(a, b, c, 1))
    ensures HunkHeader("@@ -" + Decimal(a) + " +" + PrintRange(c, d) + " @@" + tail) == Some(Header(a, 1, c, d))
    ensures HunkHeader("@@ -" + PrintRange(a, b) + " +" + PrintRange(c, d) + " @@" + tail) == Some(Header(a, b, c, d))
  {
    FullRange(a, b);
    FullRange(c, d);
    BareRange(a);
    BareRange(c);
    hide HunkHeader, RangeSpelled, PrintRange, Decimal;
    ReadRanges(Decimal(a), Decimal(c), Header(a, 1, c, 1), tail);
    ReadRanges(PrintRange(a, b), Decimal(c), Header(a, b, c, 1), tail);
    ReadRanges(Decimal(a), PrintRange(c, d), Header(a, 1, c, d), tail);
    ReadRanges(PrintRange(a, b), PrintRange(c, d), Header(a, b, c, d), tail);
  }

  lemma FullRange(start: nat, count: nat)
    ensures RangeSpelled(PrintRange(start, count), start, count)
  {
    var s, i := PrintRange(start, count), |Decimal(start)|;
    assert s == Decimal(start) + "," + Decimal(count);
    assert s[..i] == Decimal(start) && s[i + 1..] == Decimal(count) && s[i] == ',';
  }

  lemma BareRange(start: nat)
    ensures RangeSpelled(Decimal(start), start, 1)
  {
  }

  // ---- Bodies and hunks ----

  lemma {:induction false} ReadBody(lines: Lines, body: Lines, rest: Lines)
    requires BodySpelled(lines, body) && Tagged(body)
    ensures Body(lines + rest, |OldSide(body)|, |NewSide(body)|) == Ok((body, rest))
  {
    if body == [] {
      assert lines + rest == rest;
    } else {
      assert LineSpelled(lines[0], body[0]);
      ReadBody(lines[1..], body[1..], rest);
      assert (lines + rest)[1..] == lines[1..] + rest;
      assert body[0] == [body[0][0]] + body[0][1..];
      assert body == [body[0]] + body[1..];
    }
  }

  lemma {:induction false} BodyRead(lines: Lines, wantOld: int, wantNew: int)
    requires Body(lines, wantOld, wantNew).Ok?
    ensures var (body, rest) := Body(lines, wantOld, wantNew).value;
            |body| <= |lines| && rest == lines[|body|..] && BodySpelled(lines[..|body|], body)
  {
    if lines != [] && (wantOld > 0 || wantNew > 0) {
      var line := BodyLine(lines[0]).value;
      BodyRead(lines[1..], wantOld - line.1, wantNew - line.2);
      var (more, rest) := Body(lines[1..], wantOld - line.1, wantNew - line.2).value;
      hide Body;
      var body := [line.0] + more;
      assert LineSpelled(lines[0], line.0);
      forall i | 0 <= i < |body|
        ensures LineSpelled(lines[..|body|][i], body[i])
      {
        if i > 0 {
          assert LineSpelled(lines[1..][..|more|][i - 1], more[i - 1]);
        }
      }
    }
  }

  lemma FirstSpelled(lines: Lines, hunks: seq<Hunk>)
    requires HunksSpelled(lines, hunks) && hunks != []
    ensures var n := |hunks[0].lines|;
            && n + 1 <= |lines| && HeaderSpelled(lines[0], HeaderOf(hunks[0]))
            && BodySpelled(lines[1..n + 1], hunks[0].lines) && HunksSpelled(lines[n + 1..], hunks[1..])
  {
    hide HeaderSpelled, BodySpelled;
  }

  lemma Regroup<T>(s: seq<T>, n: nat, rest: seq<T>)
    requires n < |s|
    ensures s + rest == [s[0]] + (s[1..n + 1] + (s[n + 1..] + rest))
  {
    assert s == [s[0]] + s[1..n + 1] + s[n + 1..];
  }

  lemma ReadOneHunk(lines: Lines, h: Hunk, isNew: bool, more: Lines)
    requires HunkWellFormed(h) && (isNew ==> h.oldStart == h.oldCount == 0) && BodySpelled(lines, h.lines)
    ensures OneHunk(lines + more, HeaderOf(h), isNew) == Ok((h, more))
  {
    hide Body, OldSide, NewSide, Tagged, BodySpelled;
    ReadBody(lines, h.lines, more);
  }

  lemma {:induction false} ReadHunks(lines: Lines, hunks: seq<Hunk>, isNew: bool, rest: Lines)
    requires HunksSpelled(lines, hunks) && (rest == [] || HunkHeader(rest[0]).None?)
    requires forall h :: h in hunks ==> HunkWellFormed(h) && (isNew ==> h.oldStart == h.oldCount == 0)
    ensures Hunks(lines + rest, isNew) == Ok((hunks, rest))
    decreases |hunks|
  {
    hide HunkHeader, HeaderSpelled, BodySpelled, HunksSpelled, Hunks, OneHunk, HunkWellFormed;
    if hunks == [] {
      NoneSpelled(lines);
      assert lines + rest == rest;
      NoHunkRead(rest, isNew);
    } else {
      var h, n := hunks[0], |hunks[0].lines|;
      assert h in hunks;
      FirstSpelled(lines, hunks);
      ReadHunks(lines[n + 1..], hunks[1..], isNew, rest);
      ReadHeader(lines[0], HeaderOf(h));
      var body, more := lines[1..n + 1], lines[n + 1..] + rest;
      ReadOneHunk(body, h, isNew, more);
      Regroup(lines, n, rest);
      FirstHunk(lines[0], body + more, isNew, h, more);
      CarriedBack(hunks, rest);
    }
  }

  lemma NoneSpelled(lines: Lines)
    requires HunksSpelled(lines, [])
    ensures lines == []
  {
  }

  lemma CarriedBack(hunks: seq<Hunk>, rest: Lines)
    requires hunks != []
    ensures Carry([hunks[0]], Ok((hunks[1..], rest))) == Ok((hunks, rest))
  {
    assert hunks == [hunks[0]] + hunks[1..];
  }

  lemma ConsHunk(line: string, body: Lines, more: Lines, h: Hunk, hunks: seq<Hunk>)
    requires HeaderSpelled(line, HeaderOf(h)) && BodySpelled(body, h.lines) && HunksSpelled(more, hunks)
    ensures HunksSpelled([line] + body + more, [h] + hunks)
  {
    hide HeaderSpelled;
    var lines, n := [line] + body + more, |h.lines|;
    assert lines[1..n + 1] == body && lines[n + 1..] == more;
    assert ([h] + hunks)[1..] == hunks;
  }

  lemma OneHunkRead(lines: Lines, h: Header, isNew: bool)
    requires OneHunk(lines, h, isNew).Ok?
    ensures var (hunk, rest) := OneHunk(lines, h, isNew).value;
            var n := |hunk.lines|;
            HeaderOf(hunk) == h && n <= |lines| && rest == lines[n..] && BodySpelled(lines[..n], hunk.lines)
  {
    hide Body, BodySpelled;
    BodyRead(lines, h.oldCount, h.newCount);
  }

  lemma NoHunkRead(lines: Lines, isNew: bool)
    requires lines == [] || HunkHeader(lines[0]).None?
    ensures Hunks(lines, isNew) == Ok(([], lines)) && HunksSpelled(lines[..0], [])
  {
  }

  lemma SomeHunkRead(lines: Lines, isNew: bool)
    requires Hunks(lines, isNew).Ok? && lines != [] && HunkHeader(lines[0]).Some?
    ensures var h := HunkHeader(lines[0]).value;
            && OneHunk(lines[1..], h, isNew).Ok?
            && var (hunk, rest) := OneHunk(lines[1..], h, isNew).value;
               Hunks(lines, isNew) == Carry([hunk], Hunks(rest, isNew))
  {
    hide HunkHeader, OneHunk;
  }

  lemma {:induction false} HunksRead(lines: Lines, isNew: bool) returns (k: nat)
    requires Hunks(lines, isNew).Ok?
    ensures k <= |lines| && Hunks(lines, isNew).value.1 == lines[k..]
    ensures HunksSpelled(lines[..k], Hunks(lines, isNew).value.0)
    decreases |lines|
  {
    hide HunkHeader, Hunks, OneHunk, HeaderSpelled, BodySpelled, HunksSpelled;
    if lines == [] || HunkHeader(lines[0]).None? {
      NoHunkRead(lines, isNew);
      k := 0;
    } else {
      SomeHunkRead(lines, isNew);
      var h, tail := HunkHeader(lines[0]).value, lines[1..];
      var (hunk, rest) := OneHunk(tail, h, isNew).value;
      HeaderRead(lines[0]);
      OneHunkRead(tail, h, isNew);
      var n := |hunk.lines|;
      var m := HunksRead(rest, isNew);
      k := n + 1 + m;
      ConsHunk(lines[0], tail[..n], rest[..m], hunk, Hunks(rest, isNew).value.0);
      assert lines[..k] == [lines[0]] + tail[..n] + rest[..m];
      assert rest[m..] == lines[k..];
    }
  }

  // ---- Header lines ----

  lemma {:induction false} FirstPiece(text: string, sep: char) returns (i: nat)
    ensures i <= |text| && Split(text, sep)[0] == text[..i] && sep !in text[..i] && (i == |text| || text[i] == sep)
  {
    if text == "" || text[0] == sep {
      i := 0;
    } else {
      i := FirstPiece(text[1..], sep);
      i := i + 1;
      assert text[..i] == [text[0]] + text[1..][..i - 1];
    }
  }

  lemma SpaceInFront(s: string, j: nat)
    requires 1 <= j <= |s| && IsSpace(s[0]) && AllSpace(s[1..][..j - 1])
    ensures AllSpace(s[..j])
  {
    hide IsSpace;
    assert s[..j] == [s[0]] + s[1..][..j - 1];
  }

  lemma SpaceBehind(s: string, k: nat)
    requires k < |s| && IsSpace(s[|s| - 1]) && AllSpace(s[..|s| - 1][k..])
    ensures AllSpace(s[k..])
  {
    hide IsSpace;
    assert s[k..] == s[..|s| - 1][k..] + [s[|s| - 1]];
  }

  lemma {:induction false} StripRead(s: string) returns (j: nat, k: nat)
    ensures j <= k <= |s| && Strip(s) == s[j..k] && AllSpace(s[..j]) && AllSpace(s[k..])
  {
    hide IsSpace;
    j, k := 0, |s|;
    if s != "" {
      if IsSpace(s[0]) {
        var a, b := StripRead(s[1..]);
        j, k := a + 1, b + 1;
        assert s[1..][b..] == s[k..] && s[1..][a..b] == s[j..k];
        SpaceInFront(s, j);
      } else if IsSpace(s[|s| - 1]) {
        var n := |s| - 1;
        j, k := StripRead(s[..n]);
        assert s[..n][j..k] == s[j..k] && s[..n][..j] == s[..j];
        SpaceBehind(s, k);
      }
    }
  }

  lemma {:induction false} ReadStrip(s: string, j: nat, k: nat)
    requires j <= k <= |s| && AllSpace(s[..j]) && AllSpace(s[k..]) && Trimmed(s[j..k])
    ensures Strip(s) == s[j..k]
    decreases |s|
  {
    hide IsSpace;
    if j > 0 {
      assert IsSpace(s[..j][0]);
      assert s[1..][..j - 1] == s[..j][1..] && s[1..][k - 1..] == s[k..] && s[1..][j - 1..k - 1] == s[j..k];
      ReadStrip(s[1..], j - 1, k - 1);
    } else if k < |s| {
      var n := |s| - 1;
      assert IsSpace(s[k..][n - k]);
      if k > 0 {
        assert s[j..k][0] == s[0];
        assert s[..n][k..] == s[k..][..n - k] && s[..n][j..k] == s[j..k] && s[..n][..j] == s[..j];
        ReadStrip(s[..n], j, k);
      } else {
        assert s[k..] == s;
        assert s[1..][..0] == "" && s[1..][0..0] == s[0..0];
        ReadStrip(s[1..], 0, 0);
      }
    }
  }

  lemma Inner(s: string, a: nat, b: nat, c: nat, d: nat)
    requires a <= c <= d <= b <= |s|
    ensures s[a..b][c - a..d - a] == s[c..d]
  {
    var t, u := s[a..b][c - a..d - a], s[c..d];
    assert |t| == |u| && forall i :: 0 <= i < |t| ==> t[i] == u[i];
    assert t == u;
  }

  /** Only one piece ends at the first separator. */
  lemma SamePiece(s: string, sep: char, m: nat, n: nat)
    requires m <= |s| && sep !in s[..m] && (m == |s| || s[m] == sep)
    requires n <= |s| && sep !in s[..n] && (n == |s| || s[n] == sep)
    ensures m == n
  {
    if m < n {
      SeparatorInside(s, sep, m, n);
    }
    if n < m {
      SeparatorInside(s, sep, n, m);
    }
  }

  lemma SeparatorInside(s: string, sep: char, m: nat, n: nat)
    requires m < n <= |s| && s[m] == sep
    ensures sep in s[..n]
  {
    assert s[..n][m] == sep;
  }

  lemma TokenRead(line: string)
    requires |line| >= 4
    ensures TokenSpelled(line, RawPath(line))
  {
    hide Strip, Split;
    var rest := line[4..];
    var i := FirstPiece(rest, '\t');
    var j, k := StripRead(rest[..i]);
    assert rest[..i] == line[4..4 + i];
    Inner(line, 4, 4 + i, 4, 4 + j);
    Inner(line, 4, 4 + i, 4 + k, 4 + i);
    Inner(line, 4, 4 + i, 4 + j, 4 + k);
    assert rest[..i][k..] == rest[..i][k..i];
    assert TokenAt(line, RawPath(line), 4 + i, 4 + j, 4 + k);
  }

  lemma ReadToken(line: string, token: string)
    requires TokenSpelled(line, token)
    ensures |line| >= 4 && RawPath(line) == token
  {
    hide Strip, Split;
    var i: nat, j: nat, k: nat :| TokenAt(line, token, i, j, k);
    var rest := line[4..];
    var n := FirstPiece(rest, '\t');
    assert rest[..i - 4] == line[4..i];
    SamePiece(rest, '\t', n, i - 4);
    var piece := line[4..i];
    assert rest[..n] == piece;
    Inner(line, 4, i, 4, j);
    Inner(line, 4, i, k, i);
    Inner(line, 4, i, j, k);
    assert piece[k - 4..] == piece[k - 4..i - 4];
    ReadStrip(piece, j - 4, k - 4);
  }

  // ---- Paths ----

  /** A stretch of the text between separators or the ends. */
  ghost predicate Component(text: string, sep: char, i: nat, j: nat) {
    && i <= j <= |text| && sep !in text[i..j]
    && (i == 0 || text[i - 1] == sep) && (j == |text| || text[j] == sep)
  }

  ghost predicate HasComponent(text: string, sep: char, piece: string) {
    exists i: nat, j: nat :: Component(text, sep, i, j) && text[i..j] == piece
  }

  lemma ComponentShifts(text: string, sep: char, n: nat, i: nat, j: nat)
    requires n < |text| && text[n] == sep && i <= j <= |text| - n - 1
    ensures Component(text[n + 1..], sep, i, j) <==> Component(text, sep, i + n + 1, j + n + 1)
    ensures text[n + 1..][i..j] == text[i + n + 1..j + n + 1]
  {
    assert text[n + 1..][i..j] == text[i + n + 1..j + n + 1];
  }

  lemma OnlyComponent(text: string, sep: char, piece: string)
    requires sep !in text
    ensures HasComponent(text, sep, piece) <==> piece == text
  {
    assert Component(text, sep, 0, |text|) && text[0..|text|] == text;
    forall i: nat, j: nat | Component(text, sep, i, j)
      ensures text[i..j] == text
    {
    }
  }

  /** Where the first separator stands, the first component ends and the others begin. */
  lemma MoreComponents(text: string, sep: char, n: nat, piece: string)
    requires n < |text| && text[n] == sep && sep !in text[..n]
    ensures HasComponent(text, sep, piece) <==> piece == text[..n] || HasComponent(text[n + 1..], sep, piece)
  {
    var rest := text[n + 1..];
    assert Component(text, sep, 0, n) && text[0..n] == text[..n];
    if i: nat, j: nat :| Component(rest, sep, i, j) && rest[i..j] == piece {
      hide Component;
      ComponentShifts(text, sep, n, i, j);
    }
    if i: nat, j: nat :| Component(text, sep, i, j) && text[i..j] == piece {
      if i == 0 {
        assert text[0..j] == text[..j];
        SamePiece(text, sep, j, n);
      } else {
        BehindSeparator(text, sep, n, i);
        hide Component;
        ComponentShifts(text, sep, n, i - n - 1, j - n - 1);
      }
    }
  }

  lemma BehindSeparator(text: string, sep: char, n: nat, i: nat)
    requires n <= |text| && 0 < i <= |text| && text[i - 1] == sep && sep !in text[..n]
    ensures i > n
  {
    var m: nat := i - 1;
    if m < n {
      SeparatorInside(text, sep, m, n);
    }
  }

  /** Splitting gives exactly the components. */
  lemma {:induction false} PiecesAreComponents(text: string, sep: char, piece: string)
    ensures piece in Split(text, sep) <==> HasComponent(text, sep, piece)
    decreases |text|
  {
    hide Split, HasComponent;
    var n := FirstPiece(text, sep);
    if n == |text| {
      assert text[..n] == text;
      SplitWhole(text, sep);
      OnlyComponent(text, sep, piece);
    } else {
      var rest := text[n + 1..];
      assert text == text[..n] + [sep] + rest;
      SplitHead(text[..n], rest, sep);
      PiecesAreComponents(rest, sep, piece);
      MoreComponents(text, sep, n, piece);
    }
  }

  /** A path is legal exactly if it has no backslash and no NUL and no component is empty or a dot
      directory: it is relative and cannot leave its root. */
  lemma LegalPathMeans(path: string)
    ensures LegalPath(path) <==>
              && '\\' !in path && '\0' !in path
              && forall i: nat, j: nat :: Component(path, '/', i, j) ==> path[i..j] !in {"", ".", ".."}
  {
    hide Split;
    forall piece
      ensures piece in Split(path, '/') <==> HasComponent(path, '/', piece)
    {
      PiecesAreComponents(path, '/', piece);
    }
    EmptyComponent(path);
    if LegalPath(path) {
      forall i: nat, j: nat | Component(path, '/', i, j)
        ensures path[i..j] !in {"", ".", ".."}
      {
        assert HasComponent(path, '/', path[i..j]);
      }
    }
  }

  lemma EmptyComponent(path: string)
    ensures path == "" || path[0] == '/' ==> Component(path, '/', 0, 0) && path[0..0] == ""
  {
  }

  // ---- File sections ----

  lemma ReadSection(lines: Lines, f: FilePatch, rest: Lines, seen: set<string>)
    requires SectionSpelled(lines, f) && FileWellFormed(f) && f.path !in seen
    requires rest == [] || HunkHeader(rest[0]).None?
    ensures Section(lines + rest, seen) == Ok((f, rest))
  {
    hide HunkHeader, Hunks, HunksSpelled, HunkWellFormed, TokenSpelled, RawPath, Refused, LegalPath;
    var all := lines + rest;
    OldHeaderIsNoOther(lines[0]);
    ReadToken(lines[0], if f.isNew then "/dev/null" else "a/" + f.path);
    ReadToken(lines[1], "b/" + f.path);
    assert ("a/" + f.path)[2..] == f.path && ("b/" + f.path)[2..] == f.path;
    assert ("a/" + f.path)[0] != DevNull[0] && ("b/" + f.path)[0] != DevNull[0];
    assert SectionPath(RawPath(all[0]), RawPath(all[1])) == Ok((f.path, f.isNew));
    ReadHunks(lines[2..], f.hunks, f.isNew, rest);
    assert all[2..] == lines[2..] + rest;
  }

  lemma SectionRead(lines: Lines, seen: set<string>) returns (n: nat)
    requires lines != [] && Section(lines, seen).Ok?
    ensures var (f, rest) := Section(lines, seen).value;
            2 <= n <= |lines| && rest == lines[n..] && SectionSpelled(lines[..n], f)
  {
    hide HunkHeader, Hunks, HunksSpelled, TokenSpelled, RawPath, Refused, LegalPath;
    var (f, rest) := Section(lines, seen).value;
    TokenRead(lines[0]);
    TokenRead(lines[1]);
    SidesRead(RawPath(lines[0]), RawPath(lines[1]));
    var k := HunksRead(lines[2..], f.isNew);
    n := k + 2;
    assert lines[2..][k..] == lines[n..] && lines[..n][2..] == lines[2..][..k];
    assert lines[..n][0] == lines[0] && lines[..n][1] == lines[1];
  }

  /** The tokens behind an accepted pair of header lines. */
  lemma SidesRead(oldRaw: string, newRaw: string)
    requires SectionPath(oldRaw, newRaw).Ok?
    ensures var (path, isNew) := SectionPath(oldRaw, newRaw).value;
            oldRaw == (if isNew then "/dev/null" else "a/" + path) && newRaw == "b/" + path
  {
    hide LegalPath;
    var (path, isNew) := SectionPath(oldRaw, newRaw).value;
    assert newRaw == "b/" + newRaw[2..];
    if !isNew {
      assert oldRaw == "a/" + oldRaw[2..];
    }
  }

  lemma IgnoredIsSkippable(line: string)
    ensures Ignored(line) <==> Skippable(line)
    ensures Ignored(line) ==> HunkHeader(line).None? && !("--- " <= line)
  {
    assert IGNORED[0] == "diff " && IGNORED[1] == "index " && IGNORED[2] == "new file mode";
    assert IGNORED[3] == "old mode " && IGNORED[4] == "new mode ";
    if Skippable(line) && line != "" {
      assert line[0] in {'d', 'i', 'n', 'o'};
    }
  }

  const REJECTED := ["GIT binary patch", "Binary files ", "rename from ", "rename to ", "copy from ", "copy to ",
                     "\\ No newline at end of file"]

  /** Outside a section, a line that begins with one of the rejected markers is an unsupported
      construct, and any other that is neither ignored nor an old-file header is unexpected. */
  lemma StrayLine(lines: Lines, seen: set<string>)
    requires lines != [] && !Ignored(lines[0]) && !("--- " <= lines[0])
    ensures Files(lines, seen) ==
            Err(if exists i :: 0 <= i < |REJECTED| && REJECTED[i] <= lines[0] then UnsupportedConstruct
                else UnexpectedLine)
  {
    hide Skippable;
    IgnoredIsSkippable(lines[0]);
    assert REJECTED[0] == "GIT binary patch" && REJECTED[1] == "Binary files " && REJECTED[2] == "rename from ";
    assert REJECTED[3] == "rename to " && REJECTED[4] == "copy from " && REJECTED[5] == "copy to ";
    assert REJECTED[6] == "\\ No newline at end of file";
    assert Refused(lines[0]) <==> exists i :: 0 <= i < |REJECTED| && REJECTED[i] <= lines[0];
  }

  lemma SpelledStartsSection(lines: Lines, files: seq<FilePatch>)
    requires Spelled(lines, files) && lines != []
    ensures HunkHeader(lines[0]).None?
  {
    hide HunkHeader, HunksSpelled, TokenSpelled;
    if Ignored(lines[0]) {
      IgnoredIsSkippable(lines[0]);
    } else {
      var n :| 2 <= n <= |lines| && SectionSpelled(lines[..n], files[0]) && Spelled(lines[n..], files[1..]);
      assert lines[..n][0] == lines[0];
      OldHeaderIsNoOther(lines[0]);
    }
  }

  lemma {:induction false} ReadFiles(lines: Lines, files: seq<FilePatch>, seen: set<string>)
    requires Spelled(lines, files) && (files != [] ==> WellFormed(files))
    requires forall i :: 0 <= i < |files| ==> files[i].path !in seen
    ensures Files(lines, seen) == Ok((files, []))
    decreases |lines|
  {
    hide HunkHeader, Section, SectionSpelled, FileWellFormed, Skippable;
    if lines != [] {
      IgnoredIsSkippable(lines[0]);
      if Ignored(lines[0]) && Spelled(lines[1..], files) {
        ReadFiles(lines[1..], files, seen);
      } else {
        var n :| 2 <= n <= |lines| && SectionSpelled(lines[..n], files[0]) && Spelled(lines[n..], files[1..]);
        var f, rest := files[0], lines[n..];
        SectionHead(lines[..n], f);
        if rest != [] {
          SpelledStartsSection(rest, files[1..]);
        }
        ReadSection(lines[..n], f, rest, seen);
        assert lines[..n] + rest == lines;
        ReadFiles(rest, files[1..], seen + {f.path});
        assert files == [f] + files[1..];
      }
    }
  }

  lemma SectionHead(lines: Lines, f: FilePatch)
    requires SectionSpelled(lines, f)
    ensures lines != [] && "--- " <= lines[0] && !Ignored(lines[0])
  {
    hide HunksSpelled, TokenSpelled;
    IgnoredIsSkippable(lines[0]);
    OldHeaderIsNoOther(lines[0]);
  }

  lemma {:induction false} FilesRead(lines: Lines, seen: set<string>)
    requires Files(lines, seen).Ok?
    ensures Files(lines, seen).value.1 == [] && Spelled(lines, Files(lines, seen).value.0)
    decreases |lines|
  {
    hide HunkHeader, Section, SectionSpelled, Skippable, Ignored;
    if lines != [] {
      IgnoredIsSkippable(lines[0]);
      if Skippable(lines[0]) {
        FilesRead(lines[1..], seen);
      } else {
        var n := SectionRead(lines, seen);
        var (f, rest) := Section(lines, seen).value;
        FilesRead(rest, seen + {f.path});
        var files := Files(lines, seen).value.0;
        assert files[0] == f && files[1..] == Files(rest, seen + {f.path}).value.0;
      }
    }
  }

  /** The parser reads exactly the spellings of well-formed patches, and reads each as the patch it
      spells. */
  lemma ParsesExactlySpellings(text: string, files: seq<FilePatch>)
    ensures Parse(text) == Ok(files) <==> WellFormed(files) && Spelled(LinesOf(text), files)
  {
    hide Files, Spelled;
    if Parse(text) == Ok(files) {
      ParsedIsWellFormed(text);
      FilesRead(LinesOf(text), {});
    }
    if WellFormed(files) && Spelled(LinesOf(text), files) {
      ReadFiles(LinesOf(text), files, {});
    }
  }

  /** Whatever the spelling, the patch is the one its canonical print gives. */
  lemma SpellingIsCanonical(text: string, files: seq<FilePatch>)
    requires WellFormed(files) && Spelled(LinesOf(text), files)
    ensures Parse(text) == Parse(Print(files)) == Ok(files)
  {
    ParsesExactlySpellings(text, files);
    PrintedParses(files);
  }
}
