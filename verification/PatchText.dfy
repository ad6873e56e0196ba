/** Strings the way the diff engine cuts them: separators, stripping and decimal numbers. */
module PatchText {
  import opened Outcome

  // ---- split and join ----

  /** Python's `text.split(sep)`; never empty. */
  function Split(text: string, sep: char): (pieces: seq<string>)
    ensures |pieces| > 0
    ensures forall i :: 0 <= i < |pieces| ==> sep !in pieces[i]
    ensures forall i :: 0 <= i < |pieces| ==> forall c :: c in pieces[i] ==> c in text
  {
    if text == "" then [""] else
    var rest := Split(text[1..], sep);
    if text[0] == sep then [""] + rest else [[text[0]] + rest[0]] + rest[1..]
  }

  /** Every line followed by a newline. */
  function Join(lines: seq<string>): string {
    if lines == [] then "" else lines[0] + "\n" + Join(lines[1..])
  }

  predicate Unbroken(lines: seq<string>) {
    forall i :: 0 <= i < |lines| ==> '\n' !in lines[i]
  }

  lemma {:induction false} SplitHead(piece: string, rest: string, sep: char)
    requires sep !in piece
    ensures Split(piece + [sep] + rest, sep) == [piece] + Split(rest, sep)
  {
    var whole := piece + [sep] + rest;
    if piece == "" {
      assert whole[1..] == rest;
    } else {
      assert whole[1..] == piece[1..] + [sep] + rest;
      SplitHead(piece[1..], rest, sep);
      assert piece == [piece[0]] + piece[1..] && whole[0] == piece[0];
    }
  }

  lemma {:induction false} SplitWhole(piece: string, sep: char)
    requires sep !in piece
    ensures Split(piece, sep) == [piece]
  {
    if piece != "" {
      SplitWhole(piece[1..], sep);
      assert piece == [piece[0]] + piece[1..];
    }
  }

  /** Splitting undoes joining, up to the empty tail after the last newline. */
  lemma {:induction false} SplitJoin(lines: seq<string>)
    requires Unbroken(lines)
    ensures Split(Join(lines), '\n') == lines + [""]
  {
    if lines != [] {
      SplitJoin(lines[1..]);
      SplitHead(lines[0], Join(lines[1..]), '\n');
    }
  }

  /** A text that is empty or ends in a newline is the join of its lines. */
  lemma {:induction false} JoinSplit(text: string)
    ensures var pieces := Split(text, '\n');
            (text == "" || text[|text| - 1] == '\n' <==> pieces[|pieces| - 1] == "") &&
            Join(pieces[..|pieces| - 1]) + pieces[|pieces| - 1] == text
  {
    if text != "" {
      JoinSplit(text[1..]);
      var pieces, rest := Split(text, '\n'), Split(text[1..], '\n');
      var n := |rest| - 1;
      if text[0] == '\n' {
        assert pieces[..n + 1] == [""] + rest[..n];
      } else if n > 0 {
        assert pieces[..n] == [[text[0]] + rest[0]] + rest[1..n];
        assert rest[..n][1..] == rest[1..n] && pieces[..n][1..] == rest[1..n];
      }
    }
  }

  // ---- strip ----

  /** The characters Python's `str.strip` removes. */
  predicate IsSpace(c: char) {
    || '\t' <= c <= '\r' || '\U{1c}' <= c <= ' ' || c == '\U{85}' || c == '\U{a0}' || c == '\U{1680}'
    || '\U{2000}' <= c <= '\U{200a}' || c == '\U{2028}' || c == '\U{2029}' || c == '\U{202f}'
    || c == '\U{205f}' || c == '\U{3000}'
  }

  function Strip(s: string): (r: string)
    ensures r != "" ==> !IsSpace(r[0]) && !IsSpace(r[|r| - 1])
    ensures forall c :: c in r ==> c in s
    ensures s == "" || (!IsSpace(s[0]) && !IsSpace(s[|s| - 1])) ==> r == s
  {
    if s == "" then ""
    else if IsSpace(s[0]) then Strip(s[1..])
    else if IsSpace(s[|s| - 1]) then Strip(s[..|s| - 1])
    else s
  }

  // ---- decimal numbers ----

  predicate IsDigit(c: char) {
    '0' <= c <= '9'
  }

  function LeadingDigits(s: string): (n: nat)
    ensures n <= |s| && forall i :: 0 <= i < n ==> IsDigit(s[i])
  {
    if s == "" || !IsDigit(s[0]) then 0 else 1 + LeadingDigits(s[1..])
  }

  function Value(digits: string): nat
    requires forall i :: 0 <= i < |digits| ==> IsDigit(digits[i])
  {
    if digits == "" then 0
    else
      assert IsDigit(digits[|digits| - 1]);
      10 * Value(digits[..|digits| - 1]) + (digits[|digits| - 1] as nat - '0' as nat)
  }

  function Decimal(n: nat): (s: string)
    ensures s != "" && forall i :: 0 <= i < |s| ==> IsDigit(s[i])
    ensures Value(s) == n
  {
    var last := ['0' + (n % 10) as char];
    if n < 10 then
      assert last[..0] == "";
      last
    else
      var s := Decimal(n / 10) + last;
      assert s[..|s| - 1] == Decimal(n / 10);
      s
  }

  /** A greedy `\d+` and what follows it. */
  function Number(s: string): (r: Option<(nat, string)>)
    ensures r.Some? ==> |r.value.1| < |s|
  {
    var n := LeadingDigits(s);
    if n == 0 then None else Some((Value(s[..n]), s[n..]))
  }

  lemma {:induction false} LeadingDigitsOf(digits: string, rest: string)
    requires forall i :: 0 <= i < |digits| ==> IsDigit(digits[i])
    requires rest == "" || !IsDigit(rest[0])
    ensures LeadingDigits(digits + rest) == |digits|
  {
    if digits == "" {
      assert digits + rest == rest;
    } else {
      assert (digits + rest)[1..] == digits[1..] + rest;
      LeadingDigitsOf(digits[1..], rest);
    }
  }

  lemma NumberOfDecimal(n: nat, rest: string)
    requires rest == "" || !IsDigit(rest[0])
    ensures Number(Decimal(n) + rest) == Some((n, rest))
  {
    LeadingDigitsOf(Decimal(n), rest);
    assert (Decimal(n) + rest)[..|Decimal(n)|] == Decimal(n);
  }
}
