// The string operations the parsers lean on, with Python's notion of white space
// and line boundaries: stripping, splitting into words and into lines, and
// upper case. Texts are sequences of code points. Line breaks are those of
// splitlines, where CR LF is one; white space is that of isspace, which also
// takes in the separators below the blank. The first part defines the operations
// and what joins and cuts do to them; the second tells characters by their
// numbers and operations by what they split off.
module Text {

  predicate IsSpace(c: char) {
    || '\t' <= c <= '\r'
    || '\U{1C}' <= c <= ' '
    || c == '\U{85}' || c == '\U{A0}' || c == '\U{1680}'
    || '\U{2000}' <= c <= '\U{200A}'
    || c == '\U{2028}' || c == '\U{2029}' || c == '\U{202F}' || c == '\U{205F}' || c == '\U{3000}'
  }

  predicate IsLineBreak(c: char) {
    || '\n' <= c <= '\r'
    || '\U{1C}' <= c <= '\U{1E}'
    || c == '\U{85}' || c == '\U{2028}' || c == '\U{2029}'
  }

  predicate IsUpper(c: char) {
    'A' <= c <= 'Z'
  }

  predicate IsDigit(c: char) {
    '0' <= c <= '9'
  }

  predicate IsWordChar(c: char) {
    IsUpper(c) || IsDigit(c) || 'a' <= c <= 'z' || c == '_'
  }

  // The ASCII letters, and the two others whose upper-case form is one: the
  // dotless i and the long s.
  function ToUpper(c: char): char {
    if 'a' <= c <= 'z' then c - 'a' + 'A'
    else if c == '\U{131}' then 'I'
    else if c == '\U{17F}' then 'S'
    else c
  }

  function Upper(s: string): (r: string)
    ensures |r| == |s|
  {
    seq(|s|, i requires 0 <= i < |s| => ToUpper(s[i]))
  }

  function StripLeft(s: string): string {
    if s != [] && IsSpace(s[0]) then StripLeft(s[1..]) else s
  }

  function StripRight(s: string): string {
    if s != [] && IsSpace(s[|s| - 1]) then StripRight(s[..|s| - 1]) else s
  }

  function Strip(s: string): string {
    StripRight(StripLeft(s))
  }

  predicate Trimmed(s: string) {
    s == [] || (!IsSpace(s[0]) && !IsSpace(s[|s| - 1]))
  }

  lemma {:induction false} StripRightEnds(s: string)
    ensures var r := StripRight(s);
            && r <= s
            && (r != [] ==> !IsSpace(r[|r| - 1]))
            && (s != [] && !IsSpace(s[0]) ==> r != [])
  {
    if s != [] && IsSpace(s[|s| - 1]) {
      StripRightEnds(s[..|s| - 1]);
    }
  }

  lemma {:induction false} StripLeftStarts(s: string)
    ensures var r := StripLeft(s); r != [] ==> !IsSpace(r[0])
  {
    if s != [] && IsSpace(s[0]) {
      StripLeftStarts(s[1..]);
    }
  }

  // Stripping gives a trimmed string and leaves exactly the trimmed ones alone.
  lemma StripTrims(s: string)
    ensures Trimmed(Strip(s))
    ensures Strip(s) == s <==> Trimmed(s)
  {
    StripLeftStarts(s);
    StripRightEnds(StripLeft(s));
    if Trimmed(s) {
      assert StripLeft(s) == s && StripRight(s) == s;
    }
  }

  lemma {:induction false} StripTakesPart(s: string) returns (i: nat, j: nat)
    ensures i <= j <= |s| && Strip(s) == s[i..j]
    decreases |s|
  {
    if s != [] && IsSpace(s[0]) {
      var a, b := StripTakesPart(s[1..]);
      i, j := a + 1, b + 1;
      assert s[1..][a..b] == s[i..j];
    } else {
      StripRightEnds(s);
      i, j := 0, |Strip(s)|;
    }
  }

  // The length of the leading run of non-space characters.
  function WordLength(s: string): (n: nat)
    ensures n <= |s|
    ensures n < |s| ==> IsSpace(s[n])
  {
    if s == [] || IsSpace(s[0]) then 0 else 1 + WordLength(s[1..])
  }

  lemma {:induction false} WordLengthConcat(a: string, b: string)
    requires forall i | 0 <= i < |a| :: !IsSpace(a[i])
    ensures WordLength(a + b) == |a| + WordLength(b)
  {
    if a == [] {
      assert a + b == b;
    } else {
      assert (a + b)[0] == a[0] && (a + b)[1..] == a[1..] + b;
      WordLengthConcat(a[1..], b);
    }
  }

  lemma {:induction false} StripLeftGap(gap: string, rest: string)
    requires forall i | 0 <= i < |gap| :: IsSpace(gap[i])
    requires rest != [] ==> !IsSpace(rest[0])
    ensures StripLeft(gap + rest) == rest
  {
    if gap == [] {
      assert gap + rest == rest;
    } else {
      assert (gap + rest)[0] == gap[0] && (gap + rest)[1..] == gap[1..] + rest;
      StripLeftGap(gap[1..], rest);
    }
  }

  // str.split(): the maximal runs of non-space characters.
  function Words(s: string): seq<string>
    decreases |s|
  {
    if s == [] then []
    else if IsSpace(s[0]) then Words(s[1..])
    else
      var n := WordLength(s);
      [s[..n]] + Words(s[n..])
  }

  // The length of the first line, without its line break.
  function LineLength(s: string): (n: nat)
    ensures n <= |s|
    ensures forall i | 0 <= i < n :: !IsLineBreak(s[i])
    ensures n < |s| ==> IsLineBreak(s[n])
  {
    if s == [] || IsLineBreak(s[0]) then 0 else 1 + LineLength(s[1..])
  }

  // The length of the first line with its line break; CR LF is a single break.
  function FullLineLength(s: string): (n: nat)
    ensures n <= |s|
    ensures s != [] ==> n > 0
  {
    var n := LineLength(s);
    if n == |s| then n
    else if s[n] == '\r' && n + 1 < |s| && s[n + 1] == '\n' then n + 2
    else n + 1
  }

  // str.splitlines().
  function SplitLines(s: string): seq<string>
    decreases |s|
  {
    if s == [] then [] else [s[..LineLength(s)]] + SplitLines(s[FullLineLength(s)..])
  }

  predicate NoLineBreak(s: string) {
    forall i | 0 <= i < |s| :: !IsLineBreak(s[i])
  }

  // Lines written out, each ended by a newline.
  function Unlines(lines: seq<string>): string {
    if lines == [] then [] else lines[0] + "\n" + Unlines(lines[1..])
  }

  lemma {:induction false} LineLengthAt(line: string, rest: string)
    requires NoLineBreak(line) && rest != [] && IsLineBreak(rest[0])
    ensures LineLength(line + rest) == |line|
  {
    if line == [] {
      assert line + rest == rest;
    } else {
      assert (line + rest)[1..] == line[1..] + rest;
      LineLengthAt(line[1..], rest);
    }
  }

  lemma {:induction false} SplitUnlines(lines: seq<string>)
    requires forall line <- lines :: NoLineBreak(line)
    ensures SplitLines(Unlines(lines)) == lines
  {
    if lines != [] {
      var line, rest := lines[0], Unlines(lines[1..]);
      var s := Unlines(lines);
      assert s == line + ("\n" + rest);
      LineLengthAt(line, "\n" + rest);
      assert s[..|line|] == line && s[FullLineLength(s)..] == rest;
      SplitUnlines(lines[1..]);
    }
  }

  lemma DropConcat<T>(a: seq<T>, b: seq<T>, n: nat)
    requires n <= |a|
    ensures (a + b)[n..] == a[n..] + b && (a + b)[..n] == a[..n]
  {
  }

  lemma SliceGrows<T>(s: seq<T>, i: nat, j: nat, k: nat)
    requires i <= j <= k <= |s|
    ensures s[i..j] + s[j..k] == s[i..k]
    ensures j < |s| ==> s[i..j] + [s[j]] == s[i..j + 1]
  {
  }

  lemma SliceOfSlice<T>(s: seq<T>, i: nat, j: nat, a: nat, b: nat)
    requires i <= j <= |s| && a <= b <= j - i
    ensures s[i..j][a..b] == s[i + a..i + b]
  {
    var l, r := s[i..j][a..b], s[i + a..i + b];
    forall k | 0 <= k < |l| ensures l[k] == r[k] {
      assert l[k] == s[i..j][a + k];
    }
  }

  lemma ConcatAssociates<T>(a: seq<T>, b: seq<T>, c: seq<T>)
    ensures (a + b) + c == a + (b + c)
  {
  }

  lemma LineLengthConcat(a: string, b: string)
    requires LineLength(a) < |a|
    ensures LineLength(a + b) == LineLength(a)
  {
    var n := LineLength(a);
    LineLengthAt(a[..n], a[n..] + b);
    ConcatAssociates(a[..n], a[n..], b);
    assert a == a[..n] + a[n..];
  }

  predicate EndsLine(s: string) {
    s != [] && IsLineBreak(s[|s| - 1])
  }

  // The two texts meet in the middle of a CR LF.
  predicate MeetInCrLf(a: string, b: string) {
    a != [] && b != [] && a[|a| - 1] == '\r' && b[0] == '\n'
  }

  lemma FullLineLengthConcat(a: string, b: string)
    requires LineLength(a) < |a| && !MeetInCrLf(a, b)
    ensures LineLength(a + b) == LineLength(a)
    ensures FullLineLength(a + b) == FullLineLength(a)
  {
    var n := LineLength(a);
    LineLengthConcat(a, b);
    hide LineLength;
    assert (a + b)[n] == a[n];
    if n + 1 < |a| {
      assert (a + b)[n + 1] == a[n + 1];
    } else if b != [] {
      assert (a + b)[n + 1] == b[0];
    }
  }

  lemma FirstLineStays(a: string, b: string)
    requires LineLength(a) < |a| && !MeetInCrLf(a, b)
    ensures SplitLines(a + b) == [a[..LineLength(a)]] + SplitLines(a[FullLineLength(a)..] + b)
  {
    FullLineLengthConcat(a, b);
    DropConcat(a, b, LineLength(a));
    DropConcat(a, b, FullLineLength(a));
    hide LineLength, FullLineLength;
  }

  lemma FirstLine(s: string)
    requires s != []
    ensures SplitLines(s) == [s[..LineLength(s)]] + SplitLines(s[FullLineLength(s)..])
  {
  }

  lemma EndStays(a: string, m: nat, b: string)
    requires EndsLine(a) && m <= |a| && !MeetInCrLf(a, b)
    ensures m < |a| ==> EndsLine(a[m..])
    ensures !MeetInCrLf(a[m..], b)
  {
  }

  // Splitting is done separately before and after the end of a line.
  lemma {:induction false} SplitLinesConcat(a: string, b: string)
    requires a != [] ==> EndsLine(a)
    requires !MeetInCrLf(a, b)
    ensures SplitLines(a + b) == SplitLines(a) + SplitLines(b)
    decreases |a|
  {
    if a == [] {
      assert a + b == b;
    } else {
      hide LineLength, FullLineLength, SplitLines, IsLineBreak;
      var m := FullLineLength(a);
      EndStays(a, m, b);
      FirstLine(a);
      FirstLineStays(a, b);
      SplitLinesConcat(a[m..], b);
      hide *;
      ConcatAssociates([a[..LineLength(a)]], SplitLines(a[m..]), SplitLines(b));
    }
  }

  lemma OneLine(s: string, end: string)
    requires NoLineBreak(s) && (end == "\r" || end == "\r\n")
    ensures SplitLines(s + end) == [s]
  {
    LineLengthAt(s, end);
    var t := s + end;
    assert t[..|s|] == s && t[FullLineLength(t)..] == [];
  }

  // A line may end in CR LF as well as in CR.
  lemma {:induction false} CrLfEndsOneLine(s: string)
    ensures SplitLines(s + "\r\n") == SplitLines(s + "\r")
    decreases |s|
  {
    if LineLength(s) == |s| {
      OneLine(s, "\r");
      OneLine(s, "\r\n");
    } else {
      FirstLineStays(s, "\r");
      FirstLineStays(s, "\r\n");
      CrLfEndsOneLine(s[FullLineLength(s)..]);
    }
  }

  // ---- The characters themselves ----

  // Python's str.isspace().
  lemma SpacesAre(c: char)
    ensures IsSpace(c) <==> c as int in {
      0x9, 0xA, 0xB, 0xC, 0xD, 0x1C, 0x1D, 0x1E, 0x1F, 0x20, 0x85, 0xA0, 0x1680,
      0x2000, 0x2001, 0x2002, 0x2003, 0x2004, 0x2005, 0x2006, 0x2007, 0x2008, 0x2009, 0x200A,
      0x2028, 0x2029, 0x202F, 0x205F, 0x3000}
  {
  }

  // Where str.splitlines() breaks.
  lemma LineBreaksAre(c: char)
    ensures IsLineBreak(c) <==> c as int in {0xA, 0xB, 0xC, 0xD, 0x1C, 0x1D, 0x1E, 0x85, 0x2028, 0x2029}
  {
  }

  lemma LettersAndDigitsAre(c: char)
    ensures IsUpper(c) <==> 0x41 <= c as int <= 0x5A
    ensures IsDigit(c) <==> 0x30 <= c as int <= 0x39
    ensures IsWordChar(c) <==>
      0x41 <= c as int <= 0x5A || 0x61 <= c as int <= 0x7A || 0x30 <= c as int <= 0x39 || c as int == 0x5F
  {
  }

  lemma UpperCaseIs(s: string, i: nat)
    requires i < |s|
    ensures var c, u := s[i] as int, Upper(s)[i] as int;
            u == if 0x61 <= c <= 0x7A then c - 0x20 else if c == 0x131 then 0x49 else if c == 0x17F then 0x53 else c
  {
  }

  // ---- What stripping and splitting give ----

  lemma {:induction false} StripRightGap(s: string, gap: string)
    requires forall i | 0 <= i < |gap| :: IsSpace(gap[i])
    requires s != [] ==> !IsSpace(s[|s| - 1])
    ensures StripRight(s + gap) == s
    decreases |gap|
  {
    var all, n := s + gap, |gap| - 1;
    if gap == [] {
      assert all == s;
    } else {
      assert all[|all| - 1] == gap[n] && all[..|all| - 1] == s + gap[..n];
      StripRightGap(s, gap[..n]);
    }
  }

  // Stripping takes away exactly the white space on either side.
  lemma StripTakesTheMiddle(before: string, s: string, after: string)
    requires forall i | 0 <= i < |before| :: IsSpace(before[i])
    requires forall i | 0 <= i < |after| :: IsSpace(after[i])
    requires s != [] ==> !IsSpace(s[0]) && !IsSpace(s[|s| - 1])
    ensures Strip(before + (s + after)) == s
  {
    if s == [] {
      assert before + (s + after) == (before + after) + [];
      StripLeftGap(before + after, []);
    } else {
      StripLeftGap(before, s + after);
      StripRightGap(s, after);
    }
  }

  // The words of a string are split off one by one.
  lemma WordIsSplitOff(gap: string, word: string, rest: string)
    requires forall i | 0 <= i < |gap| :: IsSpace(gap[i])
    requires word != [] && forall i | 0 <= i < |word| :: !IsSpace(word[i])
    requires rest != [] ==> IsSpace(rest[0])
    ensures Words(gap + (word + rest)) == [word] + Words(rest)
  {
    SpaceHasNoWords(gap, word + rest);
    WordLengthConcat(word, rest);
  }

  lemma {:induction false} SpaceHasNoWords(gap: string, rest: string)
    requires forall i | 0 <= i < |gap| :: IsSpace(gap[i])
    ensures Words(gap + rest) == Words(rest)
  {
    if gap == [] {
      assert gap + rest == rest;
    } else {
      assert (gap + rest)[0] == gap[0] && (gap + rest)[1..] == gap[1..] + rest;
      SpaceHasNoWords(gap[1..], rest);
    }
  }

  // So are its lines; CR LF is one line break.
  lemma LineIsSplitOff(line: string, end: string, rest: string)
    requires NoLineBreak(line)
    requires end == "\r\n" || (|end| == 1 && IsLineBreak(end[0]) && !MeetInCrLf(end, rest))
    ensures SplitLines(line + (end + rest)) == [line] + SplitLines(rest)
    ensures SplitLines(line) == if line == [] then [] else [line]
  {
    var s := line + (end + rest);
    LineLengthAt(line, end + rest);
    assert s[|line|] == end[0];
    assert s[..|line|] == line && s[FullLineLength(s)..] == rest;
    UnbrokenLine(line);
  }

  lemma {:induction false} UnbrokenLine(line: string)
    requires NoLineBreak(line)
    ensures LineLength(line) == |line|
    ensures SplitLines(line) == if line == [] then [] else [line]
  {
    if line != [] {
      UnbrokenLine(line[1..]);
      assert line[..|line|] == line;
    }
  }
}
