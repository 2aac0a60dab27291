// Reading one parenthesised attribute value: nested parentheses count, quoted
// ones do not.
module MqscValue {
  import opened Wrappers
  import opened Text

  // The quotes in t[..p]. A doubled quote inside a quoted string closes and
  // reopens it, so position p is outside quotes exactly when their number is even.
  function Quotes(t: string, p: nat): nat
    requires p <= |t|
  {
    if p == 0 then 0 else Quotes(t, p - 1) + (if t[p - 1] == '\'' then 1 else 0)
  }

  predicate Outside(t: string, p: nat)
    requires p <= |t|
  {
    Quotes(t, p) % 2 == 0
  }

  // The nesting depth after t[..p], one parenthesis being open at the start.
  function Depth(t: string, p: nat): int
    requires p <= |t|
  {
    if p == 0 then 1
    else if Outside(t, p - 1) && t[p - 1] == '(' then Depth(t, p - 1) + 1
    else if Outside(t, p - 1) && t[p - 1] == ')' then Depth(t, p - 1) - 1
    else Depth(t, p - 1)
  }

  // No character of t[..p] closes the parenthesis.
  predicate OpenTo(t: string, p: nat)
    requires p <= |t|
  {
    forall q: nat | q <= p :: Depth(t, q) > 0
  }

  // p is the first position whose character brings the depth down to zero.
  predicate ClosesAt(t: string, p: nat) {
    p < |t| && OpenTo(t, p) && Depth(t, p + 1) == 0
  }

  // The matching close parenthesis, if the line has one.
  function FindClose(t: string, p: nat): (r: Option<nat>)
    requires p <= |t| && OpenTo(t, p)
    ensures forall q: nat :: r == Some(q) <==> ClosesAt(t, q)
    ensures r.None? <==> OpenTo(t, |t|)
    decreases |t| - p
  {
    if p == |t| then None
    else if Depth(t, p + 1) <= 0 then
      assert Depth(t, p + 1) == 0;
      Some(p)
    else FindClose(t, p + 1)
  }

  // The value text begins right after the open parenthesis; Consumed counts up
  // to and including the matching close. An unclosed value takes the whole rest,
  // and one more position if a quote is left open as well.
  function ValueOf(t: string): string {
    match FindClose(t, 0)
    case Some(p) => Strip(t[..p])
    case None => Strip(t)
  }

  function Consumed(t: string): (n: nat)
    ensures n > 0 || t == []
    ensures n <= |t| + 1
  {
    match FindClose(t, 0)
    case Some(p) => p + 1
    case None => |t| + (if Outside(t, |t|) then 0 else 1)
  }

  ghost predicate ScannedTo(t: string, p: nat, depth: int)
    requires p <= |t|
  {
    OpenTo(t, p) && Depth(t, p) == depth
  }

  // How one character moves the scan on.
  lemma ScanStep(t: string, p: nat, depth: int)
    requires p < |t| && ScannedTo(t, p, depth)
    ensures Outside(t, p + 1) <==> (Outside(t, p) <==> t[p] != '\'')
    ensures Outside(t, p) && t[p] == '(' ==> ScannedTo(t, p + 1, depth + 1)
    ensures Outside(t, p) && t[p] == ')' && depth > 1 ==> ScannedTo(t, p + 1, depth - 1)
    ensures Outside(t, p) && t[p] == ')' && depth == 1 ==> ClosesAt(t, p)
    ensures !Outside(t, p) || t[p] !in "()" ==> ScannedTo(t, p + 1, depth)
  {
  }

  lemma ClosedBy(line: string, start: nat, i: nat)
    requires start <= i <= |line| && ClosesAt(line[start..], i - start)
    ensures ValueOf(line[start..]) == Strip(line[start..i])
    ensures Consumed(line[start..]) == i + 1 - start
  {
    assert line[start..][..i - start] == line[start..i];
  }

  lemma NeverClosed(line: string, start: nat, depth: int)
    requires start <= |line| && ScannedTo(line[start..], |line| - start, depth)
    ensures ValueOf(line[start..]) == Strip(line[start..])
    ensures Consumed(line[start..]) == |line| - start + if Outside(line[start..], |line| - start) then 0 else 1
  {
  }

  // The inner loop of ReadValue: from an opening quote at i to its closing
  // quote, or to the end of the line if there is none.
  method SkipQuoted(line: string, i: nat, ghost start: nat, ghost depth: int) returns (j: nat)
    requires start <= i < |line| && line[i] == '\''
    requires ScannedTo(line[start..], i - start, depth) && Outside(line[start..], i - start)
    ensures i < j <= |line|
    ensures j < |line| ==> ScannedTo(line[start..], j + 1 - start, depth) && Outside(line[start..], j + 1 - start)
    ensures j == |line| ==> ScannedTo(line[start..], j - start, depth) && !Outside(line[start..], j - start)
  {
    ghost var t := line[start..];
    hide Depth, Quotes, Outside, OpenTo, ScannedTo, ClosesAt;
    ScanStep(t, i - start, depth);
    j := i + 1;
    while j < |line|
      invariant i + 1 <= j <= |line|
      invariant ScannedTo(t, j - start, depth) && !Outside(t, j - start)
    {
      ScanStep(t, j - start, depth);
      if line[j] == '\'' {
        if j + 1 < |line| && line[j + 1] == '\'' {
          ScanStep(t, j + 1 - start, depth);
          j := j + 2;
          continue;
        }
        break;
      }
      j := j + 1;
    }
  }

  // ReadValue has got to i, outside quotes, and out is what it has passed.
  ghost predicate Reading(line: string, start: nat, i: nat, depth: int, out: string)
    requires start <= i <= |line|
  {
    ScannedTo(line[start..], i - start, depth) && Outside(line[start..], i - start) && out == line[start..i]
  }

  // It has got to the end of the line within quotes.
  ghost predicate LeftOpen(line: string, start: nat, depth: int, out: string)
    requires start <= |line|
  {
    var t := line[start..];
    ScannedTo(t, |t|, depth) && !Outside(t, |t|) && out == t
  }

  lemma ReadQuoted(line: string, start: nat, i: nat, j: nat, depth: int, out: string)
    requires start <= i < j <= |line| && Reading(line, start, i, depth, out)
    requires j < |line| ==> ScannedTo(line[start..], j + 1 - start, depth) && Outside(line[start..], j + 1 - start)
    requires j == |line| ==> ScannedTo(line[start..], j - start, depth) && !Outside(line[start..], j - start)
    ensures j < |line| ==> Reading(line, start, j + 1, depth, out + line[i..j + 1])
    ensures j == |line| ==> LeftOpen(line, start, depth, out + line[i..j])
  {
    hide ScannedTo, Outside;
    SliceGrows(line, start, i, if j < |line| then j + 1 else j);
  }

  function NextDepth(c: char, depth: int): int {
    if c == '(' then depth + 1 else if c == ')' then depth - 1 else depth
  }

  lemma ReadPlain(line: string, start: nat, i: nat, depth: int, out: string)
    requires start <= i < |line| && depth > 0 && line[i] != '\'' && Reading(line, start, i, depth, out)
    ensures var d := NextDepth(line[i], depth);
            && (d > 0 ==> Reading(line, start, i + 1, d, out + [line[i]]))
            && (d == 0 ==> ValueOf(line[start..]) == Strip(out) && Consumed(line[start..]) == i + 1 - start)
  {
    ScanStep(line[start..], i - start, depth);
    SliceGrows(line, start, i, i);
    hide ScannedTo, Outside, ClosesAt, ValueOf, Consumed, Strip;
    if NextDepth(line[i], depth) == 0 {
      ClosedBy(line, start, i);
    }
  }

  method ReadValue(line: string, start: nat) returns (value: string, next: nat)
    requires start <= |line|
    ensures value == ValueOf(line[start..])
    ensures next == start + Consumed(line[start..])
  {
    var n := |line|;
    var i, depth, out := start, 1, "";
    assert Reading(line, start, start, 1, "");
    hide ScannedTo, Outside, ClosesAt, ValueOf, Consumed, Strip;
    while i < n
      invariant start <= i <= n + 1 && depth > 0
      invariant if i <= n then Reading(line, start, i, depth, out) else LeftOpen(line, start, depth, out)
      decreases n + 1 - i
    {
      var ch := line[i];
      if ch == '\'' {
        var j := SkipQuoted(line, i, start, depth);
        ReadQuoted(line, start, i, j, depth, out);
        var end := if j < n then j + 1 else n;
        out := out + line[i..end];
        i := j + 1;
        continue;
      }
      ReadPlain(line, start, i, depth, out);
      if ch == '(' {
        depth := depth + 1;
      } else if ch == ')' {
        depth := depth - 1;
        if depth == 0 {
          return Strip(out), i + 1;
        }
      }
      out := out + [ch];
      i := i + 1;
    }
    NeverClosed(line, start, depth);
    assert i == n ==> out == line[start..];
    return Strip(out), i;
  }

  // Both scanning notions look only at the text before the position.
  lemma {:induction false} DepthOfPrefix(t: string, u: string, p: nat)
    requires p <= |t| && p <= |u| && t[..p] == u[..p]
    ensures Quotes(t, p) == Quotes(u, p) && Depth(t, p) == Depth(u, p)
  {
    if p > 0 {
      assert t[p - 1] == t[..p][p - 1] == u[..p][p - 1] == u[p - 1];
      assert t[..p - 1] == t[..p][..p - 1] && u[..p - 1] == u[..p][..p - 1];
      DepthOfPrefix(t, u, p - 1);
    }
  }

  // Parentheses outside quotes match, and no quote is left open.
  predicate Balanced(v: string) {
    && Outside(v, |v|)
    && Depth(v, |v|) == 1
    && OpenTo(v, |v|)
  }

  // A value followed by a close parenthesis is read back up to exactly that
  // parenthesis, whatever comes after it, if and only if it is balanced and trimmed.
  lemma ReadsBackIffBalanced(v: string, rest: string)
    ensures var t := v + ")" + rest;
            FindClose(t, 0) == Some(|v|) && ValueOf(t) == v <==> Balanced(v) && Trimmed(v)
  {
    var t := v + ")" + rest;
    assert t[..|v|] == v;
    StripTrims(v);
    forall p: nat | p <= |v|
      ensures Quotes(t, p) == Quotes(v, p) && Depth(t, p) == Depth(v, p)
    {
      assert t[..p] == v[..p];
      DepthOfPrefix(t, v, p);
    }
    assert OpenTo(t, |v|) == OpenTo(v, |v|);
    assert ClosesAt(t, |v|) <==> Balanced(v);
  }
}
