/** The string primitives the program uses, restricted to ASCII: `str.lower`,
    `str.upper`, `str.strip`, `str.startswith`, the `in` substring test,
    `str.find`/`str.rfind` on one character, `"\n".join` and `str.split("\n")`. */
module Text {
  import opened Base

  /** Python's `str.isspace` on ASCII: space, \t \n \v \f \r and the
      separators 0x1C-0x1F. */
  predicate IsSpace(c: char) {
    var n := c as int;
    n == 32 || 9 <= n <= 13 || 28 <= n <= 31
  }

  function LowerChar(c: char): char {
    if 'A' <= c <= 'Z' then (c as int + 32) as char else c
  }

  function UpperChar(c: char): char {
    if 'a' <= c <= 'z' then (c as int - 32) as char else c
  }

  function Lower(s: string): (r: string)
    ensures |r| == |s|
    ensures forall i :: 0 <= i < |s| ==> r[i] == LowerChar(s[i])
  {
    seq(|s|, i requires 0 <= i < |s| => LowerChar(s[i]))
  }

  function Upper(s: string): (r: string)
    ensures |r| == |s|
    ensures forall i :: 0 <= i < |s| ==> r[i] == UpperChar(s[i])
  {
    seq(|s|, i requires 0 <= i < |s| => UpperChar(s[i]))
  }

  predicate StartsWith(s: string, prefix: string) {
    |prefix| <= |s| && s[..|prefix|] == prefix
  }

  predicate OccursAt(s: string, needle: string, i: int) {
    0 <= i && i + |needle| <= |s| && s[i..i + |needle|] == needle
  }

  /** Python's `needle in s`. */
  predicate Contains(s: string, needle: string) {
    exists i | 0 <= i <= |s| - |needle| :: OccursAt(s, needle, i)
  }

  predicate NoSpace(s: string) {
    forall i :: 0 <= i < |s| ==> !IsSpace(s[i])
  }

  /** Python's `str.lstrip()`: the longest suffix that does not start with
      whitespace; everything dropped is whitespace. */
  function TrimLeft(s: string): (r: string)
    ensures |r| <= |s| && r == s[|s| - |r|..]
    ensures forall i :: 0 <= i < |s| - |r| ==> IsSpace(s[i])
    ensures r == [] || !IsSpace(r[0])
    decreases |s|
  {
    if |s| > 0 && IsSpace(s[0]) then TrimLeft(s[1..]) else s
  }

  /** Python's `str.rstrip()`: the longest prefix that does not end with
      whitespace; everything dropped is whitespace. */
  function TrimRight(s: string): (r: string)
    ensures |r| <= |s| && r == s[..|r|]
    ensures forall i :: |r| <= i < |s| ==> IsSpace(s[i])
    ensures r == [] || !IsSpace(r[|r| - 1])
    decreases |s|
  {
    if |s| > 0 && IsSpace(s[|s| - 1]) then TrimRight(s[..|s| - 1]) else s
  }

  /** Python's `str.strip()`. */
  function Strip(s: string): string {
    TrimRight(TrimLeft(s))
  }

  /** `Strip` removes a whitespace-only margin from both ends: the result is
      the slice `s[a..a + |r|]` with only whitespace outside it. */
  lemma StripIsCore(s: string) returns (a: nat)
    ensures a + |Strip(s)| <= |s|
    ensures Strip(s) == s[a..a + |Strip(s)|]
    ensures forall i :: 0 <= i < a ==> IsSpace(s[i])
    ensures forall i :: a + |Strip(s)| <= i < |s| ==> IsSpace(s[i])
  {
    var l := TrimLeft(s);
    a := |s| - |l|;
    var r := TrimRight(l);
    assert l == s[a..];
    assert r == l[..|r|];
    forall i | a + |r| <= i < |s|
      ensures IsSpace(s[i])
    {
      assert s[i] == l[i - a];
    }
  }

  /** A needle with no whitespace occurs in a string exactly when it occurs
      in that string's core, whatever whitespace margin surrounds the core. */
  lemma {:induction false} ContainsIgnoresMargin(s: string, a: nat, b: nat, needle: string)
    requires a <= b <= |s|
    requires forall i :: 0 <= i < a ==> IsSpace(s[i])
    requires forall i :: b <= i < |s| ==> IsSpace(s[i])
    requires |needle| > 0 && NoSpace(needle)
    ensures Contains(s[a..b], needle) <==> Contains(s, needle)
  {
    var core := s[a..b];
    if Contains(core, needle) {
      var i :| 0 <= i <= |core| - |needle| && OccursAt(core, needle, i);
      forall k | 0 <= k < |needle|
        ensures s[a + i + k] == needle[k]
      {
        assert core[i..i + |needle|][k] == core[i + k] == s[a + i + k];
      }
      assert s[a + i..a + i + |needle|] == needle;
      assert OccursAt(s, needle, a + i);
    }
    if Contains(s, needle) {
      var i :| 0 <= i <= |s| - |needle| && OccursAt(s, needle, i);
      assert s[i] == needle[0];
      if i < a {
        assert false;
      }
      var last := i + |needle| - 1;
      assert s[last] == needle[|needle| - 1];
      if last >= b {
        assert false;
      }
      forall k | 0 <= k < |needle|
        ensures core[i - a + k] == needle[k]
      {
        assert s[i..i + |needle|][k] == s[i + k] == core[i - a + k];
      }
      assert core[i - a..i - a + |needle|] == needle;
      assert OccursAt(core, needle, i - a);
    }
  }

  /** Python's `s.find(c)` as an option: the first index holding `c`. */
  function IndexOf(s: string, c: char): (r: Option<nat>)
    ensures r.None? ==> c !in s
    ensures r.Some? ==> r.value < |s| && s[r.value] == c && c !in s[..r.value]
    decreases |s|
  {
    if |s| == 0 then None
    else if s[0] == c then Some(0)
    else match IndexOf(s[1..], c)
      case None => None
      case Some(k) => assert s[..k + 1] == [s[0]] + s[1..][..k]; Some(k + 1)
  }

  /** Python's `s.rfind(c)` as an option: the last index holding `c`. */
  function LastIndexOf(s: string, c: char): (r: Option<nat>)
    ensures r.None? ==> c !in s
    ensures r.Some? ==> r.value < |s| && s[r.value] == c && c !in s[r.value + 1..]
    decreases |s|
  {
    if |s| == 0 then None
    else if s[|s| - 1] == c then Some(|s| - 1)
    else match LastIndexOf(s[..|s| - 1], c)
      case None => None
      case Some(k) => assert s[k + 1..] == s[..|s| - 1][k + 1..] + [s[|s| - 1]]; Some(k)
  }

  /** Python's `"\n".join(lines)`. */
  function Join(lines: seq<string>): string
    decreases |lines|
  {
    if |lines| == 0 then ""
    else if |lines| == 1 then lines[0]
    else lines[0] + "\n" + Join(lines[1..])
  }

  /** Python's `s.split("\n")`. */
  function SplitLines(s: string): (r: seq<string>)
    ensures |r| >= 1
    decreases |s|
  {
    match IndexOf(s, '\n')
    case None => [s]
    case Some(i) => [s[..i]] + SplitLines(s[i + 1..])
  }

  /** The first newline of `a + "\n" + b` is the one after `a` when `a` has none. */
  lemma FirstNewline(a: string, b: string)
    requires '\n' !in a
    ensures IndexOf(a + "\n" + b, '\n') == Some(|a|)
  {
    var s := a + "\n" + b;
    assert s[|a|] == '\n';
    assert s[..|a|] == a;
  }

  /** Splitting a newline-joined list of newline-free lines gives the lines back. */
  lemma {:induction false} SplitJoin(lines: seq<string>)
    requires |lines| > 0
    requires forall k :: 0 <= k < |lines| ==> '\n' !in lines[k]
    ensures SplitLines(Join(lines)) == lines
    decreases |lines|
  {
    if |lines| == 1 {
      assert Join(lines) == lines[0];
    } else {
      var rest := Join(lines[1..]);
      var s := lines[0] + "\n" + rest;
      assert Join(lines) == s;
      FirstNewline(lines[0], rest);
      assert s[..|lines[0]|] == lines[0];
      assert s[|lines[0]| + 1..] == rest;
      SplitJoin(lines[1..]);
      assert lines == [lines[0]] + lines[1..];
    }
  }
}
