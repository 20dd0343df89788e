/**
 * Character and string primitives of the .NET base library that the console
 * relies on: `char.IsWhiteSpace`, `char.IsDigit`, `string.Trim`,
 * `string.IsNullOrWhiteSpace`, `ToLowerInvariant`, `string.Split(char)` and
 * `string.Join`. Strings are `seq<char>`; `null` strings do not occur.
 */
module Text {

  /** `int.MinValue` and `int.MaxValue`, the range of a 32-bit `int`. */
  const IntMin: int := -0x8000_0000
  const IntMax: nat := 0x7FFF_FFFF

  /** `char.IsWhiteSpace`: the Unicode space separators plus the ASCII and
      Latin-1 control characters that .NET classes as white space. */
  predicate IsWhiteSpace(c: char) {
    var n := c as int;
    (9 <= n <= 13) || n == 0x20 || n == 0x85 || n == 0xA0 || n == 0x1680
    || (0x2000 <= n <= 0x200A) || n == 0x2028 || n == 0x2029 || n == 0x202F
    || n == 0x205F || n == 0x3000
  }

  /** `char.IsDigit`, restricted to the ASCII digits. */
  predicate IsDigit(c: char) {
    '0' <= c <= '9'
  }

  function DigitValue(c: char): (d: nat)
    requires IsDigit(c)
    ensures d < 10
  {
    c as int - '0' as int
  }

  /** `string.IsNullOrWhiteSpace` */
  predicate IsBlank(s: string) {
    forall i :: 0 <= i < |s| ==> IsWhiteSpace(s[i])
  }

  /** `ToLowerInvariant`, restricted to the ASCII letters. */
  function LowerChar(c: char): (r: char)
    ensures 'A' <= c <= 'Z' ==> 'a' <= r <= 'z'
    ensures !('A' <= c <= 'Z') ==> r == c
  {
    if 'A' <= c <= 'Z' then (c as int - 'A' as int + 'a' as int) as char else c
  }

  function ToLower(s: string): (r: string)
    ensures |r| == |s|
    ensures forall i :: 0 <= i < |s| ==> r[i] == LowerChar(s[i])
  {
    seq(|s|, i requires 0 <= i < |s| => LowerChar(s[i]))
  }

  /** `string.TrimStart()`: drops the leading white space and nothing else. */
  function TrimStart(s: string): (r: string)
    ensures |r| <= |s| && r == s[|s| - |r|..]
    ensures forall i :: 0 <= i < |s| - |r| ==> IsWhiteSpace(s[i])
    ensures r == [] || !IsWhiteSpace(r[0])
    decreases |s|
  {
    if s != [] && IsWhiteSpace(s[0]) then TrimStart(s[1..]) else s
  }

  /** `string.TrimEnd()`: drops the trailing white space and nothing else. */
  function TrimEnd(s: string): (r: string)
    ensures |r| <= |s| && r == s[..|r|]
    ensures forall i :: |r| <= i < |s| ==> IsWhiteSpace(s[i])
    ensures r == [] || !IsWhiteSpace(r[|r| - 1])
    decreases |s|
  {
    if s != [] && IsWhiteSpace(s[|s| - 1]) then TrimEnd(s[..|s| - 1]) else s
  }

  /** `string.Trim()`: the longest infix of `s` that neither starts nor ends
      with white space, obtained by removing only white space. */
  function Trim(s: string): (r: string)
    ensures var lo := |s| - |TrimStart(s)|;
            lo + |r| <= |s| && r == s[lo..lo + |r|]
            && (forall i :: 0 <= i < lo ==> IsWhiteSpace(s[i]))
            && (forall i :: lo + |r| <= i < |s| ==> IsWhiteSpace(s[i]))
    ensures r == [] || (!IsWhiteSpace(r[0]) && !IsWhiteSpace(r[|r| - 1]))
  {
    var t := TrimStart(s);
    var r := TrimEnd(t);
    var lo := |s| - |t|;
    assert r == s[lo..lo + |r|];
    r
  }

  /** Trimming text that neither starts nor ends with white space changes nothing. */
  lemma TrimTrimmed(s: string)
    requires s != [] && !IsWhiteSpace(s[0]) && !IsWhiteSpace(s[|s| - 1])
    ensures Trim(s) == s
  {
    assert TrimStart(s) == s;
  }

  /** `string.Split(sep)`: the pieces between the separators, always at least one. */
  function SplitOn(s: string, sep: char): (r: seq<string>)
    ensures |r| >= 1
    decreases |s|
  {
    if s == [] then [[]]
    else
      var rest := SplitOn(s[1..], sep);
      if s[0] == sep then [[]] + rest else [[s[0]] + rest[0]] + rest[1..]
  }

  /** `string.Join(sep, pieces)` */
  function Join(pieces: seq<string>, sep: char): string
    decreases |pieces|
  {
    if |pieces| == 0 then []
    else if |pieces| == 1 then pieces[0]
    else pieces[0] + [sep] + Join(pieces[1..], sep)
  }

  /** No piece of a split holds the separator. */
  lemma {:induction false} SplitOnPiecesFree(s: string, sep: char)
    ensures forall k :: 0 <= k < |SplitOn(s, sep)| ==> sep !in SplitOn(s, sep)[k]
    decreases |s|
  {
    if s != [] {
      SplitOnPiecesFree(s[1..], sep);
    }
  }

  /** Joining the pieces of a split with the same separator restores the text. */
  lemma {:induction false} JoinSplitOn(s: string, sep: char)
    ensures Join(SplitOn(s, sep), sep) == s
    decreases |s|
  {
    if s != [] {
      var rest := SplitOn(s[1..], sep);
      JoinSplitOn(s[1..], sep);
      if s[0] != sep {
        if |rest| > 1 {
          assert [[s[0]] + rest[0]] + rest[1..] == [[s[0]] + rest[0]] + rest[1..];
          assert ([s[0]] + rest[0]) + [sep] + Join(rest[1..], sep)
              == [s[0]] + (rest[0] + [sep] + Join(rest[1..], sep));
        }
      }
    }
  }

  /** Splitting a join of separator-free pieces gives the pieces back. */
  lemma {:induction false} SplitOnJoin(pieces: seq<string>, sep: char)
    requires |pieces| >= 1
    requires forall k :: 0 <= k < |pieces| ==> sep !in pieces[k]
    ensures SplitOn(Join(pieces, sep), sep) == pieces
    decreases |pieces|
  {
    if |pieces| == 1 {
      SplitOnPiece(pieces[0], [], sep);
      assert pieces[0] + [] == pieces[0];
    } else {
      var tail := Join(pieces[1..], sep);
      SplitOnJoin(pieces[1..], sep);
      assert ([sep] + tail)[1..] == tail;
      assert SplitOn([sep] + tail, sep) == [[]] + pieces[1..];
      SplitOnPiece(pieces[0], [sep] + tail, sep);
      assert pieces[0] + [sep] + tail == pieces[0] + ([sep] + tail);
      assert pieces[0] + [] == pieces[0];
    }
  }

  /** A separator-free prefix becomes the head of the first piece. */
  lemma {:induction false} SplitOnPiece(w: string, rest: string, sep: char)
    requires sep !in w
    ensures var r := SplitOn(rest, sep);
            SplitOn(w + rest, sep) == [w + r[0]] + r[1..]
    decreases |w|
  {
    if w != [] {
      SplitOnPiece(w[1..], rest, sep);
      assert (w + rest)[1..] == w[1..] + rest;
      assert [w[0]] + (w[1..] + SplitOn(rest, sep)[0]) == w + SplitOn(rest, sep)[0];
    } else {
      var r := SplitOn(rest, sep);
      assert w + rest == rest && w + r[0] == r[0];
      assert [r[0]] + r[1..] == r;
    }
  }

  /** The pieces that `string.IsNullOrWhiteSpace` rejects are dropped. */
  function NonBlank(pieces: seq<string>): (r: seq<string>)
    decreases |pieces|
  {
    if pieces == [] then []
    else (if IsBlank(pieces[0]) then [] else [pieces[0]]) + NonBlank(pieces[1..])
  }

  lemma {:induction false} NonBlankAppend(a: seq<string>, b: seq<string>)
    ensures NonBlank(a + b) == NonBlank(a) + NonBlank(b)
    decreases |a|
  {
    if a != [] {
      assert (a + b)[1..] == a[1..] + b;
      NonBlankAppend(a[1..], b);
    } else {
      assert a + b == b;
    }
  }

  /** What the filter keeps is exactly the non-blank pieces, in order. */
  lemma {:induction false} NonBlankKeeps(pieces: seq<string>)
    ensures forall t :: t in NonBlank(pieces) ==> t in pieces && !IsBlank(t)
    ensures forall t :: t in pieces && !IsBlank(t) ==> t in NonBlank(pieces)
    decreases |pieces|
  {
    if pieces != [] {
      NonBlankKeeps(pieces[1..]);
      forall t | t in pieces && !IsBlank(t) ensures t in NonBlank(pieces) {
        if t != pieces[0] {
          assert t in pieces[1..];
        }
      }
    }
  }
}
