/**
 * The console's tokenizer (`DebugConsole.SplitCommand`): a single left-to-right
 * scan over the trimmed line with an escape counter, a quote flag and a
 * buffer for the token being built. It never fails.
 */
module Tokenizer {
  import opened Text

  /** The scanner's variables between two iterations of its loop. */
  datatype Scan = Scan(escape: int, inQuotes: bool, piece: string, tokens: seq<string>)

  const Start: Scan := Scan(0, false, [], [])

  /** A buffered piece becomes a token unless it is empty or white space only. */
  function Flush(tokens: seq<string>, piece: string): seq<string> {
    if IsBlank(piece) then tokens else tokens + [piece]
  }

  /** One iteration of the scan: the four-way branch on the character, then
      the escape counter counts down. */
  function Step(st: Scan, c: char): Scan {
    var next :=
      if c == '\\' then
        (if st.escape == 0 then st.(escape := 2) else st.(piece := st.piece + ['\\']))
      else if c == '"' then
        (if st.escape == 0 then st.(inQuotes := !st.inQuotes) else st.(piece := st.piece + ['"']))
      else if c == ' ' && !st.inQuotes then
        st.(tokens := Flush(st.tokens, st.piece), piece := [])
      else if st.escape == 0 then
        st.(piece := st.piece + [c])
      else
        st;
    if next.escape > 0 then next.(escape := next.escape - 1) else next
  }

  /** The tokens produced by scanning `s` from state `st`, final piece included. */
  function Run(st: Scan, s: string): seq<string>
    decreases |s|
  {
    if s == [] then Flush(st.tokens, st.piece) else Run(Step(st, s[0]), s[1..])
  }

  /** What `SplitCommand(line)` returns. */
  function Tokenize(line: string): seq<string> {
    Run(Start, Trim(line))
  }

  method SplitCommand(command: string) returns (tokens: seq<string>)
    ensures tokens == Tokenize(command)
  {
    var line := Trim(command);
    var commands: seq<string> := [];
    var escape := 0;
    var inQuotes := false;
    var piece: string := [];
    for i := 0 to |line|
      invariant Run(Scan(escape, inQuotes, piece, commands), line[i..]) == Run(Start, line)
    {
      ghost var before := Scan(escape, inQuotes, piece, commands);
      if line[i] == '\\' {
        if escape == 0 { escape := 2; } else { piece := piece + ['\\']; }
      } else if line[i] == '"' {
        if escape == 0 { inQuotes := !inQuotes; } else { piece := piece + ['"']; }
      } else if line[i] == ' ' && !inQuotes {
        if !IsBlank(piece) { commands := commands + [piece]; }
        piece := [];
      } else if escape == 0 {
        piece := piece + [line[i]];
      }
      if escape > 0 { escape := escape - 1; }
      assert Scan(escape, inQuotes, piece, commands) == Step(before, line[i]);
      assert line[i..][1..] == line[i + 1..];
    }
    assert line[|line|..] == [];
    if !IsBlank(piece) { commands := commands + [piece]; }
    tokens := commands;
  }

  // ---------------------------------------------------------------------------
  // No token is ever empty or white space only.

  lemma {:induction false} RunNonBlank(st: Scan, s: string)
    requires forall t :: t in st.tokens ==> !IsBlank(t)
    ensures forall t :: t in Run(st, s) ==> !IsBlank(t)
    decreases |s|
  {
    if s != [] {
      RunNonBlank(Step(st, s[0]), s[1..]);
    }
  }

  lemma TokensNeverBlank(line: string)
    ensures forall t :: t in Tokenize(line) ==> t != [] && !IsBlank(t)
  {
    RunNonBlank(Start, Trim(line));
  }

  // ---------------------------------------------------------------------------
  // Without backslashes and double quotes the tokenizer is a plain split on ' '.

  predicate Plain(s: string) {
    forall i :: 0 <= i < |s| ==> s[i] != '\\' && s[i] != '"'
  }

  lemma {:induction false} RunPlain(st: Scan, s: string)
    requires Plain(s) && st.escape == 0 && !st.inQuotes
    ensures var ps := SplitOn(s, ' ');
            Run(st, s) == st.tokens + NonBlank([st.piece + ps[0]] + ps[1..])
    decreases |s|
  {
    var ps := SplitOn(s, ' ');
    if s == [] {
      assert st.piece + [] == st.piece;
    } else {
      var rest := SplitOn(s[1..], ' ');
      assert Plain(s[1..]) by {
        forall i | 0 <= i < |s[1..]| ensures s[1..][i] != '\\' && s[1..][i] != '"' {
          assert s[1..][i] == s[i + 1];
        }
      }
      var next := Step(st, s[0]);
      RunPlain(next, s[1..]);
      if s[0] == ' ' {
        assert ps == [[]] + rest;
        assert st.piece + ps[0] == st.piece && ps[1..] == rest;
        assert [] + rest[0] == rest[0];
        assert [[] + rest[0]] + rest[1..] == rest;
        NonBlankAppend([st.piece], rest);
        assert [st.piece] + rest == [st.piece + ps[0]] + ps[1..];
        assert NonBlank([st.piece]) == (if IsBlank(st.piece) then [] else [st.piece]);
      } else {
        assert ps == [[s[0]] + rest[0]] + rest[1..];
        assert st.piece + ps[0] == (st.piece + [s[0]]) + rest[0];
      }
    }
  }

  /** For input without `\` and `"`: the trimmed line split on ' ', empty and
      white-space-only pieces removed. */
  lemma PlainTokens(line: string)
    requires Plain(line)
    ensures Tokenize(line) == NonBlank(SplitOn(Trim(line), ' '))
  {
    var t := Trim(line);
    var lo := |line| - |TrimStart(line)|;
    assert Plain(t) by {
      forall i | 0 <= i < |t| ensures t[i] != '\\' && t[i] != '"' {
        assert t[i] == line[lo + i];
      }
    }
    RunPlain(Start, t);
    var ps := SplitOn(t, ' ');
    assert [] + ps[0] == ps[0];
    assert [[] + ps[0]] + ps[1..] == ps;
  }

  // ---------------------------------------------------------------------------
  // Escapes and quotes.

  /** `\"` contributes a literal double quote. */
  lemma EscapedQuote(st: Scan, rest: string)
    requires st.escape == 0
    ensures Run(st, ['\\', '"'] + rest) == Run(st.(piece := st.piece + ['"']), rest)
  {
    assert (['\\', '"'] + rest)[1..] == ['"'] + rest;
    assert (['"'] + rest)[1..] == rest;
  }

  /** `\\` contributes a literal backslash. */
  lemma EscapedBackslash(st: Scan, rest: string)
    requires st.escape == 0
    ensures Run(st, ['\\', '\\'] + rest) == Run(st.(piece := st.piece + ['\\']), rest)
  {
    assert (['\\', '\\'] + rest)[1..] == ['\\'] + rest;
    assert (['\\'] + rest)[1..] == rest;
  }

  /** An escaped ordinary character is dropped, and the escape is spent on it. */
  lemma EscapedCharDropped(st: Scan, c: char, rest: string)
    requires st.escape == 0
    requires c != '\\' && c != '"' && !(c == ' ' && !st.inQuotes)
    ensures Run(st, ['\\', c] + rest) == Run(st, rest)
  {
    assert (['\\', c] + rest)[1..] == [c] + rest;
    assert ([c] + rest)[1..] == rest;
  }

  /** An escaped space outside quotes still ends the token. */
  lemma EscapedSpaceSplits(st: Scan, rest: string)
    requires st.escape == 0 && !st.inQuotes
    ensures Run(st, ['\\', ' '] + rest)
         == Run(st.(tokens := Flush(st.tokens, st.piece), piece := []), rest)
  {
    assert (['\\', ' '] + rest)[1..] == [' '] + rest;
    assert ([' '] + rest)[1..] == rest;
  }

  /** A trailing backslash is ignored: the scan ends with what it has. */
  lemma TrailingBackslash(st: Scan)
    requires st.escape == 0
    ensures Run(st, ['\\']) == Flush(st.tokens, st.piece)
  {
    assert ['\\'][1..] == [];
  }

  /** Between iterations the counter is 0 or 1, and an escape affects only
      the character right after the backslash. */
  lemma EscapeLastsOneCharacter(st: Scan, c: char)
    requires 0 <= st.escape <= 1
    ensures 0 <= Step(st, c).escape <= 1
    ensures st.escape == 1 ==> Step(st, c).escape == 0
    ensures Step(st, c).escape == 1 <==> st.escape == 0 && c == '\\'
  {
  }

  /** A run of ordinary characters is appended to the current token: inside
      quotes spaces included, outside quotes when it holds no space. */
  lemma {:induction false} WordRun(st: Scan, w: string, rest: string)
    requires st.escape == 0 && Plain(w) && (st.inQuotes || ' ' !in w)
    ensures Run(st, w + rest) == Run(st.(piece := st.piece + w), rest)
    decreases |w|
  {
    if w == [] {
      assert w + rest == rest && st.piece + w == st.piece;
    } else {
      assert (w + rest)[0] == w[0] && (w + rest)[1..] == w[1..] + rest;
      assert Plain(w[1..]) by {
        forall i | 0 <= i < |w[1..]| ensures w[1..][i] != '\\' && w[1..][i] != '"' {
          assert w[1..][i] == w[i + 1];
        }
      }
      assert w == [w[0]] + w[1..];
      WordRun(Step(st, w[0]), w[1..], rest);
      assert (st.piece + [w[0]]) + w[1..] == st.piece + w;
    }
  }

  /** A quoted span `"w"` adds `w` verbatim, spaces included, to the current
      token and leaves quoting off again. */
  lemma QuotedSpan(st: Scan, w: string, rest: string)
    requires st.escape == 0 && !st.inQuotes && Plain(w)
    ensures Run(st, ['"'] + w + ['"'] + rest) == Run(st.(piece := st.piece + w), rest)
  {
    var s := ['"'] + w + ['"'] + rest;
    assert s[1..] == w + (['"'] + rest);
    var quoting := st.(inQuotes := true);
    assert Step(st, '"') == quoting;
    WordRun(quoting, w, ['"'] + rest);
    assert (['"'] + rest)[1..] == rest;
  }

  /** An unterminated quote keeps the rest of the line, spaces included, in
      the final token. */
  lemma UnterminatedQuote(st: Scan, w: string)
    requires st.escape == 0 && !st.inQuotes && Plain(w)
    ensures Run(st, ['"'] + w) == Flush(st.tokens, st.piece + w)
  {
    assert (['"'] + w)[1..] == w;
    WordRun(st.(inQuotes := true), w, []);
    assert w + [] == w;
  }
}
