/**
 * Worked inputs for the tokenizer: a plain command line, a quoted player
 * name and escaped quotes. Each is derived from the general lemmas of
 * module Tokenizer; the lines are parameters so the verifier does not unfold
 * the scan character by character.
 */
module TokenizerExamples {
  import opened Text
  import opened Tokenizer

  /** `spawn mudraptor outside` splits into its three words. */
  lemma SpawnLine(line: string)
    requires line == "spawn mudraptor outside"
    ensures Tokenize(line) == ["spawn", "mudraptor", "outside"]
  {
    var words := ["spawn", "mudraptor", "outside"];
    SpawnLineShape(words, line);
    SplitOnJoin(words, ' ');
    PlainTokens(line);
    SpawnWordsKept(words);
  }

  lemma SpawnLineShape(words: seq<string>, line: string)
    requires words == ["spawn", "mudraptor", "outside"] && line == "spawn mudraptor outside"
    ensures Join(words, ' ') == line && Trim(line) == line && Plain(line)
    ensures ' ' !in words[0] && ' ' !in words[1] && ' ' !in words[2]
  {
    assert Join(words[2..], ' ') == "outside";
    assert Join(words[1..], ' ') == "mudraptor" + " " + "outside";
    TrimTrimmed(line);
  }

  lemma SpawnWordsKept(words: seq<string>)
    requires words == ["spawn", "mudraptor", "outside"]
    ensures NonBlank(words) == words
  {
    assert !IsWhiteSpace(words[0][0]) && !IsWhiteSpace(words[1][0]) && !IsWhiteSpace(words[2][0]);
    assert NonBlank(words[2..]) == words[2..];
    assert NonBlank(words[1..]) == words[1..];
  }

  /** The first word of a line and the space after it become the first token. */
  lemma FirstWord(word: string, rest: string)
    requires word != [] && Plain(word) && ' ' !in word && !IsWhiteSpace(word[0])
    ensures Run(Start, word + ([' '] + rest)) == Run(Scan(0, false, [], [word]), rest)
  {
    WordRun(Start, word, [' '] + rest);
    var afterWord := Start.(piece := [] + word);
    assert [] + word == word;
    assert !IsBlank(word);
    assert Step(afterWord, ' ') == Scan(0, false, [], [word]);
    assert ([' '] + rest)[0] == ' ' && ([' '] + rest)[1..] == rest;
  }

  /** A bare word: the shape of a command name. */
  predicate Word(w: string) {
    w != [] && Plain(w) && ' ' !in w && !IsWhiteSpace(w[0])
  }

  /** `word "arg"`: the quoted argument, spaces included, is one token. */
  lemma WordThenQuoted(word: string, arg: string)
    requires Word(word) && Plain(arg) && !IsBlank(arg)
    ensures Tokenize(word + [' ', '"'] + arg + ['"']) == [word, arg]
  {
    var line := word + [' ', '"'] + arg + ['"'];
    assert line[0] == word[0] && line[|line| - 1] == '"';
    TrimTrimmed(line);
    assert line == word + ([' '] + (['"'] + arg + ['"'] + []));
    FirstWord(word, ['"'] + arg + ['"'] + []);
    QuotedSpan(Scan(0, false, [], [word]), arg, []);
    assert [] + arg == arg;
  }

  /** `word \"w\"`: escaped quotes are kept as literal quote characters. */
  lemma WordThenEscapedQuotes(word: string, w: string)
    requires Word(word) && Plain(w) && ' ' !in w
    ensures Tokenize(word + [' ', '\\', '"'] + w + ['\\', '"']) == [word, ['"'] + w + ['"']]
  {
    var line := word + [' ', '\\', '"'] + w + ['\\', '"'];
    assert line[0] == word[0] && line[|line| - 1] == '"';
    TrimTrimmed(line);
    var tail := ['\\', '"'] + (w + (['\\', '"'] + []));
    assert line == word + ([' '] + tail);
    FirstWord(word, tail);
    var afterSpace := Scan(0, false, [], [word]);
    EscapedQuote(afterSpace, w + (['\\', '"'] + []));
    var opening := afterSpace.(piece := [] + ['"']);
    WordRun(opening, w, ['\\', '"'] + []);
    var quoted := opening.(piece := opening.piece + w);
    EscapedQuote(quoted, []);
    var token := quoted.piece + ['"'];
    assert token == ['"'] + w + ['"'];
    assert !IsWhiteSpace(token[0]);
  }

  /** `kick "Long Name"` gives the command and the whole name. */
  lemma KickQuotedName(line: string)
    requires line == "kick \"Long Name\""
    ensures Tokenize(line) == ["kick", "Long Name"]
  {
    var word, name := line[..4], line[6..15];
    assert line == word + [' ', '"'] + name + ['"'];
    assert word == "kick" && name == "Long Name";
    assert !IsWhiteSpace(name[0]);
    WordThenQuoted(word, name);
  }

  /** `say \"hi\"` keeps the escaped quotes around `hi`. */
  lemma SayEscapedQuotes(line: string)
    requires line == "say \\\"hi\\\""
    ensures Tokenize(line) == ["say", "\"hi\""]
  {
    var word, w := line[..3], line[6..8];
    assert line == word + [' ', '\\', '"'] + w + ['\\', '"'];
    assert word == "say" && w == "hi";
    WordThenEscapedQuotes(word, w);
    assert ['"'] + w + ['"'] == "\"hi\"";
  }
}
