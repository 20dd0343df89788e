/**
 * Small argument rules inside three registered commands: the ";" split of
 * `setclientcharacter`, the trailing-index rule of `FindMatchingCharacter`
 * and the interval/timer pair kept by `autorestartinterval` and
 * `autorestarttimer`.
 */
module Helpers {
  import opened Wrappers
  import opened Text
  import Duration

  // ---------------------------------------------------------------------------
  // int.TryParse
  // ---------------------------------------------------------------------------

  /** The white space `int.TryParse` accepts before and after the number:
      U+0009 to U+000D and the space, a narrower set than `char.IsWhiteSpace`. */
  predicate IsIntegerSpace(c: char) {
    9 <= c as int <= 13 || c == ' '
  }

  function TrimIntegerSpaceStart(s: string): (r: string)
    ensures |r| <= |s| && r == s[|s| - |r|..]
    ensures forall i :: 0 <= i < |s| - |r| ==> IsIntegerSpace(s[i])
    ensures r == [] || !IsIntegerSpace(r[0])
    decreases |s|
  {
    if s != [] && IsIntegerSpace(s[0]) then TrimIntegerSpaceStart(s[1..]) else s
  }

  function TrimIntegerSpaceEnd(s: string): (r: string)
    ensures |r| <= |s| && r == s[..|r|]
    ensures forall i :: |r| <= i < |s| ==> IsIntegerSpace(s[i])
    ensures r == [] || !IsIntegerSpace(r[|r| - 1])
    decreases |s|
  {
    if s != [] && IsIntegerSpace(s[|s| - 1]) then TrimIntegerSpaceEnd(s[..|s| - 1]) else s
  }

  /** The text between the white space `int.TryParse` skips: an infix of `s`
      obtained by removing only that white space from both ends. */
  function TrimIntegerSpace(s: string): (r: string)
    ensures var lo := |s| - |TrimIntegerSpaceStart(s)|;
            lo + |r| <= |s| && r == s[lo..lo + |r|]
            && (forall i :: 0 <= i < lo ==> IsIntegerSpace(s[i]))
            && (forall i :: lo + |r| <= i < |s| ==> IsIntegerSpace(s[i]))
    ensures r == [] || (!IsIntegerSpace(r[0]) && !IsIntegerSpace(r[|r| - 1]))
  {
    var t := TrimIntegerSpaceStart(s);
    var r := TrimIntegerSpaceEnd(t);
    var lo := |s| - |t|;
    assert r == s[lo..lo + |r|];
    r
  }

  lemma IntegerSpaceTrimmed(s: string)
    requires s != [] && !IsIntegerSpace(s[0]) && !IsIntegerSpace(s[|s| - 1])
    ensures TrimIntegerSpace(s) == s
  {
    assert TrimIntegerSpaceStart(s) == s;
  }

  /** The text before a run of NUL characters at the very end, which
      `int.TryParse` accepts after the number and its trailing white space. */
  function DropTrailingNuls(s: string): (r: string)
    ensures |r| <= |s| && r == s[..|r|]
    ensures forall i :: |r| <= i < |s| ==> s[i] == '\0'
    ensures r == [] || r[|r| - 1] != '\0'
    decreases |s|
  {
    if s != [] && s[|s| - 1] == '\0' then DropTrailingNuls(s[..|s| - 1]) else s
  }

  /** `int.TryParse` with the default integer style: white space around, an
      optional sign, decimal digits, a value in the 32-bit range, and nothing
      after but NUL characters. */
  function ParseInt32(s: string): (r: Option<int>)
    ensures r.Some? ==> IntMin <= r.value <= IntMax
  {
    ParseSigned(TrimIntegerSpace(DropTrailingNuls(s)))
  }

  /** The number itself: an optional sign and decimal digits, in range. */
  function ParseSigned(t: string): (r: Option<int>)
    ensures r.Some? ==> IntMin <= r.value <= IntMax
  {
    var signed := |t| > 0 && (t[0] == '-' || t[0] == '+');
    var digits := if signed then t[1..] else t;
    if digits == [] || !Duration.AllDigits(digits) then None
    else
      var v: int := if signed && t[0] == '-' then -(Duration.DecimalValue(digits) as int) else Duration.DecimalValue(digits);
      if IntMin <= v <= IntMax then Some(v) else None
  }

  /** A character that is neither a digit, a sign nor the white space
      `int.TryParse` skips makes the parse fail wherever it stands, unless it
      is a NUL with only NULs after it; among them are the no-break space
      U+00A0 and every other white space outside U+0009 to U+000D and U+0020. */
  lemma ParseInt32RejectsStray(s: string, i: nat)
    requires i < |s| && !IsDigit(s[i]) && s[i] != '-' && s[i] != '+' && !IsIntegerSpace(s[i])
    requires s[i] != '\0' || exists j :: i < j < |s| && s[j] != '\0'
    ensures ParseInt32(s) == None
  {
    var u := DropTrailingNuls(s);
    assert i < |u|;
    assert u[i] == s[i];
    var t := TrimIntegerSpace(u);
    var lo := |u| - |TrimIntegerSpaceStart(u)|;
    assert lo <= i < lo + |t|;
    var signed := |t| > 0 && (t[0] == '-' || t[0] == '+');
    var digits := if signed then t[1..] else t;
    assert t[i - lo] == s[i];
    if signed {
      assert i - lo > 0;
      assert digits[i - lo - 1] == s[i];
    } else {
      assert digits[i - lo] == s[i];
    }
  }

  /** Text with nothing to trim is parsed as it stands. */
  lemma Untrimmed(s: string)
    requires s != [] && !IsIntegerSpace(s[0]) && !IsIntegerSpace(s[|s| - 1]) && s[|s| - 1] != '\0'
    ensures ParseInt32(s) == ParseSigned(s)
  {
    assert DropTrailingNuls(s) == s;
    IntegerSpaceTrimmed(s);
  }

  lemma {:induction false} DropTrailingNulsAppend(s: string, nuls: string)
    requires forall k :: 0 <= k < |nuls| ==> nuls[k] == '\0'
    ensures DropTrailingNuls(s + nuls) == DropTrailingNuls(s)
    decreases |nuls|
  {
    if nuls == [] {
      assert s + nuls == s;
    } else {
      var shorter := nuls[..|nuls| - 1];
      assert (s + nuls)[..|s + nuls| - 1] == s + shorter;
      DropTrailingNulsAppend(s, shorter);
    }
  }

  /** NUL characters after the text change nothing: the number written in
      decimal and followed by any number of NULs still parses to itself. */
  lemma TrailingNulsIgnored(s: string, nuls: string, n: nat)
    requires forall k :: 0 <= k < |nuls| ==> nuls[k] == '\0'
    requires n <= IntMax
    ensures ParseInt32(s + nuls) == ParseInt32(s)
    ensures ParseInt32(Decimal(n) + nuls) == Some(n)
  {
    DropTrailingNulsAppend(s, nuls);
    DropTrailingNulsAppend(Decimal(n), nuls);
    ParseInt32RoundTrip(n);
  }

  /** Two concrete cases: a leading no-break space is rejected, a leading tab
      is skipped. */
  lemma NoBreakSpaceRejected(s: string, tabbed: string)
    requires s == "\U{00A0}5" && tabbed == "\t5"
    ensures ParseInt32(s) == None
    ensures ParseInt32(tabbed) == Some(5)
  {
    ParseInt32RejectsStray(s, 0);
    TabSkipped(tabbed);
  }

  lemma TabSkipped(tabbed: string)
    requires tabbed == "\t5"
    ensures ParseInt32(tabbed) == Some(5)
  {
    var five := tabbed[1..];
    assert DropTrailingNuls(tabbed) == tabbed;
    assert TrimIntegerSpace(tabbed) == five by {
      assert TrimIntegerSpaceStart(tabbed) == five;
      assert TrimIntegerSpaceEnd(five) == five;
    }
    assert ParseSigned(five) == Some(5) by {
      assert five == [tabbed[1]] && five[..0] == [];
      assert Duration.DecimalValue(five) == 5;
    }
  }

  function DigitChar(d: nat): (c: char)
    requires d < 10
    ensures IsDigit(c) && DigitValue(c) == d
  {
    ('0' as int + d) as char
  }

  /** `n.ToString()` for a non-negative `n`. */
  function Decimal(n: nat): (r: string)
    ensures r != [] && Duration.AllDigits(r)
    decreases n
  {
    if n < 10 then [DigitChar(n)] else Decimal(n / 10) + [DigitChar(n % 10)]
  }

  lemma {:induction false} DecimalValueOfDecimal(n: nat)
    ensures Duration.DecimalValue(Decimal(n)) == n
    decreases n
  {
    if n >= 10 {
      DecimalValueOfDecimal(n / 10);
      var r := Decimal(n);
      assert r[..|r| - 1] == Decimal(n / 10);
    }
  }

  /** Every 32-bit integer written in decimal parses back to itself. */
  lemma ParseInt32RoundTrip(n: int)
    requires IntMin <= n <= IntMax
    ensures n >= 0 ==> ParseInt32(Decimal(n)) == Some(n)
    ensures n < 0 ==> ParseInt32("-" + Decimal(-n)) == Some(n)
  {
    if n >= 0 {
      var s := Decimal(n);
      DecimalValueOfDecimal(n);
      Untrimmed(s);
    } else {
      var d := Decimal(-n);
      var s := "-" + d;
      DecimalValueOfDecimal(-n);
      assert s[|s| - 1] == d[|d| - 1];
      Untrimmed(s);
      assert s[1..] == d;
    }
  }

  // ---------------------------------------------------------------------------
  // setclientcharacter [client] ; [character]
  // ---------------------------------------------------------------------------

  /** `Array.IndexOf(args, x)`: the first position of `x`, or -1. */
  function IndexOf(args: seq<string>, x: string): (r: int)
    ensures -1 <= r < |args|
    ensures r >= 0 ==> args[r] == x && forall j :: 0 <= j < r ==> args[j] != x
    ensures r == -1 ==> x !in args
    decreases |args|
  {
    if args == [] then -1
    else if args[0] == x then 0
    else
      var r := IndexOf(args[1..], x);
      if r == -1 then -1 else r + 1
  }

  datatype Assignment = Assignment(clientName: string, characterArgs: seq<string>)

  /** The argument split of `setclientcharacter`: `None` when there is no ";"
      argument or fewer than three arguments; otherwise the arguments before
      the first ";" joined with spaces, and the arguments after it. */
  function SplitAssignment(args: seq<string>): (r: Option<Assignment>)
    ensures r.None? <==> ";" !in args || |args| < 3
  {
    var separatorIndex := IndexOf(args, ";");
    if separatorIndex == -1 || |args| < 3 then None
    else Some(Assignment(Join(args[..separatorIndex], ' '), args[separatorIndex + 1..]))
  }

  /** The split loses nothing: the arguments are the left part, the first ";"
      and the character arguments; the left part holds no ";" and, when its
      words hold no space, splitting the client name on spaces gives them back. */
  lemma SplitAssignmentReassembles(args: seq<string>)
    requires SplitAssignment(args).Some?
    ensures var a := SplitAssignment(args).value;
            var left := args[..IndexOf(args, ";")];
            && args == left + [";"] + a.characterArgs
            && ";" !in left
            && a.clientName == Join(left, ' ')
            && ((left != [] && forall k :: 0 <= k < |left| ==> left[k] != [] && ' ' !in left[k])
                ==> SplitOn(a.clientName, ' ') == left)
  {
    var i := IndexOf(args, ";");
    var left := args[..i];
    assert args == left + [";"] + args[i + 1..];
    if left != [] && forall k :: 0 <= k < |left| ==> left[k] != [] && ' ' !in left[k] {
      SplitOnJoin(left, ' ');
    }
  }

  // ---------------------------------------------------------------------------
  // FindMatchingCharacter
  // ---------------------------------------------------------------------------

  datatype CharacterEntry = CharacterEntry(name: string, isRemotePlayer: bool)

  /** The name to look for and the requested index; -1 stands for none. */
  datatype Query = Query(name: string, index: int)

  /** How a lookup ends: no arguments (null); no character of that name (a red
      notice, null); a character, `ambiguous` when a notice listing the
      index range is logged; or an index outside the matches (an error, null). */
  datatype Match =
    | NoArguments
    | NotFound(name: string)
    | Found(index: nat, ambiguous: bool)
    | OutOfRange(count: nat)

  predicate Eligible(c: CharacterEntry, name: string, ignoreRemotePlayers: bool) {
    (!ignoreRemotePlayers || !c.isRemotePlayer) && ToLower(c.name) == name
  }

  /** `Character.CharacterList.FindAll(...)`, as positions in the list. */
  function Matches(characters: seq<CharacterEntry>, name: string, ignoreRemotePlayers: bool): (r: seq<nat>)
    ensures forall k :: 0 <= k < |r| ==> r[k] < |characters| && Eligible(characters[r[k]], name, ignoreRemotePlayers)
    ensures forall i :: 0 <= i < |characters| && Eligible(characters[i], name, ignoreRemotePlayers) ==> i in r
    ensures forall k, l :: 0 <= k < l < |r| ==> r[k] < r[l]
    decreases |characters|
  {
    if characters == [] then []
    else
      var init := characters[..|characters| - 1];
      var r := Matches(init, name, ignoreRemotePlayers);
      assert forall i :: 0 <= i < |init| ==> init[i] == characters[i];
      if Eligible(characters[|characters| - 1], name, ignoreRemotePlayers) then r + [|characters| - 1] else r
  }

  /** The trailing-index rule: a last argument that parses as an integer, with
      at least one argument before it, is the index and the rest is the name;
      otherwise every argument is the name and the index is -1. */
  function CharacterQuery(args: seq<string>): (q: Query)
    requires args != []
  {
    var last := ParseInt32(args[|args| - 1]);
    if last.Some? && |args| > 1 then Query(ToLower(Join(args[..|args| - 1], ' ')), last.value)
    else Query(ToLower(Join(args, ' ')), -1)
  }

  /** `FindMatchingCharacter`, as written: -1 doubles as "no index". */
  function FindMatchingCharacter(args: seq<string>, characters: seq<CharacterEntry>, ignoreRemotePlayers: bool): (r: Match)
    ensures r.Found? ==> args != [] && r.index < |characters|
                         && Eligible(characters[r.index], CharacterQuery(args).name, ignoreRemotePlayers)
    ensures r.NotFound? ==> forall i :: 0 <= i < |characters| ==> !Eligible(characters[i], r.name, ignoreRemotePlayers)
    ensures r.NoArguments? <==> args == []
    ensures args != [] ==>
              var q := CharacterQuery(args);
              var ms := Matches(characters, q.name, ignoreRemotePlayers);
              && (ms == [] <==> r.NotFound?)
              && (ms != [] && q.index == -1 ==> r == Found(ms[0], |ms| > 1))
              && (ms != [] && 0 <= q.index < |ms| ==> r == Found(ms[q.index], false))
              && (ms != [] && q.index != -1 && (q.index < 0 || q.index >= |ms|) ==> r == OutOfRange(|ms|))
  {
    if args == [] then NoArguments
    else
      var q := CharacterQuery(args);
      var ms := Matches(characters, q.name, ignoreRemotePlayers);
      if ms == [] then NotFound(q.name)
      else if q.index == -1 then Found(ms[0], |ms| > 1)
      else if q.index < 0 || q.index >= |ms| then OutOfRange(|ms|)
      else Found(ms[q.index], false)
  }

  /** Without a trailing index the lookup returns the first eligible
      character, flagged ambiguous exactly when another one is eligible too. */
  lemma NoIndexPicksFirst(args: seq<string>, characters: seq<CharacterEntry>, ignoreRemotePlayers: bool)
    requires args != [] && CharacterQuery(args).index == -1
    ensures var name := CharacterQuery(args).name;
            var r := FindMatchingCharacter(args, characters, ignoreRemotePlayers);
            && (r.NotFound? || r.Found?)
            && (r.Found? ==> forall i :: 0 <= i < r.index ==> !Eligible(characters[i], name, ignoreRemotePlayers))
            && (r.Found? ==> (r.ambiguous <==> exists j :: 0 <= j < |characters| && j != r.index
                                                          && Eligible(characters[j], name, ignoreRemotePlayers)))
  {
    var name := CharacterQuery(args).name;
    var ms := Matches(characters, name, ignoreRemotePlayers);
    if ms != [] {
      forall i | 0 <= i < |characters| && Eligible(characters[i], name, ignoreRemotePlayers) ensures ms[0] <= i {
        var k :| 0 <= k < |ms| && ms[k] == i;
        if k > 0 {
          assert ms[0] < ms[k];
        }
      }
      if |ms| > 1 {
        assert ms[1] != ms[0] && Eligible(characters[ms[1]], name, ignoreRemotePlayers);
      }
      if exists j :: 0 <= j < |characters| && j != ms[0] && Eligible(characters[j], name, ignoreRemotePlayers) {
        var j :| 0 <= j < |characters| && j != ms[0] && Eligible(characters[j], name, ignoreRemotePlayers);
        assert j in ms;
        var k :| 0 <= k < |ms| && ms[k] == j;
        assert k != 0;
      }
    }
  }

  /** The same lookup with "no index" kept apart from every parsed index, so
      that an index of -1 is rejected like every other negative index. */
  function FindMatchingCharacterIntended(args: seq<string>, characters: seq<CharacterEntry>, ignoreRemotePlayers: bool): (r: Match)
    ensures r.Found? ==> r.index < |characters|
  {
    if args == [] then NoArguments
    else
      var last := ParseInt32(args[|args| - 1]);
      var hasIndex := last.Some? && |args| > 1;
      var name := CharacterQuery(args).name;
      var ms := Matches(characters, name, ignoreRemotePlayers);
      if ms == [] then NotFound(name)
      else if !hasIndex then Found(ms[0], |ms| > 1)
      else if last.value < 0 || last.value >= |ms| then OutOfRange(|ms|)
      else Found(ms[last.value], false)
  }

  /** With the intended rule an explicit index selects exactly the match at
      that position, and any index outside the matches is refused. */
  lemma TrailingIndexSelects(args: seq<string>, characters: seq<CharacterEntry>, ignoreRemotePlayers: bool)
    requires |args| > 1 && ParseInt32(args[|args| - 1]).Some?
    ensures var k := ParseInt32(args[|args| - 1]).value;
            var ms := Matches(characters, ToLower(Join(args[..|args| - 1], ' ')), ignoreRemotePlayers);
            var r := FindMatchingCharacterIntended(args, characters, ignoreRemotePlayers);
            ms != [] ==>
              && (0 <= k < |ms| ==> r == Found(ms[k], false))
              && (k < 0 || k >= |ms| <==> r.OutOfRange?)
  {
  }

  /** The two rules differ only on an index of -1. */
  lemma IntendedAgreesExceptMinusOne(args: seq<string>, characters: seq<CharacterEntry>, ignoreRemotePlayers: bool)
    requires args != [] && CharacterQuery(args).index != -1
    ensures FindMatchingCharacterIntended(args, characters, ignoreRemotePlayers)
            == FindMatchingCharacter(args, characters, ignoreRemotePlayers)
  {
  }

  lemma MinusOneParses(s: string)
    requires s == "-1"
    ensures ParseInt32(s) == Some(-1)
  {
    Untrimmed(s);
    var digits := s[1..];
    assert digits == [s[1]] && digits[..0] == [];
    assert Duration.DecimalValue(digits) == 1;
  }

  lemma TwoEligibleMatch(characters: seq<CharacterEntry>, name: string)
    requires |characters| == 2
    requires Eligible(characters[0], name, false) && Eligible(characters[1], name, false)
    ensures Matches(characters, name, false) == [0, 1]
  {
    OneEligibleMatch(characters[..1], name);
  }

  lemma OneEligibleMatch(characters: seq<CharacterEntry>, name: string)
    requires |characters| == 1 && Eligible(characters[0], name, false)
    ensures Matches(characters, name, false) == [0]
  {
    assert characters[..0] == [];
  }

  lemma LowerBob(upper: string, lower: string)
    requires upper == "Bob" && lower == "bob"
    ensures ToLower(upper) == lower && ToLower(lower) == lower
  {
    assert ToLower(upper)[0] == lower[0];
  }

  lemma TwoBobsQuery(args: seq<string>, characters: seq<CharacterEntry>)
    requires args == ["bob", "-1"]
    requires characters == [CharacterEntry("Bob", false), CharacterEntry("Bob", false)]
    ensures ParseInt32(args[1]) == Some(-1)
    ensures CharacterQuery(args) == Query(args[0], -1)
    ensures Matches(characters, args[0], false) == [0, 1]
  {
    MinusOneParses(args[1]);
    LowerBob(characters[0].name, args[0]);
    assert args[..1] == [args[0]];
    TwoEligibleMatch(characters, args[0]);
  }

  /** As written, "bob -1" with two characters named Bob returns the first
      one, flagged ambiguous, where every other negative index is refused. */
  lemma MinusOneSelectsFirst(args: seq<string>, characters: seq<CharacterEntry>)
    requires args == ["bob", "-1"]
    requires characters == [CharacterEntry("Bob", false), CharacterEntry("Bob", false)]
    ensures FindMatchingCharacter(args, characters, false) == Found(0, true)
    ensures FindMatchingCharacterIntended(args, characters, false) == OutOfRange(2)
  {
    TwoBobsQuery(args, characters);
  }

  // ---------------------------------------------------------------------------
  // autorestartinterval / autorestarttimer
  // ---------------------------------------------------------------------------

  /** The server's `AutoRestart`, `AutoRestartInterval` and `AutoRestartTimer`. */
  datatype AutoRestart = AutoRestart(enabled: bool, interval: int, timer: int)

  /** `autorestartinterval [seconds]`: a non-negative value enables the restart,
      sets the interval and lowers the timer to it; a negative one disables it. */
  function SetInterval(s: AutoRestart, args: seq<string>, serverRunning: bool): AutoRestart {
    if !serverRunning || args == [] then s
    else match ParseInt32(args[0])
      case None => s
      case Some(v) =>
        if v >= 0 then AutoRestart(true, v, if s.timer >= v then v else s.timer)
        else s.(enabled := false)
  }

  /** `autorestarttimer [seconds]`: a non-negative value enables the restart,
      sets the timer and raises the interval to it; a negative one disables it. */
  function SetTimer(s: AutoRestart, args: seq<string>, serverRunning: bool): AutoRestart {
    if !serverRunning || args == [] then s
    else match ParseInt32(args[0])
      case None => s
      case Some(v) =>
        if v >= 0 then AutoRestart(true, if s.interval <= v then v else s.interval, v)
        else s.(enabled := false)
  }

  /** After either command with a non-negative argument the restart is on, the
      given value is stored, and the timer does not exceed the interval. */
  lemma AutoRestartSettingKeepsTimerWithinInterval(s: AutoRestart, args: seq<string>)
    requires args != [] && ParseInt32(args[0]).Some? && ParseInt32(args[0]).value >= 0
    ensures var v := ParseInt32(args[0]).value;
            var i := SetInterval(s, args, true);
            var t := SetTimer(s, args, true);
            && i.enabled && i.interval == v && i.timer <= i.interval
            && (s.timer <= v ==> i.timer == s.timer)
            && t.enabled && t.timer == v && t.timer <= t.interval
            && (s.interval >= v ==> t.interval == s.interval)
  {
  }

  /** Both commands keep `timer <= interval` once it holds, and a negative
      argument only switches the restart off. */
  lemma AutoRestartInvariant(s: AutoRestart, args: seq<string>, serverRunning: bool)
    requires s.timer <= s.interval
    ensures SetInterval(s, args, serverRunning).timer <= SetInterval(s, args, serverRunning).interval
    ensures SetTimer(s, args, serverRunning).timer <= SetTimer(s, args, serverRunning).interval
    ensures serverRunning && args != [] && ParseInt32(args[0]).Some? && ParseInt32(args[0]).value < 0 ==>
              SetInterval(s, args, serverRunning) == s.(enabled := false)
              && SetTimer(s, args, serverRunning) == s.(enabled := false)
  {
  }
}
