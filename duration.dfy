/**
 * The ban-duration parser (`DebugConsole.TryParseTimeSpan`): digits
 * accumulate into a number, white space is skipped anywhere, and each of the
 * unit letters d, h, m and s adds the number read so far in that unit. The
 * span is modelled as a whole number of seconds.
 */
module Duration {
  import opened Wrappers
  import opened Text

  /** Seconds in the unit a letter names; 0 for a character that names none. */
  function UnitSeconds(c: char): nat {
    if c == 'd' then 86400
    else if c == 'h' then 3600
    else if c == 'm' then 60
    else if c == 's' then 1
    else 0
  }

  predicate AllDigits(s: string) {
    forall i :: 0 <= i < |s| ==> IsDigit(s[i])
  }

  /** The decimal value of a string of digits. */
  function DecimalValue(digits: string): nat
    requires AllDigits(digits)
    decreases |digits|
  {
    if digits == [] then 0
    else DecimalValue(digits[..|digits| - 1]) * 10 + DigitValue(digits[|digits| - 1])
  }

  /** `int.TryParse` applied to the accumulated digits: the empty string and
      values above `int.MaxValue` fail. */
  function ParseInt(digits: string): Option<nat>
    requires AllDigits(digits)
  {
    if digits == [] || DecimalValue(digits) > IntMax then None else Some(DecimalValue(digits))
  }

  /** The rest of the scan from the loop state (`currNum`, `timeSpan`). */
  function Run(currNum: string, total: int, s: string): Option<int>
    requires AllDigits(currNum)
    decreases |s|
  {
    if s == [] then Some(total)
    else if IsDigit(s[0]) then Run(currNum + [s[0]], total, s[1..])
    else if IsWhiteSpace(s[0]) then Run(currNum, total, s[1..])
    else match ParseInt(currNum)
      case None => None
      case Some(n) =>
        if UnitSeconds(s[0]) == 0 then None
        else Run([], total + n * UnitSeconds(s[0]), s[1..])
  }

  /** What `TryParseTimeSpan(s, out span)` decides: `None` for false,
      `Some(seconds)` for true. */
  function ParseDuration(s: string): Option<int> {
    if IsBlank(s) then None else Run([], 0, s)
  }

  method TryParseTimeSpan(s: string) returns (span: Option<int>)
    ensures span == ParseDuration(s)
  {
    if IsBlank(s) {
      return None;
    }
    var currNum: string := [];
    var total := 0;
    for i := 0 to |s|
      invariant AllDigits(currNum)
      invariant Run(currNum, total, s[i..]) == Run([], 0, s)
    {
      assert s[i..][0] == s[i] && s[i..][1..] == s[i + 1..];
      var c := s[i];
      if IsDigit(c) {
        currNum := currNum + [c];
      } else if IsWhiteSpace(c) {
        continue;
      } else {
        if currNum == [] || DecimalValue(currNum) > IntMax {
          return None;
        }
        var parsedNum := DecimalValue(currNum);
        if c == 'd' {
          total := total + parsedNum * 86400;
        } else if c == 'h' {
          total := total + parsedNum * 3600;
        } else if c == 'm' {
          total := total + parsedNum * 60;
        } else if c == 's' {
          total := total + parsedNum;
        } else {
          return None;
        }
        currNum := [];
      }
    }
    assert s[|s|..] == [];
    span := Some(total);
  }

  // ---------------------------------------------------------------------------
  // An independent description: the grammar (digits unit)* digits* over the
  // text with its white space removed, valued as the sum of number * unit.

  function StripWhiteSpace(s: string): (r: string)
    ensures forall i :: 0 <= i < |r| ==> !IsWhiteSpace(r[i])
    decreases |s|
  {
    if s == [] then []
    else (if IsWhiteSpace(s[0]) then [] else [s[0]]) + StripWhiteSpace(s[1..])
  }

  /** Length of the run of digits that starts `t`. */
  function LeadingDigits(t: string): (k: nat)
    ensures k <= |t| && AllDigits(t[..k]) && (k < |t| ==> !IsDigit(t[k]))
    ensures forall i :: 0 <= i < k ==> IsDigit(t[i])
    decreases |t|
  {
    if t != [] && IsDigit(t[0]) then
      var k := 1 + LeadingDigits(t[1..]);
      assert t[..k] == [t[0]] + t[1..][..k - 1];
      k
    else 0
  }

  /** The value of a white-space-free duration: each number followed by a
      unit letter contributes number * unit; digits at the very end count for
      nothing; a unit letter without digits, any other character, or a number
      above `int.MaxValue` is a failure. */
  function Groups(t: string): (r: Option<int>)
    ensures r.Some? ==> r.value >= 0
    decreases |t|
  {
    var k := LeadingDigits(t);
    if k == |t| then Some(0)
    else if k == 0 || UnitSeconds(t[k]) == 0 || DecimalValue(t[..k]) > IntMax then None
    else match Groups(t[k + 1..])
      case None => None
      case Some(rest) => Some(DecimalValue(t[..k]) * UnitSeconds(t[k]) + rest)
  }

  function Shift(r: Option<int>, offset: int): Option<int> {
    if r.Some? then Some(r.value + offset) else None
  }

  lemma {:induction false} RunSkipsWhiteSpace(currNum: string, total: int, s: string)
    requires AllDigits(currNum)
    ensures Run(currNum, total, s) == Run(currNum, total, StripWhiteSpace(s))
    decreases |s|
  {
    if s != [] {
      var rest := StripWhiteSpace(s[1..]);
      if IsWhiteSpace(s[0]) {
        assert StripWhiteSpace(s) == [] + rest;
        assert [] + rest == rest;
        RunSkipsWhiteSpace(currNum, total, s[1..]);
      } else {
        var t := [s[0]] + rest;
        assert StripWhiteSpace(s) == t && t[0] == s[0] && t[1..] == rest;
        if IsDigit(s[0]) {
          RunSkipsWhiteSpace(currNum + [s[0]], total, s[1..]);
        } else {
          RunSkipsWhiteSpace([], total, s[1..]);
          if ParseInt(currNum).Some? && UnitSeconds(s[0]) != 0 {
            RunSkipsWhiteSpace([], total + ParseInt(currNum).value * UnitSeconds(s[0]), s[1..]);
          }
        }
      }
    }
  }

  lemma LeadingDigitsAfterNumber(digits: string, t: string)
    requires AllDigits(digits) && (t == [] || !IsDigit(t[0]))
    ensures LeadingDigits(digits + t) == |digits|
    decreases |digits|
  {
    if digits != [] {
      assert (digits + t)[1..] == digits[1..] + t;
      LeadingDigitsAfterNumber(digits[1..], t);
    } else {
      assert digits + t == t;
    }
  }

  lemma {:induction false} RunMatchesGroups(currNum: string, total: int, t: string)
    requires AllDigits(currNum)
    requires forall i :: 0 <= i < |t| ==> !IsWhiteSpace(t[i])
    ensures Run(currNum, total, t) == Shift(Groups(currNum + t), total)
    decreases |t|, 3
  {
    if t == [] {
      assert currNum + t == currNum;
      LeadingDigitsAfterNumber(currNum, t);
    } else if IsDigit(t[0]) {
      DigitStep(currNum, total, t);
    } else {
      UnitStep(currNum, total, t);
    }
  }

  lemma {:induction false} DigitStep(currNum: string, total: int, t: string)
    requires AllDigits(currNum) && t != [] && IsDigit(t[0])
    requires forall i :: 0 <= i < |t| ==> !IsWhiteSpace(t[i])
    ensures Run(currNum, total, t) == Shift(Groups(currNum + t), total)
    decreases |t|, 2
  {
    var longer := currNum + [t[0]];
    assert AllDigits(longer) by {
      forall i | 0 <= i < |longer| ensures IsDigit(longer[i]) {
        if i < |currNum| { assert longer[i] == currNum[i]; }
      }
    }
    assert currNum + t == longer + t[1..];
    assert Run(currNum, total, t) == Run(longer, total, t[1..]);
    RunMatchesGroups(longer, total, t[1..]);
  }

  lemma {:induction false} UnitStep(currNum: string, total: int, t: string)
    requires AllDigits(currNum) && t != [] && !IsDigit(t[0])
    requires forall i :: 0 <= i < |t| ==> !IsWhiteSpace(t[i])
    ensures Run(currNum, total, t) == Shift(Groups(currNum + t), total)
    decreases |t|, 2
  {
    if ParseInt(currNum).None? || UnitSeconds(t[0]) == 0 {
      GroupAfterNumber(currNum, t);
    } else {
      UnitAdds(currNum, total, t);
    }
  }

  lemma {:induction false} UnitAdds(currNum: string, total: int, t: string)
    requires AllDigits(currNum) && t != [] && !IsDigit(t[0])
    requires ParseInt(currNum).Some? && UnitSeconds(t[0]) != 0
    requires forall i :: 0 <= i < |t| ==> !IsWhiteSpace(t[i])
    ensures Run(currNum, total, t) == Shift(Groups(currNum + t), total)
    decreases |t|, 1
  {
    var step := UnitScan(currNum, total, t);
    RestMatchesGroups(total + step, t);
    GroupAfterNumber(currNum, t);
    ShiftTwice(Run(currNum, total, t), Groups(currNum + t), Groups(t[1..]), step, total);
  }

  lemma {:induction false} RestMatchesGroups(total: int, t: string)
    requires t != []
    requires forall i :: 0 <= i < |t| ==> !IsWhiteSpace(t[i])
    ensures Run([], total, t[1..]) == Shift(Groups(t[1..]), total)
    decreases |t|, 0
  {
    var rest := t[1..];
    assert [] + rest == rest;
    RunMatchesGroups([], total, rest);
  }

  lemma ShiftTwice(scanned: Option<int>, grouped: Option<int>, g: Option<int>, step: int, total: int)
    requires scanned == Shift(g, total + step) && grouped == Shift(g, step)
    ensures scanned == Shift(grouped, total)
  {
  }

  /** A unit letter after a valid number: the scan adds number × unit and
      goes on with an empty number. */
  lemma UnitScan(currNum: string, total: int, t: string) returns (step: int)
    requires AllDigits(currNum) && t != [] && !IsDigit(t[0]) && !IsWhiteSpace(t[0])
    requires ParseInt(currNum).Some? && UnitSeconds(t[0]) != 0
    ensures step == DecimalValue(currNum) * UnitSeconds(t[0])
    ensures Run(currNum, total, t) == Run([], total + step, t[1..])
  {
    step := DecimalValue(currNum) * UnitSeconds(t[0]);
  }

  /** When the character after the digits read so far is not a digit, the
      grammar's first group ends there. */
  lemma GroupAfterNumber(currNum: string, t: string)
    requires AllDigits(currNum) && t != [] && !IsDigit(t[0])
    ensures currNum == [] || UnitSeconds(t[0]) == 0 || DecimalValue(currNum) > IntMax ==>
              Groups(currNum + t) == None
    ensures currNum != [] && UnitSeconds(t[0]) != 0 && DecimalValue(currNum) <= IntMax ==>
              Groups(currNum + t) == Shift(Groups(t[1..]), DecimalValue(currNum) * UnitSeconds(t[0]))
  {
    LeadingDigitsAfterNumber(currNum, t);
    var u := currNum + t;
    var k := |currNum|;
    assert u[k] == t[0] && u[..k] == currNum && u[k + 1..] == t[1..];
  }

  /** The parser agrees with the grammar: blank text fails, anything else is
      valued as its white-space-free form. */
  lemma DurationGrammar(s: string)
    ensures ParseDuration(s) == if IsBlank(s) then None else Groups(StripWhiteSpace(s))
  {
    if !IsBlank(s) {
      RunSkipsWhiteSpace([], 0, s);
      RunMatchesGroups([], 0, StripWhiteSpace(s));
      assert [] + StripWhiteSpace(s) == StripWhiteSpace(s);
    }
  }

  /** A unit letter with no digits right before it is a failure, wherever it
      stands: at the start, or after another unit letter as the `h` of
      "2d h" does once the white space is gone. */
  lemma {:induction false} UnitWithoutNumberFails(t: string, i: nat)
    requires i < |t| && UnitSeconds(t[i]) != 0 && (i == 0 || !IsDigit(t[i - 1]))
    ensures Groups(t) == None
    decreases |t|
  {
    var k := LeadingDigits(t);
    if k < |t| && k != 0 && UnitSeconds(t[k]) != 0 && DecimalValue(t[..k]) <= IntMax {
      assert i != k && i > k;
      UnitWithoutNumberFails(t[k + 1..], i - k - 1);
    }
  }

  /** Any character other than a digit, white space or a unit letter fails. */
  lemma {:induction false} StrayCharacterFails(t: string, i: nat)
    requires i < |t| && !IsDigit(t[i]) && !IsWhiteSpace(t[i]) && UnitSeconds(t[i]) == 0
    ensures Groups(t) == None
    decreases |t|
  {
    var k := LeadingDigits(t);
    if k < |t| && k != 0 && UnitSeconds(t[k]) != 0 && DecimalValue(t[..k]) <= IntMax {
      assert i != k && i > k;
      StrayCharacterFails(t[k + 1..], i - k - 1);
    }
  }

  /** Digits with no unit after the last group are ignored. */
  lemma {:induction false} TrailingDigitsIgnored(t: string, digits: string)
    requires t == [] || UnitSeconds(t[|t| - 1]) != 0
    requires AllDigits(digits)
    ensures Groups(t + digits) == Groups(t)
    decreases |t|
  {
    if t == [] {
      assert t + digits == digits;
      LeadingDigitsAfterNumber(digits, []);
      assert digits + [] == digits;
    } else {
      var k := LeadingDigits(t);
      assert !IsDigit(t[|t| - 1]);
      var num := t[..k];
      var unit := t[k..];
      var longer := unit + digits;
      assert t == num + unit;
      assert t + digits == num + longer;
      assert longer[0] == unit[0] && longer[1..] == unit[1..] + digits;
      GroupAfterNumber(num, unit);
      GroupAfterNumber(num, longer);
      assert unit[1..] == [] || unit[1..][|unit[1..]| - 1] == t[|t| - 1];
      TrailingDigitsIgnored(unit[1..], digits);
    }
  }

  // ---------------------------------------------------------------------------
  // The inputs the ban prompts document.

  lemma TwoDaysThreeHours(s: string)
    requires s == "2d 3h"
    ensures ParseDuration(s) == Some(2 * 86400 + 3 * 3600)
  {
    assert !IsWhiteSpace(s[0]);
    assert [s[0]][..0] == [] && [s[3]][..0] == [];
    assert DigitValue(s[0]) == 2 && DigitValue(s[3]) == 3;
    assert DecimalValue([s[0]]) == 2 && DecimalValue([s[3]]) == 3;
    assert Run([], 0, s) == Run([s[0]], 0, s[1..]);
    assert Run([s[0]], 0, s[1..]) == Run([], 2 * 86400, s[2..]);
    assert Run([], 2 * 86400, s[2..]) == Run([], 2 * 86400, s[3..]);
    assert Run([], 2 * 86400, s[3..]) == Run([s[3]], 2 * 86400, s[4..]);
    assert Run([s[3]], 2 * 86400, s[4..]) == Run([], 2 * 86400 + 3 * 3600, s[5..]);
  }

  lemma UnknownUnitFails()
    ensures ParseDuration("10x") == None
  {
  }

  lemma EmptyFails()
    ensures ParseDuration("") == None
  {
  }
}
