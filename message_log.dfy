/**
 * The console's message log (`DebugConsole.Messages`, `NewMessage`) as the
 * server build keeps it: a list of coloured lines capped at `MaxMessages`,
 * oldest evicted first, plus the cursor arithmetic of `SelectMessage`.
 */
module MessageLog {

  /** The colours the console core itself uses. */
  datatype Color = White | Red | Cyan | Gray | LightGray

  /** `ColoredText` without its creation time stamp. */
  datatype ColoredText = ColoredText(text: string, color: Color)

  const MaxMessages: nat := 200

  /** The most recent `MaxMessages` entries, oldest first. */
  function Window(history: seq<ColoredText>): (r: seq<ColoredText>)
    ensures |r| <= MaxMessages
  {
    if |history| > MaxMessages then history[|history| - MaxMessages..] else history
  }

  /** `NewMessage` on the server: empty text is ignored; otherwise the entry
      is appended and the head of the list dropped down to `MaxMessages`. */
  function Append(log: seq<ColoredText>, msg: string, color: Color): (r: seq<ColoredText>)
  {
    if msg == [] then log else Window(log + [ColoredText(msg, color)])
  }

  /** One call of `NewMessage` on a log within its bound: the log grows by the
      new entry, if any, and keeps only its most recent `MaxMessages`. */
  lemma AppendIsWindow(log: seq<ColoredText>, msg: string, color: Color)
    requires |log| <= MaxMessages
    ensures Append(log, msg, color) == Window(log + Entries([(msg, color)]))
    ensures |Append(log, msg, color)| <= MaxMessages
    ensures msg != [] ==> Append(log, msg, color)[|Append(log, msg, color)| - 1] == ColoredText(msg, color)
  {
    var one := [(msg, color)];
    assert one[1..] == [];
    if msg == [] {
      assert Entries(one) == [];
      assert log + [] == log;
    } else {
      assert Entries(one) == [ColoredText(msg, color)];
    }
  }

  /** The entries that a sequence of `NewMessage` calls would log: the calls
      with empty text are dropped. */
  function Entries(calls: seq<(string, Color)>): seq<ColoredText>
    decreases |calls|
  {
    if calls == [] then []
    else (if calls[0].0 == [] then [] else [ColoredText(calls[0].0, calls[0].1)]) + Entries(calls[1..])
  }

  /** The log after a sequence of `NewMessage` calls. */
  function AppendAll(log: seq<ColoredText>, calls: seq<(string, Color)>): seq<ColoredText>
    decreases |calls|
  {
    if calls == [] then log else AppendAll(Append(log, calls[0].0, calls[0].1), calls[1..])
  }

  lemma WindowOfWindow(history: seq<ColoredText>, more: seq<ColoredText>)
    ensures Window(Window(history) + more) == Window(history + more)
  {
    if |history| > MaxMessages {
      var k := |history| - MaxMessages;
      assert Window(history) + more == (history + more)[k..];
    }
  }

  lemma EntriesOfFirst(calls: seq<(string, Color)>)
    requires calls != []
    ensures Entries(calls) == Entries(calls[..1]) + Entries(calls[1..])
  {
    assert calls[..1][1..] == [];
    assert Entries(calls[..1]) == (if calls[0].0 == [] then [] else [ColoredText(calls[0].0, calls[0].1)]) + [];
  }

  /** Logging the first call alone is windowing its entries onto the log. */
  lemma AppendFirst(log: seq<ColoredText>, calls: seq<(string, Color)>)
    requires |log| <= MaxMessages && calls != []
    ensures Append(log, calls[0].0, calls[0].1) == Window(log + Entries(calls[..1]))
  {
    AppendIsWindow(log, calls[0].0, calls[0].1);
    assert calls[..1] == [(calls[0].0, calls[0].1)];
  }

  /** Windowing in two stages is windowing once. */
  lemma WindowTwice(log: seq<ColoredText>, first: seq<ColoredText>, rest: seq<ColoredText>,
                    all: seq<ColoredText>, next: seq<ColoredText>)
    requires next == Window(log + first) && all == first + rest
    ensures Window(next + rest) == Window(log + all)
  {
    WindowOfWindow(log + first, rest);
    assert log + first + rest == log + all;
  }

  /** However many messages are logged, the log holds exactly the most
      recent `MaxMessages` non-empty ones, oldest first. */
  lemma {:induction false} LogKeepsMostRecent(log: seq<ColoredText>, calls: seq<(string, Color)>)
    requires |log| <= MaxMessages
    ensures AppendAll(log, calls) == Window(log + Entries(calls))
    decreases |calls|
  {
    if calls == [] {
      assert log + [] == log;
    } else {
      var next := Append(log, calls[0].0, calls[0].1);
      AppendIsWindow(log, calls[0].0, calls[0].1);
      LogKeepsMostRecent(next, calls[1..]);
      AppendFirst(log, calls);
      EntriesOfFirst(calls);
      WindowTwice(log, Entries(calls[..1]), Entries(calls[1..]), Entries(calls), next);
    }
  }

  // ---------------------------------------------------------------------------
  // SelectMessage's cursor

  /** `MathHelper.Clamp(direction, -1, 1)` */
  function Clamp(direction: int): (d: int)
    ensures -1 <= d <= 1
    ensures -1 <= direction <= 1 ==> d == direction
    ensures direction > 1 ==> d == 1
    ensures direction < -1 ==> d == -1
  {
    if direction < -1 then -1 else if direction > 1 then 1 else direction
  }

  /** The entry `SelectMessage` moves to: one step in the clamped direction,
      wrapping below 0 to the last entry and past the last entry to 0. */
  function NextSelected(selected: int, direction: int, count: nat): (r: int)
    requires count > 0
    ensures 0 <= r < count
  {
    var moved := selected + Clamp(direction);
    var wrapped := if moved < 0 then count - 1 else moved;
    wrapped % count
  }

  /** Any step back from the first entry lands on the last, any step on from
      the last lands on the first, and a one-entry log always selects it. */
  lemma SelectWrapsAtBothEnds(count: nat, direction: int)
    requires count > 0
    ensures direction < 0 ==> NextSelected(0, direction, count) == count - 1
    ensures direction > 0 ==> NextSelected(count - 1, direction, count) == 0
    ensures count == 1 ==> NextSelected(0, direction, count) == 0
  {
  }

  lemma SelectStepsByOne(selected: int, direction: int, count: nat)
    requires 0 <= selected < count
    ensures direction > 0 && selected + 1 < count ==> NextSelected(selected, direction, count) == selected + 1
    ensures direction < 0 && selected > 0 ==> NextSelected(selected, direction, count) == selected - 1
    ensures direction == 0 ==> NextSelected(selected, direction, count) == selected
  {
  }
}
