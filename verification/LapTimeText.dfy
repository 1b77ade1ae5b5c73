/** Lap times as text: the printer and the parser of `lib/f1_types/common.py`. */
module LapTimeText {
  import opened Python

  function Digit(d: nat): char
    requires d < 10
  {
    ('0' as int + d) as char
  }

  predicate Digits(s: string) {
    forall i | 0 <= i < |s| :: '0' <= s[i] <= '9'
  }

  function Decimal(n: nat): (s: string)
    ensures s != [] && Digits(s)
  {
    if n < 10 then [Digit(n)] else Decimal(n / 10) + [Digit(n % 10)]
  }

  function ZeroPad(s: string, width: nat): (r: string)
    requires Digits(s)
    ensures Digits(r) && |r| == if |s| < width then width else |s|
    decreases width - |s|
  {
    if |s| >= width then s else ZeroPad("0" + s, width)
  }

  /** Minutes of any width, two digits of seconds, three of milliseconds; None is the ValueError
      for a negative time. */
  function Print(milliseconds: int): Option<string> {
    if milliseconds < 0 then None
    else
      var total, millis := milliseconds / 1000, milliseconds % 1000;
      var minutes, seconds := total / 60, total % 60;
      Some(ZeroPad(Decimal(minutes), 2) + ":" + (ZeroPad(Decimal(seconds), 2) + "." + ZeroPad(Decimal(millis), 3)))
  }

  function Value(s: string): nat
    requires Digits(s)
  {
    if s == [] then 0 else 10 * Value(s[..|s| - 1]) + (s[|s| - 1] as int - '0' as int)
  }

  function Split(s: string, separator: char): (parts: seq<string>)
    ensures |parts| >= 1
  {
    if s == [] then [""]
    else
      var rest := Split(s[1..], separator);
      if s[0] == separator then [""] + rest else [[s[0]] + rest[0]] + rest[1..]
  }

  /** What is used of Python's `int`: plain decimal digits give their value. Other texts may
      be accepted or refused. */
  ghost predicate ReadsDecimals(toInt: string -> Option<int>) {
    forall s: string | s != [] && Digits(s) :: toInt(s) == Some(Value(s))
  }

  /** None is the ValueError of a failed unpacking or conversion. */
  function Parse(text: string, toInt: string -> Option<int>): Option<int> {
    var parts := Split(text, ':');
    if |parts| != 2 then None
    else
      var tail := Split(parts[1], '.');
      if |tail| != 2 then None
      else
        var minutes, seconds, millis := toInt(parts[0]), toInt(tail[0]), toInt(tail[1]);
        if minutes.None? || seconds.None? || millis.None? then None
        else Some(minutes.value * 60 * 1000 + seconds.value * 1000 + millis.value)
  }

  lemma {:induction false} SplitWhole(s: string, separator: char)
    requires separator !in s
    ensures Split(s, separator) == [s]
  {
    if s != [] {
      SplitWhole(s[1..], separator);
      assert [s[0]] + s[1..] == s;
    }
  }

  lemma {:induction false} SplitOnce(head: string, separator: char, tail: string)
    requires separator !in head && separator !in tail
    ensures Split(head + [separator] + tail, separator) == [head, tail]
  {
    var s := head + [separator] + tail;
    if head == [] {
      assert s[1..] == tail;
      SplitWhole(tail, separator);
    } else {
      assert s[1..] == head[1..] + [separator] + tail;
      SplitOnce(head[1..], separator, tail);
      assert [head[0]] + head[1..] == head;
    }
  }

  lemma {:induction false} DecimalValue(n: nat)
    ensures Value(Decimal(n)) == n
  {
    if n >= 10 {
      DecimalValue(n / 10);
      assert Decimal(n)[..|Decimal(n)| - 1] == Decimal(n / 10);
    }
  }

  lemma {:induction false} LeadingZero(s: string)
    requires Digits(s)
    ensures Value("0" + s) == Value(s)
  {
    if s != [] {
      LeadingZero(s[..|s| - 1]);
      assert ("0" + s)[..|s|] == "0" + s[..|s| - 1];
    } else {
      assert "0" + s == "0";
    }
  }

  lemma {:induction false} PaddedValue(s: string, width: nat)
    requires Digits(s)
    ensures Value(ZeroPad(s, width)) == Value(s)
    decreases width - |s|
  {
    if |s| < width {
      LeadingZero(s);
      PaddedValue("0" + s, width);
    }
  }

  /** The text of three digit fields parses to the time that they name. */
  lemma ParseFields(minutes: string, seconds: string, millis: string, toInt: string -> Option<int>)
    requires ReadsDecimals(toInt)
    requires minutes != [] && seconds != [] && millis != [] && Digits(minutes) && Digits(seconds) && Digits(millis)
    ensures Parse(minutes + ":" + (seconds + "." + millis), toInt)
            == Some(Value(minutes) * 60 * 1000 + Value(seconds) * 1000 + Value(millis))
  {
    hide Split, Value;
    SplitOnce(minutes, ':', seconds + "." + millis);
    SplitOnce(seconds, '.', millis);
  }

  /** Parsing undoes printing, for every time that can be printed. */
  lemma ParsePrint(milliseconds: nat, toInt: string -> Option<int>)
    requires ReadsDecimals(toInt)
    ensures Print(milliseconds).Some? && Parse(Print(milliseconds).value, toInt) == Some(milliseconds)
  {
    hide Parse, Value, ZeroPad, Decimal;
    var total, millis := milliseconds / 1000, milliseconds % 1000;
    var minutes, seconds := total / 60, total % 60;
    DecimalValue(minutes);
    DecimalValue(seconds);
    DecimalValue(millis);
    PaddedValue(Decimal(minutes), 2);
    PaddedValue(Decimal(seconds), 2);
    PaddedValue(Decimal(millis), 3);
    ParseFields(ZeroPad(Decimal(minutes), 2), ZeroPad(Decimal(seconds), 2), ZeroPad(Decimal(millis), 3), toInt);
  }

  lemma {:induction false} SplitWithout(s: string, separator: char)
    ensures forall i | 0 <= i < |Split(s, separator)| :: separator !in Split(s, separator)[i]
    ensures |Split(s, separator)| == 1 ==> Split(s, separator)[0] == s
  {
    if s != [] {
      SplitWithout(s[1..], separator);
      assert s == [s[0]] + s[1..];
    }
  }

  lemma {:induction false} SplitInTwo(s: string, separator: char)
    requires |Split(s, separator)| == 2
    ensures var parts := Split(s, separator); s == parts[0] + [separator] + parts[1]
  {
    SplitWithout(s[1..], separator);
    assert s == [s[0]] + s[1..];
    if s[0] != separator {
      SplitInTwo(s[1..], separator);
    }
  }

  /** Three fields around the first colon and the point after it, with no other colon and no other
      point after the colon. */
  predicate Fields(text: string, minutes: string, seconds: string, millis: string) {
    && text == minutes + [':'] + (seconds + ['.'] + millis)
    && ':' !in minutes && ':' !in seconds && ':' !in millis && '.' !in seconds && '.' !in millis
  }

  predicate Names(text: string, toInt: string -> Option<int>, time: int, minutes: string, seconds: string,
                  millis: string) {
    && Fields(text, minutes, seconds, millis)
    && toInt(minutes).Some? && toInt(seconds).Some? && toInt(millis).Some?
    && time == toInt(minutes).value * 60_000 + toInt(seconds).value * 1000 + toInt(millis).value
  }

  /** A text parses exactly when it has three such fields that `int` accepts, to the time they name. */
  lemma ParseMeaning(text: string, toInt: string -> Option<int>, time: int)
    ensures Parse(text, toInt) == Some(time) <==>
            exists minutes, seconds, millis :: Names(text, toInt, time, minutes, seconds, millis)
  {
    hide Split;
    if Parse(text, toInt) == Some(time) {
      var parts := Split(text, ':');
      var tail := Split(parts[1], '.');
      SplitInTwo(text, ':');
      SplitWithout(text, ':');
      SplitInTwo(parts[1], '.');
      SplitWithout(parts[1], '.');
      assert forall c :: c in tail[0] || c in tail[1] ==> c in parts[1];
      assert Names(text, toInt, time, parts[0], tail[0], tail[1]);
    }
    if minutes, seconds, millis :| Names(text, toInt, time, minutes, seconds, millis) {
      SplitOnce(minutes, ':', seconds + ['.'] + millis);
      SplitOnce(seconds, '.', millis);
    }
  }

  lemma {:induction false} PadAppend(s: string, c: char, width: nat)
    requires Digits(s) && '0' <= c <= '9'
    ensures ZeroPad(s + [c], width + 1) == ZeroPad(s, width) + [c]
    decreases width - |s|
  {
    if |s| < width {
      assert "0" + (s + [c]) == ("0" + s) + [c];
      PadAppend("0" + s, c, width);
    }
  }

  lemma DecimalAppend(v: nat, d: nat)
    requires d < 10
    ensures Decimal(10 * v + d) == if v == 0 then [Digit(d)] else Decimal(v) + [Digit(d)]
  {
    assert (10 * v + d) / 10 == v && (10 * v + d) % 10 == d;
  }

  /** Printing one digit more, in one place more. */
  lemma PaddedAppend(v: nat, d: nat, width: nat)
    requires d < 10 && width > 0
    ensures ZeroPad(Decimal(10 * v + d), width + 1) == ZeroPad(Decimal(v), width) + [Digit(d)]
  {
    DecimalAppend(v, d);
    PadAppend(Decimal(v), Digit(d), width);
    if v == 0 {
      assert "0" + [Digit(d)] == Decimal(0) + [Digit(d)];
    }
  }

  /** Digits are their value printed at their own width. */
  lemma {:induction false} PrintedValue(s: string)
    requires s != [] && Digits(s)
    ensures ZeroPad(Decimal(Value(s)), |s|) == s
  {
    var n := |s| - 1;
    var d := s[n] as int - '0' as int;
    assert s == s[..n] + [s[n]] && Digit(d) == s[n];
    if n == 0 {
      assert Value(s[..n]) == 0;
    } else {
      PrintedValue(s[..n]);
      PaddedAppend(Value(s[..n]), d, n);
    }
  }

  lemma Recompose(minutes: nat, seconds: nat, millis: nat)
    requires seconds < 60 && millis < 1000
    ensures var t := minutes * 60 * 1000 + seconds * 1000 + millis;
            t % 1000 == millis && t / 1000 / 60 == minutes && t / 1000 % 60 == seconds
  {
    var t := minutes * 60 * 1000 + seconds * 1000 + millis;
    assert t == 1000 * (minutes * 60 + seconds) + millis;
    assert t / 1000 == minutes * 60 + seconds;
  }

  lemma {:induction false} ValueBound(s: string)
    requires Digits(s)
    ensures |s| == 3 ==> Value(s) < 1000
  {
    if |s| == 3 {
      assert s[0] in s && s[1] in s && s[2] in s;
      assert s[..2][..1] == s[..1] && s[..1][..0] == [];
      assert Value(s[..1]) == s[0] as int - '0' as int;
      assert Value(s[..2]) == 10 * Value(s[..1]) + (s[1] as int - '0' as int);
    }
  }

  function Text(minutes: string, seconds: string, millis: string): string {
    minutes + ":" + (seconds + "." + millis)
  }

  /** The printer's own form: two digits of seconds below 60, three of milliseconds, and minutes of
      two digits, or of more without a leading zero. */
  predicate Canonical(minutes: string, seconds: string, millis: string) {
    && Digits(minutes) && Digits(seconds) && Digits(millis)
    && (|minutes| == 2 || (|minutes| > 2 && minutes[0] != '0'))
    && |seconds| == 2 && Value(seconds) < 60 && |millis| == 3
  }

  ghost predicate PrintersForm(text: string) {
    exists minutes, seconds, millis :: Canonical(minutes, seconds, millis) && text == Text(minutes, seconds, millis)
  }

  lemma PrintParseFields(minutes: string, seconds: string, millis: string, toInt: string -> Option<int>)
    requires ReadsDecimals(toInt) && Canonical(minutes, seconds, millis)
    ensures var text := Text(minutes, seconds, millis);
            Parse(text, toInt).Some? && Print(Parse(text, toInt).value) == Some(text)
  {
    hide Parse, Value, ZeroPad, Decimal;
    ParseFields(minutes, seconds, millis, toInt);
    PrintedValue(seconds);
    PrintedValue(millis);
    ValueBound(millis);
    Recompose(Value(minutes), Value(seconds), Value(millis));
    MinutesPrinted(minutes);
  }

  lemma {:induction false} DecimalShape(n: nat)
    ensures n < 100 ==> |Decimal(n)| <= 2
    ensures n < 1000 ==> |Decimal(n)| <= 3
    ensures n > 0 ==> Decimal(n)[0] != '0'
  {
    if n >= 10 {
      DecimalShape(n / 10);
    }
  }

  /** What the printer prints has its form. */
  lemma PrintedForm(milliseconds: nat)
    ensures Print(milliseconds).Some? && PrintersForm(Print(milliseconds).value)
  {
    var total, millis := milliseconds / 1000, milliseconds % 1000;
    var minutes, seconds := total / 60, total % 60;
    var m, s, f := ZeroPad(Decimal(minutes), 2), ZeroPad(Decimal(seconds), 2), ZeroPad(Decimal(millis), 3);
    DecimalShape(minutes);
    DecimalShape(seconds);
    DecimalShape(millis);
    DecimalValue(seconds);
    PaddedValue(Decimal(seconds), 2);
    hide Decimal, Value;
    assert Canonical(m, s, f);
    assert Print(milliseconds).value == Text(m, s, f);
  }

  /** Printing undoes parsing on exactly the texts of the printer's own form. */
  lemma PrintParse(text: string, toInt: string -> Option<int>)
    requires ReadsDecimals(toInt)
    ensures (Parse(text, toInt).Some? && Print(Parse(text, toInt).value) == Some(text)) <==> PrintersForm(text)
  {
    hide Parse, Canonical;
    if PrintersForm(text) {
      var minutes, seconds, millis :| Canonical(minutes, seconds, millis) && text == Text(minutes, seconds, millis);
      PrintParseFields(minutes, seconds, millis, toInt);
    }
    var parsed := Parse(text, toInt);
    if parsed.Some? && Print(parsed.value) == Some(text) {
      PrintedForm(parsed.value);
    }
  }

  lemma MinutesPrinted(minutes: string)
    requires Digits(minutes) && (|minutes| == 2 || (|minutes| > 2 && minutes[0] != '0'))
    ensures ZeroPad(Decimal(Value(minutes)), 2) == minutes
  {
    if |minutes| > 2 {
      Unpadded(minutes);
    } else {
      PrintedValue(minutes);
    }
  }

  /** Digits without a leading zero are their value printed without padding. */
  lemma {:induction false} Unpadded(s: string)
    requires s != [] && Digits(s) && s[0] != '0'
    ensures Decimal(Value(s)) == s && Value(s) > 0
  {
    hide Decimal;
    var n := |s| - 1;
    var d := s[n] as int - '0' as int;
    assert s == s[..n] + [s[n]] && Digit(d) == s[n];
    if n > 0 {
      Unpadded(s[..n]);
    }
    assert Value(s) == 10 * Value(s[..n]) + d;
    DecimalAppend(Value(s[..n]), d);
  }
}
