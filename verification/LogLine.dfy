/** The text of one log line, and what `snprintf` leaves in a 256-byte buffer. */
module LogLine {

  const BUFSIZE := 256

  /** `Other` stands for every value outside the enumeration (the `default` branches). */
  datatype Level = Debug | Info | Warn | Error | Other

  const RESET := "\U{1b}[0m"

  function LevelName(level: Level): string {
    match level
    case Debug => "DEBUG"
    case Info => "INFO"
    case Warn => "WARN"
    case Error => "ERROR"
    case Other => "UNKNOWN"
  }

  function LevelColor(level: Level): string {
    match level
    case Debug => "\U{1b}[34m"
    case Info => "\U{1b}[92m"
    case Warn => "\U{1b}[33m"
    case Error => "\U{1b}[31m"
    case Other => RESET
  }

  function Digit(n: nat): char
    requires n < 10
  {
    "0123456789"[n]
  }

  /** `%d` of a non-negative value. */
  function Decimal(n: nat): (s: string)
    ensures |s| >= 1
  {
    if n < 10 then [Digit(n)] else Decimal(n / 10) + [Digit(n % 10)]
  }

  /** A scratch buffer keeps at most BUFSIZE - 1 characters of what is printed into it. */
  function Scratch(s: string): (r: string)
    ensures r <= s && |r| < BUFSIZE
    ensures |s| < BUFSIZE ==> r == s
    ensures |s| >= BUFSIZE ==> |r| == BUFSIZE - 1
  {
    if |s| < BUFSIZE then s else s[..BUFSIZE - 1]
  }

  /** The level as it is printed, in its colour. */
  function LevelTag(level: Level): string {
    LevelColor(level) + "[" + LevelName(level) + "]" + RESET
  }

  function Line(stamp: string, bid: nat, level: Level, text: string): string {
    Scratch(stamp) + " [" + Decimal(bid) + "] " + LevelTag(level) + " " + Scratch(text) + "\n"
  }

  /** The buffer after `snprintf(buf, |buf|, "%s", line)`; the call returns |line|. */
  function Print(buf: seq<char>, line: string): (r: seq<char>)
    requires |buf| > 0
    ensures |r| == |buf|
  {
    var m := if |line| < |buf| then |line| else |buf| - 1;
    line[..m] + ['\0'] + buf[m + 1..]
  }

  /** The value of a character as a decimal digit. */
  function DigitValue(ch: char): int {
    ch as int - '0' as int
  }

  ghost predicate Numeral(s: string) {
    |s| >= 1 && forall i :: 0 <= i < |s| ==> 0 <= DigitValue(s[i]) <= 9
  }

  /** What a row of digits stands for, the most significant first. */
  function NumeralValue(s: string): int {
    if s == [] then 0 else 10 * NumeralValue(s[..|s| - 1]) + DigitValue(s[|s| - 1])
  }

  lemma DigitReadsBack(n: nat)
    requires n < 10
    ensures DigitValue(Digit(n)) == n && (n > 0 ==> Digit(n) != '0')
  {
  }

  lemma NumeralOneMore(s: string, ch: char)
    requires Numeral(s) && 0 <= DigitValue(ch) <= 9
    ensures Numeral(s + [ch]) && NumeralValue(s + [ch]) == 10 * NumeralValue(s) + DigitValue(ch)
  {
    assert (s + [ch])[..|s|] == s;
  }

  lemma OneDigit(n: nat)
    requires n < 10
    ensures Numeral([Digit(n)]) && NumeralValue([Digit(n)]) == n && (n > 0 ==> [Digit(n)][0] != '0')
  {
    DigitReadsBack(n);
    var s := [Digit(n)];
    assert s[..|s| - 1] == [];
  }

  /** `s` is how `n` is written. */
  ghost predicate Writes(s: string, n: nat) {
    Numeral(s) && NumeralValue(s) == n && (n > 0 ==> s[0] != '0')
  }

  lemma DigitAppended(s: string, q: nat, d: nat)
    requires Writes(s, q) && q > 0 && d < 10
    ensures Writes(s + [Digit(d)], 10 * q + d)
  {
    DigitReadsBack(d);
    NumeralOneMore(s, Digit(d));
  }

  /** The number printed is read back from its digits, and has no leading zero. */
  lemma {:induction false} DecimalReadsBack(n: nat)
    ensures Numeral(Decimal(n)) && NumeralValue(Decimal(n)) == n
    ensures n > 0 ==> Decimal(n)[0] != '0'
    decreases n
  {
    if n < 10 {
      OneDigit(n);
    } else {
      DecimalReadsBack(n / 10);
      DigitAppended(Decimal(n / 10), n / 10, n % 10);
    }
  }

  lemma LevelTags()
    ensures LevelTag(Debug) == "\U{1b}[34m[DEBUG]\U{1b}[0m"
    ensures LevelTag(Info) == "\U{1b}[92m[INFO]\U{1b}[0m"
    ensures LevelTag(Warn) == "\U{1b}[33m[WARN]\U{1b}[0m"
    ensures LevelTag(Error) == "\U{1b}[31m[ERROR]\U{1b}[0m"
    ensures LevelTag(Other) == "\U{1b}[0m[UNKNOWN]\U{1b}[0m"
  {
  }

  /** The fields of a line, one after the other: stamp, bid as a numeral, level, text. */
  lemma LineReadsBack(stamp: string, bid: nat, level: Level, text: string) returns (digits: string)
    ensures Line(stamp, bid, level, text)
         == Scratch(stamp) + " [" + digits + "] " + LevelTag(level) + " " + Scratch(text) + "\n"
    ensures Numeral(digits) && NumeralValue(digits) == bid
  {
    digits := Decimal(bid);
    DecimalReadsBack(bid);
  }

  function Pow10(k: nat): nat {
    if k == 0 then 1 else 10 * Pow10(k - 1)
  }

  /** A value prints in at most k digits exactly when it is below ten to the k. */
  lemma {:induction false} DecimalWidth(n: nat, k: nat)
    requires k >= 1
    ensures |Decimal(n)| <= k <==> n < Pow10(k)
    decreases k
  {
    if n < 10 {
      assert Pow10(k) >= 10 by { Pow10AtLeastTen(k); }
    } else if k == 1 {
      assert Pow10(1) == 10 * Pow10(0);
    } else {
      DecimalWidth(n / 10, k - 1);
      assert n / 10 < Pow10(k - 1) <==> n < 10 * Pow10(k - 1);
    }
  }

  lemma {:induction false} Pow10AtLeastTen(k: nat)
    requires k >= 1
    ensures Pow10(k) >= 10
  {
    if k > 1 { Pow10AtLeastTen(k - 1); }
  }

  function LevelWidth(level: Level): nat {
    match level
    case Info => 9
    case Warn => 9
    case Other => 11
    case _ => 10
  }

  lemma LineLength(stamp: string, bid: nat, level: Level, text: string)
    ensures |Line(stamp, bid, level, text)|
         == |Scratch(stamp)| + |Decimal(bid)| + LevelWidth(level) + |Scratch(text)| + 12
  {
    assert |LevelColor(level)| + |LevelName(level)| == LevelWidth(level);
    assert |RESET| == 4;
  }

  /** The queued write carries the whole line, and only the line, exactly when the line leaves room
      for the terminator; the queued length stays inside the slice exactly when it is at most 256. */
  lemma QueuedBytesAreTheLineIff(buf: seq<char>, stamp: string, bid: nat, level: Level, text: string)
    requires |buf| == BUFSIZE
    ensures var line := Line(stamp, bid, level, text);
            var r := Print(buf, line);
            (|line| <= |r| && r[..|line|] == line) <==> |line| < BUFSIZE
    ensures var line := Line(stamp, bid, level, text);
            |line| == BUFSIZE ==> Print(buf, line) == line[..BUFSIZE - 1] + ['\0']
  {
    var line := Line(stamp, bid, level, text);
    var r := Print(buf, line);
    assert line[|line| - 1] == '\n';
    if |line| < BUFSIZE {
      assert r[..|line|] == line;
    } else if |line| == BUFSIZE {
      assert r[BUFSIZE - 1] == '\0';
      assert r[..|line|] == r;
    }
  }

  /** The exact budget for a 23-character stamp: text, digits and level share 220 characters. */
  lemma LineFitsIff(stamp: string, bid: nat, level: Level, text: string)
    requires |stamp| == 23
    ensures |Line(stamp, bid, level, text)| < BUFSIZE
       <==> |Scratch(text)| + |Decimal(bid)| + LevelWidth(level) <= 220
  {
    LineLength(stamp, bid, level, text);
  }

  /** With at most two digits and an enumerated level, 208 characters is the largest text that
      always fits: every such text does, and one more does not for the widest prefix. */
  lemma LargestSafeText(stamp: string, n: nat)
    requires |stamp| == 23
    ensures n <= 208 <==>
            forall bid: nat, level: Level, text: string ::
              bid < 100 && level != Other && |text| <= n ==> |Line(stamp, bid, level, text)| < BUFSIZE
  {
    if n <= 208 {
      forall bid: nat, level: Level, text: string | bid < 100 && level != Other && |text| <= n
        ensures |Line(stamp, bid, level, text)| < BUFSIZE
      {
        assert Pow10(2) == 100 by { assert Pow10(1) == 10 * Pow10(0); }
        DecimalWidth(bid, 2);
        LineFitsIff(stamp, bid, level, text);
      }
    } else {
      var text := seq(209, _ => 'x');
      assert |text| <= n;
      assert Decimal(10) == Decimal(1) + [Digit(0)];
      LineFitsIff(stamp, 10, Error, text);
      assert |Line(stamp, 10, Error, text)| >= BUFSIZE;
    }
  }
}
