/**
 * The player bar's `m:ss` clock: whole minutes, a colon, and the seconds
 * within the minute as exactly two digits.
 */
module TimeFormat {
  import opened Wrappers

  predicate IsDigit(c: char) {
    '0' <= c <= '9'
  }

  predicate AllDigits(s: string) {
    forall i :: 0 <= i < |s| ==> IsDigit(s[i])
  }

  function DigitChar(d: nat): (c: char)
    requires d < 10
    ensures IsDigit(c) && c as int - '0' as int == d
  {
    (('0' as int) + d) as char
  }

  /** The number a string of decimal digits denotes (leading zeros allowed). */
  function Value(s: string): nat
    requires AllDigits(s)
  {
    if |s| == 0 then 0 else 10 * Value(s[..|s| - 1]) + (s[|s| - 1] as int - '0' as int)
  }

  /** `n.toString()` for a non-negative integer: its decimal digits, without leading zeros. */
  function Decimal(n: nat): (s: string)
    ensures 1 <= |s| && AllDigits(s) && Value(s) == n
    ensures s[0] == '0' ==> s == "0"
    ensures n < 10 <==> |s| == 1
    ensures 10 <= n < 100 <==> |s| == 2
    decreases n
  {
    if n < 10 then [DigitChar(n)]
    else
      var s := Decimal(n / 10) + [DigitChar(n % 10)];
      assert s[..|s| - 1] == Decimal(n / 10);
      s
  }

  /** `s.padStart(width, "0")`. */
  function PadStart(s: string, width: nat): (r: string)
    ensures |r| == if |s| < width then width else |s|
    ensures r[|r| - |s|..] == s
    ensures forall i :: 0 <= i < |r| - |s| ==> r[i] == '0'
  {
    if |s| >= width then s
    else
      var zeros := seq(width - |s|, _ => '0');
      assert (zeros + s)[|zeros|..] == s;
      zeros + s
  }

  /** `formatTime(t)` for a whole, non-negative number of seconds. */
  function FormatTime(t: nat): (r: string)
    ensures |r| >= 4 && r[|r| - 3] == ':'
    ensures AllDigits(r[..|r| - 3]) && Value(r[..|r| - 3]) == t / 60
    ensures r[..|r| - 3] == Decimal(t / 60)
    ensures AllDigits(r[|r| - 2..]) && Value(r[|r| - 2..]) == t % 60 < 60
  {
    var minutes := Decimal(t / 60);
    var seconds := PadStart(Decimal(t % 60), 2);
    SecondsField(t % 60);
    Join(minutes, seconds)
  }

  /** `${minutes}:${seconds}` with a two-character seconds field. */
  function Join(minutes: string, seconds: string): (r: string)
    requires |seconds| == 2
    ensures |r| == |minutes| + 3 && r[|minutes|] == ':'
    ensures r[..|minutes|] == minutes && r[|minutes| + 1..] == seconds
  {
    minutes + ":" + seconds
  }

  /** The padded seconds of a value below 60 are two digits denoting that value. */
  lemma SecondsField(sec: nat)
    requires sec < 60
    ensures var p := PadStart(Decimal(sec), 2);
            |p| == 2 && AllDigits(p) && Value(p) == sec
  {
    var d := Decimal(sec);
    var p := PadStart(d, 2);
    if sec < 10 {
      assert p == ['0'] + d;
      assert p[..1] == ['0'];
      assert Value(p[..1]) == 0;
    } else {
      assert p == d;
    }
  }

  /** The position of the first colon, if any. */
  function ColonAt(s: string): (r: Option<nat>)
    ensures r.Some? ==> r.value < |s| && s[r.value] == ':' && forall i :: 0 <= i < r.value ==> s[i] != ':'
    ensures r.None? ==> forall i :: 0 <= i < |s| ==> s[i] != ':'
  {
    if |s| == 0 then None
    else if s[0] == ':' then Some(0)
    else
      match ColonAt(s[1..])
      case None => None
      case Some(k) => Some(k + 1)
  }

  /** Reads `m:ss` back into seconds; anything of another shape is rejected. */
  function ParseTime(s: string): (r: Option<nat>)
  {
    match ColonAt(s)
    case None => None
    case Some(k) => ParseFields(s[..k], s[k + 1..])
  }

  /** Reads the minutes and the seconds on either side of the colon. */
  function ParseFields(m: string, sec: string): Option<nat> {
    if |m| >= 1 && |sec| == 2 && AllDigits(m) && AllDigits(sec) && Value(sec) < 60
    then Some(60 * Value(m) + Value(sec))
    else None
  }

  /** Reading a formatted time back gives the seconds that were formatted. */
  lemma ParseFormatTime(t: nat)
    ensures ParseTime(FormatTime(t)) == Some(t)
  {
    var minutes := Decimal(t / 60);
    var seconds := PadStart(Decimal(t % 60), 2);
    SecondsField(t % 60);
    assert FormatTime(t) == Join(minutes, seconds);
    ParseJoin(minutes, seconds);
    DivMod60(t);
  }

  /** A digit string, a colon and two digits below 60 read back as minutes and seconds. */
  lemma ParseJoin(minutes: string, seconds: string)
    requires 1 <= |minutes| && AllDigits(minutes)
    requires |seconds| == 2 && AllDigits(seconds) && Value(seconds) < 60
    ensures ParseTime(Join(minutes, seconds)) == Some(60 * Value(minutes) + Value(seconds))
  {
    var r := Join(minutes, seconds);
    var k := |minutes|;
    forall i | 0 <= i < k ensures r[i] != ':' {
      assert r[i] == minutes[i];
    }
    ColonAtFirst(r, k);
    assert ParseTime(r) == ParseFields(minutes, seconds);
  }

  /** Different second counts never show the same clock text. */
  lemma FormatTimeInjective(a: nat, b: nat)
    requires FormatTime(a) == FormatTime(b)
    ensures a == b
  {
    ParseFormatTime(a);
    ParseFormatTime(b);
  }

  lemma DivMod60(t: nat)
    ensures 60 * (t / 60) + t % 60 == t
  {
  }

  /** A colon preceded only by other characters is the first colon. */
  lemma ColonAtFirst(s: string, k: nat)
    requires k < |s| && s[k] == ':' && forall i :: 0 <= i < k ==> s[i] != ':'
    ensures ColonAt(s) == Some(k)
  {
  }

}
