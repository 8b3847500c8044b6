/**
  The file a download is written to (index.js:91): `song-<t>.mp3` in the
  `downloads` directory next to the bot, where `<t>` is the clock reading in
  milliseconds rendered in decimal.  Paths are kept relative to the bot's
  directory.
*/
module DownloadPath {

  const Directory: string := "downloads"
  const FilePrefix: string := "downloads/song-"
  const FileSuffix: string := ".mp3"

  predicate IsDigit(c: char) {
    '0' <= c <= '9'
  }

  function DigitChar(d: nat): (c: char)
    requires d < 10
    ensures IsDigit(c) && DigitValue(c) == d
  {
    ('0' as int + d) as char
  }

  function DigitValue(c: char): nat
    requires IsDigit(c)
  {
    c as int - '0' as int
  }

  /** The decimal digits of a millisecond clock reading, as the template literal
      of index.js:91 writes them (no sign, no leading zero). */
  function DecimalString(n: nat): (r: string)
    ensures |r| >= 1 && (|r| == 1 <==> n < 10)
    ensures forall i :: 0 <= i < |r| ==> IsDigit(r[i])
    ensures r[0] == '0' ==> n == 0
    decreases n
  {
    if n < 10 then [DigitChar(n)] else DecimalString(n / 10) + [DigitChar(n % 10)]
  }

  /** Reads a string of digits back as a number. */
  function DecimalValue(s: string): nat
    requires forall i :: 0 <= i < |s| ==> IsDigit(s[i])
    decreases |s|
  {
    if s == [] then 0 else 10 * DecimalValue(s[..|s| - 1]) + DigitValue(s[|s| - 1])
  }

  /** Reading the rendering gives the number back. */
  lemma {:induction false} DecimalRoundTrip(n: nat)
    ensures DecimalValue(DecimalString(n)) == n
    decreases n
  {
    var r := DecimalString(n);
    if n >= 10 {
      DecimalRoundTrip(n / 10);
      assert r[..|r| - 1] == DecimalString(n / 10);
    }
  }

  /** Different clock readings are rendered differently. */
  lemma DecimalStringInjective(a: nat, b: nat)
    ensures DecimalString(a) == DecimalString(b) <==> a == b
  {
    if DecimalString(a) == DecimalString(b) {
      DecimalRoundTrip(a);
      DecimalRoundTrip(b);
    }
  }

  /** The output path for clock reading `t`. */
  function OutputPath(t: nat): string {
    FilePrefix + DecimalString(t) + FileSuffix
  }

  /** The path lies in the downloads directory, is named `song-` followed by at least
      one digit and ends in `.mp3`, and the digits read back as the clock reading. */
  lemma OutputPathShape(t: nat)
    ensures var p := OutputPath(t);
      |p| >= |FilePrefix| + 1 + |FileSuffix| &&
      p[..|Directory| + 1] == Directory + "/" &&
      p[..|FilePrefix|] == FilePrefix &&
      p[|p| - |FileSuffix|..] == FileSuffix &&
      (forall i :: |FilePrefix| <= i < |p| - |FileSuffix| ==> IsDigit(p[i])) &&
      DecimalValue(p[|FilePrefix|..|p| - |FileSuffix|]) == t
  {
    var p := OutputPath(t);
    var d := DecimalString(t);
    assert p[|FilePrefix|..|p| - |FileSuffix|] == d;
    assert forall i :: |FilePrefix| <= i < |p| - |FileSuffix| ==> p[i] == d[i - |FilePrefix|];
    DecimalRoundTrip(t);
  }

  /** Two downloads share a path exactly when they read the same millisecond; nothing
      here rules that out for two requests handled in the same millisecond. */
  lemma OutputPathCollision(t1: nat, t2: nat)
    ensures OutputPath(t1) == OutputPath(t2) <==> t1 == t2
  {
    if OutputPath(t1) == OutputPath(t2) {
      var p := OutputPath(t1);
      assert p[|FilePrefix|..|p| - |FileSuffix|] == DecimalString(t1);
      assert p[|FilePrefix|..|p| - |FileSuffix|] == DecimalString(t2);
      DecimalStringInjective(t1, t2);
    }
  }
}
