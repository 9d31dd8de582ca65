/**
 * The per-country report file and the reading of its header line.
 * Writing: `Threat Percentage: {x:.2f}`, a blank line, then one block per
 * entry; or the single line `No recent entries found.`. Reading: the first
 * line that contains `Threat Percentage:` is split on ':', its second field
 * is stripped and converted with `float`. Scores are in hundredths.
 */
module ReportFormat {
  import opened Wrappers
  import opened Window

  const HeaderMarker: string := "Threat Percentage:"
  const NoEntriesMarker: string := "No recent entries found."

  predicate IsDigit(c: char)
  {
    '0' <= c <= '9'
  }

  predicate AllDigits(s: string)
  {
    forall i :: 0 <= i < |s| ==> IsDigit(s[i])
  }

  function DigitChar(d: nat): (c: char)
    requires d < 10
    ensures IsDigit(c)
  {
    ('0' as int + d) as char
  }

  function DigitValue(c: char): (d: nat)
    requires IsDigit(c)
  {
    c as int - '0' as int
  }

  /** Decimal digits of n, most significant first, "0" for zero. */
  function NatToDecimal(n: nat): (s: string)
    ensures |s| >= 1 && AllDigits(s)
  {
    if n < 10 then [DigitChar(n)] else NatToDecimal(n / 10) + [DigitChar(n % 10)]
  }

  /** The value of a string of decimal digits ("" is 0). */
  function DecimalValue(s: string): (n: nat)
    requires AllDigits(s)
  {
    if s == [] then 0 else DecimalValue(s[..|s| - 1]) * 10 + DigitValue(s[|s| - 1])
  }

  function Pow10(n: nat): (p: nat)
    ensures p >= 1
  {
    if n == 0 then 1 else 10 * Pow10(n - 1)
  }

  /** `f"{x:.2f}"` for the score x given as k hundredths. */
  function FormatTwoDecimals(k: nat): (text: string)
  {
    NatToDecimal(k / 100) + "." + [DigitChar(k / 10 % 10), DigitChar(k % 10)]
  }

  /** A score of k hundredths as a number. */
  function Hundredths(k: nat): (x: real)
  {
    k as real / 100.0
  }

  /** The first line of a report with entries. */
  function HeaderLine(k: nat): (line: string)
  {
    HeaderMarker + " " + FormatTwoDecimals(k) + "\n"
  }

  /** The block written for one entry. */
  function EntryBlock(e: Entry): (block: string)
  {
    "Title: " + e.title + "\n" + "Published Date: " + e.published + "\n" + "Link: " + e.link + "\n\n"
  }

  function EntryBlocks(entries: seq<Entry>): (blocks: string)
  {
    if entries == [] then "" else EntryBlocks(entries[..|entries| - 1]) + EntryBlock(entries[|entries| - 1])
  }

  /** The whole file written for a country whose entries scored k hundredths. */
  function ReportText(k: nat, entries: seq<Entry>): (text: string)
  {
    HeaderLine(k) + "\n" + EntryBlocks(entries)
  }

  // Reading.

  /** Splits at the first `c`: the text before it, and the text after it when `c` occurs. */
  function SplitOnce(s: string, c: char): (r: (string, Option<string>))
    ensures c !in r.0
    ensures r.1.None? ==> r.0 == s
    ensures r.1.Some? ==> s == r.0 + [c] + r.1.value
  {
    if s == [] then ([], None)
    else if s[0] == c then ([], Some(s[1..]))
    else
      var (before, after) := SplitOnce(s[1..], c);
      ([s[0]] + before, after)
  }

  /** `pattern in s` */
  function Contains(s: string, pattern: string): (found: bool)
  {
    if |s| < |pattern| then false else s[..|pattern|] == pattern || Contains(s[1..], pattern)
  }

  /** The first line (with its newline, as `readlines` gives it) that contains the header marker. */
  function FindHeaderLine(s: string): (line: Option<string>)
    decreases |s|
  {
    if s == [] then None
    else
      var (line, rest) := SplitOnce(s, '\n');
      var text := if rest.Some? then line + "\n" else line;
      if Contains(text, HeaderMarker) then Some(text)
      else match rest
        case None => None
        case Some(more) => FindHeaderLine(more)
  }

  /**
   * `str.isspace()` restricted to ASCII: tab, line feed, vertical tab, form
   * feed, carriage return, the four separators 0x1C-0x1F, and space.
   */
  predicate IsSpace(c: char)
  {
    c == ' ' || 9 <= c as int <= 13 || 28 <= c as int <= 31
  }

  function StripLeading(s: string): (t: string)
  {
    if s != [] && IsSpace(s[0]) then StripLeading(s[1..]) else s
  }

  function StripTrailing(s: string): (t: string)
  {
    if s != [] && IsSpace(s[|s| - 1]) then StripTrailing(s[..|s| - 1]) else s
  }

  /** `str.strip()` */
  function Strip(s: string): (t: string)
  {
    StripTrailing(StripLeading(s))
  }

  /** `float(s)` for unsigned decimal notation; None stands for the ValueError. */
  function ParseFloat(s: string): (x: Option<real>)
  {
    match SplitOnce(s, '.')
    case (whole, None) =>
      if whole != [] && AllDigits(whole) then Some(DecimalValue(whole) as real) else None
    case (whole, Some(fraction)) =>
      if |whole| + |fraction| > 0 && AllDigits(whole) && AllDigits(fraction)
      then Some(DecimalValue(whole) as real + DecimalValue(fraction) as real / Pow10(|fraction|) as real)
      else None
  }

  /** `float(line.split(":")[1].strip())`; None stands for the exception raised. */
  function ReadHeaderValue(line: string): (v: Option<real>)
  {
    match SplitOnce(line, ':')
    case (_, None) => None
    case (_, Some(after)) => ParseFloat(Strip(SplitOnce(after, ':').0))
  }

  /** What reading one existing report file gives. */
  datatype ReadOutcome = Score(value: real) | NoHeader | ParseError

  function ReadReport(content: string): (outcome: ReadOutcome)
  {
    match FindHeaderLine(content)
    case None => NoHeader
    case Some(line) =>
      match ReadHeaderValue(line)
      case None => ParseError
      case Some(v) => Score(v)
  }

  // The round trip.

  lemma {:induction false} DecimalRoundTrip(n: nat)
    ensures DecimalValue(NatToDecimal(n)) == n
  {
    if n >= 10 {
      DecimalRoundTrip(n / 10);
      var s := NatToDecimal(n / 10) + [DigitChar(n % 10)];
      assert s[..|s| - 1] == NatToDecimal(n / 10);
    }
  }

  lemma SplitOnceAbsent(s: string, c: char)
    requires c !in s
    ensures SplitOnce(s, c) == (s, None)
  {
  }

  lemma {:induction false} SplitOnceAt(a: string, c: char, b: string)
    requires c !in a
    ensures SplitOnce(a + [c] + b, c) == (a, Some(b))
  {
    if a != [] {
      var s := a + [c] + b;
      assert s[0] == a[0] != c;
      assert s[1..] == a[1..] + [c] + b;
      SplitOnceAt(a[1..], c, b);
      assert [a[0]] + a[1..] == a;
    }
  }

  lemma {:induction false} ContainsChar(s: string, pattern: string, c: char)
    requires Contains(s, pattern) && c in pattern
    ensures c in s
  {
    if s[..|pattern|] != pattern {
      ContainsChar(s[1..], pattern, c);
    } else {
      var i :| 0 <= i < |pattern| && pattern[i] == c;
      assert s[i] == c;
    }
  }

  /** The formatted score: digits, one '.', two digits. */
  lemma FormatShape(k: nat)
    ensures var f := FormatTwoDecimals(k);
      |f| >= 4 && IsDigit(f[0]) && IsDigit(f[|f| - 1])
      && '\n' !in f && ':' !in f && ' ' !in f
  {
    var w := NatToDecimal(k / 100);
    var f := FormatTwoDecimals(k);
    assert f == w + ['.', DigitChar(k / 10 % 10), DigitChar(k % 10)];
    assert forall i :: 0 <= i < |f| ==> IsDigit(f[i]) || f[i] == '.';
  }

  lemma ParseFormatted(k: nat)
    ensures ParseFloat(FormatTwoDecimals(k)) == Some(Hundredths(k))
  {
    var w := NatToDecimal(k / 100);
    var frac := [DigitChar(k / 10 % 10), DigitChar(k % 10)];
    assert FormatTwoDecimals(k) == w + ['.'] + frac;
    assert '.' !in w by {
      assert AllDigits(w);
    }
    SplitOnceAt(w, '.', frac);
    DecimalRoundTrip(k / 100);
    var tens, units := k / 10 % 10, k % 10;
    assert DigitValue(DigitChar(tens)) == tens && DigitValue(DigitChar(units)) == units;
    var one := [DigitChar(tens)];
    assert one[..0] == [];
    assert DecimalValue(one) == tens;
    assert frac[..|frac| - 1] == one;
    assert DecimalValue(frac) == tens * 10 + units;
    assert tens * 10 + units == k % 100 by {
      var q, r := k / 100, k % 100;
      assert k == 100 * q + r;
      assert k / 10 == 10 * q + r / 10;
      assert k % 10 == r % 10;
    }
    assert Pow10(2) == 100;
    var q, r := k / 100, k % 100;
    assert k == q * 100 + r;
    calc {
      q as real + r as real / 100.0;
      (q * 100 + r) as real / 100.0;
      Hundredths(k);
    }
  }

  lemma {:induction false} StripLeadingPrefix(pad: string, s: string)
    requires forall i :: 0 <= i < |pad| ==> IsSpace(pad[i])
    requires s != [] && !IsSpace(s[0])
    ensures StripLeading(pad + s) == s
  {
    if pad != [] {
      assert (pad + s)[1..] == pad[1..] + s;
      StripLeadingPrefix(pad[1..], s);
    }
  }

  lemma {:induction false} StripTrailingSuffix(s: string, pad: string)
    requires forall i :: 0 <= i < |pad| ==> IsSpace(pad[i])
    requires s != [] && !IsSpace(s[|s| - 1])
    ensures StripTrailing(s + pad) == s
  {
    if pad != [] {
      assert (s + pad)[..|s + pad| - 1] == s + pad[..|pad| - 1];
      StripTrailingSuffix(s, pad[..|pad| - 1]);
    } else {
      assert s + pad == s;
    }
  }

  /** Reading the header line written for k hundredths gives back k / 100. */
  lemma HeaderValueRoundTrip(k: nat)
    ensures ReadHeaderValue(HeaderLine(k)) == Some(Hundredths(k))
  {
    var f := FormatTwoDecimals(k);
    FormatShape(k);
    var name := "Threat Percentage";
    var after := " " + f + "\n";
    assert HeaderLine(k) == name + [':'] + after;
    assert ':' !in name;
    SplitOnceAt(name, ':', after);
    assert ':' !in after;
    SplitOnceAbsent(after, ':');
    StripLeadingPrefix(" ", f + "\n");
    assert after == " " + (f + "\n");
    StripTrailingSuffix(f, "\n");
    ParseFormatted(k);
  }

  /** The header is the first line of a report with entries. */
  lemma HeaderIsFirstLine(k: nat, entries: seq<Entry>)
    ensures FindHeaderLine(ReportText(k, entries)) == Some(HeaderLine(k))
  {
    var f := FormatTwoDecimals(k);
    FormatShape(k);
    var first := HeaderMarker + " " + f;
    assert '\n' !in HeaderMarker;
    assert '\n' !in first;
    assert ReportText(k, entries) == first + ['\n'] + ("\n" + EntryBlocks(entries));
    SplitOnceAt(first, '\n', "\n" + EntryBlocks(entries));
    var text := first + "\n";
    assert text == HeaderLine(k);
    assert text[..|HeaderMarker|] == HeaderMarker;
  }

  /**
   * The header round trip: a report written for a score of k hundredths is
   * read back as k / 100, whatever entries follow the header.
   */
  lemma ReportRoundTrip(k: nat, entries: seq<Entry>)
    ensures ReadReport(ReportText(k, entries)) == Score(Hundredths(k))
  {
    HeaderIsFirstLine(k, entries);
    HeaderValueRoundTrip(k);
  }

  lemma MarkersCharacters()
    ensures '\n' !in NoEntriesMarker && ':' !in NoEntriesMarker && ':' in HeaderMarker
  {
  }

  lemma MissingCharNotContained(s: string, pattern: string, c: char)
    requires c in pattern && c !in s
    ensures !Contains(s, pattern)
  {
    if Contains(s, pattern) {
      ContainsChar(s, pattern, c);
    }
  }

  /** The report of a country without entries has no header line: reading it gives no score. */
  lemma NoEntriesReportHasNoScore()
    ensures ReadReport(NoEntriesMarker) == NoHeader
  {
    MarkersCharacters();
    SplitOnceAbsent(NoEntriesMarker, '\n');
    MissingCharNotContained(NoEntriesMarker, HeaderMarker, ':');
  }

  /** A score of three hundredths is written as `Threat Percentage: 0.03`. */
  lemma ThreeHundredthsHeader()
    ensures HeaderLine(3) == "Threat Percentage: 0.03\n"
  {
  }
}
