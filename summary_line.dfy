/**
 * The summary line JMeter's Summariser writes to its log, written out from
 * its figures, and what the parser reads back from it: every figure lands in
 * the field the parser promises, the key is the count/time text with its `=`
 * signs turned into spaces, the printed rate is passed over, and the
 * throughput is the count over the seconds.
 */
module SummaryLine {
  import opened Wrappers
  import opened ScanText
  import opened SummarizerParser

  /** A decimal figure as JMeter prints it: whole digits, then a point and the fraction digits when there are any. */
  datatype Decimal = Decimal(whole: nat, fraction: string)

  function DecimalText(d: Decimal): string {
    if d.fraction == [] then NatText(d.whole) else NatText(d.whole) + "." + d.fraction
  }

  /** The value a decimal figure stands for. */
  function DecimalValue(d: Decimal): real
    requires AllDigits(d.fraction)
  {
    d.whole as real + DigitsValue(d.fraction) as real / Pow10(|d.fraction|) as real
  }

  /**
   * The figures of one summary line: the sample count, the average, minimum
   * and maximum and the error count as whole numbers; the seconds, the rate
   * and the error percentage as decimals.
   */
  datatype Figures = Figures(
    samples: nat, seconds: Decimal, rate: Decimal,
    average: nat, minimum: nat, maximum: nat, errors: nat, percent: Decimal)

  /**
   * Every whole figure fits the Java type it is read into (longs, and an int
   * for the error count), and every fraction is made of digits.
   */
  predicate Printable(f: Figures) {
    && f.samples <= LongMax && f.average <= LongMax && f.minimum <= LongMax && f.maximum <= LongMax
    && f.errors <= IntMax
    && AllDigits(f.seconds.fraction) && AllDigits(f.rate.fraction) && AllDigits(f.percent.fraction)
  }

  /** `" = <samples> in <seconds>s = "`, the count and the time as JMeter prints them. */
  function RawKey(samples: nat, seconds: Decimal): string {
    " = " + NatText(samples) + " in " + DecimalText(seconds) + "s = "
  }

  /** The raw key with its `=` signs turned into spaces: the text the count/time pattern matches. */
  function KeyText(samples: nat, seconds: Decimal): string {
    "   " + NatText(samples) + " in " + DecimalText(seconds) + "s   "
  }

  /** `"<rate>/s "`, the rate JMeter prints after the key. */
  function RateText(rate: Decimal): string {
    DecimalText(rate) + "/s "
  }

  /** A tag, one space, and a number. */
  function FigureText(tag: string, n: nat): string {
    tag + " " + NatText(n)
  }

  /** `" (<percent>%)"`, the error percentage at the end of the line. */
  function PercentText(percent: Decimal): string {
    " (" + DecimalText(percent) + "%)"
  }

  /** The label of the `k`-th figure after the key. */
  function Tag(k: nat): string {
    if k == 0 then AvgLabel else if k == 1 then MinLabel else if k == 2 then MaxLabel else ErrLabel
  }

  /** The `k`-th figure after the key. */
  function Figure(f: Figures, k: nat): nat {
    if k == 0 then f.average else if k == 1 then f.minimum else if k == 2 then f.maximum else f.errors
  }

  /** The bounds of the Java type the `k`-th figure is read into: long, except an int for the error count. */
  function Lo(k: nat): int {
    if k == 3 then IntMin else LongMin
  }

  function Hi(k: nat): int {
    if k == 3 then IntMax else LongMax
  }

  /** The labelled figures from the `k`-th on, a space between each two, then the percentage. */
  function StatsFrom(f: Figures, k: nat): string
    requires k <= 3
    decreases 3 - k
  {
    if k == 3 then FigureText(Tag(3), Figure(f, 3)) + PercentText(f.percent)
    else FigureText(Tag(k), Figure(f, k)) + (" " + StatsFrom(f, k + 1))
  }

  /** The last token of the line: the percentage in brackets. */
  function PercentToken(percent: Decimal): string {
    "(" + DecimalText(percent) + "%)"
  }

  /** `Avg: <a> Min: <b> Max: <c> Err: <e> (<p>%)`. */
  function StatsText(f: Figures): string {
    StatsFrom(f, 0)
  }

  function Head(): string {
    Marker + " " + GenerateLabel
  }

  /**
   * The line JMeter logs for the totals:
   * `<lead>jmeter.reporters.Summariser: Generate Summary Results = <n> in <t>s = <r>/s Avg: <a> Min: <b> Max: <c> Err: <e> (<p>%)`,
   * where the lead is what the logger writes before the marker (a timestamp
   * and a level).
   */
  function Line(lead: string, f: Figures): string {
    lead + Head() + RawKey(f.samples, f.seconds) + RateText(f.rate) + StatsText(f)
  }

  /** The line as the parser reads it, its `=` signs turned into spaces. */
  function Spaced(lead: string, f: Figures): string {
    lead + Head() + KeyText(f.samples, f.seconds) + RateText(f.rate) + StatsText(f)
  }

  /** The sample the parser promises for a printed line. */
  function Expected(f: Figures): Sample
    requires Printable(f)
  {
    Sample(
      uri := Some(KeyText(f.samples, f.seconds)),
      date := StubDate,
      duration := f.average,
      successful := true,
      summarizerSamples := Some(f.samples),
      throughput := Some(Throughput(f.samples, DecimalValue(f.seconds))),
      summarizerMin := f.minimum,
      summarizerMax := f.maximum,
      summarizerErrors := DecimalValue(f.percent))
  }

  /**
   * A logged totals line is stored under its count/time text, `=` signs
   * turned into spaces, with the average as the duration, the minimum, the
   * maximum, the sample count, the count over the seconds as throughput, and
   * the percentage as the error figure; the printed rate is passed over and
   * the error count is read and dropped. The lead may be anything without
   * `=`, `+` or a `j` (so that the marker cannot start inside it).
   */
  lemma LineRoundTrip(lead: string, f: Figures)
    requires Printable(f) && Plain(lead) && 'j' !in lead
    ensures LineSpec(Line(lead, f)) == Stored(Some(KeyText(f.samples, f.seconds)), Expected(f))
  {
    hide *;
    SpacedOfLine(lead, f);
    SpacedShape(lead, f);
    SpacedReads(lead, f);
    ExpectedFields(f);
    LineSpecOf(Line(lead, f), Spaced(lead, f), |lead|, Expected(f));
  }

  /** Turning the `=` signs into spaces changes only the key. */
  lemma SpacedOfLine(lead: string, f: Figures)
    requires Plain(lead) && Printable(f)
    ensures ReplaceEquals(Line(lead, f)) == Spaced(lead, f)
  {
    var head, raw, key, rate, stats := Head(), RawKey(f.samples, f.seconds), KeyText(f.samples, f.seconds),
      RateText(f.rate), StatsText(f);
    assert Line(lead, f) == lead + head + raw + rate + stats;
    assert Spaced(lead, f) == lead + head + key + rate + stats;
    PlainHead();
    PlainRate(f.rate);
    PlainStats(f, 0);
    StatsTextIsFrom(f);
    hide *;
    RawKeySpaced(f.samples, f.seconds);
    ReplaceEqualsKeeps(lead);
    ReplaceEqualsKeeps(head);
    ReplaceEqualsKeeps(rate);
    ReplaceEqualsKeeps(stats);
    ReplaceEqualsJoin(lead, head);
    ReplaceEqualsJoin(lead + head, raw);
    ReplaceEqualsJoin(lead + head + raw, rate);
    ReplaceEqualsJoin(lead + head + raw + rate, stats);
  }

  /** The spaced line is not skipped, and the marker and the generate label are where the parser looks. */
  lemma SpacedShape(lead: string, f: Figures)
    requires Plain(lead) && 'j' !in lead && Printable(f)
    ensures '+' !in Spaced(lead, f)
    ensures IndexOf(Spaced(lead, f), 0, Marker) == Some(|lead|)
    ensures |lead| + |Marker| <= |lead| + |Head()| <= |Spaced(lead, f)|
    ensures FindInLinePos(Spaced(lead, f), |lead| + |Marker|, GenerateLabel) == |lead| + |Head()|
  {
    hide *;
    SpacedParts(lead, f);
    SpacedPlain(lead, f);
    PlainHasNoSigns(Spaced(lead, f));
    HeadFound(Spaced(lead, f), lead, KeyText(f.samples, f.seconds) + RateText(f.rate) + StatsText(f));
  }

  /** Read from just after the marker, the spaced line gives the expected sample. */
  lemma SpacedReads(lead: string, f: Figures)
    requires Printable(f) && Plain(lead) && 'j' !in lead
    ensures |lead| + |Marker| <= |Spaced(lead, f)| && ReadSample(Spaced(lead, f), |lead| + |Marker|) == Ok(Expected(f))
  {
    hide *;
    SpacedShape(lead, f);
    KeyPart(lead, f);
    StatsPart(lead, f);
    SampleOfParts(lead, f);
  }

  /** ReadSample from the results of its steps on the spaced line. */
  lemma SampleOfParts(lead: string, f: Figures)
    requires Printable(f)
    requires var line, h := Spaced(lead, f), |lead| + |Head()|;
      && |lead| + |Marker| <= h <= |line| && FindInLinePos(line, |lead| + |Marker|, GenerateLabel) == h
    requires var line, h, key := Spaced(lead, f), |lead| + |Head()|, KeyText(f.samples, f.seconds);
      && h + |key| <= |line|
      && KeyAt(line, h) == Some(key) && AfterKey(line, h) == h + |key|
      && CountAndThroughput(Some(key)) == Ok(Some((f.samples, Throughput(f.samples, DecimalValue(f.seconds)))))
    requires var line, h := Spaced(lead, f), |lead| + |Head()| + |KeyText(f.samples, f.seconds)|;
      h <= |line| && ReadStats(line, h) == Ok(Stats(f.average, f.minimum, f.maximum, DecimalValue(f.percent)))
    ensures ReadSample(Spaced(lead, f), |lead| + |Marker|) == Ok(Expected(f))
  {
    hide *;
    ExpectedFields(f);
  }

  /** After the generate label, the key is the count/time text, read as the count and the throughput. */
  lemma KeyPart(lead: string, f: Figures)
    requires Printable(f)
    ensures var line, h, key := Spaced(lead, f), |lead| + |Head()|, KeyText(f.samples, f.seconds);
      && h + |key| <= |line|
      && KeyAt(line, h) == Some(key) && AfterKey(line, h) == h + |key|
      && CountAndThroughput(Some(key)) == Ok(Some((f.samples, Throughput(f.samples, DecimalValue(f.seconds)))))
  {
    assert f.samples <= LongMax && AllDigits(f.seconds.fraction);
    hide *;
    KeyInSpaced(lead, f);
    KeyRoundTrip(f.samples, f.seconds);
  }

  /** In the spaced line, the key found after the generate label is the count/time text. */
  lemma KeyInSpaced(lead: string, f: Figures)
    requires AllDigits(f.seconds.fraction)
    ensures var line, h, key := Spaced(lead, f), |lead| + |Head()|, KeyText(f.samples, f.seconds);
      && h + |key| <= |line| && KeyAt(line, h) == Some(key) && AfterKey(line, h) == h + |key|
  {
    var head, tail := lead + Head(), RateText(f.rate) + StatsText(f);
    hide *;
    SpacedParts(lead, f);
    RateStart(f);
    KeyInLine(head, f.samples, f.seconds, tail);
  }

  /** After the key, the rate is passed over and the stats text reads as the printed figures. */
  lemma StatsPart(lead: string, f: Figures)
    requires Printable(f)
    ensures var line, h := Spaced(lead, f), |lead| + |Head()| + |KeyText(f.samples, f.seconds)|;
      h <= |line| && ReadStats(line, h) == Ok(Stats(f.average, f.minimum, f.maximum, DecimalValue(f.percent)))
  {
    hide *;
    SpacedParts(lead, f);
    RateSkipped(lead + Head() + KeyText(f.samples, f.seconds), f);
  }

  /** Read from the start of the rate, the stats text after it reads as the printed figures. */
  lemma RateSkipped(pre: string, f: Figures)
    requires Printable(f)
    ensures var line := pre + RateText(f.rate) + StatsText(f);
      |pre| <= |line| && ReadStats(line, |pre|) == Ok(Stats(f.average, f.minimum, f.maximum, DecimalValue(f.percent)))
  {
    var r := RateText(f.rate);
    var line := pre + r + StatsText(f);
    assert AllDigits(f.rate.fraction);
    RateHasNoA(f.rate);
    hide *;
    StatsRoundTrip(pre + r, f);
    StatsStartsWithAvg(pre + r, f);
    TextPassedOver(line, pre, r, StatsText(f));
  }

  /** The search for the figures passes over text without an `A` to the `Avg:` just after it. */
  lemma TextPassedOver(line: string, pre: string, r: string, stats: string)
    requires line == pre + r + stats && forall j :: 0 <= j < |r| ==> r[j] != 'A'
    requires Occurs(line, |pre + r|, AvgLabel)
    ensures ReadStats(line, |pre|) == ReadStats(line, |pre + r|)
  {
    hide *;
    NoneInMiddle(line, pre, r, stats, 'A');
    ReadStatsSkips(line, |pre|, |pre| + |r|);
  }

  /** LineSpec of a raw line whose spaced form holds no `+` and has the marker at `at`. */
  lemma LineSpecOf(raw: string, line: string, at: nat, sample: Sample)
    requires ReplaceEquals(raw) == line && '+' !in line && IndexOf(line, 0, Marker) == Some(at)
    requires at + |Marker| <= |line| && ReadSample(line, at + |Marker|) == Ok(sample)
    ensures LineSpec(raw) == Stored(sample.uri, sample)
  {
    hide *;
  }

  /** The sample a printed line should give. */
  lemma ExpectedFields(f: Figures)
    requires Printable(f)
    ensures Expected(f) == Sample(Some(KeyText(f.samples, f.seconds)), StubDate, f.average, true, Some(f.samples),
      Some(Throughput(f.samples, DecimalValue(f.seconds))), f.minimum, f.maximum, DecimalValue(f.percent))
  {
  }

  /** The spaced line is the lead, the head, the key, the rate and the stats text. */
  lemma SpacedParts(lead: string, f: Figures)
    ensures var key, rate, stats := KeyText(f.samples, f.seconds), RateText(f.rate), StatsText(f);
      && Spaced(lead, f) == lead + Head() + key + rate + stats
      && Spaced(lead, f) == (lead + Head()) + key + (rate + stats)
      && Spaced(lead, f) == lead + Head() + (key + rate + stats)
  {
    hide Head, KeyText, RateText, StatsText;
  }

  /** After a lead without `j`, the marker opens the head, and the generate label follows it after one space. */
  lemma HeadFound(line: string, lead: string, rest: string)
    requires line == lead + Head() + rest && 'j' !in lead
    ensures IndexOf(line, 0, Marker) == Some(|lead|)
    ensures |lead| + |Marker| <= |line| && FindInLinePos(line, |lead| + |Marker|, GenerateLabel) == |lead| + |Head()|
  {
    assert |GenerateLabel| > 0 && GenerateLabel[0] != ' ';
    assert |Marker| > 0 && Marker[0] == 'j';
    assert Head() == Marker + " " + GenerateLabel;
    hide *;
    LabelsAfterLead(line, lead, Head(), Marker, GenerateLabel, rest);
  }

  /**
   * In `lead + m + " " + g + rest`, where no character of the lead can start
   * `m`, `m` is found just after the lead and, from the end of `m`, `g` ends
   * after one space.
   */
  lemma LabelsAfterLead(line: string, lead: string, hd: string, m: string, g: string, rest: string)
    requires line == lead + hd + rest && hd == m + " " + g
    requires |m| > 0 && m[0] !in lead && |g| > 0 && g[0] != ' '
    ensures IndexOf(line, 0, m) == Some(|lead|)
    ensures |lead| + |m| <= |line| && FindInLinePos(line, |lead| + |m|, g) == |lead| + |hd|
  {
    FirstLabelAfterLead(line, lead, hd, m, g, rest);
    SecondLabelAfterFirst(line, lead, hd, m, g, rest);
  }

  /** The first label is found where it follows a lead that cannot start it. */
  lemma FirstLabelAfterLead(line: string, lead: string, hd: string, m: string, g: string, rest: string)
    requires line == lead + hd + rest && hd == m + " " + g
    requires |m| > 0 && m[0] !in lead
    ensures IndexOf(line, 0, m) == Some(|lead|)
  {
    var a := |lead|;
    assert line[a..a + |m|] == m;
    assert Occurs(line, a, m);
    assert forall j :: 0 <= j < a ==> line[j] == lead[j];
    assert forall j :: 0 <= j < a ==> line[j] != m[0];
    hide *;
    IndexOfSkips(line, 0, a, m);
    IndexOfFirst(line, a, a, m);
  }

  /** From the end of the first label, the second is found past the one space between them. */
  lemma SecondLabelAfterFirst(line: string, lead: string, hd: string, m: string, g: string, rest: string)
    requires line == lead + hd + rest && hd == m + " " + g
    requires |g| > 0 && g[0] != ' '
    ensures |lead| + |m| <= |line| && FindInLinePos(line, |lead| + |m|, g) == |lead| + |hd|
  {
    var b := |lead| + |m|;
    assert line[b + 1..b + 1 + |g|] == g;
    assert Occurs(line, b + 1, g) && line[b] == ' ';
    hide *;
    FoundAfterSpaces(line, b, b + 1, g);
  }

  /** The rate does not start with white space. */
  lemma RateStart(f: Figures)
    ensures RateText(f.rate) + StatsText(f) != [] && !IsRegexSpace((RateText(f.rate) + StatsText(f))[0])
  {
    NatTextRoundTrip(f.rate.whole);
    assert (RateText(f.rate) + StatsText(f))[0] == NatText(f.rate.whole)[0];
  }

  /** The rate holds no `A`, so the search for the average's label passes over it. */
  lemma RateHasNoA(rate: Decimal)
    requires AllDigits(rate.fraction)
    ensures forall j :: 0 <= j < |RateText(rate)| ==> RateText(rate)[j] != 'A'
  {
    DecimalRoundTrip(rate);
    hide *;
    NoAAfterFigure(DecimalText(rate), "/s ");
  }

  /** Digits and points followed by text without an `A` hold no `A`. */
  lemma NoAAfterFigure(d: string, tail: string)
    requires DecimalChars(d) && 'A' !in tail
    ensures forall j :: 0 <= j < |d + tail| ==> (d + tail)[j] != 'A'
  {
    forall j | 0 <= j < |d + tail| ensures (d + tail)[j] != 'A' {
      if j < |d| {
        assert (d + tail)[j] == d[j];
      } else {
        assert (d + tail)[j] == tail[j - |d|];
      }
    }
  }

  /** A character missing from the middle piece of a join is missing from that stretch of the join. */
  lemma NoneInMiddle(line: string, x: string, y: string, z: string, c: char)
    requires line == x + y + z && forall j :: 0 <= j < |y| ==> y[j] != c
    ensures |x| + |y| <= |line| && forall j :: |x| <= j < |x| + |y| ==> line[j] != c
  {
    forall j | |x| <= j < |x| + |y| ensures line[j] != c {
      assert line[j] == y[j - |x|];
    }
  }

  /** The figures are read from the first `Avg:` on, so text without an `A` before it is passed over. */
  lemma ReadStatsSkips(line: string, p: nat, p': nat)
    requires p <= p' <= |line| && forall j :: p <= j < p' ==> line[j] != 'A'
    requires Occurs(line, p', AvgLabel)
    ensures ReadStats(line, p) == ReadStats(line, p')
  {
    assert |AvgLabel| > 0 && AvgLabel[0] == 'A';
    hide *;
    IndexOfSkips(line, p, p', AvgLabel);
    IndexOfFirst(line, p', p', AvgLabel);
    SameAverageCursor(line, p, p');
  }

  /** ReadStats depends on its cursor only through where `Avg:` ends. */
  lemma SameAverageCursor(line: string, p: nat, p': nat)
    requires p <= |line| && p' <= |line|
    requires IndexOf(line, p, AvgLabel) == IndexOf(line, p', AvgLabel) && IndexOf(line, p, AvgLabel).Some?
    ensures ReadStats(line, p) == ReadStats(line, p')
  {
    hide ReadStats;
    assert FindInLinePos(line, p, AvgLabel) == FindInLinePos(line, p', AvgLabel);
    hide *;
    SameAverageEnd(line, p, p');
  }

  /** Two cursors from which `Avg:` ends at the same place read the same figures. */
  lemma SameAverageEnd(line: string, p: nat, p': nat)
    requires p <= |line| && p' <= |line|
    requires FindInLinePos(line, p, AvgLabel) == FindInLinePos(line, p', AvgLabel)
    ensures ReadStats(line, p) == ReadStats(line, p')
  {
    hide FindInLinePos, IndexOf, ScanInteger, ScanToken, ParseDecimal, StripDecorations;
  }

  /** The stats text opens with the average's label. */
  lemma StatsStartsWithAvg(pre: string, f: Figures)
    ensures Occurs(pre + StatsText(f), |pre|, AvgLabel)
  {
    StatsOpensWithAvg(f);
    hide *;
    OccursAtJoin(pre, StatsText(f), AvgLabel);
  }

  /** The first characters of the stats text are the average's label. */
  lemma StatsOpensWithAvg(f: Figures)
    ensures |AvgLabel| <= |StatsText(f)| && StatsText(f)[..|AvgLabel|] == AvgLabel
  {
    StatsTextIsFrom(f);
    StatsFromStep(f, 0);
    hide *;
    FigureTextParts(Tag(0), Figure(f, 0));
    OpensWith(AvgLabel, " " + NatText(f.average), " " + StatsFrom(f, 1));
  }

  /** A text joined from `lit` and more opens with `lit`. */
  lemma OpensWith(lit: string, a: string, b: string)
    ensures |lit| <= |lit + a + b| && (lit + a + b)[..|lit|] == lit
  {
    assert (lit + a + b)[..|lit|] == lit;
  }

  /** A text occurs where it is joined on when it opens what is joined. */
  lemma OccursAtJoin(pre: string, t: string, lit: string)
    requires |lit| <= |t| && t[..|lit|] == lit
    ensures Occurs(pre + t, |pre|, lit)
  {
    assert (pre + t)[|pre|..|pre| + |lit|] == t[..|lit|];
  }

  /** The count/time text on its own reads as its count and the throughput over its seconds. */
  lemma KeyRoundTrip(n: nat, t: Decimal)
    requires n <= LongMax && AllDigits(t.fraction)
    ensures CountAndThroughput(Some(KeyText(n, t))) == Ok(Some((n, Throughput(n, DecimalValue(t)))))
  {
    var key := KeyText(n, t);
    assert [] + key + [] == key;
    hide DecimalValue, Throughput, KeyText, NatText, DecimalText, ParseDecimal, ParseInteger;
    KeyFoundIn([], n, t, []);
    DecimalRoundTrip(t);
    IntegerRoundTrip(n, LongMin, LongMax);
  }

  /** A printed decimal figure starts with a digit, holds only digits and a point, and reads as its value. */
  lemma DecimalRoundTrip(d: Decimal)
    requires AllDigits(d.fraction)
    ensures |DecimalText(d)| > 0 && IsDigit(DecimalText(d)[0]) && DecimalChars(DecimalText(d))
    ensures ParseDecimal(DecimalText(d)) == Some(DecimalValue(d))
  {
    if d.fraction == [] {
      NatTextRoundTrip(d.whole);
      WholeRoundTrip(d);
    } else {
      PointRoundTrip(d);
    }
  }

  /** A decimal figure with fraction digits prints as its whole number, a point and those digits. */
  lemma PointRoundTrip(d: Decimal)
    requires AllDigits(d.fraction) && d.fraction != []
    ensures |DecimalText(d)| > 0 && IsDigit(DecimalText(d)[0]) && DecimalChars(DecimalText(d))
    ensures ParseDecimal(DecimalText(d)) == Some(DecimalValue(d))
  {
    NatTextRoundTrip(d.whole);
    assert DecimalText(d) == NatText(d.whole) + "." + d.fraction;
    assert DecimalValue(d) == d.whole as real + DigitsValue(d.fraction) as real / Pow10(|d.fraction|) as real;
    hide *;
    PointChars(NatText(d.whole), d.fraction);
    DecimalPointValue(d.whole, d.fraction);
  }

  /** A decimal figure without fraction digits prints as its whole number. */
  lemma WholeRoundTrip(d: Decimal)
    requires d.fraction == []
    ensures DecimalText(d) == NatText(d.whole) && DecimalValue(d) == d.whole as real
    ensures ParseDecimal(DecimalText(d)) == Some(DecimalValue(d))
  {
    NatTextRoundTrip(d.whole);
  }

  /** Digits, a point and digits start with a digit and hold only digits and the point. */
  lemma PointChars(w: string, ds: string)
    requires AllDigits(w) && |w| > 0 && AllDigits(ds)
    ensures IsDigit((w + "." + ds)[0]) && DecimalChars(w + "." + ds)
  {
    var t := w + "." + ds;
    assert t[0] == w[0];
    forall j | 0 <= j < |t| ensures IsDigit(t[j]) || t[j] == '.' {
      if j < |w| {
        assert t[j] == w[j];
      } else if |w| < j {
        assert t[j] == ds[j - |w| - 1];
      }
    }
  }

  /** Text made of digits and points. */
  predicate DecimalChars(t: string) {
    forall j :: 0 <= j < |t| ==> IsDigit(t[j]) || t[j] == '.'
  }

  /**
   * Between a head and a tail that does not start with white space, the
   * count/time text is the key, and the cursor ends just after it.
   */
  lemma KeyInLine(head: string, n: nat, t: Decimal, tail: string)
    requires AllDigits(t.fraction) && (tail == [] || !IsRegexSpace(tail[0]))
    ensures var line := head + KeyText(n, t) + tail;
      KeyAt(line, |head|) == Some(KeyText(n, t)) && AfterKey(line, |head|) == |head| + |KeyText(n, t)|
  {
    var key := KeyText(n, t);
    KeyFoundIn(head, n, t, tail);
    SliceOfJoin(head, key, tail, |head|, |head| + |key|);
  }

  /**
   * The count/time pattern, searched from the start of the count/time text
   * inside a line, matches exactly that text, with the printed count and
   * seconds as its groups.
   */
  lemma KeyFoundIn(head: string, n: nat, t: Decimal, tail: string)
    requires AllDigits(t.fraction) && (tail == [] || !IsRegexSpace(tail[0]))
    ensures var line := head + KeyText(n, t) + tail;
      FindCountTime(line, |head|) == Some(CountTime(|head|, |head| + |KeyText(n, t)|, NatText(n), DecimalText(t)))
  {
    hide *;
    var q' := SplitShifted(head, n, t, tail);
    FoundAtCursor(head + KeyText(n, t) + tail, |head|, q', NatText(n), DecimalText(t));
  }

  /** The split of the count/time text, moved to where the text sits in the line, groups and all. */
  lemma SplitShifted(head: string, n: nat, t: Decimal, tail: string) returns (q': RunEnds)
    requires AllDigits(t.fraction) && (tail == [] || !IsRegexSpace(tail[0]))
    ensures var line := head + KeyText(n, t) + tail;
      && |head| <= |line| && IsSplit(line, |head|, q') && q'.end == |head| + |KeyText(n, t)|
      && (q'.end == |line| || !IsRegexSpace(line[q'.end]))
      && line[q'.countStart..q'.countEnd] == NatText(n) && line[q'.timeStart..q'.timeEnd] == DecimalText(t)
  {
    var key := KeyText(n, t);
    var line := head + key + tail;
    var h := |head|;
    KeyInContext(head, key, tail, line);
    hide *;
    q' := SplitMoves(key, line, h, n, t);
  }

  /** The split of the count/time text moved to offset `h` of a line that holds the text there. */
  lemma SplitMoves(key: string, line: string, h: nat, n: nat, t: Decimal) returns (q': RunEnds)
    requires key == KeyText(n, t) && AllDigits(t.fraction)
    requires h + |key| <= |line| && forall y :: h <= y < h + |key| ==> line[y] == key[y - h]
    ensures IsSplit(line, h, q') && q'.end == h + |key|
    ensures line[q'.countStart..q'.countEnd] == NatText(n) && line[q'.timeStart..q'.timeEnd] == DecimalText(t)
  {
    hide KeyText, NatText, DecimalText;
    var q := KeySplit(n, t);
    q' := RunEnds(q.countStart + h, q.countEnd + h, q.inAt + h, q.timeStart + h, q.timeEnd + h, q.end + h);
    SplitInContext(key, line, h, q, q');
    ShiftedSlice(key, line, h, q.countStart, q.countEnd);
    ShiftedSlice(key, line, h, q.timeStart, q.timeEnd);
  }

  /** Where the count/time text sits in a line. */
  lemma KeyInContext(head: string, key: string, tail: string, line: string)
    requires line == head + key + tail
    ensures |head| + |key| <= |line| && forall y :: |head| <= y < |head| + |key| ==> line[y] == key[y - |head|]
    ensures tail == [] || !IsRegexSpace(tail[0]) ==> |head| + |key| == |line| || !IsRegexSpace(line[|head| + |key|])
  {
  }

  /** A slice of a text held at offset `h` of a line is the same slice of the line, shifted. */
  lemma ShiftedSlice(key: string, line: string, h: nat, i: nat, j: nat)
    requires h + |key| <= |line| && forall y :: h <= y < h + |key| ==> line[y] == key[y - h]
    requires i <= j <= |key|
    ensures line[i + h..j + h] == key[i..j]
  {
  }

  /**
   * A split at the cursor that is not followed by white space is what the
   * search from the cursor finds, groups and all.
   */
  lemma FoundAtCursor(line: string, h: nat, q': RunEnds, count: string, time: string)
    requires h <= |line| && IsSplit(line, h, q') && (q'.end == |line| || !IsRegexSpace(line[q'.end]))
    requires line[q'.countStart..q'.countEnd] == count && line[q'.timeStart..q'.timeEnd] == time
    ensures FindCountTime(line, h) == Some(CountTime(h, q'.end, count, time))
  {
    MatchRunEndsComplete(line, h, q');
    assert FindCountTime(line, h) == MatchCountTimeAt(line, h);
  }

  /** Where the parts of the count/time text sit: it splits as the pattern, over its whole length. */
  lemma KeySplit(n: nat, t: Decimal) returns (q: RunEnds)
    requires AllDigits(t.fraction)
    ensures var key := KeyText(n, t);
      && IsSplit(key, 0, q) && q.end == |key|
      && q.countStart <= q.countEnd <= |key| && q.timeStart <= q.timeEnd <= |key|
      && key[q.countStart..q.countEnd] == NatText(n) && key[q.timeStart..q.timeEnd] == DecimalText(t)
  {
    KeyPieces(n, t);
    hide *;
    KeyGlue();
    q := SplitOfParts(KeyText(n, t), "   ", NatText(n), " in ", DecimalText(t), "s   ");
  }

  /** The count and time in the key are digits, and digits and points. */
  lemma KeyPieces(n: nat, t: Decimal)
    requires AllDigits(t.fraction)
    ensures KeyText(n, t) == "   " + NatText(n) + " in " + DecimalText(t) + "s   "
    ensures AllDigits(NatText(n)) && DecimalChars(DecimalText(t))
  {
    NatTextRoundTrip(n);
    DecimalRoundTrip(t);
  }

  /** The fixed text around the count and the time. */
  lemma KeyGlue()
    ensures forall j :: 0 <= j < |"   "| ==> "   "[j] == ' '
    ensures |" in "| == 4 && " in "[0] == ' ' && " in "[1] == 'i' && " in "[2] == 'n' && " in "[3] == ' '
    ensures |"s   "| > 0 && "s   "[0] == 's' && forall j :: 1 <= j < |"s   "| ==> "s   "[j] == ' '
  {
  }

  /**
   * Spaces, digits, `" in "`, digits and points, then `s` and spaces: the
   * pattern splits the text at the joins, over its whole length.
   */
  lemma SplitOfParts(key: string, a: string, count: string, b: string, time: string, c: string) returns (q: RunEnds)
    requires key == a + count + b + time + c
    requires (forall j :: 0 <= j < |a| ==> a[j] == ' ') && AllDigits(count) && DecimalChars(time)
    requires |b| == 4 && b[0] == ' ' && b[1] == 'i' && b[2] == 'n' && b[3] == ' '
    requires |c| > 0 && c[0] == 's' && forall j :: 1 <= j < |c| ==> c[j] == ' '
    ensures IsSplit(key, 0, q) && q.end == |key|
    ensures q.countStart <= q.countEnd <= |key| && q.timeStart <= q.timeEnd <= |key|
    ensures key[q.countStart..q.countEnd] == count && key[q.timeStart..q.timeEnd] == time
  {
    var i1 := |a|;
    var i2 := i1 + |count|;
    var i3 := i2 + 4;
    var i4 := i3 + |time|;
    q := RunEnds(i1, i2, i2 + 1, i3, i4, |key|);
    assert forall x :: 0 <= x < i1 ==> key[x] == a[x];
    assert forall x :: i1 <= x < i2 ==> key[x] == count[x - i1];
    assert forall x :: i2 <= x < i3 ==> key[x] == b[x - i2];
    assert forall x :: i3 <= x < i4 ==> key[x] == time[x - i3];
    assert forall x :: i4 <= x < |key| ==> key[x] == c[x - i4];
    assert key[i1..i2] == count;
    assert key[i3..i4] == time;
  }

  /** A split of a text is a split of any text that holds it at offset `h`. */
  lemma SplitInContext(key: string, line: string, h: nat, q: RunEnds, q': RunEnds)
    requires h + |key| <= |line| && forall y :: h <= y < h + |key| ==> line[y] == key[y - h]
    requires IsSplit(key, 0, q)
    requires q'.countStart == q.countStart + h && q'.countEnd == q.countEnd + h && q'.inAt == q.inAt + h
    requires q'.timeStart == q.timeStart + h && q'.timeEnd == q.timeEnd + h && q'.end == q.end + h
    ensures IsSplit(line, h, q')
  {
  }

  /** The figures after the key read back as printed; the error count is read within an int and dropped. */
  lemma StatsRoundTrip(pre: string, f: Figures)
    requires Printable(f)
    ensures ReadStats(pre + StatsText(f), |pre|)
         == Ok(Stats(f.average, f.minimum, f.maximum, DecimalValue(f.percent)))
  {
    var s := pre + StatsText(f);
    FiguresFitTypes(f);
    hide *;
    StatsTextIsFrom(f);
    var c1, c2, p2 := FirstFigures(s, pre, f);
    var c3, c4 := LastFigures(s, p2, f, c2);
    ReadStatsOf(s, |pre|, c1, c2, c3, c4, Figure(f, 0), Figure(f, 1), Figure(f, 2), Figure(f, 3),
      PercentToken(f.percent), DecimalValue(f.percent));
  }

  /** The average and the minimum read from the start of the stats text. */
  lemma FirstFigures(s: string, pre: string, f: Figures) returns (c1: nat, c2: nat, next: string)
    requires s == pre + StatsFrom(f, 0) && Lo(0) <= Figure(f, 0) <= Hi(0) && Lo(1) <= Figure(f, 1) <= Hi(1)
    requires AllDigits(f.percent.fraction)
    ensures |pre| <= c1 <= c2 <= |next| <= |s|
    ensures ScanInteger(s, FindInLinePos(s, |pre|, Tag(0)), Lo(0), Hi(0)) == Ok((Figure(f, 0), c1))
    ensures ScanInteger(s, FindInLinePos(s, c1, Tag(1)), Lo(1), Hi(1)) == Ok((Figure(f, 1), c2))
    ensures s == next + StatsFrom(f, 2) && forall j :: c2 <= j < |next| ==> next[j] == ' '
  {
    hide *;
    var p1;
    c1, p1 := Entry(s, pre, f, 0, |pre|);
    c2, next := Entry(s, p1, f, 1, c1);
  }

  /** The maximum, the error count and the percentage read from the rest of the stats text. */
  lemma LastFigures(s: string, pre: string, f: Figures, c: nat) returns (c3: nat, c4: nat)
    requires s == pre + StatsFrom(f, 2) && Lo(2) <= Figure(f, 2) <= Hi(2) && Lo(3) <= Figure(f, 3) <= Hi(3)
    requires AllDigits(f.percent.fraction)
    requires c <= |pre| && forall j :: c <= j < |pre| ==> pre[j] == ' '
    ensures c <= c3 <= c4 <= |s|
    ensures ScanInteger(s, FindInLinePos(s, c, Tag(2)), Lo(2), Hi(2)) == Ok((Figure(f, 2), c3))
    ensures ScanInteger(s, FindInLinePos(s, c3, Tag(3)), Lo(3), Hi(3)) == Ok((Figure(f, 3), c4))
    ensures ScanToken(s, c4) == Ok((PercentToken(f.percent), |s|))
    ensures ParseDecimal(StripDecorations(PercentToken(f.percent))) == Some(DecimalValue(f.percent))
  {
    hide *;
    var p3;
    c3, p3 := Entry(s, pre, f, 2, c);
    var last;
    c4, last := Entry(s, p3, f, 3, c3);
  }

  /**
   * One figure read from the stats text: the cursor moves past it and, but
   * for the last, only a space stands before the next label.
   */
  lemma Entry(s: string, pre: string, f: Figures, k: nat, c: nat) returns (c': nat, next: string)
    requires k <= 3 && s == pre + StatsFrom(f, k) && Lo(k) <= Figure(f, k) <= Hi(k)
    requires c <= |pre| && forall j :: c <= j < |pre| ==> pre[j] == ' '
    requires AllDigits(f.percent.fraction)
    ensures c' == |pre| + |FigureText(Tag(k), Figure(f, k))| && c' <= |s|
    ensures ScanInteger(s, FindInLinePos(s, c, Tag(k)), Lo(k), Hi(k)) == Ok((Figure(f, k), c'))
    ensures k < 3 ==> s == next + StatsFrom(f, k + 1) && c' <= |next| && forall j :: c' <= j < |next| ==> next[j] == ' '
    ensures k == 3 ==> ScanToken(s, c') == Ok((PercentToken(f.percent), |s|))
    ensures k == 3 ==> ParseDecimal(StripDecorations(PercentToken(f.percent))) == Some(DecimalValue(f.percent))
  {
    hide *;
    var fig := FigureText(Tag(k), Figure(f, k));
    EntryRead(s, pre, f, k, c);
    c' := |pre| + |fig|;
    next := pre;
    if k < 3 {
      NextEntry(s, pre, f, k);
      next := pre + fig + " ";
    } else {
      PercentAfterErrors(s, pre, f);
    }
  }

  /** The whole figures of a printable line are the figures the scanner reads, within their Java types. */
  lemma FiguresFitTypes(f: Figures)
    requires Printable(f)
    ensures Figure(f, 0) == f.average && Figure(f, 1) == f.minimum && Figure(f, 2) == f.maximum
    ensures Lo(0) <= Figure(f, 0) <= Hi(0) && Lo(1) <= Figure(f, 1) <= Hi(1)
    ensures Lo(2) <= Figure(f, 2) <= Hi(2) && Lo(3) <= Figure(f, 3) <= Hi(3)
  {
  }

  /** From a cursor with only spaces before the `k`-th label, that figure is read and the cursor ends after it. */
  lemma EntryRead(s: string, pre: string, f: Figures, k: nat, c: nat)
    requires k <= 3 && s == pre + StatsFrom(f, k) && Lo(k) <= Figure(f, k) <= Hi(k)
    requires c <= |pre| && forall j :: c <= j < |pre| ==> pre[j] == ' '
    ensures ScanInteger(s, FindInLinePos(s, c, Tag(k)), Lo(k), Hi(k))
         == Ok((Figure(f, k), |pre| + |FigureText(Tag(k), Figure(f, k))|))
  {
    TagFacts(k);
    LayoutFacts();
    hide *;
    var fig := FigureText(Tag(k), Figure(f, k));
    var rest: string;
    if k == 3 {
      StatsFromLast(f);
      PercentTextParts(f.percent);
      rest := PercentText(f.percent);
    } else {
      StatsFromStep(f, k);
      rest := " " + StatsFrom(f, k + 1);
    }
    Regroup(s, pre, fig, rest);
    FigureScan(s, pre, Tag(k), Figure(f, k), rest, c, Lo(k), Hi(k));
  }

  /** After the `k`-th figure come a space and the rest of the stats text. */
  lemma NextEntry(s: string, pre: string, f: Figures, k: nat)
    requires k < 3 && s == pre + StatsFrom(f, k)
    ensures s == pre + FigureText(Tag(k), Figure(f, k)) + " " + StatsFrom(f, k + 1)
  {
    hide *;
    StatsFromStep(f, k);
    Regroup4(s, pre, FigureText(Tag(k), Figure(f, k)), " ", StatsFrom(f, k + 1));
  }

  /** After the error count comes the percentage, the last token of the line. */
  lemma PercentAfterErrors(s: string, pre: string, f: Figures)
    requires s == pre + StatsFrom(f, 3) && AllDigits(f.percent.fraction)
    ensures |pre| + |FigureText(Tag(3), Figure(f, 3))| <= |s|
    ensures ScanToken(s, |pre| + |FigureText(Tag(3), Figure(f, 3))|) == Ok((PercentToken(f.percent), |s|))
    ensures ParseDecimal(StripDecorations(PercentToken(f.percent))) == Some(DecimalValue(f.percent))
  {
    hide *;
    var fig := FigureText(Tag(3), Figure(f, 3));
    StatsFromLast(f);
    Regroup(s, pre, fig, PercentText(f.percent));
    PercentScan(s, pre + fig, f.percent);
  }

  /** One labelled figure, a space, then the rest of the stats text. */
  lemma StatsFromStep(f: Figures, k: nat)
    requires k < 3
    ensures StatsFrom(f, k) == FigureText(Tag(k), Figure(f, k)) + (" " + StatsFrom(f, k + 1))
  {
  }

  /** The error count, then the percentage, close the stats text. */
  lemma StatsFromLast(f: Figures)
    ensures StatsFrom(f, 3) == FigureText(Tag(3), Figure(f, 3)) + PercentText(f.percent)
  {
  }

  /** Every label is non-empty and does not start with a space. */
  lemma TagFacts(k: nat)
    ensures |Tag(k)| > 0 && Tag(k)[0] != ' '
  {
  }

  /** The facts about the line's constant pieces the proofs use. */
  lemma LayoutFacts()
    ensures IsDelimiter(' ') && !IsRegexSpace('A')
    ensures |AvgLabel| > 0 && AvgLabel[0] == 'A' && |MinLabel| > 0 && MinLabel[0] == 'M'
    ensures |MaxLabel| > 0 && MaxLabel[0] == 'M' && |ErrLabel| > 0 && ErrLabel[0] == 'E'
  {
  }

  /** Regrouping a join of three. */
  lemma Regroup(s: string, x: string, y: string, z: string)
    requires s == x + (y + z)
    ensures s == x + y + z
  {
  }

  /** Regrouping a join of four, the last two nested. */
  lemma Regroup4(s: string, x: string, y: string, z: string, w: string)
    requires s == x + (y + (z + w))
    ensures s == x + y + z + w
  {
  }

  /** ReadStats from the results of its steps. */
  lemma ReadStatsOf(line: string, p: nat, c1: nat, c2: nat, c3: nat, c4: nat,
                    a: int, b: int, c: int, e: int, tok: string, pct: real)
    requires p <= c1 <= c2 <= c3 <= c4 <= |line|
    requires ScanInteger(line, FindInLinePos(line, p, Tag(0)), Lo(0), Hi(0)) == Ok((a, c1))
    requires ScanInteger(line, FindInLinePos(line, c1, Tag(1)), Lo(1), Hi(1)) == Ok((b, c2))
    requires ScanInteger(line, FindInLinePos(line, c2, Tag(2)), Lo(2), Hi(2)) == Ok((c, c3))
    requires ScanInteger(line, FindInLinePos(line, c3, Tag(3)), Lo(3), Hi(3)) == Ok((e, c4))
    requires ScanToken(line, c4) == Ok((tok, |line|)) && ParseDecimal(StripDecorations(tok)) == Some(pct)
    ensures ReadStats(line, p) == Ok(Stats(a, b, c, pct))
  {
  }

  /**
   * From a cursor followed only by spaces up to `tag`: the integer after the
   * tag is read, and the cursor ends just after it.
   */
  lemma FigureScan(s: string, pre: string, tag: string, n: nat, rest: string, c: nat, lo: int, hi: int)
    requires s == pre + FigureText(tag, n) + rest
    requires |tag| > 0 && tag[0] != ' '
    requires c <= |pre| && forall j :: c <= j < |pre| ==> pre[j] == ' '
    requires rest == [] || IsDelimiter(rest[0])
    requires lo <= n <= hi
    ensures ScanInteger(s, FindInLinePos(s, c, tag), lo, hi) == Ok((n, |pre| + |FigureText(tag, n)|))
  {
    hide *;
    var digits := NatText(n);
    var at := |pre|;
    var a := at + |tag|;
    var e := a + 1 + |digits|;
    FigureTextParts(tag, n);
    FigureLayout(pre, tag, digits, rest, s, at, a, e);
    NatTextRoundTrip(n);
    FigureRead(s, c, at, a, e, tag, digits, n, lo, hi);
  }

  /** FigureScan over the positions of the pieces. */
  lemma FigureRead(s: string, c: nat, at: nat, a: nat, e: nat, tag: string, digits: string, n: nat, lo: int, hi: int)
    requires c <= at && a == at + |tag| && e == a + 1 + |digits| && e <= |s| && |tag| > 0 && tag[0] != ' '
    requires forall j :: c <= j < at ==> s[j] == ' '
    requires s[at..a] == tag && s[a] == ' ' && s[a + 1..e] == digits
    requires forall x :: a + 1 <= x < e ==> s[x] == digits[x - a - 1]
    requires e == |s| || IsDelimiter(s[e])
    requires AllDigits(digits) && |digits| > 0 && DigitsValue(digits) == n && lo <= n <= hi
    ensures ScanInteger(s, FindInLinePos(s, c, tag), lo, hi) == Ok((n, e))
  {
    hide IndexOf, FindInLinePos, ScanToken, ScanInteger, ParseInteger, SpanEnd, DigitsValue, Occurs;
    assert FindInLinePos(s, c, tag) == a by {
      FoundAfterSpaces(s, c, at, tag);
    }
    assert ScanToken(s, a) == Ok((digits, e)) by {
      assert AllIn(s, a, a + 1, Delimiter);
      forall x | a + 1 <= x < e ensures !IsDelimiter(s[x]) {
        assert IsDigit(digits[x - a - 1]);
      }
      TokenAt(s, a, a + 1, e);
    }
    assert ParseInteger(digits, lo, hi) == Some(n);
    ScanIntegerOfToken(s, a, digits, e, n, lo, hi);
  }

  lemma ScanIntegerOfToken(s: string, i: nat, tok: string, after: nat, n: int, lo: int, hi: int)
    requires i <= |s| && ScanToken(s, i) == Ok((tok, after)) && ParseInteger(tok, lo, hi) == Some(n)
    ensures ScanInteger(s, i, lo, hi) == Ok((n, after))
  {
  }

  lemma FigureTextParts(tag: string, n: nat)
    ensures FigureText(tag, n) == tag + " " + NatText(n)
  {
  }

  /** Where the pieces of `pre + tag + " " + digits + rest` sit. */
  lemma FigureLayout(pre: string, tag: string, digits: string, rest: string, s: string, at: nat, a: nat, e: nat)
    requires s == pre + (tag + " " + digits) + rest
    requires at == |pre| && a == at + |tag| && e == a + 1 + |digits|
    ensures e <= |s| && s[at..a] == tag && s[a] == ' ' && s[a + 1..e] == digits
    ensures forall j :: 0 <= j < at ==> s[j] == pre[j]
    ensures forall x :: a + 1 <= x < e ==> s[x] == digits[x - a - 1]
    ensures e == |s| || s[e] == rest[0]
  {
    assert s[at..a] == tag;
    assert s[a + 1..e] == digits;
  }

  /** The last token is the bracketed percentage; stripped of `(`, `%` and `)` it reads as the number. */
  lemma PercentScan(s: string, pre: string, percent: Decimal)
    requires s == pre + PercentText(percent) && AllDigits(percent.fraction)
    ensures ScanToken(s, |pre|) == Ok((PercentToken(percent), |s|))
    ensures ParseDecimal(StripDecorations(PercentToken(percent))) == Some(DecimalValue(percent))
  {
    assert PercentToken(percent) == "(" + DecimalText(percent) + "%)";
    hide *;
    var digits := DecimalText(percent);
    var tok := "(" + digits + "%)";
    PercentTextParts(percent);
    DecimalRoundTrip(percent);
    LastToken(pre, tok, s, digits);
    StripPercent(digits);
  }

  lemma PercentTextParts(percent: Decimal)
    ensures PercentText(percent) == " " + ("(" + DecimalText(percent) + "%)")
  {
  }

  /** After the last space comes one token running to the end of the line. */
  lemma LastToken(pre: string, tok: string, s: string, digits: string)
    requires tok == "(" + digits + "%)" && DecimalChars(digits) && s == pre + (" " + tok)
    ensures ScanToken(s, |pre|) == Ok((tok, |s|))
  {
    hide IndexOf, FindInLinePos, ScanToken, ScanInteger, ParseInteger, SpanEnd, DigitsValue, Occurs;
    var at := |pre|;
    assert s[at + 1..|s|] == tok;
    assert AllIn(s, at, at + 1, Delimiter);
    forall x | at + 1 <= x < |s| ensures !IsDelimiter(s[x]) {
      assert s[x] == tok[x - at - 1];
    }
    TokenAt(s, at, at + 1, |s|);
  }

  /** Stripping the brackets and the percent sign leaves the number. */
  lemma StripPercent(digits: string)
    requires DecimalChars(digits)
    ensures StripDecorations("(" + digits + "%)") == digits
  {
    hide StripDecorations;
    StripDecorationsAppend("(", digits + "%)");
    StripDecorationsAppend(digits, "%)");
    StripDecorationsAppend("%", ")");
    assert "(" + digits + "%)" == "(" + (digits + "%)");
    assert "%)" == "%" + ")";
    assert IsErrDecoration("("[0]) && IsErrDecoration("%"[0]) && IsErrDecoration(")"[0]);
    assert forall j :: 0 <= j < |digits| ==> !IsErrDecoration(digits[j]);
  }

  /** Text holding neither `=` nor `+`. */
  predicate Plain(s: string) {
    '=' !in s && '+' !in s
  }

  /** The spaced line holds no `=` and no `+`. */
  lemma SpacedPlain(lead: string, f: Figures)
    requires Plain(lead) && Printable(f)
    ensures Plain(Spaced(lead, f))
  {
    assert AllDigits(f.seconds.fraction) && AllDigits(f.rate.fraction) && AllDigits(f.percent.fraction);
    hide *;
    SpacedParts(lead, f);
    PlainHead();
    PlainKey(f.samples, f.seconds);
    PlainRate(f.rate);
    PlainStats(f, 0);
    StatsTextIsFrom(f);
    PlainJoin(lead, Head());
    PlainJoin(lead + Head(), KeyText(f.samples, f.seconds));
    PlainJoin(lead + Head() + KeyText(f.samples, f.seconds), RateText(f.rate));
    PlainJoin(lead + Head() + KeyText(f.samples, f.seconds) + RateText(f.rate), StatsText(f));
  }

  /** The stats text is its labelled figures from the first on. */
  lemma StatsTextIsFrom(f: Figures)
    ensures StatsText(f) == StatsFrom(f, 0)
  {
  }

  lemma PlainHasNoSigns(s: string)
    requires Plain(s)
    ensures '=' !in s && '+' !in s
  {
  }

  /** Joining two plain texts gives a plain text. */
  lemma PlainJoin(a: string, b: string)
    requires Plain(a) && Plain(b)
    ensures Plain(a + b)
  {
  }

  /** The marker and the generate label hold no `=` and no `+`. */
  lemma PlainHead()
    ensures Plain(Head())
  {
    assert Plain(Marker);
    assert Plain(GenerateLabel);
    PlainJoin(Marker, " ");
    PlainJoin(Marker + " ", GenerateLabel);
  }

  /** The count/time text holds no `=` and no `+`. */
  lemma PlainKey(n: nat, t: Decimal)
    requires AllDigits(t.fraction)
    ensures Plain(KeyText(n, t))
  {
    NoSignsInDigits(n);
    NoSignsInDecimal(t);
  }

  /** The printed rate holds no `=` and no `+`. */
  lemma PlainRate(r: Decimal)
    requires AllDigits(r.fraction)
    ensures Plain(RateText(r))
  {
    NoSignsInDecimal(r);
  }

  /** The stats text from the `k`-th figure on holds no `=` and no `+`. */
  lemma {:induction false} PlainStats(f: Figures, k: nat)
    requires k <= 3 && AllDigits(f.percent.fraction)
    ensures Plain(StatsFrom(f, k))
    decreases 3 - k
  {
    NoSignsInDigits(Figure(f, k));
    assert Plain(Tag(k));
    if k == 3 {
      NoSignsInDecimal(f.percent);
      StatsFromLast(f);
    } else {
      PlainStats(f, k + 1);
      StatsFromStep(f, k);
    }
  }

  /** A printed natural number holds no `=` and no `+`. */
  lemma NoSignsInDigits(n: nat)
    ensures Plain(NatText(n))
  {
    NatTextRoundTrip(n);
  }

  /** A printed decimal figure holds no `=` and no `+`. */
  lemma NoSignsInDecimal(d: Decimal)
    requires AllDigits(d.fraction)
    ensures Plain(DecimalText(d))
  {
    DecimalRoundTrip(d);
  }

  /** A text without `=` is left as it is. */
  lemma ReplaceEqualsKeeps(raw: string)
    requires Plain(raw)
    ensures ReplaceEquals(raw) == raw
  {
    forall i | 0 <= i < |raw| ensures ReplaceEquals(raw)[i] == raw[i] {
      assert raw[i] != '=';
    }
  }

  /** Turning `=` into spaces works piece by piece. */
  lemma ReplaceEqualsJoin(a: string, b: string)
    ensures ReplaceEquals(a + b) == ReplaceEquals(a) + ReplaceEquals(b)
  {
    hide ReplaceEquals;
    var ab := a + b;
    var l, ra, rb := ReplaceEquals(ab), ReplaceEquals(a), ReplaceEquals(b);
    var r := ra + rb;
    assert |l| == |r|;
    forall i | 0 <= i < |l| ensures l[i] == r[i] {
      if i < |a| {
        assert ab[i] == a[i] && r[i] == ra[i];
      } else {
        assert ab[i] == b[i - |a|] && r[i] == rb[i - |a|];
      }
    }
  }

  /** The raw key, `=` signs turned into spaces, is the key text. */
  lemma RawKeySpaced(n: nat, t: Decimal)
    requires AllDigits(t.fraction)
    ensures ReplaceEquals(RawKey(n, t)) == KeyText(n, t)
  {
    var mid := NatText(n) + " in " + DecimalText(t) + "s";
    assert RawKey(n, t) == " = " + mid + " = ";
    assert KeyText(n, t) == "   " + mid + "   ";
    NoSignsInDigits(n);
    NoSignsInDecimal(t);
    PlainJoin(NatText(n), " in ");
    PlainJoin(NatText(n) + " in ", DecimalText(t));
    PlainJoin(NatText(n) + " in " + DecimalText(t), "s");
    ReplaceEqualsKeeps(mid);
    hide *;
    ReplaceEqualsJoin(" = " + mid, " = ");
    ReplaceEqualsJoin(" = ", mid);
    EqualsToSpaces();
  }

  /** The sign JMeter prints around the key, blanked. */
  lemma EqualsToSpaces()
    ensures ReplaceEquals(" = ") == "   "
  {
  }

  /**
   * A literal that does not start with a space, found after a stretch of
   * spaces, is found where the spaces end.
   */
  lemma FoundAfterSpaces(s: string, from: nat, at: nat, lit: string)
    requires from <= at <= |s| && Occurs(s, at, lit) && |lit| > 0 && lit[0] != ' '
    requires forall j :: from <= j < at ==> s[j] == ' '
    ensures IndexOf(s, from, lit) == Some(at)
  {
  }

  /** The middle piece of a text joined from three. */
  lemma SliceOfJoin(a: string, b: string, c: string, i: nat, j: nat)
    requires i == |a| && j == |a| + |b|
    ensures (a + b + c)[i..j] == b
  {
    var t := a + b + c;
    forall x | 0 <= x < |b| ensures t[i..j][x] == b[x] {
      assert t[i + x] == b[x];
    }
  }
}
