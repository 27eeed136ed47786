/**
 * JmeterSummarizerParser.parse: reads JMeter Summariser log files line by
 * line and turns every summary line into one HttpSample, kept in a per-file
 * map where a later line with the same key replaces an earlier one; each file
 * that can be opened yields one report.
 *
 * The model follows the code as written: the map key (and the sample's uri)
 * is the exact text matched by the count/time pattern, surrounding whitespace
 * included; a line where that pattern does not match is still stored, under
 * the null key (`None` here); a malformed number throws an unchecked
 * exception that aborts the whole parse.
 */
module SummarizerParser {
  import opened Wrappers
  import opened ScanText

  /** The date every sample gets; it is a stub, not read from the log. */
  const StubDate: int := 1296876799179

  const Marker: string := "jmeter.reporters.Summariser:"
  const GenerateLabel: string := "Generate Summary Results"
  const AvgLabel: string := "Avg:"
  const MinLabel: string := "Min:"
  const MaxLabel: string := "Max:"
  const ErrLabel: string := "Err:"

  /**
   * An HttpSample as this parser fills it. `summarizerSamples` and
   * `throughput` are set only when the count/time pattern matched; the
   * source never calls their setters otherwise.
   */
  datatype Sample = Sample(
    uri: Option<string>,
    date: int,
    duration: int,
    successful: bool,
    summarizerSamples: Option<int>,
    throughput: Option<real>,
    summarizerMin: int,
    summarizerMax: int,
    summarizerErrors: real)

  /** The per-file HashMap; `None` is Java's null key. */
  type SampleMap = map<Option<string>, Sample>

  /** What one line does to the file's map. */
  datatype LineOutcome =
    | Skipped
    | Stored(key: Option<string>, sample: Sample)
    | Aborted(error: ScanError)

  /** `line.replaceAll("=", " ")`. */
  function ReplaceEquals(raw: string): (r: string)
    ensures |r| == |raw| && '=' !in r
    ensures forall i :: 0 <= i < |raw| && raw[i] != '=' ==> r[i] == raw[i]
    ensures forall i :: 0 <= i < |raw| && raw[i] == '=' ==> r[i] == ' '
  {
    if raw == [] then [] else [if raw[0] == '=' then ' ' else raw[0]] + ReplaceEquals(raw[1..])
  }

  /** Samples per second over the window; 0 when the window is 0 seconds. */
  function Throughput(count: int, seconds: real): (r: real)
    ensures seconds == 0.0 ==> r == 0.0
    ensures seconds != 0.0 ==> r * seconds == count as real
    ensures count >= 0 && seconds >= 0.0 ==> r >= 0.0
  {
    if seconds != 0.0 then count as real / seconds else 0.0
  }

  predicate IsErrDecoration(c: char) {
    c == '(' || c == ')' || c == '%'
  }

  /** `replaceAll("[()%]", "")`: every `(`, `)` and `%` removed, the rest kept in order. */
  function StripDecorations(t: string): (r: string)
    ensures |r| <= |t|
    ensures forall j :: 0 <= j < |r| ==> !IsErrDecoration(r[j])
    ensures (forall j :: 0 <= j < |t| ==> !IsErrDecoration(t[j])) ==> r == t
    ensures |t| == 1 && IsErrDecoration(t[0]) ==> r == []
  {
    if t == [] then []
    else (if IsErrDecoration(t[0]) then [] else [t[0]]) + StripDecorations(t[1..])
  }

  /** Stripping works piecewise, so a decoration anywhere in the token is dropped in place. */
  lemma {:induction false} StripDecorationsAppend(a: string, b: string)
    ensures StripDecorations(a + b) == StripDecorations(a) + StripDecorations(b)
    decreases |a|
  {
    if a != [] {
      var head: string := if IsErrDecoration(a[0]) then [] else [a[0]];
      assert (a + b)[0] == a[0] && (a + b)[1..] == a[1..] + b;
      assert StripDecorations(a + b) == head + StripDecorations(a[1..] + b);
      assert StripDecorations(a) == head + StripDecorations(a[1..]);
      StripDecorationsAppend(a[1..], b);
    } else {
      assert a + b == b;
    }
  }

  function OrFail<T>(o: Option<T>, e: ScanError): Result<T, ScanError> {
    match o
    case Some(v) => Ok(v)
    case None => Err(e)
  }

  /** Scanner.nextLong / nextInt at cursor `i`: the integer and the cursor after its token. */
  function ScanInteger(s: string, i: nat, lo: int, hi: int): (r: Result<(int, nat), ScanError>)
    requires i <= |s|
    ensures r.Ok? ==> i < r.value.1 <= |s| && lo <= r.value.0 <= hi
    ensures r.Err? ==> r.error == NoSuchElement || r.error == InputMismatch
    ensures ScanToken(s, i).Err? ==> r == Err(NoSuchElement)
    ensures ScanToken(s, i).Ok? ==>
      var (tok, after) := ScanToken(s, i).value;
      && (r.Ok? <==> ParseInteger(tok, lo, hi).Some?)
      && (r.Ok? ==> r.value == (ParseInteger(tok, lo, hi).value, after))
  {
    var tok :- ScanToken(s, i);
    match ParseInteger(tok.0, lo, hi)
    case Some(v) => Ok((v, tok.1))
    case None => Err(InputMismatch)
  }

  /**
   * The count and the throughput the source derives from the key: the
   * pattern is run again over the key text, `Long.valueOf` reads the count
   * and `Double.valueOf` the seconds.
   */
  function CountAndThroughput(key: Option<string>): (r: Result<Option<(int, real)>, ScanError>)
    ensures r.Ok? && r.value.Some? ==> key.Some? && r.value.value.0 >= 0 && r.value.value.1 >= 0.0
    ensures key.Some? && MatchesCountTime(key.value) && r.Ok? ==> r.value.Some?
    ensures r.Err? ==> r.error == NumberFormat
    ensures key.None? || FindCountTime(key.value, 0).None? ==> r == Ok(None)
    ensures key.Some? && FindCountTime(key.value, 0).Some? ==>
      var g := FindCountTime(key.value, 0).value;
      var n := ParseInteger(g.count, LongMin, LongMax);
      var seconds := ParseDecimal(g.time);
      && (r.Err? <==> n.None? || seconds.None?)
      && (r.Ok? ==> r == Ok(Some((n.value, Throughput(n.value, seconds.value)))))
  {
    if key.None? then Ok(None)
    else match FindCountTime(key.value, 0)
      case None => Ok(None)
      case Some(g) =>
        MatchGroupsAreNumeric(key.value, g.start);
        UnsignedGroupsReadNonNegative(g.count, g.time);
        var n :- OrFail(ParseInteger(g.count, LongMin, LongMax), NumberFormat);
        var seconds :- OrFail(ParseDecimal(g.time), NumberFormat);
        Ok(Some((n, Throughput(n, seconds))))
  }

  /** Groups without a sign read as non-negative numbers, when they read at all. */
  lemma UnsignedGroupsReadNonNegative(count: string, time: string)
    requires AllDigits(count)
    requires forall j :: 0 <= j < |time| ==> InClass(time[j], DigitOrDot)
    ensures ParseInteger(count, LongMin, LongMax).Some? ==> ParseInteger(count, LongMin, LongMax).value >= 0
    ensures ParseDecimal(time).Some? ==> ParseDecimal(time).value >= 0.0
  {
    if |count| > 0 {
      assert IsDigit(count[0]);
    }
    if |time| > 0 {
      assert InClass(time[0], DigitOrDot);
    }
  }

  /** The key text: what the count/time pattern matched from the cursor on, or null. */
  function KeyAt(line: string, p: nat): (key: Option<string>)
    requires p <= |line|
    ensures key.Some? ==> MatchesCountTime(key.value)
    ensures key.Some? <==> FindCountTime(line, p).Some?
    ensures key.Some? ==> key.value == line[FindCountTime(line, p).value.start..FindCountTime(line, p).value.end]
    ensures key.None? ==> forall p', q :: p <= p' ==> !IsSplit(line, p', q)
  {
    match FindCountTime(line, p)
    case None => FindCountTimeIsLeftmost(line, p); None
    case Some(m) =>
      MatchedTextMatchesAgain(line, m.start);
      Some(line[m.start..m.end])
  }

  /** Cursor after the key search. */
  function AfterKey(line: string, p: nat): (q: nat)
    requires p <= |line|
    ensures p <= q <= |line|
    ensures KeyAt(line, p).None? ==> q == p
    ensures KeyAt(line, p).Some? ==>
      var key := KeyAt(line, p).value;
      p + |key| <= q && line[q - |key|..q] == key
    ensures KeyAt(line, p).Some? ==> q == FindCountTime(line, p).value.end
  {
    match FindCountTime(line, p)
    case None => p
    case Some(m) => m.end
  }

  /** The figures read after the key. */
  datatype Stats = Stats(average: int, minimum: int, maximum: int, errorPercent: real)

  /**
   * From cursor `p`: the integers after `Avg:`, `Min:` and `Max:` (longs),
   * the integer after `Err:` (an int, read and dropped), then the next token
   * with `(`, `)` and `%` stripped, read as the error percentage.
   */
  function ReadStats(line: string, p: nat): (r: Result<Stats, ScanError>)
    requires p <= |line|
    ensures r.Ok? ==> LongMin <= r.value.average <= LongMax
    ensures r.Ok? ==> LongMin <= r.value.minimum <= LongMax && LongMin <= r.value.maximum <= LongMax
  {
    var avg :- ScanInteger(line, FindInLinePos(line, p, AvgLabel), LongMin, LongMax);
    var min :- ScanInteger(line, FindInLinePos(line, avg.1, MinLabel), LongMin, LongMax);
    var max :- ScanInteger(line, FindInLinePos(line, min.1, MaxLabel), LongMin, LongMax);
    var errs :- ScanInteger(line, FindInLinePos(line, max.1, ErrLabel), IntMin, IntMax);
    var pctToken :- ScanToken(line, errs.1);
    var pct :- OrFail(ParseDecimal(StripDecorations(pctToken.0)), NumberFormat);
    Ok(Stats(avg.0, min.0, max.0, pct))
  }

  /**
   * Everything after the marker: the optional "Generate Summary Results"
   * label, the key, then the figures.
   */
  function ReadSample(line: string, p: nat): (r: Result<Sample, ScanError>)
    requires p <= |line|
    ensures r.Ok? ==> r.value.date == StubDate && r.value.successful
    ensures r.Ok? ==> r.value.uri == KeyAt(line, FindInLinePos(line, p, GenerateLabel))
    ensures r.Ok? ==> (r.value.uri.Some? <==> r.value.summarizerSamples.Some?)
    ensures r.Ok? ==> (r.value.uri.Some? <==> r.value.throughput.Some?)
    ensures r.Ok? && r.value.throughput.Some? ==>
      r.value.throughput.value >= 0.0 && r.value.summarizerSamples.value >= 0
    ensures var p1 := FindInLinePos(line, p, GenerateLabel);
      var counts := CountAndThroughput(KeyAt(line, p1));
      var stats := ReadStats(line, AfterKey(line, p1));
      && (r.Ok? <==> counts.Ok? && stats.Ok?)
      && (r.Ok? ==> r.value.duration == stats.value.average && r.value.summarizerMin == stats.value.minimum
                    && r.value.summarizerMax == stats.value.maximum && r.value.summarizerErrors == stats.value.errorPercent)
      && (r.Ok? && counts.value.Some? ==>
            r.value.summarizerSamples == Some(counts.value.value.0) && r.value.throughput == Some(counts.value.value.1))
  {
    var p1 := FindInLinePos(line, p, GenerateLabel);
    var key := KeyAt(line, p1);
    var counts :- CountAndThroughput(key);
    var stats :- ReadStats(line, AfterKey(line, p1));
    Ok(Sample(
      uri := key,
      date := StubDate,
      duration := stats.average,
      successful := true,
      summarizerSamples := if counts.Some? then Some(counts.value.0) else None,
      throughput := if counts.Some? then Some(counts.value.1) else None,
      summarizerMin := stats.minimum,
      summarizerMax := stats.maximum,
      summarizerErrors := stats.errorPercent))
  }

  /** The effect of one raw log line, as the loop body of `parse` has it. */
  function LineSpec(raw: string): (r: LineOutcome)
    ensures '+' in ReplaceEquals(raw) ==> r == Skipped
    ensures IndexOf(ReplaceEquals(raw), 0, Marker).None? ==> r == Skipped
    ensures r.Stored? ==> r.sample.uri == r.key && r.sample.successful && r.sample.date == StubDate
    ensures r.Stored? && r.key.Some? ==> MatchesCountTime(r.key.value)
    ensures r.Stored? ==> (r.key.Some? <==> r.sample.summarizerSamples.Some?)
    ensures r.Stored? ==> (r.key.Some? <==> r.sample.throughput.Some?)
    ensures r.Stored? && r.sample.throughput.Some? ==> r.sample.throughput.value >= 0.0
    ensures '+' !in ReplaceEquals(raw) && IndexOf(ReplaceEquals(raw), 0, Marker).Some? ==>
      var sample := ReadSample(ReplaceEquals(raw), IndexOf(ReplaceEquals(raw), 0, Marker).value + |Marker|);
      && (sample.Ok? ==> r == Stored(sample.value.uri, sample.value))
      && (sample.Err? ==> r == Aborted(sample.error))
  {
    var line := ReplaceEquals(raw);
    if '+' in line then Skipped
    else match IndexOf(line, 0, Marker)
      case None => Skipped
      case Some(i) =>
        match ReadSample(line, i + |Marker|)
        case Ok(s) => Stored(s.uri, s)
        case Err(e) => Aborted(e)
  }

  /** java.util.Scanner over one line: the text and a cursor into it. */
  class Scanner {
    const text: string
    var pos: nat

    ghost predicate Valid()
      reads this
    {
      pos <= |text|
    }

    constructor (line: string)
      ensures Valid() && text == line && pos == 0
    {
      text := line;
      pos := 0;
    }

    /** findInLine with a literal: advance just past its next occurrence, or stay. */
    method FindInLine(lit: string) returns (found: Option<string>)
      requires Valid()
      modifies this
      ensures Valid()
      ensures found.Some? <==> IndexOf(text, old(pos), lit).Some?
      ensures found.Some? ==> found.value == lit
      ensures pos == FindInLinePos(text, old(pos), lit)
    {
      var at := IndexOf(text, pos, lit);
      if at.Some? {
        pos := at.value + |lit|;
        found := Some(lit);
      } else {
        found := None;
      }
    }

    /** findInLine with the count/time pattern: the matched text, cursor past it. */
    method FindKey() returns (found: Option<string>)
      requires Valid()
      modifies this
      ensures Valid()
      ensures found == KeyAt(text, old(pos))
      ensures pos == AfterKey(text, old(pos))
    {
      var m := FindCountTime(text, pos);
      if m.Some? {
        found := Some(text[m.value.start..m.value.end]);
        pos := m.value.end;
      } else {
        found := None;
      }
    }

    /**
     * next(): the next token. On failure the cursor is left where it was,
     * whereas `java.util.Scanner` has already stepped over the delimiters;
     * the difference cannot be seen, since a failure aborts the whole parse.
     */
    method Next() returns (r: Result<string, ScanError>)
      requires Valid()
      modifies this
      ensures Valid()
      ensures r.Ok? <==> ScanToken(text, old(pos)).Ok?
      ensures r.Ok? ==> r.value == ScanToken(text, old(pos)).value.0 && pos == ScanToken(text, old(pos)).value.1
      ensures r.Err? ==> r.error == ScanToken(text, old(pos)).error && pos == old(pos)
    {
      var t := ScanToken(text, pos);
      if t.Ok? {
        r := Ok(t.value.0);
        pos := t.value.1;
      } else {
        r := Err(t.error);
      }
    }

    /**
     * nextLong() / nextInt(): the next token read as an integer inside [lo, hi];
     * as with `Next`, a failure leaves the cursor in place, which no caller observes.
     */
    method NextInteger(lo: int, hi: int) returns (r: Result<int, ScanError>)
      requires Valid()
      modifies this
      ensures Valid()
      ensures r.Ok? <==> ScanInteger(text, old(pos), lo, hi).Ok?
      ensures r.Ok? ==> r.value == ScanInteger(text, old(pos), lo, hi).value.0
      ensures r.Ok? ==> pos == ScanInteger(text, old(pos), lo, hi).value.1
      ensures r.Err? ==> r.error == ScanInteger(text, old(pos), lo, hi).error && pos == old(pos)
    {
      var v := ScanInteger(text, pos, lo, hi);
      if v.Ok? {
        r := Ok(v.value.0);
        pos := v.value.1;
      } else {
        r := Err(v.error);
      }
    }
  }

  /** The figures after the key, read through the line's Scanner. */
  method ScanStats(scanner: Scanner) returns (r: Result<Stats, ScanError>)
    requires scanner.Valid()
    modifies scanner
    ensures scanner.Valid()
    ensures r == ReadStats(scanner.text, old(scanner.pos))
  {
    var _ := scanner.FindInLine(AvgLabel);
    var avg := scanner.NextInteger(LongMin, LongMax);
    if avg.Err? {
      return Err(avg.error);
    }
    var _ := scanner.FindInLine(MinLabel);
    var min := scanner.NextInteger(LongMin, LongMax);
    if min.Err? {
      return Err(min.error);
    }
    var _ := scanner.FindInLine(MaxLabel);
    var max := scanner.NextInteger(LongMin, LongMax);
    if max.Err? {
      return Err(max.error);
    }
    var _ := scanner.FindInLine(ErrLabel);
    var errs := scanner.NextInteger(IntMin, IntMax);
    if errs.Err? {
      return Err(errs.error);
    }
    var token := scanner.Next();
    if token.Err? {
      return Err(token.error);
    }
    var pct := ParseDecimal(StripDecorations(token.value));
    if pct.None? {
      return Err(NumberFormat);
    }
    r := Ok(Stats(avg.value, min.value, max.value, pct.value));
  }

  /** The body of the per-line loop of `parse`, with a Scanner of its own. */
  method ParseLine(raw: string) returns (out: LineOutcome)
    ensures out == LineSpec(raw)
  {
    var line := ReplaceEquals(raw);
    if '+' in line {
      return Skipped;
    }
    var scanner := new Scanner(line);
    var marker := scanner.FindInLine(Marker);
    if marker.None? {
      return Skipped;
    }
    ghost var p := scanner.pos;
    var _ := scanner.FindInLine(GenerateLabel);
    var key := scanner.FindKey();
    var counts := CountAndThroughput(key);
    if counts.Err? {
      return Aborted(counts.error);
    }
    var stats := ScanStats(scanner);
    if stats.Err? {
      return Aborted(stats.error);
    }
    var sample := Sample(
      uri := key,
      date := StubDate,
      duration := stats.value.average,
      successful := true,
      summarizerSamples := if counts.value.Some? then Some(counts.value.value.0) else None,
      throughput := if counts.value.Some? then Some(counts.value.value.1) else None,
      summarizerMin := stats.value.minimum,
      summarizerMax := stats.value.maximum,
      summarizerErrors := stats.value.errorPercent);
    assert ReadSample(line, p) == Ok(sample);
    out := Stored(key, sample);
  }

  /** One line's outcome applied to the map: skip, put (replacing any earlier sample under the key) or abort. */
  function Apply(m: SampleMap, out: LineOutcome): (r: Result<SampleMap, ScanError>)
    ensures r.Err? <==> out.Aborted?
    ensures out.Aborted? ==> r.error == out.error
    ensures r.Ok? ==> r.value.Keys == m.Keys + (if out.Stored? then {out.key} else {})
    ensures out.Stored? ==> r.value[out.key] == out.sample
    ensures r.Ok? ==> forall k :: k in m && !(out.Stored? && out.key == k) ==> r.value[k] == m[k]
  {
    match out
    case Skipped => Ok(m)
    case Stored(k, s) => Ok(m[k := s])
    case Aborted(e) => Err(e)
  }

  /** The outcomes of the lines of a file, in order. */
  function Outcomes(lines: seq<string>): (outs: seq<LineOutcome>)
    ensures |outs| == |lines|
    ensures forall i :: 0 <= i < |lines| ==> outs[i] == LineSpec(lines[i])
  {
    seq(|lines|, i requires 0 <= i < |lines| => LineSpec(lines[i]))
  }

  /** Outcomes applied in order to the map `m`; the first abort ends the parse. */
  function ApplyAll(outs: seq<LineOutcome>, m: SampleMap): (r: Result<SampleMap, ScanError>)
    ensures r.Ok? ==> m.Keys <= r.value.Keys
    ensures r.Err? ==> exists i :: 0 <= i < |outs| && outs[i] == Aborted(r.error)
    decreases |outs|
  {
    if outs == [] then Ok(m)
    else match Apply(m, outs[0])
      case Ok(m') => ApplyAll(outs[1..], m')
      case Err(e) => Err(e)
  }

  /** The lines of one file applied in order to the map `m`. */
  function ParseLines(lines: seq<string>, m: SampleMap): (r: Result<SampleMap, ScanError>)
    ensures r.Ok? ==> m.Keys <= r.value.Keys
    ensures r.Err? ==> exists i :: 0 <= i < |lines| && LineSpec(lines[i]) == Aborted(r.error)
  {
    ApplyAll(Outcomes(lines), m)
  }

  /** The outcomes from index `i` on: the one at `i`, then the rest. */
  lemma ApplyAllAt(outs: seq<LineOutcome>, i: nat, m: SampleMap)
    requires i < |outs|
    ensures ApplyAll(outs[i..], m) ==
      match Apply(m, outs[i])
      case Ok(m') => ApplyAll(outs[i + 1..], m')
      case Err(e) => Err(e)
  {
    assert outs[i..][0] == outs[i] && outs[i..][1..] == outs[i + 1..];
  }

  /** One file: a fresh map, every line in order. */
  method ParseFile(lines: seq<string>) returns (r: Result<SampleMap, ScanError>)
    ensures r == ParseLines(lines, map[])
  {
    var samples: SampleMap := map[];
    var i := 0;
    ghost var outs := Outcomes(lines);
    ghost var whole := ParseLines(lines, map[]);
    assert outs[0..] == outs;
    while i < |lines|
      invariant 0 <= i <= |lines| && |outs| == |lines|
      invariant ApplyAll(outs[i..], samples) == whole
    {
      ApplyAllAt(outs, i, samples);
      var out := ParseLine(lines[i]);
      assert out == outs[i];
      match out {
        case Skipped =>
        case Stored(key, sample) =>
          samples := samples[key := sample];
        case Aborted(e) =>
          return Err(e);
      }
      i := i + 1;
    }
    assert outs[i..] == [];
    return Ok(samples);
  }

  /** A log file handed to the parser; `lines` is `None` when it cannot be opened. */
  datatype LogFile = LogFile(name: string, lines: Option<seq<string>>)

  /** A PerformanceReport as this parser builds it: the file name and one sample per key. */
  datatype Report = Report(fileName: string, samples: SampleMap)

  /** Every file in order; unopenable files are skipped, the first aborting line aborts everything. */
  function ParseFiles(files: seq<LogFile>): (r: Result<seq<Report>, ScanError>)
    ensures r.Ok? ==> |r.value| <= |files|
    decreases |files|
  {
    if files == [] then Ok([])
    else if files[0].lines.None? then ParseFiles(files[1..])
    else match ParseLines(files[0].lines.value, map[])
      case Err(e) => Err(e)
      case Ok(m) =>
        match ParseFiles(files[1..])
        case Err(e) => Err(e)
        case Ok(rest) => Ok([Report(files[0].name, m)] + rest)
  }

  function Prefixed(done: seq<Report>, r: Result<seq<Report>, ScanError>): Result<seq<Report>, ScanError> {
    match r
    case Ok(rest) => Ok(done + rest)
    case Err(e) => Err(e)
  }

  /** The files from index `i` on: the file at `i`, then the rest. */
  lemma ParseFilesAt(files: seq<LogFile>, i: nat)
    requires i < |files|
    ensures ParseFiles(files[i..]) ==
      if files[i].lines.None? then ParseFiles(files[i + 1..])
      else match ParseLines(files[i].lines.value, map[])
        case Err(e) => Err(e)
        case Ok(m) => Prefixed([Report(files[i].name, m)], ParseFiles(files[i + 1..]))
  {
    assert files[i..][0] == files[i] && files[i..][1..] == files[i + 1..];
  }

  /**
   * One step of `parse`: with `done` the reports so far, an unopenable file
   * adds nothing, an aborting file aborts everything, and any other file
   * adds its own report.
   */
  lemma ParseStep(files: seq<LogFile>, i: nat, done: seq<Report>)
    requires i < |files|
    requires Prefixed(done, ParseFiles(files[i..])) == ParseFiles(files)
    ensures files[i].lines.None? ==> Prefixed(done, ParseFiles(files[i + 1..])) == ParseFiles(files)
    ensures files[i].lines.Some? ==>
      match ParseLines(files[i].lines.value, map[])
      case Err(e) => ParseFiles(files) == Err(e)
      case Ok(m) => Prefixed(done + [Report(files[i].name, m)], ParseFiles(files[i + 1..])) == ParseFiles(files)
  {
    ParseFilesAt(files, i);
    hide *;
    if files[i].lines.Some? {
      match ParseLines(files[i].lines.value, map[]) {
        case Err(e) => PrefixedErr(done, e);
        case Ok(m) => PrefixedTwice(done, Report(files[i].name, m), ParseFiles(files[i + 1..]));
      }
    }
  }

  lemma PrefixedErr(done: seq<Report>, e: ScanError)
    ensures Prefixed(done, Err(e)) == Err(e)
  {
  }

  lemma PrefixedTwice(done: seq<Report>, report: Report, r: Result<seq<Report>, ScanError>)
    ensures Prefixed(done, Prefixed([report], r)) == Prefixed(done + [report], r)
  {
    if r.Ok? {
      assert done + ([report] + r.value) == done + [report] + r.value;
    }
  }

  /** `parse`: one report per file that opens, in input order. */
  method Parse(files: seq<LogFile>) returns (r: Result<seq<Report>, ScanError>)
    ensures r == ParseFiles(files)
  {
    hide ParseLines;
    var result: seq<Report> := [];
    var i := 0;
    assert files[0..] == files;
    match ParseFiles(files) {
      case Err(_) =>
      case Ok(all) => assert [] + all == all;
    }
    while i < |files|
      invariant 0 <= i <= |files|
      invariant Prefixed(result, ParseFiles(files[i..])) == ParseFiles(files)
    {
      ParseStep(files, i, result);
      match files[i].lines {
        case None =>
        case Some(lines) =>
          var samples := ParseFile(lines);
          if samples.Err? {
            return Err(samples.error);
          }
          result := result + [Report(files[i].name, samples.value)];
      }
      i := i + 1;
    }
    assert files[i..] == [] && result + [] == result;
    return Ok(result);
  }

  // ---------------------------------------------------------------------
  // Properties of the file and multi-file specifications.
  // ---------------------------------------------------------------------

  /** The fold completes exactly when no outcome is an abort. */
  lemma {:induction false} ApplyAllOkIff(outs: seq<LineOutcome>, m: SampleMap)
    ensures ApplyAll(outs, m).Ok? <==> forall i :: 0 <= i < |outs| ==> !outs[i].Aborted?
    decreases |outs|
  {
    if outs != [] {
      match Apply(m, outs[0])
      case Ok(m') =>
        ApplyAllOkIff(outs[1..], m');
        forall i | 0 < i < |outs| ensures outs[i] == outs[1..][i - 1] { }
      case Err(e) =>
    }
  }

  /** A file parses without aborting exactly when none of its lines aborts. */
  lemma ParseLinesOkIff(lines: seq<string>, m: SampleMap)
    ensures ParseLines(lines, m).Ok? <==> forall i :: 0 <= i < |lines| ==> !LineSpec(lines[i]).Aborted?
  {
    ApplyAllOkIff(Outcomes(lines), m);
  }

  /** Appending an outcome applies it to the map of the outcomes before it. */
  lemma {:induction false} ApplyAllSnoc(outs: seq<LineOutcome>, last: LineOutcome, m: SampleMap)
    ensures ApplyAll(outs + [last], m) ==
      match ApplyAll(outs, m)
      case Ok(m') => Apply(m', last)
      case Err(e) => Err(e)
    decreases |outs|
  {
    if outs == [] {
      assert [last][1..] == [];
    } else {
      assert (outs + [last])[0] == outs[0] && (outs + [last])[1..] == outs[1..] + [last];
      match Apply(m, outs[0])
      case Ok(m') => ApplyAllSnoc(outs[1..], last, m');
      case Err(e) =>
    }
  }

  /** The sample of the last outcome that stores under `k`, if any: the reference for last-wins. */
  function LastStored(outs: seq<LineOutcome>, k: Option<string>): Option<Sample>
    decreases |outs|
  {
    if outs == [] then None
    else
      var out := outs[|outs| - 1];
      if out.Stored? && out.key == k then Some(out.sample)
      else LastStored(outs[..|outs| - 1], k)
  }

  /** What one outcome does to the entry under `k`. */
  lemma ApplyEntry(m: SampleMap, out: LineOutcome, k: Option<string>)
    requires Apply(m, out).Ok?
    ensures var m' := Apply(m, out).value;
      && (out.Stored? && out.key == k ==> k in m' && m'[k] == out.sample)
      && (!(out.Stored? && out.key == k) ==> (k in m' <==> k in m) && (k in m ==> m'[k] == m[k]))
  {
  }

  /** A key some outcome stores ends up holding the last such outcome's sample. */
  lemma {:induction false} LastStoredWins(outs: seq<LineOutcome>, m: SampleMap, k: Option<string>)
    requires ApplyAll(outs, m).Ok? && LastStored(outs, k).Some?
    ensures k in ApplyAll(outs, m).value
    ensures ApplyAll(outs, m).value[k] == LastStored(outs, k).value
    decreases |outs|
  {
    var init := outs[..|outs| - 1];
    var last := outs[|outs| - 1];
    assert init + [last] == outs;
    ApplyAllSnoc(init, last, m);
    ApplyEntry(ApplyAll(init, m).value, last, k);
    if !(last.Stored? && last.key == k) {
      LastStoredWins(init, m, k);
    }
  }

  /** A key no outcome stores keeps its entry, or its absence. */
  lemma {:induction false} UnstoredKeyKept(outs: seq<LineOutcome>, m: SampleMap, k: Option<string>)
    requires ApplyAll(outs, m).Ok? && LastStored(outs, k).None?
    ensures k in ApplyAll(outs, m).value <==> k in m
    ensures k in m ==> ApplyAll(outs, m).value[k] == m[k]
    decreases |outs|
  {
    if outs != [] {
      var init := outs[..|outs| - 1];
      var last := outs[|outs| - 1];
      assert init + [last] == outs;
      ApplyAllSnoc(init, last, m);
      ApplyEntry(ApplyAll(init, m).value, last, k);
      UnstoredKeyKept(init, m, k);
    }
  }

  /**
   * Last wins: after a file parses, a key stored by some line holds the
   * sample of the last such line, and every other key is as it was before.
   */
  lemma ParseLinesLastWins(lines: seq<string>, m: SampleMap, k: Option<string>)
    ensures ParseLines(lines, m).Ok? ==>
      var m' := ParseLines(lines, m).value;
      var last := LastStored(Outcomes(lines), k);
      && (last.Some? ==> k in m' && m'[k] == last.value)
      && (last.None? ==> (k in m' <==> k in m) && (k in m ==> m'[k] == m[k]))
  {
    if ParseLines(lines, m).Ok? {
      if LastStored(Outcomes(lines), k).Some? {
        LastStoredWins(Outcomes(lines), m, k);
      } else {
        UnstoredKeyKept(Outcomes(lines), m, k);
      }
    }
  }

  /** Folding outcomes that store each sample under its own uri keeps every entry under its uri. */
  lemma {:induction false} ApplyAllKeysAreUris(outs: seq<LineOutcome>, m: SampleMap)
    requires forall k :: k in m ==> m[k].uri == k
    requires forall i :: 0 <= i < |outs| && outs[i].Stored? ==> outs[i].sample.uri == outs[i].key
    requires ApplyAll(outs, m).Ok?
    ensures forall k :: k in ApplyAll(outs, m).value ==> ApplyAll(outs, m).value[k].uri == k
    decreases |outs|
  {
    if outs != [] {
      var m' := Apply(m, outs[0]).value;
      assert forall k :: k in m' ==> m'[k].uri == k;
      assert forall i :: 0 <= i < |outs[1..]| ==> outs[1..][i] == outs[i + 1];
      ApplyAllKeysAreUris(outs[1..], m');
    }
  }

  /** Every entry of a parsed file is stored under its own uri. */
  lemma ParseLinesKeysAreUris(lines: seq<string>, m: SampleMap)
    requires forall k :: k in m ==> m[k].uri == k
    ensures ParseLines(lines, m).Ok? ==>
      forall k :: k in ParseLines(lines, m).value ==> ParseLines(lines, m).value[k].uri == k
  {
    if ParseLines(lines, m).Ok? {
      ApplyAllKeysAreUris(Outcomes(lines), m);
    }
  }

  /** A skipped outcome can be removed without effect. */
  lemma {:induction false} SkippedOutcomeIsIrrelevant(before: seq<LineOutcome>, after: seq<LineOutcome>, m: SampleMap)
    ensures ApplyAll(before + [Skipped] + after, m) == ApplyAll(before + after, m)
    decreases |before|
  {
    if before == [] {
      assert ([Skipped] + after)[0] == Skipped && ([Skipped] + after)[1..] == after;
      assert before + [Skipped] + after == [Skipped] + after;
      assert before + after == after;
    } else {
      assert (before + [Skipped] + after)[0] == before[0];
      assert (before + [Skipped] + after)[1..] == before[1..] + [Skipped] + after;
      assert (before + after)[0] == before[0];
      assert (before + after)[1..] == before[1..] + after;
      match Apply(m, before[0])
      case Ok(m') => SkippedOutcomeIsIrrelevant(before[1..], after, m');
      case Err(e) =>
    }
  }

  /** A line that is skipped (a `+` line, a line without the marker) can be removed without effect. */
  lemma SkippedLineIsIrrelevant(before: seq<string>, line: string, after: seq<string>, m: SampleMap)
    requires LineSpec(line).Skipped?
    ensures ParseLines(before + [line] + after, m) == ParseLines(before + after, m)
  {
    OutcomesAppend(before + [line], after);
    OutcomesAppend(before, [line]);
    OutcomesAppend(before, after);
    assert Outcomes([line]) == [Skipped];
    SkippedOutcomeIsIrrelevant(Outcomes(before), Outcomes(after), m);
  }

  lemma OutcomesAppend(a: seq<string>, b: seq<string>)
    ensures Outcomes(a + b) == Outcomes(a) + Outcomes(b)
  {
    var l, r := Outcomes(a + b), Outcomes(a) + Outcomes(b);
    assert |l| == |r|;
    forall i | 0 <= i < |l| ensures l[i] == r[i] {
      if i < |a| {
        assert (a + b)[i] == a[i];
      } else {
        assert (a + b)[i] == b[i - |a|];
      }
    }
  }

  /** The files that can be opened, in input order. */
  function Opened(files: seq<LogFile>): (r: seq<LogFile>)
    ensures |r| <= |files|
    ensures forall j :: 0 <= j < |r| ==> r[j].lines.Some?
    decreases |files|
  {
    if files == [] then []
    else if files[0].lines.None? then Opened(files[1..])
    else [files[0]] + Opened(files[1..])
  }

  /** An opened file whose lines all parse without aborting. */
  predicate FileParses(f: LogFile) {
    f.lines.Some? && ParseLines(f.lines.value, map[]).Ok?
  }

  /** A property of every opened file holds of the first file, if it opens, and of every opened file after it. */
  lemma OpenedAllSplit(files: seq<LogFile>, P: LogFile -> bool)
    requires files != []
    requires forall j :: 0 <= j < |Opened(files)| ==> P(Opened(files)[j])
    ensures files[0].lines.Some? ==> P(files[0])
    ensures forall j :: 0 <= j < |Opened(files[1..])| ==> P(Opened(files[1..])[j])
  {
    var os := Opened(files);
    var rest := Opened(files[1..]);
    if files[0].lines.Some? {
      assert os == [files[0]] + rest;
      assert P(os[0]);
      forall j | 0 <= j < |rest| ensures P(rest[j]) {
        assert rest[j] == os[j + 1];
      }
    } else {
      assert os == rest;
    }
  }

  /** If every file that opens parses without aborting, `parse` completes. */
  lemma {:induction false} AllFilesParseThenOk(files: seq<LogFile>)
    requires forall j :: 0 <= j < |Opened(files)| ==> FileParses(Opened(files)[j])
    ensures ParseFiles(files).Ok?
    decreases |files|
  {
    if files != [] {
      OpenedAllSplit(files, FileParses);
      AllFilesParseThenOk(files[1..]);
    }
  }

  /**
   * When `parse` completes, it returns exactly one report per file that
   * opens, in input order, named after the file and holding that file's own
   * map.
   */
  lemma {:induction false} ParseFilesOneReportPerOpenedFile(files: seq<LogFile>)
    requires ParseFiles(files).Ok?
    ensures |ParseFiles(files).value| == |Opened(files)|
    ensures forall j :: 0 <= j < |Opened(files)| ==>
      FileParses(Opened(files)[j]) &&
      ParseFiles(files).value[j] ==
        Report(Opened(files)[j].name, ParseLines(Opened(files)[j].lines.value, map[]).value)
    decreases |files|
  {
    if files == [] {
      return;
    }
    var tail := files[1..];
    if files[0].lines.Some? {
      var m := ParseLines(files[0].lines.value, map[]).value;
      var rs' := ParseFiles(tail).value;
      ParseFilesOneReportPerOpenedFile(tail);
      var os := Opened(files);
      var rest := Opened(tail);
      assert os == [files[0]] + rest;
      assert ParseFiles(files).value == [Report(files[0].name, m)] + rs';
      assert forall j :: 0 < j < |os| ==> os[j] == rest[j - 1];
    } else {
      ParseFilesOneReportPerOpenedFile(tail);
    }
  }

  /** An aborted `parse` carries the error of the first file that opens and aborts. */
  lemma {:induction false} ParseFilesErrorFromFile(files: seq<LogFile>)
    ensures ParseFiles(files).Err? ==>
      exists i :: 0 <= i < |files| && files[i].lines.Some? && ParseLines(files[i].lines.value, map[]) == Err(ParseFiles(files).error)
    decreases |files|
  {
    hide ParseLines;
    if files != [] && ParseFiles(files).Err? {
      var rest := files[1..];
      if files[0].lines.Some? && ParseLines(files[0].lines.value, map[]).Err? {
        assert ParseLines(files[0].lines.value, map[]) == Err(ParseFiles(files).error);
      } else {
        assert ParseFiles(rest).Err? && ParseFiles(rest).error == ParseFiles(files).error;
        ParseFilesErrorFromFile(rest);
        var i :| 0 <= i < |rest| && rest[i].lines.Some? && ParseLines(rest[i].lines.value, map[]) == Err(ParseFiles(rest).error);
        assert files[i + 1] == rest[i];
      }
    }
  }

  /** `parse` completes exactly when every file that opens parses without aborting. */
  lemma ParseFilesOkIff(files: seq<LogFile>)
    ensures ParseFiles(files).Ok? <==> forall j :: 0 <= j < |Opened(files)| ==> FileParses(Opened(files)[j])
  {
    if forall j :: 0 <= j < |Opened(files)| ==> FileParses(Opened(files)[j]) {
      AllFilesParseThenOk(files);
    }
    if ParseFiles(files).Ok? {
      ParseFilesOneReportPerOpenedFile(files);
      var os := Opened(files);
      forall j | 0 <= j < |os| ensures FileParses(os[j]) { }
    }
  }
}
