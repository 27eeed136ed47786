/**
 * Text primitives behind the summarizer-log parser: the character classes the
 * Java regular expressions and java.util.Scanner use, literal search from a
 * cursor, whitespace-delimited tokens, integer and decimal text, and the
 * `\s*([0-9]*)\s*in\s*([0-9.]*)s\s*` count/time pattern.
 */
module ScanText {
  import opened Wrappers

  /** Why a scanner step failed; in the source each one is an unchecked exception. */
  datatype ScanError =
    | NoSuchElement   // Scanner.next/nextLong/nextInt found no further token
    | InputMismatch   // the token is not an integer of the requested width
    | NumberFormat    // Long.valueOf / Double.valueOf / Float.valueOf refused its text

  /** The regular-expression class `\s`. */
  predicate IsRegexSpace(c: char) {
    c == ' ' || c == '\t' || c == '\n' || c == '\U{000B}' || c == '\U{000C}' || c == '\r'
  }

  /** The Scanner's default delimiter, Java whitespace (its ASCII members). */
  predicate IsDelimiter(c: char) {
    IsRegexSpace(c) || ('\U{001C}' <= c <= '\U{001F}')
  }

  predicate IsDigit(c: char) {
    '0' <= c <= '9'
  }

  datatype CharClass = RegexSpace | Delimiter | NonDelimiter | Digit | DigitOrDot

  predicate InClass(c: char, k: CharClass) {
    match k
    case RegexSpace => IsRegexSpace(c)
    case Delimiter => IsDelimiter(c)
    case NonDelimiter => !IsDelimiter(c)
    case Digit => IsDigit(c)
    case DigitOrDot => IsDigit(c) || c == '.'
  }

  /** End of the maximal run of class `k` starting at `i` (a greedy `[k]*`). */
  function SpanEnd(s: string, i: nat, k: CharClass): (r: nat)
    requires i <= |s|
    ensures i <= r <= |s|
    ensures r == |s| || !InClass(s[r], k)
    decreases |s| - i
  {
    if i == |s| || !InClass(s[i], k) then i else SpanEnd(s, i + 1, k)
  }

  /** Every character of the run belongs to the class. */
  lemma {:induction false} SpanEndRun(s: string, i: nat, k: CharClass)
    requires i <= |s|
    ensures forall j :: i <= j < SpanEnd(s, i, k) ==> InClass(s[j], k)
    decreases |s| - i
  {
    if i < |s| && InClass(s[i], k) {
      SpanEndRun(s, i + 1, k);
    }
  }

  /** Every character of `s[i..j]` belongs to class `k`. */
  predicate AllIn(s: string, i: nat, j: nat, k: CharClass)
    requires i <= j <= |s|
  {
    forall x :: i <= x < j ==> InClass(s[x], k)
  }

  /** A run of class `k` from `i` that stops at `j` is the greedy run. */
  lemma {:induction false} SpanEndAt(s: string, i: nat, j: nat, k: CharClass)
    requires i <= j <= |s| && AllIn(s, i, j, k) && (j == |s| || !InClass(s[j], k))
    ensures SpanEnd(s, i, k) == j
    decreases j - i
  {
    if i < j {
      SpanEndAt(s, i + 1, j, k);
    }
  }

  /** The greedy run of class `k` from `i` reaches past every run of that class from `i`. */
  lemma {:induction false} SpanEndCovers(s: string, i: nat, j: nat, k: CharClass)
    requires i <= j <= |s| && AllIn(s, i, j, k)
    ensures j <= SpanEnd(s, i, k)
    decreases j - i
  {
    if i < j {
      SpanEndCovers(s, i + 1, j, k);
    }
  }

  /** A greedy run read from inside a slice ends where it ends in the whole text. */
  lemma {:induction false} SpanEndInSlice(s: string, lo: nat, hi: nat, i: nat, k: CharClass)
    requires lo <= i <= hi <= |s|
    requires SpanEnd(s, i, k) <= hi
    ensures SpanEnd(s[lo..hi], i - lo, k) == SpanEnd(s, i, k) - lo
    decreases hi - i
  {
    var t := s[lo..hi];
    if i < hi && InClass(s[i], k) {
      assert t[i - lo] == s[i];
      SpanEndInSlice(s, lo, hi, i + 1, k);
    } else if i < hi {
      assert t[i - lo] == s[i];
    }
  }

  /** A slice of a slice, with the inner bounds named relative to the outer slice. */
  lemma SliceOfSlice(s: string, lo: nat, hi: nat, i: nat, j: nat, i': nat, j': nat)
    requires lo <= i <= j <= hi <= |s| && i' + lo == i && j' + lo == j
    ensures s[lo..hi][i'..j'] == s[i..j]
  {
    var t := s[lo..hi][i'..j'];
    assert |t| == j - i;
    forall x | 0 <= x < j - i ensures t[x] == s[i..j][x] {
      assert t[x] == s[lo..hi][i' + x] == s[i + x];
    }
  }

  /** `lit` occurs in `s` at index `j`. */
  predicate Occurs(s: string, j: nat, lit: string) {
    j + |lit| <= |s| && s[j..j + |lit|] == lit
  }

  /** First occurrence of `lit` at or after `from`. */
  function IndexOf(s: string, from: nat, lit: string): (r: Option<nat>)
    requires from <= |s|
    ensures r.Some? ==> from <= r.value && Occurs(s, r.value, lit)
    ensures forall j :: from <= j && (r.None? || j < r.value) ==> !Occurs(s, j, lit)
    decreases |s| - from
  {
    if from + |lit| > |s| then None
    else if s[from..from + |lit|] == lit then Some(from)
    else IndexOf(s, from + 1, lit)
  }

  /**
   * Cursor after Scanner.findInLine(lit): just past the first occurrence at or
   * after `from`, or `from` itself when there is none.
   */
  function FindInLinePos(s: string, from: nat, lit: string): (r: nat)
    requires from <= |s|
    ensures from <= r <= |s|
    ensures IndexOf(s, from, lit).None? <==> r == from && (|lit| > 0 || !Occurs(s, from, lit))
    ensures IndexOf(s, from, lit).Some? ==> r == IndexOf(s, from, lit).value + |lit|
  {
    match IndexOf(s, from, lit)
    case None => from
    case Some(j) => j + |lit|
  }

  /**
   * Scanner.next(): skip delimiters from `i`, then take the maximal run of
   * non-delimiters. Yields the token and the cursor after it.
   */
  function ScanToken(s: string, i: nat): (r: Result<(string, nat), ScanError>)
    requires i <= |s|
    ensures r.Ok? ==> i < r.value.1 <= |s| && 0 < |r.value.0| <= r.value.1 - i
    ensures r.Ok? ==> forall j :: 0 <= j < |r.value.0| ==> !IsDelimiter(r.value.0[j])
    ensures r.Ok? ==> r.value.1 == |s| || IsDelimiter(s[r.value.1])
    ensures r.Err? <==> forall j :: i <= j < |s| ==> IsDelimiter(s[j])
    ensures r.Err? ==> r.error == NoSuchElement
  {
    var j := SpanEnd(s, i, Delimiter);
    if j == |s| then SpanEndRun(s, i, Delimiter); Err(NoSuchElement)
    else
      var k := SpanEnd(s, j, NonDelimiter);
      SpanEndRun(s, i, Delimiter);
      SpanEndRun(s, j, NonDelimiter);
      assert !IsDelimiter(s[j]);
      Ok((s[j..k], k))
  }

  /** Scanner.next() returns the first run of non-delimiters after the delimiters at the cursor. */
  lemma TokenAt(s: string, i: nat, j: nat, k: nat)
    requires i <= j < k <= |s| && AllIn(s, i, j, Delimiter) && AllIn(s, j, k, NonDelimiter)
    requires k == |s| || IsDelimiter(s[k])
    ensures ScanToken(s, i) == Ok((s[j..k], k))
  {
    SpanEndAt(s, i, j, Delimiter);
    SpanEndAt(s, j, k, NonDelimiter);
  }

  predicate AllDigits(d: string) {
    forall j :: 0 <= j < |d| ==> IsDigit(d[j])
  }

  function DigitValue(c: char): (r: nat)
    requires IsDigit(c)
    ensures r < 10
  {
    c as int - '0' as int
  }

  /** Value of a run of decimal digits, most significant first. */
  function DigitsValue(d: string): (r: nat)
    requires AllDigits(d)
    decreases |d|
  {
    if d == [] then 0 else 10 * DigitsValue(d[..|d| - 1]) + DigitValue(d[|d| - 1])
  }

  function Pow10(n: nat): (r: nat)
    ensures r >= 1
  {
    if n == 0 then 1 else 10 * Pow10(n - 1)
  }

  /** An optional leading `-` or `+`, split from the rest. */
  function SplitSign(t: string): (r: (bool, string))
    ensures r.0 ==> |t| > 0 && t[0] == '-' && r.1 == t[1..]
    ensures !r.0 ==> r.1 == t || (|t| > 0 && t[0] == '+' && r.1 == t[1..])
  {
    if |t| > 0 && (t[0] == '-' || t[0] == '+') then (t[0] == '-', t[1..]) else (false, t)
  }

  const LongMin: int := -0x8000_0000_0000_0000
  const LongMax: int := 0x7FFF_FFFF_FFFF_FFFF
  const IntMin: int := -0x8000_0000
  const IntMax: int := 0x7FFF_FFFF

  /**
   * Integer text as Long.valueOf and Scanner.nextLong/nextInt read it: an
   * optional sign, at least one decimal digit, and a value inside [lo, hi]
   * (the width of the Java type).
   */
  function ParseInteger(t: string, lo: int, hi: int): (r: Option<int>)
    ensures r.Some? ==> lo <= r.value <= hi
    ensures r.Some? ==> |SplitSign(t).1| > 0 && AllDigits(SplitSign(t).1)
    ensures AllDigits(t) && |t| > 0 && lo <= DigitsValue(t) <= hi ==> r == Some(DigitsValue(t))
  {
    var (neg, u) := SplitSign(t);
    if |u| == 0 || !AllDigits(u) then None
    else
      var n: int := DigitsValue(u);
      var v := if neg then -n else n;
      if lo <= v <= hi then Some(v) else None
  }

  /** Decimal text of a natural number, as a writer of the log prints it. */
  function NatText(n: nat): (r: string)
    ensures |r| > 0
    decreases n
  {
    var last := ['0' + (n % 10) as char];
    if n < 10 then last else NatText(n / 10) + last
  }

  /** Printing a natural number and reading it back yields the number. */
  lemma {:induction false} NatTextRoundTrip(n: nat)
    ensures AllDigits(NatText(n)) && DigitsValue(NatText(n)) == n
    decreases n
  {
    var t := NatText(n);
    if n >= 10 {
      NatTextRoundTrip(n / 10);
      assert t[..|t| - 1] == NatText(n / 10);
    }
  }

  /** A printed integer of the right width is read back exactly. */
  lemma IntegerRoundTrip(n: int, lo: int, hi: int)
    requires lo <= n <= hi
    ensures ParseInteger(if n < 0 then "-" + NatText(-n) else NatText(n), lo, hi) == Some(n)
  {
    if n < 0 {
      NatTextRoundTrip(-n);
      var t := "-" + NatText(-n);
      assert SplitSign(t) == (true, NatText(-n));
    } else {
      NatTextRoundTrip(n);
      assert NatText(n)[0] != '-' && NatText(n)[0] != '+';
    }
  }

  /**
   * Decimal text as Double.valueOf / Float.valueOf read it: an optional sign,
   * then digits with at most one `.`, and at least one digit. The value is
   * exact.
   */
  function ParseDecimal(t: string): (r: Option<real>)
    ensures r.Some? <==> DecimalForm(SplitSign(t).1)
    ensures r.Some? && !SplitSign(t).0 ==> r.value >= 0.0
    ensures AllDigits(t) && |t| > 0 ==> r == Some(DigitsValue(t) as real)
  {
    var (neg, u) := SplitSign(t);
    var dot := IndexOf(u, 0, ".");
    var ip := if dot.Some? then u[..dot.value] else u;
    var fp := if dot.Some? then u[dot.value + 1..] else "";
    DecimalFormAtDot(u);
    if AllDigits(ip) && AllDigits(fp) && |ip| + |fp| > 0 then
      var m := PointValue(ip, fp);
      Some(if neg then -m else m)
    else
      None
  }

  /** The value of whole digits `ip`, a point and fraction digits `fp`. */
  function PointValue(ip: string, fp: string): (r: real)
    requires AllDigits(ip) && AllDigits(fp)
    ensures r >= DigitsValue(ip) as real
    ensures r < DigitsValue(ip) as real + 1.0
  {
    FractionBelowOne(fp);
    ProperFraction(DigitsValue(fp), Pow10(|fp|));
    DigitsValue(ip) as real + DigitsValue(fp) as real / Pow10(|fp|) as real
  }

  /** A natural number over a larger one is a proper fraction. */
  lemma ProperFraction(x: nat, y: nat)
    requires x < y
    ensures 0.0 <= x as real / y as real < 1.0
  {
    var q := x as real / y as real;
    assert q * y as real == x as real;
    if q >= 1.0 {
      assert false;
    }
  }

  /** Fraction digits are worth less than one. */
  lemma {:induction false} FractionBelowOne(fp: string)
    requires AllDigits(fp)
    ensures DigitsValue(fp) < Pow10(|fp|)
    decreases |fp|
  {
    if fp != [] {
      FractionBelowOne(fp[..|fp| - 1]);
    }
  }

  /** Unsigned decimal text: digits with at most one `.` among them, and at least one digit. */
  predicate DecimalForm(u: string) {
    && (forall j :: 0 <= j < |u| ==> IsDigit(u[j]) || u[j] == '.')
    && (forall i, j :: 0 <= i < j < |u| && u[i] == '.' ==> u[j] != '.')
    && (exists j :: 0 <= j < |u| && IsDigit(u[j]))
  }

  /** Cutting at the first `.` leaves two digit runs, not both empty, exactly for decimal text. */
  lemma DecimalFormAtDot(u: string)
    ensures var dot := IndexOf(u, 0, ".");
            var ip := if dot.Some? then u[..dot.value] else u;
            var fp := if dot.Some? then u[dot.value + 1..] else "";
            AllDigits(ip) && AllDigits(fp) && |ip| + |fp| > 0 <==> DecimalForm(u)
  {
    var dot := IndexOf(u, 0, ".");
    var d := if dot.Some? then dot.value else |u|;
    assert forall j :: 0 <= j < d ==> u[j] != '.' by {
      forall j | 0 <= j < d ensures u[j] != '.' {
        assert !Occurs(u, j, ".");
        assert u[j..j + 1] == [u[j]];
      }
    }
    if dot.Some? {
      assert u[d..d + 1] == "." && u[d] == '.';
      var ip, fp := u[..d], u[d + 1..];
      if AllDigits(ip) && AllDigits(fp) && |ip| + |fp| > 0 {
        assert forall j :: 0 <= j < |u| && j != d ==> IsDigit(u[j]) by {
          forall j | 0 <= j < |u| && j != d ensures IsDigit(u[j]) {
            if j < d { assert u[j] == ip[j]; } else { assert u[j] == fp[j - d - 1]; }
          }
        }
        if |ip| > 0 { assert IsDigit(u[0]); } else { assert IsDigit(u[d + 1]) && u[d + 1] == fp[0]; }
      }
      if DecimalForm(u) {
        assert AllDigits(ip) by {
          forall j | 0 <= j < |ip| ensures IsDigit(ip[j]) { assert ip[j] == u[j]; }
        }
        assert AllDigits(fp) by {
          forall j | 0 <= j < |fp| ensures IsDigit(fp[j]) { assert fp[j] == u[d + 1 + j]; }
        }
        var k :| 0 <= k < |u| && IsDigit(u[k]);
        assert k != d;
      }
    } else {
      if DecimalForm(u) {
        var k :| 0 <= k < |u| && IsDigit(u[k]);
      }
      if AllDigits(u) && |u| > 0 {
        assert IsDigit(u[0]);
      }
    }
  }

  /** The first occurrence of `lit` from `from` is at `at` when it occurs there and nowhere before. */
  lemma {:induction false} IndexOfFirst(s: string, from: nat, at: nat, lit: string)
    requires from <= at && Occurs(s, at, lit)
    requires forall j :: from <= j < at ==> !Occurs(s, j, lit)
    ensures IndexOf(s, from, lit) == Some(at)
    decreases at - from
  {
    if from < at {
      IndexOfFirst(s, from + 1, at, lit);
    }
  }

  /** Characters that cannot start `lit` are passed over by the search. */
  lemma {:induction false} IndexOfSkips(s: string, from: nat, past: nat, lit: string)
    requires from <= past <= |s| && |lit| > 0
    requires forall j :: from <= j < past ==> s[j] != lit[0]
    ensures IndexOf(s, from, lit) == IndexOf(s, past, lit)
    decreases past - from
  {
    if from < past {
      if from + |lit| <= |s| {
        assert s[from..from + |lit|][0] == s[from];
      }
      IndexOfSkips(s, from + 1, past, lit);
    }
  }

  /** Unsigned text whose first `.` is at `d` is read as its two digit runs. */
  lemma DecimalAtDot(u: string, d: nat)
    requires d < |u| && u[d] == '.' && AllDigits(u[..d]) && AllDigits(u[d + 1..])
    requires d > 0 && IsDigit(u[0])
    requires IndexOf(u, 0, ".") == Some(d)
    ensures ParseDecimal(u) == Some(PointValue(u[..d], u[d + 1..]))
  {
    hide DecimalForm, DigitsValue, PointValue, IndexOf;
    assert SplitSign(u) == (false, u);
  }

  /** Whole digits, a point and fraction digits are read as the exact decimal value. */
  lemma DecimalPointValue(a: nat, ds: string)
    requires AllDigits(ds)
    ensures ParseDecimal(NatText(a) + "." + ds)
            == Some(a as real + DigitsValue(ds) as real / Pow10(|ds|) as real)
  {
    hide ParseDecimal, NatText, DigitsValue;
    NatTextRoundTrip(a);
    DecimalPointText(a, ds);
  }

  /** `NatText(a) + "." + ds` splits at its point into the number and the fraction digits. */
  lemma DecimalPointText(a: nat, ds: string)
    requires AllDigits(ds)
    ensures AllDigits(NatText(a))
    ensures ParseDecimal(NatText(a) + "." + ds) == Some(PointValue(NatText(a), ds))
  {
    NatTextRoundTrip(a);
    hide NatText, DigitsValue, PointValue, ParseDecimal;
    PointSplits(NatText(a), ds);
  }

  /** Digits, a point and digits split at that point. */
  lemma PointSplits(w: string, ds: string)
    requires AllDigits(w) && |w| > 0 && AllDigits(ds)
    ensures ParseDecimal(w + "." + ds) == Some(PointValue(w, ds))
  {
    var t := w + "." + ds;
    forall j | 0 <= j < |w| ensures !Occurs(t, j, ".") {
      assert t[j..j + 1] == [w[j]];
    }
    assert t[|w|..|w| + 1] == ".";
    IndexOfFirst(t, 0, |w|, ".");
    assert t[..|w|] == w && t[|w| + 1..] == ds;
    assert IsDigit(t[0]) by { assert t[0] == w[0]; }
    hide *;
    DecimalAtDot(t, |w|);
  }

  /** The text `s[p..]` starts with a match of the count/time pattern. */
  datatype CountTime = CountTime(start: nat, end: nat, count: string, time: string)

  /**
   * Where the greedy parts of a match of
   * `\s*([0-9]*)\s*in\s*([0-9.]*)s\s*` end: the count group is
   * `countStart..countEnd`, `in` sits at `inAt`, the time group is
   * `timeStart..timeEnd`, `s` sits at `timeEnd`, and the match ends at `end`.
   */
  datatype RunEnds = RunEnds(countStart: nat, countEnd: nat, inAt: nat, timeStart: nat, timeEnd: nat, end: nat)

  /**
   * The parts of a match starting exactly at `p`. Every part is greedy and no
   * part can give characters back to the next one, so the first greedy attempt
   * is the only candidate.
   */
  function MatchRunEnds(s: string, p: nat): (r: Option<RunEnds>)
    requires p <= |s|
    ensures r.Some? ==> p <= r.value.countStart <= r.value.countEnd <= r.value.inAt
    ensures r.Some? ==> r.value.inAt + 2 <= r.value.timeStart <= r.value.timeEnd < r.value.end <= |s|
  {
    var a := SpanEnd(s, p, RegexSpace);
    var b := SpanEnd(s, a, Digit);
    var c := SpanEnd(s, b, RegexSpace);
    if !(c + 2 <= |s| && s[c] == 'i' && s[c + 1] == 'n') then None
    else
      var d := SpanEnd(s, c + 2, RegexSpace);
      var e := SpanEnd(s, d, DigitOrDot);
      if !(e < |s| && s[e] == 's') then None
      else Some(RunEnds(a, b, c, d, e, SpanEnd(s, e + 1, RegexSpace)))
  }

  /**
   * `s[p..q.end]` reads as `\s*([0-9]*)\s*in\s*([0-9.]*)s\s*` cut at the
   * places `q` names: white space, the count's digits, white space, `in`,
   * white space, the time's digits and dots, `s`, white space. Any cut points
   * qualify, greedy or not: this is what the pattern accepts, not how the
   * matcher finds it.
   */
  predicate IsSplit(s: string, p: nat, q: RunEnds) {
    && p <= q.countStart <= q.countEnd <= q.inAt && q.inAt + 2 <= q.timeStart <= q.timeEnd < q.end <= |s|
    && AllIn(s, p, q.countStart, RegexSpace) && AllIn(s, q.countStart, q.countEnd, Digit)
    && AllIn(s, q.countEnd, q.inAt, RegexSpace) && s[q.inAt] == 'i' && s[q.inAt + 1] == 'n'
    && AllIn(s, q.inAt + 2, q.timeStart, RegexSpace) && AllIn(s, q.timeStart, q.timeEnd, DigitOrDot)
    && s[q.timeEnd] == 's' && AllIn(s, q.timeEnd + 1, q.end, RegexSpace)
  }

  /** What the greedy parts find is a split of the text. */
  lemma MatchRunEndsSound(s: string, p: nat)
    requires p <= |s| && MatchRunEnds(s, p).Some?
    ensures IsSplit(s, p, MatchRunEnds(s, p).value)
  {
    var q := RunEndsAt(s, p);
    SpanEndRun(s, p, RegexSpace);
    SpanEndRun(s, q.countStart, Digit);
    SpanEndRun(s, q.countEnd, RegexSpace);
    SpanEndRun(s, q.inAt + 2, RegexSpace);
    SpanEndRun(s, q.timeStart, DigitOrDot);
    SpanEndRun(s, q.timeEnd + 1, RegexSpace);
  }

  /**
   * Whenever the text from `p` splits as the pattern, the greedy parts find a
   * match: `in`, the time group and the `s` sit where the split has them, the
   * count group holds the same text, and the match ends no earlier than the
   * split, exactly where it does when no white space follows it.
   */
  lemma MatchRunEndsComplete(s: string, p: nat, q': RunEnds)
    requires IsSplit(s, p, q')
    ensures MatchRunEnds(s, p).Some?
    ensures var q := MatchRunEnds(s, p).value;
      && q.inAt == q'.inAt && q.timeStart == q'.timeStart && q.timeEnd == q'.timeEnd
      && s[q.countStart..q.countEnd] == s[q'.countStart..q'.countEnd]
      && q'.end <= q.end && (q'.end == |s| || !IsRegexSpace(s[q'.end]) ==> q.end == q'.end)
  {
    hide *;
    CountPartGreedy(s, p, q');
    TimePartGreedy(s, p, q');
    var a := SpanEnd(s, p, RegexSpace);
    var b := SpanEnd(s, a, Digit);
    MatchRunEndsOfSpans(s, p, RunEnds(a, b, q'.inAt, q'.timeStart, q'.timeEnd, SpanEnd(s, q'.timeEnd + 1, RegexSpace)));
  }

  /** The greedy parts of a match at `p`, given where each greedy run ends. */
  lemma MatchRunEndsOfSpans(s: string, p: nat, q: RunEnds)
    requires p <= q.countStart <= q.countEnd <= q.inAt && q.inAt + 2 <= q.timeStart <= q.timeEnd && q.timeEnd < q.end <= |s|
    requires SpanEnd(s, p, RegexSpace) == q.countStart && SpanEnd(s, q.countStart, Digit) == q.countEnd
    requires SpanEnd(s, q.countEnd, RegexSpace) == q.inAt && s[q.inAt] == 'i' && s[q.inAt + 1] == 'n'
    requires SpanEnd(s, q.inAt + 2, RegexSpace) == q.timeStart && SpanEnd(s, q.timeStart, DigitOrDot) == q.timeEnd
    requires s[q.timeEnd] == 's' && SpanEnd(s, q.timeEnd + 1, RegexSpace) == q.end
    ensures MatchRunEnds(s, p) == Some(q)
  {
  }

  /** The greedy count part of a split text ends at the split's `in`, with the split's count text. */
  lemma CountPartGreedy(s: string, p: nat, q': RunEnds)
    requires IsSplit(s, p, q')
    ensures p <= q'.inAt <= |s|
    ensures var a := SpanEnd(s, p, RegexSpace); var b := SpanEnd(s, a, Digit);
      SpanEnd(s, b, RegexSpace) == q'.inAt && s[a..b] == s[q'.countStart..q'.countEnd]
  {
    var a := SpanEnd(s, p, RegexSpace);
    if q'.countStart < q'.countEnd {
      SpanEndAt(s, p, q'.countStart, RegexSpace);
      SpanEndAt(s, q'.countStart, q'.countEnd, Digit);
    } else {
      assert AllIn(s, p, q'.inAt, RegexSpace);
      SpanEndAt(s, p, q'.inAt, RegexSpace);
      SpanEndAt(s, a, a, Digit);
    }
    var b := SpanEnd(s, a, Digit);
    SpanEndAt(s, b, q'.inAt, RegexSpace);
  }

  /** The greedy time part of a split text sits where the split has it, and its trailing white space covers the split's. */
  lemma TimePartGreedy(s: string, p: nat, q': RunEnds)
    requires IsSplit(s, p, q')
    ensures q'.inAt + 2 <= q'.timeStart <= q'.timeEnd && q'.timeEnd < q'.end <= |s|
    ensures s[q'.inAt] == 'i' && s[q'.inAt + 1] == 'n' && s[q'.timeEnd] == 's'
    ensures SpanEnd(s, q'.inAt + 2, RegexSpace) == q'.timeStart && SpanEnd(s, q'.timeStart, DigitOrDot) == q'.timeEnd
    ensures q'.end <= SpanEnd(s, q'.timeEnd + 1, RegexSpace)
    ensures q'.end == |s| || !IsRegexSpace(s[q'.end]) ==> SpanEnd(s, q'.timeEnd + 1, RegexSpace) == q'.end
  {
    SpanEndAt(s, q'.inAt + 2, q'.timeStart, RegexSpace);
    SpanEndAt(s, q'.timeStart, q'.timeEnd, DigitOrDot);
    TrailGreedy(s, q');
  }

  /** The greedy trailing white space of a split text covers the split's, and is it when no white space follows. */
  lemma TrailGreedy(s: string, q': RunEnds)
    requires q'.timeEnd < q'.end <= |s| && AllIn(s, q'.timeEnd + 1, q'.end, RegexSpace)
    ensures q'.end <= SpanEnd(s, q'.timeEnd + 1, RegexSpace)
    ensures q'.end == |s| || !IsRegexSpace(s[q'.end]) ==> SpanEnd(s, q'.timeEnd + 1, RegexSpace) == q'.end
  {
    SpanEndCovers(s, q'.timeEnd + 1, q'.end, RegexSpace);
    if q'.end == |s| || !IsRegexSpace(s[q'.end]) {
      SpanEndAt(s, q'.timeEnd + 1, q'.end, RegexSpace);
    }
  }

  /** The match a split stands for: its start and end, and the text of its two groups. */
  function SplitMatch(s: string, p: nat, q: RunEnds): CountTime
    requires IsSplit(s, p, q)
  {
    CountTime(p, q.end, s[q.countStart..q.countEnd], s[q.timeStart..q.timeEnd])
  }

  /**
   * The pattern matches at `p` exactly when the text from `p` splits as the
   * pattern; the match is one of those splits, and it has the groups of every
   * split and the longest extent.
   */
  lemma MatchCountTimeAtIsLongestSplit(s: string, p: nat)
    requires p <= |s|
    ensures MatchCountTimeAt(s, p).Some? <==> exists q :: IsSplit(s, p, q)
    ensures MatchCountTimeAt(s, p).Some? ==> exists q :: IsSplit(s, p, q) && SplitMatch(s, p, q) == MatchCountTimeAt(s, p).value
    ensures forall q :: IsSplit(s, p, q) ==>
      var m := MatchCountTimeAt(s, p).value;
      && MatchCountTimeAt(s, p).Some? && m.count == SplitMatch(s, p, q).count && m.time == SplitMatch(s, p, q).time
      && SplitMatch(s, p, q).end <= m.end
  {
    if MatchRunEnds(s, p).Some? {
      MatchRunEndsSound(s, p);
      assert SplitMatch(s, p, MatchRunEnds(s, p).value) == MatchCountTimeAt(s, p).value;
    }
    forall q | IsSplit(s, p, q)
      ensures MatchCountTimeAt(s, p).Some? && MatchCountTimeAt(s, p).value.count == SplitMatch(s, p, q).count
      ensures MatchCountTimeAt(s, p).value.time == SplitMatch(s, p, q).time
      ensures SplitMatch(s, p, q).end <= MatchCountTimeAt(s, p).value.end
    {
      MatchRunEndsComplete(s, p, q);
    }
  }

  /** Match of the count/time pattern starting exactly at `p`, with its two groups. */
  function MatchCountTimeAt(s: string, p: nat): (r: Option<CountTime>)
    requires p <= |s|
    ensures r.Some? ==> r.value.start == p && p + 3 <= r.value.end <= |s|
  {
    match MatchRunEnds(s, p)
    case None => None
    case Some(q) => Some(CountTime(p, q.end, s[q.countStart..q.countEnd], s[q.timeStart..q.timeEnd]))
  }

  /** The count group holds only digits and the time group only digits and dots. */
  lemma MatchGroupsAreNumeric(s: string, p: nat)
    requires p <= |s| && MatchCountTimeAt(s, p).Some?
    ensures AllDigits(MatchCountTimeAt(s, p).value.count)
    ensures forall j :: 0 <= j < |MatchCountTimeAt(s, p).value.time| ==>
      InClass(MatchCountTimeAt(s, p).value.time[j], DigitOrDot)
  {
    var q := MatchRunEnds(s, p).value;
    SpanEndRun(s, q.countStart, Digit);
    SpanEndRun(s, q.timeStart, DigitOrDot);
  }

  /** Leftmost match of the count/time pattern at or after `from` (Matcher.find). */
  function FindCountTime(s: string, from: nat): (r: Option<CountTime>)
    requires from <= |s|
    ensures r.Some? ==> from <= r.value.start <= |s| && MatchCountTimeAt(s, r.value.start) == r
    ensures forall p :: from <= p <= |s| && (r.None? || p < r.value.start) ==> MatchCountTimeAt(s, p).None?
    decreases |s| - from
  {
    var m := MatchCountTimeAt(s, from);
    if m.Some? then m
    else if from == |s| then None
    else FindCountTime(s, from + 1)
  }

  /**
   * No split of the pattern starts between `from` and the match found, nor
   * anywhere after `from` when none is found: Matcher.find returns the
   * leftmost match.
   */
  lemma FindCountTimeIsLeftmost(s: string, from: nat)
    requires from <= |s|
    ensures forall p, q :: from <= p && IsSplit(s, p, q) ==>
      FindCountTime(s, from).Some? && FindCountTime(s, from).value.start <= p
  {
    forall p, q | from <= p && IsSplit(s, p, q)
      ensures FindCountTime(s, from).Some? && FindCountTime(s, from).value.start <= p
    {
      MatchRunEndsComplete(s, p, q);
      assert MatchCountTimeAt(s, p).Some?;
    }
  }

  /** The whole of `k` is one match of the count/time pattern. */
  predicate MatchesCountTime(k: string) {
    var m := MatchCountTimeAt(k, 0);
    m.Some? && m.value.end == |k|
  }

  /**
   * The text a match covers, matched again on its own, is one whole match with
   * the same two groups: re-running the pattern on the returned key always
   * succeeds.
   */
  lemma MatchedTextMatchesAgain(s: string, p: nat)
    requires p <= |s| && MatchCountTimeAt(s, p).Some?
    ensures var m := MatchCountTimeAt(s, p).value;
      var again := MatchCountTimeAt(s[p..m.end], 0);
      again.Some? && again.value.end == m.end - p
      && again.value.count == m.count && again.value.time == m.time
  {
    var q := MatchRunEnds(s, p).value;
    var q' := Shifted(q, p);
    RunEndsInSlice(s, p, q, q');
    SliceOfSlice(s, p, q.end, q.countStart, q.countEnd, q'.countStart, q'.countEnd);
    SliceOfSlice(s, p, q.end, q.timeStart, q.timeEnd, q'.timeStart, q'.timeEnd);
  }

  /** The parts of a match moved `p` characters to the left. */
  function Shifted(q: RunEnds, p: nat): (r: RunEnds)
    requires p <= q.countStart <= q.countEnd <= q.inAt <= q.timeStart <= q.timeEnd <= q.end
    ensures r.countStart + p == q.countStart && r.countEnd + p == q.countEnd && r.inAt + p == q.inAt
    ensures r.timeStart + p == q.timeStart && r.timeEnd + p == q.timeEnd && r.end + p == q.end
  {
    RunEnds(q.countStart - p, q.countEnd - p, q.inAt - p, q.timeStart - p, q.timeEnd - p, q.end - p)
  }

  /** The greedy parts of a match at `p`, one by one. */
  lemma RunEndsAt(s: string, p: nat) returns (q: RunEnds)
    requires p <= |s| && MatchRunEnds(s, p).Some?
    ensures MatchRunEnds(s, p) == Some(q)
    ensures SpanEnd(s, p, RegexSpace) == q.countStart && SpanEnd(s, q.countStart, Digit) == q.countEnd
    ensures SpanEnd(s, q.countEnd, RegexSpace) == q.inAt && s[q.inAt] == 'i' && s[q.inAt + 1] == 'n'
    ensures SpanEnd(s, q.inAt + 2, RegexSpace) == q.timeStart && SpanEnd(s, q.timeStart, DigitOrDot) == q.timeEnd
    ensures s[q.timeEnd] == 's' && SpanEnd(s, q.timeEnd + 1, RegexSpace) == q.end
  {
    var a := SpanEnd(s, p, RegexSpace);
    var b := SpanEnd(s, a, Digit);
    var c := SpanEnd(s, b, RegexSpace);
    var d := SpanEnd(s, c + 2, RegexSpace);
    var e := SpanEnd(s, d, DigitOrDot);
    q := RunEnds(a, b, c, d, e, SpanEnd(s, e + 1, RegexSpace));
  }

  /**
   * The parts of a match at `p` end at the same places inside the matched
   * text, `q'` naming them relative to `p`.
   */
  lemma RunEndsInSlice(s: string, p: nat, q: RunEnds, q': RunEnds)
    requires p <= |s| && MatchRunEnds(s, p) == Some(q)
    requires q'.countStart + p == q.countStart && q'.countEnd + p == q.countEnd && q'.inAt + p == q.inAt
    requires q'.timeStart + p == q.timeStart && q'.timeEnd + p == q.timeEnd && q'.end + p == q.end
    ensures MatchRunEnds(s[p..q.end], 0) == Some(q')
  {
    hide *;
    var _ := RunEndsAt(s, p);
    CountPartInSlice(s, p, q.end, q, q');
    TimePartInSlice(s, p, q.end, q, q');
    RunInSlice(s, p, q.end, q.timeEnd + 1, RegexSpace, q.end, q'.timeEnd + 1, q'.end);
    MatchRunEndsOfSpans(s[p..q.end], 0, q');
  }

  /** The count part of a match at `p`, read inside the text `s[p..hi]`. */
  lemma CountPartInSlice(s: string, p: nat, hi: nat, q: RunEnds, q': RunEnds)
    requires p <= q.countStart <= q.countEnd <= q.inAt && q.inAt + 2 <= hi <= |s|
    requires SpanEnd(s, p, RegexSpace) == q.countStart && SpanEnd(s, q.countStart, Digit) == q.countEnd
    requires SpanEnd(s, q.countEnd, RegexSpace) == q.inAt && s[q.inAt] == 'i' && s[q.inAt + 1] == 'n'
    requires q'.countStart + p == q.countStart && q'.countEnd + p == q.countEnd && q'.inAt + p == q.inAt
    ensures var t := s[p..hi];
      && SpanEnd(t, 0, RegexSpace) == q'.countStart && SpanEnd(t, q'.countStart, Digit) == q'.countEnd
      && SpanEnd(t, q'.countEnd, RegexSpace) == q'.inAt && t[q'.inAt] == 'i' && t[q'.inAt + 1] == 'n'
  {
    RunInSlice(s, p, hi, p, RegexSpace, q.countStart, 0, q'.countStart);
    RunInSlice(s, p, hi, q.countStart, Digit, q.countEnd, q'.countStart, q'.countEnd);
    RunInSlice(s, p, hi, q.countEnd, RegexSpace, q.inAt, q'.countEnd, q'.inAt);
    CharInSlice(s, p, hi, q.inAt, q'.inAt);
    CharInSlice(s, p, hi, q.inAt + 1, q'.inAt + 1);
  }

  /** The time group and the `s` after it of a match at `p`, read inside the text `s[p..hi]`. */
  lemma TimePartInSlice(s: string, p: nat, hi: nat, q: RunEnds, q': RunEnds)
    requires p <= q.inAt && q.inAt + 2 <= q.timeStart <= q.timeEnd < hi <= |s|
    requires SpanEnd(s, q.inAt + 2, RegexSpace) == q.timeStart && SpanEnd(s, q.timeStart, DigitOrDot) == q.timeEnd
    requires s[q.timeEnd] == 's'
    requires q'.inAt + p == q.inAt && q'.timeStart + p == q.timeStart && q'.timeEnd + p == q.timeEnd
    ensures var t := s[p..hi];
      && SpanEnd(t, q'.inAt + 2, RegexSpace) == q'.timeStart && SpanEnd(t, q'.timeStart, DigitOrDot) == q'.timeEnd
      && t[q'.timeEnd] == 's'
  {
    RunInSlice(s, p, hi, q.inAt + 2, RegexSpace, q.timeStart, q'.inAt + 2, q'.timeStart);
    RunInSlice(s, p, hi, q.timeStart, DigitOrDot, q.timeEnd, q'.timeStart, q'.timeEnd);
    CharInSlice(s, p, hi, q.timeEnd, q'.timeEnd);
  }

  /** SpanEndInSlice with the run's start and end named relative to the slice. */
  lemma RunInSlice(s: string, lo: nat, hi: nat, i: nat, k: CharClass, end: nat, i': nat, end': nat)
    requires lo <= i <= end <= hi <= |s| && end == SpanEnd(s, i, k)
    requires i' + lo == i && end' + lo == end
    ensures SpanEnd(s[lo..hi], i', k) == end'
  {
    SpanEndInSlice(s, lo, hi, i, k);
  }

  /** A character of the text at its place inside the slice. */
  lemma CharInSlice(s: string, lo: nat, hi: nat, i: nat, i': nat)
    requires lo <= i < hi <= |s| && i' + lo == i
    ensures s[lo..hi][i'] == s[i]
  {
  }
}
