/**
 * The batch extraction engine: for each spreadsheet file, find the configured
 * worksheet, resolve the register number, apply every field mapping whose
 * register range contains it, and collect one row or one error per file; then
 * sort the rows by register number and number them from 1.
 *
 * The spreadsheet library is a parameter (`Library`): reading a workbook, the
 * date-serial decoder, JavaScript's number-to-text conversion and the pt-BR
 * fixed-precision rendering are functions the engine is given, not defined here.
 */
module ExcelService {
  import opened Types
  import opened Strings

  // ------------------------------------------------------------------
  // The spreadsheet library, seen from the engine
  // ------------------------------------------------------------------

  /** What the date-serial decoder returns: day, month, year. */
  datatype DateCode = DateCode(d: nat, m: nat, y: nat)

  /** A worksheet: cell address to cell value; a missing key is a missing cell. */
  type Sheet = map<string, Value>

  /** Reading a file's bytes either yields the workbook's sheets by name or throws with a message. */
  datatype ReadResult = Workbook(sheets: map<string, Sheet>) | Thrown(message: string)

  datatype Library = Library(
    read: seq<bv8> -> ReadResult,
    parseDateCode: real -> Option<DateCode>,
    numberText: real -> string,
    toLocale: (real, nat) -> string)

  datatype File = File(name: string, content: seq<bv8>)

  // ------------------------------------------------------------------
  // Register resolver: the last run of digits in a text
  // ------------------------------------------------------------------

  /** The number of leading digits of `s`. */
  function DigitPrefix(s: string): (k: nat)
    ensures k <= |s| && AllDigits(s[..k])
    ensures k < |s| ==> !IsDigit(s[k])
  {
    if s == [] || !IsDigit(s[0]) then 0
    else
      var k := 1 + DigitPrefix(s[1..]);
      assert forall p | 1 <= p < k :: s[p] == s[1..][p - 1];
      k
  }

  /** The maximal runs of digits of `s`, left to right: what `s.match(/\d+/g)` finds. */
  function DigitRuns(s: string): (runs: seq<string>)
    ensures forall r | r in runs :: r != [] && AllDigits(r)
    ensures runs == [] <==> !HasDigit(s)
    decreases |s|
  {
    if s == [] then []
    else if !IsDigit(s[0]) then
      var runs := DigitRuns(s[1..]);
      assert HasDigit(s) ==> HasDigit(s[1..]) by {
        if HasDigit(s) {
          var p :| 0 <= p < |s| && IsDigit(s[p]);
          assert s[1..][p - 1] == s[p];
        }
      }
      assert HasDigit(s[1..]) ==> HasDigit(s) by {
        if HasDigit(s[1..]) {
          var p :| 0 <= p < |s[1..]| && IsDigit(s[1..][p]);
          assert s[p + 1] == s[1..][p];
        }
      }
      runs
    else
      var k := DigitPrefix(s);
      [s[..k]] + DigitRuns(s[k..])
  }

  /**
   * `s[i..j]` is the last maximal run of digits of `s`: all digits, not
   * preceded by a digit, and no digit anywhere after it.
   */
  predicate LastRunAt(s: string, i: int, j: int)
  {
    0 <= i < j <= |s| && AllDigits(s[i..j]) && (i == 0 || !IsDigit(s[i - 1])) && !HasDigit(s[j..])
  }

  /** A last run of a suffix `s[k..]` is a last run of `s`, unless it starts the suffix right after a digit. */
  lemma LastRunOfSuffix(s: string, k: nat, i: int, j: int) returns (i2: nat, j2: nat)
    requires k <= |s| && LastRunAt(s[k..], i, j)
    requires i == 0 ==> k == 0 || !IsDigit(s[k - 1])
    ensures i2 == i + k && j2 == j + k
    ensures LastRunAt(s, i2, j2) && s[i2..j2] == s[k..][i..j]
  {
    i2, j2 := i + k, j + k;
    assert s[i + k..j + k] == s[k..][i..j];
    assert s[j + k..] == s[k..][j..];
    if i > 0 {
      assert s[i + k - 1] == s[k..][i - 1];
    }
  }

  /** The last match of `/\d+/g` is the last maximal run of digits. */
  lemma {:induction false} LastMatchIsLastRun(s: string) returns (i: nat, j: nat)
    requires HasDigit(s)
    ensures LastRunAt(s, i, j)
    ensures DigitRuns(s)[|DigitRuns(s)| - 1] == s[i..j]
    decreases |s|
  {
    if !IsDigit(s[0]) {
      assert DigitRuns(s) == DigitRuns(s[1..]);
      var i', j' := LastMatchIsLastRun(s[1..]);
      i, j := LastMatchAfterNonDigit(s, i', j');
    } else if !HasDigit(s[DigitPrefix(s)..]) {
      i, j := LastMatchIsLeadingRun(s);
    } else {
      var k := DigitPrefix(s);
      var i', j' := LastMatchIsLastRun(s[k..]);
      i, j := LastMatchAfterLeadingRun(s, k, i', j');
    }
  }

  /** Step of the proof above: a leading non-digit shifts the last run by one. */
  lemma LastMatchAfterNonDigit(s: string, i': nat, j': nat) returns (i: nat, j: nat)
    requires s != [] && !IsDigit(s[0]) && HasDigit(s[1..])
    requires LastRunAt(s[1..], i', j') && DigitRuns(s[1..])[|DigitRuns(s[1..])| - 1] == s[1..][i'..j']
    ensures LastRunAt(s, i, j)
    ensures DigitRuns(s)[|DigitRuns(s)| - 1] == s[i..j]
  {
    assert DigitRuns(s) == DigitRuns(s[1..]);
    i, j := LastRunOfSuffix(s, 1, i', j');
  }

  /** Step of the proof above: when only the leading digits are digits, they are the last run. */
  lemma LastMatchIsLeadingRun(s: string) returns (i: nat, j: nat)
    requires s != [] && IsDigit(s[0]) && !HasDigit(s[DigitPrefix(s)..])
    ensures LastRunAt(s, i, j)
    ensures DigitRuns(s)[|DigitRuns(s)| - 1] == s[i..j]
  {
    var k := DigitPrefix(s);
    assert DigitRuns(s) == [s[..k]] + DigitRuns(s[k..]);
    assert DigitRuns(s[k..]) == [];
    i, j := 0, k;
    assert s[i..j] == s[..k];
  }

  /** Step of the proof above: the last run after the leading digits is the last run. */
  lemma LastMatchAfterLeadingRun(s: string, k: nat, i': nat, j': nat) returns (i: nat, j: nat)
    requires s != [] && IsDigit(s[0]) && k == DigitPrefix(s) && HasDigit(s[k..])
    requires LastRunAt(s[k..], i', j') && DigitRuns(s[k..])[|DigitRuns(s[k..])| - 1] == s[k..][i'..j']
    ensures LastRunAt(s, i, j)
    ensures DigitRuns(s)[|DigitRuns(s)| - 1] == s[i..j]
  {
    LastOfLeadingRun(s, k);
    i, j := ShiftLastRun(s, k, i', j');
  }

  /** A last run of the text after a non-digit at `k` is a last run of the whole text. */
  lemma ShiftLastRun(s: string, k: nat, i': nat, j': nat) returns (i: nat, j: nat)
    requires k < |s| && !IsDigit(s[k]) && LastRunAt(s[k..], i', j')
    ensures LastRunAt(s, i, j) && s[i..j] == s[k..][i'..j']
  {
    assert i' != 0 by {
      assert s[k..][0] == s[k];
      assert IsDigit(s[k..][i'..j'][0]) && s[k..][i'..j'][0] == s[k..][i'];
    }
    i, j := LastRunOfSuffix(s, k, i', j');
  }

  /** When digits follow the leading run, the last match of `s` is the last match of the rest. */
  lemma LastOfLeadingRun(s: string, k: nat)
    requires s != [] && IsDigit(s[0]) && k == DigitPrefix(s) && HasDigit(s[k..])
    ensures DigitRuns(s[k..]) != []
    ensures DigitRuns(s)[|DigitRuns(s)| - 1] == DigitRuns(s[k..])[|DigitRuns(s[k..])| - 1]
  {
    var rest := DigitRuns(s[k..]);
    assert DigitRuns(s) == [s[..k]] + rest;
  }

  /** The last maximal run of digits is unique. */
  lemma LastRunUnique(s: string, i: int, j: int, i2: int, j2: int)
    requires LastRunAt(s, i, j) && LastRunAt(s, i2, j2)
    ensures i == i2 && j == j2
  {
    forall p | j <= p < |s| ensures !IsDigit(s[p]) { assert s[p] == s[j..][p - j]; }
    forall p | j2 <= p < |s| ensures !IsDigit(s[p]) { assert s[p] == s[j2..][p - j2]; }
    forall p | i <= p < j ensures IsDigit(s[p]) { assert s[p] == s[i..j][p - i]; }
    forall p | i2 <= p < j2 ensures IsDigit(s[p]) { assert s[p] == s[i2..j2][p - i2]; }
    assert IsDigit(s[j - 1]) && IsDigit(s[j2 - 1]);
    assert i > 0 ==> !IsDigit(s[i - 1]);
    assert i2 > 0 ==> !IsDigit(s[i2 - 1]);
  }

  /**
   * `extractLastNumber`: the value of the last run of digits in `s`, or 0
   * when `s` has no digit.
   */
  function ExtractLastNumber(s: string): (n: nat)
    ensures !HasDigit(s) ==> n == 0
    ensures HasDigit(s) ==> exists i, j :: LastRunAt(s, i, j) && n == DecimalValue(s[i..j])
  {
    var runs := DigitRuns(s);
    if |runs| > 0 then
      assert runs[|runs| - 1] in runs;
      var last := DecimalValue(runs[|runs| - 1]);
      assert exists i, j :: LastRunAt(s, i, j) && last == DecimalValue(s[i..j]) by {
        var i, j := LastMatchIsLastRun(s);
      }
      last
    else 0
  }

  /** Whenever `s[i..j]` is the last run of digits, the register number is its value. */
  lemma ExtractLastNumberIsLastRun(s: string, i: int, j: int)
    requires LastRunAt(s, i, j)
    ensures ExtractLastNumber(s) == DecimalValue(s[i..j])
  {
    assert HasDigit(s) by { assert IsDigit(s[i..j][0]); assert s[i] == s[i..j][0]; }
    var i2, j2 :| LastRunAt(s, i2, j2) && ExtractLastNumber(s) == DecimalValue(s[i2..j2]);
    LastRunUnique(s, i, j, i2, j2);
  }

  /**
   * Digits at the end of a text, after a non-digit or at its start, are the
   * register number: `MGR-045` gives the value of `045`, which is 45.
   */
  lemma ExtractLastNumberOfSuffix(p: string, d: string)
    requires d != [] && AllDigits(d) && (p == [] || !IsDigit(p[|p| - 1]))
    ensures ExtractLastNumber(p + d) == DecimalValue(d)
  {
    var s := p + d;
    assert s[|p|..|s|] == d;
    assert s[|s|..] == [];
    assert |p| > 0 ==> s[|p| - 1] == p[|p| - 1];
    ExtractLastNumberIsLastRun(s, |p|, |s|);
  }

  /**
   * The last run wins: text in front of a part that has digits and starts
   * with a non-digit does not change the register number (`Reg 12 Rev 3`
   * gives 3).
   */
  lemma ExtractLastNumberLastWins(s: string, t: string)
    requires HasDigit(t) && !IsDigit(t[0])
    ensures ExtractLastNumber(s + t) == ExtractLastNumber(t)
  {
    var n := ExtractLastNumber(t);
    var i, j :| LastRunAt(t, i, j) && n == DecimalValue(t[i..j]);
    var st := s + t;
    assert st[|s|..] == t;
    var i2, j2 := ShiftLastRun(st, |s|, i, j);
    ExtractLastNumberIsLastRun(st, i2, j2);
  }

  // ------------------------------------------------------------------
  // File filter and id-cell address
  // ------------------------------------------------------------------

  /** `name.match(/\.(xls|xlsx|xlsm)$/i)`. */
  predicate IsExcelName(name: string)
    ensures IsExcelName(name) ==> (|name| >= 4 && name[|name| - 4] == '.') || (|name| >= 5 && name[|name| - 5] == '.')
  {
    var lower := ToLowerAscii(name);
    EndsWith(lower, ".xls") || EndsWith(lower, ".xlsx") || EndsWith(lower, ".xlsm")
  }

  predicate IsAsciiAlnum(c: char)
  {
    'A' <= c <= 'Z' || 'a' <= c <= 'z' || IsDigit(c)
  }

  /** The extension test ignores case: a name and its lower-cased form are accepted alike. */
  lemma ExcelNameIgnoresCase(name: string)
    ensures IsExcelName(name) <==> IsExcelName(ToLowerAscii(name))
  {
    ToLowerIdempotent(name);
  }

  /** `idCell.replace(/[^A-Za-z0-9]/g, '')`. */
  function StripNonAlnum(s: string): (r: string)
    ensures forall k | 0 <= k < |r| :: IsAsciiAlnum(r[k])
    ensures |r| <= |s|
    ensures |r| == |s| <==> forall k | 0 <= k < |s| :: IsAsciiAlnum(s[k])
    ensures (forall k | 0 <= k < |s| :: IsAsciiAlnum(s[k])) ==> r == s
    ensures |s| == 1 ==> r == if IsAsciiAlnum(s[0]) then s else []
  {
    if s == [] then []
    else
      var tail := StripNonAlnum(s[1..]);
      assert (forall k | 0 <= k < |s| :: IsAsciiAlnum(s[k])) <==>
             IsAsciiAlnum(s[0]) && forall k | 0 <= k < |s[1..]| :: IsAsciiAlnum(s[1..][k]) by {
        if IsAsciiAlnum(s[0]) && forall k | 0 <= k < |s[1..]| :: IsAsciiAlnum(s[1..][k]) {
          forall k | 0 <= k < |s| ensures IsAsciiAlnum(s[k]) {
            if k > 0 { assert s[k] == s[1..][k - 1]; }
          }
        }
      }
      if IsAsciiAlnum(s[0]) then [s[0]] + tail else tail
  }

  /**
   * Stripping works character by character: the result for a concatenation is
   * the concatenation of the results, so exactly the ASCII letters and digits
   * remain, in their order.
   */
  lemma {:induction false} StripNonAlnumAppend(a: string, b: string)
    ensures StripNonAlnum(a + b) == StripNonAlnum(a) + StripNonAlnum(b)
    decreases |a|
  {
    if a == [] {
      assert a + b == b;
    } else {
      assert (a + b)[0] == a[0];
      assert (a + b)[1..] == a[1..] + b;
      StripNonAlnumAppend(a[1..], b);
    }
  }

  /** `String(v)` for a cell value; the text of a number is the library's. */
  function ValueText(lib: Library, v: Value): (r: string)
    ensures v.Text? ==> r == v.s
    ensures v.Number? ==> r == lib.numberText(v.n)
    ensures v.Boolean? ==> r == if v.b then "true" else "false"
    ensures v.Null? ==> r == "null"
  {
    match v
    case Null => "null"
    case Number(n) => lib.numberText(n)
    case Text(s) => s
    case Boolean(b) => if b then "true" else "false"
  }

  /**
   * The register number of a file: from the id cell's value when the
   * (stripped) id cell exists, from the file name otherwise.
   */
  function RegId(lib: Library, sheet: Sheet, config: GlobalConfig, fileName: string): (id: nat)
    ensures StripNonAlnum(config.idCell) !in sheet ==> id == ExtractLastNumber(fileName)
    ensures StripNonAlnum(config.idCell) in sheet ==>
              id == ExtractLastNumber(ValueText(lib, sheet[StripNonAlnum(config.idCell)]))
  {
    var cellAddress := StripNonAlnum(config.idCell);
    var regStr := if cellAddress in sheet then ValueText(lib, sheet[cellAddress]) else fileName;
    ExtractLastNumber(regStr)
  }

  // ------------------------------------------------------------------
  // Format rules
  // ------------------------------------------------------------------

  /** The lower-cased format holds one of the date tokens `dd`, `mm`, `yyyy`, `aa`. */
  predicate IsDateFormat(format: string)
    ensures IsDateFormat(format) ==> |format| >= 2
  {
    var f := ToLowerAscii(format);
    Contains(f, "dd") || Contains(f, "mm") || Contains(f, "yyyy") || Contains(f, "aa")
  }

  /** The date-token test ignores case, as `toLowerCase` makes it. */
  lemma DateFormatIgnoresCase(format: string)
    ensures IsDateFormat(format) <==> IsDateFormat(ToLowerAscii(format))
  {
    ToLowerIdempotent(format);
  }

  predicate IsFmtDigit(c: char) { c == '0' || c == '#' }

  predicate IsSep(c: char) { c == '.' || c == ',' }

  /** A separator at `i` followed by a `0`/`#` digit: where `/[.,]([0#]+)/` can match. */
  predicate FractionAt(f: string, i: int)
  {
    0 <= i < |f| - 1 && IsSep(f[i]) && IsFmtDigit(f[i + 1])
  }

  /** `format.match(/[0#][.,][0#]+/)` succeeds. */
  predicate HasDecimalPattern(f: string)
    ensures HasDecimalPattern(f) ==> |f| >= 3
  {
    exists i | 1 <= i < |f| - 1 :: IsFmtDigit(f[i - 1]) && FractionAt(f, i)
  }

  /** The length of the run of `0`/`#` digits that starts `s`. */
  function FmtDigitRun(s: string): (k: nat)
    ensures k <= |s|
    ensures forall p | 0 <= p < k :: IsFmtDigit(s[p])
    ensures k < |s| ==> !IsFmtDigit(s[k])
  {
    if s == [] || !IsFmtDigit(s[0]) then 0
    else
      var k := 1 + FmtDigitRun(s[1..]);
      assert forall p | 1 <= p < k :: s[p] == s[1..][p - 1];
      k
  }

  /**
   * `format.match(/[.,]([0#]+)/)[1].length`: the length of the digit run after
   * the leftmost separator that is followed by a digit; None when there is none.
   */
  function FractionDigits(f: string): (r: Option<nat>)
    ensures r.Some? <==> exists i | 0 <= i < |f| :: FractionAt(f, i)
    ensures r.Some? ==> r.value >= 1
    decreases |f|
  {
    if |f| < 2 then None
    else if FractionAt(f, 0) then Some(FmtDigitRun(f[1..]))
    else
      var r := FractionDigits(f[1..]);
      assert (exists i | 0 <= i < |f| :: FractionAt(f, i)) ==> exists i | 0 <= i < |f[1..]| :: FractionAt(f[1..], i) by {
        if exists i | 0 <= i < |f| :: FractionAt(f, i) {
          var i :| 0 <= i < |f| && FractionAt(f, i);
          assert FractionAt(f[1..], i - 1);
        }
      }
      assert (exists i | 0 <= i < |f[1..]| :: FractionAt(f[1..], i)) ==> exists i | 0 <= i < |f| :: FractionAt(f, i) by {
        if exists i | 0 <= i < |f[1..]| :: FractionAt(f[1..], i) {
          var i :| 0 <= i < |f[1..]| && FractionAt(f[1..], i);
          assert FractionAt(f, i + 1);
        }
      }
      r
  }

  /** The precision is the digit run after the leftmost separator-and-digit. */
  lemma {:induction false} FractionDigitsLeftmost(f: string, i: int)
    requires FractionAt(f, i)
    requires forall i' | 0 <= i' < i :: !FractionAt(f, i')
    ensures FractionDigits(f) == Some(FmtDigitRun(f[i + 1..]))
    decreases |f|
  {
    if i > 0 {
      assert !FractionAt(f, 0);
      assert FractionAt(f[1..], i - 1);
      forall i' | 0 <= i' < i - 1 ensures !FractionAt(f[1..], i') {
        assert !FractionAt(f, i' + 1);
      }
      FractionDigitsLeftmost(f[1..], i - 1);
      assert f[1..][i..] == f[i + 1..];
    }
  }

  /** Whenever the decimal pattern matches, the precision match succeeds too (the `if (match)` is always taken). */
  lemma DecimalPatternHasFraction(f: string)
    requires HasDecimalPattern(f)
    ensures FractionDigits(f).Some?
  {
    var i :| 1 <= i < |f| - 1 && IsFmtDigit(f[i - 1]) && FractionAt(f, i);
  }

  /** Which of the three format rules applies to a numeric value. */
  datatype Rule = DateRule | FixedRule(precision: nat) | PassThrough

  function RuleFor(format: string): (r: Rule)
    ensures r.DateRule? <==> IsDateFormat(format)
    ensures r.FixedRule? <==> !IsDateFormat(format) && HasDecimalPattern(format)
    ensures r.FixedRule? ==> r.precision >= 1 && FractionDigits(format) == Some(r.precision)
  {
    if IsDateFormat(format) then DateRule
    else if HasDecimalPattern(format) then
      DecimalPatternHasFraction(format);
      FixedRule(FractionDigits(format).value)
    else PassThrough
  }

  /** The date text `DD/MM/YYYY` with zero-padded day and month. */
  function FormatDate(dc: DateCode): (s: string)
    ensures |s| >= 7
    ensures forall k | 0 <= k < |s| :: IsDigit(s[k]) || s[k] == '/'
  {
    var dd, mm, yy := PadStart2(NatToDecimal(dc.d)), PadStart2(NatToDecimal(dc.m)), NatToDecimal(dc.y);
    PadStart2Value(NatToDecimal(dc.d));
    PadStart2Value(NatToDecimal(dc.m));
    var s := dd + "/" + mm + "/" + yy;
    forall k | 0 <= k < |s| ensures IsDigit(s[k]) || s[k] == '/' {
      if k < |dd| {
        assert s[k] == dd[k];
      } else if |dd| < k < |dd| + 1 + |mm| {
        assert s[k] == mm[k - |dd| - 1];
      } else if |dd| + 1 + |mm| < k {
        assert s[k] == yy[k - |dd| - |mm| - 2];
      }
    }
    s
  }

  /**
   * A formatted date has the shape `DD/MM/YYYY` and reads back as the day,
   * month and year it was made from.
   */
  lemma FormatDateShape(dc: DateCode)
    requires dc.d < 100 && dc.m < 100
    ensures var s := FormatDate(dc);
            && |s| == 6 + |NatToDecimal(dc.y)| && s[2] == '/' && s[5] == '/'
            && AllDigits(s[..2]) && AllDigits(s[3..5]) && AllDigits(s[6..])
            && DecimalValue(s[..2]) == dc.d && DecimalValue(s[3..5]) == dc.m && DecimalValue(s[6..]) == dc.y
  {
    var dd, mm, yy := PadStart2(NatToDecimal(dc.d)), PadStart2(NatToDecimal(dc.m)), NatToDecimal(dc.y);
    assert |dd| == 2 && |mm| == 2;
    PadStart2Value(NatToDecimal(dc.d));
    PadStart2Value(NatToDecimal(dc.m));
    DecimalRoundTrip(dc.d);
    DecimalRoundTrip(dc.m);
    DecimalRoundTrip(dc.y);
    var s := FormatDate(dc);
    assert s == dd + "/" + mm + "/" + yy;
    SliceOfFormatted(dd, mm, yy);
  }

  /** Where the three parts sit in `dd/mm/yy`. */
  lemma SliceOfFormatted(dd: string, mm: string, yy: string)
    requires |dd| == 2 && |mm| == 2
    ensures var s := dd + "/" + mm + "/" + yy;
            |s| == 6 + |yy| && s[..2] == dd && s[2] == '/' && s[3..5] == mm && s[5] == '/' && s[6..] == yy
  {
  }

  /**
   * The formatting of one mapped value. Only numbers are formatted: a date
   * format turns a decodable serial into `DD/MM/YYYY` (an undecodable one stays
   * a number), a decimal format renders it at the format's precision, any
   * other format leaves it alone.
   */
  function FormatValue(lib: Library, format: string, v: Value): (r: Value)
    ensures r.Number? ==> r == v
    ensures r != v ==> v.Number? && r.Text?
    ensures !v.Number? ==> r == v
    ensures v.Number? && RuleFor(format).PassThrough? ==> r == v
    ensures v.Number? && RuleFor(format).FixedRule? ==> r == Text(lib.toLocale(v.n, RuleFor(format).precision))
    ensures v.Number? && RuleFor(format).DateRule? && lib.parseDateCode(v.n).Some? ==>
              r == Text(FormatDate(lib.parseDateCode(v.n).value))
    ensures v.Number? && RuleFor(format).DateRule? && lib.parseDateCode(v.n).None? ==> r == v
  {
    match v
    case Number(n) =>
      if IsDateFormat(format) then
        match lib.parseDateCode(n)
        case Some(dc) => Text(FormatDate(dc))
        case None => v
      else if HasDecimalPattern(format) then
        DecimalPatternHasFraction(format);
        Text(lib.toLocale(n, FractionDigits(format).value))
      else v
    case _ => v
  }

  /** A numeric value under a date format whose serial decodes becomes a `DD/MM/YYYY` text that reads back as that date. */
  lemma DateFormatting(lib: Library, format: string, n: real)
    requires IsDateFormat(format) && lib.parseDateCode(n).Some?
    requires lib.parseDateCode(n).value.d < 100 && lib.parseDateCode(n).value.m < 100
    ensures var dc := lib.parseDateCode(n).value;
            var r := FormatValue(lib, format, Number(n));
            && r.Text? && r.s[2] == '/' && r.s[5] == '/'
            && AllDigits(r.s[..2]) && AllDigits(r.s[3..5]) && AllDigits(r.s[6..])
            && DecimalValue(r.s[..2]) == dc.d && DecimalValue(r.s[3..5]) == dc.m && DecimalValue(r.s[6..]) == dc.y
  {
    var dc := lib.parseDateCode(n).value;
    assert FormatValue(lib, format, Number(n)) == Text(FormatDate(dc));
    FormatDateShape(dc);
  }

  /** A numeric value under a date format whose serial does not decode is kept as the number. */
  lemma DateFallback(lib: Library, format: string, n: real)
    requires IsDateFormat(format) && lib.parseDateCode(n).None?
    ensures FormatValue(lib, format, Number(n)) == Number(n)
  {
  }

  /** The date test comes first: a format with a date token is never treated as a decimal format. */
  lemma DateTokenWins(lib: Library, format: string, n: real)
    requires IsDateFormat(format)
    ensures FormatValue(lib, format, Number(n)).Number? || FormatValue(lib, format, Number(n)) == Text(FormatDate(lib.parseDateCode(n).value))
  {
  }

  /**
   * The shipped date formats take the date path. The time format `hh:mm`
   * contains `mm` and so takes it too, like `dd/mm/yyyy`.
   */
  lemma DefaultDateFormats()
    ensures RuleFor("dd/mm/yyyy") == DateRule
    ensures RuleFor("hh:mm") == DateRule
  {
    assert OccursAt(ToLowerAscii("dd/mm/yyyy"), "dd", 0);
    assert OccursAt(ToLowerAscii("hh:mm"), "mm", 3);
  }

  /** The shipped decimal format `0.000` renders with precision 3. */
  lemma DefaultDecimalFormat()
    ensures RuleFor("0.000") == FixedRule(3)
  {
    var z := "0.000";
    assert !IsDateFormat(z) by {
      var f := ToLowerAscii(z);
      assert f == z;
      forall t, i | t in ["dd", "mm", "yyyy", "aa"] ensures !OccursAt(f, t, i) {
        if 0 <= i <= |f| - |t| {
          assert f[i..i + |t|][0] == f[i];
        }
      }
    }
    assert IsFmtDigit(z[0]) && FractionAt(z, 1);
    FractionDigitsLeftmost(z, 1);
    assert z[2..] == "000";
    assert FmtDigitRun("000") == 3 by {
      assert "000"[1..] == "00";
      assert "00"[1..] == "0";
      assert "0"[1..] == "";
    }
  }

  /** The shipped text format `@` leaves every value alone, numbers included. */
  lemma DefaultTextFormat(lib: Library, v: Value)
    ensures RuleFor("@") == PassThrough
    ensures FormatValue(lib, "@", v) == v
  {
    var at := "@";
    assert !IsDateFormat(at) by { assert ToLowerAscii(at) == at; }
  }

  // ------------------------------------------------------------------
  // Mapping evaluator
  // ------------------------------------------------------------------

  /** The mapping's inclusive register range contains `regId`. */
  predicate Applies(m: FieldMapping, regId: int)
  {
    m.minReg <= regId <= m.maxReg
  }

  /** The value a mapping stores: its formatted source cell, or null when the cell is missing. */
  function MappedValue(lib: Library, sheet: Sheet, m: FieldMapping): (v: Value)
    ensures m.sourceCell !in sheet ==> v == Null
    ensures m.sourceCell in sheet && !sheet[m.sourceCell].Number? ==> v == sheet[m.sourceCell]
    ensures m.sourceCell in sheet && RuleFor(m.format).PassThrough? ==> v == sheet[m.sourceCell]
  {
    if m.sourceCell in sheet then FormatValue(lib, m.format, sheet[m.sourceCell]) else Null
  }

  /** The row dictionary after applying the mappings in list order. */
  function MappedData(lib: Library, sheet: Sheet, regId: int, ms: seq<FieldMapping>): (r: RowData)
    ensures r.values.Keys == r.names.Keys
    decreases |ms|
  {
    if ms == [] then RowData(map[], map[])
    else
      var acc := MappedData(lib, sheet, regId, ms[..|ms| - 1]);
      var m := ms[|ms| - 1];
      if Applies(m, regId) then
        RowData(acc.values[m.colIndex := MappedValue(lib, sheet, m)], acc.names[m.colIndex := m.fieldName])
      else acc
  }

  /** Some mapping that applies to `regId` writes column `c`. */
  predicate WritesColumn(ms: seq<FieldMapping>, regId: int, c: int)
  {
    exists k | 0 <= k < |ms| :: Applies(ms[k], regId) && ms[k].colIndex == c
  }

  /**
   * Column `c` (and its name key) is present exactly when some mapping whose
   * range contains the register number has that column; mappings out of range
   * leave nothing behind.
   */
  lemma {:induction false} MappedKeys(lib: Library, sheet: Sheet, regId: int, ms: seq<FieldMapping>, c: int)
    ensures c in MappedData(lib, sheet, regId, ms).values <==> WritesColumn(ms, regId, c)
    ensures c in MappedData(lib, sheet, regId, ms).names <==> WritesColumn(ms, regId, c)
    decreases |ms|
  {
    if ms != [] {
      var init := ms[..|ms| - 1];
      MappedKeys(lib, sheet, regId, init, c);
      assert WritesColumn(init, regId, c) ==> WritesColumn(ms, regId, c) by {
        if WritesColumn(init, regId, c) {
          var k :| 0 <= k < |init| && Applies(init[k], regId) && init[k].colIndex == c;
          assert ms[k] == init[k];
        }
      }
      if WritesColumn(ms, regId, c) && !(Applies(ms[|ms| - 1], regId) && ms[|ms| - 1].colIndex == c) {
        var k :| 0 <= k < |ms| && Applies(ms[k], regId) && ms[k].colIndex == c;
        assert init[k] == ms[k];
      }
    }
  }

  /**
   * Last write wins: when mapping `k` applies and no later applicable mapping
   * has the same column, the column holds mapping `k`'s value and name.
   */
  lemma {:induction false} MappedLastWins(lib: Library, sheet: Sheet, regId: int, ms: seq<FieldMapping>, k: int)
    requires 0 <= k < |ms| && Applies(ms[k], regId)
    requires forall k' | k < k' < |ms| :: !(Applies(ms[k'], regId) && ms[k'].colIndex == ms[k].colIndex)
    ensures ms[k].colIndex in MappedData(lib, sheet, regId, ms).values
    ensures ms[k].colIndex in MappedData(lib, sheet, regId, ms).names
    ensures MappedData(lib, sheet, regId, ms).values[ms[k].colIndex] == MappedValue(lib, sheet, ms[k])
    ensures MappedData(lib, sheet, regId, ms).names[ms[k].colIndex] == ms[k].fieldName
    decreases |ms|
  {
    if k < |ms| - 1 {
      var init := ms[..|ms| - 1];
      assert init[k] == ms[k];
      forall k' | k < k' < |init| ensures !(Applies(init[k'], regId) && init[k'].colIndex == init[k].colIndex) {
        assert init[k'] == ms[k'];
      }
      MappedLastWins(lib, sheet, regId, init, k);
    }
  }

  /** `mappings.forEach(...)`: builds the row dictionary key by key. */
  method BuildRowData(lib: Library, sheet: Sheet, regId: int, ms: seq<FieldMapping>) returns (data: RowData)
    ensures data == MappedData(lib, sheet, regId, ms)
  {
    var values: map<int, Value> := map[];
    var names: map<int, string> := map[];
    var i := 0;
    while i < |ms|
      invariant 0 <= i <= |ms|
      invariant RowData(values, names) == MappedData(lib, sheet, regId, ms[..i])
    {
      var m := ms[i];
      if m.minReg <= regId && regId <= m.maxReg {
        var val := if m.sourceCell in sheet then sheet[m.sourceCell] else Null;
        val := FormatValue(lib, m.format, val);
        values := values[m.colIndex := val];
        names := names[m.colIndex := m.fieldName];
      }
      assert ms[..i + 1][..i] == ms[..i];
      i := i + 1;
    }
    assert ms[..i] == ms;
    data := RowData(values, names);
  }

  // ------------------------------------------------------------------
  // File extractor
  // ------------------------------------------------------------------

  /** What one file contributes: nothing, a row, or an error. */
  datatype Outcome = Skipped | Extracted(row: ProcessedRow) | Failed(error: ExcelError)

  /** `err.message || "Unknown error"`. */
  function ErrorMessage(message: string): (r: string)
    ensures r != []
    ensures message != [] ==> r == message
    ensures message == [] ==> r == "Unknown error"
  {
    if message == "" then "Unknown error" else message
  }

  function SheetNotFound(sheetName: string): string
  {
    "Sheet '" + sheetName + "' not found."
  }

  /** The outcome of `processFile` for one file. */
  function FileOutcome(lib: Library, file: File, config: GlobalConfig, ms: seq<FieldMapping>): (r: Outcome)
    ensures !IsExcelName(file.name) <==> r.Skipped?
    ensures r.Extracted? ==> r.row.fileName == file.name && r.row.order == 0
    ensures r.Failed? ==> r.error.fileName == file.name && r.error.error != []
    ensures IsExcelName(file.name) && lib.read(file.content).Thrown? ==>
              r == Failed(ExcelError(file.name, ErrorMessage(lib.read(file.content).message)))
  {
    if !IsExcelName(file.name) then Skipped
    else
      match lib.read(file.content)
      case Thrown(message) => Failed(ExcelError(file.name, ErrorMessage(message)))
      case Workbook(sheets) =>
        if config.sheetName !in sheets then
          Failed(ExcelError(file.name, SheetNotFound(config.sheetName)))
        else
          var sheet := sheets[config.sheetName];
          var regId := RegId(lib, sheet, config, file.name);
          Extracted(ProcessedRow(file.name, regId, 0, MappedData(lib, sheet, regId, ms)))
  }

  /**
   * An exception while reading an Excel file is caught: the file yields one
   * error carrying the exception's message, or "Unknown error" when that
   * message is empty, and no row.
   */
  lemma ThrownReadIsCaught(lib: Library, file: File, config: GlobalConfig, ms: seq<FieldMapping>)
    requires IsExcelName(file.name) && lib.read(file.content).Thrown?
    ensures var r := FileOutcome(lib, file, config, ms);
            var message := lib.read(file.content).message;
            && RowsOf(r) == [] && ErrorsOf(r) == [r.error] && r.error.fileName == file.name
            && (message != [] ==> r.error.error == message)
            && (message == [] ==> r.error.error == "Unknown error")
  {
  }

  /** A readable Excel file without the configured sheet yields exactly the "not found" error. */
  lemma MissingSheet(lib: Library, file: File, config: GlobalConfig, ms: seq<FieldMapping>)
    requires IsExcelName(file.name) && lib.read(file.content).Workbook?
    requires config.sheetName !in lib.read(file.content).sheets
    ensures FileOutcome(lib, file, config, ms) == Failed(ExcelError(file.name, "Sheet '" + config.sheetName + "' not found."))
  {
  }

  /**
   * A readable Excel file with the configured sheet yields a row whose
   * register number is resolved from that sheet and whose columns are exactly
   * those of the mappings that apply to it.
   */
  lemma ExtractedRow(lib: Library, file: File, config: GlobalConfig, ms: seq<FieldMapping>, c: int)
    requires IsExcelName(file.name) && lib.read(file.content).Workbook?
    requires config.sheetName in lib.read(file.content).sheets
    ensures var sheet := lib.read(file.content).sheets[config.sheetName];
            var r := FileOutcome(lib, file, config, ms);
            && r.Extracted?
            && r.row.regId == RegId(lib, sheet, config, file.name)
            && r.row.data == MappedData(lib, sheet, r.row.regId, ms)
            && (c in r.row.data.values <==> WritesColumn(ms, r.row.regId, c))
  {
    var sheet := lib.read(file.content).sheets[config.sheetName];
    MappedKeys(lib, sheet, RegId(lib, sheet, config, file.name), ms, c);
  }

  /** `processFile`: one file in, one outcome out; a thrown read becomes an error. */
  method ProcessFile(lib: Library, file: File, config: GlobalConfig, ms: seq<FieldMapping>) returns (outcome: Outcome)
    ensures outcome == FileOutcome(lib, file, config, ms)
  {
    if !IsExcelName(file.name) {
      return Skipped;
    }
    var workbook := lib.read(file.content);
    if workbook.Thrown? {
      return Failed(ExcelError(file.name, ErrorMessage(workbook.message)));
    }
    if config.sheetName !in workbook.sheets {
      return Failed(ExcelError(file.name, SheetNotFound(config.sheetName)));
    }
    var sheet := workbook.sheets[config.sheetName];
    var cellAddress := StripNonAlnum(config.idCell);
    var regStr := if cellAddress in sheet then ValueText(lib, sheet[cellAddress]) else file.name;
    var regId := ExtractLastNumber(regStr);
    var rowData := BuildRowData(lib, sheet, regId, ms);
    outcome := Extracted(ProcessedRow(file.name, regId, 0, rowData));
  }

  // ------------------------------------------------------------------
  // Batch orchestrator
  // ------------------------------------------------------------------

  function RowsOf(o: Outcome): seq<ProcessedRow>
  {
    if o.Extracted? then [o.row] else []
  }

  function ErrorsOf(o: Outcome): seq<ExcelError>
  {
    if o.Failed? then [o.error] else []
  }

  /** The rows of a batch, in file order, before sorting. */
  function ExtractedRows(lib: Library, files: seq<File>, config: GlobalConfig, ms: seq<FieldMapping>): (rows: seq<ProcessedRow>)
    ensures forall k | 0 <= k < |rows| :: rows[k].order == 0
    decreases |files|
  {
    if files == [] then []
    else ExtractedRows(lib, files[..|files| - 1], config, ms) + RowsOf(FileOutcome(lib, files[|files| - 1], config, ms))
  }

  /** The errors of a batch, in file order. */
  function ExtractedErrors(lib: Library, files: seq<File>, config: GlobalConfig, ms: seq<FieldMapping>): (errors: seq<ExcelError>)
    ensures |errors| <= |files|
    ensures forall k | 0 <= k < |errors| :: errors[k].error != []
    decreases |files|
  {
    if files == [] then []
    else ExtractedErrors(lib, files[..|files| - 1], config, ms) + ErrorsOf(FileOutcome(lib, files[|files| - 1], config, ms))
  }

  /** Each file gives at most one row or one error, never both. */
  lemma {:induction false} BatchCount(lib: Library, files: seq<File>, config: GlobalConfig, ms: seq<FieldMapping>)
    ensures |ExtractedRows(lib, files, config, ms)| + |ExtractedErrors(lib, files, config, ms)| <= |files|
    decreases |files|
  {
    if files != [] {
      BatchCount(lib, files[..|files| - 1], config, ms);
    }
  }

  /** Appending one file appends its outcome. */
  lemma SingleFileAppended(lib: Library, xs: seq<File>, f: File, config: GlobalConfig, ms: seq<FieldMapping>)
    ensures ExtractedRows(lib, xs + [f], config, ms) == ExtractedRows(lib, xs, config, ms) + RowsOf(FileOutcome(lib, f, config, ms))
    ensures ExtractedErrors(lib, xs + [f], config, ms) == ExtractedErrors(lib, xs, config, ms) + ErrorsOf(FileOutcome(lib, f, config, ms))
  {
    var xf := xs + [f];
    assert xf[..|xf| - 1] == xs;
    assert xf[|xf| - 1] == f;
  }

  /** A batch is the concatenation of its parts: no file's outcome depends on another file. */
  lemma BatchAppend(lib: Library, xs: seq<File>, ys: seq<File>, config: GlobalConfig, ms: seq<FieldMapping>)
    ensures ExtractedRows(lib, xs + ys, config, ms) == ExtractedRows(lib, xs, config, ms) + ExtractedRows(lib, ys, config, ms)
    ensures ExtractedErrors(lib, xs + ys, config, ms) == ExtractedErrors(lib, xs, config, ms) + ExtractedErrors(lib, ys, config, ms)
  {
    BatchAppendRows(lib, xs, ys, config, ms);
    BatchAppendErrors(lib, xs, ys, config, ms);
  }

  lemma {:induction false} BatchAppendRows(lib: Library, xs: seq<File>, ys: seq<File>, config: GlobalConfig, ms: seq<FieldMapping>)
    ensures ExtractedRows(lib, xs + ys, config, ms) == ExtractedRows(lib, xs, config, ms) + ExtractedRows(lib, ys, config, ms)
    decreases |ys|
  {
    if ys == [] {
      assert xs + ys == xs;
    } else {
      var ys', y := ys[..|ys| - 1], ys[|ys| - 1];
      assert xs + ys == (xs + ys') + [y];
      assert ys == ys' + [y];
      BatchAppendRows(lib, xs, ys', config, ms);
      SingleFileAppended(lib, xs + ys', y, config, ms);
      SingleFileAppended(lib, ys', y, config, ms);
      var o := RowsOf(FileOutcome(lib, y, config, ms));
      var rx, ry := ExtractedRows(lib, xs, config, ms), ExtractedRows(lib, ys', config, ms);
      assert (rx + ry) + o == rx + (ry + o);
    }
  }

  lemma {:induction false} BatchAppendErrors(lib: Library, xs: seq<File>, ys: seq<File>, config: GlobalConfig, ms: seq<FieldMapping>)
    ensures ExtractedErrors(lib, xs + ys, config, ms) == ExtractedErrors(lib, xs, config, ms) + ExtractedErrors(lib, ys, config, ms)
    decreases |ys|
  {
    if ys == [] {
      assert xs + ys == xs;
    } else {
      var ys', y := ys[..|ys| - 1], ys[|ys| - 1];
      assert xs + ys == (xs + ys') + [y];
      assert ys == ys' + [y];
      BatchAppendErrors(lib, xs, ys', config, ms);
      SingleFileAppended(lib, xs + ys', y, config, ms);
      SingleFileAppended(lib, ys', y, config, ms);
      var o := ErrorsOf(FileOutcome(lib, y, config, ms));
      var ex, ey := ExtractedErrors(lib, xs, config, ms), ExtractedErrors(lib, ys', config, ms);
      assert (ex + ey) + o == ex + (ey + o);
    }
  }

  /**
   * A file that fails adds exactly its error and leaves the rows and errors of
   * the files around it as they would be without it.
   */
  lemma FailureIsIsolated(lib: Library, xs: seq<File>, f: File, ys: seq<File>, config: GlobalConfig, ms: seq<FieldMapping>)
    requires FileOutcome(lib, f, config, ms).Failed?
    ensures ExtractedRows(lib, xs + [f] + ys, config, ms) == ExtractedRows(lib, xs + ys, config, ms)
    ensures ExtractedErrors(lib, xs + [f] + ys, config, ms) ==
            ExtractedErrors(lib, xs, config, ms) + [FileOutcome(lib, f, config, ms).error] + ExtractedErrors(lib, ys, config, ms)
  {
    var o := FileOutcome(lib, f, config, ms);
    assert RowsOf(o) == [] && ErrorsOf(o) == [o.error];
    SingleFileAppended(lib, xs, f, config, ms);
    assert ExtractedRows(lib, xs, config, ms) + [] == ExtractedRows(lib, xs, config, ms);
    BatchAppend(lib, xs + [f], ys, config, ms);
    BatchAppend(lib, xs, ys, config, ms);
  }

  /** A file that is not an Excel file leaves no trace in the batch. */
  lemma NonExcelIsSkipped(lib: Library, xs: seq<File>, f: File, ys: seq<File>, config: GlobalConfig, ms: seq<FieldMapping>)
    requires !IsExcelName(f.name)
    ensures ExtractedRows(lib, xs + [f] + ys, config, ms) == ExtractedRows(lib, xs + ys, config, ms)
    ensures ExtractedErrors(lib, xs + [f] + ys, config, ms) == ExtractedErrors(lib, xs + ys, config, ms)
  {
    var o := FileOutcome(lib, f, config, ms);
    assert RowsOf(o) == [] && ErrorsOf(o) == [];
    SingleFileAppended(lib, xs, f, config, ms);
    BatchAppend(lib, xs + [f], ys, config, ms);
    BatchAppend(lib, xs, ys, config, ms);
    assert ExtractedRows(lib, xs, config, ms) + [] == ExtractedRows(lib, xs, config, ms);
    assert ExtractedErrors(lib, xs, config, ms) + [] == ExtractedErrors(lib, xs, config, ms);
  }

  predicate SortedByRegId(s: seq<ProcessedRow>)
  {
    forall p, q | 0 <= p < q < |s| :: s[p].regId <= s[q].regId
  }

  /** Exchanges two neighbouring rows. */
  method SwapWithPrevious(a: array<ProcessedRow>, j: int)
    requires 0 < j < a.Length
    modifies a
    ensures a[..] == old(a[..])[j - 1 := old(a[j])][j := old(a[j - 1])]
    ensures multiset(a[..]) == old(multiset(a[..]))
  {
    a[j - 1], a[j] := a[j], a[j - 1];
  }

  /**
   * The state of one insertion pass over rows `0..i`: the row being inserted
   * sits at `j`, the other rows of `0..i` are in order, and everything after
   * `j` is no smaller than it.
   */
  ghost predicate Inserting(s: seq<ProcessedRow>, i: int, j: int)
    requires 0 <= j <= i < |s|
  {
    && (forall p, q | 0 <= p < q <= i && p != j && q != j :: s[p].regId <= s[q].regId)
    && (forall q | j < q <= i :: s[j].regId <= s[q].regId)
    && (0 < j < i ==> s[j - 1].regId <= s[j + 1].regId)
  }

  /** Swapping the inserted row past a larger neighbour keeps the pass's state. */
  lemma InsertionStep(s: seq<ProcessedRow>, i: int, j: int)
    requires 0 < j <= i < |s| && Inserting(s, i, j) && s[j - 1].regId > s[j].regId
    ensures Inserting(s[j - 1 := s[j]][j := s[j - 1]], i, j - 1)
  {
  }

  /** A pass stops once the inserted row is at the front or after a no larger row; rows `0..i` are then in order. */
  lemma InsertionDone(s: seq<ProcessedRow>, i: int, j: int)
    requires 0 <= j <= i < |s| && Inserting(s, i, j)
    requires j == 0 || s[j - 1].regId <= s[j].regId
    ensures forall p, q | 0 <= p < q <= i :: s[p].regId <= s[q].regId
  {
  }

  /**
   * One pass of the insertion sort: moves row `i` left past the rows with a
   * strictly larger register number, so that rows `0..i` end up in order;
   * the rows after `i` are not touched.
   */
  method InsertIntoSorted(a: array<ProcessedRow>, i: int)
    requires 0 <= i < a.Length
    requires forall p, q | 0 <= p < q < i :: a[p].regId <= a[q].regId
    modifies a
    ensures forall p, q | 0 <= p < q <= i :: a[p].regId <= a[q].regId
    ensures a[i + 1..] == old(a[i + 1..])
    ensures multiset(a[..]) == old(multiset(a[..]))
  {
    var j := i;
    while j > 0 && a[j - 1].regId > a[j].regId
      invariant 0 <= j <= i
      invariant Inserting(a[..], i, j)
      invariant a[i + 1..] == old(a[i + 1..])
      invariant multiset(a[..]) == old(multiset(a[..]))
    {
      ghost var before := a[..];
      InsertionStep(before, i, j);
      SwapWithPrevious(a, j);
      assert a[i + 1..] == before[i + 1..];
      j := j - 1;
    }
    InsertionDone(a[..], i, j);
  }

  /**
   * `rows.sort((a, b) => a.regId - b.regId)`: an in-place insertion sort that
   * moves a row left only past rows with a strictly larger register number.
   */
  method SortByRegId(a: array<ProcessedRow>)
    modifies a
    ensures SortedByRegId(a[..])
    ensures multiset(a[..]) == old(multiset(a[..]))
  {
    var i := 0;
    while i < a.Length
      invariant 0 <= i <= a.Length
      invariant forall p, q | 0 <= p < q < i :: a[p].regId <= a[q].regId
      invariant multiset(a[..]) == old(multiset(a[..]))
    {
      InsertIntoSorted(a, i);
      i := i + 1;
    }
  }

  /** `rows.forEach((row, index) => row.order = index + 1)`. */
  method AssignOrder(a: array<ProcessedRow>)
    modifies a
    ensures forall k | 0 <= k < a.Length :: a[k] == old(a[k]).(order := k + 1)
  {
    var i := 0;
    while i < a.Length
      invariant 0 <= i <= a.Length
      invariant forall k | 0 <= k < i :: a[k] == old(a[k]).(order := k + 1)
      invariant forall k | i <= k < a.Length :: a[k] == old(a[k])
    {
      a[i] := a[i].(order := i + 1);
      i := i + 1;
    }
  }

  /** The rows with their order field cleared, as they were before numbering. */
  function Unnumbered(rows: seq<ProcessedRow>): (r: seq<ProcessedRow>)
    ensures |r| == |rows| && forall k | 0 <= k < |r| :: r[k] == rows[k].(order := 0)
  {
    seq(|rows|, k requires 0 <= k < |rows| => rows[k].(order := 0))
  }

  /** The `processFile` calls over the batch: rows and errors pushed in file order. */
  method CollectOutcomes(lib: Library, files: seq<File>, config: GlobalConfig, ms: seq<FieldMapping>)
    returns (rows: seq<ProcessedRow>, errors: seq<ExcelError>)
    ensures rows == ExtractedRows(lib, files, config, ms)
    ensures errors == ExtractedErrors(lib, files, config, ms)
  {
    rows, errors := [], [];
    var i := 0;
    while i < |files|
      invariant 0 <= i <= |files|
      invariant rows == ExtractedRows(lib, files[..i], config, ms)
      invariant errors == ExtractedErrors(lib, files[..i], config, ms)
    {
      var outcome := ProcessFile(lib, files[i], config, ms);
      match outcome {
        case Skipped =>
        case Extracted(row) => rows := rows + [row];
        case Failed(error) => errors := errors + [error];
      }
      assert files[..i + 1][..i] == files[..i];
      i := i + 1;
    }
    assert files[..i] == files;
  }

  /**
   * `processFiles`: every file is processed (here one after the other), rows
   * and errors are collected, then the rows are sorted by register number and
   * numbered 1..n.
   */
  method ProcessFiles(lib: Library, files: seq<File>, config: GlobalConfig, ms: seq<FieldMapping>)
    returns (rows: seq<ProcessedRow>, errors: seq<ExcelError>)
    ensures SortedByRegId(rows)
    ensures forall k | 0 <= k < |rows| :: rows[k].order == k + 1
    ensures multiset(Unnumbered(rows)) == multiset(ExtractedRows(lib, files, config, ms))
    ensures errors == ExtractedErrors(lib, files, config, ms)
    ensures |rows| + |errors| <= |files|
  {
    var collected;
    collected, errors := CollectOutcomes(lib, files, config, ms);
    BatchCount(lib, files, config, ms);
    rows := SortAndNumber(collected);
  }

  /**
   * The tail of `processFiles`: the collected rows, all still unnumbered, are
   * sorted by register number in place and then numbered 1..n.
   */
  method SortAndNumber(collected: seq<ProcessedRow>) returns (rows: seq<ProcessedRow>)
    requires forall k | 0 <= k < |collected| :: collected[k].order == 0
    ensures |rows| == |collected|
    ensures SortedByRegId(rows)
    ensures forall k | 0 <= k < |rows| :: rows[k].order == k + 1
    ensures multiset(Unnumbered(rows)) == multiset(collected)
  {
    var a := new ProcessedRow[|collected|](k requires 0 <= k < |collected| => collected[k]);
    assert a[..] == collected;
    SortByRegId(a);
    ghost var sorted := a[..];
    assert forall k | 0 <= k < |sorted| :: sorted[k].order == 0 by {
      forall k | 0 <= k < |sorted| ensures sorted[k].order == 0 {
        assert sorted[k] in multiset(collected);
      }
    }
    AssignOrder(a);
    rows := a[..];
    assert Unnumbered(rows) == sorted;
  }
}
