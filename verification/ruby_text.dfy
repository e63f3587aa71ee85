/**
 The Ruby and ActiveSupport string operations the library relies on:
 `String#gsub(/::/, '/')`, `String#split(/::/)`, `Array#join`, `demodulize`,
 `dasherize` and `String#to_i`. `underscore` and `singularize` are Rails
 inflections driven by rule tables; they stay uninterpreted and are carried
 by an `Inflector` value.
 */
module RubyText {
  import opened Wrappers

  /** The rule-table inflections, supplied by the caller. */
  datatype Inflector = Inflector(underscore: string -> string, singularize: string -> string)

  const Sep: string := "::"

  predicate ColonFree(w: string) {
    forall i :: 0 <= i < |w| ==> w[i] != ':'
  }

  /** The namespace segments of a Ruby constant path such as `A::B::People`. */
  predicate ValidSegments(segs: seq<string>) {
    |segs| > 0 && forall i :: 0 <= i < |segs| ==> segs[i] != "" && ColonFree(segs[i])
  }

  /** `s` holds "::" starting at position `i`. */
  predicate SepAt(s: string, i: int) {
    0 <= i && i + 1 < |s| && s[i] == ':' && s[i + 1] == ':'
  }

  /** `Array#join(sep)`. */
  function Join(xs: seq<string>, sep: string): string {
    if |xs| == 0 then ""
    else if |xs| == 1 then xs[0]
    else xs[0] + sep + Join(xs[1..], sep)
  }

  /** The string form of a constant path. */
  function QualifiedName(segs: seq<string>): string {
    Join(segs, Sep)
  }

  lemma {:induction false} JoinSnoc(xs: seq<string>, y: string, sep: string)
    requires |xs| > 0
    ensures Join(xs + [y], sep) == Join(xs, sep) + sep + y
    decreases |xs|
  {
    if |xs| == 1 {
      assert xs + [y] == [xs[0], y];
      assert (xs + [y])[1..] == [y];
    } else {
      assert (xs + [y])[1..] == xs[1..] + [y];
      JoinSnoc(xs[1..], y, sep);
    }
  }

  /** `gsub(/::/, '/')`: every "::", scanned left to right without overlap, becomes "/". */
  function ReplaceSep(s: string): (r: string)
    ensures |r| <= |s|
    ensures forall i :: 0 <= i < |r| - 1 ==> !SepAt(r, i)
    ensures |s| > 0 ==> |r| > 0 && (r[0] == ':' <==> s[0] == ':' && !SepAt(s, 0))
    ensures ColonFree(s) ==> r == s
    decreases |s|
  {
    if SepAt(s, 0) then
      var rest := ReplaceSep(s[2..]);
      var r := "/" + rest;
      assert forall i :: 1 <= i < |r| - 1 ==> (SepAt(r, i) <==> SepAt(rest, i - 1));
      r
    else if |s| == 0 then ""
    else
      var rest := ReplaceSep(s[1..]);
      var r := [s[0]] + rest;
      assert forall i :: 1 <= i < |r| - 1 ==> (SepAt(r, i) <==> SepAt(rest, i - 1));
      assert |rest| > 0 ==> (r[1] == ':' <==> s[1] == ':' && !SepAt(s[1..], 0));
      r
  }

  lemma {:induction false} ReplaceSepColonFreePrefix(w: string, t: string)
    requires ColonFree(w)
    ensures ReplaceSep(w + t) == w + ReplaceSep(t)
    decreases |w|
  {
    if |w| > 0 {
      assert (w + t)[1..] == w[1..] + t;
      ReplaceSepColonFreePrefix(w[1..], t);
    } else {
      assert w + t == t;
    }
  }

  /** Gsub of a qualified name joins its segments with "/". */
  lemma {:induction false} ReplaceSepOfQualified(segs: seq<string>)
    requires ValidSegments(segs)
    ensures ReplaceSep(QualifiedName(segs)) == Join(segs, "/")
    decreases |segs|
  {
    if |segs| > 1 {
      var rest := segs[1..];
      assert ValidSegments(rest) by {
        forall i | 0 <= i < |rest| ensures rest[i] != "" && ColonFree(rest[i]) {
          assert rest[i] == segs[i + 1];
        }
      }
      ReplaceSepOfQualified(rest);
      var t := Sep + Join(rest, Sep);
      assert QualifiedName(segs) == segs[0] + t;
      ReplaceSepColonFreePrefix(segs[0], t);
      assert SepAt(t, 0);
      assert t[2..] == Join(rest, Sep);
    }
  }

  /** The raw fields of `split(/::/)`, before Ruby drops trailing empty ones. */
  function Fields(s: string): (r: seq<string>)
    ensures |r| > 0
    ensures Join(r, Sep) == s
    decreases |s|
  {
    if SepAt(s, 0) then
      var f := Fields(s[2..]);
      assert Join([""] + f, Sep) == "" + Sep + Join(f, Sep);
      assert s == Sep + s[2..];
      [""] + f
    else if |s| == 0 then [""]
    else
      var f := Fields(s[1..]);
      var r := [[s[0]] + f[0]] + f[1..];
      assert Join(r, Sep) == [s[0]] + Join(f, Sep) by {
        if |f| > 1 {
          assert r[1..] == f[1..];
          assert Join(f, Sep) == f[0] + Sep + Join(f[1..], Sep);
        }
      }
      assert s == [s[0]] + s[1..];
      r
  }

  lemma {:induction false} FieldsColonFreePrefix(w: string, t: string)
    requires ColonFree(w)
    ensures Fields(w + t) == [w + Fields(t)[0]] + Fields(t)[1..]
    decreases |w|
  {
    if |w| > 0 {
      assert (w + t)[1..] == w[1..] + t;
      FieldsColonFreePrefix(w[1..], t);
      assert !SepAt(w + t, 0);
      assert [w[0]] + (w[1..] + Fields(t)[0]) == w + Fields(t)[0];
    } else {
      assert w + t == t;
      var f := Fields(t);
      assert w + f[0] == f[0];
      assert [f[0]] + f[1..] == f;
    }
  }

  lemma {:induction false} FieldsOfQualified(segs: seq<string>)
    requires ValidSegments(segs)
    ensures Fields(QualifiedName(segs)) == segs
    decreases |segs|
  {
    if |segs| == 1 {
      assert QualifiedName(segs) == segs[0] + "";
      FieldsColonFreePrefix(segs[0], "");
      assert Fields("") == [""];
    } else {
      var rest := segs[1..];
      assert ValidSegments(rest) by {
        forall i | 0 <= i < |rest| ensures rest[i] != "" && ColonFree(rest[i]) {
          assert rest[i] == segs[i + 1];
        }
      }
      FieldsOfQualified(rest);
      var t := Sep + Join(rest, Sep);
      assert QualifiedName(segs) == segs[0] + t;
      FieldsColonFreePrefix(segs[0], t);
      assert SepAt(t, 0);
      assert t[2..] == Join(rest, Sep);
      assert Fields(t) == [""] + rest;
      assert segs[0] + "" == segs[0];
      assert [segs[0]] + rest == segs;
    }
  }

  /** Ruby's `split` drops empty fields from the end of its result. */
  function DropTrailingEmpty(xs: seq<string>): (r: seq<string>)
    ensures |r| <= |xs| && r == xs[..|r|]
    ensures |r| == 0 || r[|r| - 1] != ""
    ensures forall i :: |r| <= i < |xs| ==> xs[i] == ""
    decreases |xs|
  {
    if |xs| > 0 && xs[|xs| - 1] == "" then DropTrailingEmpty(xs[..|xs| - 1]) else xs
  }

  /** `String#split(/::/)`. */
  function RubySplit(s: string): seq<string> {
    DropTrailingEmpty(Fields(s))
  }

  lemma SplitOfQualified(segs: seq<string>)
    requires ValidSegments(segs)
    ensures RubySplit(QualifiedName(segs)) == segs
  {
    FieldsOfQualified(segs);
    assert segs[|segs| - 1] != "";
  }

  /** `String#rindex("::")`: the start of the last "::" in `s`. */
  function RIndexSep(s: string): (r: Option<nat>)
    ensures r.Some? ==> SepAt(s, r.value) && forall j :: r.value < j < |s| ==> !SepAt(s, j)
    ensures r.None? ==> forall j :: 0 <= j < |s| ==> !SepAt(s, j)
    decreases |s|
  {
    if |s| < 2 then None
    else if SepAt(s, |s| - 2) then Some(|s| - 2)
    else
      var r := RIndexSep(s[..|s| - 1]);
      assert forall j :: 0 <= j < |s| - 2 ==> (SepAt(s, j) <==> SepAt(s[..|s| - 1], j));
      r
  }

  /** ActiveSupport `demodulize`: the text after the last "::". */
  function Demodulize(s: string): (r: string)
    ensures |r| <= |s| && r == s[|s| - |r|..]
  {
    match RIndexSep(s)
    case None => s
    case Some(i) => s[i + 2..]
  }

  lemma DemodulizeOfQualified(segs: seq<string>)
    requires ValidSegments(segs)
    ensures Demodulize(QualifiedName(segs)) == segs[|segs| - 1]
  {
    var last := segs[|segs| - 1];
    var q := QualifiedName(segs);
    if |segs| == 1 {
      assert forall j :: 0 <= j < |q| ==> !SepAt(q, j) by {
        assert q == segs[0];
      }
    } else {
      var init := segs[..|segs| - 1];
      assert init + [last] == segs;
      JoinSnoc(init, last, Sep);
      var p := Join(init, Sep);
      assert q == p + Sep + last;
      assert SepAt(q, |p|);
      forall j | |p| < j < |q| ensures !SepAt(q, j) {
        if j + 1 < |q| {
          assert q[j + 1] == last[j + 1 - |p| - 2];
        }
      }
      var r := RIndexSep(q);
      assert r.Some? && r.value == |p|;
      assert q[|p| + 2..] == last;
    }
  }

  /** ActiveSupport `dasherize`: every underscore becomes a dash. */
  function Dasherize(s: string): (r: string)
    ensures |r| == |s|
    ensures forall i :: 0 <= i < |s| ==> r[i] == (if s[i] == '_' then '-' else s[i])
    decreases |s|
  {
    if |s| == 0 then "" else [if s[0] == '_' then '-' else s[0]] + Dasherize(s[1..])
  }

  // ---------------------------------------------------------------------
  // String#to_i and its inverse for decimal integers
  // ---------------------------------------------------------------------

  /** The characters Ruby's integer parser skips before a number. */
  predicate IsSpace(c: char) {
    c == ' ' || c == '\t' || c == '\n' || c == '\r' || c as int == 11 || c as int == 12
  }

  predicate IsDigit(c: char) {
    '0' <= c <= '9'
  }

  function DigitValue(c: char): nat
    requires IsDigit(c)
  {
    c as int - '0' as int
  }

  predicate AllDigits(s: string) {
    forall i :: 0 <= i < |s| ==> IsDigit(s[i])
  }

  function SkipSpace(s: string): (r: string)
    ensures |r| <= |s| && r == s[|s| - |r|..]
    ensures |r| == 0 || !IsSpace(r[0])
    decreases |s|
  {
    if |s| > 0 && IsSpace(s[0]) then SkipSpace(s[1..]) else s
  }

  /**
   Reads the longest run of digits, where a single underscore may sit between
   two digits, accumulating on top of `acc`; stops at the first character that
   cannot continue the number.
   */
  function ScanDigits(t: string, acc: nat): nat
    decreases |t|
  {
    if |t| == 0 || !IsDigit(t[0]) then acc
    else
      var acc' := acc * 10 + DigitValue(t[0]);
      if |t| >= 3 && t[1] == '_' && IsDigit(t[2]) then ScanDigits(t[2..], acc')
      else ScanDigits(t[1..], acc')
  }

  /** `String#to_i`: leading blanks, an optional sign, then digits; 0 when none. */
  function ToI(s: string): int {
    ReadSigned(SkipSpace(s))
  }

  /** An optional sign, then digits. */
  function ReadSigned(t: string): int {
    if |t| > 0 && t[0] == '-' then 0 - ScanDigits(t[1..], 0)
    else if |t| > 0 && t[0] == '+' then ScanDigits(t[1..], 0)
    else ScanDigits(t, 0)
  }

  /** The value of a digit string read left to right on top of `acc`. */
  function DecimalValue(acc: nat, d: string): nat
    requires AllDigits(d)
    decreases |d|
  {
    if |d| == 0 then acc else DecimalValue(acc * 10 + DigitValue(d[0]), d[1..])
  }

  function DigitChar(n: nat): (c: char)
    requires n < 10
    ensures IsDigit(c) && DigitValue(c) == n
  {
    ('0' as int + n) as char
  }

  /** `Integer#to_s` for a natural number. */
  function NatToString(n: nat): (s: string)
    ensures |s| > 0 && AllDigits(s)
    ensures |s| > 1 ==> s[0] != '0'
  {
    if n < 10 then [DigitChar(n)] else NatToString(n / 10) + [DigitChar(n % 10)]
  }

  /** `Integer#to_s`. */
  function IntToString(i: int): (s: string)
    ensures |s| > 0
  {
    if i < 0 then "-" + NatToString(-i) else NatToString(i)
  }

  lemma {:induction false} DecimalValueSnoc(acc: nat, d: string, c: char)
    requires AllDigits(d) && IsDigit(c)
    ensures AllDigits(d + [c])
    ensures DecimalValue(acc, d + [c]) == DecimalValue(acc, d) * 10 + DigitValue(c)
    decreases |d|
  {
    if |d| > 0 {
      assert (d + [c])[1..] == d[1..] + [c];
      DecimalValueSnoc(acc * 10 + DigitValue(d[0]), d[1..], c);
    }
  }

  lemma {:induction false} DecimalValueOfNatToString(n: nat)
    ensures DecimalValue(0, NatToString(n)) == n
  {
    if n >= 10 {
      DecimalValueOfNatToString(n / 10);
      DecimalValueSnoc(0, NatToString(n / 10), DigitChar(n % 10));
    }
  }

  /** A string that cannot continue a number that has just read a digit. */
  predicate EndsNumber(rest: string) {
    (|rest| == 0 || !IsDigit(rest[0])) && !(|rest| >= 2 && rest[0] == '_' && IsDigit(rest[1]))
  }

  lemma {:induction false} ScanDigitsRun(d: string, rest: string, acc: nat)
    requires AllDigits(d) && EndsNumber(rest)
    ensures ScanDigits(d + rest, acc) == DecimalValue(acc, d)
    decreases |d|
  {
    if |d| > 0 {
      var t := d + rest;
      assert t[1..] == d[1..] + rest;
      assert !(|t| >= 3 && t[1] == '_' && IsDigit(t[2])) by {
        if |d| > 1 {
          assert t[1] == d[1];
        } else {
          assert t[1..] == rest;
        }
      }
      ScanDigitsRun(d[1..], rest, acc * 10 + DigitValue(d[0]));
    } else {
      assert d + rest == rest;
    }
  }

  /** A string that starts with a digit is read from its first character. */
  lemma ToIOfLeadingDigit(s: string)
    requires |s| > 0 && IsDigit(s[0])
    ensures ToI(s) == ScanDigits(s, 0)
  {
    assert SkipSpace(s) == s;
  }

  /** A string that starts with a minus sign is read as the negated digits after it. */
  lemma ToIOfLeadingMinus(s: string)
    requires |s| > 0 && s[0] == '-'
    ensures ToI(s) == 0 - ScanDigits(s[1..], 0)
  {
    assert SkipSpace(s) == s;
  }

  /** `to_i` of a digit run and what cannot continue it is the run's value. */
  lemma ToIOfDigits(d: string, rest: string)
    requires |d| > 0 && AllDigits(d) && EndsNumber(rest)
    ensures ToI(d + rest) == DecimalValue(0, d)
  {
    assert (d + rest)[0] == d[0];
    ToIOfLeadingDigit(d + rest);
    ScanDigitsRun(d, rest, 0);
  }

  /** `to_i` of a minus sign and a digit run is the run's value negated. */
  lemma ToIOfNegatedDigits(d: string, rest: string)
    requires |d| > 0 && AllDigits(d) && EndsNumber(rest)
    ensures ToI("-" + (d + rest)) + DecimalValue(0, d) == 0
  {
    var s := "-" + (d + rest);
    ToIOfLeadingMinus(s);
    assert s[1..] == d + rest;
    ScanDigitsRun(d, rest, 0);
  }

  /** `to_i` reads back the decimal rendering of any integer, whatever follows it. */
  lemma ToIOfIntToString(i: int, rest: string)
    requires EndsNumber(rest)
    ensures ToI(IntToString(i) + rest) == i
  {
    var n: nat := if i < 0 then -i else i;
    var d := NatToString(n);
    DecimalValueOfNatToString(n);
    if i < 0 {
      assert IntToString(i) + rest == "-" + (d + rest);
      ToIOfNegatedDigits(d, rest);
    } else {
      assert IntToString(i) + rest == d + rest;
      ToIOfDigits(d, rest);
    }
  }
}
