/** Splitting strings, and decimal numbers as fmt prints and strconv parses them. */
module Text {
  import opened Wrappers

  // ---------- decimal integers ----------

  function DigitChar(d: nat): char
    requires d < 10
  {
    "0123456789"[d]
  }

  predicate IsDigit(c: char) {
    '0' <= c <= '9'
  }

  function DigitValue(c: char): nat
    requires IsDigit(c)
  {
    c as int - '0' as int
  }

  function PrintNat(n: nat): (s: string)
    ensures s != [] && forall i :: 0 <= i < |s| ==> IsDigit(s[i])
  {
    if n < 10 then [DigitChar(n)] else PrintNat(n / 10) + [DigitChar(n % 10)]
  }

  /** The verb %d. */
  function PrintInt(n: int): string {
    if n < 0 then "-" + PrintNat(-n) else PrintNat(n)
  }

  /** The value of a run of digits; any other character makes it `None`, and so does an empty string. */
  function ParseNat(s: string): Option<nat> {
    if s == [] then None
    else if !IsDigit(s[|s| - 1]) then None
    else if |s| == 1 then Some(DigitValue(s[0]))
    else
      match ParseNat(s[..|s| - 1])
      case None => None
      case Some(n) => Some(10 * n + DigitValue(s[|s| - 1]))
  }

  const MIN_INT64 := -0x8000_0000_0000_0000
  const MAX_INT64 := 0x7FFF_FFFF_FFFF_FFFF

  /** strconv.ParseInt(s, 10, 64): an optional sign and digits, within 64 bits. */
  function ParseInt64(s: string): Option<int> {
    if s == [] then None
    else
      var digits := if s[0] == '+' || s[0] == '-' then s[1..] else s;
      match ParseNat(digits)
      case None => None
      case Some(n) =>
        var magnitude: int := n;
        var v := if s[0] == '-' then -magnitude else magnitude;
        if MIN_INT64 <= v <= MAX_INT64 then Some(v) else None
  }

  lemma {:induction false} ParsePrintNat(n: nat)
    ensures ParseNat(PrintNat(n)) == Some(n)
  {
    if n >= 10 {
      ParsePrintNat(n / 10);
      var s := PrintNat(n);
      assert s[..|s| - 1] == PrintNat(n / 10);
    }
  }

  /** Parsing undoes printing on all 64-bit integers. */
  lemma ParsePrintInt(n: int)
    requires MIN_INT64 <= n <= MAX_INT64
    ensures ParseInt64(PrintInt(n)) == Some(n)
  {
    var digits := PrintNat(if n < 0 then -n else n);
    ParsePrintNat(if n < 0 then -n else n);
    if n < 0 {
      assert ("-" + digits)[1..] == digits;
    } else {
      assert IsDigit(digits[0]);
    }
  }

  // ---------- what is a number ----------

  function TenTo(k: nat): nat {
    if k == 0 then 1 else 10 * TenTo(k - 1)
  }

  predicate AllDigits(s: string) {
    s != "" && forall i :: 0 <= i < |s| ==> IsDigit(s[i])
  }

  /** The value of a decimal numeral, each digit by its place. */
  function PlaceValue(s: string): nat
    requires forall i :: 0 <= i < |s| ==> IsDigit(s[i])
  {
    if s == "" then 0 else DigitValue(s[0]) * TenTo(|s| - 1) + PlaceValue(s[1..])
  }

  lemma TenTimes(d: nat, k: nat, rest: nat, c: nat)
    requires k > 0
    ensures d * TenTo(k) + (10 * rest + c) == 10 * (d * TenTo(k - 1) + rest) + c
  {
  }

  lemma {:induction false} PlaceValueOneMore(s: string, c: char)
    requires (forall i :: 0 <= i < |s| ==> IsDigit(s[i])) && IsDigit(c)
    ensures forall i :: 0 <= i < |s + [c]| ==> IsDigit((s + [c])[i])
    ensures PlaceValue(s + [c]) == 10 * PlaceValue(s) + DigitValue(c)
  {
    if s == "" {
      assert s + [c] == [c] && [c][1..] == "";
    } else {
      assert (s + [c])[0] == s[0] && (s + [c])[1..] == s[1..] + [c];
      PlaceValueOneMore(s[1..], c);
      TenTimes(DigitValue(s[0]), |s|, PlaceValue(s[1..]), DigitValue(c));
    }
  }

  lemma {:induction false} ParseNatIff(s: string, n: nat)
    ensures ParseNat(s) == Some(n) <==> AllDigits(s) && PlaceValue(s) == n
  {
    if s != "" {
      var before, c := s[..|s| - 1], s[|s| - 1];
      assert s == before + [c];
      if |s| > 1 && ParseNat(before).Some? {
        ParseNatIff(before, ParseNat(before).value);
      } else if |s| > 1 && AllDigits(before) {
        ParseNatIff(before, PlaceValue(before));
      }
      if IsDigit(c) && (|s| == 1 || AllDigits(before)) {
        PlaceValueOneMore(before, c);
      }
      assert AllDigits(s) ==> IsDigit(c) && (|s| == 1 || AllDigits(before));
    }
  }

  /** An optional sign and at least one digit, standing for v. */
  ghost predicate IsNumeral(s: string, v: int) {
    || (AllDigits(s) && v == PlaceValue(s))
    || (s != "" && s[0] == '+' && AllDigits(s[1..]) && v == PlaceValue(s[1..]))
    || (s != "" && s[0] == '-' && AllDigits(s[1..]) && v == -(PlaceValue(s[1..]) as int))
  }

  /** Exactly the numerals of 64-bit integers are accepted, each for its value; any other text is refused. */
  lemma ParseInt64Iff(s: string, v: int)
    ensures ParseInt64(s) == Some(v) <==> IsNumeral(s, v) && MIN_INT64 <= v <= MAX_INT64
  {
    if s != "" {
      var digits := if s[0] == '+' || s[0] == '-' then s[1..] else s;
      if ParseNat(digits).Some? {
        ParseNatIff(digits, ParseNat(digits).value);
      }
      if AllDigits(digits) {
        ParseNatIff(digits, PlaceValue(digits));
      }
    }
  }

  // ---------- printing is one to one ----------

  lemma {:induction false} PrintNatOneToOne(m: nat, n: nat)
    ensures PrintNat(m) == PrintNat(n) <==> m == n
  {
    ParsePrintNat(m);
    ParsePrintNat(n);
  }

  /** The sign and the digits of a printed number. */
  lemma PrintedSign(n: int)
    ensures n < 0 ==> PrintInt(n)[0] == '-' && PrintInt(n)[1..] == PrintNat(-n)
    ensures n >= 0 ==> PrintInt(n) == PrintNat(n) && PrintInt(n)[0] != '-'
  {
    if n >= 0 {
      assert IsDigit(PrintNat(n)[0]);
    }
  }

  lemma NegativesOneToOne(m: nat, n: nat)
    requires "-" + PrintNat(m) == "-" + PrintNat(n)
    ensures m == n
  {
    assert PrintNat(m) == ("-" + PrintNat(m))[1..] && PrintNat(n) == ("-" + PrintNat(n))[1..];
    PrintNatOneToOne(m, n);
  }

  lemma PrintIntOneToOne(m: int, n: int)
    ensures PrintInt(m) == PrintInt(n) <==> m == n
  {
    PrintedSign(m);
    PrintedSign(n);
    if PrintInt(m) == PrintInt(n) {
      if m < 0 {
        NegativesOneToOne(-m, -n);
      } else {
        PrintNatOneToOne(m, n);
      }
    }
  }

  lemma PrintIntChars(n: int)
    ensures forall c :: c in PrintInt(n) ==> IsDigit(c) || c == '-'
  {
  }

  // ---------- splitting ----------

  /** strings.SplitN(s, sep, 2), when it yields two parts. */
  function Cut(s: string, sep: char): (r: Option<(string, string)>)
    ensures r.Some? ==> s == r.value.0 + [sep] + r.value.1 && sep !in r.value.0
    ensures r.None? ==> sep !in s
  {
    if s == [] then None
    else if s[0] == sep then Some(([], s[1..]))
    else
      match Cut(s[1..], sep)
      case None => None
      case Some(parts) => Some(([s[0]] + parts.0, parts.1))
  }

  /** The first separator decides, so a first part without one comes back as it was. */
  lemma {:induction false} CutJoin(a: string, b: string, sep: char)
    requires sep !in a
    ensures Cut(a + [sep] + b, sep) == Some((a, b))
  {
    var s := a + [sep] + b;
    if a == [] {
      assert s[1..] == b;
    } else {
      assert s[0] == a[0] && a[0] in a;
      assert s[1..] == a[1..] + [sep] + b;
      CutJoin(a[1..], b, sep);
      assert [a[0]] + a[1..] == a;
    }
  }

  /** strings.Split(s, sep). */
  function Split(s: string, sep: char): seq<string>
    decreases |s|
  {
    match Cut(s, sep)
    case None => [s]
    case Some(parts) => [parts.0] + Split(parts.1, sep)
  }

  lemma SplitJoin(a: string, b: string, sep: char)
    requires sep !in a
    ensures Split(a + [sep] + b, sep) == [a] + Split(b, sep)
  {
    CutJoin(a, b, sep);
  }

  /** A string with one last separator is determined by what stands before and after it. */
  lemma LastSeparator(a: string, b: string, c: string, d: string, sep: char)
    requires a + [sep] + b == c + [sep] + d && sep !in b && sep !in d
    ensures a == c && b == d
  {
    var s := a + [sep] + b;
    assert s[|a|] == sep && s[|c|] == sep;
    assert forall i :: |a| < i < |s| ==> s[i] == b[i - |a| - 1];
    assert forall i :: |c| < i < |s| ==> s[i] == d[i - |c| - 1];
    assert |a| == |c|;
    assert a == s[..|a|] && c == s[..|c|];
    assert b == s[|a| + 1..] && d == s[|c| + 1..];
  }

  /** strings.Join(parts, sep). */
  function JoinAll(parts: seq<string>, sep: char): string
    requires parts != []
  {
    if |parts| == 1 then parts[0] else parts[0] + [sep] + JoinAll(parts[1..], sep)
  }

  /** Splitting undoes joining when no part contains the separator. */
  lemma {:induction false} SplitJoinAll(parts: seq<string>, sep: char)
    requires parts != [] && forall i :: 0 <= i < |parts| ==> sep !in parts[i]
    ensures Split(JoinAll(parts, sep), sep) == parts
  {
    if |parts| == 1 {
      assert Cut(parts[0], sep).None?;
    } else {
      SplitJoinAll(parts[1..], sep);
      SplitJoin(parts[0], JoinAll(parts[1..], sep), sep);
      assert parts == [parts[0]] + parts[1..];
    }
  }

  /** Splitting loses nothing, and leaves no separator in the parts. */
  lemma {:induction false} JoinSplit(s: string, sep: char)
    ensures Split(s, sep) != [] && JoinAll(Split(s, sep), sep) == s
    ensures forall i :: 0 <= i < |Split(s, sep)| ==> sep !in Split(s, sep)[i]
    decreases |s|
  {
    match Cut(s, sep)
    case None =>
    case Some(parts) =>
      JoinSplit(parts.1, sep);
      var rest := Split(parts.1, sep);
      assert Split(s, sep) == [parts.0] + rest && ([parts.0] + rest)[1..] == rest;
  }
}
