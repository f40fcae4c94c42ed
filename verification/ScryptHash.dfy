/**
 The self-describing password hash of internal/auth/password_scrypt.go. The key derivation (section 6 of RFC 7914)
 is any function `kdf`; `None` is its refusal of the parameters.
 */
module ScryptHash {
  import opened Wrappers
  import opened Text
  import opened Base64

  datatype Params = Params(n: int, r: int, p: int, keyLen: int)

  type Kdf = (string, seq<Byte>, int, int, int, int) -> Option<seq<Byte>>

  /** A derived key has the length asked for. */
  ghost predicate KeepsLength(kdf: Kdf) {
    forall password, salt, n, r, p, keyLen ::
      kdf(password, salt, n, r, p, keyLen).Some? ==> |kdf(password, salt, n, r, p, keyLen).value| == keyLen
  }

  /** The seven fields that the format "$scrypt$%d$%d$%d$%s$%s" puts between dollar signs; the first is empty. */
  function Fields(n: int, r: int, p: int, salt: seq<Byte>, key: seq<Byte>): seq<string> {
    ["", "scrypt", PrintInt(n), PrintInt(r), PrintInt(p), Encode(Standard, salt), Encode(Standard, key)]
  }

  /** The stored text. The salt is drawn by the caller. */
  function Hash(kdf: Kdf, h: Params, password: string, salt: seq<Byte>): Option<string> {
    match kdf(password, salt, h.n, h.r, h.p, h.keyLen)
    case None => None
    case Some(key) =>
      Some(JoinAll(Fields(h.n, h.r, h.p, salt, key), '$'))
  }

  /** What the scanner takes for space within a line; a newline is an error. */
  predicate IsSpace(c: char) {
    var r := c as int;
    || (0x9 <= r <= 0xD && r != 0xA) || r == 0x20 || r == 0x85 || r == 0xA0 || r == 0x1680 || 0x2000 <= r <= 0x200A
    || r == 0x2028 || r == 0x2029 || r == 0x202F || r == 0x205F || r == 0x3000
  }

  function SkipSpace(s: string): string {
    if s != "" && IsSpace(s[0]) then SkipSpace(s[1..]) else s
  }

  function DigitRun(s: string): (n: nat)
    ensures n <= |s|
  {
    if s != "" && IsDigit(s[0]) then 1 + DigitRun(s[1..]) else 0
  }

  /** One %d: white space, an optional sign, as many digits as there are; what follows is left. */
  function ScanInt(input: string): Option<(int, string)> {
    var s := SkipSpace(input);
    var sign := if s != "" && (s[0] == '+' || s[0] == '-') then 1 else 0;
    var end := sign + DigitRun(s[sign..]);
    match ParseInt64(s[..end])
    case None => None
    case Some(v) => Some((v, s[end..]))
  }

  /** A space in the format: at least one space, unless the input is at its end. */
  function ScanSpace(input: string): Option<string> {
    if input == "" then Some("")
    else if IsSpace(input[0]) then Some(SkipSpace(input))
    else None
  }

  /** " %d". */
  function ScanNext(input: string): Option<(int, string)> {
    match ScanSpace(input)
    case None => None
    case Some(rest) => ScanInt(rest)
  }

  /** Sscanf(input, "%d %d %d"); text after the third number is ignored. */
  function ScanThree(input: string): Option<(int, int, int)> {
    match ScanInt(input)
    case None => None
    case Some((n, rest)) =>
      match ScanNext(rest)
      case None => None
      case Some((r, rest')) =>
        match ScanNext(rest')
        case None => None
        case Some((p, _)) => Some((n, r, p))
  }

  function Verify(kdf: Kdf, password: string, encoded: string): bool {
    var parts := Split(encoded, '$');
    if |parts| != 7 || parts[1] != "scrypt" then false
    else
      match ScanThree(parts[2] + (" " + (parts[3] + (" " + parts[4]))))
      case None => false
      case Some((n, r, p)) =>
        match (Decode(Standard, parts[5]), Decode(Standard, parts[6]))
        case (Some(salt), Some(want)) => kdf(password, salt, n, r, p, |want|) == Some(want)
        case _ => false
  }

  predicate IsInt64(n: int) {
    MIN_INT64 <= n <= MAX_INT64
  }

  lemma {:induction false} DigitRunOfPrinted(digits: string, rest: string)
    requires forall i :: 0 <= i < |digits| ==> IsDigit(digits[i])
    requires rest == "" || !IsDigit(rest[0])
    ensures DigitRun(digits + rest) == |digits|
  {
    if digits == "" {
      assert digits + rest == rest;
    } else {
      assert (digits + rest)[1..] == digits[1..] + rest;
      DigitRunOfPrinted(digits[1..], rest);
    }
  }

  lemma ScanDigits(digits: string, rest: string)
    requires digits != "" && forall i :: 0 <= i < |digits| ==> IsDigit(digits[i])
    requires rest == "" || !IsDigit(rest[0])
    requires ParseInt64(digits).Some?
    ensures ScanInt(digits + rest) == Some((ParseInt64(digits).value, rest))
  {
    var s := digits + rest;
    assert s[0] == digits[0] && SkipSpace(s) == s;
    DigitRunOfPrinted(digits, rest);
    assert s[0..] == s && s[..|digits|] == digits && s[|digits|..] == rest;
  }

  lemma ScanNegative(digits: string, rest: string)
    requires digits != "" && forall i :: 0 <= i < |digits| ==> IsDigit(digits[i])
    requires rest == "" || !IsDigit(rest[0])
    requires ParseInt64("-" + digits).Some?
    ensures ScanInt("-" + digits + rest) == Some((ParseInt64("-" + digits).value, rest))
  {
    var s := "-" + digits + rest;
    assert s[0] == '-' && SkipSpace(s) == s;
    assert s[1..] == digits + rest;
    DigitRunOfPrinted(digits, rest);
    assert s[..1 + |digits|] == "-" + digits && s[1 + |digits|..] == rest;
  }

  /** A printed number is scanned back exactly, whatever non-digit follows it. */
  lemma ScanPrinted(n: int, rest: string)
    requires IsInt64(n) && (rest == "" || !IsDigit(rest[0]))
    ensures ScanInt(PrintInt(n) + rest) == Some((n, rest))
  {
    ParsePrintInt(n);
    if n < 0 {
      ScanNegative(PrintNat(-n), rest);
    } else {
      ScanDigits(PrintNat(n), rest);
    }
  }

  lemma ScanAfterSpace(s: string)
    requires s != "" && !IsSpace(s[0])
    ensures ScanNext(" " + s) == ScanInt(s)
  {
    assert (" " + s)[1..] == s;
    assert SkipSpace(" " + s) == SkipSpace(s) == s;
  }

  lemma PrintedStart(n: int)
    ensures PrintInt(n) != "" && !IsSpace(PrintInt(n)[0])
  {
    PrintIntChars(n);
    assert PrintInt(n)[0] in PrintInt(n);
  }

  lemma ScanNextPrinted(n: int, rest: string)
    requires IsInt64(n) && (rest == "" || !IsDigit(rest[0]))
    ensures ScanNext(" " + (PrintInt(n) + rest)) == Some((n, rest))
  {
    PrintedStart(n);
    ScanAfterSpace(PrintInt(n) + rest);
    ScanPrinted(n, rest);
  }

  lemma ScanThreePrinted(n: int, r: int, p: int)
    requires IsInt64(n) && IsInt64(r) && IsInt64(p)
    ensures ScanThree(PrintInt(n) + (" " + (PrintInt(r) + (" " + PrintInt(p))))) == Some((n, r, p))
  {
    var third := " " + PrintInt(p);
    ScanPrinted(n, " " + (PrintInt(r) + third));
    ScanNextPrinted(r, third);
    assert PrintInt(p) + "" == PrintInt(p);
    ScanNextPrinted(p, "");
  }

  /** The seven fields of a hash come back from splitting it. */
  lemma FieldsComeBack(n: int, r: int, p: int, salt: seq<Byte>, key: seq<Byte>)
    ensures Split(JoinAll(Fields(n, r, p, salt, key), '$'), '$') == Fields(n, r, p, salt, key)
  {
    EncodeAvoidsSeparators(Standard, key);
    EncodeAvoidsSeparators(Standard, salt);
    PrintIntChars(n);
    PrintIntChars(r);
    PrintIntChars(p);
    SplitJoinAll(Fields(n, r, p, salt, key), '$');
  }

  /**
   A stored hash accepts exactly the passwords that derive the same key under the parameters it was made with; the
   parameters of the hasher that verifies play no part.
   */
  lemma HashAcceptsItsPassword(kdf: Kdf, h: Params, password: string, salt: seq<Byte>, attempt: string)
    requires KeepsLength(kdf) && IsInt64(h.n) && IsInt64(h.r) && IsInt64(h.p)
    requires Hash(kdf, h, password, salt).Some?
    ensures Verify(kdf, attempt, Hash(kdf, h, password, salt).value)
       <==> kdf(attempt, salt, h.n, h.r, h.p, h.keyLen) == kdf(password, salt, h.n, h.r, h.p, h.keyLen)
    ensures Verify(kdf, password, Hash(kdf, h, password, salt).value)
  {
    var key := kdf(password, salt, h.n, h.r, h.p, h.keyLen).value;
    FieldsComeBack(h.n, h.r, h.p, salt, key);
    ScanThreePrinted(h.n, h.r, h.p);
    DecodeEncode(Standard, salt);
    DecodeEncode(Standard, key);
  }

  /** The stored text, spelled out. */
  lemma HashSpelledOut(kdf: Kdf, h: Params, password: string, salt: seq<Byte>)
    ensures Hash(kdf, h, password, salt) ==
      match kdf(password, salt, h.n, h.r, h.p, h.keyLen)
      case None => None
      case Some(key) =>
        Some("" + ['$'] + ("scrypt" + ['$'] + (PrintInt(h.n) + ['$'] + (PrintInt(h.r) + ['$'] + (PrintInt(h.p) + ['$']
             + (Encode(Standard, salt) + ['$'] + Encode(Standard, key)))))))
  {
    if kdf(password, salt, h.n, h.r, h.p, h.keyLen).Some? {
      var key := kdf(password, salt, h.n, h.r, h.p, h.keyLen).value;
      JoinSeven("", "scrypt", PrintInt(h.n), PrintInt(h.r), PrintInt(h.p), Encode(Standard, salt), Encode(Standard, key));
    }
  }

  lemma JoinMore(a: string, rest: seq<string>)
    requires rest != []
    ensures JoinAll([a] + rest, '$') == a + ['$'] + JoinAll(rest, '$')
  {
    assert ([a] + rest)[1..] == rest;
  }

  lemma JoinSeven(a: string, b: string, c: string, d: string, e: string, f: string, g: string)
    ensures JoinAll([a, b, c, d, e, f, g], '$')
         == a + ['$'] + (b + ['$'] + (c + ['$'] + (d + ['$'] + (e + ['$'] + (f + ['$'] + g)))))
  {
    JoinMore(f, [g]);
    JoinMore(e, [f, g]);
    JoinMore(d, [e, f, g]);
    JoinMore(c, [d, e, f, g]);
    JoinMore(b, [c, d, e, f, g]);
    JoinMore(a, [b, c, d, e, f, g]);
    assert [a] + [b, c, d, e, f, g] == [a, b, c, d, e, f, g] && [b] + [c, d, e, f, g] == [b, c, d, e, f, g];
    assert [c] + [d, e, f, g] == [c, d, e, f, g] && [d] + [e, f, g] == [d, e, f, g];
    assert [e] + [f, g] == [e, f, g] && [f] + [g] == [f, g];
  }

  /** Seven fields, the second of which names the scheme, with numbers and encodings that give the stored key. */
  ghost predicate IsHashFor(kdf: Kdf, password: string, parts: seq<string>) {
    && |parts| == 7 && parts[1] == "scrypt"
    && exists n, r, p, salt, want :: Reads(parts, n, r, p, salt, want) && kdf(password, salt, n, r, p, |want|) == Some(want)
  }

  ghost predicate Reads(parts: seq<string>, n: int, r: int, p: int, salt: seq<Byte>, want: seq<Byte>)
    requires |parts| == 7
  {
    && ScanThree(parts[2] + (" " + (parts[3] + (" " + parts[4])))) == Some((n, r, p))
    && Decode(Standard, parts[5]) == Some(salt) && Decode(Standard, parts[6]) == Some(want)
  }

  ghost predicate Accepts(kdf: Kdf, password: string, encoded: string, parts: seq<string>) {
    && parts != [] && encoded == JoinAll(parts, '$') && (forall i :: 0 <= i < |parts| ==> '$' !in parts[i])
    && IsHashFor(kdf, password, parts)
  }

  /** A text is accepted exactly when it is such fields joined by dollar signs; anything else is refused. */
  lemma AcceptedIsAHash(kdf: Kdf, password: string, encoded: string)
    ensures Verify(kdf, password, encoded) <==> exists parts :: Accepts(kdf, password, encoded, parts)
  {
    JoinSplit(encoded, '$');
    var parts := Split(encoded, '$');
    if Verify(kdf, password, encoded) {
      var (n, r, p) := ScanThree(parts[2] + (" " + (parts[3] + (" " + parts[4])))).value;
      var salt, want := Decode(Standard, parts[5]).value, Decode(Standard, parts[6]).value;
      assert Reads(parts, n, r, p, salt, want);
      assert Accepts(kdf, password, encoded, parts);
    }
    if parts' :| Accepts(kdf, password, encoded, parts') {
      SplitJoinAll(parts', '$');
      assert parts' == parts;
    }
  }
}
