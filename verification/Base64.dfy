/** Base64 without padding (sections 3.2, 4 and 5 of RFC 4648), decoding as leniently as Go's encoding/base64. */
module Base64 {
  import opened Wrappers

  type Byte = b: int | 0 <= b < 256

  /** The two alphabets differ in their last two characters. */
  datatype Alphabet = Standard | Url

  function CharOf(a: Alphabet, i: nat): char
    requires i < 64
  {
    if i < 26 then ('A' as int + i) as char
    else if i < 52 then ('a' as int + i - 26) as char
    else if i < 62 then ('0' as int + i - 52) as char
    else if i == 62 then (if a.Url? then '-' else '+')
    else (if a.Url? then '_' else '/')
  }

  function IndexOf(a: Alphabet, c: char): (r: Option<nat>)
    ensures r.Some? ==> r.value < 64
  {
    if 'A' <= c <= 'Z' then Some(c as int - 'A' as int)
    else if 'a' <= c <= 'z' then Some(c as int - 'a' as int + 26)
    else if '0' <= c <= '9' then Some(c as int - '0' as int + 52)
    else if c == CharOf(a, 62) then Some(62)
    else if c == CharOf(a, 63) then Some(63)
    else None
  }

  /** The six-bit values of the bytes: three bytes give four, a tail of one or two gives two or three. */
  function Values(bytes: seq<Byte>): (r: seq<nat>)
    ensures forall i :: 0 <= i < |r| ==> r[i] < 64
  {
    if |bytes| == 0 then []
    else if |bytes| == 1 then [bytes[0] / 4, bytes[0] % 4 * 16]
    else if |bytes| == 2 then [bytes[0] / 4, bytes[0] % 4 * 16 + bytes[1] / 16, bytes[1] % 16 * 4]
    else
      [bytes[0] / 4, bytes[0] % 4 * 16 + bytes[1] / 16, bytes[1] % 16 * 4 + bytes[2] / 64, bytes[2] % 64]
      + Values(bytes[3..])
  }

  function Spell(a: Alphabet, v: seq<nat>): (s: string)
    requires forall i :: 0 <= i < |v| ==> v[i] < 64
    ensures |s| == |v| && forall i :: 0 <= i < |v| ==> s[i] == CharOf(a, v[i])
  {
    if v == [] then "" else [CharOf(a, v[0])] + Spell(a, v[1..])
  }

  function Encode(a: Alphabet, bytes: seq<Byte>): string {
    Spell(a, Values(bytes))
  }

  /** The values of the characters; line breaks are skipped, and any other foreign character is an error. */
  function Sextets(a: Alphabet, s: string): (r: Option<seq<nat>>)
    ensures r.Some? ==> forall i :: 0 <= i < |r.value| ==> r.value[i] < 64
  {
    if s == "" then Some([])
    else if s[0] == '\n' || s[0] == '\r' then Sextets(a, s[1..])
    else
      match (IndexOf(a, s[0]), Sextets(a, s[1..]))
      case (Some(i), Some(rest)) => Some([i] + rest)
      case _ => None
  }

  /** Four values make three bytes; a tail of two or three makes one or two, its spare bits ignored. */
  function Pack(v: seq<nat>): Option<seq<Byte>>
    requires forall i :: 0 <= i < |v| ==> v[i] < 64
  {
    if |v| == 0 then Some([])
    else if |v| == 1 then None
    else if |v| == 2 then Some([v[0] * 4 + v[1] / 16])
    else if |v| == 3 then Some([v[0] * 4 + v[1] / 16, v[1] % 16 * 16 + v[2] / 4])
    else
      match Pack(v[4..])
      case None => None
      case Some(rest) => Some([v[0] * 4 + v[1] / 16, v[1] % 16 * 16 + v[2] / 4, v[2] % 4 * 64 + v[3]] + rest)
  }

  function Decode(a: Alphabet, s: string): Option<seq<Byte>> {
    match Sextets(a, s)
    case None => None
    case Some(v) => Pack(v)
  }

  lemma IndexOfChar(a: Alphabet, i: nat)
    requires i < 64
    ensures IndexOf(a, CharOf(a, i)) == Some(i)
    ensures CharOf(a, i) != '\n' && CharOf(a, i) != '\r' && CharOf(a, i) != '.' && CharOf(a, i) != '$'
  {
  }

  lemma {:induction false} SextetsOfSpelling(a: Alphabet, v: seq<nat>)
    requires forall i :: 0 <= i < |v| ==> v[i] < 64
    ensures Sextets(a, Spell(a, v)) == Some(v)
  {
    if v != [] {
      SextetsOfSpelling(a, v[1..]);
      IndexOfChar(a, v[0]);
      assert Spell(a, v)[1..] == Spell(a, v[1..]);
      assert [v[0]] + v[1..] == v;
    }
  }

  lemma Regroup(x: Byte, y: Byte, z: Byte)
    ensures x / 4 * 4 + (x % 4 * 16 + y / 16) / 16 == x
    ensures (x % 4 * 16 + y / 16) % 16 * 16 + (y % 16 * 4 + z / 64) / 4 == y
    ensures (y % 16 * 4 + z / 64) % 4 * 64 + z % 64 == z
  {
  }

  lemma {:induction false} PackValues(bytes: seq<Byte>)
    ensures Pack(Values(bytes)) == Some(bytes)
    decreases |bytes|
  {
    if |bytes| == 1 {
      Regroup(bytes[0], 0, 0);
      assert bytes == [bytes[0]];
    } else if |bytes| == 2 {
      Regroup(bytes[0], bytes[1], 0);
      assert bytes == [bytes[0], bytes[1]];
    } else if |bytes| >= 3 {
      Regroup(bytes[0], bytes[1], bytes[2]);
      PackValues(bytes[3..]);
      assert Values(bytes)[4..] == Values(bytes[3..]);
      assert bytes == [bytes[0], bytes[1], bytes[2]] + bytes[3..];
    }
  }

  /** Decoding undoes encoding, on all byte strings and in both alphabets. */
  lemma DecodeEncode(a: Alphabet, bytes: seq<Byte>)
    ensures Decode(a, Encode(a, bytes)) == Some(bytes)
  {
    SextetsOfSpelling(a, Values(bytes));
    PackValues(bytes);
  }

  /** Neither separator of the cookie and hash formats occurs in encoded text. */
  lemma EncodeAvoidsSeparators(a: Alphabet, bytes: seq<Byte>)
    ensures '.' !in Encode(a, bytes) && '$' !in Encode(a, bytes)
  {
    var v := Values(bytes);
    forall i | 0 <= i < |v| ensures CharOf(a, v[i]) != '.' && CharOf(a, v[i]) != '$' {
      IndexOfChar(a, v[i]);
    }
  }

  // ---------- strings as bytes ----------

  function ToBytes(s: string): (r: seq<Byte>)
    requires forall i :: 0 <= i < |s| ==> s[i] as int < 256
    ensures |r| == |s| && forall i :: 0 <= i < |s| ==> r[i] == s[i] as int
  {
    if s == "" then [] else [s[0] as int] + ToBytes(s[1..])
  }

  function FromBytes(bytes: seq<Byte>): (s: string)
    ensures |s| == |bytes| && forall i :: 0 <= i < |s| ==> s[i] as int == bytes[i]
  {
    if bytes == [] then "" else [bytes[0] as char] + FromBytes(bytes[1..])
  }

  // ---------- published values ----------

  lemma ValuesOfThree(bytes: seq<Byte>)
    requires |bytes| == 3
    ensures Values(bytes)
         == [bytes[0] / 4, bytes[0] % 4 * 16 + bytes[1] / 16, bytes[1] % 16 * 4 + bytes[2] / 64, bytes[2] % 64]
  {
    assert bytes[3..] == [];
  }

  /** Test vectors of section 10 of RFC 4648, without padding. */
  lemma KnownEncodings()
    ensures Encode(Standard, []) == "" && Encode(Standard, [0x66]) == "Zg" && Encode(Standard, [0x66, 0x6F]) == "Zm8"
    ensures Encode(Standard, [0x66, 0x6F, 0x6F]) == "Zm9v"
  {
    ValuesOfThree([0x66, 0x6F, 0x6F]);
    assert Values([0x66, 0x6F, 0x6F]) == [25, 38, 61, 47];
    assert Values([0x66]) == [25, 32] && Values([0x66, 0x6F]) == [25, 38, 60];
  }

  /** The alphabets of sections 4 and 5: the ends of their runs, and that the characters of a run follow one another. */
  lemma KnownAlphabets(a: Alphabet, i: nat)
    ensures CharOf(a, 0) == 'A' && CharOf(a, 25) == 'Z' && CharOf(a, 26) == 'a' && CharOf(a, 51) == 'z'
    ensures CharOf(a, 52) == '0' && CharOf(a, 61) == '9'
    ensures CharOf(Standard, 62) == '+' && CharOf(Standard, 63) == '/'
    ensures CharOf(Url, 62) == '-' && CharOf(Url, 63) == '_'
    ensures i < 61 && i != 25 && i != 51 ==> CharOf(a, i + 1) as int == CharOf(a, i) as int + 1
  {
  }

  // ---------- what is refused ----------

  predicate IsNewline(c: char) {
    c == '\n' || c == '\r'
  }

  /** The text without its line breaks. */
  function Letters(s: string): string {
    if s == "" then "" else if IsNewline(s[0]) then Letters(s[1..]) else [s[0]] + Letters(s[1..])
  }

  ghost predicate InAlphabet(a: Alphabet, c: char) {
    exists i: nat :: i < 64 && CharOf(a, i) == c
  }

  lemma InAlphabetIff(a: Alphabet, c: char)
    ensures InAlphabet(a, c) <==> IndexOf(a, c).Some?
  {
    if IndexOf(a, c).Some? {
      assert CharOf(a, IndexOf(a, c).value) == c;
    }
    if InAlphabet(a, c) {
      var i: nat :| i < 64 && CharOf(a, i) == c;
      IndexOfChar(a, i);
    }
  }

  ghost predicate AllInAlphabet(a: Alphabet, s: string) {
    forall i :: 0 <= i < |s| ==> InAlphabet(a, s[i])
  }

  lemma {:induction false} SextetsIff(a: Alphabet, s: string)
    ensures Sextets(a, s).Some? <==> AllInAlphabet(a, Letters(s))
    ensures Sextets(a, s).Some? ==> |Sextets(a, s).value| == |Letters(s)|
  {
    if s != "" {
      SextetsIff(a, s[1..]);
      if !IsNewline(s[0]) {
        InAlphabetIff(a, s[0]);
        var letters, rest := Letters(s), Letters(s[1..]);
        assert letters == [s[0]] + rest;
        assert forall i :: 0 <= i < |rest| ==> rest[i] == letters[i + 1];
        if AllInAlphabet(a, rest) && InAlphabet(a, s[0]) {
          forall i | 0 <= i < |letters| ensures InAlphabet(a, letters[i]) {
            assert i > 0 ==> letters[i] == rest[i - 1];
          }
        }
        if AllInAlphabet(a, letters) {
          assert InAlphabet(a, letters[0]);
        }
      }
    }
  }

  lemma {:induction false} PackIff(v: seq<nat>)
    requires forall i :: 0 <= i < |v| ==> v[i] < 64
    ensures Pack(v).Some? <==> |v| % 4 != 1
    ensures Pack(v).Some? ==> |Pack(v).value| == |v| * 3 / 4
    decreases |v|
  {
    if |v| >= 4 {
      PackIff(v[4..]);
      FourMore(|v[4..]|);
    }
  }

  lemma FourMore(n: nat)
    ensures (n + 4) % 4 == n % 4 && (n + 4) * 3 / 4 == n * 3 / 4 + 3
  {
  }

  /**
   A text is refused exactly when, line breaks aside, it has a character that is not in the alphabet or is one longer
   than whole groups of four.
   */
  lemma DecodesIff(a: Alphabet, s: string)
    ensures Decode(a, s).Some? <==> AllInAlphabet(a, Letters(s)) && |Letters(s)| % 4 != 1
    ensures Decode(a, s).Some? ==> |Decode(a, s).value| == |Letters(s)| * 3 / 4
  {
    SextetsIff(a, s);
    if Sextets(a, s).Some? {
      PackIff(Sextets(a, s).value);
    }
  }
}
