/** The standard base64 alphabet with padding (section 4 of RFC 4648), as sender and receiver of the
    sandbox shell commands use it. */
module Base64 {
  import opened Domain
  import opened Text

  type Byte = n: nat | n < 256

  type Bytes = seq<Byte>

  function Letter(v: nat): char
    requires v < 64
  {
    if v < 26 then ('A' as int + v) as char
    else if v < 52 then ('a' as int + (v - 26)) as char
    else if v < 62 then ('0' as int + (v - 52)) as char
    else if v == 62 then '+' else '/'
  }

  function Sextet(c: char): Option<nat> {
    if 'A' <= c <= 'Z' then Some(c as int - 'A' as int)
    else if 'a' <= c <= 'z' then Some(c as int - 'a' as int + 26)
    else if '0' <= c <= '9' then Some(c as int - '0' as int + 52)
    else if c == '+' then Some(62) else if c == '/' then Some(63) else None
  }

  lemma SextetOfLetter(v: nat)
    requires v < 64
    ensures Sextet(Letter(v)) == Some(v) && Letter(v) != '=' && Solid(Letter(v))
  {
  }

  function Triple(a: Byte, b: Byte, c: Byte): string {
    [Letter(a / 4), Letter(a % 4 * 16 + b / 16), Letter(b % 16 * 4 + c / 64), Letter(c % 64)]
  }

  function Encode(data: Bytes): string {
    if data == [] then ""
    else if |data| == 1 then Triple(data[0], 0, 0)[..2] + "=="
    else if |data| == 2 then Triple(data[0], data[1], 0)[..3] + "="
    else Triple(data[0], data[1], data[2]) + Encode(data[3..])
  }

  /** The bytes of a full group of four letters. */
  function Group(s: string): Option<Bytes>
    requires |s| == 4
  {
    var v := (Sextet(s[0]), Sextet(s[1]), Sextet(s[2]), Sextet(s[3]));
    if v.0.Some? && v.1.Some? && v.2.Some? && v.3.Some?
       && v.0.value < 64 && v.1.value < 64 && v.2.value < 64 && v.3.value < 64
    then Some([v.0.value * 4 + v.1.value / 16, v.1.value % 16 * 16 + v.2.value / 4, v.2.value % 4 * 64 + v.3.value])
    else None
  }

  /** One group; padding may end the last one, and the bits it leaves over are dropped. */
  function Unit(s: string): Option<Bytes>
    requires |s| == 4
  {
    var keep := if s[2..] == "==" then 1 else if s[3] == '=' then 2 else 3;
    var full := if keep == 1 then s[..2] + "AA" else if keep == 2 then s[..3] + "A" else s;
    match Group(full)
    case Some(bytes) => Some(bytes[..keep])
    case None => None
  }

  function Decode(s: string): Option<Bytes> {
    if s == "" then Some([])
    else if |s| < 4 then None
    else
      var head := Unit(s[..4]);
      if head.None? || (|s| > 4 && s[3] == '=') then None
      else
        match Decode(s[4..])
        case Some(rest) => Some(head.value + rest)
        case None => None
  }

  function DropNewlines(s: string): string {
    if s == "" then "" else (if s[0] == '\n' || s[0] == '\r' then "" else s[..1]) + DropNewlines(s[1..])
  }

  /** The bits cut apart by Triple and put together by Group. */
  lemma Bits(a: Byte, b: Byte, c: Byte)
    ensures var x, y := a % 4 * 16 + b / 16, b % 16 * 4 + c / 64;
            && x < 64 && y < 64 && a / 4 * 4 + x / 16 == a && x % 16 * 16 + y / 4 == b && y % 4 * 64 + c % 64 == c
  {
  }

  lemma LettersOf(a: Byte, b: Byte, c: Byte)
    ensures var t := Triple(a, b, c);
            && Sextet(t[0]) == Some(a / 4) && Sextet(t[1]) == Some(a % 4 * 16 + b / 16)
            && Sextet(t[2]) == Some(b % 16 * 4 + c / 64) && Sextet(t[3]) == Some(c % 64)
            && t[2] != '=' && t[3] != '='
  {
    SextetOfLetter(a / 4);
    SextetOfLetter(a % 4 * 16 + b / 16);
    SextetOfLetter(b % 16 * 4 + c / 64);
    SextetOfLetter(c % 64);
  }

  lemma GroupOf(s: string, p: nat, q: nat, r: nat, t: nat)
    requires |s| == 4 && Sextet(s[0]) == Some(p) && Sextet(s[1]) == Some(q)
    requires Sextet(s[2]) == Some(r) && Sextet(s[3]) == Some(t)
    ensures p < 64 && q < 64 && r < 64 && t < 64
    ensures Group(s) == Some([p * 4 + q / 16, q % 16 * 16 + r / 4, r % 4 * 64 + t])
  {
  }

  lemma GroupOfTriple(a: Byte, b: Byte, c: Byte)
    ensures Group(Triple(a, b, c)) == Some([a, b, c])
    ensures Triple(a, b, c)[3] != '=' && Triple(a, b, c)[2] != '='
  {
    var x, y := a % 4 * 16 + b / 16, b % 16 * 4 + c / 64;
    LettersOf(a, b, c);
    GroupOf(Triple(a, b, c), a / 4, x, y, c % 64);
    Bits(a, b, c);
  }

  lemma LastUnit(s: string)
    requires |s| == 4
    ensures Decode(s) == Unit(s)
  {
    assert s[..4] == s && s[4..] == "";
    if Unit(s).Some? { assert Unit(s).value + [] == Unit(s).value; }
  }

  lemma OneByte(a: Byte)
    ensures Decode(Triple(a, 0, 0)[..2] + "==") == Some([a])
  {
    var t := Triple(a, 0, 0);
    var s := t[..2] + "==";
    GroupOfTriple(a, 0, 0);
    assert s[2..] == "==" && s[..2] == t[..2] && t[..2] + "AA" == t;
    assert [a, 0, 0][..1] == [a];
    LastUnit(s);
  }

  lemma TwoBytes(a: Byte, b: Byte)
    ensures Decode(Triple(a, b, 0)[..3] + "=") == Some([a, b])
  {
    var t := Triple(a, b, 0);
    var s := t[..3] + "=";
    GroupOfTriple(a, b, 0);
    assert s[2..][0] == t[2] && s[..3] == t[..3] && t[..3] + "A" == t;
    assert [a, b, 0][..2] == [a, b];
    LastUnit(s);
  }

  lemma FirstUnit(a: Byte, b: Byte, c: Byte, s: string)
    ensures Decode(Triple(a, b, c) + s) == if Decode(s).Some? then Some([a, b, c] + Decode(s).value) else None
  {
    var t := Triple(a, b, c);
    GroupOfTriple(a, b, c);
    assert (t + s)[..4] == t && (t + s)[4..] == s && t[2..][0] == t[2];
    assert [a, b, c][..3] == [a, b, c];
  }

  lemma FirstThree(data: Bytes)
    requires |data| > 2
    ensures data == [data[0], data[1], data[2]] + data[3..]
  {
  }

  lemma ShortData(data: Bytes)
    ensures |data| == 1 ==> data == [data[0]]
    ensures |data| == 2 ==> data == [data[0], data[1]]
  {
  }

  /** Decoding is the inverse of encoding, on every byte string. */
  lemma {:induction false} DecodeEncode(data: Bytes)
    ensures Decode(Encode(data)) == Some(data)
    decreases |data|
  {
    if |data| == 1 {
      OneByte(data[0]);
      ShortData(data);
    } else if |data| == 2 {
      TwoBytes(data[0], data[1]);
      ShortData(data);
    } else if |data| > 2 {
      var rest := data[3..];
      DecodeEncode(rest);
      FirstUnit(data[0], data[1], data[2], Encode(rest));
      FirstThree(data);
    }
  }

  lemma {:induction false} EncodeIsSolid(data: Bytes)
    ensures forall i | 0 <= i < |Encode(data)| :: Solid(Encode(data)[i])
    ensures Encode(data) == "" <==> data == []
    decreases |data|
  {
    if data != [] {
      var b, c := if |data| > 1 then data[1] else 0, if |data| > 2 then data[2] else 0;
      SextetOfLetter(data[0] / 4);
      SextetOfLetter(data[0] % 4 * 16 + b / 16);
      SextetOfLetter(b % 16 * 4 + c / 64);
      SextetOfLetter(c % 64);
      if |data| > 2 { EncodeIsSolid(data[3..]); }
    }
  }

  lemma {:induction false} DropNewlinesOfSolid(s: string)
    requires forall i | 0 <= i < |s| :: Solid(s[i])
    ensures DropNewlines(s) == s && DropNewlines(s + "\n") == s
    decreases |s|
  {
    if s != "" {
      DropNewlinesOfSolid(s[1..]);
      assert (s + "\n")[1..] == s[1..] + "\n";
    }
  }

  /** What the receiver decodes: the here-document of an upload adds a newline, the reader of an export
      trims the output. */
  lemma Transported(data: Bytes)
    ensures Decode(DropNewlines(Encode(data) + "\n")) == Some(data)
    ensures Decode(DropNewlines(Encode(data))) == Some(data)
    ensures TrimSpace(Encode(data)) == Encode(data) && (Encode(data) == "" <==> data == [])
  {
    EncodeIsSolid(data);
    DropNewlinesOfSolid(Encode(data));
    DecodeEncode(data);
    if data != [] { SolidEndsAreTrimmed(Encode(data)); }
  }

  // ---- The encoding of RFC 4648, section 4 ---------------------------------------------------------------

  /** The alphabet: A to Z, a to z, 0 to 9, plus and slash, in this order. */
  lemma Alphabet(v: nat)
    requires v < 63
    ensures Letter(0) == 'A' && Letter(25) == 'Z' && Letter(26) == 'a' && Letter(51) == 'z'
    ensures Letter(52) == '0' && Letter(61) == '9' && Letter(62) == '+' && Letter(63) == '/'
    ensures v != 25 && v != 51 && v != 61 && v != 62 ==> Letter(v + 1) as int == Letter(v) as int + 1
  {
  }

  /** Three bytes and their four letters are the same 24 bits, most significant first. */
  lemma TripleIsBigEndian(a: Byte, b: Byte, c: Byte)
    ensures var t := Triple(a, b, c);
            && Sextet(t[0]).Some? && Sextet(t[1]).Some? && Sextet(t[2]).Some? && Sextet(t[3]).Some?
            && ((Sextet(t[0]).value * 64 + Sextet(t[1]).value) * 64 + Sextet(t[2]).value) * 64 + Sextet(t[3]).value
               == (a * 256 + b) * 256 + c
  {
    LettersOf(a, b, c);
  }

  /** Letters, and padding in the last one or two places only. */
  predicate WellFormed(s: string) {
    var n := |s|;
    && n % 4 == 0
    && (forall i: nat | i + 2 < n :: Sextet(s[i]).Some?)
    && (n > 0 ==>
          || (Sextet(s[n - 2]).Some? && (Sextet(s[n - 1]).Some? || s[n - 1] == '='))
          || (s[n - 2] == '=' && s[n - 1] == '='))
  }

  lemma UnitAcceptsIff(s: string)
    requires |s| == 4
    ensures Unit(s).Some? <==> WellFormed(s)
  {
    assert s[2..] == [s[2], s[3]];
  }

  lemma WellFormedTail(s: string)
    requires |s| > 4
    ensures WellFormed(s) <==> (forall i: nat | i < 4 :: Sextet(s[i]).Some?) && WellFormed(s[4..])
  {
    var t := s[4..];
    if (forall i: nat | i < 4 :: Sextet(s[i]).Some?) && WellFormed(t) {
      forall i: nat | i + 2 < |s| ensures Sextet(s[i]).Some? { if i >= 4 { assert t[i - 4] == s[i]; } }
    }
  }

  /** What the decoder accepts. */
  lemma {:induction false} DecodesIff(s: string)
    ensures Decode(s).Some? <==> WellFormed(s)
    decreases |s|
  {
    if |s| == 4 {
      LastUnit(s);
      UnitAcceptsIff(s);
    } else if |s| > 4 {
      DecodesIff(s[4..]);
      WellFormedTail(s);
      UnitAcceptsIff(s[..4]);
    }
  }

  /** Line breaks are dropped, and nothing else. */
  lemma {:induction false} DropNewlinesOf(a: string, b: string)
    ensures DropNewlines(a + b) == DropNewlines(a) + DropNewlines(b)
    decreases |a|
  {
    if a == "" {
      assert a + b == b;
    } else {
      DropNewlinesOf(a[1..], b);
      assert (a + b)[1..] == a[1..] + b && (a + b)[..1] == a[..1];
    }
  }

  lemma DropNewlinesOfOne(c: char)
    ensures DropNewlines([c]) == if c == '\n' || c == '\r' then "" else [c]
  {
    assert [c][1..] == "" && [c][..1] == [c];
  }

  // ---- Cut output ------------------------------------------------------------------------------------

  /** The letters, padding included, that the encoding of n bytes takes. */
  function Letters(n: nat): nat { (n + 2) / 3 * 4 }

  lemma LettersMore(n: nat)
    ensures Letters(n + 3) == Letters(n) + 4
  {
  }

  lemma EncodeThree(a: Byte, b: Byte, c: Byte, rest: Bytes)
    ensures Encode([a, b, c] + rest) == Triple(a, b, c) + Encode(rest)
  {
    var data := [a, b, c] + rest;
    assert data[3..] == rest && data[0] == a && data[1] == b && data[2] == c;
  }

  lemma {:induction false} EncodedLength(data: Bytes)
    ensures |Encode(data)| == Letters(|data|)
    decreases |data|
  {
    if |data| > 2 {
      EncodedLength(data[3..]);
      EncodeThree(data[0], data[1], data[2], data[3..]);
      LettersMore(|data[3..]|);
      FirstThree(data);
    }
  }

  /** What the first n letters of an encoding decode to: nothing valid inside a group of four, the bytes
      of the whole groups at a group's end, and everything once it is complete. */
  function DecodedPart(data: Bytes, n: nat): Option<Bytes> {
    if n >= Letters(|data|) then Some(data)
    else if n % 4 == 0 then Some(data[..n / 4 * 3]) else None
  }

  lemma FewLetters(data: Bytes, n: nat)
    requires n < 4 && n < Letters(|data|) && |Encode(data)| == Letters(|data|)
    ensures Decode(Encode(data)[..n]) == DecodedPart(data, n)
  {
    TooShort(Encode(data)[..n]);
  }

  lemma TooShort(s: string)
    requires |s| < 4
    ensures Decode(s) == if s == "" then Some([]) else None
  {
  }

  lemma PartGrows(a: Byte, b: Byte, c: Byte, rest: Bytes, n: nat)
    requires 4 <= n < 4 + Letters(|rest|)
    ensures var part := DecodedPart(rest, n - 4);
            DecodedPart([a, b, c] + rest, n) == if part.Some? then Some([a, b, c] + part.value) else None
  {
    LettersMore(|rest|);
    if n % 4 == 0 { TakeBeyond([a, b, c], rest, n / 4 * 3); }
  }

  lemma PartStep(a: Byte, b: Byte, c: Byte, rest: Bytes, n: nat)
    requires 4 <= n < 4 + Letters(|rest|) && |Encode(rest)| == Letters(|rest|)
    requires Decode(Encode(rest)[..n - 4]) == DecodedPart(rest, n - 4)
    ensures Decode((Triple(a, b, c) + Encode(rest))[..n]) == DecodedPart([a, b, c] + rest, n)
  {
    TakeBeyond(Triple(a, b, c), Encode(rest), n);
    FirstUnit(a, b, c, Encode(rest)[..n - 4]);
    PartGrows(a, b, c, rest, n);
  }

  lemma {:induction false} DecodePart(data: Bytes, n: nat)
    requires n <= Letters(|data|)
    ensures |Encode(data)| == Letters(|data|) && Decode(Encode(data)[..n]) == DecodedPart(data, n)
    decreases |data|
  {
    EncodedLength(data);
    if n == Letters(|data|) {
      DecodeEncode(data);
      assert Encode(data)[..n] == Encode(data);
    } else if n < 4 {
      FewLetters(data, n);
    } else {
      var rest := data[3..];
      DecodePart(rest, n - 4);
      PartStep(data[0], data[1], data[2], rest, n);
      EncodeThree(data[0], data[1], data[2], rest);
      LettersMore(|rest|);
      FirstThree(data);
    }
  }

  lemma TakeBeyond<T>(a: seq<T>, b: seq<T>, n: nat)
    requires |a| <= n <= |a| + |b|
    ensures (a + b)[..n] == a + b[..n - |a|]
  {
  }

  /** Cut output as the receiver gets it. */
  lemma PartTransported(data: Bytes, n: nat)
    requires n <= Letters(|data|)
    ensures |Encode(data)| == Letters(|data|)
    ensures var out := Encode(data)[..n];
            && TrimSpace(out) == out && Decode(DropNewlines(out)) == DecodedPart(data, n) && (out == "" <==> n == 0)
  {
    DecodePart(data, n);
    EncodeIsSolid(data);
    var out := Encode(data)[..n];
    assert forall i | 0 <= i < |out| :: Solid(out[i]);
    DropNewlinesOfSolid(out);
    if out != "" { SolidEndsAreTrimmed(out); }
  }
}
