/**
 Base64url without padding (RFC 4648 section 5) and the canonical decoder of internal/fejws/compact.go, which wraps a
 lenient one: that skips CR and LF and ignores the unused low bits of the last character.
 */
module Base64Url {
  import opened Prelude

  type Byte = x: int | 0 <= x < 256 witness 0
  type Sextet = x: int | 0 <= x < 64 witness 0

  /** The alphabet of RFC 4648 table 2. */
  function Digit(x: Sextet): char {
    if x < 26 then (65 + x) as char
    else if x < 52 then (71 + x) as char
    else if x < 62 then (x - 4) as char
    else if x == 62 then '-' else '_'
  }

  function Value(c: char): (r: Option<Sextet>)
    ensures r.Some? ==> Digit(r.value) == c
  {
    if 'A' <= c <= 'Z' then Some(c as int - 65)
    else if 'a' <= c <= 'z' then Some(c as int - 71)
    else if '0' <= c <= '9' then Some(c as int + 4)
    else if c == '-' then Some(62)
    else if c == '_' then Some(63)
    else None
  }

  // ----- bytes and sextets -----

  /** Four sextets out of three bytes, and three bytes out of four sextets. */
  function First(a: Byte): Sextet { a / 4 }
  function Second(a: Byte, b: Byte): Sextet { a % 4 * 16 + b / 16 }
  function Third(b: Byte, c: Byte): Sextet { b % 16 * 4 + c / 64 }
  function Fourth(c: Byte): Sextet { c % 64 }

  function High(p: Sextet, q: Sextet): Byte { p * 4 + q / 16 }
  function Middle(q: Sextet, r: Sextet): Byte { q % 16 * 16 + r / 4 }
  function Low(r: Sextet, s: Sextet): Byte { r % 4 * 64 + s }

  lemma BytesBack(a: Byte, b: Byte, c: Byte)
    ensures High(First(a), Second(a, b)) == a
    ensures Middle(Second(a, b), Third(b, c)) == b
    ensures Low(Third(b, c), Fourth(c)) == c
  {
  }

  lemma SextetsBack(p: Sextet, q: Sextet, r: Sextet, s: Sextet)
    ensures var a, b, c := High(p, q), Middle(q, r), Low(r, s);
            First(a) == p && Second(a, b) == q && Third(b, c) == r && Fourth(c) == s
  {
  }

  /** With nothing after it a byte leaves zero bits; these come back only if they were zero. */
  lemma LastSextet(p: Sextet, q: Sextet, r: Sextet)
    ensures First(High(p, q)) == p
    ensures Second(High(p, q), 0) == q <==> q % 16 == 0
    ensures Second(High(p, q), Middle(q, r)) == q
    ensures Third(Middle(q, r), 0) == r <==> r % 4 == 0
  {
  }

  /** Three bytes make four sextets; one or two at the end make two or three, the last filled up with zero bits. */
  function Sextets(b: seq<Byte>): seq<Sextet> {
    if b == [] then []
    else if |b| == 1 then [First(b[0]), Second(b[0], 0)]
    else if |b| == 2 then [First(b[0]), Second(b[0], b[1]), Third(b[1], 0)]
    else [First(b[0]), Second(b[0], b[1]), Third(b[1], b[2]), Fourth(b[2])] + Sextets(b[3..])
  }

  /** The lenient inverse: left-over bits are dropped, a single left-over sextet is an error. */
  function Bytes(x: seq<Sextet>): Option<seq<Byte>> {
    if x == [] then Some([])
    else if |x| == 1 then None
    else if |x| == 2 then Some([High(x[0], x[1])])
    else if |x| == 3 then Some([High(x[0], x[1]), Middle(x[1], x[2])])
    else
      match Bytes(x[4..])
      case None => None
      case Some(rest) => Some([High(x[0], x[1]), Middle(x[1], x[2]), Low(x[2], x[3])] + rest)
  }

  lemma {:induction false} BytesOfSextets(b: seq<Byte>)
    ensures Bytes(Sextets(b)) == Some(b)
  {
    hide First, Second, Third, Fourth, High, Middle, Low;
    if |b| >= 3 {
      BytesOfSextets(b[3..]);
      BytesBack(b[0], b[1], b[2]);
      var x := Sextets(b);
      assert x[4..] == Sextets(b[3..]);
      assert Bytes(x) == Some([High(x[0], x[1]), Middle(x[1], x[2]), Low(x[2], x[3])] + b[3..]);
      assert b == [b[0], b[1], b[2]] + b[3..];
    } else if |b| == 2 {
      BytesBack(b[0], b[1], 0);
      assert b == [b[0], b[1]];
    } else if |b| == 1 {
      BytesBack(b[0], 0, 0);
      assert b == [b[0]];
    }
  }

  /** The bits a decoder drops are zero. */
  predicate TrailingZero(x: seq<Sextet>) {
    match |x| % 4
    case 2 => x[|x| - 1] % 16 == 0
    case 3 => x[|x| - 1] % 4 == 0
    case _ => true
  }

  lemma TrailingTail(x: seq<Sextet>)
    requires |x| >= 4
    ensures TrailingZero(x) <==> TrailingZero(x[4..])
  {
  }

  lemma {:induction false} SextetsOfBytes(x: seq<Sextet>)
    requires Bytes(x).Some?
    ensures Sextets(Bytes(x).value) == x <==> TrailingZero(x)
  {
    hide First, Second, Third, Fourth, High, Middle, Low;
    if |x| < 4 {
      SextetsOfFew(x);
    } else {
      SextetsOfBytes(x[4..]);
      TrailingTail(x);
      SextetsBack(x[0], x[1], x[2], x[3]);
      hide TrailingZero;
      var rest, b := Bytes(x[4..]).value, Bytes(x).value;
      assert b[3..] == rest;
      assert Sextets(b) == x[..4] + Sextets(rest);
      assert Sextets(b)[4..] == Sextets(rest);
      assert x == x[..4] + x[4..];
    }
  }

  lemma SextetsOfTwo(p: Sextet, q: Sextet)
    ensures Bytes([p, q]).Some? && (Sextets(Bytes([p, q]).value) == [p, q] <==> q % 16 == 0)
  {
    hide First, Second, High;
    LastSextet(p, q, 0);
    var x := Sextets([High(p, q)]);
    assert x == [First(High(p, q)), Second(High(p, q), 0)];
    assert x == [p, q] <==> x[1] == q;
  }

  lemma SextetsOfThree(p: Sextet, q: Sextet, r: Sextet)
    ensures Bytes([p, q, r]).Some? && (Sextets(Bytes([p, q, r]).value) == [p, q, r] <==> r % 4 == 0)
  {
    hide First, Second, Third, High, Middle;
    LastSextet(p, q, r);
    var a, b := High(p, q), Middle(q, r);
    var x := Sextets([a, b]);
    assert x == [First(a), Second(a, b), Third(b, 0)];
    assert x == [p, q, r] <==> x[2] == r;
  }

  lemma SextetsOfFew(x: seq<Sextet>)
    requires |x| < 4 && Bytes(x).Some?
    ensures Sextets(Bytes(x).value) == x <==> TrailingZero(x)
  {
    TrailingOfFew(x);
    hide *;
    if |x| == 3 {
      ThreeOf(x);
      SextetsOfThree(x[0], x[1], x[2]);
    } else if |x| == 2 {
      TwoOf(x);
      SextetsOfTwo(x[0], x[1]);
    } else {
      NoneOf(x);
    }
  }

  lemma ThreeOf(x: seq<Sextet>)
    requires |x| == 3
    ensures x == [x[0], x[1], x[2]]
  {
  }

  lemma TwoOf(x: seq<Sextet>)
    requires |x| == 2
    ensures x == [x[0], x[1]]
  {
  }

  lemma NoneOf(x: seq<Sextet>)
    requires |x| < 2 && Bytes(x).Some?
    ensures Sextets(Bytes(x).value) == x
  {
  }

  lemma TrailingOfFew(x: seq<Sextet>)
    requires |x| < 4
    ensures TrailingZero(x) <==> (|x| == 2 ==> x[1] % 16 == 0) && (|x| == 3 ==> x[2] % 4 == 0)
  {
  }

  /** Bytes and sextets read as one number each, on top of what stands before them. */
  function BytesNumber(before: nat, b: seq<Byte>): nat
    decreases |b|
  {
    if b == [] then before else BytesNumber(before * 256 + b[0], b[1..])
  }

  function SextetsNumber(before: nat, x: seq<Sextet>): nat
    decreases |x|
  {
    if x == [] then before else SextetsNumber(before * 64 + x[0], x[1..])
  }

  /**
   The sextets are the bytes' own number, shifted by the zero bits that fill up the last sextet: four after one
   left-over byte, two after two.
   */
  lemma {:induction false} SameNumber(before: nat, b: seq<Byte>)
    ensures var x, n := SextetsNumber(before, Sextets(b)), BytesNumber(before, b);
            && (|b| % 3 == 0 ==> x == n) && (|b| % 3 == 1 ==> x == 16 * n) && (|b| % 3 == 2 ==> x == 4 * n)
    decreases |b|
  {
    hide *;
    ByLength(b);
    Spelled(b);
    if |b| >= 3 {
      SameNumber(((before * 256 + b[0]) * 256 + b[1]) * 256 + b[2], b[3..]);
      NumberOfThree(before, b[0], b[1], b[2], b[3..], Sextets(b[3..]));
    } else if |b| == 2 {
      NumberOfTwo(before, b[0], b[1]);
    } else if |b| == 1 {
      NumberOfOne(before, b[0]);
    } else {
      NoNumber(before, before);
    }
  }

  /** As many sextets as it takes to hold the bits. */
  lemma {:induction false} SextetsLength(b: seq<Byte>)
    ensures 6 * (|Sextets(b)| - 1) < 8 * |b| <= 6 * |Sextets(b)|
  {
    ByLength(b);
    hide Sextets;
    if |b| >= 3 {
      SextetsLength(b[3..]);
    }
  }

  lemma ByLength(b: seq<Byte>)
    ensures |b| == 0 ==> Sextets(b) == []
    ensures |b| == 1 ==> Sextets(b) == [First(b[0]), Second(b[0], 0)]
    ensures |b| == 2 ==> Sextets(b) == [First(b[0]), Second(b[0], b[1]), Third(b[1], 0)]
    ensures |b| >= 3 ==>
              Sextets(b) == [First(b[0]), Second(b[0], b[1]), Third(b[1], b[2]), Fourth(b[2])] + Sextets(b[3..])
  {
    hide First, Second, Third, Fourth;
  }

  lemma Spelled(b: seq<Byte>)
    ensures |b| == 0 ==> b == []
    ensures |b| == 1 ==> b == [b[0]]
    ensures |b| == 2 ==> b == [b[0], b[1]]
    ensures |b| >= 3 ==> b == [b[0], b[1], b[2]] + b[3..]
  {
  }

  lemma FewSextets(before: nat, p: Sextet, q: Sextet, r: Sextet)
    ensures SextetsNumber(before, [p, q]) == (before * 64 + p) * 64 + q
    ensures SextetsNumber(before, [p, q, r]) == ((before * 64 + p) * 64 + q) * 64 + r
  {
    assert [p, q] == [p] + ([q] + []) && [p, q, r] == [p] + ([q] + ([r] + []));
    hide SextetsNumber;
    NoNumber(0, (before * 64 + p) * 64 + q);
    NoNumber(0, ((before * 64 + p) * 64 + q) * 64 + r);
    SextetsNext(before, p, [q] + []);
    SextetsNext(before, p, [q] + ([r] + []));
    SextetsNext(before * 64 + p, q, []);
    SextetsNext(before * 64 + p, q, [r] + []);
    SextetsNext((before * 64 + p) * 64 + q, r, []);
  }

  lemma FewBytes(before: nat, a: Byte, b: Byte)
    ensures BytesNumber(before, [a]) == before * 256 + a
    ensures BytesNumber(before, [a, b]) == (before * 256 + a) * 256 + b
  {
    assert [a] == [a] + [] && [a, b] == [a] + ([b] + []);
    hide BytesNumber;
    NoNumber(before * 256 + a, 0);
    NoNumber((before * 256 + a) * 256 + b, 0);
    BytesNext(before, a, []);
    BytesNext(before, a, [b] + []);
    BytesNext(before * 256 + a, b, []);
  }

  lemma NumberOfOne(before: nat, a: Byte)
    ensures SextetsNumber(before, [First(a), Second(a, 0)]) == BytesNumber(before, [a]) * 16
  {
    ThreeBytes(before, a, 0, 0);
    hide *;
    FewBytes(before, a, 0);
    FewSextets(before, First(a), Second(a, 0), 0);
  }

  lemma NumberOfTwo(before: nat, a: Byte, b: Byte)
    ensures SextetsNumber(before, [First(a), Second(a, b), Third(b, 0)]) == BytesNumber(before, [a, b]) * 4
  {
    ThreeBytes(before, a, b, 0);
    hide *;
    FewBytes(before, a, b);
    FewSextets(before, First(a), Second(a, b), Third(b, 0));
  }

  lemma NumberOfThree(before: nat, a: Byte, b: Byte, c: Byte, bytes: seq<Byte>, sextets: seq<Sextet>)
    ensures var next := ((before * 256 + a) * 256 + b) * 256 + c;
            && BytesNumber(before, [a, b, c] + bytes) == BytesNumber(next, bytes)
            && SextetsNumber(before, [First(a), Second(a, b), Third(b, c), Fourth(c)] + sextets) ==
               SextetsNumber(next, sextets)
  {
    ThreeBytes(before, a, b, c);
    var p, q, r, t := First(a), Second(a, b), Third(b, c), Fourth(c);
    hide First, Second, Third, Fourth, SextetsNumber, BytesNumber;
    assert [a, b, c] + bytes == [a] + ([b] + ([c] + bytes));
    assert [p, q, r, t] + sextets == [p] + ([q] + ([r] + ([t] + sextets)));
    BytesNext(before, a, [b] + ([c] + bytes));
    BytesNext(before * 256 + a, b, [c] + bytes);
    BytesNext((before * 256 + a) * 256 + b, c, bytes);
    SextetsNext(before, p, [q] + ([r] + ([t] + sextets)));
    SextetsNext(before * 64 + p, q, [r] + ([t] + sextets));
    SextetsNext((before * 64 + p) * 64 + q, r, [t] + sextets);
    SextetsNext(((before * 64 + p) * 64 + q) * 64 + r, t, sextets);
  }

  lemma NoNumber(before: nat, other: nat)
    ensures BytesNumber(before, []) == before && SextetsNumber(other, []) == other
  {
  }

  lemma BytesNext(before: nat, a: Byte, rest: seq<Byte>)
    ensures BytesNumber(before, [a] + rest) == BytesNumber(before * 256 + a, rest)
  {
    assert ([a] + rest)[1..] == rest;
  }

  lemma SextetsNext(before: nat, p: Sextet, rest: seq<Sextet>)
    ensures SextetsNumber(before, [p] + rest) == SextetsNumber(before * 64 + p, rest)
  {
    assert ([p] + rest)[1..] == rest;
  }

  lemma ThreeBytes(before: nat, a: Byte, b: Byte, c: Byte)
    ensures (before * 64 + First(a)) * 64 + Second(a, b) == (before * 256 + a) * 16 + b / 16
    ensures ((before * 64 + First(a)) * 64 + Second(a, b)) * 64 + Third(b, c) ==
            ((before * 256 + a) * 256 + b) * 4 + c / 64
    ensures (((before * 64 + First(a)) * 64 + Second(a, b)) * 64 + Third(b, c)) * 64 + Fourth(c) ==
            ((before * 256 + a) * 256 + b) * 256 + c
  {
    assert a == 4 * (a / 4) + a % 4 && b == 16 * (b / 16) + b % 16 && c == 64 * (c / 64) + c % 64;
    var two, three := (before * 64 + First(a)) * 64 + Second(a, b), ((before * 256 + a) * 256 + b) * 4 + c / 64;
    assert two == (before * 256 + a) * 16 + b / 16;
    assert two * 64 + Third(b, c) == three;
  }

  // ----- characters -----

  function Chars(x: seq<Sextet>): (s: string)
    ensures |s| == |x| && forall i :: 0 <= i < |x| ==> s[i] == Digit(x[i])
  {
    seq(|x|, i requires 0 <= i < |x| => Digit(x[i]))
  }

  predicate Breaks(c: char) {
    c == '\r' || c == '\n'
  }

  /** The sextets of a text, line breaks skipped; a character outside the alphabet is an error. */
  function Values(s: string): Option<seq<Sextet>> {
    if s == "" then Some([])
    else if Breaks(s[0]) then Values(s[1..])
    else if Value(s[0]).None? || Values(s[1..]).None? then None
    else Some([Value(s[0]).value] + Values(s[1..]).value)
  }

  /** base64.RawURLEncoding. */
  function Encode(b: seq<Byte>): string {
    Chars(Sextets(b))
  }

  function LenientDecode(s: string): Option<seq<Byte>> {
    match Values(s)
    case None => None
    case Some(x) => Bytes(x)
  }

  predicate ContainsAny(s: string, chars: string) {
    exists i :: 0 <= i < |s| && s[i] in chars
  }

  function DecodeCanonical(s: string): Option<seq<Byte>> {
    if ContainsAny(s, "=+/") then None
    else
      match LenientDecode(s)
      case None => None
      case Some(out) => if Encode(out) == s then Some(out) else None
  }

  /** The characters run from A to Z, a to z and 0 to 9, and end with the two that make it URL-safe. */
  lemma AlphabetIs(x: Sextet)
    ensures Digit(0) == 'A' && Digit(25) == 'Z' && Digit(26) == 'a' && Digit(51) == 'z'
    ensures Digit(52) == '0' && Digit(61) == '9' && Digit(62) == '-' && Digit(63) == '_'
    ensures x !in {25, 51, 61, 62, 63} ==> Digit(x + 1) as int == Digit(x) as int + 1
  {
  }

  lemma DigitInAlphabet(x: Sextet)
    ensures Value(Digit(x)) == Some(x)
    ensures Digit(x) !in "=+/.\r\n"
  {
  }

  lemma {:induction false} ValuesOfChars(x: seq<Sextet>)
    ensures Values(Chars(x)) == Some(x)
  {
    if x != [] {
      assert Chars(x)[1..] == Chars(x[1..]);
      DigitInAlphabet(x[0]);
      ValuesOfChars(x[1..]);
      assert x == [x[0]] + x[1..];
    }
  }

  lemma EncodeAlphabet(b: seq<Byte>)
    ensures forall i :: 0 <= i < |Encode(b)| ==> Encode(b)[i] !in "=+/.\r\n"
    ensures !ContainsAny(Encode(b), "=+/") && '.' !in Encode(b)
    ensures Encode(b) == "" <==> b == []
  {
    forall i | 0 <= i < |Encode(b)|
      ensures Encode(b)[i] !in "=+/.\r\n"
    {
      DigitInAlphabet(Sextets(b)[i]);
    }
  }

  /** The decoder accepts exactly the encoder's image, and inverts it. */
  lemma DecodesExactlyTheEncoded(s: string, b: seq<Byte>)
    ensures DecodeCanonical(s) == Some(b) <==> s == Encode(b)
  {
    BytesOfSextets(b);
    ValuesOfChars(Sextets(b));
    EncodeAlphabet(b);
  }

  lemma EncodeInjective(a: seq<Byte>, b: seq<Byte>)
    ensures Encode(a) == Encode(b) <==> a == b
  {
    DecodesExactlyTheEncoded(Encode(a), a);
    DecodesExactlyTheEncoded(Encode(a), b);
  }

  lemma CharsCons(x: Sextet, rest: seq<Sextet>)
    ensures Chars([x] + rest) == [Digit(x)] + Chars(rest)
  {
  }

  predicate OneLine(s: string) {
    forall i :: 0 <= i < |s| ==> !Breaks(s[i])
  }

  lemma {:induction false} CharsOfValues(s: string)
    requires Values(s).Some?
    ensures Chars(Values(s).value) == s <==> OneLine(s)
    ensures |Values(s).value| <= |s|
  {
    if s != "" {
      CharsOfValues(s[1..]);
      OneLineTail(s);
      hide OneLine, Value, Chars;
      if !Breaks(s[0]) {
        CharsCons(Value(s[0]).value, Values(s[1..]).value);
        assert s == [s[0]] + s[1..];
      }
    }
  }

  lemma OneLineTail(s: string)
    requires s != ""
    ensures OneLine(s) <==> !Breaks(s[0]) && OneLine(s[1..])
  {
    if !Breaks(s[0]) && OneLine(s[1..]) {
      assert forall i :: 0 < i < |s| ==> s[i] == s[1..][i - 1];
    }
  }

  /**
   What the canonical decoder adds to the lenient one: of the texts the lenient one takes, it refuses exactly those with
   a line break in them or with a non-zero bit past the last byte.
   */
  lemma RefusesExactlyTheNonCanonical(s: string)
    requires LenientDecode(s).Some?
    ensures DecodeCanonical(s).Some? <==> OneLine(s) && TrailingZero(Values(s).value)
    ensures DecodeCanonical(s).Some? ==> DecodeCanonical(s) == LenientDecode(s)
  {
    var x := Values(s).value;
    var out := LenientDecode(s).value;
    CharsOfValues(s);
    SextetsOfBytes(x);
    EncodeAlphabet(out);
    if Encode(out) == s {
      ValuesOfChars(Sextets(out));
    }
  }
}
