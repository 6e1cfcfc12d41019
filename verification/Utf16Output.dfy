/** Writing a Lisp string, which is kept in UTF-16, to standard output in UTF-8, src/lisp/interr.c. The encodings are
    those of RFC 3629, sections 3 and 4, and RFC 2781, section 2.2. */
module Utf16Output {
  import opened PowersOfTwo


  const REPLACEMENT_CODE := 0xFFFD

  datatype Option<T> = None | Some(value: T)

  // --- UTF-8

  /** The code points that have an encoding: not those of surrogates. */
  predicate Scalar(c: int) {
    0 <= c < 0xD800 || 0xE000 <= c < 0x110000
  }

  predicate AllScalar(s: seq<int>) {
    forall i :: 0 <= i < |s| ==> Scalar(s[i])
  }

  /** The table of RFC 3629, section 3. */
  function Octets(c: int): (s: seq<int>)
    requires Scalar(c)
    ensures 1 <= |s| <= 4
  {
    if c < 0x80 then [c]
    else if c < 0x800 then [0xC0 + c / 0x40, 0x80 + c % 0x40]
    else if c < 0x10000 then [0xE0 + c / 0x1000, 0x80 + c / 0x40 % 0x40, 0x80 + c % 0x40]
    else [0xF0 + c / 0x40000, 0x80 + c / 0x1000 % 0x40, 0x80 + c / 0x40 % 0x40, 0x80 + c % 0x40]
  }

  function Encode(s: seq<int>): seq<int>
    requires AllScalar(s)
  {
    if s == [] then [] else Octets(s[0]) + Encode(s[1..])
  }

  predicate Tail(b: int) {
    0x80 <= b <= 0xBF
  }

  /** The syntax of RFC 3629, section 4: the number of octets of the first character, 0 if there is none. */
  function FirstLength(s: seq<int>): (n: nat)
    ensures n <= |s|
  {
    if s == [] then 0
    else if 0 <= s[0] <= 0x7F then 1
    else if |s| >= 2 && 0xC2 <= s[0] <= 0xDF && Tail(s[1]) then 2
    else if |s| >= 3 && Tail(s[2])
            && ((s[0] == 0xE0 && 0xA0 <= s[1] <= 0xBF) || (0xE1 <= s[0] <= 0xEC && Tail(s[1]))
                || (s[0] == 0xED && 0x80 <= s[1] <= 0x9F) || (0xEE <= s[0] <= 0xEF && Tail(s[1]))) then 3
    else if |s| >= 4 && Tail(s[2]) && Tail(s[3])
            && ((s[0] == 0xF0 && 0x90 <= s[1] <= 0xBF) || (0xF1 <= s[0] <= 0xF3 && Tail(s[1]))
                || (s[0] == 0xF4 && 0x80 <= s[1] <= 0x8F)) then 4
    else 0
  }

  function FirstCode(s: seq<int>): int
    requires FirstLength(s) > 0
  {
    match FirstLength(s)
    case 1 => s[0]
    case 2 => (s[0] - 0xC0) * 0x40 + (s[1] - 0x80)
    case 3 => (s[0] - 0xE0) * 0x1000 + (s[1] - 0x80) * 0x40 + (s[2] - 0x80)
    case _ => (s[0] - 0xF0) * 0x40000 + (s[1] - 0x80) * 0x1000 + (s[2] - 0x80) * 0x40 + (s[3] - 0x80)
  }

  /** The code points of valid UTF-8, None if it is not valid. */
  function Decode(s: seq<int>): Option<seq<int>> {
    if s == [] then Some([])
    else if FirstLength(s) == 0 then None
    else
      match Decode(s[FirstLength(s)..])
      case None => None
      case Some(rest) => Some([FirstCode(s)] + rest)
  }

  /** The digits to base 64 of a code. */
  lemma Digits(c: int)
    requires 0 <= c
    ensures c == c / 0x40 * 0x40 + c % 0x40 && 0 <= c % 0x40 < 0x40
    ensures c / 0x40 == c / 0x1000 * 0x40 + c / 0x40 % 0x40 && 0 <= c / 0x40 % 0x40 < 0x40
    ensures c / 0x1000 == c / 0x40000 * 0x40 + c / 0x1000 % 0x40 && 0 <= c / 0x1000 % 0x40 < 0x40
  {
    assert c / 0x1000 == c / 0x40 / 0x40;
    assert c / 0x40000 == c / 0x1000 / 0x40;
  }

  lemma FromDigits(a: int, b: int, d: int, e: int, c: int)
    requires 0 <= a && 0 <= b < 0x40 && 0 <= d < 0x40 && 0 <= e < 0x40 && c == a * 0x40000 + b * 0x1000 + d * 0x40 + e
    ensures c % 0x40 == e && c / 0x40 % 0x40 == d && c / 0x1000 % 0x40 == b && c / 0x40000 == a
    ensures c / 0x1000 == a * 0x40 + b && c / 0x40 == a * 0x1000 + b * 0x40 + d
  {
    assert c / 0x40 == a * 0x1000 + b * 0x40 + d;
    assert c / 0x1000 == a * 0x40 + b;
  }

  lemma OctetsFirst(c: int, rest: seq<int>)
    requires Scalar(c)
    ensures FirstLength(Octets(c) + rest) == |Octets(c)| && FirstCode(Octets(c) + rest) == c
  {
    hide Scalar;
    var s := Octets(c) + rest;
    CodeRange(c);
    Digits(c);
    if c < 0x80 {
      assert s[0] == c;
    } else if c < 0x800 {
      Octets2(s, c);
    } else if c < 0x10000 {
      Octets3(s, c);
    } else {
      Octets4(s, c);
    }
  }

  lemma CodeRange(c: int)
    requires Scalar(c)
    ensures 0 <= c < 0x110000 && !(0xD800 <= c < 0xE000)
  {
  }

  lemma Octets2(s: seq<int>, c: int)
    requires 0x80 <= c < 0x800 && |s| >= 2 && s[0] == 0xC0 + c / 0x40 && s[1] == 0x80 + c % 0x40
    ensures FirstLength(s) == 2 && FirstCode(s) == c
  {
    Digits(c);
  }

  lemma Octets3(s: seq<int>, c: int)
    requires 0x800 <= c < 0x10000 && !(0xD800 <= c < 0xE000) && |s| >= 3
    requires s[0] == 0xE0 + c / 0x1000 && s[1] == 0x80 + c / 0x40 % 0x40 && s[2] == 0x80 + c % 0x40
    ensures FirstLength(s) == 3 && FirstCode(s) == c
  {
    Digits(c);
    var x, y, z := c / 0x1000, c / 0x40 % 0x40, c % 0x40;
    assert c == x * 0x1000 + y * 0x40 + z;
  }

  lemma Octets4(s: seq<int>, c: int)
    requires 0x10000 <= c < 0x110000 && |s| >= 4 && s[0] == 0xF0 + c / 0x40000
    requires s[1] == 0x80 + c / 0x1000 % 0x40 && s[2] == 0x80 + c / 0x40 % 0x40 && s[3] == 0x80 + c % 0x40
    ensures FirstLength(s) == 4 && FirstCode(s) == c
  {
    Digits(c);
    var w, x, y, z := c / 0x40000, c / 0x1000 % 0x40, c / 0x40 % 0x40, c % 0x40;
    assert c == w * 0x40000 + x * 0x1000 + y * 0x40 + z;
  }

  /** Encoded code points are valid UTF-8 and are recovered. */
  lemma {:induction false} DecodeEncode(s: seq<int>)
    requires AllScalar(s)
    ensures Decode(Encode(s)) == Some(s)
  {
    if s != [] {
      OctetsFirst(s[0], Encode(s[1..]));
      DecodeEncode(s[1..]);
      assert (Octets(s[0]) + Encode(s[1..]))[|Octets(s[0])|..] == Encode(s[1..]);
      assert [s[0]] + s[1..] == s;
    }
  }

  lemma FirstOctets(s: seq<int>)
    requires FirstLength(s) > 0
    ensures Scalar(FirstCode(s)) && Octets(FirstCode(s)) == s[..FirstLength(s)]
  {
    var n := FirstLength(s);
    if n == 1 {
      assert s[..1] == [s[0]];
    } else if n == 2 {
      Recoded2(s[0], s[1], FirstCode(s));
      assert s[..2] == [s[0], s[1]];
    } else if n == 3 {
      Recoded3(s[0], s[1], s[2], FirstCode(s));
      assert s[..3] == [s[0], s[1], s[2]];
    } else {
      Recoded4(s[0], s[1], s[2], s[3], FirstCode(s));
      assert s[..4] == [s[0], s[1], s[2], s[3]];
    }
  }

  lemma Recoded2(a: int, b: int, c: int)
    requires 0xC2 <= a <= 0xDF && Tail(b) && c == (a - 0xC0) * 0x40 + (b - 0x80)
    ensures Scalar(c) && Octets(c) == [a, b]
  {
    FromDigits(0, 0, a - 0xC0, b - 0x80, c);
  }

  lemma Recoded3(a: int, b: int, d: int, c: int)
    requires 0xE0 <= a <= 0xEF && Tail(b) && Tail(d) && (a == 0xE0 ==> b >= 0xA0) && (a == 0xED ==> b <= 0x9F)
    requires c == (a - 0xE0) * 0x1000 + (b - 0x80) * 0x40 + (d - 0x80)
    ensures Scalar(c) && Octets(c) == [a, b, d]
  {
    FromDigits(0, a - 0xE0, b - 0x80, d - 0x80, c);
  }

  lemma Recoded4(a: int, b: int, d: int, e: int, c: int)
    requires 0xF0 <= a <= 0xF4 && Tail(b) && Tail(d) && Tail(e) && (a == 0xF0 ==> b >= 0x90)
    requires a == 0xF4 ==> b <= 0x8F
    requires c == (a - 0xF0) * 0x40000 + (b - 0x80) * 0x1000 + (d - 0x80) * 0x40 + (e - 0x80)
    ensures Scalar(c) && Octets(c) == [a, b, d, e]
  {
    FromDigits(a - 0xF0, b - 0x80, d - 0x80, e - 0x80, c);
  }

  /** Valid UTF-8 is the only encoding of its code points. */
  lemma {:induction false} EncodeDecode(s: seq<int>)
    requires Decode(s).Some?
    ensures AllScalar(Decode(s).value) && Encode(Decode(s).value) == s
    decreases |s|
  {
    hide FirstLength, FirstCode, Octets, Scalar;
    if s != [] {
      var n := FirstLength(s);
      FirstOctets(s);
      EncodeDecode(s[n..]);
      var rest := Decode(s[n..]).value;
      assert ([FirstCode(s)] + rest)[1..] == rest;
      assert s[..n] + s[n..] == s;
    }
  }

  /** The examples of section 7 of RFC 3629. */
  lemma Examples()
    ensures Encode([0x41, 0x2262, 0x391, 0x2E]) == [0x41, 0xE2, 0x89, 0xA2, 0xCE, 0x91, 0x2E]
    ensures Encode([0x233B4]) == [0xF0, 0xA3, 0x8E, 0xB4]
  {
    assert Encode([0x2E]) == [0x2E];
    assert [0x391, 0x2E][1..] == [0x2E];
    assert Encode([0x391, 0x2E]) == [0xCE, 0x91, 0x2E];
    assert [0x2262, 0x391, 0x2E][1..] == [0x391, 0x2E];
    assert [0x41, 0x2262, 0x391, 0x2E][1..] == [0x2262, 0x391, 0x2E];
    assert Octets(0x2262) == [0xE2, 0x89, 0xA2];
    assert Octets(0x233B4) == [0xF0, 0xA3, 0x8E, 0xB4];
    assert [0x233B4][1..] == [];
  }

  lemma {:induction false} EncodeAppend(s: seq<int>, c: int)
    requires AllScalar(s) && Scalar(c)
    ensures Encode(s + [c]) == Encode(s) + Octets(c)
  {
    if s == [] {
      assert Encode([c]) == Octets(c) + Encode([]);
    } else {
      EncodeAppend(s[1..], c);
      assert (s + [c])[1..] == s[1..] + [c];
    }
  }

  // --- UTF-16

  predicate Unit(u: int) {
    0 <= u < 0x10000
  }

  predicate High(u: int) {
    0xD800 <= u <= 0xDBFF
  }

  predicate Low(u: int) {
    0xDC00 <= u <= 0xDFFF
  }

  /** The units of the first character. */
  function Consumed(s: seq<int>): (n: nat)
    requires s != []
    ensures 1 <= n <= |s|
  {
    if High(s[0]) && |s| >= 2 && Low(s[1]) then 2 else 1
  }

  /** The steps of RFC 2781, section 2.2, with the replacement code where they end in an error. */
  function CodeAt(s: seq<int>): int
    requires s != []
  {
    if s[0] < 0xD800 || s[0] > 0xDFFF then s[0]
    else if s[0] > 0xDBFF || |s| < 2 || !Low(s[1]) then REPLACEMENT_CODE
    else s[0] % 0x400 * 0x400 + s[1] % 0x400 + 0x10000
  }

  function Codes(s: seq<int>): seq<int> {
    if s == [] then [] else [CodeAt(s)] + Codes(s[Consumed(s)..])
  }

  /** The encoding of RFC 2781, section 2.1. */
  function Units(c: int): (s: seq<int>)
    requires Scalar(c)
    ensures 1 <= |s| <= 2
  {
    if c < 0x10000 then [c] else [0xD800 + (c - 0x10000) / 0x400, 0xDC00 + (c - 0x10000) % 0x400]
  }

  function EncodeUnits(s: seq<int>): seq<int>
    requires AllScalar(s)
  {
    if s == [] then [] else Units(s[0]) + EncodeUnits(s[1..])
  }

  lemma UnitsFirst(c: int, rest: seq<int>)
    requires Scalar(c)
    ensures Consumed(Units(c) + rest) == |Units(c)| && CodeAt(Units(c) + rest) == c
  {
    var s := Units(c) + rest;
    assert forall i :: 0 <= i < |Units(c)| ==> s[i] == Units(c)[i];
  }

  /** Well-formed UTF-16 decodes to what it encodes. */
  lemma {:induction false} CodesOfUnits(s: seq<int>)
    requires AllScalar(s)
    ensures Codes(EncodeUnits(s)) == s
  {
    if s != [] {
      UnitsFirst(s[0], EncodeUnits(s[1..]));
      CodesOfUnits(s[1..]);
      assert (Units(s[0]) + EncodeUnits(s[1..]))[|Units(s[0])|..] == EncodeUnits(s[1..]);
    }
  }

  lemma {:induction false} CodesScalar(s: seq<int>)
    requires forall i :: 0 <= i < |s| ==> Unit(s[i])
    ensures AllScalar(Codes(s))
    decreases |s|
  {
    if s != [] {
      CodesScalar(s[Consumed(s)..]);
    }
  }

  // --- Any sequence of units

  /** What a string may be made of: code points, and surrogates that are no part of one. */
  predicate Item(c: int) {
    0 <= c <= 0x10FFFF
  }

  predicate Lone(c: int) {
    0xD800 <= c <= 0xDFFF
  }

  /** A high surrogate directly before a low one would not be alone. */
  predicate Items(s: seq<int>) {
    && (forall i :: 0 <= i < |s| ==> Item(s[i]))
    && (forall i {:trigger s[i]} :: 0 <= i < |s| - 1 ==> !(0xD800 <= s[i] <= 0xDBFF && 0xDC00 <= s[i + 1] <= 0xDFFF))
  }

  /** The units of an item: a lone surrogate or a code point below 0x10000 is one unit, any other code point two. */
  function ItemUnits(c: int): seq<int>
    requires Item(c)
  {
    if c < 0x10000 then [c] else [0xD800 + (c - 0x10000) / 0x400, 0xDC00 + (c - 0x10000) % 0x400]
  }

  function UnitsOf(s: seq<int>): seq<int>
    requires forall i :: 0 <= i < |s| ==> Item(s[i])
  {
    if s == [] then [] else ItemUnits(s[0]) + UnitsOf(s[1..])
  }

  /** The items with 0xFFFD in the place of lone surrogates. */
  function Replaced(s: seq<int>): (r: seq<int>)
    requires forall i :: 0 <= i < |s| ==> Item(s[i])
    ensures AllScalar(r) && |r| == |s|
  {
    if s == [] then []
    else
      assert Item(s[0]);
      [if Lone(s[0]) then 0xFFFD else s[0]] + Replaced(s[1..])
  }

  lemma ItemFirst(c: int, rest: seq<int>)
    requires Item(c) && (0xD800 <= c <= 0xDBFF && rest != [] ==> !(0xDC00 <= rest[0] <= 0xDFFF))
    ensures Consumed(ItemUnits(c) + rest) == |ItemUnits(c)|
    ensures CodeAt(ItemUnits(c) + rest) == if Lone(c) then 0xFFFD else c
  {
    var s := ItemUnits(c) + rest;
    assert forall i :: 0 <= i < |ItemUnits(c)| ==> s[i] == ItemUnits(c)[i];
  }

  /** The code points of any string: those that are there, and 0xFFFD for each lone surrogate. */
  lemma {:induction false} CodesOfItems(s: seq<int>)
    requires Items(s)
    ensures Codes(UnitsOf(s)) == Replaced(s)
  {
    if s != [] {
      var rest := UnitsOf(s[1..]);
      assert forall i {:trigger s[1..][i]} :: 0 <= i < |s| - 1 ==> s[1..][i] == s[i + 1];
      if s[1..] != [] {
        assert rest == ItemUnits(s[1]) + UnitsOf(s[1..][1..]);
        assert !(0xD800 <= s[0] <= 0xDBFF && 0xDC00 <= s[0 + 1] <= 0xDFFF);
      }
      ItemFirst(s[0], rest);
      CodesOfItems(s[1..]);
      assert (ItemUnits(s[0]) + rest)[|ItemUnits(s[0])|..] == rest;
    }
  }

  lemma ItemsWritten(text: seq<int>, out: seq<int>)
    requires AllScalar(Codes(text)) && out == Encode(Codes(text))
    ensures forall items: seq<int> {:trigger Items(items)} :: Items(items) && UnitsOf(items) == text ==>
              out == Encode(Replaced(items))
  {
    forall items: seq<int> {:trigger Items(items)} | Items(items) && UnitsOf(items) == text
      ensures out == Encode(Replaced(items))
    {
      CodesOfItems(items);
    }
  }

  /** Every sequence of units is one of items. */
  lemma {:induction false} ItemsExist(units: seq<int>) returns (s: seq<int>)
    requires forall i :: 0 <= i < |units| ==> Unit(units[i])
    ensures Items(s) && UnitsOf(s) == units && (s == [] <==> units == [])
    ensures s != [] && 0xDC00 <= s[0] <= 0xDFFF ==> 0xDC00 <= units[0] <= 0xDFFF
    decreases |units|
  {
    if units == [] {
      return [];
    }
    var n := if High(units[0]) && |units| >= 2 && Low(units[1]) then 2 else 1;
    var c := if n == 2 then (units[0] - 0xD800) * 0x400 + (units[1] - 0xDC00) + 0x10000 else units[0];
    var rest := ItemsExist(units[n..]);
    s := [c] + rest;
    assert s[1..] == rest;
    assert ItemUnits(c) == units[..n];
    assert units[..n] + units[n..] == units;
    forall i {:trigger s[i]} | 0 <= i < |s| - 1
      ensures !(0xD800 <= s[i] <= 0xDBFF && 0xDC00 <= s[i + 1] <= 0xDFFF)
    {
      assert s[i + 1] == rest[i];
      if i > 0 {
        assert s[i] == rest[i - 1];
      }
    }
  }

  // --- What the runtime does

  lemma Powers()
    ensures Power2(0) == 1 && Power2(3) == 8 && Power2(4) == 16 && Power2(5) == 32 && Power2(6) == 64
    ensures Power2(12) == 4096 && Power2(18) == 262144
  {
    assert Power2(7) == 128 && Power2(9) == 512 && Power2(12) == 4096;
    assert Power2(15) == 32768 && Power2(18) == 262144;
  }

  /** utf8: the octets of a code that needs len more than one. */
  method Utf8(code: int, len: int) returns (out: seq<int>)
    requires Scalar(code) && 1 <= len <= 3 && len == |Octets(code)| - 1
    ensures out == Octets(code)
  {
    hide Power2;
    Powers();
    Digits(code);
    var j := 6 - len;
    var p := 6 * len;
    var init := 0x7E * Power2(j) % 0x100;
    var c := code / Power2(p) % Power2(j);
    out := [init + c];
    LeadingOctet(code, len, init + c);
    var k := 0;
    while k < len
      invariant 0 <= k <= len && p == 6 * (len - k) && |out| == k + 1
      invariant forall i :: 0 <= i <= k ==> out[i] == Octets(code)[i]
    {
      p := p - 6;
      c := code / Power2(p) % Power2(6);
      LaterOctet(code, len, k + 1, 128 + c);
      out := out + [128 + c];
      k := k + 1;
    }
  }

  lemma OctetCount(c: int)
    requires Scalar(c)
    ensures 0 <= c < 0x110000
    ensures |Octets(c)| == if c < 0x80 then 1 else if c < 0x800 then 2 else if c < 0x10000 then 3 else 4
    ensures c < 0x80 ==> Octets(c) == [c]
  {
  }

  lemma LeadingOctet(code: int, len: int, b: int)
    requires Scalar(code) && 1 <= len <= 3 && len == |Octets(code)| - 1
    requires b == 0x7E * Power2(6 - len) % 0x100 + code / Power2(6 * len) % Power2(6 - len)
    ensures b == Octets(code)[0]
  {
    hide Power2;
    Powers();
    if len == 1 {
      assert code / 0x40 < 32;
    } else if len == 2 {
      assert code / 0x1000 < 16;
    } else {
      assert code / 0x40000 < 8;
    }
  }

  lemma LaterOctet(code: int, len: int, i: int, b: int)
    requires Scalar(code) && 1 <= i <= len <= 3 && len == |Octets(code)| - 1
    requires b == 128 + code / Power2(6 * (len - i)) % Power2(6)
    ensures b == Octets(code)[i]
  {
    hide Power2;
    Powers();
  }

  /** surrogatep: type is 0 for a high and 1 for a low surrogate. */
  method Surrogatep(code: int) returns (result: bool, kind: int)
    requires Unit(code)
    ensures result <==> High(code) || Low(code)
    ensures result ==> kind == if High(code) then 0 else 1
  {
    kind := -1;
    result := code / 0x800 == 0x1B;
    if result {
      kind := code / 0x400 % 2;
    }
  }

  /** utf16_codepoint, for the len units of a string at pos; the unit after the string is read when its last is a high
      surrogate. */
  method Utf16Codepoint(units: seq<int>, pos: nat, len: int) returns (codepoint: int, read: int)
    requires pos < |units| - 1 && 0 < len && pos + len == |units| - 1
    requires (forall i :: 0 <= i < |units| ==> Unit(units[i])) && units[|units| - 1] == 0
    ensures codepoint == CodeAt(units[pos..|units| - 1]) && read == Consumed(units[pos..|units| - 1])
  {
    codepoint := REPLACEMENT_CODE;
    read := 1;
    var unit := units[pos];
    var surrogate, kind := Surrogatep(unit);
    if surrogate {
      if kind == 0 && len > 0 {
        var next := units[pos + 1];
        var nextSurrogate, nextKind := Surrogatep(next);
        if nextSurrogate {
          if nextKind == 1 {
            codepoint := (unit - 0xD800) * 0x400 + next + 0x2400;
            read := read + 1;
          }
        }
      }
    } else {
      codepoint := unit;
    }
  }

  /** utf16_output, for a Lisp string, which has a zero after its units: what is written is the UTF-8 encoding of its
      code points, so it is valid and decodes to them. */
  method Utf16OutputString(units: seq<int>) returns (out: seq<int>)
    requires |units| > 0 && (forall i :: 0 <= i < |units| ==> Unit(units[i])) && units[|units| - 1] == 0
    ensures AllScalar(Codes(units[..|units| - 1])) && out == Encode(Codes(units[..|units| - 1]))
    ensures Decode(out) == Some(Codes(units[..|units| - 1]))
    ensures forall items: seq<int> {:trigger Items(items)} :: Items(items) && UnitsOf(items) == units[..|units| - 1] ==>
              out == Encode(Replaced(items))
  {
    hide Octets, Scalar, CodeAt, Consumed, Unit, Items, UnitsOf, Replaced;
    ghost var text := units[..|units| - 1];
    CodesScalar(text);
    out := [];
    var len := |units| - 1;
    var pos := 0;
    ghost var done: seq<int> := [];
    assert text[0..] == text;
    while len != 0
      invariant 0 <= len && pos + len == |units| - 1 && 0 <= pos
      invariant AllScalar(done) && done + Codes(text[pos..]) == Codes(text) && out == Encode(done)
      decreases len
    {
      var code, consumed := Utf16Codepoint(units, pos, len);
      assert units[pos..|units| - 1] == text[pos..];
      CodesScalar(text[pos..]);
      assert Codes(text[pos..])[0] == code;
      OctetCount(code);
      if code < 0x80 {
        out := out + [code];
      } else if code < 0x800 {
        var octets := Utf8(code, 1);
        out := out + octets;
      } else if code < 0x10000 {
        var octets := Utf8(code, 2);
        out := out + octets;
      } else {
        assert code < 0x110000;
        var octets := Utf8(code, 3);
        out := out + octets;
      }
      EncodeAppend(done, code);
      assert text[pos..][consumed..] == text[pos + consumed..];
      assert done + Codes(text[pos..]) == (done + [code]) + Codes(text[pos + consumed..]);
      done := done + [code];
      len := len - consumed;
      pos := pos + consumed;
    }
    assert text[pos..] == [];
    assert done == Codes(text);
    DecodeEncode(done);
    ItemsWritten(text, out);
  }

  /** A string of well-formed UTF-16 is written as the UTF-8 encoding of the same code points. */
  lemma WellFormedWritten(codes: seq<int>, out: seq<int>)
    requires AllScalar(codes) && AllScalar(Codes(EncodeUnits(codes))) && out == Encode(Codes(EncodeUnits(codes)))
    ensures out == Encode(codes) && Decode(out) == Some(codes)
  {
    CodesOfUnits(codes);
    DecodeEncode(codes);
  }

  /** Two strings are written alike exactly if they have the same code points, so nothing but what is replaced is
      lost. */
  lemma WrittenAlike(s: seq<int>, t: seq<int>)
    requires (forall i :: 0 <= i < |s| ==> Unit(s[i])) && (forall i :: 0 <= i < |t| ==> Unit(t[i]))
    ensures AllScalar(Codes(s)) && AllScalar(Codes(t))
    ensures Encode(Codes(s)) == Encode(Codes(t)) <==> Codes(s) == Codes(t)
  {
    CodesScalar(s);
    CodesScalar(t);
    DecodeEncode(Codes(s));
    DecodeEncode(Codes(t));
  }
}
