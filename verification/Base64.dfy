/** Base64 with the standard alphabet and padding (sections 3.5 and 4 of RFC 4648), as `btoa`,
    `atob` and Node's `Buffer` do it. */
module Base64 {
  import opened Collections

  type Byte = b: int | 0 <= b < 256
  type Sextet = d: int | 0 <= d < 64

  predicate IsDigit(c: char) {
    'A' <= c <= 'Z' || 'a' <= c <= 'z' || '0' <= c <= '9' || c == '+' || c == '/'
  }

  function Character(d: Sextet): (c: char)
    ensures IsDigit(c)
  {
    if d < 26 then ('A' as int + d) as char
    else if d < 52 then ('a' as int + (d - 26)) as char
    else if d < 62 then ('0' as int + (d - 52)) as char
    else if d == 62 then '+' else '/'
  }

  function Value(c: char): (d: Sextet)
    requires IsDigit(c)
    ensures Character(d) == c
  {
    if 'A' <= c <= 'Z' then c as int - 'A' as int
    else if 'a' <= c <= 'z' then c as int - 'a' as int + 26
    else if '0' <= c <= '9' then c as int - '0' as int + 52
    else if c == '+' then 62 else 63
  }

  lemma ValueOfCharacter(d: Sextet)
    ensures Value(Character(d)) == d
  {
  }

  /** The digits run through table 1 in section 4 of RFC 4648. */
  lemma DigitsRunThroughTheAlphabet(d: Sextet)
    ensures Character(0) == 'A' && Character(25) == 'Z' && Character(26) == 'a' && Character(51) == 'z'
    ensures Character(52) == '0' && Character(61) == '9' && Character(62) == '+' && Character(63) == '/'
    ensures d !in {25, 51, 61, 62, 63} ==> Character(d + 1) as int == Character(d) as int + 1
    ensures forall c :: IsDigit(c) <==> exists e: Sextet :: Character(e) == c
  {
    forall c | IsDigit(c) ensures exists e: Sextet :: Character(e) == c {
      assert Character(Value(c)) == c;
    }
  }

  predicate AllDigits(s: string) { forall i :: 0 <= i < |s| ==> IsDigit(s[i]) }

  function Spelled(sextets: seq<Sextet>): (s: string)
    ensures |s| == |sextets| && AllDigits(s)
  {
    seq(|sextets|, i requires 0 <= i < |sextets| => Character(sextets[i]))
  }

  function Values(s: string): (sextets: seq<Sextet>)
    requires AllDigits(s)
    ensures |sextets| == |s|
  {
    seq(|s|, i requires 0 <= i < |s| => Value(s[i]))
  }

  lemma ValuesOfSpelled(sextets: seq<Sextet>)
    ensures Values(Spelled(sextets)) == sextets
  {
    forall i | 0 <= i < |sextets| ensures Value(Character(sextets[i])) == sextets[i] {
      ValueOfCharacter(sextets[i]);
    }
  }

  // ---------------------------------------------------------------- groups of six bits

  /** The four groups of six bits in three bytes, and the three bytes in four groups. */
  function First(a: Byte): Sextet { a / 4 }
  function Second(a: Byte, b: Byte): Sextet { a % 4 * 16 + b / 16 }
  function Third(b: Byte, c: Byte): Sextet { b % 16 * 4 + c / 64 }
  function Fourth(c: Byte): Sextet { c % 64 }

  function High(d0: Sextet, d1: Sextet): Byte { d0 * 4 + d1 / 16 }
  function Middle(d1: Sextet, d2: Sextet): Byte { d1 % 16 * 16 + d2 / 4 }
  function Low(d2: Sextet, d3: Sextet): Byte { d2 % 4 * 64 + d3 }

  lemma GroupsGiveBytes(a: Byte, b: Byte, c: Byte)
    ensures High(First(a), Second(a, b)) == a
    ensures Middle(Second(a, b), Third(b, c)) == b
    ensures Low(Third(b, c), Fourth(c)) == c
  {
  }

  /** The bits of the four groups are those of the three bytes, in their order; a group of two or three
      goes with zeros in the place of the missing bytes. */
  lemma GroupsAreTheSameBits(a: Byte, b: Byte, c: Byte)
    ensures First(a) * 0x40000 + Second(a, b) * 0x1000 + Third(b, c) * 0x40 + Fourth(c) == a * 0x10000 + b * 0x100 + c
  {
  }

  function Sextets(bytes: seq<Byte>): seq<Sextet> {
    if bytes == [] then []
    else if |bytes| == 1 then [First(bytes[0]), Second(bytes[0], 0)]
    else if |bytes| == 2 then [First(bytes[0]), Second(bytes[0], bytes[1]), Third(bytes[1], 0)]
    else [First(bytes[0]), Second(bytes[0], bytes[1]), Third(bytes[1], bytes[2]), Fourth(bytes[2])] + Sextets(bytes[3..])
  }

  /** Reading the groups back, dropping the bits past the last whole byte; no number of bytes takes
      one group more than a multiple of four. */
  function Bytes(d: seq<Sextet>): Option<seq<Byte>> {
    if d == [] then Some([])
    else if |d| == 1 then None
    else if |d| == 2 then Some([High(d[0], d[1])])
    else if |d| == 3 then Some([High(d[0], d[1]), Middle(d[1], d[2])])
    else
      match Bytes(d[4..])
      case None => None
      case Some(rest) => Some([High(d[0], d[1]), Middle(d[1], d[2]), Low(d[2], d[3])] + rest)
  }

  lemma BytesOfGroup(d0: Sextet, d1: Sextet, d2: Sextet, d3: Sextet, rest: seq<Sextet>)
    requires Bytes(rest).Some?
    ensures Bytes([d0, d1, d2, d3] + rest) == Some([High(d0, d1), Middle(d1, d2), Low(d2, d3)] + Bytes(rest).value)
  {
    assert ([d0, d1, d2, d3] + rest)[4..] == rest;
  }

  lemma LastByteBack(a: Byte)
    ensures Bytes([First(a), Second(a, 0)]) == Some([a])
  {
  }

  lemma LastTwoBytesBack(a: Byte, b: Byte)
    ensures Bytes([First(a), Second(a, b), Third(b, 0)]) == Some([a, b])
  {
    GroupsGiveBytes(a, b, 0);
  }

  lemma {:induction false} BytesOfSextets(bytes: seq<Byte>)
    ensures Bytes(Sextets(bytes)) == Some(bytes)
    decreases |bytes|
  {
    if |bytes| == 1 {
      LastByteBack(bytes[0]);
      assert bytes == [bytes[0]];
    } else if |bytes| == 2 {
      LastTwoBytesBack(bytes[0], bytes[1]);
      assert bytes == [bytes[0], bytes[1]];
    } else if |bytes| >= 3 {
      var a, b, c, rest := bytes[0], bytes[1], bytes[2], bytes[3..];
      BytesOfSextets(rest);
      BytesOfGroup(First(a), Second(a, b), Third(b, c), Fourth(c), Sextets(rest));
      GroupsGiveBytes(a, b, c);
      assert bytes == [a, b, c] + rest;
    }
  }

  /** The bits past the last whole byte are zero. */
  predicate NoStrayBits(d: seq<Sextet>) {
    && (|d| % 4 == 2 ==> d[|d| - 1] % 16 == 0)
    && (|d| % 4 == 3 ==> d[|d| - 1] % 4 == 0)
  }

  lemma BytesGiveGroups(d0: Sextet, d1: Sextet, d2: Sextet, d3: Sextet)
    ensures var a, b, c := High(d0, d1), Middle(d1, d2), Low(d2, d3);
            First(a) == d0 && Second(a, b) == d1 && Third(b, c) == d2 && Fourth(c) == d3
  {
  }

  lemma LastBytesGiveGroups(d0: Sextet, d1: Sextet, d2: Sextet)
    ensures var a, b := High(d0, d1), Middle(d1, d2);
            && First(a) == d0 && (Second(a, 0) == d1 <==> d1 % 16 == 0)
            && Second(a, b) == d1 && (Third(b, 0) == d2 <==> d2 % 4 == 0)
  {
    assert d1 / 16 < 4 && d2 / 4 < 16;
  }

  lemma SameRemainders(m: nat, n: nat)
    ensures (3 + m) % 3 == m % 3 && (4 + n) % 4 == n % 4
  {
  }

  lemma NoStrayBitsOfGroup(four: seq<Sextet>, rest: seq<Sextet>)
    requires |four| == 4
    ensures NoStrayBits(four + rest) <==> NoStrayBits(rest)
  {
    assert |four + rest| == 4 + |rest|;
    SameRemainders(0, |rest|);
    assert rest != [] ==> (four + rest)[|four + rest| - 1] == rest[|rest| - 1];
  }

  lemma {:induction false} BytesExist(d: seq<Sextet>)
    ensures Bytes(d).Some? <==> |d| % 4 != 1
    decreases |d|
  {
    if |d| >= 4 {
      BytesExist(d[4..]);
      assert |d| == 4 + |d[4..]|;
      SameRemainders(0, |d[4..]|);
      assert Bytes(d).Some? <==> Bytes(d[4..]).Some?;
    } else {
      assert |d| % 4 == |d|;
    }
  }

  /** Writing the bytes out again gives the same groups exactly when no bit was dropped. */
  lemma {:induction false} SextetsOfBytes(d: seq<Sextet>)
    requires Bytes(d).Some?
    ensures Sextets(Bytes(d).value) == d <==> NoStrayBits(d)
    decreases |d|
  {
    if |d| == 2 {
      LastTwoBack(d[0], d[1]);
      assert d == [d[0], d[1]];
    } else if |d| == 3 {
      LastThreeBack(d[0], d[1], d[2]);
      assert d == [d[0], d[1], d[2]];
    } else if |d| >= 4 {
      var rest := d[4..];
      SextetsOfBytes(rest);
      NoStrayBitsOfGroup(d[..4], rest);
      assert d == d[..4] + rest && d[..4] == [d[0], d[1], d[2], d[3]];
      SextetsOfGroup(d[0], d[1], d[2], d[3], Bytes(rest).value);
      BytesOfGroup(d[0], d[1], d[2], d[3], rest);
    }
  }

  lemma SextetsOfThree(a: Byte, b: Byte, c: Byte, rest: seq<Byte>)
    ensures Sextets([a, b, c] + rest) == [First(a), Second(a, b), Third(b, c), Fourth(c)] + Sextets(rest)
  {
    var bytes := [a, b, c] + rest;
    assert bytes[0] == a && bytes[1] == b && bytes[2] == c && bytes[3..] == rest;
  }

  lemma SextetsOfGroup(d0: Sextet, d1: Sextet, d2: Sextet, d3: Sextet, rest: seq<Byte>)
    ensures Sextets([High(d0, d1), Middle(d1, d2), Low(d2, d3)] + rest) == [d0, d1, d2, d3] + Sextets(rest)
  {
    SextetsOfThree(High(d0, d1), Middle(d1, d2), Low(d2, d3), rest);
    BytesGiveGroups(d0, d1, d2, d3);
  }

  lemma LastTwoBack(d0: Sextet, d1: Sextet)
    ensures Sextets([High(d0, d1)]) == [d0, d1] <==> d1 % 16 == 0
  {
    LastBytesGiveGroups(d0, d1, 0);
    var groups := [d0, Second(High(d0, d1), 0)];
    assert Sextets([High(d0, d1)]) == groups;
    assert groups == [d0, d1] <==> groups[1] == d1;
  }

  lemma LastThreeBack(d0: Sextet, d1: Sextet, d2: Sextet)
    ensures Sextets([High(d0, d1), Middle(d1, d2)]) == [d0, d1, d2] <==> d2 % 4 == 0
  {
    LastBytesGiveGroups(d0, d1, d2);
    var groups := [d0, d1, Third(Middle(d1, d2), 0)];
    assert Sextets([High(d0, d1), Middle(d1, d2)]) == groups;
    assert groups == [d0, d1, d2] <==> groups[2] == d2;
  }

  lemma {:induction false} SextetsLength(bytes: seq<Byte>)
    ensures |Sextets(bytes)| % 4 == (if |bytes| % 3 == 0 then 0 else |bytes| % 3 + 1)
    ensures Sextets(bytes) == [] <==> bytes == []
    decreases |bytes|
  {
    if |bytes| >= 3 {
      SextetsLength(bytes[3..]);
      assert |Sextets(bytes)| == 4 + |Sextets(bytes[3..])|;
      SameRemainders(|bytes[3..]|, |Sextets(bytes[3..])|);
    }
  }

  // ---------------------------------------------------------------- with padding

  function Padding(n: nat): string {
    if n % 3 == 0 then "" else if n % 3 == 1 then "==" else "="
  }

  function Encode(bytes: seq<Byte>): string { Spelled(Sextets(bytes)) + Padding(|bytes|) }

  /** At most two closing `=` dropped. */
  function Unpadded(s: string): string {
    if |s| >= 2 && s[|s| - 1] == '=' && s[|s| - 2] == '=' then s[..|s| - 2]
    else if |s| >= 1 && s[|s| - 1] == '=' then s[..|s| - 1]
    else s
  }

  lemma DropsPadding(digits: string, n: nat)
    requires AllDigits(digits)
    ensures Unpadded(digits + Padding(n)) == digits
  {
    var s := digits + Padding(n);
    assert s[..|digits|] == digits;
    if digits != [] {
      assert IsDigit(digits[|digits| - 1]) && !IsDigit('=');
    }
  }

  lemma PaddingCompletes(length: nat, n: nat)
    requires length % 4 == (if n % 3 == 0 then 0 else n % 3 + 1)
    ensures (length + |Padding(n)|) % 4 == 0
  {
  }

  lemma EncodeShape(bytes: seq<Byte>)
    ensures Unpadded(Encode(bytes)) == Spelled(Sextets(bytes))
    ensures |Encode(bytes)| % 4 == 0 && (Encode(bytes) == [] ==> bytes == [])
  {
    var d := Spelled(Sextets(bytes));
    SextetsLength(bytes);
    DropsPadding(d, |bytes|);
    PaddingCompletes(|d|, |bytes|);
    assert |Encode(bytes)| == |d| + |Padding(|bytes|)|;
  }

  lemma EncodeCharacters(bytes: seq<Byte>, i: nat)
    requires i < |Encode(bytes)|
    ensures IsDigit(Encode(bytes)[i]) || Encode(bytes)[i] == '='
  {
    var d := Spelled(Sextets(bytes));
    if i < |d| {
      assert Encode(bytes)[i] == d[i];
    } else {
      assert Encode(bytes)[i] == Padding(|bytes|)[i - |d|];
    }
  }

  lemma SpelledOfValues(s: string)
    requires AllDigits(s)
    ensures Spelled(Values(s)) == s
  {
  }

  // ---------------------------------------------------------------- the browser's functions

  predicate IsAsciiSpace(c: char) { c in "\t\n\U{C}\r " }

  function WithoutSpaces(s: string): string {
    if s == [] then [] else (if IsAsciiSpace(s[0]) then [] else [s[0]]) + WithoutSpaces(s[1..])
  }

  lemma {:induction false} NoSpacesToDrop(s: string)
    requires forall i :: 0 <= i < |s| ==> !IsAsciiSpace(s[i])
    ensures WithoutSpaces(s) == s
  {
    if s != [] {
      NoSpacesToDrop(s[1..]);
    }
  }

  predicate IsBinary(s: string) { forall i :: 0 <= i < |s| ==> s[i] as int < 256 }

  function CharCodes(binary: string): seq<Byte>
    requires IsBinary(binary)
  {
    seq(|binary|, i requires 0 <= i < |binary| => binary[i] as int)
  }

  function Binary(bytes: seq<Byte>): (binary: string)
    ensures IsBinary(binary) && CharCodes(binary) == bytes
  {
    var binary := seq(|bytes|, i requires 0 <= i < |bytes| => bytes[i] as char);
    assert CharCodes(binary) == bytes;
    binary
  }

  function Btoa(binary: string): string
    requires IsBinary(binary)
  {
    Encode(CharCodes(binary))
  }

  function Decode(s: string): Option<seq<Byte>> {
    var packed := WithoutSpaces(s);
    var digits := if |packed| % 4 == 0 then Unpadded(packed) else packed;
    if AllDigits(digits) then Bytes(Values(digits)) else None
  }

  /** `atob`, which forgives white space, missing padding and stray bits; `None` stands for its
      exception. */
  function Atob(s: string): (binary: Option<string>)
    ensures binary.Some? ==> IsBinary(binary.value)
  {
    match Decode(s)
    case None => None
    case Some(bytes) => Some(Binary(bytes))
  }

  lemma DecodeOfEncode(bytes: seq<Byte>)
    ensures Decode(Encode(bytes)) == Some(bytes)
  {
    EncodeShape(bytes);
    forall i | 0 <= i < |Encode(bytes)| ensures !IsAsciiSpace(Encode(bytes)[i]) {
      EncodeCharacters(bytes, i);
    }
    NoSpacesToDrop(Encode(bytes));
    ValuesOfSpelled(Sextets(bytes));
    BytesOfSextets(bytes);
  }

  lemma {:induction false} SpacesDropApart(a: string, b: string)
    ensures WithoutSpaces(a + b) == WithoutSpaces(a) + WithoutSpaces(b)
  {
    if a == [] {
      assert a + b == b;
    } else {
      assert (a + b)[0] == a[0] && (a + b)[1..] == a[1..] + b;
      SpacesDropApart(a[1..], b);
    }
  }

  /** White space anywhere in the text does not matter. */
  lemma SpacesAreIgnored(a: string, space: string, b: string)
    requires forall c <- space :: c as int in {9, 10, 12, 13, 32}
    ensures Decode(a + space + b) == Decode(a + b)
  {
    OnlySpaces(space);
    SpacesDropApart(a + space, b);
    SpacesDropApart(a, space);
    SpacesDropApart(a, b);
    assert WithoutSpaces(a) + [] == WithoutSpaces(a);
  }

  lemma {:induction false} OnlySpaces(s: string)
    requires forall c <- s :: IsAsciiSpace(c)
    ensures WithoutSpaces(s) == []
  {
    if s != [] {
      OnlySpaces(s[1..]);
    }
  }

  /** Any other character outside the alphabet, but for the padding, is refused. */
  lemma ForeignIsRefused(s: string, i: nat)
    requires i < |s| && !IsDigit(s[i]) && s[i] != '=' && s[i] as int !in {9, 10, 12, 13, 32}
    ensures Decode(s) == None
  {
    KeptApart(s, i);
    var packed := WithoutSpaces(s);
    assert s[i] in packed;
    var k :| 0 <= k < |packed| && packed[k] == s[i];
    assert Unpadded(packed) == packed[..|Unpadded(packed)|];
    if |packed| % 4 == 0 {
      assert k < |Unpadded(packed)| ==> Unpadded(packed)[k] == packed[k];
      PaddingOnly(packed, k);
    }
  }

  lemma PaddingOnly(packed: string, k: nat)
    requires k < |packed| && packed[k] != '='
    ensures k < |Unpadded(packed)|
  {
  }

  lemma {:induction false} KeptApart(s: string, i: nat)
    requires i < |s| && !IsAsciiSpace(s[i])
    ensures s[i] in WithoutSpaces(s)
  {
    if i > 0 {
      KeptApart(s[1..], i - 1);
    } else {
      assert WithoutSpaces(s) == [s[0]] + WithoutSpaces(s[1..]);
    }
  }

  function Filler(length: nat): string {
    if length % 4 == 2 then "==" else if length % 4 == 3 then "=" else ""
  }

  /** The text is these digits, with or without what fills them up to groups of four, and no number of
      bytes takes one digit more than a multiple of four. */
  predicate Spells(packed: string, digits: string) {
    AllDigits(digits) && |digits| % 4 != 1 && (packed == digits || packed == digits + Filler(|digits|))
  }

  lemma FillerDrops(digits: string, n: nat)
    requires AllDigits(digits)
    ensures Unpadded(digits + Filler(n)) == digits && Unpadded(digits) == digits
  {
    if digits != [] {
      assert IsDigit(digits[|digits| - 1]) && !IsDigit('=');
    }
    assert (digits + Filler(n))[..|digits|] == digits;
  }

  lemma FillerFills(n: nat)
    requires n % 4 != 1
    ensures (n + |Filler(n)|) % 4 == 0
  {
  }

  lemma FillerIs(n: nat, filler: string)
    requires (n + |filler|) % 4 == 0 && filler in {"", "=", "=="}
    ensures n % 4 != 1 && filler == Filler(n)
  {
  }

  lemma SpelledDecodes(s: string, digits: string)
    requires Spells(WithoutSpaces(s), digits)
    ensures Decode(s) == Bytes(Values(digits)) && Decode(s).Some?
  {
    FillerDrops(digits, |digits|);
    FillerFills(|digits|);
    BytesExist(Values(digits));
  }

  lemma UnpaddedIsPrefix(packed: string) returns (filler: string)
    ensures packed == Unpadded(packed) + filler && filler in {"", "=", "=="}
  {
    filler := packed[|Unpadded(packed)|..];
    assert filler == "" || filler == "=" || filler == "==";
  }

  lemma DecodedIsSpelled(s: string) returns (digits: string)
    requires Decode(s).Some?
    ensures Spells(WithoutSpaces(s), digits)
  {
    var packed := WithoutSpaces(s);
    digits := if |packed| % 4 == 0 then Unpadded(packed) else packed;
    BytesExist(Values(digits));
    if |packed| % 4 == 0 {
      var filler := UnpaddedIsPrefix(packed);
      FillerIs(|digits|, filler);
    }
  }

  ghost predicate Spellable(packed: string) { exists digits :: Spells(packed, digits) }

  /** Exactly the strings that spell digits are decoded, padded or not, spaced or not. */
  lemma DecodesIff(s: string)
    ensures Decode(s).Some? <==> Spellable(WithoutSpaces(s))
  {
    if Decode(s).Some? {
      var digits := DecodedIsSpelled(s);
    } else if Spellable(WithoutSpaces(s)) {
      var digits :| Spells(WithoutSpaces(s), digits);
      SpelledDecodes(s, digits);
    }
  }

  /** An encoding that has lost its padding still decodes. */
  lemma PaddingIsOptional(bytes: seq<Byte>)
    ensures Decode(Spelled(Sextets(bytes))) == Some(bytes)
  {
    var digits := Spelled(Sextets(bytes));
    SextetsLength(bytes);
    NoSpacesToDrop(digits);
    SpelledDecodes(digits, digits);
    ValuesOfSpelled(Sextets(bytes));
    BytesOfSextets(bytes);
  }

  lemma EncodeIsInjective(a: seq<Byte>, b: seq<Byte>)
    requires Encode(a) == Encode(b)
    ensures a == b
  {
    DecodeOfEncode(a);
    DecodeOfEncode(b);
  }

  /** frontend/src/lib/secrets.ts, `toBase64`. */
  method ToBase64(bytes: seq<Byte>) returns (text: string)
    ensures text == Encode(bytes)
  {
    var binary: string := "";
    for i := 0 to |bytes|
      invariant |binary| == i && forall k :: 0 <= k < i ==> binary[k] as int == bytes[k]
    {
      binary := binary + [bytes[i] as char];
    }
    assert CharCodes(binary) == bytes;
    text := Btoa(binary);
  }

  method Copied(binary: string) returns (bytes: array<Byte>)
    requires IsBinary(binary)
    ensures bytes[..] == CharCodes(binary)
  {
    bytes := new Byte[|binary|](_ => 0);
    for i := 0 to |binary|
      invariant forall k :: 0 <= k < i ==> bytes[k] == binary[k] as int
    {
      bytes[i] := binary[i] as int;
    }
  }

  /** frontend/src/lib/secrets.ts, `fromBase64`. */
  method FromBase64(value: string) returns (bytes: Option<seq<Byte>>)
    ensures bytes == Decode(value)
  {
    var binary := Atob(value);
    if binary == None {
      return None;
    }
    var copy := Copied(binary.value);
    return Some(copy[..]);
  }
}
