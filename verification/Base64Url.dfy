/**
 base64url without padding, as the browser half of a passkey ceremony writes and reads it: the
 platform's `btoa` and `atob` with the two characters of the URL alphabet exchanged.

 `Atob` follows the forgiving-base64 decode of the WHATWG Infra standard: white space is dropped,
 one or two `=` at the end of a text of a length divisible by four are dropped, and left-over bits
 are ignored.
 */
module Base64Url {
  import opened Options

  type Byte = b: int | 0 <= b < 256
  type Six = v: int | 0 <= v < 64

  // ---- six bits at a time

  function First(a: Byte): Six { a / 4 }
  function Second(a: Byte, b: Byte): Six { a % 4 * 16 + b / 16 }
  function Third(b: Byte, c: Byte): Six { b % 16 * 4 + c / 64 }
  function Fourth(c: Byte): Six { c % 64 }

  function Sextets(bytes: seq<Byte>): seq<Six> {
    if |bytes| == 0 then []
    else if |bytes| == 1 then [First(bytes[0]), Second(bytes[0], 0)]
    else if |bytes| == 2 then [First(bytes[0]), Second(bytes[0], bytes[1]), Third(bytes[1], 0)]
    else
      [First(bytes[0]), Second(bytes[0], bytes[1]), Third(bytes[1], bytes[2]), Fourth(bytes[2])]
      + Sextets(bytes[3..])
  }

  function Front(p: Six, q: Six): Byte { p * 4 + q / 16 }
  function Middle(q: Six, r: Six): Byte { q % 16 * 16 + r / 4 }
  function Back(r: Six, s: Six): Byte { r % 4 * 64 + s }

  function Octets(six: seq<Six>): seq<Byte> {
    if |six| <= 1 then []
    else if |six| == 2 then [Front(six[0], six[1])]
    else if |six| == 3 then [Front(six[0], six[1]), Middle(six[1], six[2])]
    else [Front(six[0], six[1]), Middle(six[1], six[2]), Back(six[2], six[3])] + Octets(six[4..])
  }

  lemma BitsOfBytes(a: Byte, b: Byte, c: Byte)
    ensures Front(First(a), Second(a, b)) == a
    ensures Middle(Second(a, b), Third(b, c)) == b
    ensures Back(Third(b, c), Fourth(c)) == c
  {
  }

  lemma BitsOfSextets(p: Six, q: Six, r: Six, s: Six)
    ensures First(Front(p, q)) == p
    ensures Second(Front(p, q), Middle(q, r)) == q
    ensures Third(Middle(q, r), Back(r, s)) == r
    ensures Fourth(Back(r, s)) == s
    ensures Second(Front(p, q), 0) == q <==> q % 16 == 0
    ensures Third(Middle(q, r), 0) == r <==> r % 4 == 0
  {
  }

  /** No left-over bits are set, and no length that no bytes have. */
  predicate Canonical(six: seq<Six>) {
    var n := |six|;
    && n % 4 != 1
    && (n % 4 == 2 ==> six[n - 1] % 16 == 0)
    && (n % 4 == 3 ==> six[n - 1] % 4 == 0)
  }

  lemma OctetsOfFour(p: Six, q: Six, r: Six, s: Six, rest: seq<Six>)
    ensures Octets([p, q, r, s] + rest) == [Front(p, q), Middle(q, r), Back(r, s)] + Octets(rest)
  {
    assert ([p, q, r, s] + rest)[4..] == rest;
  }

  lemma SextetsOfThree(a: Byte, b: Byte, c: Byte, rest: seq<Byte>)
    ensures Sextets([a, b, c] + rest) == [First(a), Second(a, b), Third(b, c), Fourth(c)] + Sextets(rest)
  {
    assert ([a, b, c] + rest)[3..] == rest;
  }

  lemma OctetsOfOne(a: Byte)
    ensures Octets(Sextets([a])) == [a]
  {
    var p, q := First(a), Second(a, 0);
    assert Sextets([a]) == [p, q];
    assert Octets([p, q]) == [Front(p, q)];
    assert Front(p, q) == a by {
      BitsOfBytes(a, 0, 0);
    }
  }

  lemma OctetsOfTwo(a: Byte, b: Byte)
    ensures Octets(Sextets([a, b])) == [a, b]
  {
    BitsOfBytes(a, b, 0);
    assert Sextets([a, b]) == [First(a), Second(a, b), Third(b, 0)];
  }

  lemma {:induction false} OctetsOfSextets(bytes: seq<Byte>)
    ensures Octets(Sextets(bytes)) == bytes
  {
    if |bytes| == 1 {
      OctetsOfOne(bytes[0]);
      assert bytes == [bytes[0]];
    } else if |bytes| == 2 {
      OctetsOfTwo(bytes[0], bytes[1]);
      assert bytes == [bytes[0], bytes[1]];
    } else if |bytes| > 2 {
      var a, b, c, rest := bytes[0], bytes[1], bytes[2], bytes[3..];
      assert bytes == [a, b, c] + rest;
      SextetsOfThree(a, b, c, rest);
      OctetsOfFour(First(a), Second(a, b), Third(b, c), Fourth(c), Sextets(rest));
      BitsOfBytes(a, b, c);
      OctetsOfSextets(rest);
    }
  }

  lemma FourMore(p: Six, q: Six, r: Six, s: Six, again: seq<Six>, rest: seq<Six>)
    ensures [p, q, r, s] + again == [p, q, r, s] + rest <==> again == rest
    ensures Canonical([p, q, r, s] + rest) <==> Canonical(rest)
  {
    var six := [p, q, r, s] + rest;
    assert ([p, q, r, s] + again)[4..] == again && six[4..] == rest;
    assert |rest| > 0 ==> six[|six| - 1] == rest[|rest| - 1];
  }

  lemma {:induction false} SextetsAreCanonical(bytes: seq<Byte>)
    ensures Canonical(Sextets(bytes))
    ensures |Sextets(bytes)| == (4 * |bytes| + 2) / 3
  {
    if |bytes| > 2 {
      var a, b, c, rest := bytes[0], bytes[1], bytes[2], bytes[3..];
      assert bytes == [a, b, c] + rest;
      SextetsOfThree(a, b, c, rest);
      SextetsAreCanonical(rest);
      FourMore(First(a), Second(a, b), Third(b, c), Fourth(c), [], Sextets(rest));
    }
  }

  lemma SextetsOfTwo(p: Six, q: Six)
    ensures Sextets(Octets([p, q])) == [p, q] <==> Canonical([p, q])
  {
    var a := Front(p, q);
    assert Octets([p, q]) == [a];
    assert Sextets([a]) == [First(a), Second(a, 0)];
    assert First(a) == p && (Second(a, 0) == q <==> q % 16 == 0) by {
      BitsOfSextets(p, q, 0, 0);
    }
    assert [First(a), Second(a, 0)] == [p, q] <==> Second(a, 0) == q;
  }

  lemma SextetsOfThreeLeft(p: Six, q: Six, r: Six)
    ensures Sextets(Octets([p, q, r])) == [p, q, r] <==> Canonical([p, q, r])
  {
    var a, b := Front(p, q), Middle(q, r);
    assert Octets([p, q, r]) == [a, b];
    assert Sextets([a, b]) == [First(a), Second(a, b), Third(b, 0)];
    assert First(a) == p && Second(a, b) == q && (Third(b, 0) == r <==> r % 4 == 0) by {
      BitsOfSextets(p, q, r, 0);
    }
    assert [First(a), Second(a, b), Third(b, 0)] == [p, q, r] <==> Third(b, 0) == r;
  }

  lemma AndFourMore(p: Six, q: Six, r: Six, s: Six, rest: seq<Six>)
    requires Sextets(Octets(rest)) == rest <==> Canonical(rest)
    ensures Sextets(Octets([p, q, r, s] + rest)) == [p, q, r, s] + rest <==> Canonical([p, q, r, s] + rest)
  {
    OctetsOfFour(p, q, r, s, rest);
    SextetsOfThree(Front(p, q), Middle(q, r), Back(r, s), Octets(rest));
    BitsOfSextets(p, q, r, s);
    FourMore(p, q, r, s, Sextets(Octets(rest)), rest);
  }

  lemma {:induction false} SextetsOfOctets(six: seq<Six>)
    requires |six| % 4 != 1
    ensures Sextets(Octets(six)) == six <==> Canonical(six)
  {
    if |six| == 2 {
      assert six == [six[0], six[1]];
      SextetsOfTwo(six[0], six[1]);
    } else if |six| == 3 {
      assert six == [six[0], six[1], six[2]];
      SextetsOfThreeLeft(six[0], six[1], six[2]);
    } else if |six| > 3 {
      SextetsOfOctets(six[4..]);
      AndFourMore(six[0], six[1], six[2], six[3], six[4..]);
      assert six == [six[0], six[1], six[2], six[3]] + six[4..];
    }
  }

  // ---- the alphabets of sections 4 and 5 of RFC 4648

  function StdChar(v: Six): char {
    if v < 26 then (v + 65) as char
    else if v < 52 then (v + 71) as char
    else if v < 62 then (v - 4) as char
    else if v == 62 then '+'
    else '/'
  }

  function StdValue(c: char): Option<Six> {
    if 'A' <= c <= 'Z' then Some(c as int - 65)
    else if 'a' <= c <= 'z' then Some(c as int - 71)
    else if '0' <= c <= '9' then Some(c as int + 4)
    else if c == '+' then Some(62)
    else if c == '/' then Some(63)
    else None
  }

  predicate UrlAlphabet(c: char) {
    'A' <= c <= 'Z' || 'a' <= c <= 'z' || '0' <= c <= '9' || c == '-' || c == '_'
  }

  function ToUrlChar(c: char): char {
    if c == '+' then '-' else if c == '/' then '_' else c
  }

  function ToStdChar(c: char): char {
    if c == '-' then '+' else if c == '_' then '/' else c
  }

  function Mapped(s: string, f: char -> char): (r: string)
    ensures |r| == |s| && forall k :: 0 <= k < |s| ==> r[k] == f(s[k])
  {
    seq(|s|, k requires 0 <= k < |s| => f(s[k]))
  }

  function Written(six: seq<Six>): (r: string)
    ensures |r| == |six| && forall k :: 0 <= k < |six| ==> r[k] == StdChar(six[k])
  {
    seq(|six|, k requires 0 <= k < |six| => StdChar(six[k]))
  }

  predicate AllStd(s: string) {
    forall k :: 0 <= k < |s| ==> StdValue(s[k]).Some?
  }

  function Values(s: string): (r: seq<Six>)
    requires AllStd(s)
    ensures |r| == |s| && forall k :: 0 <= k < |s| ==> r[k] == StdValue(s[k]).value
  {
    seq(|s|, k requires 0 <= k < |s| => StdValue(s[k]).value)
  }

  function Padding(n: nat): (r: string)
    ensures |r| == n && forall k :: 0 <= k < n ==> r[k] == '='
  {
    seq(n, _ => '=')
  }

  // ---- the platform's functions, on strings of byte-sized characters

  predicate IsBinary(s: string) {
    forall k :: 0 <= k < |s| ==> s[k] < 256 as char
  }

  function Codes(s: string): (r: seq<Byte>)
    requires IsBinary(s)
    ensures |r| == |s| && forall k :: 0 <= k < |s| ==> r[k] == s[k] as int
  {
    seq(|s|, k requires 0 <= k < |s| => s[k] as int)
  }

  function Chars(bytes: seq<Byte>): (r: string)
    ensures |r| == |bytes| && IsBinary(r) && forall k :: 0 <= k < |bytes| ==> r[k] as int == bytes[k]
  {
    seq(|bytes|, k requires 0 <= k < |bytes| => bytes[k] as char)
  }

  function Btoa(binary: string): string
    requires IsBinary(binary)
  {
    var six := Sextets(Codes(binary));
    Written(six) + Padding((4 - |six| % 4) % 4)
  }

  function WithoutSpace(s: string): string {
    if s == "" then ""
    else (if s[0] in ['\t', '\n', '\U{000C}', '\r', ' '] then "" else [s[0]]) + WithoutSpace(s[1..])
  }

  function WithoutPadding(s: string): string {
    if |s| % 4 != 0 || s == "" || s[|s| - 1] != '=' then s
    else if s[|s| - 2] == '=' then s[..|s| - 2]
    else s[..|s| - 1]
  }

  function Atob(data: string): (r: Option<string>)
    ensures r.Some? ==> IsBinary(r.value)
  {
    var s := WithoutPadding(WithoutSpace(data));
    if |s| % 4 == 1 || !AllStd(s) then None else Some(Chars(Octets(Values(s))))
  }

  // ---- the two functions

  function StripPadding(s: string): string {
    if s != "" && s[|s| - 1] == '=' then StripPadding(s[..|s| - 1]) else s
  }

  function Encoded(bytes: seq<Byte>): string {
    Mapped(Written(Sextets(bytes)), ToUrlChar)
  }

  function Decoded(text: string): Option<seq<Byte>> {
    var padded := Mapped(text, ToStdChar);
    var binary := Atob(padded + Padding((4 - |padded| % 4) % 4));
    if binary.None? then None else Some(Codes(binary.value))
  }

  lemma {:induction false} StripsThePadding(s: string, n: nat)
    requires s == "" || s[|s| - 1] != '='
    ensures StripPadding(s + Padding(n)) == s
  {
    if n == 0 {
      assert s + Padding(0) == s;
    } else {
      StripsThePadding(s, n - 1);
      assert (s + Padding(n))[..|s| + n - 1] == s + Padding(n - 1);
    }
  }

  lemma CodesOfChars(bytes: seq<Byte>)
    ensures Codes(Chars(bytes)) == bytes
  {
  }

  lemma {:induction false} StripsNothing(s: string, n: nat)
    requires forall k :: 0 <= k < |s| ==> s[k] != '='
    ensures StripPadding(Mapped(s + Padding(n), ToUrlChar)) == Mapped(s, ToUrlChar)
  {
    assert Mapped(s + Padding(n), ToUrlChar) == Mapped(s, ToUrlChar) + Padding(n);
    StripsThePadding(Mapped(s, ToUrlChar), n);
  }

  method ToBase64Url(value: array<Byte>) returns (text: string)
    ensures text == Encoded(value[..])
  {
    var binary := "";
    for i := 0 to value.Length
      invariant binary == Chars(value[..i])
    {
      binary := binary + [value[i] as char];
    }
    assert value[..value.Length] == value[..];
    CodesOfChars(value[..]);
    ghost var six := Sextets(value[..]);
    StripsNothing(Written(six), (4 - |six| % 4) % 4);
    text := StripPadding(Mapped(Btoa(binary), ToUrlChar));
  }

  /** The bytes in their own buffer; nothing when the platform's decoder throws. */
  method FromBase64Url(text: string) returns (bytes: Option<array<Byte>>)
    ensures bytes.None? <==> Decoded(text).None?
    ensures bytes.Some? ==> fresh(bytes.value) && Some(bytes.value[..]) == Decoded(text)
  {
    var padded := Mapped(text, ToStdChar);
    var binary := Atob(padded + Padding((4 - |padded| % 4) % 4));
    if binary.None? {
      return None;
    }
    ghost var codes := Codes(binary.value);
    var filled := new Byte[|binary.value|];
    for index := 0 to |binary.value|
      invariant filled[..index] == codes[..index]
    {
      filled[index] := binary.value[index] as int;
    }
    assert filled[..] == filled[..|binary.value|] == codes;
    bytes := Some(filled);
  }

  // ---- the properties

  lemma ValueOfChar(v: Six)
    ensures StdValue(StdChar(v)) == Some(v)
    ensures UrlAlphabet(ToUrlChar(StdChar(v))) && ToStdChar(ToUrlChar(StdChar(v))) == StdChar(v)
  {
  }

  lemma CharOfValue(c: char)
    ensures StdValue(c).Some? ==> StdChar(StdValue(c).value) == c
    ensures UrlAlphabet(c) ==> StdValue(ToStdChar(c)).Some? && ToUrlChar(ToStdChar(c)) == c
    ensures !UrlAlphabet(c) ==> ToUrlChar(ToStdChar(c)) != c || StdValue(ToStdChar(c)).None?
  {
  }

  lemma {:induction false} NoSpaceToDrop(s: string)
    requires forall k :: 0 <= k < |s| ==> s[k] == '=' || StdValue(s[k]).Some?
    ensures WithoutSpace(s) == s
  {
    if s != "" {
      NoSpaceToDrop(s[1..]);
      assert s[0] !in ['\t', '\n', '\U{000C}', '\r', ' '];
      assert s == [s[0]] + s[1..];
    }
  }

  /** Padding up to a length divisible by four, and taking at most two off. */
  lemma PaddingComesOff(std: string)
    requires AllStd(std)
    ensures var n := (4 - |std| % 4) % 4;
      if |std| % 4 == 1 then !AllStd(WithoutPadding(std + Padding(n))) else WithoutPadding(std + Padding(n)) == std
  {
    var n := (4 - |std| % 4) % 4;
    var data := std + Padding(n);
    assert data[..|std|] == std;
    assert std != "" ==> StdValue(std[|std| - 1]).Some?;
    if |std| % 4 == 1 {
      assert data[|data| - 1] == '=' && data[|data| - 2] == '=';
      assert WithoutPadding(data)[|std|] == '=';
    }
  }

  /** A text of the alphabet decodes to its bits, unless its length is one no bytes have. */
  lemma DecodesAlphabet(text: string)
    requires AllStd(Mapped(text, ToStdChar))
    ensures Decoded(text)
      == if |text| % 4 == 1 then None else Some(Octets(Values(Mapped(text, ToStdChar))))
  {
    var std := Mapped(text, ToStdChar);
    AtobOfPadded(std);
    if |text| % 4 != 1 {
      CodesOfChars(Octets(Values(std)));
    }
  }

  lemma AtobOfPadded(std: string)
    requires AllStd(std)
    ensures Atob(std + Padding((4 - |std| % 4) % 4))
      == if |std| % 4 == 1 then None else Some(Chars(Octets(Values(std))))
  {
    NoSpaceToDrop(std + Padding((4 - |std| % 4) % 4));
    PaddingComesOff(std);
  }

  /** Decoding what was encoded gives the bytes back, whatever they are. */
  lemma DecodingUndoesEncoding(bytes: seq<Byte>)
    ensures Decoded(Encoded(bytes)) == Some(bytes)
  {
    var six := Sextets(bytes);
    var text := Encoded(bytes);
    var std := Mapped(text, ToStdChar);
    OctetsOfSextets(bytes);
    SextetsAreCanonical(bytes);
    forall k | 0 <= k < |text|
      ensures std[k] == StdChar(six[k]) && StdValue(std[k]) == Some(six[k])
    {
      ValueOfChar(six[k]);
    }
    assert Values(std) == six;
    DecodesAlphabet(text);
  }

  /** The alphabet of section 5 of RFC 4648, no padding, and four characters for three bytes. */
  lemma EncodingIsUrlSafe(bytes: seq<Byte>)
    ensures forall k :: 0 <= k < |Encoded(bytes)| ==> UrlAlphabet(Encoded(bytes)[k])
    ensures |Encoded(bytes)| == (4 * |bytes| + 2) / 3
  {
    SextetsAreCanonical(bytes);
    forall k | 0 <= k < |Encoded(bytes)|
      ensures UrlAlphabet(Encoded(bytes)[k])
    {
      ValueOfChar(Sextets(bytes)[k]);
    }
  }

  /** A text the encoder could have written: its alphabet, and no left-over bits. */
  predicate CanonicalText(text: string) {
    && (forall k :: 0 <= k < |text| ==> UrlAlphabet(text[k]))
    && AllStd(Mapped(text, ToStdChar))
    && Canonical(Values(Mapped(text, ToStdChar)))
  }

  /**
   Re-encoding what a text decodes to gives the text back exactly when it is canonical: so the
   encoder's image is the canonical texts, and every other text that decodes is a second spelling.
   */
  lemma ReencodingIsForCanonical(text: string)
    ensures Decoded(text).Some? && Encoded(Decoded(text).value) == text <==> CanonicalText(text)
  {
    var std := Mapped(text, ToStdChar);
    if CanonicalText(text) {
      DecodesAlphabet(text);
      SextetsOfOctets(Values(std));
      var again := Encoded(Decoded(text).value);
      assert Sextets(Decoded(text).value) == Values(std);
      forall k | 0 <= k < |text|
        ensures again[k] == text[k]
      {
        CharOfValue(text[k]);
        CharOfValue(std[k]);
      }
      assert again == text;
    }
    if Decoded(text).Some? && Encoded(Decoded(text).value) == text {
      var bytes := Decoded(text).value;
      EncodingIsUrlSafe(bytes);
      SextetsAreCanonical(bytes);
      forall k | 0 <= k < |text|
        ensures UrlAlphabet(text[k]) && StdValue(std[k]) == Some(Sextets(bytes)[k])
      {
        ValueOfChar(Sextets(bytes)[k]);
      }
      assert Values(std) == Sextets(bytes);
    }
  }
}
