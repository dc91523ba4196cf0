/** The text form of a key: base64 with the URL-safe alphabet and no padding
    (sections 4 and 5 of RFC 4648). */
module Base64Url {
  import opened Bytes
  import opened Results

  // ---- digits -----------------------------------------------------------------------------------

  type digit = d: int | 0 <= d < 64

  /** The digit with a high part of the given weight and a low part. */
  function Digit(high: int, weight: int, low: int): digit
    requires 0 <= high * weight + low < 64
  {
    high * weight + low
  }

  /** Six-bit digits of a byte string; a last digit is filled with zero bits. */
  function Digits(b: bytes): seq<digit> {
    if |b| == 0 then []
    else if |b| == 1 then [Digit(0, 1, b[0] / 4), Digit(b[0] % 4, 16, 0)]
    else if |b| == 2 then [Digit(0, 1, b[0] / 4), Digit(b[0] % 4, 16, b[1] / 16), Digit(b[1] % 16, 4, 0)]
    else
      [Digit(0, 1, b[0] / 4), Digit(b[0] % 4, 16, b[1] / 16), Digit(b[1] % 16, 4, b[2] / 64), Digit(0, 1, b[2] % 64)]
      + Digits(b[3..])
  }

  function Octet(high: int, weight: int, low: int): byte
    requires 0 <= high * weight + low < 256
  {
    high * weight + low
  }

  /** Bytes of a digit string; bits that do not fill a byte are dropped. */
  function FromDigits(d: seq<digit>): bytes {
    if |d| < 2 then []
    else if |d| == 2 then [Octet(d[0], 4, d[1] / 16)]
    else if |d| == 3 then [Octet(d[0], 4, d[1] / 16), Octet(d[1] % 16, 16, d[2] / 4)]
    else
      [Octet(d[0], 4, d[1] / 16), Octet(d[1] % 16, 16, d[2] / 4), Octet(d[2] % 4, 64, d[3])] + FromDigits(d[4..])
  }

  lemma ThreeBytes(x: byte, y: byte, z: byte)
    ensures var d0, d1 := Digit(0, 1, x / 4), Digit(x % 4, 16, y / 16);
            var d2, d3 := Digit(y % 16, 4, z / 64), Digit(0, 1, z % 64);
            && Octet(d0, 4, d1 / 16) == x
            && Octet(d1 % 16, 16, d2 / 4) == y
            && Octet(d2 % 4, 64, d3) == z
  {
  }

  lemma {:induction false} DigitsRoundTrip(b: bytes)
    ensures FromDigits(Digits(b)) == b
  {
    if |b| == 1 {
      ThreeBytes(b[0], 0, 0);
    } else if |b| == 2 {
      ThreeBytes(b[0], b[1], 0);
    } else if 3 <= |b| {
      ThreeBytes(b[0], b[1], b[2]);
      DigitsRoundTrip(b[3..]);
      assert Digits(b)[4..] == Digits(b[3..]);
      assert b == [b[0], b[1], b[2]] + b[3..];
    }
  }

  lemma {:induction false} DigitCount(b: bytes)
    ensures 4 * |b| <= 3 * |Digits(b)| <= 4 * |b| + 2
  {
    if 3 <= |b| {
      DigitCount(b[3..]);
    }
  }

  // ---- characters -------------------------------------------------------------------------------

  function Symbol(d: digit): char {
    if d < 26 then 'A' + d as char
    else if d < 52 then 'a' + (d - 26) as char
    else if d < 62 then '0' + (d - 52) as char
    else if d == 62 then '+' else '/'
  }

  function DigitOf(c: char): Option<digit> {
    if 'A' <= c <= 'Z' then Some((c - 'A') as int)
    else if 'a' <= c <= 'z' then Some(26 + (c - 'a') as int)
    else if '0' <= c <= '9' then Some(52 + (c - '0') as int)
    else if c == '+' then Some(62) else if c == '/' then Some(63) else None
  }

  predicate UrlSafe(c: char) {
    'A' <= c <= 'Z' || 'a' <= c <= 'z' || '0' <= c <= '9' || c == '-' || c == '_'
  }

  predicate Whitespace(c: char) {
    c == ' ' || c == '\t' || c == '\n' || c == '\r' || c == '\U{000C}'
  }

  lemma SymbolRoundTrip(d: digit)
    ensures DigitOf(Symbol(d)) == Some(d)
    ensures Symbol(d) != '=' && !Whitespace(Symbol(d)) && Symbol(d) != '-' && Symbol(d) != '_'
  {
  }

  function Text(d: seq<digit>): string {
    seq(|d|, i requires 0 <= i < |d| => Symbol(d[i]))
  }

  /** The padding loop: '=' while the length is not a multiple of four. */
  function Padded(s: string): string
    decreases (4 - |s| % 4) % 4
  {
    if |s| % 4 == 0 then s else Padded(s + "=")
  }

  /** `btoa`: the digits, then '=' up to a multiple of four. */
  function Btoa(b: bytes): string {
    Padded(Text(Digits(b)))
  }

  function WithoutWhitespace(s: string): string {
    if s == "" then ""
    else (if Whitespace(s[0]) then "" else [s[0]]) + WithoutWhitespace(s[1..])
  }

  /** At most two trailing '=' of a whole number of groups. */
  function WithoutPadding(s: string): string {
    if |s| % 4 == 0 && 0 < |s| && s[|s| - 1] == '='
    then if s[|s| - 2] == '=' then s[..|s| - 2] else s[..|s| - 1]
    else s
  }

  /** The digits of a text, if all its characters are in the alphabet. */
  function DigitsOf(s: string): Option<seq<digit>> {
    if s == "" then Some([])
    else
      match (DigitOf(s[0]), DigitsOf(s[1..]))
      case (Some(d), Some(rest)) => Some([d] + rest)
      case _ => None
  }

  /** `atob`, the forgiving decoder of the Infra standard: a rest of one digit or a foreign character
      raises (None). */
  function Atob(s: string): Option<bytes> {
    var text := WithoutPadding(WithoutWhitespace(s));
    if |text| % 4 == 1 then None
    else
      match DigitsOf(text)
      case None => None
      case Some(digits) => Some(FromDigits(digits))
  }

  function Replaced(s: string, from: char, to: char): string {
    seq(|s|, i requires 0 <= i < |s| => if s[i] == from then to else s[i])
  }

  /** `replace(/=+$/, '')`. */
  function Stripped(s: string): string {
    if s != "" && s[|s| - 1] == '=' then Stripped(s[..|s| - 1]) else s
  }

  function ToBase64Url(b: bytes): string {
    Stripped(Replaced(Replaced(Btoa(b), '+', '-'), '/', '_'))
  }

  function StandardForm(s: string): string {
    Replaced(Replaced(s, '-', '+'), '_', '/')
  }

  /** The loop over `charCodeAt`. */
  method CopyBytes(binary: bytes) returns (r: Option<bytes>)
    ensures r == Some(binary)
  {
    var result := new byte[|binary|](_ => 0);
    for i := 0 to |binary|
      invariant result[..i] == binary[..i]
    {
      result[i] := binary[i];
    }
    assert result[..] == binary;
    return Some(result[..]);
  }

  /** `fromBase64Url`. */
  method FromBase64Url(str: string) returns (r: Option<bytes>)
    ensures r == Atob(Padded(StandardForm(str)))
  {
    var base64 := StandardForm(str);
    while |base64| % 4 != 0
      invariant Padded(base64) == Padded(StandardForm(str))
      decreases (4 - |base64| % 4) % 4
    {
      base64 := base64 + "=";
    }
    var binary := Atob(base64);
    if binary.None? {
      return None;
    }
    r := CopyBytes(binary.value);
  }

  // ---- the text and back ------------------------------------------------------------------------

  /** The URL-safe text of the digits. */
  function UrlText(d: seq<digit>): string {
    Replaced(Replaced(Text(d), '+', '-'), '/', '_')
  }

  lemma {:induction false} StripsExactly(s: string, pad: string)
    requires (forall i | 0 <= i < |s| :: s[i] != '=') && (forall i | 0 <= i < |pad| :: pad[i] == '=')
    ensures Stripped(s + pad) == s
  {
    if pad == "" {
      assert s + pad == s;
    } else {
      var n := |pad| - 1;
      assert (s + pad)[..|s| + n] == s + pad[..n];
      StripsExactly(s, pad[..n]);
    }
  }

  /** Padding appends up to three '='; a digit text needs at most two. */
  lemma {:induction false} PaddingOf(s: string)
    decreases (4 - |s| % 4) % 4
    ensures Padded(s) ==
            s + (if |s| % 4 == 0 then "" else if |s| % 4 == 1 then "===" else if |s| % 4 == 2 then "==" else "=")
  {
    if |s| % 4 == 0 {
      assert s + "" == s;
    } else {
      PaddingOf(s + "=");
      assert |s| % 4 == 2 ==> s + "=" + "=" == s + "==";
      assert |s| % 4 == 1 ==> s + "=" + "==" == s + "===";
      assert |s| % 4 == 3 ==> s + "=" + "" == s + "=";
    }
  }

  /** The text is the URL-safe form of the digits: nothing but padding is stripped. */
  lemma TextIsDigits(b: bytes)
    ensures ToBase64Url(b) == UrlText(Digits(b))
  {
    var d := Digits(b);
    var text := Text(d);
    PaddingOf(text);
    var pad := Btoa(b)[|text|..];
    forall i | 0 <= i < |d|
      ensures text[i] != '='
    {
      SymbolRoundTrip(d[i]);
    }
    assert Replaced(Replaced(text + pad, '+', '-'), '/', '_') == UrlText(d) + pad;
    StripsExactly(UrlText(d), pad);
  }

  /** The padding loop restores exactly what was stripped. */
  lemma PaddingRestored(b: bytes)
    ensures Padded(StandardForm(ToBase64Url(b))) == Btoa(b)
  {
    TextIsDigits(b);
    var d := Digits(b);
    forall i | 0 <= i < |d|
      ensures StandardForm(UrlText(d))[i] == Text(d)[i]
    {
      SymbolRoundTrip(d[i]);
    }
    assert StandardForm(UrlText(d)) == Text(d);
  }

  lemma {:induction false} NoWhitespace(s: string)
    requires forall c | c in s :: !Whitespace(c)
    ensures WithoutWhitespace(s) == s
  {
    if s != "" {
      NoWhitespace(s[1..]);
    }
  }

  lemma {:induction false} TextDigits(d: seq<digit>)
    ensures DigitsOf(Text(d)) == Some(d)
  {
    if d != [] {
      TextDigits(d[1..]);
      SymbolRoundTrip(d[0]);
      assert Text(d)[1..] == Text(d[1..]);
      assert d == [d[0]] + d[1..];
    }
  }

  lemma PaddingDropped(s: string)
    requires (forall i | 0 <= i < |s| :: s[i] != '=') && |s| % 4 != 1
    ensures WithoutPadding(Padded(s)) == s
  {
    PaddingOf(s);
    if |s| % 4 == 2 {
      var t := s + "==";
      assert |t| % 4 == 0 && t[|t| - 1] == '=' && t[|t| - 2] == '=' && t[..|t| - 2] == s;
    } else if |s| % 4 == 3 {
      var t := s + "=";
      assert |t| % 4 == 0 && t[|t| - 1] == '=' && t[|t| - 2] == s[|s| - 1] && t[..|t| - 1] == s;
    }
  }

  lemma AtobIs(s: string, text: string, d: seq<digit>)
    requires WithoutWhitespace(s) == s && WithoutPadding(s) == text && |text| % 4 != 1 && DigitsOf(text) == Some(d)
    ensures Atob(s) == Some(FromDigits(d))
  {
  }

  lemma PlainText(d: seq<digit>)
    ensures forall i | 0 <= i < |d| :: Text(d)[i] != '=' && !Whitespace(Text(d)[i])
  {
  }

  lemma NeverOneLeft(n: nat, count: nat)
    requires 4 * n <= 3 * count <= 4 * n + 2
    ensures count % 4 != 1
  {
  }

  lemma PaddedIsPlain(s: string)
    requires forall i | 0 <= i < |s| :: !Whitespace(s[i])
    ensures WithoutWhitespace(Padded(s)) == Padded(s)
  {
    PaddingOf(s);
    NoWhitespace(Padded(s));
  }

  lemma AtobOfBtoa(b: bytes)
    ensures Atob(Btoa(b)) == Some(b)
  {
    var d := Digits(b);
    DigitCount(b);
    NeverOneLeft(|b|, |d|);
    PlainText(d);
    PaddedIsPlain(Text(d));
    PaddingDropped(Text(d));
    TextDigits(d);
    AtobIs(Btoa(b), Text(d), d);
    DigitsRoundTrip(b);
  }

  /** Key text round trip: decoding the text of any bytes gives them back; the text has ceil(4n/3)
      characters, all URL-safe. */
  lemma KeyTextRoundTrip(b: bytes)
    ensures Atob(Padded(StandardForm(ToBase64Url(b)))) == Some(b)
    ensures 4 * |b| <= 3 * |ToBase64Url(b)| <= 4 * |b| + 2
    ensures forall c | c in ToBase64Url(b) :: UrlSafe(c)
  {
    PaddingRestored(b);
    AtobOfBtoa(b);
    TextIsDigits(b);
    DigitCount(b);
  }

  // ---- character by character -------------------------------------------------------------------

  /** The URL-safe alphabet (table 2 in section 5 of RFC 4648). */
  function UrlSymbol(v: nat): char
    requires v < 64
  {
    if v < 26 then 'A' + v as char
    else if v < 52 then 'a' + (v - 26) as char
    else if v < 62 then '0' + (v - 52) as char
    else if v == 62 then '-' else '_'
  }

  /** The byte at a position, zero past the end. */
  function At(b: bytes, i: nat): nat {
    if i < |b| then b[i] else 0
  }

  /** Bits 6i to 6i + 5 of a byte string, as a number. */
  function Sextet(b: bytes, i: nat): nat {
    var j := i / 4 * 3;
    match i % 4
    case 0 => At(b, j) / 4
    case 1 => At(b, j) % 4 * 16 + At(b, j + 1) / 16
    case 2 => At(b, j + 1) % 16 * 4 + At(b, j + 2) / 64
    case _ => At(b, j + 2) % 64
  }

  lemma ShiftedSextet(b: bytes, i: nat)
    requires 3 <= |b| && 4 <= i
    ensures Sextet(b[3..], i - 4) == Sextet(b, i)
  {
    var j := i / 4 * 3;
    assert (i - 4) / 4 * 3 == j - 3 && (i - 4) % 4 == i % 4;
  }

  lemma {:induction false} DigitIsSextet(b: bytes, i: nat)
    requires i < |Digits(b)|
    ensures Digits(b)[i] == Sextet(b, i)
  {
    if 3 <= |b| && 4 <= i {
      DigitIsSextet(b[3..], i - 4);
      ShiftedSextet(b, i);
    }
  }

  /** Character i of the text of a key stands for bits 6i to 6i + 5 of its bytes; there are as many as it takes. */
  lemma KeyTextByCharacter(b: bytes, i: nat)
    ensures |ToBase64Url(b)| == (4 * |b| + 2) / 3
    ensures i < |ToBase64Url(b)| ==> Sextet(b, i) < 64 && ToBase64Url(b)[i] == UrlSymbol(Sextet(b, i))
  {
    TextIsDigits(b);
    DigitCount(b);
    if i < |ToBase64Url(b)| {
      DigitIsSextet(b, i);
    }
  }

  /** Byte k of what digits decode to; bits that do not fill a byte are dropped. */
  function OctetAt(d: seq<digit>, k: nat): int
    requires k / 3 * 4 + k % 3 + 1 < |d|
  {
    var j := k / 3 * 4;
    match k % 3
    case 0 => d[j] as int * 4 + d[j + 1] as int / 16
    case 1 => d[j + 1] as int % 16 * 16 + d[j + 2] as int / 4
    case _ => d[j + 2] as int % 4 * 64 + d[j + 3] as int
  }

  lemma {:induction false} DecodedLength(d: seq<digit>)
    requires |d| % 4 != 1
    ensures |FromDigits(d)| == 3 * |d| / 4
  {
    if 4 <= |d| {
      DecodedLength(d[4..]);
    }
  }

  lemma ShiftedOctet(d: seq<digit>, k: nat)
    requires 4 <= |d| && 3 <= k && k / 3 * 4 + k % 3 + 1 < |d|
    ensures (k - 3) / 3 * 4 + (k - 3) % 3 + 1 < |d[4..]| && OctetAt(d[4..], k - 3) == OctetAt(d, k)
  {
    assert (k - 3) / 3 * 4 == k / 3 * 4 - 4 && (k - 3) % 3 == k % 3;
  }

  lemma {:induction false} DecodedByByte(d: seq<digit>, k: nat)
    requires k < |FromDigits(d)|
    ensures k / 3 * 4 + k % 3 + 1 < |d| && FromDigits(d)[k] == OctetAt(d, k)
  {
    if 4 <= |d| && 3 <= k {
      DecodedByByte(d[4..], k - 3);
      assert (k - 3) / 3 * 4 == k / 3 * 4 - 4 && (k - 3) % 3 == k % 3;
      ShiftedOctet(d, k);
    }
  }

  lemma {:induction false} NoDigits(s: string)
    requires '=' in s
    ensures DigitsOf(s) == None
  {
    if s[0] != '=' {
      NoDigits(s[1..]);
    }
  }

  lemma StillPadded(s: string)
    requires |s| % 4 == 1
    ensures WithoutPadding(Padded(s)) == s + "="
  {
    PaddingOf(s);
    var t := s + "===";
    assert |t| % 4 == 0 && t[|t| - 1] == '=' && t[|t| - 2] == '=' && t[..|t| - 2] == s + "=";
  }

  lemma OneLeftOver(s: string)
    requires (forall i | 0 <= i < |s| :: !Whitespace(s[i])) && |s| % 4 == 1
    ensures Atob(Padded(s)) == None
  {
    PaddedIsPlain(s);
    StillPadded(s);
    assert (s + "=")[|s|] == '=';
    NoDigits(s + "=");
  }

  /** What a text in the URL-safe alphabet decodes to: nothing if one character is left over, else its digits. */
  lemma UrlTextDecodes(str: string, d: seq<digit>)
    requires |str| == |d| && forall i | 0 <= i < |d| :: str[i] == UrlSymbol(d[i])
    ensures Atob(Padded(StandardForm(str))) == if |d| % 4 == 1 then None else Some(FromDigits(d))
  {
    assert StandardForm(str) == Text(d);
    PlainText(d);
    if |d| % 4 == 1 {
      OneLeftOver(Text(d));
    } else {
      PaddedIsPlain(Text(d));
      PaddingDropped(Text(d));
      TextDigits(d);
      AtobIs(Padded(Text(d)), Text(d), d);
    }
  }

  lemma {:induction false} WithoutIsConcat(a: string, b: string)
    ensures WithoutWhitespace(a + b) == WithoutWhitespace(a) + WithoutWhitespace(b)
  {
    if a == "" {
      assert a + b == b;
    } else {
      WithoutIsConcat(a[1..], b);
      var head := if Whitespace(a[0]) then "" else [a[0]];
      assert (a + b)[1..] == a[1..] + b && (a + b)[0] == a[0];
      assert WithoutWhitespace(a + b) == head + (WithoutWhitespace(a[1..]) + WithoutWhitespace(b));
    }
  }

  lemma OneDropped(w: char)
    requires Whitespace(w)
    ensures WithoutWhitespace([w]) == ""
  {
    assert [w][1..] == "";
  }

  /** A space, tab, line feed, form feed or carriage return makes no difference to the decoder, wherever it stands. */
  lemma WhitespaceMakesNoDifference(a: string, w: char, b: string)
    requires w == ' ' || w == '\t' || w == '\n' || w == '\r' || w == '\U{000C}'
    ensures Atob(a + [w] + b) == Atob(a + b)
  {
    WithoutIsConcat(a + [w], b);
    WithoutIsConcat(a, [w]);
    WithoutIsConcat(a, b);
    OneDropped(w);
    assert WithoutWhitespace(a + [w] + b) == WithoutWhitespace(a + b);
  }
}
