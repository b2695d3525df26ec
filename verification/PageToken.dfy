/**
 Page tokens of internal/kubernetes/store_list.go: the base64 text (section 4 of RFC 4648) of a
 decimal offset. The decoder is the Go library's standard one: it skips line breaks, demands
 padding and ignores the unused low bits of a padded group.
 */
module PageToken {
  import opened Wrappers
  import opened Decimal
  import opened GoInts

  type Byte = b: int | 0 <= b < 256

  function CharOf(i: Sextet): char {
    if i < 26 then 'A' + i as char
    else if i < 52 then 'a' + (i - 26) as char
    else if i < 62 then '0' + (i - 52) as char
    else if i == 62 then '+' else '/'
  }

  function IndexOf(c: char): Option<Sextet> {
    if 'A' <= c <= 'Z' then Some((c - 'A') as nat)
    else if 'a' <= c <= 'z' then Some((c - 'a') as nat + 26)
    else if '0' <= c <= '9' then Some((c - '0') as nat + 52)
    else if c == '+' then Some(62)
    else if c == '/' then Some(63) else None
  }

  // The four six-bit groups of three bytes.
  type Sextet = i: int | 0 <= i < 64

  function First(x: Byte): Sextet { x / 4 }
  function Second(x: Byte, y: Byte): Sextet { x % 4 * 16 + y / 16 }
  function Third(y: Byte, z: Byte): Sextet { y % 16 * 4 + z / 64 }
  function Fourth(z: Byte): Sextet { z % 64 }

  // And the three bytes of four groups.
  function Byte0(a: Sextet, b: Sextet): Byte { a * 4 + b / 16 }
  function Byte1(b: Sextet, c: Sextet): Byte { b % 16 * 16 + c / 4 }
  function Byte2(c: Sextet, d: Sextet): Byte { c % 4 * 64 + d }

  lemma BytesBack(x: Byte, y: Byte, z: Byte)
    ensures Byte0(First(x), Second(x, y)) == x
    ensures Byte1(Second(x, y), Third(y, z)) == y
    ensures Byte2(Third(y, z), Fourth(z)) == z
  {
  }

  function Encode(b: seq<Byte>): string {
    if b == [] then ""
    else if |b| == 1 then [CharOf(First(b[0])), CharOf(Second(b[0], 0)), '=', '=']
    else if |b| == 2 then [CharOf(First(b[0])), CharOf(Second(b[0], b[1])), CharOf(Third(b[1], 0)), '=']
    else [CharOf(First(b[0])), CharOf(Second(b[0], b[1])), CharOf(Third(b[1], b[2])), CharOf(Fourth(b[2]))]
         + Encode(b[3..])
  }

  function StripNewlines(s: string): string {
    if s == "" then ""
    else (if s[0] == '\n' || s[0] == '\r' then "" else [s[0]]) + StripNewlines(s[1..])
  }

  function DecodeQuads(s: string): Option<seq<Byte>> {
    if s == "" then Some([])
    else if |s| < 4 then None
    else
      match (IndexOf(s[0]), IndexOf(s[1]), IndexOf(s[2]), IndexOf(s[3]))
      case (Some(a), Some(b), Some(c), Some(d)) =>
        (match DecodeQuads(s[4..])
         case None => None
         case Some(rest) => Some([Byte0(a, b), Byte1(b, c), Byte2(c, d)] + rest))
      case (Some(a), Some(b), Some(c), None) =>
        if s[3] == '=' && |s| == 4 then Some([Byte0(a, b), Byte1(b, c)]) else None
      case (Some(a), Some(b), None, None) =>
        if s[2] == '=' && s[3] == '=' && |s| == 4 then Some([Byte0(a, b)]) else None
      case _ => None
  }

  function Decode(s: string): Option<seq<Byte>> {
    DecodeQuads(StripNewlines(s))
  }

  lemma CharIndex(i: Sextet)
    ensures IndexOf(CharOf(i)) == Some(i) && CharOf(i) != '=' && CharOf(i) != '\n' && CharOf(i) != '\r'
  {
  }

  lemma {:induction false} EncodeHasNoNewlines(b: seq<Byte>)
    ensures forall i :: 0 <= i < |Encode(b)| ==> Encode(b)[i] != '\n' && Encode(b)[i] != '\r'
  {
    forall i: Sextet ensures CharOf(i) != '\n' && CharOf(i) != '\r' { CharIndex(i); }
    if |b| > 2 {
      EncodeHasNoNewlines(b[3..]);
    }
  }

  lemma {:induction false} StripsNothing(s: string)
    requires forall i :: 0 <= i < |s| ==> s[i] != '\n' && s[i] != '\r'
    ensures StripNewlines(s) == s
  {
    if s != "" {
      StripsNothing(s[1..]);
    }
  }

  lemma FullGroup(a: Sextet, b: Sextet, c: Sextet, d: Sextet, rest: string)
    ensures DecodeQuads([CharOf(a), CharOf(b), CharOf(c), CharOf(d)] + rest) ==
            match DecodeQuads(rest)
            case None => None
            case Some(r) => Some([Byte0(a, b), Byte1(b, c), Byte2(c, d)] + r)
  {
    CharIndex(a);
    CharIndex(b);
    CharIndex(c);
    CharIndex(d);
    assert ([CharOf(a), CharOf(b), CharOf(c), CharOf(d)] + rest)[4..] == rest;
  }

  lemma PaddedGroups(a: Sextet, b: Sextet, c: Sextet)
    ensures DecodeQuads([CharOf(a), CharOf(b), '=', '=']) == Some([Byte0(a, b)])
    ensures DecodeQuads([CharOf(a), CharOf(b), CharOf(c), '=']) == Some([Byte0(a, b), Byte1(b, c)])
  {
    CharIndex(a);
    CharIndex(b);
    CharIndex(c);
  }

  lemma FirstByteBack(x: Byte, y: Byte)
    ensures Byte0(First(x), Second(x, y)) == x
  {
  }

  // A text of groups and the bytes it stands for.
  ghost predicate Stands(text: string, b: seq<Byte>) {
    DecodeQuads(text) == Some(b)
  }

  lemma OneStands(x: Byte)
    ensures Stands([CharOf(First(x)), CharOf(Second(x, 0)), '=', '='], [x])
  {
    FirstByteBack(x, 0);
    var b := Second(x, 0);
    PaddedGroups(First(x), b, b);
  }

  lemma TwoStand(x: Byte, y: Byte)
    ensures Stands([CharOf(First(x)), CharOf(Second(x, y)), CharOf(Third(y, 0)), '='], [x, y])
  {
    BytesBack(x, y, 0);
    PaddedGroups(First(x), Second(x, y), Third(y, 0));
  }

  lemma ThreeStand(x: Byte, y: Byte, z: Byte, text: string, rest: seq<Byte>)
    requires Stands(text, rest)
    ensures Stands([CharOf(First(x)), CharOf(Second(x, y)), CharOf(Third(y, z)), CharOf(Fourth(z))] + text,
                   [x, y, z] + rest)
  {
    BytesBack(x, y, z);
    FullGroup(First(x), Second(x, y), Third(y, z), Fourth(z), text);
  }

  lemma ShortStands(b: seq<Byte>)
    requires |b| <= 2
    ensures Stands(Encode(b), b)
  {
    if |b| == 1 {
      OneStands(b[0]);
      assert b == [b[0]];
    } else if |b| == 2 {
      TwoStand(b[0], b[1]);
      assert b == [b[0], b[1]];
    }
  }

  lemma LongStands(b: seq<Byte>)
    requires |b| > 2 && Stands(Encode(b[3..]), b[3..])
    ensures Stands(Encode(b), b)
  {
    ThreeStand(b[0], b[1], b[2], Encode(b[3..]), b[3..]);
    assert b == [b[0], b[1], b[2]] + b[3..];
  }

  lemma {:induction false} EncodingStands(b: seq<Byte>)
    ensures Stands(Encode(b), b)
  {
    if |b| <= 2 {
      ShortStands(b);
    } else {
      EncodingStands(b[3..]);
      LongStands(b);
    }
  }

  lemma Base64RoundTrip(b: seq<Byte>)
    ensures Decode(Encode(b)) == Some(b)
  {
    EncodeHasNoNewlines(b);
    StripsNothing(Encode(b));
    EncodingStands(b);
  }

  predicate InAlphabet(c: char) {
    'A' <= c <= 'Z' || 'a' <= c <= 'z' || '0' <= c <= '9' || c == '+' || c == '/'
  }

  // Whole groups of four characters of the alphabet, the last one padded or not.
  predicate IsPadded(s: string) {
    var n := |s|;
    && n % 4 == 0
    && (forall i :: 0 <= i < n - 2 ==> InAlphabet(s[i]))
    && (n > 0 ==> if s[n - 1] == '=' then InAlphabet(s[n - 2]) || s[n - 2] == '=' else InAlphabet(s[n - 1]) && InAlphabet(s[n - 2]))
  }

  // A padded text is four characters of the alphabet and a shorter padded text, up to its last group.
  lemma PaddedTail(s: string)
    requires |s| > 4
    ensures IsPadded(s) <==>
            InAlphabet(s[0]) && InAlphabet(s[1]) && InAlphabet(s[2]) && InAlphabet(s[3]) && IsPadded(s[4..])
  {
    var rest := s[4..];
    assert forall i :: 0 <= i < |rest| ==> rest[i] == s[i + 4];
    if |s| % 4 == 0 {
      assert |rest| >= 4;
      if IsPadded(rest) && InAlphabet(s[0]) && InAlphabet(s[1]) && InAlphabet(s[2]) && InAlphabet(s[3]) {
        forall i | 0 <= i < |s| - 2 ensures InAlphabet(s[i]) {
          if i >= 4 { assert s[i] == rest[i - 4]; }
        }
      }
    }
  }

  lemma IndexIffInAlphabet(c: char)
    ensures IndexOf(c).Some? <==> InAlphabet(c)
    ensures !InAlphabet('=')
  {
  }

  lemma {:induction false} DecodesPadded(s: string)
    ensures DecodeQuads(s).Some? <==> IsPadded(s)
  {
    if |s| >= 4 {
      IndexIffInAlphabet(s[0]);
      IndexIffInAlphabet(s[1]);
      IndexIffInAlphabet(s[2]);
      IndexIffInAlphabet(s[3]);
      DecodesPadded(s[4..]);
      if |s| > 4 {
        PaddedTail(s);
      } else {
        assert s[4..] == "";
      }
    }
  }

  // Line breaks aside, the standard decoder accepts exactly the padded texts.
  lemma DecodeAccepts(s: string)
    ensures Decode(s).Some? <==> IsPadded(StripNewlines(s))
  {
    DecodesPadded(StripNewlines(s));
  }

  lemma {:induction false} StripsNewlines(s: string)
    ensures forall i :: 0 <= i < |StripNewlines(s)| ==> StripNewlines(s)[i] != '\n' && StripNewlines(s)[i] != '\r'
    ensures (forall i :: 0 <= i < |s| ==> s[i] != '\n' && s[i] != '\r') ==> StripNewlines(s) == s
  {
    if s != "" {
      StripsNewlines(s[1..]);
    }
  }

  // The alphabet of section 4 of RFC 4648: upper case, lower case, digits, plus and slash.
  lemma AlphabetIsStandard(i: Sextet)
    ensures CharOf(0) == 'A' && CharOf(26) == 'a' && CharOf(52) == '0' && CharOf(62) == '+' && CharOf(63) == '/'
    ensures i !in {0, 26, 52, 62, 63} ==> CharOf(i) as int == CharOf(i - 1) as int + 1
  {
  }

  // Four groups hold the bits of three bytes, the highest first.
  lemma GroupsHoldBits(x: Byte, y: Byte, z: Byte)
    ensures 0x4_0000 * First(x) + 0x1000 * Second(x, y) + 0x40 * Third(y, z) + Fourth(z) == 0x1_0000 * x + 0x100 * y + z
  {
  }

  // The test vectors of section 10 of RFC 4648 for "f", "fo", "foo" and "foob".
  lemma TestVectors()
    ensures Encode([0x66]) == "Zg==" && Encode([0x66, 0x6f]) == "Zm8="
    ensures Encode([0x66, 0x6f, 0x6f]) == "Zm9v" && Encode([0x66, 0x6f, 0x6f, 0x62]) == "Zm9vYg=="
  {
    assert [0x66, 0x6f, 0x6f][3..] == [] && [0x66, 0x6f, 0x6f, 0x62][3..] == [0x62];
  }

  // ---- Offsets ----

  function BytesOf(digits: string): seq<Byte> {
    seq(|digits|, i requires 0 <= i < |digits| => digits[i] as int % 256)
  }

  function TextOf(b: seq<Byte>): string {
    seq(|b|, i requires 0 <= i < |b| => b[i] as char)
  }

  // strconv.Atoi: an optional sign and decimal digits, within the range of int64.
  function Atoi(s: string): Option<int> {
    var negative := s != "" && s[0] == '-';
    match ParseDigits(if s != "" && (s[0] == '-' || s[0] == '+') then s[1..] else s)
    case None => None
    case Some(n) =>
      var value: int := if negative then 0 - n else n;
      if -MAX_INT64 - 1 <= value <= MAX_INT64 then Some(value) else None
  }

  lemma AtoiItoa(n: nat)
    requires n <= MAX_INT64
    ensures Atoi(Itoa(n)) == Some(n)
  {
    ItoaIsDigits(n);
    ParseItoa(n);
    assert IsDigit(Itoa(n)[0]);
  }

  // A number is an optional sign and digits, within the range of int64.
  ghost predicate IsNumeral(s: string, sign: string, digits: string, value: int) {
    && s == sign + digits && sign in {"", "+", "-"} && AllDigits(digits) && ParseDigits(digits).Some?
    && value == (if sign == "-" then 0 - ParseDigits(digits).value else ParseDigits(digits).value)
    && -0x8000_0000_0000_0000 <= value < 0x8000_0000_0000_0000
  }

  lemma AtoiAccepts(s: string, value: int)
    ensures Atoi(s) == Some(value) <==> exists sign, digits :: IsNumeral(s, sign, digits, value)
  {
    var signed := s != "" && (s[0] == '-' || s[0] == '+');
    var digits := if signed then s[1..] else s;
    ParseAccepts(digits);
    if Atoi(s) == Some(value) {
      assert IsNumeral(s, if signed then [s[0]] else "", digits, value);
    }
    if sign, rest :| IsNumeral(s, sign, rest, value) {
      assert sign == "" ==> IsDigit(rest[0]) && s[0] == rest[0];
      assert s == sign + rest && digits == rest;
    }
  }

  lemma TextBytes(digits: string)
    requires forall i :: 0 <= i < |digits| ==> IsDigit(digits[i])
    ensures TextOf(BytesOf(digits)) == digits
  {
  }

  function EncodeOffset(n: nat): string {
    Encode(BytesOf(Itoa(n)))
  }

  // None stands for the invalid-argument error.
  function DecodePageToken(token: string): (offset: Option<int>)
    ensures offset.Some? ==> 0 <= offset.value <= MAX_INT64
  {
    if token == "" then Some(0) else
      match Decode(token)
      case None => None
      case Some(b) =>
        match Atoi(TextOf(b))
        case None => None
        case Some(n) => if n < 0 then None else Some(n)
  }

  lemma OffsetRoundTrip(n: nat)
    requires n <= MAX_INT64
    ensures EncodeOffset(n) != "" && DecodePageToken(EncodeOffset(n)) == Some(n)
  {
    ItoaIsDigits(n);
    TextBytes(Itoa(n));
    AtoiItoa(n);
    Base64RoundTrip(BytesOf(Itoa(n)));
    EncodeNonEmpty(BytesOf(Itoa(n)));
  }

  lemma EncodeNonEmpty(b: seq<Byte>)
    requires b != []
    ensures Encode(b) != ""
  {
  }

  // Which tokens are accepted, and for which offset.
  lemma TokenAcceptedIff(token: string, n: int)
    ensures DecodePageToken(token) == Some(n) <==>
            if token == "" then n == 0
            else n >= 0 && IsPadded(StripNewlines(token)) && Decode(token).Some?
                 && exists sign, digits :: IsNumeral(TextOf(Decode(token).value), sign, digits, n)
  {
    if token != "" {
      DecodeAccepts(token);
      if Decode(token).Some? {
        AtoiAccepts(TextOf(Decode(token).value), n);
      }
    }
  }

  // The token after a first page of the default size.
  lemma TokenOf50()
    ensures EncodeOffset(50) == "NTA="
  {
    assert Itoa(50) == "50";
    assert BytesOf("50") == [0x35, 0x30];
  }

  // Two offsets never share a token.
  lemma OffsetTokensDiffer(m: nat, n: nat)
    requires m <= MAX_INT64 && n <= MAX_INT64 && EncodeOffset(m) == EncodeOffset(n)
    ensures m == n
  {
    OffsetRoundTrip(m);
    OffsetRoundTrip(n);
  }
}
