/**
 Base64 as three independent checks see it: the browser's pattern, the server's decode-and-reencode, and the
 payload decoder. Sections 3.5 and 4 of RFC 4648 define the encoding and its canonical form.
 Sources: apps/web/src/api.ts, apps/api/src/e2ee/matrix-cross-signing.ts, apps/web/src/messagePayload.ts.
*/
module Base64 {
  import opened Wrappers

  type Bytes = seq<nat>

  predicate AllBelow(s: seq<nat>, limit: nat) { forall k | 0 <= k < |s| :: s[k] < limit }

  // ---------------------------------------------------------------- the alphabet

  predicate InAlphabet(c: char) {
    'A' <= c <= 'Z' || 'a' <= c <= 'z' || '0' <= c <= '9' || c == '+' || c == '/'
  }

  function Letter(v: nat): (c: char)
    requires v < 64
    ensures InAlphabet(c) && Sextet(c) == v
  {
    if v < 26 then ('A' as int + v) as char
    else if v < 52 then ('a' as int + (v - 26)) as char
    else if v < 62 then ('0' as int + (v - 52)) as char
    else if v == 62 then '+' else '/'
  }

  function Sextet(c: char): (v: nat)
    requires InAlphabet(c)
    ensures v < 64
  {
    if 'A' <= c <= 'Z' then c as int - 'A' as int
    else if 'a' <= c <= 'z' then c as int - 'a' as int + 26
    else if '0' <= c <= '9' then c as int - '0' as int + 52
    else if c == '+' then 62 else 63
  }

  /** Table 1 of RFC 4648, the first half: values 0 to 31. */
  lemma LettersOfTheTable(v: nat)
    requires v < 16
    ensures Letter(v) == "ABCDEFGHIJKLMNOP"[v] && Letter(16 + v) == "QRSTUVWXYZabcdef"[v]
  {
  }

  /** The second half: values 32 to 63. */
  lemma LaterLettersOfTheTable(v: nat)
    requires v < 16
    ensures Letter(32 + v) == "ghijklmnopqrstuv"[v] && Letter(48 + v) == "wxyz0123456789+/"[v]
  {
  }

  predicate AlphabetOnly(s: string) { forall k | 0 <= k < |s| :: InAlphabet(s[k]) }

  function Text(ss: seq<nat>): (s: string)
    requires AllBelow(ss, 64)
    ensures |s| == |ss| && AlphabetOnly(s)
  {
    seq(|ss|, k requires 0 <= k < |ss| => Letter(ss[k]))
  }

  function Sextets(s: string): (ss: seq<nat>)
    requires AlphabetOnly(s)
    ensures |ss| == |s| && AllBelow(ss, 64)
  {
    seq(|s|, k requires 0 <= k < |s| => Sextet(s[k]))
  }

  lemma TextOfSextets(s: string)
    requires AlphabetOnly(s)
    ensures Text(Sextets(s)) == s
  {
    forall k | 0 <= k < |s| ensures Letter(Sextet(s[k])) == s[k] {}
  }

  lemma SextetsOfText(ss: seq<nat>)
    requires AllBelow(ss, 64)
    ensures Sextets(Text(ss)) == ss
  {
  }

  // ---------------------------------------------------------------- the encoding

  /** Section 4 of RFC 4648: three bytes become four sextets; a rest of one or two becomes two or three. */
  function Encode(bs: Bytes): (ss: seq<nat>)
    requires AllBelow(bs, 256)
    ensures AllBelow(ss, 64) && |ss| == EncodedLength(|bs|)
  {
    if bs == [] then []
    else if |bs| == 1 then TwoOf(bs[0])
    else if |bs| == 2 then ThreeFrom(bs[0], bs[1])
    else FourOf(bs[0], bs[1], bs[2]) + Encode(bs[3..])
  }

  function TwoOf(a: nat): (ss: seq<nat>)
    requires a < 256
    ensures |ss| == 2 && AllBelow(ss, 64)
  {
    [a / 4, a % 4 * 16]
  }

  function ThreeFrom(a: nat, b: nat): (ss: seq<nat>)
    requires a < 256 && b < 256
    ensures |ss| == 3 && AllBelow(ss, 64)
  {
    [a / 4, a % 4 * 16 + b / 16, b % 16 * 4]
  }

  function OneOf(s: nat, t: nat): (bs: Bytes)
    requires s < 64 && t < 64
    ensures |bs| == 1 && AllBelow(bs, 256)
  {
    [s * 4 + t / 16]
  }

  function TwoFrom(s: nat, t: nat, u: nat): (bs: Bytes)
    requires s < 64 && t < 64 && u < 64
    ensures |bs| == 2 && AllBelow(bs, 256)
  {
    [s * 4 + t / 16, t % 16 * 16 + u / 4]
  }

  function FourOf(a: nat, b: nat, c: nat): (ss: seq<nat>)
    requires a < 256 && b < 256 && c < 256
    ensures |ss| == 4 && AllBelow(ss, 64)
  {
    [a / 4, a % 4 * 16 + b / 16, b % 16 * 4 + c / 64, c % 64]
  }

  function ThreeOf(s: nat, t: nat, u: nat, v: nat): (bs: Bytes)
    requires s < 64 && t < 64 && u < 64 && v < 64
    ensures |bs| == 3 && AllBelow(bs, 256)
  {
    [s * 4 + t / 16, t % 16 * 16 + u / 4, u % 4 * 64 + v]
  }

  /** ceil(8 n / 6) */
  function EncodedLength(n: nat): nat { (8 * n + 5) / 6 }

  /** Section 4 of RFC 4648: four sextets write the same 24-bit number as the three bytes they stand for, and
      the sextets of a rest of one or two bytes write it followed by zero bits. */
  predicate WritesTheBits(ss: seq<nat>, bs: Bytes)
    decreases |bs|
  {
    if |bs| == 0 then ss == []
    else if |bs| == 1 then |ss| == 2 && ss[0] * 64 + ss[1] == bs[0] * 16
    else if |bs| == 2 then |ss| == 3 && ss[0] * 4096 + ss[1] * 64 + ss[2] == (bs[0] * 256 + bs[1]) * 4
    else && |ss| >= 4
         && ss[0] * 262144 + ss[1] * 4096 + ss[2] * 64 + ss[3] == bs[0] * 65536 + bs[1] * 256 + bs[2]
         && WritesTheBits(ss[4..], bs[3..])
  }

  lemma {:induction false} EncodeWritesTheBits(bs: Bytes)
    requires AllBelow(bs, 256)
    ensures WritesTheBits(Encode(bs), bs)
    decreases |bs|
  {
    if |bs| >= 3 {
      EncodeWritesTheBits(bs[3..]);
      assert Encode(bs)[4..] == Encode(bs[3..]);
    }
  }

  /** What atob and Buffer.from make of sextets: bits that do not fill a byte are dropped. */
  function Decode(ss: seq<nat>): (bs: Bytes)
    requires AllBelow(ss, 64)
    ensures AllBelow(bs, 256) && |bs| == 6 * |ss| / 8
  {
    if |ss| < 2 then []
    else if |ss| == 2 then OneOf(ss[0], ss[1])
    else if |ss| == 3 then TwoFrom(ss[0], ss[1], ss[2])
    else ThreeOf(ss[0], ss[1], ss[2], ss[3]) + Decode(ss[4..])
  }

  /** Section 3.5 of RFC 4648: the bits that are dropped are zero. */
  predicate Canonical(ss: seq<nat>) {
    match |ss| % 4
    case 0 => true
    case 1 => false
    case 2 => ss[|ss| - 1] % 16 == 0
    case _ => ss[|ss| - 1] % 4 == 0
  }

  /** The three joints between bytes and sextets, in both directions. */
  lemma JoinFirst(a: nat, b: nat)
    requires a < 256 && b < 256
    ensures a / 4 * 4 + (a % 4 * 16 + b / 16) / 16 == a && (a % 4 * 16 + b / 16) % 16 == b / 16
  {
  }

  lemma JoinSecond(b: nat, c: nat)
    requires b < 256 && c < 256
    ensures b / 16 * 16 + (b % 16 * 4 + c / 64) / 4 == b && (b % 16 * 4 + c / 64) % 4 == c / 64
  {
  }

  lemma SplitFirst(s: nat, t: nat)
    requires s < 64 && t < 64
    ensures (s * 4 + t / 16) / 4 == s && (s * 4 + t / 16) % 4 == t / 16
  {
  }

  lemma SplitSecond(t: nat, u: nat)
    requires t < 64 && u < 64
    ensures (t % 16 * 16 + u / 4) / 16 == t % 16 && (t % 16 * 16 + u / 4) % 16 == u / 4
  {
  }

  lemma SplitThird(u: nat, v: nat)
    requires u < 64 && v < 64
    ensures (u % 4 * 64 + v) / 64 == u % 4 && (u % 4 * 64 + v) % 64 == v
  {
  }

  lemma ThreeAgree(a: nat, b: nat, c: nat)
    requires a < 256 && b < 256 && c < 256
    ensures var ss := FourOf(a, b, c); ThreeOf(ss[0], ss[1], ss[2], ss[3]) == [a, b, c]
  {
    JoinFirst(a, b);
    JoinSecond(b, c);
  }

  lemma FourAgree(s: nat, t: nat, u: nat, v: nat)
    requires s < 64 && t < 64 && u < 64 && v < 64
    ensures var bs := ThreeOf(s, t, u, v); FourOf(bs[0], bs[1], bs[2]) == [s, t, u, v]
  {
    SplitFirst(s, t);
    SplitSecond(t, u);
    SplitThird(u, v);
  }

  lemma CanonicalStep(ss: seq<nat>)
    requires |ss| >= 4
    ensures Canonical(ss) <==> Canonical(ss[4..])
  {
    if |ss| > 4 { assert ss[4..][|ss| - 5] == ss[|ss| - 1]; }
  }

  lemma EncodeStep(head: Bytes, rest: Bytes)
    requires |head| == 3 && AllBelow(head, 256) && AllBelow(rest, 256)
    ensures AllBelow(head + rest, 256) && Encode(head + rest) == FourOf(head[0], head[1], head[2]) + Encode(rest)
  {
    assert (head + rest)[3..] == rest;
  }

  lemma DecodeStep(head: seq<nat>, rest: seq<nat>)
    requires |head| == 4 && AllBelow(head, 64) && AllBelow(rest, 64)
    ensures AllBelow(head + rest, 64)
    ensures Decode(head + rest) == ThreeOf(head[0], head[1], head[2], head[3]) + Decode(rest)
  {
    assert (head + rest)[4..] == rest;
  }

  lemma OneAgrees(a: nat)
    requires a < 256
    ensures var ss := TwoOf(a); OneOf(ss[0], ss[1]) == [a] && ss[1] % 16 == 0
  {
    JoinFirst(a, 0);
  }

  lemma TwoAgree(a: nat, b: nat)
    requires a < 256 && b < 256
    ensures var ss := ThreeFrom(a, b); TwoFrom(ss[0], ss[1], ss[2]) == [a, b] && ss[2] % 4 == 0
  {
    JoinFirst(a, b);
    JoinSecond(b, 0);
  }

  /** A rest of two or three sextets survives exactly when the dropped bits are zero. */
  lemma TwoSextetsAgree(s: nat, t: nat)
    requires s < 64 && t < 64
    ensures TwoOf(OneOf(s, t)[0]) == [s, t] <==> t % 16 == 0
  {
    SplitFirst(s, t);
    assert TwoOf(OneOf(s, t)[0]) == [s, t / 16 * 16];
  }

  lemma ThreeSextetsAgree(s: nat, t: nat, u: nat)
    requires s < 64 && t < 64 && u < 64
    ensures var bs := TwoFrom(s, t, u); ThreeFrom(bs[0], bs[1]) == [s, t, u] <==> u % 4 == 0
  {
    SplitFirst(s, t);
    SplitSecond(t, u);
    var bs := TwoFrom(s, t, u);
    assert ThreeFrom(bs[0], bs[1]) == [s, t / 16 * 16 + t % 16, u / 4 * 4];
  }

  lemma {:induction false} DecodeUndoesEncode(bs: Bytes)
    requires AllBelow(bs, 256)
    ensures Decode(Encode(bs)) == bs && Canonical(Encode(bs))
  {
    if |bs| == 1 {
      OneAgrees(bs[0]);
    } else if |bs| == 2 {
      TwoAgree(bs[0], bs[1]);
    } else if |bs| >= 3 {
      DecodeUndoesEncode(bs[3..]);
      LongDecodeUndoesEncode(bs[..3], bs[3..]);
      assert bs == bs[..3] + bs[3..];
    }
  }

  lemma LongDecodeUndoesEncode(head: Bytes, rest: Bytes)
    requires |head| == 3 && AllBelow(head, 256) && AllBelow(rest, 256)
    requires Decode(Encode(rest)) == rest && Canonical(Encode(rest))
    ensures AllBelow(head + rest, 256) && Decode(Encode(head + rest)) == head + rest && Canonical(Encode(head + rest))
  {
    EncodeStep(head, rest);
    var four := FourOf(head[0], head[1], head[2]);
    DecodeStep(four, Encode(rest));
    ThreeAgree(head[0], head[1], head[2]);
    assert (four + Encode(rest))[4..] == Encode(rest);
    CanonicalStep(four + Encode(rest));
  }

  lemma {:induction false} EncodeUndoesDecode(ss: seq<nat>)
    requires AllBelow(ss, 64)
    ensures Encode(Decode(ss)) == ss <==> Canonical(ss)
  {
    if |ss| == 2 {
      TwoSextetsAgree(ss[0], ss[1]);
    } else if |ss| == 3 {
      ThreeSextetsAgree(ss[0], ss[1], ss[2]);
    } else if |ss| >= 4 {
      EncodeUndoesDecode(ss[4..]);
      LongEncodeUndoesDecode(ss[..4], ss[4..]);
      assert ss == ss[..4] + ss[4..];
    }
  }

  lemma LongEncodeUndoesDecode(head: seq<nat>, rest: seq<nat>)
    requires |head| == 4 && AllBelow(head, 64) && AllBelow(rest, 64)
    requires Encode(Decode(rest)) == rest <==> Canonical(rest)
    ensures AllBelow(head + rest, 64) && (Encode(Decode(head + rest)) == head + rest <==> Canonical(head + rest))
  {
    DecodeStep(head, rest);
    EncodeStep(ThreeOf(head[0], head[1], head[2], head[3]), Decode(rest));
    FourAgree(head[0], head[1], head[2], head[3]);
    assert (head + rest)[4..] == rest && (head + Encode(Decode(rest)))[4..] == Encode(Decode(rest));
    CanonicalStep(head + rest);
  }

  function Unpadded(bs: Bytes): string
    requires AllBelow(bs, 256)
  {
    Text(Encode(bs))
  }

  function Padding(n: nat): (p: string)
    ensures |p| <= 3 && (n + |p|) % 4 == 0 && forall k | 0 <= k < |p| :: p[k] == '='
  {
    match n % 4
    case 0 => ""
    case 1 => "==="
    case 2 => "=="
    case _ => "="
  }

  /** btoa, and toString("base64") */
  function Padded(bs: Bytes): string
    requires AllBelow(bs, 256)
  {
    Unpadded(bs) + Padding(|Unpadded(bs)|)
  }

  /** replace(/=+$/, "") */
  function StripPadding(s: string): string {
    if s != "" && s[|s| - 1] == '=' then StripPadding(s[..|s| - 1]) else s
  }

  lemma {:induction false} StripRemoves(s: string, p: string)
    requires AlphabetOnly(s) && forall k | 0 <= k < |p| :: p[k] == '='
    ensures StripPadding(s + p) == s
    decreases |p|
  {
    if p == "" {
      assert s + p == s;
    } else {
      StripRemoves(s, p[..|p| - 1]);
      assert (s + p)[..|s + p| - 1] == s + p[..|p| - 1];
    }
  }

  /** One string per byte sequence. */
  lemma UnpaddedIsInjective(a: Bytes, b: Bytes)
    requires AllBelow(a, 256) && AllBelow(b, 256) && Unpadded(a) == Unpadded(b)
    ensures a == b
  {
    SextetsOfText(Encode(a));
    SextetsOfText(Encode(b));
    DecodeUndoesEncode(a);
    DecodeUndoesEncode(b);
  }

  /** A string of the alphabet is the encoding of what it decodes to exactly when it is canonical. */
  lemma ReencodeTest(s: string)
    requires AlphabetOnly(s)
    ensures StripPadding(Padded(Decode(Sextets(s)))) == s <==> Canonical(Sextets(s))
    ensures Unpadded(Decode(Sextets(s))) == s <==> Canonical(Sextets(s))
  {
    var bs := Decode(Sextets(s));
    StripRemoves(Unpadded(bs), Padding(|Unpadded(bs)|));
    EncodeUndoesDecode(Sextets(s));
    TextOfSextets(s);
    SextetsOfText(Encode(bs));
  }

  lemma EncodingIsCanonical(bs: Bytes)
    requires AllBelow(bs, 256)
    ensures AlphabetOnly(Unpadded(bs)) && Canonical(Sextets(Unpadded(bs))) && Decode(Sextets(Unpadded(bs))) == bs
  {
    DecodeUndoesEncode(bs);
    SextetsOfText(Encode(bs));
  }

  // ---------------------------------------------------------------- the three checks

  const LAST_LETTERS := "AEIMQUYcgkosw048"

  /** The browser: 42 letters of the alphabet, then one of sixteen. */
  predicate BrowserAcceptsKey(s: string) {
    |s| == 43 && AlphabetOnly(s[..42]) && s[42] in LAST_LETTERS
  }

  /** The server: length, alphabet, decoded length, and the decoded bytes encode to the same string. */
  predicate ServerAccepts(s: string, bytes: nat) {
    && |s| == EncodedLength(bytes) && s != "" && AlphabetOnly(s)
    && var decoded := Decode(Sextets(s));
       |decoded| == bytes && StripPadding(Padded(decoded)) == s
  }

  /** decodeCanonicalUnpaddedBase64 */
  function DecodeCanonicalUnpadded(s: string, expected: Option<nat>, minimum: nat): Option<Bytes> {
    if s == "" || !AlphabetOnly(s) || |s| % 4 == 1 then None
    else
      var binary := Decode(Sextets(s));
      if |binary| < minimum || (expected.Some? && |binary| != expected.value) || StripPadding(Padded(binary)) != s
      then None else Some(binary)
  }

  /** decodeCanonicalPaddedBase64: groups of four, the last one padded, and then the same test. */
  function DecodeCanonicalPadded(s: string, minimum: nat, maximum: nat): Option<Bytes> {
    var body := StripPadding(s);
    if s == "" || !AlphabetOnly(body) || |s| % 4 != 0 || |s| - |body| > 2 then None
    else
      var binary := Decode(Sextets(body));
      if |binary| < minimum || |binary| > maximum || Padded(binary) != s then None else Some(binary)
  }

  lemma LastLetters(c: char)
    ensures c in LAST_LETTERS <==> InAlphabet(c) && Sextet(c) % 4 == 0
  {
    if InAlphabet(c) && Sextet(c) % 4 == 0 {
      assert LAST_LETTERS[Sextet(c) / 4] == c;
    }
  }

  /** The unpadded encodings of sequences of the given length. */
  predicate IsEncodingOf(s: string, bytes: nat) {
    AlphabetOnly(s) && Canonical(Sextets(s)) && |Decode(Sextets(s))| == bytes
  }

  lemma IsEncoding(s: string, bytes: nat)
    ensures IsEncodingOf(s, bytes) <==> exists bs: Bytes | AllBelow(bs, 256) :: |bs| == bytes && s == Unpadded(bs)
  {
    if IsEncodingOf(s, bytes) {
      ReencodeTest(s);
      assert s == Unpadded(Decode(Sextets(s)));
    }
    forall bs: Bytes | AllBelow(bs, 256) && |bs| == bytes && s == Unpadded(bs) ensures IsEncodingOf(s, bytes) {
      EncodingIsCanonical(bs);
    }
  }

  lemma ServerAcceptsEncodings(s: string, bytes: nat)
    requires bytes > 0
    ensures ServerAccepts(s, bytes) <==> IsEncodingOf(s, bytes)
  {
    if AlphabetOnly(s) { ReencodeTest(s); }
    if IsEncodingOf(s, bytes) { LengthOfEncoding(s, bytes); }
  }

  lemma LengthOfEncoding(s: string, bytes: nat)
    requires IsEncodingOf(s, bytes)
    ensures |s| == EncodedLength(bytes)
  {
    EncodeUndoesDecode(Sextets(s));
  }

  lemma DecoderAcceptsEncodings(s: string, expected: Option<nat>, minimum: nat)
    requires minimum > 0
    ensures DecodeCanonicalUnpadded(s, expected, minimum).Some?
            <==> AlphabetOnly(s) && var n := |Decode(Sextets(s))|;
                                    IsEncodingOf(s, n) && minimum <= n && (expected.Some? ==> n == expected.value)
    ensures DecodeCanonicalUnpadded(s, expected, minimum).Some? ==>
              Unpadded(DecodeCanonicalUnpadded(s, expected, minimum).value) == s
  {
    if AlphabetOnly(s) { ReencodeTest(s); }
  }

  lemma BrowserAcceptsEncodings(s: string)
    ensures BrowserAcceptsKey(s) <==> IsEncodingOf(s, 32)
  {
    if |s| == 43 { LastLetters(s[42]); }
    if IsEncodingOf(s, 32) { LengthOfEncoding(s, 32); }
    if BrowserAcceptsKey(s) {
      assert AlphabetOnly(s);
      assert Sextets(s)[42] == Sextet(s[42]);
    }
  }

  /** The three checks of a 32-byte key accept the same strings: the canonical encodings, one per key. */
  lemma KeyChecksAgree(s: string)
    ensures BrowserAcceptsKey(s) <==> ServerAccepts(s, 32)
    ensures ServerAccepts(s, 32) <==> DecodeCanonicalUnpadded(s, Some(32), 1).Some?
    ensures ServerAccepts(s, 32) <==> exists key: Bytes | AllBelow(key, 256) :: |key| == 32 && s == Unpadded(key)
  {
    BrowserAcceptsEncodings(s);
    ServerAcceptsEncodings(s, 32);
    DecoderAcceptsEncodings(s, Some(32), 1);
    IsEncoding(s, 32);
  }

  /** The identity of an account is accepted exactly when its keys encode three different 32-byte keys. */
  lemma IdentityNeedsThreeKeys(master: string, selfSigning: string, userSigning: string)
    ensures BrowserAcceptsKey(master) && BrowserAcceptsKey(selfSigning) && BrowserAcceptsKey(userSigning)
            && |{master, selfSigning, userSigning}| == 3
            <==> exists a: Bytes, b: Bytes, c: Bytes | AllBelow(a, 256) && AllBelow(b, 256) && AllBelow(c, 256) ::
                   && |a| == |b| == |c| == 32 && a != b && b != c && a != c
                   && master == Unpadded(a) && selfSigning == Unpadded(b) && userSigning == Unpadded(c)
  {
    KeyChecksAgree(master);
    KeyChecksAgree(selfSigning);
    KeyChecksAgree(userSigning);
    ThreeDistinct(master, selfSigning, userSigning);
    forall a: Bytes, b: Bytes | AllBelow(a, 256) && AllBelow(b, 256) && Unpadded(a) == Unpadded(b) ensures a == b {
      UnpaddedIsInjective(a, b);
    }
  }

  lemma ThreeDistinct(a: string, b: string, c: string)
    ensures |{a, b, c}| == 3 <==> a != b && b != c && a != c
  {
    if a == b || b == c || a == c {
      assert {a, b, c} == {a, c} || {a, b, c} == {a, b};
    }
  }

  /** The padded decoder returns a sequence exactly for its padded encoding, within the limits. */
  lemma PaddedDecoderInverts(s: string, bs: Bytes, minimum: nat, maximum: nat)
    requires AllBelow(bs, 256) && bs != []
    ensures DecodeCanonicalPadded(s, minimum, maximum) == Some(bs) <==> s == Padded(bs) && minimum <= |bs| <= maximum
  {
    var body := Unpadded(bs);
    StripRemoves(body, Padding(|body|));
    EncodingIsCanonical(bs);
    assert |body| % 4 != 1;
  }

  // ---------------------------------------------------------------- from hexadecimal

  predicate IsHexDigit(c: char) { '0' <= c <= '9' || 'a' <= c <= 'f' }

  predicate IsHex(s: string) { forall k | 0 <= k < |s| :: IsHexDigit(s[k]) }

  function HexDigit(c: char): (v: nat)
    requires IsHexDigit(c)
    ensures v < 16
  {
    if c <= '9' then c as int - '0' as int else c as int - 'a' as int + 10
  }

  function HexLetter(v: nat): (c: char)
    requires v < 16
    ensures IsHexDigit(c) && HexDigit(c) == v
  {
    if v < 10 then ('0' as int + v) as char else ('a' as int + (v - 10)) as char
  }

  lemma HexLetterIsTheTable(v: nat)
    requires v < 16
    ensures HexLetter(v) == "0123456789abcdef"[v]
  {
  }

  /** Number.parseInt(s, 16) of one or two digits. */
  function ParseHex(s: string): (v: nat)
    requires IsHex(s) && 1 <= |s| <= 2
    ensures v < 256
  {
    if |s| == 1 then HexDigit(s[0]) else HexDigit(s[0]) * 16 + HexDigit(s[1])
  }

  function HexOf(bs: Bytes): (s: string)
    requires AllBelow(bs, 256)
    ensures |s| == 2 * |bs| && IsHex(s)
    ensures forall k | 0 <= k < |bs| :: s[2 * k] == HexLetter(bs[k] / 16) && s[2 * k + 1] == HexLetter(bs[k] % 16)
  {
    seq(2 * |bs|, k requires 0 <= k < 2 * |bs| =>
      if k % 2 == 0 then HexLetter(bs[k / 2] / 16) else HexLetter(bs[k / 2] % 16))
  }

  /** The bytes that a string of digits stands for; an odd digit at the end is a byte of its own. */
  function BytesOfHex(s: string): (bs: Bytes)
    requires IsHex(s)
    ensures AllBelow(bs, 256) && |bs| == (|s| + 1) / 2
    ensures forall k | 0 <= k < |bs| :: bs[k] == ParseHex(if 2 * k + 2 <= |s| then s[2 * k..2 * k + 2] else s[2 * k..])
  {
    seq((|s| + 1) / 2, k requires 0 <= k < (|s| + 1) / 2 =>
      ParseHex(if 2 * k + 2 <= |s| then s[2 * k..2 * k + 2] else s[2 * k..]))
  }

  lemma HexByte(bs: Bytes, k: nat)
    requires AllBelow(bs, 256) && k < |bs|
    ensures BytesOfHex(HexOf(bs))[k] == bs[k]
  {
    HexPair(bs, k);
    TwoDigits(bs[k]);
  }

  lemma HexPair(bs: Bytes, k: nat)
    requires AllBelow(bs, 256) && k < |bs|
    ensures HexOf(bs)[2 * k..2 * k + 2] == [HexLetter(bs[k] / 16), HexLetter(bs[k] % 16)]
  {
    var s := HexOf(bs);
    assert s[2 * k] == HexLetter(bs[k] / 16) && s[2 * k + 1] == HexLetter(bs[k] % 16);
  }

  lemma TwoDigits(b: nat)
    requires b < 256
    ensures ParseHex([HexLetter(b / 16), HexLetter(b % 16)]) == b
  {
  }

  lemma HexRoundTrip(bs: Bytes)
    requires AllBelow(bs, 256)
    ensures BytesOfHex(HexOf(bs)) == bs
  {
    var s := HexOf(bs);
    forall k | 0 <= k < |bs| ensures BytesOfHex(s)[k] == bs[k] { HexByte(bs, k); }
  }

  /** hexToBase64 turns the hexadecimal form of any bytes into their padded encoding. */
  method HexToBase64(value: string) returns (r: string)
    requires IsHex(value)
    ensures r == Padded(BytesOfHex(value))
    ensures forall bs: Bytes | AllBelow(bs, 256) && value == HexOf(bs) :: r == Padded(bs)
  {
    var binary: Bytes := [];
    var index := 0;
    while index < |value|
      invariant index % 2 == 0 && index <= |value| + 1 && |binary| == index / 2
      invariant AllBelow(binary, 256) && binary == BytesOfHex(value)[..index / 2]
    {
      var end := if index + 2 <= |value| then index + 2 else |value|;
      var code := ParseHex(value[index..end]);
      assert code == BytesOfHex(value)[index / 2];
      binary := binary + [code];
      index := index + 2;
    }
    assert binary == BytesOfHex(value);
    forall bs: Bytes | AllBelow(bs, 256) && value == HexOf(bs) ensures Padded(binary) == Padded(bs) {
      HexRoundTrip(bs);
    }
    return Padded(binary);
  }
}
