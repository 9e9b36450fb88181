/**
 How thirteen random bytes become a recovery code of twenty symbols.
 Source: apps/api/src/auth/cashier-recovery-code.ts.
*/
module RecoveryCode {
  import opened Arithmetic
  import opened Wrappers

  const ALPHABET := "23456789ABCDEFGHJKLMNPQRSTUVWXYZ"
  const CODE_SYMBOLS := 20
  const RANDOM_BYTES := 13

  // ---------------------------------------------------------------- positional notation

  predicate DigitsBelow(ds: seq<nat>, base: nat) { forall k | 0 <= k < |ds| :: ds[k] < base }

  /** The number that the digits write, most significant first. */
  function Value(ds: seq<nat>, base: nat): nat {
    if ds == [] then 0 else Value(ds[..|ds| - 1], base) * base + ds[|ds| - 1]
  }

  function Power(base: nat, k: nat): nat {
    if k == 0 then 1 else Power(base, k - 1) * base
  }

  /** The last `k` digits of `n`. */
  function Digits(n: nat, k: nat, base: nat): (ds: seq<nat>)
    requires base > 0
    ensures |ds| == k && DigitsBelow(ds, base)
    decreases k, n
  {
    if k == 0 then [] else Digits(n / base, k - 1, base) + [n % base]
  }

  lemma DivideOut(q: nat, r: nat, base: nat)
    requires r < base
    ensures (q * base + r) / base == q && (q * base + r) % base == r
  {
    var n := q * base + r;
    var d := n / base;
    assert d * base + n % base == n;
    if d < q { Scale(d + 1, q, base); }
    if q < d { Scale(q + 1, d, base); }
  }

  lemma {:induction false} DigitsOfValue(ds: seq<nat>, base: nat)
    requires base > 0 && DigitsBelow(ds, base)
    ensures Digits(Value(ds, base), |ds|, base) == ds
  {
    if ds != [] {
      var front, last := ds[..|ds| - 1], ds[|ds| - 1];
      DigitsOfValue(front, base);
      DivideOut(Value(front, base), last, base);
      assert front + [last] == ds;
    }
  }

  lemma PlaceBelow(v: nat, d: nat, limit: nat, base: nat)
    requires v < limit && d < base
    ensures v * base + d < limit * base
  {
    Scale(v + 1, limit, base);
  }

  lemma QuotientBelow(n: nat, limit: nat, base: nat)
    requires base > 0 && n < limit * base
    ensures n / base < limit
  {
    var q := n / base;
    assert q * base <= n;
    if limit <= q { Scale(limit, q, base); }
  }

  lemma {:induction false} ValueBelow(ds: seq<nat>, base: nat)
    requires DigitsBelow(ds, base)
    ensures Value(ds, base) < Power(base, |ds|)
  {
    if ds != [] {
      ValueBelow(ds[..|ds| - 1], base);
      PlaceBelow(Value(ds[..|ds| - 1], base), ds[|ds| - 1], Power(base, |ds| - 1), base);
    }
  }

  lemma Recompose(n: nat, base: nat)
    requires base > 0
    ensures n / base * base + n % base == n
  {
  }

  lemma {:induction false} ValueOfDigits(n: nat, k: nat, base: nat)
    requires base > 0 && n < Power(base, k)
    ensures Value(Digits(n, k, base), base) == n
    decreases k
  {
    if k > 0 {
      QuotientBelow(n, Power(base, k - 1), base);
      ValueOfDigits(n / base, k - 1, base);
      ValueAppend(Digits(n / base, k - 1, base), n % base, base);
      Recompose(n, base);
    }
  }

  lemma ValueAppend(ds: seq<nat>, d: nat, base: nat)
    ensures Value(ds + [d], base) == Value(ds, base) * base + d
  {
    assert (ds + [d])[..|ds|] == ds;
  }

  // ---------------------------------------------------------------- the packer

  predicate RandomBytes(bytes: seq<nat>) { |bytes| == RANDOM_BYTES && DigitsBelow(bytes, 256) }

  function Letters(ds: seq<nat>): (s: string)
    requires DigitsBelow(ds, 32)
    ensures |s| == |ds| && forall k | 0 <= k < |s| :: s[k] == ALPHABET[ds[k]]
  {
    if ds == [] then "" else Letters(ds[..|ds| - 1]) + [ALPHABET[ds[|ds| - 1]]]
  }

  /** The payload is the base-32 form of the bytes' number without its last four bits, one symbol for each five. */
  function Payload(bytes: seq<nat>): string
    requires RandomBytes(bytes)
  {
    Letters(Digits(Value(bytes, 256) / 16, 8 * |bytes| / 5, 32))
  }

  lemma {:induction false} Powers(k: nat)
    requires k <= 12
    ensures Power(2, k) == [1, 2, 4, 8, 16, 32, 64, 128, 256, 512, 1024, 2048, 4096][k]
  {
    if k > 0 { Powers(k - 1); }
  }

  /** On the values that occur, shifting in a byte, taking a symbol and masking the rest are arithmetic. */
  lemma ShiftsAreArithmetic(accumulator: bv32, byte: bv32)
    requires accumulator < 4096 && byte < 256
    ensures accumulator < 16 ==> (accumulator << 8) | byte == accumulator * 256 + byte
    ensures accumulator & 31 == accumulator % 32
    ensures (accumulator >> 1) & 31 == accumulator / 2 % 32 && accumulator & 1 == accumulator % 2
    ensures (accumulator >> 2) & 31 == accumulator / 4 % 32 && accumulator & 3 == accumulator % 4
    ensures (accumulator >> 3) & 31 == accumulator / 8 % 32 && accumulator & 7 == accumulator % 8
    ensures (accumulator >> 4) & 31 == accumulator / 16 % 32 && accumulator & 15 == accumulator % 16
    ensures (accumulator >> 5) & 31 == accumulator / 32 % 32 && accumulator & 31 == accumulator % 32
    ensures (accumulator >> 6) & 31 == accumulator / 64 % 32 && accumulator & 63 == accumulator % 64
    ensures (accumulator >> 7) & 31 == accumulator / 128 % 32 && accumulator & 127 == accumulator % 128
  {
  }

  lemma {:induction false} PowerSplits(a: nat, b: nat)
    ensures Power(2, a + b) == Power(2, a) * Power(2, b)
  {
    if b > 0 {
      PowerSplits(a, b - 1);
      assert Power(2, a) * (Power(2, b - 1) * 2) == Power(2, a) * Power(2, b - 1) * 2;
    }
  }

  /** v << bits */
  function Shifted(v: nat, bits: nat): nat
    decreases bits, v
  {
    if bits == 0 then v else 2 * Shifted(v, bits - 1)
  }

  lemma {:induction false} ShiftAdds(x: nat, y: nat, bits: nat)
    ensures Shifted(x + y, bits) == Shifted(x, bits) + Shifted(y, bits)
  {
    if bits > 0 { ShiftAdds(x, y, bits - 1); }
  }

  lemma {:induction false} ShiftTwice(v: nat, a: nat, b: nat)
    ensures Shifted(Shifted(v, a), b) == Shifted(v, a + b)
    decreases b
  {
    if b > 0 { ShiftTwice(v, a, b - 1); }
  }

  lemma {:induction false} ShiftScales(v: nat, bits: nat)
    ensures Shifted(v, bits) == v * Shifted(1, bits)
  {
    if bits > 0 {
      ShiftScales(v, bits - 1);
      assert v * (2 * Shifted(1, bits - 1)) == 2 * (v * Shifted(1, bits - 1));
    }
  }

  lemma ByFour(v: nat)
    ensures Shifted(v, 4) == v * 16
  {
    assert Shifted(v, 2) == 2 * Shifted(v, 1) == 4 * v;
  }

  lemma ByFive(v: nat)
    ensures Shifted(v, 5) == v * 32
  {
    ByFour(v);
  }

  lemma ByEight(v: nat, bits: nat)
    ensures Shifted(v, bits + 8) == Shifted(v, bits) * 256
  {
    assert Shifted(v, bits + 2) == 4 * Shifted(v, bits);
    assert Shifted(v, bits + 4) == 16 * Shifted(v, bits);
    assert Shifted(v, bits + 6) == 64 * Shifted(v, bits);
  }

  lemma {:induction false} Masks(bits: nat)
    requires bits <= 12
    ensures Shifted(1, bits) == [1, 2, 4, 8, 16, 32, 64, 128, 256, 512, 1024, 2048, 4096][bits]
  {
    if bits > 0 { Masks(bits - 1); }
  }

  /** Output and accumulator together hold every bit read so far. */
  ghost predicate Packed(bytes: seq<nat>, ds: seq<nat>, accumulator: nat, available: nat) {
    && DigitsBelow(ds, 32) && 5 * |ds| + available == 8 * |bytes| && accumulator < Shifted(1, available)
    && Value(bytes, 256) == Shifted(Value(ds, 32), available) + accumulator
  }

  lemma TakeByte(bytes: seq<nat>, byte: nat, ds: seq<nat>, accumulator: nat, available: nat)
    requires Packed(bytes, ds, accumulator, available) && available < 5 && byte < 256
    ensures accumulator < 16 && Packed(bytes + [byte], ds, accumulator * 256 + byte, available + 8)
  {
    Masks(available);
    ByEight(1, available);
    ByEight(Value(ds, 32), available);
    ValueAppend(bytes, byte, 256);
  }

  /** The top five available bits, and what the mask leaves of the rest. */
  lemma TopBits(accumulator: nat, available: nat)
    requires 5 <= available <= 12 && accumulator < Shifted(1, available)
    ensures accumulator < 4096 && Shifted(1, available - 5) > 0
    ensures var low := Shifted(1, available - 5);
            && accumulator / low % 32 == accumulator / low && accumulator % low < low
            && accumulator == Shifted(accumulator / low % 32, available - 5) + accumulator % low
  {
    Masks(available);
    Masks(available - 5);
    ShiftScales(accumulator / Shifted(1, available - 5), available - 5);
  }

  /** Moving five bits from the accumulator to the output keeps the number that both write. */
  lemma TakeBits(bytes: seq<nat>, ds: seq<nat>, accumulator: nat, available: nat, symbol: nat, rest: nat)
    requires Packed(bytes, ds, accumulator, available) && 5 <= available
    requires symbol < 32 && rest < Shifted(1, available - 5) && accumulator == Shifted(symbol, available - 5) + rest
    ensures Packed(bytes, ds + [symbol], rest, available - 5)
  {
    ValueAppend(ds, symbol, 32);
    ShiftAdds(Value(ds, 32) * 32, symbol, available - 5);
    ByFive(Value(ds, 32));
    ShiftTwice(Value(ds, 32), 5, available - 5);
  }

  lemma AppendLetter(ds: seq<nat>, d: nat)
    requires DigitsBelow(ds, 32) && d < 32
    ensures Letters(ds + [d]) == Letters(ds) + [ALPHABET[d]]
  {
    assert (ds + [d])[..|ds|] == ds;
  }

  /** The two masked shifts of one symbol, on an accumulator that is below 2^12 in every pass. */
  method TakeSymbol(accumulator: nat, available: nat, ghost bytes: seq<nat>, ghost ds: seq<nat>)
    returns (symbol: nat, rest: nat)
    requires Packed(bytes, ds, accumulator, available) && 5 <= available <= 12
    ensures accumulator < 4096 && symbol < |ALPHABET|
    ensures Packed(bytes, ds + [symbol], rest, available - 5)
    ensures Letters(ds + [symbol]) == Letters(ds) + [ALPHABET[symbol]]
  {
    TopBits(accumulator, available);
    var low := Shifted(1, available - 5);
    symbol := accumulator / low % 32; // (accumulator >>> available - 5) & 31
    rest := accumulator % low; // accumulator & ((1 << available - 5) - 1)
    TakeBits(bytes, ds, accumulator, available, symbol, rest);
    AppendLetter(ds, symbol);
  }

  lemma DropFour(n: nat, v: nat, rest: nat)
    requires n == 16 * v + rest && rest < 16
    ensures n / 16 == v
  {
  }

  lemma TakeNextByte(bytes: seq<nat>, i: nat, ds: seq<nat>, accumulator: nat, available: nat)
    requires RandomBytes(bytes) && i < |bytes| && Packed(bytes[..i], ds, accumulator, available) && available < 5
    ensures Packed(bytes[..i + 1], ds, accumulator * 256 + bytes[i], available + 8)
  {
    TakeByte(bytes[..i], bytes[i], ds, accumulator, available);
    assert bytes[..i] + [bytes[i]] == bytes[..i + 1];
  }

  lemma PackedEnds(bytes: seq<nat>, n: nat, ds: seq<nat>, accumulator: nat, available: nat)
    requires RandomBytes(bytes) && n == |bytes| && Packed(bytes[..n], ds, accumulator, available) && available < 5
    ensures |ds| == CODE_SYMBOLS && Letters(ds) == Payload(bytes)
  {
    assert bytes[..n] == bytes;
    assert available == 4;
    Masks(4);
    ByFour(Value(ds, 32));
    DropFour(Value(bytes, 256), Value(ds, 32), accumulator);
    DigitsOfValue(ds, 32);
  }

  /** The error branch cannot be reached: every thirteen bytes give exactly twenty symbols. */
  method RandomCodePayload(bytes: seq<nat>) returns (r: Result<string, ()>)
    requires RandomBytes(bytes)
    ensures r == Ok(Payload(bytes)) && |r.value| == 20
  {
    var accumulator: nat, availableBits: nat, output := 0, 0, "";
    ghost var ds: seq<nat> := [];
    var i := 0;
    while i < |bytes|
      invariant i <= |bytes| && availableBits < 5
      invariant Packed(bytes[..i], ds, accumulator, availableBits) && output == Letters(ds)
    {
      TakeNextByte(bytes, i, ds, accumulator, availableBits);
      accumulator := accumulator * 256 + bytes[i]; // (accumulator << 8) | byte
      availableBits := availableBits + 8;
      i := i + 1;
      while availableBits >= 5 && |output| < CODE_SYMBOLS
        invariant availableBits <= 12
        invariant Packed(bytes[..i], ds, accumulator, availableBits) && output == Letters(ds)
        decreases availableBits
      {
        var symbol, rest := TakeSymbol(accumulator, availableBits, bytes[..i], ds);
        availableBits := availableBits - 5;
        output := output + [ALPHABET[symbol]];
        ds := ds + [symbol];
        accumulator := rest;
      }
    }
    PackedEnds(bytes, i, ds, accumulator, availableBits);
    if |output| != CODE_SYMBOLS {
      assert false;
    }
    return Ok(output);
  }

  // ---------------------------------------------------------------- how often each payload occurs

  lemma {:induction false} LettersDetermineDigits(a: seq<nat>, b: seq<nat>)
    requires DigitsBelow(a, 32) && DigitsBelow(b, 32) && Letters(a) == Letters(b)
    ensures a == b
  {
    assert |a| == |Letters(a)| == |b|;
    forall k | 0 <= k < |a| ensures a[k] == b[k] {
      assert Letters(a)[k] == Letters(b)[k];
      SymbolsDiffer(a[k], b[k]);
    }
  }

  lemma SymbolsDiffer(a: nat, b: nat)
    requires a < 32 && b < 32 && ALPHABET[a] == ALPHABET[b]
    ensures a == b
  {
    if a < b { Ascending(a, b); }
    if b < a { Ascending(b, a); }
  }

  lemma {:induction false} Ascending(a: nat, b: nat)
    requires a < b < 32
    ensures ALPHABET[a] < ALPHABET[b]
    decreases b
  {
    if a < b - 1 { Ascending(a, b - 1); }
  }

  function Preimage(v: nat, k: nat): seq<nat> { Digits(v * 16 + k, RANDOM_BYTES, 256) }

  /** The first `n` of the byte strings whose number, without its last four bits, is `v`. */
  function Preimages(v: nat, n: nat): set<seq<nat>> {
    if n == 0 then {} else Preimages(v, n - 1) + {Preimage(v, n - 1)}
  }

  lemma SameDigits(x: nat, y: nat, k: nat)
    requires x < Power(32, k) && y < Power(32, k)
    requires Letters(Digits(x, k, 32)) == Letters(Digits(y, k, 32))
    ensures x == y
  {
    LettersDetermineDigits(Digits(x, k, 32), Digits(y, k, 32));
    ValueOfDigits(x, k, 32);
    ValueOfDigits(y, k, 32);
  }

  lemma PayloadDeterminesNumber(a: seq<nat>, b: seq<nat>)
    requires RandomBytes(a) && RandomBytes(b)
    ensures Payload(a) == Payload(b) <==> Value(a, 256) / 16 == Value(b, 256) / 16
  {
    if Payload(a) == Payload(b) {
      FitsInDigits(a);
      FitsInDigits(b);
      SameDigits(Value(a, 256) / 16, Value(b, 256) / 16, 8 * |a| / 5);
    }
  }

  lemma FitsInDigits(bytes: seq<nat>)
    requires RandomBytes(bytes)
    ensures Value(bytes, 256) / 16 < Power(32, 8 * |bytes| / 5)
  {
    FitsInPayload(bytes);
  }

  lemma {:induction false} PowerOfPower(k: nat, b: nat, base: nat)
    requires base == Power(2, b)
    ensures Power(base, k) == Power(2, b * k)
  {
    if k > 0 {
      PowerOfPower(k - 1, b, base);
      PowerSplits(b * (k - 1), b);
      assert b * (k - 1) + b == b * k;
    }
  }

  lemma FitsInPayload(bytes: seq<nat>)
    requires RandomBytes(bytes)
    ensures Value(bytes, 256) / 16 < Power(32, CODE_SYMBOLS)
    ensures Power(256, RANDOM_BYTES) == Power(32, CODE_SYMBOLS) * 16
  {
    ValueBelow(bytes, 256);
    Powers(8);
    Powers(5);
    Powers(4);
    PowerOfPower(RANDOM_BYTES, 8, 256);
    PowerOfPower(CODE_SYMBOLS, 5, 32);
    PowerSplits(100, 4);
  }

  lemma PreimageValue(v: nat, k: nat)
    requires k < 16 && v * 16 + 16 <= Power(256, RANDOM_BYTES)
    ensures Value(Preimage(v, k), 256) == v * 16 + k && RandomBytes(Preimage(v, k))
  {
    NumberOfBytes(v * 16 + k);
  }

  lemma NumberOfBytes(n: nat)
    requires n < Power(256, RANDOM_BYTES)
    ensures Value(Digits(n, RANDOM_BYTES, 256), 256) == n && RandomBytes(Digits(n, RANDOM_BYTES, 256))
  {
    ValueOfDigits(n, RANDOM_BYTES, 256);
  }

  lemma {:induction false} CountPreimages(v: nat, n: nat)
    requires n <= 16 && v * 16 + 16 <= Power(256, RANDOM_BYTES)
    ensures |Preimages(v, n)| == n
    ensures forall b | b in Preimages(v, n) :: RandomBytes(b) && v * 16 <= Value(b, 256) < v * 16 + n
    decreases n
  {
    if n > 0 {
      CountPreimages(v, n - 1);
      PreimageValue(v, n - 1);
    }
  }

  lemma {:induction false} PreimageIn(v: nat, n: nat, k: nat)
    requires k < n
    ensures Preimage(v, k) in Preimages(v, n)
    decreases n
  {
    if k < n - 1 { PreimageIn(v, n - 1, k); }
  }

  lemma IsPreimage(bytes: seq<nat>)
    requires RandomBytes(bytes)
    ensures bytes in Preimages(Value(bytes, 256) / 16, 16)
  {
    DigitsOfValue(bytes, 256);
    IsPreimageOf(Value(bytes, 256));
  }

  lemma IsPreimageOf(n: nat)
    ensures Digits(n, RANDOM_BYTES, 256) in Preimages(n / 16, 16)
  {
    SplitSixteen(n);
    PreimageIn(n / 16, 16, n % 16);
  }

  lemma SplitSixteen(n: nat)
    ensures n / 16 * 16 + n % 16 == n
  {
  }

  /** Every payload comes from exactly sixteen byte strings, so all payloads are equally likely. */
  lemma SixteenPreimages(bytes: seq<nat>, other: seq<nat>)
    requires RandomBytes(bytes) && RandomBytes(other)
    ensures Payload(other) == Payload(bytes) <==> other in Preimages(Value(bytes, 256) / 16, 16)
    ensures |Preimages(Value(bytes, 256) / 16, 16)| == 16
    ensures forall b | b in Preimages(Value(bytes, 256) / 16, 16) :: RandomBytes(b)
  {
    var v := Value(bytes, 256) / 16;
    PayloadDeterminesNumber(other, bytes);
    FitsInPayload(bytes);
    CountPreimages(v, 16);
    if Value(other, 256) / 16 == v { IsPreimage(other); }
  }

  // ---------------------------------------------------------------- the printed form

  /** match(/.{5}/g): a shorter rest is not a group. */
  function Groups(payload: string): seq<string> {
    if |payload| < 5 then [] else [payload[..5]] + Groups(payload[5..])
  }

  function Join(groups: seq<string>): string {
    if groups == [] then "" else if |groups| == 1 then groups[0] else groups[0] + "-" + Join(groups[1..])
  }

  function FormatCode(payload: string): string { "SC-" + Join(Groups(payload)) }

  function RemoveDashes(s: string): string {
    if s == "" then "" else Kept(s[0]) + RemoveDashes(s[1..])
  }

  function Kept(c: char): string { if c == '-' then "" else [c] }

  lemma {:induction false} RemoveDashesJoins(a: string, b: string)
    ensures RemoveDashes(a + b) == RemoveDashes(a) + RemoveDashes(b)
  {
    if a == "" {
      assert a + b == b;
    } else {
      RemoveDashesJoins(a[1..], b);
      var ab := a + b;
      assert ab[1..] == a[1..] + b;
      Regroup(Kept(a[0]), RemoveDashes(a[1..]), RemoveDashes(b));
    }
  }

  lemma Regroup(x: string, y: string, z: string)
    ensures x + (y + z) == x + y + z
  {
  }

  lemma {:induction false} NothingToRemove(s: string)
    requires '-' !in s
    ensures RemoveDashes(s) == s
  {
    if s != "" {
      NothingToRemove(s[1..]);
      assert [s[0]] + s[1..] == s;
    }
  }

  lemma {:induction false} JoinKeepsSymbols(payload: string)
    requires '-' !in payload
    ensures RemoveDashes(Join(Groups(payload))) == payload[..|payload| - |payload| % 5]
  {
    if |payload| >= 5 {
      var first, rest := payload[..5], payload[5..];
      JoinKeepsSymbols(rest);
      NothingToRemove(first);
      assert Groups(payload)[1..] == Groups(rest);
      assert payload[..|payload| - |payload| % 5] == first + rest[..|rest| - |rest| % 5];
      if |rest| >= 5 {
        RemoveDashesJoins(first + "-", Join(Groups(rest)));
        RemoveDashesJoins(first, "-");
        assert RemoveDashes("-") == "";
        assert first + "-" + Join(Groups(rest)) == (first + "-") + Join(Groups(rest));
      }
    }
  }

  /** Removing the dashes of a printed code gives its payload back, for whole groups of five. */
  lemma FormatIsUndone(payload: string)
    requires '-' !in payload
    ensures RemoveDashes(FormatCode(payload)) == "SC" + payload <==> |payload| % 5 == 0
  {
    JoinKeepsSymbols(payload);
    RemoveDashesJoins("SC-", Join(Groups(payload)));
    PrefixKept();
    assert |RemoveDashes(FormatCode(payload))| == 2 + |payload| - |payload| % 5;
  }

  lemma PrefixKept()
    ensures RemoveDashes("SC-") == "SC"
  {
    assert "SC-"[1..] == "C-" && "C-"[1..] == "-" && "-"[1..] == "";
  }

  predicate InClass(c: char) {
    '2' <= c <= '9' || 'A' <= c <= 'H' || 'J' <= c <= 'N' || 'P' <= c <= 'Z'
  }

  predicate AllInClass(s: string) { forall k | 0 <= k < |s| :: InClass(s[k]) }

  /** CASHIER_RECOVERY_CODE_PATTERN */
  predicate Matches(code: string) {
    && |code| == 26 && code[..3] == "SC-" && code[8] == code[14] == code[20] == '-'
    && AllInClass(code[3..8]) && AllInClass(code[9..14]) && AllInClass(code[15..20]) && AllInClass(code[21..])
  }

  lemma FourGroups(a: string, b: string, c: string, d: string)
    requires |a| == |b| == |c| == |d| == 5
    ensures FormatCode(a + b + c + d) == "SC-" + a + "-" + b + "-" + c + "-" + d
  {
    var payload := a + b + c + d;
    assert payload[..5] == a && payload[5..] == b + c + d;
    assert (b + c + d)[..5] == b && (b + c + d)[5..] == c + d;
    assert (c + d)[..5] == c && (c + d)[5..] == d;
    assert d[..5] == d && d[5..] == "";
    assert Groups(d) == [d];
    assert Groups(c + d) == [c, d];
    assert Groups(b + c + d) == [b, c, d];
    assert Groups(payload) == [a, b, c, d];
    assert [a, b, c, d][1..] == [b, c, d] && [b, c, d][1..] == [c, d] && [c, d][1..] == [d];
    assert Join([c, d]) == c + "-" + d;
    assert Join([b, c, d]) == b + "-" + (c + "-" + d);
    assert Join([a, b, c, d]) == a + "-" + (b + "-" + (c + "-" + d));
  }

  /** The pattern accepts exactly the printed forms of payloads of twenty symbols. */
  lemma PatternAcceptsPrintedCodes(payload: string)
    requires |payload| == CODE_SYMBOLS && AllInClass(payload)
    ensures Matches(FormatCode(payload))
  {
    var (a, b, c, d) := (payload[..5], payload[5..10], payload[10..15], payload[15..]);
    assert payload == a + b + c + d;
    FourGroups(a, b, c, d);
    var code := FormatCode(payload);
    assert code[3..8] == a && code[9..14] == b && code[15..20] == c && code[21..] == d;
  }

  lemma PatternAcceptsNothingElse(code: string)
    requires Matches(code)
    ensures var payload := code[3..8] + code[9..14] + code[15..20] + code[21..];
            |payload| == CODE_SYMBOLS && AllInClass(payload) && code == FormatCode(payload)
  {
    FourGroups(code[3..8], code[9..14], code[15..20], code[21..]);
    assert code == code[..3] + code[3..8] + [code[8]] + code[9..14] + [code[14]] + code[15..20] + [code[20]] + code[21..];
  }

  lemma SymbolsInClass(k: nat)
    requires k < 32
    ensures InClass(ALPHABET[k])
  {
  }

  /** What is issued is what the reset form accepts. */
  lemma IssuedCodesMatch(bytes: seq<nat>)
    requires RandomBytes(bytes)
    ensures Matches(FormatCode(Payload(bytes)))
  {
    var ds := Digits(Value(bytes, 256) / 16, CODE_SYMBOLS, 32);
    forall k | 0 <= k < |ds| ensures InClass(Letters(ds)[k]) { SymbolsInClass(ds[k]); }
    PatternAcceptsPrintedCodes(Payload(bytes));
  }
}
