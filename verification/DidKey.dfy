/** did:key identifiers for ed25519 keys: base58btc text of the multicodec prefix followed by the key. */
module DidKey {
  import opened Radix
  import opened Sequences
  import opened Types

  type Byte = x: nat | x < 256

  /** The base58btc alphabet, in runs of consecutive characters: digits and letters without 0, I, O and l. */
  const ALPHABET: string := "123456789" + "ABCDEFGH" + "JKLMN" + "PQRSTUVWXYZ" + "abcdefghijk" + "mnopqrstuvwxyz"

  const CODEC: seq<Byte> := [0xed, 0x01]
  const SCHEME: string := "did:key:"
  const KEY_SIZE := 32

  datatype DidError = NotDidKey | NotBase58Btc | BadCharacter | TooShort | WrongCodec | WrongLength
  datatype Result<T> = Ok(value: T) | Err(error: DidError)

  // ---- The alphabet names each digit once ----

  function Code(d: nat): int {
    if d < 9 then '1' as int + d
    else if d < 17 then 'A' as int + d - 9
    else if d < 22 then 'J' as int + d - 17
    else if d < 33 then 'P' as int + d - 22
    else if d < 44 then 'a' as int + d - 33
    else 'm' as int + d - 44
  }

  lemma LowDigit(d: nat)
    requires d < 22
    ensures |ALPHABET| == 58 && ALPHABET[d] as int == Code(d)
  {
    if d < 9 {
    } else if d < 17 {
      assert ALPHABET[d] == "ABCDEFGH"[d - 9];
    } else {
      assert ALPHABET[d] == "JKLMN"[d - 17];
    }
  }

  lemma HighDigit(d: nat)
    requires 22 <= d < 58
    ensures |ALPHABET| == 58 && ALPHABET[d] as int == Code(d)
  {
    if d < 33 {
      assert ALPHABET[d] == "PQRSTUVWXYZ"[d - 22];
    } else if d < 44 {
      assert ALPHABET[d] == "abcdefghijk"[d - 33];
    } else {
      assert ALPHABET[d] == "mnopqrstuvwxyz"[d - 44];
    }
  }

  /** The alphabet has 58 characters and lists them in increasing order, so no character stands for two digits. */
  lemma AlphabetIncreases(d: nat, e: nat)
    requires d < e < 58
    ensures |ALPHABET| == 58 && ALPHABET[d] < ALPHABET[e]
  {
    hide ALPHABET;
    if d < 22 { LowDigit(d); } else { HighDigit(d); }
    if e < 22 { LowDigit(e); } else { HighDigit(e); }
  }

  function IndexByte(s: string, c: char): (i: int)
    ensures -1 <= i < |s|
    ensures i >= 0 ==> s[i] == c && c !in s[..i]
    ensures i < 0 ==> c !in s
  {
    if s == [] then -1
    else if s[0] == c then 0
    else
      var rest := IndexByte(s[1..], c);
      assert rest >= 0 ==> s[..rest + 1] == [s[0]] + s[1..][..rest];
      if rest < 0 then -1 else rest + 1
  }

  function Digit(c: char): (d: int)
    ensures -1 <= d < 58
  {
    LowDigit(0);
    IndexByte(ALPHABET, c)
  }

  function Letter(d: nat): char
    requires d < 58
  {
    LowDigit(0);
    ALPHABET[d]
  }

  lemma DigitOfLetter(d: nat)
    requires d < 58
    ensures Digit(Letter(d)) == d
  {
    hide ALPHABET;
    var i := Digit(Letter(d));
    LowDigit(0);
    if 0 <= i < d { AlphabetIncreases(i, d); }
  }

  lemma LetterOfDigit(c: char)
    requires Digit(c) >= 0
    ensures Letter(Digit(c)) == c
  {
    LowDigit(0);
  }

  // ---- What encoding and decoding mean ----

  function Text(ds: seq<nat>): (s: string)
    requires Digits(58, ds)
    ensures |s| == |ds|
  {
    seq(|ds|, i requires 0 <= i < |ds| => Letter(ds[i]))
  }

  predicate Legible(s: string) {
    forall i :: 0 <= i < |s| ==> Digit(s[i]) >= 0
  }

  function Reading(s: string): (ds: seq<nat>)
    requires Legible(s)
    ensures |ds| == |s| && Digits(58, ds)
  {
    seq(|s|, i requires 0 <= i < |s| => Digit(s[i]))
  }

  lemma ReadingOfText(ds: seq<nat>)
    requires Digits(58, ds)
    ensures Legible(Text(ds)) && Reading(Text(ds)) == ds
  {
    forall i | 0 <= i < |ds| ensures Digit(Text(ds)[i]) == ds[i] {
      DigitOfLetter(ds[i]);
    }
  }

  lemma TextOfReading(s: string)
    requires Legible(s)
    ensures Text(Reading(s)) == s
  {
    forall i | 0 <= i < |s| ensures Text(Reading(s))[i] == s[i] {
      LetterOfDigit(s[i]);
    }
  }

  /** A digit string in another base: the same number behind the same count of leading zeros. */
  function Rebased(from: nat, to: nat, ds: seq<nat>): (r: seq<nat>)
    requires to >= 2
    ensures Digits(to, r)
  {
    ExpandIsDigits(to, Value(from, ds));
    Zeros(LeadingZeros(ds)) + Expand(to, Value(from, ds))
  }

  lemma RebasedBack(from: nat, to: nat, ds: seq<nat>)
    requires from >= 2 && to >= 2 && Digits(from, ds)
    ensures Rebased(to, from, Rebased(from, to, ds)) == ds
  {
    var z, n := LeadingZeros(ds), Value(from, ds);
    var there := Expand(to, n);
    ExpandIsDigits(to, n);
    ExpandOfValue(from, ds);
    if z == |ds| { ValueOfZeros(from, z, []); assert ds == Zeros(z) + []; assert n == 0; }
    if n == 0 { ExpandIsDigits(from, n); }
    LeadingZerosUnique(Zeros(z) + there, z);
    ValueOfZeros(to, z, there);
    ValueOfExpand(to, n);
    assert ds == Zeros(z) + ds[z..];
  }

  function Encode(bytes: seq<Byte>): string {
    Text(Rebased(256, 58, bytes))
  }

  function Decode(s: string): Option<seq<Byte>> {
    if Legible(s) then Some(Rebased(58, 256, Reading(s))) else None
  }

  /** Decoding undoes encoding on every byte string, leading zero bytes included. */
  lemma DecodeEncode(bytes: seq<Byte>)
    ensures Decode(Encode(bytes)) == Some(bytes)
  {
    ReadingOfText(Rebased(256, 58, bytes));
    RebasedBack(256, 58, bytes);
  }

  /** Encoding undoes decoding on every string over the alphabet, and no other string decodes. */
  lemma EncodeDecode(s: string)
    ensures Decode(s).Some? <==> forall i :: 0 <= i < |s| ==> s[i] in ALPHABET
    ensures Decode(s).Some? ==> Encode(Decode(s).value) == s
  {
    if Legible(s) {
      RebasedBack(58, 256, Reading(s));
      TextOfReading(s);
    }
  }

  // ---- The loops ----

  method Reverse(s: string) returns (out: string)
    ensures out == Reversed(s)
  {
    out := s;
    var i, j := 0, |s| - 1;
    while i < j
      invariant |out| == |s| && j == |s| - 1 - i && 0 <= i <= |s| && i <= j + 2
      invariant forall k :: 0 <= k < i || j < k < |s| ==> out[k] == s[|s| - 1 - k]
      invariant forall k :: i <= k <= j ==> out[k] == s[k]
    {
      out := out[i := out[j]][j := out[i]];
      i, j := i + 1, j - 1;
    }
  }

  method CountLeading<T(==)>(s: seq<T>, zero: T) returns (zeros: nat)
    ensures zeros <= |s| && (forall i :: 0 <= i < zeros ==> s[i] == zero) && (zeros < |s| ==> s[zeros] != zero)
  {
    zeros := 0;
    while zeros < |s| && s[zeros] == zero
      invariant zeros <= |s|
      invariant forall i :: 0 <= i < zeros ==> s[i] == zero
    {
      zeros := zeros + 1;
    }
  }

  lemma TextConcat(a: seq<nat>, b: seq<nat>)
    requires Digits(58, a) && Digits(58, b)
    ensures Digits(58, a + b) && Text(a + b) == Text(a) + Text(b)
  {
  }

  /** One turn of the division loop takes the last digit off the number. */
  lemma DivisionTurn(x: nat, out: string, n: nat)
    requires x > 0
    requires Digits(58, Expand(58, x)) && Digits(58, Expand(58, n))
    requires Text(Expand(58, n)) == Text(Expand(58, x)) + Reversed(out)
    ensures Digits(58, Expand(58, x / 58))
    ensures Text(Expand(58, n)) == Text(Expand(58, x / 58)) + Reversed(out + [Letter(x % 58)])
  {
    ExpandIsDigits(58, x / 58);
    TextConcat(Expand(58, x / 58), [x % 58]);
    assert Text([x % 58]) == [Letter(x % 58)];
    assert Reversed(out + [Letter(x % 58)]) == [Letter(x % 58)] + Reversed(out);
  }

  /** The digits come out of the division last first and are then reversed by swapping. */
  method Base58Encode(input: seq<Byte>) returns (s: string)
    ensures s == Encode(input)
  {
    var zeros := CountLeading(input, 0);
    LeadingZerosUnique(input, zeros);
    ghost var n := Value(256, input);
    var x: nat := Value(256, input);
    var out: string := [];
    ExpandIsDigits(58, n);
    while x > 0
      invariant Digits(58, Expand(58, x))
      invariant Text(Expand(58, n)) == Text(Expand(58, x)) + Reversed(out)
    {
      DivisionTurn(x, out, n);
      var mod := x % 58;
      x := x / 58;
      out := out + [Letter(mod)];
    }
    assert Text(Expand(58, n)) == Reversed(out);
    out := Reverse(out);
    var prefix := seq(zeros, _ => Letter(0));
    assert prefix == Text(Zeros(zeros));
    TextConcat(Zeros(zeros), Expand(58, n));
    s := prefix + out;
  }

  lemma ReadingPrefix(s: string, i: nat)
    requires i < |s| && Legible(s[..i]) && Digit(s[i]) >= 0
    ensures Legible(s[..i + 1]) && Reading(s[..i + 1]) == Reading(s[..i]) + [Digit(s[i]) as nat]
  {
  }

  method Base58Decode(s: string) returns (r: Option<seq<Byte>>)
    ensures r == Decode(s)
  {
    hide ALPHABET, Letter, Expand;
    var zeros := CountLeading(s, Letter(0));
    var x: nat := 0;
    var i := 0;
    while i < |s|
      invariant i <= |s| && Legible(s[..i])
      invariant x == Value(58, Reading(s[..i]))
    {
      var idx := Digit(s[i]);
      if idx < 0 {
        return None;
      }
      ReadingPrefix(s, i);
      ValueAppend(58, Reading(s[..i]), idx);
      x := x * 58;
      x := x + idx;
      i := i + 1;
    }
    assert s[..i] == s;
    DigitOfLetter(0);
    if zeros < |s| { LetterOfDigit(s[zeros]); }
    LeadingZerosUnique(Reading(s), zeros);
    ExpandIsDigits(256, x);
    var body: seq<Byte> := Expand(256, x);
    var out := PaddedCopy(zeros, body);
    return Some(out[..]);
  }

  /** A zeroed buffer with the body copied to its end. */
  method PaddedCopy(zeros: nat, body: seq<Byte>) returns (out: array<Byte>)
    ensures fresh(out) && out[..] == Zeros(zeros) + body
  {
    out := new Byte[zeros + |body|](_ => 0);
    forall k | 0 <= k < |body| {
      out[zeros + k] := body[k];
    }
  }

  // ---- Keys and identifiers ----

  function KeyDid(pub: seq<Byte>): string {
    SCHEME + "z" + Encode(CODEC + pub)
  }

  function PublicKey(did: string): Result<seq<Byte>> {
    if !(SCHEME <= did) then Err(NotDidKey)
    else
      var body := did[|SCHEME|..];
      if body == "" || body[0] != 'z' then Err(NotBase58Btc)
      else
        var raw := Decode(body[1..]);
        if raw.None? then Err(BadCharacter)
        else if |raw.value| < |CODEC| + KEY_SIZE then Err(TooShort)
        else if raw.value[..|CODEC|] != CODEC then Err(WrongCodec)
        else if |raw.value| != |CODEC| + KEY_SIZE then Err(WrongLength)
        else Ok(raw.value[|CODEC|..])
  }

  method NewDid(pub: seq<Byte>) returns (did: string)
    ensures did == KeyDid(pub)
  {
    var text := Base58Encode(CODEC + pub);
    did := SCHEME + "z" + text;
  }

  lemma CodecDiffers(raw: seq<Byte>, i: nat)
    requires |raw| >= |CODEC| && i < |CODEC| && raw[i] != CODEC[i]
    ensures raw[..|CODEC|] != CODEC
  {
    assert raw[..|CODEC|][i] == raw[i];
  }

  lemma CodecAgrees(raw: seq<Byte>)
    requires |raw| >= |CODEC| && raw[..|CODEC|] == CODEC[..|CODEC|]
    ensures raw[..|CODEC|] == CODEC
  {
  }

  method DecodePublicKey(did: string) returns (r: Result<seq<Byte>>)
    ensures r == PublicKey(did)
  {
    hide Decode, ALPHABET;
    if !(SCHEME <= did) {
      return Err(NotDidKey);
    }
    var body := did[|SCHEME|..];
    if |body| == 0 || body[0] != 'z' {
      return Err(NotBase58Btc);
    }
    var decoded := Base58Decode(body[1..]);
    if decoded.None? {
      return Err(BadCharacter);
    }
    var raw := decoded.value;
    if |raw| < |CODEC| + KEY_SIZE {
      return Err(TooShort);
    }
    for i := 0 to |CODEC|
      invariant raw[..i] == CODEC[..i]
    {
      if raw[i] != CODEC[i] {
        CodecDiffers(raw, i);
        return Err(WrongCodec);
      }
    }
    CodecAgrees(raw);
    var pub := raw[|CODEC|..];
    if |pub| != KEY_SIZE {
      return Err(WrongLength);
    }
    return Ok(pub);
  }

  /** An identifier yields a key exactly when it is the identifier made from that key, so the two correspond one to one. */
  lemma DecodesExactlyKeyDids(did: string, pub: seq<Byte>)
    ensures PublicKey(did) == Ok(pub) <==> |pub| == 32 && did == KeyDid(pub)
  {
    hide ALPHABET, Encode, Decode;
    if PublicKey(did) == Ok(pub) {
      var text := did[|SCHEME| + 1..];
      assert did[|SCHEME|..][1..] == text;
      EncodeDecode(text);
      assert Decode(text).value == CODEC + pub;
      assert did == SCHEME + "z" + text;
    }
    if |pub| == KEY_SIZE && did == KeyDid(pub) {
      DecodeEncode(CODEC + pub);
      assert did[|SCHEME|..][1..] == Encode(CODEC + pub);
      assert (CODEC + pub)[..|CODEC|] == CODEC;
      assert (CODEC + pub)[|CODEC|..] == pub;
    }
  }

  /** A digit or a letter, but not 0, I, O or l. */
  predicate Base58(ch: char) {
    '1' <= ch <= '9' || ('A' <= ch <= 'Z' && ch != 'I' && ch != 'O') || ('a' <= ch <= 'z' && ch != 'l')
  }

  /** The bytes of a key are those behind 0xed and 0x01, and there are 32 of them. */
  predicate Unpacked(raw: seq<Byte>, r: Result<seq<Byte>>) {
    if |raw| < 34 then r == Err(TooShort)
    else if raw[0] != 0xed || raw[1] != 0x01 then r == Err(WrongCodec)
    else if |raw| > 34 then r == Err(WrongLength)
    else r == Ok(raw[2..])
  }

  /** Why an identifier yields no key: the wrong scheme, the wrong base, a character that base58 lacks, too few bytes, another
      codec, or too many bytes, in this order. */
  lemma WhyRejected(did: string)
    ensures var r := PublicKey(did);
      if !("did:key:" <= did) then r == Err(NotDidKey)
      else if |did| == 8 || did[8] != 'z' then r == Err(NotBase58Btc)
      else if exists i :: 9 <= i < |did| && !Base58(did[i]) then r == Err(BadCharacter)
      else exists raw: seq<Byte> :: Encode(raw) == did[9..] && Unpacked(raw, r)
  {
    hide ALPHABET, Encode, Decode;
    forall i | 9 <= i < |did| ensures did[i] in ALPHABET <==> Base58(did[i]) { AlphabetSpelled(did[i]); }
    if "did:key:" <= did && |did| > 8 {
      var text := did[9..];
      assert did[|SCHEME|..][1..] == text && did[|SCHEME|..][0] == did[8];
      EncodeDecode(text);
      assert forall i :: 9 <= i < |did| ==> did[i] == text[i - 9];
      assert forall i :: 0 <= i < |text| ==> text[i] == did[i + 9];
      if Decode(text).Some? {
        var raw := Decode(text).value;
        assert |raw| >= 2 ==> (raw[..2] == CODEC <==> raw[0] == 0xed && raw[1] == 0x01);
      }
    }
  }

  lemma AlphabetSpelled(ch: char)
    ensures ch in ALPHABET <==> Base58(ch)
  {
    hide ALPHABET;
    LowDigit(0);
    if Base58(ch) {
      var d := if ch <= '9' then ch as int - '1' as int
        else if ch <= 'H' then ch as int - 'A' as int + 9
        else if ch <= 'N' then ch as int - 'J' as int + 17
        else if ch <= 'Z' then ch as int - 'P' as int + 22
        else if ch <= 'k' then ch as int - 'a' as int + 33
        else ch as int - 'm' as int + 44;
      if d < 22 { LowDigit(d); } else { HighDigit(d); }
      assert ALPHABET[d] == ch;
    } else if ch in ALPHABET {
      var d: nat :| d < |ALPHABET| && ALPHABET[d] == ch;
      if d < 22 { LowDigit(d); } else { HighDigit(d); }
    }
  }

  lemma NextTurn(base: nat, q: nat, r: nat, p: nat)
    requires base >= 2
    ensures (q * p + r / base) * base + r % base == q * (base * p) + r
  {
    DivModSum(base, r);
    Regroup(q, p, base, r / base, r % base);
  }

  lemma DivBelow(base: nat, r: nat, p: nat)
    requires base >= 2 && r < base * p
    ensures r / base < p
  {
    DivModSum(base, r);
    if p <= r / base {
      if p < r / base { MulStrict(p, r / base, base); }
    }
  }

  /** The digits of a number begin with the digits of its leading part. */
  lemma {:induction false} LeadingDigits(base: nat, q: nat, r: nat, m: nat)
    requires base >= 2 && q > 0 && r < Power(base, m)
    ensures Expand(base, q) <= Expand(base, q * Power(base, m) + r)
    ensures |Expand(base, q * Power(base, m) + r)| == |Expand(base, q)| + m
  {
    if m == 0 {
      assert q * Power(base, m) + r == q;
    } else {
      var p := Power(base, m - 1);
      DivBelow(base, r, p);
      LeadingDigits(base, q, r / base, m - 1);
      NextTurn(base, q, r, p);
      hide Expand;
      var n := q * p + r / base;
      ExpandIsDigits(base, q);
      ExpandIsDigits(base, n);
      ValueStep(base, n, r % base);
      hide Power;
    }
  }

  lemma Expand18023()
    ensures Expand(58, 18023) == [5, 20, 43]
  {
    assert Expand(58, 5) == [5];
    assert Expand(58, 310) == [5, 20];
  }

  lemma CodecValue()
    ensures Value(256, CODEC) == 0xed01
  {
    assert CODEC[..1] == [0xed];
    assert CODEC[..1][..0] == [];
  }

  lemma PowersOf58()
    ensures Power(58, 44) == 389790918707373377135528568990913592653094657612049369038476873218241589149696
  {
    assert Power(58, 4) == 11316496;
    assert Power(58, 8) == 128063081718016;
    assert Power(58, 12) == 1449225352009601191936;
    assert Power(58, 16) == 16400152899115243850138976256;
    assert Power(58, 20) == 185592264682226060569122324245118976;
    assert Power(58, 24) == 2100254120907352485526230505830591911428096;
    assert Power(58, 28) == 23767517358231570773047645414309870043308402671616;
    assert Power(58, 32) == 268965015114358137726910587140455987105619365599731777536;
    assert Power(58, 36) == 3043741517681573408154032751732621616256793128331902261559033856;
    assert Power(58, 40) == 34444488709877454747081479018851205589883534409595458615323760395288576;
  }

  lemma PowersOf256()
    ensures Power(256, 32) == 115792089237316195423570985008687907853269984665640564039457584007913129639936
  {
    assert Power(256, 8) == 18446744073709551616;
    assert Power(256, 16) == 340282366920938463463374607431768211456;
    assert Power(256, 24) == 6277101735386680763835789423207666416102355444464034512896;
  }

  lemma CodecBounds()
    ensures 18023 * Power(58, 44) <= 0xed01 * Power(256, 32)
    ensures 0xed02 * Power(256, 32) <= 18024 * Power(58, 44)
  {
    PowersOf58();
    PowersOf256();
  }

  lemma SixMk()
    ensures Letter(5) == '6' && Letter(20) == 'M' && Letter(43) == 'k'
  {
    hide ALPHABET;
    LowDigit(5);
    LowDigit(20);
    HighDigit(43);
  }

  /** The payload lies between 18023 and 18024 times 58 to the 44th, so its digits begin with those of 18023. */
  lemma PayloadDigits(key: seq<Byte>)
    requires |key| == KEY_SIZE
    ensures [5, 20, 43] <= Rebased(256, 58, CODEC + key) && |Rebased(256, 58, CODEC + key)| == 47
  {
    var n, p := Value(256, CODEC + key), Power(58, 44);
    assert 18023 * p <= n < 18024 * p by {
      ValueConcat(256, CODEC, key);
      CodecValue();
      ValueBound(256, key);
      CodecBounds();
    }
    hide Power, Value;
    LeadingDigits(58, 18023, n - 18023 * p, 44);
    Expand18023();
    assert LeadingZeros(CODEC + key) == 0 by { LeadingZerosUnique(CODEC + key, 0); }
    assert Rebased(256, 58, CODEC + key) == Expand(58, n);
  }

  /** The prefix z6Mk is no literal of the program: the two codec bytes force it, whatever the 32 bytes of the key are. */
  lemma PrefixIsForced(key: seq<Byte>)
    requires |key| == KEY_SIZE
    ensures "did:key:z6Mk" <= KeyDid(key) && |KeyDid(key)| == 56
  {
    hide ALPHABET, Letter, Digit, Rebased;
    PayloadDigits(key);
    SixMk();
    var text := Encode(CODEC + key);
    assert Rebased(256, 58, CODEC + key)[..3] == [5, 20, 43];
    assert text[..3] == "6Mk";
    assert "did:key:z6Mk" == SCHEME + "z" + "6Mk";
  }
}
