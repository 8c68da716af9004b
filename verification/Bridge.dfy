/** What the Android bridge signs: canonical texts that no two different requests share, and the
    keyed digest over them.  Texts are byte strings here, one character for each byte. */
module Bridge {

  /* ----- Decimal numbers ----- */

  function Digit(d: nat): char
    requires d < 10
  {
    ('0' as int + d) as char
  }

  function DigitValue(c: char): nat {
    if '0' <= c <= '9' then c as int - '0' as int else 0
  }

  function DecimalNat(n: nat): string {
    if n < 10 then [Digit(n)] else DecimalNat(n / 10) + [Digit(n % 10)]
  }

  function Decimal(n: int): string {
    if n < 0 then ['-'] + DecimalNat(-n) else DecimalNat(n)
  }

  function ReadNat(s: string): nat {
    if s == [] then 0 else 10 * ReadNat(s[..|s| - 1]) + DigitValue(s[|s| - 1])
  }

  function ReadDecimal(s: string): int {
    if s != [] && s[0] == '-' then
      var magnitude: int := ReadNat(s[1..]);
      -magnitude
    else ReadNat(s)
  }

  predicate IsNumeric(c: char) {
    c == '-' || '0' <= c <= '9'
  }

  lemma {:induction false} NatReadsBack(n: nat)
    ensures ReadNat(DecimalNat(n)) == n
    ensures DecimalNat(n) != []
    ensures forall i :: 0 <= i < |DecimalNat(n)| ==> '0' <= DecimalNat(n)[i] <= '9'
  {
    if n < 10 {
      assert [Digit(n)][..0] == [];
    } else {
      NatReadsBack(n / 10);
      assert DecimalNat(n)[..|DecimalNat(n)| - 1] == DecimalNat(n / 10);
    }
  }

  /** A printed number reads back, and has no other characters than digits and a sign. */
  lemma NumberReadsBack(n: int)
    ensures ReadDecimal(Decimal(n)) == n
    ensures forall i :: 0 <= i < |Decimal(n)| ==> IsNumeric(Decimal(n)[i])
  {
    hide DecimalNat, ReadNat;
    if n < 0 {
      NatReadsBack(-n);
      assert Decimal(n)[1..] == DecimalNat(-n);
    } else {
      NatReadsBack(n);
    }
  }

  /* ----- Taking texts apart ----- */

  lemma SamePrefix(p: string, x: string, y: string)
    requires p + x == p + y
    ensures x == y
  {
    assert x == (p + x)[|p|..];
    assert y == (p + y)[|p|..];
  }

  /** A number ends where the text that follows it stops being numeric. */
  lemma NumberEnds(a: int, b: int, stop: string, x: string, y: string)
    requires stop != [] && !IsNumeric(stop[0])
    requires Decimal(a) + stop + x == Decimal(b) + stop + y
    ensures a == b && x == y
  {
    hide Decimal, ReadDecimal, IsNumeric;
    NumberReadsBack(a);
    NumberReadsBack(b);
    var da, db := Decimal(a), Decimal(b);
    var text := da + stop + x;
    assert text[|da|] == stop[0] && text[|db|] == stop[0];
    assert forall i :: 0 <= i < |da| ==> text[i] == da[i] && IsNumeric(text[i]);
    assert forall i :: 0 <= i < |db| ==> text[i] == db[i] && IsNumeric(text[i]);
    assert |da| == |db|;
    assert da == text[..|da|] && db == text[..|db|];
    SamePrefix(da + stop, x, y);
  }

  /** A field that is announced with its length ends after that many bytes, whatever they are. */
  function Sized(field: string): string {
    Decimal(|field|) + ":" + field
  }

  lemma SizedEnds(a: string, b: string, x: string, y: string)
    requires Sized(a) + x == Sized(b) + y
    ensures a == b && x == y
  {
    hide Decimal;
    assert Sized(a) + x == Decimal(|a|) + ":" + (a + x);
    assert Sized(b) + y == Decimal(|b|) + ":" + (b + y);
    NumberEnds(|a|, |b|, ":", a + x, b + y);
    assert a == (a + x)[..|a|] && b == (b + y)[..|b|];
    SamePrefix(a, x, y);
  }

  /* ----- The two canonical texts ----- */

  function CanonicalEnvelope(issuedAtMs: int, expiresAtMs: int, action: string): string {
    "dipecs.android.bridge.execute.v1\nissued_at_ms:" + (Decimal(issuedAtMs) +
    "\nexpires_at_ms:" + (Decimal(expiresAtMs) +
    "\naction:" + Sized(action)))
  }

  function CanonicalAction(issuedAtMs: int, expiresAtMs: int, actionType: string, target: string, urgency: string): string {
    "dipecs.android.action.v1\nissued_at_ms:" + (Decimal(issuedAtMs) +
    "\nexpires_at_ms:" + (Decimal(expiresAtMs) +
    "\naction_type:" + (Sized(actionType) +
    ("\ntarget:" + (Sized(target) +
    ("\nurgency:" + Sized(urgency)))))))
  }

  /** Different requests are signed over different texts. */
  lemma EnvelopesDiffer(i1: int, e1: int, a1: string, i2: int, e2: int, a2: string)
    requires CanonicalEnvelope(i1, e1, a1) == CanonicalEnvelope(i2, e2, a2)
    ensures i1 == i2 && e1 == e2 && a1 == a2
  {
    hide Decimal, Sized;
    var tail1, tail2 := Decimal(e1) + "\naction:" + Sized(a1), Decimal(e2) + "\naction:" + Sized(a2);
    SamePrefix("dipecs.android.bridge.execute.v1\nissued_at_ms:",
               Decimal(i1) + "\nexpires_at_ms:" + tail1, Decimal(i2) + "\nexpires_at_ms:" + tail2);
    NumberEnds(i1, i2, "\nexpires_at_ms:", tail1, tail2);
    NumberEnds(e1, e2, "\naction:", Sized(a1), Sized(a2));
    assert Sized(a1) + [] == Sized(a1) && Sized(a2) + [] == Sized(a2);
    SizedEnds(a1, a2, [], []);
  }

  /** Different actions are signed over different texts, whatever their fields contain. */
  lemma ActionsDiffer(i1: int, e1: int, type1: string, target1: string, urgency1: string,
                      i2: int, e2: int, type2: string, target2: string, urgency2: string)
    requires CanonicalAction(i1, e1, type1, target1, urgency1) == CanonicalAction(i2, e2, type2, target2, urgency2)
    ensures i1 == i2 && e1 == e2 && type1 == type2 && target1 == target2 && urgency1 == urgency2
  {
    hide Decimal, Sized;
    var u1, u2 := "\nurgency:" + Sized(urgency1), "\nurgency:" + Sized(urgency2);
    var t1, t2 := "\ntarget:" + (Sized(target1) + u1), "\ntarget:" + (Sized(target2) + u2);
    var e1', e2' := Decimal(e1) + "\naction_type:" + (Sized(type1) + t1), Decimal(e2) + "\naction_type:" + (Sized(type2) + t2);
    SamePrefix("dipecs.android.action.v1\nissued_at_ms:",
               Decimal(i1) + "\nexpires_at_ms:" + e1', Decimal(i2) + "\nexpires_at_ms:" + e2');
    NumberEnds(i1, i2, "\nexpires_at_ms:", e1', e2');
    NumberEnds(e1, e2, "\naction_type:", Sized(type1) + t1, Sized(type2) + t2);
    SizedEnds(type1, type2, t1, t2);
    SamePrefix("\ntarget:", Sized(target1) + u1, Sized(target2) + u2);
    SizedEnds(target1, target2, u1, u2);
    SamePrefix("\nurgency:", Sized(urgency1), Sized(urgency2));
    assert Sized(urgency1) + [] == Sized(urgency1) && Sized(urgency2) + [] == Sized(urgency2);
    SizedEnds(urgency1, urgency2, [], []);
  }

  /* ----- The keyed digest ----- */

  const BLOCK_SIZE := 64

  function Zeros(n: nat): (r: seq<bv8>)
    ensures |r| == n
  {
    seq(n, i => 0)
  }

  function Xor(a: bv8, b: bv8): bv8 {
    a ^ b
  }

  function XorEach(s: seq<bv8>, pad: bv8): (r: seq<bv8>)
    ensures |r| == |s|
  {
    seq(|s|, i requires 0 <= i < |s| => Xor(pad, s[i]))
  }

  /** The key filled up with zeros to a block; a key longer than a block is hashed first. */
  function PaddedKey(hash: seq<bv8> -> seq<bv8>, key: seq<bv8>): seq<bv8> {
    var k := if |key| > BLOCK_SIZE then hash(key) else key;
    if |k| <= BLOCK_SIZE then k + Zeros(BLOCK_SIZE - |k|) else k
  }

  /** The keyed-hash construction of section 2 of RFC 2104. */
  function KeyedHash(hash: seq<bv8> -> seq<bv8>, key: seq<bv8>, text: seq<bv8>): seq<bv8> {
    var k := PaddedKey(hash, key);
    hash(XorEach(k, 0x5c) + hash(XorEach(k, 0x36) + text))
  }

  /** The zeroed block with the key, or its hash, copied to the front. */
  method FillKeyBlock(hash: seq<bv8> -> seq<bv8>, key: seq<bv8>) returns (keyBlock: array<bv8>)
    requires forall s :: |hash(s)| == 32
    ensures fresh(keyBlock) && keyBlock.Length == BLOCK_SIZE
    ensures keyBlock[..] == PaddedKey(hash, key)
  {
    keyBlock := new bv8[BLOCK_SIZE](i => 0);
    var source := if |key| > BLOCK_SIZE then hash(key) else key;
    for index := 0 to |source|
      invariant keyBlock[..] == source[..index] + Zeros(BLOCK_SIZE - index)
    {
      keyBlock[index] := source[index];
    }
    assert source[..|source|] == source;
  }

  /** A block of one byte value, with a key folded in byte by byte. */
  method FoldKey(pad: bv8, keyBlock: array<bv8>) returns (keyPad: array<bv8>)
    requires keyBlock.Length == BLOCK_SIZE
    ensures fresh(keyPad) && keyPad[..] == XorEach(keyBlock[..], pad)
  {
    hide Xor;
    keyPad := new bv8[BLOCK_SIZE](i => pad);
    for index := 0 to BLOCK_SIZE
      invariant forall j :: 0 <= j < index ==> keyPad[j] == Xor(pad, keyBlock[j])
      invariant forall j :: index <= j < BLOCK_SIZE ==> keyPad[j] == pad
    {
      keyPad[index] := Xor(keyPad[index], keyBlock[index]);
    }
  }

  /** The hand-written digest: both pads are built in fixed arrays, then two passes of the hash. */
  method HmacDigest(hash: seq<bv8> -> seq<bv8>, key: seq<bv8>, message: seq<bv8>) returns (digest: seq<bv8>)
    requires forall s :: |hash(s)| == 32
    ensures digest == KeyedHash(hash, key, message)
  {
    hide PaddedKey, XorEach;
    var keyBlock := FillKeyBlock(hash, key);
    var outerKeyPad := FoldKey(0x5c, keyBlock);
    var innerKeyPad := FoldKey(0x36, keyBlock);
    var innerDigest := hash(innerKeyPad[..] + message);
    digest := hash(outerKeyPad[..] + innerDigest);
  }
}
