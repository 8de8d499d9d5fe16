/** AES key wrap (RFC 3394, sections 2.2.1 and 2.2.2) as the Play Integrity verifier unwraps it and its
    tests wrap it. The block cipher is any pair of mutually inverse functions on 16-byte blocks. */
module KeyWrap {
  import opened Wrappers

  type Octets = seq<bv8>
  type Half = h: Octets | |h| == 8 witness seq(8, i => 0)
  type Block = b: Octets | |b| == 16 witness seq(16, i => 0)

  datatype Cipher = Cipher(enc: Block -> Block, dec: Block -> Block)

  ghost predicate Inverse(c: Cipher) {
    && (forall b: Block :: c.dec(c.enc(b)) == b)
    && (forall b: Block :: c.enc(c.dec(b)) == b)
  }

  const IV: Half := [0xA6, 0xA6, 0xA6, 0xA6, 0xA6, 0xA6, 0xA6, 0xA6]

  /** The eight big-endian bytes of a 64-bit step counter. */
  function Counter(t: nat): Half {
    [(t / 0x100_0000_0000_0000 % 0x100) as bv8, (t / 0x1_0000_0000_0000 % 0x100) as bv8,
     (t / 0x100_0000_0000 % 0x100) as bv8, (t / 0x1_0000_0000 % 0x100) as bv8,
     (t / 0x100_0000 % 0x100) as bv8, (t / 0x1_0000 % 0x100) as bv8,
     (t / 0x100 % 0x100) as bv8, (t % 0x100) as bv8]
  }

  function Xor(a: Half, t: Half): (r: Half) {
    [a[0] ^ t[0], a[1] ^ t[1], a[2] ^ t[2], a[3] ^ t[3], a[4] ^ t[4], a[5] ^ t[5], a[6] ^ t[6], a[7] ^ t[7]]
  }

  lemma XorUndoes(a: Half, t: Half)
    ensures Xor(Xor(a, t), t) == a
  {
  }

  /** The number that base-256 digits spell, the first one most significant. */
  function Number(d: seq<nat>): nat { if d == [] then 0 else 0x100 * Number(d[..|d| - 1]) + d[|d| - 1] }

  lemma NumberSteps(d: seq<nat>)
    requires |d| == 8
    ensures Number(d) == 0x100 * (0x100 * (0x100 * (0x100 * (0x100 * (0x100 * (0x100 * d[0]
                         + d[1]) + d[2]) + d[3]) + d[4]) + d[5]) + d[6]) + d[7]
  {
    hide Number;
    NumberStep(d, 8);
    NumberStep(d, 7);
    NumberStep(d, 6);
    NumberStep(d, 5);
    NumberStep(d, 4);
    NumberStep(d, 3);
    NumberStep(d, 2);
    NumberStep(d, 1);
    assert d[..8] == d;
  }

  lemma NumberStep(d: seq<nat>, i: nat)
    requires 1 <= i <= |d|
    ensures Number(d[..i]) == 0x100 * Number(d[..i - 1]) + d[i - 1]
    ensures i == 1 ==> Number(d[..i - 1]) == 0
  {
    assert d[..i][..i - 1] == d[..i - 1];
  }

  /** The octets are the base-256 digits of the number, the most significant one first. */
  ghost predicate Spells(a: Half, t: nat) {
    exists d: seq<nat> :: Number(d) == t && IsOctets(a, d)
  }

  predicate IsOctets(a: Half, d: seq<nat>) {
    && |d| == 8 && (forall i :: 0 <= i < 8 ==> d[i] < 0x100)
    && a == [d[0] as bv8, d[1] as bv8, d[2] as bv8, d[3] as bv8, d[4] as bv8, d[5] as bv8, d[6] as bv8, d[7] as bv8]
  }

  /** The step counter goes out in network byte order. */
  lemma CounterCounts(t: nat)
    requires t < 0x1_0000_0000_0000_0000
    ensures Spells(Counter(t), t)
  {
    hide Number, Counter, IsOctets, Digits;
    DigitsCount(t);
    CounterDigits(t);
  }

  function Digits(t: nat): seq<nat> {
    [t / 0x100_0000_0000_0000 % 0x100, t / 0x1_0000_0000_0000 % 0x100, t / 0x100_0000_0000 % 0x100,
     t / 0x1_0000_0000 % 0x100, t / 0x100_0000 % 0x100, t / 0x1_0000 % 0x100, t / 0x100 % 0x100, t % 0x100]
  }

  lemma CounterDigits(t: nat)
    ensures IsOctets(Counter(t), Digits(t))
  {
  }

  lemma DigitsCount(t: nat)
    requires t < 0x1_0000_0000_0000_0000
    ensures Number(Digits(t)) == t
  {
    DivTwice(t);
    DivSixTimes(t);
    NumberSteps(Digits(t));
    hide Number;
    Horner(t, t / 0x100, t / 0x1_0000, t / 0x100_0000, t / 0x1_0000_0000, t / 0x100_0000_0000,
           t / 0x1_0000_0000_0000, t / 0x100_0000_0000_0000);
  }

  lemma DivTwice(t: nat)
    ensures t / 0x100 / 0x100 == t / 0x1_0000 && t / 0x1_0000 / 0x100 == t / 0x100_0000
    ensures t / 0x100_0000 / 0x100 == t / 0x1_0000_0000
  {
  }

  lemma DivSixTimes(t: nat)
    ensures t / 0x1_0000_0000 / 0x100 == t / 0x100_0000_0000
    ensures t / 0x100_0000_0000 / 0x100 == t / 0x1_0000_0000_0000
    ensures t / 0x1_0000_0000_0000 / 0x100 == t / 0x100_0000_0000_0000
  {
  }

  lemma Horner(b0: nat, b1: nat, b2: nat, b3: nat, b4: nat, b5: nat, b6: nat, b7: nat)
    requires b1 == b0 / 0x100 && b2 == b1 / 0x100 && b3 == b2 / 0x100 && b4 == b3 / 0x100
    requires b5 == b4 / 0x100 && b6 == b5 / 0x100 && b7 == b6 / 0x100 && b7 < 0x100
    ensures b0 == 0x100 * (0x100 * (0x100 * (0x100 * (0x100 * (0x100 * (0x100 * (b7 % 0x100) + b6 % 0x100) + b5 % 0x100)
                       + b4 % 0x100) + b3 % 0x100) + b2 % 0x100) + b1 % 0x100) + b0 % 0x100
  {
  }

  // ---------- The steps of RFC 3394 ----------

  /** The integrity register and the n data registers. */
  datatype Regs = Regs(a: Half, r: seq<Half>)

  /** Step t, counted from 1 to 6n, works on data register (t - 1) mod n. */
  function Slot(t: nat, n: nat): (i: nat)
    requires t > 0 && n > 0
    ensures i < n
  {
    (t - 1) % n
  }

  function WrapStep(c: Cipher, s: Regs, t: nat): (s': Regs)
    requires t > 0 && |s.r| > 0
    ensures |s'.r| == |s.r|
  {
    var i := Slot(t, |s.r|);
    var b := c.enc(s.a + s.r[i]);
    Regs(Xor(b[..8], Counter(t)), s.r[i := b[8..]])
  }

  function UnwrapStep(c: Cipher, s: Regs, t: nat): (s': Regs)
    requires t > 0 && |s.r| > 0
    ensures |s'.r| == |s.r|
  {
    var i := Slot(t, |s.r|);
    var b := c.dec(Xor(s.a, Counter(t)) + s.r[i]);
    Regs(b[..8], s.r[i := b[8..]])
  }

  /** The first t wrapping steps. */
  function WrapSteps(c: Cipher, s: Regs, t: nat): (s': Regs)
    requires |s.r| > 0
    ensures |s'.r| == |s.r|
  {
    if t == 0 then s else WrapStep(c, WrapSteps(c, s, t - 1), t)
  }

  /** Unwrapping steps t, t - 1, ..., 1. */
  function UnwrapSteps(c: Cipher, s: Regs, t: nat): (s': Regs)
    requires |s.r| > 0
    ensures |s'.r| == |s.r|
    decreases t
  {
    if t == 0 then s else UnwrapSteps(c, UnwrapStep(c, s, t), t - 1)
  }

  function Words(b: Octets): (r: seq<Half>)
    requires |b| % 8 == 0
    ensures |r| == |b| / 8
  {
    if b == [] then [] else [b[..8]] + Words(b[8..])
  }

  function Concat(r: seq<Half>): (b: Octets)
    ensures |b| == 8 * |r|
  {
    if r == [] then [] else r[0] + Concat(r[1..])
  }

  function Wrap(c: Cipher, key: Octets): Result<Octets> {
    if |key| % 8 != 0 then Err
    else if key == [] then Ok(IV)
    else
      var s := WrapSteps(c, Regs(IV, Words(key)), 6 * |Words(key)|);
      Ok(s.a + Concat(s.r))
  }

  function Unwrap(c: Cipher, wrapped: Octets): Result<Octets> {
    if |wrapped| < 16 || |wrapped| % 8 != 0 then Err
    else
      var r := Words(wrapped[8..]);
      var s := UnwrapSteps(c, Regs(wrapped[..8], r), 6 * |r|);
      if s.a == IV then Ok(Concat(s.r)) else Err
  }

  // ---------- The two are inverse ----------

  lemma StepUndone(c: Cipher, s: Regs, t: nat)
    requires Inverse(c) && t > 0 && |s.r| > 0
    ensures UnwrapStep(c, WrapStep(c, s, t), t) == s
  {
    var i := Slot(t, |s.r|);
    var b: Block := c.enc(s.a + s.r[i]);
    XorUndoes(b[..8], Counter(t));
    assert b[..8] + b[8..] == b;
    assert (s.a + s.r[i])[..8] == s.a && (s.a + s.r[i])[8..] == s.r[i];
    assert s.r[i := b[8..]][i := s.r[i]] == s.r;
  }

  lemma StepRedone(c: Cipher, s: Regs, t: nat)
    requires Inverse(c) && t > 0 && |s.r| > 0
    ensures WrapStep(c, UnwrapStep(c, s, t), t) == s
  {
    var i := Slot(t, |s.r|);
    var x: Octets := Xor(s.a, Counter(t));
    var b: Block := c.dec(x + s.r[i]);
    XorUndoes(s.a, Counter(t));
    assert b[..8] + b[8..] == b;
    assert (x + s.r[i])[..8] == x && (x + s.r[i])[8..] == s.r[i];
    assert s.r[i := b[8..]][i := s.r[i]] == s.r;
  }

  lemma {:induction false} StepsUndone(c: Cipher, s: Regs, t: nat)
    requires Inverse(c) && |s.r| > 0
    ensures UnwrapSteps(c, WrapSteps(c, s, t), t) == s
  {
    hide WrapStep, UnwrapStep;
    if t > 0 {
      StepUndone(c, WrapSteps(c, s, t - 1), t);
      StepsUndone(c, s, t - 1);
    }
  }

  lemma {:induction false} StepsRedone(c: Cipher, s: Regs, t: nat)
    requires Inverse(c) && |s.r| > 0
    ensures WrapSteps(c, UnwrapSteps(c, s, t), t) == s
    decreases t
  {
    hide WrapStep, UnwrapStep;
    if t > 0 {
      StepsRedone(c, UnwrapStep(c, s, t), t - 1);
      StepRedone(c, s, t);
    }
  }

  lemma {:induction false} ConcatOfWords(b: Octets)
    requires |b| % 8 == 0
    ensures Concat(Words(b)) == b
  {
    if b != [] {
      ConcatOfWords(b[8..]);
      assert b[..8] + b[8..] == b;
    }
  }

  lemma {:induction false} WordsOfConcat(r: seq<Half>)
    ensures Words(Concat(r)) == r
  {
    if r != [] {
      WordsOfConcat(r[1..]);
      assert (r[0] + Concat(r[1..]))[..8] == r[0] && (r[0] + Concat(r[1..]))[8..] == Concat(r[1..]);
    }
  }

  /** Unwrapping a wrapped key gives the key back exactly if there is at least one word of it. */
  lemma UnwrapOfWrap(c: Cipher, key: Octets)
    requires Inverse(c) && |key| % 8 == 0
    ensures Unwrap(c, Wrap(c, key).value) == Ok(key) <==> |key| >= 8
  {
    hide WrapSteps, UnwrapSteps;
    if key != [] {
      var n := |Words(key)|;
      var s := WrapSteps(c, Regs(IV, Words(key)), 6 * n);
      var w := s.a + Concat(s.r);
      assert w[..8] == s.a && w[8..] == Concat(s.r);
      WordsOfConcat(s.r);
      StepsUndone(c, Regs(IV, Words(key)), 6 * n);
      ConcatOfWords(key);
    }
  }

  /** Whatever unwraps wraps back to the same input. */
  lemma WrapOfUnwrap(c: Cipher, wrapped: Octets)
    requires Inverse(c) && Unwrap(c, wrapped).Ok?
    ensures Wrap(c, Unwrap(c, wrapped).value) == Ok(wrapped)
  {
    hide WrapSteps, UnwrapSteps;
    var r := Words(wrapped[8..]);
    var s := UnwrapSteps(c, Regs(wrapped[..8], r), 6 * |r|);
    WordsOfConcat(s.r);
    StepsRedone(c, Regs(wrapped[..8], r), 6 * |r|);
    ConcatOfWords(wrapped[8..]);
    assert wrapped[..8] + wrapped[8..] == wrapped;
  }

  /** The accepted ciphertexts are exactly the wrapped nonempty keys, and each key has only one. */
  lemma AcceptedExactly(c: Cipher, wrapped: Octets, key: Octets)
    requires Inverse(c)
    ensures Unwrap(c, wrapped) == Ok(key) <==> |key| >= 8 && Wrap(c, key) == Ok(wrapped)
  {
    hide Unwrap, Wrap;
    if Unwrap(c, wrapped) == Ok(key) {
      WrapOfUnwrap(c, wrapped);
      WrapLength(c, key);
      UnwrapOfWrap(c, key);
    }
    if |key| >= 8 && Wrap(c, key) == Ok(wrapped) {
      WrapLength(c, key);
      UnwrapOfWrap(c, key);
    }
  }

  lemma WrapLength(c: Cipher, key: Octets)
    ensures Wrap(c, key).Ok? <==> |key| % 8 == 0
  {
  }

  // ---------- The rotating registers of RFC 3394, section 2.2.1 ----------

  function XorEach(a: Half, t: Half): (r: Half) { seq(8, i requires 0 <= i < 8 => a[i] ^ t[i]) }

  lemma XorIsEach(a: Half, t: Half)
    ensures Xor(a, t) == XorEach(a, t)
  {
    var x := Xor(a, t);
    assert x[0] == a[0] ^ t[0] && x[1] == a[1] ^ t[1] && x[2] == a[2] ^ t[2] && x[3] == a[3] ^ t[3];
    assert x[4] == a[4] ^ t[4] && x[5] == a[5] ^ t[5] && x[6] == a[6] ^ t[6] && x[7] == a[7] ^ t[7];
  }

  /** The first description of the standard: encrypt A | R[1], put A ^ t in A, and rotate the registers. */
  function RotateStep(c: Cipher, s: Regs, t: Half): (s': Regs)
    requires |s.r| > 0
    ensures |s'.r| == |s.r|
  {
    var b := c.enc(s.a + s.r[0]);
    Regs(XorEach(b[..8], t), s.r[1..] + [b[8..]])
  }

  function RotateSteps(c: Cipher, s: Regs, t: nat): (s': Regs)
    requires |s.r| > 0
    ensures |s'.r| == |s.r|
  {
    if t == 0 then s else RotateStep(c, RotateSteps(c, s, t - 1), Counter(t))
  }

  function Rotated(r: seq<Half>, k: nat): seq<Half>
    requires k < |r|
  {
    r[k..] + r[..k]
  }

  lemma RotateOnce(c: Cipher, s: Regs, i: nat, n: nat, t: nat)
    requires n == |s.r| > 0 && t > 0 && i == Slot(t, n)
    ensures RotateStep(c, Regs(s.a, Rotated(s.r, i)), Counter(t)) ==
            Regs(WrapStep(c, s, t).a, Rotated(WrapStep(c, s, t).r, if i + 1 == n then 0 else i + 1))
  {
    hide Counter, Xor, XorEach;
    var b: Block := c.enc(s.a + s.r[i]);
    XorIsEach(b[..8], Counter(t));
    assert Rotated(s.r, i)[0] == s.r[i];
    var after := s.r[i := b[8..]];
    if i + 1 == n {
      assert Rotated(s.r, i)[1..] + [b[8..]] == Rotated(after, 0);
    } else {
      assert Rotated(s.r, i)[1..] + [b[8..]] == Rotated(after, i + 1);
    }
  }

  /** Working on one register after the other is rotating them all. */
  lemma {:induction false} WrapRotates(c: Cipher, s: Regs, t: nat)
    requires |s.r| > 0
    ensures RotateSteps(c, s, t) == Regs(WrapSteps(c, s, t).a, Rotated(WrapSteps(c, s, t).r, t % |s.r|))
  {
    hide WrapStep, RotateStep;
    var n := |s.r|;
    if t == 0 {
      assert Rotated(s.r, 0) == s.r;
    } else {
      WrapRotates(c, s, t - 1);
      RotateOnce(c, WrapSteps(c, s, t - 1), Slot(t, n), n, t);
      NextMod(t - 1, n);
    }
  }

  lemma NextMod(t: nat, n: nat)
    requires n > 0
    ensures (t + 1) % n == if t % n + 1 == n then 0 else t % n + 1
  {
    var q, k := t / n, t % n;
    assert t == n * q + k;
    if k + 1 == n {
      assert t + 1 == n * (q + 1) + 0;
      ModOf(n, q + 1, 0);
    } else {
      ModOf(n, q, k + 1);
    }
  }

  /** The wrap is the one the standard describes first: 6n rotating steps over the key's words. */
  lemma WrapIsStandard(c: Cipher, key: Octets)
    requires |key| % 8 == 0 && key != []
    ensures var n := |key| / 8;
            var s := RotateSteps(c, Regs([0xA6, 0xA6, 0xA6, 0xA6, 0xA6, 0xA6, 0xA6, 0xA6], Words(key)), 6 * n);
            Wrap(c, key) == Ok(s.a + Concat(s.r))
  {
    hide WrapSteps, RotateSteps, Concat;
    var n := |Words(key)|;
    WrapRotates(c, Regs(IV, Words(key)), 6 * n);
    ModOf(n, 6, 0);
    var r := WrapSteps(c, Regs(IV, Words(key)), 6 * n).r;
    assert Rotated(r, 0) == r;
  }

  lemma {:induction false} WordsAt(b: Octets, i: nat)
    requires |b| % 8 == 0 && 8 * i < |b|
    ensures Words(b)[i] == b[8 * i..8 * i + 8]
  {
    if i > 0 {
      WordsAt(b[8..], i - 1);
    }
  }

  // ---------- An example in octets ----------

  const PLAIN := Cipher(b => b, b => b)

  lemma PlainStep(a: Half, word: Half, t: nat)
    requires t > 0
    ensures UnwrapStep(PLAIN, Regs(a, [word]), t) == Regs(Xor(a, Counter(t)), [word])
  {
    var x: Octets := Xor(a, Counter(t));
    hide Xor, Counter;
    assert Slot(t, 1) == 0;
    assert (x + word)[..8] == x && (x + word)[8..] == word && [word][0 := word] == [word];
  }

  lemma SmallCounter(t: nat)
    requires t < 0x100
    ensures Counter(t) == [0, 0, 0, 0, 0, 0, 0, t as bv8]
  {
    var d := Digits(t);
    hide Digits;
    CounterDigits(t);
    SmallDigits(t);
    hide Counter;
  }

  lemma SmallDigits(t: nat)
    requires t < 0x100
    ensures Digits(t) == [0, 0, 0, 0, 0, 0, 0, t]
  {
  }

  lemma XorTail(x: bv8, y: bv8)
    ensures Xor([0xA6, 0xA6, 0xA6, 0xA6, 0xA6, 0xA6, 0xA6, x], [0, 0, 0, 0, 0, 0, 0, y]) ==
            [0xA6, 0xA6, 0xA6, 0xA6, 0xA6, 0xA6, 0xA6, x ^ y]
  {
  }

  /** Under the identity cipher the steps 1 to 6 turn A1 into A6 in the last octet of the register, and the
      key comes out as it is. */
  lemma UnwrapExample(word: Half)
    ensures Unwrap(PLAIN, [0xA6, 0xA6, 0xA6, 0xA6, 0xA6, 0xA6, 0xA6, 0xA1] + word) == Ok(word)
  {
    hide UnwrapSteps, Unwrap, Concat, Words;
    ExampleSteps(word);
    OneWord([0xA6, 0xA6, 0xA6, 0xA6, 0xA6, 0xA6, 0xA6, 0xA1], word);
  }

  lemma OneWord(a: Half, word: Half)
    ensures var s := UnwrapSteps(PLAIN, Regs(a, [word]), 6);
            Unwrap(PLAIN, a + word) == if s.a == IV then Ok(Concat(s.r)) else Err
    ensures Concat([word]) == word
  {
    hide UnwrapSteps;
    var wrapped: Octets := a + word;
    assert wrapped[..8] == a && wrapped[8..] == word && word[..8] == word && word[8..] == [];
    assert Words(word) == [word] && Words(wrapped[8..]) == [word];
    assert [word][1..] == [] && word + [] == word;
  }

  lemma ExampleSteps(word: Half)
    ensures UnwrapSteps(PLAIN, Regs([0xA6, 0xA6, 0xA6, 0xA6, 0xA6, 0xA6, 0xA6, 0xA1], [word]), 6) == Regs(IV, [word])
  {
    hide Xor, Counter, UnwrapStep;
    var x: bv8 := 0xA1;
    var t := 6;
    while t > 0
      invariant 0 <= t <= 6
      invariant x == [0xA6, 0xA7, 0xA5, 0xA6, 0xA2, 0xA7, 0xA1][t]
      invariant UnwrapSteps(PLAIN, Regs([0xA6, 0xA6, 0xA6, 0xA6, 0xA6, 0xA6, 0xA6, 0xA1], [word]), 6) ==
                UnwrapSteps(PLAIN, Regs([0xA6, 0xA6, 0xA6, 0xA6, 0xA6, 0xA6, 0xA6, x], [word]), t)
    {
      PlainStep([0xA6, 0xA6, 0xA6, 0xA6, 0xA6, 0xA6, 0xA6, x], word, t);
      SmallCounter(t);
      XorTail(x, t as bv8);
      x := x ^ (t as bv8);
      t := t - 1;
    }
  }

  // ---------- The loops over registers ----------

  /** The eight-byte comparison value, folded byte by byte. */
  function Fold(a: Octets): bv64
    requires |a| <= 8
  {
    if a == [] then 0 else Shifted(Fold(a[..|a| - 1]), a[|a| - 1])
  }

  function Shifted(x: bv64, octet: bv8): bv64 { (x << 8) | (octet as bv64) }

  lemma FoldOfIV(a: Half)
    ensures Fold(a) == 0xA6A6_A6A6_A6A6_A6A6 <==> a == IV
  {
    FoldWhole(a);
    hide Fold, Pack;
    Packed(a[0], a[1], a[2], a[3], a[4], a[5], a[6], a[7]);
    assert a == [a[0], a[1], a[2], a[3], a[4], a[5], a[6], a[7]];
  }

  lemma FoldWhole(a: Half)
    ensures Fold(a) == Pack(a[0], a[1], a[2], a[3], a[4], a[5], a[6], a[7])
  {
    hide Fold, Shifted;
    FoldEmpty();
    FoldStep(a, 8);
    FoldStep(a, 7);
    FoldStep(a, 6);
    FoldStep(a, 5);
    FoldStep(a, 4);
    FoldStep(a, 3);
    FoldStep(a, 2);
    FoldStep(a, 1);
    assert a[..8] == a;
  }

  lemma FoldEmpty()
    ensures forall a: Octets :: |a| == 0 ==> Fold(a) == 0
  {
  }

  lemma FoldStep(a: Half, i: nat)
    requires 1 <= i <= 8
    ensures Fold(a[..i]) == Shifted(Fold(a[..i - 1]), a[i - 1])
  {
    assert a[..i][..i - 1] == a[..i - 1];
  }

  function Pack(a: bv8, b: bv8, c: bv8, d: bv8, e: bv8, f: bv8, g: bv8, h: bv8): bv64 {
    Shifted(Shifted(Shifted(Shifted(Shifted(Shifted(Shifted(Shifted(0, a), b), c), d), e), f), g), h)
  }

  lemma Packed(a: bv8, b: bv8, c: bv8, d: bv8, e: bv8, f: bv8, g: bv8, h: bv8)
    ensures Pack(a, b, c, d, e, f, g, h) == 0xA6A6_A6A6_A6A6_A6A6 <==>
            a == 0xA6 && b == 0xA6 && c == 0xA6 && d == 0xA6 && e == 0xA6 && f == 0xA6 && g == 0xA6 && h == 0xA6
  {
  }

  method IntegrityCheck(a: Half) returns (ok: bool)
    ensures ok <==> a == IV
  {
    hide Fold;
    var got: bv64 := 0;
    FoldEmpty();
    for i := 0 to 8
      invariant got == Fold(a[..i])
    {
      FoldStep(a, i + 1);
      got := (got << 8) | (a[i] as bv64);
    }
    assert a[..8] == a;
    FoldOfIV(a);
    ok := got == 0xA6A6_A6A6_A6A6_A6A6;
  }

  method AesKeyUnwrap(c: Cipher, wrapped: Octets) returns (out: Result<Octets>)
    ensures out == Unwrap(c, wrapped)
  {
    if |wrapped| < 16 || |wrapped| % 8 != 0 {
      return Err;
    }
    var n := |wrapped| / 8 - 1;
    var a: Half := wrapped[..8];
    var r := Load(wrapped[8..]);
    a := UnwrapRounds(c, a, r);
    var intact := IntegrityCheck(a);
    if !intact {
      return Err;
    }
    var buf := Store(r);
    return Ok(buf);
  }

  method AesKeyWrap(c: Cipher, key: Octets) returns (out: Result<Octets>)
    ensures out == Wrap(c, key)
  {
    if |key| % 8 != 0 {
      return Err;
    }
    var r := Load(key);
    var a := WrapRounds(c, IV, r);
    var buf := Store(r);
    assert key == [] ==> a + buf == IV;
    return Ok(a + buf);
  }

  method Load(b: Octets) returns (r: array<Half>)
    requires |b| % 8 == 0
    ensures fresh(r) && r[..] == Words(b)
  {
    var n := |b| / 8;
    r := new Half[n](_ => IV);
    for i := 0 to n
      invariant r[..i] + Words(b[8 * i..]) == Words(b)
    {
      var rest := b[8 * i..];
      r[i] := rest[..8];
      assert b[8 * (i + 1)..] == rest[8..];
      assert r[..i + 1] == r[..i] + [rest[..8]];
    }
    assert r[..n] == r[..];
  }

  method Store(r: array<Half>) returns (out: Octets)
    ensures out == Concat(r[..])
  {
    out := [];
    for i := 0 to r.Length
      invariant out + Concat(r[i..]) == Concat(r[..])
    {
      assert r[i..] == [r[i]] + r[i + 1..];
      out := out + r[i];
    }
  }

  /** Rounds j = 5 down to 0, in each the registers i = n down to 1, rewritten in place. */
  method UnwrapRounds(c: Cipher, a0: Half, r: array<Half>) returns (a: Half)
    requires r.Length > 0
    modifies r
    ensures Regs(a, r[..]) == UnwrapSteps(c, old(Regs(a0, r[..])), 6 * r.Length)
  {
    hide UnwrapStep;
    var n := r.Length;
    a := a0;
    ghost var s := Regs(a0, r[..]);
    var j := 6;
    while j > 0
      invariant 0 <= j <= 6
      invariant UnwrapSteps(c, s, 6 * n) == UnwrapSteps(c, Regs(a, r[..]), n * j)
    {
      j := j - 1;
      var i := n;
      while i > 0
        invariant 0 <= i <= n
        invariant UnwrapSteps(c, s, 6 * n) == UnwrapSteps(c, Regs(a, r[..]), n * j + i)
      {
        a := UnwrapInPlace(c, a, r, j, i);
        i := i - 1;
      }
    }
  }

  method UnwrapInPlace(c: Cipher, a0: Half, r: array<Half>, j: nat, i: nat) returns (a: Half)
    requires 1 <= i <= r.Length
    modifies r
    ensures Regs(a, r[..]) == UnwrapStep(c, old(Regs(a0, r[..])), r.Length * j + i)
  {
    var t := r.Length * j + i;
    SlotOf(r.Length, j, i);
    ghost var s := Regs(a0, r[..]);
    var buf := c.dec(Xor(a0, Counter(t)) + r[i - 1]);
    a := buf[..8];
    r[i - 1] := buf[8..];
    assert r[..] == s.r[i - 1 := buf[8..]];
  }

  method WrapRounds(c: Cipher, a0: Half, r: array<Half>) returns (a: Half)
    modifies r
    ensures r.Length == 0 ==> a == a0
    ensures r.Length > 0 ==> Regs(a, r[..]) == WrapSteps(c, old(Regs(a0, r[..])), 6 * r.Length)
  {
    hide WrapStep;
    var n := r.Length;
    a := a0;
    ghost var s := Regs(a0, r[..]);
    var j := 0;
    while j < 6
      invariant 0 <= j <= 6
      invariant n == 0 ==> a == a0
      invariant n > 0 ==> Regs(a, r[..]) == WrapSteps(c, s, n * j)
    {
      var i := 1;
      while i <= n
        invariant 1 <= i <= n + 1
        invariant n == 0 ==> a == a0
        invariant n > 0 ==> Regs(a, r[..]) == WrapSteps(c, s, n * j + i - 1)
      {
        a := WrapInPlace(c, a, r, j, i);
        i := i + 1;
      }
      j := j + 1;
    }
  }

  method WrapInPlace(c: Cipher, a0: Half, r: array<Half>, j: nat, i: nat) returns (a: Half)
    requires 1 <= i <= r.Length
    modifies r
    ensures Regs(a, r[..]) == WrapStep(c, old(Regs(a0, r[..])), r.Length * j + i)
  {
    var t := r.Length * j + i;
    SlotOf(r.Length, j, i);
    ghost var s := Regs(a0, r[..]);
    var buf := c.enc(a0 + r[i - 1]);
    a := Xor(buf[..8], Counter(t));
    r[i - 1] := buf[8..];
    assert r[..] == s.r[i - 1 := buf[8..]];
  }

  /** The step number n * j + i belongs to register i - 1. */
  lemma SlotOf(n: nat, j: nat, i: nat)
    requires 1 <= i <= n
    ensures n * j + i > 0 && Slot(n * j + i, n) == i - 1
  {
    ModOf(n, j, i - 1);
  }

  lemma ModOf(n: nat, j: nat, k: nat)
    requires k < n
    ensures (n * j + k) % n == k
  {
    var q, r := (n * j + k) / n, (n * j + k) % n;
    assert n * j + k == n * q + r;
    assert n * (j - q) == r - k && n * (q - j) == k - r;
    if j > q {
      MulGrows(n, j - q);
    } else if j < q {
      MulGrows(n, q - j);
    }
  }

  lemma MulGrows(n: nat, d: nat)
    requires d >= 1
    ensures n * d >= n
  {
  }
}
