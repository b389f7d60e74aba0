/**
 * The in-place byte reversal kernels of aal/aal.c. The buffer is an array of bytes; the kernels read
 * and write it through 16, 32 or 64-bit words in the host's byte order, which may be either one.
 */
module ByteSwap {

  type byte = bv8

  // ----- what is computed -----

  /** The position facing k inside its group of n: same group, opposite end. */
  function Mirror(n: nat, k: nat): (j: nat)
    requires n > 0
    ensures j / n == k / n && j % n == n - 1 - k % n
  {
    var j := k / n * n + (n - 1 - k % n);
    QuotientUnique(j, n, k / n, n - 1 - k % n);
    j
  }

  /** s with the bytes of each of its first g groups of n bytes reversed, the rest as it was. */
  function ReverseGroups<T>(s: seq<T>, n: nat, g: nat): (r: seq<T>)
    requires n > 0 && g * n <= |s|
    ensures |r| == |s|
  {
    seq(|s|, k requires 0 <= k < |s| =>
      if k < g * n then MirrorInRange(n, g, k); s[Mirror(n, k)] else s[k])
  }

  lemma MirrorInRange(n: nat, g: nat, k: nat)
    requires n > 0
    ensures k < g * n <==> Mirror(n, k) < g * n
  {
    InGroup(n, g, k / n, k % n);
    InGroup(n, g, k / n, n - 1 - k % n);
  }

  /** s with the two halves of each of its first g groups of 2n elements exchanged, the rest as it was. */
  function ExchangeHalves<T>(s: seq<T>, n: nat, g: nat): (r: seq<T>)
    requires n > 0 && 2 * n * g <= |s|
    ensures |r| == |s|
  {
    seq(|s|, k requires 0 <= k < |s| =>
      if k >= 2 * n * g then s[k] else HalfInRange(n, g, k); if k / n % 2 == 0 then s[k + n] else s[k - n])
  }

  lemma MulMono(a: nat, b: nat, n: nat)
    requires a <= b
    ensures a * n <= b * n
    ensures (a + 1) * n == a * n + n
  {
    assert (b - a) * n == b * n - a * n;
    assert (b - a) * n >= 0;
  }

  lemma QuotientUnique(k: nat, n: nat, q: nat, r: nat)
    requires n > 0 && r < n && k == q * n + r
    ensures k / n == q && k % n == r
  {
    var q', r' := k / n, k % n;
    assert k == q' * n + r';
    MulMono(q, q, n);
    MulMono(q', q', n);
    if q' < q {
      MulMono(q' + 1, q, n);
    } else if q' > q {
      MulMono(q + 1, q', n);
    }
  }

  lemma InGroup(n: nat, g: nat, q: nat, r: nat)
    requires r < n
    ensures q < g <==> q * n + r < g * n
  {
    if q < g {
      MulMono(q, q, n);
      MulMono(q + 1, g, n);
    } else {
      MulMono(g, q, n);
    }
  }

  lemma HalfInRange(n: nat, g: nat, k: nat)
    requires n > 0 && k < 2 * n * g
    ensures k / n % 2 == 0 ==> k + n < 2 * n * g
    ensures k / n % 2 == 1 ==> n <= k
  {
    var q, r := k / n, k % n;
    assert k == q * n + r;
    if q % 2 == 1 {
      MulMono(1, q, n);
    } else {
      assert 2 * n * g == (2 * g) * n;
      InGroup(n, 2 * g, q, r);
      NextInRange(n, g, q, r);
    }
  }

  /** Below an even bound an even number's successor is below it too. */
  lemma NextInRange(n: nat, g: nat, q: nat, r: nat)
    requires r < n && q < 2 * g && q % 2 == 0
    ensures q * n + r + n < (2 * g) * n
  {
    MulMono(q, q, n);
    InGroup(n, 2 * g, q + 1, r);
  }

  // ----- laws -----

  lemma MirrorTwice(n: nat, k: nat)
    requires n > 0
    ensures Mirror(n, Mirror(n, k)) == k
  {
    var j := Mirror(n, k);
    assert k == k / n * n + k % n;
    assert Mirror(n, j) == j / n * n + (n - 1 - j % n);
  }

  /** Reversing the same groups twice restores the buffer. */
  lemma ReverseGroupsTwice<T>(s: seq<T>, n: nat, g: nat)
    requires n > 0 && g * n <= |s|
    ensures ReverseGroups(ReverseGroups(s, n, g), n, g) == s
  {
    var r := ReverseGroups(s, n, g);
    forall k | 0 <= k < |s|
      ensures ReverseGroups(r, n, g)[k] == s[k]
    {
      MirrorTwice(n, k);
      MirrorInRange(n, g, k);
      if k < g * n {
        assert ReverseGroups(r, n, g)[k] == r[Mirror(n, k)];
      }
    }
  }

  lemma MirrorAt(n: nat, i: nat, j: nat)
    requires j < n
    ensures Mirror(n, i * n + j) == i * n + (n - 1 - j)
  {
    QuotientUnique(i * n + j, n, i, j);
  }

  lemma MirrorWide(k: nat)
    ensures k / 8 % 2 == 0 ==> Mirror(16, k) == Mirror(8, k + 8)
    ensures k / 8 % 2 == 1 ==> k >= 8 && Mirror(16, k) == Mirror(8, k - 8)
  {
    var q, r := k / 16, k % 16;
    MirrorAt(16, q, r);
    if r < 8 {
      QuotientUnique(k, 8, 2 * q, r);
      MirrorAt(8, 2 * q + 1, r);
    } else {
      QuotientUnique(k, 8, 2 * q + 1, r - 8);
      MirrorAt(8, 2 * q, r - 8);
    }
  }

  lemma WidePairAt<T>(s: seq<T>, g: nat, k: nat)
    requires g * 16 <= |s| && k < |s|
    ensures ReverseGroups(s, 16, g)[k] == ExchangeHalves(ReverseGroups(s, 8, 2 * g), 8, g)[k]
  {
    var words := ReverseGroups(s, 8, 2 * g);
    if k < 16 * g {
      MirrorWide(k);
      HalfInRange(8, g, k);
      var other := if k / 8 % 2 == 0 then k + 8 else k - 8;
      MirrorInRange(8, 2 * g, other);
      assert ExchangeHalves(words, 8, g)[k] == words[other];
      assert words[other] == s[Mirror(8, other)];
    }
  }

  /** Reversing 16-byte groups is reversing every 8-byte word and exchanging the words of each pair. */
  lemma WidePairsFromWords<T>(s: seq<T>, g: nat)
    requires g * 16 <= |s|
    ensures ReverseGroups(s, 16, g) == ExchangeHalves(ReverseGroups(s, 8, 2 * g), 8, g)
  {
    forall k | 0 <= k < |s|
      ensures ReverseGroups(s, 16, g)[k] == ExchangeHalves(ReverseGroups(s, 8, 2 * g), 8, g)[k]
    {
      WidePairAt(s, g, k);
    }
  }

  // ----- words -----

  /** The word with bytes b0 (least significant) to b1. */
  function Word16(b0: byte, b1: byte): bv16 {
    b0 as bv16 | (b1 as bv16 << 8)
  }

  /** The word with bytes b0 (least significant) to b3. */
  function Word32(b0: byte, b1: byte, b2: byte, b3: byte): bv32 {
    b0 as bv32 | (b1 as bv32 << 8) | (b2 as bv32 << 16) | (b3 as bv32 << 24)
  }

  /** The word with bytes b0 (least significant) to b7. */
  function Word64(b0: byte, b1: byte, b2: byte, b3: byte, b4: byte, b5: byte, b6: byte, b7: byte): bv64 {
    b0 as bv64 | (b1 as bv64 << 8) | (b2 as bv64 << 16) | (b3 as bv64 << 24) |
    (b4 as bv64 << 32) | (b5 as bv64 << 40) | (b6 as bv64 << 48) | (b7 as bv64 << 56)
  }

  // The right-hand sides of the three assignments to p[i].

  function Swap16(p: bv16): bv16 {
    ((p & 0xFF00) >> 8) | ((p & 0x00FF) << 8)
  }

  function Swap32(p: bv32): bv32 {
    ((p & 0xFF000000) >> 24) |
    ((p & 0x00FF0000) >> 8) |
    ((p & 0x0000FF00) << 8) |
    ((p & 0x000000FF) << 24)
  }

  function Swap64(p: bv64): bv64 {
    ((p & 0xFF00000000000000) >> 56) |
    ((p & 0x00FF000000000000) >> 40) |
    ((p & 0x0000FF0000000000) >> 24) |
    ((p & 0x000000FF00000000) >> 8) |
    ((p & 0x00000000FF000000) << 8) |
    ((p & 0x0000000000FF0000) << 24) |
    ((p & 0x000000000000FF00) << 40) |
    ((p & 0x00000000000000FF) << 56)
  }

  /** The 2-byte memory image of one word before and after the kernel's expression, in the host's byte order. */
  method SwapWord16(b0: byte, b1: byte, big: bool)
    returns (r0: byte, r1: byte)
    ensures r0 == b1 && r1 == b0
  {
    var p := if big then Word16(b1, b0) else Word16(b0, b1);
    p := Swap16(p);
    if big {
      r0, r1 :=
        ((p >> 8) & 0xFF) as byte, (p & 0xFF) as byte;
    } else {
      r0, r1 :=
        (p & 0xFF) as byte, ((p >> 8) & 0xFF) as byte;
    }
  }

  /** The 4-byte memory image of one word before and after the kernel's expression, in the host's byte order. */
  method SwapWord32(b0: byte, b1: byte, b2: byte, b3: byte, big: bool)
    returns (r0: byte, r1: byte, r2: byte, r3: byte)
    ensures r0 == b3 && r1 == b2 && r2 == b1 && r3 == b0
  {
    var p := if big then Word32(b3, b2, b1, b0) else Word32(b0, b1, b2, b3);
    p := Swap32(p);
    if big {
      r0, r1, r2, r3 :=
        ((p >> 24) & 0xFF) as byte, ((p >> 16) & 0xFF) as byte, ((p >> 8) & 0xFF) as byte, (p & 0xFF) as byte;
    } else {
      r0, r1, r2, r3 :=
        (p & 0xFF) as byte, ((p >> 8) & 0xFF) as byte, ((p >> 16) & 0xFF) as byte, ((p >> 24) & 0xFF) as byte;
    }
  }

  /** The 8-byte memory image of one word before and after the kernel's expression, in the host's byte order. */
  method SwapWord64(b0: byte, b1: byte, b2: byte, b3: byte, b4: byte, b5: byte, b6: byte, b7: byte, big: bool)
    returns (r0: byte, r1: byte, r2: byte, r3: byte, r4: byte, r5: byte, r6: byte, r7: byte)
    ensures r0 == b7 && r1 == b6 && r2 == b5 && r3 == b4 && r4 == b3 && r5 == b2 && r6 == b1 && r7 == b0
  {
    var p := if big then Word64(b7, b6, b5, b4, b3, b2, b1, b0) else Word64(b0, b1, b2, b3, b4, b5, b6, b7);
    p := Swap64(p);
    if big {
      r0, r1, r2, r3, r4, r5, r6, r7 :=
        ((p >> 56) & 0xFF) as byte, ((p >> 48) & 0xFF) as byte, ((p >> 40) & 0xFF) as byte, ((p >> 32) & 0xFF) as byte,
        ((p >> 24) & 0xFF) as byte, ((p >> 16) & 0xFF) as byte, ((p >> 8) & 0xFF) as byte, (p & 0xFF) as byte;
    } else {
      r0, r1, r2, r3, r4, r5, r6, r7 :=
        (p & 0xFF) as byte, ((p >> 8) & 0xFF) as byte, ((p >> 16) & 0xFF) as byte, ((p >> 24) & 0xFF) as byte,
        ((p >> 32) & 0xFF) as byte, ((p >> 40) & 0xFF) as byte, ((p >> 48) & 0xFF) as byte, ((p >> 56) & 0xFF) as byte;
    }
  }

  // ----- kernels -----

  /** The first i groups of n bytes are done, the rest is as in s. */
  ghost predicate Done(a: seq<byte>, s: seq<byte>, n: nat, i: nat)
    requires n > 0
  {
    && |a| == |s|
    && forall k {:trigger a[k]} :: 0 <= k < |a| ==>
         if k < i * n then Mirror(n, k) < |s| && a[k] == s[Mirror(n, k)] else a[k] == s[k]
  }

  /** a' is a with the n bytes from off on reversed. */
  ghost predicate Flipped(a: seq<byte>, a': seq<byte>, n: nat, off: nat)
    requires off + n <= |a|
  {
    && |a'| == |a|
    && forall k {:trigger a'[k]} :: 0 <= k < |a| ==> a'[k] == if off <= k < off + n then a[2 * off + n - 1 - k] else a[k]
  }

  lemma OneMoreDone(a: seq<byte>, a': seq<byte>, s: seq<byte>, n: nat, i: nat, off: nat)
    requires n > 0 && off == i * n && off + n <= |a|
    requires Done(a, s, n, i) && Flipped(a, a', n, off)
    ensures Done(a', s, n, i + 1)
  {
    MulMono(i, i, n);
    forall k | 0 <= k < |a|
      ensures if k < (i + 1) * n then Mirror(n, k) < |s| && a'[k] == s[Mirror(n, k)] else a'[k] == s[k]
    {
      if off <= k < off + n {
        MirrorAt(n, i, k - off);
        assert a'[k] == a[2 * off + n - 1 - k] == s[2 * off + n - 1 - k];
      } else {
        assert a'[k] == a[k];
      }
    }
  }

  lemma AllDone(a: seq<byte>, s: seq<byte>, n: nat, g: nat)
    requires n > 0 && g * n <= |s| && Done(a, s, n, g)
    ensures a == ReverseGroups(s, n, g)
  {
  }

  /** The loop body: one word of 2 bytes at offset o. */
  method FlipWord16(data: array<byte>, o: nat, big: bool)
    requires o + 2 <= data.Length
    modifies data
    ensures Flipped(old(data[..]), data[..], 2, o)
  {
    var r0, r1 :=
      SwapWord16(data[o], data[o + 1], big);
    data[o], data[o + 1] :=
      r0, r1;
  }

  /** aal_byte_swap16: len bytes of data, read through 16-bit words. */
  method ByteSwap16(data: array<byte>, len: nat, big: bool)
    requires len <= data.Length
    modifies data
    ensures data[..] == ReverseGroups(old(data[..]), 2, len / 2)
  {
    for i := 0 to len / 2
      invariant Done(data[..], old(data[..]), 2, i)
    {
      ghost var before := data[..];
      FlipWord16(data, 2 * i, big);
      OneMoreDone(before, data[..], old(data[..]), 2, i, 2 * i);
    }
    AllDone(data[..], old(data[..]), 2, len / 2);
  }

  /** The loop body: one word of 4 bytes at offset o. */
  method FlipWord32(data: array<byte>, o: nat, big: bool)
    requires o + 4 <= data.Length
    modifies data
    ensures Flipped(old(data[..]), data[..], 4, o)
  {
    var r0, r1, r2, r3 :=
      SwapWord32(data[o], data[o + 1], data[o + 2], data[o + 3], big);
    data[o], data[o + 1], data[o + 2], data[o + 3] :=
      r0, r1, r2, r3;
  }

  /** aal_byte_swap32: len bytes of data, read through 32-bit words. */
  method ByteSwap32(data: array<byte>, len: nat, big: bool)
    requires len <= data.Length
    modifies data
    ensures data[..] == ReverseGroups(old(data[..]), 4, len / 4)
  {
    for i := 0 to len / 4
      invariant Done(data[..], old(data[..]), 4, i)
    {
      ghost var before := data[..];
      FlipWord32(data, 4 * i, big);
      OneMoreDone(before, data[..], old(data[..]), 4, i, 4 * i);
    }
    AllDone(data[..], old(data[..]), 4, len / 4);
  }

  method PutFour(data: array<byte>, o: nat, r0: byte, r1: byte, r2: byte, r3: byte)
    requires o + 4 <= data.Length
    modifies data
    ensures data[o] == r0 && data[o + 1] == r1 && data[o + 2] == r2 && data[o + 3] == r3
    ensures forall k :: 0 <= k < data.Length && !(o <= k < o + 4) ==> data[k] == old(data[k])
  {
    data[o], data[o + 1], data[o + 2], data[o + 3] := r0, r1, r2, r3;
  }

  method PutEight(data: array<byte>, o: nat, r0: byte, r1: byte, r2: byte, r3: byte,
                  r4: byte, r5: byte, r6: byte, r7: byte)
    requires o + 8 <= data.Length
    modifies data
    ensures data[o] == r0 && data[o + 1] == r1 && data[o + 2] == r2 && data[o + 3] == r3
    ensures data[o + 4] == r4 && data[o + 5] == r5 && data[o + 6] == r6 && data[o + 7] == r7
    ensures forall k :: 0 <= k < data.Length && !(o <= k < o + 8) ==> data[k] == old(data[k])
  {
    PutFour(data, o, r0, r1, r2, r3);
    PutFour(data, o + 4, r4, r5, r6, r7);
  }

  /** The loop body: one word of 8 bytes at offset o. */
  method FlipWord64(data: array<byte>, o: nat, big: bool)
    requires o + 8 <= data.Length
    modifies data
    ensures Flipped(old(data[..]), data[..], 8, o)
  {
    var r0, r1, r2, r3, r4, r5, r6, r7 :=
      SwapWord64(data[o], data[o + 1], data[o + 2], data[o + 3], data[o + 4], data[o + 5], data[o + 6], data[o + 7], big);
    PutEight(data, o, r0, r1, r2, r3, r4, r5, r6, r7);
  }

  /** aal_byte_swap64: len bytes of data, read through 64-bit words. */
  method ByteSwap64(data: array<byte>, len: nat, big: bool)
    requires len <= data.Length
    modifies data
    ensures data[..] == ReverseGroups(old(data[..]), 8, len / 8)
  {
    for i := 0 to len / 8
      invariant Done(data[..], old(data[..]), 8, i)
    {
      ghost var before := data[..];
      FlipWord64(data, 8 * i, big);
      OneMoreDone(before, data[..], old(data[..]), 8, i, 8 * i);
    }
    AllDone(data[..], old(data[..]), 8, len / 8);
  }

  /** The loop body of the 128-bit kernel: both words of a pair swapped and exchanged. */
  method FlipPair(data: array<byte>, o: nat, big: bool)
    requires o + 16 <= data.Length
    modifies data
    ensures Flipped(old(data[..]), data[..], 16, o)
  {
    var r0, r1, r2, r3, r4, r5, r6, r7 :=
      SwapWord64(data[o], data[o + 1], data[o + 2], data[o + 3], data[o + 4], data[o + 5], data[o + 6], data[o + 7], big);
    var q0, q1, q2, q3, q4, q5, q6, q7 :=
      SwapWord64(data[o + 8], data[o + 9], data[o + 10], data[o + 11],
                 data[o + 12], data[o + 13], data[o + 14], data[o + 15], big);
    PutEight(data, o, q0, q1, q2, q3, q4, q5, q6, q7);
    PutEight(data, o + 8, r0, r1, r2, r3, r4, r5, r6, r7);
    assert forall k :: o <= k < o + 8 ==> data[k] == old(data[2 * o + 15 - k]);
    assert forall k :: o + 8 <= k < o + 16 ==> data[k] == old(data[2 * o + 15 - k]);
  }

  /** The 128-bit loop: steps by two words while below the word count. */
  method SwapPairs(data: array<byte>, words: nat, ghost pairs: nat, big: bool)
    requires words <= 2 * pairs <= words + 1 && pairs * 16 <= data.Length
    modifies data
    ensures Done(data[..], old(data[..]), 16, pairs)
  {
    var i := 0;
    ghost var g := 0;
    while i < words
      invariant i == 2 * g && g <= pairs
      invariant Done(data[..], old(data[..]), 16, g)
    {
      ghost var before := data[..];
      FlipPair(data, 8 * i, big);
      OneMoreDone(before, data[..], old(data[..]), 16, g, 8 * i);
      i, g := i + 2, g + 1;
    }
    assert g == pairs;
  }

  /** Pairs of words the 128-bit loop touches. */
  function Pairs(len: nat): nat { (len / 8 + 1) / 2 }

  /**
   * aal_byte_swap128: pairs of 64-bit words, both words swapped and exchanged. The loop steps by two
   * words below len / 8, so with an odd number of words it also rewrites the word after the last one
   * and the buffer must extend over it.
   */
  method ByteSwap128(data: array<byte>, len: nat, big: bool)
    requires len <= data.Length && Pairs(len) * 16 <= data.Length
    modifies data
    ensures data[..] == ReverseGroups(old(data[..]), 16, Pairs(len))
  {
    SwapPairs(data, len / 8, Pairs(len), big);
    AllDone(data[..], old(data[..]), 16, Pairs(len));
  }

  /** The kernel stays inside its len bytes exactly when the number of 64-bit words is even. */
  lemma WholePairs(len: nat)
    ensures Pairs(len) * 16 <= len <==> len / 8 % 2 == 0
    ensures len / 8 % 2 == 0 ==> Pairs(len) == len / 16
  {
  }
}
