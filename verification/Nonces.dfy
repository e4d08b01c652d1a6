/**
 The nonces of an exec session. Both sides encrypt under one key; each counts its
 own encryptions and stamps its direction into the top bit of the nonce.
 */
module Nonces {
  import opened Common

  const TWO_63: nat := 0x8000_0000_0000_0000
  const TWO_64: nat := 0x1_0000_0000_0000_0000

  // ---------------------------------------------------------------- big-endian counters

  function Pow256(k: nat): (p: nat)
    ensures p > 0
  {
    if k == 0 then 1 else 256 * Pow256(k - 1)
  }

  function BigEndian(n: nat, k: nat): (bs: seq<byte>)
    requires n < Pow256(k)
    ensures |bs| == k
  {
    if k == 0 then []
    else
      var p := Pow256(k - 1);
      DivBelow(n, p);
      [(n / p) as byte] + BigEndian(n % p, k - 1)
  }

  lemma DivBelow(n: nat, p: nat)
    requires p > 0 && n < 256 * p
    ensures n / p < 256
  {
  }

  lemma Recompose(n: nat, p: nat)
    requires p > 0
    ensures n == (n / p) * p + n % p && n % p < p
  {
  }

  lemma MulBound(b: nat, p: nat)
    requires b < 256
    ensures b * p <= 255 * p
  {
  }

  function Value(bs: seq<byte>): nat {
    if bs == [] then 0 else bs[0] as nat * Pow256(|bs| - 1) + Value(bs[1..])
  }

  lemma ValueHead(bs: seq<byte>)
    requires bs != []
    ensures Value(bs) == bs[0] as nat * Pow256(|bs| - 1) + Value(bs[1..])
  {
  }

  lemma BigEndianHead(n: nat, k: nat)
    requires k > 0 && n < Pow256(k)
    ensures var bs := BigEndian(n, k);
            n % Pow256(k - 1) < Pow256(k - 1) && bs[0] as nat == n / Pow256(k - 1) && bs[1..] == BigEndian(n % Pow256(k - 1), k - 1)
  {
    Recompose(n, Pow256(k - 1));
  }

  lemma {:induction false} ValueOfBigEndian(n: nat, k: nat)
    requires n < Pow256(k)
    ensures Value(BigEndian(n, k)) == n
  {
    if k > 0 {
      hide Value, BigEndian, Pow256;
      BigEndianHead(n, k);
      ValueOfBigEndian(n % Pow256(k - 1), k - 1);
      ValueHead(BigEndian(n, k));
      Recompose(n, Pow256(k - 1));
    }
  }

  lemma EightBytes()
    ensures Pow256(7) == 0x100_0000_0000_0000 && Pow256(8) == TWO_64
  {
    assert Pow256(4) == 0x1_0000_0000;
  }

  // ---------------------------------------------------------------- the nonce

  /** The agent clears the top bit, the client sets it. */
  function Stamp(b: byte, client: bool): byte {
    (b as nat % 128 + if client then 128 else 0) as byte
  }

  function NonceOf(client: bool, counter: nat, tail: seq<byte>): seq<byte>
    requires counter < TWO_64
  {
    EightBytes();
    var bs := BigEndian(counter, 8);
    [Stamp(bs[0], client)] + bs[1..] + tail
  }

  /** The first eight bytes hold the counter modulo 2^63 and, above it, the direction. */
  lemma HeadOfNonce(client: bool, counter: nat, tail: seq<byte>)
    requires counter < TWO_64
    ensures |NonceOf(client, counter, tail)| == 8 + |tail|
    ensures Value(NonceOf(client, counter, tail)[..8]) == counter % TWO_63 + if client then TWO_63 else 0
  {
    EightBytes();
    ValueOfBigEndian(counter, 8);
    var bs := BigEndian(counter, 8);
    var head := NonceOf(client, counter, tail)[..8];
    assert head[1..] == bs[1..];
    var p := 0x100_0000_0000_0000;
    var b := bs[0] as nat;
    assert counter == b * p + Value(bs[1..]);
    ValueIsBounded(bs[1..]);
    TopBit(b, Value(bs[1..]));
  }

  lemma {:induction false} ValueIsBounded(bs: seq<byte>)
    ensures Value(bs) < Pow256(|bs|)
  {
    if bs != [] {
      hide Value;
      ValueIsBounded(bs[1..]);
      ValueHead(bs);
      var p := Pow256(|bs| - 1);
      MulBound(bs[0] as nat, p);
      assert Pow256(|bs|) == 256 * p;
    }
  }

  lemma TopBit(b: nat, low: nat)
    requires b < 256 && low < 0x100_0000_0000_0000
    ensures (b * 0x100_0000_0000_0000 + low) % TWO_63 == b % 128 * 0x100_0000_0000_0000 + low
  {
    var q, r := b / 128, b % 128;
    assert b * 0x100_0000_0000_0000 + low == q * TWO_63 + (r * 0x100_0000_0000_0000 + low);
    assert r * 0x100_0000_0000_0000 + low < TWO_63;
  }

  /** Two nonces agree exactly if direction, counter modulo 2^63 and tail agree. */
  lemma NoncesEqualIff(client: bool, counter: nat, tail: seq<byte>, client': bool, counter': nat, tail': seq<byte>)
    requires counter < TWO_64 && counter' < TWO_64
    ensures NonceOf(client, counter, tail) == NonceOf(client', counter', tail') <==>
              client == client' && counter % TWO_63 == counter' % TWO_63 && tail == tail'
  {
    var a, b := NonceOf(client, counter, tail), NonceOf(client', counter', tail');
    HeadOfNonce(client, counter, tail);
    HeadOfNonce(client', counter', tail');
    assert a == a[..8] + tail && b == b[..8] + tail';
    if a == b {
      assert tail == a[8..] && tail' == b[8..];
    }
    if client == client' && counter % TWO_63 == counter' % TWO_63 && tail == tail' {
      SameValueSameBytes(a[..8], b[..8]);
    }
  }

  lemma {:induction false} SameValueSameBytes(a: seq<byte>, b: seq<byte>)
    requires |a| == |b| && Value(a) == Value(b)
    ensures a == b
  {
    if a != [] {
      var p := Pow256(|a| - 1);
      ValueIsBounded(a[1..]);
      ValueIsBounded(b[1..]);
      Digits(a[0] as nat, Value(a[1..]), b[0] as nat, Value(b[1..]), p);
      SameValueSameBytes(a[1..], b[1..]);
      assert a == [a[0]] + a[1..] && b == [b[0]] + b[1..];
    }
  }

  lemma Digits(x: nat, low: nat, y: nat, low': nat, p: nat)
    requires low < p && low' < p && x * p + low == y * p + low'
    ensures x == y && low == low'
  {
    Below(x, y, p);
    Below(y, x, p);
  }

  lemma {:induction false} Below(x: nat, y: nat, p: nat)
    ensures x < y ==> x * p + p <= y * p
  {
    if x + 1 < y {
      Below(x, y - 1, p);
    }
  }

  // ---------------------------------------------------------------- sessions

  /** One side of a session. */
  class Session {
    const client: bool
    var encryptCounter: nat

    ghost predicate Valid()
      reads this
    {
      encryptCounter < TWO_64
    }

    constructor (client: bool)
      ensures Valid() && this.client == client && encryptCounter == 0
    {
      this.client := client;
      encryptCounter := 0;
    }

    /** Advances the counter and fills the nonce in place; `None` when the random tail cannot be drawn. */
    method NextNonce(tail: Option<seq<byte>>) returns (result: Option<seq<byte>>)
      requires Valid() && (tail.Some? ==> |tail.value| == 4)
      modifies this
      ensures Valid() && encryptCounter == (old(encryptCounter) + 1) % TWO_64
      ensures result == if tail.Some? then Some(NonceOf(client, encryptCounter, tail.value)) else None
    {
      var nonce := new byte[12](_ => 0);
      encryptCounter := (encryptCounter + 1) % TWO_64;
      EightBytes();
      var bs := BigEndian(encryptCounter, 8);
      forall i | 0 <= i < 8 {
        nonce[i] := bs[i];
      }
      nonce[0] := Stamp(nonce[0], client);
      if tail.None? {
        return None;
      }
      forall i | 0 <= i < 4 {
        nonce[8 + i] := tail.value[i];
      }
      assert nonce[..] == NonceOf(client, encryptCounter, tail.value);
      result := Some(nonce[..]);
    }
  }

  /** One encryption: whose it is, and the random tail, if it could be drawn. */
  datatype Draw = Draw(client: bool, tail: Option<seq<byte>>)

  function Count(draws: seq<Draw>, client: bool): (n: nat)
    ensures n <= |draws|
  {
    if draws == [] then 0 else Count(draws[..|draws| - 1], client) + if draws[|draws| - 1].client == client then 1 else 0
  }

  lemma {:induction false} CountGrows(draws: seq<Draw>, client: bool, i: nat, j: nat)
    requires i <= j <= |draws|
    ensures Count(draws[..i], client) <= Count(draws[..j], client)
    ensures i < j && draws[j - 1].client == client ==> Count(draws[..i], client) < Count(draws[..j], client)
    decreases j
  {
    if i < j {
      assert draws[..j][..j - 1] == draws[..j - 1];
      CountGrows(draws, client, i, j - 1);
    }
  }

  /** The nonce of the `k`-th encryption of the session. */
  function NonceAt(draws: seq<Draw>, k: nat): seq<byte>
    requires k < |draws| && draws[k].tail.Some?
  {
    NonceOf(draws[k].client, Count(draws[..k + 1], draws[k].client) % TWO_64, draws[k].tail.value)
  }

  /**
   No nonce is used twice: over every interleaving of the two sides with at most
   2^63 encryptions each, all nonces differ, whatever the random tails.
   */
  lemma NoncesAreDistinct(draws: seq<Draw>, i: nat, j: nat)
    requires Count(draws, false) <= TWO_63 && Count(draws, true) <= TWO_63
    requires i < j < |draws| && draws[i].tail.Some? && draws[j].tail.Some?
    ensures NonceAt(draws, i) != NonceAt(draws, j)
  {
    hide NonceOf, Count;
    var a := Count(draws[..i + 1], draws[i].client);
    var b := Count(draws[..j + 1], draws[j].client);
    assert draws[..|draws|] == draws;
    CountGrows(draws, draws[i].client, i + 1, |draws|);
    CountGrows(draws, draws[j].client, j + 1, |draws|);
    CountGrows(draws, draws[i].client, i, i + 1);
    CountGrows(draws, draws[j].client, i + 1, j + 1);
    if draws[i].client == draws[j].client {
      Residues(a, b);
    }
    NoncesEqualIff(draws[i].client, a % TWO_64, draws[i].tail.value, draws[j].client, b % TWO_64, draws[j].tail.value);
  }

  lemma Residues(a: nat, b: nat)
    requires 1 <= a < b <= TWO_63
    ensures a % TWO_64 % TWO_63 != b % TWO_64 % TWO_63
  {
  }

  function Repeat(client: bool, tail: seq<byte>, n: nat): seq<Draw> {
    seq(n, _ => Draw(client, Some(tail)))
  }

  lemma {:induction false} CountRepeat(client: bool, tail: seq<byte>, n: nat)
    ensures Count(Repeat(client, tail, n), client) == n && Count(Repeat(client, tail, n), !client) == 0
  {
    if n > 0 {
      assert Repeat(client, tail, n)[..n - 1] == Repeat(client, tail, n - 1);
      CountRepeat(client, tail, n - 1);
    }
  }

  /** The bound is exact: one side repeating a tail repeats a nonce exactly beyond 2^63 encryptions. */
  lemma DistinctIffWithinBound(client: bool, tail: seq<byte>, n: nat)
    ensures (forall i, j :: 0 <= i < j < n ==>
               NonceAt(Repeat(client, tail, n), i) != NonceAt(Repeat(client, tail, n), j))
            <==> n <= TWO_63
  {
    hide NonceOf, Count;
    var draws := Repeat(client, tail, n);
    CountRepeat(client, tail, n);
    if n <= TWO_63 {
      forall i, j | 0 <= i < j < n
        ensures NonceAt(draws, i) != NonceAt(draws, j)
      {
        NoncesAreDistinct(draws, i, j);
      }
    } else {
      assert draws[..1] == Repeat(client, tail, 1) && draws[..TWO_63 + 1] == Repeat(client, tail, TWO_63 + 1);
      CountRepeat(client, tail, 1);
      CountRepeat(client, tail, TWO_63 + 1);
      NoncesEqualIff(client, 1, tail, client, TWO_63 + 1, tail);
      assert NonceAt(draws, 0) == NonceAt(draws, TWO_63);
    }
  }
}
