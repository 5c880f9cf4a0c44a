/**
 * The seeded byte generator of src/random.ts: a hash chain
 * s1 = H(s0), s2 = H(s1), ... whose digests are handed out in order, 32
 * bytes per hash step. SHA-256 is the parameter `hash`, a function that
 * returns 32 bytes; `Buffer` is `seq<byte>` or `array<byte>`.
 */
module Random {
  import opened Wrappers
  import opened Text

  newtype byte = x: int | 0 <= x < 256

  /** A SHA-256 digest: always 32 bytes. */
  type Digest = s: seq<byte> | |s| == 32 witness seq(32, _ => 0)

  /** `createHash('sha256').update(seed).digest()`, left uninterpreted. */
  type Hash = seq<byte> -> Digest

  const DigestLength: nat := 32

  /** The state after `k` hash steps from `s`. */
  function Iterate(h: Hash, s: seq<byte>, k: nat): (r: seq<byte>)
    ensures k > 0 ==> |r| == DigestLength
  {
    if k == 0 then s else h(Iterate(h, s, k - 1))
  }

  /** The digests of the first `k` steps from `s`, in order: H(s) + H(H(s)) + ... */
  function Stream(h: Hash, s: seq<byte>, k: nat): (r: seq<byte>)
    ensures |r| == DigestLength * k
  {
    if k == 0 then [] else Stream(h, s, k - 1) + Iterate(h, s, k)
  }

  /** The number of loop iterations `randomBytes(n)` performs: ceil(n / 32). */
  function Steps(n: nat): (k: nat)
    ensures n <= DigestLength * k
    ensures k == 0 || DigestLength * (k - 1) < n
  {
    (n + 31) / 32
  }

  /** The bytes `randomBytes(n)` returns from state `s`: the first `n` bytes of the next Steps(n) digests. */
  function Output(h: Hash, s: seq<byte>, n: nat): (r: seq<byte>)
    ensures |r| == n
  {
    Stream(h, s, Steps(n))[..n]
  }

  /** Hash steps compose: a steps and then b steps are a + b steps. */
  lemma {:induction false} IterateAdd(h: Hash, s: seq<byte>, a: nat, b: nat)
    ensures Iterate(h, Iterate(h, s, a), b) == Iterate(h, s, a + b)
  {
    if b > 0 {
      IterateAdd(h, s, a, b - 1);
    }
  }

  /** The stream of a + b steps is the stream of a steps followed by the stream of b more. */
  lemma {:induction false} StreamAdd(h: Hash, s: seq<byte>, a: nat, b: nat)
    ensures Stream(h, s, a + b) == Stream(h, s, a) + Stream(h, Iterate(h, s, a), b)
  {
    if b > 0 {
      StreamAdd(h, s, a, b - 1);
      IterateAdd(h, s, a, b);
    }
  }

  /** The output begins with H(seed) itself, never with the seed. */
  lemma OutputStartsWithHashOfSeed(h: Hash, s: seq<byte>, n: nat)
    requires 0 < n
    ensures Output(h, s, n)[0] == h(s)[0]
    ensures n <= DigestLength ==> Output(h, s, n) == h(s)[..n]
  {
    var k := Steps(n);
    StreamAdd(h, s, 1, k - 1);
    assert Stream(h, s, 1) == h(s) by {
      assert Stream(h, s, 1) == Stream(h, s, 0) + Iterate(h, s, 1);
    }
  }

  /**
   * Two successive calls read the chain's stream with a gap: the first
   * returns its first n bytes, the second starts at the next digest
   * boundary, so the leftover bytes of the first call's last digest are
   * never handed out.
   */
  lemma TwoCalls(h: Hash, s: seq<byte>, n: nat, m: nat)
    ensures
      var k := Steps(n);
      var stream := Stream(h, s, k + Steps(m));
      && Output(h, s, n) == stream[..n]
      && Output(h, Iterate(h, s, k), m) == stream[DigestLength * k..DigestLength * k + m]
  {
    var k := Steps(n);
    StreamAdd(h, s, k, Steps(m));
    var stream := Stream(h, s, k + Steps(m));
    assert stream[..DigestLength * k] == Stream(h, s, k);
    assert stream[DigestLength * k..] == Stream(h, Iterate(h, s, k), Steps(m));
  }

  /** When the first call asks for whole digests, nothing is dropped: two calls read like one. */
  lemma AlignedCallsConcatenate(h: Hash, s: seq<byte>, n: nat, m: nat)
    requires n % DigestLength == 0
    ensures Output(h, s, n) + Output(h, Iterate(h, s, Steps(n)), m) == Output(h, s, n + m)
  {
    var k := Steps(n);
    assert DigestLength * k == n;
    assert Steps(n + m) == k + Steps(m);
    TwoCalls(h, s, n, m);
    var stream := Stream(h, s, k + Steps(m));
    assert Output(h, s, n + m) == stream[..n + m];
    assert stream[..n + m] == stream[..n] + stream[n..n + m];
  }

  /**
   * The function `randomBytes` returned by the factory (src/random.ts:6-24),
   * with the closure variable `seed` as `state` and the properties the
   * factory sets on it as `seed` and `currentSeed`.
   */
  class Generator {
    const hash: Hash
    /** `randomBytes.seed`: the seed the generator was made with; nothing reassigns it. */
    const seed: seq<byte>
    /** The closure variable `seed`: the current link of the hash chain. */
    var state: seq<byte>
    /** `randomBytes.currentSeed`: assigned together with `state` on every step. */
    var currentSeed: seq<byte>
    /** The number of hash steps taken since the factory ran. */
    ghost var steps: nat

    /** The state is always the `steps`-th link of the chain that starts at `seed`. */
    ghost predicate Valid()
      reads this
    {
      currentSeed == state && state == Iterate(hash, seed, steps)
    }

    /** The factory (src/random.ts:6-10), with the seed given explicitly. */
    constructor (hash: Hash, seed: seq<byte>)
      ensures Valid()
      ensures this.hash == hash && this.seed == seed && state == seed && steps == 0
    {
      this.hash := hash;
      this.seed := seed;
      state := seed;
      currentSeed := seed;
      steps := 0;
    }

    /** `randomBytes(n)` (src/random.ts:12-23). */
    method RandomBytes(n: nat) returns (result: array<byte>)
      requires Valid()
      modifies this
      ensures Valid() && fresh(result)
      ensures result[..] == Output(hash, old(state), n)
      ensures state == Iterate(hash, old(state), Steps(n))
      ensures steps == old(steps) + Steps(n)
    {
      ghost var start := state;
      ghost var k: nat := 0;
      result := new byte[n];
      var used := 0;
      while used < result.Length
        invariant used == DigestLength * k
        invariant k == 0 || DigestLength * (k - 1) < n
        invariant state == currentSeed == Iterate(hash, start, k)
        invariant start == Iterate(hash, seed, old(steps))
        invariant steps == old(steps) + k
        invariant forall i :: 0 <= i < n && i < used ==> result[i] == Stream(hash, start, k)[i]
        decreases n - used
      {
        state := hash(state);
        currentSeed := state;
        forall i | used <= i < n && i < used + DigestLength {
          result[i] := state[i - used];
        }
        used := used + |state|;
        k := k + 1;
        steps := steps + 1;
      }
      assert k == Steps(n);
      assert result[..] == Output(hash, start, n);
      IterateAdd(hash, seed, old(steps), k);
    }
  }

  /** `Buffer.toString("hex")`: two lower-case hexadecimal digits per byte. */
  function Hex(bytes: seq<byte>): (text: string)
    ensures |text| == 2 * |bytes|
    ensures forall i :: 0 <= i < |text| ==> IsHexDigit(text[i])
  {
    if bytes == [] then ""
    else [HexDigit(bytes[0] as int / 16), HexDigit(bytes[0] as int % 16)] + Hex(bytes[1..])
  }

  /** Reading hexadecimal text back into bytes; `None` for odd length or a non-hex character. */
  function Unhex(text: string): Option<seq<byte>>
  {
    if text == [] then Some([])
    else if |text| < 2 || !IsHexDigit(text[0]) || !IsHexDigit(text[1]) then None
    else match Unhex(text[2..])
      case None => None
      case Some(rest) => Some([(HexValue(text[0]) * 16 + HexValue(text[1])) as byte] + rest)
  }

  /** Hex text loses nothing: reading it back gives the bytes. */
  lemma {:induction false} UnhexHex(bytes: seq<byte>)
    ensures Unhex(Hex(bytes)) == Some(bytes)
  {
    if bytes != [] {
      var b := bytes[0] as int;
      var text := Hex(bytes);
      assert text[2..] == Hex(bytes[1..]);
      UnhexHex(bytes[1..]);
      assert HexValue(text[0]) == b / 16 && HexValue(text[1]) == b % 16;
      assert [bytes[0]] + bytes[1..] == bytes;
    }
  }

  /** The UTF-8 encoding `hash.update(string)` applies to a string seed. */
  function Utf8(s: string): seq<byte>
  {
    if s == [] then [] else Utf8Char(s[0]) + Utf8(s[1..])
  }

  function Utf8Char(c: char): seq<byte>
  {
    var v := c as int;
    if v < 0x80 then [v as byte]
    else if v < 0x800 then [(0xC0 + v / 64) as byte, (0x80 + v % 64) as byte]
    else if v < 0x10000 then [(0xE0 + v / 4096) as byte, (0x80 + (v / 64) % 64) as byte, (0x80 + v % 64) as byte]
    else [(0xF0 + v / 262144) as byte, (0x80 + (v / 4096) % 64) as byte,
          (0x80 + (v / 64) % 64) as byte, (0x80 + v % 64) as byte]
  }
}
