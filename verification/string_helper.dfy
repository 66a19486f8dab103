/** `StringHelper.RandomString`: random bytes mapped onto a 36-character
    alphabet. The cryptographic random source is not modelled; the bytes it
    fills in are the input. */
module StringHelper {

  type byte = b: int | 0 <= b < 256

  const Alphabet: string := "ABCDEFGHIJKLMNOPQRSTUVWXYZ0123456789"

  /** One character per byte: the byte, reduced modulo the alphabet size,
      indexes the alphabet. */
  function RandomString(bytes: seq<byte>): (s: string)
    ensures |s| == |bytes|
    ensures forall i | 0 <= i < |s| :: s[i] in Alphabet
  {
    seq(|bytes|, i requires 0 <= i < |bytes| => Alphabet[bytes[i] % |Alphabet|])
  }

  /** The mapping is character by character: it distributes over
      concatenation, and a single byte gives the alphabet entry at that byte
      modulo 36. With the empty case this determines every output. */
  lemma RandomStringIsPointwise(a: seq<byte>, b: seq<byte>, x: byte)
    ensures RandomString([]) == ""
    ensures RandomString(a + b) == RandomString(a) + RandomString(b)
    ensures RandomString([x]) == [Alphabet[x % 36]]
  {
  }

  /** Position of the first occurrence of `c` in `s`. */
  function IndexOf(s: string, c: char): (k: nat)
    requires c in s
    ensures k < |s| && s[k] == c
  {
    if s[0] == c then 0 else 1 + IndexOf(s[1..], c)
  }

  /** A byte block that `RandomString` turns into `code`. */
  function BytesFor(code: string): (bytes: seq<byte>)
    requires forall i | 0 <= i < |code| :: code[i] in Alphabet
    ensures |bytes| == |code|
    ensures forall i | 0 <= i < |code| :: bytes[i] < |Alphabet| && Alphabet[bytes[i]] == code[i]
  {
    seq(|code|, i requires 0 <= i < |code| => IndexOf(Alphabet, code[i]) as byte)
  }

  /** Every string over the alphabet is produced by some byte block of its
      length, so each of the 36 characters is reachable in every position. */
  lemma {:induction false} RandomStringIsOnto(code: string)
    requires forall i | 0 <= i < |code| :: code[i] in Alphabet
    ensures RandomString(BytesFor(code)) == code
  {
    var bytes := BytesFor(code);
    var s := RandomString(bytes);
    assert |s| == |code|;
    forall i | 0 <= i < |code|
      ensures s[i] == code[i]
    {
      ModSmall(bytes[i], |Alphabet|);
    }
  }

  lemma ModSmall(x: nat, n: nat)
    requires x < n
    ensures x % n == x
  {
  }

  /** Each alphabet character comes from a byte value in 0..255. */
  lemma {:induction false} EveryCharacterReachable(c: char)
    requires c in Alphabet
    ensures exists x: byte :: RandomString([x]) == [c]
  {
    RandomStringIsOnto([c]);
    var bytes := BytesFor([c]);
    assert bytes == [bytes[0]];
  }
}
