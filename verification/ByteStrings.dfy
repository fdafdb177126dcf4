/** Byte strings, their concatenation, and big-endian 16-bit fields. */
module ByteStrings {
  type byte = x: int | 0 <= x < 256
  type Bytes = seq<byte>

  datatype Option<+T> = None | Some(value: T)

  /** The concatenation of a queue of buffers. */
  function Flatten(parts: seq<Bytes>): Bytes {
    if parts == [] then [] else parts[0] + Flatten(parts[1..])
  }

  lemma {:induction false} FlattenAppend(a: seq<Bytes>, b: seq<Bytes>)
    ensures Flatten(a + b) == Flatten(a) + Flatten(b)
  {
    if a == [] {
      assert a + b == b;
    } else {
      assert (a + b)[1..] == a[1..] + b;
      FlattenAppend(a[1..], b);
    }
  }

  lemma FlattenSnoc(a: seq<Bytes>, p: Bytes)
    ensures Flatten(a + [p]) == Flatten(a) + p
  {
    FlattenAppend(a, [p]);
    assert Flatten([p]) == p + Flatten([]) == p;
  }

  /** A prefix of a list of buffers concatenates to a prefix of the bytes. */
  lemma FlattenPrefix(a: seq<Bytes>, b: seq<Bytes>)
    requires a <= b
    ensures Flatten(a) <= Flatten(b)
  {
    assert b == a + b[|a|..];
    FlattenAppend(a, b[|a|..]);
  }

  function Be16(n: nat): (r: Bytes)
    requires n < 0x10000
    ensures |r| == 2
  {
    [n / 256, n % 256]
  }

  function ReadBe16(b: Bytes, offset: nat): (n: nat)
    requires offset + 2 <= |b|
    ensures n < 0x10000
  {
    b[offset] as int * 256 + b[offset + 1] as int
  }

  lemma ReadBe16Inverse(n: nat, before: Bytes, after: Bytes)
    requires n < 0x10000
    ensures ReadBe16(before + Be16(n) + after, |before|) == n
  {
    var s := before + Be16(n) + after;
    assert s[|before|] == n / 256;
    assert s[|before| + 1] == n % 256;
  }

  lemma Be16Inverse(b: Bytes)
    requires |b| == 2
    ensures Be16(ReadBe16(b, 0)) == b
  {
  }
}
