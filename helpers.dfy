/**
 * The signing primitive: `hash` joins an ordered list of strings with no
 * separator, takes the SHA-1 digest of the bytes and renders it as lowercase
 * hexadecimal. SHA-1 itself is not modelled: every operation takes the digest
 * function as a parameter, so what is proved holds for any function that
 * returns 20 bytes.
 */
module Helpers {
  import opened Wrappers
  import opened Hex

  /** A Go string: an immutable sequence of bytes. `[]byte(s)` is the identity on it. */
  type GoString = seq<byte>

  /** Length of a SHA-1 digest in bytes (`sha1.Size`). */
  const Size: nat := 20

  type Digest = d: seq<byte> | |d| == Size witness seq(Size, _ => 0)

  /** The digest function `sha1.New().Write(..).Sum(nil)` stands for. */
  type Sha1 = seq<byte> -> Digest

  /**
   * `strings.Join(data, "")`: the fields one after another, nothing between
   * them. The first field is a prefix, every field fits inside the result,
   * and the result is empty exactly when every field is, so no separator is
   * ever added.
   */
  function Join(data: seq<GoString>): (s: GoString)
    ensures data != [] ==> data[0] <= s
    ensures forall i :: 0 <= i < |data| ==> |data[i]| <= |s|
    ensures s == [] <==> forall i :: 0 <= i < |data| ==> data[i] == []
  {
    if data == [] then [] else data[0] + Join(data[1..])
  }

  /**
   * `hash(data)`: the result is 40 lowercase hexadecimal digits and is the
   * rendering of the digest of the joined fields, which it decodes back to.
   */
  function Hash(sha1: Sha1, data: seq<GoString>): (h: GoString)
    ensures |h| == 2 * Size
    ensures IsLowerHex(h)
    ensures Decode(h) == Some(sha1(Join(data)))
  {
    DecodeEncode(sha1(Join(data)));
    Encode(sha1(Join(data)))
  }

  /** Joining distributes over appending lists of fields. */
  lemma {:induction false} JoinAppend(a: seq<GoString>, b: seq<GoString>)
    ensures Join(a + b) == Join(a) + Join(b)
  {
    if a != [] {
      assert (a + b)[0] == a[0] && (a + b)[1..] == a[1..] + b;
      JoinAppend(a[1..], b);
      calc {
        Join(a + b);
        a[0] + Join(a[1..] + b);
        a[0] + (Join(a[1..]) + Join(b));
        (a[0] + Join(a[1..])) + Join(b);
      }
    } else {
      assert a + b == b;
    }
  }

  /** Four fields, as every signer of this service uses, are plain concatenation. */
  lemma JoinFour(a: GoString, b: GoString, c: GoString, d: GoString)
    ensures Join([a, b, c, d]) == a + b + c + d
  {
    assert [a, b, c, d][1..] == [b, c, d];
    assert [b, c, d][1..] == [c, d];
    assert [c, d][1..] == [d];
    assert [d][1..] == [];
    assert Join([d]) == d + [] == d;
    assert Join([c, d]) == c + d;
    assert Join([b, c, d]) == b + (c + d);
    assert Join([a, b, c, d]) == a + (b + (c + d));
  }

  /**
   * Among lists whose fields have the same lengths, the join tells the lists
   * apart: changing any byte of any field changes the digest input.
   */
  lemma {:induction false} JoinInjectiveOnShape(a: seq<GoString>, b: seq<GoString>)
    requires |a| == |b|
    requires forall i :: 0 <= i < |a| ==> |a[i]| == |b[i]|
    requires Join(a) == Join(b)
    ensures a == b
  {
    if a != [] {
      var n := |a[0]|;
      assert a[0] == Join(a)[..n] == Join(b)[..n] == b[0];
      assert Join(a[1..]) == Join(a)[n..] == Join(b)[n..] == Join(b[1..]);
      JoinInjectiveOnShape(a[1..], b[1..]);
      assert a == [a[0]] + a[1..] && b == [b[0]] + b[1..];
    }
  }

  /**
   * Two hashes agree exactly when the digests of the joined fields agree: the
   * hexadecimal rendering loses nothing and adds nothing.
   */
  lemma HashEqualIff(sha1: Sha1, a: seq<GoString>, b: seq<GoString>)
    ensures Hash(sha1, a) == Hash(sha1, b) <==> sha1(Join(a)) == sha1(Join(b))
  {
  }

  /** Field boundaries are not signed: lists with the same join have the same hash. */
  lemma HashIgnoresFieldBoundaries(sha1: Sha1)
    ensures Hash(sha1, [[97, 98], [99]]) == Hash(sha1, [[97], [98, 99]])  // "ab","c" and "a","bc"
  {
    assert Join([[97, 98], [99]]) == Join([[97], [98, 99]]) by {
      assert [[97, 98], [99]][1..] == [[99]];
      assert [[97], [98, 99]][1..] == [[98, 99]];
    }
  }
}
