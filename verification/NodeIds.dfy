/**
 Node ids: the first eight hexadecimal digits of a digest of the cluster
 address (SHA-256, section 6.2 of FIPS 180-4), read as the big-endian bytes of
 a 64-bit number. The digest itself is a parameter.
 */
module NodeIds {
  import opened Wrappers
  import opened RaftMessages
  import opened NetworkSpec

  type nibble = x: int | 0 <= x < 16

  /** The character code of a lower-case hexadecimal digit. */
  function HexDigit(n: nibble): byte {
    if n < 10 then 0x30 + n else 0x61 + (n - 10)
  }

  /** The two halves of every byte, high half first. */
  function Nibbles(bytes: seq<byte>): (ns: seq<nibble>)
    ensures |ns| == 2 * |bytes|
  {
    if bytes == [] then [] else [bytes[0] / 16, bytes[0] % 16] + Nibbles(bytes[1..])
  }

  function Hex(ns: seq<nibble>): (s: seq<byte>)
    ensures |s| == |ns|
  {
    seq(|ns|, k requires 0 <= k < |ns| => HexDigit(ns[k]))
  }

  /** The number with these digits, most significant first. */
  function BigEndian(base: nat, digits: seq<int>): int {
    if digits == [] then 0
    else BigEndian(base, digits[..|digits| - 1]) * base + digits[|digits| - 1]
  }

  const DIGEST_BYTES := 32
  const PREFIX_DIGITS := 8

  /** The id that belongs to a digest. */
  function IdOf(digest: seq<byte>): int
    requires |digest| == DIGEST_BYTES
  {
    BigEndian(256, Hex(Nibbles(digest))[..PREFIX_DIGITS])
  }

  /** The first 32 bits of a digest. */
  function FirstWord(digest: seq<byte>): int
    requires |digest| == DIGEST_BYTES
  {
    BigEndian(256, digest[..4])
  }

  /** Hash the address, copy the first eight digits of the text into a buffer, read the buffer. */
  method GenerateNodeId(address: string, sha256: string -> seq<byte>) returns (id: int)
    requires |sha256(address)| == DIGEST_BYTES
    ensures id == IdOf(sha256(address))
    ensures 0 <= id < 0x1_0000_0000_0000_0000
  {
    var text := Hex(Nibbles(sha256(address)));
    var buf := new byte[PREFIX_DIGITS](_ => 0);
    var k := 0;
    while k < PREFIX_DIGITS
      invariant 0 <= k <= PREFIX_DIGITS
      invariant buf[..k] == text[..k]
    {
      buf[k] := text[k];
      k := k + 1;
    }
    assert buf[..] == text[..PREFIX_DIGITS];
    id := 0;
    k := 0;
    while k < PREFIX_DIGITS
      invariant 0 <= k <= PREFIX_DIGITS
      invariant id == BigEndian(256, buf[..k])
      invariant buf[..] == text[..PREFIX_DIGITS]
    {
      assert buf[..k + 1][..k] == buf[..k];
      id := id * 256 + buf[k];
      k := k + 1;
    }
    assert buf[..k] == buf[..];
    IdRange(sha256(address));
  }

  /** Comparing numbers of equally many digits does not depend on base or coding, as long as order is kept. */
  lemma {:induction false} OrderOfCoded(a: seq<nibble>, b: seq<nibble>)
    requires |a| == |b|
    ensures BigEndian(16, a) < BigEndian(16, b) <==> BigEndian(256, Hex(a)) < BigEndian(256, Hex(b))
    ensures BigEndian(16, a) == BigEndian(16, b) <==> BigEndian(256, Hex(a)) == BigEndian(256, Hex(b))
  {
    if a != [] {
      var n := |a| - 1;
      OrderOfCoded(a[..n], b[..n]);
      assert Hex(a)[..n] == Hex(a[..n]) && Hex(b)[..n] == Hex(b[..n]);
    }
  }

  /** Reading bytes or the halves of bytes gives the same number. */
  lemma {:induction false} NibblesSameNumber(bytes: seq<byte>)
    ensures BigEndian(16, Nibbles(bytes)) == BigEndian(256, bytes)
  {
    if bytes != [] {
      var n := |bytes| - 1;
      NibblesSameNumber(bytes[..n]);
      NibblesLast(bytes);
      var ns := Nibbles(bytes);
      assert ns[..|ns| - 1][..|ns| - 2] == Nibbles(bytes[..n]);
      assert BigEndian(16, ns[..|ns| - 1]) == BigEndian(16, Nibbles(bytes[..n])) * 16 + bytes[n] / 16;
    }
  }

  lemma {:induction false} NibblesLast(bytes: seq<byte>)
    requires bytes != []
    ensures Nibbles(bytes) == Nibbles(bytes[..|bytes| - 1]) + [bytes[|bytes| - 1] / 16, bytes[|bytes| - 1] % 16]
  {
    if |bytes| > 1 {
      NibblesLast(bytes[1..]);
      assert bytes[1..][..|bytes| - 2] == bytes[..|bytes| - 1][1..];
    }
  }

  lemma {:induction false} NibblesPrefix(bytes: seq<byte>, n: nat)
    requires n <= |bytes|
    ensures Nibbles(bytes)[..2 * n] == Nibbles(bytes[..n])
  {
    if n > 0 {
      NibblesPrefix(bytes[1..], n - 1);
      assert bytes[..n][1..] == bytes[1..][..n - 1];
      assert Nibbles(bytes)[..2 * n] == [bytes[0] / 16, bytes[0] % 16] + Nibbles(bytes[1..])[..2 * (n - 1)];
    }
  }

  /** Ids are ordered as the first 32 bits of the digests, and equal only if those are. */
  lemma IdsFollowDigests(d: seq<byte>, e: seq<byte>)
    requires |d| == DIGEST_BYTES && |e| == DIGEST_BYTES
    ensures IdOf(d) < IdOf(e) <==> FirstWord(d) < FirstWord(e)
    ensures IdOf(d) == IdOf(e) <==> FirstWord(d) == FirstWord(e)
  {
    NibblesPrefix(d, 4);
    NibblesPrefix(e, 4);
    NibblesSameNumber(d[..4]);
    NibblesSameNumber(e[..4]);
    assert Hex(Nibbles(d))[..PREFIX_DIGITS] == Hex(Nibbles(d[..4]));
    assert Hex(Nibbles(e))[..PREFIX_DIGITS] == Hex(Nibbles(e[..4]));
    OrderOfCoded(Nibbles(d[..4]), Nibbles(e[..4]));
  }

  /** The number of n equal bytes. */
  function Repeated(b: byte, n: nat): int {
    if n == 0 then 0 else Repeated(b, n - 1) * 256 + b
  }

  lemma {:induction false} HexRange(ns: seq<nibble>)
    ensures Repeated(0x30, |ns|) <= BigEndian(256, Hex(ns)) <= Repeated(0x66, |ns|)
  {
    if ns != [] {
      var n := |ns| - 1;
      HexRange(ns[..n]);
      assert Hex(ns)[..n] == Hex(ns[..n]);
    }
  }

  lemma IdRange(digest: seq<byte>)
    requires |digest| == DIGEST_BYTES
    ensures 0x3030303030303030 <= IdOf(digest) <= 0x6666666666666666
  {
    var ns := Nibbles(digest)[..PREFIX_DIGITS];
    assert Hex(Nibbles(digest))[..PREFIX_DIGITS] == Hex(ns);
    HexRange(ns);
    assert Repeated(0x30, 4) == 0x30303030 && Repeated(0x66, 4) == 0x66666666;
    assert Repeated(0x30, 8) == 0x3030303030303030 && Repeated(0x66, 8) == 0x6666666666666666;
  }

  /** The digits of the hexadecimal text. */
  const DIGITS := "0123456789abcdef"

  /** The byte of a number with j bytes below it. */
  function ByteAbove(n: int, j: nat): int
    decreases j
  {
    if j == 0 then n % 256 else ByteAbove(n / 256, j - 1)
  }

  lemma {:induction false} NibbleAt(bytes: seq<byte>, k: nat)
    requires k < 2 * |bytes|
    ensures Nibbles(bytes)[k] == if k % 2 == 0 then bytes[k / 2] / 16 else bytes[k / 2] % 16
    decreases |bytes|
  {
    if k >= 2 {
      NibbleAt(bytes[1..], k - 2);
      assert Nibbles(bytes)[k] == Nibbles(bytes[1..])[k - 2];
      assert (k - 2) / 2 == k / 2 - 1 && (k - 2) % 2 == k % 2;
    }
  }

  lemma {:induction false} BytesOfNumber(b: seq<byte>, j: nat)
    requires j < |b|
    ensures ByteAbove(BigEndian(256, b), j) == b[|b| - 1 - j]
    decreases j
  {
    var front := b[..|b| - 1];
    assert BigEndian(256, b) / 256 == BigEndian(256, front) && BigEndian(256, b) % 256 == b[|b| - 1];
    if j > 0 {
      BytesOfNumber(front, j - 1);
    }
  }

  /**
   Byte k of an id is the character, in the hexadecimal text of the digest, of its
   k-th half byte, the high half of a byte first.
   */
  lemma IdSpellsDigest(digest: seq<byte>, k: nat)
    requires |digest| == DIGEST_BYTES && k < 8
    ensures var half := if k % 2 == 0 then digest[k / 2] / 16 else digest[k / 2] % 16;
            ByteAbove(IdOf(digest), 7 - k) == DIGITS[half] as int
  {
    var half := if k % 2 == 0 then digest[k / 2] / 16 else digest[k / 2] % 16;
    var text := Hex(Nibbles(digest))[..PREFIX_DIGITS];
    NibbleAt(digest, k);
    BytesOfNumber(text, 7 - k);
    assert text[k] == HexDigit(half);
    DigitIsCharacter(half);
  }

  lemma DigitIsCharacter(n: nibble)
    ensures HexDigit(n) == DIGITS[n] as int
  {
    assert DIGITS == ['0', '1', '2', '3', '4', '5', '6', '7', '8', '9', 'a', 'b', 'c', 'd', 'e', 'f'];
  }

  lemma {:induction false} EqualBytes(b: byte, bytes: seq<byte>)
    requires forall k :: 0 <= k < |bytes| ==> bytes[k] == b
    ensures BigEndian(256, bytes) == Repeated(b, |bytes|)
  {
    if bytes != [] {
      EqualBytes(b, bytes[..|bytes| - 1]);
    }
  }

  /** Both bounds are attained: by the digest of zeros, and by that of 0xff. */
  lemma BoundsAttained()
    ensures IdOf(seq(DIGEST_BYTES, _ => 0)) == 0x3030303030303030
    ensures IdOf(seq(DIGEST_BYTES, _ => 255)) == 0x6666666666666666
  {
    var zeros: seq<byte>, ones: seq<byte> := seq(DIGEST_BYTES, _ => 0), seq(DIGEST_BYTES, _ => 255);
    forall k: nat | k < PREFIX_DIGITS
      ensures Hex(Nibbles(zeros))[k] == 0x30 && Hex(Nibbles(ones))[k] == 0x66
    {
      NibbleAt(zeros, k);
      NibbleAt(ones, k);
    }
    EqualBytes(0x30, Hex(Nibbles(zeros))[..PREFIX_DIGITS]);
    EqualBytes(0x66, Hex(Nibbles(ones))[..PREFIX_DIGITS]);
    assert Repeated(0x30, 4) == 0x30303030 && Repeated(0x66, 4) == 0x66666666;
    assert Repeated(0x30, 8) == 0x3030303030303030 && Repeated(0x66, 8) == 0x6666666666666666;
  }

  /** The id a node query looks up: the one asked for, or what the ring knows about the address, or zero. */
  function QueriedId(asked: Option<NodeId>, onRing: Option<NodeId>): NodeId {
    match asked
    case Some(id) => id
    case None => match onRing case Some(id) => id case None => 0
  }

  ghost predicate Generated(id: NodeId) {
    exists digest :: |digest| == DIGEST_BYTES && IdOf(digest) == id
  }

  /** The answer of a node query: the id looked up, and the info registered for it. */
  function QueryNode(nodes: map<NodeId, NodeRef>, asked: Option<NodeId>, onRing: Option<NodeId>)
    : (NodeId, Option<NodeInfo>)
  {
    var id := QueriedId(asked, onRing);
    (id, if id in nodes then nodes[id].info else None)
  }

  /**
   A query finds info exactly when a node with info is registered under the id
   asked for, or, if no id is asked for, under the one the ring knows for the
   address; an id asked for wins over the ring, and falling back to zero never finds a
   node that is registered under its generated id.
   */
  lemma QueryFinds(nodes: map<NodeId, NodeRef>, asked: Option<NodeId>, onRing: Option<NodeId>)
    requires forall id :: id in nodes ==> Generated(id)
    ensures asked.Some? ==> QueryNode(nodes, asked, onRing).0 == asked.value
    ensures asked.None? && onRing.Some? ==> QueryNode(nodes, asked, onRing).0 == onRing.value
    ensures asked.None? && onRing.None? ==> QueryNode(nodes, asked, onRing) == (0, None)
    ensures QueryNode(nodes, asked, onRing).1.Some? <==>
            exists id :: id in nodes && nodes[id].info.Some?
                         && (asked == Some(id) || (asked.None? && onRing == Some(id)))
  {
    FallbackFindsNobody(nodes);
  }

  /** A query that falls back to zero never finds a node that is registered under its generated id. */
  lemma FallbackFindsNobody(nodes: map<NodeId, NodeRef>)
    requires forall id :: id in nodes ==> Generated(id)
    ensures QueriedId(None, None) !in nodes
  {
    if 0 in nodes {
      var digest :| |digest| == DIGEST_BYTES && IdOf(digest) == 0;
      IdRange(digest);
    }
  }
}
