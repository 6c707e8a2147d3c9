/** What a finding fingerprint hashes: a length-prefixed list of parts (src/findings.rs). */
module Fingerprint {
  import opened Machine
  import opened Orders

  type byte = n: nat | n < 256

  type Bytes = seq<byte>

  /** The low `width` bytes of n, least significant first. */
  function LittleEndian(n: nat, width: nat): (bs: Bytes)
    ensures |bs| == width
  {
    if width == 0 then [] else [n % 256] + LittleEndian(n / 256, width - 1)
  }

  function Value(bs: Bytes): nat {
    if bs == [] then 0 else bs[0] + 256 * Value(bs[1..])
  }

  function Power256(width: nat): nat {
    if width == 0 then 1 else 256 * Power256(width - 1)
  }

  /** Later bytes weigh more: each 256 times the one before it. */
  lemma {:induction false} LaterBytesWeighMore(bs: Bytes, last: byte)
    ensures Value(bs + [last]) == Value(bs) + Power256(|bs|) * last
  {
    if bs != [] {
      assert (bs + [last])[1..] == bs[1..] + [last];
      LaterBytesWeighMore(bs[1..], last);
      assert Power256(|bs|) * last == 256 * (Power256(|bs| - 1) * last);
    }
  }

  lemma {:induction false} ValueOfLittleEndian(n: nat, width: nat)
    requires n < Power256(width)
    ensures Value(LittleEndian(n, width)) == n
  {
    if width > 0 {
      ValueOfLittleEndian(n / 256, width - 1);
      assert LittleEndian(n, width)[1..] == LittleEndian(n / 256, width - 1);
    }
  }

  lemma {:induction false} LittleEndianOfValue(bs: Bytes)
    ensures LittleEndian(Value(bs), |bs|) == bs
    ensures Value(bs) < Power256(|bs|)
  {
    if bs != [] {
      LittleEndianOfValue(bs[1..]);
      assert bs == [bs[0]] + bs[1..];
      assert Value(bs) / 256 == Value(bs[1..]) && Value(bs) % 256 == bs[0];
    }
  }

  const LENGTH_BYTES := 8

  lemma EightBytesHoldLengths()
    ensures Power256(LENGTH_BYTES) == USIZE_MAX + 1
  {
    assert Power256(4) == 0x1_0000_0000;
    assert Power256(8) == 256 * 256 * 256 * 256 * Power256(4);
  }

  /** Each part is preceded by its length as a little-endian usize. */
  function Encode(parts: seq<Bytes>): Bytes {
    if parts == [] then [] else LittleEndian(|parts[0]|, LENGTH_BYTES) + parts[0] + Encode(parts[1..])
  }

  function Decode(bytes: Bytes): Option<seq<Bytes>>
    decreases |bytes|
  {
    if bytes == [] then Some([])
    else if |bytes| < LENGTH_BYTES then None
    else
      var length := Value(bytes[..LENGTH_BYTES]);
      if |bytes| < LENGTH_BYTES + length then None
      else
        var tail := Decode(bytes[LENGTH_BYTES + length..]);
        if tail.None? then None else Some([bytes[LENGTH_BYTES..LENGTH_BYTES + length]] + tail.value)
  }

  /** A part is a Rust string, so its length fits usize. */
  ghost predicate Sized(parts: seq<Bytes>) {
    forall p :: p in parts ==> |p| <= USIZE_MAX
  }

  lemma {:induction false} DecodeEncode(parts: seq<Bytes>)
    requires Sized(parts)
    ensures Decode(Encode(parts)) == Some(parts)
  {
    if parts != [] {
      var part, bytes := parts[0], Encode(parts);
      EightBytesHoldLengths();
      ValueOfLittleEndian(|part|, LENGTH_BYTES);
      assert bytes[..LENGTH_BYTES] == LittleEndian(|part|, LENGTH_BYTES);
      assert bytes[LENGTH_BYTES..LENGTH_BYTES + |part|] == part;
      assert bytes[LENGTH_BYTES + |part|..] == Encode(parts[1..]);
      DecodeEncode(parts[1..]);
      assert parts == [part] + parts[1..];
    }
  }

  /** The encoding is onto the decodable byte strings too. */
  lemma {:induction false} EncodeDecode(bytes: Bytes)
    requires Decode(bytes).Some?
    ensures Encode(Decode(bytes).value) == bytes
    decreases |bytes|
  {
    if bytes != [] {
      var length := Value(bytes[..LENGTH_BYTES]);
      EncodeDecode(bytes[LENGTH_BYTES + length..]);
      LittleEndianOfValue(bytes[..LENGTH_BYTES]);
      assert bytes == bytes[..LENGTH_BYTES] + bytes[LENGTH_BYTES..LENGTH_BYTES + length]
             + bytes[LENGTH_BYTES + length..];
      var parts := Decode(bytes).value;
      assert parts[1..] == Decode(bytes[LENGTH_BYTES + length..]).value;
    }
  }

  /** Different part lists are never hashed as the same bytes. */
  lemma EncodeInjective(a: seq<Bytes>, b: seq<Bytes>)
    requires Sized(a) && Sized(b) && Encode(a) == Encode(b)
    ensures a == b
  {
    DecodeEncode(a);
    DecodeEncode(b);
  }

  // ---------- Path fingerprints ----------

  /** UTF-8 and the 128-bit hash printed as 32 hex digits, as given by the standard library and xxh3. */
  datatype Hashing = Hashing(utf8: string -> Bytes, hex: Bytes -> string)

  ghost predicate Contract(h: Hashing) {
    && (forall x, y :: h.utf8(x) == h.utf8(y) ==> x == y)
    && (forall b :: |h.hex(b)| == 32)
  }

  function PartBytes(h: Hashing, parts: seq<string>): seq<Bytes> {
    seq(|parts|, i requires 0 <= i < |parts| => h.utf8(parts[i]))
  }

  method FingerprintOf(h: Hashing, parts: seq<string>) returns (r: string)
    ensures r == h.hex(Encode(PartBytes(h, parts)))
  {
    var bytes: Bytes := [];
    assert parts[0..] == parts;
    for k := 0 to |parts|
      invariant bytes + Encode(PartBytes(h, parts[k..])) == Encode(PartBytes(h, parts))
    {
      var part := h.utf8(parts[k]);
      assert PartBytes(h, parts[k..])[0] == part;
      assert PartBytes(h, parts[k..])[1..] == PartBytes(h, parts[k + 1..]);
      ghost var tail := Encode(PartBytes(h, parts[k + 1..]));
      var prefix := LittleEndian(|part|, LENGTH_BYTES);
      assert bytes + (prefix + part + tail) == bytes + prefix + part + tail;
      bytes := bytes + prefix + part;
    }
    assert PartBytes(h, parts[|parts|..]) == [];
    assert bytes + [] == bytes;
    r := h.hex(bytes);
  }

  function Normalized(path: Path): string {
    seq(|path|, i requires 0 <= i < |path| => if path[i] == '\\' then '/' else path[i])
  }

  function Hashed(h: Hashing, kind: string, path: Path, identity: string): Bytes {
    Encode(PartBytes(h, [kind + ":v1", Normalized(path), identity]))
  }

  function PathFingerprint(h: Hashing, kind: string, path: Path, identity: string): string {
    kind + ":v1" + ":" + h.hex(Hashed(h, kind, path, identity))
  }

  /** The path with every backslash turned into a slash. */
  ghost predicate Slashed(path: Path, s: string) {
    && |s| == |path|
    && forall i :: 0 <= i < |path| ==> (path[i] == '\\' ==> s[i] == '/') && (path[i] != '\\' ==> s[i] == path[i])
  }

  /** What is hashed can be read back: the versioned kind, the path with slashes, and the identity, in this order. */
  lemma HashedReadsBack(h: Hashing, kind: string, path: Path, identity: string)
    returns (bytes: Bytes, parts: seq<Bytes>, slashed: string)
    requires Sized(PartBytes(h, [kind + ":v1", Normalized(path), identity]))
    ensures PathFingerprint(h, kind, path, identity) == kind + ":v1:" + h.hex(bytes) && Decode(bytes) == Some(parts)
    ensures Slashed(path, slashed)
    ensures parts == [h.utf8(kind + ":v1"), h.utf8(slashed), h.utf8(identity)]
  {
    slashed := Normalized(path);
    bytes := Hashed(h, kind, path, identity);
    parts := PartBytes(h, [kind + ":v1", slashed, identity]);
    DecodeEncode(parts);
    assert kind + ":v1" + ":" + h.hex(bytes) == kind + ":v1:" + h.hex(bytes);
  }

  /** The same path, written with slashes or backslashes. */
  ghost predicate SamePath(p: Path, q: Path) {
    |p| == |q| && forall i :: 0 <= i < |p| ==> p[i] == q[i] || (p[i] in "/\\" && q[i] in "/\\")
  }

  lemma NormalizedSamePath(p: Path, q: Path)
    ensures Normalized(p) == Normalized(q) <==> SamePath(p, q)
  {
    if Normalized(p) == Normalized(q) {
      forall i | 0 <= i < |p|
        ensures |p| == |q| && (p[i] == q[i] || (p[i] in "/\\" && q[i] in "/\\"))
      {
        assert Normalized(p)[i] == Normalized(q)[i];
        assert '/' in "/\\" && '\\' in "/\\" by { assert "/\\"[0] == '/' && "/\\"[1] == '\\'; }
      }
      assert |Normalized(p)| == |Normalized(q)|;
    }
  }

  /** Short of a hash collision, fingerprints agree exactly on the same kind, path and identity. */
  lemma FingerprintIdentifies(h: Hashing, k1: string, p1: Path, i1: string, k2: string, p2: Path, i2: string)
    requires Contract(h)
    requires Sized(PartBytes(h, [k1 + ":v1", Normalized(p1), i1]))
             && Sized(PartBytes(h, [k2 + ":v1", Normalized(p2), i2]))
    requires h.hex(Hashed(h, k1, p1, i1)) == h.hex(Hashed(h, k2, p2, i2)) ==>
               Hashed(h, k1, p1, i1) == Hashed(h, k2, p2, i2)
    ensures PathFingerprint(h, k1, p1, i1) == PathFingerprint(h, k2, p2, i2)
            <==> k1 == k2 && SamePath(p1, p2) && i1 == i2
  {
    NormalizedSamePath(p1, p2);
    SameFingerprint(h, k1, p1, i1, k2, p2, i2);
  }

  lemma SameFingerprint(h: Hashing, k1: string, p1: Path, i1: string, k2: string, p2: Path, i2: string)
    requires Contract(h)
    requires Sized(PartBytes(h, [k1 + ":v1", Normalized(p1), i1]))
             && Sized(PartBytes(h, [k2 + ":v1", Normalized(p2), i2]))
    requires h.hex(Hashed(h, k1, p1, i1)) == h.hex(Hashed(h, k2, p2, i2)) ==>
               Hashed(h, k1, p1, i1) == Hashed(h, k2, p2, i2)
    ensures PathFingerprint(h, k1, p1, i1) == PathFingerprint(h, k2, p2, i2)
            <==> k1 == k2 && Normalized(p1) == Normalized(p2) && i1 == i2
  {
    var f1, f2 := PathFingerprint(h, k1, p1, i1), PathFingerprint(h, k2, p2, i2);
    var d1, d2 := h.hex(Hashed(h, k1, p1, i1)), h.hex(Hashed(h, k2, p2, i2));
    assert f1[|f1| - 32..] == d1 && f2[|f2| - 32..] == d2;
    if f1 == f2 {
      var a, b := [k1 + ":v1", Normalized(p1), i1], [k2 + ":v1", Normalized(p2), i2];
      EncodeInjective(PartBytes(h, a), PartBytes(h, b));
      assert PartBytes(h, a)[0] == PartBytes(h, b)[0];
      assert PartBytes(h, a)[1] == PartBytes(h, b)[1];
      assert PartBytes(h, a)[2] == PartBytes(h, b)[2];
      assert (k1 + ":v1")[..|k1 + ":v1"| - 3] == k1 && (k2 + ":v1")[..|k2 + ":v1"| - 3] == k2;
    }
  }

  /** Normalization is not injective: two different Unix paths share every fingerprint. */
  lemma SeparatorsShareFingerprints(h: Hashing, kind: string, identity: string)
    ensures PathFingerprint(h, kind, "a\\b", identity) == PathFingerprint(h, kind, "a/b", identity)
  {
    assert Normalized("a\\b") == Normalized("a/b");
  }
}
