/** The key blob of a hybrid identity: printed by concatenation, parsed by slicing. */
module KeyBlob {
  import opened Wrappers

  type Byte = b: nat | b < 256

  // ---------- little-endian numbers ----------

  function Power(k: nat): nat {
    if k == 0 then 1 else 256 * Power(k - 1)
  }

  /** The low `k` bytes of a number, least significant first. */
  function LE(n: nat, k: nat): (bs: seq<Byte>)
    ensures |bs| == k
  {
    if k == 0 then [] else [n % 256] + LE(n / 256, k - 1)
  }

  function FromLE(bs: seq<Byte>): nat {
    if bs == [] then 0 else bs[0] + 256 * FromLE(bs[1..])
  }

  lemma {:induction false} FromLEBound(bs: seq<Byte>)
    ensures FromLE(bs) < Power(|bs|)
  {
    if bs != [] {
      FromLEBound(bs[1..]);
    }
  }

  lemma {:induction false} ReadBack(n: nat, k: nat)
    requires n < Power(k)
    ensures FromLE(LE(n, k)) == n
  {
    if k > 0 {
      ReadBack(n / 256, k - 1);
      assert LE(n, k)[1..] == LE(n / 256, k - 1);
    }
  }

  lemma {:induction false} PrintBack(bs: seq<Byte>)
    ensures LE(FromLE(bs), |bs|) == bs
  {
    if bs != [] {
      PrintBack(bs[1..]);
      assert bs == [bs[0]] + bs[1..];
      assert FromLE(bs) % 256 == bs[0] && FromLE(bs) / 256 == FromLE(bs[1..]);
    }
  }

  lemma Powers()
    ensures Power(4) == 0x1_0000_0000 && Power(8) == 0x1_0000_0000_0000_0000
  {
    assert Power(2) == 0x1_0000;
    assert Power(4) == 256 * (256 * Power(2));
    assert Power(6) == 256 * (256 * Power(4));
    assert Power(8) == 256 * (256 * Power(6));
  }

  // ---------- keys ----------

  const ED_HALF: nat := 32
  const ML_SECRET: nat := 4032
  const ML_PUBLIC: nat := 1952
  const NAME_AT: nat := 64 + ML_SECRET + ML_PUBLIC
  const U32: nat := 0x1_0000_0000
  const U64: nat := 0x1_0000_0000_0000_0000

  datatype Pair = Pair(secret: seq<Byte>, public: seq<Byte>)

  /** A hybrid key pair; the node id is kept as its UTF-8 bytes. */
  datatype KeyPair = KeyPair(ed: Pair, ml: Pair, nodeId: seq<Byte>, created: nat, expires: nat)

  /** What is outside: is a byte string UTF-8, and is a public key the one of a secret. */
  datatype Checks = Checks(utf8: seq<Byte> -> bool, matches: (seq<Byte>, seq<Byte>) -> bool)

  predicate Valid(c: Checks, k: KeyPair) {
    && |k.ed.secret| == ED_HALF && |k.ed.public| == ED_HALF && c.matches(k.ed.secret, k.ed.public)
    && |k.ml.secret| == ML_SECRET && |k.ml.public| == ML_PUBLIC
    && c.utf8(k.nodeId) && k.created < U64 && k.expires < U64
  }

  function EncodePair(p: Pair): seq<Byte> {
    p.secret + p.public
  }

  /** What follows the keys. The name's length is cut to 32 bits. */
  function EncodeTail(k: KeyPair): seq<Byte> {
    LE(|k.nodeId|, 4) + k.nodeId + (LE(k.created, 8) + LE(k.expires, 8))
  }

  function Encode(k: KeyPair): seq<Byte> {
    EncodePair(k.ed) + EncodePair(k.ml) + EncodeTail(k)
  }

  function DecodeEd(c: Checks, bs: seq<Byte>): Result<Pair> {
    if |bs| < 64 then Err(BadKeyMaterial)
    else if !c.matches(bs[..32], bs[32..64]) then Err(BadKeyMaterial)
    else Ok(Pair(bs[..32], bs[32..64]))
  }

  function DecodeMl(bs: seq<Byte>): Result<Pair> {
    if |bs| < ML_SECRET + ML_PUBLIC then Err(BadKeyMaterial)
    else Ok(Pair(bs[..ML_SECRET], bs[ML_SECRET..ML_SECRET + ML_PUBLIC]))
  }

  /** The name and the two timestamps, from the bytes after the keys. */
  function DecodeTail(c: Checks, bs: seq<Byte>): Result<(seq<Byte>, nat, nat)> {
    if |bs| < 4 then Err(BadEncoding)
    else
      var len := FromLE(bs[..4]);
      if 4 + len + 16 > |bs| then Err(BadEncoding)
      else if !c.utf8(bs[4..4 + len]) then Err(BadEncoding)
      else Ok((bs[4..4 + len], FromLE(bs[4 + len..12 + len]), FromLE(bs[12 + len..20 + len])))
  }

  function Decode(c: Checks, bs: seq<Byte>): Result<KeyPair> {
    if |bs| < NAME_AT + 4 then Err(BadEncoding)
    else
      match DecodeEd(c, bs[..64])
      case Err(e) => Err(e)
      case Ok(ed) =>
        match DecodeMl(bs[64..NAME_AT])
        case Err(e) => Err(e)
        case Ok(ml) =>
          match DecodeTail(c, bs[NAME_AT..])
          case Err(e) => Err(e)
          case Ok((name, created, expires)) => Ok(KeyPair(ed, ml, name, created, expires))
  }

  method ToBytes(k: KeyPair) returns (buf: seq<Byte>)
    ensures buf == Encode(k)
  {
    buf := k.ed.secret + k.ed.public;
    buf := buf + (k.ml.secret + k.ml.public);
    ghost var keys := buf;
    buf := buf + LE(|k.nodeId|, 4);
    buf := buf + k.nodeId;
    buf := buf + LE(k.created, 8);
    buf := buf + LE(k.expires, 8);
    assert buf == keys + EncodeTail(k);
  }

  // ---------- round trips ----------

  lemma Parts(a: seq<Byte>, name: seq<Byte>, b: seq<Byte>, c: seq<Byte>, more: seq<Byte>)
    requires |a| == 4 && |b| == 8 && |c| == 8
    ensures var bs := a + name + (b + c) + more;
            var len := |name|;
            && |bs| >= 20 + len && bs[..4] == a && bs[4..4 + len] == name
            && bs[4 + len..12 + len] == b && bs[12 + len..20 + len] == c
  {
  }

  lemma TailRoundTrip(c: Checks, k: KeyPair, more: seq<Byte>)
    requires |k.nodeId| < U32 && c.utf8(k.nodeId) && k.created < U64 && k.expires < U64
    ensures DecodeTail(c, EncodeTail(k) + more) == Ok((k.nodeId, k.created, k.expires))
  {
    hide LE, FromLE, Power;
    Powers();
    ReadBack(|k.nodeId|, 4);
    ReadBack(k.created, 8);
    ReadBack(k.expires, 8);
    Parts(LE(|k.nodeId|, 4), k.nodeId, LE(k.created, 8), LE(k.expires, 8), more);
  }

  /** A number shifted down by `i` bytes. */
  function Shifted(n: nat, i: nat): nat {
    if i == 0 then n else Shifted(n / 256, i - 1)
  }

  lemma {:induction false} ByteAt(n: nat, k: nat, i: nat)
    requires i < k
    ensures LE(n, k)[i] == Shifted(n, i) % 256
  {
    if i > 0 {
      ByteAt(n / 256, k - 1, i - 1);
    }
  }

  /** Where everything is in a blob, byte by byte. */
  lemma BlobLayout(c: Checks, k: KeyPair)
    requires Valid(c, k)
    ensures var bs := Encode(k);
            var n := |k.nodeId|;
            && |bs| == 6068 + n
            && bs[..32] == k.ed.secret && bs[32..64] == k.ed.public
            && bs[64..4096] == k.ml.secret && bs[4096..6048] == k.ml.public
            && bs[6052..6052 + n] == k.nodeId
            && (forall i :: 0 <= i < 4 ==> bs[6048 + i] == Shifted(n, i) % 256)
            && (forall i :: 0 <= i < 8 ==> bs[6052 + n + i] == Shifted(k.created, i) % 256)
            && (forall i :: 0 <= i < 8 ==> bs[6060 + n + i] == Shifted(k.expires, i) % 256)
  {
    hide LE, Shifted;
    forall i | 0 <= i < 4 ensures LE(|k.nodeId|, 4)[i] == Shifted(|k.nodeId|, i) % 256 {
      ByteAt(|k.nodeId|, 4, i);
    }
    forall i | 0 <= i < 8
      ensures LE(k.created, 8)[i] == Shifted(k.created, i) % 256 && LE(k.expires, 8)[i] == Shifted(k.expires, i) % 256
    {
      ByteAt(k.created, 8, i);
      ByteAt(k.expires, 8, i);
    }
    Sections(k.ed.secret, k.ed.public, k.ml.secret, k.ml.public, LE(|k.nodeId|, 4), k.nodeId, LE(k.created, 8), LE(k.expires, 8));
  }

  lemma Sections(a: seq<Byte>, b: seq<Byte>, c: seq<Byte>, d: seq<Byte>, len: seq<Byte>, name: seq<Byte>, x: seq<Byte>, y: seq<Byte>)
    requires |a| == |b| == 32 && |c| == 4032 && |d| == 1952 && |len| == 4 && |x| == |y| == 8
    ensures var bs := (a + b) + (c + d) + (len + name + (x + y));
            var n := |name|;
            && |bs| == 6068 + n && bs[..32] == a && bs[32..64] == b && bs[64..4096] == c && bs[4096..6048] == d
            && bs[6048..6052] == len && bs[6052..6052 + n] == name && bs[6052 + n..6060 + n] == x && bs[6060 + n..] == y
            && (forall i :: 0 <= i < 4 ==> bs[6048 + i] == len[i])
            && (forall i :: 0 <= i < 8 ==> bs[6052 + n + i] == x[i] && bs[6060 + n + i] == y[i])
  {
  }

  /** The keys come back from wherever the rest of the blob ends. */
  lemma KeysRoundTrip(c: Checks, k: KeyPair, tail: seq<Byte>)
    requires Valid(c, k) && |tail| >= 4
    ensures var bs := EncodePair(k.ed) + EncodePair(k.ml) + tail;
            |bs| >= NAME_AT + 4 && bs[NAME_AT..] == tail &&
            DecodeEd(c, bs[..64]) == Ok(k.ed) && DecodeMl(bs[64..NAME_AT]) == Ok(k.ml)
  {
    var bs := EncodePair(k.ed) + EncodePair(k.ml) + tail;
    var ed := bs[..64];
    assert ed == EncodePair(k.ed);
    assert ed[..32] == k.ed.secret && ed[32..64] == k.ed.public;
    var ml := bs[64..NAME_AT];
    assert ml == EncodePair(k.ml);
    assert ml[..ML_SECRET] == k.ml.secret && ml[ML_SECRET..ML_SECRET + ML_PUBLIC] == k.ml.public;
    assert bs[NAME_AT..] == tail;
  }

  /**
   A valid key pair is read back from its own bytes, whatever follows them, exactly when its name is
   shorter than 2^32 bytes.
   */
  lemma RoundTrip(c: Checks, k: KeyPair, more: seq<Byte>)
    requires Valid(c, k)
    ensures Decode(c, Encode(k) + more) == Ok(k) <==> |k.nodeId| < U32
  {
    hide LE, FromLE, Power, DecodeTail, DecodeEd, DecodeMl, EncodePair;
    var tail := EncodeTail(k) + more;
    assert Encode(k) + more == EncodePair(k.ed) + EncodePair(k.ml) + tail;
    KeysRoundTrip(c, k, tail);
    if |k.nodeId| < U32 {
      TailRoundTrip(c, k, more);
    } else {
      NameBound(c, tail);
    }
  }

  /** A parsed name is always shorter than 2^32 bytes. */
  lemma NameBound(c: Checks, bs: seq<Byte>)
    ensures DecodeTail(c, bs).Ok? ==> |DecodeTail(c, bs).value.0| < U32
  {
    if |bs| >= 4 {
      FromLEBound(bs[..4]);
      Powers();
    }
  }

  lemma TailPrefix(c: Checks, bs: seq<Byte>, k: KeyPair)
    requires DecodeTail(c, bs) == Ok((k.nodeId, k.created, k.expires))
    ensures EncodeTail(k) <= bs && c.utf8(k.nodeId) && |k.nodeId| < U32 && k.created < U64 && k.expires < U64
  {
    hide LE, FromLE, Power;
    NameBound(c, bs);
    Powers();
    var len := FromLE(bs[..4]);
    var (name, created, expires) := (bs[4..4 + len], bs[4 + len..12 + len], bs[12 + len..20 + len]);
    PrintBack(bs[..4]);
    PrintBack(created);
    PrintBack(expires);
    FromLEBound(created);
    FromLEBound(expires);
    assert EncodeTail(k) == bs[..4] + name + (created + expires);
    assert bs[..20 + len] == bs[..4] + name + (created + expires);
  }

  /** An accepted blob holds a valid key pair and starts with that pair's own bytes. */
  lemma AcceptedPrefix(c: Checks, bs: seq<Byte>)
    requires Decode(c, bs).Ok?
    ensures var k := Decode(c, bs).value;
            Valid(c, k) && |k.nodeId| < U32 && Encode(k) <= bs
  {
    hide LE, FromLE, Power, DecodeTail;
    var k := Decode(c, bs).value;
    TailPrefix(c, bs[NAME_AT..], k);
    hide EncodeTail;
    var (ed, ml) := (bs[..64], bs[64..NAME_AT]);
    assert EncodePair(k.ed) == ed by { assert ed == ed[..32] + ed[32..64]; }
    assert EncodePair(k.ml) == ml by { assert ml == ml[..ML_SECRET] + ml[ML_SECRET..ML_SECRET + ML_PUBLIC]; }
    assert bs == ed + ml + bs[NAME_AT..];
    assert Encode(k) == ed + ml + EncodeTail(k);
    assert bs == Encode(k) + bs[NAME_AT..][|EncodeTail(k)|..];
  }

  /** A blob is accepted exactly when it starts with the bytes of a valid, short-named key pair. */
  lemma AcceptedIff(c: Checks, bs: seq<Byte>)
    ensures Decode(c, bs).Ok? <==> exists k :: Valid(c, k) && |k.nodeId| < U32 && Encode(k) <= bs
  {
    hide Decode, Encode, Valid;
    if Decode(c, bs).Ok? {
      AcceptedPrefix(c, bs);
    }
    if k :| Valid(c, k) && |k.nodeId| < U32 && Encode(k) <= bs {
      RoundTrip(c, k, bs[|Encode(k)|..]);
      assert Encode(k) + bs[|Encode(k)|..] == bs;
    }
  }
}
