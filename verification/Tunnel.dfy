/** The tunnel's codec (crypto/AES.cpp, bridge/config.hpp): initial vector, length, padded CBC ciphertext, and the
    exclusive or over all of it. The block cipher under its key is abstract; the random initial vector is a
    parameter. */
module Tunnel {
  import opened Common

  const BLOCK := 16
  /** The initial vector and the four bytes of length. */
  const PREFIX := 20
  /** ethernet_bridge::bridge_mtu, the size of the receive buffer. */
  const MTU := 1500
  /** What the int length of EVP_EncryptUpdate can say. */
  const LENGTHS := 0x8000_0000
  const MASK: byte := 0x0f

  type Block = s: seq<byte> | |s| == 16 witness seq(16, _ => 0)

  /** A keyed block permutation and its inverse. */
  datatype Cipher = Cipher(enc: Block -> Block, dec: Block -> Block)

  ghost predicate Inverse(c: Cipher) {
    forall b: Block :: c.dec(c.enc(b)) == b
  }

  function XorSeq(a: seq<byte>, b: seq<byte>): (x: seq<byte>)
    requires |a| == |b|
    ensures |x| == |a|
  {
    seq(|a|, i requires 0 <= i < |a| => Xor(a[i], b[i]))
  }

  /** Section 6.2 of NIST SP 800-38A. */
  function CbcEncrypt(c: Cipher, iv: Block, plain: seq<byte>): (s: seq<byte>)
    requires |plain| % BLOCK == 0
    ensures |s| == |plain|
    decreases |plain|
  {
    if plain == [] then []
    else
      var b := c.enc(XorSeq(plain[..BLOCK], iv));
      b + CbcEncrypt(c, b, plain[BLOCK..])
  }

  function CbcDecrypt(c: Cipher, iv: Block, s: seq<byte>): (plain: seq<byte>)
    requires |s| % BLOCK == 0
    ensures |plain| == |s|
    decreases |s|
  {
    if s == [] then [] else XorSeq(c.dec(s[..BLOCK]), iv) + CbcDecrypt(c, s[..BLOCK], s[BLOCK..])
  }

  lemma XorSeqTwice(a: seq<byte>, b: seq<byte>)
    requires |a| == |b|
    ensures XorSeq(XorSeq(a, b), b) == a
  {
    forall i | 0 <= i < |a|
      ensures Xor(Xor(a[i], b[i]), b[i]) == a[i]
    {
      XorInvolution(a[i], b[i]);
    }
  }

  lemma FrontAndRest(a: seq<byte>, b: seq<byte>)
    ensures (a + b)[..|a|] == a && (a + b)[|a|..] == b
  {}

  lemma {:induction false} CbcRoundTrip(c: Cipher, iv: Block, plain: seq<byte>)
    requires Inverse(c) && |plain| % BLOCK == 0
    ensures CbcDecrypt(c, iv, CbcEncrypt(c, iv, plain)) == plain
    decreases |plain|
  {
    if plain != [] {
      var x := XorSeq(plain[..BLOCK], iv);
      var b: Block := c.enc(x);
      FrontAndRest(b, CbcEncrypt(c, b, plain[BLOCK..]));
      XorSeqTwice(plain[..BLOCK], iv);
      CbcRoundTrip(c, b, plain[BLOCK..]);
      assert plain == plain[..BLOCK] + plain[BLOCK..];
    }
  }

  /** Block i of a text. */
  function BlockAt(s: seq<byte>, i: nat): Block
    requires 16 * i + 16 <= |s|
  {
    s[16 * i..16 * i + 16]
  }

  lemma LaterBlock(a: Block, s: seq<byte>, i: nat)
    requires i > 0 && 16 * i <= |s|
    ensures BlockAt(a + s, i) == BlockAt(s, i - 1)
  {}

  /** What section 6.2 of NIST SP 800-38A says of every block: the cipher is applied to the exclusive or, byte by
      byte, of the block of the text and the block of ciphertext before it, or the vector. */
  lemma {:induction false} CbcBlock(c: Cipher, iv: Block, plain: seq<byte>, i: nat) returns (x: Block)
    requires |plain| % 16 == 0 && 16 * i < |plain|
    ensures BlockAt(CbcEncrypt(c, iv, plain), i) == c.enc(x)
    ensures var before := if i == 0 then iv else BlockAt(CbcEncrypt(c, iv, plain), i - 1);
            forall j :: 0 <= j < 16 ==> x[j] == Xor(plain[16 * i + j], before[j])
    decreases i
  {
    x := XorSeq(plain[..BLOCK], iv);
    var b: Block := c.enc(x);
    var rest := CbcEncrypt(c, b, plain[BLOCK..]);
    FrontAndRest(b, rest);
    if i > 0 {
      x := CbcBlock(c, b, plain[BLOCK..], i - 1);
      LaterBlock(b, rest, i);
      if i > 1 {
        LaterBlock(b, rest, i - 1);
      }
    }
  }

  /** The last block handed to the next call: encrypting in two pieces is encrypting at once. */
  function Chain(iv: Block, s: seq<byte>): Block
    requires |s| % BLOCK == 0
  {
    if s == [] then iv else s[|s| - BLOCK..]
  }

  lemma {:induction false} CbcEncryptConcat(c: Cipher, iv: Block, a: seq<byte>, b: seq<byte>)
    requires |a| % BLOCK == 0 && |b| % BLOCK == 0
    ensures CbcEncrypt(c, iv, a + b) == CbcEncrypt(c, iv, a) + CbcEncrypt(c, Chain(iv, CbcEncrypt(c, iv, a)), b)
    decreases |a|
  {
    if a == [] {
      assert a + b == b;
    } else {
      var first: Block := c.enc(XorSeq(a[..BLOCK], iv));
      assert (a + b)[..BLOCK] == a[..BLOCK] && (a + b)[BLOCK..] == a[BLOCK..] + b;
      CbcEncryptConcat(c, first, a[BLOCK..], b);
      var rest := CbcEncrypt(c, first, a[BLOCK..]);
      assert Chain(iv, first + rest) == Chain(first, rest);
      ConcatAssociates(first, rest, CbcEncrypt(c, Chain(first, rest), b));
    }
  }

  lemma {:induction false} CbcDecryptConcat(c: Cipher, iv: Block, a: seq<byte>, b: seq<byte>)
    requires |a| % BLOCK == 0 && |b| % BLOCK == 0
    ensures CbcDecrypt(c, iv, a + b) == CbcDecrypt(c, iv, a) + CbcDecrypt(c, Chain(iv, a), b)
    decreases |a|
  {
    if a == [] {
      assert a + b == b;
    } else {
      assert (a + b)[..BLOCK] == a[..BLOCK] && (a + b)[BLOCK..] == a[BLOCK..] + b;
      CbcDecryptConcat(c, a[..BLOCK], a[BLOCK..], b);
      assert Chain(iv, a) == Chain(a[..BLOCK], a[BLOCK..]);
      var first := XorSeq(c.dec(a[..BLOCK]), iv);
      ConcatAssociates(first, CbcDecrypt(c, a[..BLOCK], a[BLOCK..]), CbcDecrypt(c, Chain(iv, a), b));
    }
  }

  /** Section 6.3 of RFC 5652. */
  function Padding(n: nat): (s: seq<byte>)
    ensures |s| == BLOCK - n % BLOCK && (n + |s|) % BLOCK == 0
  {
    var k := BLOCK - n % BLOCK;
    seq(k, _ => k as byte)
  }

  function Pad(plain: seq<byte>): (s: seq<byte>)
    ensures |s| == BLOCK * (|plain| / BLOCK + 1)
  {
    plain + Padding(|plain|)
  }

  /** What section 6.3 of RFC 5652 says: the text, then from 1 to 16 bytes up to a whole number of blocks, each of
      which counts them. */
  lemma PadCounts(plain: seq<byte>)
    ensures var s := Pad(plain);
      && |s| % 16 == 0 && 1 <= |s| - |plain| <= 16 && s[..|plain|] == plain
      && forall i :: |plain| <= i < |s| ==> s[i] as nat == |s| - |plain|
  {
    FrontAndRest(plain, Padding(|plain|));
    assert forall i :: |plain| <= i < |Pad(plain)| ==> Pad(plain)[i] == Padding(|plain|)[i - |plain|];
  }

  /** What the final step of decryption accepts: a last byte n from 1 to 16 and n copies of it. */
  function Unpad(s: seq<byte>): Option<seq<byte>> {
    if s == [] then None
    else
      var n := s[|s| - 1] as nat;
      if 1 <= n <= BLOCK && n <= |s| && (forall i :: |s| - n <= i < |s| ==> s[i] == s[|s| - 1])
      then Some(s[..|s| - n]) else None
  }

  lemma UnpadsPadded(plain: seq<byte>)
    ensures Unpad(Pad(plain)) == Some(plain)
  {
    var s, padding := Pad(plain), Padding(|plain|);
    FrontAndRest(plain, padding);
    forall i | |s| - |padding| <= i < |s|
      ensures s[i] == |padding| as byte
    {
      assert s[i] == padding[i - |plain|];
    }
  }

  lemma PadsUnpadded(s: seq<byte>, plain: seq<byte>)
    requires |s| % BLOCK == 0 && Unpad(s) == Some(plain)
    ensures s == Pad(plain)
  {
    var n := s[|s| - 1] as nat;
    assert |plain| + n == |s|;
    assert n == BLOCK - |plain| % BLOCK;
    assert s[|s| - n..] == Padding(|plain|);
    assert s == plain + s[|s| - n..];
  }

  /** Every padding is taken off, and nothing else is. */
  lemma UnpadIsInverse(s: seq<byte>, plain: seq<byte>)
    requires |s| % BLOCK == 0
    ensures Unpad(s) == Some(plain) <==> s == Pad(plain)
  {
    UnpadsPadded(plain);
    if Unpad(s) == Some(plain) {
      PadsUnpadded(s, plain);
    }
  }

  /** The datagram's layout before the exclusive or. */
  function Sealed(c: Cipher, iv: Block, plain: seq<byte>): (m: seq<byte>)
    ensures |m| == PREFIX + BLOCK * (|plain| / BLOCK + 1)
  {
    iv + LittleEndian(|plain|, 4) + CbcEncrypt(c, iv, Pad(plain))
  }

  /** Byte by byte: the vector, the length, least significant byte first, and the ciphertext of the padded text. */
  lemma SealedLayout(c: Cipher, iv: Block, plain: seq<byte>)
    requires |plain| < LENGTHS
    ensures var m := Sealed(c, iv, plain);
      && |m| >= 36 && m[..16] == iv && m[20..] == CbcEncrypt(c, iv, Pad(plain))
      && |plain| == m[16] as nat + 0x100 * m[17] as nat + 0x1_0000 * m[18] as nat + 0x100_0000 * m[19] as nat
  {
    var m := Sealed(c, iv, plain);
    var prefix := iv + LittleEndian(|plain|, 4);
    FrontAndRest(prefix, CbcEncrypt(c, iv, Pad(plain)));
    assert m[16..20] == LittleEndian(|plain|, 4);
    assert Power256(4) == 2 * LENGTHS;
    LittleEndianRoundTrip(|plain|, 4);
    ReadsFour(m[16..20]);
  }

  /** The decrypted bytes, None where decryption throws. */
  function Decrypted(c: Cipher, m: seq<byte>): Option<seq<byte>>
    requires |m| >= PREFIX
  {
    Deciphered(c, m[..BLOCK], m[PREFIX..])
  }

  function Deciphered(c: Cipher, iv: Block, s: seq<byte>): (text: Option<seq<byte>>)
    ensures text.Some? ==> |text.value| < |s|
  {
    if |s| % BLOCK != 0 then None else Unpad(CbcDecrypt(c, iv, s))
  }

  function Length(m: seq<byte>): nat
    requires |m| >= PREFIX
  {
    FromLittleEndian(m[BLOCK..PREFIX])
  }

  function Messed(s: seq<byte>): seq<byte> {
    seq(|s|, i requires 0 <= i < |s| => Xor(s[i], MASK))
  }

  /** The mask leaves the high half of every byte and turns the low half over. */
  lemma MessedHalves(s: seq<byte>, i: nat)
    requires i < |s|
    ensures Messed(s)[i] as nat / 16 == s[i] as nat / 16 && Messed(s)[i] as nat % 16 == 15 - s[i] as nat % 16
  {
    XorLowHalf(s[i]);
  }

  lemma MessedTwice(s: seq<byte>)
    ensures Messed(Messed(s)) == s
  {
    forall i | 0 <= i < |s|
      ensures Xor(Xor(s[i], MASK), MASK) == s[i]
    {
      XorInvolution(s[i], MASK);
    }
  }

  /** What recvfrom leaves of a datagram. */
  function Received(d: seq<byte>): seq<byte> {
    if |d| <= MTU then d else d[..MTU]
  }

  lemma SealedOpens(c: Cipher, iv: Block, plain: seq<byte>)
    requires Inverse(c) && |plain| < LENGTHS
    ensures Decrypted(c, Sealed(c, iv, plain)) == Some(plain) && Length(Sealed(c, iv, plain)) == |plain|
  {
    var m := Sealed(c, iv, plain);
    assert m[..BLOCK] == iv && m[BLOCK..PREFIX] == LittleEndian(|plain|, 4);
    assert m[PREFIX..] == CbcEncrypt(c, iv, Pad(plain));
    CbcRoundTrip(c, iv, Pad(plain));
    UnpadIsInverse(Pad(plain), plain);
    assert Power256(4) == 2 * LENGTHS;
    LittleEndianRoundTrip(|plain|, 4);
  }

  /** The whole way through the tunnel: a frame comes out as it went in if it has at most 1471 bytes, and makes
      decryption throw if it has more, since the receive buffer then cuts the ciphertext inside a block. */
  lemma TunnelBound(c: Cipher, iv: Block, plain: seq<byte>)
    requires Inverse(c) && |plain| < LENGTHS
    ensures var m := Messed(Received(Messed(Sealed(c, iv, plain))));
      && (|Sealed(c, iv, plain)| <= MTU <==> |plain| <= 1471)
      && (|plain| <= 1471 ==> Decrypted(c, m) == Some(plain) && Length(m) == |plain|)
      && (|plain| > 1471 ==> |m| == MTU && Decrypted(c, m) == None)
  {
    var d := Sealed(c, iv, plain);
    if |plain| <= 1471 {
      assert Received(Messed(d)) == Messed(d);
      MessedTwice(d);
      SealedOpens(c, iv, plain);
    } else {
      var m := Messed(Received(Messed(d)));
      assert |plain| / BLOCK >= 92;
      assert |m| == MTU && |m[PREFIX..]| == 1480;
    }
  }

  /** xor_mess */
  method XorMess(buf: array<byte>, length: nat)
    requires length <= buf.Length
    modifies buf
    ensures buf[..] == Messed(old(buf[..length])) + old(buf[length..])
    ensures forall k :: 0 <= k < length ==>
              buf[k] as nat / 16 == old(buf[k]) as nat / 16 && buf[k] as nat % 16 == 15 - old(buf[k]) as nat % 16
    ensures forall k :: length <= k < buf.Length ==> buf[k] == old(buf[k])
  {
    var i := 0;
    while i < length
      invariant i <= length
      invariant forall k :: 0 <= k < i ==> buf[k] == Xor(old(buf[k]), MASK)
      invariant forall k :: i <= k < buf.Length ==> buf[k] == old(buf[k])
    {
      buf[i] := Xor(buf[i], MASK);
      i := i + 1;
    }
    forall k | 0 <= k < length
      ensures buf[k] as nat / 16 == old(buf[k]) as nat / 16 && buf[k] as nat % 16 == 15 - old(buf[k]) as nat % 16
    {
      XorLowHalf(old(buf[k]));
    }
  }

  method Store(buf: array<byte>, at: nat, bytes: seq<byte>)
    requires at + |bytes| <= buf.Length
    modifies buf
    ensures buf[..] == Splice(old(buf[..]), at, bytes)
  {
    forall i | 0 <= i < |bytes| {
      buf[at + i] := bytes[i];
    }
  }

  lemma SpliceFront(s: seq<byte>, at: nat, bytes: seq<byte>)
    requires at + |bytes| <= |s|
    ensures Splice(s, at, bytes)[..at + |bytes|] == s[..at] + bytes
  {}

  /** Two stores, one behind the other. */
  lemma TwoSplices(before: seq<byte>, at: nat, a: seq<byte>, b: seq<byte>)
    requires at + |a| + |b| <= |before|
    ensures Splice(Splice(before, at, a), at + |a|, b)[..at + |a| + |b|] == before[..at] + (a + b)
  {
    SpliceFront(before, at, a);
    SpliceFront(Splice(before, at, a), at + |a|, b);
    ConcatAssociates(before[..at], a, b);
  }

  lemma FrontSplices(before: seq<byte>, a: seq<byte>, b: seq<byte>)
    requires |a| + |b| <= |before|
    ensures Splice(Splice(before, 0, a), |a|, b)[..|a| + |b|] == a + b
  {
    TwoSplices(before, 0, a, b);
  }

  /** An EVP context in CBC mode with padding. Encrypting, pending holds the bytes of the unfinished block;
      decrypting, it also holds back the last whole block. */
  class Evp {
    const cipher: Cipher
    var chain: Block
    var pending: seq<byte>

    constructor (cipher: Cipher, iv: Block)
      ensures this.cipher == cipher && chain == iv && pending == []
    {
      this.cipher, chain, pending := cipher, iv, [];
    }

    method EncryptUpdate(out: array<byte>, at: nat, input: seq<byte>) returns (len: nat)
      requires pending == [] && at + |input| <= out.Length
      modifies this, out
      ensures len == |input| - |input| % BLOCK && pending == input[len..]
      ensures out[..] == Splice(old(out[..]), at, CbcEncrypt(cipher, old(chain), input[..len]))
      ensures chain == Chain(old(chain), CbcEncrypt(cipher, old(chain), input[..len]))
    {
      len := |input| - |input| % BLOCK;
      var bytes := CbcEncrypt(cipher, chain, input[..len]);
      Store(out, at, bytes);
      chain, pending := Chain(chain, bytes), input[len..];
    }

    method EncryptFinal(out: array<byte>, at: nat) returns (len: nat)
      requires |pending| < BLOCK && at + BLOCK <= out.Length
      modifies this, out
      ensures len == BLOCK
      ensures out[..] == Splice(old(out[..]), at, CbcEncrypt(cipher, old(chain), Pad(old(pending))))
    {
      Store(out, at, CbcEncrypt(cipher, chain, Pad(pending)));
      len := BLOCK;
    }

    method DecryptUpdate(out: array<byte>, input: seq<byte>) returns (len: nat)
      requires pending == [] && |input| <= out.Length
      modifies this, out
      ensures len % BLOCK == 0 && len <= |input| && pending == input[len..]
      ensures input == [] || 0 < |pending| <= BLOCK
      ensures out[..] == Splice(old(out[..]), 0, CbcDecrypt(cipher, old(chain), input[..len]))
      ensures chain == Chain(old(chain), input[..len])
    {
      len := if input == [] then 0 else |input| - 1 - (|input| - 1) % BLOCK;
      Store(out, 0, CbcDecrypt(cipher, chain, input[..len]));
      chain, pending := Chain(chain, input[..len]), input[len..];
    }

    method DecryptFinal(out: array<byte>, at: nat) returns (len: Option<nat>)
      requires |pending| <= BLOCK && at + BLOCK <= out.Length
      modifies this, out
      ensures var last := if |pending| == BLOCK then Unpad(CbcDecrypt(cipher, old(chain), pending)) else None;
        && (len.None? <==> last.None?)
        && (last.Some? ==> len == Some(|last.value|) && |last.value| <= BLOCK
                           && out[..] == Splice(old(out[..]), at, last.value))
        && (last.None? ==> out[..] == old(out[..]))
      ensures pending == old(pending)
    {
      len := None;
      if |pending| == BLOCK {
        var last := Unpad(CbcDecrypt(cipher, chain, pending));
        if last.Some? {
          Store(out, at, last.value);
          len := Some(|last.value|);
        }
      }
    }
  }

  /** Encrypting the whole blocks and then the padded rest is encrypting the padded text. */
  lemma EncryptPieces(c: Cipher, iv: Block, plain: seq<byte>, len: nat)
    requires len == |plain| - |plain| % BLOCK
    ensures len % BLOCK == 0 && len <= |plain| < len + BLOCK
    ensures var whole := CbcEncrypt(c, iv, plain[..len]);
      CbcEncrypt(c, iv, Pad(plain)) == whole + CbcEncrypt(c, Chain(iv, whole), Pad(plain[len..]))
  {
    assert Pad(plain) == plain[..len] + Pad(plain[len..]) by {
      assert |plain[len..]| == |plain| % BLOCK;
      assert Padding(|plain[len..]|) == Padding(|plain|);
      assert plain == plain[..len] + plain[len..];
    }
    CbcEncryptConcat(c, iv, plain[..len], Pad(plain[len..]));
  }

  /** Taking the padding off the last block is taking it off the whole text. */
  lemma DecryptPieces(c: Cipher, iv: Block, s: seq<byte>, len: nat)
    requires len + BLOCK == |s| && len % BLOCK == 0
    ensures var front := CbcDecrypt(c, iv, s[..len]);
      var last := Unpad(CbcDecrypt(c, Chain(iv, s[..len]), s[len..]));
      Unpad(CbcDecrypt(c, iv, s)) == if last.Some? then Some(front + last.value) else None
  {
    var front, last := CbcDecrypt(c, iv, s[..len]), CbcDecrypt(c, Chain(iv, s[..len]), s[len..]);
    assert s[..len] + s[len..] == s;
    CbcDecryptConcat(c, iv, s[..len], s[len..]);
    UnpadConcat(front, last);
  }

  lemma LastBlock(s: seq<byte>, len: nat)
    requires len % BLOCK == 0 && len <= |s| <= len + BLOCK && (s == [] || len < |s|)
    ensures |s| == len + BLOCK <==> s != [] && |s| % BLOCK == 0
  {}

  lemma UnpadConcat(a: seq<byte>, b: seq<byte>)
    requires |b| == BLOCK
    ensures Unpad(a + b) == if Unpad(b).Some? then Some(a + Unpad(b).value) else None
  {
    var s := a + b;
    var n := b[BLOCK - 1] as nat;
    assert s[|s| - 1] == b[BLOCK - 1];
    if 1 <= n <= BLOCK {
      assert s[|s| - n..] == b[BLOCK - n..];
      assert s[..|s| - n] == a + b[..BLOCK - n];
      assert (forall i :: |s| - n <= i < |s| ==> s[i] == s[|s| - 1])
        <==> (forall i :: BLOCK - n <= i < BLOCK ==> b[i] == b[BLOCK - 1]) by {
        assert forall i :: |a| <= i < |s| ==> s[i] == b[i - |a|];
        assert forall i :: 0 <= i < BLOCK ==> b[i] == s[i + |a|];
      }
    }
  }

  class Aes {
    const cipher: Cipher
    var iv: Block

    constructor (cipher: Cipher, iv: Block)
      ensures this.cipher == cipher && this.iv == iv
    {
      this.cipher, this.iv := cipher, iv;
    }

    /** The constructor of cipher_buffer. */
    method StorePrefix(buf: array<byte>, length: nat)
      requires buf.Length >= PREFIX
      modifies buf
      ensures buf[..PREFIX] == iv + LittleEndian(length, 4)
    {
      Store(buf, 0, iv);
      SpliceFront(buf[..], BLOCK, LittleEndian(length, 4));
      Store(buf, BLOCK, LittleEndian(length, 4));
    }

    /** EVP_EncryptUpdate and EVP_EncryptFinal_ex behind the prefix. */
    method EncryptBody(evp: Evp, buf: array<byte>, plain: seq<byte>) returns (len: nat)
      requires evp.pending == [] && buf.Length == |plain| + PREFIX + BLOCK
      modifies evp, buf
      ensures len == |Pad(plain)|
      ensures buf[..PREFIX + len] == old(buf[..PREFIX]) + CbcEncrypt(evp.cipher, old(evp.chain), Pad(plain))
    {
      ghost var before, chain := buf[..], evp.chain;
      var first := evp.EncryptUpdate(buf, PREFIX, plain);
      EncryptPieces(evp.cipher, chain, plain, first);
      ghost var whole := CbcEncrypt(evp.cipher, chain, plain[..first]);
      ghost var rest := CbcEncrypt(evp.cipher, evp.chain, Pad(evp.pending));
      TwoSplices(before, PREFIX, whole, rest);
      var last := evp.EncryptFinal(buf, PREFIX + first);
      len := first + last;
    }

    /** AES_encrypt: a buffer 36 bytes longer than the text, filled in place, and how much of it is the result. */
    method Encrypt(plain: seq<byte>, random: Block) returns (buf: array<byte>, size: nat)
      modifies this
      ensures iv == random && fresh(buf) && buf.Length == |plain| + PREFIX + BLOCK
      ensures size <= buf.Length && buf[..size] == Sealed(cipher, random, plain)
    {
      iv := random;
      buf := new byte[|plain| + PREFIX + BLOCK];
      StorePrefix(buf, |plain|);
      var evp := new Evp(cipher, iv);
      var len := EncryptBody(evp, buf, plain);
      size := PREFIX + len;
    }

    /** AES_decrypt: on success a buffer as long as the message and how much of it is the result, which is what the
        message's length field says or, if that is no shorter, the whole buffer; None where the source throws. */
    method Decrypt(message: seq<byte>) returns (result: Option<(array<byte>, nat)>)
      requires |message| >= PREFIX
      modifies this
      ensures iv == message[..BLOCK]
      ensures result.None? <==> Decrypted(cipher, message).None?
      ensures result.Some? ==>
        var (plain, size) := result.value;
        var text := Decrypted(cipher, message).value;
        && fresh(plain) && plain.Length == |message| > |text|
        && size == (if Length(message) < |message| then Length(message) else |message|)
        && plain[..|text|] == text
    {
      iv := message[..BLOCK];
      var plain := new byte[|message|];
      var evp := new Evp(cipher, iv);
      var len := DecryptBody(evp, plain, message[PREFIX..]);
      if len.None? {
        return None;
      }
      var size := FromLittleEndian(message[BLOCK..PREFIX]);
      return Some((plain, if size < plain.Length then size else plain.Length));
    }

    /** EVP_DecryptUpdate and EVP_DecryptFinal_ex. */
    method DecryptBody(evp: Evp, plain: array<byte>, input: seq<byte>) returns (len: Option<nat>)
      requires evp.pending == [] && plain.Length >= |input| + BLOCK
      modifies evp, plain
      ensures var text := Deciphered(evp.cipher, old(evp.chain), input);
        && (len.None? <==> text.None?)
        && (len.Some? ==>
              len == Some(|text.value|) && |text.value| <= plain.Length && plain[..|text.value|] == text.value)
    {
      ghost var chain, before := evp.chain, plain[..];
      var first := evp.DecryptUpdate(plain, input);
      ghost var front := CbcDecrypt(evp.cipher, chain, input[..first]);
      LastBlock(input, first);
      if |evp.pending| == BLOCK {
        DecryptPieces(evp.cipher, chain, input, first);
      }
      var last := evp.DecryptFinal(plain, first);
      if last.None? {
        return None;
      }
      FrontSplices(before, front, Unpad(CbcDecrypt(evp.cipher, Chain(chain, input[..first]), input[first..])).value);
      len := Some(first + last.value);
    }

    /** What read_tap does with a frame: the datagram it sends. */
    method Outgoing(frame: seq<byte>, random: Block) returns (datagram: seq<byte>)
      modifies this
      ensures datagram == Messed(Sealed(cipher, random, frame))
    {
      var buf, size := Encrypt(frame, random);
      XorMess(buf, size);
      datagram := buf[..size];
    }

    /** The receive buffer of read_udp, filled and unmasked. */
    method Receive(datagram: seq<byte>) returns (message: seq<byte>)
      ensures message == Messed(Received(datagram))
    {
      var buf := new byte[MTU];
      var size := |Received(datagram)|;
      SpliceFront(buf[..], 0, Received(datagram));
      Store(buf, 0, Received(datagram));
      XorMess(buf, size);
      message := buf[..size];
    }

    /** What read_udp does with a datagram: the frame it hands on, None where decryption throws. A datagram too
        short to hold the vector and the length is not looked at here. */
    method Incoming(datagram: seq<byte>) returns (frame: Option<seq<byte>>)
      requires |datagram| >= PREFIX
      modifies this
      ensures var m := Messed(Received(datagram));
        && (frame.None? <==> Decrypted(cipher, m).None?)
        && (frame.Some? && Length(m) <= |Decrypted(cipher, m).value| ==>
              frame.value == Decrypted(cipher, m).value[..Length(m)])
    {
      var message := Receive(datagram);
      var result := Decrypt(message);
      if result.None? {
        return None;
      }
      var (plain, length) := result.value;
      return Some(plain[..length]);
    }

    /** The two ends together, with the same key. */
    method Tunnel(frame: seq<byte>, random: Block) returns (out: Option<seq<byte>>)
      requires Inverse(cipher) && |frame| < LENGTHS
      modifies this
      ensures out == if |frame| <= 1471 then Some(frame) else None
    {
      var datagram := Outgoing(frame, random);
      TunnelBound(cipher, random, frame);
      assert frame[..|frame|] == frame;
      out := Incoming(datagram);
    }
  }
}
