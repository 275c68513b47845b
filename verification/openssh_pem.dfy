/** OpenSSH PEM private keys (section 4.6 of RFC 1421 for the headers): writing, reading, and the round trip. */
module OpensshPem {
  import opened Bytes
  import opened Text
  import opened Base64
  import opened KeyText
  import opened Marshal
  import opened Mpints
  import opened KeyBlobs
  import Ber

  // ----- the ASN.1 body -----

  function Oid(c: Curve): Blob {
    match c
    case P256 => [0x2a, 0x86, 0x48, 0xce, 0x3d, 0x03, 0x01, 0x07]
    case P384 => [0x2b, 0x81, 0x04, 0x00, 0x22]
    case P521 => [0x2b, 0x81, 0x04, 0x00, 0x23]
  }

  function CurveByOid(oid: Blob): Option<Curve> {
    if oid == Oid(P256) then Some(P256)
    else if oid == Oid(P384) then Some(P384)
    else if oid == Oid(P521) then Some(P521)
    else None
  }

  function PointLength(c: Curve): nat {
    (FieldBits(c) + 7) / 8 * 2
  }

  /** The integers of an RSA or DSA key, from the strings of its blobs. */
  function Integers(pub: seq<Blob>, priv: seq<Blob>, rsa: bool): seq<Blob>
    requires if rsa then |pub| == 3 && |priv| == 4 && Value(priv[1]) >= 2 && Value(priv[2]) >= 2
             else |pub| == 5 && |priv| == 1
  {
    if rsa then
      [[0], pub[2], pub[1], priv[0], priv[1], priv[2],
       DerInt(Value(priv[0]) % (Value(priv[1]) - 1)), DerInt(Value(priv[0]) % (Value(priv[2]) - 1)), priv[3]]
    else [[0], pub[1], pub[2], pub[3], pub[4], priv[0]]
  }

  function IntegerItems(ns: seq<Blob>): (r: seq<Ber.Item>)
    ensures |r| == |ns| && forall i :: 0 <= i < |ns| ==> r[i] == Ber.Item(2, 0, ns[i])
  {
    seq(|ns|, i requires 0 <= i < |ns| => Ber.Item(2, 0, ns[i]))
  }

  predicate Short(its: seq<Ber.Item>) {
    forall i :: 0 <= i < |its| ==> Ber.Writable(its[i])
  }

  function Sequence(its: seq<Ber.Item>): Ber.Item
    requires Short(its)
  {
    Ber.Item(16, Ber.CONSTRUCTED, Ber.EncodeAll(its))
  }

  const EXPLICIT: byte := Ber.CONTEXT_SPECIFIC + Ber.CONSTRUCTED

  /** The items of an ECDSA key: the number 1, the secret, the curve, and the point after a zero byte. */
  function EcItems(c: Curve, pub: Blob, priv: Blob): seq<Ber.Item>
    requires |pub| >= 40 + PointLength(c) && 4 <= |priv| <= INT_MAX
  {
    var point := pub[39..40 + PointLength(c)];
    [ Ber.Item(2, 0, [1]),
      Ber.Item(4, 0, priv[4..]),
      Ber.Item(0, EXPLICIT, Ber.Encode(Ber.Item(6, 0, Oid(c)))),
      Ber.Item(1, EXPLICIT, Ber.Encode(Ber.Item(3, 0, [0] + point))) ]
  }

  /** What the writer needs to be able to divide by p - 1 and q - 1, and to copy the point. */
  predicate Usable(k: Key) {
    match k
    case RsaKey(_, _, _, p, q, _) => Value(p) >= 2 && Value(q) >= 2
    case DsaKey(_, _, _, _, _) => true
    case EcKey(c, point, secret) => |point| == 1 + PointLength(c) && |secret| <= INT_MAX - 4
  }

  function Items(k: Key): seq<Ber.Item>
    requires Usable(k)
  {
    if k.EcKey? then EcSizes(k); EcItems(k.curve, PublicBlob(k), PrivateBlob(k))
    else IntegerItems(Integers(PublicFields(k), PrivateFields(k), k.RsaKey?))
  }

  lemma EcSizes(k: Key)
    requires k.EcKey? && Usable(k)
    ensures |PublicBlob(k)| == 40 + PointLength(k.curve) && PublicBlob(k)[39..] == k.point
    ensures PrivateBlob(k) == PutString(k.secret) && PrivateBlob(k)[4..] == k.secret
  {
    hide PutUint32, CurveId, CurveName, Strings;
    StringsMore(CurveId(k.curve), CurveName(k.curve), k.point, []);
    NoStrings();
    StringsOne(k.secret);
    assert PublicFields(k) == PublicFields(k) + [];
    assert PublicBlob(k)
           == PutString(CurveId(k.curve)) + PutString(CurveName(k.curve)) + PutUint32(|k.point|) + k.point;
  }

  lemma NoStrings()
    ensures Strings([]) == []
  {
  }

  /** Every length in the file fits a C int. */
  predicate Fits(k: Key)
    requires Usable(k)
  {
    Short(Items(k)) && |Ber.EncodeAll(Items(k))| <= INT_MAX
    && AllWithin(PublicFields(k), TWO_TO_THE_32) && AllWithin(PrivateFields(k), TWO_TO_THE_32)
  }

  function Body(k: Key): Blob
    requires Usable(k) && Fits(k)
  {
    Ber.Encode(Sequence(Items(k)))
  }

  // ----- encryption and the text -----

  function DeriveKey(c: Crypto, pass: Blob, iv: Blob): Blob
    requires |iv| >= 8
  {
    var a := c.md5(pass + iv[..8]);
    a + c.md5(a + pass + iv[..8])
  }

  function PadLength(n: nat): (r: nat)
    ensures 1 <= r <= 8
  {
    8 - n % 8
  }

  function Repeat(b: byte, n: nat): (r: Blob)
    ensures |r| == n
  {
    if n == 0 then [] else [b] + Repeat(b, n - 1)
  }

  function Padded(body: Blob): Blob {
    body + Repeat(PadLength(|body|), PadLength(|body|))
  }

  function Protected(c: Crypto, pass: Option<Blob>, iv: Blob, body: Blob): Blob
    requires |iv| == 8
  {
    match pass
    case Some(w) => c.desEncrypt(DeriveKey(c, w, iv), iv, Padded(body))
    case None => body
  }

  function HexDigit(v: nat): byte
    requires v < 16
  {
    if v < 10 then 48 + v else 65 + v - 10
  }

  function Hex(b: Blob): Blob {
    if b == [] then [] else [HexDigit(b[0] / 16), HexDigit(b[0] % 16)] + Hex(b[1..])
  }

  const FOUR := Ascii("4,")

  function Headers(pass: Option<Blob>, iv: Blob): Blob {
    if pass.None? then []
    else
      PROC_TYPE + [COLON, SP] + (FOUR + ENCRYPTED) + [NL]
      + (DEK_INFO + [COLON, SP] + (DES_EDE3 + Hex(iv)) + [NL] + [NL])
  }

  function TypeOf(k: Key): KeyType {
    match k
    case RsaKey(_, _, _, _, _, _) => Rsa
    case DsaKey(_, _, _, _, _) => Dsa
    case EcKey(_, _, _) => Ecdsa
  }

  function FileText(t: KeyType, pass: Option<Blob>, iv: Blob, blob: Blob): Blob {
    KeyText.BeginLine(Pem, t) + [NL] + (Headers(pass, iv) + (Wrap(Chars(blob), 64) + (KeyText.EndLine(Pem, t) + [NL])))
  }

  /** The loop over the integers. */
  method PutIntegers(ns: seq<Blob>) returns (o: Blob)
    requires Short(IntegerItems(ns))
    ensures o == Ber.EncodeAll(IntegerItems(ns))
  {
    hide Ber.Encode, Ber.EncodeAll;
    o := [];
    ghost var its := IntegerItems(ns);
    assert its[0..] == its;
    for i := 0 to |ns|
      invariant Short(its[i..]) && Ber.EncodeAll(its) == o + Ber.EncodeAll(its[i..])
    {
      assert its[i..][0] == its[i] && its[i] == Ber.Item(2, 0, ns[i]) && its[i..] == [its[i]] + its[i + 1..];
      assert Short(its[i + 1..]) by {
        assert its[i + 1..] == its[i..][1..];
      }
      Ber.EncodeCons(its[i], its[i + 1..]);
      ghost var before := o;
      o := PutItem(o, 2, 0, ns[i]);
      assert before + (Ber.Encode(its[i]) + Ber.EncodeAll(its[i + 1..])) == o + Ber.EncodeAll(its[i + 1..]);
    }
    assert its[|ns|..] == [];
    NoItems();
  }

  lemma NoItems()
    ensures Ber.EncodeAll([]) == []
  {
  }

  /** put_padding, one byte at a time */
  method PutPadding(out: Blob, n: nat, b: byte) returns (o: Blob)
    ensures o == out + Repeat(b, n)
  {
    o := out;
    var left := n;
    while left > 0
      invariant 0 <= left <= n && o + Repeat(b, left) == out + Repeat(b, n)
    {
      assert o + Repeat(b, left) == o + [b] + Repeat(b, left - 1);
      o := o + [b];
      left := left - 1;
    }
  }

  method PutHex(out: Blob, iv: Blob) returns (o: Blob)
    ensures o == out + Hex(iv)
  {
    o := out;
    for i := 0 to |iv|
      invariant o + Hex(iv[i..]) == out + Hex(iv)
    {
      assert iv[i..][1..] == iv[i + 1..];
      ghost var digits: Blob := [HexDigit(iv[i] / 16), HexDigit(iv[i] % 16)];
      assert o + (digits + Hex(iv[i + 1..])) == o + digits + Hex(iv[i + 1..]);
      o := o + [HexDigit(iv[i] / 16), HexDigit(iv[i] % 16)];
    }
    assert iv[|iv|..] == [];
  }

  /** The integers and derived integers of an RSA or DSA key, from the key's blobs. */
  method GatherIntegers(k: Key) returns (ns: seq<Blob>)
    requires !k.EcKey? && Usable(k) && AllWithin(PublicFields(k), TWO_TO_THE_32)
             && AllWithin(PrivateFields(k), TWO_TO_THE_32)
    ensures ns == Integers(PublicFields(k), PrivateFields(k), k.RsaKey?)
  {
    hide Strings, ReadStrings, Value, DerInt;
    ReadStringsIs(PublicFields(k));
    ReadStringsIs(PrivateFields(k));
    var (np, nq) := if k.RsaKey? then (3, 4) else (5, 1);
    var pub := ReadStrings(np, Src(PublicBlob(k), false)).value;
    var priv := ReadStrings(nq, Src(PrivateBlob(k), false)).value;
    if k.RsaKey? {
      var d, p, q := Value(priv[0]), Value(priv[1]) - 1, Value(priv[2]) - 1;
      var dmp1 := WriteDer(d % p);
      var dmq1 := WriteDer(d % q);
      return [[0], pub[2], pub[1], priv[0], priv[1], priv[2], dmp1, dmq1, priv[3]];
    }
    return [[0], pub[1], pub[2], pub[3], pub[4], priv[0]];
  }

  /** One item with the header in front of it. */
  method PutItem(out: Blob, id: nat, flags: byte, data: Blob) returns (o: Blob)
    requires Ber.Writable(Ber.Item(id, flags, data))
    ensures o == out + Ber.Encode(Ber.Item(id, flags, data))
  {
    o := Ber.PutIdLen(out, id, |data|, flags);
    o := o + data;
  }

  method PutEcItems(c: Curve, pub: Blob, priv: Blob) returns (o: Blob)
    requires |pub| >= 40 + PointLength(c) && 4 <= |priv| <= INT_MAX
    requires Short(EcItems(c, pub, priv))
    ensures o == Ber.EncodeAll(EcItems(c, pub, priv))
  {
    hide Ber.Encode, Oid;
    var its := EcItems(c, pub, priv);
    assert Ber.Writable(its[0]) && Ber.Writable(its[1]) && Ber.Writable(its[2]) && Ber.Writable(its[3]);
    o := PutItem([], 2, 0, [1]);
    o := PutItem(o, 4, 0, priv[4..]);
    OidShort(c);
    var sub := PutItem([], 6, 0, Oid(c));
    assert sub == Ber.Encode(Ber.Item(6, 0, Oid(c)));
    o := PutItem(o, 0, EXPLICIT, sub);
    sub := PutItem([], 3, 0, [0] + pub[39..40 + PointLength(c)]);
    assert sub == Ber.Encode(Ber.Item(3, 0, [0] + pub[39..40 + PointLength(c)]));
    o := PutItem(o, 1, EXPLICIT, sub);
    FourItems(its);
    assert o == Ber.Encode(its[0]) + (Ber.Encode(its[1]) + (Ber.Encode(its[2]) + Ber.Encode(its[3])));
  }

  lemma OidShort(c: Curve)
    ensures |Oid(c)| <= 8
  {
  }

  lemma FourItems(its: seq<Ber.Item>)
    requires |its| == 4 && Short(its)
    ensures Ber.EncodeAll(its) == Ber.Encode(its[0]) + (Ber.Encode(its[1]) + (Ber.Encode(its[2]) + Ber.Encode(its[3])))
  {
    hide Ber.Encode, Ber.EncodeAll, Ber.Writable;
    var (a, b, c, d) := (its[0], its[1], its[2], its[3]);
    Ber.EncodeCons(d, []);
    Ber.EncodeCons(c, [d]);
    Ber.EncodeCons(b, [c, d]);
    Ber.EncodeCons(a, [b, c, d]);
    assert [d] + [] == [d] && [c] + [d] == [c, d] && [b] + [c, d] == [b, c, d] && [a] + [b, c, d] == its;
  }

  method WriteBody(k: Key) returns (body: Blob)
    requires Usable(k) && Fits(k)
    ensures body == Body(k)
  {
    hide Ber.Encode, Ber.EncodeAll, PublicBlob, PrivateBlob, Integers;
    var inner;
    if k.EcKey? {
      EcSizes(k);
      inner := PutEcItems(k.curve, PublicBlob(k), PrivateBlob(k));
    } else {
      var ns := GatherIntegers(k);
      inner := PutIntegers(ns);
    }
    body := PutItem([], 16, Ber.CONSTRUCTED, inner);
  }

  /** The last block is filled up, always by at least one byte, and the whole encrypted in place. */
  method Protect(c: Crypto, pass: Option<Blob>, iv: Blob, body: Blob) returns (blob: Blob)
    requires |iv| == 8
    ensures blob == Protected(c, pass, iv, body)
    ensures pass.Some? ==> Enciphers(c, pass.value, iv, body, blob)
  {
    hide Repeat, DeriveKey, Enciphers;
    if pass.Some? {
      ProtectedIs(c, pass.value, iv, body);
    }
    blob := body;
    if pass.Some? {
      var outlen := (|blob| + 8) / 8 * 8;
      var pad := outlen - |blob|;
      assert pad == PadLength(|blob|);
      blob := PutPadding(blob, pad, pad);
      blob := c.desEncrypt(DeriveKey(c, pass.value, iv), iv, blob);
    }
  }

  method PutHeaders(out: Blob, pass: Option<Blob>, iv: Blob) returns (text: Blob)
    ensures text == out + Headers(pass, iv)
  {
    hide Hex, PROC_TYPE, FOUR, ENCRYPTED, DEK_INFO, DES_EDE3;
    text := out;
    if pass.Some? {
      text := text + PROC_TYPE + [COLON, SP] + (FOUR + ENCRYPTED) + [NL] + DEK_INFO + [COLON, SP] + DES_EDE3;
      text := PutHex(text, iv);
      text := text + [NL] + [NL];
    }
  }

  /** openssh_pem_write, from the key's own blobs to the text of the file */
  method Write(c: Crypto, k: Key, pass: Option<Blob>, iv: Blob) returns (text: Blob)
    requires Usable(k) && Fits(k) && |iv| == 8
    ensures text == FileText(TypeOf(k), pass, iv, Protected(c, pass, iv, Body(k)))
  {
    hide Wrap, Chars, Body, Protected, Headers, KeyText.EndLine, KeyText.BeginLine;
    var body := WriteBody(k);
    var blob := Protect(c, pass, iv, body);
    text := KeyText.BeginLine(Pem, TypeOf(k)) + [NL];
    text := PutHeaders(text, pass, iv);
    text := EncodeLines(text, blob, 64);
    text := text + KeyText.EndLine(Pem, TypeOf(k)) + [NL];
    assert text == FileText(TypeOf(k), pass, iv, blob);
  }

  // ----- reading -----

  /** The blob being put together, the modulus that waits for the exponent, and where the private part starts. */
  datatype Parts = Parts(blob: Blob, modulus: Blob, privptr: nat)

  datatype Taken = Taken(parts: Parts) | NotAsn1 | BadVersion

  /** What integer number i of the file does. Integers 6 and 7 of an RSA key are ignored. */
  function TakeInteger(rsa: bool, i: nat, data: Blob, ps: Parts): Taken {
    if i == 0 then (if data == [0] then Taken(ps) else BadVersion)
    else if rsa then
      if i == 1 then Taken(ps.(modulus := data))
      else if i == 6 || i == 7 then Taken(ps)
      else if i == 2 then
        var b := ps.blob + PutMp(data) + PutMp(ps.modulus);
        Taken(Parts(b, ps.modulus, |b|))
      else Taken(ps.(blob := ps.blob + PutMp(data)))
    else
      var b := ps.blob + PutMp(data);
      Taken(Parts(b, ps.modulus, if i == 4 then |b| else ps.privptr))
  }

  function TakeIntegers(rsa: bool, i: nat, n: nat, s: Src, ps: Parts): Taken
    requires i <= n
    decreases n - i
  {
    if i == n then Taken(ps)
    else
      var it := Ber.Read(s);
      if it.src.err || it.value.id != 2 then NotAsn1
      else match TakeInteger(rsa, i, it.value.data, ps)
        case Taken(q) => TakeIntegers(rsa, i + 1, n, it.src, q)
        case other => other
  }

  const PEM_COMMENT := Ascii("imported-openssh-key")

  function ParseIntegers(rsa: bool, inside: Blob, encrypted: bool): Import {
    var start := Parts(PutString(if rsa then SSH_RSA else SSH_DSS), [], 0);
    match TakeIntegers(rsa, 0, if rsa then 9 else 6, Src(inside, false), start)
    case NotAsn1 => Bad(encrypted)
    case BadVersion => Failed
    case Taken(ps) =>
      if ps.privptr <= |ps.blob| then
        Imported(if rsa then AlgRsa else AlgDsa, ps.blob[..ps.privptr], ps.blob[ps.privptr..], PEM_COMMENT)
      else Failed
  }

  function EcImport(c: Curve, point: Blob, secret: Blob): Import {
    Imported(AlgEc(c), PutString(CurveId(c)) + PutString(CurveName(c)) + PutString(point), PutMp(secret), PEM_COMMENT)
  }

  function ParseEc(inside: Blob, encrypted: bool): Import {
    var integer := Ber.Read(Src(inside, false));
    var secret := Ber.Read(integer.src);
    var sub0 := Ber.Read(secret.src);
    var sub1 := Ber.Read(sub0.src);
    var oid := Ber.Read(Src(sub0.value.data, false));
    var pub := Ber.Read(Src(sub1.value.data, false));
    if pub.src.err || integer.value.id != 2 || integer.value.data != [1] || secret.value.id != 4 || sub0.value.id != 0
       || sub1.value.id != 1 || oid.value.id != 6 || pub.value.id != 3 then Bad(encrypted)
    else match CurveByOid(oid.value.data)
      case None => Failed
      case Some(c) =>
        if |pub.value.data| != PointLength(c) + 2 then Bad(encrypted)
        else EcImport(c, pub.value.data[1..], secret.value.data)
  }

  function ParseBody(t: KeyType, blob: Blob, encrypted: bool): Import {
    var outer := Ber.Read(Src(blob, false));
    if outer.src.err || outer.value.id != 16 then Bad(encrypted)
    else if t == Ecdsa then ParseEc(outer.value.data, encrypted)
    else ParseIntegers(t == Rsa, outer.value.data, encrypted)
  }

  function Decrypted(c: Crypto, st: State, pass: Blob): Blob
    requires |st.iv| == 32
  {
    if !st.encrypted then st.acc.out
    else if st.enc.TripleDes? then c.desDecrypt(DeriveKey(c, pass, st.iv), st.iv[..8], st.acc.out)
    else c.aesDecrypt(DeriveKey(c, pass, st.iv), st.iv[..16], st.acc.out)
  }

  /** openssh_pem_read */
  function Read(c: Crypto, text: Blob, pass: Blob): Import {
    match Load(Pem, text)
    case Refused => Failed
    case Spins => Hangs
    case Finished(t, st) => ParseBody(t, Decrypted(c, st, pass), st.encrypted)
  }

  /** The loop over the integers of the sequence. */
  method ReadIntegers(rsa: bool, inside: Blob) returns (r: Taken)
    ensures var start := Parts(PutString(if rsa then SSH_RSA else SSH_DSS), [], 0);
            r == TakeIntegers(rsa, 0, if rsa then 9 else 6, Src(inside, false), start)
  {
    hide PutString, PutMp, Ber.Read;
    var src := new Source(inside);
    var n := if rsa then 9 else 6;
    var ps := Parts(PutString(if rsa then SSH_RSA else SSH_DSS), [], 0);
    ghost var whole := TakeIntegers(rsa, 0, n, src.View(), ps);
    for i := 0 to n
      invariant fresh(src) && src.Valid() && whole == TakeIntegers(rsa, i, n, src.View(), ps)
    {
      var it := Ber.Get(src);
      if src.err || it.id != 2 {
        return NotAsn1;
      }
      var next := TakeInteger(rsa, i, it.data, ps);
      if !next.Taken? {
        return next;
      }
      ps := next.parts;
    }
    return Taken(ps);
  }

  // ----- the keys of the ciphers -----

  /** The blocks of the derivation: each the hash of the block before, the passphrase and the salt. */
  function Block(c: Crypto, pass: Blob, salt: Blob, n: nat): Blob {
    c.md5((if n == 0 then [] else Block(c, pass, salt, n - 1)) + pass + salt)
  }

  lemma DerivedIs(c: Crypto, pass: Blob, iv: Blob)
    requires |iv| >= 8
    ensures DeriveKey(c, pass, iv) == Block(c, pass, iv[..8], 0) + Block(c, pass, iv[..8], 1)
  {
    assert [] + pass + iv[..8] == pass + iv[..8];
    assert Block(c, pass, iv[..8], 0) == c.md5(pass + iv[..8]);
  }

  /** The body in whole blocks of eight: one to eight more bytes, each their number. */
  predicate FilledUp(body: Blob, clear: Blob) {
    && |clear| % 8 == 0 && |body| < |clear| <= |body| + 8 && clear[..|body|] == body
    && Only(clear[|body|..], |clear| - |body|)
  }

  lemma {:induction false} RepeatIs(b: byte, n: nat)
    ensures Only(Repeat(b, n), b)
  {
    if n > 0 {
      RepeatIs(b, n - 1);
    }
  }

  lemma PaddedIsFilledUp(body: Blob)
    ensures FilledUp(body, Padded(body))
  {
    hide Repeat;
    var n := PadLength(|body|);
    RepeatIs(n, n);
    assert Padded(body)[..|body|] == body && Padded(body)[|body|..] == Repeat(n, n);
    assert (|body| + n) % 8 == 0;
  }

  /** The body, filled up, encrypted under the first two blocks of the derivation. */
  ghost predicate Enciphers(c: Crypto, pass: Blob, iv: Blob, body: Blob, blob: Blob) {
    exists clear :: FilledUp(body, clear)
                    && blob == c.desEncrypt(Block(c, pass, iv, 0) + Block(c, pass, iv, 1), iv, clear)
  }

  /**
   * What protects a file: the body is filled up to whole blocks and encrypted under the first two blocks of
   * the derivation, salted with the vector.
   */
  lemma ProtectedIs(c: Crypto, pass: Blob, iv: Blob, body: Blob)
    requires |iv| == 8
    ensures Enciphers(c, pass, iv, body, Protected(c, Some(pass), iv, body))
  {
    assert iv[..8] == iv;
    DerivedIs(c, pass, iv);
    PaddedIsFilledUp(body);
    hide DeriveKey, Block, Padded, FilledUp;
  }

  /** Both ciphers read under the same key, salted with the first eight bytes of the vector, whatever its length. */
  lemma DecryptedIs(c: Crypto, st: State, pass: Blob)
    requires |st.iv| == 32
    ensures var key := Block(c, pass, st.iv[..8], 0) + Block(c, pass, st.iv[..8], 1);
            Decrypted(c, st, pass)
            == if !st.encrypted then st.acc.out
               else match st.enc
                 case TripleDes => c.desDecrypt(key, st.iv[..8], st.acc.out)
                 case Aes128 => c.aesDecrypt(key, st.iv[..16], st.acc.out)
  {
    DerivedIs(c, pass, st.iv);
    hide DeriveKey, Block;
  }

  /** Only a file that says it is encrypted can be taken for one with another passphrase. */
  lemma WrongPassphraseMeansEncrypted(c: Crypto, text: Blob, pass: Blob)
    ensures Read(c, text, pass).WrongPassphrase? ==> Load(Pem, text).Finished? && Load(Pem, text).st.encrypted
  {
    hide Load, TakeIntegers, Ber.Read, CurveByOid, PutString, Decrypted;
  }

  /** A read hangs exactly when the text layer never ends, and a text that is refused fails. */
  lemma HangsExactly(c: Crypto, text: Blob, pass: Blob)
    ensures Read(c, text, pass).Hangs? <==> Load(Pem, text).Spins?
    ensures Load(Pem, text).Refused? ==> Read(c, text, pass).Failed?
  {
    hide Load, TakeIntegers, Ber.Read, CurveByOid, PutString, Decrypted;
  }

  // ----- the round trip -----

  lemma {:induction false} HexRoundTrip(b: Blob)
    ensures ReadHex(Hex(b), |b|) == Some(b) && Printable(Hex(b))
  {
    if b != [] {
      HexRoundTrip(b[1..]);
      var h := [HexDigit(b[0] / 16), HexDigit(b[0] % 16)];
      assert (h + Hex(b[1..]))[2..] == Hex(b[1..]);
      HexByte(b[0]);
      assert b == [b[0]] + b[1..];
    }
  }

  lemma HexByte(x: byte)
    ensures HexValue(HexDigit(x / 16)) == Some(x / 16) && HexValue(HexDigit(x % 16)) == Some(x % 16)
    ensures x / 16 * 16 + x % 16 == x
  {
  }

  lemma HeaderWords()
    ensures Printable(PROC_TYPE) && PROC_TYPE != [] && PROC_TYPE[0] != '-' as int && COLON !in PROC_TYPE
    ensures Printable(DEK_INFO) && DEK_INFO != [] && DEK_INFO[0] != '-' as int && COLON !in DEK_INFO
            && DEK_INFO != PROC_TYPE
    ensures Printable(DES_EDE3) && Printable(FOUR + ENCRYPTED) && DES_EDE3 != [] && !IsSpace(DES_EDE3[0])
    ensures |FOUR| == 2 && FOUR[0] == '4' as int && FOUR[1] == ',' as int && !IsSpace(FOUR[0])
            && (FOUR + ENCRYPTED)[2..] == ENCRYPTED
  {
  }

  lemma PrintableLine(b: Blob)
    requires Printable(b)
    ensures PlainLine(b)
  {
  }

  lemma ProcTypeIs(st: State, tail: Blob)
    requires Ok(st)
    ensures HeaderStep(Pem, st, PROC_TYPE, FOUR + ENCRYPTED, tail) == Some(Next(st.(encrypted := true), tail))
  {
    HeaderWords();
    hide PROC_TYPE, FOUR, ENCRYPTED, DEK_INFO;
  }

  lemma DekInfoIs(st: State, iv: Blob, tail: Blob)
    requires Ok(st) && |iv| == 8
    ensures HeaderStep(Pem, st, DEK_INFO, DES_EDE3 + Hex(iv), tail)
            == Some(Next(st.(enc := TripleDes, iv := Overwrite(st.iv, iv)), tail))
  {
    hide Hex, ReadHex;
    HeaderWords();
    hide PROC_TYPE, DEK_INFO, DES_EDE3;
    HexRoundTrip(iv);
    assert (DES_EDE3 + Hex(iv))[..|DES_EDE3|] == DES_EDE3 && (DES_EDE3 + Hex(iv))[|DES_EDE3|..] == Hex(iv);
  }

  function AfterHeaders(pass: Option<Blob>, iv: Blob): State
    requires |iv| == 8
  {
    if pass.None? then START
    else START.(headersDone := true, encrypted := true, enc := TripleDes, iv := Overwrite(START.iv, iv))
  }

  lemma HeadersAreRead(t: KeyType, pass: Option<Blob>, iv: Blob, tail: Blob)
    requires t != Unstated && |iv| == 8
    ensures Loop(Pem, t, START, Headers(pass, iv) + tail) == Loop(Pem, t, AfterHeaders(pass, iv), tail)
  {
    hide Loop, HeaderStep, Hex, Overwrite, Zeros;
    if pass.None? {
      assert [] + tail == tail;
    } else {
      var st1 := START.(encrypted := true);
      var st2 := st1.(enc := TripleDes, iv := Overwrite(START.iv, iv));
      OverwriteLength(START.iv, iv);
      var dek := DEK_INFO + [COLON, SP] + (DES_EDE3 + Hex(iv)) + [NL];
      var rest := [NL] + tail;
      HeaderWords();
      HexRoundTrip(iv);
      PrintableLine(FOUR + ENCRYPTED);
      PrintableLine(DES_EDE3 + Hex(iv));
      hide PROC_TYPE, FOUR, ENCRYPTED, DEK_INFO, DES_EDE3;
      assert Headers(pass, iv) + tail == PROC_TYPE + [COLON, SP] + (FOUR + ENCRYPTED) + [NL] + (dek + rest);
      HeaderIs(Pem, t, START, PROC_TYPE, FOUR + ENCRYPTED, dek + rest);
      ProcTypeIs(START, dek + rest);
      HeaderIs(Pem, t, st1, DEK_INFO, DES_EDE3 + Hex(iv), rest);
      DekInfoIs(st1, iv, rest);
      BlankLine(t, st2, tail);
    }
  }

  lemma OverwriteLength(buf: Blob, bytes: Blob)
    requires |bytes| <= |buf|
    ensures |Overwrite(buf, bytes)| == |buf| && Overwrite(buf, bytes)[..|bytes|] == bytes
  {
  }

  /** The empty line after the headers is an empty line of base64. */
  lemma BlankLine(t: KeyType, st: State, tail: Blob)
    requires Ok(st)
    ensures Loop(Pem, t, st, [NL] + tail) == Loop(Pem, t, st.(headersDone := true), tail)
  {
    hide Loop, Feed;
    var empty: Blob := [];
    var lines := [empty];
    assert lines[1..] == [];
    assert Unlines(lines) == empty + [NL] + Unlines([]) == [NL];
    assert Concat(lines) == empty + Concat([]) == [];
    FeedNothing(st.acc);
    BodyIs(Pem, t, st, lines, tail);
  }

  lemma FileLoads(t: KeyType, pass: Option<Blob>, iv: Blob, blob: Blob)
    requires t != Unstated && |iv| == 8 && blob != [] && (pass.Some? ==> |blob| % 8 == 0)
    ensures Load(Pem, FileText(t, pass, iv, blob))
            == Finished(t, AfterHeaders(pass, iv).(headersDone := true, acc := Acc([], blob)))
  {
    hide Loop, GetLine, Wrap, Chars, KeyText.EndLine, KeyText.BeginLine, Headers, Overwrite, Zeros;
    OverwriteLength(START.iv, iv);
    var body := Wrap(Chars(blob), 64) + (KeyText.EndLine(Pem, t) + [NL]);
    BeginIs(Pem, t, Headers(pass, iv) + body);
    HeadersAreRead(t, pass, iv, body);
    BodyLoads(Pem, t, AfterHeaders(pass, iv), blob, 64);
  }

  /** Decryption gives back the body, and whatever was added to fill the last block. */
  lemma DecryptIs(c: Crypto, pass: Option<Blob>, iv: Blob, body: Blob, st: State)
    requires Sound(c) && |iv| == 8
    requires st == AfterHeaders(pass, iv).(headersDone := true, acc := Acc([], Protected(c, pass, iv, body)))
    ensures Ok(st)
    ensures Decrypted(c, st, if pass.Some? then pass.value else []) == if pass.Some? then Padded(body) else body
    ensures pass.Some? ==> |Protected(c, pass, iv, body)| == |Padded(body)|
    ensures |Padded(body)| % 8 == 0
  {
    hide Overwrite, Zeros, Repeat;
    OverwriteLength(START.iv, iv);
    assert |Padded(body)| == |body| + PadLength(|body|);
    if pass.Some? {
      assert st.iv[..8] == iv && iv[..8] == iv;
      assert DeriveKey(c, pass.value, st.iv) == DeriveKey(c, pass.value, iv);
    }
  }

  /** Reading integers off an encoded sequence is reading the numbers. */
  function TakeAll(rsa: bool, i: nat, ns: seq<Blob>, ps: Parts): Taken
    decreases |ns|
  {
    if ns == [] then Taken(ps)
    else match TakeInteger(rsa, i, ns[0], ps)
      case Taken(q) => TakeAll(rsa, i + 1, ns[1..], q)
      case other => other
  }

  lemma {:induction false} TakeIntegersIs(rsa: bool, i: nat, ns: seq<Blob>, ps: Parts)
    requires Short(IntegerItems(ns))
    ensures TakeIntegers(rsa, i, i + |ns|, Src(Ber.EncodeAll(IntegerItems(ns)), false), ps) == TakeAll(rsa, i, ns, ps)
    decreases |ns|
  {
    hide TakeInteger, Ber.Encode, Ber.Read;
    if ns != [] {
      var its := IntegerItems(ns);
      assert its[1..] == IntegerItems(ns[1..]) && Ber.Writable(its[0]);
      Ber.ReadEncoded(its[0], Ber.EncodeAll(its[1..]));
      match TakeInteger(rsa, i, ns[0], ps)
      case Taken(q) => TakeIntegersIs(rsa, i + 1, ns[1..], q);
      case _ =>
    }
  }

  lemma TakeNext(rsa: bool, i: nat, n: Blob, ns: seq<Blob>, ps: Parts)
    requires TakeInteger(rsa, i, n, ps).Taken?
    ensures TakeAll(rsa, i, [n] + ns, ps) == TakeAll(rsa, i + 1, ns, TakeInteger(rsa, i, n, ps).parts)
  {
    assert ([n] + ns)[1..] == ns;
  }

  lemma RsaTaken(n: Blob, e: Blob, d: Blob, p: Blob, q: Blob, x: Blob, y: Blob, iqmp: Blob)
    ensures var pub := PutString(SSH_RSA) + PutMp(e) + PutMp(n);
            TakeAll(true, 0, [[0], n, e, d, p, q, x, y, iqmp], Parts(PutString(SSH_RSA), [], 0))
            == Taken(Parts(pub + PutMp(d) + PutMp(p) + PutMp(q) + PutMp(iqmp), n, |pub|))
  {
    hide PutMp, PutString, TakeAll;
    var name := PutString(SSH_RSA);
    var pub := name + PutMp(e) + PutMp(n);
    TakeNext(true, 0, [0], [n, e, d, p, q, x, y, iqmp], Parts(name, [], 0));
    TakeNext(true, 1, n, [e, d, p, q, x, y, iqmp], Parts(name, [], 0));
    TakeNext(true, 2, e, [d, p, q, x, y, iqmp], Parts(name, n, 0));
    TakeNext(true, 3, d, [p, q, x, y, iqmp], Parts(pub, n, |pub|));
    TakeNext(true, 4, p, [q, x, y, iqmp], Parts(pub + PutMp(d), n, |pub|));
    TakeNext(true, 5, q, [x, y, iqmp], Parts(pub + PutMp(d) + PutMp(p), n, |pub|));
    var most := Parts(pub + PutMp(d) + PutMp(p) + PutMp(q), n, |pub|);
    TakeNext(true, 6, x, [y, iqmp], most);
    TakeNext(true, 7, y, [iqmp], most);
    TakeNext(true, 8, iqmp, [], most);
    Unfolded(n, e, d, p, q, x, y, iqmp);
    TakeNothing(true, 9, Parts(pub + PutMp(d) + PutMp(p) + PutMp(q) + PutMp(iqmp), n, |pub|));
  }

  lemma TakeNothing(rsa: bool, i: nat, ps: Parts)
    ensures TakeAll(rsa, i, [], ps) == Taken(ps)
  {
  }

  lemma Unfolded(n: Blob, e: Blob, d: Blob, p: Blob, q: Blob, x: Blob, y: Blob, iqmp: Blob)
    ensures [[0], n, e, d, p, q, x, y, iqmp] == [[0]] + [n, e, d, p, q, x, y, iqmp]
    ensures [n, e, d, p, q, x, y, iqmp] == [n] + [e, d, p, q, x, y, iqmp]
    ensures [e, d, p, q, x, y, iqmp] == [e] + [d, p, q, x, y, iqmp]
    ensures [d, p, q, x, y, iqmp] == [d] + [p, q, x, y, iqmp]
    ensures [p, q, x, y, iqmp] == [p] + [q, x, y, iqmp]
    ensures [q, x, y, iqmp] == [q] + [x, y, iqmp]
    ensures [x, y, iqmp] == [x] + [y, iqmp]
    ensures [y, iqmp] == [y] + [iqmp] && [iqmp] == [iqmp] + []
  {
  }

  lemma DsaTaken(p: Blob, q: Blob, g: Blob, y: Blob, x: Blob)
    ensures var pub := PutString(SSH_DSS) + PutMp(p) + PutMp(q) + PutMp(g) + PutMp(y);
            TakeAll(false, 0, [[0], p, q, g, y, x], Parts(PutString(SSH_DSS), [], 0))
              == Taken(Parts(pub + PutMp(x), [], |pub|))
  {
    hide PutMp, PutString, TakeAll;
    var name := PutString(SSH_DSS);
    var pub := name + PutMp(p) + PutMp(q) + PutMp(g) + PutMp(y);
    TakeNext(false, 0, [0], [p, q, g, y, x], Parts(name, [], 0));
    TakeNext(false, 1, p, [q, g, y, x], Parts(name, [], 0));
    TakeNext(false, 2, q, [g, y, x], Parts(name + PutMp(p), [], 0));
    TakeNext(false, 3, g, [y, x], Parts(name + PutMp(p) + PutMp(q), [], 0));
    TakeNext(false, 4, y, [x], Parts(name + PutMp(p) + PutMp(q) + PutMp(g), [], 0));
    TakeNext(false, 5, x, [], Parts(pub, [], |pub|));
    TakeNothing(false, 6, Parts(pub + PutMp(x), [], |pub|));
    assert [[0], p, q, g, y, x] == [[0]] + [p, q, g, y, x] && [p, q, g, y, x] == [p] + [q, g, y, x];
    assert [q, g, y, x] == [q] + [g, y, x] && [g, y, x] == [g] + [y, x] && [y, x] == [y] + [x] && [x] == [x] + [];
  }

  lemma RsaBlobs(k: Key)
    requires k.RsaKey? && CanonicalKey(k)
    ensures PublicBlob(k) == PutString(SSH_RSA) + PutMp(k.e) + PutMp(k.n)
    ensures PrivateBlob(k) == PutMp(k.d) + PutMp(k.p) + PutMp(k.q) + PutMp(k.iqmp)
  {
    hide PutMp, PutString, Canonical;
    PutMpOfCanonical(k.e);
    PutMpOfCanonical(k.n);
    PutMpOfCanonical(k.d);
    PutMpOfCanonical(k.p);
    PutMpOfCanonical(k.q);
    PutMpOfCanonical(k.iqmp);
    hide Strings;
    StringsMore(SSH_RSA, k.e, k.n, []);
    StringsMore(k.d, k.p, k.q, [k.iqmp]);
    StringsOne(k.iqmp);
    NoStrings();
    assert PublicFields(k) == PublicFields(k) + [] && PrivateFields(k) == [k.d, k.p, k.q] + [k.iqmp];
  }

  lemma DsaBlobs(k: Key)
    requires k.DsaKey? && CanonicalKey(k)
    ensures PublicBlob(k) == PutString(SSH_DSS) + PutMp(k.p) + PutMp(k.q) + PutMp(k.g) + PutMp(k.y)
    ensures PrivateBlob(k) == PutMp(k.x)
  {
    hide PutMp, PutString, Canonical;
    PutMpOfCanonical(k.p);
    PutMpOfCanonical(k.q);
    PutMpOfCanonical(k.g);
    PutMpOfCanonical(k.y);
    PutMpOfCanonical(k.x);
    hide Strings;
    StringsMore(SSH_DSS, k.p, k.q, [k.g, k.y]);
    StringsTwo(k.g, k.y);
    StringsOne(k.x);
    assert PublicFields(k) == [SSH_DSS, k.p, k.q] + [k.g, k.y];
  }

  lemma RsaParses(k: Key, encrypted: bool)
    requires k.RsaKey? && Usable(k) && Fits(k) && CanonicalKey(k)
    ensures ParseIntegers(true, Ber.EncodeAll(Items(k)), encrypted)
            == Imported(AlgRsa, PublicBlob(k), PrivateBlob(k), PEM_COMMENT)
  {
    hide PutMp, PutString, Canonical, TakeIntegers, TakeAll, Value, DerInt, Ber.EncodeAll, PublicBlob, PrivateBlob,
         SSH_RSA, SSH_DSS, PEM_COMMENT;
    var ns := Integers(PublicFields(k), PrivateFields(k), true);
    TakeIntegersIs(true, 0, ns, Parts(PutString(SSH_RSA), [], 0));
    RsaTaken(k.n, k.e, k.d, k.p, k.q, ns[6], ns[7], k.iqmp);
    RsaBlobs(k);
    var rest := PutMp(k.d) + PutMp(k.p) + PutMp(k.q) + PutMp(k.iqmp);
    SplitAt(PublicBlob(k), rest, PublicBlob(k) + PutMp(k.d) + PutMp(k.p) + PutMp(k.q) + PutMp(k.iqmp));
  }

  lemma DsaParses(k: Key, encrypted: bool)
    requires k.DsaKey? && Fits(k) && CanonicalKey(k)
    ensures ParseIntegers(false, Ber.EncodeAll(Items(k)), encrypted)
            == Imported(AlgDsa, PublicBlob(k), PrivateBlob(k), PEM_COMMENT)
  {
    hide PutMp, PutString, Canonical, TakeIntegers, TakeAll, Ber.EncodeAll, PublicBlob, PrivateBlob, SSH_RSA, SSH_DSS,
         PEM_COMMENT;
    TakeIntegersIs(false, 0, Integers(PublicFields(k), PrivateFields(k), false), Parts(PutString(SSH_DSS), [], 0));
    DsaTaken(k.p, k.q, k.g, k.y, k.x);
    DsaBlobs(k);
    SplitAt(PublicBlob(k), PutMp(k.x), PublicBlob(k) + PutMp(k.x));
  }

  lemma SplitAt(a: Blob, b: Blob, c: Blob)
    requires c == a + b
    ensures c[..|a|] == a && c[|a|..] == b
  {
  }

  lemma EcParses(k: Key, encrypted: bool)
    requires k.EcKey? && Usable(k) && Fits(k) && CanonicalKey(k)
    ensures ParseEc(Ber.EncodeAll(Items(k)), encrypted)
            == Imported(AlgOf(k), PublicBlob(k), PrivateBlob(k), PEM_COMMENT)
  {
    hide PutMp, PutString, Canonical, Ber.Encode, Ber.EncodeAll, Ber.Read, PublicBlob, PrivateBlob, Oid, CurveByOid,
         EcImport, PointLength;
    EcSizes(k);
    OidIs(k.curve);
    PointShort(k.curve);
    var its := Items(k);
    assert Ber.Writable(its[0]) && Ber.Writable(its[1]) && Ber.Writable(its[2]) && Ber.Writable(its[3]);
    FourItems(its);
    var (a, b, c, d) := (Ber.Encode(its[0]), Ber.Encode(its[1]), Ber.Encode(its[2]), Ber.Encode(its[3]));
    Ber.ReadEncoded(its[0], b + (c + d));
    Ber.ReadEncoded(its[1], c + d);
    Ber.ReadEncoded(its[2], d);
    Ber.ReadEncoded(its[3], []);
    assert d + [] == d;
    var (oid, pub) := (Ber.Item(6, 0, Oid(k.curve)), Ber.Item(3, 0, [0] + k.point));
    assert PublicBlob(k)[39..40 + PointLength(k.curve)] == k.point;
    assert its[2].data == Ber.Encode(oid) + [] && its[3].data == Ber.Encode(pub) + [];
    Ber.ReadEncoded(oid, []);
    Ber.ReadEncoded(pub, []);
    assert ([0] + k.point)[1..] == k.point;
    EcBlobs(k);
  }

  lemma PointShort(c: Curve)
    ensures PointLength(c) <= 132
  {
  }

  lemma OidIs(c: Curve)
    ensures CurveByOid(Oid(c)) == Some(c) && |Oid(c)| <= 8
  {
    assert Oid(P256)[0] == 0x2a && Oid(P384)[0] == 0x2b && Oid(P521)[0] == 0x2b;
    assert Oid(P384)[4] == 0x22 && Oid(P521)[4] == 0x23;
  }

  lemma EcBlobs(k: Key)
    requires k.EcKey? && CanonicalKey(k) && Usable(k)
    ensures EcImport(k.curve, k.point, k.secret) == Imported(AlgOf(k), PublicBlob(k), PrivateBlob(k), PEM_COMMENT)
  {
    hide PutString, Canonical, PutMp, CurveId, CurveName;
    PutMpOfCanonical(k.secret);
    var name := CurveName(k.curve);
    hide Strings;
    StringsMore(CurveId(k.curve), name, k.point, []);
    NoStrings();
    StringsOne(k.secret);
    assert PublicFields(k) == PublicFields(k) + [];
  }

  lemma BodyParses(k: Key, tail: Blob, encrypted: bool)
    requires Usable(k) && Fits(k) && CanonicalKey(k)
    ensures ParseBody(TypeOf(k), Body(k) + tail, encrypted)
            == Imported(AlgOf(k), PublicBlob(k), PrivateBlob(k), PEM_COMMENT)
  {
    hide Ber.Read, Ber.Encode, Ber.EncodeAll, ParseIntegers, ParseEc, Items, PublicBlob, PrivateBlob;
    Ber.ReadEncoded(Sequence(Items(k)), tail);
    if k.EcKey? {
      EcParses(k, encrypted);
    } else if k.RsaKey? {
      RsaParses(k, encrypted);
    } else {
      DsaParses(k, encrypted);
    }
  }

  /**
   * The round trip: for every RSA, DSA and ECDSA key, with or without a passphrase, the importer
   * rebuilds the public and private blobs from what the exporter wrote.
   */
  lemma PemRoundTrip(c: Crypto, k: Key, pass: Option<Blob>, iv: Blob)
    requires Sound(c) && Usable(k) && Fits(k) && CanonicalKey(k) && |iv| == 8
    ensures Read(c, FileText(TypeOf(k), pass, iv, Protected(c, pass, iv, Body(k))),
                 if pass.Some? then pass.value else [])
            == Imported(AlgOf(k), PublicBlob(k), PrivateBlob(k), PEM_COMMENT)
  {
    hide Protected, Body, Load, Decrypted, ParseBody, FileText, Padded, PublicBlob, PrivateBlob, Overwrite, Zeros;
    var body := Body(k);
    var blob := Protected(c, pass, iv, body);
    OverwriteLength(START.iv, iv);
    var st := AfterHeaders(pass, iv).(headersDone := true, acc := Acc([], blob));
    DecryptIs(c, pass, iv, body, st);
    NotEmpty(c, k, pass, iv);
    FileLoads(TypeOf(k), pass, iv, blob);
    BodyParses(k, [], pass.Some?);
    assert body + [] == body;
    PaddingAfter(body);
    BodyParses(k, Repeat(PadLength(|body|), PadLength(|body|)), pass.Some?);
  }

  lemma PaddingAfter(body: Blob)
    ensures Padded(body) == body + Repeat(PadLength(|body|), PadLength(|body|)) && Padded(body) != []
  {
  }

  lemma NotEmpty(c: Crypto, k: Key, pass: Option<Blob>, iv: Blob)
    requires Sound(c) && Usable(k) && Fits(k) && |iv| == 8
    ensures Protected(c, pass, iv, Body(k)) != []
  {
    hide Ber.EncodeAll, Items, Repeat;
    PaddingAfter(Body(k));
    assert |Padded(Body(k))| % 8 == 0 by {
      assert |Padded(Body(k))| == |Body(k)| + PadLength(|Body(k)|);
    }
    assert |Body(k)| >= 1;
  }

  // ----- exactly which bodies are read -----

  function DataOf(its: seq<Ber.Item>): (r: seq<Blob>)
    ensures |r| == |its| && forall i :: 0 <= i < |its| ==> r[i] == its[i].data
  {
    seq(|its|, i requires 0 <= i < |its| => its[i].data)
  }

  predicate AllIntegers(its: seq<Ber.Item>) {
    forall i :: 0 <= i < |its| ==> its[i].id == 2
  }

  lemma ErrorSticks(s: Src)
    requires s.err
    ensures Ber.Read(s).src.err
  {
  }

  lemma {:induction false} ManyErrorsStick(n: nat, s: Src)
    requires s.err
    ensures Ber.ReadMany(n, s).src.err && |Ber.ReadMany(n, s).value| == n
    decreases n
  {
    hide Ber.Read;
    if n > 0 {
      ErrorSticks(s);
      ManyErrorsStick(n - 1, Ber.Read(s).src);
    }
  }

  lemma {:induction false} ManyLength(n: nat, s: Src)
    ensures |Ber.ReadMany(n, s).value| == n
    decreases n
  {
    hide Ber.Read;
    if n > 0 {
      ManyLength(n - 1, Ber.Read(s).src);
    }
  }

  lemma OneMoreItem(it: Ber.Item, its: seq<Ber.Item>)
    ensures AllIntegers([it] + its) <==> it.id == 2 && AllIntegers(its)
    ensures DataOf([it] + its) == [it.data] + DataOf(its)
  {
    var all := [it] + its;
    assert all[0] == it && forall j :: 0 <= j < |its| ==> its[j] == all[j + 1];
    assert AllIntegers(all) ==> AllIntegers(its);
    hide AllIntegers;
    assert forall j :: 0 <= j < |all| ==> DataOf(all)[j] == ([it.data] + DataOf(its))[j];
  }

  lemma TakeOne(rsa: bool, i: nat, n: nat, s: Src, ps: Parts)
    requires i < n
    ensures var it := Ber.Read(s);
            TakeIntegers(rsa, i, n, s, ps)
            == if it.src.err || it.value.id != 2 then NotAsn1
               else match TakeInteger(rsa, i, it.value.data, ps)
                 case Taken(q) => TakeIntegers(rsa, i + 1, n, it.src, q)
                 case other => other
  {
    hide TakeInteger, Ber.Read;
  }

  lemma TakeFirst(rsa: bool, i: nat, x: Blob, ns: seq<Blob>, ps: Parts)
    ensures TakeAll(rsa, i, [x] + ns, ps)
            == match TakeInteger(rsa, i, x, ps)
               case Taken(q) => TakeAll(rsa, i + 1, ns, q)
               case other => other
  {
    hide TakeInteger;
    assert ([x] + ns)[1..] == ns && ([x] + ns)[0] == x;
  }

  /** Reading the integers one by one is reading them all, if all are there. */
  lemma {:induction false} TakenExactly(rsa: bool, i: nat, n: nat, s: Src, ps: Parts)
    requires i <= n && !s.err
    ensures var g := Ber.ReadMany(n - i, s);
            if g.src.err || !AllIntegers(g.value) then !TakeIntegers(rsa, i, n, s, ps).Taken?
            else TakeIntegers(rsa, i, n, s, ps) == TakeAll(rsa, i, DataOf(g.value), ps)
    decreases n - i
  {
    hide Ber.Read, Ber.ReadMany, TakeInteger, TakeIntegers, TakeAll, AllIntegers, DataOf;
    if i == n {
      NoneTaken(rsa, i, s, ps);
    } else {
      var it := Ber.Read(s);
      var more := Ber.ReadMany(n - i - 1, it.src);
      ManyStep(n - i, s);
      OneMoreItem(it.value, more.value);
      TakeOne(rsa, i, n, s, ps);
      TakeFirst(rsa, i, it.value.data, DataOf(more.value), ps);
      if it.src.err {
        ManyErrorsStick(n - i - 1, it.src);
      } else if it.value.id == 2 {
        match TakeInteger(rsa, i, it.value.data, ps)
        case Taken(q) => TakenExactly(rsa, i + 1, n, it.src, q);
        case _ =>
      }
    }
  }

  lemma NoneTaken(rsa: bool, i: nat, s: Src, ps: Parts)
    ensures Ber.ReadMany(0, s) == Got([], s) && AllIntegers([]) && DataOf([]) == []
    ensures TakeIntegers(rsa, i, i, s, ps) == Taken(ps) == TakeAll(rsa, i, [], ps)
  {
  }

  lemma ManyStep(n: nat, s: Src)
    requires n > 0
    ensures var (it, more) := (Ber.Read(s), Ber.ReadMany(n - 1, Ber.Read(s).src));
            Ber.ReadMany(n, s) == Got([it.value] + more.value, more.src)
  {
    hide Ber.Read;
  }

  /** The blobs of a key from the integers of its file: those at 6 and 7 of an RSA key are left out. */
  function FromIntegers(rsa: bool, v: seq<Blob>): Import
    requires |v| == if rsa then 9 else 6
  {
    if rsa then
      Imported(AlgRsa, PutString(Ascii("ssh-rsa")) + PutMp(v[2]) + PutMp(v[1]),
               PutMp(v[3]) + PutMp(v[4]) + PutMp(v[5]) + PutMp(v[8]), PEM_COMMENT)
    else
      Imported(AlgDsa, PutString(Ascii("ssh-dss")) + PutMp(v[1]) + PutMp(v[2]) + PutMp(v[3]) + PutMp(v[4]),
               PutMp(v[5]), PEM_COMMENT)
  }

  /**
   * An RSA or DSA body is read exactly when its nine or six items are all there, all INTEGERs, and the first
   * is zero; and then the blobs are made of the others.
   */
  lemma IntegersExactly(rsa: bool, inside: Blob, encrypted: bool)
    ensures var g := Ber.ReadMany(if rsa then 9 else 6, Src(inside, false));
            var (v, r) := (DataOf(g.value), ParseIntegers(rsa, inside, encrypted));
            && |v| == (if rsa then 9 else 6)
            && (r.Imported? <==> !g.src.err && AllIntegers(g.value) && v[0] == [0])
            && (r.Imported? ==> r == FromIntegers(rsa, v))
  {
    hide Ber.Read, Ber.ReadMany, PutString, PutMp, TakeIntegers, TakeAll, AllIntegers, PEM_COMMENT;
    var n := if rsa then 9 else 6;
    var start := Parts(PutString(if rsa then SSH_RSA else SSH_DSS), [], 0);
    var g := Ber.ReadMany(n, Src(inside, false));
    ManyLength(n, Src(inside, false));
    TakenExactly(rsa, 0, n, Src(inside, false), start);
    var v := DataOf(g.value);
    if !g.src.err && AllIntegers(g.value) {
      if v[0] != [0] {
        WrongVersion(rsa, v, start);
      } else if rsa {
        assert v == [[0], v[1], v[2], v[3], v[4], v[5], v[6], v[7], v[8]];
        RsaTaken(v[1], v[2], v[3], v[4], v[5], v[6], v[7], v[8]);
        var pub := PutString(SSH_RSA) + PutMp(v[2]) + PutMp(v[1]);
        var priv := PutMp(v[3]) + PutMp(v[4]) + PutMp(v[5]) + PutMp(v[8]);
        SplitAt(pub, priv, pub + PutMp(v[3]) + PutMp(v[4]) + PutMp(v[5]) + PutMp(v[8]));
      } else {
        assert v == [[0], v[1], v[2], v[3], v[4], v[5]];
        DsaTaken(v[1], v[2], v[3], v[4], v[5]);
        var pub := PutString(SSH_DSS) + PutMp(v[1]) + PutMp(v[2]) + PutMp(v[3]) + PutMp(v[4]);
        SplitAt(pub, PutMp(v[5]), pub + PutMp(v[5]));
      }
    }
  }

  lemma WrongVersion(rsa: bool, v: seq<Blob>, ps: Parts)
    requires v != [] && v[0] != [0]
    ensures TakeAll(rsa, 0, v, ps) == BadVersion
  {
  }

  /** What is not a SEQUENCE is no key: the passphrase is blamed exactly when the file is encrypted. */
  lemma NoSequence(t: KeyType, blob: Blob, encrypted: bool)
    ensures var outer := Ber.Read(Src(blob, false));
            outer.src.err || outer.value.id != 0x30 - 0x20 ==>
              ParseBody(t, blob, encrypted) == if encrypted then WrongPassphrase else Failed
  {
    hide Ber.Read, ParseEc, ParseIntegers;
  }

  // ----- which keys can be written -----

  const SMALL: nat := 0x0800_0000

  lemma EncodeLength(it: Ber.Item)
    requires Ber.Writable(it) && it.id <= 30
    ensures |Ber.Encode(it)| <= |it.data| + 6
  {
    hide Digits;
    if |it.data| >= 128 {
      Ber.IntDigits(|it.data|);
    }
  }

  /** As many items as a file can have, each not too long, make a body that is not too long. */
  lemma {:induction false} EncodedLength(its: seq<Ber.Item>)
    requires forall i :: 0 <= i < |its| ==> its[i].id <= 30 && its[i].flags % 32 == 0 && |its[i].data| <= SMALL + 100
    ensures Short(its) && |Ber.EncodeAll(its)| <= |its| * (SMALL + 106)
  {
    hide Ber.Encode;
    if its != [] {
      EncodeLength(its[0]);
      EncodedLength(its[1..]);
      assert Short(its);
    }
  }

  lemma {:induction false} MoreBits(v: nat, w: nat)
    requires v <= w
    ensures NBits(v) <= NBits(w)
    decreases w
  {
    if v > 0 {
      MoreBits(v / 2, w / 2);
    }
  }

  lemma DerIntLength(v: nat, b: Blob)
    requires v <= Value(b)
    ensures |DerInt(v)| <= |b| + 1
  {
    hide NBits, Value, DerInt;
    MoreBits(v, Value(b));
    DerIntShortest(v);
    ComBitsExact(b);
    ComBytesCount(b);
    NoBytes();
    NoBits();
  }

  lemma IntegersShort(k: Key)
    requires Usable(k) && !k.EcKey? && AllWithin(PublicFields(k), SMALL) && AllWithin(PrivateFields(k), SMALL)
    ensures var ns := Integers(PublicFields(k), PrivateFields(k), k.RsaKey?);
            |ns| <= 9 && forall i :: 0 <= i < |ns| ==> |ns[i]| <= SMALL + 100
  {
    var (f, g) := (PublicFields(k), PrivateFields(k));
    hide NBits, Value, DerInt;
    if k.RsaKey? {
      assert f[1] == k.e && f[2] == k.n && g[0] == k.d && g[1] == k.p && g[2] == k.q && g[3] == k.iqmp;
      DerIntLength(Value(g[0]) % (Value(g[1]) - 1), g[1]);
      DerIntLength(Value(g[0]) % (Value(g[2]) - 1), g[2]);
    }
  }

  lemma EcShort(k: Key)
    requires Usable(k) && k.EcKey? && |k.secret| < SMALL
    ensures forall i :: 0 <= i < |Items(k)| ==>
              Items(k)[i].id <= 30 && Items(k)[i].flags % 32 == 0 && |Items(k)[i].data| <= SMALL + 100
    ensures |Items(k)| == 4
  {
    EcSizes(k);
    OidShort(k.curve);
    PointShort(k.curve);
    var (oid, pub) := (Ber.Item(6, 0, Oid(k.curve)), Ber.Item(3, 0, [0] + k.point));
    EncodeLength(oid);
    EncodeLength(pub);
    assert PublicBlob(k)[39..40 + PointLength(k.curve)] == k.point;
    hide Ber.Encode, PublicBlob, PrivateBlob, Oid, PointLength;
  }

  /** The round trip is of all keys whose numbers are shorter than 128 megabytes. */
  lemma SmallKeysFit(k: Key)
    requires Usable(k) && AllWithin(PublicFields(k), SMALL) && AllWithin(PrivateFields(k), SMALL)
    ensures Fits(k)
  {
    hide Ber.EncodeAll;
    if k.EcKey? {
      assert PrivateFields(k)[0] == k.secret;
      EcShort(k);
    } else {
      IntegersShort(k);
      hide Integers;
    }
    EncodedLength(Items(k));
    hide Items;
  }
}
