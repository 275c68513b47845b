/**
 * Private keys as the importers and exporters see them: the public and private blobs of PuTTY's own
 * form, which are SSH strings one after another, and the ciphers and hash that protect a file.
 */
module KeyBlobs {
  import opened Bytes
  import opened Marshal
  import opened Mpints
  import opened KeyText

  datatype Curve = P256 | P384 | P521

  datatype Key =
    | RsaKey(e: Blob, n: Blob, d: Blob, p: Blob, q: Blob, iqmp: Blob)
    | DsaKey(p: Blob, q: Blob, g: Blob, y: Blob, x: Blob)
    | EcKey(curve: Curve, point: Blob, secret: Blob)

  datatype Alg = AlgRsa | AlgDsa | AlgEc(curve: Curve)

  function AlgOf(k: Key): Alg {
    match k
    case RsaKey(_, _, _, _, _, _) => AlgRsa
    case DsaKey(_, _, _, _, _) => AlgDsa
    case EcKey(c, _, _) => AlgEc(c)
  }

  const SSH_RSA := Ascii("ssh-rsa")
  const SSH_DSS := Ascii("ssh-dss")

  function CurveName(c: Curve): (r: Blob)
    ensures |r| == 8
  {
    match c
    case P256 => Ascii("nistp256")
    case P384 => Ascii("nistp384")
    case P521 => Ascii("nistp521")
  }

  function CurveId(c: Curve): (r: Blob)
    ensures |r| == 19
  {
    Ascii("ecdsa-sha2-") + CurveName(c)
  }

  function FieldBits(c: Curve): nat {
    match c case P256 => 256 case P384 => 384 case P521 => 521
  }

  function PublicFields(k: Key): seq<Blob> {
    match k
    case RsaKey(e, n, _, _, _, _) => [SSH_RSA, e, n]
    case DsaKey(p, q, g, y, _) => [SSH_DSS, p, q, g, y]
    case EcKey(c, point, _) => [CurveId(c), CurveName(c), point]
  }

  function PrivateFields(k: Key): seq<Blob> {
    match k
    case RsaKey(_, _, d, p, q, iqmp) => [d, p, q, iqmp]
    case DsaKey(_, _, _, _, x) => [x]
    case EcKey(_, _, secret) => [secret]
  }

  function Strings(ss: seq<Blob>): Blob {
    if ss == [] then [] else PutString(ss[0]) + Strings(ss[1..])
  }

  lemma StringsCons(x: Blob, xs: seq<Blob>)
    ensures Strings([x] + xs) == PutString(x) + Strings(xs) && Strings([]) == []
  {
    assert ([x] + xs)[1..] == xs;
  }

  lemma StringsOne(x: Blob)
    ensures Strings([x]) == PutString(x)
  {
    hide PutString;
    StringsCons(x, []);
    assert [x] + [] == [x];
  }

  lemma StringsTwo(x: Blob, y: Blob)
    ensures Strings([x, y]) == PutString(x) + PutString(y)
  {
    hide PutString, Strings;
    StringsCons(x, [y]);
    StringsOne(y);
    assert [x] + [y] == [x, y];
  }

  lemma StringsMore(x: Blob, y: Blob, z: Blob, rest: seq<Blob>)
    ensures Strings([x, y, z] + rest) == PutString(x) + PutString(y) + PutString(z) + Strings(rest)
  {
    hide PutString, Strings;
    StringsCons(x, [y, z] + rest);
    StringsCons(y, [z] + rest);
    StringsCons(z, rest);
    assert [x] + ([y, z] + rest) == [x, y, z] + rest && [y] + ([z] + rest) == [y, z] + rest;
  }

  function PublicBlob(k: Key): Blob {
    Strings(PublicFields(k))
  }

  function PrivateBlob(k: Key): Blob {
    Strings(PrivateFields(k))
  }

  /** Every number of the key is in the shortest non-negative form, as its own code writes it. */
  predicate CanonicalKey(k: Key) {
    match k
    case RsaKey(e, n, d, p, q, iqmp) =>
      Canonical(e) && Canonical(n) && Canonical(d) && Canonical(p) && Canonical(q) && Canonical(iqmp)
    case DsaKey(p, q, g, y, x) => Canonical(p) && Canonical(q) && Canonical(g) && Canonical(y) && Canonical(x)
    case EcKey(_, _, secret) => Canonical(secret)
  }

  predicate AllWithin(ss: seq<Blob>, limit: nat) {
    forall i :: 0 <= i < |ss| ==> |ss[i]| < limit
  }

  /** get_string, n times over */
  function ReadStrings(n: nat, s: Src): (r: Got<seq<Blob>>)
    ensures |r.value| == n
    decreases n
  {
    if n == 0 then Got([], s)
    else
      var first := Str(s);
      var more := ReadStrings(n - 1, first.src);
      Got([first.value] + more.value, more.src)
  }

  lemma {:induction false} ReadStringsIs(ss: seq<Blob>)
    requires AllWithin(ss, TWO_TO_THE_32)
    ensures ReadStrings(|ss|, Src(Strings(ss), false)) == Got(ss, Src([], false))
    decreases |ss|
  {
    hide PutString, Str;
    if ss != [] {
      assert |ss[0]| < TWO_TO_THE_32;
      StrIs(ss[0], Strings(ss[1..]));
      ReadStringsIs(ss[1..]);
      assert ss == [ss[0]] + ss[1..];
    }
  }

  // ----- what protects a file -----

  /** MD5, triple DES in both directions, and AES-128 for reading, as functions of key, vector and data. */
  datatype Crypto = Crypto(
    md5: Blob -> Blob,
    desEncrypt: (Blob, Blob, Blob) -> Blob,
    desDecrypt: (Blob, Blob, Blob) -> Blob,
    aesDecrypt: (Blob, Blob, Blob) -> Blob)

  /** Decryption undoes encryption on whole blocks, and encryption keeps the length. */
  ghost predicate Sound(c: Crypto) {
    forall key: Blob, iv: Blob, d: Blob :: |d| % 8 == 0 ==>
      |c.desEncrypt(key, iv, d)| == |d| && c.desDecrypt(key, iv, c.desEncrypt(key, iv, d)) == d
  }

  datatype Import =
    | Imported(alg: Alg, pub: Blob, priv: Blob, comment: Blob)
    | WrongPassphrase
    | Failed
    | Hangs

  /** A parse that fails after decryption is taken for a wrong passphrase. */
  function Bad(encrypted: bool): Import {
    if encrypted then WrongPassphrase else Failed
  }
}
