/**
 * OpenSSH new-style private keys: the container, the padded and perhaps encrypted section, and the
 * round trip. A key's own encoding is inline and unframed, so all that is asked of it is that
 * decoding takes exactly what encoding wrote.
 */
module OpensshNew {
  import opened Bytes
  import opened Text
  import opened Base64
  import opened KeyText
  import opened Marshal

  datatype Cipher = NoCipher | Aes256Cbc | Aes256Ctr | Aes256Gcm

  datatype Kdf = NoKdf | Bcrypt(salt: Blob, rounds: nat)

  /** The key derivation and the ciphers of the format, as functions. */
  datatype NewCrypto = NewCrypto(
    bcrypt: (Blob, Blob, nat) -> Blob,
    ctrEncrypt: (Blob, Blob) -> Blob,
    decrypt: (Cipher, Blob, Blob) -> Blob)

  ghost predicate Sound(c: NewCrypto) {
    forall key: Blob, d: Blob :: |d| % 16 == 0 ==>
      |c.ctrEncrypt(key, d)| == |d| && c.decrypt(Aes256Ctr, key, c.ctrEncrypt(key, d)) == d
  }

  datatype Decoded<+K> = Decoded(key: K, rest: Blob)

  /** What the key algorithms provide: a name, and the inline form of the private key. */
  datatype Codec<!K> = Codec(
    idOf: K -> Blob,
    encode: K -> Blob,
    known: Blob -> bool,
    decode: (Blob, Blob) -> Option<Decoded<K>>)

  ghost predicate SelfDelimiting<K(!new)>(a: Codec<K>) {
    forall k: K, tail: Blob {:trigger a.encode(k) + tail} ::
      a.known(a.idOf(k)) && a.decode(a.idOf(k), a.encode(k) + tail) == Some(Decoded(k, tail))
  }

  // ----- padding -----

  /** n bytes counting from 1 */
  function Counting(n: nat): (r: Blob)
    requires n <= 255
    ensures |r| == n && forall i :: 0 <= i < n ==> r[i] == i + 1
  {
    if n == 0 then [] else Counting(n - 1) + [n]
  }

  function PadCount(n: nat): (r: nat)
    ensures 1 <= r <= 16 && (n + r) % 16 == 0
  {
    16 - n % 16
  }

  function PadOut(b: Blob): Blob {
    b + Counting(PadCount(|b|))
  }

  /** The writer's loop, which pads at least once. */
  method PutPad(b: Blob) returns (o: Blob)
    ensures o == PadOut(b)
  {
    hide PadCount;
    o := b + [1];
    var padvalue := 2;
    PadExact(|b|, 1);
    while |o| % 16 != 0
      invariant 2 <= padvalue <= 17 && o == b + Counting(padvalue - 1)
      invariant padvalue - 1 <= PadCount(|b|)
      invariant |o| % 16 == 0 <==> padvalue - 1 == PadCount(|b|)
      decreases 17 - padvalue
    {
      o := o + [padvalue];
      PadExact(|b|, padvalue);
      padvalue := padvalue + 1;
    }
  }

  lemma PadExact(n: nat, k: nat)
    requires 1 <= k <= 16
    ensures (n + k) % 16 == 0 <==> k == PadCount(n)
  {
  }

  /** The reader's check: the expected byte is an unsigned char and wraps round. */
  function PadAccepted(rest: Blob): bool {
    forall i :: 0 <= i < |rest| ==> rest[i] == (i + 1) % 256
  }

  method CheckPad(rest: Blob) returns (ok: bool)
    ensures ok <==> PadAccepted(rest)
  {
    var expected: byte := 1;
    var i := 0;
    while i < |rest|
      invariant 0 <= i <= |rest| && expected == (i + 1) % 256
      invariant forall j :: 0 <= j < i ==> rest[j] == (j + 1) % 256
    {
      if rest[i] != expected {
        return false;
      }
      expected := if expected == 255 then 0 else expected + 1;
      i := i + 1;
    }
    return true;
  }

  /** Of one to sixteen bytes after the key, the reader accepts the writer's padding and nothing else. */
  lemma PaddingIsExact(b: Blob, pad: Blob)
    requires |pad| == PadCount(|b|)
    ensures PadAccepted(pad) <==> b + pad == PadOut(b)
  {
    var c := Counting(PadCount(|b|));
    assert (b + pad)[|b|..] == pad && (b + c)[|b|..] == c;
    if PadAccepted(pad) {
      assert pad == c;
    }
  }

  /** However long the padding is, the bytes to accept count from 1 to 255, then 0, and again. */
  lemma LongPadding(pad: Blob)
    ensures PadAccepted(pad) <==> pad == seq(|pad|, i => if i % 256 == 255 then 0 else i % 256 + 1)
  {
    assert forall i :: 0 <= i ==> (i + 1) % 256 == if i % 256 == 255 then 0 else i % 256 + 1;
  }

  // ----- writing -----

  const MAGIC := Ascii("openssh-key-v1")
  const CBC := Ascii("aes256-cbc")
  const CTR := Ascii("aes256-ctr")
  const GCM := Ascii("aes256-gcm@openssh.com")
  const BCRYPT := Ascii("bcrypt")
  const ROUNDS: nat := 16

  function Options(salt: Blob): Blob {
    PutString(salt) + PutUint32(ROUNDS)
  }

  function Preamble(pass: Option<Blob>, salt: Blob): Blob {
    match pass
    case None => PutString(NONE) + PutString(NONE) + PutString([])
    case Some(_) => PutString(CTR) + PutString(BCRYPT) + PutString(Options(salt))
  }

  function Section<K>(a: Codec<K>, k: K, comment: Blob, check: nat): Blob {
    PadOut(PutUint32(check) + PutUint32(check) + PutString(a.idOf(k)) + a.encode(k) + PutString(comment))
  }

  function Protected(c: NewCrypto, pass: Option<Blob>, salt: Blob, section: Blob): Blob {
    match pass
    case None => section
    case Some(w) => c.ctrEncrypt(c.bcrypt(w, salt, ROUNDS), section)
  }

  function Container(pass: Option<Blob>, salt: Blob, pub: Blob, protected: Blob): Blob {
    MAGIC + [0] + Preamble(pass, salt) + PutUint32(1) + PutString(pub) + PutString(protected)
  }

  function FileText(blob: Blob): Blob {
    BeginLine(New, Unstated) + [NL] + (Wrap(Chars(blob), 64) + (EndLine(New, Unstated) + [NL]))
  }

  /** openssh_new_write */
  method Write<K>(c: NewCrypto, a: Codec<K>, k: K, pub: Blob, comment: Blob, pass: Option<Blob>, salt: Blob, check: nat)
    returns (text: Blob)
    ensures text == FileText(Container(pass, salt, pub, Protected(c, pass, salt, Section(a, k, comment, check))))
  {
    hide Wrap, Chars, PutString, PutUint32, PadOut, EndLine, BeginLine, MAGIC, NONE, CTR, BCRYPT;
    var blob := MAGIC + [0];
    if pass.None? {
      blob := blob + PutString(NONE) + PutString(NONE) + PutString([]);
    } else {
      var sub := PutString(salt) + PutUint32(ROUNDS);
      blob := blob + PutString(CTR) + PutString(BCRYPT) + PutString(sub);
    }
    assert blob == MAGIC + [0] + Preamble(pass, salt);
    blob := blob + PutUint32(1) + PutString(pub);
    var section := PutUint32(check) + PutUint32(check) + PutString(a.idOf(k)) + a.encode(k) + PutString(comment);
    section := PutPad(section);
    if pass.Some? {
      section := c.ctrEncrypt(c.bcrypt(pass.value, salt, ROUNDS), section);
    }
    blob := blob + PutString(section);
    text := BeginLine(New, Unstated) + [NL];
    text := EncodeLines(text, blob, 64);
    text := text + EndLine(New, Unstated) + [NL];
    assert text == FileText(blob);
  }

  // ----- reading -----

  /** get_asciz */
  function Asciz(s: Src): Got<Blob> {
    if s.err then Got([], s)
    else match Find(s.rest, 0)
      case Some(k) => Got(s.rest[..k], Src(s.rest[k + 1..], false))
      case None => Got([], s.(err := true))
  }

  function CipherOf(name: Blob): Option<Cipher> {
    if name == NONE then Some(NoCipher)
    else if name == CBC then Some(Aes256Cbc)
    else if name == CTR then Some(Aes256Ctr)
    else if name == GCM then Some(Aes256Gcm)
    else None
  }

  /** The derivation the name and the options string describe, or None when they do not fit. */
  function KdfOf(name: Blob, options: Blob): Option<Kdf> {
    if name == NONE then (if options == [] then Some(NoKdf) else None)
    else if name == BCRYPT then
      var salt := Str(Src(options, false));
      var rounds := Uint32(salt.src);
      if rounds.src.err then None else Some(Bcrypt(salt.value, rounds.value))
    else None
  }

  datatype Sealed = Sealed(cipher: Cipher, kdf: Kdf, private: Blob)

  /** load_openssh_new_key, on the decoded blob: files of several keys are refused. */
  function Unpack(blob: Blob): Option<Sealed> {
    var magic := Asciz(Src(blob, false));
    var cipher := Str(magic.src);
    var kdf := Str(cipher.src);
    var options := Str(kdf.src);
    var count := Uint32(options.src);
    var pub := Str(count.src);
    var private := Str(pub.src);
    if magic.value != MAGIC || count.value != 1 || private.src.err then None
    else match CipherOf(cipher.value)
      case None => None
      case Some(ci) =>
        match KdfOf(kdf.value, options.value)
        case None => None
        case Some(kd) => Some(Sealed(ci, kd, private.value))
  }

  datatype Opened<+K> = Opened(key: K, comment: Blob) | Failed | Hangs

  function Unseal(c: NewCrypto, s: Sealed, pass: Blob): Option<Blob> {
    if s.cipher.NoCipher? then Some(s.private)
    else if |s.private| % 16 != 0 then None
    else
      var key := if s.kdf.NoKdf? then Zeros(48) else c.bcrypt(pass, s.kdf.salt, s.kdf.rounds);
      Some(c.decrypt(s.cipher, key, s.private))
  }

  function OpenSection<K>(a: Codec<K>, section: Blob): Opened<K> {
    var first := Uint32(Src(section, false));
    var second := Uint32(first.src);
    var id := Str(second.src);
    if second.value != first.value || second.src.err || !a.known(id.value) || id.src.err then Failed
    else match a.decode(id.value, id.src.rest)
      case None => Failed
      case Some(d) =>
        var comment := Str(Src(d.rest, false));
        if comment.src.err || !PadAccepted(comment.src.rest) then Failed else Opened(d.key, comment.value)
  }

  /** openssh_new_read */
  function Read<K>(c: NewCrypto, a: Codec<K>, text: Blob, pass: Blob): Opened<K> {
    match Load(New, text)
    case Refused => Failed
    case Spins => Hangs
    case Finished(_, st) =>
      match Unpack(st.acc.out)
      case None => Failed
      case Some(s) =>
        match Unseal(c, s, pass)
        case None => Failed
        case Some(section) => OpenSection(a, section)
  }

  // ----- the round trip -----

  lemma Names()
    ensures 0 !in MAGIC && |NONE| < 100 && |CTR| < 100 && |BCRYPT| < 100
    ensures CipherOf(NONE) == Some(NoCipher) && CipherOf(CTR) == Some(Aes256Ctr) && NONE != BCRYPT
  {
    assert NONE[0] == 'n' as int && CTR[0] == 'a' as int && BCRYPT[0] == 'b' as int;
    assert CTR[9] == 'r' as int && CBC[9] == 'c' as int;
  }

  function WantedKdf(pass: Option<Blob>, salt: Blob): Kdf {
    if pass.None? then NoKdf else Bcrypt(salt, ROUNDS)
  }

  lemma KdfIs(salt: Blob)
    requires |salt| < TWO_TO_THE_32
    ensures KdfOf(BCRYPT, Options(salt)) == Some(Bcrypt(salt, ROUNDS)) && KdfOf(NONE, []) == Some(NoKdf)
  {
    hide PutString, PutUint32, Str, Uint32;
    Names();
    StrIs(salt, PutUint32(ROUNDS));
    assert PutUint32(ROUNDS) + [] == PutUint32(ROUNDS);
    Uint32Is(ROUNDS, []);
  }

  lemma AscizIs(s: Blob, tail: Blob)
    requires 0 !in s
    ensures Asciz(Src(s + [0] + tail, false)) == Got(s, Src(tail, false))
  {
    hide Find;
    FindAt(s, 0, tail);
    assert (s + [0] + tail)[..|s|] == s && (s + [0] + tail)[|s| + 1..] == tail;
  }

  lemma ContainerParts(pass: Option<Blob>, salt: Blob, pub: Blob, protected: Blob)
    ensures var (cipher, kdf) := if pass.None? then (NONE, NONE) else (CTR, BCRYPT);
            var options := if pass.None? then [] else Options(salt);
            Container(pass, salt, pub, protected)
            == MAGIC + [0]
               + (PutString(cipher) + (PutString(kdf) + (PutString(options)
               + (PutUint32(1) + (PutString(pub) + (PutString(protected) + []))))))
  {
    hide PutString, PutUint32, Options, MAGIC, NONE, CTR, BCRYPT;
  }

  lemma UnpackIs(pass: Option<Blob>, salt: Blob, pub: Blob, protected: Blob)
    requires |salt| == 16 && |pub| < TWO_TO_THE_32 && |protected| < TWO_TO_THE_32
    ensures Unpack(Container(pass, salt, pub, protected))
            == Some(Sealed(if pass.None? then NoCipher else Aes256Ctr, WantedKdf(pass, salt), protected))
  {
    hide PutString, PutUint32, Str, Uint32, Asciz, CipherOf, KdfOf;
    Names();
    KdfIs(salt);
    OptionsLength(salt);
    var (cipher, kdf) := if pass.None? then (NONE, NONE) else (CTR, BCRYPT);
    var options := if pass.None? then [] else Options(salt);
    hide MAGIC, NONE, CTR, BCRYPT, Options, Container;
    var last := PutString(protected) + [];
    var t3 := PutString(pub) + last;
    var t2 := PutUint32(1) + t3;
    var t1 := PutString(options) + t2;
    var t0 := PutString(kdf) + t1;
    ContainerParts(pass, salt, pub, protected);
    AscizIs(MAGIC, PutString(cipher) + t0);
    StrIs(cipher, t0);
    StrIs(kdf, t1);
    StrIs(options, t2);
    Uint32Is(1, t3);
    StrIs(pub, last);
    StrIs(protected, []);
  }

  lemma OptionsLength(salt: Blob)
    ensures |Options(salt)| == 8 + |salt|
  {
  }

  lemma SectionParts(id: Blob, key: Blob, comment: Blob, check: nat)
    ensures var body := PutUint32(check) + PutUint32(check) + PutString(id) + key + PutString(comment);
            PadOut(body)
            == PutUint32(check) + (PutUint32(check)
               + (PutString(id) + (key + (PutString(comment) + Counting(PadCount(|body|))))))
            && |PadOut(body)| % 16 == 0
  {
    hide PutUint32, PutString, Counting;
  }

  lemma SectionOpens<K(!new)>(a: Codec<K>, k: K, comment: Blob, check: nat)
    requires SelfDelimiting(a) && check < TWO_TO_THE_32 && |a.idOf(k)| < TWO_TO_THE_32 && |comment| < TWO_TO_THE_32
    ensures OpenSection(a, Section(a, k, comment, check)) == Opened(k, comment)
    ensures |Section(a, k, comment, check)| % 16 == 0
  {
    hide PutString, PutUint32, Str, Uint32;
    var (id, key) := (a.idOf(k), a.encode(k));
    var body := PutUint32(check) + PutUint32(check) + PutString(id) + key + PutString(comment);
    var pad := Counting(PadCount(|body|));
    var rest := PutString(comment) + pad;
    SectionParts(id, key, comment, check);
    hide PadOut, PadCount;
    Uint32Is(check, PutUint32(check) + (PutString(id) + (key + rest)));
    Uint32Is(check, PutString(id) + (key + rest));
    StrIs(id, key + rest);
    assert a.decode(id, key + rest) == Some(Decoded(k, rest));
    StrIs(comment, pad);
    assert PadAccepted(pad);
  }

  /**
   * The round trip: what the exporter writes, the importer reads back as the same key and comment,
   * with or without a passphrase, whatever the salt and the check number.
   */
  lemma NewRoundTrip<K(!new)>(c: NewCrypto, a: Codec<K>, k: K, pub: Blob, comment: Blob, pass: Option<Blob>,
    salt: Blob, check: nat)
    requires Sound(c) && SelfDelimiting(a) && |salt| == 16 && check < TWO_TO_THE_32
    requires |a.idOf(k)| < TWO_TO_THE_32 && |comment| < TWO_TO_THE_32 && |pub| < TWO_TO_THE_32
    requires |Section(a, k, comment, check)| < TWO_TO_THE_32
    ensures Read(c, a, FileText(Container(pass, salt, pub, Protected(c, pass, salt, Section(a, k, comment, check)))),
                 if pass.Some? then pass.value else [])
            == Opened(k, comment)
  {
    hide Section, Container, Load, FileText, Unpack, OpenSection;
    var section := Section(a, k, comment, check);
    SectionOpens(a, k, comment, check);
    var protected := Protected(c, pass, salt, section);
    UnpackIs(pass, salt, pub, protected);
    ContainerIsSomething(pass, salt, pub, protected);
    FileLoads(Container(pass, salt, pub, protected));
  }

  lemma FileLoads(blob: Blob)
    requires blob != []
    ensures Load(New, FileText(blob)) == Finished(Unstated, START.(headersDone := true, acc := Acc([], blob)))
  {
    hide Loop, GetLine, Wrap, Chars, EndLine, BeginLine;
    var body := Wrap(Chars(blob), 64) + (EndLine(New, Unstated) + [NL]);
    BeginIs(New, Unstated, body);
    BodyLoads(New, Unstated, START, blob, 64);
  }

  lemma ContainerIsSomething(pass: Option<Blob>, salt: Blob, pub: Blob, protected: Blob)
    ensures Container(pass, salt, pub, protected) != []
  {
    hide Preamble, PutString, PutUint32;
    assert (MAGIC + [0])[|MAGIC|] == 0;
  }

  // ----- exactly what the reader takes -----

  /** The names of the ciphers in the file format. */
  function CipherName(c: Cipher): Blob {
    match c
    case NoCipher => Ascii("none")
    case Aes256Cbc => Ascii("aes256-cbc")
    case Aes256Ctr => Ascii("aes256-ctr")
    case Aes256Gcm => Ascii("aes256-gcm@openssh.com")
  }

  lemma CipherNamed(name: Blob, c: Cipher)
    ensures CipherOf(name) == Some(c) <==> name == CipherName(c)
  {
    assert NONE[0] == 'n' as int && CBC[0] == 'a' as int && CTR[0] == 'a' as int && GCM[0] == 'a' as int;
    assert CBC[7] == 'c' as int && CTR[7] == 'c' as int && GCM[7] == 'g' as int;
    assert CBC[8] == 'b' as int && CTR[8] == 't' as int;
  }

  /** A derivation as a file states it: by name, and for bcrypt with its salt and rounds first in the options. */
  ghost predicate StatesKdf(name: Blob, options: Blob, k: Kdf) {
    match k
    case NoKdf => name == Ascii("none") && options == []
    case Bcrypt(salt, rounds) =>
      && name == Ascii("bcrypt") && |salt| < TWO_TO_THE_32 && rounds < TWO_TO_THE_32
      && exists more: Blob :: options == PutString(salt) + (PutUint32(rounds) + more)
  }

  lemma KdfStated(name: Blob, options: Blob, k: Kdf)
    ensures KdfOf(name, options) == Some(k) <==> StatesKdf(name, options, k)
  {
    assert NONE[0] == 'n' as int && BCRYPT[0] == 'b' as int;
    assert NONE == Ascii("none") && BCRYPT == Ascii("bcrypt");
    hide PutString, PutUint32, Str, Uint32, NONE, BCRYPT;
    if k.Bcrypt? && name == BCRYPT {
      BcryptStated(options, k.salt, k.rounds);
    }
  }

  lemma BcryptStated(options: Blob, salt: Blob, rounds: nat)
    ensures KdfOf(BCRYPT, options) == Some(Bcrypt(salt, rounds)) <==> StatesKdf(BCRYPT, options, Bcrypt(salt, rounds))
  {
    assert NONE[0] == 'n' as int && BCRYPT[0] == 'b' as int;
    assert BCRYPT == Ascii("bcrypt");
    var s := Str(Src(options, false));
    var r := Uint32(s.src);
    hide PutString, PutUint32, NONE, BCRYPT;
    if !r.src.err {
      StrExactly(options, s.value, s.src.rest);
      Uint32Exactly(s.src.rest, r.value, r.src.rest);
      if s.value == salt && r.value == rounds {
        assert options == PutString(salt) + (PutUint32(rounds) + r.src.rest);
      }
    }
    hide Str, Uint32;
    if more: Blob :| options == PutString(salt) + (PutUint32(rounds) + more) {
      if |salt| < TWO_TO_THE_32 && rounds < TWO_TO_THE_32 {
        StrIs(salt, PutUint32(rounds) + more);
        Uint32Is(rounds, more);
      }
    }
  }

  /** The layout of a file of one key, with whatever stands behind it. */
  predicate LaidOut(blob: Blob, cipher: Blob, kdf: Blob, options: Blob, pub: Blob, private: Blob, tail: Blob) {
    && |cipher| < TWO_TO_THE_32 && |kdf| < TWO_TO_THE_32 && |options| < TWO_TO_THE_32
    && |pub| < TWO_TO_THE_32 && |private| < TWO_TO_THE_32
    && blob == Ascii("openssh-key-v1") + [0]
               + (PutString(cipher) + (PutString(kdf) + (PutString(options)
               + (PutUint32(1) + (PutString(pub) + (PutString(private) + tail))))))
  }

  ghost predicate Describes(blob: Blob, s: Sealed) {
    exists kdf: Blob, options: Blob, pub: Blob, tail: Blob ::
      LaidOut(blob, CipherName(s.cipher), kdf, options, pub, s.private, tail) && StatesKdf(kdf, options, s.kdf)
  }

  lemma AscizExactly(b: Blob, s: Blob, tail: Blob)
    ensures Asciz(Src(b, false)) == Got(s, Src(tail, false)) <==> 0 !in s && b == s + [0] + tail
  {
    hide Find;
    var k := Find(b, 0);
    if k.Some? {
      assert b == b[..k.value] + [0] + b[k.value + 1..];
    }
    if 0 !in s && b == s + [0] + tail {
      AscizIs(s, tail);
    }
  }

  /** What a laid-out blob unpacks to. */
  lemma LaidOutUnpacks(blob: Blob, cipher: Blob, kdf: Blob, options: Blob, pub: Blob, private: Blob, tail: Blob)
    requires LaidOut(blob, cipher, kdf, options, pub, private, tail)
    ensures Unpack(blob) == match (CipherOf(cipher), KdfOf(kdf, options))
                            case (Some(ci), Some(kd)) => Some(Sealed(ci, kd, private))
                            case _ => None
  {
    hide PutString, PutUint32, Str, Uint32, Asciz, CipherOf, KdfOf;
    Names();
    assert MAGIC == Ascii("openssh-key-v1");
    hide MAGIC;
    var last := PutString(private) + tail;
    var t3 := PutString(pub) + last;
    var t2 := PutUint32(1) + t3;
    var t1 := PutString(options) + t2;
    var t0 := PutString(kdf) + t1;
    AscizIs(MAGIC, PutString(cipher) + t0);
    StrIs(cipher, t0);
    StrIs(kdf, t1);
    StrIs(options, t2);
    Uint32Is(1, t3);
    StrIs(pub, last);
    StrIs(private, tail);
  }

  /** An error sticks: what was read without one was read from where no error was. */
  lemma StringRead(s: Src)
    requires !Str(s).src.err
    ensures !s.err && |Str(s).value| < TWO_TO_THE_32 && s.rest == PutString(Str(s).value) + Str(s).src.rest
  {
    StrExactly(s.rest, Str(s).value, Str(s).src.rest);
  }

  lemma NumberRead(s: Src)
    requires !Uint32(s).src.err
    ensures !s.err && s.rest == PutUint32(Uint32(s).value) + Uint32(s).src.rest
  {
    Uint32Exactly(s.rest, Uint32(s).value, Uint32(s).src.rest);
  }

  lemma AscizRead(s: Src)
    requires !Asciz(s).src.err
    ensures !s.err && s.rest == Asciz(s).value + [0] + Asciz(s).src.rest
  {
    AscizExactly(s.rest, Asciz(s).value, Asciz(s).src.rest);
  }

  lemma UnpackedIsLaidOut(blob: Blob) returns (cipher: Blob, kdf: Blob, options: Blob, pub: Blob, tail: Blob)
    requires Unpack(blob).Some?
    ensures LaidOut(blob, cipher, kdf, options, pub, Unpack(blob).value.private, tail)
    ensures CipherOf(cipher) == Some(Unpack(blob).value.cipher) && KdfOf(kdf, options) == Some(Unpack(blob).value.kdf)
  {
    hide PutString, PutUint32, Str, Uint32, Asciz, CipherOf, KdfOf;
    assert MAGIC == Ascii("openssh-key-v1");
    hide MAGIC;
    var a := Asciz(Src(blob, false));
    var b := Str(a.src);
    var c := Str(b.src);
    var d := Str(c.src);
    var n := Uint32(d.src);
    var p := Str(n.src);
    var q := Str(p.src);
    StringRead(p.src);
    StringRead(n.src);
    NumberRead(d.src);
    StringRead(c.src);
    StringRead(b.src);
    StringRead(a.src);
    AscizRead(Src(blob, false));
    cipher, kdf, options, pub, tail := b.value, c.value, d.value, p.value, q.src.rest;
  }

  /** The loader takes exactly the files of one key in the layout, with a known cipher and derivation. */
  lemma UnpackExactly(blob: Blob, s: Sealed)
    ensures Unpack(blob) == Some(s) <==> Describes(blob, s)
  {
    hide Unpack, CipherOf, KdfOf, CipherName, StatesKdf, LaidOut;
    if Unpack(blob) == Some(s) {
      var cipher, kdf, options, pub, tail := UnpackedIsLaidOut(blob);
      CipherNamed(cipher, s.cipher);
      KdfStated(kdf, options, s.kdf);
    }
    if Describes(blob, s) {
      var kdf: Blob, options: Blob, pub: Blob, tail: Blob :|
        LaidOut(blob, CipherName(s.cipher), kdf, options, pub, s.private, tail) && StatesKdf(kdf, options, s.kdf);
      LaidOutUnpacks(blob, CipherName(s.cipher), kdf, options, pub, s.private, tail);
      CipherNamed(CipherName(s.cipher), s.cipher);
      KdfStated(kdf, options, s.kdf);
    }
  }

  /** A section as it must be to open: one check number twice, a known key, its comment, and right padding. */
  ghost predicate Contains<K>(a: Codec<K>, section: Blob, k: K, comment: Blob) {
    exists check: nat, id: Blob, body: Blob, pad: Blob ::
      && check < TWO_TO_THE_32 && |id| < TWO_TO_THE_32 && |comment| < TWO_TO_THE_32
      && section == PutUint32(check) + (PutUint32(check) + (PutString(id) + body))
      && a.known(id) && a.decode(id, body) == Some(Decoded(k, PutString(comment) + pad)) && PadAccepted(pad)
  }

  /** The reader opens exactly such sections: a wrong passphrase is one under which it is not such a section. */
  lemma OpensExactly<K>(a: Codec<K>, section: Blob, k: K, comment: Blob)
    ensures OpenSection(a, section) == Opened(k, comment) <==> Contains(a, section, k, comment)
  {
    hide PutString, PutUint32, PadAccepted;
    if OpenSection(a, section) == Opened(k, comment) {
      var first := Uint32(Src(section, false));
      var second := Uint32(first.src);
      var id := Str(second.src);
      var d := a.decode(id.value, id.src.rest).value;
      var c := Str(Src(d.rest, false));
      hide Str, Uint32;
      StringRead(Src(d.rest, false));
      StringRead(second.src);
      NumberRead(first.src);
      NumberRead(Src(section, false));
      Uint32Exactly(section, first.value, first.src.rest);
      assert section == PutUint32(first.value) + (PutUint32(first.value) + (PutString(id.value) + id.src.rest));
      assert a.decode(id.value, id.src.rest) == Some(Decoded(k, PutString(comment) + c.src.rest));
    }
    if Contains(a, section, k, comment) {
      var check: nat, id: Blob, body: Blob, pad: Blob :|
        && check < TWO_TO_THE_32 && |id| < TWO_TO_THE_32 && |comment| < TWO_TO_THE_32
        && section == PutUint32(check) + (PutUint32(check) + (PutString(id) + body))
        && a.known(id) && a.decode(id, body) == Some(Decoded(k, PutString(comment) + pad)) && PadAccepted(pad);
      hide Str, Uint32;
      Uint32Is(check, PutUint32(check) + (PutString(id) + body));
      Uint32Is(check, PutString(id) + body);
      StrIs(id, body);
      StrIs(comment, pad);
    }
  }

  /** What is encrypted under the key that the passphrase and the file's own derivation give. */
  function Plain(c: NewCrypto, s: Sealed, pass: Blob): Blob {
    match (s.cipher, s.kdf)
    case (NoCipher, _) => s.private
    case (ci, Bcrypt(salt, rounds)) => c.decrypt(ci, c.bcrypt(pass, salt, rounds), s.private)
    case (ci, NoKdf) => c.decrypt(ci, seq(48, _ => 0), s.private)
  }

  lemma {:induction false} ZerosAre(n: nat)
    ensures Zeros(n) == seq(n, _ => 0)
  {
    if n > 0 {
      ZerosAre(n - 1);
    }
  }

  lemma UnsealIs(c: NewCrypto, s: Sealed, pass: Blob)
    ensures Unseal(c, s, pass) == if s.cipher.NoCipher? || |s.private| % 16 == 0 then Some(Plain(c, s, pass)) else None
  {
    ZerosAre(48);
    hide Zeros;
  }

  /**
   * Whoever wrote the file, with whichever of the ciphers, salt and rounds: it is read as this key and
   * comment exactly when, deciphered as it says itself, it contains them. An encrypted section must be whole blocks.
   */
  lemma FileOpensExactly<K>(c: NewCrypto, a: Codec<K>, blob: Blob, s: Sealed, pass: Blob, k: K, comment: Blob)
    requires Describes(blob, s)
    ensures Read(c, a, FileText(blob), pass) == Opened(k, comment)
            <==> (s.cipher.NoCipher? || |s.private| % 16 == 0) && Contains(a, Plain(c, s, pass), k, comment)
  {
    assert blob != [];
    UnpackExactly(blob, s);
    FileLoads(blob);
    UnsealIs(c, s, pass);
    OpensExactly(a, Plain(c, s, pass), k, comment);
    hide Unpack, Load, FileText, OpenSection, Contains, Describes, Unseal, Plain;
  }

  /** A read hangs exactly when the text layer never ends, and a text that is refused fails. */
  lemma HangsExactly<K>(c: NewCrypto, a: Codec<K>, text: Blob, pass: Blob)
    ensures Read(c, a, text, pass).Hangs? <==> Load(New, text).Spins?
    ensures Load(New, text).Refused? ==> Read(c, a, text, pass).Failed?
  {
    hide Load, Unpack, Unseal;
  }
}
