/**
 * The formats against the standards they follow: alphabets, markers and worked examples, so that the writers
 * and the readers do not only agree with each other.
 */
module Standards {
  import opened Bytes
  import opened Text
  import opened Base64
  import opened KeyText
  import opened Mpints
  import Ber
  import Marshal
  import ScpWire
  import OpensshPem
  import opened KeyBlobs

  // ----- base64 -----

  /** The characters from a given one on. */
  function Letters(from: char, n: nat): Blob
    requires from as int + n <= 256
  {
    seq(n, i requires 0 <= i < n => from as int + i)
  }

  const ALPHABET: Blob := Letters('A', 26) + Letters('a', 26) + Letters('0', 10) + ['+' as int, '/' as int]

  /** Table 1 of RFC 4648, in both directions. */
  lemma AlphabetExactly(v: nat, c: byte)
    requires v < 64
    ensures |ALPHABET| == 64 && EncodeChar(v) == ALPHABET[v]
    ensures DecodeChar(c) == Some(v as int) <==> c == ALPHABET[v]
    ensures DecodeChar(c).None? <==> c != '=' as int && c !in ALPHABET
  {
    assert forall i :: 0 <= i < 64 ==> EncodeChar(i) == ALPHABET[i];
    if DecodeChar(c).Some? && DecodeChar(c).value >= 0 {
      assert ALPHABET[DecodeChar(c).value] == c;
    }
  }

  /** A group of four is refused exactly for a foreign character or for padding in the wrong place. */
  lemma GroupRefusedExactly(a: Blob)
    requires |a| == 4
    ensures DecodeAtom(a).None?
            <==> (exists i :: 0 <= i < 4 && DecodeChar(a[i]).None?)
                 || a[0] == '=' as int || a[1] == '=' as int || (a[2] == '=' as int && a[3] != '=' as int)
  {
    assert forall i :: 0 <= i < 4 ==> (DecodeChar(a[i]) == Some(-1) <==> a[i] == '=' as int);
  }

  lemma SixBitGroups(v: nat, w: nat, x: nat, y: nat)
    requires v < 64 && w < 64 && x < 64 && y < 64
    ensures var n := ((v * 64 + w) * 64 + x) * 64 + y;
            n % 64 == y && n / 64 % 64 == x && n / 64 / 64 % 64 == w && n / 64 / 64 / 64 == v
  {
    var a := v * 64 + w;
    var b := a * 64 + x;
    var n := b * 64 + y;
    assert n / 64 == b && n % 64 == y;
    assert b / 64 == a && b % 64 == x;
    assert a / 64 == v && a % 64 == w;
  }

  /** The characters of one to three bytes whose six-bit groups are these. */
  lemma AtomOf(d: Blob, v: nat, w: nat, x: nat, y: nat)
    requires 1 <= |d| <= 3 && v < 64 && w < 64 && x < 64 && y < 64
    requires Word(d) == ((v * 64 + w) * 64 + x) * 64 + y
    ensures EncodeAtom(d) == [ALPHABET[v], ALPHABET[w],
                              if |d| > 1 then ALPHABET[x] else '=' as int, if |d| > 2 then ALPHABET[y] else '=' as int]
  {
    SixBitGroups(v, w, x, y);
    AlphabetExactly(v, 0);
    AlphabetExactly(w, 0);
    AlphabetExactly(x, 0);
    AlphabetExactly(y, 0);
    hide Word, EncodeChar, ALPHABET;
  }

  /** Test vectors of section 10 of RFC 4648, with and without padding. */
  lemma Base64Vectors()
    ensures EncodeAtom(Ascii("f")) == Ascii("Zg==")
    ensures EncodeAtom(Ascii("fo")) == Ascii("Zm8=")
  {
    assert Word(Ascii("f")) == 102 * 65536 && Word(Ascii("fo")) == 102 * 65536 + 111 * 256;
    AtomOf(Ascii("f"), 25, 32, 0, 0);
    AtomOf(Ascii("fo"), 25, 38, 60, 0);
    hide EncodeAtom, Word;
  }

  lemma MoreBase64Vectors()
    ensures EncodeAtom(Ascii("foo")) == Ascii("Zm9v")
    ensures EncodeAtom(Ascii("bar")) == Ascii("YmFy")
  {
    assert Word(Ascii("foo")) == 102 * 65536 + 111 * 256 + 111 && Word(Ascii("bar")) == 98 * 65536 + 97 * 256 + 114;
    AtomOf(Ascii("foo"), 25, 38, 61, 47);
    AtomOf(Ascii("bar"), 24, 38, 5, 50);
    hide EncodeAtom, Word;
  }

  // ----- the lines of key files -----

  /** The lines that start and end the files of the three formats. */
  lemma PemMarkers()
    ensures BeginLine(Pem, Rsa) == Ascii("-----BEGIN ") + Ascii("RSA ") + Ascii("PRIVATE KEY-----")
    ensures BeginLine(Pem, Dsa) == Ascii("-----BEGIN ") + Ascii("DSA ") + Ascii("PRIVATE KEY-----")
    ensures BeginLine(Pem, Ecdsa) == Ascii("-----BEGIN ") + Ascii("EC ") + Ascii("PRIVATE KEY-----")
    ensures EndLine(Pem, Rsa) == Ascii("-----END ") + Ascii("RSA ") + Ascii("PRIVATE KEY-----")
    ensures EndLine(Pem, Dsa) == Ascii("-----END ") + Ascii("DSA ") + Ascii("PRIVATE KEY-----")
    ensures EndLine(Pem, Ecdsa) == Ascii("-----END ") + Ascii("EC ") + Ascii("PRIVATE KEY-----")
  {
    hide Ascii;
  }

  lemma OtherMarkers()
    ensures BeginLine(New, Unstated) == Ascii("-----BEGIN ") + Ascii("OPENSSH ") + Ascii("PRIVATE KEY-----")
    ensures EndLine(New, Unstated) == Ascii("-----END ") + Ascii("OPENSSH ") + Ascii("PRIVATE KEY-----")
    ensures BeginLine(Com, Unstated) == Ascii("---- BEGIN ") + Ascii("SSH2 ENCRYPTED ") + Ascii("PRIVATE KEY ----")
    ensures EndLine(Com, Unstated) == Ascii("---- END ") + Ascii("SSH2 ENCRYPTED ") + Ascii("PRIVATE KEY ----")
  {
    hide Ascii;
  }

  /** Any line of this form ends a PEM file, whatever kind of key it names, and no other. */
  lemma EndLineExactly(line: Blob)
    ensures IsEnd(Pem, line) <==> exists x: Blob :: line == Ascii("-----END ") + x + Ascii("PRIVATE KEY-----")
  {
    if IsEnd(Pem, line) {
      assert line[..9] == END && line[|line| - 16..] == PRIVATE;
      if |line| < 25 {
        Overlap(line);
      }
      assert line == line[..9] + line[9..|line| - 16] + line[|line| - 16..];
    }
    if x: Blob :| line == Ascii("-----END ") + x + Ascii("PRIVATE KEY-----") {
      assert line[..9] == END && line[|line| - 16..] == PRIVATE;
    }
  }

  lemma Overlap(line: Blob)
    requires 16 <= |line| < 25
    ensures !(line[..9] == END && line[|line| - 16..] == PRIVATE)
  {
    var k := |line| - 16;
    assert END[8] == ' ' as int && END[1] == '-' as int && PRIVATE[0] == 'P' as int;
    assert forall i :: 0 <= i < 9 && PRIVATE[i] == ' ' as int ==> i == 7;
    assert line[8] == line[k..][8 - k] && line[8] == line[..9][8];
    assert line[k] == line[k..][0] && line[k] == line[..9][k];
  }

  // ----- numbers and lengths -----

  /** Examples of section 5 of RFC 4251. */
  lemma MpintVectors()
    ensures PutMp([0x09, 0xa3, 0x78, 0xf9, 0xb2, 0xe3, 0x32, 0xa7])
            == [0x00, 0x00, 0x00, 0x08] + [0x09, 0xa3, 0x78, 0xf9, 0xb2, 0xe3, 0x32, 0xa7]
    ensures PutMp([0x80]) == [0x00, 0x00, 0x00, 0x02] + [0x00, 0x80]
  {
  }

  lemma StringVectors()
    ensures PutString(Ascii("testing")) == [0x00, 0x00, 0x00, 0x07] + Ascii("testing")
    ensures PutUint32(699921578) == [0x29, 0xb7, 0xf4, 0xaa]
  {
    hide Ascii;
  }

  /** Examples of sections 8.1.2 and 8.1.3 of ITU-T X.690, and the identifiers of SEQUENCE and INTEGER. */
  lemma BerVectors()
    ensures Ber.LengthBytes(38) == [0x26] && Ber.LengthBytes(201) == [0x81, 0xc9]
    ensures Ber.IdBytes(16, Ber.CONSTRUCTED) == [0x30] && Ber.IdBytes(2, 0) == [0x02]
  {
  }

  /** The object identifiers of section 2.1.1.1 of RFC 5480, and the size of the points of each curve. */
  lemma CurveVectors()
    ensures OpensshPem.Oid(P256) == [42, 134, 72, 206, 61, 3, 1, 7] && OpensshPem.PointLength(P256) == 64
    ensures OpensshPem.Oid(P384) == [43, 129, 4, 0, 34] && OpensshPem.PointLength(P384) == 96
    ensures OpensshPem.Oid(P521) == [43, 129, 4, 0, 35] && OpensshPem.PointLength(P521) == 132
  {
  }

  /** The names of the key types (section 6.6 of RFC 4253 and section 3.1 of RFC 5656). */
  lemma KeyNames(k: Key)
    ensures PublicFields(k)[0]
            == match k
               case RsaKey(_, _, _, _, _, _) => Ascii("ssh-rsa")
               case DsaKey(_, _, _, _, _) => Ascii("ssh-dss")
               case EcKey(P256, _, _) => Ascii("ecdsa-sha2-") + Ascii("nistp256")
               case EcKey(P384, _, _) => Ascii("ecdsa-sha2-") + Ascii("nistp384")
               case EcKey(P521, _, _) => Ascii("ecdsa-sha2-") + Ascii("nistp521")
  {
    hide Ascii;
  }

  // ----- the records of a copy -----

  /** Control records as the protocol has them: a file of mode 0644, a directory, the end of one, and times. */
  lemma FileRecord()
    ensures ScpWire.FileLine(6 * 64 + 4 * 8 + 4, 5, Ascii("hello")) == Ascii("C0644 5 hello\n")
  {
    assert ScpWire.Digits(420, 8) == [54, 52, 52];
  }

  lemma DirRecords()
    ensures ScpWire.DirLine(Ascii("src")) == Ascii("D0755 0 src\n")
    ensures ScpWire.END_LINE == Ascii("E\n")
  {
    assert ScpWire.Digits(493, 8) == [55, 53, 53];
  }

  lemma TimeRecord()
    ensures ScpWire.TimeLine(12, 7) == Ascii("T12 0 7 0\n")
  {
    assert ScpWire.Digits(12, 10) == [49, 50] && ScpWire.Digits(7, 10) == [55] && ScpWire.Digits(0, 10) == [48];
    hide ScpWire.Digits;
  }
}
