/** ssh.com private keys: the folded comment header, the nested blob, and their round trip. */
module Sshcom {
  import opened Bytes
  import opened Text
  import opened Base64
  import opened KeyText
  import opened Marshal
  import opened Mpints
  import opened KeyBlobs

  // ----- the comment header -----

  /** The comment broken into lines: slen characters at first, then 70, a backslash at each break. */
  function FoldLines(c: Blob, slen: nat): (r: seq<Blob>)
    requires slen > 0
    ensures r != []
    decreases |c|
  {
    if |c| > slen then [c[..slen] + [BACKSLASH]] + FoldLines(c[slen..], 70) else [c + [QUOTE]]
  }

  const COMMENT_START := COMMENT + [COLON, SP, QUOTE]

  function CommentLines(c: Blob): seq<Blob> {
    var f := FoldLines(c, 60);
    [COMMENT_START + f[0]] + f[1..]
  }

  predicate OneLine(c: Blob) {
    NL !in c && 0 !in c
  }

  lemma {:induction false} FoldIsShort(c: Blob, slen: nat)
    requires 0 < slen <= 70
    ensures |FoldLines(c, slen)[0]| <= slen + 1
    ensures forall i :: 0 <= i < |FoldLines(c, slen)| ==> |FoldLines(c, slen)[i]| <= 71
    decreases |c|
  {
    if |c| > slen {
      FoldIsShort(c[slen..], 70);
    }
  }

  /** No line of the header is longer than 71 characters. */
  lemma CommentLinesAreShort(c: Blob)
    ensures forall i :: 0 <= i < |CommentLines(c)| ==> |CommentLines(c)[i]| <= 71
  {
    hide FoldLines;
    FoldIsShort(c, 60);
  }

  /** The loop that writes the header. */
  method WriteComment(out: Blob, comment: Blob) returns (o: Blob)
    ensures o == out + Unlines(CommentLines(comment))
  {
    hide Unlines;
    var c, slen := comment, 60;
    o := out + COMMENT_START;
    ghost var f := FoldLines(comment, 60);
    UnlinesFirst(COMMENT_START, f);
    while |c| > slen
      invariant slen == 60 || slen == 70
      invariant out + COMMENT_START + Unlines(f) == o + Unlines(FoldLines(c, slen))
      decreases |c|
    {
      UnlinesCons(c[..slen] + [BACKSLASH], FoldLines(c[slen..], 70));
      o := o + (c[..slen] + [BACKSLASH] + [NL]);
      c := c[slen..];
      slen := 70;
    }
    UnlinesCons(c + [QUOTE], []);
    assert FoldLines(c, slen) == [c + [QUOTE]];
    assert out + COMMENT_START + Unlines(f) == out + (COMMENT_START + Unlines(f));
    o := o + (c + [QUOTE] + [NL]);
  }

  lemma UnlinesCons(line: Blob, lines: seq<Blob>)
    ensures Unlines([line] + lines) == line + [NL] + Unlines(lines)
    ensures [line] + [] == [line] && Unlines([]) == []
  {
    assert ([line] + lines)[1..] == lines;
  }

  lemma UnlinesFirst(start: Blob, f: seq<Blob>)
    requires f != []
    ensures Unlines([start + f[0]] + f[1..]) == start + Unlines(f)
  {
    hide Unlines;
    assert f == [f[0]] + f[1..];
    UnlinesCons(f[0], f[1..]);
    UnlinesCons(start + f[0], f[1..]);
  }

  /** The reader joins the lines again, whatever stands at a break, a backslash included. */
  lemma {:induction false} JoinsAgain(pre: Blob, c: Blob, slen: nat, tail: Blob)
    requires slen > 0 && OneLine(c)
    ensures var f := FoldLines(c, slen);
            Continued(pre + f[0], Unlines(f[1..]) + tail) == Line(pre + c + [QUOTE], tail)
    decreases |c|
  {
    hide GetLine, Unlines, Continued;
    var f := FoldLines(c, slen);
    if |c| > slen {
      var (head, rest) := (c[..slen], c[slen..]);
      var g := FoldLines(rest, 70);
      assert f == [head + [BACKSLASH]] + g && g == [g[0]] + g[1..] && f[1..] == g;
      FirstIsPlain(rest, 70);
      JoinsAgain(pre + head, rest, 70, tail);
      hide FoldLines, OneLine;
      UnlinesCons(g[0], g[1..]);
      assert Unlines(g) + tail == g[0] + [NL] + (Unlines(g[1..]) + tail);
      GetLineIs(g[0], Unlines(g[1..]) + tail);
      GoesOn(pre + head, Unlines(g) + tail);
      assert pre + f[0] == pre + head + [BACKSLASH] && pre + head + rest == pre + c;
    } else {
      assert f == [c + [QUOTE]] && f[1..] == [];
      UnlinesCons([], []);
      assert [] + tail == tail && pre + f[0] == pre + c + [QUOTE];
      EndsHere(pre + c, tail);
    }
  }

  lemma GoesOn(q: Blob, rest: Blob)
    ensures var l := GetLine(rest); Continued(q + [BACKSLASH], rest) == Continued(q + l.text, l.rest)
  {
    hide GetLine;
    assert (q + [BACKSLASH])[..|q|] == q;
  }

  lemma EndsHere(q: Blob, rest: Blob)
    ensures Continued(q + [QUOTE], rest) == Line(q + [QUOTE], rest)
  {
  }

  lemma FirstIsPlain(c: Blob, slen: nat)
    requires slen > 0 && OneLine(c)
    ensures PlainLine(FoldLines(c, slen)[0])
  {
  }

  function Kept(c: Blob): Blob {
    if |c| > 255 then c[..255] else c
  }

  lemma Unquoted(c: Blob)
    ensures CommentOf([QUOTE] + c + [QUOTE]) == Kept(c)
  {
    var p := [QUOTE] + c + [QUOTE];
    assert p[1..|p| - 1] == c;
  }

  /** The whole header, read by the loader: the comment comes back, up to 255 characters of it. */
  lemma CommentIsRead(st: State, c: Blob, tail: Blob)
    requires Ok(st) && !st.headersDone && OneLine(c)
    ensures Loop(Com, Unstated, st, Unlines(CommentLines(c)) + tail)
            == Loop(Com, Unstated, st.(comment := Kept(c)), tail)
  {
    hide Loop, GetLine, Unlines, FoldLines, Continued, CommentOf, Kept;
    var f := FoldLines(c, 60);
    var rest := Unlines(f[1..]) + tail;
    var p := [QUOTE] + f[0];
    UnlinesCons(COMMENT_START + f[0], f[1..]);
    assert Unlines(CommentLines(c)) + tail == COMMENT + [COLON, SP] + p + [NL] + rest;
    FirstIsPlain(c, 60);
    CommentWord();
    HeaderIs(Com, Unstated, st, COMMENT, p, rest);
    JoinsAgain([QUOTE], c, 60, tail);
    Unquoted(c);
  }

  lemma CommentWord()
    ensures COMMENT != [] && Printable(COMMENT) && COMMENT[0] != '-' as int && COLON !in COMMENT
  {
  }

  // ----- the blob -----

  const MAGIC: nat := 0x3f6ff9eb

  const RSA_PREFIX := Ascii("if-modn{sign{rsa")
  const DSA_PREFIX := Ascii("dl-modp{sign{dsa")
  const RSA_TYPE := RSA_PREFIX + Ascii("-pkcs1-sha1},encrypt{rsa-pkcs1v2-oaep}}")
  const DSA_TYPE := DSA_PREFIX + Ascii("-nist-sha1},dh{plain}}")
  const DES_CBC := Ascii("3des-cbc")

  function DeriveKey(c: Crypto, pass: Blob): Blob {
    var a := c.md5(pass);
    a + c.md5(pass + a)
  }

  const ZERO_IV: Blob := [0, 0, 0, 0, 0, 0, 0, 0]

  /** The numbers in the order of the file: of an RSA key the two primes change places. */
  function Numbers(pub: seq<Blob>, priv: seq<Blob>, rsa: bool): seq<Blob>
    requires if rsa then |pub| == 3 && |priv| == 4 else |pub| == 5 && |priv| == 1
  {
    if rsa then [pub[1], priv[0], pub[2], priv[3], priv[2], priv[1]]
    else [pub[1], pub[3], pub[2], pub[4], priv[0]]
  }

  function Coms(ns: seq<Blob>): Blob {
    if ns == [] then [] else PutCom(ns[0]) + Coms(ns[1..])
  }

  function Payload(rsa: bool, ns: seq<Blob>): Blob {
    if rsa then Coms(ns) else PutUint32(0) + Coms(ns)
  }

  function PadLength(n: nat): (r: nat)
    ensures r < 8
  {
    (8 - n % 8) % 8
  }

  function Types(rsa: bool, encrypted: bool): Blob {
    PutString(if rsa then RSA_TYPE else DSA_TYPE) + PutString(if encrypted then DES_CBC else NONE)
  }

  /** The container: magic number, total length, key type, cipher, and the protected payload. */
  function Container(rsa: bool, encrypted: bool, protected: Blob): Blob {
    var body := Types(rsa, encrypted) + PutString(protected);
    PutUint32(MAGIC) + PutUint32(8 + |body|) + body
  }

  function Protected(c: Crypto, pass: Option<Blob>, inner: Blob): Blob {
    match pass
    case Some(w) => c.desEncrypt(DeriveKey(c, w), ZERO_IV, inner)
    case None => inner
  }

  function Inner(payload: Blob, padding: Blob): Blob {
    PutString(payload) + padding
  }

  function Patch(b: Blob, pos: nat, n: nat): Blob
    requires pos + 4 <= |b|
  {
    b[..pos] + PutUint32(n) + b[pos + 4..]
  }

  method PutComs(out: Blob, ns: seq<Blob>) returns (o: Blob)
    ensures o == out + Coms(ns)
  {
    hide PutCom;
    o := out;
    for i := 0 to |ns|
      invariant out + Coms(ns) == o + Coms(ns[i..])
    {
      o := PutMpSshcom(o, ns[i]);
      assert ns[i..][1..] == ns[i + 1..];
    }
    assert ns[|ns|..] == [];
  }

  lemma PatchAt(a: Blob, m: nat, tail: Blob, n: nat)
    ensures Patch(a + PutUint32(m) + tail, |a|, n) == a + PutUint32(n) + tail
  {
    hide PutUint32;
  }

  lemma InnerIs(head: Blob, payload: Blob, padding: Blob)
    ensures head + PutUint32(|payload|) + payload + padding == head + Inner(payload, padding)
    ensures |head + PutUint32(|payload|) + payload| == |head| + 4 + |payload|
  {
    hide PutUint32;
    assert Inner(payload, padding) == PutUint32(|payload|) + payload + padding;
  }

  /** The payload and its padding, behind a length that is filled in when they are complete. */
  method WriteInner(head: Blob, rsa: bool, ns: seq<Blob>, pad: bool, random: Blob) returns (out: Blob)
    requires |random| == 8
    ensures var payload := Payload(rsa, ns);
            out == head + Inner(payload, if pad then random[..PadLength(4 + |payload|)] else [])
  {
    hide PutUint32, Coms, PadLength, Inner;
    out := head + PutUint32(0);
    if !rsa {
      out := out + PutUint32(0);
    }
    out := PutComs(out, ns);
    ghost var payload := Payload(rsa, ns);
    assert out == head + PutUint32(0) + payload;
    PatchAt(head, 0, payload, |payload|);
    InnerIs(head, payload, if pad then random[..PadLength(4 + |payload|)] else []);
    out := Patch(out, |head|, |out| - (|head| + 4));
    hide Payload, Patch;
    if pad {
      out := out + random[..PadLength(|out| - |head|)];
    } else {
      assert out + [] == out;
    }
  }

  /** The container with all its lengths filled in, before encryption. */
  method WriteClear(types: Blob, rsa: bool, ns: seq<Blob>, pad: bool, random: Blob) returns (out: Blob, lenpos: nat)
    requires |random| == 8
    ensures var payload := Payload(rsa, ns);
            var inner := Inner(payload, if pad then random[..PadLength(4 + |payload|)] else []);
            && lenpos == 8 + |types|
            && out == PutUint32(MAGIC) + PutUint32(12 + |types| + |inner|) + types + PutUint32(|inner|) + inner
  {
    hide PutUint32, Payload, Inner, PadLength, Patch;
    var start := PutUint32(MAGIC);
    out := start + PutUint32(0) + types;
    lenpos := |out|;
    ghost var head := out;
    out := WriteInner(out + PutUint32(0), rsa, ns, pad, random);
    ghost var payload := Payload(rsa, ns);
    ghost var inner := Inner(payload, if pad then random[..PadLength(4 + |payload|)] else []);
    PatchAt(head, 0, inner, |inner|);
    out := Patch(out, lenpos, |out| - (lenpos + 4));
    assert out == start + PutUint32(0) + (types + PutUint32(|inner|) + inner);
    PatchAt(start, 0, types + PutUint32(|inner|) + inner, |out|);
    out := Patch(out, 4, |out|);
  }

  lemma ContainerOf(rsa: bool, encrypted: bool, n: nat, protected: Blob)
    requires |protected| == n
    ensures var types := Types(rsa, encrypted);
            PutUint32(MAGIC) + PutUint32(12 + |types| + n) + types + PutUint32(n) + protected
            == Container(rsa, encrypted, protected)
  {
    hide PutUint32;
  }

  /**
   * The blob as the code builds it: three length fields are written as zero and filled in when
   * what they count is complete, and the payload is encrypted where it stands.
   */
  method WriteBlob(c: Crypto, rsa: bool, ns: seq<Blob>, pass: Option<Blob>, random: Blob) returns (out: Blob)
    requires |random| == 8 && Sound(c)
    ensures var payload := Payload(rsa, ns);
            var padding := if pass.Some? then random[..PadLength(4 + |payload|)] else [];
            out == Container(rsa, pass.Some?, Protected(c, pass, Inner(payload, padding)))
  {
    hide PutUint32, Payload, Inner, PadLength, DeriveKey, Types, Container;
    var lenpos;
    out, lenpos := WriteClear(Types(rsa, pass.Some?), rsa, ns, pass.Some?, random);
    ghost var payload := Payload(rsa, ns);
    ghost var inner := Inner(payload, if pass.Some? then random[..PadLength(4 + |payload|)] else []);
    if pass.Some? {
      InnerBlocks(payload, random[..PadLength(4 + |payload|)]);
      var key := DeriveKey(c, pass.value);
      assert out[lenpos + 4..] == inner;
      out := out[..lenpos + 4] + c.desEncrypt(key, ZERO_IV, out[lenpos + 4..]);
    }
    ContainerOf(rsa, pass.Some?, |inner|, Protected(c, pass, inner));
  }

  lemma InnerBlocks(payload: Blob, padding: Blob)
    requires |padding| == PadLength(4 + |payload|)
    ensures |Inner(payload, padding)| % 8 == 0
  {
    PadsToBlocks(4 + |payload|);
  }

  lemma PadsToBlocks(n: nat)
    ensures (n + PadLength(n)) % 8 == 0
  {
  }

  // ----- reading the blob -----

  function GetComs(n: nat, s: Src): (r: Got<seq<Blob>>)
    ensures |r.value| == n
    decreases n
  {
    if n == 0 then Got([], s)
    else
      var first := GetCom(s);
      var more := GetComs(n - 1, first.src);
      Got([first.value] + more.value, more.src)
  }

  function Mps(ns: seq<Blob>): Blob {
    if ns == [] then [] else PutMp(ns[0]) + Mps(ns[1..])
  }

  /** The payload, once the container string has been opened. */
  function ParsePayload(rsa: bool, payload: Blob, encrypted: bool, comment: Blob): Import {
    if rsa then
      var g := GetComs(6, Src(payload, false));
      if g.src.err then Bad(encrypted)
      else
        var v := g.value;
        Imported(AlgRsa, PutString(SSH_RSA) + Mps([v[0], v[2]]), Mps([v[1], v[5], v[4], v[3]]), comment)
    else
      var zero := Uint32(Src(payload, false));
      if zero.value != 0 then Bad(encrypted)
      else
        var g := GetComs(5, zero.src);
        if g.src.err then Bad(encrypted)
        else
          var v := g.value;
          Imported(AlgDsa, PutString(SSH_DSS) + Mps([v[0], v[2], v[1], v[3]]), Mps([v[4]]), comment)
  }

  function ParseProtected(c: Crypto, rsa: bool, encrypted: bool, data: Blob, pass: Blob, comment: Blob): Import {
    if data == [] || (encrypted && |data| % 8 != 0) then Failed
    else
      var plain := if encrypted then c.desDecrypt(DeriveKey(c, pass), ZERO_IV, data) else data;
      var payload := Str(Src(plain, false));
      if payload.src.err then Bad(encrypted) else ParsePayload(rsa, payload.value, encrypted, comment)
  }

  function ParseBlob(c: Crypto, blob: Blob, pass: Blob, comment: Blob): Import {
    var magic := Uint32(Src(blob, false));
    var length := Uint32(magic.src);
    var kind := Str(length.src);
    var cipher := Str(kind.src);
    var data := Str(cipher.src);
    var rsa := |kind.value| > |RSA_PREFIX| && StartsWith(kind.value, RSA_PREFIX);
    var dsa := |kind.value| > |DSA_PREFIX| && StartsWith(kind.value, DSA_PREFIX);
    if magic.value != MAGIC || (!rsa && !dsa) then Failed
    else if cipher.value != NONE && cipher.value != DES_CBC then Failed
    else ParseProtected(c, rsa, cipher.value == DES_CBC, data.value, pass, comment)
  }

  /** sshcom_read */
  function Read(c: Crypto, text: Blob, pass: Blob): Import {
    match Load(Com, text)
    case Refused => Failed
    case Spins => Hangs
    case Finished(_, st) => ParseBlob(c, st.acc.out, pass, st.comment)
  }

  // ----- writing the file -----

  function FileText(comment: Blob, blob: Blob): Blob {
    KeyText.BeginLine(Com, Unstated) + [NL]
    + (Unlines(CommentLines(comment)) + (Wrap(Chars(blob), 70) + (KeyText.EndLine(Com, Unstated) + [NL])))
  }

  predicate Supported(k: Key) {
    !k.EcKey?
  }

  function KeyBlob(c: Crypto, k: Key, pass: Option<Blob>, random: Blob): Blob
    requires Supported(k) && |random| == 8
  {
    var payload := Payload(k.RsaKey?, Numbers(PublicFields(k), PrivateFields(k), k.RsaKey?));
    var padding := if pass.Some? then random[..PadLength(4 + |payload|)] else [];
    Container(k.RsaKey?, pass.Some?, Protected(c, pass, Inner(payload, padding)))
  }

  /** sshcom_write, from the key's own blobs to the text of the file */
  method Write(c: Crypto, k: Key, comment: Blob, pass: Option<Blob>, random: Blob) returns (ok: bool, text: Blob)
    requires |random| == 8 && Sound(c)
    requires AllWithin(PublicFields(k), TWO_TO_THE_32) && AllWithin(PrivateFields(k), TWO_TO_THE_32)
    ensures ok <==> Supported(k)
    ensures ok ==> text == FileText(comment, KeyBlob(c, k, pass, random))
  {
    hide Container, Payload, Protected, Inner, Wrap, Chars, Unlines, CommentLines, Strings, ReadStrings,
         KeyText.EndLine, KeyText.BeginLine;
    if k.EcKey? {
      return false, [];
    }
    var (np, ns) := if k.RsaKey? then (3, 4) else (5, 1);
    var pub := ReadStrings(np, Src(PublicBlob(k), false)).value;
    var priv := ReadStrings(ns, Src(PrivateBlob(k), false)).value;
    ReadStringsIs(PublicFields(k));
    ReadStringsIs(PrivateFields(k));
    var blob := WriteBlob(c, k.RsaKey?, Numbers(pub, priv, k.RsaKey?), pass, random);
    text := KeyText.BeginLine(Com, Unstated) + [NL];
    text := WriteComment(text, comment);
    text := EncodeLines(text, blob, 70);
    text := text + KeyText.EndLine(Com, Unstated) + [NL];
    ok := true;
    assert text == FileText(comment, blob);
  }

  // ----- the round trip -----

  /** What comes back of each number: its bytes without the leading zeros. */
  function Trimmed(ns: seq<Blob>): (r: seq<Blob>)
    ensures |r| == |ns| && forall i :: 0 <= i < |ns| ==> r[i] == ComBytes(ns[i])
  {
    seq(|ns|, i requires 0 <= i < |ns| => ComBytes(ns[i]))
  }

  lemma {:induction false} GetComsIs(ns: seq<Blob>)
    requires AllWithin(ns, 0x1000_0000)
    ensures GetComs(|ns|, Src(Coms(ns), false)) == Got(Trimmed(ns), Src([], false))
    decreases |ns|
  {
    hide PutCom, GetCom, ComBytes;
    if ns != [] {
      assert |ns[0]| < 0x1000_0000;
      GetPutCom(ns[0], Coms(ns[1..]));
      GetComsIs(ns[1..]);
      assert Trimmed(ns) == [ComBytes(ns[0])] + Trimmed(ns[1..]);
    }
  }

  lemma {:induction false} MpsIs(ns: seq<Blob>)
    requires forall i :: 0 <= i < |ns| ==> Canonical(ns[i])
    ensures Mps(Trimmed(ns)) == Strings(ns)
    decreases |ns|
  {
    hide PutMp, ComBytes, PutString;
    if ns != [] {
      ThroughCom(ns[0]);
      MpsIs(ns[1..]);
      assert Trimmed(ns)[1..] == Trimmed(ns[1..]);
    }
  }

  /** Every number is short enough for its bit count to fit the writer's int. */
  predicate Fits(k: Key) {
    AllWithin(PublicFields(k), 0x1000_0000) && AllWithin(PrivateFields(k), 0x1000_0000)
  }

  lemma RsaPayload(k: Key, encrypted: bool, comment: Blob)
    requires k.RsaKey? && CanonicalKey(k) && Fits(k)
    ensures ParsePayload(true, Payload(true, Numbers(PublicFields(k), PrivateFields(k), true)), encrypted, comment)
            == Imported(AlgRsa, PublicBlob(k), PrivateBlob(k), comment)
  {
    hide PutString, Mps, GetComs, Coms, ComBytes, Canonical;
    var ns := Numbers(PublicFields(k), PrivateFields(k), true);
    var (f, g) := (PublicFields(k), PrivateFields(k));
    assert |f[1]| < 0x1000_0000 && |f[2]| < 0x1000_0000 && |g[0]| < 0x1000_0000 && |g[1]| < 0x1000_0000
           && |g[2]| < 0x1000_0000 && |g[3]| < 0x1000_0000;
    GetComsIs(ns);
    var v := GetComs(6, Src(Coms(ns), false)).value;
    MpsIs([k.e, k.n]);
    MpsIs([k.d, k.p, k.q, k.iqmp]);
    assert [v[0], v[2]] == Trimmed([k.e, k.n]);
    assert [v[1], v[5], v[4], v[3]] == Trimmed([k.d, k.p, k.q, k.iqmp]);
    assert f[1..] == [k.e, k.n];
  }

  lemma DsaPayload(k: Key, encrypted: bool, comment: Blob)
    requires k.DsaKey? && CanonicalKey(k) && Fits(k)
    ensures ParsePayload(false, Payload(false, Numbers(PublicFields(k), PrivateFields(k), false)), encrypted, comment)
            == Imported(AlgDsa, PublicBlob(k), PrivateBlob(k), comment)
  {
    hide PutString, PutUint32, Mps, GetComs, Coms, ComBytes, Canonical;
    var ns := Numbers(PublicFields(k), PrivateFields(k), false);
    var (f, g) := (PublicFields(k), PrivateFields(k));
    assert |f[1]| < 0x1000_0000 && |f[2]| < 0x1000_0000 && |f[3]| < 0x1000_0000 && |f[4]| < 0x1000_0000
           && |g[0]| < 0x1000_0000;
    Uint32Is(0, Coms(ns));
    GetComsIs(ns);
    var v := GetComs(5, Src(Coms(ns), false)).value;
    MpsIs([k.p, k.q, k.g, k.y]);
    MpsIs([k.x]);
    assert [v[0], v[2], v[1], v[3]] == Trimmed([k.p, k.q, k.g, k.y]);
    assert [v[4]] == Trimmed([k.x]);
    assert f[1..] == [k.p, k.q, k.g, k.y];
  }

  lemma PayloadIs(k: Key, encrypted: bool, comment: Blob)
    requires Supported(k) && CanonicalKey(k) && Fits(k)
    ensures ParsePayload(k.RsaKey?, Payload(k.RsaKey?, Numbers(PublicFields(k), PrivateFields(k), k.RsaKey?)),
                         encrypted, comment)
            == Imported(AlgOf(k), PublicBlob(k), PrivateBlob(k), comment)
  {
    if k.RsaKey? {
      RsaPayload(k, encrypted, comment);
    } else {
      DsaPayload(k, encrypted, comment);
    }
  }

  lemma TypeNames(rsa: bool)
    ensures |RSA_TYPE| > |RSA_PREFIX| && StartsWith(RSA_TYPE, RSA_PREFIX)
    ensures |DSA_TYPE| > |DSA_PREFIX| && StartsWith(DSA_TYPE, DSA_PREFIX) && !StartsWith(DSA_TYPE, RSA_PREFIX)
    ensures |RSA_TYPE| < 100 && |DSA_TYPE| < 100 && NONE != DES_CBC && |NONE| == 4 && |DES_CBC| == 8
  {
    assert DSA_TYPE[0] == 'd' as int && RSA_PREFIX[0] == 'i' as int;
  }

  lemma ContainerIs(c: Crypto, rsa: bool, encrypted: bool, protected: Blob, pass: Blob, comment: Blob)
    requires |Container(rsa, encrypted, protected)| <= INT_MAX
    ensures ParseBlob(c, Container(rsa, encrypted, protected), pass, comment)
            == ParseProtected(c, rsa, encrypted, protected, pass, comment)
  {
    hide PutUint32, PutString, Uint32, Str, ParseProtected, StartsWith;
    TypeNames(rsa);
    var (kind, cipher) := (if rsa then RSA_TYPE else DSA_TYPE, if encrypted then DES_CBC else NONE);
    hide RSA_TYPE, DSA_TYPE, RSA_PREFIX, DSA_PREFIX, NONE, DES_CBC;
    var last := PutString(protected) + [];
    var body := PutString(kind) + PutString(cipher) + PutString(protected);
    assert body == PutString(kind) + (PutString(cipher) + last);
    ContainerParts(rsa, encrypted, protected);
    Uint32Is(MAGIC, PutUint32(8 + |body|) + body);
    Uint32Is(8 + |body|, body);
    StrIs(kind, PutString(cipher) + last);
    StrIs(cipher, last);
    StrIs(protected, []);
  }

  lemma ContainerParts(rsa: bool, encrypted: bool, protected: Blob)
    ensures var body := PutString(if rsa then RSA_TYPE else DSA_TYPE)
                        + PutString(if encrypted then DES_CBC else NONE) + PutString(protected);
            && Container(rsa, encrypted, protected) == PutUint32(MAGIC) + (PutUint32(8 + |body|) + body)
            && |Container(rsa, encrypted, protected)| == 8 + |body| && |body| >= |protected|
  {
    hide PutUint32;
  }

  lemma ProtectedIs(c: Crypto, k: Key, payload: Blob, padding: Blob, pass: Option<Blob>, comment: Blob)
    requires Sound(c) && |payload| < TWO_TO_THE_32
    requires pass.Some? ==> (4 + |payload| + |padding|) % 8 == 0
    ensures ParseProtected(c, k.RsaKey?, pass.Some?, Protected(c, pass, Inner(payload, padding)),
                           if pass.Some? then pass.value else [], comment)
            == ParsePayload(k.RsaKey?, payload, pass.Some?, comment)
  {
    hide PutUint32, ParsePayload, Str;
    StrIs(payload, padding);
    assert |Inner(payload, padding)| == 4 + |payload| + |padding|;
  }

  /**
   * The round trip: what the exporter writes, the importer reads back as the same public and
   * private blobs and the same comment (of which it keeps 255 characters), with or without a
   * passphrase, whatever the random padding.
   */
  lemma SshcomRoundTrip(c: Crypto, k: Key, comment: Blob, pass: Option<Blob>, random: Blob)
    requires Sound(c) && |random| == 8 && Supported(k) && CanonicalKey(k) && Fits(k) && OneLine(comment)
    requires |KeyBlob(c, k, pass, random)| <= INT_MAX
    ensures Read(c, FileText(comment, KeyBlob(c, k, pass, random)), if pass.Some? then pass.value else [])
            == Imported(AlgOf(k), PublicBlob(k), PrivateBlob(k), Kept(comment))
  {
    hide Container, Payload, Protected, Inner, ParseBlob, ParsePayload, ParseProtected, Load, Kept;
    hide PublicBlob, PrivateBlob, Numbers, KeyBlob, FileText, Fits, CanonicalKey;
    var payload := Payload(k.RsaKey?, Numbers(PublicFields(k), PrivateFields(k), k.RsaKey?));
    var padding := if pass.Some? then random[..PadLength(4 + |payload|)] else [];
    var protected := Protected(c, pass, Inner(payload, padding));
    var blob := Container(k.RsaKey?, pass.Some?, protected);
    assert KeyBlob(c, k, pass, random) == blob by { KeyBlobIs(c, k, pass, random); }
    PadsToBlocks(4 + |payload|);
    ProtectedSize(c, pass, payload, padding);
    ContainerParts(k.RsaKey?, pass.Some?, protected);
    FileLoads(comment, blob);
    ContainerIs(c, k.RsaKey?, pass.Some?, protected, if pass.Some? then pass.value else [], Kept(comment));
    ProtectedIs(c, k, payload, padding, pass, Kept(comment));
    PayloadIs(k, pass.Some?, Kept(comment));
  }

  lemma KeyBlobIs(c: Crypto, k: Key, pass: Option<Blob>, random: Blob)
    requires |random| == 8 && Supported(k)
    ensures var payload := Payload(k.RsaKey?, Numbers(PublicFields(k), PrivateFields(k), k.RsaKey?));
            var padding := if pass.Some? then random[..PadLength(4 + |payload|)] else [];
            KeyBlob(c, k, pass, random) == Container(k.RsaKey?, pass.Some?, Protected(c, pass, Inner(payload, padding)))
  {
    hide Container, Payload, Protected, Inner, Numbers;
  }

  lemma ProtectedSize(c: Crypto, pass: Option<Blob>, payload: Blob, padding: Blob)
    requires Sound(c) && (pass.Some? ==> (4 + |payload| + |padding|) % 8 == 0)
    ensures |Protected(c, pass, Inner(payload, padding))| == 4 + |payload| + |padding|
  {
  }

  lemma FileLoads(comment: Blob, blob: Blob)
    requires OneLine(comment) && blob != []
    ensures Load(Com, FileText(comment, blob))
            == Finished(Unstated, START.(headersDone := true, comment := Kept(comment), acc := Acc([], blob)))
  {
    hide Loop, GetLine, Unlines, CommentLines, Wrap, Chars, KeyText.EndLine, KeyText.BeginLine, Kept;
    var body := Wrap(Chars(blob), 70) + (KeyText.EndLine(Com, Unstated) + [NL]);
    BeginIs(Com, Unstated, Unlines(CommentLines(comment)) + body);
    CommentIsRead(START, comment, body);
    BodyLoads(Com, Unstated, START.(comment := Kept(comment)), blob, 70);
  }

  // ----- the key of the cipher, and exactly what the reader takes -----

  /** The derivation: each block is the hash of the passphrase and all blocks before it. */
  function Chain(c: Crypto, pass: Blob, n: nat): Blob {
    if n == 0 then [] else var before := Chain(c, pass, n - 1); before + c.md5(pass + before)
  }

  lemma DerivedIs(c: Crypto, pass: Blob)
    ensures DeriveKey(c, pass) == Chain(c, pass, 2)
  {
    assert pass + [] == pass;
    assert Chain(c, pass, 1) == [] + c.md5(pass + []) == c.md5(pass);
  }

  const EIGHT_ZEROS: Blob := seq(8, _ => 0)

  /** What protects a file: triple DES under the first two blocks of the derivation and a vector of zeros. */
  lemma SealedIs(c: Crypto, pass: Blob, inner: Blob)
    ensures Protected(c, Some(pass), inner) == c.desEncrypt(Chain(c, pass, 2), EIGHT_ZEROS, inner)
  {
    DerivedIs(c, pass);
    assert ZERO_IV == EIGHT_ZEROS;
    hide DeriveKey, Chain;
  }

  /**
   * An encrypted key is read as the unencrypted one with the deciphered data would be; and where that fails,
   * it is for the passphrase.
   */
  lemma UnsealedIs(c: Crypto, rsa: bool, data: Blob, pass: Blob, comment: Blob)
    requires data != [] && |data| % 8 == 0
    ensures var plain := c.desDecrypt(Chain(c, pass, 2), EIGHT_ZEROS, data);
            var r := ParseProtected(c, rsa, false, plain, [], comment);
            ParseProtected(c, rsa, true, data, pass, comment) == if r.Imported? then r else WrongPassphrase
  {
    DerivedIs(c, pass);
    assert ZERO_IV == EIGHT_ZEROS;
    hide DeriveKey, Chain, GetComs, PutString, Mps;
  }

  /** The layout of a file: its second number is the total length, which the reader does not look at. */
  predicate LaidOut(blob: Blob, length: nat, kind: Blob, cipher: Blob, data: Blob, tail: Blob) {
    && length < TWO_TO_THE_32 && |kind| < TWO_TO_THE_32 && |cipher| < TWO_TO_THE_32 && |data| < TWO_TO_THE_32
    && blob == PutUint32(0x3f6ff9eb) + (PutUint32(length)
               + (PutString(kind) + (PutString(cipher) + (PutString(data) + tail))))
  }

  predicate IsRsa(kind: Blob) {
    |kind| > 16 && kind[..16] == Ascii("if-modn{sign{rsa")
  }

  predicate IsDsa(kind: Blob) {
    |kind| > 16 && kind[..16] == Ascii("dl-modp{sign{dsa")
  }

  predicate Plain(cipher: Blob) {
    cipher == Ascii("none")
  }

  predicate TripleDes(cipher: Blob) {
    cipher == Ascii("3des-cbc")
  }

  lemma Prefixes(kind: Blob)
    ensures |kind| > |RSA_PREFIX| && StartsWith(kind, RSA_PREFIX) <==> IsRsa(kind)
    ensures |kind| > |DSA_PREFIX| && StartsWith(kind, DSA_PREFIX) <==> IsDsa(kind)
    ensures !(IsRsa(kind) && IsDsa(kind)) && Plain(NONE) && TripleDes(DES_CBC) && NONE != DES_CBC
  {
    assert RSA_PREFIX[0] == 'i' as int && DSA_PREFIX[0] == 'd' as int;
    assert |Ascii("none")| == 4 && |Ascii("3des-cbc")| == 8;
  }

  lemma LaidOutParses(c: Crypto, blob: Blob, length: nat, kind: Blob, cipher: Blob, data: Blob, tail: Blob,
      pass: Blob, comment: Blob)
    requires LaidOut(blob, length, kind, cipher, data, tail)
    ensures ParseBlob(c, blob, pass, comment)
            == if (IsRsa(kind) || IsDsa(kind)) && (Plain(cipher) || TripleDes(cipher))
               then ParseProtected(c, IsRsa(kind), TripleDes(cipher), data, pass, comment)
               else Failed
  {
    hide PutUint32, PutString, Uint32, Str, ParseProtected, StartsWith;
    Prefixes(kind);
    hide RSA_PREFIX, DSA_PREFIX, NONE, DES_CBC, IsRsa, IsDsa;
    var last := PutString(data) + tail;
    Uint32Is(MAGIC, PutUint32(length) + (PutString(kind) + (PutString(cipher) + last)));
    Uint32Is(length, PutString(kind) + (PutString(cipher) + last));
    StrIs(kind, PutString(cipher) + last);
    StrIs(cipher, last);
    StrIs(data, tail);
  }

  lemma StringRead(s: Src)
    requires !Str(s).src.err
    ensures !s.err && |Str(s).value| < TWO_TO_THE_32 && s.rest == PutString(Str(s).value) + Str(s).src.rest
  {
    StrExactly(s.rest, Str(s).value, Str(s).src.rest);
  }

  lemma NumberRead(s: Src)
    requires !Uint32(s).src.err
    ensures !s.err && Uint32(s).value < TWO_TO_THE_32 && s.rest == PutUint32(Uint32(s).value) + Uint32(s).src.rest
  {
    Uint32Exactly(s.rest, Uint32(s).value, Uint32(s).src.rest);
  }

  lemma NothingFromError(s: Src)
    ensures Str(s).src.err ==> Str(s).value == []
  {
  }

  /** Nothing but a file in that layout is read, or taken for one with another passphrase. */
  lemma TakenIsLaidOut(c: Crypto, blob: Blob, pass: Blob, comment: Blob)
      returns (length: nat, kind: Blob, cipher: Blob, data: Blob, tail: Blob)
    requires !ParseBlob(c, blob, pass, comment).Failed?
    ensures LaidOut(blob, length, kind, cipher, data, tail)
    ensures (IsRsa(kind) || IsDsa(kind)) && (Plain(cipher) || TripleDes(cipher))
    ensures ParseBlob(c, blob, pass, comment).WrongPassphrase? ==> TripleDes(cipher)
  {
    hide PutUint32, PutString, Uint32, Str, StartsWith, ParsePayload;
    var a := Uint32(Src(blob, false));
    var b := Uint32(a.src);
    var k := Str(b.src);
    var e := Str(k.src);
    var d := Str(e.src);
    NothingFromError(e.src);
    var rsa := |k.value| > |RSA_PREFIX| && StartsWith(k.value, RSA_PREFIX);
    assert ParseBlob(c, blob, pass, comment) == ParseProtected(c, rsa, e.value == DES_CBC, d.value, pass, comment);
    StringRead(e.src);
    StringRead(k.src);
    StringRead(b.src);
    NumberRead(a.src);
    NumberRead(Src(blob, false));
    Prefixes(k.value);
    if e.value == NONE {
      PlainNeverWrong(c, rsa, d.value, pass, comment);
    }
    hide ParseProtected, IsRsa, IsDsa, RSA_PREFIX, DSA_PREFIX, NONE, DES_CBC;
    length, kind, cipher, data, tail := b.value, k.value, e.value, d.value, d.src.rest;
  }

  lemma PlainNeverWrong(c: Crypto, rsa: bool, data: Blob, pass: Blob, comment: Blob)
    ensures !ParseProtected(c, rsa, false, data, pass, comment).WrongPassphrase?
  {
    hide GetComs, PutString, Mps;
  }

  /** A read hangs exactly when the text layer never ends, and a text that is refused fails. */
  lemma HangsExactly(c: Crypto, text: Blob, pass: Blob)
    ensures Read(c, text, pass).Hangs? <==> Load(Com, text).Spins?
    ensures Load(Com, text).Refused? ==> Read(c, text, pass).Failed?
  {
    hide Load, GetComs, Mps, PutString, Uint32, Str, StartsWith, DeriveKey;
  }

  /** The bytes of a number of so many bits; none for the seven counts at which the C sum wraps round. */
  function BytesOf(bits: nat): nat {
    if bits < 0xFFFF_FFF9 then (bits + 7) / 8 else 0
  }

  /** n numbers stand at the front, each with as many bytes as its bit count says. */
  predicate HoldsNumbers(n: nat, b: Blob) {
    n == 0 || (|b| >= 4 && var k := BytesOf(GetUint32(b)); |b| >= 4 + k && HoldsNumbers(n - 1, b[4 + k..]))
  }

  lemma OneNumber(s: Src)
    ensures var g := GetCom(s);
            !g.src.err <==> !s.err && |s.rest| >= 4 && |s.rest| >= 4 + BytesOf(GetUint32(s.rest))
    ensures !GetCom(s).src.err ==> GetCom(s).src.rest == s.rest[4 + BytesOf(GetUint32(s.rest))..]
  {
    if !s.err && |s.rest| >= 4 {
      var n := GetUint32(s.rest);
      assert BytesFor(n) == BytesOf(n);
      hide GetUint32, BytesFor, BytesOf;
      assert |s.rest| >= 4 + BytesOf(n) ==> s.rest[4..][BytesOf(n)..] == s.rest[4 + BytesOf(n)..];
    }
  }

  lemma {:induction false} NumbersExactly(n: nat, s: Src)
    ensures !GetComs(n, s).src.err <==> !s.err && HoldsNumbers(n, s.rest)
    decreases n
  {
    hide GetUint32, GetCom, BytesOf;
    if n > 0 {
      OneNumber(s);
      NumbersExactly(n - 1, GetCom(s).src);
    }
  }

  lemma RsaPayloadExactly(payload: Blob, encrypted: bool, comment: Blob)
    ensures var r := ParsePayload(true, payload, encrypted, comment);
            && (r.Imported? <==> HoldsNumbers(6, payload))
            && (!r.Imported? ==> r == if encrypted then WrongPassphrase else Failed)
  {
    hide GetComs, Mps, PutString, HoldsNumbers, Uint32;
    NumbersExactly(6, Src(payload, false));
  }

  lemma DsaPayloadExactly(payload: Blob, encrypted: bool, comment: Blob)
    ensures var r := ParsePayload(false, payload, encrypted, comment);
            && (r.Imported? <==> |payload| >= 4 && GetUint32(payload) == 0 && HoldsNumbers(5, payload[4..]))
            && (!r.Imported? ==> r == if encrypted then WrongPassphrase else Failed)
  {
    hide GetComs, Mps, PutString, HoldsNumbers, GetUint32;
    NumbersExactly(5, Uint32(Src(payload, false)).src);
  }

  /** A payload is read exactly when its six or, behind a zero, five numbers are all there. */
  lemma PayloadExactly(rsa: bool, payload: Blob, encrypted: bool, comment: Blob)
    ensures var r := ParsePayload(rsa, payload, encrypted, comment);
            && (r.Imported? <==> if rsa then HoldsNumbers(6, payload)
                                 else |payload| >= 4 && GetUint32(payload) == 0 && HoldsNumbers(5, payload[4..]))
            && (!r.Imported? ==> r == if encrypted then WrongPassphrase else Failed)
  {
    hide ParsePayload, HoldsNumbers, GetUint32;
    if rsa {
      RsaPayloadExactly(payload, encrypted, comment);
    } else {
      DsaPayloadExactly(payload, encrypted, comment);
    }
  }
}
