/**
 * The text layer of the three private-key file formats: the line that starts the file, header
 * lines, base64 lines, and the line that ends it. The three loaders of import.c share this loop and
 * differ only in which lines start and end a file and in the headers they understand.
 */
module KeyText {
  import opened Bytes
  import opened Text
  import opened Base64

  datatype Style = Pem | New | Com

  datatype KeyType = Rsa | Dsa | Ecdsa | Unstated

  datatype Enc = TripleDes | Aes128

  function Ascii(s: string): (b: Blob)
    requires forall i :: 0 <= i < |s| ==> s[i] < 256 as char
    ensures |b| == |s| && forall i :: 0 <= i < |s| ==> b[i] == s[i] as int
  {
    seq(|s|, i requires 0 <= i < |s| => s[i] as int)
  }

  const BEGIN := Ascii("-----BEGIN ")
  const END := Ascii("-----END ")
  const PRIVATE := Ascii("PRIVATE KEY-----")

  const COM_BEGIN := Ascii("---- BEGIN ")
  const COM_END := Ascii("---- END ")
  const SSH2 := Ascii("SSH2 ENCRYPTED ")
  const COM_PRIVATE := Ascii("PRIVATE KEY ----")

  function Kind(t: KeyType): Blob {
    match t
    case Rsa => Ascii("RSA ")
    case Dsa => Ascii("DSA ")
    case Ecdsa => Ascii("EC ")
    case Unstated => Ascii("OPENSSH ")
  }

  function BeginLine(style: Style, t: KeyType): Blob {
    if style.Com? then COM_BEGIN + SSH2 + COM_PRIVATE else BEGIN + Kind(t) + PRIVATE
  }

  function EndLine(style: Style, t: KeyType): Blob {
    if style.Com? then COM_END + SSH2 + COM_PRIVATE else END + Kind(t) + PRIVATE
  }

  /** The key type a first line announces; None when the file is refused. */
  function Begin(style: Style, line: Blob): Option<KeyType> {
    if !style.Pem? then (if line == BeginLine(style, Unstated) then Some(Unstated) else None)
    else if line == BeginLine(Pem, Rsa) then Some(Rsa)
    else if line == BeginLine(Pem, Dsa) then Some(Dsa)
    else if line == BeginLine(Pem, Ecdsa) then Some(Ecdsa)
    else None
  }

  predicate StartsWith(line: Blob, prefix: Blob) {
    |prefix| <= |line| && line[..|prefix|] == prefix
  }

  predicate EndsWith(line: Blob, suffix: Blob) {
    |suffix| <= |line| && line[|line| - |suffix|..] == suffix
  }

  predicate IsEnd(style: Style, line: Blob) {
    if style.Pem? then StartsWith(line, END) && EndsWith(line, PRIVATE) else line == EndLine(style, Unstated)
  }

  // ----- headers -----

  /** What the loader has gathered. The initialisation vector is a fixed buffer of 32 bytes. */
  datatype State = State(headersDone: bool, encrypted: bool, enc: Enc, iv: Blob, comment: Blob, acc: Acc)

  const COLON: byte := 58
  const BACKSLASH: byte := 92
  const QUOTE: byte := 34

  const PROC_TYPE := Ascii("Proc-Type")
  const ENCRYPTED := Ascii("ENCRYPTED")
  const DEK_INFO := Ascii("DEK-Info")
  const DES_EDE3 := Ascii("DES-EDE3-CBC,")
  const AES_128 := Ascii("AES-128-CBC,")
  const COMMENT := Ascii("Comment")

  function HexValue(c: byte): Option<nat> {
    if 48 <= c <= 57 then Some(c - 48)
    else if 65 <= c <= 70 then Some(c - 65 + 10)
    else if 97 <= c <= 102 then Some(c - 97 + 10)
    else None
  }

  /** n bytes of two hex digits each, and nothing after them. */
  function ReadHex(p: Blob, n: nat): (r: Option<Blob>)
    ensures r.Some? ==> |r.value| == n
    decreases n
  {
    if n == 0 then (if p == [] then Some([]) else None)
    else if |p| < 2 then None
    else match (HexValue(p[0]), HexValue(p[1]))
      case (Some(h), Some(l)) =>
        (match ReadHex(p[2..], n - 1) case Some(more) => Some([h * 16 + l] + more) case None => None)
      case _ => None
  }

  function Overwrite(buf: Blob, bytes: Blob): Blob
    requires |bytes| <= |buf|
  {
    bytes + buf[|bytes|..]
  }

  function PemHeader(st: State, name: Blob, p: Blob): (r: Option<State>)
    requires |st.iv| == 32
    ensures r.Some? ==> |r.value.iv| == 32 && r.value.acc == st.acc
  {
    if name == PROC_TYPE then
      if |p| < 2 || p[0] != '4' as int || p[1] != ',' as int then None
      else Some(if p[2..] == ENCRYPTED then st.(encrypted := true) else st)
    else if name == DEK_INFO then
      if StartsWith(p, DES_EDE3) then
        (match ReadHex(p[|DES_EDE3|..], 8) case Some(iv) => Some(st.(enc := TripleDes, iv := Overwrite(st.iv, iv)))
          case None => None)
      else if StartsWith(p, AES_128) then
        (match ReadHex(p[|AES_128|..], 16) case Some(iv) => Some(st.(enc := Aes128, iv := Overwrite(st.iv, iv)))
          case None => None)
      else None
    else Some(st)
  }

  /** A header value that ends with a backslash goes on in the next line. */
  function Continued(p: Blob, rest: Blob): (l: Line)
    ensures |l.rest| <= |rest|
    decreases |rest|, |p|
  {
    if p == [] || p[|p| - 1] != BACKSLASH then Line(p, rest)
    else var l := GetLine(rest); Continued(p[..|p| - 1] + l.text, l.rest)
  }

  /** Quotes are taken off when the value starts and ends with one, and 255 characters are kept. */
  function CommentOf(p: Blob): Blob {
    var c := if p == [] || p[0] != QUOTE || p[|p| - 1] != QUOTE then p
             else if |p| == 1 then [] else p[1..|p| - 1];
    if |c| > 255 then c[..255] else c
  }

  function ComHeader(st: State, name: Blob, p: Blob): State {
    if name == COMMENT then st.(comment := CommentOf(p)) else st
  }

  // ----- one line -----

  predicate Ok(st: State) {
    |st.iv| == 32 && |st.acc.bits| < 4
  }

  datatype Next = Next(st: State, rest: Blob)

  function HeaderStep(style: Style, st: State, name: Blob, p: Blob, rest: Blob): (r: Option<Next>)
    requires Ok(st)
    ensures r.Some? ==> Ok(r.value.st) && |r.value.rest| <= |rest|
  {
    if style.Pem? then
      match PemHeader(st, name, p) case Some(s) => Some(Next(s, rest)) case None => None
    else
      var c := Continued(p, rest);
      Some(Next(ComHeader(st, name, c.text), c.rest))
  }

  /** One turn of the loop on a line that does not end the file; None when the file is refused. */
  function Step(style: Style, st: State, l: Line): (r: Option<Next>)
    requires Ok(st)
    ensures r.Some? ==> Ok(r.value.st) && |r.value.rest| <= |l.rest|
  {
    if !style.New? && COLON in l.text then
      if st.headersDone then None
      else
        var k := Find(l.text, COLON).value;
        HeaderStep(style, st, l.text[..k], SkipSpace(l.text[k + 1..]), l.rest)
    else
      match FeedLine(st.acc, l.text)
      case Some(a) => Some(Next(st.(headersDone := true, acc := a), l.rest))
      case None => None
  }

  /** Spins: the file ended before its last line, and the loop reads empty lines for ever. */
  datatype Loaded = Finished(keytype: KeyType, st: State) | Refused | Spins

  function Loop(style: Style, t: KeyType, st: State, text: Blob): (r: Loaded)
    requires Ok(st)
    ensures r.Finished? ==> r.keytype == t && Ok(r.st)
    decreases |text|
  {
    if text == [] then Spins
    else
      var l := GetLine(text);
      if IsEnd(style, l.text) then Finished(t, st)
      else match Step(style, st, l)
        case Some(n) => Loop(style, t, n.st, n.rest)
        case None => Refused
  }

  function Zeros(n: nat): (b: Blob)
    ensures |b| == n
  {
    if n == 0 then [] else [0] + Zeros(n - 1)
  }

  /** What both binary formats call no cipher. */
  const NONE := Ascii("none")

  const START := State(false, false, TripleDes, Zeros(32), [], FRESH)

  /** The text layer of a load. A body of no bytes, or a PEM body that cannot be deciphered, is refused. */
  function Load(style: Style, text: Blob): (r: Loaded)
    ensures r.Finished? ==> Ok(r.st)
  {
    var l := GetLine(text);
    match Begin(style, l.text)
    case None => Refused
    case Some(t) =>
      match Loop(style, t, START, l.rest)
      case Finished(_, st) =>
        if st.acc.out == [] || (style.Pem? && st.encrypted && |st.acc.out| % 8 != 0) then Refused else Finished(t, st)
      case other => other
  }

  /**
   * At the end of the file the loop reads an empty line, which is never the last line, changes at
   * most the flag for headers, and leaves it where it was: so the error for a missing end cannot be
   * reported, and the loop does not end.
   */
  lemma EndOfFileChangesNothing(style: Style, st: State)
    requires Ok(st)
    ensures var l := GetLine([]);
            l == Line([], []) && !IsEnd(style, l.text) && Step(style, st, l) == Some(Next(st.(headersDone := true), []))
  {
    FeedNothing(st.acc);
    assert |END| == 9;
  }

  method LoadText(style: Style, text: Blob) returns (r: Loaded)
    ensures r == Load(style, text)
  {
    hide GetLine, Step, IsEnd, Loop;
    var first := GetLine(text);
    var t := Begin(style, first.text);
    if t.None? {
      return Refused;
    }
    var st, rest := START, first.rest;
    ghost var whole := Loop(style, t.value, st, rest);
    while true
      invariant Ok(st) && whole == Loop(style, t.value, st, rest)
      decreases |rest|
    {
      LoopIs(style, t.value, st, rest);
      if rest == [] {
        return Spins;
      }
      var l := GetLine(rest);
      if IsEnd(style, l.text) {
        break;
      }
      var n := Step(style, st, l);
      if n.None? {
        return Refused;
      }
      st, rest := n.value.st, n.value.rest;
    }
    LoopIs(style, t.value, st, rest);
    if st.acc.out == [] || (style.Pem? && st.encrypted && |st.acc.out| % 8 != 0) {
      return Refused;
    }
    return Finished(t.value, st);
  }

  lemma LoopIs(style: Style, t: KeyType, st: State, text: Blob)
    requires Ok(st)
    ensures Loop(style, t, st, text) ==
            if text == [] then Spins
            else var l := GetLine(text);
              if IsEnd(style, l.text) then Finished(t, st)
              else match Step(style, st, l)
                case Some(n) => Loop(style, t, n.st, n.rest)
                case None => Refused
  {
  }

  // ----- what the writers' lines do -----

  lemma BeginIs(style: Style, t: KeyType, tail: Blob)
    requires style.Pem? <==> t != Unstated
    ensures GetLine(BeginLine(style, t) + [NL] + tail) == Line(BeginLine(style, t), tail)
    ensures Begin(style, BeginLine(style, t)) == Some(t)
  {
    assert BEGIN + Kind(Rsa) + PRIVATE != BEGIN + Kind(Dsa) + PRIVATE by {
      assert (BEGIN + Kind(Rsa) + PRIVATE)[11] == 'R' as int && (BEGIN + Kind(Dsa) + PRIVATE)[11] == 'D' as int;
    }
    assert BEGIN + Kind(Ecdsa) + PRIVATE != BEGIN + Kind(Dsa) + PRIVATE by {
      assert (BEGIN + Kind(Ecdsa) + PRIVATE)[11] == 'E' as int && (BEGIN + Kind(Dsa) + PRIVATE)[11] == 'D' as int;
    }
    assert BEGIN + Kind(Ecdsa) + PRIVATE != BEGIN + Kind(Rsa) + PRIVATE by {
      assert (BEGIN + Kind(Ecdsa) + PRIVATE)[11] == 'E' as int && (BEGIN + Kind(Rsa) + PRIVATE)[11] == 'R' as int;
    }
    BeginPlain(style, t);
    GetLineIs(BeginLine(style, t), tail);
  }

  /** A file is taken for the kind its first line names, in full, and for no other. */
  lemma BeginExactly(style: Style, line: Blob, t: KeyType)
    ensures Begin(style, line) == Some(t) <==> line == BeginLine(style, t) && (style.Pem? <==> t != Unstated)
  {
    if style.Pem? && t != Unstated {
      BeginIs(style, t, []);
    }
    hide BeginLine;
  }

  predicate Printable(line: Blob) {
    forall i :: 0 <= i < |line| ==> 32 <= line[i] < 127
  }

  lemma PrintableIsPlain(a: Blob, b: Blob, c: Blob)
    requires Printable(a) && Printable(b) && Printable(c)
    ensures PlainLine(a + b + c)
  {
  }

  lemma BeginPlain(style: Style, t: KeyType)
    ensures PlainLine(BeginLine(style, t))
  {
    if style.Com? {
      ComPrintable();
      PrintableIsPlain(COM_BEGIN, SSH2, COM_PRIVATE);
    } else {
      KindPrintable(t);
      PrintableIsPlain(BEGIN, Kind(t), PRIVATE);
    }
  }

  lemma EndPlain(style: Style, t: KeyType)
    ensures PlainLine(EndLine(style, t))
  {
    if style.Com? {
      ComPrintable();
      PrintableIsPlain(COM_END, SSH2, COM_PRIVATE);
    } else {
      KindPrintable(t);
      PrintableIsPlain(END, Kind(t), PRIVATE);
    }
  }

  lemma ComPrintable()
    ensures Printable(COM_BEGIN) && Printable(COM_END) && Printable(SSH2) && Printable(COM_PRIVATE)
  {
  }

  lemma KindPrintable(t: KeyType)
    ensures Printable(BEGIN) && Printable(END) && Printable(PRIVATE) && Printable(Kind(t))
  {
  }

  lemma EndIs(style: Style, t: KeyType, st: State, tail: Blob)
    requires Ok(st) && (style.Pem? <==> t != Unstated)
    ensures Loop(style, t, st, EndLine(style, t) + [NL] + tail) == Finished(t, st)
  {
    hide Step, GetLine;
    EndPlain(style, t);
    GetLineIs(EndLine(style, t), tail);
    var line := EndLine(style, t);
    if style.Pem? {
      assert line[..|END|] == END && line[|line| - |PRIVATE|..] == PRIVATE;
    }
  }

  /** Lines of base64 are fed to the decoder, wherever they are broken. */
  lemma {:induction false} BodyIs(style: Style, t: KeyType, st: State, lines: seq<Blob>, tail: Blob)
    requires Ok(st) && Base64Lines(lines) && lines != []
    ensures Loop(style, t, st, Unlines(lines) + tail) ==
            match Feed(st.acc, Concat(lines))
            case Some(a) => Loop(style, t, st.(headersDone := true, acc := a), tail)
            case None => Refused
    decreases |lines|
  {
    hide Feed, Loop, IsBase64, GetLine, IsEnd;
    var rest := Unlines(lines[1..]) + tail;
    assert Unlines(lines) + tail == lines[0] + [NL] + rest;
    Base64Line(lines[0]);
    GetLineIs(lines[0], rest);
    NotTheEnd(style, lines[0]);
    LoopIs(style, t, st, Unlines(lines) + tail);
    FeedAppend(st.acc, lines[0], Concat(lines[1..]));
    match Feed(st.acc, lines[0])
    case None =>
    case Some(a) =>
      if |lines| == 1 {
        FeedNothing(a);
        assert rest == tail;
      } else {
        BodyIs(style, t, st.(headersDone := true, acc := a), lines[1..], tail);
      }
  }

  lemma NotTheEnd(style: Style, line: Blob)
    requires line != [] ==> line[0] != '-' as int
    ensures !IsEnd(style, line)
  {
    assert END[0] == '-' as int && EndLine(Com, Unstated)[0] == '-' as int && EndLine(New, Unstated)[0] == '-' as int;
  }

  /** A body written in lines, then the end line: the loader finishes with the body's bytes. */
  lemma BodyLoads(style: Style, t: KeyType, st: State, data: Blob, cpl: nat)
    requires cpl > 0 && Ok(st) && st.acc == FRESH && (style.Pem? <==> t != Unstated)
    ensures Loop(style, t, st, Wrap(Chars(data), cpl) + (EndLine(style, t) + [NL]))
            == Finished(t, st.(headersDone := true, acc := Acc([], data)))
  {
    hide Loop, Feed, Chars, Wrap, EndLine;
    var tail := EndLine(style, t) + [NL];
    CharsAreBase64(data);
    CutIs(Chars(data), cpl);
    assert Cut(Chars(data), cpl) != [];
    BodyIs(style, t, st, Cut(Chars(data), cpl), tail);
    FeedChars([], data);
    assert [] + data == data;
    EndIs(style, t, st.(headersDone := true, acc := Acc([], data)), []);
    assert tail + [] == tail;
  }

  // ----- when a load does not end -----

  /** The text after a line and, for ssh.com headers, after the lines that continue it. */
  function After(style: Style, l: Line): (rest: Blob)
    ensures |rest| <= |l.rest|
  {
    if style.Com? && COLON in l.text then Continued(SkipSpace(l.text[Find(l.text, COLON).value + 1..]), l.rest).rest
    else l.rest
  }

  /** Some line of the text, of those the loop looks at, ends the file. */
  predicate HasEnd(style: Style, text: Blob)
    decreases |text|
  {
    text != [] && var l := GetLine(text); IsEnd(style, l.text) || HasEnd(style, After(style, l))
  }

  /** No line before the end of the file is refused. */
  predicate Readable(style: Style, st: State, text: Blob)
    requires Ok(st)
    decreases |text|
  {
    text == [] ||
    var l := GetLine(text);
    IsEnd(style, l.text) ||
    (Step(style, st, l).Some? && var n := Step(style, st, l).value; Readable(style, n.st, n.rest))
  }

  lemma StepGoesOn(style: Style, st: State, l: Line)
    requires Ok(st) && Step(style, st, l).Some?
    ensures Step(style, st, l).value.rest == After(style, l)
  {
    hide FeedLine, PemHeader;
  }

  /**
   * The loop ends exactly when some line ends the file or is refused: it reads empty lines for ever
   * exactly when no line does either, whatever the text.
   */
  lemma {:induction false} LoopExactly(style: Style, t: KeyType, st: State, text: Blob)
    requires Ok(st)
    ensures Loop(style, t, st, text).Refused? <==> !Readable(style, st, text)
    ensures Loop(style, t, st, text).Finished? <==> Readable(style, st, text) && HasEnd(style, text)
    ensures Loop(style, t, st, text).Spins? <==> Readable(style, st, text) && !HasEnd(style, text)
    decreases |text|
  {
    hide GetLine, IsEnd, Step, After;
    if text != [] {
      var l := GetLine(text);
      if !IsEnd(style, l.text) && Step(style, st, l).Some? {
        StepGoesOn(style, st, l);
        var n := Step(style, st, l).value;
        LoopExactly(style, t, n.st, n.rest);
      }
    }
  }

  /** The same of a whole load. */
  lemma LoadSpinsExactly(style: Style, text: Blob)
    ensures var l := GetLine(text);
            Load(style, text).Spins?
            <==> Begin(style, l.text).Some? && Readable(style, START, l.rest) && !HasEnd(style, l.rest)
  {
    hide GetLine, Begin, Loop, Readable, HasEnd;
    var l := GetLine(text);
    match Begin(style, l.text)
    case None =>
    case Some(t) => LoopExactly(style, t, START, l.rest);
  }

  function Lines(text: Blob): seq<Blob>
    decreases |text|
  {
    if text == [] then [] else [GetLine(text).text] + Lines(GetLine(text).rest)
  }

  /** In the two OpenSSH formats the lines the loop looks at are all the lines of the text. */
  lemma {:induction false} HasEndIsALine(style: Style, text: Blob)
    requires !style.Com?
    ensures HasEnd(style, text) <==> exists line :: line in Lines(text) && IsEnd(style, line)
    decreases |text|
  {
    hide GetLine, IsEnd;
    if text != [] {
      var l := GetLine(text);
      HasEndIsALine(style, l.rest);
      assert Lines(text) == [l.text] + Lines(l.rest);
      assert l.text in Lines(text) && forall line :: line in Lines(l.rest) ==> line in Lines(text);
    }
  }

  /** The base64 characters of all lines before the end of the file. */
  function BodyChars(style: Style, text: Blob): Blob
    decreases |text|
  {
    if text == [] || IsEnd(style, GetLine(text).text) then []
    else GetLine(text).text[..Run(GetLine(text).text)] + BodyChars(style, GetLine(text).rest)
  }

  /** A new-style file is refused only for its base64, so it spins iff that is valid and no line ends the file. */
  lemma {:induction false} NewReadableExactly(st: State, text: Blob)
    requires Ok(st)
    ensures Readable(New, st, text) <==> Feed(st.acc, BodyChars(New, text)).Some?
    decreases |text|
  {
    hide GetLine, IsEnd, Feed, Run;
    if text == [] || IsEnd(New, GetLine(text).text) {
      FeedNothing(st.acc);
    } else {
      var l := GetLine(text);
      FeedAppend(st.acc, l.text[..Run(l.text)], BodyChars(New, l.rest));
      match FeedLine(st.acc, l.text)
      case Some(a) => NewReadableExactly(st.(headersDone := true, acc := a), l.rest);
      case None =>
    }
  }

  /** And a new-style file that is read holds what all its base64 characters together decode to. */
  lemma {:induction false} NewBodyIs(t: KeyType, st: State, text: Blob)
    requires Ok(st) && Loop(New, t, st, text).Finished?
    ensures Feed(st.acc, BodyChars(New, text)) == Some(Loop(New, t, st, text).st.acc)
    decreases |text|
  {
    hide GetLine, IsEnd, Feed, Run;
    if IsEnd(New, GetLine(text).text) {
      FeedNothing(st.acc);
    } else {
      var l := GetLine(text);
      FeedAppend(st.acc, l.text[..Run(l.text)], BodyChars(New, l.rest));
      match FeedLine(st.acc, l.text)
      case Some(a) => NewBodyIs(t, st.(headersDone := true, acc := a), l.rest);
    }
  }

  /** A file whose lines are in order is refused all the same exactly for an empty body,
    or one that no block cipher made. */
  lemma BodyRefusedExactly(style: Style, text: Blob, t: KeyType, st: State)
    requires Begin(style, GetLine(text).text) == Some(t) && Loop(style, t, START, GetLine(text).rest) == Finished(t, st)
    ensures Load(style, text)
            == if st.acc.out != [] && (style == Pem && st.encrypted ==> |st.acc.out| % 8 == 0) then Finished(t, st)
               else Refused
  {
    hide Loop, GetLine, Begin;
  }

  /** Lines of base64 without a last line behind them. */
  lemma CutFileSpins(style: Style, t: KeyType, st: State, lines: seq<Blob>)
    requires Ok(st) && Base64Lines(lines) && Feed(st.acc, Concat(lines)).Some?
    ensures Loop(style, t, st, Unlines(lines)) == Spins
  {
    hide Feed, IsBase64;
    if lines != [] {
      BodyIs(style, t, st, lines, []);
      assert Unlines(lines) + [] == Unlines(lines);
    }
  }

  /**
   * An ssh.com file can have its last line and spin all the same: a header that ends with a
   * backslash takes the line after it as its own continuation.
   */
  lemma EndLineSwallowed(st: State, name: Blob)
    requires Ok(st) && !st.headersDone && name != [] && Printable(name) && name[0] != '-' as int && COLON !in name
    ensures var text := name + [COLON, SP, BACKSLASH, NL] + EndLine(Com, Unstated) + [NL];
            Loop(Com, Unstated, st, text) == Spins && EndLine(Com, Unstated) in Lines(text)
  {
    hide Loop, GetLine, Find, Continued, ComHeader, EndLine, HeaderStep, PlainLine;
    var end := EndLine(Com, Unstated);
    var tail := end + [NL];
    var text := name + [COLON, SP, BACKSLASH, NL] + end + [NL];
    BackslashIsPlain();
    assert text == name + [COLON, SP] + [BACKSLASH] + [NL] + tail;
    HeaderIs(Com, Unstated, st, name, [BACKSLASH], tail);
    EndPlain(Com, Unstated);
    GetLineIs(end, []);
    assert tail + [] == tail;
    SwallowEnd(tail);
    ComHeaderStep(st, name, [BACKSLASH], tail);
    NothingSpins(Com, Unstated, ComHeader(st, name, end));
    HeaderLineFirst(name, tail);
    assert text == name + [COLON, SP, BACKSLASH, NL] + tail;
    SecondLine(text, tail, end);
  }

  lemma SecondLine(text: Blob, tail: Blob, line: Blob)
    requires text != [] && tail != [] && GetLine(text).rest == tail && GetLine(tail).text == line
    ensures line in Lines(text)
  {
    assert Lines(tail) == [line] + Lines(GetLine(tail).rest);
    assert Lines(text) == [GetLine(text).text] + Lines(tail);
    assert Lines(text)[1] == line;
  }

  lemma BackslashIsPlain()
    ensures PlainLine([BACKSLASH]) && !IsSpace(BACKSLASH)
  {
  }

  lemma HeaderLineFirst(name: Blob, tail: Blob)
    requires name != [] && Printable(name) && COLON !in name
    ensures GetLine(name + [COLON, SP, BACKSLASH, NL] + tail) == Line(name + [COLON, SP, BACKSLASH], tail)
  {
    hide GetLine, Find;
    BackslashIsPlain();
    HeaderParts(name, [BACKSLASH]);
    assert name + [COLON, SP] + [BACKSLASH] == name + [COLON, SP, BACKSLASH];
    GetLineIs(name + [COLON, SP, BACKSLASH], tail);
    assert name + [COLON, SP, BACKSLASH, NL] + tail == name + [COLON, SP, BACKSLASH] + [NL] + tail;
  }

  lemma ComHeaderStep(st: State, name: Blob, p: Blob, rest: Blob)
    requires Ok(st)
    ensures var c := Continued(p, rest);
            HeaderStep(Com, st, name, p, rest) == Some(Next(ComHeader(st, name, c.text), c.rest))
    ensures Ok(ComHeader(st, name, Continued(p, rest).text))
  {
    hide Continued;
  }

  lemma NothingSpins(style: Style, t: KeyType, st: State)
    requires Ok(st)
    ensures Loop(style, t, st, []) == Spins
  {
  }

  lemma SwallowEnd(tail: Blob)
    requires GetLine(tail) == Line(EndLine(Com, Unstated), [])
    ensures Continued([BACKSLASH], tail) == Line(EndLine(Com, Unstated), [])
  {
    hide GetLine;
    var end := EndLine(Com, Unstated);
    assert [BACKSLASH][..0] == [] && [] + end == end;
    assert |COM_PRIVATE| == 16 && COM_PRIVATE[15] == '-' as int;
    assert end[|end| - 1] == COM_PRIVATE[15];
  }

  /** A header line as the writers make it: the name, a colon, a space and the value. */
  lemma HeaderIs(style: Style, t: KeyType, st: State, name: Blob, p: Blob, tail: Blob)
    requires Ok(st) && !st.headersDone && !style.New? && name != [] && Printable(name) && name[0] != '-' as int
             && COLON !in name
    requires p != [] && !IsSpace(p[0]) && PlainLine(p)
    ensures Loop(style, t, st, name + [COLON, SP] + p + [NL] + tail) ==
            match HeaderStep(style, st, name, p, tail)
            case Some(n) => Loop(style, t, n.st, n.rest)
            case None => Refused
  {
    hide Loop, GetLine, IsEnd, HeaderStep, Find, SkipSpace, PlainLine;
    var line := name + [COLON, SP] + p;
    HeaderParts(name, p);
    GetLineIs(line, tail);
    LoopIs(style, t, st, line + [NL] + tail);
    NotTheEnd(style, line);
    SkipOneSpace(p);
  }

  lemma HeaderParts(name: Blob, p: Blob)
    requires name != [] && Printable(name) && COLON !in name && PlainLine(p) && p != []
    ensures var line := name + [COLON, SP] + p;
            && PlainLine(line) && line[0] == name[0] && COLON in line && Find(line, COLON) == Some(|name|)
            && line[..|name|] == name && line[|name| + 1..] == [SP] + p
  {
    hide Find;
    var line := name + [COLON, SP] + p;
    assert line == name + [COLON] + ([SP] + p);
    FindAt(name, COLON, [SP] + p);
    assert line[|name|] == COLON;
  }

  lemma SkipOneSpace(p: Blob)
    requires p != [] && !IsSpace(p[0])
    ensures SkipSpace([SP] + p) == p
  {
    assert ([SP] + p)[1..] == p;
  }

  // ----- what the headers say -----

  /** The value of a hex digit of either case. */
  lemma HexDigitExactly(c: byte, v: nat)
    ensures HexValue(c) == Some(v)
            <==> (v < 10 && c == '0' as int + v)
                 || (10 <= v < 16 && (c == 'A' as int + v - 10 || c == 'a' as int + v - 10))
  {
  }

  /** Each two digits of the string make the byte at their place. */
  predicate PairsAre(p: Blob, b: Blob) {
    |p| == 2 * |b| && forall i :: 0 <= i < |b| ==>
      HexValue(p[2 * i]) == Some(b[i] / 16) && HexValue(p[2 * i + 1]) == Some(b[i] % 16)
  }

  lemma PairsStep(p: Blob, b: Blob)
    requires |p| >= 2 && b != []
    ensures PairsAre(p, b)
            <==> HexValue(p[0]) == Some(b[0] / 16) && HexValue(p[1]) == Some(b[0] % 16) && PairsAre(p[2..], b[1..])
  {
    hide HexValue;
    if PairsAre(p[2..], b[1..]) {
      assert forall i :: 1 <= i < |b| ==>
        b[i] == b[1..][i - 1] && p[2 * i] == p[2..][2 * (i - 1)] && p[2 * i + 1] == p[2..][2 * (i - 1) + 1];
    }
    if PairsAre(p, b) {
      assert HexValue(p[2 * 0]) == Some(b[0] / 16);
      assert forall i :: 0 <= i < |b| - 1 ==>
        b[1..][i] == b[i + 1] && p[2..][2 * i] == p[2 * (i + 1)] && p[2..][2 * i + 1] == p[2 * (i + 1) + 1];
    }
  }

  lemma HexLimit(c: byte)
    ensures HexValue(c).Some? ==> HexValue(c).value < 16
  {
  }

  /** A hex string is read as some bytes exactly when its digits make them. */
  lemma {:induction false} ReadHexExactly(p: Blob, b: Blob)
    ensures ReadHex(p, |b|) == Some(b) <==> PairsAre(p, b)
    decreases |b|
  {
    if b != [] && |p| >= 2 {
      ReadHexExactly(p[2..], b[1..]);
      PairsStep(p, b);
      HexLimit(p[0]);
      HexLimit(p[1]);
      assert b == [b[0]] + b[1..];
      hide PairsAre, HexValue;
    }
  }

  /** The vector buffer with these bytes at its front. */
  function WithVector(st: State, e: Enc, iv: Blob): State
    requires |iv| <= |st.iv|
  {
    st.(enc := e, iv := iv + st.iv[|iv|..])
  }

  lemma DekValue(p: Blob)
    ensures PROC_TYPE != DEK_INFO && DEK_INFO == Ascii("DEK-Info")
    ensures var a := Ascii("DES-EDE3-CBC,") + p; StartsWith(a, DES_EDE3) && a[|DES_EDE3|..] == p
    ensures var a := Ascii("AES-128-CBC,") + p;
            StartsWith(a, AES_128) && a[|AES_128|..] == p && !StartsWith(a, DES_EDE3)
  {
    assert PROC_TYPE[0] == 'P' as int && DEK_INFO[0] == 'D' as int;
    assert (Ascii("AES-128-CBC,") + p)[0] == 'A' as int && DES_EDE3[0] == 'D' as int;
    assert |Ascii("DES-EDE3-CBC,")| == |DES_EDE3| && |Ascii("AES-128-CBC,")| == |AES_128|;
  }

  lemma VectorIs(st: State, e: Enc, iv: Blob, other: Blob)
    requires |iv| == |other| <= |st.iv|
    ensures st.(enc := e, iv := Overwrite(st.iv, other)) == WithVector(st, e, iv) <==> iv == other
  {
    assert (iv + st.iv[|iv|..])[..|iv|] == iv && (other + st.iv[|other|..])[..|iv|] == other;
  }

  /** A DEK-Info header is taken for the two ciphers, each with a vector of its own size in hex. */
  lemma DekInfoExactly(st: State, p: Blob, iv: Blob)
    requires |st.iv| == 32
    ensures |iv| == 8 ==>
              (PemHeader(st, Ascii("DEK-Info"), Ascii("DES-EDE3-CBC,") + p) == Some(WithVector(st, TripleDes, iv))
               <==> PairsAre(p, iv))
    ensures |iv| == 16 ==>
              (PemHeader(st, Ascii("DEK-Info"), Ascii("AES-128-CBC,") + p) == Some(WithVector(st, Aes128, iv))
               <==> PairsAre(p, iv))
  {
    DekValue(p);
    ReadHexExactly(p, iv);
    if |iv| == 8 && ReadHex(p, 8).Some? {
      VectorIs(st, TripleDes, iv, ReadHex(p, 8).value);
    }
    if |iv| == 16 && ReadHex(p, 16).Some? {
      VectorIs(st, Aes128, iv, ReadHex(p, 16).value);
    }
    hide ReadHex, PairsAre, StartsWith, Overwrite, WithVector;
  }

  /** A file is of version 4 or refused, and only the one word says that it is encrypted; other headers pass. */
  lemma ProcTypeExactly(st: State, name: Blob, p: Blob)
    requires |st.iv| == 32
    ensures var r := PemHeader(st, Ascii("Proc-Type"), Ascii("4,") + p);
            r == Some(if p == Ascii("ENCRYPTED") then st.(encrypted := true) else st)
    ensures |p| < 2 || p[..2] != Ascii("4,") ==> PemHeader(st, Ascii("Proc-Type"), p).None?
    ensures name != Ascii("Proc-Type") && name != Ascii("DEK-Info") ==> PemHeader(st, name, p) == Some(st)
  {
    var a := Ascii("4,") + p;
    assert a[0] == '4' as int && a[1] == ',' as int && a[2..] == p;
    if |p| >= 2 && p[0] == '4' as int && p[1] == ',' as int {
      assert p[..2] == Ascii("4,");
    }
    hide ReadHex;
  }

  /** A line with a colon is a header, and is refused once the body has begun; in the ssh.com format only then. */
  lemma LateHeadersRefused(style: Style, st: State, l: Line)
    requires Ok(st) && !style.New? && COLON in l.text
    ensures st.headersDone ==> Step(style, st, l).None?
    ensures style.Com? ==> (Step(style, st, l).None? <==> st.headersDone)
    ensures Step(style, st, l).Some? ==>
              !Step(style, st, l).value.st.headersDone && Step(style, st, l).value.st.acc == st.acc
  {
    hide GetLine, ReadHex, StartsWith, Overwrite, CommentOf;
  }

  /** Of the ssh.com headers only the comment is kept. */
  lemma OtherHeadersPass(st: State, name: Blob, p: Blob, rest: Blob)
    requires Ok(st) && name != Ascii("Comment")
    ensures HeaderStep(Com, st, name, p, rest) == Some(Next(st, Continued(p, rest).rest))
  {
    hide Continued, CommentOf;
  }

  /** A comment loses its quotes if it has them at both ends, and what is over 255 characters. */
  lemma CommentExactly(c: Blob)
    requires |c| <= 255
    ensures CommentOf([QUOTE] + c + [QUOTE]) == c
    ensures c == [] || c[0] != '"' as int || c[|c| - 1] != '"' as int ==> CommentOf(c) == c
    ensures forall d: Blob :: |c| == 255 && d != [] ==> CommentOf([QUOTE] + (c + d) + [QUOTE]) == c
  {
    var p := [QUOTE] + c + [QUOTE];
    assert p[1..|p| - 1] == c;
    forall d: Blob | |c| == 255 && d != [] ensures CommentOf([QUOTE] + (c + d) + [QUOTE]) == c {
      var q := [QUOTE] + (c + d) + [QUOTE];
      assert q[1..|q| - 1] == c + d && (c + d)[..255] == c;
    }
  }
}
