/** Lines of text: finding characters, skipping space, and reading the next line of a file. */
module Text {
  import opened Bytes

  const NL: byte := 10
  const CR: byte := 13
  const SP: byte := 32

  predicate IsSpace(c: byte) {
    c == SP || 9 <= c <= 13
  }

  function SkipSpace(b: Blob): (r: Blob)
    ensures |r| <= |b|
  {
    if b != [] && IsSpace(b[0]) then SkipSpace(b[1..]) else b
  }

  /** The first place of a character. */
  function Find(b: Blob, c: byte): (k: Option<nat>)
    ensures k.Some? ==> k.value < |b| && b[k.value] == c && forall i :: 0 <= i < k.value ==> b[i] != c
    ensures k.None? ==> forall i :: 0 <= i < |b| ==> b[i] != c
  {
    if b == [] then None
    else if b[0] == c then Some(0)
    else match Find(b[1..], c) case Some(k) => Some(k + 1) case None => None
  }

  lemma FindAt(a: Blob, c: byte, tail: Blob)
    requires forall i :: 0 <= i < |a| ==> a[i] != c
    ensures Find(a + [c] + tail, c) == Some(|a|)
  {
    var b := a + [c] + tail;
    assert b[|a|] == c;
    forall i | 0 <= i < |a| ensures b[i] != c {
      assert b[i] == a[i];
    }
  }

  datatype Line = Line(text: Blob, rest: Blob)

  function Chomp(line: Blob): Blob {
    if line != [] && line[|line| - 1] == CR then line[..|line| - 1] else line
  }

  /** A C string ends at its first zero byte. */
  function CString(b: Blob): Blob {
    match Find(b, 0) case Some(k) => b[..k] case None => b
  }

  /** bsgetline: at the end of the file it yields an empty line, for ever, and reports no error. */
  function GetLine(text: Blob): (l: Line)
    ensures |l.rest| <= |text| && (text != [] ==> |l.rest| < |text|)
    ensures text == [] ==> l == Line([], [])
  {
    match Find(text, NL)
    case Some(k) => Line(CString(Chomp(text[..k])), text[k + 1..])
    case None => Line(CString(Chomp(text)), [])
  }

  /** A line as the writers make them. */
  predicate PlainLine(line: Blob) {
    NL !in line && 0 !in line && (line != [] ==> line[|line| - 1] != CR)
  }

  lemma GetLineIs(line: Blob, tail: Blob)
    requires PlainLine(line)
    ensures GetLine(line + [NL] + tail) == Line(line, tail)
  {
    hide Find;
    FindAt(line, NL, tail);
    assert (line + [NL] + tail)[..|line|] == line && (line + [NL] + tail)[|line| + 1..] == tail;
  }
}
