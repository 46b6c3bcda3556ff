/** The text of a machine mail: a marked block of unpadded base64 between other lines. */
module MailText {
  import opened Json

  const BEGIN: string := "-----BEGIN PRODUCT MATERIAL WORKFLOW-----"
  const END: string := "-----END PRODUCT MATERIAL WORKFLOW-----"

  // ---------------------------------------------------------------- finding a marker

  predicate StartsWith(s: string, p: string) {
    |p| <= |s| && s[..|p|] == p
  }

  /** Where the marker starts first. */
  function Find(s: string, p: string): (r: Option<nat>)
    requires p != ""
    ensures r.Some? ==> r.value + |p| <= |s| && StartsWith(s[r.value..], p)
  {
    if StartsWith(s, p) then Some(0)
    else if s == "" then None
    else
      var r := Find(s[1..], p);
      if r.None? then None
      else
        assert s[1 + r.value..] == s[1..][r.value..];
        Some(1 + r.value)
  }

  /** The text does not hold the marker. */
  predicate IsFree(s: string, p: string)
    requires p != ""
  {
    Find(s, p).None?
  }

  function Shift(r: Option<nat>, n: nat): Option<nat> {
    if r.None? then None else Some(r.value + n)
  }

  lemma FindStep(s: string, p: string)
    requires p != "" && s != "" && !StartsWith(s, p)
    ensures Find(s, p) == Shift(Find(s[1..], p), 1)
  {
  }

  lemma FreeTail(s: string, p: string)
    requires p != "" && s != "" && IsFree(s, p)
    ensures IsFree(s[1..], p)
  {
  }

  lemma StartsMeans(s: string, p: string, i: nat)
    requires i < |p|
    ensures StartsWith(s, p) ==> s[i] == p[i]
  {
    if StartsWith(s, p) {
      assert s[..|p|][i] == p[i];
    }
  }

  lemma NotAcross(line: string, p: string, rest: string)
    requires p != "" && '\n' !in p && IsFree(line, p)
    ensures !StartsWith(line + "\n" + rest, p)
  {
    var s := line + "\n" + rest;
    if |p| <= |line| {
      assert s[..|p|] == line[..|p|];
    } else {
      StartsMeans(s, p, |line|);
    }
  }

  /** A line break ends any match: a marker on one line is not found across lines. */
  lemma {:induction false} FindAfterLine(line: string, p: string, rest: string)
    requires p != "" && '\n' !in p && IsFree(line, p)
    ensures Find(line + "\n" + rest, p) == Shift(Find(rest, p), |line| + 1)
  {
    hide Find, StartsWith, IsFree;
    var s := line + "\n" + rest;
    NotAcross(line, p, rest);
    FindStep(s, p);
    if line == "" {
      assert s[1..] == rest;
    } else {
      assert s[1..] == line[1..] + "\n" + rest;
      FreeTail(line, p);
      FindAfterLine(line[1..], p, rest);
    }
  }

  /** A text without one of the marker's characters does not hold the marker. */
  lemma {:induction false} FreeOfCharacter(s: string, p: string, c: char)
    requires p != "" && c in p && c !in s
    ensures IsFree(s, p)
  {
    var i :| 0 <= i < |p| && p[i] == c;
    StartsMeans(s, p, i);
    if s != "" {
      FreeOfCharacter(s[1..], p, c);
    }
  }

  function Joined(lines: seq<string>): string
    requires lines != []
  {
    if |lines| == 1 then lines[0] else lines[0] + "\n" + Joined(lines[1..])
  }

  lemma FindAtOnce(s: string, p: string)
    requires p != "" && StartsWith(s, p)
    ensures Find(s, p) == Some(0) && s[0..] == s
  {
  }

  lemma DropLine(line: string, rest: string, n: nat)
    requires n <= |rest|
    ensures (line + "\n" + rest)[|line| + 1 + n..] == rest[n..]
  {
  }

  /** The first marker in a joined text is on the first line that holds it. */
  lemma {:induction false} FindInLines(lines: seq<string>, p: string, last: string)
    requires p != "" && '\n' !in p && forall i :: 0 <= i < |lines| ==> IsFree(lines[i], p)
    requires StartsWith(last, p)
    ensures Find(Joined(lines + [last]), p).Some?
    ensures Joined(lines + [last])[Find(Joined(lines + [last]), p).value..] == last
    decreases |lines|
  {
    hide Find, IsFree, StartsWith;
    var all := lines + [last];
    if lines != [] {
      assert all[1..] == lines[1..] + [last];
      FindInLines(lines[1..], p, last);
      var rest := Joined(all[1..]);
      FindAfterLine(lines[0], p, rest);
      DropLine(lines[0], rest, Find(rest, p).value);
    } else {
      assert all == [last];
      FindAtOnce(last, p);
    }
  }

  // ---------------------------------------------------------------- base64 without padding

  /** Base64 with the URL alphabet and padding, section 5 of RFC 4648. */
  datatype Base64 = Base64(encode: Bytes -> string, decode: string -> Option<Bytes>)

  predicate IsAlphabet(c: char) {
    'A' <= c <= 'Z' || 'a' <= c <= 'z' || '0' <= c <= '9' || c == '-' || c == '_'
  }

  /** How many padding characters `n` bytes need. */
  function Padding(n: nat): nat {
    (3 - n % 3) % 3
  }

  function Pads(n: nat): (r: string)
    ensures |r| == n && forall i :: 0 <= i < n ==> r[i] == '='
  {
    if n == 0 then "" else "=" + Pads(n - 1)
  }

  /** Groups of four characters for three bytes, the last one padded; decoding is the inverse. */
  ghost predicate IsBase64(b: Base64) {
    forall d :: IsEncodingOf(b.encode(d), |d|) && b.decode(b.encode(d)) == Some(d)
  }

  predicate IsEncodingOf(s: string, n: nat) {
    && |s| == 4 * ((n + 2) / 3)
    && (forall i :: 0 <= i < |s| - Padding(n) ==> IsAlphabet(s[i]))
    && (forall i :: |s| - Padding(n) <= i < |s| ==> s[i] == '=')
  }

  /** `rstrip("=")` */
  function Stripped(s: string): string
    decreases |s|
  {
    if s == "" || s[|s| - 1] != '=' then s else Stripped(s[..|s| - 1])
  }

  lemma {:induction false} StrippedIs(s: string, k: nat)
    requires k <= |s| && (forall i :: k <= i < |s| ==> s[i] == '=') && (k == 0 || s[k - 1] != '=')
    ensures Stripped(s) == s[..k]
    decreases |s|
  {
    if |s| > k {
      StrippedIs(s[..|s| - 1], k);
      assert s[..|s| - 1][..k] == s[..k];
    } else {
      assert s[..k] == s;
    }
  }

  /** `"=" * (-len(encoded) % 4)` */
  function Repadded(s: string): string {
    s + Pads((-|s|) % 4)
  }

  /** The arithmetic of re-padding: what is stripped comes back. */
  lemma PaddingArithmetic(n: nat)
    ensures Padding(n) <= 4 * ((n + 2) / 3)
    ensures (-(4 * ((n + 2) / 3) - Padding(n))) % 4 == Padding(n)
  {
    var q, r := n / 3, n % 3;
    assert n == 3 * q + r;
    if r == 0 {
      assert (n + 2) / 3 == q;
      FourTimes(-q, 0);
    } else {
      assert (n + 2) / 3 == q + 1;
      assert Padding(n) == 3 - r;
      assert -(4 * (q + 1) - (3 - r)) == 4 * (-(q + 1)) + (3 - r);
      FourTimes(-(q + 1), 3 - r);
    }
  }

  lemma FourTimes(k: int, r: int)
    requires 0 <= r < 4
    ensures (4 * k + r) % 4 == r
  {
  }

  lemma RepaddingRestores(s: string, n: nat)
    requires IsEncodingOf(s, n)
    ensures Repadded(Stripped(s)) == s
    ensures forall i :: 0 <= i < |Stripped(s)| ==> IsAlphabet(Stripped(s)[i])
    ensures Stripped(s) == "" <==> n == 0
  {
    hide Padding, Stripped;
    PaddingArithmetic(n);
    var k := |s| - Padding(n);
    assert k > 0 ==> IsAlphabet(s[k - 1]);
    StrippedIs(s, k);
    PadsAre(s, k);
    LengthZero(n);
  }

  lemma PadsAre(s: string, k: nat)
    requires k <= |s| && forall i :: k <= i < |s| ==> s[i] == '='
    ensures s[..k] + Pads(|s| - k) == s
  {
    assert s[k..] == Pads(|s| - k);
    assert s == s[..k] + s[k..];
  }

  lemma LengthZero(n: nat)
    ensures 4 * ((n + 2) / 3) - Padding(n) == 0 <==> n == 0
  {
  }

  // ---------------------------------------------------------------- the block

  function Block(begin: string, word: string, end: string): string {
    begin + "\n" + word + "\n" + end
  }

  function EncodeBlock(b: Base64, data: Bytes): string {
    Block(BEGIN, Stripped(b.encode(data)), END)
  }

  /** `s.split(begin, 1)[1]`, which raises when there is no marker. */
  function After(s: string, begin: string): Option<string>
    requires begin != ""
  {
    var start := Find(s, begin);
    if start.None? then None else Some(s[start.value + |begin|..])
  }

  /** `s.split(end, 1)[0]` */
  function Until(s: string, end: string): string
    requires end != ""
  {
    var stop := Find(s, end);
    if stop.None? then s else s[..stop.value]
  }

  /** The trimmed text between the first begin marker and the first end marker after it. */
  function Between(h: Host, body: string, begin: string, end: string): Option<string>
    requires begin != "" && end != ""
  {
    var after := After(body, begin);
    if after.None? then None else Some(h.strip(Until(after.value, end)))
  }

  function DecodeBlock(h: Host, b: Base64, body: string): Option<Bytes> {
    var word := Between(h, body, BEGIN, END);
    if word.None? then None else b.decode(Repadded(word.value))
  }

  /** Trimming takes the line breaks off a text of the alphabet, and nothing else. */
  ghost predicate TrimsLines(h: Host) {
    forall s: string :: IsWord(s) ==> h.strip("\n" + s + "\n") == s
  }

  predicate IsWord(s: string) {
    forall i :: 0 <= i < |s| ==> IsAlphabet(s[i])
  }

  lemma Framed(word: string, end: string)
    ensures "" + "\n" + (word + "\n" + end) == "\n" + word + "\n" + end
  {
  }

  lemma FreeBefore(word: string, end: string)
    requires ' ' !in word && ' ' in end
    ensures IsFree(word, end) && IsFree("", end) && StartsWith(end, end)
  {
    hide Find;
    FreeOfCharacter(word, end, ' ');
    FreeOfCharacter("", end, ' ');
    StartsItself(end);
  }

  lemma InnerText(word: string, end: string)
    requires end != "" && '\n' !in end && IsFree(word, end) && IsFree("", end) && StartsWith(end, end)
    ensures Find("\n" + word + "\n" + end, end) == Some(|word| + 2)
  {
    hide Find, StartsWith, IsFree;
    FindAtOnce(end, end);
    FindAfterLine(word, end, end);
    FindAfterLine("", end, word + "\n" + end);
    Framed(word, end);
  }

  lemma StartsItself(s: string)
    ensures StartsWith(s, s)
  {
  }

  lemma BlockTail(begin: string, word: string, end: string)
    ensures StartsWith(Block(begin, word, end), begin)
    ensures Block(begin, word, end)[|begin|..] == "\n" + word + "\n" + end
  {
    var block := Block(begin, word, end);
    assert block == begin + ("\n" + word + "\n" + end);
  }

  lemma TailStart(word: string, end: string)
    ensures ("\n" + word + "\n" + end)[..|word| + 2] == "\n" + word + "\n"
  {
    assert "\n" + word + "\n" + end == ("\n" + word + "\n") + end;
  }

  lemma AfterBlock(lines: seq<string>, begin: string, word: string, end: string)
    requires begin != "" && '\n' !in begin && forall i :: 0 <= i < |lines| ==> IsFree(lines[i], begin)
    ensures After(Joined(lines + [Block(begin, word, end)]), begin) == Some("\n" + word + "\n" + end)
  {
    hide IsFree, Find, Joined, Block, StartsWith, After;
    BlockTail(begin, word, end);
    FindInLines(lines, begin, Block(begin, word, end));
    AfterFound(Joined(lines + [Block(begin, word, end)]), begin, Block(begin, word, end));
  }

  lemma AfterFound(body: string, begin: string, block: string)
    requires begin != "" && |begin| <= |block|
    requires Find(body, begin).Some? && body[Find(body, begin).value..] == block
    ensures After(body, begin) == Some(block[|begin|..])
  {
    hide Find;
    DropTwice(body, Find(body, begin).value, |begin|);
  }

  lemma UntilEnd(word: string, end: string)
    requires IsWord(word) && ' ' in end && '\n' !in end
    ensures Until("\n" + word + "\n" + end, end) == "\n" + word + "\n"
  {
    hide Find, IsFree, StartsWith;
    NoBlank(word);
    FreeBefore(word, end);
    InnerText(word, end);
    TailStart(word, end);
  }

  /** Between markers that hold a blank, a word without one is found again. */
  lemma BetweenMarkers(h: Host, lines: seq<string>, begin: string, word: string, end: string)
    requires TrimsLines(h) && IsWord(word)
    requires begin != "" && '\n' !in begin && ' ' in end && '\n' !in end
    requires forall i :: 0 <= i < |lines| ==> IsFree(lines[i], begin)
    ensures Between(h, Joined(lines + [Block(begin, word, end)]), begin, end) == Some(word)
  {
    hide IsFree, Joined, Block, After, Until;
    AfterBlock(lines, begin, word, end);
    UntilEnd(word, end);
  }

  lemma DropTwice(s: string, i: nat, j: nat)
    requires i + j <= |s|
    ensures s[i + j..] == s[i..][j..]
  {
  }

  lemma NoBlank(word: string)
    requires IsWord(word)
    ensures ' ' !in word
  {
  }

  lemma Markers()
    ensures BEGIN != "" && '\n' !in BEGIN
    ensures ' ' in END && '\n' !in END
  {
    assert END[8] == ' ';
  }

  /** The block is found in any body whose earlier lines are free of the begin marker, and
      gives back the bytes that were put in. */
  lemma BlockRoundTrip(h: Host, b: Base64, lines: seq<string>, data: Bytes)
    requires IsBase64(b) && TrimsLines(h)
    requires forall i :: 0 <= i < |lines| ==> IsFree(lines[i], BEGIN)
    ensures DecodeBlock(h, b, Joined(lines + [EncodeBlock(b, data)])) == Some(data)
  {
    hide Between, IsFree, Block, Joined;
    RepaddingRestores(b.encode(data), |data|);
    Markers();
    BetweenMarkers(h, lines, BEGIN, Stripped(b.encode(data)), END);
  }
}
