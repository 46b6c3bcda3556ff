/** The append-only log kept as lines of JSON: each entry carries a digest of everything
    before it. */
module AuditLog {
  import opened Json

  /** JSON text: writing, and reading of one line. `mac` is the keyed digest. */
  datatype Codec = Codec(encode: Json -> string, parse: string -> Option<Json>, mac: Json -> string)

  const ENTRY_HMAC: Key := Other("entry_hmac")
  const ZEROS: string := "0000000000000000000000000000000000000000000000000000000000000000"

  // ---------------------------------------------------------------- lines

  /** What `str.splitlines` breaks at. */
  predicate IsBreak(c: char) {
    c in {'\n', '\r', '\U{0B}', '\U{0C}', '\U{1C}', '\U{1D}', '\U{1E}', '\U{85}', '\U{2028}', '\U{2029}'}
  }

  predicate IsUnbroken(s: string) {
    forall i :: 0 <= i < |s| ==> !IsBreak(s[i])
  }

  function FirstBreak(s: string): (i: nat)
    ensures i <= |s| && IsUnbroken(s[..i])
    ensures i < |s| ==> IsBreak(s[i])
  {
    if s == "" || IsBreak(s[0]) then 0
    else
      var i := 1 + FirstBreak(s[1..]);
      assert s[..i] == [s[0]] + s[1..][..i - 1];
      i
  }

  function SplitLines(s: string): seq<string>
    decreases |s|
  {
    if s == "" then []
    else
      var i := FirstBreak(s);
      if i == |s| then [s] else [s[..i]] + SplitLines(s[i + 1..])
  }

  function JoinLines(lines: seq<string>): string {
    if lines == [] then "" else lines[0] + "\n" + JoinLines(lines[1..])
  }

  lemma {:induction false} BreakAfter(s: string, rest: string)
    requires IsUnbroken(s) && rest != "" && IsBreak(rest[0])
    ensures FirstBreak(s + rest) == |s|
  {
    if s == "" {
      assert s + rest == rest;
    } else {
      assert (s + rest)[1..] == s[1..] + rest;
      BreakAfter(s[1..], rest);
    }
  }

  /** The first line of a text that starts with an unbroken piece and a break. */
  lemma SplitFirst(s: string, b: char, rest: string)
    requires IsUnbroken(s) && IsBreak(b)
    ensures SplitLines(s + [b] + rest) == [s] + SplitLines(rest)
  {
    var text := s + [b] + rest;
    assert text == s + ([b] + rest);
    BreakAfter(s, [b] + rest);
    assert text[..|s|] == s && text[|s| + 1..] == rest;
  }

  /** Lines without breaks survive being joined and split. */
  lemma {:induction false} SplitJoin(lines: seq<string>)
    requires forall i :: 0 <= i < |lines| ==> IsUnbroken(lines[i])
    ensures SplitLines(JoinLines(lines)) == lines
  {
    if lines != [] {
      SplitFirst(lines[0], '\n', JoinLines(lines[1..]));
      SplitJoin(lines[1..]);
    }
  }

  // ---------------------------------------------------------------- entries

  /** `entry.get("index") == n`, where Python counts true and false as one and zero. */
  predicate IsIndex(v: Json, n: int) {
    v == Num(n) || (v.Bool? && n == if v.b then 1 else 0)
  }

  function DigestOfRecord(h: Host, record: Json): string {
    "sha256:" + h.digest(record)
  }

  function HeadHash(h: Host, index: int, recordedAt: string, record: Json, prev: string): string {
    h.digest(Obj(map[Index := Num(index), RecordedAt := Str(recordedAt), Record := record,
                     RecordDigest := Str(DigestOfRecord(h, record)), PrevHead := Str(prev)]))
  }

  function TimeOf(h: Host, entry: Json): string
    requires entry.Obj?
  {
    h.strip(Text(h, entry.Get(RecordedAt)))
  }

  function WithoutHmac(entry: Json): Json
    requires entry.Obj?
  {
    Obj(entry.fields - {ENTRY_HMAC})
  }

  predicate IsEntry(h: Host, c: Codec, entry: Json, index: int, prev: string) {
    && entry.Obj?
    && IsIndex(entry.Get(Index), index)
    && entry.Get(PrevHead) == Str(prev)
    && TimeOf(h, entry) != ""
    && entry.Get(Record).Obj?
    && entry.Get(RecordDigest) == Str(DigestOfRecord(h, entry.Get(Record)))
    && entry.Get(Head) == Str(HeadHash(h, index, TimeOf(h, entry), entry.Get(Record), prev))
    && Text(h, entry.Get(ENTRY_HMAC)) == c.mac(WithoutHmac(entry))
  }

  /** The head after the entries. */
  function HeadOf(entries: seq<Json>): string {
    if entries == [] then ZEROS
    else
      var last := entries[|entries| - 1];
      if last.Obj? && last.Get(Head).Str? then last.Get(Head).s else ""
  }

  predicate IsEntryAt(h: Host, c: Codec, entries: seq<Json>, i: nat)
    requires i < |entries|
  {
    IsEntry(h, c, entries[i], i, HeadOf(entries[..i]))
  }

  predicate IsChain(h: Host, c: Codec, entries: seq<Json>) {
    forall i :: 0 <= i < |entries| ==> IsEntryAt(h, c, entries, i)
  }

  function BuildEntry(h: Host, c: Codec, index: int, record: Json, recordedAt: string, prev: string): Json {
    var body := map[Index := Num(index), RecordedAt := Str(recordedAt), Record := record,
                    RecordDigest := Str(DigestOfRecord(h, record)), PrevHead := Str(prev),
                    Head := Str(HeadHash(h, index, recordedAt, record, prev))];
    Obj(body[ENTRY_HMAC := Str(c.mac(Obj(body)))])
  }

  lemma BuiltIsEntry(h: Host, c: Codec, index: int, record: Json, recordedAt: string, prev: string)
    requires record.Obj? && recordedAt != "" && h.strip(recordedAt) == recordedAt
    ensures IsEntry(h, c, BuildEntry(h, c, index, record, recordedAt, prev), index, prev)
  {
    var e := BuildEntry(h, c, index, record, recordedAt, prev);
    assert WithoutHmac(e) == Obj(e.fields - {ENTRY_HMAC});
    var body := map[Index := Num(index), RecordedAt := Str(recordedAt), Record := record,
                    RecordDigest := Str(DigestOfRecord(h, record)), PrevHead := Str(prev),
                    Head := Str(HeadHash(h, index, recordedAt, record, prev))];
    assert e.fields - {ENTRY_HMAC} == body;
  }

  lemma ChainAppend(h: Host, c: Codec, entries: seq<Json>, e: Json)
    requires IsChain(h, c, entries)
    ensures IsChain(h, c, entries + [e]) <==> IsEntry(h, c, e, |entries|, HeadOf(entries))
  {
    var all := entries + [e];
    forall i | 0 <= i < |entries|
      ensures IsEntryAt(h, c, all, i) <==> IsEntryAt(h, c, entries, i)
    {
      assert all[..i] == entries[..i];
    }
    assert all[..|entries|] == entries;
    assert IsEntryAt(h, c, all, |entries|) <==> IsEntry(h, c, e, |entries|, HeadOf(entries));
  }

  // ---------------------------------------------------------------- loading

  /** The loading loop, from the entries read so far. */
  function Load(h: Host, c: Codec, lines: seq<string>, sofar: seq<Json>): Option<seq<Json>> {
    if lines == [] then Some(sofar)
    else if h.strip(lines[0]) == "" then Load(h, c, lines[1..], sofar)
    else
      var parsed := c.parse(lines[0]);
      if parsed.None? || !IsEntry(h, c, parsed.value, |sofar|, HeadOf(sofar)) then None
      else Load(h, c, lines[1..], sofar + [parsed.value])
  }

  function LoadText(h: Host, c: Codec, text: string): Option<seq<Json>> {
    Load(h, c, SplitLines(text), [])
  }

  /** What loads is a chain. */
  lemma {:induction false} LoadsChain(h: Host, c: Codec, lines: seq<string>, sofar: seq<Json>)
    requires IsChain(h, c, sofar)
    ensures Load(h, c, lines, sofar).Some? ==> IsChain(h, c, Load(h, c, lines, sofar).value)
  {
    if lines != [] {
      if h.strip(lines[0]) == "" {
        LoadsChain(h, c, lines[1..], sofar);
      } else {
        var parsed := c.parse(lines[0]);
        if parsed.Some? && IsEntry(h, c, parsed.value, |sofar|, HeadOf(sofar)) {
          ChainAppend(h, c, sofar, parsed.value);
          LoadsChain(h, c, lines[1..], sofar + [parsed.value]);
        }
      }
    }
  }

  // ---------------------------------------------------------------- the head fixes the history

  predicate IsSameEntry(h: Host, a: Json, b: Json)
    requires a.Obj? && b.Obj?
  {
    && TimeOf(h, a) == TimeOf(h, b) && a.Get(Record) == b.Get(Record)
    && a.Get(PrevHead) == b.Get(PrevHead) && a.Get(Head) == b.Get(Head)
  }

  lemma HeadHashInjective(h: Host, i: int, t: string, r: Json, p: string, j: int, u: string, s: Json, q: string)
    requires CollisionFree(h.digest) && HeadHash(h, i, t, r, p) == HeadHash(h, j, u, s, q)
    ensures i == j && t == u && r == s && p == q
  {
    var m := map[Index := Num(i), RecordedAt := Str(t), Record := r,
                 RecordDigest := Str(DigestOfRecord(h, r)), PrevHead := Str(p)];
    var n := map[Index := Num(j), RecordedAt := Str(u), Record := s,
                 RecordDigest := Str(DigestOfRecord(h, s)), PrevHead := Str(q)];
    assert Obj(m) == Obj(n);
    assert m[Index] == n[Index] && m[RecordedAt] == n[RecordedAt] && m[Record] == n[Record]
        && m[PrevHead] == n[PrevHead];
  }

  /** Equal heads have equal last entries, and come after equal heads. */
  lemma LastEntriesAgree(h: Host, c: Codec, k: Codec, a: seq<Json>, b: seq<Json>)
    requires CollisionFree(h.digest) && a != [] && b != []
    requires IsEntryAt(h, c, a, |a| - 1) && IsEntryAt(h, k, b, |b| - 1) && HeadOf(a) == HeadOf(b)
    ensures |a| == |b| && HeadOf(a[..|a| - 1]) == HeadOf(b[..|b| - 1])
    ensures a[|a| - 1].Obj? && b[|b| - 1].Obj? && IsSameEntry(h, a[|a| - 1], b[|b| - 1])
  {
    hide CollisionFree, HeadHash;
    var m, n := |a| - 1, |b| - 1;
    HeadHashInjective(h, m, TimeOf(h, a[m]), a[m].Get(Record), HeadOf(a[..m]),
                      n, TimeOf(h, b[n]), b[n].Get(Record), HeadOf(b[..n]));
  }

  /** Two non-empty chains with the same head have the same length and, position by
      position, the same time and record: a checkpoint determines the whole log. */
  lemma {:induction false} HeadFixesHistory(h: Host, c: Codec, k: Codec, a: seq<Json>, b: seq<Json>)
    requires CollisionFree(h.digest) && IsChain(h, c, a) && IsChain(h, k, b)
    requires a != [] && b != [] && HeadOf(a) == HeadOf(b)
    ensures |a| == |b|
    ensures forall i :: 0 <= i < |a| ==> a[i].Obj? && b[i].Obj? && IsSameEntry(h, a[i], b[i])
    decreases |a|
  {
    hide CollisionFree, IsEntry, HeadOf, IsSameEntry;
    var m, n := |a| - 1, |b| - 1;
    assert IsEntryAt(h, c, a, m) && IsEntryAt(h, k, b, n);
    LastEntriesAgree(h, c, k, a, b);
    if m > 0 {
      ChainPrefix(h, c, a, m);
      ChainPrefix(h, k, b, n);
      HeadFixesHistory(h, c, k, a[..m], b[..n]);
    }
    forall i | 0 <= i < |a|
      ensures a[i].Obj? && b[i].Obj? && IsSameEntry(h, a[i], b[i])
    {
      if i < m {
        assert a[i] == a[..m][i] && b[i] == b[..n][i];
      }
    }
  }

  lemma ChainPrefix(h: Host, c: Codec, entries: seq<Json>, n: nat)
    requires IsChain(h, c, entries) && n <= |entries|
    ensures IsChain(h, c, entries[..n])
  {
    forall i | 0 <= i < n
      ensures IsEntryAt(h, c, entries[..n], i)
    {
      assert entries[..n][..i] == entries[..i] && IsEntryAt(h, c, entries, i);
    }
  }

  // ---------------------------------------------------------------- append

  /** Written JSON reads back as itself; an object's text does not start with a blank
      piece, and no proper part of it from the start reads as JSON. */
  ghost predicate IsCodec(h: Host, c: Codec) {
    && (forall v: Json :: c.parse(c.encode(v)) == Some(v))
    && (forall v: Json, n: nat :: v.Obj? && 0 < n <= |c.encode(v)| ==> h.strip(c.encode(v)[..n]) != "")
    && (forall v: Json, n: nat :: v.Obj? && n < |c.encode(v)| ==> c.parse(c.encode(v)[..n]) == None)
    && (forall v: Json :: v.Obj? ==> c.encode(v) != "" && !IsBreak(c.encode(v)[0]))
  }

  function Encoded(c: Codec, entries: seq<Json>): (r: seq<string>)
    ensures |r| == |entries|
  {
    seq(|entries|, i requires 0 <= i < |entries| => c.encode(entries[i]))
  }

  predicate IsClean(c: Codec, entries: seq<Json>) {
    forall i :: 0 <= i < |entries| ==> IsUnbroken(c.encode(entries[i]))
  }

  /** Encoded entries, line by line, load as themselves. */
  lemma {:induction false} EncodedLoads(h: Host, c: Codec, entries: seq<Json>, n: nat)
    requires IsCodec(h, c) && IsChain(h, c, entries) && n <= |entries|
    ensures Load(h, c, Encoded(c, entries)[n..], entries[..n]) == Some(entries)
    decreases |entries| - n
  {
    hide IsEntry, IsCodec;
    if n < |entries| {
      var lines := Encoded(c, entries)[n..];
      assert IsEntryAt(h, c, entries, n);
      EntryIsObject(h, c, entries, n);
      EncodedReads(h, c, entries[n]);
      assert lines[0] == c.encode(entries[n]);
      assert entries[..n] + [entries[n]] == entries[..n + 1];
      assert lines[1..] == Encoded(c, entries)[n + 1..];
      EncodedLoads(h, c, entries, n + 1);
    } else {
      assert entries[..n] == entries;
    }
  }

  /** A broken entry after unbroken ones stops the load. */
  lemma {:induction false} BrokenStops(h: Host, c: Codec, entries: seq<Json>, n: nat)
    requires IsCodec(h, c) && IsChain(h, c, entries) && n <= |entries|
    requires !IsClean(c, entries[n..])
    ensures Load(h, c, SplitLines(JoinLines(Encoded(c, entries)[n..])), entries[..n]) == None
    decreases |entries| - n
  {
    hide IsEntry, IsUnbroken, SplitLines, IsCodec;
    var lines := Encoded(c, entries)[n..];
    var text := c.encode(entries[n]);
    assert lines[0] == text && lines[1..] == Encoded(c, entries)[n + 1..];
    assert IsEntryAt(h, c, entries, n);
    EntryIsObject(h, c, entries, n);
    if IsUnbroken(text) {
      SplitFirst(text, '\n', JoinLines(lines[1..]));
      EncodedReads(h, c, entries[n]);
      assert entries[..n] + [entries[n]] == entries[..n + 1];
      CleanTail(c, entries, n);
      BrokenStops(h, c, entries, n + 1);
    } else {
      BrokenLineStops(h, c, entries[n], JoinLines(lines[1..]), entries[..n]);
    }
  }

  lemma EntryIsObject(h: Host, c: Codec, entries: seq<Json>, i: nat)
    requires i < |entries| && IsEntryAt(h, c, entries, i)
    ensures entries[i].Obj?
  {
  }

  lemma EncodedReads(h: Host, c: Codec, v: Json)
    requires IsCodec(h, c) && v.Obj?
    ensures c.parse(c.encode(v)) == Some(v) && h.strip(c.encode(v)) != ""
  {
    var text := c.encode(v);
    assert text[..|text|] == text;
  }

  /** The first piece of a broken text is neither blank nor JSON. */
  lemma BrokenLineStops(h: Host, c: Codec, v: Json, after: string, sofar: seq<Json>)
    requires IsCodec(h, c) && v.Obj? && !IsUnbroken(c.encode(v))
    ensures Load(h, c, SplitLines(c.encode(v) + "\n" + after), sofar) == None
  {
    hide IsEntry, SplitLines;
    var text := c.encode(v);
    var i := FirstBreak(text);
    BreaksInside(text);
    var rest := text[i + 1..] + "\n" + after;
    assert text + "\n" + after == text[..i] + [text[i]] + rest;
    SplitFirst(text[..i], text[i], rest);
    assert i > 0;
    assert h.strip(text[..i]) != "" && c.parse(text[..i]) == None;
  }

  lemma BreaksInside(text: string)
    requires !IsUnbroken(text)
    ensures FirstBreak(text) < |text|
  {
    assert text[..|text|] == text;
  }

  lemma CleanTail(c: Codec, entries: seq<Json>, n: nat)
    requires n < |entries| && IsUnbroken(c.encode(entries[n])) && !IsClean(c, entries[n..])
    ensures !IsClean(c, entries[n + 1..])
  {
    var i :| 0 <= i < |entries[n..]| && !IsUnbroken(c.encode(entries[n..][i]));
    assert entries[n..][i] == entries[n + 1..][i - 1];
  }

  /** The file that `append` writes loads again, as the entries written, exactly when the
      text of no entry holds a character that `splitlines` breaks at. */
  lemma WrittenLoads(h: Host, c: Codec, entries: seq<Json>)
    requires IsCodec(h, c) && IsChain(h, c, entries)
    ensures LoadText(h, c, JoinLines(Encoded(c, entries))) == if IsClean(c, entries) then Some(entries) else None
  {
    assert Encoded(c, entries)[0..] == Encoded(c, entries) && entries[0..] == entries && entries[..0] == [];
    if IsClean(c, entries) {
      SplitJoin(Encoded(c, entries));
      EncodedLoads(h, c, entries, 0);
    } else {
      BrokenStops(h, c, entries, 0);
    }
  }

  // ---------------------------------------------------------------- the log object

  /** The first loop of the class, over the lines of the file. */
  method LoadEntries(h: Host, c: Codec, text: string) returns (entries: Option<seq<Json>>)
    ensures entries == LoadText(h, c, text)
    ensures entries.Some? ==> IsChain(h, c, entries.value)
  {
    hide IsEntry;
    var lines := SplitLines(text);
    LoadsChain(h, c, lines, []);
    var read: seq<Json> := [];
    for k := 0 to |lines|
      invariant LoadText(h, c, text) == Load(h, c, lines[k..], read)
    {
      assert lines[k..][0] == lines[k] && lines[k..][1..] == lines[k + 1..];
      if h.strip(lines[k]) != "" {
        var parsed := c.parse(lines[k]);
        if parsed.None? || !IsEntry(h, c, parsed.value, |read|, HeadOf(read)) {
          return None;
        }
        read := read + [parsed.value];
      }
    }
    return Some(read);
  }

  class JsonlAuditLog {
    const host: Host
    const codec: Codec
    /** The text of the file, if there is one. */
    var content: Option<string>

    ghost function Stored(): Option<seq<Json>>
      reads this
    {
      if content.None? then Some([]) else LoadText(host, codec, content.value)
    }

    constructor (host: Host, codec: Codec, content: Option<string>)
      ensures this.host == host && this.codec == codec && this.content == content
    {
      this.host, this.codec, this.content := host, codec, content;
    }

    method Entries() returns (entries: Option<seq<Json>>)
      ensures entries == Stored()
      ensures entries.Some? ==> IsChain(host, codec, entries.value)
    {
      if content.None? {
        return Some([]);
      }
      entries := LoadEntries(host, codec, content.value);
    }

    /** `None`: the log does not verify. */
    method Verify() returns (checkpoint: Option<(nat, string)>)
      ensures checkpoint.None? <==> Stored().None?
      ensures checkpoint.Some? ==> checkpoint.value == (|Stored().value|, HeadOf(Stored().value))
    {
      var entries := Entries();
      return if entries.None? then None else Some((|entries.value|, HeadOf(entries.value)));
    }

    method VerifyCheckpoint(count: int, head: string) returns (ok: bool)
      ensures ok <==> Stored().Some? && |Stored().value| == count && HeadOf(Stored().value) == host.lower(head)
    {
      var checkpoint := Verify();
      return checkpoint.Some? && checkpoint.value == (count, host.lower(head));
    }

    /** Adds one entry to a log that verifies, or leaves the file as it is. Afterwards the
        log verifies, as the old entries and the new one, exactly when none of their texts
        holds a line break of `splitlines`. */
    method Append(record: Json, recordedAt: string) returns (entry: Option<Json>)
      requires record.Obj? && host.strip(host.strip(recordedAt)) == host.strip(recordedAt)
      requires IsCodec(host, codec)
      modifies this
      ensures entry.Some? <==> host.strip(recordedAt) != "" && old(Stored()).Some?
      ensures entry.None? ==> content == old(content)
      ensures entry.Some? ==>
        var before := old(Stored()).value;
        && entry.value == BuildEntry(host, codec, |before|, record, host.strip(recordedAt), HeadOf(before))
        && Stored() == if IsClean(codec, before + [entry.value]) then Some(before + [entry.value]) else None
    {
      hide IsEntry, BuildEntry, LoadText, IsCodec;
      var time := host.strip(recordedAt);
      if time == "" {
        return None;
      }
      var entries := Entries();
      if entries.None? {
        return None;
      }
      var prev := HeadOf(entries.value);
      var built := BuildEntry(host, codec, |entries.value|, record, time, prev);
      BuiltIsEntry(host, codec, |entries.value|, record, time, prev);
      ChainAppend(host, codec, entries.value, built);
      WrittenLoads(host, codec, entries.value + [built]);
      content := Some(JoinLines(Encoded(codec, entries.value + [built])));
      return Some(built);
    }
  }
}
