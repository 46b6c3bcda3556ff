/** The audit chain kept as one file an entry. Its order is the sorted order of the file
    names, and an entry is signed once a secret is there. */
module AuditFiles {
  import opened Json
  import opened TextOrder

  /** `toInt`: Python's `int()` of a text. `mac`: HMAC of a document under a secret. */
  datatype Tools = Tools(toInt: string -> Option<int>, mac: (string, Json) -> string)

  const ZERO_HASH: string := "0000000000000000000000000000000000000000000000000000000000000000"

  type Folder = map<string, Json>

  // ---------------------------------------------------------------- names and their order

  function Digit(n: nat): char
    requires n < 10
  {
    '0' + n as char
  }

  /** `f"{n:0{width}d}"` */
  function Padded(n: nat, width: nat): string
    decreases n + width
  {
    if n < 10 && width <= 1 then [Digit(n)]
    else Padded(n / 10, if width > 0 then width - 1 else 0) + [Digit(n % 10)]
  }

  function Power10(w: nat): nat {
    if w == 0 then 1 else 10 * Power10(w - 1)
  }

  lemma {:induction false} PaddedLength(n: nat, w: nat)
    requires w >= 1 && n < Power10(w)
    ensures |Padded(n, w)| == w
  {
    if w > 1 {
      PaddedLength(n / 10, w - 1);
    }
  }

  /** Within the width, the order of the texts is the order of the numbers. */
  lemma {:induction false} PaddedOrder(a: nat, b: nat, w: nat)
    requires w >= 1 && a < b < Power10(w)
    ensures Less(Padded(a, w), Padded(b, w))
  {
    if w > 1 {
      PaddedLength(a / 10, w - 1);
      PaddedLength(b / 10, w - 1);
      if a / 10 < b / 10 {
        PaddedOrder(a / 10, b / 10, w - 1);
        LessExtended(Padded(a / 10, w - 1), Padded(b / 10, w - 1), [Digit(a % 10)], [Digit(b % 10)]);
      } else {
        assert a / 10 == b / 10 && a % 10 < b % 10;
        LessBehind(Padded(a / 10, w - 1), [Digit(a % 10)], [Digit(b % 10)]);
      }
    }
  }

  function NameOf(sequence: nat): string {
    Padded(sequence, 10) + ".json"
  }

  const LAST_SEQUENCE: nat := 9_999_999_999

  lemma NameOrder(a: nat, b: nat)
    requires a < b <= LAST_SEQUENCE
    ensures Less(NameOf(a), NameOf(b))
  {
    assert Power10(10) == 10_000_000_000;
    PaddedLength(a, 10);
    PaddedLength(b, 10);
    PaddedOrder(a, b, 10);
    LessExtended(Padded(a, 10), Padded(b, 10), ".json", ".json");
  }

  lemma {:induction false} PowerPadded(k: nat)
    ensures Padded(Power10(k), k) == Padded(Power10(k), k + 1)
  {
    if k > 0 {
      PowerPadded(k - 1);
      assert Power10(k) / 10 == Power10(k - 1) && Power10(k) % 10 == 0;
    }
  }

  /** The first name past the width sorts before names of much smaller numbers. */
  lemma FirstLongName()
    ensures Less(NameOf(LAST_SEQUENCE + 1), NameOf(1_000_000_001))
  {
    var p := Padded(100_000_000, 8);
    assert Power10(8) == 100_000_000;
    PowerPadded(8);
    assert Padded(10_000_000_000, 10) == Padded(1_000_000_000, 9) + "0";
    assert Padded(1_000_000_000, 9) == p + "0";
    assert Padded(1_000_000_001, 10) == p + "1";
    assert NameOf(LAST_SEQUENCE + 1) == p + "00.json" && NameOf(1_000_000_001) == p + "1.json";
    LessBehind(p, "00.json", "1.json");
  }

  // ---------------------------------------------------------------- verification

  /** `sorted(...)`: every file once, in the order of the names. */
  ghost predicate IsSorted(files: Folder, order: seq<string>) {
    && (forall i, j :: 0 <= i < j < |order| ==> Less(order[i], order[j]))
    && (forall i :: 0 <= i < |order| ==> order[i] in files)
    && (forall name :: name in files ==> exists i :: 0 <= i < |order| && order[i] == name)
  }

  function Base(record: Json): Json
    requires record.Obj?
  {
    Obj(map[SchemaName := record.Get(SchemaName), Other("seq") := record.Get(Other("seq")),
            Other("created_at") := record.Get(Other("created_at")),
            Other("event_type") := record.Get(Other("event_type")),
            Other("status") := record.Get(Other("status")), Other("payload") := record.Get(Other("payload")),
            Other("prev_record_sha256") := record.Get(Other("prev_record_sha256"))])
  }

  /** `int(value or 0)`, or nothing where it raises. */
  function SequenceOf(t: Tools, v: Json): Option<int> {
    if v.Falsy() then Some(0)
    else match v
      case Num(n) => Some(n)
      case Bool(b) => Some(1)
      case Str(s) => t.toInt(s)
      case _ => None
  }

  function ModeOf(h: Host, record: Json): string
    requires record.Obj?
  {
    var mode := record.Get(Other("signature_mode"));
    if mode.Falsy() then "none" else Text(h, mode)
  }

  function Envelope(h: Host, record: Json): Json
    requires record.Obj?
  {
    Obj(Base(record).fields[Other("record_sha256") := record.Get(Other("record_sha256"))]
                           [Other("signature_mode") := Str(ModeOf(h, record))])
  }

  predicate IsSigned(h: Host, t: Tools, secret: Option<string>, record: Json)
    requires record.Obj?
  {
    var hmac := record.Get(Other("hmac_sha256"));
    || (ModeOf(h, record) == "hmac" && secret.Some? && hmac == Str(t.mac(secret.value, Envelope(h, record))))
    || (ModeOf(h, record) == "none" && Text(h, hmac) == "")
  }

  predicate IsRecord(h: Host, t: Tools, secret: Option<string>, record: Json, sequence: nat, previous: string) {
    && record.Obj?
    && SequenceOf(t, record.Get(Other("seq"))) == Some(sequence)
    && record.Get(Other("prev_record_sha256")) == Str(previous)
    && record.Get(Other("record_sha256")) == Str(h.digest(Base(record)))
    && IsSigned(h, t, secret, record)
  }

  function HashOf(h: Host, record: Json): string {
    if record.Obj? then h.digest(Base(record)) else ""
  }

  /** The hash the entry at position `i` must continue from. */
  function HashBefore(h: Host, files: Folder, order: seq<string>, i: nat): string
    requires i <= |order|
  {
    if i == 0 || order[i - 1] !in files then ZERO_HASH else HashOf(h, files[order[i - 1]])
  }

  predicate IsRecordAt(h: Host, t: Tools, secret: Option<string>, files: Folder, order: seq<string>, i: nat)
    requires i < |order|
  {
    order[i] in files && IsRecord(h, t, secret, files[order[i]], i + 1, HashBefore(h, files, order, i))
  }

  predicate IsValid(h: Host, t: Tools, secret: Option<string>, files: Folder, order: seq<string>) {
    forall i :: 0 <= i < |order| ==> IsRecordAt(h, t, secret, files, order, i)
  }

  // ---------------------------------------------------------------- append

  datatype NewRecord = NewRecord(createdAt: string, eventType: string, status: string, payload: Json)

  function NewBase(n: NewRecord, sequence: nat, previous: string): Json {
    Obj(map[SchemaName := Str("PluginAuditRecord/v1"), Other("seq") := Num(sequence),
            Other("created_at") := Str(n.createdAt), Other("event_type") := Str(n.eventType),
            Other("status") := Str(n.status), Other("payload") := n.payload,
            Other("prev_record_sha256") := Str(previous)])
  }

  function NewEnvelope(h: Host, t: Tools, secret: Option<string>, n: NewRecord, sequence: nat, previous: string): Json {
    var base := NewBase(n, sequence, previous);
    var mode := if secret.Some? then "hmac" else "none";
    var unsigned :=
      Obj(base.fields[Other("record_sha256") := Str(h.digest(base))][Other("signature_mode") := Str(mode)]);
    Obj(unsigned.fields[Other("hmac_sha256") := Str(if secret.Some? then t.mac(secret.value, unsigned) else "")])
  }

  lemma NewIsRecord(h: Host, t: Tools, secret: Option<string>, n: NewRecord, sequence: nat, previous: string)
    requires sequence > 0
    ensures IsRecord(h, t, secret, NewEnvelope(h, t, secret, n, sequence, previous), sequence, previous)
    ensures HashOf(h, NewEnvelope(h, t, secret, n, sequence, previous)) == h.digest(NewBase(n, sequence, previous))
  {
    var e := NewEnvelope(h, t, secret, n, sequence, previous);
    var base := NewBase(n, sequence, previous);
    assert Base(e) == base;
    var mode := if secret.Some? then "hmac" else "none";
    assert e.Get(Other("signature_mode")) == Str(mode) && ModeOf(h, e) == mode;
    assert Envelope(h, e)
        == Obj(base.fields[Other("record_sha256") := Str(h.digest(base))][Other("signature_mode") := Str(mode)]);
  }

  /** The new name comes after every name there. */
  ghost predicate SortsLast(files: Folder, name: string) {
    forall other :: other in files ==> Less(other, name)
  }

  lemma SortedWith(files: Folder, order: seq<string>, name: string, record: Json)
    requires IsSorted(files, order) && SortsLast(files, name)
    ensures IsSorted(files[name := record], order + [name])
  {
    LessTotal(name, name);
    var all, more := order + [name], files[name := record];
    forall other | other in more
      ensures exists i :: 0 <= i < |all| && all[i] == other
    {
      if other == name {
        assert all[|order|] == name;
      } else {
        var i :| 0 <= i < |order| && order[i] == other;
        assert all[i] == other;
      }
    }
  }

  /** The appended record as it is read: in the last place when its name sorts last. */
  lemma AppendedLast(h: Host, t: Tools, secret: Option<string>, files: Folder, order: seq<string>, name: string,
                     n: NewRecord)
    requires IsSorted(files, order) && SortsLast(files, name) && IsValid(h, t, secret, files, order)
    ensures var record := NewEnvelope(h, t, secret, n, |order| + 1, HashBefore(h, files, order, |order|));
      IsValid(h, t, secret, files[name := record], order + [name])
  {
    hide IsRecord, NewEnvelope;
    var previous := HashBefore(h, files, order, |order|);
    var record := NewEnvelope(h, t, secret, n, |order| + 1, previous);
    LessTotal(name, name);
    NewIsRecord(h, t, secret, n, |order| + 1, previous);
    var all, more := order + [name], files[name := record];
    forall i | 0 <= i < |all|
      ensures IsRecordAt(h, t, secret, more, all, i)
    {
      assert i > 0 ==> all[i - 1] == order[i - 1] && order[i - 1] in files;
      assert HashBefore(h, more, all, i) == HashBefore(h, files, order, i);
      if i < |order| {
        assert IsRecordAt(h, t, secret, files, order, i);
      }
    }
  }

  lemma {:induction false} DistinctCount(order: seq<string>)
    requires forall i, j :: 0 <= i < j < |order| ==> Less(order[i], order[j])
    ensures |set i | 0 <= i < |order| :: order[i]| == |order|
  {
    if order != [] {
      var n := |order| - 1;
      var init := order[..n];
      DistinctCount(init);
      assert (set i | 0 <= i < |order| :: order[i]) == (set i | 0 <= i < |init| :: init[i]) + {order[n]} by {
        assert forall i :: 0 <= i < n ==> init[i] == order[i];
      }
      forall i | 0 <= i < n
        ensures init[i] != order[n]
      {
        LessTotal(order[i], order[n]);
      }
    }
  }

  lemma SortedCount(files: Folder, order: seq<string>)
    requires IsSorted(files, order)
    ensures |order| == |files.Keys|
  {
    DistinctCount(order);
    assert files.Keys == set i | 0 <= i < |order| :: order[i];
  }

  lemma PositionOf(files: Folder, order: seq<string>, name: string) returns (p: nat)
    requires IsSorted(files, order) && name in files
    ensures p < |order| && order[p] == name
  {
    var i :| 0 <= i < |order| && order[i] == name;
    p := i;
  }

  /** Whatever stands last sorts after the rest. */
  lemma LastSortsLast(files: Folder, order: seq<string>, other: string)
    requires IsSorted(files, order) && order != [] && other in files && other != order[|order| - 1]
    ensures Less(other, order[|order| - 1])
  {
    var q := PositionOf(files, order, other);
  }

  /** A record with the next number can only stand in the last place. */
  lemma NextStandsLast(h: Host, t: Tools, secret: Option<string>, files: Folder, order: seq<string>, name: string,
                       record: Json, after: seq<string>)
    requires IsSorted(files, order) && IsSorted(files[name := record], after)
    requires record.Obj? && SequenceOf(t, record.Get(Other("seq"))) == Some(|order| + 1)
    requires IsValid(h, t, secret, files[name := record], after)
    ensures SortsLast(files, name)
  {
    hide IsRecord, HashBefore, IsSorted, SequenceOf;
    var more := files[name := record];
    CountAfter(files, order, name, record, after);
    var p := PositionOf(more, after, name);
    assert IsRecordAt(h, t, secret, more, after, p);
    RecordIsNext(h, t, secret, record, p + 1, HashBefore(h, more, after, p));
    assert p == |order| == |after| - 1 && name !in files;
    forall other | other in files
      ensures Less(other, name)
    {
      LastSortsLast(more, after, other);
    }
  }

  lemma CountAfter(files: Folder, order: seq<string>, name: string, record: Json, after: seq<string>)
    requires IsSorted(files, order) && IsSorted(files[name := record], after)
    ensures |after| == |order| + if name in files then 0 else 1
  {
    hide IsSorted;
    var more := files[name := record];
    SortedCount(files, order);
    SortedCount(more, after);
    assert more.Keys == files.Keys + {name};
  }

  /** From a chain that verifies, `append` gives a chain that verifies, with one entry more
      and the new hash at the head, exactly when the new name sorts after all the others. */
  lemma AppendValidIff(h: Host, t: Tools, secret: Option<string>, files: Folder, order: seq<string>, n: NewRecord,
                       after: seq<string>)
    requires IsSorted(files, order) && IsValid(h, t, secret, files, order)
    requires IsSorted(Appended(h, t, secret, files, order, n), after)
    ensures IsValid(h, t, secret, Appended(h, t, secret, files, order, n), after)
       <==> SortsLast(files, NameOf(|order| + 1))
    ensures SortsLast(files, NameOf(|order| + 1)) ==>
      && after == order + [NameOf(|order| + 1)]
      && HashBefore(h, Appended(h, t, secret, files, order, n), after, |after|)
           == h.digest(NewBase(n, |order| + 1, HashBefore(h, files, order, |order|)))
  {
    hide IsRecord, NewEnvelope, IsSorted, NameOf;
    var name, previous := NameOf(|order| + 1), HashBefore(h, files, order, |order|);
    var record := NewEnvelope(h, t, secret, n, |order| + 1, previous);
    NewIsRecord(h, t, secret, n, |order| + 1, previous);
    if SortsLast(files, name) {
      SortedWith(files, order, name, record);
      SortedSame(files[name := record], order + [name], after);
      AppendedLast(h, t, secret, files, order, name, n);
    } else if IsValid(h, t, secret, files[name := record], after) {
      RecordIsNext(h, t, secret, record, |order| + 1, previous);
      NextStandsLast(h, t, secret, files, order, name, record, after);
    }
  }

  lemma RecordIsNext(h: Host, t: Tools, secret: Option<string>, record: Json, sequence: nat, previous: string)
    requires IsRecord(h, t, secret, record, sequence, previous)
    ensures record.Obj? && SequenceOf(t, record.Get(Other("seq"))) == Some(sequence)
  {
  }

  /** The folder after `append`. */
  function Appended(h: Host, t: Tools, secret: Option<string>, files: Folder, order: seq<string>,
                    n: NewRecord): Folder {
    files[NameOf(|order| + 1) := NewEnvelope(h, t, secret, n, |order| + 1, HashBefore(h, files, order, |order|))]
  }

  lemma SortedSame(files: Folder, a: seq<string>, b: seq<string>)
    requires IsSorted(files, a) && IsSorted(files, b)
    ensures a == b
  {
    SortedCount(files, a);
    SortedCount(files, b);
    forall i | 0 <= i < |a|
      ensures a[i] == b[i]
    {
      SortedUnique(files, a, b, i);
    }
  }

  /** Two sorted lists of the same folder are the same list. */
  lemma {:induction false} SortedUnique(files: Folder, a: seq<string>, b: seq<string>, i: nat)
    requires IsSorted(files, a) && IsSorted(files, b) && i < |a|
    ensures i < |b| && a[i] == b[i]
    decreases i
  {
    forall k | 0 <= k < i
      ensures k < |b| && a[k] == b[k]
    {
      SortedUnique(files, a, b, k);
    }
    var j :| 0 <= j < |b| && b[j] == a[i];
    if j < i {
      assert a[j] == b[j] && Less(a[j], a[i]);
      LessTotal(a[i], a[i]);
    } else if j > i {
      var m :| 0 <= m < |a| && a[m] == b[i];
      if m < i {
        assert b[m] == a[m] && Less(b[m], b[i]);
        LessTotal(b[i], b[i]);
      } else if m > i {
        assert Less(a[i], a[m]) && Less(b[i], b[j]);
        LessTotal(a[i], b[i]);
      }
    }
  }

  // ---------------------------------------------------------------- folders written by append alone

  /** The names are those of the numbers one to `n`. */
  ghost predicate IsOwn(files: Folder, n: nat) {
    && (forall i :: 1 <= i <= n ==> NameOf(i) in files)
    && (forall name :: name in files ==> exists i :: 1 <= i <= n && name == NameOf(i))
  }

  /** In such a folder the next name sorts last up to ten digits, and then no longer. */
  lemma OwnNextLast(files: Folder, n: nat)
    requires IsOwn(files, n) && n <= LAST_SEQUENCE
    ensures SortsLast(files, NameOf(n + 1)) <==> n < LAST_SEQUENCE
  {
    hide NameOf;
    if n < LAST_SEQUENCE {
      forall other | other in files
        ensures Less(other, NameOf(n + 1))
      {
        var i :| 1 <= i <= n && other == NameOf(i);
        NameOrder(i, n + 1);
      }
    } else {
      FirstLongName();
      LessTotal(NameOf(LAST_SEQUENCE + 1), NameOf(1_000_000_001));
      assert NameOf(1_000_000_001) in files;
    }
  }

  /** So a chain that `append` alone has written grows by one verified entry exactly while
      its number fits in ten digits. */
  lemma OwnAppend(h: Host, t: Tools, secret: Option<string>, files: Folder, order: seq<string>, n: NewRecord,
                  after: seq<string>)
    requires IsSorted(files, order) && IsValid(h, t, secret, files, order)
    requires IsOwn(files, |order|) && |order| <= LAST_SEQUENCE
    requires IsSorted(Appended(h, t, secret, files, order, n), after)
    ensures IsValid(h, t, secret, Appended(h, t, secret, files, order, n), after) <==> |order| + 1 <= LAST_SEQUENCE
    ensures |order| + 1 <= LAST_SEQUENCE ==>
      |after| == |order| + 1 && IsOwn(Appended(h, t, secret, files, order, n), |after|)
  {
    hide NameOf, IsSorted, IsValid, NewEnvelope;
    OwnNextLast(files, |order|);
    AppendValidIff(h, t, secret, files, order, n, after);
    var more := Appended(h, t, secret, files, order, n);
    forall name | name in more
      ensures exists i :: 1 <= i <= |order| + 1 && name == NameOf(i)
    {
      if name in files {
        var i :| 1 <= i <= |order| && name == NameOf(i);
      } else {
        assert name == NameOf(|order| + 1);
      }
    }
  }

  // ---------------------------------------------------------------- the secret and the head

  /** Verification without a secret is verification with any, of a chain that is unsigned
      throughout: a secret may be introduced, and then the chain continues signed. */
  lemma SecretIntroduced(h: Host, t: Tools, files: Folder, order: seq<string>, secret: string)
    ensures IsValid(h, t, None, files, order) <==>
      && IsValid(h, t, Some(secret), files, order)
      && forall i :: 0 <= i < |order| ==>
           order[i] in files && files[order[i]].Obj? && ModeOf(h, files[order[i]]) == "none"
  {
    hide HashBefore;
    if IsValid(h, t, None, files, order) {
      forall i | 0 <= i < |order|
        ensures IsRecordAt(h, t, Some(secret), files, order, i) && ModeOf(h, files[order[i]]) == "none"
      {
        assert IsRecordAt(h, t, None, files, order, i);
      }
    } else if IsValid(h, t, Some(secret), files, order)
              && forall i :: 0 <= i < |order| ==>
                   order[i] in files && files[order[i]].Obj? && ModeOf(h, files[order[i]]) == "none" {
      forall i | 0 <= i < |order|
        ensures IsRecordAt(h, t, None, files, order, i)
      {
        assert IsRecordAt(h, t, Some(secret), files, order, i);
      }
    }
  }

  /** Chains with the same hash after `n` records hold the same first `n` records, position by
      position, up to their signatures. */
  lemma {:induction false} SameUpTo(h: Host, t: Tools, s: Option<string>, u: Option<string>,
                                    a: Folder, x: seq<string>, b: Folder, y: seq<string>, n: nat)
    requires CollisionFree(h.digest) && n <= |x| && n <= |y|
    requires IsValid(h, t, s, a, x) && IsValid(h, t, u, b, y)
    requires HashBefore(h, a, x, n) == HashBefore(h, b, y, n)
    ensures forall i :: 0 <= i < n ==> HoldSame(a, x, b, y, i)
    decreases n
  {
    hide IsSigned, Base;
    if n > 0 {
      var m := n - 1;
      assert IsRecordAt(h, t, s, a, x, m) && IsRecordAt(h, t, u, b, y, m);
      assert h.digest(Base(a[x[m]])) == h.digest(Base(b[y[m]]));
      BaseNamesPrevious(a[x[m]], b[y[m]]);
      SameUpTo(h, t, s, u, a, x, b, y, m);
    }
  }

  predicate HoldSame(a: Folder, x: seq<string>, b: Folder, y: seq<string>, i: nat) {
    && i < |x| && i < |y| && x[i] in a && y[i] in b && a[x[i]].Obj? && b[y[i]].Obj?
    && Base(a[x[i]]) == Base(b[y[i]])
  }

  /** The last hash of a chain that is not empty fixes its length and every record, up to the
      signatures: the number of the last record is inside what is hashed. */
  lemma LastHashFixesHistory(h: Host, t: Tools, s: Option<string>, u: Option<string>,
                             a: Folder, x: seq<string>, b: Folder, y: seq<string>)
    requires CollisionFree(h.digest) && x != [] && y != []
    requires IsValid(h, t, s, a, x) && IsValid(h, t, u, b, y)
    requires HashBefore(h, a, x, |x|) == HashBefore(h, b, y, |y|)
    ensures |x| == |y| && forall i :: 0 <= i < |x| ==> HoldSame(a, x, b, y, i)
  {
    hide IsSigned, Base, HoldSame;
    var m, n := |x| - 1, |y| - 1;
    assert IsRecordAt(h, t, s, a, x, m) && IsRecordAt(h, t, u, b, y, n);
    assert h.digest(Base(a[x[m]])) == h.digest(Base(b[y[n]]));
    BaseNamesPrevious(a[x[m]], b[y[n]]);
    SameUpTo(h, t, s, u, a, x, b, y, |x|);
  }

  lemma BaseNamesPrevious(a: Json, b: Json)
    requires a.Obj? && b.Obj? && Base(a) == Base(b)
    ensures a.Get(Other("prev_record_sha256")) == b.Get(Other("prev_record_sha256"))
    ensures a.Get(Other("seq")) == b.Get(Other("seq"))
  {
    assert Base(a).fields[Other("seq")] == Base(b).fields[Other("seq")];
    assert Base(a).fields[Other("prev_record_sha256")] == Base(b).fields[Other("prev_record_sha256")];
  }

  // ---------------------------------------------------------------- the chain object

  class AuditChain {
    const host: Host
    const tools: Tools
    var files: Folder
    var secret: Option<string>

    constructor (host: Host, tools: Tools, files: Folder, secret: Option<string>)
      ensures this.host == host && this.tools == tools && this.files == files && this.secret == secret
    {
      this.host, this.tools, this.files, this.secret := host, tools, files, secret;
    }

    /** The loop over the sorted files; `None` where it reports or raises an error. */
    method Verify(order: seq<string>) returns (head: Option<(nat, string)>)
      requires IsSorted(files, order)
      ensures head.Some? <==> IsValid(host, tools, secret, files, order)
      ensures head.Some? ==> head.value == (|order|, HashBefore(host, files, order, |order|))
    {
      hide IsSigned, Base, Envelope;
      var previous := ZERO_HASH;
      for count := 0 to |order|
        invariant previous == HashBefore(host, files, order, count)
        invariant forall i :: 0 <= i < count ==> IsRecordAt(host, tools, secret, files, order, i)
      {
        var record := files[order[count]];
        if !IsRecord(host, tools, secret, record, count + 1, previous) {
          assert !IsRecordAt(host, tools, secret, files, order, count);
          return None;
        }
        previous := host.digest(Base(record));
      }
      return Some((|order|, previous));
    }

    /** Adds the next file to a chain that verifies, or leaves the folder as it is. */
    method Append(n: NewRecord, order: seq<string>) returns (record: Option<Json>)
      requires IsSorted(files, order)
      modifies this
      ensures secret == old(secret)
      ensures record.Some? <==> IsValid(host, tools, secret, old(files), order)
      ensures files == if record.Some? then Appended(host, tools, secret, old(files), order, n) else old(files)
      ensures record.Some? ==> IsRecord(host, tools, secret, record.value, |order| + 1,
                                        HashBefore(host, old(files), order, |order|))
    {
      hide NameOf, IsRecord, NewEnvelope, IsSorted;
      var head := Verify(order);
      if head.None? {
        return None;
      }
      var sequence, previous := head.value.0 + 1, head.value.1;
      var envelope := NewEnvelope(host, tools, secret, n, sequence, previous);
      NewIsRecord(host, tools, secret, n, sequence, previous);
      files := files[NameOf(sequence) := envelope];
      return Some(envelope);
    }
  }
}
