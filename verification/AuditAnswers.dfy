/** What an accepted record of either audit log is, and that a signed one cannot be changed
    under its signature. */
module AuditAnswers {
  import opened Json
  import AuditFiles
  import AuditLog
  import TextOrder

  // ---------------------------------------------------------------- one file an entry

  /** No secret signs two documents alike. */
  ghost predicate SignsApart(t: AuditFiles.Tools) {
    forall s, x, y {:trigger t.mac(s, x), t.mac(s, y)} :: t.mac(s, x) == t.mac(s, y) ==> x == y
  }

  /** A record is accepted exactly when it has its number and the hash before it, names the
      hash of its seven fields, and is either signed under the secret, over those fields, that
      hash and the mode, or says that it is not signed and has no signature. */
  lemma RecordExactly(h: Host, t: AuditFiles.Tools, secret: Option<string>, record: Json, sequence: nat,
                      previous: string)
    ensures AuditFiles.IsRecord(h, t, secret, record, sequence, previous) <==>
      && record.Obj?
      && AuditFiles.SequenceOf(t, record.Get(Other("seq"))) == Some(sequence)
      && record.Get(Other("prev_record_sha256")) == Str(previous)
      && var base := map[SchemaName := record.Get(SchemaName), Other("seq") := record.Get(Other("seq")),
                         Other("created_at") := record.Get(Other("created_at")),
                         Other("event_type") := record.Get(Other("event_type")),
                         Other("status") := record.Get(Other("status")),
                         Other("payload") := record.Get(Other("payload")),
                         Other("prev_record_sha256") := record.Get(Other("prev_record_sha256"))];
      && var mode := record.Get(Other("signature_mode"));
      && record.Get(Other("record_sha256")) == Str(h.digest(Obj(base)))
      && if !mode.Falsy() && Text(h, mode) == "hmac" then
           && secret.Some?
           && record.Get(Other("hmac_sha256"))
              == Str(t.mac(secret.value, Obj(base[Other("record_sha256") := Str(h.digest(Obj(base)))]
                                                 [Other("signature_mode") := Str("hmac")])))
         else
           (mode.Falsy() || Text(h, mode) == "none") && Text(h, record.Get(Other("hmac_sha256"))) == ""
  {
    hide Text;
  }

  /** Beside an accepted signed record, another one with its signature is accepted in its place
      exactly when it has the same fields and the same hash. */
  lemma TamperedRecord(h: Host, t: AuditFiles.Tools, secret: Option<string>, a: Json, b: Json, sequence: nat,
                       previous: string)
    requires SignsApart(t) && AuditFiles.IsRecord(h, t, secret, a, sequence, previous) && b.Obj?
    requires AuditFiles.ModeOf(h, a) == "hmac" && AuditFiles.ModeOf(h, b) == "hmac"
    requires a.Get(Other("hmac_sha256")) == b.Get(Other("hmac_sha256"))
    ensures AuditFiles.IsRecord(h, t, secret, b, sequence, previous) <==>
      AuditFiles.Base(a) == AuditFiles.Base(b) && a.Get(Other("record_sha256")) == b.Get(Other("record_sha256"))
  {
    hide Text, AuditFiles.SequenceOf, AuditFiles.ModeOf;
    EnvelopeFixes(h, a, b);
    if AuditFiles.Base(a) == AuditFiles.Base(b) {
      AuditFiles.BaseNamesPrevious(a, b);
    }
  }

  lemma EnvelopeFixes(h: Host, a: Json, b: Json)
    requires a.Obj? && b.Obj? && AuditFiles.ModeOf(h, a) == AuditFiles.ModeOf(h, b)
    ensures AuditFiles.Envelope(h, a) == AuditFiles.Envelope(h, b) <==>
      AuditFiles.Base(a) == AuditFiles.Base(b) && a.Get(Other("record_sha256")) == b.Get(Other("record_sha256"))
  {
    hide AuditFiles.ModeOf, AuditFiles.Base;
    BaseIsSmaller(a);
    BaseIsSmaller(b);
    TwoMore(AuditFiles.Base(a).fields, AuditFiles.Base(b).fields, Other("record_sha256"), Other("signature_mode"),
            a.Get(Other("record_sha256")), b.Get(Other("record_sha256")), Str(AuditFiles.ModeOf(h, a)));
  }

  lemma BaseIsSmaller(record: Json)
    requires record.Obj?
    ensures AuditFiles.Base(record).Obj?
    ensures Other("record_sha256") !in AuditFiles.Base(record).fields
    ensures Other("signature_mode") !in AuditFiles.Base(record).fields
  {
  }

  lemma TwoMore(x: map<Key, Json>, y: map<Key, Json>, k: Key, l: Key, a: Json, b: Json, mode: Json)
    requires k != l && k !in x && l !in x && k !in y && l !in y
    ensures x[k := a][l := mode] == y[k := b][l := mode] <==> x == y && a == b
  {
    var m, n := x[k := a][l := mode], y[k := b][l := mode];
    assert m - {k, l} == x && n - {k, l} == y;
    assert m[k] == a && n[k] == b;
  }

  /** In a chain that verifies, a signed record put in the place of a signed one under its
      signature leaves a chain that verifies exactly when nothing it records was changed. */
  lemma TamperedChain(h: Host, t: AuditFiles.Tools, secret: Option<string>, files: AuditFiles.Folder,
                      order: seq<string>, i: nat, b: Json)
    requires SignsApart(t) && AuditFiles.IsSorted(files, order) && AuditFiles.IsValid(h, t, secret, files, order)
    requires i < |order| && order[i] in files && files[order[i]].Obj? && b.Obj?
    requires AuditFiles.ModeOf(h, files[order[i]]) == "hmac" && AuditFiles.ModeOf(h, b) == "hmac"
    requires files[order[i]].Get(Other("hmac_sha256")) == b.Get(Other("hmac_sha256"))
    ensures AuditFiles.IsValid(h, t, secret, files[order[i] := b], order) <==>
      && AuditFiles.Base(files[order[i]]) == AuditFiles.Base(b)
      && files[order[i]].Get(Other("record_sha256")) == b.Get(Other("record_sha256"))
  {
    hide AuditFiles.IsRecord, AuditFiles.Base, AuditFiles.ModeOf;
    var a, changed := files[order[i]], files[order[i] := b];
    assert AuditFiles.IsRecordAt(h, t, secret, files, order, i);
    forall k, n | 0 <= k < n < |order|
      ensures order[k] != order[n]
    {
      TextOrder.LessTotal(order[k], order[n]);
    }
    if AuditFiles.IsRecordAt(h, t, secret, changed, order, i) {
      assert i > 0 ==> changed[order[i - 1]] == files[order[i - 1]];
    }
    TamperedRecord(h, t, secret, a, b, i + 1, AuditFiles.HashBefore(h, files, order, i));
    if AuditFiles.IsValid(h, t, secret, changed, order) {
      assert AuditFiles.IsRecordAt(h, t, secret, changed, order, i);
    } else if AuditFiles.Base(a) == AuditFiles.Base(b)
              && a.Get(Other("record_sha256")) == b.Get(Other("record_sha256")) {
      forall n | 0 <= n < |order|
        ensures AuditFiles.IsRecordAt(h, t, secret, changed, order, n)
      {
        assert AuditFiles.IsRecordAt(h, t, secret, files, order, n);
        assert n > 0 ==> AuditFiles.HashOf(h, changed[order[n - 1]]) == AuditFiles.HashOf(h, files[order[n - 1]]);
      }
    }
  }

  // ---------------------------------------------------------------- one line an entry

  ghost predicate MacsApart(c: AuditLog.Codec) {
    forall x, y :: c.mac(x) == c.mac(y) ==> x == y
  }

  /** An entry is accepted exactly when it has its index and the head before it, a time, the
      digest of its record, the digest over all five as its head, and the keyed digest of
      everything but itself. */
  lemma EntryExactly(h: Host, c: AuditLog.Codec, entry: Json, index: int, previous: string)
    ensures AuditLog.IsEntry(h, c, entry, index, previous) <==>
      && entry.Obj? && entry.Get(Record).Obj?
      && (entry.Get(Index) == Num(index) || (entry.Get(Index) == Bool(false) && index == 0)
          || (entry.Get(Index) == Bool(true) && index == 1))
      && entry.Get(PrevHead) == Str(previous)
      && var time := h.strip(Text(h, entry.Get(RecordedAt)));
      && var digest := "sha256:" + h.digest(entry.Get(Record));
      && time != "" && entry.Get(RecordDigest) == Str(digest)
      && entry.Get(Head) == Str(h.digest(Obj(map[Index := Num(index), RecordedAt := Str(time),
                                                 Record := entry.Get(Record), RecordDigest := Str(digest),
                                                 PrevHead := Str(previous)])))
      && Text(h, entry.Get(Other("entry_hmac"))) == c.mac(Obj(entry.fields - {Other("entry_hmac")}))
  {
    hide Text;
  }

  lemma TamperedEntry(h: Host, c: AuditLog.Codec, a: Json, b: Json, index: int, previous: string)
    requires MacsApart(c) && AuditLog.IsEntry(h, c, a, index, previous) && b.Obj?
    requires Text(h, a.Get(Other("entry_hmac"))) == Text(h, b.Get(Other("entry_hmac")))
    ensures AuditLog.IsEntry(h, c, b, index, previous) <==>
      a.fields - {Other("entry_hmac")} == b.fields - {Other("entry_hmac")}
  {
    hide Text, AuditLog.HeadHash, AuditLog.DigestOfRecord, AuditLog.IsIndex;
    if a.fields - {Other("entry_hmac")} == b.fields - {Other("entry_hmac")} {
      SameFields(a, b);
    }
  }

  /** An accepted log in which one entry is exchanged for another under the same keyed digest is
      accepted exactly when the two are the same but for how that digest is written. */
  lemma TamperedLog(h: Host, c: AuditLog.Codec, entries: seq<Json>, i: nat, b: Json)
    requires MacsApart(c) && AuditLog.IsChain(h, c, entries) && i < |entries| && entries[i].Obj? && b.Obj?
    requires Text(h, entries[i].Get(Other("entry_hmac"))) == Text(h, b.Get(Other("entry_hmac")))
    ensures AuditLog.IsChain(h, c, entries[i := b]) <==>
      entries[i].fields - {Other("entry_hmac")} == b.fields - {Other("entry_hmac")}
  {
    hide Text, AuditLog.IsEntry, MacsApart, AuditLog.HeadOf;
    var a, changed := entries[i], entries[i := b];
    assert AuditLog.IsEntryAt(h, c, entries, i) && changed[..i] == entries[..i];
    TamperedEntry(h, c, a, b, i, AuditLog.HeadOf(entries[..i]));
    if AuditLog.IsChain(h, c, changed) {
      assert AuditLog.IsEntryAt(h, c, changed, i);
    } else if a.fields - {Other("entry_hmac")} == b.fields - {Other("entry_hmac")} {
      SameFields(a, b);
      forall n | 0 <= n < |entries|
        ensures AuditLog.IsEntryAt(h, c, changed, n)
      {
        assert AuditLog.IsEntryAt(h, c, entries, n);
        SameHead(entries, i, b, n);
      }
    }
  }

  lemma SameFields(a: Json, b: Json)
    requires a.Obj? && b.Obj? && a.fields - {Other("entry_hmac")} == b.fields - {Other("entry_hmac")}
    ensures forall k :: k != Other("entry_hmac") ==> a.Get(k) == b.Get(k)
  {
    forall k | k != Other("entry_hmac")
      ensures a.Get(k) == b.Get(k)
    {
      var x, y := a.fields - {Other("entry_hmac")}, b.fields - {Other("entry_hmac")};
      assert k in a.fields <==> k in x;
      assert k in b.fields <==> k in y;
      if k in x {
        assert x[k] == y[k];
      }
    }
  }

  lemma SameHead(entries: seq<Json>, i: nat, b: Json, n: nat)
    requires i < |entries| && n <= |entries| && entries[i].Obj? && b.Obj?
    requires entries[i].Get(Head) == b.Get(Head)
    ensures AuditLog.HeadOf(entries[i := b][..n]) == AuditLog.HeadOf(entries[..n])
  {
    if n > 0 {
      assert entries[i := b][..n][n - 1] == if n - 1 == i then b else entries[..n][n - 1];
    }
  }
}
