/** What a received mail has to carry to be accepted, and that no change to what a signature
    covers goes unnoticed. */
module MailForgery {
  import opened Json
  import opened MailText
  import opened MailBlock

  /** The body holds a block, and the block is this object. */
  predicate Decodes(h: Host, m: MailTools, body: string, p: Payload) {
    var data := DecodeBlock(h, m.base64, body);
    data.Some? && m.read(data.value) == Some(Obj(p))
  }

  /** The payload is marked where it carries no mark of its own, and otherwise unchanged. */
  predicate IsMarked(out: Payload, p: Payload, mark: string) {
    && out - {CLASS, BADGE} == p - {CLASS, BADGE}
    && CLASS in out && out[CLASS] == (if CLASS in p then p[CLASS] else Str(mark))
    && BADGE in out && out[BADGE] == (if BADGE in p then p[BADGE] else Str(Badge(mark)))
  }

  lemma MarkedByDefault(p: Payload, mark: string)
    ensures IsMarked(WithDefault(WithDefault(p, CLASS, Str(mark)), BADGE, Str(Badge(mark))), p, mark)
  {
    hide Badge;
  }

  /** No object in the body, no mail. */
  lemma BlockAnswer(h: Host, m: MailTools, body: string, headers: Headers)
    ensures Parse(h, m, body, headers) == Rejected(BlockInvalid) <==> forall p :: !Decodes(h, m, body, p)
  {
    hide Classify, HeadersAgree, DecodeBlock, Badge;
    var data := DecodeBlock(h, m.base64, body);
    if data.Some? && m.read(data.value).Some? && m.read(data.value).value.Obj? {
      assert Decodes(h, m, body, m.read(data.value).value.fields);
    }
  }

  /** A payload with an `auth` object gets past authentication exactly when it names the
      contract and the algorithm, and its value is the keyed digest, under a known secret of
      at least 32 bytes, of everything but that value and `hmac_sha256`. Then headers decide. */
  lemma SignedAnswer(h: Host, m: MailTools, body: string, headers: Headers, p: Payload)
    requires Decodes(h, m, body, p) && AUTH in p && p[AUTH].Obj?
    ensures var auth := p[AUTH].fields;
      var r := Parse(h, m, body, headers);
      var secret := m.pick(h.strip(FieldText(h, auth, Other("key_id"))));
      if && CONTRACT in p && p[CONTRACT] == Str("ProductMaterialMail/v1")
         && FieldText(h, auth, Other("algorithm")) == "HMAC-SHA256"
         && secret.Some? && |secret.value| >= 32
         && h.lower(h.strip(FieldText(h, auth, Other("value"))))
            == m.hmac(secret.value, Obj((p - {HMAC})[AUTH := Obj(auth - {Other("value")})])) then
        if HeadersAgree(h, m, p, headers) then
          r.Accepted? && IsMarked(r.payload, p, "COMPLIANT_PLUGIN_VERIFIED")
        else
          r == Rejected(HeaderDrift)
      else
        r == Rejected(AuthenticationFailed)
  {
    hide HeadersAgree, DecodeBlock, Badge, IsMarked;
    var auth := p[AUTH].fields;
    assert (p - {AUTH, HMAC})[AUTH := Obj(auth - {Other("value")})]
        == (p - {HMAC})[AUTH := Obj(auth - {Other("value")})];
    MarkedByDefault(p, VERIFIED);
  }

  /** A payload that brings only `hmac_sha256`: the secret is the one named `default`, of any
      length, and the digest covers everything else. */
  lemma LegacyAnswer(h: Host, m: MailTools, body: string, headers: Headers, p: Payload)
    requires Decodes(h, m, body, p) && !(AUTH in p && p[AUTH].Obj?)
    requires HMAC in p && h.strip(FieldText(h, p, HMAC)) != ""
    ensures var r := Parse(h, m, body, headers);
      var claimed := h.lower(h.strip(if p[HMAC].Str? then p[HMAC].s else m.text(p[HMAC])));
      if && CONTRACT in p && p[CONTRACT] == Str("ProductMaterialMail/v1") && claimed != ""
         && m.pick("default").Some? && claimed == m.hmac(m.pick("default").value, Obj(p - {HMAC})) then
        if HeadersAgree(h, m, p, headers) then
          r.Accepted? && IsMarked(r.payload, p, "COMPLIANT_PLUGIN_VERIFIED")
        else
          r == Rejected(HeaderDrift)
      else
        r == Rejected(AuthenticationFailed)
  {
    hide HeadersAgree, DecodeBlock, Badge, IsMarked;
    MarkedByDefault(p, VERIFIED);
  }

  /** A payload that claims no signature is never marked as verified unless it says so itself. */
  lemma UnsignedAnswer(h: Host, m: MailTools, body: string, headers: Headers, p: Payload)
    requires Decodes(h, m, body, p) && !(AUTH in p && p[AUTH].Obj?)
    requires h.strip(FieldText(h, p, HMAC)) == ""
    ensures var r := Parse(h, m, body, headers);
      if !HeadersAgree(h, m, p, headers) then
        r == Rejected(HeaderDrift)
      else
        r.Accepted? && IsMarked(r.payload, p,
                                if SchemaName in p && p[SchemaName] == Str("ProductMaterialWorkflow/v1") then
                                  "STRUCTURED_UNVERIFIED"
                                else
                                  "PLAIN_EMAIL_UNVERIFIED")
  {
    hide HeadersAgree, DecodeBlock, Badge, IsMarked;
    MarkedByDefault(p, Classify(h, m, p));
  }

  // ---------------------------------------------------------------- headers

  /** A header that is there says what the payload makes of it. */
  predicate Says(h: Host, headers: Headers, name: Header, text: string) {
    name in headers ==> h.strip(headers[name]) == text
  }

  /** Every field that is shown agrees with its header. */
  predicate FieldsSay(h: Host, m: MailTools, p: Payload, headers: Headers) {
    forall k :: k in p && k in HeaderFields() && p[k] != Null && p[k] != Str("") ==>
      Says(h, headers, FieldHeader(k), if p[k].Str? then p[k].s else m.text(p[k]))
  }

  lemma ExpectedHeaders(m: MailTools, p: Payload, classification: string)
    ensures var expected := BindingHeaders(m, p, classification);
      var refs := if EvidenceRefs in p then m.refs(p[EvidenceRefs]) else "";
      && ContractHeader in expected && expected[ContractHeader] == CONTRACT_NAME
      && ClassHeader in expected && expected[ClassHeader] == classification
      && BadgeHeader in expected && expected[BadgeHeader] == Badge(classification)
      && (RefsHeader in expected <==> refs != "") && (refs != "" ==> expected[RefsHeader] == refs)
      && (forall k :: FieldHeader(k) in expected <==> IsShown(p, k))
      && (forall k :: IsShown(p, k) ==> expected[FieldHeader(k)] == ShownText(m, p[k]))
  {
    hide Badge, HeaderFields, ShownText;
  }

  /** The headers but those of single fields, where the mail is shown as `shown`. */
  predicate MarksSay(h: Host, m: MailTools, p: Payload, headers: Headers, shown: string) {
    var refs := if EvidenceRefs in p then m.refs(p[EvidenceRefs]) else "";
    && Says(h, headers, ContractHeader, "ProductMaterialMail/v1")
    && Says(h, headers, ClassHeader, shown) && Says(h, headers, BadgeHeader, Badge(shown))
    && (refs != "" ==> Says(h, headers, RefsHeader, refs))
  }

  /** What agreement of the headers means, header by header. A classification header on a mail
      whose payload has none need only be trimmed, but then the badge must fit it. */
  lemma HeadersMean(h: Host, m: MailTools, p: Payload, headers: Headers)
    ensures HeadersAgree(h, m, p, headers) <==>
      var own := FieldText(h, p, CLASS);
      && FieldsSay(h, m, p, headers)
      && MarksSay(h, m, p, headers,
                  if own != "" then own
                  else if ClassHeader in headers && headers[ClassHeader] != "" then headers[ClassHeader]
                  else "STRUCTURED_UNVERIFIED")
  {
    var shown := ExpectedClass(h, p, headers);
    hide Badge, HeaderFields, BindingHeaders, FieldText;
    if HeadersAgree(h, m, p, headers) {
      AgreeSays(h, m, p, headers, shown);
    }
    if FieldsSay(h, m, p, headers) && MarksSay(h, m, p, headers, shown) {
      SaysAgree(h, m, p, headers, shown);
    }
  }

  lemma AgreeSays(h: Host, m: MailTools, p: Payload, headers: Headers, shown: string)
    requires forall name :: name in BindingHeaders(m, p, shown) && name in headers ==>
        h.strip(headers[name]) == BindingHeaders(m, p, shown)[name]
    ensures FieldsSay(h, m, p, headers) && MarksSay(h, m, p, headers, shown)
  {
    ExpectedHeaders(m, p, shown);
    hide Badge, HeaderFields, BindingHeaders;
    forall k | k in p && k in HeaderFields() && p[k] != Null && p[k] != Str("")
      ensures Says(h, headers, FieldHeader(k), ShownText(m, p[k]))
    {
      assert IsShown(p, k) && FieldHeader(k) in BindingHeaders(m, p, shown);
    }
  }

  lemma SaysAgree(h: Host, m: MailTools, p: Payload, headers: Headers, shown: string)
    requires FieldsSay(h, m, p, headers) && MarksSay(h, m, p, headers, shown)
    ensures forall name :: name in BindingHeaders(m, p, shown) && name in headers ==>
        h.strip(headers[name]) == BindingHeaders(m, p, shown)[name]
  {
    ExpectedHeaders(m, p, shown);
    hide Badge, HeaderFields, BindingHeaders;
    forall name | name in BindingHeaders(m, p, shown) && name in headers
      ensures h.strip(headers[name]) == BindingHeaders(m, p, shown)[name]
    {
      if name.FieldHeader? {
        assert name == FieldHeader(name.field) && IsShown(p, name.field);
        assert Says(h, headers, name, ShownText(m, p[name.field]));
      }
    }
  }

  // ---------------------------------------------------------------- tampering

  /** No secret gives two texts the same keyed digest. */
  ghost predicate IsInjective(m: MailTools) {
    forall s, x, y {:trigger m.hmac(s, x), m.hmac(s, y)} :: m.hmac(s, x) == m.hmac(s, y) ==> x == y
  }

  /** The key and the value that a payload with `auth` is signed under. */
  predicate IsSignedAlike(h: Host, p: Payload, q: Payload)
    requires AUTH in p && p[AUTH].Obj? && AUTH in q && q[AUTH].Obj?
  {
    && h.strip(FieldText(h, p[AUTH].fields, Other("key_id"))) == h.strip(FieldText(h, q[AUTH].fields, Other("key_id")))
    && h.lower(h.strip(FieldText(h, p[AUTH].fields, Other("value"))))
       == h.lower(h.strip(FieldText(h, q[AUTH].fields, Other("value"))))
  }

  lemma CoveredMeans(p: Payload, q: Payload)
    requires AUTH in p && p[AUTH].Obj? && AUTH in q && q[AUTH].Obj?
    ensures AuthBody(p) == AuthBody(q) <==>
      && p - {AUTH, HMAC} == q - {AUTH, HMAC}
      && p[AUTH].fields - {Other("value")} == q[AUTH].fields - {Other("value")}
  {
    var a := (p - {AUTH, HMAC})[AUTH := Obj(p[AUTH].fields - {Other("value")})];
    var b := (q - {AUTH, HMAC})[AUTH := Obj(q[AUTH].fields - {Other("value")})];
    assert a - {AUTH} == p - {AUTH, HMAC} && b - {AUTH} == q - {AUTH, HMAC};
    assert a[AUTH] == Obj(p[AUTH].fields - {Other("value")}) && b[AUTH] == Obj(q[AUTH].fields - {Other("value")});
  }

  /** Beside a mail that was authenticated, another one under the same key and value is refused
      exactly when they differ in anything but the value and `hmac_sha256`. */
  lemma TamperedIsRefused(h: Host, m: MailTools, body: string, headers: Headers, p: Payload, other: string,
                          otherHeaders: Headers, q: Payload)
    requires IsInjective(m) && Decodes(h, m, body, p) && Decodes(h, m, other, q)
    requires AUTH in p && p[AUTH].Obj? && AUTH in q && q[AUTH].Obj? && IsSignedAlike(h, p, q)
    requires Parse(h, m, body, headers) != Rejected(AuthenticationFailed)
    ensures Parse(h, m, other, otherHeaders) == Rejected(AuthenticationFailed)
       <==> || p - {AUTH, HMAC} != q - {AUTH, HMAC}
            || p[AUTH].fields - {Other("value")} != q[AUTH].fields - {Other("value")}
  {
    hide HeadersAgree, DecodeBlock, IsMarked, AuthBody;
    SignedAnswer(h, m, body, headers, p);
    SignedAnswer(h, m, other, otherHeaders, q);
    CoveredMeans(p, q);
    SpelledBody(p);
    SpelledBody(q);
    if AuthBody(p) == AuthBody(q) {
      KeptField(p, q);
    }
  }

  lemma SpelledBody(p: Payload)
    requires AUTH in p && p[AUTH].Obj?
    ensures AuthBody(p) == Obj((p - {HMAC})[AUTH := Obj(p[AUTH].fields - {Other("value")})])
  {
    var covered := Obj(p[AUTH].fields - {Other("value")});
    assert (p - {AUTH, HMAC})[AUTH := covered] == (p - {HMAC})[AUTH := covered];
  }

  /** The covered part fixes the contract and the algorithm. */
  lemma KeptField(p: Payload, q: Payload)
    requires AUTH in p && p[AUTH].Obj? && AUTH in q && q[AUTH].Obj?
    requires p - {AUTH, HMAC} == q - {AUTH, HMAC}
    requires p[AUTH].fields - {Other("value")} == q[AUTH].fields - {Other("value")}
    ensures CONTRACT in p <==> CONTRACT in q
    ensures CONTRACT in p ==> p[CONTRACT] == q[CONTRACT]
    ensures forall h :: FieldText(h, p[AUTH].fields, Other("algorithm"))
                     == FieldText(h, q[AUTH].fields, Other("algorithm"))
  {
    FieldKept(q, p, CONTRACT, {AUTH, HMAC});
    FieldKept(q[AUTH].fields, p[AUTH].fields, Other("algorithm"), {Other("value")});
  }

  /** Of two authenticated mails without `auth` that claim one digest, only `hmac_sha256` can
      differ. */
  lemma LegacyIsFixed(h: Host, m: MailTools, body: string, headers: Headers, p: Payload, other: string,
                      otherHeaders: Headers, q: Payload)
    requires IsInjective(m) && Decodes(h, m, body, p) && Decodes(h, m, other, q)
    requires !(AUTH in p && p[AUTH].Obj?) && HMAC in p && h.strip(FieldText(h, p, HMAC)) != ""
    requires !(AUTH in q && q[AUTH].Obj?) && HMAC in q && h.strip(FieldText(h, q, HMAC)) != ""
    requires h.lower(h.strip(if p[HMAC].Str? then p[HMAC].s else m.text(p[HMAC])))
          == h.lower(h.strip(if q[HMAC].Str? then q[HMAC].s else m.text(q[HMAC])))
    requires Parse(h, m, body, headers) != Rejected(AuthenticationFailed)
    ensures Parse(h, m, other, otherHeaders) == Rejected(AuthenticationFailed) <==> p - {HMAC} != q - {HMAC}
  {
    hide HeadersAgree, DecodeBlock, IsMarked;
    LegacyAnswer(h, m, body, headers, p);
    LegacyAnswer(h, m, other, otherHeaders, q);
    if p - {HMAC} == q - {HMAC} {
      FieldKept(q, p, CONTRACT, {HMAC});
    }
  }

  /** A digest that authenticates a mail in one form authenticates none in the other: what one
      covers has an `auth` object, what the other covers has not. */
  lemma FormsDoNotMix(h: Host, m: MailTools, body: string, headers: Headers, p: Payload, other: string,
                      otherHeaders: Headers, q: Payload)
    requires IsInjective(m) && Decodes(h, m, body, p) && Decodes(h, m, other, q)
    requires AUTH in p && p[AUTH].Obj?
    requires !(AUTH in q && q[AUTH].Obj?) && HMAC in q && h.strip(FieldText(h, q, HMAC)) != ""
    requires m.pick(h.strip(FieldText(h, p[AUTH].fields, Other("key_id")))) == m.pick("default")
    requires h.lower(h.strip(FieldText(h, p[AUTH].fields, Other("value"))))
          == h.lower(h.strip(if q[HMAC].Str? then q[HMAC].s else m.text(q[HMAC])))
    requires Parse(h, m, body, headers) != Rejected(AuthenticationFailed)
    ensures Parse(h, m, other, otherHeaders) == Rejected(AuthenticationFailed)
  {
    hide HeadersAgree, DecodeBlock, IsMarked;
    SignedAnswer(h, m, body, headers, p);
    LegacyAnswer(h, m, other, otherHeaders, q);
    var x := (p - {HMAC})[AUTH := Obj(p[AUTH].fields - {Other("value")})];
    assert AUTH in x && x[AUTH].Obj?;
    assert x != q - {HMAC};
  }
}
