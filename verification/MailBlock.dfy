/** Signing, rendering and reading a machine mail. */
module MailBlock {
  import opened Json
  import opened MailText

  /** `write` and `read` are the JSON text of a payload as bytes; `hmac` a keyed digest; `pick`
      the secret for a key id, if there is one; `refs` the trimmed, sorted, distinct references
      of a field joined by commas; `text` is `str()`. */
  datatype MailTools = MailTools(
    base64: Base64, write: Json -> Bytes, read: Bytes -> Option<Json>, hmac: (Bytes, Json) -> string,
    pick: string -> Option<Bytes>, refs: Json -> string, text: Json -> string)

  type Payload = map<Key, Json>

  const CONTRACT: Key := Other("mail_contract")
  const AUTH: Key := Other("auth")
  const HMAC: Key := Other("hmac_sha256")
  const CLASS: Key := Other("provenance_classification")
  const BADGE: Key := Other("provenance_badge")
  const CONTRACT_NAME: string := "ProductMaterialMail/v1"

  const VERIFIED: string := "COMPLIANT_PLUGIN_VERIFIED"
  const PLAIN: string := "PLAIN_EMAIL_UNVERIFIED"
  const STRUCTURED: string := "STRUCTURED_UNVERIFIED"
  const AUTH_FAILED: string := "AUTHENTICATION_FAILED"

  function Badge(classification: string): string {
    if classification == VERIFIED then "发起来源：合规插件发起（已验证）"
    else if classification == PLAIN then "发起来源：普通邮件发起（未验证）"
    else if classification == AUTH_FAILED then "发起来源：认证失败（已阻断）"
    else "发起来源：结构化事件发起（未验证）"
  }

  // ---------------------------------------------------------------- signing

  /** The part the signature covers: everything but the signature itself. */
  function AuthBody(p: Payload): Json {
    var rest := p - {AUTH, HMAC};
    if AUTH in p && p[AUTH].Obj? then Obj(rest[AUTH := Obj(p[AUTH].fields - {Other("value")})]) else Obj(rest)
  }

  function AuthHeader(h: Host, keyId: string, identityId: string): map<Key, Json> {
    var identity := h.strip(if identityId != "" then identityId else keyId);
    map[Other("algorithm") := Str("HMAC-SHA256"), Other("key_id") := Str(keyId),
        Other("identity_id") := Str(if identity != "" then identity else keyId)]
  }

  /** `None`: the secret is too short. */
  function Sign(h: Host, m: MailTools, p: Payload, keyId: string, identityId: string): Option<Payload> {
    var material := p[CONTRACT := Str(CONTRACT_NAME)];
    var secret := m.pick(keyId);
    if secret.None? then Some(material - {AUTH, HMAC})
    else if |secret.value| < 32 then None
    else
      var auth := AuthHeader(h, keyId, identityId);
      var unsigned := material[AUTH := Obj(auth[Other("value") := Str("")])];
      var value := m.hmac(secret.value, AuthBody(unsigned));
      Some(material[AUTH := Obj(auth[Other("value") := Str(value)])][HMAC := Str(value)])
  }

  function FieldText(h: Host, p: Payload, k: Key): string {
    if k in p then Text(h, p[k]) else ""
  }

  predicate IsVerified(h: Host, m: MailTools, p: Payload) {
    && CONTRACT in p && p[CONTRACT] == Str(CONTRACT_NAME)
    && if AUTH in p && p[AUTH].Obj? then
         var auth := p[AUTH].fields;
         && FieldText(h, auth, Other("algorithm")) == "HMAC-SHA256"
         && var secret := m.pick(h.strip(FieldText(h, auth, Other("key_id"))));
         && secret.Some? && |secret.value| >= 32
         && h.lower(h.strip(FieldText(h, auth, Other("value")))) == m.hmac(secret.value, AuthBody(p))
       else
         && HMAC in p
         && var claimed := h.lower(h.strip(if p[HMAC].Str? then p[HMAC].s else m.text(p[HMAC])));
         && claimed != "" && m.pick("default").Some?
         && claimed == m.hmac(m.pick("default").value, Obj(p - {HMAC}))
  }

  function Classify(h: Host, m: MailTools, p: Payload): string {
    if (AUTH in p && p[AUTH].Obj?) || h.strip(FieldText(h, p, HMAC)) != "" then
      if IsVerified(h, m, p) then VERIFIED else AUTH_FAILED
    else if SchemaName in p && p[SchemaName] == Str("ProductMaterialWorkflow/v1") then STRUCTURED
    else PLAIN
  }

  /** Signatures are texts that trimming and lower-casing leave alone, and so are names. */
  ghost predicate SignsPlainly(h: Host, m: MailTools) {
    forall s, j {:trigger m.hmac(s, j)} :: h.lower(h.strip(m.hmac(s, j))) == m.hmac(s, j) && m.hmac(s, j) != ""
  }

  /** What is signed under a trimmed key id verifies under the same secrets, and what was
      signed is kept. */
  lemma SignedVerifies(h: Host, m: MailTools, p: Payload, keyId: string, identityId: string)
    requires SignsPlainly(h, m) && h.strip(keyId) == keyId
    requires m.pick(keyId).Some? && |m.pick(keyId).value| >= 32
    ensures Sign(h, m, p, keyId, identityId).Some?
    ensures var s := Sign(h, m, p, keyId, identityId).value;
      && IsVerified(h, m, s) && Classify(h, m, s) == VERIFIED
      && s - {CONTRACT, AUTH, HMAC} == p - {CONTRACT, AUTH, HMAC}
  {
    var material := p[CONTRACT := Str(CONTRACT_NAME)];
    var auth := AuthHeader(h, keyId, identityId);
    var unsigned := material[AUTH := Obj(auth[Other("value") := Str("")])];
    var value := m.hmac(m.pick(keyId).value, AuthBody(unsigned));
    var s := Sign(h, m, p, keyId, identityId).value;
    SignedShape(h, m, p, keyId, identityId);
    AuthBodySame(material, auth, value);
    assert AuthBody(s) == AuthBody(unsigned);
    var full := auth[Other("value") := Str(value)];
    AuthFields(h, keyId, identityId, value);
    assert FieldText(h, full, Other("value")) == value;
  }

  lemma SignedShape(h: Host, m: MailTools, p: Payload, keyId: string, identityId: string)
    requires m.pick(keyId).Some? && |m.pick(keyId).value| >= 32
    ensures var s := Sign(h, m, p, keyId, identityId).value;
      && s - {CONTRACT, AUTH, HMAC} == p - {CONTRACT, AUTH, HMAC}
      && CONTRACT in s && s[CONTRACT] == Str(CONTRACT_NAME) && AUTH in s && s[AUTH].Obj?
  {
  }

  lemma AuthFields(h: Host, keyId: string, identityId: string, value: string)
    ensures var full := AuthHeader(h, keyId, identityId)[Other("value") := Str(value)];
      && FieldText(h, full, Other("algorithm")) == "HMAC-SHA256" && FieldText(h, full, Other("key_id")) == keyId
  {
  }

  /** The covered part does not depend on the signature that is filled in. */
  lemma AuthBodySame(material: Payload, auth: map<Key, Json>, value: string)
    ensures AuthBody(material[AUTH := Obj(auth[Other("value") := Str(value)])][HMAC := Str(value)])
         == AuthBody(material[AUTH := Obj(auth[Other("value") := Str("")])])
  {
    var a := material[AUTH := Obj(auth[Other("value") := Str(value)])][HMAC := Str(value)];
    var b := material[AUTH := Obj(auth[Other("value") := Str("")])];
    assert a[AUTH].fields - {Other("value")} == b[AUTH].fields - {Other("value")};
    assert a - {AUTH, HMAC} == b - {AUTH, HMAC};
  }

  // ---------------------------------------------------------------- headers

  /** The payload fields that appear as headers, `evidence_refs` aside. */
  function HeaderFields(): set<Key> {
    {EventId, RoundId, Other("parent_event_id"), Other("parent_round_id"), ManifestSDigest, ManifestRDigest,
     Other("manifest_digest"), PolicyDigest, Other("submitter_email"), Other("state"), Other("event_type")}
  }

  /** What signing adds or replaces. */
  function SignatureFields(): set<Key> {
    {CONTRACT, AUTH, HMAC}
  }

  datatype Header = ContractHeader | ClassHeader | BadgeHeader | RefsHeader | FieldHeader(field: Key)

  type Headers = map<Header, string>

  predicate IsShown(p: Payload, k: Key) {
    k in HeaderFields() && k in p && p[k] != Null && p[k] != Str("")
  }

  function ShownText(m: MailTools, v: Json): string {
    if v.Str? then v.s else m.text(v)
  }

  function FieldHeaders(m: MailTools, p: Payload): Headers {
    map k | k in HeaderFields() && IsShown(p, k) :: FieldHeader(k) := ShownText(m, p[k])
  }

  function RefsOf(m: MailTools, p: Payload): string {
    if EvidenceRefs in p then m.refs(p[EvidenceRefs]) else ""
  }

  function BindingHeaders(m: MailTools, p: Payload, classification: string): Headers {
    FieldHeaders(m, p)
      + map[ContractHeader := CONTRACT_NAME, ClassHeader := classification, BadgeHeader := Badge(classification)]
      + if RefsOf(m, p) != "" then map[RefsHeader := RefsOf(m, p)] else map[]
  }

  /** What a reader expects the classification header to be. */
  function ExpectedClass(h: Host, p: Payload, headers: Headers): string {
    if FieldText(h, p, CLASS) != "" then FieldText(h, p, CLASS)
    else if ClassHeader in headers && headers[ClassHeader] != "" then headers[ClassHeader] else STRUCTURED
  }

  /** No header that is there drifts from the payload. */
  predicate HeadersAgree(h: Host, m: MailTools, p: Payload, headers: Headers) {
    var expected := BindingHeaders(m, p, ExpectedClass(h, p, headers));
    forall name :: name in expected && name in headers ==> h.strip(headers[name]) == expected[name]
  }

  /** Every header text is as trimming leaves it. */
  predicate AreTrimmed(h: Host, headers: Headers) {
    forall name :: name in headers ==> h.strip(headers[name]) == headers[name]
  }

  lemma FieldsApart()
    ensures HeaderFields() !! SignatureFields() && EvidenceRefs !in SignatureFields() && CLASS !in SignatureFields()
  {
  }

  lemma FieldKept(p: Payload, s: Payload, k: Key, covered: set<Key>)
    requires s - covered == p - covered && k !in covered
    ensures k in s <==> k in p
    ensures k in p ==> s[k] == p[k]
  {
    assert k in s - covered <==> k in p - covered;
    if k in p {
      assert (s - covered)[k] == (p - covered)[k];
    }
  }

  /** Signing changes no header. */
  lemma HeadersIgnoreSignature(h: Host, m: MailTools, p: Payload, s: Payload, classification: string)
    requires s - SignatureFields() == p - SignatureFields()
    ensures BindingHeaders(m, s, classification) == BindingHeaders(m, p, classification)
    ensures FieldText(h, s, CLASS) == FieldText(h, p, CLASS)
  {
    FieldsApart();
    hide HeaderFields, SignatureFields, Badge, ShownText;
    forall k | k in HeaderFields()
      ensures IsShown(s, k) <==> IsShown(p, k)
      ensures IsShown(p, k) ==> s[k] == p[k]
    {
      FieldKept(p, s, k, SignatureFields());
    }
    assert FieldHeaders(m, s) == FieldHeaders(m, p);
    FieldKept(p, s, EvidenceRefs, SignatureFields());
    FieldKept(p, s, CLASS, SignatureFields());
  }

  // ---------------------------------------------------------------- render and parse

  datatype Message = Message(body: string, headers: Headers, signed: Payload)

  function Lines(h: Host, classification: string, summary: seq<string>): seq<string> {
    [Badge(classification)] + NotBlank(h, summary)
  }

  function NotBlank(h: Host, summary: seq<string>): seq<string> {
    if summary == [] then []
    else (if h.strip(summary[0]) != "" then [summary[0]] else []) + NotBlank(h, summary[1..])
  }

  /** `None`: the secret is too short. `override` is a classification given by the caller. */
  function Render(h: Host, m: MailTools, p: Payload, keyId: string, identityId: string,
                  summary: seq<string>, override: string): Option<Message> {
    var signed := Sign(h, m, p, keyId, identityId);
    if signed.None? then None
    else
      var classification := if override != "" then override else Classify(h, m, signed.value);
      var block := EncodeBlock(m.base64, m.write(Obj(signed.value)));
      Some(Message(Joined(Lines(h, classification, summary) + [block]),
                   BindingHeaders(m, p, classification), signed.value))
  }

  datatype ParseError = BlockInvalid | AuthenticationFailed | HeaderDrift

  datatype Parsed = Accepted(payload: Payload) | Rejected(error: ParseError)

  function WithDefault(p: Payload, k: Key, v: Json): Payload {
    if k in p then p else p[k := v]
  }

  function Parse(h: Host, m: MailTools, body: string, headers: Headers): Parsed {
    var data := DecodeBlock(h, m.base64, body);
    if data.None? then Rejected(BlockInvalid)
    else
      var v := m.read(data.value);
      if v.None? || !v.value.Obj? then Rejected(BlockInvalid)
      else
        var p := v.value.fields;
        var classification := Classify(h, m, p);
        if classification == AUTH_FAILED then Rejected(AuthenticationFailed)
        else if !HeadersAgree(h, m, p, headers) then Rejected(HeaderDrift)
        else Accepted(WithDefault(WithDefault(p, CLASS, Str(classification)), BADGE, Str(Badge(classification))))
  }

  ghost predicate IsMailHost(h: Host, m: MailTools) {
    && IsBase64(m.base64) && TrimsLines(h) && SignsPlainly(h, m)
    && h.strip("") == "" && h.strip(CONTRACT_NAME) == CONTRACT_NAME
    && h.strip(VERIFIED) == VERIFIED && h.strip(STRUCTURED) == STRUCTURED && h.strip(PLAIN) == PLAIN
    && (forall c :: h.strip(Badge(c)) == Badge(c))
    && forall p: Payload :: m.read(m.write(Obj(p))) == Some(Obj(p))
  }

  lemma {:induction false} NotBlankFree(h: Host, summary: seq<string>)
    requires forall i :: 0 <= i < |summary| ==> IsFree(summary[i], BEGIN)
    ensures forall i :: 0 <= i < |NotBlank(h, summary)| ==> IsFree(NotBlank(h, summary)[i], BEGIN)
  {
    hide IsFree;
    if summary != [] {
      NotBlankFree(h, summary[1..]);
    }
  }

  lemma BadgesAreFree(classification: string)
    ensures IsFree(Badge(classification), BEGIN)
  {
    hide Find;
    assert BEGIN[0] == '-';
    FreeOfCharacter(Badge(classification), BEGIN, '-');
  }

  /** The block in a rendered body is the signed payload, whatever its summary says, as long
      as no summary line holds the begin marker. */
  lemma RenderedDecodes(h: Host, m: MailTools, p: Payload, keyId: string, identityId: string, summary: seq<string>,
                        override: string)
    requires IsMailHost(h, m) && Sign(h, m, p, keyId, identityId).Some?
    requires forall i :: 0 <= i < |summary| ==> IsFree(summary[i], BEGIN)
    ensures var mail := Render(h, m, p, keyId, identityId, summary, override).value;
      && DecodeBlock(h, m.base64, mail.body) == Some(m.write(Obj(mail.signed)))
      && m.read(m.write(Obj(mail.signed))) == Some(Obj(mail.signed))
  {
    hide IsFree, Sign, Classify, EncodeBlock, Joined, DecodeBlock, Badge, IsBase64, TrimsLines, SignsPlainly;
    hide BindingHeaders, NotBlank;
    var mail := Render(h, m, p, keyId, identityId, summary, override).value;
    var classification := if override != "" then override else Classify(h, m, mail.signed);
    NotBlankFree(h, summary);
    BadgesAreFree(classification);
    BlockRoundTrip(h, m.base64, Lines(h, classification, summary), m.write(Obj(mail.signed)));
  }

  /** The classification a reader expects is the one rendered unless the payload brings its own. */
  predicate IsOwnClass(h: Host, p: Payload, classification: string) {
    FieldText(h, p, CLASS) == "" || FieldText(h, p, CLASS) == classification
  }

  /** Headers rendered from a payload agree with it exactly when they are trimmed and the
      payload does not claim another classification. */
  lemma HeadersRoundTrip(h: Host, m: MailTools, p: Payload, classification: string)
    requires classification != ""
    requires h.strip(classification) == classification && h.strip(Badge(classification)) == Badge(classification)
    requires h.strip(CONTRACT_NAME) == CONTRACT_NAME
    ensures HeadersAgree(h, m, p, BindingHeaders(m, p, classification))
       <==> AreTrimmed(h, BindingHeaders(m, p, classification)) && IsOwnClass(h, p, classification)
  {
    hide Badge, FieldHeaders, RefsOf;
    var headers := BindingHeaders(m, p, classification);
    var own := ExpectedClass(h, p, headers);
    var expected := BindingHeaders(m, p, own);
    assert headers[ClassHeader] == classification && expected[ClassHeader] == own;
    assert own == classification <==> IsOwnClass(h, p, classification);
    if HeadersAgree(h, m, p, headers) {
      assert h.strip(headers[ClassHeader]) == expected[ClassHeader];
      assert own == classification;
      assert expected == headers;
    }
  }

  lemma AgreeSame(h: Host, m: MailTools, p: Payload, s: Payload, headers: Headers)
    requires s - SignatureFields() == p - SignatureFields()
    ensures HeadersAgree(h, m, s, headers) <==> HeadersAgree(h, m, p, headers)
  {
    hide BindingHeaders;
    HeadersIgnoreSignature(h, m, p, s, ExpectedClass(h, p, headers));
  }

  /** What a signed or unsigned payload is taken for under the same secrets. */
  function OwnClass(m: MailTools, p: Payload, keyId: string): string {
    if m.pick(keyId).Some? then VERIFIED
    else if SchemaName in p && p[SchemaName] == Str("ProductMaterialWorkflow/v1") then STRUCTURED
    else PLAIN
  }

  lemma SignedClass(h: Host, m: MailTools, p: Payload, keyId: string, identityId: string)
    requires SignsPlainly(h, m) && (m.pick(keyId).Some? ==> h.strip(keyId) == keyId)
    requires h.strip("") == ""
    ensures Sign(h, m, p, keyId, identityId).Some? <==> m.pick(keyId).Some? ==> |m.pick(keyId).value| >= 32
    ensures Sign(h, m, p, keyId, identityId).Some? ==>
      var s := Sign(h, m, p, keyId, identityId).value;
      s - SignatureFields() == p - SignatureFields() && Classify(h, m, s) == OwnClass(m, p, keyId)
  {
    if m.pick(keyId).Some? && |m.pick(keyId).value| >= 32 {
      SignedVerifies(h, m, p, keyId, identityId);
    } else if m.pick(keyId).None? {
      var s := p[CONTRACT := Str(CONTRACT_NAME)] - {AUTH, HMAC};
      assert s - SignatureFields() == p - SignatureFields();
      FieldKept(p, s, SchemaName, SignatureFields());
    }
  }

  /** Render and parse. A mail whose summary is free of the begin marker, signed under a trimmed
      key id with a long enough secret or not signed at all, is read back under the same secrets
      as the payload that was rendered, marked as verified, structured or plain where it carries
      no mark of its own, exactly when its header texts are trimmed and it claims no other
      classification than the one shown; else it is refused as drift. A caller may have another
      classification shown; it does not change the mark. */
  lemma MailRoundTrip(h: Host, m: MailTools, p: Payload, keyId: string, identityId: string,
                      summary: seq<string>, override: string)
    requires IsMailHost(h, m) && (m.pick(keyId).Some? ==> h.strip(keyId) == keyId)
    requires h.strip(override) == override
    requires forall i :: 0 <= i < |summary| ==> IsFree(summary[i], BEGIN)
    ensures Render(h, m, p, keyId, identityId, summary, override).None?
       <==> m.pick(keyId).Some? && |m.pick(keyId).value| < 32
    ensures Render(h, m, p, keyId, identityId, summary, override).Some? ==>
      var mail := Render(h, m, p, keyId, identityId, summary, override).value;
      var mark := OwnClass(m, p, keyId);
      var shown := if override != "" then override else mark;
      && mail.signed - SignatureFields() == p - SignatureFields()
      && Parse(h, m, mail.body, mail.headers)
           == if AreTrimmed(h, BindingHeaders(m, p, shown)) && IsOwnClass(h, p, shown) then
                Accepted(WithDefault(WithDefault(mail.signed, CLASS, Str(mark)), BADGE, Str(Badge(mark))))
              else Rejected(HeaderDrift)
  {
    hide Sign, Classify, IsFree, DecodeBlock, EncodeBlock, Joined, HeadersAgree, BindingHeaders, NotBlank, Badge;
    hide AreTrimmed, IsOwnClass, SignatureFields;
    SignedClass(h, m, p, keyId, identityId);
    if Sign(h, m, p, keyId, identityId).Some? {
      RenderedDecodes(h, m, p, keyId, identityId, summary, override);
      var mail := Render(h, m, p, keyId, identityId, summary, override).value;
      AgreeSame(h, m, p, mail.signed, mail.headers);
      HeadersRoundTrip(h, m, p, if override != "" then override else OwnClass(m, p, keyId));
    }
  }
}
