/** buildEnvelope: what it signs, what the relay verifies, and its size check
    against the bytes that are really sent and the relay's body limit. Key
    agreement, encryption and signing appear through the lengths they are known
    to produce.

    Sources: packages/core/src/envelope.ts, encrypt.ts, base64.ts, types.ts. */
module EnvelopeSize {
  import opened Basics
  import opened JsonText
  import ScutUri

  const ENVELOPE_ID_BYTES := 32
  const SIGNATURE_BYTES := 64
  const AEAD_BYTES := 16
  const MAX_CIPHERTEXT_BYTES := 65536
  const MAX_ENVELOPE_BYTES := 102400

  /** limits.maxEnvelopeBytes, the relay's default body limit. */
  const BODY_LIMIT := 102400

  // ---- Base64 with padding: section 4 of RFC 4648 ----

  function Letter(d: nat): (c: char)
    requires d < 64
    ensures PlainChar(c)
  {
    if d < 26 then ('A' as int + d) as char
    else if d < 52 then ('a' as int + d - 26) as char
    else if d < 62 then ('0' as int + d - 52) as char
    else if d == 62 then '+'
    else '/'
  }

  /** Four letters for three bytes. */
  function Triple(x: Byte, y: Byte, z: Byte): (s: string)
    ensures Plain(s) && |s| == 4
  {
    [Letter(x / 4), Letter(x % 4 * 16 + y / 16), Letter(y % 16 * 4 + z / 64), Letter(z % 64)]
  }

  function Base64(b: seq<Byte>): (s: string)
    ensures Plain(s) && |s| == Base64Length(|b|)
  {
    if |b| == 0 then ""
    else if |b| == 1 then [Letter(b[0] / 4), Letter(b[0] % 4 * 16), '=', '=']
    else if |b| == 2 then [Letter(b[0] / 4), Letter(b[0] % 4 * 16 + b[1] / 16), Letter(b[1] % 16 * 4), '=']
    else Triple(b[0], b[1], b[2]) + Base64(b[3..])
  }

  function Base64Length(n: nat): nat {
    (n + 2) / 3 * 4
  }

  // ---- buildEnvelope ----

  /** What the sender chooses, and the text of the clock (toISOString). */
  datatype Params = Params(from: string, recipient: string, body: string, ttlSeconds: int, sentAt: string)

  /** What libsodium contributes to one envelope. */
  datatype Sealing = Sealing(
    envelopeId: seq<Byte>,
    ciphertext: seq<Byte>,
    ephemeralPublicKey: seq<Byte>,
    sign: seq<Byte> -> seq<Byte>)

  ghost predicate Sealed(k: Sealing, plaintext: seq<Byte>) {
    && |k.envelopeId| == ENVELOPE_ID_BYTES
    && |k.ciphertext| == |plaintext| + AEAD_BYTES
    && |k.ephemeralPublicKey| == 32
    && forall message :: |k.sign(message)| == SIGNATURE_BYTES
  }

  function EmptyReserved(): Json {
    Obj([Member("ratchet_state", Null), Member("relay_path", Null), Member("recipient_hint", Null),
         Member("attachments", Arr([])), Member("recipient_set", Null)])
  }

  function Heading(p: Params, id: string): seq<Member> {
    [Member("protocol_version", Num(1)),
     Member("envelope_id", Str(id)),
     Member("from", Str(p.from)),
     Member("to", Str(p.recipient)),
     Member("sent_at", Str(p.sentAt))]
  }

  function Contents(p: Params, ciphertext: string, pubkey: string): seq<Member> {
    [Member("ttl_seconds", Num(p.ttlSeconds)),
     Member("ciphertext", Str(ciphertext)),
     Member("ephemeral_pubkey", Str(pubkey)),
     Member("v2_reserved", EmptyReserved())]
  }

  /** The object that is signed. */
  function WithoutSignature(p: Params, k: Sealing): seq<Member> {
    Heading(p, Base64(k.envelopeId)) + Contents(p, Base64(k.ciphertext), Base64(k.ephemeralPublicKey))
  }

  /** canonicalBytesForSigning: the signature member is dropped first. */
  function BytesForSigning(envelope: seq<Member>): seq<Byte> {
    Utf8(Text(Canonical(Obj(Unsigned(envelope)))))
  }

  function Unsigned(envelope: seq<Member>): seq<Member> {
    Dropping(envelope, "signature")
  }

  function Dropping(members: seq<Member>, name: string): seq<Member> {
    if |members| == 0 then []
    else if members[0].name == name then Dropping(members[1..], name)
    else [members[0]] + Dropping(members[1..], name)
  }

  datatype Built = Envelope(members: seq<Member>) | PlaintextTooLarge | EnvelopeTooLarge(size: nat)

  function Signed(p: Params, k: Sealing): seq<Member> {
    var withoutSig := WithoutSignature(p, k);
    withoutSig + [Member("signature", Str(Base64(k.sign(BytesForSigning(withoutSig)))))]
  }

  /** The size that is checked. */
  function ComputedSize(p: Params, k: Sealing): nat {
    |BytesForSigning(Signed(p, k))| + |k.sign(BytesForSigning(WithoutSignature(p, k)))| + 40
  }

  function Build(p: Params, k: Sealing): Built {
    if |Utf8(p.body)| > MAX_CIPHERTEXT_BYTES - AEAD_BYTES || |k.ciphertext| > MAX_CIPHERTEXT_BYTES
    then PlaintextTooLarge
    else if ComputedSize(p, k) > MAX_ENVELOPE_BYTES then EnvelopeTooLarge(ComputedSize(p, k))
    else Envelope(Signed(p, k))
  }

  /** JSON.stringify(envelope) in bytes: the body of the push request. */
  function SentBytes(envelope: seq<Member>): nat {
    Size(Text(Obj(envelope)))
  }

  // ---- What is signed and what is verified ----

  lemma {:induction false} DroppingCount(members: seq<Member>, name: string, m: Member)
    ensures multiset(Dropping(members, name))[m] == if m.name == name then 0 else multiset(members)[m]
  {
    if |members| > 0 {
      var first, more := members[0], members[1..];
      DroppingCount(more, name, m);
      assert members == [first] + more;
      ConsCount(first, more, m);
      ConsCount(first, Dropping(more, name), m);
    }
  }

  lemma {:induction false} DroppingDistinct(members: seq<Member>, name: string)
    requires DistinctNames(members)
    ensures DistinctNames(Dropping(members, name))
  {
    if |members| > 0 {
      var rest := Dropping(members[1..], name);
      DroppingDistinct(members[1..], name);
      forall i | 0 <= i < |rest|
        ensures rest[i].name != members[0].name
      {
        DroppingCount(members[1..], name, rest[i]);
        assert rest[i] in multiset(rest);
        assert rest[i] in members[1..];
      }
    }
  }

  lemma DroppingIgnoresOrder(a: seq<Member>, b: seq<Member>, name: string)
    requires multiset(a) == multiset(b) && DistinctNames(a) && DistinctNames(b)
    ensures SortedMembers(Dropping(a, name)) == SortedMembers(Dropping(b, name))
  {
    forall m
      ensures multiset(Dropping(a, name))[m] == multiset(Dropping(b, name))[m]
    {
      DroppingCount(a, name, m);
      DroppingCount(b, name, m);
    }
    DroppingDistinct(a, name);
    DroppingDistinct(b, name);
    CanonicalIgnoresOrder(Dropping(a, name), Dropping(b, name));
  }

  /** The bytes that are verified depend on the members alone, not on their
      order or on the signature that came with them. */
  lemma SignedBytesIgnoreOrder(a: seq<Member>, b: seq<Member>)
    requires multiset(a) == multiset(b) && DistinctNames(a) && DistinctNames(b)
    ensures BytesForSigning(a) == BytesForSigning(b)
  {
    DroppingIgnoresOrder(a, b, "signature");
  }

  // ---- The computed size against the bytes sent ----

  /** No member is called that. */
  predicate Free(members: seq<Member>, name: string) {
    forall i :: 0 <= i < |members| ==> members[i].name != name
  }

  lemma {:induction false} DroppingLast(members: seq<Member>, last: Member)
    requires Free(members, last.name)
    ensures Dropping(members + [last], last.name) == Dropping(members, last.name) == members
  {
    if |members| == 0 {
      assert members + [last] == [last];
    } else {
      DroppingLast(members[1..], last);
      assert (members + [last])[1..] == members[1..] + [last];
    }
  }

  lemma NamesApart(p: Params, k: Sealing)
    ensures Free(WithoutSignature(p, k), "signature")
  {
  }

  /** What one more member costs. */
  lemma OneMoreMember(members: seq<Member>, m: Member)
    requires |members| > 0
    ensures Size(Text(Obj(members + [m]))) == Size(Text(Obj(members))) + MemberCost()(m)
  {
    SumConcat(members, [m], MemberCost());
    SumCons(m, [], MemberCost());
    SizeOfObject(members);
    SizeOfObject(members + [m]);
  }

  lemma NameSize(name: string, value: Json)
    requires Plain(name)
    ensures MemberCost()(Member(name, value)) == |name| + 4 + Size(Text(value))
  {
    SizeOfMember(Member(name, value));
    SizeOfQuoted(name);
  }

  lemma SignatureCost(signature: string)
    requires Plain(signature)
    ensures MemberCost()(Member("signature", Str(signature))) == 15 + |signature|
  {
    NameSize("signature", Str(signature));
    SizeOfQuoted(signature);
  }

  /** Signing does not change what is signed, and it is as long as the unsigned
      object's own JSON. */
  lemma SignedBytes(p: Params, k: Sealing)
    ensures BytesForSigning(Signed(p, k)) == BytesForSigning(WithoutSignature(p, k))
    ensures |BytesForSigning(Signed(p, k))| == SentBytes(WithoutSignature(p, k))
  {
    var members := WithoutSignature(p, k);
    NamesApart(p, k);
    DroppingLast(members, Member("signature", Str(Base64(k.sign(BytesForSigning(members))))));
    CanonicalSize(Obj(members));
  }

  /** Lengths and first letters tell the ten names apart. */
  lemma SignedNames(p: Params, k: Sealing)
    ensures DistinctNames(Signed(p, k))
  {
    var m := Signed(p, k);
    assert |m[0].name| == 16 && |m[1].name| == 11 && |m[2].name| == 4 && |m[3].name| == 2 && |m[4].name| == 7;
    assert |m[5].name| == 11 && |m[6].name| == 10 && |m[7].name| == 16 && |m[8].name| == 11 && |m[9].name| == 9;
    assert m[0].name[0] == 'p' && m[7].name[0] == 'e';
    assert m[1].name[0] == 'e' && m[5].name[0] == 't' && m[8].name[0] == 'v';
  }

  /** However the members arrive, the relay verifies the very bytes that were
      signed, with the signature on them. */
  lemma VerifiedIsSigned(p: Params, k: Sealing, received: seq<Member>)
    ensures multiset(received) == multiset(Signed(p, k)) && DistinctNames(received) ==>
              && BytesForSigning(received) == BytesForSigning(WithoutSignature(p, k))
              && Member("signature", Str(Base64(k.sign(BytesForSigning(received))))) in received
  {
    if multiset(received) == multiset(Signed(p, k)) && DistinctNames(received) {
      SignedNames(p, k);
      SignedBytesIgnoreOrder(received, Signed(p, k));
      SignedBytes(p, k);
      var last := Member("signature", Str(Base64(k.sign(BytesForSigning(WithoutSignature(p, k))))));
      assert last in Signed(p, k);
      assert last in multiset(received);
    }
  }

  /** The number buildEnvelope checks is one more than the bytes that are sent. */
  lemma SizeIsOneMore(p: Params, k: Sealing)
    requires Sealed(k, Utf8(p.body))
    ensures ComputedSize(p, k) == SentBytes(Signed(p, k)) + 1
  {
    var members := WithoutSignature(p, k);
    var signature := Base64(k.sign(BytesForSigning(members)));
    SignedBytes(p, k);
    SignatureCost(signature);
    OneMoreMember(members, Member("signature", Str(signature)));
  }

  /** Every envelope that is built fits the relay's default body limit, with a
      byte to spare: the check refuses one envelope size the relay would take. */
  lemma BuiltFits(p: Params, k: Sealing)
    requires Sealed(k, Utf8(p.body))
    ensures Build(p, k).Envelope? ==> SentBytes(Build(p, k).members) < BODY_LIMIT
    ensures |Utf8(p.body)| <= MAX_CIPHERTEXT_BYTES - AEAD_BYTES ==>
              (Build(p, k).EnvelopeTooLarge? <==> SentBytes(Signed(p, k)) >= BODY_LIMIT)
  {
    SizeIsOneMore(p, k);
  }

  /** What is built, and what is refused for which reason. */
  lemma BuildIff(p: Params, k: Sealing)
    requires Sealed(k, Utf8(p.body))
    ensures Build(p, k).PlaintextTooLarge? <==> |Utf8(p.body)| > 65_520
    ensures Build(p, k).EnvelopeTooLarge? <==> |Utf8(p.body)| <= 65_520 && SentBytes(Signed(p, k)) >= 102_400
    ensures Build(p, k).Envelope? ==> Build(p, k).members == Signed(p, k)
  {
    SizeIsOneMore(p, k);
  }

  // ---- Which senders can send every body ----

  /** The bytes of an envelope that depend on the parties, the clock and the
      time to live. */
  function AddressBytes(p: Params): nat {
    Size(FlatMap(p.from, Escaping())) + Size(FlatMap(p.recipient, Escaping()))
    + Size(FlatMap(p.sentAt, Escaping())) + Size(NumberText(p.ttlSeconds))
  }

  lemma NullMember(name: string)
    requires Plain(name)
    ensures MemberCost()(Member(name, Null)) == |name| + 8
  {
    NameSize(name, Null);
    SizeOfAscii("null");
  }

  lemma AttachmentsCost()
    ensures MemberCost()(Member("attachments", Arr([]))) == 17
  {
    SizeOfArray([]);
    NameSize("attachments", Arr([]));
  }

  lemma NullCosts()
    ensures MemberCost()(Member("ratchet_state", Null)) == 21
    ensures MemberCost()(Member("relay_path", Null)) == 18
  {
    NullMember("ratchet_state");
    NullMember("relay_path");
  }

  lemma RecipientCosts()
    ensures MemberCost()(Member("recipient_hint", Null)) == 22
    ensures MemberCost()(Member("recipient_set", Null)) == 21
  {
    NullMember("recipient_hint");
    NullMember("recipient_set");
  }

  lemma ReservedSize()
    ensures Size(Text(EmptyReserved())) == 100
  {
    NullCosts();
    RecipientCosts();
    AttachmentsCost();
    SizeOfObject(EmptyReserved().members);
    SumOfFive(Member("ratchet_state", Null), Member("relay_path", Null), Member("recipient_hint", Null),
              Member("attachments", Arr([])), Member("recipient_set", Null), MemberCost());
  }

  lemma TextMember(name: string, text: string)
    requires Plain(name)
    ensures MemberCost()(Member(name, Str(text))) == |name| + 6 + Size(FlatMap(text, Escaping()))
    ensures Plain(text) ==> MemberCost()(Member(name, Str(text))) == |name| + 6 + |text|
  {
    NameSize(name, Str(text));
    SizeOfQuoted(text);
  }

  lemma VersionCost()
    ensures MemberCost()(Member("protocol_version", Num(1))) == 21
  {
    OneSize();
    NameSize("protocol_version", Num(1));
  }

  lemma IdCost(id: string)
    requires Plain(id)
    ensures MemberCost()(Member("envelope_id", Str(id))) == 17 + |id|
  {
    TextMember("envelope_id", id);
  }

  lemma SenderCost(from: string)
    ensures MemberCost()(Member("from", Str(from))) == 10 + Size(FlatMap(from, Escaping()))
  {
    TextMember("from", from);
  }

  lemma RecipientCost(recipient: string)
    ensures MemberCost()(Member("to", Str(recipient))) == 8 + Size(FlatMap(recipient, Escaping()))
  {
    TextMember("to", recipient);
  }

  lemma ClockCost(sentAt: string)
    ensures MemberCost()(Member("sent_at", Str(sentAt))) == 13 + Size(FlatMap(sentAt, Escaping()))
  {
    TextMember("sent_at", sentAt);
  }

  lemma HeadingSize(p: Params, id: string)
    requires Plain(id)
    ensures Sum(Heading(p, id), MemberCost())
            == 69 + |id| + Size(FlatMap(p.from, Escaping())) + Size(FlatMap(p.recipient, Escaping()))
               + Size(FlatMap(p.sentAt, Escaping()))
  {
    VersionCost();
    IdCost(id);
    SenderCost(p.from);
    RecipientCost(p.recipient);
    ClockCost(p.sentAt);
    SumOfFive(Member("protocol_version", Num(1)), Member("envelope_id", Str(id)), Member("from", Str(p.from)),
              Member("to", Str(p.recipient)), Member("sent_at", Str(p.sentAt)), MemberCost());
  }

  lemma TtlCost(ttl: int)
    ensures MemberCost()(Member("ttl_seconds", Num(ttl))) == 15 + Size(NumberText(ttl))
  {
    NameSize("ttl_seconds", Num(ttl));
  }

  lemma CiphertextCost(ct: string)
    requires Plain(ct)
    ensures MemberCost()(Member("ciphertext", Str(ct))) == 16 + |ct|
  {
    TextMember("ciphertext", ct);
  }

  lemma PubkeyCost(key: string)
    requires Plain(key)
    ensures MemberCost()(Member("ephemeral_pubkey", Str(key))) == 22 + |key|
  {
    TextMember("ephemeral_pubkey", key);
  }

  lemma ReservedCost(reserved: Json)
    ensures MemberCost()(Member("v2_reserved", reserved)) == 15 + Size(Text(reserved))
  {
    NameSize("v2_reserved", reserved);
  }

  lemma ContentsSize(p: Params, ct: string, key: string)
    requires Plain(ct) && Plain(key)
    ensures Sum(Contents(p, ct, key), MemberCost()) == 168 + Size(NumberText(p.ttlSeconds)) + |ct| + |key|
  {
    TtlCost(p.ttlSeconds);
    CiphertextCost(ct);
    PubkeyCost(key);
    ReservedSize();
    ReservedCost(EmptyReserved());
    SumOfFour(Member("ttl_seconds", Num(p.ttlSeconds)), Member("ciphertext", Str(ct)),
              Member("ephemeral_pubkey", Str(key)), Member("v2_reserved", EmptyReserved()), MemberCost());
  }

  lemma OneSize()
    ensures Size(Text(Num(1))) == 1
  {
  }

  /** The bytes sent, without the signature. */
  lemma UnsignedSize(p: Params, k: Sealing)
    requires |k.envelopeId| == ENVELOPE_ID_BYTES && |k.ephemeralPublicKey| == 32
    ensures SentBytes(WithoutSignature(p, k)) == 326 + AddressBytes(p) + Base64Length(|k.ciphertext|)
  {
    var id, ct, key := Base64(k.envelopeId), Base64(k.ciphertext), Base64(k.ephemeralPublicKey);
    HeadingSize(p, id);
    ContentsSize(p, ct, key);
    SumConcat(Heading(p, id), Contents(p, ct, key), MemberCost());
    SizeOfObject(WithoutSignature(p, k));
  }

  /** The size check, spelled out. */
  lemma ComputedSizeExact(p: Params, k: Sealing)
    requires Sealed(k, Utf8(p.body))
    ensures ComputedSize(p, k) == 430 + AddressBytes(p) + Base64Length(|Utf8(p.body)| + AEAD_BYTES)
  {
    SignedBytes(p, k);
    UnsignedSize(p, k);
  }

  /** What is left for the parties, the clock and the time to live. */
  const ADDRESS_BUDGET := 14586

  /** Every body that may be encrypted can be sent. */
  ghost predicate AnyBodyFits(p: Params) {
    forall body, k :: |Utf8(body)| <= MAX_CIPHERTEXT_BYTES - AEAD_BYTES && Sealed(k, Utf8(body)) ==>
      Build(p.(body := body), k).Envelope?
  }

  function Zeros(n: nat): seq<Byte> {
    seq(n, i => 0)
  }

  function SomeSealing(n: nat): Sealing {
    Sealing(Zeros(ENVELOPE_ID_BYTES), Zeros(n + AEAD_BYTES), Zeros(32), (message: seq<Byte>) => Zeros(SIGNATURE_BYTES))
  }

  function LongestBody(): string {
    seq(65520, i => 'a')
  }

  /** Within the budget every body fits; beyond it, none of the longest does. */
  lemma BudgetDecides(p: Params, body: string, k: Sealing)
    requires |Utf8(body)| <= MAX_CIPHERTEXT_BYTES - AEAD_BYTES && Sealed(k, Utf8(body))
    ensures AddressBytes(p) <= ADDRESS_BUDGET ==> Build(p.(body := body), k).Envelope?
    ensures AddressBytes(p) > ADDRESS_BUDGET && |Utf8(body)| == 65520 ==> !Build(p.(body := body), k).Envelope?
  {
    ComputedSizeExact(p.(body := body), k);
    assert AddressBytes(p.(body := body)) == AddressBytes(p);
  }

  lemma LongestBodySize()
    ensures |Utf8(LongestBody())| == 65520 && Sealed(SomeSealing(65520), Utf8(LongestBody()))
  {
    SizeOfAscii(LongestBody());
  }

  /** The size check can refuse a body that may be encrypted exactly when the
      parties, the clock and the time to live take more than the budget. */
  lemma AnyBodyFitsIff(p: Params)
    ensures AnyBodyFits(p) <==> AddressBytes(p) <= ADDRESS_BUDGET
  {
    if AddressBytes(p) <= ADDRESS_BUDGET {
      forall body, k | |Utf8(body)| <= MAX_CIPHERTEXT_BYTES - AEAD_BYTES && Sealed(k, Utf8(body))
        ensures Build(p.(body := body), k).Envelope?
      {
        BudgetDecides(p, body, k);
      }
    } else {
      LongestBodySize();
      BudgetDecides(p, LongestBody(), SomeSealing(65520));
    }
  }

  lemma UriIsPlain(uri: string)
    requires ScutUri.IsScutUri(uri)
    ensures Size(FlatMap(uri, Escaping())) == |uri|
  {
    forall k | 0 <= k < |uri|
      ensures PlainChar(uri[k])
    {
      ScutUri.UriIsPlain(uri, k);
    }
    PlainSize(uri);
  }

  /** Between two scut:// URIs: every body can be sent exactly when the URIs, the
      timestamp and the time to live together are at most 14586 characters. */
  lemma ScutPartiesFitIff(p: Params)
    requires ScutUri.IsScutUri(p.from) && ScutUri.IsScutUri(p.recipient) && Plain(p.sentAt)
    ensures AnyBodyFits(p)
            <==> |p.from| + |p.recipient| + |p.sentAt| + |NumberText(p.ttlSeconds)| <= ADDRESS_BUDGET
  {
    UriIsPlain(p.from);
    UriIsPlain(p.recipient);
    PlainSize(p.sentAt);
    NumberSize(p.ttlSeconds);
    AnyBodyFitsIff(p);
  }

  lemma PlainSize(s: string)
    requires Plain(s)
    ensures Size(FlatMap(s, Escaping())) == |s|
  {
    PlainIsUnescaped(s);
    SizeOfAscii(s);
  }

  lemma NumberSize(n: int)
    ensures Size(NumberText(n)) == |NumberText(n)|
  {
    SizeOfAscii(NumberText(n));
  }
}
