/** What a verified signature says of an envelope: that every member of it is the
    one that was signed. And base64 read back. Sources: packages/core/src/sign.ts,
    envelope.ts and base64.ts. */
module EnvelopeReader {
  import opened Basics
  import opened JsonText
  import opened JsonReader
  import opened EnvelopeSize
  import AuthHeader

  // ---- The signed bytes bind the members ----

  lemma {:induction false} InsertReadable(m: Member, sorted: seq<Member>)
    requires Readable(m.value) && MembersReadable(sorted)
    ensures MembersReadable(InsertMember(m, sorted))
  {
    if |sorted| > 0 {
      InsertReadable(m, sorted[1..]);
      assert ([m] + sorted)[1..] == sorted;
      assert ([sorted[0]] + InsertMember(m, sorted[1..]))[1..] == InsertMember(m, sorted[1..]);
    }
  }

  lemma {:induction false} CanonicalReadable(j: Json)
    requires Readable(j)
    ensures Readable(Canonical(j))
    decreases j, 1
  {
    match j
    case Arr(items) => ItemsReadable(items);
    case Obj(members) => SortedReadable(members);
    case _ =>
  }

  lemma {:induction false} ItemsReadable(items: seq<Json>)
    requires AllReadable(items)
    ensures AllReadable(CanonicalItems(items))
    decreases items, 0
  {
    if |items| > 0 {
      CanonicalReadable(items[0]);
      ItemsReadable(items[1..]);
      assert ([Canonical(items[0])] + CanonicalItems(items[1..]))[1..] == CanonicalItems(items[1..]);
    }
  }

  lemma {:induction false} SortedReadable(members: seq<Member>)
    requires MembersReadable(members)
    ensures MembersReadable(SortedMembers(members))
    decreases members, 0
  {
    if |members| > 0 {
      CanonicalReadable(members[0].value);
      SortedReadable(members[1..]);
      InsertReadable(InCanonicalForm(members[0]), SortedMembers(members[1..]));
    }
  }

  lemma {:induction false} DroppingReadable(members: seq<Member>, name: string)
    requires MembersReadable(members)
    ensures MembersReadable(Dropping(members, name))
  {
    if |members| > 0 {
      var rest := Dropping(members[1..], name);
      DroppingReadable(members[1..], name);
      assert ([members[0]] + rest)[1..] == rest;
    }
  }

  /** The bytes that are signed can be read back. */
  lemma ReadSigned(m: seq<Member>)
    requires MembersReadable(m)
    ensures ReadUtf8(BytesForSigning(m)).Some?
    ensures ReadValue(ReadUtf8(BytesForSigning(m)).value) == Some((Obj(SortedMembers(Unsigned(m))), ""))
  {
    var form := Obj(SortedMembers(Unsigned(m)));
    DroppingReadable(m, "signature");
    SortedReadable(Unsigned(m));
    Utf8Back(Text(form));
    ParseStringify(form);
  }

  /** The same bytes to sign, the same canonical form. */
  lemma SameBytesSameForm(a: seq<Member>, b: seq<Member>)
    requires MembersReadable(a) && MembersReadable(b)
    ensures BytesForSigning(a) == BytesForSigning(b) <==> SortedMembers(Unsigned(a)) == SortedMembers(Unsigned(b))
  {
    ReadSigned(a);
    ReadSigned(b);
  }

  lemma {:induction false} InsertedHas(m: Member, sorted: seq<Member>, x: Member)
    ensures x in InsertMember(m, sorted) <==> x == m || x in sorted
  {
    if |sorted| > 0 {
      InsertedHas(m, sorted[1..], x);
      assert sorted == [sorted[0]] + sorted[1..];
    }
  }

  /** Some member has this canonical form. */
  predicate HasForm(members: seq<Member>, x: Member) {
    exists i :: 0 <= i < |members| && InCanonicalForm(members[i]) == x
  }

  lemma {:induction false} SortedHas(members: seq<Member>, x: Member)
    ensures x in SortedMembers(members) <==> HasForm(members, x)
  {
    if |members| > 0 {
      var rest := members[1..];
      SortedHas(rest, x);
      InsertedHas(InCanonicalForm(members[0]), SortedMembers(rest), x);
      if i :| 0 <= i < |rest| && InCanonicalForm(rest[i]) == x {
        assert InCanonicalForm(members[i + 1]) == x;
      }
      if i :| 0 <= i < |members| && InCanonicalForm(members[i]) == x {
        assert i > 0 ==> InCanonicalForm(rest[i - 1]) == x;
      }
    }
  }

  lemma {:induction false} DroppedHas(members: seq<Member>, name: string, m: Member)
    ensures m in Dropping(members, name) <==> m in members && m.name != name
  {
    if |members| > 0 {
      DroppedHas(members[1..], name, m);
      assert members == [members[0]] + members[1..];
    }
  }

  /** The canonical members are in order of their names (section 3.2.3 of RFC
      8785). */
  predicate ByName(members: seq<Member>) {
    forall i, j :: 0 <= i < j < |members| ==> AuthHeader.Leq(members[i].name, members[j].name)
  }

  lemma ByNameCons(m: Member, rest: seq<Member>)
    requires ByName(rest) && (rest != [] ==> AuthHeader.Leq(m.name, rest[0].name))
    ensures ByName([m] + rest)
  {
    var all := [m] + rest;
    forall i, j | 0 <= i < j < |all|
      ensures AuthHeader.Leq(all[i].name, all[j].name)
    {
      if i == 0 && j > 1 {
        AuthHeader.LeqTransitive(m.name, rest[0].name, rest[j - 1].name);
      }
    }
  }

  lemma {:induction false} InsertByName(m: Member, sorted: seq<Member>)
    requires ByName(sorted)
    ensures ByName(InsertMember(m, sorted))
  {
    if |sorted| == 0 || AuthHeader.Leq(m.name, sorted[0].name) {
      ByNameCons(m, sorted);
    } else {
      var rest := InsertMember(m, sorted[1..]);
      InsertByName(m, sorted[1..]);
      AuthHeader.LeqTotal(m.name, sorted[0].name);
      InsertedHas(m, sorted[1..], rest[0]);
      if rest[0] in sorted[1..] {
        var i :| 0 <= i < |sorted[1..]| && sorted[1..][i] == rest[0];
        assert sorted[i + 1] == rest[0];
      }
      ByNameCons(sorted[0], rest);
    }
  }

  lemma {:induction false} CanonicalIsSorted(members: seq<Member>)
    ensures ByName(SortedMembers(members))
  {
    if |members| > 0 {
      CanonicalIsSorted(members[1..]);
      InsertByName(InCanonicalForm(members[0]), SortedMembers(members[1..]));
    }
  }

  /** If the same bytes are signed for both, every member of one but its signature
      is a member of the other, up to the order inside of objects. */
  lemma SignatureBinds(a: seq<Member>, b: seq<Member>, m: Member)
    requires MembersReadable(a) && MembersReadable(b) && BytesForSigning(a) == BytesForSigning(b)
    requires m in a && m.name != "signature"
    ensures HasForm(b, InCanonicalForm(m))
  {
    SameBytesSameForm(a, b);
    DroppedHas(a, "signature", m);
    var i :| 0 <= i < |Unsigned(a)| && Unsigned(a)[i] == m;
    assert HasForm(Unsigned(a), InCanonicalForm(m));
    SortedHas(Unsigned(a), InCanonicalForm(m));
    SortedHas(Unsigned(b), InCanonicalForm(m));
    var j :| 0 <= j < |Unsigned(b)| && InCanonicalForm(Unsigned(b)[j]) == InCanonicalForm(m);
    DroppedHas(b, "signature", Unsigned(b)[j]);
    var n :| 0 <= n < |b| && b[n] == Unsigned(b)[j];
  }

  /** A text or a number has one canonical form, itself. */
  lemma PlainForm(b: seq<Member>, m: Member)
    requires HasForm(b, InCanonicalForm(m)) && (m.value.Str? || m.value.Num?)
    ensures m in b
  {
    var i :| 0 <= i < |b| && InCanonicalForm(b[i]) == InCanonicalForm(m);
    assert b[i] == m;
  }

  lemma EnvelopeReadable(p: Params, k: Sealing)
    ensures MembersReadable(WithoutSignature(p, k))
  {
    AllMembersReadable(EmptyReserved().members);
    AllMembersReadable(WithoutSignature(p, k));
  }

  lemma {:induction false} AllMembersReadable(members: seq<Member>)
    requires forall i :: 0 <= i < |members| ==> Readable(members[i].value)
    ensures MembersReadable(members)
  {
    if |members| > 0 {
      AllMembersReadable(members[1..]);
    }
  }

  lemma SaysMember(p: Params, k: Sealing, received: seq<Member>, m: Member)
    requires MembersReadable(received) && BytesForSigning(received) == BytesForSigning(WithoutSignature(p, k))
    requires m in WithoutSignature(p, k) && (m.value.Str? || m.value.Num?)
    ensures m in received
  {
    EnvelopeReadable(p, k);
    NamesApart(p, k);
    SignatureBinds(WithoutSignature(p, k), received, m);
    PlainForm(received, m);
  }

  lemma SaysHeading(p: Params, k: Sealing, received: seq<Member>, i: nat)
    requires MembersReadable(received) && BytesForSigning(received) == BytesForSigning(WithoutSignature(p, k))
    requires i < 5
    ensures Heading(p, Base64(k.envelopeId))[i] in received
  {
    var m := Heading(p, Base64(k.envelopeId))[i];
    assert WithoutSignature(p, k)[i] == m;
    SaysMember(p, k, received, m);
  }

  lemma SaysContents(p: Params, k: Sealing, received: seq<Member>, i: nat)
    requires MembersReadable(received) && BytesForSigning(received) == BytesForSigning(WithoutSignature(p, k))
    requires i < 3
    ensures Contents(p, Base64(k.ciphertext), Base64(k.ephemeralPublicKey))[i] in received
  {
    var m := Contents(p, Base64(k.ciphertext), Base64(k.ephemeralPublicKey))[i];
    assert WithoutSignature(p, k)[5 + i] == m;
    SaysMember(p, k, received, m);
  }

  /** Whatever arrives under a signature that verifies is from the sender, to the
      recipient, of the time and with the contents that the sender signed. */
  lemma VerifiedSaysWhatWasSigned(p: Params, k: Sealing, received: seq<Member>)
    requires MembersReadable(received) && BytesForSigning(received) == BytesForSigning(WithoutSignature(p, k))
    ensures Member("protocol_version", Num(1)) in received
    ensures Member("envelope_id", Str(Base64(k.envelopeId))) in received
    ensures Member("from", Str(p.from)) in received && Member("to", Str(p.recipient)) in received
    ensures Member("sent_at", Str(p.sentAt)) in received && Member("ttl_seconds", Num(p.ttlSeconds)) in received
    ensures Member("ciphertext", Str(Base64(k.ciphertext))) in received
    ensures Member("ephemeral_pubkey", Str(Base64(k.ephemeralPublicKey))) in received
  {
    SaysHeading(p, k, received, 0);
    SaysHeading(p, k, received, 1);
    SaysHeading(p, k, received, 2);
    SaysHeading(p, k, received, 3);
    SaysHeading(p, k, received, 4);
    SaysContents(p, k, received, 0);
    SaysContents(p, k, received, 1);
    SaysContents(p, k, received, 2);
  }

  // ---- Base64 ----

  /** The six bits of a letter: section 4 of RFC 4648. */
  function LetterValue(c: char): Option<nat> {
    if 'A' <= c <= 'Z' then Some(c as nat - 65)
    else if 'a' <= c <= 'z' then Some(c as nat - 97 + 26)
    else if '0' <= c <= '9' then Some(c as nat - 48 + 52)
    else if c == '+' then Some(62)
    else if c == '/' then Some(63)
    else None
  }

  predicate IsLetter(c: char) {
    LetterValue(c).Some?
  }

  function ValueOf(c: char): (d: nat)
    ensures d < 64
  {
    LetterValue(c).UnwrapOr(0)
  }

  /** Decoding, four letters at a time; padding at the end only. */
  function Decoded(s: string): Option<seq<Byte>> {
    if s == "" then Some([])
    else if |s| < 4 || !IsLetter(s[0]) || !IsLetter(s[1]) then None
    else
      var a, b, c, d := ValueOf(s[0]), ValueOf(s[1]), ValueOf(s[2]), ValueOf(s[3]);
      if |s| == 4 && s[2] == '=' && s[3] == '=' then Some([a * 4 + b / 16])
      else if |s| == 4 && IsLetter(s[2]) && s[3] == '=' then Some([a * 4 + b / 16, b % 16 * 16 + c / 4])
      else if IsLetter(s[2]) && IsLetter(s[3]) && Decoded(s[4..]).Some? then
        Some([a * 4 + b / 16, b % 16 * 16 + c / 4, c % 4 * 64 + d] + Decoded(s[4..]).value)
      else None
  }

  lemma LetterBack(d: nat)
    requires d < 64
    ensures LetterValue(Letter(d)) == Some(d) && Letter(d) != '='
  {
  }

  lemma Sixes(x: Byte, y: Byte, z: Byte)
    ensures x / 4 * 4 + (x % 4 * 16 + y / 16) / 16 == x
    ensures (x % 4 * 16 + y / 16) % 16 * 16 + (y % 16 * 4 + z / 64) / 4 == y
    ensures (y % 16 * 4 + z / 64) % 4 * 64 + z % 64 == z
  {
  }

  lemma FourLetters(a: nat, b: nat, c: nat, d: nat, x: Byte, y: Byte, z: Byte, s: string, rest: seq<Byte>)
    requires a < 64 && b < 64 && c < 64 && d < 64 && Decoded(s) == Some(rest)
    requires a * 4 + b / 16 == x && b % 16 * 16 + c / 4 == y && c % 4 * 64 + d == z
    ensures Decoded([Letter(a), Letter(b), Letter(c), Letter(d)] + s) == Some([x, y, z] + rest)
  {
    LetterBack(a);
    LetterBack(b);
    LetterBack(c);
    LetterBack(d);
    assert ([Letter(a), Letter(b), Letter(c), Letter(d)] + s)[4..] == s;
  }

  lemma TripleBack(x: Byte, y: Byte, z: Byte, s: string, rest: seq<Byte>)
    requires Decoded(s) == Some(rest)
    ensures Decoded(Triple(x, y, z) + s) == Some([x, y, z] + rest)
  {
    Sixes(x, y, z);
    FourLetters(x / 4, x % 4 * 16 + y / 16, y % 16 * 4 + z / 64, z % 64, x, y, z, s, rest);
  }

  lemma OneBack(x: Byte)
    ensures Decoded(Base64([x])) == Some([x])
  {
    LetterBack(x / 4);
    LetterBack(x % 4 * 16);
  }

  lemma TwoBytesBack(x: Byte, y: Byte)
    ensures Decoded(Base64([x, y])) == Some([x, y])
  {
    LetterBack(x / 4);
    LetterBack(x % 4 * 16 + y / 16);
    LetterBack(y % 16 * 4);
  }

  lemma Base64Next(b: seq<Byte>)
    requires |b| > 2
    ensures Base64(b) == Triple(b[0], b[1], b[2]) + Base64(b[3..])
  {
  }

  lemma FirstThree(b: seq<Byte>)
    requires |b| > 2
    ensures b == [b[0], b[1], b[2]] + b[3..]
  {
    assert b == b[..3] + b[3..] && b[..3] == [b[0], b[1], b[2]];
  }

  /** Decoding undoes encoding. */
  lemma {:induction false} Base64RoundTrip(b: seq<Byte>)
    ensures Decoded(Base64(b)) == Some(b)
  {
    if |b| == 1 {
      OneBack(b[0]);
      assert b == [b[0]];
    } else if |b| == 2 {
      TwoBytesBack(b[0], b[1]);
      assert b == [b[0], b[1]];
    } else if |b| > 2 {
      Base64Next(b);
      FirstThree(b);
      Base64RoundTrip(b[3..]);
      TripleBack(b[0], b[1], b[2], Base64(b[3..]), b[3..]);
    }
  }
}
