/** The SCUT-Signature header and the strings that are signed.
    Source: packages/core/src/auth-header.ts. */
module AuthHeader {
  import opened Basics
  import opened Strings

  datatype Fields = Fields(agentId: string, timestamp: string, nonce: string, signature: string)

  datatype HeaderError = MissingHeader | WrongScheme | MalformedSegment | MissingField

  datatype Parsed = Ok(fields: Fields) | Err(error: HeaderError)

  const SCHEME := "SCUT-Signature "

  // ---- Header ----

  function Format(f: Fields): string {
    SCHEME + Join(Segments(f), ',')
  }

  function Segment(key: string, value: string): string {
    key + "=" + value
  }

  function Segments(f: Fields): seq<string> {
    [Segment("agent_id", f.agentId)] + ([Segment("ts", f.timestamp)]
      + ([Segment("nonce", f.nonce)] + ([Segment("sig", f.signature)] + [])))
  }

  function WithPair(m: map<string, string>, part: string): Option<map<string, string>> {
    var eq := IndexOf(part, '=');
    if eq == |part| || eq == 0 then None
    else Some(m[Trim(part[..eq]) := Trim(part[eq + 1..])])
  }

  /** Adds the key=value pairs of the segments to m, later ones overriding; None
      when a segment has no key. */
  function Pairs(m: map<string, string>, segments: seq<string>): Option<map<string, string>>
    decreases |segments|
  {
    if |segments| == 0 then Some(m)
    else
      var next := WithPair(m, segments[0]);
      if next.None? then None else Pairs(next.value, segments[1..])
  }

  function Field(m: map<string, string>, key: string): string {
    if key in m then m[key] else ""
  }

  function Parse(header: Option<string>): Parsed {
    if header.None? || header.value == "" then Err(MissingHeader)
    else if !StartsWith(header.value, SCHEME) then Err(WrongScheme)
    else
      var pairs := Pairs(map[], Split(header.value[|SCHEME|..], ','));
      if pairs.None? then Err(MalformedSegment)
      else
        var m := pairs.value;
        var f := Fields(Field(m, "agent_id"), Field(m, "ts"), Field(m, "nonce"), Field(m, "sig"));
        if f.agentId == "" || f.timestamp == "" || f.nonce == "" || f.signature == "" then Err(MissingField)
        else Ok(f)
  }

  /** parseSignatureHeader, loop and all. */
  method ParseSignatureHeader(header: Option<string>) returns (result: Parsed)
    ensures result == Parse(header)
  {
    if header.None? || header.value == "" {
      return Err(MissingHeader);
    }
    if !StartsWith(header.value, SCHEME) {
      return Err(WrongScheme);
    }
    var parts := Split(header.value[|SCHEME|..], ',');
    var m: map<string, string> := map[];
    for i := 0 to |parts|
      invariant Pairs(m, parts[i..]) == Pairs(map[], parts)
    {
      assert parts[i..][0] == parts[i] && parts[i..][1..] == parts[i + 1..];
      var part := parts[i];
      var eq := IndexOf(part, '=');
      if eq == |part| || eq == 0 {
        return Err(MalformedSegment);
      }
      m := m[Trim(part[..eq]) := Trim(part[eq + 1..])];
    }
    var f := Fields(Field(m, "agent_id"), Field(m, "ts"), Field(m, "nonce"), Field(m, "sig"));
    if f.agentId == "" || f.timestamp == "" || f.nonce == "" || f.signature == "" {
      return Err(MissingField);
    }
    return Ok(f);
  }

  // ---- What is parsed, segment by segment ----

  /** The segment has a key: something before its first '='. */
  predicate Keyed(part: string) {
    '=' in part && part[0] != '='
  }

  function KeyIn(part: string): string {
    Trim(part[..IndexOf(part, '=')])
  }

  function ValueIn(part: string): string
    requires '=' in part
  {
    Trim(part[IndexOf(part, '=') + 1..])
  }

  /** What the last segment with this key says, and nothing when there is none. */
  function LastValue(segments: seq<string>, key: string): string
    requires forall i :: 0 <= i < |segments| ==> Keyed(segments[i])
  {
    if |segments| == 0 then ""
    else
      var last := segments[|segments| - 1];
      assert Keyed(last);
      if KeyIn(last) == key then ValueIn(last) else LastValue(segments[..|segments| - 1], key)
  }

  lemma PairOf(m: map<string, string>, part: string)
    ensures WithPair(m, part).Some? <==> Keyed(part)
    ensures Keyed(part) ==> WithPair(m, part) == Some(m[KeyIn(part) := ValueIn(part)])
  {
    var eq := IndexOf(part, '=');
    assert '=' in part ==> eq < |part|;
  }

  lemma {:induction false} PairsSplit(m: map<string, string>, a: seq<string>, last: string)
    ensures Pairs(m, a + [last])
            == if Pairs(m, a).None? then None else WithPair(Pairs(m, a).value, last)
    decreases |a|
  {
    if |a| == 0 {
      assert a + [last] == [last];
      assert [last][1..] == [];
    } else {
      assert (a + [last])[1..] == a[1..] + [last];
      if WithPair(m, a[0]).Some? {
        PairsSplit(WithPair(m, a[0]).value, a[1..], last);
      }
    }
  }

  lemma {:induction false} PairsAreLastValues(segments: seq<string>, key: string)
    ensures Pairs(map[], segments).Some? <==> forall i :: 0 <= i < |segments| ==> Keyed(segments[i])
    ensures Pairs(map[], segments).Some? ==> Field(Pairs(map[], segments).value, key) == LastValue(segments, key)
  {
    if |segments| > 0 {
      var front, last := segments[..|segments| - 1], segments[|segments| - 1];
      assert segments == front + [last];
      PairsAreLastValues(front, key);
      PairsSplit(map[], front, last);
      if Pairs(map[], front).Some? {
        PairOf(Pairs(map[], front).value, last);
      }
    }
  }

  /** The scheme, and a key in every comma-separated segment behind it. */
  predicate Segmented(header: string) {
    && StartsWith(header, SCHEME)
    && forall i :: 0 <= i < |Split(header[|SCHEME|..], ',')| ==> Keyed(Split(header[|SCHEME|..], ',')[i])
  }

  /** The four values of a header; of a repeated key the last one. */
  function Values(header: string): Fields
    requires Segmented(header)
  {
    var segments := Split(header[|SCHEME|..], ',');
    Fields(LastValue(segments, "agent_id"), LastValue(segments, "ts"), LastValue(segments, "nonce"),
           LastValue(segments, "sig"))
  }

  predicate Complete(f: Fields) {
    f.agentId != "" && f.timestamp != "" && f.nonce != "" && f.signature != ""
  }

  /** Which headers parse, to what, and what is wrong with the others. */
  lemma ParseIff(header: string)
    ensures Parse(None) == Parse(Some("")) == Err(MissingHeader)
    ensures Parse(Some(header)) == Err(WrongScheme) <==> header != "" && !StartsWith(header, SCHEME)
    ensures Parse(Some(header)) == Err(MalformedSegment) <==> StartsWith(header, SCHEME) && !Segmented(header)
    ensures Parse(Some(header)) == Err(MissingField) <==> Segmented(header) && !Complete(Values(header))
    ensures Parse(Some(header)).Ok? <==> Segmented(header) && Complete(Values(header))
    ensures Parse(Some(header)).Ok? ==> Parse(Some(header)).fields == Values(header)
  {
    if StartsWith(header, SCHEME) {
      var segments := Split(header[|SCHEME|..], ',');
      PairsAreLastValues(segments, "agent_id");
      PairsAreLastValues(segments, "ts");
      PairsAreLastValues(segments, "nonce");
      PairsAreLastValues(segments, "sig");
    }
  }

  predicate Sendable(v: string) {
    v != "" && Trimmed(v) && ',' !in v
  }

  predicate SendableFields(f: Fields) {
    Sendable(f.agentId) && Sendable(f.timestamp) && Sendable(f.nonce) && Sendable(f.signature)
  }

  predicate SendableOrEmpty(v: string) {
    Trimmed(v) && ',' !in v
  }

  lemma {:induction false} ParsedValuesAreSendable(m: map<string, string>, segments: seq<string>, key: string)
    requires forall i :: 0 <= i < |segments| ==> ',' !in segments[i]
    requires SendableOrEmpty(Field(m, key))
    ensures Pairs(m, segments).Some? ==> SendableOrEmpty(Field(Pairs(m, segments).value, key))
    decreases |segments|
  {
    if |segments| > 0 && WithPair(m, segments[0]).Some? {
      var part := segments[0];
      var text := part[IndexOf(part, '=') + 1..];
      TrimKeeps(text, ',');
      assert forall c :: c in text ==> c in part;
      ParsedValuesAreSendable(WithPair(m, part).value, segments[1..], key);
    }
  }

  predicate PlainKey(key: string) {
    key != "" && Trimmed(key) && '=' !in key && ',' !in key
  }

  lemma SegmentPair(m: map<string, string>, key: string, value: string)
    requires PlainKey(key) && Trimmed(value)
    ensures WithPair(m, Segment(key, value)) == Some(m[key := value])
  {
    var part := Segment(key, value);
    assert part == key + ['='] + value;
    IndexOfAfter(key, '=', value);
    assert part[..|key|] == key && part[|key| + 1..] == value;
  }

  lemma PairsCons(m: map<string, string>, key: string, value: string, rest: seq<string>)
    requires PlainKey(key) && Trimmed(value)
    ensures Pairs(m, [Segment(key, value)] + rest) == Pairs(m[key := value], rest)
  {
    SegmentPair(m, key, value);
  }

  lemma FourPairs(k1: string, v1: string, k2: string, v2: string, k3: string, v3: string, k4: string, v4: string)
    requires PlainKey(k1) && PlainKey(k2) && PlainKey(k3) && PlainKey(k4)
    requires Trimmed(v1) && Trimmed(v2) && Trimmed(v3) && Trimmed(v4)
    ensures Pairs(map[], [Segment(k1, v1)] + ([Segment(k2, v2)] + ([Segment(k3, v3)] + ([Segment(k4, v4)] + []))))
            == Some(map[k1 := v1][k2 := v2][k3 := v3][k4 := v4])
  {
    var s4 := [Segment(k4, v4)] + [];
    var s3 := [Segment(k3, v3)] + s4;
    PairsCons(map[], k1, v1, [Segment(k2, v2)] + s3);
    PairsCons(map[k1 := v1], k2, v2, s3);
    PairsCons(map[k1 := v1][k2 := v2], k3, v3, s4);
    PairsCons(map[k1 := v1][k2 := v2][k3 := v3], k4, v4, []);
  }

  lemma SegmentsPair(f: Fields)
    requires SendableFields(f)
    ensures Pairs(map[], Segments(f))
            == Some(map["agent_id" := f.agentId]["ts" := f.timestamp]["nonce" := f.nonce]["sig" := f.signature])
  {
    FourPairs("agent_id", f.agentId, "ts", f.timestamp, "nonce", f.nonce, "sig", f.signature);
  }

  lemma SegmentsCommaFree(f: Fields)
    requires SendableFields(f)
    ensures forall i :: 0 <= i < 4 ==> ',' !in Segments(f)[i]
  {
  }

  lemma FieldsBack(f: Fields)
    ensures var m := map["agent_id" := f.agentId]["ts" := f.timestamp]["nonce" := f.nonce]["sig" := f.signature];
            Fields(Field(m, "agent_id"), Field(m, "ts"), Field(m, "nonce"), Field(m, "sig")) == f
  {
    assert |"agent_id"| == 8 && |"ts"| == 2 && |"nonce"| == 5 && |"sig"| == 3;
  }

  lemma FormatStarts(f: Fields)
    ensures StartsWith(Format(f), SCHEME) && Format(f)[|SCHEME|..] == Join(Segments(f), ',')
  {
  }

  /** The header that is sent, as one text. */
  lemma FormatText(f: Fields)
    ensures Format(f)
            == "SCUT-Signature " + ("agent_id=" + f.agentId + [','] + ("ts=" + f.timestamp + [',']
               + ("nonce=" + f.nonce + [','] + ("sig=" + f.signature))))
  {
    var last := [Segment("sig", f.signature)] + [];
    var third := [Segment("nonce", f.nonce)] + last;
    var second := [Segment("ts", f.timestamp)] + third;
    assert last == [Segment("sig", f.signature)];
    JoinCons(Segment("nonce", f.nonce), last, ',');
    JoinCons(Segment("ts", f.timestamp), third, ',');
    JoinCons(Segment("agent_id", f.agentId), second, ',');
  }

  lemma RoundTrip(f: Fields)
    requires SendableFields(f)
    ensures Parse(Some(Format(f))) == Ok(f)
  {
    FormatStarts(f);
    SegmentsCommaFree(f);
    SplitJoin(Segments(f), ',');
    SegmentsPair(f);
    FieldsBack(f);
  }

  /** Printing and parsing give the fields back exactly when every value is
      nonempty, free of commas, and has no white space at its ends. Padding '='
      in base64 does no harm. */
  lemma HeaderRoundTripIff(f: Fields)
    ensures Parse(Some(Format(f))) == Ok(f) <==> SendableFields(f)
  {
    if SendableFields(f) {
      RoundTrip(f);
    } else {
      ParsedIsSendable(Format(f));
    }
  }

  /** What the parser accepts is always printable again. */
  lemma ParsedIsSendable(header: string)
    ensures Parse(Some(header)).Ok? ==> SendableFields(Parse(Some(header)).fields)
  {
    if Parse(Some(header)).Ok? {
      var parts := Split(header[|SCHEME|..], ',');
      ParsedValuesAreSendable(map[], parts, "agent_id");
      ParsedValuesAreSendable(map[], parts, "ts");
      ParsedValuesAreSendable(map[], parts, "nonce");
      ParsedValuesAreSendable(map[], parts, "sig");
    }
  }

  // ---- Challenges ----

  /** Array.prototype.sort's order on strings. */
  predicate Leq(a: string, b: string) {
    a == "" || (b != "" && (a[0] < b[0] || (a[0] == b[0] && Leq(a[1..], b[1..]))))
  }

  predicate SortedIds(ids: seq<string>) {
    forall i, j :: 0 <= i < j < |ids| ==> Leq(ids[i], ids[j])
  }

  function InsertId(id: string, sorted: seq<string>): seq<string> {
    if |sorted| == 0 || Leq(id, sorted[0]) then [id] + sorted
    else [sorted[0]] + InsertId(id, sorted[1..])
  }

  function Sort(ids: seq<string>): seq<string> {
    if |ids| == 0 then [] else InsertId(ids[0], Sort(ids[1..]))
  }

  function PickupChallenge(agentId: string, ts: string, nonce: string): string {
    "pickup" + [':'] + (agentId + [':'] + (ts + [':'] + nonce))
  }

  function AckChallenge(agentId: string, ts: string, nonce: string, ids: seq<string>): string {
    "ack" + [':'] + (agentId + [':'] + (ts + [':'] + (nonce + [':'] + Join(Sort(ids), ','))))
  }

  lemma {:induction false} LeqTotal(a: string, b: string)
    ensures Leq(a, b) || Leq(b, a)
    ensures Leq(a, b) && Leq(b, a) ==> a == b
  {
    if a != "" && b != "" && a[0] == b[0] {
      LeqTotal(a[1..], b[1..]);
      assert a == [a[0]] + a[1..] && b == [b[0]] + b[1..];
    }
  }

  /** The first difference is at k, and a has the smaller character there. */
  predicate DiffersAt(a: string, b: string, k: nat) {
    k < |a| && k < |b| && a[..k] == b[..k] && a[k] < b[k]
  }

  lemma {:induction false} LeqIsBefore(a: string, b: string)
    requires Leq(a, b)
    ensures a <= b || exists k: nat :: DiffersAt(a, b, k)
  {
    if a != "" {
      if a[0] < b[0] {
        assert DiffersAt(a, b, 0);
      } else {
        LeqIsBefore(a[1..], b[1..]);
        assert a == [a[0]] + a[1..] && b == [b[0]] + b[1..];
        if k: nat :| DiffersAt(a[1..], b[1..], k) {
          assert a[..k + 1] == [a[0]] + a[1..][..k] && b[..k + 1] == [b[0]] + b[1..][..k];
          assert DiffersAt(a, b, k + 1);
        }
      }
    }
  }

  lemma {:induction false} PrefixIsLeq(a: string, b: string)
    requires a <= b
    ensures Leq(a, b)
  {
    if a != "" {
      PrefixIsLeq(a[1..], b[1..]);
    }
  }

  lemma {:induction false} SmallerIsLeq(a: string, b: string, k: nat)
    requires DiffersAt(a, b, k)
    ensures Leq(a, b)
  {
    if k > 0 {
      assert a[0] == a[..k][0] == b[..k][0] == b[0];
      assert a[1..][..k - 1] == a[..k][1..] && b[1..][..k - 1] == b[..k][1..];
      SmallerIsLeq(a[1..], b[1..], k - 1);
    }
  }

  /** One text is before another that it is the beginning of, or where it has the
      smaller character at their first difference. */
  lemma LeqIff(a: string, b: string)
    ensures Leq(a, b) <==> a <= b || exists k: nat :: DiffersAt(a, b, k)
  {
    if Leq(a, b) {
      LeqIsBefore(a, b);
    } else if a <= b {
      PrefixIsLeq(a, b);
    } else if k: nat :| DiffersAt(a, b, k) {
      SmallerIsLeq(a, b, k);
    }
  }

  lemma {:induction false} LeqTransitive(a: string, b: string, d: string)
    requires Leq(a, b) && Leq(b, d)
    ensures Leq(a, d)
  {
    if a != "" && a[0] == b[0] && b[0] == d[0] {
      LeqTransitive(a[1..], b[1..], d[1..]);
    }
  }

  /** No id of the sequence comes before this one. */
  predicate NoneBefore(id: string, ids: seq<string>) {
    forall j :: 0 <= j < |ids| ==> Leq(id, ids[j])
  }

  lemma SortedCons(id: string, ids: seq<string>)
    ensures SortedIds([id] + ids) <==> NoneBefore(id, ids) && SortedIds(ids)
  {
    var all := [id] + ids;
    assert all[0] == id && forall j :: 0 <= j < |ids| ==> ids[j] == all[j + 1];
    if NoneBefore(id, ids) && SortedIds(ids) {
      forall i, j | 0 <= i < j < |all|
        ensures Leq(all[i], all[j])
      {
        assert all[j] == ids[j - 1];
        assert i > 0 ==> all[i] == ids[i - 1];
      }
    }
  }

  lemma NoneBeforeCons(id: string, first: string, rest: seq<string>)
    ensures NoneBefore(id, [first] + rest) <==> Leq(id, first) && NoneBefore(id, rest)
  {
    var all := [first] + rest;
    assert all[0] == first && forall j :: 0 <= j < |rest| ==> rest[j] == all[j + 1];
  }

  lemma {:induction false} InsertNoneBefore(least: string, id: string, sorted: seq<string>)
    requires Leq(least, id) && NoneBefore(least, sorted)
    ensures NoneBefore(least, InsertId(id, sorted))
  {
    if |sorted| == 0 || Leq(id, sorted[0]) {
      NoneBeforeCons(least, id, sorted);
    } else {
      InsertNoneBefore(least, id, sorted[1..]);
      NoneBeforeCons(least, sorted[0], InsertId(id, sorted[1..]));
    }
  }

  lemma {:induction false} InsertSorted(id: string, sorted: seq<string>)
    requires SortedIds(sorted)
    ensures SortedIds(InsertId(id, sorted))
  {
    if |sorted| == 0 {
    } else {
      var first, rest := sorted[0], sorted[1..];
      assert sorted == [first] + rest;
      SortedCons(first, rest);
      if Leq(id, first) {
        forall j | 0 <= j < |sorted|
          ensures Leq(id, sorted[j])
        {
          if j > 0 {
            LeqTransitive(id, first, sorted[j]);
          }
        }
        SortedCons(id, sorted);
      } else {
        LeqTotal(id, first);
        InsertSorted(id, rest);
        InsertNoneBefore(first, id, rest);
        SortedCons(first, InsertId(id, rest));
      }
    }
  }

  lemma {:induction false} InsertCounts(id: string, sorted: seq<string>)
    ensures multiset(InsertId(id, sorted)) == multiset(sorted) + multiset{id}
  {
    if |sorted| > 0 && !Leq(id, sorted[0]) {
      assert sorted == [sorted[0]] + sorted[1..];
      InsertCounts(id, sorted[1..]);
    }
  }

  lemma {:induction false} SortSorts(ids: seq<string>)
    ensures SortedIds(Sort(ids)) && multiset(Sort(ids)) == multiset(ids)
  {
    if |ids| > 0 {
      SortSorts(ids[1..]);
      InsertSorted(ids[0], Sort(ids[1..]));
      InsertCounts(ids[0], Sort(ids[1..]));
      assert ids == [ids[0]] + ids[1..];
    }
  }

  lemma SameLeast(a: seq<string>, b: seq<string>)
    requires SortedIds(a) && SortedIds(b) && multiset(a) == multiset(b) && |a| > 0 && |b| > 0
    ensures a[0] == b[0]
  {
    assert a[0] in multiset(b) && b[0] in multiset(a);
    var i :| 0 <= i < |b| && b[i] == a[0];
    var j :| 0 <= j < |a| && a[j] == b[0];
    LeqTotal(a[0], b[0]);
  }

  lemma {:induction false} SortedUnique(a: seq<string>, b: seq<string>)
    requires SortedIds(a) && SortedIds(b) && multiset(a) == multiset(b)
    ensures a == b
  {
    assert |a| == |multiset(a)| == |multiset(b)| == |b|;
    if |a| > 0 {
      SameLeast(a, b);
      Uncons(a);
      Uncons(b);
      SortedUnique(a[1..], b[1..]);
      assert a == [a[0]] + a[1..] && b == [b[0]] + b[1..];
    }
  }

  lemma Uncons(a: seq<string>)
    requires |a| > 0
    ensures multiset(a[1..]) == multiset(a) - multiset{a[0]}
  {
    assert a == [a[0]] + a[1..];
  }

  /** Sorting makes the encoding independent of the order of the ids, and of
      nothing else. */
  lemma SortCanonical(a: seq<string>, b: seq<string>)
    ensures Sort(a) == Sort(b) <==> multiset(a) == multiset(b)
  {
    SortSorts(a);
    SortSorts(b);
    if multiset(a) == multiset(b) {
      SortedUnique(Sort(a), Sort(b));
    }
  }

  /** Ids as the relay's clients make them: base64, never empty. */
  predicate PlainIds(ids: seq<string>) {
    forall i :: 0 <= i < |ids| ==> ids[i] != "" && ',' !in ids[i] && ':' !in ids[i]
  }

  /** A scut:// URI has exactly one colon. */
  predicate OneColon(agentId: string) {
    |Split(agentId, ':')| == 2
  }

  lemma {:induction false} JoinedPlain(ids: seq<string>)
    requires PlainIds(ids)
    ensures ':' !in Join(ids, ',') && (Join(ids, ',') == "" <==> ids == [])
  {
    if |ids| > 1 {
      JoinedPlain(ids[1..]);
    }
  }

  lemma SortedPlain(ids: seq<string>)
    requires PlainIds(ids)
    ensures PlainIds(Sort(ids))
  {
    SortSorts(ids);
    forall i | 0 <= i < |Sort(ids)|
      ensures Sort(ids)[i] != "" && ',' !in Sort(ids)[i] && ':' !in Sort(ids)[i]
    {
      assert Sort(ids)[i] in multiset(Sort(ids));
      assert Sort(ids)[i] in ids;
    }
  }

  lemma JoinInjective(a: seq<string>, b: seq<string>)
    requires PlainIds(a) && PlainIds(b) && Join(a, ',') == Join(b, ',')
    ensures a == b
  {
    JoinedPlain(a);
    JoinedPlain(b);
    if a != [] {
      SplitJoin(a, ',');
      SplitJoin(b, ',');
    }
  }

  /** The colon-separated pieces of an ack challenge. */
  lemma AckPieces(agentId: string, ts: string, nonce: string, ids: seq<string>)
    requires OneColon(agentId) && ':' !in nonce && PlainIds(ids)
    ensures Split(AckChallenge(agentId, ts, nonce, ids), ':')
            == ["ack"] + (Split(agentId, ':') + (Split(ts, ':') + [nonce, Join(Sort(ids), ',')]))
  {
    SortedPlain(ids);
    JoinedPlain(Sort(ids));
    FivePieces("ack", agentId, ts, nonce, Join(Sort(ids), ','));
  }

  lemma FivePieces(purpose: string, agentId: string, ts: string, nonce: string, last: string)
    requires ':' !in purpose && ':' !in nonce && ':' !in last
    ensures Split(purpose + [':'] + (agentId + [':'] + (ts + [':'] + (nonce + [':'] + last))), ':')
            == [purpose] + (Split(agentId, ':') + (Split(ts, ':') + [nonce, last]))
  {
    var tail1 := nonce + [':'] + last;
    var tail2 := ts + [':'] + tail1;
    SplitAfter(nonce, ':', last);
    SplitWhole(last, ':');
    assert [nonce] + [last] == [nonce, last];
    SplitConcat(ts, ':', tail1);
    SplitConcat(agentId, ':', tail2);
    SplitAfter(purpose, ':', agentId + [':'] + tail2);
  }

  /** Two ack challenges are the same string exactly when they speak of the same
      agent, time, nonce and bag of ids. */
  lemma AckChallengeCanonical(agent1: string, ts1: string, nonce1: string, ids1: seq<string>,
                              agent2: string, ts2: string, nonce2: string, ids2: seq<string>)
    requires OneColon(agent1) && ':' !in nonce1 && PlainIds(ids1)
    requires OneColon(agent2) && ':' !in nonce2 && PlainIds(ids2)
    ensures AckChallenge(agent1, ts1, nonce1, ids1) == AckChallenge(agent2, ts2, nonce2, ids2)
            <==> agent1 == agent2 && ts1 == ts2 && nonce1 == nonce2 && multiset(ids1) == multiset(ids2)
  {
    SortCanonical(ids1, ids2);
    if AckChallenge(agent1, ts1, nonce1, ids1) == AckChallenge(agent2, ts2, nonce2, ids2) {
      AckPieces(agent1, ts1, nonce1, ids1);
      AckPieces(agent2, ts2, nonce2, ids2);
      var joined1, joined2 := Join(Sort(ids1), ','), Join(Sort(ids2), ',');
      SamePieces(Split(agent1, ':'), Split(ts1, ':'), nonce1, joined1,
                 Split(agent2, ':'), Split(ts2, ':'), nonce2, joined2);
      JoinSplit(agent1, ':');
      JoinSplit(agent2, ':');
      JoinSplit(ts1, ':');
      JoinSplit(ts2, ':');
      SortedPlain(ids1);
      SortedPlain(ids2);
      JoinInjective(Sort(ids1), Sort(ids2));
    }
  }

  lemma SamePieces(a1: seq<string>, t1: seq<string>, n1: string, j1: string,
                   a2: seq<string>, t2: seq<string>, n2: string, j2: string)
    requires |a1| == |a2| && ["ack"] + (a1 + (t1 + [n1, j1])) == ["ack"] + (a2 + (t2 + [n2, j2]))
    ensures a1 == a2 && t1 == t2 && n1 == n2 && j1 == j2
  {
    var r1, r2 := a1 + (t1 + [n1, j1]), a2 + (t2 + [n2, j2]);
    assert (["ack"] + r1)[1..] == r1 && (["ack"] + r2)[1..] == r2;
    assert r1[..|a1|] == a1 && r2[..|a2|] == a2;
    var u1, u2 := t1 + [n1, j1], t2 + [n2, j2];
    assert r1[|a1|..] == u1 && r2[|a2|..] == u2;
    assert u1[..|t1|] == t1 && u2[..|t2|] == t2;
    assert u1[|t1|] == n1 && u1[|t1| + 1] == j1 && u2[|t2|] == n2 && u2[|t2| + 1] == j2;
  }

  /** The colon-separated pieces of a pickup challenge. */
  lemma PickupPieces(agentId: string, ts: string, nonce: string)
    requires OneColon(agentId) && ':' !in nonce
    ensures Split(PickupChallenge(agentId, ts, nonce), ':')
            == ["pickup"] + (Split(agentId, ':') + (Split(ts, ':') + [nonce]))
  {
    var tail := ts + [':'] + nonce;
    SplitWhole(nonce, ':');
    SplitConcat(ts, ':', nonce);
    SplitConcat(agentId, ':', tail);
    SplitAfter("pickup", ':', agentId + [':'] + tail);
  }

  /** Two pickup challenges are the same string exactly when they speak of the
      same agent, time and nonce: a signature is good for one nonce. */
  lemma PickupChallengeCanonical(agent1: string, ts1: string, nonce1: string,
                                 agent2: string, ts2: string, nonce2: string)
    requires OneColon(agent1) && ':' !in nonce1 && OneColon(agent2) && ':' !in nonce2
    ensures PickupChallenge(agent1, ts1, nonce1) == PickupChallenge(agent2, ts2, nonce2)
            <==> agent1 == agent2 && ts1 == ts2 && nonce1 == nonce2
  {
    if PickupChallenge(agent1, ts1, nonce1) == PickupChallenge(agent2, ts2, nonce2) {
      PickupPieces(agent1, ts1, nonce1);
      PickupPieces(agent2, ts2, nonce2);
      SameThree(Split(agent1, ':'), Split(ts1, ':'), nonce1, Split(agent2, ':'), Split(ts2, ':'), nonce2);
      JoinSplit(agent1, ':');
      JoinSplit(agent2, ':');
      JoinSplit(ts1, ':');
      JoinSplit(ts2, ':');
    }
  }

  lemma SameThree(a1: seq<string>, t1: seq<string>, n1: string, a2: seq<string>, t2: seq<string>, n2: string)
    requires |a1| == |a2| && ["pickup"] + (a1 + (t1 + [n1])) == ["pickup"] + (a2 + (t2 + [n2]))
    ensures a1 == a2 && t1 == t2 && n1 == n2
  {
    var r1, r2 := a1 + (t1 + [n1]), a2 + (t2 + [n2]);
    assert (["pickup"] + r1)[1..] == r1 && (["pickup"] + r2)[1..] == r2;
    assert r1[..|a1|] == a1 && r2[..|a2|] == a2;
    var u1, u2 := t1 + [n1], t2 + [n2];
    assert r1[|a1|..] == u1 && r2[|a2|..] == u2;
    assert u1[..|t1|] == t1 && u2[..|t2|] == t2 && u1[|t1|] == n1 && u2[|t2|] == n2;
  }

  /** The texts that are signed, piece by piece. */
  lemma ChallengeTexts(agentId: string, ts: string, nonce: string, ids: seq<string>)
    ensures PickupChallenge(agentId, ts, nonce) == "pickup:" + agentId + ":" + ts + ":" + nonce
    ensures AckChallenge(agentId, ts, nonce, ids)
            == "ack:" + agentId + ":" + ts + ":" + nonce + ":" + Join(Sort(ids), ',')
  {
    assert "pickup:" == "pickup" + [':'] && "ack:" == "ack" + [':'] && ":" == [':'];
  }

  /** A pickup signature can never be passed off as an ack, nor the reverse. */
  lemma PurposesAreSeparate(agent1: string, ts1: string, nonce1: string,
                            agent2: string, ts2: string, nonce2: string, ids: seq<string>)
    ensures PickupChallenge(agent1, ts1, nonce1) != AckChallenge(agent2, ts2, nonce2, ids)
  {
    assert PickupChallenge(agent1, ts1, nonce1)[0] == 'p';
    assert AckChallenge(agent2, ts2, nonce2, ids)[0] == 'a';
  }
}
