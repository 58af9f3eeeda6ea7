/** Reading JSON text and UTF-8 back, as RFC 8259 and RFC 3629 have it: whatever
    JSON.stringify and TextEncoder make of a value has one meaning only. */
module JsonReader {
  import opened Basics
  import opened Strings
  import opened JsonText
  import ScutUri

  // ---- Strings ----

  function HexValue(c: char): Option<nat> {
    if '0' <= c <= '9' then Some(c as nat - '0' as nat)
    else if 'a' <= c <= 'f' then Some(c as nat - 'a' as nat + 10)
    else if 'A' <= c <= 'F' then Some(c as nat - 'A' as nat + 10)
    else None
  }

  /** A character from its number, unless that is half of a surrogate pair. */
  function CharOf(n: nat): Option<char> {
    if n < 0xD800 || 0xE000 <= n < 0x11_0000 then Some(n as char) else None
  }

  /** \uXXXX */
  function ReadHex(t: string): Option<(char, string)>
    requires |t| >= 2
  {
    if |t| < 6 then None
    else
      var a, b, c, d := HexValue(t[2]), HexValue(t[3]), HexValue(t[4]), HexValue(t[5]);
      if a.None? || b.None? || c.None? || d.None? then None
      else
        var read := CharOf(((a.value * 16 + b.value) * 16 + c.value) * 16 + d.value);
        if read.None? then None else Some((read.value, t[6..]))
  }

  /** The character an escape letter stands for. */
  function EscapeOf(c: char): Option<char> {
    match c
    case '"' => Some('"')
    case '\\' => Some('\\')
    case '/' => Some('/')
    case 'b' => Some(8 as char)
    case 'f' => Some(12 as char)
    case 'n' => Some('\n')
    case 'r' => Some('\r')
    case 't' => Some('\t')
    case _ => None
  }

  /** One character of a string, and what follows it. */
  function ReadChar(t: string): (r: Option<(char, string)>)
    requires t != ""
    ensures r.Some? ==> |r.value.1| < |t|
  {
    if t[0] != '\\' then (if t[0] < ' ' then None else Some((t[0], t[1..])))
    else if |t| < 2 then None
    else if t[1] == 'u' then ReadHex(t)
    else if EscapeOf(t[1]).None? then None
    else Some((EscapeOf(t[1]).value, t[2..]))
  }

  /** A string from behind its opening quote on. */
  function ReadString(t: string): (r: Option<(string, string)>)
    ensures r.Some? ==> |r.value.1| < |t|
    decreases |t|
  {
    if t == "" then None
    else if t[0] == '"' then Some(("", t[1..]))
    else
      var first := ReadChar(t);
      if first.None? then None
      else
        var rest := ReadString(first.value.1);
        if rest.None? then None else Some(([first.value.0] + rest.value.0, rest.value.1))
  }

  lemma HexBack(d: nat)
    requires d < 16
    ensures HexValue(HexChar(d)) == Some(d)
  {
  }

  lemma CharBack(c: char, rest: string)
    ensures Escaped(c) != "" && Escaped(c)[0] != '"'
    ensures ReadChar(Escaped(c) + rest) == Some((c, rest))
  {
    var t := Escaped(c) + rest;
    if |Escaped(c)| == 6 {
      HexBack(c as int / 16);
      HexBack(c as int % 16);
      assert t[2] == '0' && t[3] == '0' && t[4] == HexChar(c as int / 16) && t[5] == HexChar(c as int % 16);
      assert t[6..] == rest;
    } else if |Escaped(c)| == 2 {
      assert t[2..] == rest;
    } else {
      assert t[1..] == rest;
    }
  }

  lemma {:induction false} StringBack(s: string, rest: string)
    ensures ReadString(FlatMap(s, Escaping()) + ['"'] + rest) == Some((s, rest))
    decreases |s|
  {
    if s == "" {
      assert FlatMap(s, Escaping()) + ['"'] + rest == ['"'] + rest;
    } else {
      var tail := FlatMap(s[1..], Escaping()) + ['"'] + rest;
      assert s == [s[0]] + s[1..];
      FlatMapCons(s[0], s[1..], Escaping());
      assert FlatMap(s, Escaping()) + ['"'] + rest == Escaped(s[0]) + tail;
      CharBack(s[0], tail);
      StringBack(s[1..], rest);
    }
  }

  // ---- Values ----

  predicate Delimiter(c: char) {
    c == ',' || c == ']' || c == '}'
  }

  /** Where a number or a name ends. */
  function TokenEnd(t: string): (k: nat)
    ensures k <= |t|
  {
    if t == "" || Delimiter(t[0]) then 0 else 1 + TokenEnd(t[1..])
  }

  predicate IsInteger(t: string) {
    ScutUri.IsNumeral(t) || (t != "" && t[0] == '-' && ScutUri.IsNumeral(t[1..]))
  }

  function IntegerOf(t: string): int
    requires IsInteger(t)
  {
    if ScutUri.IsNumeral(t) then ScutUri.NumberOf(t) else 0 - ScutUri.NumberOf(t[1..])
  }

  function Scalar(t: string): Json {
    if t == "null" then Null
    else if t == "true" then Bool(true)
    else if t == "false" then Bool(false)
    else if IsInteger(t) then Num(IntegerOf(t))
    else Fraction(t)
  }

  function ReadValue(t: string): (r: Option<(Json, string)>)
    ensures r.Some? ==> |r.value.1| < |t|
    decreases |t|, 0
  {
    if t == "" then None
    else if t[0] == '"' then
      var s := ReadString(t[1..]);
      if s.None? then None else Some((Str(s.value.0), s.value.1))
    else if t[0] == '[' then
      if StartsWith(t[1..], "]") then Some((Arr([]), t[2..]))
      else
        var items := ReadItems(t[1..]);
        if items.None? then None else Some((Arr(items.value.0), items.value.1))
    else if t[0] == '{' then
      if StartsWith(t[1..], "}") then Some((Obj([]), t[2..]))
      else
        var members := ReadMembers(t[1..]);
        if members.None? then None else Some((Obj(members.value.0), members.value.1))
    else
      var k := TokenEnd(t);
      if k == 0 then None else Some((Scalar(t[..k]), t[k..]))
  }

  /** The items of an array from the first to the closing bracket. */
  function ReadItems(t: string): (r: Option<(seq<Json>, string)>)
    ensures r.Some? ==> |r.value.1| < |t|
    decreases |t|, 1
  {
    var first := ReadValue(t);
    if first.None? || first.value.1 == "" then None
    else if first.value.1[0] == ']' then Some(([first.value.0], first.value.1[1..]))
    else if first.value.1[0] != ',' then None
    else
      var rest := ReadItems(first.value.1[1..]);
      if rest.None? then None else Some(([first.value.0] + rest.value.0, rest.value.1))
  }

  function ReadMember(t: string): (r: Option<(Member, string)>)
    ensures r.Some? ==> |r.value.1| < |t|
    decreases |t|, 1
  {
    if t == "" || t[0] != '"' then None
    else
      var name := ReadString(t[1..]);
      if name.None? || name.value.1 == "" || name.value.1[0] != ':' then None
      else
        var value := ReadValue(name.value.1[1..]);
        if value.None? then None else Some((Member(name.value.0, value.value.0), value.value.1))
  }

  /** The members of an object from the first to the closing brace. */
  function ReadMembers(t: string): (r: Option<(seq<Member>, string)>)
    ensures r.Some? ==> |r.value.1| < |t|
    decreases |t|, 2
  {
    var first := ReadMember(t);
    if first.None? || first.value.1 == "" then None
    else if first.value.1[0] == '}' then Some(([first.value.0], first.value.1[1..]))
    else if first.value.1[0] != ',' then None
    else
      var rest := ReadMembers(first.value.1[1..]);
      if rest.None? then None else Some(([first.value.0] + rest.value.0, rest.value.1))
  }

  // ---- What is read is what was written ----

  predicate NumberChar(c: char) {
    ScutUri.IsDigit(c) || c == '-' || c == '+' || c == '.' || c == 'e' || c == 'E'
  }

  /** A number text that is not that of an integer. */
  predicate FractionText(t: string) {
    && t != "" && (ScutUri.IsDigit(t[0]) || t[0] == '-') && !IsInteger(t)
    && forall i :: 0 <= i < |t| ==> NumberChar(t[i])
  }

  /** Every fraction in the value is written as one. */
  predicate Readable(j: Json)
    decreases j, 1
  {
    match j
    case Fraction(text) => FractionText(text)
    case Arr(items) => AllReadable(items)
    case Obj(members) => MembersReadable(members)
    case _ => true
  }

  predicate AllReadable(items: seq<Json>)
    decreases items, 0
  {
    |items| > 0 ==> Readable(items[0]) && AllReadable(items[1..])
  }

  predicate MembersReadable(members: seq<Member>)
    decreases members, 0
  {
    |members| > 0 ==> Readable(members[0].value) && MembersReadable(members[1..])
  }

  /** The value ends here. */
  predicate Stops(rest: string) {
    rest == "" || Delimiter(rest[0])
  }

  lemma {:induction false} TokenBack(token: string, rest: string)
    requires Stops(rest) && forall i :: 0 <= i < |token| ==> !Delimiter(token[i])
    ensures TokenEnd(token + rest) == |token|
  {
    if token == "" {
      assert token + rest == rest;
    } else {
      assert (token + rest)[1..] == token[1..] + rest;
      TokenBack(token[1..], rest);
    }
  }

  /** A text that is read as one token. */
  predicate IsToken(t: string) {
    && t != "" && t[0] != '"' && t[0] != '[' && t[0] != '{'
    && forall i :: 0 <= i < |t| ==> !Delimiter(t[i])
  }

  lemma ScalarBack(t: string, rest: string)
    requires IsToken(t) && Stops(rest)
    ensures ReadValue(t + rest) == Some((Scalar(t), rest))
  {
    TokenBack(t, rest);
    assert (t + rest)[..|t|] == t && (t + rest)[|t|..] == rest;
  }

  lemma NumberTextBack(n: int)
    ensures IsToken(NumberText(n)) && Scalar(NumberText(n)) == Num(n)
  {
    var t := NumberText(n);
    if n < 0 {
      var digits := ScutUri.Decimal(-n);
      assert t[1..] == digits && t[0] == '-';
      assert forall i :: 1 <= i < |t| ==> t[i] == digits[i - 1];
      assert !ScutUri.IsNumeral(t);
    }
  }

  lemma FractionBack(t: string)
    requires FractionText(t)
    ensures IsToken(t) && Scalar(t) == Fraction(t)
  {
    assert t[0] != 'n' && t[0] != 't' && t[0] != 'f';
  }

  lemma NamesBack()
    ensures IsToken("null") && IsToken("true") && IsToken("false")
    ensures Scalar("null") == Null && Scalar("true") == Bool(true) && Scalar("false") == Bool(false)
  {
    assert "true"[0] == 't' && "false"[0] == 'f' && "null"[0] == 'n';
  }

  /** A text never starts with what ends another. */
  lemma TextStarts(j: Json)
    requires Readable(j)
    ensures Text(j) != "" && !Delimiter(Text(j)[0])
  {
    match j
    case Num(n) => NumberTextBack(n);
    case Fraction(text) => FractionBack(text);
    case _ =>
  }

  lemma {:induction false} ReadBack(j: Json, rest: string)
    requires Readable(j) && Stops(rest)
    ensures ReadValue(Text(j) + rest) == Some((j, rest))
    decreases j, 2
  {
    match j
    case Null => NamesBack(); ScalarBack("null", rest);
    case Bool(b) => NamesBack(); ScalarBack(Text(j), rest);
    case Num(n) => NumberTextBack(n); ScalarBack(NumberText(n), rest);
    case Fraction(text) => FractionBack(text); ScalarBack(text, rest);
    case Str(s) => QuotedBack(s, rest);
    case Arr(items) => ArrayBack(items, rest);
    case Obj(members) => ObjectBack(members, rest);
  }

  lemma QuotedBack(s: string, rest: string)
    ensures ReadValue(Quote(s) + rest) == Some((Str(s), rest))
  {
    StringBack(s, rest);
    assert (Quote(s) + rest)[1..] == FlatMap(s, Escaping()) + ['"'] + rest;
  }

  lemma Bracketed(open: char, inner: string, close: char, rest: string)
    ensures ([open] + inner + [close] + rest)[1..] == inner + [close] + rest
  {
    Associative([open], inner, [close]);
    Associative([open], inner + [close], rest);
  }

  lemma EmptyBack(rest: string)
    ensures ReadValue(Text(Arr([])) + rest) == Some((Arr([]), rest))
    ensures ReadValue(Text(Obj([])) + rest) == Some((Obj([]), rest))
  {
    assert Text(Arr([])) == ['[', ']'] && Text(Obj([])) == ['{', '}'];
    var a, o := ['[', ']'] + rest, ['{', '}'] + rest;
    assert a[1..][..1] == "]" && a[2..] == rest && o[1..][..1] == "}" && o[2..] == rest;
  }

  lemma {:induction false} ArrayBack(items: seq<Json>, rest: string)
    requires AllReadable(items)
    ensures ReadValue(Text(Arr(items)) + rest) == Some((Arr(items), rest))
    decreases items, 1
  {
    if items == [] {
      EmptyBack(rest);
    } else {
      ItemsBack(items, rest);
      Bracketed('[', Join(Texts(items), ','), ']', rest);
      FirstItem(items, rest);
    }
  }

  lemma FirstItem(items: seq<Json>, rest: string)
    requires AllReadable(items) && items != []
    ensures !StartsWith(Join(Texts(items), ',') + [']'] + rest, "]")
  {
    TextStarts(items[0]);
    var t := Join(Texts(items), ',') + [']'] + rest;
    assert t[0] == Text(items[0])[0];
    assert t[..1][0] == t[0];
  }

  lemma JoinedNext(first: string, more: seq<string>, close: string, rest: string)
    requires |more| >= 1
    ensures Join([first] + more, ',') + close + rest == first + ([','] + (Join(more, ',') + close + rest))
  {
    var joined := Join(more, ',');
    JoinCons(first, more, ',');
    Associative(first + [','], joined, close);
    Associative(first + [','], joined + close, rest);
    Associative(first, [','], joined + close + rest);
  }

  lemma JoinedOne(first: string, close: string, rest: string)
    ensures Join([first] + [], ',') + close + rest == first + (close + rest)
  {
    assert [first] + [] == [first];
    Associative(first, close, rest);
  }

  lemma LastItem(t: string, j: Json, rest: string)
    requires ReadValue(t) == Some((j, [']'] + rest))
    ensures ReadItems(t) == Some(([j], rest))
  {
    assert ([']'] + rest)[1..] == rest;
  }

  lemma NextItem(t: string, j: Json, tail: string, more: seq<Json>, rest: string)
    requires ReadValue(t) == Some((j, [','] + tail)) && ReadItems(tail) == Some((more, rest))
    ensures ReadItems(t) == Some(([j] + more, rest))
  {
    assert ([','] + tail)[1..] == tail;
  }

  lemma {:induction false} ItemsBack(items: seq<Json>, rest: string)
    requires AllReadable(items) && items != []
    ensures ReadItems(Join(Texts(items), ',') + [']'] + rest) == Some((items, rest))
    decreases items, 0
  {
    var first, more := Text(items[0]), items[1..];
    assert items == [items[0]] + more;
    if more == [] {
      ReadBack(items[0], [']'] + rest);
      assert items == [items[0]] && Texts(more) == [] && Texts(items) == [first] + [];
      LastItem(first + ([']'] + rest), items[0], rest);
      JoinedOne(first, [']'], rest);
    } else {
      var tail := Join(Texts(more), ',') + [']'] + rest;
      ReadBack(items[0], [','] + tail);
      ItemsBack(more, rest);
      NextItem(first + ([','] + tail), items[0], tail, more, rest);
      JoinedNext(first, Texts(more), [']'], rest);
    }
  }

  lemma MemberShape(m: Member, rest: string)
    ensures MemberText(m) + rest == Quote(m.name) + ([':'] + (Text(m.value) + rest))
  {
    Associative(Quote(m.name) + [':'], Text(m.value), rest);
    Associative(Quote(m.name), [':'], Text(m.value) + rest);
  }

  lemma NameBack(name: string, rest: string)
    ensures var t := Quote(name) + rest; t != "" && t[0] == '"' && ReadString(t[1..]) == Some((name, rest))
  {
    StringBack(name, rest);
    assert (Quote(name) + rest)[1..] == FlatMap(name, Escaping()) + ['"'] + rest;
  }

  lemma {:induction false} MemberBack(m: Member, rest: string)
    requires Readable(m.value) && Stops(rest)
    ensures ReadMember(MemberText(m) + rest) == Some((m, rest))
    decreases m, 3
  {
    ReadBack(m.value, rest);
    MemberShape(m, rest);
    NameBack(m.name, [':'] + (Text(m.value) + rest));
    assert ([':'] + (Text(m.value) + rest))[1..] == Text(m.value) + rest;
  }

  lemma {:induction false} ObjectBack(members: seq<Member>, rest: string)
    requires MembersReadable(members)
    ensures ReadValue(Text(Obj(members)) + rest) == Some((Obj(members), rest))
    decreases members, 1
  {
    if members == [] {
      EmptyBack(rest);
    } else {
      MembersBack(members, rest);
      Bracketed('{', Join(MemberTexts(members), ','), '}', rest);
      FirstMember(members, rest);
    }
  }

  lemma FirstMember(members: seq<Member>, rest: string)
    requires members != []
    ensures !StartsWith(Join(MemberTexts(members), ',') + ['}'] + rest, "}")
  {
    var t := Join(MemberTexts(members), ',') + ['}'] + rest;
    assert t[0] == MemberText(members[0])[0] == '"';
    assert t[..1][0] == t[0];
  }

  lemma LastMember(t: string, m: Member, rest: string)
    requires ReadMember(t) == Some((m, ['}'] + rest))
    ensures ReadMembers(t) == Some(([m], rest))
  {
    assert (['}'] + rest)[1..] == rest;
  }

  lemma NextMember(t: string, m: Member, tail: string, more: seq<Member>, rest: string)
    requires ReadMember(t) == Some((m, [','] + tail)) && ReadMembers(tail) == Some((more, rest))
    ensures ReadMembers(t) == Some(([m] + more, rest))
  {
    assert ([','] + tail)[1..] == tail;
  }

  lemma {:induction false} MembersBack(members: seq<Member>, rest: string)
    requires MembersReadable(members) && members != []
    ensures ReadMembers(Join(MemberTexts(members), ',') + ['}'] + rest) == Some((members, rest))
    decreases members, 0
  {
    var first, more := MemberText(members[0]), members[1..];
    assert members == [members[0]] + more;
    if more == [] {
      MemberBack(members[0], ['}'] + rest);
      assert members == [members[0]] && MemberTexts(more) == [] && MemberTexts(members) == [first] + [];
      LastMember(first + (['}'] + rest), members[0], rest);
      JoinedOne(first, ['}'], rest);
    } else {
      var tail := Join(MemberTexts(more), ',') + ['}'] + rest;
      MemberBack(members[0], [','] + tail);
      MembersBack(more, rest);
      NextMember(first + ([','] + tail), members[0], tail, more, rest);
      JoinedNext(first, MemberTexts(more), ['}'], rest);
    }
  }

  /** The text of a value, read back. */
  lemma ParseStringify(j: Json)
    requires Readable(j)
    ensures ReadValue(Text(j)) == Some((j, ""))
  {
    ReadBack(j, "");
    assert Text(j) + "" == Text(j);
  }

  // ---- UTF-8 ----

  /** The continuation byte's six bits. */
  function Bits(b: Byte): Option<nat> {
    if 0x80 <= b < 0xC0 then Some(b - 0x80) else None
  }

  /** One character, and what follows it. */
  function ReadUtf8Char(b: seq<Byte>): (r: Option<(char, seq<Byte>)>)
    ensures r.Some? ==> |r.value.1| < |b|
  {
    if b == [] then None
    else if b[0] < 0x80 then Some((b[0] as char, b[1..]))
    else
      var n := if b[0] < 0xE0 then 2 else if b[0] < 0xF0 then 3 else 4;
      if |b| < n || b[0] < 0xC0 || b[0] >= 0xF8 then None
      else
        var code := if n == 2 then Pair(b[0] - 0xC0, b[1])
                    else if n == 3 then More(Pair(b[0] - 0xE0, b[1]), b[2])
                    else More(More(Pair(b[0] - 0xF0, b[1]), b[2]), b[3]);
        if code.None? || CharOf(code.value).None? then None else Some((CharOf(code.value).value, b[n..]))
  }

  function Pair(high: nat, low: Byte): Option<nat> {
    if Bits(low).None? then None else Some(high * 0x40 + Bits(low).value)
  }

  function More(high: Option<nat>, low: Byte): Option<nat> {
    if high.None? then None else Pair(high.value, low)
  }

  function ReadUtf8(b: seq<Byte>): Option<string>
    decreases |b|
  {
    if b == [] then Some("")
    else
      var first := ReadUtf8Char(b);
      if first.None? then None
      else
        var rest := ReadUtf8(first.value.1);
        if rest.None? then None else Some([first.value.0] + rest.value)
  }

  lemma Low(n: nat)
    ensures n == n / 0x40 * 0x40 + n % 0x40
  {
  }

  lemma TwoBack(n: nat, rest: seq<Byte>)
    requires 0x80 <= n < 0x800
    ensures var b := [0xC0 + n / 0x40, 0x80 + n % 0x40] + rest;
            ReadUtf8Char(b) == if CharOf(n).None? then None else Some((CharOf(n).value, rest))
  {
    Low(n);
    var b: seq<Byte> := [0xC0 + n / 0x40, 0x80 + n % 0x40] + rest;
    assert b[2..] == rest;
  }

  lemma ThreeBack(n: nat, rest: seq<Byte>)
    requires 0x800 <= n < 0x1_0000
    ensures var b := [0xE0 + n / 0x1000, 0x80 + n / 0x40 % 0x40, 0x80 + n % 0x40] + rest;
            ReadUtf8Char(b) == if CharOf(n).None? then None else Some((CharOf(n).value, rest))
  {
    Low(n);
    Low(n / 0x40);
    assert n / 0x40 / 0x40 == n / 0x1000;
    var b: seq<Byte> := [0xE0 + n / 0x1000, 0x80 + n / 0x40 % 0x40, 0x80 + n % 0x40] + rest;
    assert b[3..] == rest;
  }

  lemma FourBack(n: nat, rest: seq<Byte>)
    requires 0x1_0000 <= n < 0x11_0000
    ensures var b := [0xF0 + n / 0x4_0000, 0x80 + n / 0x1000 % 0x40, 0x80 + n / 0x40 % 0x40, 0x80 + n % 0x40] + rest;
            ReadUtf8Char(b) == if CharOf(n).None? then None else Some((CharOf(n).value, rest))
  {
    Low(n);
    Low(n / 0x40);
    Low(n / 0x1000);
    assert n / 0x40 / 0x40 == n / 0x1000 && n / 0x1000 / 0x40 == n / 0x4_0000;
    var b: seq<Byte> := [0xF0 + n / 0x4_0000, 0x80 + n / 0x1000 % 0x40, 0x80 + n / 0x40 % 0x40, 0x80 + n % 0x40] + rest;
    assert b[4..] == rest;
  }

  lemma Utf8CharBack(c: char, rest: seq<Byte>)
    ensures ReadUtf8Char(Utf8Char(c) + rest) == Some((c, rest))
  {
    var n := c as int;
    assert CharOf(n) == Some(c);
    if n < 0x80 {
      assert (Utf8Char(c) + rest)[1..] == rest;
    } else if n < 0x800 {
      TwoBack(n, rest);
    } else if n < 0x1_0000 {
      ThreeBack(n, rest);
    } else {
      FourBack(n, rest);
    }
  }

  /** Decoding undoes encoding. */
  lemma {:induction false} Utf8Back(s: string)
    ensures ReadUtf8(Utf8(s)) == Some(s)
  {
    if s != "" {
      assert s == [s[0]] + s[1..];
      FlatMapCons(s[0], s[1..], Encoding());
      Utf8CharBack(s[0], Utf8(s[1..]));
      Utf8Back(s[1..]);
    }
  }
}
