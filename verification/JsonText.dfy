/** JSON text, its UTF-8 length, and the canonical form that is signed: RFC 8785
    sorts the members of every object (section 3.2) and leaves the rest to
    JSON.stringify. Source: packages/core/src/canonicalize.ts. */
module JsonText {
  import opened Basics
  import opened Strings
  import ScutUri
  import AuthHeader

  /** Fraction is any number that is not an integer, by the text that JavaScript
      gives it. */
  datatype Json =
    | Null
    | Bool(b: bool)
    | Num(n: int)
    | Fraction(text: string)
    | Str(s: string)
    | Arr(items: seq<Json>)
    | Obj(members: seq<Member>)

  datatype Member = Member(name: string, value: Json)

  // ---- JSON.stringify ----

  function HexChar(d: nat): char
    requires d < 16
  {
    if d < 10 then ('0' as int + d) as char else ('a' as int + d - 10) as char
  }

  function Escaped(c: char): string {
    if c == '"' then ['\\', '"']
    else if c == '\\' then ['\\', '\\']
    else if c == '\n' then ['\\', 'n']
    else if c == '\r' then ['\\', 'r']
    else if c == '\t' then ['\\', 't']
    else if c == 8 as char then ['\\', 'b']
    else if c == 12 as char then ['\\', 'f']
    else if c < ' ' then ['\\', 'u', '0', '0', HexChar(c as int / 16), HexChar(c as int % 16)]
    else [c]
  }

  function Escaping(): char -> string {
    (c: char) => Escaped(c)
  }

  function Quote(s: string): string {
    ['"'] + FlatMap(s, Escaping()) + ['"']
  }

  function NumberText(n: int): string {
    if n < 0 then ['-'] + ScutUri.Decimal(-n) else ScutUri.Decimal(n)
  }

  function Text(j: Json): string
    decreases j, 1
  {
    match j
    case Null => "null"
    case Bool(b) => if b then "true" else "false"
    case Num(n) => NumberText(n)
    case Fraction(text) => text
    case Str(s) => Quote(s)
    case Arr(items) => ['['] + Join(Texts(items), ',') + [']']
    case Obj(members) => ['{'] + Join(MemberTexts(members), ',') + ['}']
  }

  function Texts(items: seq<Json>): seq<string>
    decreases items, 0
  {
    if |items| == 0 then [] else [Text(items[0])] + Texts(items[1..])
  }

  function MemberText(m: Member): string
    decreases m, 2
  {
    Quote(m.name) + [':'] + Text(m.value)
  }

  function MemberTexts(members: seq<Member>): seq<string>
    decreases members, 0
  {
    if |members| == 0 then [] else [MemberText(members[0])] + MemberTexts(members[1..])
  }

  // ---- The canonical form ----

  function InsertMember(m: Member, sorted: seq<Member>): seq<Member> {
    if |sorted| == 0 || AuthHeader.Leq(m.name, sorted[0].name) then [m] + sorted
    else [sorted[0]] + InsertMember(m, sorted[1..])
  }

  function Canonical(j: Json): Json
    decreases j, 1
  {
    match j
    case Arr(items) => Arr(CanonicalItems(items))
    case Obj(members) => Obj(SortedMembers(members))
    case _ => j
  }

  function CanonicalItems(items: seq<Json>): seq<Json>
    decreases items, 0
  {
    if |items| == 0 then [] else [Canonical(items[0])] + CanonicalItems(items[1..])
  }

  /** The members in order of name, each value in canonical form. */
  function SortedMembers(members: seq<Member>): seq<Member>
    decreases members, 0
  {
    if |members| == 0 then []
    else InsertMember(Member(members[0].name, Canonical(members[0].value)), SortedMembers(members[1..]))
  }

  // ---- UTF-8 ----

  type Byte = n: nat | n < 256

  /** TextEncoder on one code point. */
  function Utf8Char(c: char): (bytes: seq<Byte>)
    ensures 1 <= |bytes| <= 4 && (|bytes| == 1 <==> c < 128 as char)
  {
    var n := c as int;
    if n < 0x80 then [n]
    else if n < 0x800 then [0xC0 + n / 0x40, 0x80 + n % 0x40]
    else if n < 0x1_0000 then [0xE0 + n / 0x1000, 0x80 + n / 0x40 % 0x40, 0x80 + n % 0x40]
    else [0xF0 + n / 0x4_0000, 0x80 + n / 0x1000 % 0x40, 0x80 + n / 0x40 % 0x40, 0x80 + n % 0x40]
  }

  function Encoding(): char -> seq<Byte> {
    (c: char) => Utf8Char(c)
  }

  /** TextEncoder.encode. */
  function Utf8(s: string): seq<Byte> {
    FlatMap(s, Encoding())
  }

  /** How many bytes a text takes. */
  function Size(s: string): nat {
    |Utf8(s)|
  }

  lemma SizeOfTwo(a: string, b: string)
    ensures Size(a + b) == Size(a) + Size(b)
  {
    FlatMapConcat(a, b, Encoding());
  }

  lemma SizeOfChar(c: char)
    requires c < 128 as char
    ensures Size([c]) == 1
  {
    FlatMapOne(c, Encoding());
  }

  lemma {:induction false} SizeOfAscii(s: string)
    requires forall i :: 0 <= i < |s| ==> s[i] < 128 as char
    ensures Size(s) == |s|
  {
    if |s| > 0 {
      var front := s[..|s| - 1];
      SizeOfAscii(front);
    }
  }

  // ---- Sizes of JSON text ----

  /** Text that JSON.stringify leaves as it is. */
  predicate PlainChar(c: char) {
    ' ' <= c <= '~' && c != '"' && c != '\\'
  }

  predicate Plain(s: string) {
    forall i :: 0 <= i < |s| ==> PlainChar(s[i])
  }

  lemma {:induction false} PlainIsUnescaped(s: string)
    requires Plain(s)
    ensures FlatMap(s, Escaping()) == s
  {
    if |s| > 0 {
      var front := s[..|s| - 1];
      PlainIsUnescaped(front);
      assert s == front + [s[|s| - 1]];
    }
  }

  lemma SizeOfQuoted(s: string)
    ensures Size(Quote(s)) == Size(FlatMap(s, Escaping())) + 2
    ensures Plain(s) ==> Size(Quote(s)) == |s| + 2
  {
    var inner := FlatMap(s, Escaping());
    SizeOfTwo(['"'] + inner, ['"']);
    SizeOfTwo(['"'], inner);
    SizeOfChar('"');
    if Plain(s) {
      PlainIsUnescaped(s);
      SizeOfAscii(s);
    }
  }

  lemma SizeOfMember(m: Member)
    ensures Size(MemberText(m)) == Size(Quote(m.name)) + 1 + Size(Text(m.value))
  {
    SizeOfTwo(Quote(m.name) + [':'], Text(m.value));
    SizeOfTwo(Quote(m.name), [':']);
    SizeOfChar(':');
  }

  function Sizing(): string -> nat {
    (piece: string) => Size(piece) + 1
  }

  /** The bytes of the pieces, one more for each of them. */
  function SizeOfAll(pieces: seq<string>): nat {
    Sum(pieces, Sizing())
  }

  lemma {:induction false} SizeOfJoined(pieces: seq<string>)
    ensures Size(Join(pieces, ',')) == if |pieces| == 0 then 0 else SizeOfAll(pieces) - 1
  {
    if |pieces| == 1 {
      assert SizeOfAll(pieces[1..]) == 0;
    } else if |pieces| > 1 {
      var rest := Join(pieces[1..], ',');
      SizeOfJoined(pieces[1..]);
      SizeOfTwo(pieces[0] + [','], rest);
      SizeOfTwo(pieces[0], [',']);
      SizeOfChar(',');
    }
  }

  lemma SizeOfBracketed(open: char, inner: string, close: char)
    requires open < 128 as char && close < 128 as char
    ensures Size([open] + inner + [close]) == Size(inner) + 2
  {
    SizeOfTwo([open] + inner, [close]);
    SizeOfTwo([open], inner);
    SizeOfChar(open);
    SizeOfChar(close);
  }

  /** What a member or an item takes inside its brackets, comma included. */
  function MemberCost(): Member -> nat {
    (m: Member) => Size(MemberText(m)) + 1
  }

  function ItemCost(): Json -> nat {
    (j: Json) => Size(Text(j)) + 1
  }

  lemma {:induction false} MemberTextsSize(members: seq<Member>)
    ensures SizeOfAll(MemberTexts(members)) == Sum(members, MemberCost())
  {
    if |members| > 0 {
      MemberTextsSize(members[1..]);
      SumCons(MemberText(members[0]), MemberTexts(members[1..]), Sizing());
    }
  }

  lemma {:induction false} TextsSize(items: seq<Json>)
    ensures SizeOfAll(Texts(items)) == Sum(items, ItemCost())
  {
    if |items| > 0 {
      TextsSize(items[1..]);
      SumCons(Text(items[0]), Texts(items[1..]), Sizing());
    }
  }

  /** The size of a bracketed list of n pieces that take `total` bytes. */
  lemma SizeOfList(text: string, open: char, pieces: seq<string>, close: char, n: nat, total: nat)
    requires open < 128 as char && close < 128 as char && text == [open] + Join(pieces, ',') + [close]
    requires |pieces| == n && SizeOfAll(pieces) == total
    ensures Size(text) == if n == 0 then 2 else total + 1
  {
    SizeOfBracketed(open, Join(pieces, ','), close);
    SizeOfJoined(pieces);
  }

  lemma {:induction false} AsManyMembers(members: seq<Member>)
    ensures |MemberTexts(members)| == |members|
  {
    if |members| > 0 {
      AsManyMembers(members[1..]);
    }
  }

  lemma {:induction false} AsManyItems(items: seq<Json>)
    ensures |Texts(items)| == |items|
  {
    if |items| > 0 {
      AsManyItems(items[1..]);
    }
  }

  lemma ListText(members: seq<Member>, items: seq<Json>)
    ensures Text(Obj(members)) == ['{'] + Join(MemberTexts(members), ',') + ['}']
    ensures Text(Arr(items)) == ['['] + Join(Texts(items), ',') + [']']
  {
  }

  lemma SizeOfObject(members: seq<Member>)
    ensures Size(Text(Obj(members))) == if |members| == 0 then 2 else Sum(members, MemberCost()) + 1
  {
    ListText(members, []);
    AsManyMembers(members);
    MemberTextsSize(members);
    SizeOfList(Text(Obj(members)), '{', MemberTexts(members), '}', |members|, Sum(members, MemberCost()));
  }

  lemma SizeOfArray(items: seq<Json>)
    ensures Size(Text(Arr(items))) == if |items| == 0 then 2 else Sum(items, ItemCost()) + 1
  {
    ListText([], items);
    AsManyItems(items);
    TextsSize(items);
    SizeOfList(Text(Arr(items)), '[', Texts(items), ']', |items|, Sum(items, ItemCost()));
  }

  // ---- Canonical text is exactly as long ----

  lemma {:induction false} InsertedSize(m: Member, sorted: seq<Member>, cost: Member -> nat)
    ensures |InsertMember(m, sorted)| == |sorted| + 1
    ensures Sum(InsertMember(m, sorted), cost) == cost(m) + Sum(sorted, cost)
  {
    if |sorted| == 0 || AuthHeader.Leq(m.name, sorted[0].name) {
      SumCons(m, sorted, cost);
    } else {
      InsertedSize(m, sorted[1..], cost);
      SumCons(sorted[0], InsertMember(m, sorted[1..]), cost);
    }
  }

  /** Whatever the value, the bytes that are signed are as many as the bytes
      JSON.stringify would send. */
  lemma {:induction false} CanonicalSize(j: Json)
    ensures Size(Text(Canonical(j))) == Size(Text(j))
    decreases j, 1
  {
    match j
    case Arr(items) =>
      CanonicalItemsSize(items);
      SizeOfArray(items);
      SizeOfArray(CanonicalItems(items));
    case Obj(members) =>
      CanonicalMembersSize(members);
      SizeOfObject(members);
      SizeOfObject(SortedMembers(members));
    case _ =>
  }

  lemma {:induction false} CanonicalItemsSize(items: seq<Json>)
    ensures |CanonicalItems(items)| == |items|
    ensures Sum(CanonicalItems(items), ItemCost()) == Sum(items, ItemCost())
    decreases items, 0
  {
    if |items| > 0 {
      CanonicalSize(items[0]);
      CanonicalItemsSize(items[1..]);
      SumCons(Canonical(items[0]), CanonicalItems(items[1..]), ItemCost());
    }
  }

  lemma {:induction false} CanonicalMembersSize(members: seq<Member>)
    ensures |SortedMembers(members)| == |members|
    ensures Sum(SortedMembers(members), MemberCost()) == Sum(members, MemberCost())
    decreases members, 0
  {
    if |members| > 0 {
      var m := members[0];
      var m' := Member(m.name, Canonical(m.value));
      CanonicalSize(m.value);
      CanonicalMembersSize(members[1..]);
      SizeOfMember(m);
      SizeOfMember(m');
      InsertedSize(m', SortedMembers(members[1..]), MemberCost());
    }
  }

  // ---- Canonical text does not depend on the order of the members ----

  predicate DistinctNames(members: seq<Member>) {
    forall i, j :: 0 <= i < j < |members| ==> members[i].name != members[j].name
  }

  lemma LeqTransitiveAuto(a: string, b: string, d: string)
    ensures AuthHeader.Leq(a, b) && AuthHeader.Leq(b, d) ==> AuthHeader.Leq(a, d)
  {
    if AuthHeader.Leq(a, b) && AuthHeader.Leq(b, d) {
      AuthHeader.LeqTransitive(a, b, d);
    }
  }

  lemma {:induction false} InsertCommutes(x: Member, y: Member, s: seq<Member>)
    requires x.name != y.name
    ensures InsertMember(x, InsertMember(y, s)) == InsertMember(y, InsertMember(x, s))
  {
    AuthHeader.LeqTotal(x.name, y.name);
    if |s| > 0 {
      LeqTransitiveAuto(x.name, y.name, s[0].name);
      LeqTransitiveAuto(y.name, x.name, s[0].name);
      if !AuthHeader.Leq(x.name, s[0].name) && !AuthHeader.Leq(y.name, s[0].name) {
        InsertCommutes(x, y, s[1..]);
      }
    }
  }

  function InCanonicalForm(m: Member): Member {
    Member(m.name, Canonical(m.value))
  }

  function Without(members: seq<Member>, i: nat): seq<Member>
    requires i < |members|
  {
    members[..i] + members[i + 1..]
  }

  /** Any member may be taken to be the first. */
  lemma {:induction false} AnyFirst(members: seq<Member>, i: nat)
    requires i < |members| && DistinctNames(members)
    ensures SortedMembers(members) == InsertMember(InCanonicalForm(members[i]), SortedMembers(Without(members, i)))
  {
    if i == 0 {
      assert Without(members, 0) == members[1..];
    } else {
      var rest := members[1..];
      AnyFirst(rest, i - 1);
      assert Without(members, i) == [members[0]] + Without(rest, i - 1);
      assert Without(members, i)[1..] == Without(rest, i - 1);
      InsertCommutes(InCanonicalForm(members[0]), InCanonicalForm(members[i]), SortedMembers(Without(rest, i - 1)));
    }
  }

  lemma WithoutCount(members: seq<Member>, i: nat)
    requires i < |members|
    ensures multiset(Without(members, i)) == multiset(members) - multiset{members[i]}
  {
    SplitCount(members[..i], members[i], members[i + 1..]);
    assert members == members[..i] + [members[i]] + members[i + 1..];
  }

  lemma SplitCount<T>(a: seq<T>, x: T, b: seq<T>)
    ensures multiset(a + b) == multiset(a + [x] + b) - multiset{x}
  {
  }

  lemma WithoutDistinct(members: seq<Member>, i: nat)
    requires i < |members| && DistinctNames(members)
    ensures DistinctNames(Without(members, i))
  {
    var rest := Without(members, i);
    forall j, k | 0 <= j < k < |rest|
      ensures rest[j].name != rest[k].name
    {
      assert rest[j] == members[if j < i then j else j + 1] && rest[k] == members[if k < i then k else k + 1];
    }
  }

  /** The same members in another order have the same canonical form. */
  lemma {:induction false} CanonicalIgnoresOrder(a: seq<Member>, b: seq<Member>)
    requires multiset(a) == multiset(b) && DistinctNames(a) && DistinctNames(b)
    ensures SortedMembers(a) == SortedMembers(b)
    decreases |a|
  {
    assert |a| == |multiset(a)| == |multiset(b)| == |b|;
    if |a| > 0 {
      assert a[0] in multiset(b);
      var i :| 0 <= i < |b| && b[i] == a[0];
      AnyFirst(b, i);
      WithoutCount(a, 0);
      WithoutCount(b, i);
      WithoutDistinct(b, i);
      assert Without(a, 0) == a[1..];
      CanonicalIgnoresOrder(a[1..], Without(b, i));
    }
  }
}
