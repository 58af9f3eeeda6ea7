/** The string operations the wire formats rely on, as JavaScript defines them. */
module Strings {

  predicate StartsWith(s: string, prefix: string) {
    |prefix| <= |s| && s[..|prefix|] == prefix
  }

  /** The first index of c in s, or |s|. */
  function IndexOf(s: string, c: char): (k: nat)
    ensures k <= |s|
    ensures k < |s| ==> s[k] == c
    ensures forall i :: 0 <= i < k ==> s[i] != c
  {
    if |s| == 0 || s[0] == c then 0 else 1 + IndexOf(s[1..], c)
  }

  /** s.split(c): always at least one piece. */
  function Split(s: string, c: char): (pieces: seq<string>)
    ensures |pieces| >= 1
    ensures forall i :: 0 <= i < |pieces| ==> c !in pieces[i]
    decreases |s|
  {
    var k := IndexOf(s, c);
    if k == |s| then [s] else [s[..k]] + Split(s[k + 1..], c)
  }

  /** pieces.join(c). */
  function Join(pieces: seq<string>, c: char): string {
    if |pieces| == 0 then ""
    else if |pieces| == 1 then pieces[0]
    else pieces[0] + [c] + Join(pieces[1..], c)
  }

  lemma IndexOfAfter(a: string, c: char, b: string)
    requires c !in a
    ensures IndexOf(a + [c] + b, c) == |a|
  {
    var s := a + [c] + b;
    assert s[|a|] == c;
    assert forall i :: 0 <= i < |a| ==> s[i] == a[i] && s[i] != c;
  }

  lemma SplitAfter(a: string, c: char, b: string)
    requires c !in a
    ensures Split(a + [c] + b, c) == [a] + Split(b, c)
  {
    var s := a + [c] + b;
    IndexOfAfter(a, c, b);
    assert s[..|a|] == a && s[|a| + 1..] == b;
  }

  lemma SplitWhole(a: string, c: char)
    requires c !in a
    ensures Split(a, c) == [a]
  {
  }

  /** Pieces without the separator survive join and split. */
  lemma {:induction false} SplitJoin(pieces: seq<string>, c: char)
    requires |pieces| >= 1 && forall i :: 0 <= i < |pieces| ==> c !in pieces[i]
    ensures Split(Join(pieces, c), c) == pieces
  {
    if |pieces| == 1 {
      SplitWhole(pieces[0], c);
    } else {
      SplitJoin(pieces[1..], c);
      SplitAfter(pieces[0], c, Join(pieces[1..], c));
    }
  }

  lemma JoinCons(piece: string, rest: seq<string>, c: char)
    requires |rest| >= 1
    ensures Join([piece] + rest, c) == piece + [c] + Join(rest, c)
  {
    assert ([piece] + rest)[1..] == rest;
  }

  lemma {:induction false} JoinSplit(s: string, c: char)
    ensures Join(Split(s, c), c) == s
    decreases |s|
  {
    var k := IndexOf(s, c);
    if k < |s| {
      var head, tail := s[..k], s[k + 1..];
      assert s == head + [c] + tail;
      assert Split(s, c) == [head] + Split(tail, c);
      JoinSplit(tail, c);
      JoinCons(head, Split(tail, c), c);
    }
  }

  lemma {:induction false} SplitConcat(a: string, c: char, b: string)
    ensures Split(a + [c] + b, c) == Split(a, c) + Split(b, c)
    decreases |a|
  {
    var k := IndexOf(a, c);
    if k == |a| {
      SplitAfter(a, c, b);
      SplitWhole(a, c);
    } else {
      var head, rest := a[..k], a[k + 1..];
      var more := rest + [c] + b;
      assert a == head + [c] + rest;
      assert a + [c] + b == head + [c] + more;
      SplitAfter(head, c, more);
      SplitAfter(head, c, rest);
      SplitConcat(rest, c, b);
      Associative([head], Split(rest, c), Split(b, c));
    }
  }

  lemma Associative<T>(x: seq<T>, y: seq<T>, z: seq<T>)
    ensures (x + y) + z == x + (y + z)
  {
  }

  /** The white space that String.prototype.trim removes. */
  predicate IsSpace(c: char) {
    || c == ' ' || '\t' <= c <= '\r'
    || c == '\U{A0}' || c == '\U{1680}' || '\U{2000}' <= c <= '\U{200A}'
    || c == '\U{2028}' || c == '\U{2029}' || c == '\U{202F}' || c == '\U{205F}' || c == '\U{3000}' || c == '\U{FEFF}'
  }

  predicate Trimmed(s: string) {
    s == "" || (!IsSpace(s[0]) && !IsSpace(s[|s| - 1]))
  }

  function TrimStart(s: string): (r: string)
    ensures r == "" || !IsSpace(r[0])
  {
    if s != "" && IsSpace(s[0]) then TrimStart(s[1..]) else s
  }

  function TrimEnd(s: string): (r: string)
    ensures r <= s
    ensures r == "" || !IsSpace(r[|r| - 1])
  {
    if s != "" && IsSpace(s[|s| - 1]) then TrimEnd(s[..|s| - 1]) else s
  }

  function Trim(s: string): (r: string)
    ensures Trimmed(r)
    ensures Trimmed(s) ==> r == s
  {
    var t := TrimStart(s);
    var r := TrimEnd(t);
    assert r != "" ==> r[0] == t[0];
    r
  }

  lemma {:induction false} TrimKeeps(s: string, c: char)
    ensures c in Trim(s) ==> c in s
  {
    TrimStartKeeps(s, c);
    assert forall i :: 0 <= i < |Trim(s)| ==> Trim(s)[i] == TrimStart(s)[i];
  }

  lemma {:induction false} TrimStartKeeps(s: string, c: char)
    ensures c in TrimStart(s) ==> c in s
    decreases |s|
  {
    if s != "" && IsSpace(s[0]) {
      TrimStartKeeps(s[1..], c);
    }
  }
}
