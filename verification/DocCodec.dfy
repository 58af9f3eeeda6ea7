/** A codec that gives every document back, so that the settings ValidEnv asks
    for exist. Each field goes after its length, written in strokes. */
module DocCodec {
  import opened Basics
  import opened RegisterMachine

  function Strokes(n: nat): (s: string)
    ensures |s| == n
  {
    if n == 0 then "" else ['1'] + Strokes(n - 1)
  }

  function StrokesOf(t: string): nat {
    if t != "" && t[0] == '1' then 1 + StrokesOf(t[1..]) else 0
  }

  function Field(s: string): string {
    Strokes(|s|) + ['0'] + s
  }

  /** The first field, and what follows it. */
  function TakeField(t: string): Option<(string, string)> {
    var n := StrokesOf(t);
    if 2 * n + 1 <= |t| then Some((t[n + 1..2 * n + 1], t[2 * n + 1..])) else None
  }

  function OptionalField(o: Option<string>): string {
    if o.Some? then ['s'] + Field(o.value) else ['n']
  }

  function TakeOptional(t: string): Option<(Option<string>, string)> {
    if t == "" then None
    else if t[0] == 'n' then Some((None, t[1..]))
    else
      var field := TakeField(t[1..]);
      if field.Some? then Some((Some(field.value.0), field.value.1)) else None
  }

  function Encode(d: Doc): string {
    OptionalField(d.tokenId) + (OptionalField(d.signingKey) + (OptionalField(d.encryptionKey) + Field(d.rest)))
  }

  function Decode(t: string): Option<Doc> {
    var a := TakeOptional(t);
    if a.None? then None
    else
      var b := TakeOptional(a.value.1);
      if b.None? then None
      else
        var c := TakeOptional(b.value.1);
        if c.None? then None
        else
          var d := TakeField(c.value.1);
          if d.None? then None else Some(Doc(a.value.0, b.value.0, c.value.0, d.value.0))
  }

  lemma {:induction false} StrokesBack(n: nat, t: string)
    requires t != "" && t[0] == '0'
    ensures StrokesOf(Strokes(n) + t) == n
  {
    if n == 0 {
      assert Strokes(n) + t == t;
    } else {
      StrokesBack(n - 1, t);
      assert (Strokes(n) + t)[1..] == Strokes(n - 1) + t;
    }
  }

  lemma FieldBack(s: string, rest: string)
    ensures TakeField(Field(s) + rest) == Some((s, rest))
  {
    var t := Field(s) + rest;
    StrokesBack(|s|, ['0'] + s + rest);
    assert t == Strokes(|s|) + (['0'] + s + rest);
    assert t[|s| + 1..2 * |s| + 1] == s && t[2 * |s| + 1..] == rest;
  }

  lemma SomeBack(s: string, rest: string)
    ensures TakeOptional(OptionalField(Some(s)) + rest) == Some((Some(s), rest))
  {
    var t, field := OptionalField(Some(s)) + rest, Field(s) + rest;
    FieldBack(s, rest);
    assert t == ['s'] + field;
    assert t[0] == 's' && t[1..] == field;
  }

  lemma OptionalBack(o: Option<string>, rest: string)
    ensures TakeOptional(OptionalField(o) + rest) == Some((o, rest))
  {
    if o.Some? {
      SomeBack(o.value, rest);
    } else {
      assert (['n'] + rest)[1..] == rest;
    }
  }

  lemma DocBack(d: Doc)
    ensures Encode(d) != "" && Decode(Encode(d)) == Some(d)
  {
    var end := Field(d.rest);
    var keys := OptionalField(d.encryptionKey) + end;
    OptionalBack(d.tokenId, OptionalField(d.signingKey) + keys);
    OptionalBack(d.signingKey, keys);
    OptionalBack(d.encryptionKey, end);
    FieldBack(d.rest, "");
    assert end + "" == end;
  }
}
