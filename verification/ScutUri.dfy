/** scut:// URIs (section 4.6 of the protocol specification).
    Source: packages/core/src/agent-ref.ts. Chain ids are exact numbers here,
    which Number() and template strings are below 2^53. */
module ScutUri {
  import opened Basics
  import opened Strings

  datatype AgentRef = AgentRef(chainId: nat, contract: string, tokenId: string)

  predicate IsDigit(c: char) {
    '0' <= c <= '9'
  }

  predicate IsHex(c: char) {
    IsDigit(c) || 'a' <= c <= 'f' || 'A' <= c <= 'F'
  }

  /** \d+ */
  predicate IsNumeral(s: string) {
    s != "" && forall i :: 0 <= i < |s| ==> IsDigit(s[i])
  }

  /** 0x[a-fA-F0-9]{40} */
  predicate IsAddress(s: string) {
    |s| == 42 && s[0] == '0' && s[1] == 'x' && forall i :: 2 <= i < 42 ==> IsHex(s[i])
  }

  function LowerChar(c: char): char {
    if 'A' <= c <= 'Z' then (c as int + 32) as char else c
  }

  /** toLowerCase on the ASCII text an address is made of. */
  function Lower(s: string): string {
    seq(|s|, i requires 0 <= i < |s| => LowerChar(s[i]))
  }

  function DigitValue(c: char): nat
    requires IsDigit(c)
  {
    c as int - '0' as int
  }

  /** Number(s) for a decimal numeral. */
  function NumberOf(s: string): nat
    requires forall i :: 0 <= i < |s| ==> IsDigit(s[i])
  {
    if |s| == 0 then 0 else 10 * NumberOf(s[..|s| - 1]) + DigitValue(s[|s| - 1])
  }

  function DigitChar(d: nat): (c: char)
    requires d < 10
    ensures IsDigit(c) && DigitValue(c) == d
  {
    ('0' as int + d) as char
  }

  /** String(n). */
  function Decimal(n: nat): (s: string)
    ensures IsNumeral(s) && NumberOf(s) == n
    ensures |s| > 1 ==> s[0] != '0'
  {
    if n < 10 then [DigitChar(n)]
    else
      var front := Decimal(n / 10);
      var s := front + [DigitChar(n % 10)];
      assert s[..|s| - 1] == front;
      s
  }

  const SCHEME := "scut://"

  function ParseUri(uri: string): Option<AgentRef> {
    if !StartsWith(uri, SCHEME) then None
    else
      var parts := Split(uri[|SCHEME|..], '/');
      if |parts| == 3 && IsNumeral(parts[0]) && IsAddress(parts[1]) && IsNumeral(parts[2])
      then Some(AgentRef(NumberOf(parts[0]), Lower(parts[1]), parts[2]))
      else None
  }

  function FormatUri(ref: AgentRef): string {
    SCHEME + (Decimal(ref.chainId) + ['/'] + (Lower(ref.contract) + ['/'] + ref.tokenId))
  }

  predicate IsScutUri(uri: string) {
    ParseUri(uri).Some?
  }

  predicate WellFormedRef(ref: AgentRef) {
    IsAddress(ref.contract) && IsNumeral(ref.tokenId)
  }

  /** The URI every spelling of the same agent is reduced to. */
  function Normal(uri: string): string
    requires IsScutUri(uri)
  {
    FormatUri(ParseUri(uri).value)
  }

  lemma LowerAddress(s: string)
    requires IsAddress(s)
    ensures IsAddress(Lower(s)) && Lower(Lower(s)) == Lower(s) && '/' !in Lower(s) && ':' !in Lower(s)
  {
  }

  lemma ParsedRefIsWellFormed(uri: string)
    requires IsScutUri(uri)
    ensures WellFormedRef(ParseUri(uri).value) && Lower(ParseUri(uri).value.contract) == ParseUri(uri).value.contract
  {
  }

  /** Printing a reference and parsing it back gives it with its contract in
      lower case. */
  lemma ParseAfterFormat(ref: AgentRef)
    requires WellFormedRef(ref)
    ensures ParseUri(FormatUri(ref)) == Some(ref.(contract := Lower(ref.contract)))
  {
    var uri := FormatUri(ref);
    var chain, contract := Decimal(ref.chainId), Lower(ref.contract);
    var tail := contract + ['/'] + ref.tokenId;
    LowerAddress(ref.contract);
    assert uri[..|SCHEME|] == SCHEME && uri[|SCHEME|..] == chain + ['/'] + tail;
    NumeralPlain(chain, '/');
    NumeralPlain(ref.tokenId, '/');
    SplitAfter(chain, '/', tail);
    SplitAfter(contract, '/', ref.tokenId);
    SplitWhole(ref.tokenId, '/');
    assert Split(uri[|SCHEME|..], '/') == [chain, contract, ref.tokenId];
  }

  lemma NumeralPlain(s: string, c: char)
    requires IsNumeral(s) && !IsDigit(c)
    ensures c !in s
  {
  }

  /** Normalising keeps the meaning, is idempotent, and tells exactly the URIs
      of different agents apart. */
  lemma NormalForm(u: string, v: string)
    requires IsScutUri(u) && IsScutUri(v)
    ensures IsScutUri(Normal(u)) && ParseUri(Normal(u)) == ParseUri(u)
    ensures Normal(Normal(u)) == Normal(u)
    ensures ParseUri(u) == ParseUri(v) <==> Normal(u) == Normal(v)
  {
    ParsedRefIsWellFormed(u);
    ParseAfterFormat(ParseUri(u).value);
    ParsedRefIsWellFormed(v);
    ParseAfterFormat(ParseUri(v).value);
  }

  // ---- What a URI is made of ----

  predicate UriChar(c: char) {
    IsHex(c) || c == 'x' || c == '/'
  }

  lemma {:induction false} JoinedChars(pieces: seq<string>)
    requires forall i, k :: 0 <= i < |pieces| && 0 <= k < |pieces[i]| ==> UriChar(pieces[i][k])
    ensures forall k :: 0 <= k < |Join(pieces, '/')| ==> UriChar(Join(pieces, '/')[k])
  {
    if |pieces| > 1 {
      JoinedChars(pieces[1..]);
    }
  }

  lemma AddressChars(s: string)
    requires IsAddress(s)
    ensures forall k :: 0 <= k < |s| ==> UriChar(s[k])
  {
  }

  lemma PathShape(path: string)
    requires forall i, k :: 0 <= i < |Split(path, '/')| && 0 <= k < |Split(path, '/')[i]| ==>
               UriChar(Split(path, '/')[i][k])
    ensures forall k :: 0 <= k < |path| ==> UriChar(path[k])
  {
    JoinSplit(path, '/');
    JoinedChars(Split(path, '/'));
  }

  /** After its scheme a URI has only hexadecimal digits, an x and slashes. */
  lemma UriShape(uri: string)
    requires IsScutUri(uri)
    ensures forall k :: |SCHEME| <= k < |uri| ==> UriChar(uri[k])
  {
    var path := uri[|SCHEME|..];
    var parts := Split(path, '/');
    assert |parts| == 3 && IsNumeral(parts[0]) && IsAddress(parts[1]) && IsNumeral(parts[2]);
    AddressChars(parts[1]);
    PathShape(path);
    assert forall k :: |SCHEME| <= k < |uri| ==> uri[k] == path[k - |SCHEME|];
  }

  /** Nothing in a URI needs escaping anywhere. */
  predicate PlainUriChar(c: char) {
    IsDigit(c) || 'a' <= c <= 'z' || 'A' <= c <= 'F' || c == '/' || c == ':'
  }

  lemma SchemeIsPlain(k: nat)
    requires k < |SCHEME|
    ensures PlainUriChar(SCHEME[k])
  {
  }

  lemma UriIsPlain(uri: string, k: nat)
    requires IsScutUri(uri) && k < |uri|
    ensures PlainUriChar(uri[k])
  {
    UriShape(uri);
    if k < |SCHEME| {
      SchemeIsPlain(k);
      assert uri[k] == uri[..|SCHEME|][k];
    }
  }

  lemma CutAt(s: string, c: char, k: nat)
    requires k < |s| && s[k] == c && c !in s[..k] && c !in s[k + 1..]
    ensures |Split(s, c)| == 2
  {
  }

  /** A URI has exactly one colon. */
  lemma UriHasOneColon(uri: string)
    requires IsScutUri(uri)
    ensures |Split(uri, ':')| == 2
  {
    UriShape(uri);
    assert forall k :: 0 <= k < |SCHEME| ==> uri[k] == uri[..|SCHEME|][k] == SCHEME[k];
    CutAt(uri, ':', 4);
  }

  // ---- What is a URI ----

  predicate Digits(s: string) {
    s != "" && forall i :: 0 <= i < |s| ==> s[i] in "0123456789"
  }

  predicate HexAddress(s: string) {
    |s| == 42 && s[..2] == "0x" && forall i :: 2 <= i < |s| ==> s[i] in "0123456789abcdefABCDEF"
  }

  lemma CharSets(c: char)
    ensures c in "0123456789" <==> IsDigit(c)
    ensures c in "0123456789abcdefABCDEF" <==> IsHex(c)
  {
  }

  lemma SameShapes(s: string)
    ensures Digits(s) <==> IsNumeral(s)
    ensures HexAddress(s) <==> IsAddress(s)
  {
    forall i | 0 <= i < |s|
      ensures s[i] in "0123456789" <==> IsDigit(s[i])
      ensures s[i] in "0123456789abcdefABCDEF" <==> IsHex(s[i])
    {
      CharSets(s[i]);
    }
    if |s| == 42 {
      assert s[..2] == [s[0], s[1]];
    }
  }

  /** The expression that the original matches URIs with, spelled out, and the
      reference it takes from them. */
  lemma UriGrammar(chain: string, contract: string, token: string, uri: string)
    requires uri == "scut://" + (chain + ['/'] + (contract + ['/'] + token))
    requires '/' !in chain && '/' !in contract && '/' !in token
    ensures IsScutUri(uri) <==> Digits(chain) && HexAddress(contract) && Digits(token)
    ensures IsScutUri(uri) ==> ParseUri(uri).value == AgentRef(NumberOf(chain), Lower(contract), token)
  {
    SameShapes(chain);
    SameShapes(contract);
    SameShapes(token);
    assert uri[..|SCHEME|] == SCHEME && uri[|SCHEME|..] == chain + ['/'] + (contract + ['/'] + token);
    SplitAfter(chain, '/', contract + ['/'] + token);
    SplitAfter(contract, '/', token);
    SplitWhole(token, '/');
    assert Split(uri[|SCHEME|..], '/') == [chain, contract, token];
  }

  /** And every URI has those three parts. */
  lemma UriParts(uri: string) returns (chain: string, contract: string, token: string)
    requires IsScutUri(uri)
    ensures uri == "scut://" + (chain + ['/'] + (contract + ['/'] + token))
    ensures '/' !in chain && '/' !in contract && '/' !in token
  {
    var parts := Split(uri[|SCHEME|..], '/');
    chain, contract, token := parts[0], parts[1], parts[2];
    JoinSplit(uri[|SCHEME|..], '/');
    assert parts == [chain] + [contract, token];
    JoinCons(chain, [contract, token], '/');
    assert [contract, token] == [contract] + [token];
    JoinCons(contract, [token], '/');
    assert uri == SCHEME + uri[|SCHEME|..];
  }

  /** Lower case: no capital is left, and a letter stays the same letter. */
  lemma LowerIs(s: string, i: nat)
    requires i < |s|
    ensures |Lower(s)| == |s| && Lower(s)[i] !in "ABCDEFGHIJKLMNOPQRSTUVWXYZ"
    ensures Lower(s)[i] == s[i] || (Lower(s)[i] as int - 'a' as int == s[i] as int - 'A' as int && 'A' <= s[i] <= 'Z')
  {
  }

  // ---- Which URIs are normal already ----

  lemma {:induction false} NumeralUnique(a: string, b: string)
    requires IsNumeral(a) && IsNumeral(b) && NumberOf(a) == NumberOf(b)
    requires (|a| > 1 ==> a[0] != '0') && (|b| > 1 ==> b[0] != '0')
    ensures a == b
    decreases |a|
  {
    var fa, fb := a[..|a| - 1], b[..|b| - 1];
    assert DigitValue(a[|a| - 1]) == DigitValue(b[|b| - 1]) && NumberOf(fa) == NumberOf(fb);
    assert a == fa + [a[|a| - 1]] && b == fb + [b[|b| - 1]];
    if |a| > 1 && |b| > 1 {
      NumeralUnique(fa, fb);
    } else if |a| > 1 {
      NumberPositive(fa);
    } else if |b| > 1 {
      NumberPositive(fb);
    }
  }

  lemma {:induction false} NumberPositive(s: string)
    requires IsNumeral(s) && s[0] != '0'
    ensures NumberOf(s) > 0
  {
    if |s| > 1 {
      NumberPositive(s[..|s| - 1]);
    }
  }

  function Parts(uri: string): seq<string>
    requires StartsWith(uri, SCHEME)
  {
    Split(uri[|SCHEME|..], '/')
  }

  /** A URI is its own normal form exactly when its chain id has no leading
      zero and its contract is in lower case. The token id is kept as written. */
  lemma NormalIff(uri: string)
    requires IsScutUri(uri)
    ensures Normal(uri) == uri
            <==> (|Parts(uri)[0]| > 1 ==> Parts(uri)[0][0] != '0') && Lower(Parts(uri)[1]) == Parts(uri)[1]
  {
    var parts := Parts(uri);
    var chain, contract, token := parts[0], parts[1], parts[2];
    var ref := ParseUri(uri).value;
    LowerAddress(contract);
    JoinSplit(uri[|SCHEME|..], '/');
    assert parts[1..] == [contract, token] && parts[1..][1..] == [token];
    assert Join([token], '/') == token;
    assert Join([contract, token], '/') == contract + ['/'] + token;
    assert Join(parts, '/') == chain + ['/'] + (contract + ['/'] + token);
    assert uri == SCHEME + uri[|SCHEME|..];
    if Normal(uri) == uri {
      ParseAfterFormat(ref);
      var normal := Decimal(ref.chainId) + ['/'] + (Lower(ref.contract) + ['/'] + ref.tokenId);
      assert Normal(uri)[|SCHEME|..] == normal;
      NumeralPlain(Decimal(ref.chainId), '/');
      NumeralPlain(token, '/');
      SplitAfter(Decimal(ref.chainId), '/', Lower(ref.contract) + ['/'] + ref.tokenId);
      SplitAfter(Lower(ref.contract), '/', ref.tokenId);
    } else if (|chain| > 1 ==> chain[0] != '0') && Lower(contract) == contract {
      NumeralUnique(chain, Decimal(ref.chainId));
    }
  }
}
