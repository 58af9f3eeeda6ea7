/** A contract that receives a token is called back while the mint or the safe
    transfer that gives it the token is not yet over, and may call the registry
    in turn. The mint writes the URI only after that. Whatever happens in between
    comes to the same as plain calls one after the other, so runs of the
    registration service with plain calls from outside cover it. */
module Reentrancy {
  import opened Basics
  import opened Contract
  import opened RegisterMachine

  /** A call with the calls made while it is under way: by the receiver of a safe
      transfer, when it has the token; by the receiver of a mint, when it has the
      token and the URI is not written. */
  datatype Tree =
    | Made(call: Call, inner: seq<Tree>)
    | SafeMint(recipient: string, uri: string, inner: seq<Tree>)

  /** The token is there, its URI is not. */
  function HalfMinted(c: Chain, recipient: string): Chain {
    c.(nextTokenId := c.nextTokenId + 1, owners := c.owners[c.nextTokenId := recipient])
  }

  function Run(c: Chain, t: Tree): Option<Chain>
    decreases t
  {
    match t
    case Made(call, inner) => if Effect(c, call).None? then None else RunAll(Effect(c, call).value, inner)
    case SafeMint(recipient, uri, inner) =>
      if uri == "" || recipient == ZERO_ADDRESS then None
      else
        var inside := RunAll(HalfMinted(c, recipient), inner);
        if inside.None? then None else Some(inside.value.(uris := inside.value.uris[c.nextTokenId := uri]))
  }

  function RunAll(c: Chain, ts: seq<Tree>): Option<Chain>
    decreases ts
  {
    if |ts| == 0 then Some(c)
    else if Run(c, ts[0]).None? then None
    else RunAll(Run(c, ts[0]).value, ts[1..])
  }

  function DoAll(c: Chain, calls: seq<Call>): Option<Chain>
    decreases |calls|
  {
    if |calls| == 0 then Some(c)
    else if Effect(c, calls[0]).None? then None
    else DoAll(Effect(c, calls[0]).value, calls[1..])
  }

  /** An update that the end of a mint under way writes over. */
  predicate Lost(call: Call, open: set<nat>) {
    call.UpdateIdentityURI? && call.tokenId in open
  }

  /** The calls in order, those left out that are lost. */
  function Flat(c: Chain, t: Tree, open: set<nat>): seq<Call>
    requires Run(c, t).Some?
    decreases t
  {
    match t
    case Made(call, inner) =>
      (if Lost(call, open) then [] else [call]) + FlatAll(Effect(c, call).value, inner, open)
    case SafeMint(recipient, uri, inner) =>
      [Mint(recipient, uri, true)] + FlatAll(HalfMinted(c, recipient), inner, open + {c.nextTokenId})
  }

  function FlatAll(c: Chain, ts: seq<Tree>, open: set<nat>): seq<Call>
    requires RunAll(c, ts).Some?
    decreases ts
  {
    if |ts| == 0 then [] else Flat(c, ts[0], open) + FlatAll(Run(c, ts[0]).value, ts[1..], open)
  }

  lemma {:induction false} DoBoth(c: Chain, first: seq<Call>, second: seq<Call>)
    requires DoAll(c, first).Some?
    ensures DoAll(c, first + second) == DoAll(DoAll(c, first).value, second)
    decreases |first|
  {
    if |first| == 0 {
      assert first + second == second;
    } else {
      DoBoth(Effect(c, first[0]).value, first[1..], second);
      assert (first + second)[1..] == first[1..] + second;
    }
  }

  /** d is where the plain calls have led: it has the URIs of the mints under way
      already. */
  predicate Alike(c: Chain, d: Chain, open: set<nat>) {
    && d == c.(uris := d.uris) && c.uris - open == d.uris - open
    && forall id :: id in open ==> id < c.nextTokenId && id in d.uris
  }

  predicate SameOpen(d: Chain, d': Chain, open: set<nat>) {
    forall id :: id in open && id in d.uris ==> id in d'.uris && d'.uris[id] == d.uris[id]
  }

  /** The plain calls go through as well, and keep up. */
  predicate KeepsUp(c': Chain, d: Chain, calls: seq<Call>, open: set<nat>) {
    && DoAll(d, calls).Some?
    && Alike(c', DoAll(d, calls).value, open) && SameOpen(d, DoAll(d, calls).value, open)
  }

  lemma LostKeepsUp(c: Chain, d: Chain, call: Call, open: set<nat>)
    requires Alike(c, d, open) && Effect(c, call).Some? && Lost(call, open)
    ensures Alike(Effect(c, call).value, d, open)
  {
    assert Effect(c, call).value.uris - open == c.uris - open;
  }

  lemma StillAlike(a: map<nat, string>, b: map<nat, string>, open: set<nat>, id: nat, uri: string)
    requires a - open == b - open && id !in open
    ensures a[id := uri] - open == b[id := uri] - open
  {
    assert a[id := uri] - open == (a - open)[id := uri];
    assert b[id := uri] - open == (b - open)[id := uri];
  }

  lemma CallKeepsUp(c: Chain, d: Chain, call: Call, open: set<nat>)
    requires Alike(c, d, open) && Effect(c, call).Some? && !Lost(call, open)
    ensures Effect(d, call).Some?
    ensures Alike(Effect(c, call).value, Effect(d, call).value, open) && SameOpen(d, Effect(d, call).value, open)
  {
    if call.UpdateIdentityURI? {
      StillAlike(c.uris, d.uris, open, call.tokenId, call.uri);
    } else if call.Mint? {
      StillAlike(c.uris, d.uris, open, c.nextTokenId, call.uri);
    }
  }

  lemma HalfMintKeepsUp(c: Chain, d: Chain, recipient: string, uri: string, open: set<nat>)
    requires Alike(c, d, open) && uri != "" && recipient != ZERO_ADDRESS
    ensures var d' := Effect(d, Mint(recipient, uri, true));
            && d'.Some? && Alike(HalfMinted(c, recipient), d'.value, open + {c.nextTokenId})
            && SameOpen(d, d'.value, open) && d'.value.uris[c.nextTokenId] == uri
  {
    var d' := Effect(d, Mint(recipient, uri, true)).value;
    var more := open + {c.nextTokenId};
    assert c.uris - more == (c.uris - open) - {c.nextTokenId};
    assert d'.uris - more == (d.uris - open) - {c.nextTokenId};
  }

  /** The mint is over. */
  lemma MintCloses(c: Chain, d: Chain, n: nat, uri: string, open: set<nat>)
    requires Alike(c, d, open + {n}) && n !in open && n in d.uris && d.uris[n] == uri
    ensures Alike(c.(uris := c.uris[n := uri]), d, open)
  {
    var closed := c.uris[n := uri];
    forall id
      ensures id in closed - open <==> id in d.uris - open
      ensures id in closed - open ==> (closed - open)[id] == (d.uris - open)[id]
    {
      if id != n {
        assert id in c.uris - (open + {n}) <==> id in d.uris - (open + {n});
        assert id in c.uris - (open + {n}) ==> (c.uris - (open + {n}))[id] == (d.uris - (open + {n}))[id];
      }
    }
    assert closed - open == d.uris - open;
  }

  lemma {:induction false} TreeKeepsUp(c: Chain, d: Chain, t: Tree, open: set<nat>)
    requires Run(c, t).Some? && Alike(c, d, open)
    ensures KeepsUp(Run(c, t).value, d, Flat(c, t, open), open)
    decreases t
  {
    match t
    case Made(call, inner) =>
      var c1 := Effect(c, call).value;
      var rest := FlatAll(c1, inner, open);
      if Lost(call, open) {
        LostKeepsUp(c, d, call, open);
        TreesKeepUp(c1, d, inner, open);
        assert Flat(c, t, open) == rest;
      } else {
        CallKeepsUp(c, d, call, open);
        TreesKeepUp(c1, Effect(d, call).value, inner, open);
        assert Flat(c, t, open)[1..] == rest;
      }
    case SafeMint(recipient, uri, inner) =>
      var c1, more := HalfMinted(c, recipient), open + {c.nextTokenId};
      var d1 := Effect(d, Mint(recipient, uri, true)).value;
      HalfMintKeepsUp(c, d, recipient, uri, open);
      TreesKeepUp(c1, d1, inner, more);
      MintCloses(RunAll(c1, inner).value, DoAll(d1, FlatAll(c1, inner, more)).value, c.nextTokenId, uri, open);
      assert Flat(c, t, open)[1..] == FlatAll(c1, inner, more);
  }

  lemma {:induction false} TreesKeepUp(c: Chain, d: Chain, ts: seq<Tree>, open: set<nat>)
    requires RunAll(c, ts).Some? && Alike(c, d, open)
    ensures KeepsUp(RunAll(c, ts).value, d, FlatAll(c, ts, open), open)
    decreases ts
  {
    if |ts| > 0 {
      var first := Flat(c, ts[0], open);
      TreeKeepsUp(c, d, ts[0], open);
      TreesKeepUp(Run(c, ts[0]).value, DoAll(d, first).value, ts[1..], open);
      DoBoth(d, first, FlatAll(Run(c, ts[0]).value, ts[1..], open));
    }
  }

  /** A call with all the calls made from within it, to any depth, comes to the
      same as plain calls. */
  lemma ReentrantIsSequential(c: Chain, t: Tree)
    requires Run(c, t).Some?
    ensures DoAll(c, Flat(c, t, {})) == Run(c, t)
  {
    TreeKeepsUp(c, c, t, {});
    assert Run(c, t).value.uris - {} == Run(c, t).value.uris;
    assert DoAll(c, Flat(c, t, {})).value.uris - {} == DoAll(c, Flat(c, t, {})).value.uris;
  }

  // ---- In runs of the registration service ----

  /** None of the calls is made by the service's wallet, which is a plain
      account and makes none from within another. */
  predicate FromOutside(env: Env, t: Tree)
    decreases t
  {
    && (t.Made? ==> IsOutside(env, t.call))
    && AllFromOutside(env, t.inner)
  }

  predicate AllFromOutside(env: Env, ts: seq<Tree>)
    decreases ts
  {
    |ts| > 0 ==> FromOutside(env, ts[0]) && AllFromOutside(env, ts[1..])
  }

  lemma {:induction false} FlatFromOutside(env: Env, c: Chain, t: Tree, open: set<nat>)
    requires Run(c, t).Some? && FromOutside(env, t)
    ensures forall i :: 0 <= i < |Flat(c, t, open)| ==> IsOutside(env, Flat(c, t, open)[i])
    decreases t
  {
    match t
    case Made(call, inner) => FlatAllFromOutside(env, Effect(c, call).value, inner, open);
    case SafeMint(recipient, uri, inner) =>
      FlatAllFromOutside(env, HalfMinted(c, recipient), inner, open + {c.nextTokenId});
  }

  lemma {:induction false} FlatAllFromOutside(env: Env, c: Chain, ts: seq<Tree>, open: set<nat>)
    requires RunAll(c, ts).Some? && AllFromOutside(env, ts)
    ensures forall i :: 0 <= i < |FlatAll(c, ts, open)| ==> IsOutside(env, FlatAll(c, ts, open)[i])
    decreases ts
  {
    if |ts| > 0 {
      FlatFromOutside(env, c, ts[0], open);
      FlatAllFromOutside(env, Run(c, ts[0]).value, ts[1..], open);
    }
  }

  /** Nothing of the service has changed. */
  predicate OnlyChain(w: World, w': World) {
    w' == w.(chain := w'.chain, moves := w'.moves, writes := w'.writes)
  }

  predicate Continues(steps: seq<Step>, longer: seq<Step>) {
    && |steps| <= |longer| && longer[..|steps|] == steps
    && forall i :: |steps| <= i < |longer| ==> longer[i].Outside?
  }

  lemma ContinuesOn(steps: seq<Step>, call: Call, longer: seq<Step>)
    requires Continues(steps + [Outside(call)], longer)
    ensures Continues(steps, longer)
  {
    assert longer[..|steps|] == longer[..|steps| + 1][..|steps|];
    assert longer[|steps|] == longer[..|steps| + 1][|steps|];
  }

  lemma {:induction false} OutsideCalls(env: Env, start: int, steps: seq<Step>, calls: seq<Call>)
    returns (longer: seq<Step>)
    requires IsRun(env, start, steps) && DoAll(Exec(env, start, steps).value.chain, calls).Some?
    requires forall i :: 0 <= i < |calls| ==> IsOutside(env, calls[i])
    ensures IsRun(env, start, longer) && Continues(steps, longer)
    ensures var w, w' := Exec(env, start, steps).value, Exec(env, start, longer).value;
            w'.chain == DoAll(w.chain, calls).value && OnlyChain(w, w')
    decreases |calls|
  {
    if |calls| == 0 {
      longer := steps;
    } else {
      Then(env, start, steps, Outside(calls[0]));
      longer := OutsideCalls(env, start, steps + [Outside(calls[0])], calls[1..]);
      ContinuesOn(steps, calls[0], longer);
    }
  }

  /** So whatever others do at some point of a run, calling back or not, some run
      of plain calls does, and nothing else. */
  lemma ReentrantInRuns(env: Env, start: int, steps: seq<Step>, t: Tree) returns (longer: seq<Step>)
    requires IsRun(env, start, steps) && FromOutside(env, t)
    requires Run(Exec(env, start, steps).value.chain, t).Some?
    ensures IsRun(env, start, longer) && Continues(steps, longer)
    ensures var w, w' := Exec(env, start, steps).value, Exec(env, start, longer).value;
            w'.chain == Run(w.chain, t).value && OnlyChain(w, w')
  {
    var c := Exec(env, start, steps).value.chain;
    ReentrantIsSequential(c, t);
    FlatFromOutside(env, c, t, {});
    longer := OutsideCalls(env, start, steps, Flat(c, t, {}));
  }
}
