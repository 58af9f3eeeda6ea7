/** The identity registry contract: who owns a token, what its URI is, and what a
    call may change. Sources: contracts/src/OpenSCUTRegistry.sol and ERC-721,
    which it inherits. */
module Contract {
  import opened Basics

  /** `approved` is who may transfer one token, `operators` who may transfer and
      approve all tokens of an owner. */
  datatype Chain = Chain(
    nextTokenId: nat,
    owners: map<nat, string>,
    uris: map<nat, string>,
    approved: map<nat, string>,
    operators: set<(string, string)>)

  const ZERO_ADDRESS := "0x0000000000000000000000000000000000000000"

  /** `received`: the recipient of a mint is a plain account, or a contract that
      takes the token. A transfer that asks its recipient, and goes through, is a
      TransferFrom. */
  datatype Call =
    | Mint(recipient: string, uri: string, received: bool)
    | UpdateIdentityURI(caller: string, tokenId: nat, uri: string)
    | TransferFrom(caller: string, tokenId: nat, source: string, recipient: string)
    | Approve(caller: string, tokenId: nat, spender: string)
    | SetApprovalForAll(caller: string, operator: string, allowed: bool)

  /** The token a call names. */
  function TokenOf(call: Call): Option<nat> {
    match call
    case Mint(_, _, _) => None
    case SetApprovalForAll(_, _, _) => None
    case _ => Some(call.tokenId)
  }

  /** The constructor: token ids start at 1. */
  function Deployed(): Chain {
    Chain(1, map[], map[], map[], {})
  }

  /** May transfer the token. */
  predicate Authorized(c: Chain, caller: string, id: nat) {
    id in c.owners && (MayApprove(c, caller, id) || (id in c.approved && c.approved[id] == caller))
  }

  predicate MayApprove(c: Chain, caller: string, id: nat) {
    id in c.owners && (c.owners[id] == caller || (c.owners[id], caller) in c.operators)
  }

  function WithApproval(approved: map<nat, string>, id: nat, spender: string): map<nat, string> {
    if spender == ZERO_ADDRESS then approved - {id} else approved[id := spender]
  }

  /** The state after a call, or None when the call reverts. */
  function Effect(c: Chain, call: Call): Option<Chain> {
    match call
    case Mint(recipient, uri, received) =>
      if uri == "" || recipient == ZERO_ADDRESS || !received then None
      else Some(c.(nextTokenId := c.nextTokenId + 1,
                   owners := c.owners[c.nextTokenId := recipient],
                   uris := c.uris[c.nextTokenId := uri]))
    case UpdateIdentityURI(caller, id, uri) =>
      if uri == "" || id !in c.owners || c.owners[id] != caller then None
      else Some(c.(uris := c.uris[id := uri]))
    case TransferFrom(caller, id, source, recipient) =>
      if recipient == ZERO_ADDRESS || !Authorized(c, caller, id) || c.owners[id] != source then None
      else Some(c.(owners := c.owners[id := recipient], approved := c.approved - {id}))
    case Approve(caller, id, spender) =>
      if !MayApprove(c, caller, id) then None
      else Some(c.(approved := WithApproval(c.approved, id, spender)))
    case SetApprovalForAll(caller, operator, allowed) =>
      if operator == ZERO_ADDRESS then None
      else Some(c.(operators := if allowed then c.operators + {(caller, operator)}
                                else c.operators - {(caller, operator)}))
  }

  /** Ids are given out in order, every minted token has an owner and a URI that
      is not empty, and nothing else has either, or an approval. */
  ghost predicate Sound(c: Chain) {
    && c.nextTokenId >= 1
    && (forall id :: id in c.owners <==> 1 <= id < c.nextTokenId)
    && (forall id :: id in c.uris <==> id in c.owners)
    && (forall id :: id in c.uris ==> c.uris[id] != "")
    && (forall id :: id in c.approved ==> id in c.owners)
  }

  /** What any call keeps, and how a token can come to be. */
  lemma CallKeeps(c: Chain, call: Call, id: nat)
    requires Sound(c) && Effect(c, call).Some?
    ensures var c' := Effect(c, call).value;
            && Sound(c') && c.nextTokenId <= c'.nextTokenId
            && (id in c.owners ==> id in c'.owners)
            && (id !in c.owners && id in c'.owners
                ==> call.Mint? && id == c.nextTokenId && c'.owners[id] == call.recipient && c'.uris[id] == call.uri
                    && id !in c'.approved)
  {
  }

  /** What it takes to change a token that exists. Its URI: its owner. Its owner:
      someone its owner or an operator of his has authorized, and nobody is any
      more. An approval: its owner or an operator of his, and him alone to make
      one an operator. */
  lemma OnlyTheOwnerChanges(c: Chain, call: Call, id: nat, owner: string, operator: string)
    requires Sound(c) && Effect(c, call).Some?
    ensures var c' := Effect(c, call).value;
            id in c.owners ==>
              && (c'.uris[id] != c.uris[id] ==>
                    call.UpdateIdentityURI? && call.tokenId == id && call.caller == c.owners[id])
              && (c'.owners[id] != c.owners[id] ==>
                    && call.TransferFrom? && call.tokenId == id && call.source == c.owners[id]
                    && Authorized(c, call.caller, id) && id !in c'.approved)
              && (id in c'.approved && (id !in c.approved || c'.approved[id] != c.approved[id]) ==>
                    call.Approve? && call.tokenId == id && MayApprove(c, call.caller, id))
    ensures (owner, operator) in Effect(c, call).value.operators && (owner, operator) !in c.operators ==>
              call.SetApprovalForAll? && call.caller == owner && call.operator == operator
  {
  }

  /** What an approval is good for: the spender may move this token, an operator
      every token of the owner, until they are told otherwise. */
  lemma ApprovalsAuthorize(c: Chain, owner: string, id: nat, spender: string, next: string)
    requires Sound(c) && id in c.owners && c.owners[id] == owner && spender != ZERO_ADDRESS && next != ZERO_ADDRESS
    ensures var one := Effect(c, Approve(owner, id, spender));
            one.Some? && Effect(one.value, TransferFrom(spender, id, owner, next)).Some?
    ensures var all := Effect(c, SetApprovalForAll(owner, spender, true));
            && all.Some? && Effect(all.value, TransferFrom(spender, id, owner, next)).Some?
            && Effect(all.value, Approve(spender, id, next)).Some?
    ensures var none := Effect(c, SetApprovalForAll(owner, spender, false));
            none.Some? && (Authorized(none.value, spender, id)
                           <==> spender == owner || (id in c.approved && c.approved[id] == spender))
    ensures var none := Effect(c, Approve(owner, id, ZERO_ADDRESS));
            none.Some? && (Authorized(none.value, spender, id)
                           <==> spender == owner || (owner, spender) in c.operators)
  {
  }

  /** And the owner may do with his token what he likes. */
  lemma OwnerMay(c: Chain, owner: string, id: nat, uri: string, next: string)
    requires Sound(c) && id in c.owners && c.owners[id] == owner && uri != "" && next != ZERO_ADDRESS
    ensures var updated := Effect(c, UpdateIdentityURI(owner, id, uri));
            updated.Some? && updated.value == c.(uris := updated.value.uris)
            && updated.value.uris[id] == uri && updated.value.uris - {id} == c.uris - {id}
    ensures var moved := Effect(c, TransferFrom(owner, id, owner, next));
            moved.Some? && moved.value.owners[id] == next && moved.value.owners - {id} == c.owners - {id}
  {
  }

  /** Nobody but the owner himself may move what he owns. */
  predicate ApprovesNobody(c: Chain, owner: string) {
    && (forall p :: p in c.operators ==> p.0 != owner)
    && (forall id :: id in c.owners && c.owners[id] == owner ==> id !in c.approved)
  }

  predicate Approves(call: Call) {
    call.Approve? || call.SetApprovalForAll?
  }

  /** As long as it is so, he alone moves his tokens, */
  lemma MovesHisOwn(c: Chain, call: Call, owner: string)
    requires Effect(c, call).Some? && ApprovesNobody(c, owner) && call.TransferFrom? && call.source == owner
    ensures call.caller == owner
  {
  }

  /** and it stays so until he approves of someone, whatever others do. */
  lemma StaysUnapproved(c: Chain, call: Call, owner: string)
    requires Sound(c) && Effect(c, call).Some? && ApprovesNobody(c, owner)
    requires Approves(call) ==> call.caller != owner
    ensures ApprovesNobody(Effect(c, call).value, owner)
  {
    var c' := Effect(c, call).value;
    forall k | k in c'.owners && c'.owners[k] == owner
      ensures k !in c'.approved
    {
      assert k in c.owners && c.owners[k] == owner ==> k !in c.approved;
    }
  }

  class OpenSCUTRegistry {
    var nextTokenId: nat
    var owners: map<nat, string>
    var identityURIs: map<nat, string>
    var tokenApprovals: map<nat, string>
    var operatorApprovals: set<(string, string)>

    ghost function State(): Chain
      reads this
    {
      Chain(nextTokenId, owners, identityURIs, tokenApprovals, operatorApprovals)
    }

    constructor ()
      ensures State() == Deployed()
    {
      nextTokenId, owners, identityURIs, tokenApprovals, operatorApprovals := 1, map[], map[], map[], {};
    }

    /** None stands for a revert: nothing has changed then. `received` is the
        recipient's answer. */
    method MintToken(recipient: string, identityURI: string, received: bool) returns (tokenId: Option<nat>)
      modifies this
      ensures State() == Effect(old(State()), Mint(recipient, identityURI, received)).UnwrapOr(old(State()))
      ensures tokenId
              == if identityURI != "" && recipient != ZERO_ADDRESS && received then Some(old(nextTokenId)) else None
    {
      if identityURI == "" || recipient == ZERO_ADDRESS || !received {
        return None;
      }
      tokenId := Some(nextTokenId);
      nextTokenId := nextTokenId + 1;
      owners := owners[tokenId.value := recipient];
      identityURIs := identityURIs[tokenId.value := identityURI];
    }

    method Update(caller: string, tokenId: nat, newURI: string) returns (ok: bool)
      modifies this
      ensures ok == Effect(old(State()), UpdateIdentityURI(caller, tokenId, newURI)).Some?
      ensures State() == Effect(old(State()), UpdateIdentityURI(caller, tokenId, newURI)).UnwrapOr(old(State()))
    {
      if newURI == "" || tokenId !in owners || owners[tokenId] != caller {
        return false;
      }
      identityURIs := identityURIs[tokenId := newURI];
      return true;
    }

    method Transfer(caller: string, source: string, recipient: string, tokenId: nat) returns (ok: bool)
      modifies this
      ensures ok == Effect(old(State()), TransferFrom(caller, tokenId, source, recipient)).Some?
      ensures State() == Effect(old(State()), TransferFrom(caller, tokenId, source, recipient)).UnwrapOr(old(State()))
    {
      if recipient == ZERO_ADDRESS || tokenId !in owners || owners[tokenId] != source {
        return false;
      }
      var trusted := caller == source || (source, caller) in operatorApprovals;
      if !trusted && (tokenId !in tokenApprovals || tokenApprovals[tokenId] != caller) {
        return false;
      }
      tokenApprovals := tokenApprovals - {tokenId};
      owners := owners[tokenId := recipient];
      return true;
    }

    method ApproveOne(caller: string, tokenId: nat, spender: string) returns (ok: bool)
      modifies this
      ensures ok == Effect(old(State()), Approve(caller, tokenId, spender)).Some?
      ensures State() == Effect(old(State()), Approve(caller, tokenId, spender)).UnwrapOr(old(State()))
    {
      if tokenId !in owners || (owners[tokenId] != caller && (owners[tokenId], caller) !in operatorApprovals) {
        return false;
      }
      tokenApprovals :=
        if spender == ZERO_ADDRESS then tokenApprovals - {tokenId} else tokenApprovals[tokenId := spender];
      return true;
    }

    method ApproveAll(caller: string, operator: string, allowed: bool) returns (ok: bool)
      modifies this
      ensures ok == Effect(old(State()), SetApprovalForAll(caller, operator, allowed)).Some?
      ensures State() == Effect(old(State()), SetApprovalForAll(caller, operator, allowed)).UnwrapOr(old(State()))
    {
      if operator == ZERO_ADDRESS {
        return false;
      }
      if allowed {
        operatorApprovals := operatorApprovals + {(caller, operator)};
      } else {
        operatorApprovals := operatorApprovals - {(caller, operator)};
      }
      return true;
    }

    /** Never the empty string for a token that exists, and a revert for any
        other. */
    method ScutIdentityURI(tokenId: nat) returns (uri: Option<string>)
      requires Sound(State())
      ensures uri.Some? <==> 1 <= tokenId < nextTokenId
      ensures uri.Some? ==> uri.value == State().uris[tokenId] && uri.value != ""
    {
      if tokenId !in owners {
        return None;
      }
      return Some(identityURIs[tokenId]);
    }
  }
}
