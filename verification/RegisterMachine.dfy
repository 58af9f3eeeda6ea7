/** The registration service and the contract it writes to, as a step machine.
    A handler awaits its transaction, and the transaction takes effect on the
    chain before the handler hears of it, if it ever does. So a handler is a
    start, one step of the chain per transaction, and a commit. It can fail at
    any point in between, also while its transaction is still pending, which
    then takes effect later or never. Other handlers and other callers of the
    contract take steps whenever they like.

    Sources: packages/register/src/routes/register.ts, update.ts and
    transfer.ts, and packages/register/src/registry-client.ts. */
module RegisterMachine {
  import opened Basics
  import opened Contract
  import opened RegisterDb
  import ScutUri

  /** The parts of an SII document the service looks at. */
  datatype Doc = Doc(tokenId: Option<string>, signingKey: Option<string>, encryptionKey: Option<string>, rest: string)

  /** What a signature check can do. */
  datatype Verdict = Valid | Invalid | Throws

  /** The service's settings and the functions it calls: the data: URI codec
      and Ed25519. */
  datatype Env = Env(
    globalPerDay: nat,
    wallet: string,
    encode: Doc -> string,
    decode: string -> Option<Doc>,
    signsDoc: (string, Doc, string) -> Verdict,
    signsText: (string, string, string) -> Verdict)

  ghost predicate ValidEnv(env: Env) {
    && env.globalPerDay >= 1
    && env.wallet != ZERO_ADDRESS
    && forall d :: env.encode(d) != "" && env.decode(env.encode(d)) == Some(d)
  }

  /** What the holder signs to have a token transferred. */
  function TransferChallenge(tokenId: string, newOwner: string): string {
    "scut/v1/transfer" + [':'] + (tokenId + [':'] + newOwner)
  }

  /** The URI a token carries between its mint and its first update. */
  const PLACEHOLDER_URI := "data:application/json;base64,e30="

  /** A registration request that passed the schema. */
  datatype Request = Request(signingKey: string, encryptionKey: string, displayName: Option<string>, rest: string)

  predicate WellFormedRequest(r: Request) {
    r.signingKey != "" && r.encryptionKey != "" && (r.displayName.Some? ==> r.displayName.value != "")
  }

  datatype Job =
    | Minting(request: Request)
    | Minted(request: Request, token: nat)
    | Rewritten(request: Request, token: nat)
    | UpdateSigned(tokenId: string, doc: Doc, signature: string)
    | UpdateWritten(tokenId: string, doc: Doc, signature: string)
    | TransferSigned(tokenId: string, newOwner: string)
    | Moved(tokenId: string, newOwner: string)
    /** The handler is gone and its transaction still pending. */
    | Forgotten(call: Call)
    /** And that transaction has taken effect after all. */
    | Spent

  predicate Registering(job: Job) {
    job.Minting? || job.Minted? || job.Rewritten?
  }

  /** The token a registration has minted and not yet written down. */
  function NewToken(job: Job): Option<nat> {
    if job.Minted? || job.Rewritten? then Some(job.token) else None
  }

  /** The registered token an update or a transfer is about. */
  function OldToken(job: Job): Option<string> {
    if job.UpdateSigned? || job.UpdateWritten? || job.TransferSigned? || job.Moved? then Some(job.tokenId) else None
  }

  /** What the service has answered 2xx to, in the order of the answers. `since`
      is how many answers it had given when the signature was checked. */
  datatype Entry =
    | Registered(tokenId: string, key: string, made: int, counted: int)
    | Updated(tokenId: string, doc: Doc, signature: string, since: nat)
    | Released(tokenId: string)

  /** The contract's Transfer events; a mint comes from nobody. */
  datatype Move = Move(token: nat, source: Option<string>, recipient: string)

  /** The contract's Registered and Updated events: who got which URI. */
  datatype Write = Write(token: nat, uri: string)

  /** `moves` and `writes` are the contract's event logs, `history` the answers of
      the service; `checked` is how many answers it had given when the signature
      of a handler's request was checked. No program sees the last two. */
  datatype World = World(
    chain: Chain,
    moves: seq<Move>,
    writes: seq<Write>,
    rows: Registrations,
    counts: DailyCounts,
    jobs: map<nat, Job>,
    checked: map<nat, nat>,
    history: seq<Entry>,
    clock: int)

  /** A registration reads the clock twice when it starts, for the display name
      and for the cap, and twice when it ends, for the row and for the counter. */
  datatype Step =
    | RegisterStart(job: nat, request: Request, asked: int, now: int)
    | UpdateStart(job: nat, tokenId: string, doc: Doc, signature: string)
    | TransferStart(job: nat, tokenId: string, newOwner: string, signature: string)
    | Tx(job: nat)
    | RegisterCommit(job: nat, made: int, now: int)
    | UpdateCommit(job: nat, now: int)
    | TransferCommit(job: nat, now: int)
    | Fail(job: nat)
    | GiveUp(job: nat)
    | Outside(call: Call)

  /** The document a registration writes. */
  function RegisteredDoc(r: Request, token: nat): Doc {
    Doc(Some(ScutUri.Decimal(token)), Some(r.signingKey), Some(r.encryptionKey), r.rest)
  }

  // ---- The answers a handler gives before it touches the chain ----

  /** 0 when the registration goes ahead. */
  function RegisterRefusal(env: Env, w: World, r: Request, asked: int, now: int): nat {
    if r.displayName.Some? && |NamedSince(w.rows, r.displayName.value, asked - DAY_SECONDS)| >= 1 then 429
    else if CountOn(w.counts, Day(now)) >= env.globalPerDay then 503
    else 0
  }

  function UpdateRefusal(env: Env, w: World, tokenId: string, doc: Doc, signature: string): nat {
    if !ScutUri.IsNumeral(tokenId) then 400
    else if tokenId !in w.rows then 404
    else if !w.rows[tokenId].custodial then 409
    else
      match env.signsDoc(w.rows[tokenId].ed25519PublicKey, doc, signature)
      case Throws => 400
      case Invalid => 401
      case Valid => if doc.tokenId != Some(tokenId) then 400 else 0
  }

  function TransferRefusal(env: Env, w: World, tokenId: string, newOwner: string, signature: string): nat {
    if !ScutUri.IsNumeral(tokenId) || !ScutUri.IsAddress(newOwner) then 400
    else if tokenId !in w.rows then 404
    else if !w.rows[tokenId].custodial then 409
    else
      var challenge := TransferChallenge(tokenId, ScutUri.Lower(newOwner));
      match env.signsText(w.rows[tokenId].ed25519PublicKey, challenge, signature)
      case Throws => 500
      case Invalid => 401
      case Valid => 0
  }

  // ---- Transactions ----

  /** The call a handler's transaction makes. */
  function TxCall(env: Env, job: Job): Option<Call> {
    match job
    case Minting(_) => Some(Mint(env.wallet, PLACEHOLDER_URI, true))
    case Minted(r, token) => Some(UpdateIdentityURI(env.wallet, token, env.encode(RegisteredDoc(r, token))))
    case UpdateSigned(tokenId, doc, _) =>
      if ScutUri.IsNumeral(tokenId)
      then Some(UpdateIdentityURI(env.wallet, ScutUri.NumberOf(tokenId), env.encode(doc)))
      else None
    case TransferSigned(tokenId, newOwner) =>
      if ScutUri.IsNumeral(tokenId)
      then Some(TransferFrom(env.wallet, ScutUri.NumberOf(tokenId), env.wallet, newOwner))
      else None
    case Forgotten(call) => Some(call)
    case _ => None
  }

  /** Where a handler stands once its transaction has taken effect. */
  function AfterTx(job: Job, minted: nat): Job {
    match job
    case Minting(r) => Minted(r, minted)
    case Minted(r, token) => Rewritten(r, token)
    case UpdateSigned(tokenId, doc, signature) => UpdateWritten(tokenId, doc, signature)
    case TransferSigned(tokenId, newOwner) => Moved(tokenId, newOwner)
    case Forgotten(_) => Spent
    case _ => job
  }

  function MovesOf(c: Chain, call: Call): seq<Move> {
    match call
    case Mint(recipient, _, _) => [Move(c.nextTokenId, None, recipient)]
    case TransferFrom(_, token, source, recipient) => [Move(token, Some(source), recipient)]
    case _ => []
  }

  function WritesOf(c: Chain, call: Call): seq<Write> {
    match call
    case Mint(_, uri, _) => [Write(c.nextTokenId, uri)]
    case UpdateIdentityURI(_, token, uri) => [Write(token, uri)]
    case _ => []
  }

  function Called(w: World, call: Call): World
    requires Effect(w.chain, call).Some?
  {
    w.(chain := Effect(w.chain, call).value,
       moves := w.moves + MovesOf(w.chain, call),
       writes := w.writes + WritesOf(w.chain, call))
  }

  predicate TxEnabled(env: Env, w: World, job: nat) {
    job in w.jobs && TxCall(env, w.jobs[job]).Some? && Effect(w.chain, TxCall(env, w.jobs[job]).value).Some?
  }

  function AfterTxStep(env: Env, w: World, job: nat): World
    requires TxEnabled(env, w, job)
  {
    Called(w, TxCall(env, w.jobs[job]).value).(jobs := w.jobs[job := AfterTx(w.jobs[job], w.chain.nextTokenId)])
  }

  // ---- Steps ----

  /** Everyone but the service's own wallet; anyone may mint. */
  predicate IsOutside(env: Env, call: Call) {
    call.Mint? || call.caller != env.wallet
  }

  predicate Enabled(env: Env, w: World, step: Step) {
    match step
    case RegisterStart(job, r, _, _) => job !in w.jobs && WellFormedRequest(r)
    case UpdateStart(job, _, _, _) => job !in w.jobs
    case TransferStart(job, _, _, _) => job !in w.jobs
    case Tx(job) => TxEnabled(env, w, job)
    case RegisterCommit(job, _, _) => job in w.jobs && w.jobs[job].Rewritten?
    case UpdateCommit(job, _) => job in w.jobs && w.jobs[job].UpdateWritten?
    case TransferCommit(job, _) => job in w.jobs && w.jobs[job].Moved?
    case Fail(job) => job in w.jobs
    case GiveUp(job) => job in w.jobs && TxCall(env, w.jobs[job]).Some? && !w.jobs[job].Forgotten?
    case Outside(call) => IsOutside(env, call) && Effect(w.chain, call).Some?
  }

  function AfterRegisterStart(env: Env, w: World, job: nat, r: Request, asked: int, now: int): World {
    if RegisterRefusal(env, w, r, asked, now) == 0 then w.(jobs := w.jobs[job := Minting(r)], clock := now)
    else w.(clock := now)
  }

  function AfterUpdateStart(env: Env, w: World, job: nat, tokenId: string, doc: Doc, signature: string): World {
    if UpdateRefusal(env, w, tokenId, doc, signature) == 0
    then w.(jobs := w.jobs[job := UpdateSigned(tokenId, doc, signature)], checked := w.checked[job := |w.history|])
    else w
  }

  function AfterTransferStart(env: Env, w: World, job: nat, tokenId: string, newOwner: string, signature: string): World
  {
    if TransferRefusal(env, w, tokenId, newOwner, signature) == 0
    then w.(jobs := w.jobs[job := TransferSigned(tokenId, ScutUri.Lower(newOwner))])
    else w
  }

  function AfterRegister(w: World, job: nat, made: int, now: int): World
    requires job in w.jobs && w.jobs[job].Rewritten?
  {
    var r, id := w.jobs[job].request, ScutUri.Decimal(w.jobs[job].token);
    if id in w.rows then w.(jobs := w.jobs - {job}, clock := now)
    else
      w.(jobs := w.jobs - {job},
         clock := now,
         rows := w.rows[id := Row(r.signingKey, r.encryptionKey, r.displayName, true, made, made)],
         counts := w.counts[Day(now) := CountOn(w.counts, Day(now)) + 1],
         history := w.history + [Registered(id, r.signingKey, made, now)])
  }

  function CheckedAt(w: World, job: nat): nat {
    if job in w.checked then w.checked[job] else 0
  }

  function AfterUpdate(w: World, job: nat, now: int): World
    requires job in w.jobs && w.jobs[job].UpdateWritten?
  {
    var j := w.jobs[job];
    w.(jobs := w.jobs - {job},
       clock := now,
       rows := AfterMutation(w.rows, j.tokenId, Mutation(j.doc.signingKey, j.doc.encryptionKey, None), now),
       history := w.history + [Updated(j.tokenId, j.doc, j.signature, CheckedAt(w, job))])
  }

  function AfterTransfer(w: World, job: nat, now: int): World
    requires job in w.jobs && w.jobs[job].Moved?
  {
    var j := w.jobs[job];
    w.(jobs := w.jobs - {job},
       clock := now,
       rows := AfterMutation(w.rows, j.tokenId, Mutation(None, None, Some(false)), now),
       history := w.history + [Released(j.tokenId)])
  }

  function Apply(env: Env, w: World, step: Step): World
    requires Enabled(env, w, step)
  {
    match step
    case RegisterStart(job, r, asked, now) => AfterRegisterStart(env, w, job, r, asked, now)
    case UpdateStart(job, tokenId, doc, signature) => AfterUpdateStart(env, w, job, tokenId, doc, signature)
    case TransferStart(job, tokenId, newOwner, signature) =>
      AfterTransferStart(env, w, job, tokenId, newOwner, signature)
    case Tx(job) => AfterTxStep(env, w, job)
    case RegisterCommit(job, made, now) => AfterRegister(w, job, made, now)
    case UpdateCommit(job, now) => AfterUpdate(w, job, now)
    case TransferCommit(job, now) => AfterTransfer(w, job, now)
    case Fail(job) => w.(jobs := w.jobs - {job})
    case GiveUp(job) => w.(jobs := w.jobs[job := Forgotten(TxCall(env, w.jobs[job]).value)])
    case Outside(call) => Called(w, call)
  }

  /** The contract just deployed, the database empty. */
  function Init(start: int): World {
    World(Deployed(), [], [], map[], map[], map[], map[], [], start)
  }

  function Exec(env: Env, start: int, steps: seq<Step>): Option<World> {
    if |steps| == 0 then Some(Init(start))
    else
      var before := Exec(env, start, steps[..|steps| - 1]);
      if before.Some? && Enabled(env, before.value, steps[|steps| - 1])
      then Some(Apply(env, before.value, steps[|steps| - 1]))
      else None
  }

  predicate IsRun(env: Env, start: int, steps: seq<Step>) {
    Exec(env, start, steps).Some?
  }

  lemma {:induction false} PrefixIsRun(env: Env, start: int, steps: seq<Step>, n: nat)
    requires IsRun(env, start, steps) && n <= |steps|
    ensures IsRun(env, start, steps[..n])
    decreases |steps|
  {
    if n == |steps| {
      assert steps[..n] == steps;
    } else {
      var shorter := steps[..|steps| - 1];
      PrefixIsRun(env, start, shorter, n);
      assert shorter[..n] == steps[..n];
    }
  }

  function WorldAt(env: Env, start: int, steps: seq<Step>, n: nat): World
    requires IsRun(env, start, steps) && n <= |steps|
  {
    PrefixIsRun(env, start, steps, n);
    Exec(env, start, steps[..n]).value
  }

  lemma StepAt(env: Env, start: int, steps: seq<Step>, n: nat)
    requires IsRun(env, start, steps) && n < |steps|
    ensures Enabled(env, WorldAt(env, start, steps, n), steps[n])
    ensures WorldAt(env, start, steps, n + 1) == Apply(env, WorldAt(env, start, steps, n), steps[n])
  {
    PrefixIsRun(env, start, steps, n);
    PrefixIsRun(env, start, steps, n + 1);
    assert steps[..n + 1][..n] == steps[..n];
  }

  /** A run goes on. */
  lemma Then(env: Env, start: int, steps: seq<Step>, step: Step)
    requires IsRun(env, start, steps) && Enabled(env, Exec(env, start, steps).value, step)
    ensures IsRun(env, start, steps + [step])
    ensures Exec(env, start, steps + [step]).value == Apply(env, Exec(env, start, steps).value, step)
  {
    assert (steps + [step])[..|steps|] == steps;
  }
}
