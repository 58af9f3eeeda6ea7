/** Whose signature an accepted update carries: exactly when it is the key in
    force at that moment, the last one that a registration or an accepted update
    brought. */
module KeySuccession {
  import opened Basics
  import opened RegisterDb
  import opened RegisterMachine
  import opened RegisterRuns
  import ScutUri

  // ---- The key in force ----

  /** The last key that a registration or an accepted update of the token
      carried. */
  function KeyInForce(history: seq<Entry>, id: string): Option<string> {
    if |history| == 0 then None
    else KeyAfter(KeyInForce(history[..|history| - 1], id), history[|history| - 1], id)
  }

  function KeyAfter(key: Option<string>, entry: Entry, id: string): Option<string> {
    if entry.tokenId != id then key
    else
      match entry
      case Registered(_, k, _, _) => Some(k)
      case Updated(_, doc, _, _) => if Carried(doc.signingKey) then doc.signingKey else key
      case Released(_) => key
  }

  function KeyOf(w: World, id: string): Option<string> {
    if id in w.rows then Some(w.rows[id].ed25519PublicKey) else None
  }

  lemma NextKey(history: seq<Entry>, entry: Entry, id: string)
    ensures KeyInForce(history + [entry], id) == KeyAfter(KeyInForce(history, id), entry, id)
  {
    assert (history + [entry])[..|history|] == history;
  }

  predicate KeyStored(w: World, id: string) {
    KeyInForce(w.history, id) == KeyOf(w, id)
  }

  lemma RegisterStores(w: World, job: nat, made: int, now: int, id: string)
    requires WellKept(w) && KeyStored(w, id) && job in w.jobs && w.jobs[job].Rewritten?
    ensures KeyStored(AfterRegister(w, job, made, now), id)
  {
    CommitKeeps(w, job, made, now);
    NextKey(w.history, Registered(ScutUri.Decimal(w.jobs[job].token), w.jobs[job].request.signingKey, made, now), id);
  }

  lemma UpdateStores(w: World, job: nat, now: int, id: string)
    requires WellKept(w) && KeyStored(w, id) && job in w.jobs && w.jobs[job].UpdateWritten?
    ensures KeyStored(AfterUpdate(w, job, now), id)
  {
    var j := w.jobs[job];
    assert JobFits(w, j);
    NextKey(w.history, Updated(j.tokenId, j.doc, j.signature, CheckedAt(w, job)), id);
  }

  lemma TransferStores(w: World, job: nat, now: int, id: string)
    requires KeyStored(w, id) && job in w.jobs && w.jobs[job].Moved?
    ensures KeyStored(AfterTransfer(w, job, now), id)
  {
    NextKey(w.history, Released(w.jobs[job].tokenId), id);
  }

  lemma StepStores(env: Env, w: World, step: Step, id: string)
    requires WellKept(w) && KeyStored(w, id) && Enabled(env, w, step)
    ensures KeyStored(Apply(env, w, step), id)
  {
    match step
    case RegisterCommit(job, made, now) => RegisterStores(w, job, made, now, id);
    case UpdateCommit(job, now) => UpdateStores(w, job, now, id);
    case TransferCommit(job, now) => TransferStores(w, job, now, id);
    case _ => DatabaseStays(env, w, step);
  }

  /** In every run, whatever overlaps or fails, the database holds for a token
      the last key committed for it, and nothing for a token that was never
      registered. */
  lemma {:induction false} DatabaseHoldsLastKey(env: Env, start: int, steps: seq<Step>, id: string)
    requires IsRun(env, start, steps)
    ensures KeyStored(Exec(env, start, steps).value, id)
  {
    if |steps| > 0 {
      var front := steps[..|steps| - 1];
      DatabaseHoldsLastKey(env, start, front, id);
      RunKeeps(env, start, front);
      StepStores(env, Exec(env, start, front).value, steps[|steps| - 1], id);
    }
  }

  // ---- Which key signed an update ----

  /** The document is the holder's own: signed with his key, for this token. */
  predicate SignedBy(env: Env, key: Option<string>, id: string, doc: Doc, signature: string) {
    key.Some? && env.signsDoc(key.value, doc, signature) == Valid && doc.tokenId == Some(id)
  }

  /** The update was signed with the key in force when it was checked. */
  predicate SignedWhenChecked(env: Env, history: seq<Entry>, id: string, e: Entry)
    requires e.Updated?
  {
    e.since <= |history| && SignedBy(env, KeyInForce(history[..e.since], id), id, e.doc, e.signature)
  }

  predicate IsUpdate(history: seq<Entry>, i: nat, id: string) {
    i < |history| && history[i].Updated? && history[i].tokenId == id
  }

  predicate AllChecked(env: Env, history: seq<Entry>, id: string) {
    forall i :: 0 <= i < |history| && IsUpdate(history, i, id) ==> SignedWhenChecked(env, history[..i], id, history[i])
  }

  predicate Updating(job: Job, id: string) {
    (job.UpdateSigned? || job.UpdateWritten?) && job.tokenId == id
  }

  /** An update that is under way was signed with the key in force when it was
      checked. */
  predicate JobChecked(env: Env, w: World, job: nat, id: string)
    requires job in w.jobs
  {
    Updating(w.jobs[job], id) ==>
      SignedWhenChecked(env, w.history, id,
                        Updated(id, w.jobs[job].doc, w.jobs[job].signature, CheckedAt(w, job)))
  }

  predicate Checked(env: Env, w: World, id: string) {
    && AllChecked(env, w.history, id)
    && forall j :: j in w.jobs ==> JobChecked(env, w, j, id)
  }

  lemma EntryAdded(env: Env, history: seq<Entry>, entry: Entry, id: string)
    requires AllChecked(env, history, id)
    requires entry.Updated? && entry.tokenId == id ==> SignedWhenChecked(env, history, id, entry)
    ensures AllChecked(env, history + [entry], id)
  {
    var h := history + [entry];
    forall i | 0 <= i < |h| && IsUpdate(h, i, id)
      ensures SignedWhenChecked(env, h[..i], id, h[i])
    {
      if i < |history| {
        assert h[..i] == history[..i] && IsUpdate(history, i, id);
      } else {
        assert h[..i] == history;
      }
    }
  }

  /** More answers do not change what was in force before. */
  lemma StillChecked(env: Env, history: seq<Entry>, more: seq<Entry>, id: string, e: Entry)
    requires e.Updated? && SignedWhenChecked(env, history, id, e)
    ensures SignedWhenChecked(env, history + more, id, e)
  {
    assert (history + more)[..e.since] == history[..e.since];
  }

  /** A handler ends with an answer. */
  lemma AnswerChecked(env: Env, w: World, w': World, job: nat, entry: Entry, id: string)
    requires Checked(env, w, id) && job in w.jobs
    requires w'.jobs == w.jobs - {job} && w'.checked == w.checked && w'.history == w.history + [entry]
    requires entry.Updated? && entry.tokenId == id ==> SignedWhenChecked(env, w.history, id, entry)
    ensures Checked(env, w', id)
  {
    EntryAdded(env, w.history, entry, id);
    forall j | j in w'.jobs
      ensures JobChecked(env, w', j, id)
    {
      assert JobChecked(env, w, j, id);
      var q := w.jobs[j];
      if Updating(q, id) {
        StillChecked(env, w.history, [entry], id, Updated(id, q.doc, q.signature, CheckedAt(w, j)));
      }
    }
  }

  lemma UpdateChecked(env: Env, w: World, job: nat, now: int, id: string)
    requires Checked(env, w, id) && job in w.jobs && w.jobs[job].UpdateWritten?
    ensures Checked(env, AfterUpdate(w, job, now), id)
  {
    var j := w.jobs[job];
    assert JobChecked(env, w, job, id);
    AnswerChecked(env, w, AfterUpdate(w, job, now), job, Updated(j.tokenId, j.doc, j.signature, CheckedAt(w, job)), id);
  }

  lemma RegisterChecked(env: Env, w: World, job: nat, made: int, now: int, id: string)
    requires WellKept(w) && Checked(env, w, id) && job in w.jobs && w.jobs[job].Rewritten?
    ensures Checked(env, AfterRegister(w, job, made, now), id)
  {
    var j := w.jobs[job];
    CommitKeeps(w, job, made, now);
    AnswerChecked(env, w, AfterRegister(w, job, made, now), job,
                  Registered(ScutUri.Decimal(j.token), j.request.signingKey, made, now), id);
  }

  lemma TransferChecked(env: Env, w: World, job: nat, now: int, id: string)
    requires Checked(env, w, id) && job in w.jobs && w.jobs[job].Moved?
    ensures Checked(env, AfterTransfer(w, job, now), id)
  {
    AnswerChecked(env, w, AfterTransfer(w, job, now), job, Released(w.jobs[job].tokenId), id);
  }

  lemma StartChecked(env: Env, w: World, job: nat, tokenId: string, doc: Doc, signature: string, id: string)
    requires Checked(env, w, id) && KeyStored(w, id) && job !in w.jobs
    ensures Checked(env, AfterUpdateStart(env, w, job, tokenId, doc, signature), id)
  {
    var w' := AfterUpdateStart(env, w, job, tokenId, doc, signature);
    assert w.history[..|w.history|] == w.history;
    forall j | j in w'.jobs
      ensures JobChecked(env, w', j, id)
    {
      assert j != job ==> JobChecked(env, w, j, id) && CheckedAt(w', j) == CheckedAt(w, j);
    }
  }

  /** No update has started, and none has ended with an answer. */
  predicate NothingNew(w: World, w': World, id: string) {
    && w'.rows == w.rows && w'.history == w.history && w'.checked == w.checked
    && forall j :: j in w'.jobs && Updating(w'.jobs[j], id) ==>
         && j in w.jobs && Updating(w.jobs[j], id)
         && w'.jobs[j].doc == w.jobs[j].doc && w'.jobs[j].signature == w.jobs[j].signature
  }

  lemma JobNothingNew(w: World, w': World, job: nat, j: Job, id: string)
    requires w'.rows == w.rows && w'.history == w.history && w'.checked == w.checked && w'.jobs == w.jobs[job := j]
    requires Updating(j, id) ==>
               && job in w.jobs && Updating(w.jobs[job], id)
               && j.doc == w.jobs[job].doc && j.signature == w.jobs[job].signature
    ensures NothingNew(w, w', id)
  {
  }

  lemma StepNothingNew(env: Env, w: World, step: Step, id: string)
    requires Enabled(env, w, step) && !Commits(step) && !step.UpdateStart?
    ensures NothingNew(w, Apply(env, w, step), id)
  {
    match step
    case Tx(job) => JobNothingNew(w, AfterTxStep(env, w, job), job, AfterTx(w.jobs[job], w.chain.nextTokenId), id);
    case GiveUp(job) =>
      JobNothingNew(w, Apply(env, w, step), job, Forgotten(TxCall(env, w.jobs[job]).value), id);
    case Fail(job) =>
    case Outside(call) => assert Called(w, call).jobs == w.jobs;
    case RegisterStart(job, r, asked, now) => RegisterNothingNew(env, w, job, r, asked, now, id);
    case TransferStart(job, tokenId, newOwner, signature) =>
      TransferNothingNew(env, w, job, tokenId, newOwner, signature, id);
  }

  lemma RegisterNothingNew(env: Env, w: World, job: nat, r: Request, asked: int, now: int, id: string)
    ensures NothingNew(w, AfterRegisterStart(env, w, job, r, asked, now), id)
  {
    if RegisterRefusal(env, w, r, asked, now) == 0 {
      JobNothingNew(w, AfterRegisterStart(env, w, job, r, asked, now), job, Minting(r), id);
    }
  }

  lemma TransferNothingNew(env: Env, w: World, job: nat, tokenId: string, newOwner: string, signature: string,
                           id: string)
    ensures NothingNew(w, AfterTransferStart(env, w, job, tokenId, newOwner, signature), id)
  {
    if TransferRefusal(env, w, tokenId, newOwner, signature) == 0 {
      JobNothingNew(w, AfterTransferStart(env, w, job, tokenId, newOwner, signature), job,
                    TransferSigned(tokenId, ScutUri.Lower(newOwner)), id);
    }
  }

  lemma SameChecks(env: Env, w: World, w': World, id: string)
    requires Checked(env, w, id) && NothingNew(w, w', id)
    ensures Checked(env, w', id)
  {
    forall j | j in w'.jobs
      ensures JobChecked(env, w', j, id)
    {
      if Updating(w'.jobs[j], id) {
        assert JobChecked(env, w, j, id);
      }
    }
  }

  lemma StepChecked(env: Env, w: World, step: Step, id: string)
    requires WellKept(w) && Checked(env, w, id) && KeyStored(w, id) && Enabled(env, w, step)
    ensures Checked(env, Apply(env, w, step), id)
  {
    match step
    case RegisterCommit(job, made, now) => RegisterChecked(env, w, job, made, now, id);
    case UpdateCommit(job, now) => UpdateChecked(env, w, job, now, id);
    case TransferCommit(job, now) => TransferChecked(env, w, job, now, id);
    case UpdateStart(job, tokenId, doc, signature) => StartChecked(env, w, job, tokenId, doc, signature, id);
    case _ =>
      StepNothingNew(env, w, step, id);
      SameChecks(env, w, Apply(env, w, step), id);
  }

  /** In every run, every accepted update was signed with the key that was in
      force when its signature was checked. */
  lemma {:induction false} SignedWithTheKeyChecked(env: Env, start: int, steps: seq<Step>, id: string)
    requires IsRun(env, start, steps)
    ensures Checked(env, Exec(env, start, steps).value, id)
  {
    if |steps| > 0 {
      var front := steps[..|steps| - 1];
      SignedWithTheKeyChecked(env, start, front, id);
      DatabaseHoldsLastKey(env, start, front, id);
      RunKeeps(env, start, front);
      StepChecked(env, Exec(env, start, front).value, steps[|steps| - 1], id);
    }
  }

  // ---- Succession, and exactly when ----

  /** Every accepted update was signed with the key in force when it was
      accepted. */
  predicate Succession(env: Env, history: seq<Entry>, id: string) {
    forall i :: 0 <= i < |history| && IsUpdate(history, i, id) ==>
      SignedBy(env, KeyInForce(history[..i], id), id, history[i].doc, history[i].signature)
  }

  /** Two texts for one key: every signature check answers the same under both.
      Keys are decoded leniently, so a key may be spelled with its padding or
      without. */
  ghost predicate SameKey(env: Env, k1: string, k2: string) {
    forall d, s :: env.signsDoc(k1, d, s) == env.signsDoc(k2, d, s)
  }

  ghost predicate SameHolder(env: Env, k1: Option<string>, k2: Option<string>) {
    if k1.Some? && k2.Some? then SameKey(env, k1.value, k2.value) else k1 == k2
  }

  /** Between the check of an update and its acceptance no other key came into
      force, or the one that was in force before did again. */
  ghost predicate NoKeyBetween(env: Env, history: seq<Entry>, id: string) {
    forall i :: 0 <= i < |history| && IsUpdate(history, i, id) && history[i].since <= i ==>
      SameHolder(env, KeyInForce(history[..history[i].since], id), KeyInForce(history[..i], id))
  }

  /** A signature is good under one key only, however that is spelled. */
  ghost predicate OneKeyEach(env: Env) {
    forall k1, k2, d, s :: env.signsDoc(k1, d, s) == Valid && env.signsDoc(k2, d, s) == Valid ==> SameKey(env, k1, k2)
  }

  lemma SameHolderSigns(env: Env, k1: Option<string>, k2: Option<string>, id: string, doc: Doc, signature: string)
    requires SignedBy(env, k1, id, doc, signature)
    ensures SameHolder(env, k1, k2) ==> SignedBy(env, k2, id, doc, signature)
    ensures OneKeyEach(env) && SignedBy(env, k2, id, doc, signature) ==> SameHolder(env, k1, k2)
  {
  }

  lemma SuccessionOf(env: Env, history: seq<Entry>, id: string)
    requires AllChecked(env, history, id)
    ensures NoKeyBetween(env, history, id) ==> Succession(env, history, id)
    ensures OneKeyEach(env) && Succession(env, history, id) ==> NoKeyBetween(env, history, id)
  {
    forall i | 0 <= i < |history| && IsUpdate(history, i, id)
      ensures history[i].since <= i
      ensures var before, now := KeyInForce(history[..history[i].since], id), KeyInForce(history[..i], id);
              && (SameHolder(env, before, now) ==> SignedBy(env, now, id, history[i].doc, history[i].signature))
              && (OneKeyEach(env) && SignedBy(env, now, id, history[i].doc, history[i].signature)
                  ==> SameHolder(env, before, now))
    {
      assert SignedWhenChecked(env, history[..i], id, history[i]);
      assert history[..i][..history[i].since] == history[..history[i].since];
      SameHolderSigns(env, KeyInForce(history[..history[i].since], id), KeyInForce(history[..i], id), id,
                      history[i].doc, history[i].signature);
    }
  }

  /** In every run in which no other key came into force between the check of an
      update of the token and its acceptance, every accepted update of it is
      signed with the key in force. */
  lemma SuccessionIf(env: Env, start: int, steps: seq<Step>, id: string)
    requires IsRun(env, start, steps) && NoKeyBetween(env, Exec(env, start, steps).value.history, id)
    ensures Succession(env, Exec(env, start, steps).value.history, id)
  {
    SignedWithTheKeyChecked(env, start, steps, id);
    SuccessionOf(env, Exec(env, start, steps).value.history, id);
  }

  /** And, where a signature is good under one key only, in exactly those runs. */
  lemma SuccessionIff(env: Env, start: int, steps: seq<Step>, id: string)
    requires IsRun(env, start, steps) && OneKeyEach(env)
    ensures var history := Exec(env, start, steps).value.history;
            Succession(env, history, id) <==> NoKeyBetween(env, history, id)
  {
    SignedWithTheKeyChecked(env, start, steps, id);
    SuccessionOf(env, Exec(env, start, steps).value.history, id);
  }

  // ---- A schedule that keeps it ----

  /** The step accepts an update that brings another key, not just another
      spelling, while a second update of the token is under way. */
  ghost predicate ChangesUnder(env: Env, w: World, step: Step, id: string) {
    && step.UpdateCommit? && step.job in w.jobs && w.jobs[step.job].UpdateWritten? && w.jobs[step.job].tokenId == id
    && Carried(w.jobs[step.job].doc.signingKey) && !SameHolder(env, KeyOf(w, id), w.jobs[step.job].doc.signingKey)
    && exists j :: j in w.jobs && j != step.job && Updating(w.jobs[j], id)
  }

  ghost predicate KeysChangeAlone(env: Env, start: int, steps: seq<Step>, id: string)
    requires IsRun(env, start, steps)
  {
    forall n :: 0 <= n < |steps| ==> !ChangesUnder(env, WorldAt(env, start, steps, n), steps[n], id)
  }

  ghost predicate JobCurrent(env: Env, w: World, job: nat, id: string)
    requires job in w.jobs
  {
    Updating(w.jobs[job], id) ==>
      && CheckedAt(w, job) <= |w.history|
      && SameHolder(env, KeyInForce(w.history[..CheckedAt(w, job)], id), KeyOf(w, id))
  }

  ghost predicate Current(env: Env, w: World, id: string) {
    && NoKeyBetween(env, w.history, id)
    && forall j :: j in w.jobs ==> JobCurrent(env, w, j, id)
  }

  lemma EntryCurrent(env: Env, history: seq<Entry>, entry: Entry, id: string)
    requires NoKeyBetween(env, history, id)
    requires entry.Updated? && entry.tokenId == id && entry.since <= |history| ==>
               SameHolder(env, KeyInForce(history[..entry.since], id), KeyInForce(history, id))
    ensures NoKeyBetween(env, history + [entry], id)
  {
    var h := history + [entry];
    forall i | 0 <= i < |h| && IsUpdate(h, i, id) && h[i].since <= i
      ensures SameHolder(env, KeyInForce(h[..h[i].since], id), KeyInForce(h[..i], id))
    {
      assert h[..h[i].since] == history[..h[i].since];
      if i < |history| {
        assert h[..i] == history[..i] && IsUpdate(history, i, id);
      } else {
        assert h[..i] == history;
      }
    }
  }

  lemma AnswerCurrent(env: Env, w: World, w': World, job: nat, entry: Entry, id: string)
    requires Current(env, w, id) && KeyStored(w, id) && job in w.jobs
    requires w'.jobs == w.jobs - {job} && w'.checked == w.checked && w'.history == w.history + [entry]
    requires entry.Updated? && entry.tokenId == id ==> Updating(w.jobs[job], id) && entry.since == CheckedAt(w, job)
    requires SameHolder(env, KeyOf(w, id), KeyOf(w', id)) || forall j :: j in w'.jobs ==> !Updating(w'.jobs[j], id)
    ensures Current(env, w', id)
  {
    assert JobCurrent(env, w, job, id);
    EntryCurrent(env, w.history, entry, id);
    forall j | j in w'.jobs
      ensures JobCurrent(env, w', j, id)
    {
      assert JobCurrent(env, w, j, id);
      if Updating(w.jobs[j], id) {
        assert w'.history[..CheckedAt(w, j)] == w.history[..CheckedAt(w, j)];
      }
    }
  }

  lemma RegisterCurrent(env: Env, w: World, job: nat, made: int, now: int, id: string)
    requires WellKept(w) && Current(env, w, id) && KeyStored(w, id) && job in w.jobs && w.jobs[job].Rewritten?
    ensures Current(env, AfterRegister(w, job, made, now), id)
  {
    var j, w' := w.jobs[job], AfterRegister(w, job, made, now);
    CommitKeeps(w, job, made, now);
    forall k | k in w'.jobs && id !in w.rows
      ensures !Updating(w'.jobs[k], id)
    {
      assert JobFits(w, w.jobs[k]);
    }
    AnswerCurrent(env, w, w', job, Registered(ScutUri.Decimal(j.token), j.request.signingKey, made, now), id);
  }

  lemma UpdateCurrent(env: Env, w: World, job: nat, now: int, id: string)
    requires WellKept(w) && Current(env, w, id) && KeyStored(w, id) && job in w.jobs && w.jobs[job].UpdateWritten?
    requires !ChangesUnder(env, w, UpdateCommit(job, now), id)
    ensures Current(env, AfterUpdate(w, job, now), id)
  {
    var j := w.jobs[job];
    assert JobFits(w, j);
    AnswerCurrent(env, w, AfterUpdate(w, job, now), job, Updated(j.tokenId, j.doc, j.signature, CheckedAt(w, job)), id);
  }

  lemma TransferCurrent(env: Env, w: World, job: nat, now: int, id: string)
    requires Current(env, w, id) && KeyStored(w, id) && job in w.jobs && w.jobs[job].Moved?
    ensures Current(env, AfterTransfer(w, job, now), id)
  {
    AnswerCurrent(env, w, AfterTransfer(w, job, now), job, Released(w.jobs[job].tokenId), id);
  }

  lemma StartCurrent(env: Env, w: World, job: nat, tokenId: string, doc: Doc, signature: string, id: string)
    requires Current(env, w, id) && KeyStored(w, id) && job !in w.jobs
    ensures Current(env, AfterUpdateStart(env, w, job, tokenId, doc, signature), id)
  {
    var w' := AfterUpdateStart(env, w, job, tokenId, doc, signature);
    assert w.history[..|w.history|] == w.history;
    forall j | j in w'.jobs
      ensures JobCurrent(env, w', j, id)
    {
      assert j != job ==> JobCurrent(env, w, j, id) && CheckedAt(w', j) == CheckedAt(w, j);
    }
  }

  lemma SameCurrent(env: Env, w: World, w': World, id: string)
    requires Current(env, w, id) && NothingNew(w, w', id)
    ensures Current(env, w', id)
  {
    forall j | j in w'.jobs
      ensures JobCurrent(env, w', j, id)
    {
      if Updating(w'.jobs[j], id) {
        assert JobCurrent(env, w, j, id);
      }
    }
  }

  lemma StepCurrent(env: Env, w: World, step: Step, id: string)
    requires WellKept(w) && Current(env, w, id) && KeyStored(w, id) && Enabled(env, w, step)
    requires !ChangesUnder(env, w, step, id)
    ensures Current(env, Apply(env, w, step), id)
  {
    match step
    case RegisterCommit(job, made, now) => RegisterCurrent(env, w, job, made, now, id);
    case UpdateCommit(job, now) => UpdateCurrent(env, w, job, now, id);
    case TransferCommit(job, now) => TransferCurrent(env, w, job, now, id);
    case UpdateStart(job, tokenId, doc, signature) => StartCurrent(env, w, job, tokenId, doc, signature, id);
    case _ =>
      StepNothingNew(env, w, step, id);
      SameCurrent(env, w, Apply(env, w, step), id);
  }

  lemma FrontChangesAlone(env: Env, start: int, steps: seq<Step>, id: string)
    requires IsRun(env, start, steps) && |steps| > 0 && KeysChangeAlone(env, start, steps, id)
    ensures var front, last := steps[..|steps| - 1], steps[|steps| - 1];
            && IsRun(env, start, front) && KeysChangeAlone(env, start, front, id)
            && !ChangesUnder(env, Exec(env, start, front).value, last, id)
  {
    var front := steps[..|steps| - 1];
    PrefixIsRun(env, start, steps, |steps| - 1);
    assert !ChangesUnder(env, WorldAt(env, start, steps, |steps| - 1), steps[|steps| - 1], id);
    forall n | 0 <= n < |front|
      ensures !ChangesUnder(env, WorldAt(env, start, front, n), front[n], id)
    {
      assert front[..n] == steps[..n];
      assert !ChangesUnder(env, WorldAt(env, start, steps, n), steps[n], id);
    }
  }

  lemma {:induction false} RunCurrent(env: Env, start: int, steps: seq<Step>, id: string)
    requires IsRun(env, start, steps) && KeysChangeAlone(env, start, steps, id)
    ensures Current(env, Exec(env, start, steps).value, id)
  {
    if |steps| > 0 {
      var front := steps[..|steps| - 1];
      FrontChangesAlone(env, start, steps, id);
      RunCurrent(env, start, front, id);
      DatabaseHoldsLastKey(env, start, front, id);
      RunKeeps(env, start, front);
      StepCurrent(env, Exec(env, start, front).value, steps[|steps| - 1], id);
    }
  }

  /** Handlers may overlap, as long as no update of the token that brings another
      key is accepted while a second one is under way: then every accepted update
      is signed with the last key accepted before it, back to the registered one. */
  lemma KeysSucceed(env: Env, start: int, steps: seq<Step>, id: string)
    requires IsRun(env, start, steps) && KeysChangeAlone(env, start, steps, id)
    ensures var w := Exec(env, start, steps).value;
            Succession(env, w.history, id) && KeyInForce(w.history, id) == KeyOf(w, id)
  {
    RunCurrent(env, start, steps, id);
    DatabaseHoldsLastKey(env, start, steps, id);
    SignedWithTheKeyChecked(env, start, steps, id);
    SuccessionOf(env, Exec(env, start, steps).value.history, id);
  }
}
