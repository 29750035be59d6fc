/** Client flows that chain several routes. The batch detail dialog's "verify on chain" button: a
    mock transaction is submitted for the batch, then a VERIFIED_ON_CHAIN event recording the
    transaction is appended, then the batch's events are fetched again. The creation dialog: its
    request body is handed to the create route and the batch is read back by name. Each request
    goes to the route modelled in its own module. */
module Flows {
  import opened Wrappers
  import opened Domain
  import opened Storage
  import opened Actions
  import opened MockChain
  import opened Ledger
  import opened Trace
  import opened Batches
  import opened CreateForm

  /** The action the dialog submits to the mock chain. */
  const ConsumerVerify := "CONSUMER_VERIFY"

  /** The details of the verification event: the hash and explorer link the chain answered with. */
  function VerifyDetails(rc: Receipt): (d: Details)
    ensures d.Keys == {"txHash", "explorerUrl"}
    ensures d["txHash"] == rc.txHash && d["explorerUrl"] == rc.explorerUrl
  {
    map["txHash" := rc.txHash, "explorerUrl" := rc.explorerUrl]
  }

  /** `handleVerifyOnChain`: submit, then append, then list. A failed request ends the flow with its
      error (the dialog only logs it). Once the chain has accepted, the append cannot fail: the
      batch it found is still there. */
  function VerifyOnChain(s: Store, batchId: string, caller: Principal, draws: seq<nat>,
                         submitDelay: nat, appendDelay: nat): (r: Reply<seq<Event>>)
    requires ValidDraws(draws)
    ensures r.result.Failure? ==> r.store == s
    ensures r.result.Success? ==> |r.store.events| == |s.events| + 1 && |r.store.txs| == |s.txs| + 1
  {
    var sub := Submit(s, Some(batchId), Some(ConsumerVerify), draws, submitDelay);
    assert sub.result.Success? ==> FindBatch(sub.store, batchId) == FindBatch(s, batchId);
    match sub.result
    case Failure(err) => Reply(Failure(err), sub.store)
    case Success(rc) =>
      var app := AppendEvent(sub.store, batchId, caller, Some(VERIFIED_ON_CHAIN), Some(VerifyDetails(rc)), appendDelay);
      match app.result
      case Failure(err) => Reply(Failure(err), app.store)
      case Success(_) => Reply(ListEvents(app.store, batchId), app.store)
  }

  /** The flow goes through exactly when the chain accepts the transaction: the name is non-empty
      and names a stored batch, and the drawn hash is new. Otherwise nothing at all is stored:
      no transaction and no event. */
  lemma VerifySucceedsIff(s: Store, batchId: string, caller: Principal, draws: seq<nat>, d1: nat, d2: nat)
    requires ValidDraws(draws)
    ensures var r := VerifyOnChain(s, batchId, caller, draws, d1, d2);
      && (r.result.Success? <==>
          batchId != "" && FindBatch(s, batchId).Some? && TxIndex(s.txs, TxHashOf(draws)).None?)
      && (r.result.Failure? ==> r.store == s)
  {
    var sub := Submit(s, Some(batchId), Some(ConsumerVerify), draws, d1);
    if sub.result.Success? {
      assert FindBatch(sub.store, batchId) == FindBatch(s, batchId);
    }
  }

  /** A verification stores one pending CONSUMER_VERIFY transaction for the batch and one
      VERIFIED_ON_CHAIN event, recorded by the caller, whose details name that transaction; the
      event itself carries no hash. The refreshed list is the batch's earlier events followed by
      the new one. */
  lemma VerifyRecordsTransaction(s: Store, batchId: string, caller: Principal, draws: seq<nat>, d1: nat, d2: nat)
    requires ValidDraws(draws) && BatchesDistinct(s.batches)
    requires VerifyOnChain(s, batchId, caller, draws, d1, d2).result.Success?
    ensures var r := VerifyOnChain(s, batchId, caller, draws, d1, d2);
      && |r.store.txs| == |s.txs| + 1 && r.store.txs[..|s.txs|] == s.txs
      && |r.store.events| == |s.events| + 1 && r.store.events[..|s.events|] == s.events
      && (var tx := r.store.txs[|s.txs|];
          var e := r.store.events[|s.events|];
          && tx.txHash == TxHashOf(draws) && tx.batchId == batchId && tx.action == ConsumerVerify
          && tx.status == Pending
          && e.action == VERIFIED_ON_CHAIN && e.actorId == caller.id && e.actorRole == caller.role
          && e.details == VerifyDetails(Receipt(tx.txHash, Pending, ExplorerUrl(tx.txHash), tx.createdAt, tx.id))
          && e.txHash.None?
          && r.result.value == ListEvents(s, batchId).value + [e])
  {
    var sub := Submit(s, Some(batchId), Some(ConsumerVerify), draws, d1);
    var rc := sub.result.value;
    var app := AppendEvent(sub.store, batchId, caller, Some(VERIFIED_ON_CHAIN), Some(VerifyDetails(rc)), d2);
    assert sub.store.txs == s.txs + [sub.store.txs[|s.txs|]];
    assert app.store.events == s.events + [app.result.value];
    AppendThenList(sub.store, batchId, caller, Some(VERIFIED_ON_CHAIN), Some(VerifyDetails(rc)), d2, batchId);
    assert ListEvents(sub.store, batchId) == ListEvents(s, batchId) by {
      assert FindBatch(sub.store, batchId) == FindBatch(s, batchId);
    }
  }

  /** Since the verification event carries its hash only inside its details, the trust score of the
      refreshed timeline gets no anchoring bonus: verifying changes the score only through the
      event count. */
  lemma VerifyEarnsNoHashBonus(s: Store, batchId: string, caller: Principal, draws: seq<nat>, d1: nat, d2: nat)
    requires ValidDraws(draws) && Valid(s)
    requires VerifyOnChain(s, batchId, caller, draws, d1, d2).result.Success?
    ensures var es := VerifyOnChain(s, batchId, caller, draws, d1, d2).result.value;
      |es| > 0 && TrustScore(es) == Min(50 + 10 * |es|, 100)
  {
    var r := VerifyOnChain(s, batchId, caller, draws, d1, d2);
    VerifyRecordsTransaction(s, batchId, caller, draws, d1, d2);
    VerifyKeepsValid(s, batchId, caller, draws, d1, d2);
    ListedTimelineHasNoBonus(r.store, batchId);
  }

  /** The flow keeps the store invariant, and its answer is the listing of the store it leaves. */
  lemma VerifyKeepsValid(s: Store, batchId: string, caller: Principal, draws: seq<nat>, d1: nat, d2: nat)
    requires ValidDraws(draws) && Valid(s)
    requires VerifyOnChain(s, batchId, caller, draws, d1, d2).result.Success?
    ensures var r := VerifyOnChain(s, batchId, caller, draws, d1, d2);
      Valid(r.store) && ListEvents(r.store, batchId) == r.result
  {
    var sub := Submit(s, Some(batchId), Some(ConsumerVerify), draws, d1);
    var rc := sub.result.value;
    var app := AppendEvent(sub.store, batchId, caller, Some(VERIFIED_ON_CHAIN), Some(VerifyDetails(rc)), d2);
    assert VerifyOnChain(s, batchId, caller, draws, d1, d2) == Reply(ListEvents(app.store, batchId), app.store);
    SubmitPreservesValid(s, Some(batchId), Some(ConsumerVerify), draws, d1);
    AppendPreservesValid(sub.store, batchId, caller, Some(VERIFIED_ON_CHAIN), Some(VerifyDetails(rc)), d2);
  }

  /** A timeline listed from a store that keeps the invariant never earns the anchoring bonus. */
  lemma ListedTimelineHasNoBonus(t: Store, batchId: string)
    requires Valid(t) && ListEvents(t, batchId).Success? && |ListEvents(t, batchId).value| > 0
    ensures var es := ListEvents(t, batchId).value;
      TrustScore(es) == Min(50 + 10 * |es|, 100)
  {
    StoredTimelineHasNoBonus(t, FindBatch(t, batchId).value.id);
  }

  /** The images chosen in the creation dialog, uploads and removals included, are the images the
      created batch is read back with, in the same order. */
  lemma CreateDialogImagesStored(s: Store, caller: Principal, form: Form, images: seq<string>, quantity: int,
                                 js: Builtins, year: nat, elapsed: nat)
    requires Valid(s)
    requires CreateBatch(s, caller, CreateBody(form, images, quantity), js, year, elapsed).result.Success?
    ensures var r := CreateBatch(s, caller, CreateBody(form, images, quantity), js, year, elapsed);
      GetBatch(r.store, r.result.value.batchId).Success? &&
      GetBatch(r.store, r.result.value.batchId).value.batch.images == images
  {
    CreatedImagesReadBack(s, caller, CreateBody(form, images, quantity), js, year, elapsed);
  }
}
