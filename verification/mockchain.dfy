/** The mock transaction engine: submitting a transaction for a batch, the background timer that
    later confirms or fails it, the forced confirmation, the status query and the listing. The
    random choices (hash digits, the outcome coin) are parameters; the delay is not modelled. */
module MockChain {
  import opened Wrappers
  import opened Seqs
  import opened Domain
  import opened Storage

  const HexDigits := "0123456789abcdef"

  /** A well-formed transaction hash: `0x` and 64 lower-case hexadecimal digits. */
  predicate IsTxHash(h: string) {
    |h| == 66 && h[..2] == "0x" && forall i :: 2 <= i < 66 ==> h[i] in HexDigits
  }

  /** The random draws of `generateTxHash`: 64 indices into the digit alphabet. */
  predicate ValidDraws(draws: seq<nat>) {
    |draws| == 64 && forall i :: 0 <= i < 64 ==> draws[i] < 16
  }

  /** The hexadecimal digits picked by `draws`. */
  function HexOf(draws: seq<nat>): (r: string)
    requires forall i :: 0 <= i < |draws| ==> draws[i] < 16
    ensures |r| == |draws|
    ensures forall i :: 0 <= i < |r| ==> r[i] in HexDigits
    ensures forall i :: 0 <= i < |draws| ==> r[i] == HexDigits[draws[i]]
  {
    seq(|draws|, i requires 0 <= i < |draws| => HexDigits[draws[i]])
  }

  /** The hash `generateTxHash` builds from its random draws. */
  function TxHashOf(draws: seq<nat>): (h: string)
    requires ValidDraws(draws)
    ensures IsTxHash(h)
  {
    "0x" + HexOf(draws)
  }

  /** `generateTxHash`: "0x" followed by one digit per draw, appended in a loop. */
  method GenerateTxHash(draws: seq<nat>) returns (hash: string)
    requires ValidDraws(draws)
    ensures IsTxHash(hash)
    ensures forall i :: 0 <= i < 64 ==> hash[2 + i] == HexDigits[draws[i]]
    ensures hash == TxHashOf(draws)
  {
    hash := "0x";
    var i := 0;
    while i < 64
      invariant 0 <= i <= 64
      invariant |hash| == 2 + i && hash[..2] == "0x"
      invariant forall k :: 0 <= k < i ==> hash[2 + k] == HexDigits[draws[k]]
    {
      hash := hash + [HexDigits[draws[i]]];
      i := i + 1;
    }
    assert hash[2..] == HexOf(draws);
  }

  /** Different draws give different hashes: the draws can be read back from the hash. */
  lemma TxHashInjective(d1: seq<nat>, d2: seq<nat>)
    requires ValidDraws(d1) && ValidDraws(d2)
    requires TxHashOf(d1) == TxHashOf(d2)
    ensures d1 == d2
  {
    assert HexOf(d1) == TxHashOf(d1)[2..] && HexOf(d2) == TxHashOf(d2)[2..];
    forall i | 0 <= i < 64
      ensures d1[i] == d2[i]
    {
      HexDigitInjective(d1[i], d2[i]);
    }
  }

  /** Different draws give different digit strings. */
  lemma HexOfInjective(d1: seq<nat>, d2: seq<nat>)
    requires forall i :: 0 <= i < |d1| ==> d1[i] < 16
    requires forall i :: 0 <= i < |d2| ==> d2[i] < 16
    requires HexOf(d1) == HexOf(d2)
    ensures d1 == d2
  {
    forall i | 0 <= i < |d1|
      ensures d1[i] == d2[i]
    {
      HexDigitInjective(d1[i], d2[i]);
    }
  }

  /** Different draws pick different digits. */
  lemma HexDigitInjective(a: nat, b: nat)
    requires a < 16 && b < 16 && HexDigits[a] == HexDigits[b]
    ensures a == b
  {
  }

  function ExplorerUrl(hash: string): string {
    "https://mockchain.local/tx/" + hash
  }

  // ---------------------------------------------------------------------------------------------
  // Lookups

  /** The position of the transaction with hash `h`. */
  function TxIndex(txs: seq<MockTx>, h: string): (r: Option<nat>)
    ensures r.Some? ==> r.value < |txs| && txs[r.value].txHash == h
    ensures r.None? <==> forall i :: 0 <= i < |txs| ==> txs[i].txHash != h
  {
    LastIndexWhere(txs, (t: MockTx) => t.txHash == h)
  }

  /** The position of the transaction with store key `id`. */
  function TxIndexById(txs: seq<MockTx>, id: nat): (r: Option<nat>)
    ensures r.Some? ==> r.value < |txs| && txs[r.value].id == id
    ensures r.None? <==> forall i :: 0 <= i < |txs| ==> txs[i].id != id
  {
    LastIndexWhere(txs, (t: MockTx) => t.id == id)
  }

  // ---------------------------------------------------------------------------------------------
  // Submit

  /** The answer to a submission. */
  datatype Receipt = Receipt(txHash: string, status: TxStatus, explorerUrl: string, submittedAt: nat, txId: nat)

  /** Submitting a transaction: the schema (a non-empty batch name, then a non-empty action), the
      batch lookup, then a pending record under a fresh hash. A hash already stored violates its
      uniqueness in the store. */
  function Submit(s: Store, batchId: Option<string>, action: Option<string>, draws: seq<nat>, elapsed: nat): (r: Reply<Receipt>)
    requires ValidDraws(draws)
    ensures batchId.None? ==> r.result == Failure(Validation("Required"))
    ensures batchId == Some("") ==> r.result == Failure(Validation("Batch ID is required"))
    ensures batchId.Some? && batchId.value != "" && action.None? ==> r.result == Failure(Validation("Required"))
    ensures batchId.Some? && batchId.value != "" && action == Some("") ==> r.result == Failure(Validation("Action is required"))
    ensures (batchId.Some? && batchId.value != "" && action.Some? && action.value != "" &&
             FindBatch(s, batchId.value).None?) ==> r.result == Failure(NotFound("Batch not found"))
    ensures r.result.Success? <==>
      && batchId.Some? && batchId.value != "" && action.Some? && action.value != ""
      && FindBatch(s, batchId.value).Some? && TxIndex(s.txs, TxHashOf(draws)).None?
    ensures r.result.Failure? ==> r.store == s
    ensures r.result.Success? ==>
      var rc := r.result.value;
      && rc.status == Pending && rc.txHash == TxHashOf(draws) && rc.explorerUrl == ExplorerUrl(rc.txHash)
      && r.store.txs == s.txs + [MockTx(rc.txId, rc.txHash, batchId.value, action.value, Pending, rc.submittedAt, None)]
      && r.store.users == s.users && r.store.batches == s.batches && r.store.events == s.events
      && TxAdded(s, r.store.txs[|s.txs|], r.store)
  {
    if batchId.None? then Reply(Failure(Validation("Required")), s)
    else if batchId.value == "" then Reply(Failure(Validation("Batch ID is required")), s)
    else if action.None? then Reply(Failure(Validation("Required")), s)
    else if action.value == "" then Reply(Failure(Validation("Action is required")), s)
    else if FindBatch(s, batchId.value).None? then Reply(Failure(NotFound("Batch not found")), s)
    else
      var hash := TxHashOf(draws);
      if TxIndex(s.txs, hash).Some? then Reply(Failure(Internal("Internal server error")), s)
      else
        var now := s.clock + elapsed;
        var tx := MockTx(s.nextId, hash, batchId.value, action.value, Pending, now, None);
        Reply(Success(Receipt(hash, Pending, ExplorerUrl(hash), now, tx.id)),
              s.(txs := s.txs + [tx], nextId := s.nextId + 1, clock := now))
  }

  // ---------------------------------------------------------------------------------------------
  // Status changes

  /** The background update, when its timer fires for the transaction with key `id`: the coin
      `shouldConfirm` makes it confirmed with a confirmation time, otherwise failed with the
      confirmation time left as it was. A transaction that no longer exists is skipped (the error is
      logged and swallowed). */
  function TimerFire(s: Store, id: nat, shouldConfirm: bool, elapsed: nat): (t: Store)
    ensures TxIndexById(s.txs, id).None? ==> t == s
    ensures TxIndexById(s.txs, id).Some? ==>
      var i := TxIndexById(s.txs, id).value;
      && |t.txs| == |s.txs|
      && (forall k :: 0 <= k < |s.txs| && k != i ==> t.txs[k] == s.txs[k])
      && t.txs[i].status == (if shouldConfirm then Confirmed else Failed)
      && t.txs[i].confirmedAt == (if shouldConfirm then Some(t.clock) else s.txs[i].confirmedAt)
      && t.txs[i].txHash == s.txs[i].txHash && t.txs[i].id == id && t.txs[i].createdAt == s.txs[i].createdAt
      && t.users == s.users && t.batches == s.batches && t.events == s.events
  {
    match TxIndexById(s.txs, id)
    case None => s
    case Some(i) =>
      var now := s.clock + elapsed;
      var tx := s.txs[i];
      var tx' := tx.(status := if shouldConfirm then Confirmed else Failed,
                     confirmedAt := if shouldConfirm then Some(now) else tx.confirmedAt);
      s.(txs := s.txs[i := tx'], clock := now)
  }

  /** The forced confirmation: an unknown hash is not found; otherwise the transaction becomes
      confirmed with a confirmation time, whatever its status was. */
  function ForceConfirm(s: Store, hash: string, elapsed: nat): (r: Reply<MockTx>)
    ensures TxIndex(s.txs, hash).None? <==> r.result == Failure(NotFound("Transaction not found"))
    ensures r.result.Failure? ==> r.store == s
    ensures r.result.Success? ==>
      var i := TxIndex(s.txs, hash).value;
      && r.result.value == s.txs[i].(status := Confirmed, confirmedAt := Some(r.store.clock))
      && r.store.txs == s.txs[i := r.result.value]
      && r.store.users == s.users && r.store.batches == s.batches && r.store.events == s.events
  {
    match TxIndex(s.txs, hash)
    case None => Reply(Failure(NotFound("Transaction not found")), s)
    case Some(i) =>
      var now := s.clock + elapsed;
      var tx := s.txs[i].(status := Confirmed, confirmedAt := Some(now));
      Reply(Success(tx), s.(txs := s.txs[i := tx], clock := now))
  }

  // ---------------------------------------------------------------------------------------------
  // Reads

  /** What the status route reports. */
  datatype StatusView = StatusView(txHash: string, status: TxStatus, batchId: string, action: string,
                                   createdAt: nat, confirmedAt: Option<nat>, explorerUrl: string)

  /** The status route: the stored fields unchanged plus the explorer link, or not found. */
  function GetStatus(s: Store, hash: string): (r: Result<StatusView, Error>)
    ensures TxIndex(s.txs, hash).None? <==> r == Failure(NotFound("Transaction not found"))
    ensures r.Success? ==>
      var tx := s.txs[TxIndex(s.txs, hash).value];
      r.value == StatusView(tx.txHash, tx.status, tx.batchId, tx.action, tx.createdAt, tx.confirmedAt, ExplorerUrl(tx.txHash))
  {
    match TxIndex(s.txs, hash)
    case None => Failure(NotFound("Transaction not found"))
    case Some(i) =>
      var tx := s.txs[i];
      Success(StatusView(tx.txHash, tx.status, tx.batchId, tx.action, tx.createdAt, tx.confirmedAt, ExplorerUrl(tx.txHash)))
  }

  /** The listing route: every transaction, newest first. */
  function ListTxs(s: Store): (r: seq<MockTx>)
    ensures |r| == |s.txs|
    ensures forall i :: 0 <= i < |r| ==> r[i] == s.txs[|s.txs| - 1 - i]
  {
    Reverse(s.txs)
  }

  /** Under the invariant the listing is ordered by creation time, newest first. */
  lemma ListTxsNewestFirst(s: Store)
    requires Chronological(s)
    ensures var r := ListTxs(s); forall i, j :: 0 <= i < j < |r| ==> r[i].createdAt >= r[j].createdAt
  {
    var r := ListTxs(s);
    forall i, j | 0 <= i < j < |r|
      ensures r[i].createdAt >= r[j].createdAt
    {
      assert r[i] == s.txs[|s.txs| - 1 - i] && r[j] == s.txs[|s.txs| - 1 - j];
    }
  }

  // ---------------------------------------------------------------------------------------------
  // Interleavings

  /** Right after submission the transaction is pending with no confirmation time. */
  lemma SubmitThenStatus(s: Store, batchId: string, action: string, draws: seq<nat>, elapsed: nat)
    requires ValidDraws(draws)
    requires Submit(s, Some(batchId), Some(action), draws, elapsed).result.Success?
    ensures var r := Submit(s, Some(batchId), Some(action), draws, elapsed);
      GetStatus(r.store, r.result.value.txHash) ==
        Success(StatusView(TxHashOf(draws), Pending, batchId, action, r.result.value.submittedAt, None,
                           ExplorerUrl(TxHashOf(draws))))
  {
    var r := Submit(s, Some(batchId), Some(action), draws, elapsed);
    assert TxIndex(r.store.txs, r.result.value.txHash) == Some(|s.txs|);
  }

  /** Submission followed by one timer firing, with no forced confirmation: the confirmation time
      is set exactly when the transaction is confirmed. */
  lemma TimerAfterSubmit(s: Store, batchId: string, action: string, draws: seq<nat>, e1: nat,
                         shouldConfirm: bool, e2: nat)
    requires ValidDraws(draws)
    requires TxsDistinct(s.txs) && forall i :: 0 <= i < |s.txs| ==> s.txs[i].id < s.nextId
    requires Submit(s, Some(batchId), Some(action), draws, e1).result.Success?
    ensures var r := Submit(s, Some(batchId), Some(action), draws, e1);
      var t := TimerFire(r.store, r.result.value.txId, shouldConfirm, e2);
      var tx := t.txs[|s.txs|];
      && tx.txHash == r.result.value.txHash
      && tx.status != Pending
      && (tx.confirmedAt.Some? <==> tx.status == Confirmed)
  {
    var r := Submit(s, Some(batchId), Some(action), draws, e1);
    assert TxIndexById(r.store.txs, r.result.value.txId) == Some(|s.txs|);
  }

  /** A forced confirmation followed by a failing timer leaves the transaction failed, yet with a
      confirmation time: the status is not final once set. */
  lemma ForceConfirmThenFailingTimer(s: Store, batchId: string, action: string, draws: seq<nat>,
                                     e1: nat, e2: nat, e3: nat)
    requires ValidDraws(draws)
    requires TxsDistinct(s.txs) && forall i :: 0 <= i < |s.txs| ==> s.txs[i].id < s.nextId
    requires Submit(s, Some(batchId), Some(action), draws, e1).result.Success?
    ensures var r := Submit(s, Some(batchId), Some(action), draws, e1);
      var f := ForceConfirm(r.store, r.result.value.txHash, e2);
      var t := TimerFire(f.store, r.result.value.txId, false, e3);
      && f.result.Success? && f.result.value.status == Confirmed
      && t.txs[|s.txs|].status == Failed && t.txs[|s.txs|].confirmedAt.Some?
  {
    var r := Submit(s, Some(batchId), Some(action), draws, e1);
    assert TxIndex(r.store.txs, r.result.value.txHash) == Some(|s.txs|);
    var f := ForceConfirm(r.store, r.result.value.txHash, e2);
    assert TxIndexById(f.store.txs, r.result.value.txId) == Some(|s.txs|);
  }

  /** A forced confirmation overrides a failure. */
  lemma ForceConfirmAfterFailure(s: Store, id: nat, hash: string, e1: nat, e2: nat)
    requires TxsDistinct(s.txs)
    requires TxIndexById(s.txs, id).Some? && s.txs[TxIndexById(s.txs, id).value].txHash == hash
    ensures var t := TimerFire(s, id, false, e1);
      var f := ForceConfirm(t, hash, e2);
      f.result.Success? && f.result.value.status == Confirmed && f.result.value.confirmedAt.Some?
  {
    var i := TxIndexById(s.txs, id).value;
    var t := TimerFire(s, id, false, e1);
    assert t.txs[i].txHash == hash;
    assert TxIndex(t.txs, hash).Some?;
  }

  // ---------------------------------------------------------------------------------------------
  // The store invariant

  /** A change confined to the transactions, the key counter and the clock keeps the invariant
      when the new transactions are distinct, ordered, keyed below the counter and not in the future. */
  lemma TxChangeValid(s: Store, t: Store)
    requires Valid(s)
    requires t == s.(txs := t.txs, nextId := t.nextId, clock := t.clock)
    requires s.nextId <= t.nextId && s.clock <= t.clock
    requires TxsDistinct(t.txs)
    requires forall i :: 0 <= i < |t.txs| ==> t.txs[i].id < t.nextId && t.txs[i].createdAt <= t.clock
    requires forall i, j :: 0 <= i < j < |t.txs| ==> t.txs[i].createdAt <= t.txs[j].createdAt
    ensures Valid(t)
  {
    assert Chronological(t);
    assert KeysBelowCounter(t);
    assert forall i :: 0 <= i < |t.batches| ==> BornCreated(t.events, t.batches[i]) by {
      assert t.batches == s.batches && t.events == s.events;
    }
  }

  /** The store `t` is `s` with transaction `tx` appended: a fresh key, stamped with the advanced
      clock, and a hash no stored transaction has. */
  predicate TxAdded(s: Store, tx: MockTx, t: Store) {
    && t == s.(txs := s.txs + [tx], nextId := s.nextId + 1, clock := t.clock)
    && s.clock <= t.clock && tx.id == s.nextId && tx.createdAt == t.clock
    && (forall i :: 0 <= i < |s.txs| ==> s.txs[i].txHash != tx.txHash)
  }

  lemma AddTxValid(s: Store, tx: MockTx, t: Store)
    requires Valid(s) && TxAdded(s, tx, t)
    ensures Valid(t)
  {
    assert forall i :: 0 <= i < |s.txs| ==> t.txs[i] == s.txs[i];
    assert TxsDistinct(t.txs);
    TxChangeValid(s, t);
  }

  lemma SubmitPreservesValid(s: Store, batchId: Option<string>, action: Option<string>, draws: seq<nat>, elapsed: nat)
    requires Valid(s) && ValidDraws(draws)
    ensures Valid(Submit(s, batchId, action, draws, elapsed).store)
  {
    var r := Submit(s, batchId, action, draws, elapsed);
    if r.result.Success? {
      AddTxValid(s, r.store.txs[|s.txs|], r.store);
    }
  }

  lemma TimerPreservesValid(s: Store, id: nat, shouldConfirm: bool, elapsed: nat)
    requires Valid(s)
    ensures Valid(TimerFire(s, id, shouldConfirm, elapsed))
  {
    var t := TimerFire(s, id, shouldConfirm, elapsed);
    if TxIndexById(s.txs, id).Some? {
      assert forall k :: 0 <= k < |t.txs| ==>
        (t.txs[k].id == s.txs[k].id && t.txs[k].txHash == s.txs[k].txHash && t.txs[k].createdAt == s.txs[k].createdAt);
      TxChangeValid(s, t);
    }
  }

  lemma ForcePreservesValid(s: Store, hash: string, elapsed: nat)
    requires Valid(s)
    ensures Valid(ForceConfirm(s, hash, elapsed).store)
  {
    var r := ForceConfirm(s, hash, elapsed);
    if r.result.Success? {
      var t := r.store;
      assert forall k :: 0 <= k < |t.txs| ==>
        (t.txs[k].id == s.txs[k].id && t.txs[k].txHash == s.txs[k].txHash && t.txs[k].createdAt == s.txs[k].createdAt);
      TxChangeValid(s, t);
    }
  }
}
