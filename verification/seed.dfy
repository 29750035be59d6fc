/** The demo-data route: outside production it empties the store, then inserts the seed users in
    order and, for every seed batch whose farmer address belongs to a seed user, the batch and its
    CREATED event. The seed data and the password hash enter as parameters. */
module Seed {
  import opened Wrappers
  import opened Seqs
  import opened Domain
  import opened Storage
  import opened Actions
  import opened Text
  import Batches

  datatype SeedUser = SeedUser(name: string, email: string, password: string, role: string)

  datatype SeedBatch = SeedBatch(
    batchId: string,
    title: string,
    variety: string,
    quantity: nat,
    unit: string,
    harvestDate: string,
    location: string,
    images: seq<string>,
    farmerEmail: string)

  /** What the route answers: the number of users it inserted and the number of batches in the seed. */
  datatype Summary = Summary(users: nat, batches: nat)

  const Failed := Internal("Seeding failed")

  /** The position of the first user with this address (the first match of a front-to-back search). */
  function FindFarmer(users: seq<User>, email: string): (r: Option<nat>)
    ensures r.Some? ==> r.value < |users| && users[r.value].email == email
    ensures r.Some? ==> forall i :: 0 <= i < r.value ==> users[i].email != email
    ensures r.None? <==> forall i :: 0 <= i < |users| ==> users[i].email != email
  {
    FirstIndexWhere(users, (u: User) => u.email == email)
  }

  /** The store with every record deleted: keys keep counting and the clock moves on. */
  function Cleared(s: Store, now: nat): (t: Store)
    ensures t.users == [] && t.batches == [] && t.events == [] && t.txs == []
    ensures t.nextId == s.nextId && t.clock == now
  {
    Store([], [], [], [], s.nextId, now)
  }

  /** The store accepts the seed users when every role is one of the four and no address repeats. */
  predicate UsersAcceptable(us: seq<SeedUser>) {
    && (forall i :: 0 <= i < |us| ==> ParseRole(us[i].role).Some?)
    && (forall i, j :: 0 <= i < j < |us| ==> us[i].email != us[j].email)
  }

  /** The stored user is the seed user with the hashed password. */
  predicate StoredAs(u: User, su: SeedUser, hash: string -> string) {
    u.name == su.name && u.email == su.email && u.passwordHash == hash(su.password) &&
    ParseRole(su.role) == Some(u.role)
  }

  /** Inserting the seed users one after another; an unknown role or a repeated address stops the
      insertion with the users before it already stored. */
  function AddUsers(t: Store, us: seq<SeedUser>, hash: string -> string): (r: Reply<nat>)
    requires t.users == []
    ensures r.result.Failure? ==> r.result == Failure(Failed) && |r.store.users| < |us|
    ensures r.result.Success? ==> r.result.value == |us| && |r.store.users| == |us|
    ensures |r.store.users| <= |us|
    ensures r.store == t.(users := r.store.users, nextId := t.nextId + |r.store.users|)
    decreases |us|
  {
    if |us| == 0 then Reply(Success(0), t)
    else
      var r0 := AddUsers(t, us[..|us| - 1], hash);
      if r0.result.Failure? then r0
      else match InsertUser(r0.store, us[|us| - 1], hash)
        case None => Reply(Failure(Failed), r0.store)
        case Some(stored) => Reply(Success(|us|), stored)
  }

  /** Inserting one seed user: its role must be one of the four and its address new. */
  function InsertUser(stored: Store, su: SeedUser, hash: string -> string): (r: Option<Store>)
    ensures r.Some? <==> ParseRole(su.role).Some? && FindFarmer(stored.users, su.email).None?
    ensures r.Some? ==> r.value == stored.(users := r.value.users, nextId := stored.nextId + 1)
    ensures r.Some? ==>
      r.value.users == stored.users + [User(stored.nextId, su.name, su.email, hash(su.password), ParseRole(su.role).value, stored.clock)]
  {
    if ParseRole(su.role).None? || FindFarmer(stored.users, su.email).Some? then None
    else
      var u := User(stored.nextId, su.name, su.email, hash(su.password), ParseRole(su.role).value, stored.clock);
      Some(stored.(users := stored.users + [u], nextId := stored.nextId + 1))
  }

  /** A seed batch is inserted when its farmer address belongs to a stored user. */
  function HasFarmer(users: seq<User>): SeedBatch -> bool {
    (sb: SeedBatch) => FindFarmer(users, sb.farmerEmail).Some?
  }

  /** The batch names of the inserted seed batches do not repeat. */
  predicate BatchesAcceptable(users: seq<User>, bs: seq<SeedBatch>) {
    NamesDistinct(Filter(HasFarmer(users), bs))
  }

  predicate NamesDistinct(kept: seq<SeedBatch>) {
    forall i, j :: 0 <= i < j < |kept| ==> kept[i].batchId != kept[j].batchId
  }

  /** The stored batch is the seed batch, owned by the first user with its farmer address. */
  predicate BatchStoredAs(b: Batch, sb: SeedBatch, users: seq<User>) {
    && b.batchId == sb.batchId && b.title == sb.title && b.variety == Some(sb.variety)
    && b.quantity == sb.quantity as real && b.unit == sb.unit && b.harvestDate == sb.harvestDate
    && b.location == Some(sb.location) && b.images == sb.images
    && FindFarmer(users, sb.farmerEmail).Some? && b.farmerId == users[FindFarmer(users, sb.farmerEmail).value].id
  }

  /** The details of a seeded batch's CREATED event. */
  function SeedDetails(quantity: nat, harvestDate: string): Details {
    map["message" := "Batch created and ready for distribution",
        "initialQuantity" := DecimalString(quantity),
        "harvestDate" := harvestDate]
  }

  /** Inserting the seed batches one after another, each with its CREATED event; a batch without a
      farmer is skipped, a repeated name stops the insertion with the batches before it stored. */
  function AddBatches(t: Store, bs: seq<SeedBatch>): (r: Reply<nat>)
    requires t.batches == []
    ensures r.store == t.(batches := r.store.batches, events := r.store.events, nextId := r.store.nextId)
    ensures r.result.Failure? ==> r.result == Failure(Failed)
    ensures r.result.Success? ==> r.result.value == |r.store.batches|
    decreases |bs|
  {
    if |bs| == 0 then Reply(Success(0), t)
    else
      var r0 := AddBatches(t, bs[..|bs| - 1]);
      if r0.result.Failure? then r0
      else match InsertBatch(r0.store, bs[|bs| - 1])
        case Skipped => r0
        case Clash => Reply(Failure(Failed), r0.store)
        case Inserted(stored) => Reply(Success(r0.result.value + 1), stored)
  }

  datatype Insertion = Skipped | Clash | Inserted(store: Store)

  /** Inserting one seed batch: skipped without a farmer, refused when its name is taken, otherwise
      stored with its CREATED event recorded by the first user with the farmer address. */
  function InsertBatch(stored: Store, sb: SeedBatch): (r: Insertion)
    ensures r.Skipped? <==> FindFarmer(stored.users, sb.farmerEmail).None?
    ensures r.Clash? <==> FindFarmer(stored.users, sb.farmerEmail).Some? && FindBatch(stored, sb.batchId).Some?
    ensures r.Inserted? ==>
      && r.store == stored.(batches := r.store.batches, events := r.store.events, nextId := stored.nextId + 2)
      && |r.store.batches| == |stored.batches| + 1
      && r.store.batches[..|stored.batches|] == stored.batches
      && BatchStoredAs(r.store.batches[|stored.batches|], sb, stored.users)
      && |r.store.events| == |stored.events| + 1
      && Batches.BatchAdded(stored, r.store.batches[|stored.batches|], r.store.events[|stored.events|], r.store)
  {
    match FindFarmer(stored.users, sb.farmerEmail)
    case None => Skipped
    case Some(k) =>
      if FindBatch(stored, sb.batchId).Some? then Clash
      else
        var farmer := stored.users[k];
        var b := Batch(stored.nextId, sb.batchId, sb.title, Some(sb.variety), sb.quantity as real, sb.unit,
                       sb.harvestDate, Some(sb.location), sb.images, farmer.id, stored.clock, stored.clock);
        var e := Event(stored.nextId + 1, b.id, farmer.id, Farmer, CREATED,
                       SeedDetails(sb.quantity, sb.harvestDate), None, false, stored.clock);
        Inserted(stored.(batches := stored.batches + [b], events := stored.events + [e], nextId := stored.nextId + 2))
  }

  /** A seeded batch's CREATED event reports the stored quantity and the stored harvest date, and,
      unlike the create route's, no image count. */
  lemma SeededEventDescribesBatch(stored: Store, sb: SeedBatch)
    requires InsertBatch(stored, sb).Inserted?
    ensures var t := InsertBatch(stored, sb).store;
      var b, e := t.batches[|stored.batches|], t.events[|stored.events|];
      && e.batchRef == b.id && e.action == CREATED
      && e.details.Keys == {"message", "initialQuantity", "harvestDate"}
      && e.details["initialQuantity"] == DecimalString(sb.quantity) && b.quantity == sb.quantity as real
      && e.details["harvestDate"] == b.harvestDate
      && "imagesCount" !in e.details
  {
  }

  /** Inserting the seed users, then the seed batches, into a store without users and batches.
      A failure on the way leaves what was stored so far. */
  function Populate(t: Store, users: seq<SeedUser>, batches: seq<SeedBatch>, hash: string -> string): (r: Reply<Summary>)
    requires t.users == [] && t.batches == []
    ensures r.result.Failure? ==> r.result == Failure(Failed)
    ensures r.result.Success? ==> r.result.value == Summary(|users|, |batches|)
    ensures r.store.txs == t.txs && r.store.clock == t.clock
  {
    var ru := AddUsers(t, users, hash);
    if ru.result.Failure? then Reply(Failure(Failed), ru.store)
    else
      var rb := AddBatches(ru.store, batches);
      if rb.result.Failure? then Reply(Failure(Failed), rb.store)
      else Reply(Success(Summary(|ru.store.users|, |batches|)), rb.store)
  }

  /** The seed route. In production it refuses and changes nothing; otherwise it clears the store
      and populates it. */
  function SeedDemo(s: Store, production: bool, users: seq<SeedUser>, batches: seq<SeedBatch>,
                    hash: string -> string, elapsed: nat): (r: Reply<Summary>)
    ensures production ==> r == Reply(Failure(Forbidden("Seeding not allowed in production")), s)
    ensures r.result.Failure? && !production ==> r.result == Failure(Failed)
    ensures !production ==> r.store.txs == [] && r.store.clock == s.clock + elapsed
    ensures r.result.Success? ==> r.result.value == Summary(|users|, |batches|)
  {
    if production then Reply(Failure(Forbidden("Seeding not allowed in production")), s)
    else Populate(Cleared(s, s.clock + elapsed), users, batches, hash)
  }

  // ---------------------------------------------------------------------------------------------
  // Properties

  /** The inserted users are the seed users, in order, with consecutive fresh keys. */
  lemma {:induction false} AddUsersContents(t: Store, us: seq<SeedUser>, hash: string -> string)
    requires t.users == []
    ensures var r := AddUsers(t, us, hash);
      forall i :: 0 <= i < |r.store.users| ==>
        StoredAs(r.store.users[i], us[i], hash) && r.store.users[i].id == t.nextId + i
    decreases |us|
  {
    if |us| > 0 {
      var front := us[..|us| - 1];
      AddUsersContents(t, front, hash);
      var r0 := AddUsers(t, front, hash);
      var r := AddUsers(t, us, hash);
      if r.store.users != r0.store.users {
        var stored := InsertUser(r0.store, us[|us| - 1], hash).value;
        assert r.store == stored;
        forall i | 0 <= i < |r.store.users|
          ensures StoredAs(r.store.users[i], us[i], hash) && r.store.users[i].id == t.nextId + i
        {
          if i < |r0.store.users| {
            assert r.store.users[i] == r0.store.users[i] && us[i] == front[i];
          }
        }
      }
    }
  }

  /** The users are all inserted exactly when their roles are valid and their addresses distinct. */
  lemma {:induction false} AddUsersAcceptance(t: Store, us: seq<SeedUser>, hash: string -> string)
    requires t.users == []
    ensures AddUsers(t, us, hash).result.Success? <==> UsersAcceptable(us)
    decreases |us|
  {
    if |us| > 0 {
      var front := us[..|us| - 1];
      var su := us[|us| - 1];
      AddUsersAcceptance(t, front, hash);
      AddUsersContents(t, front, hash);
      var r0 := AddUsers(t, front, hash);
      UsersAcceptableSnoc(front, su);
      SplitLast(us);
      if r0.result.Success? {
        var stored := r0.store.users;
        assert forall i :: 0 <= i < |stored| ==> stored[i].email == front[i].email;
        assert AddUsers(t, us, hash).result.Success? <==> InsertUser(r0.store, su, hash).Some?;
      } else {
        assert AddUsers(t, us, hash).result.Failure?;
      }
    }
  }

  /** One more seed user keeps the users acceptable exactly when its role is valid and its address new. */
  lemma UsersAcceptableSnoc(front: seq<SeedUser>, su: SeedUser)
    ensures UsersAcceptable(front + [su]) <==>
      UsersAcceptable(front) && ParseRole(su.role).Some? && forall i :: 0 <= i < |front| ==> front[i].email != su.email
  {
    var ext := front + [su];
    assert forall i :: 0 <= i < |front| ==> ext[i] == front[i];
    if UsersAcceptable(ext) {
      forall i | 0 <= i < |front|
        ensures front[i].email != su.email
      {
        assert ext[i].email != ext[|front|].email;
      }
      assert ParseRole(ext[|front|].role).Some?;
    }
  }

  /** The inserted batches are the seed batches that have a farmer, in order, as long as no name
      repeats; all of them when the insertion succeeds. */
  lemma {:induction false} AddBatchesContents(t: Store, bs: seq<SeedBatch>)
    requires t.batches == []
    ensures var r := AddBatches(t, bs);
      var kept := Filter(HasFarmer(t.users), bs);
      && |r.store.batches| <= |kept|
      && (forall i :: 0 <= i < |r.store.batches| ==> BatchStoredAs(r.store.batches[i], kept[i], t.users))
      && (r.result.Success? ==> |r.store.batches| == |kept|)
    decreases |bs|
  {
    if |bs| > 0 {
      var front := bs[..|bs| - 1];
      var sb := bs[|bs| - 1];
      AddBatchesContents(t, front);
      SplitLast(bs);
      FilterSnoc(HasFarmer(t.users), front, sb);
      var keptFront := Filter(HasFarmer(t.users), front);
      var r0 := AddBatches(t, front);
      var r := AddBatches(t, bs);
      if r0.result.Success? {
        match InsertBatch(r0.store, sb)
        case Skipped =>
          assert Filter(HasFarmer(t.users), bs) == keptFront;
        case Clash =>
        case Inserted(stored) =>
          assert r.store == stored && Filter(HasFarmer(t.users), bs) == keptFront + [sb];
          StoredAsSnoc(r0.store.batches, stored.batches, keptFront, sb, t.users);
      }
    }
  }

  /** Storing one more seed batch after a matching prefix keeps every position matching. */
  lemma StoredAsSnoc(prev: seq<Batch>, next: seq<Batch>, kept: seq<SeedBatch>, sb: SeedBatch, users: seq<User>)
    requires |prev| == |kept| && |next| == |prev| + 1 && next[..|prev|] == prev
    requires forall i :: 0 <= i < |prev| ==> BatchStoredAs(prev[i], kept[i], users)
    requires BatchStoredAs(next[|prev|], sb, users)
    ensures forall i :: 0 <= i < |next| ==> BatchStoredAs(next[i], (kept + [sb])[i], users)
  {
    forall i | 0 <= i < |next|
      ensures BatchStoredAs(next[i], (kept + [sb])[i], users)
    {
      if i < |prev| {
        assert next[i] == prev[i] && (kept + [sb])[i] == kept[i];
      }
    }
  }

  /** One more batch keeps the names distinct exactly when its name is new. */
  lemma NamesDistinctSnoc(kept: seq<SeedBatch>, sb: SeedBatch)
    ensures NamesDistinct(kept + [sb]) <==>
      NamesDistinct(kept) && forall i :: 0 <= i < |kept| ==> kept[i].batchId != sb.batchId
  {
    var ext := kept + [sb];
    assert forall i :: 0 <= i < |kept| ==> ext[i] == kept[i];
    if NamesDistinct(ext) {
      forall i | 0 <= i < |kept|
        ensures kept[i].batchId != sb.batchId
      {
        assert ext[i].batchId != ext[|kept|].batchId;
      }
    }
  }

  /** The batches are all inserted exactly when the names of those with a farmer do not repeat. */
  lemma {:induction false} AddBatchesAcceptance(t: Store, bs: seq<SeedBatch>)
    requires t.batches == []
    ensures AddBatches(t, bs).result.Success? <==> BatchesAcceptable(t.users, bs)
    decreases |bs|
  {
    if |bs| > 0 {
      var front := bs[..|bs| - 1];
      var sb := bs[|bs| - 1];
      AddBatchesAcceptance(t, front);
      SplitLast(bs);
      FilterSnoc(HasFarmer(t.users), front, sb);
      var keptFront := Filter(HasFarmer(t.users), front);
      var r0 := AddBatches(t, front);
      var r := AddBatches(t, bs);
      if HasFarmer(t.users)(sb) {
        assert Filter(HasFarmer(t.users), bs) == keptFront + [sb];
        NamesDistinctSnoc(keptFront, sb);
        if r0.result.Success? {
          AddBatchesContents(t, front);
          NewNameIffUnstored(r0.store, keptFront, sb, t.users);
          assert FindFarmer(r0.store.users, sb.farmerEmail).Some?;
          assert r.result.Success? <==> FindBatch(r0.store, sb.batchId).None?;
        } else {
          assert r.result.Failure?;
        }
      } else {
        assert Filter(HasFarmer(t.users), bs) == keptFront;
        assert FindFarmer(r0.store.users, sb.farmerEmail).None?;
        assert r == r0;
      }
    }
  }

  /** A stored copy of the kept batches holds a batch's name exactly when one of them has it. */
  lemma NewNameIffUnstored(stored: Store, keptFront: seq<SeedBatch>, sb: SeedBatch, users: seq<User>)
    requires |stored.batches| == |keptFront|
    requires forall i :: 0 <= i < |keptFront| ==> BatchStoredAs(stored.batches[i], keptFront[i], users)
    ensures FindBatch(stored, sb.batchId).None? <==> forall i :: 0 <= i < |keptFront| ==> keptFront[i].batchId != sb.batchId
  {
    assert forall i :: 0 <= i < |keptFront| ==> stored.batches[i].batchId == keptFront[i].batchId;
  }

  /** Inserting the users keeps the store invariant. */
  lemma {:induction false} AddUsersValid(t: Store, us: seq<SeedUser>, hash: string -> string)
    requires t.users == [] && Valid(t)
    ensures Valid(AddUsers(t, us, hash).store)
    decreases |us|
  {
    if |us| > 0 {
      var front := us[..|us| - 1];
      AddUsersValid(t, front, hash);
      var r0 := AddUsers(t, front, hash);
      if r0.result.Success? {
        var su := us[|us| - 1];
        var inserted := InsertUser(r0.store, su, hash);
        if inserted.Some? {
          var u := inserted.value.users[|r0.store.users|];
          AddUserValid(r0.store, u, inserted.value);
        }
      }
    }
  }

  /** Inserting the batches keeps the store invariant. */
  lemma {:induction false} AddBatchesValid(t: Store, bs: seq<SeedBatch>)
    requires t.batches == [] && Valid(t)
    ensures Valid(AddBatches(t, bs).store)
    decreases |bs|
  {
    if |bs| > 0 {
      var front := bs[..|bs| - 1];
      AddBatchesValid(t, front);
      var r0 := AddBatches(t, front);
      var r := AddBatches(t, bs);
      if r0.result.Success? {
        var stored := r0.store;
        match InsertBatch(stored, bs[|bs| - 1])
        case Skipped =>
        case Clash =>
        case Inserted(next) =>
          Batches.AddBatchValid(stored, next.batches[|stored.batches|], next.events[|stored.events|], next);
      }
    }
  }

  /** Once the users are in, populating answers as the batch insertion does, on the store it leaves. */
  lemma PopulateAfterUsers(t: Store, users: seq<SeedUser>, batches: seq<SeedBatch>, hash: string -> string)
    requires t.users == [] && t.batches == []
    requires AddUsers(t, users, hash).result.Success?
    ensures var ru := AddUsers(t, users, hash);
      var r := Populate(t, users, batches, hash);
      r.store == AddBatches(ru.store, batches).store &&
      r.result.Success? == AddBatches(ru.store, batches).result.Success?
  {
  }

  /** Populating a store that satisfies the invariant keeps it, even when it fails part-way. */
  lemma PopulateValid(t: Store, users: seq<SeedUser>, batches: seq<SeedBatch>, hash: string -> string)
    requires t.users == [] && t.batches == [] && Valid(t)
    ensures Valid(Populate(t, users, batches, hash).store)
  {
    AddUsersValid(t, users, hash);
    var ru := AddUsers(t, users, hash);
    if ru.result.Success? {
      AddBatchesValid(ru.store, batches);
      PopulateAfterUsers(t, users, batches, hash);
    }
  }

  /** After a successful population the store holds exactly the seed users, in order, and the seed
      batches that have a farmer, in order, each owned by the first user with its farmer address. */
  lemma PopulateContents(t: Store, users: seq<SeedUser>, batches: seq<SeedBatch>, hash: string -> string)
    requires t.users == [] && t.batches == []
    requires Populate(t, users, batches, hash).result.Success?
    ensures var r := Populate(t, users, batches, hash);
      && |r.store.users| == |users|
      && (forall i :: 0 <= i < |users| ==> StoredAs(r.store.users[i], users[i], hash))
      && (var kept := Filter(HasFarmer(r.store.users), batches);
          |r.store.batches| == |kept| &&
          forall i :: 0 <= i < |kept| ==> BatchStoredAs(r.store.batches[i], kept[i], r.store.users))
  {
    var ru := AddUsers(t, users, hash);
    PopulateAfterUsers(t, users, batches, hash);
    AddUsersContents(t, users, hash);
    AddBatchesContents(ru.store, batches);
  }

  /** Which seed batches have a farmer depends only on the stored addresses. */
  lemma FarmersByAddress(u1: seq<User>, u2: seq<User>, bs: seq<SeedBatch>)
    requires |u1| == |u2| && forall i :: 0 <= i < |u1| ==> u1[i].email == u2[i].email
    ensures Filter(HasFarmer(u1), bs) == Filter(HasFarmer(u2), bs)
  {
    forall i | 0 <= i < |bs|
      ensures HasFarmer(u1)(bs[i]) == HasFarmer(u2)(bs[i])
    {
      var f1 := FindFarmer(u1, bs[i].farmerEmail);
      var f2 := FindFarmer(u2, bs[i].farmerEmail);
      if f1.Some? { assert u2[f1.value].email == bs[i].farmerEmail; }
      if f2.Some? { assert u1[f2.value].email == bs[i].farmerEmail; }
    }
    FilterExtensional(HasFarmer(u1), HasFarmer(u2), bs);
  }

  /** Populating succeeds exactly when the seed users are acceptable and the names of the seed
      batches whose farmer address belongs to a seed user do not repeat. */
  lemma PopulateSucceedsIff(t: Store, users: seq<SeedUser>, batches: seq<SeedBatch>, hash: string -> string)
    requires t.users == [] && t.batches == []
    ensures var r := Populate(t, users, batches, hash);
      r.result.Success? <==> UsersAcceptable(users) && BatchesAcceptable(r.store.users, batches)
  {
    AddUsersAcceptance(t, users, hash);
    var ru := AddUsers(t, users, hash);
    if ru.result.Success? {
      PopulateAfterUsers(t, users, batches, hash);
      AddBatchesAcceptance(ru.store, batches);
    }
  }

  /** With acceptable seed users, the populated store holds them, in order, whatever happens to the
      batches. */
  lemma PopulatedAddresses(t: Store, users: seq<SeedUser>, batches: seq<SeedBatch>, hash: string -> string)
    requires t.users == [] && t.batches == []
    requires UsersAcceptable(users)
    ensures var r := Populate(t, users, batches, hash);
      |r.store.users| == |users| && forall i :: 0 <= i < |users| ==> r.store.users[i].email == users[i].email
  {
    AddUsersAcceptance(t, users, hash);
    AddUsersContents(t, users, hash);
    PopulateAfterUsers(t, users, batches, hash);
  }

  /** A cleared store satisfies the invariant, whatever it held before. */
  lemma ClearedValid(s: Store, now: nat)
    ensures Valid(Cleared(s, now))
  {
  }

  /** The answer does not depend on what the store held before it was cleared: seeding twice
      answers the same both times. */
  lemma PopulateIgnoresPriorStore(t1: Store, t2: Store, users: seq<SeedUser>, batches: seq<SeedBatch>,
                                  hash: string -> string)
    requires t1.users == [] && t1.batches == [] && t2.users == [] && t2.batches == []
    ensures Populate(t1, users, batches, hash).result == Populate(t2, users, batches, hash).result
  {
    PopulateSucceedsIff(t1, users, batches, hash);
    PopulateSucceedsIff(t2, users, batches, hash);
    if UsersAcceptable(users) {
      PopulatedAddresses(t1, users, batches, hash);
      PopulatedAddresses(t2, users, batches, hash);
      SameAcceptance(Populate(t1, users, batches, hash).store.users, Populate(t2, users, batches, hash).store.users, batches);
    }
  }

  /** Whether the seed batches are acceptable depends only on the users' addresses. */
  lemma SameAcceptance(u1: seq<User>, u2: seq<User>, bs: seq<SeedBatch>)
    requires |u1| == |u2| && forall i :: 0 <= i < |u1| ==> u1[i].email == u2[i].email
    ensures BatchesAcceptable(u1, bs) == BatchesAcceptable(u2, bs)
  {
    FarmersByAddress(u1, u2, bs);
  }

  /** The answer counts every seed batch, including those skipped for want of a farmer: it matches
      the stored batches exactly when every seed batch has one. */
  lemma PopulateBatchCount(t: Store, users: seq<SeedUser>, batches: seq<SeedBatch>, hash: string -> string)
    requires t.users == [] && t.batches == []
    requires Populate(t, users, batches, hash).result.Success?
    ensures var r := Populate(t, users, batches, hash);
      && |r.store.batches| <= r.result.value.batches
      && (|r.store.batches| == r.result.value.batches <==>
          forall i :: 0 <= i < |batches| ==> HasFarmer(r.store.users)(batches[i]))
  {
    var r := Populate(t, users, batches, hash);
    PopulateContents(t, users, batches, hash);
    FilterKeepsAllIff(HasFarmer(r.store.users), batches);
  }
}
