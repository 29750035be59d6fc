/** The records of the system (users, batches, events, mock transactions), the error kinds its
    handlers report, and the store those handlers share. */
module Domain {
  import opened Wrappers

  /** The four account roles. */
  datatype Role = Farmer | Distributor | Retailer | Consumer

  /** The upper-case name a role is stored and transmitted as. */
  function RoleName(r: Role): string {
    match r
    case Farmer => "FARMER"
    case Distributor => "DISTRIBUTOR"
    case Retailer => "RETAILER"
    case Consumer => "CONSUMER"
  }

  /** The role with the given name, if any. */
  function ParseRole(s: string): (r: Option<Role>)
    ensures r.Some? ==> RoleName(r.value) == s
  {
    if s == "FARMER" then Some(Farmer)
    else if s == "DISTRIBUTOR" then Some(Distributor)
    else if s == "RETAILER" then Some(Retailer)
    else if s == "CONSUMER" then Some(Consumer)
    else None
  }

  /** Every role's name parses back to the role. */
  lemma ParseRoleName(role: Role)
    ensures ParseRole(RoleName(role)) == Some(role)
  {
  }

  /** A JSON object whose values are kept as text; serialising it to the store and parsing it
      back is the identity here. */
  type Details = map<string, string>

  /** A registered account. `passwordHash` is what the password hashing function produced. */
  datatype User = User(id: nat, name: string, email: string, passwordHash: string, role: Role, createdAt: nat)

  /** The authenticated caller of a request, as resolved from its token. */
  datatype Principal = Principal(id: nat, role: Role)

  /** A produce batch. `id` is the store key, `batchId` the human-readable `FARM-<year>-<seq>` name. */
  datatype Batch = Batch(
    id: nat,
    batchId: string,
    title: string,
    variety: Option<string>,
    quantity: real,
    unit: string,
    harvestDate: string,
    location: Option<string>,
    images: seq<string>,
    farmerId: nat,
    createdAt: nat,
    updatedAt: nat)

  /** One ledger entry: `batchRef` is the store key of its batch, `actorRole` the role the actor
      held when the event was recorded. */
  datatype Event = Event(
    id: nat,
    batchRef: nat,
    actorId: nat,
    actorRole: Role,
    action: string,
    details: Details,
    txHash: Option<string>,
    confirmed: bool,
    timestamp: nat)

  /** A batch as the client receives it, with the events the route included: only the latest one
      from the batch list, all of them oldest first from the single-batch route. */
  datatype BatchView = BatchView(batch: Batch, events: seq<Event>)

  datatype TxStatus = Pending | Confirmed | Failed

  /** A record of the mock transaction engine. */
  datatype MockTx = MockTx(
    id: nat,
    txHash: string,
    batchId: string,
    action: string,
    status: TxStatus,
    createdAt: nat,
    confirmedAt: Option<nat>)

  /** The ways a request handler fails. HTTP status codes are not modelled. */
  datatype Error =
    | Validation(message: string)      // the first failing field of a request schema
    | NotFound(message: string)
    | Forbidden(message: string)
    | Unauthorized(message: string)
    | RoleDenied                       // the role gate in front of a farmer-only route
    | UploadRejected(message: string)  // a file refused before the upload handler runs
    | Internal(message: string)        // a store constraint violated, caught by the handler

  /** The persistent store. `nextId` is the next unused record key and `clock` the time of the
      latest write: every write first advances the clock. */
  datatype Store = Store(
    users: seq<User>,
    batches: seq<Batch>,
    events: seq<Event>,
    txs: seq<MockTx>,
    nextId: nat,
    clock: nat)

  /** The store of a fresh deployment. */
  const EmptyStore := Store([], [], [], [], 0, 0)

  /** What a handler answers, paired with the store it leaves behind. */
  datatype Reply<+T> = Reply(result: Result<T, Error>, store: Store)
}
