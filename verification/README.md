# FarmChain in Dafny

FarmChain tracks farm produce from harvest to sale. A Farmer registers a *batch* (named
`FARM-<year>-<nnnn>`). Distributors and Retailers then append *events* (`PICKED_UP`, `IN_TRANSIT`,
`DELIVERED`, `PRICE_SET`, `QUALITY_CHECK`, `VERIFIED_ON_CHAIN`) to the batch's ledger, and a
Consumer scans the batch's QR code to see its timeline and a trust score. A mock blockchain hands
out transaction hashes that confirm or fail some seconds later.

This project is a functional model of that core:

- the server routes for accounts, batches, events, the mock chain, QR codes, uploads and the
  demo seed;
- the client logic that decides which action a role may take next;
- how the dashboards sort batches into tabs;
- the trust score, the scanner's link parsing, the image carousel and the creation form.

The database becomes an immutable `Storage.Store` record: users, batches, events, transactions, a
key counter and a clock. It is threaded through handler functions that answer with a
`Domain.Reply(result, store)`. Every failure leaves the store as it was. The invariant
`Storage.Valid` states the following:

- keys are unique and lie below the counter;
- batch names, e-mail addresses and transaction hashes are distinct;
- timestamps never decrease;
- every batch starts with a `CREATED` event by its farmer;
- stored events carry a non-empty action and no hash.

Each mutating handler is proved to keep that invariant. Randomness (the hash digits, the
confirmation coin, the upload suffix), the clock (an `elapsed` amount per write and the year),
password hashing, token signing and the e-mail syntax check are all parameters.

Modules, one per component: `Domain` (records), `Storage` (store and invariant), `Auth`,
`Batches`, `Ledger` (events), `MockChain`, `Qr`, `Upload`, `Seed`, `Actions` (vocabulary and
labels), `JsRecord` (JavaScript table lookup), `Lifecycle` (the event dialog), `Dashboards`,
`Trace` (trust score and titles), `Scanner`, `Carousel`, `CreateForm`, `Flows` (multi-request
client flows). `Wrappers`, `Seqs` and `Text` are helpers.

Where the code and the system's design notes disagree, the model follows the code:

- The server checks no lifecycle rule when an event is appended. Any authenticated role may
  append any non-empty action (`Ledger.NoServerTransitionCheck`).
- A Retailer "receiving" an in-transit batch appends `DELIVERED`. Since the actor is now a
  Retailer, the batch is in the terminal "sold" state and `PRICE_SET` is never offered after a
  receive (`Lifecycle.ReceiveLandsInSold`).
- A mock transaction's status is not final: a forced confirmation followed by a failing timer
  leaves it `failed` with a confirmation time (`MockChain.ForceConfirmThenFailingTimer`).
- The verify flow stores the transaction hash only inside the event's details, never in the
  event's own hash field, so the trust score's +20 bonus is unreachable through the modelled
  routes (`Flows.VerifyEarnsNoHashBonus`, `Trace.StoredTimelineHasNoBonus`).
- The QR-to-scanner round trip needs the front-end address neither to contain `/trace/` nor to
  end with `/trace`. With an address ending in `/trace`, the scanner reads the wrong id
  (`Scanner.ScanMisreadsTraceSuffix`).

## Model

| member | source | states |
|---|---|---|
| Domain.ParseRole | backend/src/routes/auth.ts:15 | A string accepted as a role is exactly that role's name. |
| Domain.ParseRoleName | backend/src/routes/auth.ts:15 | Each of the four role names parses back to its role. |
| Storage.FindBatch | backend/src/routes/batches.ts:163-164 | The lookup by name finds a stored batch with that name, and finds nothing exactly when no stored batch has it. |
| Storage.FindBatchUnique | backend/src/routes/batches.ts:163-164 | With distinct names, the lookup finds exactly the batch at the position holding that name. |
| Storage.EventsOf | backend/src/routes/events.ts:69-70 | A batch's events are exactly the stored events referring to it. |
| Storage.EventsOfAppend | backend/src/routes/events.ts:30-37 | Appending an event extends only the event list of the batch it refers to. |
| Storage.BatchIndex | backend/src/routes/batches.ts:163-164 | The index, when found, holds a batch with the name, and there is none exactly when no batch has it. |
| Storage.EventsOfTimeOrdered | backend/src/routes/events.ts:76 | Under the invariant, a batch's events in ledger order are in ascending timestamp order. |
| Storage.LatestOf | backend/src/routes/batches.ts:111-114 | The latest event is one of the batch's events, and there is none exactly when the batch has no events. |
| Storage.LatestHasMaxTimestamp | backend/src/routes/batches.ts:111-114 | Under the invariant, the latest event has the largest timestamp among the batch's events. |
| Storage.AddEventValid | backend/src/routes/events.ts:30-43 | Adding an event with a fresh key, the current time, a non-empty action and no hash, referring to an already issued key, keeps the invariant. |
| Storage.AddUserValid | backend/src/routes/auth.ts:42-56 | Adding a user with a fresh key and a new address keeps the invariant. |
| Storage.ReplaceBatchValid | backend/src/routes/batches.ts:219-227 | Replacing a batch by one with the same key, name, owner and creation time keeps the invariant. |
| Storage.EmptyStoreValid | backend/src/routes/seed.ts:21-24 | The empty store satisfies the invariant. |
| Auth.RegisterSchemaError | backend/src/routes/auth.ts:11-16 | Registration is valid exactly when the name has at least 2 characters, the e-mail passes the check, the password has at least 8 characters and the role is one of the four. |
| Auth.UserIndex | backend/src/routes/auth.ts:29-35 | The lookup by address finds a user with it, and finds none exactly when no user has it. |
| Auth.Register | backend/src/routes/auth.ts:24-73 | A schema error or a known address is refused and nothing is stored. Otherwise the account is appended with the given hash, and the caller gets a token for its key and the account without the hash. Success holds exactly when the schema passes and the address is new. |
| Auth.LoginSchemaError | backend/src/routes/auth.ts:18-21 | Login input is valid exactly when the e-mail passes the check and the password is non-empty. |
| Auth.Login | backend/src/routes/auth.ts:76-117 | Login succeeds exactly when the account exists and the password verifies, and then returns the account without its hash. Every other valid request fails with the single message "Invalid email or password". |
| Auth.PublicHidesOnlyHash | backend/src/routes/auth.ts:102-108 | Two accounts look the same in a reply exactly when they differ at most in the password hash: the hash never shows, and every other field does. |
| Auth.InvalidRegistrationIgnoresStore | backend/src/routes/auth.ts:26-29 | An invalid registration gets the same answer whatever the store holds, and stores nothing. |
| Auth.InvalidLoginIgnoresStore | backend/src/routes/auth.ts:78-81 | An invalid login gets the same answer whatever the store holds. |
| Auth.LoginFailuresAlike | backend/src/routes/auth.ts:85-94 | An unknown address and a wrong password for a known address get identical answers. |
| Auth.SecondRegistrationRefused | backend/src/routes/auth.ts:29-35 | Registering the same address again after a success is refused with "User with this email already exists". |
| Auth.RegisterThenLogin | backend/src/routes/auth.ts:42-109 | After a registration, logging in with the same address and a password that verifies against the stored hash returns the same session. |
| Auth.RegisterPreservesValid | backend/src/routes/auth.ts:42-56 | Registration keeps the invariant, so addresses stay distinct. |
| Batches.GenerateBatchId | backend/src/routes/batches.ts:34-38 | The generated name starts with `FARM-`. |
| Batches.BatchIdRoundTrip | backend/src/routes/batches.ts:37 | Parsing a generated name gives back the year and the count plus one: the zero padding loses nothing. |
| Batches.BatchIdInjective | backend/src/routes/batches.ts:37 | Different counts in one year give different names. |
| Batches.BatchIdWidth | backend/src/routes/batches.ts:37 | The sequence part is at least 4 digits, and from 10000 on it grows past 4 instead of being truncated. |
| Batches.ParseAssembledBatchId | backend/src/routes/batches.ts:37 | A name assembled from `FARM-`, a digit string, a dash and a digit string parses back to the two numbers. |
| Batches.CreateSchemaError | backend/src/routes/batches.ts:10-18 | A create request is valid exactly when a non-empty title, a positive quantity, a non-empty unit and a harvest date are all present. An absent title is "Required" and an empty one is "Title is required", since the title is checked first. |
| Batches.FractionalQuantityAccepted | backend/src/routes/batches.ts:13 | A fractional quantity such as 2.5 passes the schema. |
| Batches.CreateBatch | backend/src/routes/batches.ts:41-95 | Only a Farmer gets past the role gate. Then the schema is checked, then the name is generated from the batch count. A taken name or a harvest date that is no date is a store error, "Internal server error". Success holds exactly when none of these fails. The stored batch is owned by the caller, holds the request's fields with the converted date, and its images default to the empty list. Exactly one event is appended: `CREATED`, by the caller as FARMER, whose details report the stored quantity, date and image count. Every failure leaves the store unchanged. |
| Batches.CreatedEventDescribesBatch | backend/src/routes/batches.ts:66-79 | A created batch reads back with its `CREATED` event as its only event. The event's details hold the fixed message, the stored quantity, the stored harvest date and the number of stored images. |
| Batches.CreatePreservesValid | backend/src/routes/batches.ts:46-79 | Creating a batch keeps the invariant, including "every batch starts with its CREATED event". |
| Batches.AppendBatchDistinct | backend/src/routes/batches.ts:45-65 | A batch whose key and name are new keeps the batches distinct. |
| Batches.AddBatchBornCreated | backend/src/routes/batches.ts:65-79 | A new batch appended with its CREATED event by its farmer keeps every batch born with its creation event. |
| Batches.AddBatchValid | backend/src/routes/batches.ts:46-79 | Appending a batch and its CREATED event with fresh keys and a new name keeps the invariant. |
| Batches.ListBatches | backend/src/routes/batches.ts:98-158 | The list holds the visible batches, newest first, each with only its latest event. A Farmer sees only their own batches. |
| Batches.ListBatchesComplete | backend/src/routes/batches.ts:103-117 | Every batch the caller may see appears in the list. |
| Batches.OthersSeeAllBatches | backend/src/routes/batches.ts:118-145 | Every role other than Farmer sees all batches. |
| Batches.FilterKeepsCreationOrder | backend/src/routes/batches.ts:116 | Filtering batches kept in creation order keeps them in creation order. |
| Batches.ListBatchesNewestFirst | backend/src/routes/batches.ts:116 | With batches stored in creation order, the list is ordered by creation time, newest first. |
| Batches.LatestList | backend/src/routes/batches.ts:111-114 | A listed batch carries at most one event, which is its latest, and carries none exactly when it has no events. |
| Batches.GetBatch | backend/src/routes/batches.ts:161-195 | An unknown name gives "Batch not found". Otherwise the answer is the batch with all its events. |
| Batches.GetBatchStartsWithCreation | backend/src/routes/batches.ts:169-176 | Under the invariant, a fetched batch's events start with CREATED by its farmer as FARMER and are in ascending timestamp order. |
| Batches.Patched | backend/src/routes/batches.ts:214-221 | An update changes exactly the supplied fields, the harvest date taking its converted value. The key, the name, the owner and the creation time are kept. |
| Batches.UpdateBatch | backend/src/routes/batches.ts:198-243 | The checks come in order: role gate, then a positive quantity if one is supplied, then "Batch not found", then "You can only update your own batches", then a supplied harvest date that is no date, which is an internal error. Success holds exactly when every check passes. None of the failures changes anything. On success only the owner's batch is replaced, by its patched copy, and the reply is that copy. |
| Batches.UpdatePreservesValid | backend/src/routes/batches.ts:198-227 | An update keeps the invariant. |
| Batches.CreatedImagesReadBack | backend/src/routes/batches.ts:55-85 | The image list given at creation, or the empty list, is the list the batch is read back with. |
| Batches.UpdatedImagesReadBack | backend/src/routes/batches.ts:214-233 | The image list given to an update is the list the batch is read back with. |
| Ledger.AppendEvent | backend/src/routes/events.ts:16-56 | A missing or empty action is a validation error, and an unknown batch is "Batch not found". In both cases nothing is stored. Success holds exactly when the action is non-empty and the batch exists. Then exactly one event is appended, with the caller's id and role, the action, the details (or `{}`), no hash and the current time. Nothing else changes. |
| Ledger.ListEvents | backend/src/routes/events.ts:59-84 | An unknown batch gives "Batch not found". Otherwise the answer is exactly that batch's events. |
| Ledger.ListEventsOrdered | backend/src/routes/events.ts:69-77 | Under the invariant, a listing is a subsequence of the ledger in ascending timestamp order. |
| Ledger.AppendThenList | backend/src/routes/events.ts:29-77 | After an append, its batch's listing is the old listing plus the new event, and every other batch's listing is unchanged. |
| Ledger.NoServerTransitionCheck | backend/src/routes/events.ts:29-43 | Any caller may append any non-empty action to an existing batch: no lifecycle or role rule is enforced. |
| Ledger.AppendPreservesValid | backend/src/routes/events.ts:30-43 | Appending an event keeps the invariant. |
| MockChain.HexOf | backend/src/routes/mock-blockchain.ts:17-21 | Every character of the digit string is a lower-case hexadecimal digit, one per draw. |
| MockChain.HexOfInjective | backend/src/routes/mock-blockchain.ts:17-21 | Different draws give different digit strings, so the draws can be read back from the digits. |
| MockChain.TxHashOf | backend/src/routes/mock-blockchain.ts:16-23 | A hash is `0x` followed by 64 lower-case hex digits, 66 characters in all. |
| MockChain.GenerateTxHash | backend/src/routes/mock-blockchain.ts:16-23 | The loop builds `0x` followed by the 64 drawn digits, one character per draw. |
| MockChain.TxHashInjective | backend/src/routes/mock-blockchain.ts:16-23 | Different digit draws give different hashes. |
| MockChain.TxIndex | backend/src/routes/mock-blockchain.ts:88-94 | The lookup by hash finds a transaction with that hash, and finds none exactly when no transaction has it. |
| MockChain.TxIndexById | backend/src/routes/mock-blockchain.ts:56-62 | The lookup by key finds the transaction with that key, and finds none exactly when no transaction has it. |
| MockChain.TxChangeValid | backend/src/routes/mock-blockchain.ts:42-62 | A change confined to transactions, the counter and the clock keeps the invariant when the hashes stay distinct, keys stay below the counter and creation times keep their order. |
| MockChain.AddTxValid | backend/src/routes/mock-blockchain.ts:42-49 | Appending a fresh transaction with a new hash keeps the invariant. |
| MockChain.Submit | backend/src/routes/mock-blockchain.ts:26-83 | The checks come in order: missing or empty batch name, then missing or empty action, then "Batch not found", then a hash already stored. Failures store nothing. On success one pending record is appended and the answer carries the hash, `pending` and the explorer link `https://mockchain.local/tx/<hash>`. |
| MockChain.TimerFire | backend/src/routes/mock-blockchain.ts:52-68 | When the timer fires, the coin makes the transaction `confirmed` with a confirmation time, or `failed` with its confirmation time unchanged. A missing transaction is skipped. Nothing else changes. |
| MockChain.ForceConfirm | backend/src/routes/mock-blockchain.ts:112-138 | An unknown hash is "Transaction not found". Otherwise the transaction becomes `confirmed` with a confirmation time, whatever its status was. |
| MockChain.GetStatus | backend/src/routes/mock-blockchain.ts:86-109 | An unknown hash is "Transaction not found". Otherwise the stored fields are returned unchanged, plus the explorer link. |
| MockChain.ListTxs | backend/src/routes/mock-blockchain.ts:141-152 | The list holds all transactions, newest stored first. |
| MockChain.ListTxsNewestFirst | backend/src/routes/mock-blockchain.ts:143-145 | Under the invariant, the list is ordered by creation time, descending. |
| MockChain.SubmitThenStatus | backend/src/routes/mock-blockchain.ts:42-49 | Right after a submission the status route reports `pending`, no confirmation time, and the submitted name and action. |
| MockChain.TimerAfterSubmit | backend/src/routes/mock-blockchain.ts:42-62 | After a submission and one timer firing, the transaction is no longer pending, and it has a confirmation time exactly when it is confirmed. |
| MockChain.ForceConfirmThenFailingTimer | backend/src/routes/mock-blockchain.ts:56-62 | A forced confirmation followed by a failing timer leaves the transaction `failed` with a confirmation time set. |
| MockChain.ForceConfirmAfterFailure | backend/src/routes/mock-blockchain.ts:122-128 | A forced confirmation turns a failed transaction into a confirmed one with a confirmation time. |
| MockChain.SubmitPreservesValid | backend/src/routes/mock-blockchain.ts:42-49 | A submission keeps the invariant, so hashes stay distinct. |
| MockChain.TimerPreservesValid | backend/src/routes/mock-blockchain.ts:56-62 | A timer firing keeps the invariant. |
| MockChain.ForcePreservesValid | backend/src/routes/mock-blockchain.ts:122-128 | A forced confirmation keeps the invariant. |
| Qr.TraceUrl | backend/src/routes/qr.ts:20 | The encoded link is the front-end address, then `/trace/`, then the batch name. |
| Qr.QrCode | backend/src/routes/qr.ts:10-73 | An unknown batch gives "Batch not found" and no image. Otherwise the image encodes the trace link at 300 pixels with margin 2, with the format's content type and the file name `batch-<name>-qr.png` or `.svg`. |
| Qr.FormatsEncodeTheSameLink | backend/src/routes/qr.ts:53 | The PNG and SVG routes succeed for the same batches and encode the same link. |
| Upload.Extname | backend/src/routes/upload.ts:24 | The extension is a suffix of the name that is empty or starts with the name's last dot. |
| Upload.ImageTestIsSubstring | backend/src/routes/upload.ts:34 | The pattern test holds exactly when one of `jpeg`, `jpg`, `png`, `gif`, `webp` occurs anywhere: it is not anchored. |
| Upload.LastDot | backend/src/routes/upload.ts:24 | The last dot is a dot with no dot after it, and there is none exactly when the name has no dot. |
| Upload.SearchFromMeans | backend/src/routes/upload.ts:34 | Scanning from a position finds a match exactly when one of the alternatives occurs at or after it. |
| Upload.UpperCaseExtensionAccepted | backend/src/routes/upload.ts:35 | `photo.JPG` with type `image/jpeg` is accepted, because the extension is lower-cased first. |
| Upload.UpperCaseMimeTypeRefused | backend/src/routes/upload.ts:36 | A file whose MIME type has no lower-case letter is refused whatever its extension, because the type is not lower-cased. |
| Upload.UnanchoredExtension | backend/src/routes/upload.ts:34-35 | The extension `.jpgx` passes the test. |
| Upload.StoredName | backend/src/routes/upload.ts:22-25 | The stored name starts with the field name and a dash and ends with the original extension. |
| Upload.UploadUrl | backend/src/routes/upload.ts:53 | The returned URL is `/uploads/` followed by the stored name. |
| Upload.FirstRejection | backend/src/routes/upload.ts:28-43 | The middleware lets an upload through exactly when it is within the count and every file comes under the expected field and is an accepted image of at most 5·1024·1024 bytes. A first file under another field is refused as "Unexpected field" before the filter runs, and every refusal is an upload error. |
| Upload.WrongFieldRejected | backend/src/routes/upload.ts:47 | A file under another field is refused as "Unexpected field" wherever it sits, once the files before it pass. |
| Upload.AcceptedMeans | backend/src/routes/upload.ts:33-43 | A file passes the filter exactly when one of `jpeg`, `jpg`, `png`, `gif`, `webp` occurs in its lower-cased extension and one occurs in its MIME type. |
| Upload.ReceivableCons | backend/src/routes/upload.ts:28-43 | An upload is receivable exactly when its first file comes under the expected field and is admissible, and the rest fits in one place fewer. |
| Upload.TooManyFiles | backend/src/routes/upload.ts:69 | When the files within the allowed count all come under the field and are admissible, one more file is refused as an unexpected field. |
| Upload.Entries | backend/src/routes/upload.ts:77-82 | There is one entry per file, in order, each built from its file and its drawn name. |
| Upload.Entry | backend/src/routes/upload.ts:77-82 | An entry reports the file's URL under its stored name, its original name and its size. |
| Upload.Receive | backend/src/routes/upload.ts:18-43 | For a given field, success holds exactly when the upload is receivable, and then every file gets its entry in order. Every failure is an upload error. |
| Upload.UploadImage | backend/src/routes/upload.ts:47-66 | No file gives "No file uploaded", and a first file under a field other than `image` gives "Unexpected field". Success holds exactly when there is one admissible file under `image`, and its entry is reported. |
| Upload.UploadImages | backend/src/routes/upload.ts:69-92 | No file gives "No files uploaded", and a first file under a field other than `images` gives "Unexpected field". Success holds exactly when one to five files come, all admissible under `images`, and then one entry is reported per file, in order. |
| Seed.FindFarmer | backend/src/routes/seed.ts:46 | The search finds the first user with the address, or none exactly when no user has it. |
| Seed.Cleared | backend/src/routes/seed.ts:21-24 | Clearing empties users, batches, events and transactions. |
| Seed.ClearedValid | backend/src/routes/seed.ts:21-24 | A cleared store satisfies the invariant whatever it held. |
| Seed.AddUsers | backend/src/routes/seed.ts:29-42 | A success counts every seed user as stored. A failure is the route's single error and leaves fewer users stored than the seed lists. Only the users and the key counter change. |
| Seed.InsertUser | backend/src/routes/seed.ts:32-39 | One seed user is stored exactly when its role is valid and its address is new. |
| Seed.AddUsersContents | backend/src/routes/seed.ts:29-42 | The stored users are the seed users in order, with hashed passwords and consecutive keys. |
| Seed.AddUsersAcceptance | backend/src/routes/seed.ts:29-42 | All users are inserted exactly when every role is valid and no address repeats. |
| Seed.InsertBatch | backend/src/routes/seed.ts:45-79 | A batch without a farmer is skipped, and a name already taken is refused. Otherwise the batch is stored owned by the first user with the farmer address, together with one CREATED event by that farmer as FARMER. |
| Seed.SeededEventDescribesBatch | backend/src/routes/seed.ts:64-76 | A seeded batch's `CREATED` event reports the stored quantity and harvest date. Unlike the create route's event, it has no image count. |
| Seed.AddBatches | backend/src/routes/seed.ts:45-79 | On success the count is the number of batches stored. A failure is the route's single error. |
| Seed.AddBatchesContents | backend/src/routes/seed.ts:45-61 | The stored batches are the seed batches that have a farmer, in order, each owned by its farmer. |
| Seed.AddBatchesAcceptance | backend/src/routes/seed.ts:45-79 | All batches are inserted exactly when the names of those with a farmer do not repeat. |
| Seed.AddUsersValid | backend/src/routes/seed.ts:29-42 | Inserting the users keeps the invariant. |
| Seed.AddBatchesValid | backend/src/routes/seed.ts:45-79 | Inserting the batches and their events keeps the invariant. |
| Seed.Populate | backend/src/routes/seed.ts:28-87 | A success answers with the number of users and the number of seed batches. Transactions are untouched. |
| Seed.PopulateContents | backend/src/routes/seed.ts:28-79 | After a success the store holds exactly the seed users and the seed batches that have a farmer, in order. |
| Seed.PopulateSucceedsIff | backend/src/routes/seed.ts:28-91 | Seeding succeeds exactly when the users are acceptable and the kept batch names do not repeat. |
| Seed.PopulatedAddresses | backend/src/routes/seed.ts:29-42 | With acceptable users, the seeded store holds them in order whatever happens to the batches. |
| Seed.PopulateValid | backend/src/routes/seed.ts:28-79 | Seeding keeps the invariant even when it fails part-way. |
| Seed.PopulateIgnoresPriorStore | backend/src/routes/seed.ts:21-87 | The answer does not depend on what the store held before it was cleared. |
| Seed.PopulateBatchCount | backend/src/routes/seed.ts:83-87 | The reported batch count is the seed-file length. It is at least the number stored, and equals it exactly when every seed batch has a farmer. |
| Seed.SeedDemo | backend/src/routes/seed.ts:11-92 | In production the route refuses with "Seeding not allowed in production" and changes nothing. Otherwise it clears the store, including transactions, before populating it. |
| Actions.BatchActions | backend/src/utils/batch.ts:1-9 | The vocabulary has the seven actions, and each key equals its value. |
| Actions.SevenActions | backend/src/utils/batch.ts:1-9 | The vocabulary has exactly seven entries. |
| Actions.DisplayName | backend/src/utils/batch.ts:13-24 | A known action gets its fixed label, and any other action is returned unchanged. |
| Actions.Color | backend/src/utils/batch.ts:26-37 | A known action gets its fixed colour, and any other action gets `bg-gray-100 text-gray-800`. |
| Actions.DisplayNameAsWritten | backend/src/utils/batch.ts:23 | The expression as written returns the label or the action, except for names inherited from `Object.prototype`. |
| Actions.DisplayNameHitsPrototype | backend/src/utils/batch.ts:23 | For `toString` and `constructor` the expression as written yields the inherited function, not the action name. |
| Actions.DisplayNameAgrees | backend/src/utils/batch.ts:23 | Away from inherited names, the expression as written agrees with `Actions.DisplayName`. |
| Actions.ColorAsWritten | backend/src/utils/batch.ts:36 | The expression as written returns the colour or the fallback, except for inherited names. |
| Actions.ColorHitsPrototype | backend/src/utils/batch.ts:36 | For `valueOf` the expression as written does not yield the fallback colour. |
| Actions.ColorAgrees | backend/src/utils/batch.ts:36 | Away from inherited names, the expression as written agrees with `Actions.Color`. |
| JsRecord.Get | backend/src/utils/batch.ts:23 | A key is found as an own entry exactly when the table has it, and as an inherited one exactly when it is missing and names an `Object.prototype` member. |
| JsRecord.GetOr | backend/src/utils/batch.ts:23 | `table[key] \|\| fallback` gives an own non-empty entry, gives the fallback for a missing key, and gives a non-string for an inherited name. |
| Lifecycle.CurrentStatus | frontend/src/components/modals/AddEventModal.tsx:28-29 | A batch with no latest event has status CREATED, a latest event with an action has that action as status, and the status is never empty. |
| Lifecycle.AvailableActions | frontend/src/components/modals/AddEventModal.tsx:27-61 | Only Distributors and Retailers are offered anything. At most three choices are offered, each a distinct known action with a caption, and never `CREATED` or `VERIFIED_ON_CHAIN`. |
| Lifecycle.Allowed | frontend/src/components/modals/AddEventModal.tsx:27-61 | The offered values are distinct known actions, never `CREATED`, and there are none exactly when the dialog shows "No Actions Available". |
| Lifecycle.AllowedMatchesTable | frontend/src/components/modals/AddEventModal.tsx:27-61 | The dialog's actions equal a lookup in an explicit transition table keyed by status, last actor role and requesting role. |
| Lifecycle.TableUnrolled | frontend/src/components/modals/AddEventModal.tsx:31-60 | The table lookup is the nested role/status choice of the dialog. |
| Lifecycle.LookUp | frontend/src/components/modals/AddEventModal.tsx:39-40 | A key that matches no table row yields no action. |
| Lifecycle.DistributorRules | frontend/src/components/modals/AddEventModal.tsx:31-41 | For a Distributor, CREATED allows only PICKED_UP, PICKED_UP only IN_TRANSIT, IN_TRANSIT only DELIVERED, and any other status nothing. |
| Lifecycle.RetailerRules | frontend/src/components/modals/AddEventModal.tsx:42-57 | For a Retailer, IN_TRANSIT allows only DELIVERED. DELIVERED allows PRICE_SET, QUALITY_CHECK and DELIVERED exactly when the last actor was a Distributor, and nothing otherwise. Every other status allows nothing. |
| Lifecycle.OtherRolesHaveNoActions | frontend/src/components/modals/AddEventModal.tsx:60 | Farmers and Consumers get no action and see the "No Actions Available" dialog. |
| Lifecycle.PriceAndQualityAreDeadEnds | frontend/src/components/modals/AddEventModal.tsx:39-40 | After PRICE_SET or QUALITY_CHECK no role has any action. |
| Lifecycle.NoEventsMeansCreated | frontend/src/components/modals/AddEventModal.tsx:28-34 | A batch with no events offers PICKED_UP to a Distributor and nothing to anyone else. |
| Lifecycle.DialogStepStaysReachable | frontend/src/components/modals/AddEventModal.tsx:27-61 | A step the dialog offers from a reachable state leads to a reachable state. |
| Lifecycle.ReceiveLandsInSold | frontend/src/components/modals/AddEventModal.tsx:44-54 | A Retailer's receive from IN_TRANSIT lands in DELIVERED-by-Retailer, where no action, PRICE_SET included, is offered. |
| Lifecycle.SubmittedDetails | frontend/src/components/modals/AddEventModal.tsx:69-75 | The details always hold `notes`, and hold `location`, `price` and `quality` exactly when those fields are non-empty, each with its field's value. |
| Dashboards.ListedLatestIsStoredLatest | frontend/src/components/dashboards/DistributorDashboard.tsx:40 | On the server's list, the event a dashboard reads as a batch's latest is the latest event stored for that batch. |
| Dashboards.AvailableIffDistributorCanAct | frontend/src/components/dashboards/DistributorDashboard.tsx:38-43 | A well-formed batch is in the "available" tab exactly when the Distributor's action list for it is non-empty. |
| Dashboards.EmptyActionDisagreement | frontend/src/components/dashboards/DistributorDashboard.tsx:41 | A batch whose only event has an empty action is not in "available", yet the dialog offers PICKED_UP for it. |
| Dashboards.DistributorListsRelate | frontend/src/components/dashboards/DistributorDashboard.tsx:38-57 | An in-transit batch is available, and a delivered batch is neither available nor in transit. |
| Dashboards.AvailableBatches | frontend/src/components/dashboards/DistributorDashboard.tsx:38-43 | The tab is an order-preserving subsequence holding exactly the batches with no event or a latest action of CREATED, PICKED_UP or IN_TRANSIT. |
| Dashboards.InTransitBatches | frontend/src/components/dashboards/DistributorDashboard.tsx:45-50 | The tab is an order-preserving subsequence holding exactly the batches whose latest action is IN_TRANSIT. |
| Dashboards.DeliveredBatches | frontend/src/components/dashboards/DistributorDashboard.tsx:52-57 | The tab is an order-preserving subsequence holding exactly the batches whose latest action is DELIVERED, by any role. |
| Dashboards.DistributorTabsRelate | frontend/src/components/dashboards/DistributorDashboard.tsx:38-57 | In transit is part of available, delivered is disjoint from both, and available plus delivered is at most the total. |
| Dashboards.DistributorFigures | frontend/src/components/dashboards/DistributorDashboard.tsx:84-120 | The four figures are the tab lengths and the list length. In transit is at most available, and available plus delivered is at most total handled. |
| Dashboards.RetailerListsMatchDialog | frontend/src/components/dashboards/RetailerDashboard.tsx:38-57 | Incoming batches offer the Retailer DELIVERED, inventory offers PRICE_SET, QUALITY_CHECK and DELIVERED, and sold offers nothing. The Retailer can act exactly on incoming or inventory batches. |
| Dashboards.IncomingBatches | frontend/src/components/dashboards/RetailerDashboard.tsx:38-43 | The tab is an order-preserving subsequence holding exactly the batches whose latest action is IN_TRANSIT. |
| Dashboards.InventoryBatches | frontend/src/components/dashboards/RetailerDashboard.tsx:45-50 | The tab is an order-preserving subsequence holding exactly the batches delivered by a Distributor. |
| Dashboards.SoldBatches | frontend/src/components/dashboards/RetailerDashboard.tsx:52-57 | The tab is an order-preserving subsequence holding exactly the batches delivered by a Retailer. |
| Dashboards.RetailerTabsPartition | frontend/src/components/dashboards/RetailerDashboard.tsx:38-57 | The three tabs are pairwise disjoint. Incoming together with inventory is exactly where the Retailer has actions, and sold batches have none. |
| Dashboards.RetailerCountsBounded | frontend/src/components/dashboards/RetailerDashboard.tsx:84-108 | The three tab counts add up to at most the number of batches. |
| Dashboards.FarmerFigures | frontend/src/components/dashboards/FarmerDashboard.tsx:67-92 | Total batches and QR codes both equal the number of batches. Active is at most total, and equals it when no batch has an event. |
| Dashboards.NoEventsAllActive | frontend/src/components/dashboards/FarmerDashboard.tsx:92 | Batches with no event all count as active. |
| Dashboards.FarmerCountsAddUp | frontend/src/components/dashboards/FarmerDashboard.tsx:92 | Active and delivered batches together are all the batches. |
| Dashboards.Search | frontend/src/components/dashboards/ConsumerDashboard.tsx:31-36 | The result is an order-preserving subsequence keeping exactly the batches whose lower-cased title, name or variety contains the lower-cased term. |
| Dashboards.SearchEmptyKeepsAll | frontend/src/components/dashboards/ConsumerDashboard.tsx:31-36 | An empty term keeps every batch. |
| Dashboards.SearchIgnoresCase | frontend/src/components/dashboards/ConsumerDashboard.tsx:32-35 | Lower-casing the term does not change the result. |
| Dashboards.SearchFindsByName | frontend/src/components/dashboards/ConsumerDashboard.tsx:34 | Searching for a batch's own name finds it. |
| Dashboards.VerifiedCount | frontend/src/components/dashboards/ConsumerDashboard.tsx:76 | The "blockchain verified" figure is at most the number of batches. It is 0 exactly when no batch carries a hash, and the whole list exactly when every batch does. |
| Dashboards.VerifiedIffHashed | frontend/src/components/dashboards/ConsumerDashboard.tsx:76 | A batch counts as verified exactly when the trust score's count of hashed events is positive for its events. |
| Dashboards.MatchesOwnFields | frontend/src/components/dashboards/ConsumerDashboard.tsx:31-36 | A batch's own title and name, and its variety when it has one, each find it in the search. |
| Dashboards.ListedViewsWellFormed | backend/src/routes/batches.ts:111-114 | Under the invariant, every batch in the server's list carries exactly one event, and none carries a hash. |
| Dashboards.ServerListPickupIff | frontend/src/components/dashboards/DistributorDashboard.tsx:38-43 | On the server's list, "available" coincides with the Distributor having an action. |
| Dashboards.ServerListNoneVerified | frontend/src/components/dashboards/ConsumerDashboard.tsx:76 | Under the invariant, the Consumer's verified count on the server's list is 0. |
| Trace.TrustScore | frontend/src/pages/TracePage.tsx:107-113 | The score is 0 exactly when there are no events. Otherwise it lies between 60 and 100, and is 100 from five events on. |
| Trace.TrustScoreWithoutHashes | frontend/src/pages/TracePage.tsx:109-112 | Without hashes the score is min(50 + 10·n, 100). |
| Trace.TrustScoreHashBonus | frontend/src/pages/TracePage.tsx:111 | One hashed event among one or two adds 20. |
| Trace.TrustScoreGrowsWithEvents | frontend/src/pages/TracePage.tsx:110 | Adding an event never lowers the score. |
| Trace.TrustScoreGrowsWithAnchoring | frontend/src/pages/TracePage.tsx:111 | Giving an event a hash never lowers the score. |
| Trace.StoredTimelineHasNoBonus | frontend/src/pages/TracePage.tsx:111 | Under the invariant, a stored timeline never earns the hash bonus. |
| Trace.CountAnchored | frontend/src/pages/TracePage.tsx:111 | Giving an event a non-empty hash never lowers the number of hashed events. |
| Trace.Spaced | frontend/src/pages/TracePage.tsx:104 | Every underscore becomes a space and every other character is kept. |
| Trace.EventTitle | frontend/src/pages/TracePage.tsx:94-105 | A known action gets its fixed title, and any other action gets its spaced form. |
| Trace.EventTitleAsWritten | frontend/src/pages/TracePage.tsx:104 | The expression as written returns the title or the spaced action, except for inherited names. |
| Trace.EventTitleHitsPrototype | frontend/src/pages/TracePage.tsx:104 | For `toString` and `constructor` the expression as written yields the inherited function. |
| Trace.EventTitleAgrees | frontend/src/pages/TracePage.tsx:104 | Away from inherited names, the expression as written agrees with `Trace.EventTitle`. |
| Trace.EventTitleHasNoUnderscore | frontend/src/pages/TracePage.tsx:94-105 | No title contains an underscore. |
| Trace.TraceKnowsTheVocabulary | frontend/src/pages/TracePage.tsx:95-103 | The page titles exactly the seven actions of the server's vocabulary. |
| Scanner.Run | frontend/src/pages/ScannerPage.tsx:56 | The run from a position covers only characters other than `/` and `?`, and stops at the first other character or at the end. |
| Scanner.MatchFrom | frontend/src/pages/ScannerPage.tsx:56 | The search finds nothing exactly when no position matches `/trace/` followed by an allowed character, and what it finds is path-safe. |
| Scanner.MatchHere | frontend/src/pages/ScannerPage.tsx:56-58 | When the pattern matches at the starting position, the search returns the run of path characters right after that `/trace/`. |
| Scanner.ExtractBatchId | frontend/src/pages/ScannerPage.tsx:54-59 | An id is extracted exactly when the pattern matches somewhere, and it is non-empty and free of `/` and `?`. |
| Scanner.ScanTarget | frontend/src/pages/ScannerPage.tsx:51-62 | The scanner goes to `/trace/` plus the extracted id, or plus the data unchanged when nothing matches. |
| Scanner.ManualTarget | frontend/src/pages/ScannerPage.tsx:64-69 | Whitespace-only input goes nowhere. Other input goes to `/trace/` plus the trimmed input. |
| Scanner.ManualTargetOfName | frontend/src/pages/ScannerPage.tsx:66-67 | A name without surrounding blanks is used as typed. |
| Scanner.ManualTargetIgnoresPadding | frontend/src/pages/ScannerPage.tsx:66-67 | Trimming before submitting changes nothing. |
| Scanner.ScanRecoversBatchId | frontend/src/pages/ScannerPage.tsx:56-59 | For an address that neither contains `/trace/` nor ends with `/trace`, scanning the trace link of a path-safe id extracts exactly that id. |
| Scanner.StraddleMeansTraceSuffix | frontend/src/pages/ScannerPage.tsx:56 | A match that starts inside the address and runs into the `/trace/` of the link forces the address to end with `/trace`. |
| Scanner.NoEarlyPrefix | frontend/src/pages/ScannerPage.tsx:56 | For an address that neither contains `/trace/` nor ends with `/trace`, no `/trace/` of the trace link starts inside the address. |
| Scanner.MatchAtAddressEnd | frontend/src/pages/ScannerPage.tsx:56 | In a trace link, the pattern matches right after the address and captures exactly the path-safe batch name. |
| Scanner.ScanMisreadsTraceSuffix | frontend/src/pages/ScannerPage.tsx:56-61 | For the address `h/trace`, the link of `FARM-1` sends the scanner to `/trace/trace`. |
| Scanner.MisreadLink | frontend/src/pages/ScannerPage.tsx:56-61 | The link `h/trace/trace/FARM-1` yields the id `trace`, so the scanner goes to `/trace/trace`. |
| Scanner.GeneratedNameIsPathSafe | backend/src/routes/batches.ts:37 | Generated batch names contain no `/` and no `?`. |
| Scanner.QrScanRoundTrip | frontend/src/pages/ScannerPage.tsx:51-62 | Scanning a QR image from `Qr.QrCode` (the link of backend/src/routes/qr.ts:20) leads to the trace page of the batch, under the address conditions above. |
| Carousel.JsRem | frontend/src/components/modals/BatchDetailModal.tsx:93 | JavaScript's `%` agrees with the mathematical remainder on non-negative operands and is non-positive on negative ones. |
| Carousel.NextImage | frontend/src/components/modals/BatchDetailModal.tsx:91-95 | With at most one image the index is unchanged. With more, from any non-negative index, the next index is (i + 1) mod n and lies in range. |
| Carousel.PrevImage | frontend/src/components/modals/BatchDetailModal.tsx:97-101 | With at most one image the index is unchanged. With more, from any index i ≥ 1 − n, the previous index is (i − 1 + n) mod n and lies in range. |
| Carousel.NextInRange | frontend/src/components/modals/BatchDetailModal.tsx:91-95 | From an index in range, next moves one step on, and from the last image it goes back to the first. |
| Carousel.PrevInRange | frontend/src/components/modals/BatchDetailModal.tsx:97-101 | From an index in range, previous moves one step back, and from the first image it goes to the last. |
| Carousel.PrevUndoesNext | frontend/src/components/modals/BatchDetailModal.tsx:91-101 | Going back after going forward restores the index. |
| Carousel.NextUndoesPrev | frontend/src/components/modals/BatchDetailModal.tsx:91-101 | Going forward after going back restores the index. |
| Carousel.ForwardWithinRound | frontend/src/components/modals/BatchDetailModal.tsx:93 | k steps forward, for k at most n, wrap around exactly once at the end. |
| Carousel.FullCircle | frontend/src/components/modals/BatchDetailModal.tsx:91-95 | n steps forward return to the start. |
| CreateForm.RemoveImage | frontend/src/components/modals/CreateBatchModal.tsx:81-83 | An index in range drops exactly that image and keeps the rest in order. Any other index changes nothing. |
| CreateForm.RemoveImageIsPositionFilter | frontend/src/components/modals/CreateBatchModal.tsx:82 | Removal is the position-by-position filter the dialog runs. |
| CreateForm.ShiftedFilter | frontend/src/components/modals/CreateBatchModal.tsx:82 | Filtering from a later starting position equals removing the correspondingly shifted index. |
| CreateForm.Urls | frontend/src/components/modals/CreateBatchModal.tsx:72 | The URLs are the uploaded entries' URLs, one per entry, in order. |
| CreateForm.AppendUploaded | frontend/src/components/modals/CreateBatchModal.tsx:72-73 | The uploaded URLs follow the existing images in order, so the old list is a prefix of the new one. |
| CreateForm.CreateBody | frontend/src/components/modals/CreateBatchModal.tsx:33-37 | The request carries every form field as given, the parsed quantity as a number, and the current image list, in order. |
| CreateForm.UntouchedFormRejected | frontend/src/components/modals/CreateBatchModal.tsx:14-22 | The initial form (unit `kg`, no images) is refused for its empty title. |
| Flows.VerifyDetails | frontend/src/components/modals/BatchDetailModal.tsx:55-58 | The verification event's details hold exactly the returned hash and explorer link. |
| Flows.VerifyOnChain | frontend/src/components/modals/BatchDetailModal.tsx:45-67 | A failed step stores nothing. A success adds exactly one transaction and one event. |
| Flows.VerifySucceedsIff | frontend/src/components/modals/BatchDetailModal.tsx:45-67 | The flow succeeds exactly when the name is non-empty, the batch exists and the drawn hash is new. If the submission fails, no event is appended. |
| Flows.VerifyRecordsTransaction | frontend/src/components/modals/BatchDetailModal.tsx:47-63 | The flow stores one pending CONSUMER_VERIFY transaction and then one VERIFIED_ON_CHAIN event by the caller. The event's details name that transaction and the event carries no hash. The refreshed list is the old one plus the event. |
| Flows.VerifyKeepsValid | frontend/src/components/modals/BatchDetailModal.tsx:45-63 | The flow keeps the invariant, and its answer is the listing of the store it leaves. |
| Flows.VerifyEarnsNoHashBonus | frontend/src/components/modals/BatchDetailModal.tsx:53-59 | The refreshed timeline's trust score is min(50 + 10·n, 100): verifying never earns the hash bonus. |
| Flows.CreateDialogImagesStored | frontend/src/components/modals/CreateBatchModal.tsx:33-37 | The images chosen in the creation dialog are the images the created batch is read back with. |
| Text.PadStart | backend/src/routes/batches.ts:37 | Padding reaches the width, keeps the text as a suffix and fills only with the pad character. |
| Text.DecimalRoundTrip | backend/src/routes/batches.ts:37 | Parsing a number's decimal digits gives the number back. |
| Text.LowerIdempotent | frontend/src/components/dashboards/ConsumerDashboard.tsx:33 | Lower-casing twice is lower-casing once. |
| Text.DecimalString | backend/src/routes/batches.ts:37 | The decimal form is non-empty, all digits, without a leading zero, and a single digit exactly below ten. |
| Text.TrimIdempotent | frontend/src/pages/ScannerPage.tsx:66 | Trimming twice is trimming once. |
| Text.ReplaceAll | frontend/src/pages/TracePage.tsx:104 | No occurrence of the replaced character is left when the replacement differs from it. Text without the character comes back unchanged, and every other character keeps its place. |
| Text.ReplaceAllUndo | frontend/src/pages/TracePage.tsx:104 | When the replacement character did not occur before, replacing back restores the text: `IN TRANSIT` reads back as `IN_TRANSIT`. |
| Text.ReplaceAllIdempotent | frontend/src/pages/TracePage.tsx:104 | Replacing twice is replacing once. |
| Text.Trim | frontend/src/pages/ScannerPage.tsx:66 | Trimming strips exactly the leading and trailing whitespace and keeps the middle. |
| Text.TrimEmptyIff | frontend/src/pages/ScannerPage.tsx:66 | The trimmed text is empty exactly when the input is all whitespace. |
| Text.Lower | frontend/src/components/dashboards/ConsumerDashboard.tsx:33 | Lower-casing maps each character and leaves no upper-case ASCII letter. |
| Text.Contains | frontend/src/components/dashboards/ConsumerDashboard.tsx:33 | `includes` holds exactly when the text occurs at some position. |

## Left out

- Express routing, HTTP status codes and the authentication middleware are reduced to error constructors. The role gate in front of farmer-only routes is `RoleDenied`, and a caught store exception is `Internal`. Prisma's `include`/`select` of related records (farmer, actor) is not modelled; the returned records are the stored ones.
- Prisma's unique constraints become explicit checks. A generated batch name already taken and a transaction hash already stored are refused as `Internal` errors, which is what the route's catch block answers.
- Record keys come from a counter, and time is a clock advanced by an `elapsed` parameter per write. Wall-clock `Date`, `getFullYear` and the 5 to 15 second timer delay are not modelled. The timer is the separate step `MockChain.TimerFire`, with its coin as a parameter. Real concurrency, including two creates racing for the same name, is not modelled.
- bcrypt, jsonwebtoken and zod's e-mail check are parameters (`hashed`, `verify`, `sign`, `isEmail`). Random hash digits and upload suffixes are input sequences.
- Request bodies arrive already decoded, with every field either absent or of the schema's type. Zod's type messages for a field of another type (such as "Expected number, received string") are not modelled. `parseInt` of the quantity enters `CreateForm.CreateBody` as an integer parameter, so its `NaN` case is not modelled. The price in `Lifecycle.SubmittedDetails` is kept as the text typed, without `parseFloat`. JSON serialisation of details and image lists is the identity.
- `new Date(text)` and its ISO serialisation, and the JSON text of a number, are the parameter `Batches.Builtins`. An Invalid Date is `None`, and the database refuses it with an internal error.
- Seed.InsertBatch: seed harvest dates are stored and reported as the seed file writes them, without the `Date` conversion the route applies (backend/src/routes/seed.ts:56). Seed quantities are natural numbers, reported in decimal.
- Ledger.ListEvents, Storage.LatestOf, Batches.ListBatches: the model orders by store position, which agrees with the timestamp order because the invariant keeps timestamps non-decreasing. With an `elapsed` of 0, two records share a timestamp. The database breaks such a tie in an unspecified order, whereas the model breaks it by insertion order.
- Strings are sequences of characters, not UTF-16 code units. `toLowerCase` is ASCII lower-casing, and `trim` uses the ASCII and common Unicode blanks only.
- `Upload.Extname` follows the last-dot rule with a hidden-file exception. Node's `path.extname` corner cases such as `..` are not modelled. Multer's disk storage, the 5 MB check on the streamed body, and the file-delete route (backend/src/routes/upload.ts:95-111, pure filesystem) are left out. A multer error is `UploadRejected` carrying multer's own message. The application's error handler (backend/src/index.ts:43-46) answers every such error with 500 "Internal server error", and the model does not repeat that last mapping.
- QR image rendering and its failure path are left to the QR library. `Qr.QrCode` states the encoded text and headers only.
- Seed.SeedDemo: an insert that fails part-way leaves the records stored so far, as the route does (no transaction). Seed user roles must parse to one of the four roles, whereas the route casts them unchecked and the database rejects others. The CLI script `backend/src/seed.ts` repeats the route's loop and is not modelled separately.
- The client's React state, `alert`, `window.open`, loading flags and the list refresh after a dialog closes are not modelled. `Flows.VerifyOnChain` chains the three requests of the detail dialog. The trace page's verify button, which only submits a transaction (frontend/src/pages/TracePage.tsx:51-66), is `MockChain.Submit` with action `CONSUMER_VERIFY`.
- Icon and colour maps in TracePage.tsx and BatchDetailModal.tsx, BatchCard.tsx labels, and the dialog's option labels are lookups without behaviour. The labels in `Lifecycle.AvailableActions` are kept; only their being non-empty is stated.
- Two listings with no write in between are equal because `Ledger.ListEvents` is a function of the store. No separate lemma states it.

## Findings

| source | as written | input that shows it | evidently intended | confidence | as-written member | corrected member |
|---|---|---|---|---|---|---|
| backend/src/utils/batch.ts:23 | `actionMap[action] \|\| action` looks the action up on an object literal, so names inherited from `Object.prototype` are found | action `"toString"` yields the inherited function instead of the string `"toString"` | an action without an own entry is returned unchanged | medium, not executed | Actions.DisplayNameHitsPrototype | Actions.DisplayName |
| backend/src/utils/batch.ts:36 | `colorMap[action] \|\| "bg-gray-100 text-gray-800"` on an object literal | action `"valueOf"` yields the inherited function instead of the grey fallback | any action without an own entry gets the grey fallback | medium, not executed | Actions.ColorHitsPrototype | Actions.Color |
| frontend/src/pages/TracePage.tsx:104 | `titleMap[action] \|\| action.replace(/_/g, " ")` on an object literal | action `"constructor"` yields the `Object` constructor instead of the title `"constructor"` | an action without an own entry is shown with underscores replaced by spaces | medium, not executed | Trace.EventTitleHitsPrototype | Trace.EventTitle |
