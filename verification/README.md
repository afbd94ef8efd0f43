# A verified model of yca and its ACME frontend

yca is a small certificate authority: a two-tier CA whose store is a SQLite file
plus a directory of published artifacts, and an ACME server that validates domain
control and asks the CA to issue. This project models the parts of both whose
correctness rests on many steps fitting together, and proves properties of every
run of them. Check it with `dafny verify dfyconfig.toml`.

## The frontend

- **Orders, authorizations, challenges** (`AcmeTables`, `AcmeProtocol`,
  `AcmeInvariant`, `AcmeSteps`). Every request and every garbage collection in
  flight is a thread with a program counter and the values it has read; one step is
  one SQL statement. The claims are guarded updates and the status writes are not,
  so one global invariant records who can still write what. `AcmeSafety`,
  `AcmeStatus` and `AcmeSchedules` draw the conclusions; `AcmeBound` shows that the
  bound on requests to the CA is reached. `AcmeEndToEnd` carries the contents of the
  requests along, from the identifiers asked for to the names in the certificate, with
  the CA's store (`Issuance`) beside the frontend; `AcmeCompletes` builds runs of it.
  `AcmeOrphans` adds newOrder requests that fail between two inserts.
  `AcmeHandlers` holds the database as an object
  with the statements as methods, the handlers that call them in order, and the
  proof that a handler nobody interrupts is a run of the same steps.
- **Names** (`Hostnames`, `Names`): from the identifiers of newOrder, through the
  CSR check of finalize, to the names in the leaf.
- **Replay nonces** (`ReplayNonces`), **accounts and credentials**
  (`Registration`, `KeyChanges`), **renewal information** (`Ari`).

## The CA

- **The store** (`CaStore`): generations, certificate index, published files, and
  the commands, each with the points where it may stop between a file and a commit.
  `CaLineage` proves numbering, names, statuses and published files; `CaCrl` what
  each CRL carries; `CaRaces` when reads made before the write lock are harmless, of
  `revoke --cn`, `add` and `refresh`; `CaOutcomes` when each command succeeds in a run
  and what it then leaves, row by row and file by file; `CaCommands` the commands as
  methods that update the store in place.
- **Issuance** (`Issuance`): the renewal window, the look-up by name and the enrollment
  nonces under concurrent `create` and `sign`.
- **Configuration** (`Config`), its stored columns (`PolicyCodec`), and the chain
  walk (`IssuerWalk`).

Histories (`History`, `printed`, `keys`, `firsts` and the like) record the past for
the theorems; no step reads them.

## Where a promise does not hold as written

- The comment on `ClaimOrder` (acme/db.go:436-438) says that of concurrent finalizes
  exactly one issues. It does, per "ready" write. But "ready" is written without a
  guard (acme/challenge.go:182-193), so an order with two or more authorizations can be
  made ready again after a finalize and be sent to the CA again: at most once per
  identifier, which `BoundIsReached` shows is sharp. (A second request within the CA's
  renewal window is refused there; `Issuance` models that check.)
  `AtMostOnceExactlyForOneName` gives the exact condition, and
  `UninterruptedIssuesOnce` shows that running acme/challenge.go:179-194 as one step
  would be enough.
- For the same reason an order keeps to its status machine (section 7.1.6 of RFC 8555)
  in every run exactly when it has one identifier
  (`FollowsItsMachineExactlyForOneName`; `ProcessingGoesBack` is the run). Step by
  step, it leaves the machine exactly by a write of "ready", or of a finalize's
  outcome, that finds it elsewhere (`LeavesItsMachineExactlyWhen`).
- The key update (acme/db.go:378-385) does not look at the old key, so a key change need
  not replace the key that signed it. It does in every run exactly when no two changes
  of an account lie between check and write at the same time
  (`ChainExactlyWhenSerial`; `TwoChangesOverlap` is a run with two). One change meets
  its signer's key exactly when no other of that account landed since its check, unless
  the account went back to that key (`ReplacesItsSignerExactlyWhen`).
- A finalize signs with one command and fetches with another, by common name
  (acme/finalize.go:84-94); what it stores is the newest live certificate of that name
  (src/ca.cpp:598-609 and 2758). That is the one signed exactly when, at the fetch, it
  is live and no successor of it is (`FetchGetsTheSignedExactlyWhen`), and before its own
  renewal window exactly when it is not revoked (`EarlyFetchExactlyUnrevoked`). Otherwise
  the order becomes valid with another certificate of the name: `AnOlderOneCanBeServed`
  is a run with a revocation in between, `AYoungerOneCanBeServed` one with a renewal.
  Only the common name is then sure to be a proved identifier (`CommonNameWasProved`).
- With `--valid`, three certificates of one name and profile can be active at once;
  `ThreeLiveExactlyWhen` says for which lifetimes. One lifetime gives at most two.
- `digits_apart` (src/config.cpp:100-110) also refuses prefixes that cannot collide,
  those whose extra digits start with zero (`CollideExactlyWhen`).
- `revoke --cn` (src/ca.cpp:2253 and 2322) looks its certificate up twice, and the entry
  reaches the CRL of the certificate's issuer exactly when both lookups found
  certificates of one issuer or that CRL listed it already (`ByNameLandsExactlyWhen`).
  `LookupsDisagree` is a run in which they do not: `init`, `create`, first lookup,
  `renew signing-ca`, `create`, second lookup. By serial the two are one.
- `add` (src/ca.cpp:1431) records generations before it checks the new name; that is
  harmless exactly when no new section bears the name of a generation
  (`BackfillIsHarmlessExactlyWhen`). `BackfillCanDouble` reaches the other case by
  `init`, `renew signing-ca` and a file with such a section.
- `refresh` (src/ca.cpp:2540-2595) collects its jobs before the write lock. It re-signs
  the CRLs of the live, unexpired generations in scope exactly when no job has been
  revoked or has expired in between and no other such generation was added
  (`RefreshesTheLiveExactlyWhen`). `RefreshSignsARevokedOne` is a run in which it re-signs
  the CRL of a revoked one.
- `add` does not compare the file with the sections the store has locked. It leaves the
  published certificates alone exactly when no generation has the new section's slug
  (`AddSparesFilesExactlyWhen`).

## Assumptions

Random ids, nonces and serials do not repeat. Distinct keys have distinct key
identifiers. The machines of `AcmeProtocol`, `AcmeEndToEnd`, `ReplayNonces`,
`Registration`, `KeyChanges` and `Issuance` have a clock that does not go back, since
their `Tick` takes a natural number. The clock of the CA store may go back; of its
theorems, `RefreshesTheLiveExactlyWhen` asks that it has not between collection and
write, `CrlClosedForm` that the CRLs since the revocation are dated in order, and
`ForwardRunsDateInOrder` is about runs whose clock goes forward. The verdicts of
validators and of signature checks are inputs, and so are the failures of statements and
commands. `AcmeEndToEnd` lets any other command run between the two of a finalize,
although the frontend itself runs one at a time. In `AcmeOrphans` the ids of a failed
newOrder, which nobody is told, are named by no request. In the runs of the CA store the
file `add` reads repeats the locked sections. Root ceremonies and revocations do not
overlap each other, though each may stop half-way; leaf issuance and refreshes overlap
them freely.

## Model

| member | source | states |
|---|---|---|
| AcmeSteps.NextKeeps | acme/challenge.go:142-194 | every statement of every handler, interleaved with all others and with collections, keeps the invariant on who may still write which status |
| AcmeSafety.IssuancesBounded | acme/finalize.go:179-215 | in every interleaving an order is sent to the CA no more often than it is claimed, claimed no more often than it is made ready, and made ready at most once per identifier |
| AcmeSafety.SingleIdentifierIssuesOnce | acme/db.go:436-449 | an order for one identifier is sent to the CA at most once |
| AcmeSafety.ProofOfControl | acme/challenge.go:166-193 | an order that is ready, processing or valid has one authorization per identifier and no other, each valid, for that very name, and backed by the only challenge ever tried for it, by DNS for a wildcard; also between the deletes of a collection |
| AcmeSafety.RowsHoldTheirNames | acme/order.go:112-119 | in every run an authorization carries its own identifier without the wildcard label, a flag for that label, and its order's account and expiry |
| AcmeSafety.NewOrderAddsItsRows | acme/order.go:98-146 | the step of a newOrder adds a pending order for a day, one pending authorization of each name by its own base and flag, their challenges, by DNS alone for a wildcard, and nothing else |
| AcmeSafety.UnexpiredOrdersStay | acme/db.go:594-617 | in every run an order that has not been expired for a day is still there after any step, with its authorizations and challenges |
| AcmeSafety.CollectionAlone | acme/db.go:594-617 | a collection run alone leaves exactly the orders and authorizations that have not been expired for a day, and the challenges of those authorizations |
| AcmeSafety.ValidOrderHasItsCertificate | acme/finalize.go:209-230 | a valid order names a certificate stored for that very order |
| AcmeSafety.DecidedOnce | acme/db.go:530-548 | at most one challenge of an authorization ever leaves "pending", and an authorization is decided at most once |
| AcmeSafety.InvalidAuthorizationBlocksOrder | acme/challenge.go:166-176 | once one authorization of an order is invalid, the order is never ready, processing or valid again, whatever else runs |
| AcmeStatus.ChallengesAndAuthzsFollowTheirMachines | acme/challenge.go:142-178 | every step of every run moves challenges and authorizations along the machines of section 7.1.6 of RFC 8555, never back |
| AcmeStatus.OrderFollowsItsMachine | acme/challenge.go:179-194 | an order made ready at most once so far follows the order machine of section 7.1.6 of RFC 8555 (the two rows on when it is left are LeavesItsMachineExactlyWhen and FollowsItsMachineExactlyForOneName) |
| AcmeStatus.LeavesItsMachineExactlyWhen | acme/db.go:429-434 | no step of any run takes an order off that machine but a write of "ready" that finds it processing, valid or invalid, of "valid" that finds it neither processing nor valid, or of "invalid" that finds it valid; the failure write of acme/challenge.go:166-176 never does |
| AcmeSchedules.SingleIdentifierFollowsItsMachine | acme/challenge.go:179-194 | an order for one identifier follows the order machine in every run |
| AcmeSchedules.UninterruptedIssuesOnce | acme/challenge.go:179-194 | if the reading of the authorizations and the write of "ready" were one step, every order would be made ready, claimed and sent to the CA at most once |
| AcmeBound.BoundIsReached | acme/challenge.go:182-193 | for any duplicate-free list of names some run sends the order to the CA once per name |
| AcmeBound.AtMostOnceExactlyForOneName | acme/challenge.go:182-193 | no run sends an order to the CA twice exactly when it has one identifier |
| AcmeBound.FollowsItsMachineExactlyForOneName | acme/challenge.go:179-194 | every step of every run moves an order for these names along the order machine exactly when there is one name |
| AcmeBound.ProcessingGoesBack | acme/challenge.go:182-193 | for two or more names some run writes "ready" to the order while it is processing |
| AcmeEndToEnd.ValidOrderEndToEnd | acme/finalize.go:110-230 | over every interleaving with other commands of the CA, the certificate signed for a valid order carries, case aside, exactly its identifiers and no SAN of another type; each is a host name the account's policy allowed, with its valid authorization and the one challenge that proved it; the certificate served has the same common name and is the one signed exactly when that stood at the fetch |
| AcmeEndToEnd.EveryNameWasProved | acme/finalize.go:147-175 | if the signed certificate stood at the fetch, every DNS name in the certificate served is, in lower case, an identifier whose control was proved |
| AcmeEndToEnd.CommonNameWasProved | acme/finalize.go:84-98 | whichever certificate is served, its common name is an identifier whose control was proved |
| AcmeEndToEnd.FetchGetsTheSignedExactlyWhen | acme/finalize.go:92-98 | in every run the fetch gets the certificate just signed exactly when that is live and without a live successor |
| AcmeEndToEnd.EarlyFetchExactlyUnrevoked | src/ca.cpp:645-666 | a fetch before the signed certificate's own renewal window gets it exactly when it is not revoked |
| AcmeCompletes.EveryCheckedOrderCanBeIssued | acme/finalize.go:110-230 | for every list of identifiers newOrder accepts and every CSR that finalize and the CA accept for it, some run ends with a valid order that serves a certificate of exactly those names |
| AcmeCompletes.AnOlderOneCanBeServed | acme/finalize.go:84-98 | for the same requests and any names beside the common name, a run with a revocation between `sign` and the fetch that serves an older certificate with those names |
| AcmeCompletes.AYoungerOneCanBeServed | acme/finalize.go:84-98 | and a run with the end of a short certificate's life and a renewal in between that serves a younger one |
| AcmeOrphans.FailuresStandApart | acme/order.go:98-146 | every run with newOrder requests that fail between two inserts is a run without them, beside rows of theirs that only collections touch |
| AcmeOrphans.FailedOrderStaysPending | acme/order.go:98-146 | the order of a request that failed between two inserts is never ready and never sent to the CA, and none of its authorizations is decided |
| AcmeOrphans.ProofOfControlStands | acme/challenge.go:166-193 | the proof of control of a promoted order's identifiers stands with such requests around |
| AcmeHandlers.Database.ClaimChallenge | acme/db.go:530-548 | claims exactly when the challenge and the authorization are pending and no sibling was tried; moves that row to processing and nothing else |
| AcmeHandlers.Database.ClaimOrder | acme/db.go:436-449 | claims exactly when the order is ready and unexpired; moves that row to processing and nothing else |
| AcmeHandlers.Database.WriteOrderStatus | acme/db.go:429-434 | an unguarded update of one order's status and certificate |
| AcmeHandlers.Database.WriteAuthzStatus | acme/db.go:507-511 | an unguarded update of one authorization's status |
| AcmeHandlers.Database.WriteChallengeStatus | acme/db.go:586-592 | an unguarded update of one challenge's status |
| AcmeHandlers.Database.AuthzsByOrder | acme/db.go:485-505 | exactly the authorizations whose row names the order |
| AcmeHandlers.Database.InsertAuthz | acme/order.go:112-146 | one pending authorization of that name, by its base and a flag, and one pending challenge per type on offer; or, if an insert fails, some of these rows |
| AcmeHandlers.Database.Gc | acme/db.go:594-617 | exactly the orders and authorizations that expire at or after the cutoff stay, and exactly the challenges whose authorization does |
| AcmeHandlers.HandleNewOrder | acme/order.go:50-150 | accepts exactly when every identifier passes its checks; then adds the order, for 86400 seconds, with the names at their first occurrence, exactly one authorization of each by its own base and flag, and their challenges, or some of these rows if an insert fails; else changes nothing |
| AcmeHandlers.HandleChallenge | acme/challenge.go:123-196 | what one uninterrupted request leaves in the tables, for either verdict and whichever of its statements fail |
| AcmeHandlers.ChallengeEffectMeans | acme/challenge.go:123-196 | column by column: an accepted request decides its challenge and its authorization by the verdict, and makes the order ready exactly when every authorization is then valid, or invalid on a refusal; any other changes nothing |
| AcmeHandlers.HandleFinalize | acme/finalize.go:110-233 | what one uninterrupted finalize leaves in the tables, for a command of the CA that fails, before or after it signed, a certificate stored and one that could not be, and an outcome written or not |
| AcmeHandlers.ChallengeHandlerIsItsSteps | acme/challenge.go:123-196 | the handler run alone has the effect of its steps in the interleaved machine, failed statements included |
| AcmeHandlers.FinalizeHandlerIsItsSteps | acme/finalize.go:110-233 | the handler run alone has the effect of its steps in the interleaved machine, failed statements included |
| Hostnames.ScanMeaning | src/util.cpp:84-106 | the running label length accepts a suffix exactly when each of its labels is well formed |
| Hostnames.HostNameMeans | src/util.cpp:84-106 | a well-formed host name in terms of positions: 1 to 253 characters, and between any two dots next to each other 1 to 63 letters, digits and hyphens with no hyphen at either end |
| Hostnames.DnsNameMeans | src/util.cpp:108-117 | and, for the CA, something other than a digit after the last dot |
| Hostnames.ValidHostname | src/util.cpp:84-106 | the one-pass scan accepts exactly the names of 1 to 253 characters whose labels are all well formed |
| Hostnames.DnsSafe | src/util.cpp:108-117 | accepts exactly the host names, with or without one wildcard label, whose last label is not all digits |
| Hostnames.HostSafe | acme/order.go:253-271 | the split-based check accepts exactly those in lower case |
| Hostnames.ScannersAgree | src/util.cpp:84-117 | on lower-case names without a wildcard label the CA and the frontend accept the same names |
| Hostnames.FrontendNamesPassTheCa | acme/order.go:253-271 | the CA accepts every name the frontend accepts, with a wildcard label or without |
| Names.Allowed | acme/account.go:154-178 | a name is allowed exactly when the policy is empty or some pattern names it or covers it by suffix; nothing is without a credential |
| Names.AllowedMeans | acme/account.go:154-178 | for any policy and name: no policy refuses, an empty one allows, and otherwise some pattern is the name or `*.` and a parent of it |
| Names.FirstOccurrences | acme/order.go:66-96 | the names of an order are the lower-cased identifiers, each once |
| Names.FirstOccurrencesKeepOrder | acme/order.go:92-95 | and they come in the order of their first occurrences |
| Names.NamesOfOrder | acme/order.go:57-96 | accepts exactly when no identifier is refused, and otherwise answers with the first refusal; lower case is Go's, with the two letters beyond ASCII that it maps into it |
| Names.CheckMeans | acme/order.go:57-91 | which identifier is refused for what: not a host name, another type or a wildcard without dns-01, not allowed by the policy |
| Names.SameSet | acme/finalize.go:263-273 | equal sizes, and every wanted name among those given |
| Names.SameSetIsEquality | acme/finalize.go:263-273 | that comparison is set equality for every request exactly when the order lists no name twice |
| Names.FinalizeAccepts | acme/finalize.go:147-175 | accepts exactly when there is no SAN of another type, a CN is among the identifiers, and the names pass the comparison |
| Names.FinalizeTestMeans | acme/finalize.go:147-175 | for an order without a repeated name: no other SAN type, and the names of the CSR in lower case, its CN among them, are exactly the identifiers |
| Names.LeafFor | src/ca.cpp:2022-2113 | succeeds exactly for CSRs with at most one CN and one URI, a CN or a DNS name, well-formed DNS names and mail addresses, and the subject the profile asks for; the CN is the one given or the DNS name that sorts first, and the leaf carries every mail, IP and URI name of the CSR, its DNS names, and beside them at most the CN, exactly for a server profile |
| Names.CaAcceptsMeans | src/ca.cpp:2022-2104 | which requests the CA accepts, for every profile, in terms of the characters and counts of their names |
| Names.LeafOfMeans | src/ca.cpp:2078-2113 | what the leaf of an accepted request carries, field by field, for every profile |
| Names.LeafCarriesTheOrder | src/ca.cpp:2078-2113 | a CSR that finalize and the CA both accept gives a server leaf that carries, case aside, exactly the identifiers of the order, and no other SAN type |
| ReplayNonces.TrimLeavesRoom | acme/db.go:156-161 | the trim leaves fewer rows than the cap, whatever rowids are in use |
| ReplayNonces.StatementsMean | acme/db.go:150-165 | what each of the three statements leaves of the table it finds, with the clock read once more before the insert |
| ReplayNonces.TableIsBounded | acme/db.go:150-165 | C requests issuing nonces at once leave at most 9999 + C rows, so one at a time at most 10000 |
| ReplayNonces.TrimmedAreOvertaken | acme/db.go:156-161 | in every run, although rowids are reused, a nonce that a trim removed has at least 9999 later insertions |
| ReplayNonces.ExpiredAreOverage | acme/db.go:152-155 | in every run, a nonce removed by its age was issued more than 1800 seconds ago |
| ReplayNonces.TrimTakesTheOldest | acme/db.go:156-161 | of a table holding the last 10000 rows the trim removes the oldest alone |
| ReplayNonces.AcceptedAtMostOnce | acme/jws.go:96-108 | only issued nonces are accepted, each at most once in every interleaving (section 6.5 of RFC 8555) |
| ReplayNonces.UnusedNonceIsAccepted | acme/jws.go:96-108 | an unused nonce no older than 1800 seconds and not overtaken by 9999 others is accepted |
| ReplayNonces.NonceStore.IssueNonce | acme/db.go:150-165 | keeps of the rows young enough those within the last 9999 rowids, and inserts under one past the largest unless the value is there; at most 10000 rows remain |
| ReplayNonces.NonceStore.ConsumeNonce | acme/db.go:167-175 | true exactly when the nonce was there; every row but its own stays |
| Registration.Store.InsertAccountEAB | acme/db.go:307-351 | one transaction: registered exactly for a known credential that is reusable or unbound, without an expiry or before it, when neither id nor thumbprint is taken; else neither table changes and the true reason is given, expired exactly when the expiry is set and has come |
| Registration.Store.AccountByThumbprint | acme/db.go:353-370 | finds an account exactly when some account has the thumbprint |
| Registration.Store.SetAccountKey | acme/db.go:378-385 | replaces the account's key, or nothing when another account holds the thumbprint |
| Registration.Store.HandleNewAccount | acme/account.go:40-113 | a held key gets its account back; otherwise the credential decides, and a refusal changes nothing |
| Registration.Store.HandleKeyChange | acme/keychange.go:24-125 | rolls the key over exactly when the signer holds the account, names its key, and nobody holds the new one |
| Registration.SingleUseNamesItsAccount | acme/db.go:307-351 | over all concurrent registrations, deactivations and key changes a single-use credential is bound to an account exactly when that account was registered with it |
| Registration.SingleUseHasOneAccount | acme/db.go:307-351 | a single-use credential never has two accounts, even once it is withdrawn |
| Registration.AdmittedInTime | acme/db.go:317-320 | in every run the credential an account was registered with has no expiry or one after the account was created |
| Registration.VerdictMeans | acme/db.go:307-351 | the answer to a registration against the columns of the credential and the accounts, case by case |
| Registration.AdmissionNeedsACredential | acme/db.go:307-351 | an account that a step of any run adds has a credential known, free or reusable and unexpired at that step, which the step binds if it is single-use, and a thumbprint nobody had |
| Registration.ThumbprintsAreUnique | acme/keychange.go:85-122 | no two accounts share a thumbprint, and each stored thumbprint is that of the stored key |
| Registration.AccountsPersist | acme/account.go:116-151 | from every reachable state on, an account is never removed, never changes credential, and once deactivated stays so |
| Registration.DeactivationIsFinal | acme/jws.go:145-148 | in every run, after a deactivation no request authenticates for the account, whatever key signs it |
| Registration.DeactivationTakesEffect | acme/account.go:116-151 | a deactivation asks for an active account under the signer's key, and its write turns that account off and nothing else |
| Registration.OnlyHoldersChangeKeys | acme/keychange.go:71-83 | every key an account got after its first was asked for with a key it had before |
| KeyChanges.ReplacesItsSignerExactlyWhen | acme/keychange.go:71-122 | a change about to be written finds its signer's key in place exactly when no other change of the account landed since its check, unless the account went back to a key with that thumbprint |
| KeyChanges.SerialRunsChain | acme/keychange.go:71-122 | in a run where changes of one account do not overlap, each key was asked for with the key right before it |
| KeyChanges.OvertakenChangeLands | acme/db.go:378-385 | of two key changes checked against one key both land, the second although its signer no longer holds the account |
| KeyChanges.TwoChangesOverlap | acme/db.go:378-385 | a run from an empty store, with at most two requests in flight, that writes a key over one that did not sign for it |
| KeyChanges.ChainExactlyWhenSerial | acme/keychange.go:71-122 | every change replaces the key that signed it, in all runs with at most n changes of an account overlapping, exactly when n is at most 1 (section 7.3.5 of RFC 8555) |
| Issuance.Store.BlockingDuplicate | src/ca.cpp:645-666 | refuses exactly when an active, unexpired certificate of the name and profile has more than 33% of its life left |
| Issuance.Store.GetNonce | src/ca.cpp:1932-1984 | prints the pending nonce while 20% of its time and a minute are left, and else a new one for five minutes; what it prints is acceptable, with a minute or more to go |
| Issuance.Store.Commit | src/ca.cpp:2185-2212 | under the lock, issues and spends the nonce exactly when both checks pass, and otherwise changes nothing |
| Issuance.PassesMeans | src/ca.cpp:2185-2212 | a request passes exactly with its identity's pending nonce, in time, while every unrevoked certificate of its name and profile is expired or has at most 33% of its life left |
| Issuance.CommitMeans | src/ca.cpp:2185-2212 | a commit that passes adds one certificate dated as it signs and spends its nonce, if it has one; any other adds and spends nothing |
| Issuance.BeginsExactlyWhen | src/ca.cpp:1790-1835 | a command gets as far as the lock exactly with a life of five minutes or more when the same checks pass without it |
| Issuance.OneOutsideTheWindow | src/ca.cpp:1790-1835 | with any number of concurrent issuers, at every moment at most one active unexpired certificate of a name and profile has more than 33% of its life left |
| Issuance.ThreeLiveExactlyWhen | src/ca.cpp:649-660 | three certificates of a name and profile can be active and unexpired together exactly for lifetimes of the first two that leave room for both waits |
| Issuance.EqualLifetimesOverlapTwice | src/ca.cpp:649-660 | with one lifetime at most two are active and unexpired together |
| Issuance.LiveBeginInOrder | src/ca.cpp:645-666 | the renewal window makes live certificates of one name and profile begin in the order they were issued |
| Issuance.LookupFindsExactlyWhen | src/ca.cpp:598-609 | in every run, what the look-up by name and profile finds is a given certificate exactly when that is live and has no live successor |
| Issuance.OutsideTheWindowExactlyUnrevoked | src/ca.cpp:645-666 | for a certificate with more than its renewal window to go, exactly when it is not revoked |
| Issuance.NonceSpentOnce | src/ca.cpp:2146-2212 | in every interleaving of unlocked and locked checks a nonce pays for at most one certificate, checked within 300 seconds of being drawn |
| Issuance.RotatesOnlyAtTheEnd | src/ca.cpp:1955-1984 | a pending nonce is printed again while 60 seconds or more are left and is replaced otherwise |
| Issuance.PrintedNonceLastsAMinute | src/ca.cpp:1955-1984 | whatever runs meanwhile, a nonce just printed is accepted for another 60 seconds unless spent or rotated |
| Ari.RenewalWindow | acme/ari.go:96-108 | the window runs from 33% to 10% of the lifetime before expiry, to the nanosecond, or from now when the certificate must be replaced |
| Ari.OverflowsExactlyWhen | acme/ari.go:105-107 | the 64-bit product is exact for lifetimes up to 279496122 seconds, beyond every ceiling of the configuration, and for no longer one |
| Ari.WindowMeetsPolicy | acme/ari.go:104-122 | the first second at which the CA stops refusing is the published start or the next second, and before the published end (section 4.2 of RFC 9773) |
| Ari.DerIntRoundTrip | acme/ari.go:35-46 | the serial's octets read back as the serial in two's complement, and none could be dropped |
| Ari.QuadMeans | acme/ari.go:53-54 | four base64url characters are the digits of the number that three octets write |
| Ari.Base64RoundTrip | acme/ari.go:53-54 | unpadded base64url is undone by decoding |
| Ari.AriIdIsInjective | acme/ari.go:48-55 | an identifier names one issuer key and one serial |
| Config.AreDigitsApart | src/config.cpp:100-110 | true exactly when the second prefix is the first plus digits |
| Config.CollideExactlyWhen | src/config.cpp:100-110 | two prefixes have generations of the same slug exactly when one is the other plus digits not starting with zero |
| Config.SlugsNeverCollide | src/config.cpp:499-535 | in a configuration the loader accepts no two generations of any CAs share a slug |
| Config.CheckSharedNames | src/config.cpp:499-535 | the cross-CA checks find no fault exactly for names claimed once, profiles claimed once, and prefixes that stay apart |
| Config.CaForProfile | src/config.cpp:119-125 | the CA that lists a profile, the only one when profiles are claimed once |
| Config.CaPolicies | src/config.cpp:127-135 | exactly the policies of the listed profiles, each once, in the order of profiles and lists |
| PolicyCodec.JoinProfiles | src/ca.cpp:721-729 | the items joined by commas, with none before the first non-empty one |
| PolicyCodec.SplitProfiles | src/ca.cpp:731-741 | the fields between commas, less an empty last one |
| PolicyCodec.JoinPolicies | src/ca.cpp:743-754 | the entries key=list joined by semicolons |
| PolicyCodec.SplitPolicies | src/ca.cpp:756-771 | each entry split at its first equals sign, later keys replacing earlier ones |
| PolicyCodec.ColumnsLookLike | src/ca.cpp:721-754 | the columns of a list of two and of a map of two |
| PolicyCodec.ListRoundTripsExactlyWhen | src/ca.cpp:721-741 | splitting undoes joining exactly for lists without the separator in an item and with neither end empty |
| PolicyCodec.JoiningUndoesSplitting | src/ca.cpp:731-741 | for every string: the fields, with the separators between them, are the string but for a separator at its end |
| PolicyCodec.PoliciesRoundTrip | src/ca.cpp:743-771 | in whatever order the keys are written, splitting gives back every map whose keys and lists are free of the separators |
| PolicyCodec.LoadPolicies | src/config.cpp:413-457 | accepts exactly the tables whose keys are profiles of the CA and whose lists hold distinct object identifiers other than anyPolicy, and then keeps every list as written |
| PolicyCodec.LoadedPoliciesRoundTrip | src/ca.cpp:743-771 | every policy map the loader accepts comes back from its column unchanged |
| CaLineage.GenerationsAreNumbered | src/ca.cpp:1505-1543 | in every run the generations of a created CA are 1 to n, n is active and no other is |
| CaLineage.FilesMatchTheIndex | src/ca.cpp:1240-1250 | in every run, interrupted ceremonies included, the files under a generation's slug hold its indexed certificate, and no other generation has that slug |
| CaLineage.IssuerNameFindsTheSigner | src/ca.cpp:1282-1290 | generation names stay distinct, so the issuer name of a leaf finds the generation that issued it after any number of rotations |
| CaLineage.LeavesComeFromTheActive | src/ca.cpp:1756-1762 | a leaf's generation is the one that was active when its command began, whatever ran before it committed |
| CaLineage.GenerationsOnlyAge | src/ca.cpp:1529-1543 | from every reachable state on, no generation disappears, changes name or slug, or comes nearer to active |
| CaLineage.GenerationsMove | src/ca.cpp:1529-1543 | in every run a step retires an active generation, revokes a retired one, or leaves its status alone; none goes from active to revoked at once |
| CaLineage.OtherPurposesUntouched | src/ca.cpp:2474-2486 | a command about one CA leaves the generations and files of every other untouched |
| CaOutcomes.RevocableExactlyWhen | src/ca.cpp:598-620 | in every run a leaf is revoked by serial exactly when it is indexed, not revoked and not expired; its issuer's files are always there |
| CaOutcomes.RevocationTakesEffect | src/ca.cpp:2241-2353 | in every run a completed revocation marks that row alone and puts it on the next CRL of the generation of the leaf's issuer, which is then current |
| CaOutcomes.CaRevocableExactlyWhen | src/ca.cpp:2395-2435 | in every run a generation is revoked by name exactly when a successor has retired it |
| CaOutcomes.CaRevocationTakesEffect | src/ca.cpp:2456-2486 | in every run a completed one marks that generation and its certificate alone and lists the certificate on the root's next CRL |
| CaOutcomes.RenewableExactlyWhen | src/ca.cpp:1478-1505 | in every run a renewal is accepted exactly for a locked CA other than the root and a name no generation bears; the active generation and the root's certificate are always there |
| CaOutcomes.RenewalTakesEffect | src/ca.cpp:1505-1543 | in every run a completed renewal makes the generation after the active one active, with a certificate from now for its life, issued by the active root, and its three files, retires the one before, changes nothing else, and a refresh takes the new generation up |
| CaOutcomes.AddableExactlyWhen | src/ca.cpp:1406-1431 | in every run a CA is added exactly for a section not yet locked, under a name no generation bears and a prefix apart from the locked ones |
| CaOutcomes.AdditionTakesEffect | src/ca.cpp:1431-1470 | a completed addition does the same for generation 1 |
| CaOutcomes.NewCaNamesTheRoot | src/ca.cpp:1229-1240 | in every run the certificate of a ceremony names an active root of the index and that root's key |
| CaOutcomes.CertsAreDated | src/ca.cpp:1229-1240 | in every run no certificate ends before it begins |
| CaOutcomes.InitMeans | src/ca.cpp:1051-1180 | the store init leaves, section by section: an active generation 1 under a certificate from now for its life, signed by the root, its two copies and an empty CRL |
| CaCrl.CrlClosedForm | src/ca.cpp:355-384 | a certificate revoked with CRL r is on a later CRL exactly when its notAfter is at or after the date of the one before, and on all from its first attempt to r (section 3.3 of RFC 5280) |
| CaCrl.ForwardRunsDateInOrder | src/ca.cpp:2330-2341 | with a clock that does not go back, CRLs are dated in the order they are issued |
| CaCrl.DroppedAfterExpiry | src/ca.cpp:361-384 | in every run, whatever the clock does, a CRL without a revoked certificate comes after one dated past its expiry that carried it |
| CaCrl.RevokedIsListed | src/ca.cpp:2316-2353 | with a crash allowed between CRL and commit, every certificate the index calls revoked is on its issuer's current CRL, or one dated past its expiry carried it |
| CaCrl.NothingElseIsListed | src/ca.cpp:2259-2277 | a CRL carries only certificates issued by its own generation for which a revocation was begun |
| CaCrl.InterruptedRevocation | src/ca.cpp:2339-2353 | a revocation stopped after its CRL leaves the index alone and the CRL ahead, and can be repeated |
| CaCrl.RefreshFindsItsJobs | src/ca.cpp:2540-2573 | in every run a refresh finds all its files when it collects, and its jobs are the generations in scope that are neither revoked nor expired then |
| CaCrl.RefreshFrames | src/ca.cpp:2598-2612 | a refresh gives each CRL it writes the next number and the same entries less the prunable, and changes nothing else |
| CaCrl.NumbersRise | src/ca.cpp:2330-2341 | along every run a generation's CRLs are numbered 1, 2, 3 and so on, and none is ever replaced by a lower one |
| CaRaces.ByNameLandsExactlyWhen | src/ca.cpp:2253-2353 | for what the lookup finds before the lock and, any steps later, under it, the entry is on the issuer's CRL exactly when both were issued by one generation or it was listed already |
| CaRaces.LookupsDisagree | src/ca.cpp:2241-2353 | a run of init, create, renewal and create, the first certificate in its renewal window, after which `revoke --cn` calls a certificate revoked that its issuer's CRL does not list |
| CaRaces.BackfillIsHarmlessExactlyWhen | src/ca.cpp:166-207 | recording declared generations keeps names distinct, and is then no change at all, exactly when no new section bears the name of a generation |
| CaRaces.BackfillCanDouble | src/ca.cpp:166-207 | a run of init and renewal, and a file that repeats the locked sections with distinct names and prefixes, for which two generations get one name |
| CaRaces.RefreshesTheLiveExactlyWhen | src/ca.cpp:2540-2612 | whatever runs between the collection of its jobs and its writes, a refresh re-signs the CRLs of its jobs, and these are the live unexpired generations in scope exactly when no job was revoked or expired meanwhile and no other was added |
| CaRaces.RevokedIsRefreshed | src/ca.cpp:2540-2612 | any retired generation revoked in between gets another CRL all the same |
| CaRaces.RefreshSignsARevokedOne | src/ca.cpp:2540-2612 | a run of init, renewal, collection, `revoke ca` and refresh that re-signs the CRL of a revoked generation |
| CaCommands.ReachableIsSearchable | src/ca.cpp:209-259 | in every run at most one generation has a name, a slug, or the active place of a purpose |
| CaCommands.Store.FindByCn | src/ca.cpp:209-221 | the signing generation of a name, if there is one |
| CaCommands.Store.FindActive | src/ca.cpp:247-259 | the active generation of a purpose, if there is one |
| CaCommands.Store.PruneCrlEntries | src/ca.cpp:361-384 | the entries in order, less those of revoked rows that expired before the given date |
| CaCommands.Store.ReissueCrl | src/ca.cpp:2599-2607 | appends to one slug's CRLs the next number with the pruned entries and the new ones, and changes no other file |
| CaCommands.Store.Revoke | src/ca.cpp:2221-2353 | succeeds exactly for an indexed, unrevoked leaf with its notAfter after now whose issuer's files are there; then marks that row and lists it on the issuer's next CRL, and changes nothing else |
| CaCommands.Store.RevokeCa | src/ca.cpp:2365-2486 | refuses the root, the active generation and one already revoked; else lists its certificate on the root's next CRL, marks row and generation, and changes nothing else |
| CaCommands.Store.WriteCaArtifacts | src/ca.cpp:1041-1049 | the three files of one slug, with the CRL history starting anew |
| CaCommands.Store.RecordGeneration | src/ca.cpp:1521-1543 | the certificate is indexed, the incumbents of that purpose retire, the new generation is active |
| CaCommands.Store.RenewSigningCa | src/ca.cpp:1478-1543 | refuses a taken name and an unknown purpose; else leaves the next generation active, under a certificate from now for its life, issued by the root, with its three files, and the one before retired |
| CaCommands.Store.AddSigningCa | src/ca.cpp:1406-1470 | refuses exactly a purpose the store holds, a taken name and a missing root; else leaves generation 1 of the new CA active, under a certificate from now for its life with its three files, whatever the file's other sections say |
| CaCommands.AddSparesFilesExactlyWhen | src/ca.cpp:1406-1470 | in every run, adding a CA leaves every published CA certificate alone exactly when no generation has the new slug; a file that repeats the locked sections always does |
| CaCommands.Store.CollectJobs | src/ca.cpp:2540-2573 | fails exactly when a live generation in scope lacks a file; else finds those not expired |
| CaCommands.Store.RefreshCrls | src/ca.cpp:2540-2612 | gives the CRL of every job the next number, this date and the entries not yet due to go, once, in whatever order, and changes nothing else |
| IssuerWalk.IssuersAbove | src/ca.cpp:695-717 | terminates on any index and computes the walk |
| IssuerWalk.WalkIsAChain | src/ca.cpp:686-717 | the chain has no duplicate, no self-signed certificate, and each next one is the lowest fingerprint with the key its predecessor names |
| IssuerWalk.WalkIsMaximal | src/ca.cpp:700-716 | the chain ends only where no further issuer can be added |
| IssuerWalk.LeafChainIsItsIssuer | src/ca.cpp:695-717 | in every run the chain above a leaf is just the certificate of the generation that issued it |

## Left out

- Signatures, X.509 and DER encoding, tokens and keys, HTTP, JSON, DNS and process plumbing: inputs or not modelled.
- AcmeProtocol.Next: a newOrder that succeeds is one step, because its ids reach the client only at the end.
- AcmeSafety.ProofOfControl: says that the challenge row itself is valid only while no ignored status write has failed.
- Columns that carry messages and times for display (`error`, `validated`, contacts, certificate chains), and the account's order list.
- Names.LeafFor: takes the check of URI names as a set of those that pass.
- PolicyCodec.LoadPolicies: takes which strings are object identifiers as a set, and lines of other types as reported before.
- ReplayNonces.UnusedNonceIsAccepted: claims no limit on the age of an accepted nonce, as consumption does not look at it.
- SQLite itself, with its locks, limits on rowids, and schema repair.
- CaStore: the check that a certificate does not outlive its issuer, secrets and key look-ups, and the legacy store without a generation index.
- CaStore.Init: the first ceremony is taken as completed; one that stops before its files are written is reported by the program and not modelled.
- CaCommands.Store.AddSigningCa: takes the recording of declared generations to have found nothing to record; CaRaces gives the exact condition.
- CaStore.Next: issuing does not check for duplicates again; Issuance models that check on its own.
- CaLineage.OtherPurposesUntouched: a revocation of a CA generation writes the root's CRL, which counts as touching the root.
- Reading TOML, the error texts of the loader, and its checks within one section.
- Listing, formatting, permissions, the load seeder, `find`, and of `get` all but the look-up by name and the chain walk.
- The retry hint of renewal information and the acceleration of an issuer beyond its window.
