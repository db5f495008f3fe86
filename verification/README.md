# TrickyStoreOSS in Dafny

TrickyStoreOSS stands between apps and Android's keystore. A native hook rewrites the buffer binder
transactions arrive in, so that the calls of some targets go to a stub; the stub asks a Kotlin
interceptor before and after each call; and the interceptors of keystore2 and of its security
levels answer from, or keep up to date, a set of shared maps that says who answers for the
certificate response of each (uid, alias): the module's own forged key, a re-signed copy of the real
keystore's response, the real keystore itself ("passthrough"), or nobody in particular. Forged keys
survive a restart in a directory of hand-encoded files, are metered by a usage counter, appear in
listings, and report the patch levels configured in `security_patch.txt`.

The project models these parts and proves what holds of them in every run.

| part | files |
|---|---|
| shared maps as a value, hooks as functions on it | `Ownership`, `Hooks`, `PkgConfig` |
| the classes that hold the maps and the hooks that update them in place | `CertificateAliasCache`, `KeystoreInterceptors` |
| what each call answers and leaves | `HookOutcomes`, `OperationOutcomes`, `CallOutcomes`, `AttestedLevels` |
| safety over runs of hooks | `OwnershipInvariant`, `Reads`, `Grants`, `Locality`, `ForgedKeys` |
| persistence: codec, streams, files, queue, restarts | `KeyData`, `DataStreams`, `RecordCodec`, `PersistenceManager`, `DiskRefinement`, `KeyDirectory`, `Restarts`, `Removal` |
| native stream rewriting and dispatch | `BinderStream`, `BinderLayout`, `StubDispatch` |
| wire protocol and interposition | `Parcels`, `InterceptorWire`, `NativeInterceptor`, `EntryReply` |
| software operations | `UsageCounter`, `Lifetimes` |
| attestation rewrite, listings, configuration | `StableSort`, `CertificateHack`, `ListMerge`, `Text`, `PatchLevels` |
| inputs on which the code falls short | `Shortfalls` |
| shared vocabulary | `Common` |

## How the model is built

Each hook is a function from the state and its inputs to the new state and its reply; a run is a
sequence of hooks in any order, so pre- and post-hooks of different transactions interleave freely.
The classes hold the same maps in fields, and every method is proved to do what its function says,
on its whole new state, and so to keep the ownership invariant. The real keystore's replies, parsing
outcomes of its replies, key generation, re-signing, random numbers, the package manager and the
clock are inputs of a step, unconstrained but for the assumptions below.

Assumptions, each a `requires` of the lemmas that need it:

- random nspaces and grant ids are nonzero, fresh, and outside the numbers the real keystore uses
  (`Allowed`, with `local` the set they come from);
- the response of a forged key can be built (`Allowed`): the ownership invariant rests on it, and
  `StoreKeepsExactly` shows that nothing less will do;
- libbinder dispatches in stream order and reads again only when the stream is used up (the
  transitions of `StubDispatch`), and nothing but a redirected transaction carries the stub's cookie
  (`Genuine`; `StrayCallStealsOrigin` shows what would happen);
- a key directory read at start-up was written by this program, its nspaces distinct (`WellFiled`);
  across restarts this is proved (`FiledIsWellFiled`), from draws that repeat no number on disk or in
  use before and from stored metadata that unmarshals to what was stored (`Deposits`);
- a usage-limited operation opened on a key without a counter carries that key's limit (`FairRun`), as
  every operation an owner opens by alias or forged nspace does (`OwnerIsFair`);
- the public exponent of a generateKey request is a 64-bit number (`Requestable`).

## Where the code falls short of what it is for

Some natural claims are false of the code. The code is kept as it is; for each claim the lemma named
first states exactly when it holds, and the one from `Shortfalls` gives an input on which it fails.

- A plain AUTO caller is never served a cached response: false where a hook asks for its mode before
  its packages are looked up (`PlainAutoExactly`; `FirstGrantReadIsServed` for the grant shortcut,
  `ForgottenPackagesAreServed` for the post-hook).
- A read in explicit leaf mode returns the re-signed entry: the reply's header is read a second time
  past its end, so no well-formed entry is ever reached, nothing is re-signed and the caller gets the
  real reply (`ResignsExactly` with `SecondHeaderExactly`; `WellFormedStaysReal` for every
  well-formed reply, `ReadsKeepCoherence` for runs).
- A forged key keeps the maps consistent: false if building its response throws, after index entry
  and key pair are written (`StoreKeepsExactly`; `UnbuiltResponseDangles`).
- Grants of a forged key to one grantee share one id: false if a forwarded grant call finishes after
  the key was forged and granted (`UniqueThroughoutExactly`; `InterleavedGrantsCollide`). As whole
  transactions they do (`ForgedGrantsStayUnique`).
- After a forwarded update the old certificates are gone: false through a grant, which clears the
  caller's own alias and leaves the owner's response (`ForwardedUpdateDrops`;
  `GrantedUpdateLeavesStale`).
- Every forged key survives a restart: false for an alias of more than 65535 encoded bytes
  (`MemoryIsLoadable`; `LongAliasIsNotSaved`) and if a keybox is loaded just before start-up, which
  wipes the files start-up restores from (`StartUpBehindClearAll`; `KeyboxBeforeStartUpWipes`).
- A key that is forged no more is not forged again by a restart: false if the real keystore generated
  it anew in leaf mode, or updated it, since its file stays (`RemainsExactly`; `ReplacedKeyReturns`). A
  key that was deleted, imported, passed through or rejected stays away (`RemovedStaysRemoved`).
- The uses of a stored key stay within its limit: false if one of its operations finishes after the
  key was cleared, which starts the count again, or forged anew, which charges the new key instead;
  and once it is restored after use, which gives it its whole limit again (`KeptThroughoutExactly` for
  the accounts over a run, `ExceedsExactly` for the call that goes over; `DeletedKeyIsUsedAgain`,
  `OldOperationSpendsNewKey`, `RestartRefills`). No limit is safe from this
  (`EveryLimitCanBeExceeded`); without it every limit is kept (`LifetimeWithinLimitExactly`).
- The key an operation uses is the one it is metered on: false through a grant, where it is metered
  on the key of the alias given beside it, if any, and for the nspace of a key that is not forged
  beside the alias of one that is (`MeteredBySourceExactly`; `MeteredOnAnotherKey`). A restored key
  can so take its first count from another key's limit (`BalancedThroughoutExactly`;
  `RestoredKeyBorrowsLimit` after `BothComeFromARun`).
- The two rewrites of a patch level agree: false if the tag is missing or repeated
  (`RewritesAgreeExactly`; `MissingTagDisagrees`).
- A target is transacted at most once: false if the interceptor is lost after the target answered
  (`TransactedExactly`; `LostInterceptorRepeatsCall`).

## Model

| member | source | states |
|---|---|---|
| `OwnershipInvariant.RunKeepsInvariant` | app/src/main/java/io/github/beakthoven/TrickyStoreOSS/interceptors/CertificateAliasCache.kt:33-45 | After any interleaving of hooks: forged keys are neither patched nor passed through, key pairs and skip marks belong to forged keys, every grant has its key's uid and a key that still answers, no index entry dangles, and each forged key is indexed under exactly its own nspace |
| `OwnershipInvariant.StepKeepsInvariant` | app/src/main/java/io/github/beakthoven/TrickyStoreOSS/interceptors/Keystore2Interceptor.kt:102-372 | Every single pre- or post-hook, from any state with the invariant, leaves it |
| `OwnershipInvariant.PatchLeafKeeps` | app/src/main/java/io/github/beakthoven/TrickyStoreOSS/interceptors/Keystore2Interceptor.kt:607-638 | A re-signed reply is stored for the key its nspace is indexed under, which is never a forged one; without such a key, or without re-signing, nothing changes |
| `OwnershipInvariant.ClearKeeps` | app/src/main/java/io/github/beakthoven/TrickyStoreOSS/interceptors/CertificateAliasCache.kt:114-133 | Clearing a key leaves no entry, grant or index that mentions it, and the invariant |
| `OwnershipInvariant.StoreKeepsExactly` | app/src/main/java/io/github/beakthoven/TrickyStoreOSS/interceptors/SecurityLevelInterceptor.kt:546-553 | A store keeps the invariant exactly when its response can be built: if that throws, index entry and key pair stay behind |
| `OwnershipInvariant.OtherMarksIrrelevant` | app/src/main/java/io/github/beakthoven/TrickyStoreOSS/interceptors/SecurityLevelInterceptor.kt:416-476 | Every hook commutes with adding pending passthrough marks of other security levels, so what is proved of one level's object holds with all of them |
| `Reads.PlainAutoReadsReal` | app/src/main/java/io/github/beakthoven/TrickyStoreOSS/interceptors/Keystore2Interceptor.kt:256-332 | A caller that is plain AUTO in both hooks, and already at entry, never gets a cached or re-signed reply, grant reads included, in any state |
| `Reads.PlainAutoExactly` | app/src/main/java/io/github/beakthoven/TrickyStoreOSS/config/Config.kt:158-247 | Computed from target.txt, with the package cache as each hook finds it: such a caller is answered from the cache exactly when a hook asks for its mode before anything has looked its packages up and finds a cached response, the grant shortcut in the pre-hook or, the packages forgotten in between, the post-hook |
| `Reads.CallerIsolation` | app/src/main/java/io/github/beakthoven/TrickyStoreOSS/interceptors/CertificateAliasCache.kt:64-98 | On every pre- and post-hook path, a reply from the cache of K is K's own response, and its receiver is K's uid or the grantee of a live grant for K with GET_INFO |
| `Reads.StepFrame` | app/src/main/java/io/github/beakthoven/TrickyStoreOSS/interceptors/CertificateAliasCache.kt:114-161 | A step leaves the forged entry, key pair, skip mark, re-signed response and tracking of a key alone unless the step is about that key |
| `Reads.ForgedReadCoherence` | app/src/main/java/io/github/beakthoven/TrickyStoreOSS/interceptors/SecurityLevelInterceptor.kt:546-572 | After a forge, every later read by the owner by alias in ! mode returns the metadata generateKey returned, through any run on other keys |
| `Reads.LeafForwardReadCoherence` | app/src/main/java/io/github/beakthoven/TrickyStoreOSS/interceptors/SecurityLevelInterceptor.kt:486-517 | The same for leaf-forward in ? mode, a read that re-signs a reply with this key's nspace counting as a step on this key |
| `Reads.PassthroughIsSticky` | app/src/main/java/io/github/beakthoven/TrickyStoreOSS/interceptors/SecurityLevelInterceptor.kt:436-476 | From a successful passthrough until a step that untracks the key, its owner's reads by alias return the real reply unmodified and change nothing |
| `Reads.ForwardedUpdateDrops` | app/src/main/java/io/github/beakthoven/TrickyStoreOSS/interceptors/Keystore2Interceptor.kt:137-182 | A forwarded update drops the cached response of the updated key exactly when the caller owns it: through a grant the owner's stale response stays |
| `Locality.EndingIsLocal` | app/src/main/java/io/github/beakthoven/TrickyStoreOSS/interceptors/CertificateAliasCache.kt:114-161 | Clearing, invalidating, cleaning up and relinquishing a key each leave every other key's entries, tracking, numbers, grants and usage counter as they were |
| `Locality.CleanupIsComplete` | app/src/main/java/io/github/beakthoven/TrickyStoreOSS/interceptors/CertificateAliasCache.kt:157-161 | Cleaning up leaves nothing of the key itself and no number that points to it |
| `Locality.IndexLocalExactly` | app/src/main/java/io/github/beakthoven/TrickyStoreOSS/interceptors/CertificateAliasCache.kt:115-133 | On arbitrary maps the other keys' index survives exactly when the entry under the ended key's response nspace is its own, as the invariant has it |
| `Locality.ResolveAgrees` | app/src/main/java/io/github/beakthoven/TrickyStoreOSS/interceptors/PassthroughKeyRegistry.kt:41-50 | The two-map lookup is lookup in a plain set of keys with their nspaces, no nspace being in two |
| `Locality.RegistryUpdatesAgree` | app/src/main/java/io/github/beakthoven/TrickyStoreOSS/interceptors/PassthroughKeyRegistry.kt:20-32 | promote adds the key and moves the nspace to it; remove takes the key with all its nspaces |
| `Locality.ForgottenNumbers` | app/src/test/java/io/github/beakthoven/TrickyStoreOSS/interceptors/CertificateAliasOwnershipTest.kt:147-170 | A key removed and promoted again without a number no longer resolves by its old one |
| `Grants.ForgedGrantsStayUnique` | app/src/main/java/io/github/beakthoven/TrickyStoreOSS/interceptors/Keystore2Interceptor.kt:184-226 | With grant calls as whole transactions, every reachable state has at most one grant id per forged key and grantee |
| `Grants.ForgedGrant` | app/src/main/java/io/github/beakthoven/TrickyStoreOSS/interceptors/Keystore2Interceptor.kt:184-226 | A grant on a forged key keeps the id it had, replaces the access vector and touches no other grant |
| `Grants.Ungrant` | app/src/main/java/io/github/beakthoven/TrickyStoreOSS/interceptors/Keystore2Interceptor.kt:228-254 | After ungrant the pair has no grant and every other grant is as before |
| `Grants.GrantPostUniqueExactly` | app/src/main/java/io/github/beakthoven/TrickyStoreOSS/interceptors/Keystore2Interceptor.kt:524-540 | A recorded real grant leaves at most one id per forged key and grantee exactly when the key is not forged or the grantee has no other grant of it |
| `Grants.UniqueThroughoutExactly` | app/src/main/java/io/github/beakthoven/TrickyStoreOSS/interceptors/Keystore2Interceptor.kt:184-226 | Over every run in which the halves of grant calls and all other hooks interleave freely, grants of forged keys stay unique in every state exactly when no post-hook of the run records a second one |
| `HookOutcomes.ResolvesExactly` | app/src/main/java/io/github/beakthoven/TrickyStoreOSS/interceptors/CertificateAliasCache.kt:88-98 | A descriptor resolves to an own key by its indexed number, else by its alias, and by nothing else |
| `HookOutcomes.LeadsExactly` | app/src/main/java/io/github/beakthoven/TrickyStoreOSS/interceptors/CertificateAliasCache.kt:64-76 | A lookup in any of the maps finds the first entry by own number, then by grant, then by alias |
| `HookOutcomes.PassesThroughExactly` | app/src/main/java/io/github/beakthoven/TrickyStoreOSS/interceptors/PassthroughKeyRegistry.kt:41-50 | A descriptor is passed through exactly when one of these ways, or a tracked number, leads to a tracked key |
| `HookOutcomes.UnacceptableExactly` | app/src/main/java/io/github/beakthoven/TrickyStoreOSS/interceptors/SecurityLevelInterceptor.kt:171-207 | A generateKey request is refused for the first of: too long a challenge, a creation date, device ids without permission; without an alias it goes on; nothing changes |
| `HookOutcomes.PassthroughKeyIsReal` | app/src/main/java/io/github/beakthoven/TrickyStoreOSS/interceptors/SecurityLevelInterceptor.kt:299-322 | Over pre-hook, an answering keystore and post-hook: an intercepted caller that neither forges nor asks for leaf certificates gets the real key, which is tracked and indexed afterwards |
| `HookOutcomes.LeafKeyIsResigned` | app/src/main/java/io/github/beakthoven/TrickyStoreOSS/interceptors/GenerateKeyRoute.kt:70-88 | In explicit leaf mode it gets the real key's number with the re-signed certificates, and they are held for it |
| `HookOutcomes.ForwardingPrepares` | app/src/main/java/io/github/beakthoven/TrickyStoreOSS/interceptors/SecurityLevelInterceptor.kt:299-334 | Before the real keystore is asked: a passthrough key is marked and its synthetic state cleared in memory, a leaf key only loses its skip mark |
| `HookOutcomes.UnwritableKeyIsReal` | app/src/main/java/io/github/beakthoven/TrickyStoreOSS/interceptors/SecurityLevelInterceptor.kt:486-517 | If the re-signed chain cannot be put into the reply the caller gets the real key, and nothing older is held for it |
| `HookOutcomes.AttestedKeyIsForged` | app/src/main/java/io/github/beakthoven/TrickyStoreOSS/interceptors/SecurityLevelInterceptor.kt:219-298 | A forging caller that asks for an attested asymmetric key gets the forged one, stored in every map, with a skip mark exactly if it is intercepted too |
| `HookOutcomes.OrdinaryKeyIsForwarded` | app/src/main/java/io/github/beakthoven/TrickyStoreOSS/interceptors/SecurityLevelInterceptor.kt:219-266 | Symmetric keys and keys without any attestation request go to the real keystore untouched |
| `HookOutcomes.NoTargetNoTrace` | app/src/main/java/io/github/beakthoven/TrickyStoreOSS/interceptors/SecurityLevelInterceptor.kt:278-356 | A caller that is no target, or for which no pair can be made, leaves no trace |
| `HookOutcomes.FailedGenerationLeavesNothing` | app/src/main/java/io/github/beakthoven/TrickyStoreOSS/interceptors/SecurityLevelInterceptor.kt:427-491 | A failed generation, or one without a readable chain, takes back its mark and nothing else |
| `HookOutcomes.UpdateNeedsPermission` | app/src/main/java/io/github/beakthoven/TrickyStoreOSS/interceptors/Keystore2Interceptor.kt:146-152 | Through a grant without the UPDATE bit an update is refused and changes nothing |
| `HookOutcomes.UpdateOfForged` | app/src/main/java/io/github/beakthoven/TrickyStoreOSS/interceptors/Keystore2Interceptor.kt:146-162 | By number, by alias, or through a grant with the bit, an update of a forged key succeeds and replaces exactly that key's certificates |
| `HookOutcomes.UpdateOfReal` | app/src/main/java/io/github/beakthoven/TrickyStoreOSS/interceptors/Keystore2Interceptor.kt:163-176 | An update of any other own key is forwarded; afterwards nothing synthetic nor tracked is left of it |
| `HookOutcomes.UpdateThroughRealGrant` | app/src/main/java/io/github/beakthoven/TrickyStoreOSS/interceptors/Keystore2Interceptor.kt:163-176 | Through a real grant of a re-signed key an update is forwarded and drops what is held under that alias for the caller itself |
| `HookOutcomes.UpdateOfResigned` | app/src/main/java/io/github/beakthoven/TrickyStoreOSS/interceptors/CertificateAliasCache.kt:100-111 | Certificates of a re-signed response are replaced, number and authorizations kept |
| `HookOutcomes.UpdateEnds` | app/src/main/java/io/github/beakthoven/TrickyStoreOSS/interceptors/Keystore2Interceptor.kt:499-522 | A successful update ends what is held for the key of the alias, or of the number if there is no alias, and for no other |
| `HookOutcomes.UpdateOfNothing` | app/src/main/java/io/github/beakthoven/TrickyStoreOSS/interceptors/Keystore2Interceptor.kt:137-182 | An update that leads to no key is forwarded and changes nothing |
| `HookOutcomes.DeleteAnswers` | app/src/main/java/io/github/beakthoven/TrickyStoreOSS/interceptors/Keystore2Interceptor.kt:110-135 | A deletion is answered at once exactly for a forged key without a skip mark, and else goes on |
| `HookOutcomes.GrantAnswers` | app/src/main/java/io/github/beakthoven/TrickyStoreOSS/interceptors/Keystore2Interceptor.kt:184-226 | A forged key is granted with the caller as owner, a re-signed one by the real keystore, any other not here |
| `HookOutcomes.RealGrantIsRecorded` | app/src/main/java/io/github/beakthoven/TrickyStoreOSS/interceptors/Keystore2Interceptor.kt:524-540 | A grant the real keystore made is recorded as made exactly if the key answers for certificates |
| `HookOutcomes.UngrantAnswers` | app/src/main/java/io/github/beakthoven/TrickyStoreOSS/interceptors/Keystore2Interceptor.kt:228-254 | An ungrant of a forged key succeeds here, of any other goes on; exactly that grantee's grants of the key are gone |
| `HookOutcomes.NothingToGrant` | app/src/main/java/io/github/beakthoven/TrickyStoreOSS/interceptors/Keystore2Interceptor.kt:184-254 | A descriptor that names no own key is left to the real keystore by all three hooks |
| `HookOutcomes.GrantReadAnswers` | app/src/main/java/io/github/beakthoven/TrickyStoreOSS/interceptors/Keystore2Interceptor.kt:266-290 | A grant read without GET_INFO is refused; with it a grantee not plain AUTO at entry is served what is held for the granted key |
| `HookOutcomes.ForgingReadAnswers` | app/src/main/java/io/github/beakthoven/TrickyStoreOSS/interceptors/Keystore2Interceptor.kt:292-312 | A forging caller reads past the hooks if the key is passed through, else what is held, else the real keystore's entry untouched |
| `HookOutcomes.StrangerReadAnswers` | app/src/main/java/io/github/beakthoven/TrickyStoreOSS/interceptors/Keystore2Interceptor.kt:352-366 | A caller that is no target reads what was forged for it, else the real entry untouched |
| `HookOutcomes.HackingReadAnswers` | app/src/main/java/io/github/beakthoven/TrickyStoreOSS/interceptors/Keystore2Interceptor.kt:313-351 | Any other caller goes on, unless it is owed a forged response under a skip mark or a re-signed one without |
| `HookOutcomes.HistoryIsRejected` | app/src/main/java/io/github/beakthoven/TrickyStoreOSS/interceptors/GetKeyEntryCurrentModeAuthority.kt:33-50 | A plain AUTO read of a name with historical responses clears that name |
| `HookOutcomes.RealReadAnswers` | app/src/main/java/io/github/beakthoven/TrickyStoreOSS/interceptors/GetKeyEntryPostPolicy.kt:30-38 | Once the real keystore has answered: passed through, plain AUTO, and untracked reads without a cached response return as they came |
| `HookOutcomes.HeldReadAnswers` | app/src/main/java/io/github/beakthoven/TrickyStoreOSS/interceptors/Keystore2Interceptor.kt:588-606 | Others are answered from the own re-signed response, or else the forged one |
| `HookOutcomes.LeafReadAnswers` | app/src/main/java/io/github/beakthoven/TrickyStoreOSS/interceptors/Keystore2Interceptor.kt:607-638 | And the rest with the re-signed entry, under the entry's own number, if its chain can be re-signed |
| `OperationOutcomes.OpensExactly` | app/src/main/java/io/github/beakthoven/TrickyStoreOSS/interceptors/SecurityLevelInterceptor.kt:357-400 | An operation is opened exactly for a descriptor that leads to a forged key, unless forced, unauthorized, without engine or used up; it carries that key's limit and store |
| `OperationOutcomes.CallsReach` | app/src/main/java/io/github/beakthoven/TrickyStoreOSS/interceptors/SoftwareOperationBinder.kt:202-261 | The engine sees exactly the calls of an open operation within the size limit; any other fails for its own reason |
| `OperationOutcomes.EndsExactly` | app/src/main/java/io/github/beakthoven/TrickyStoreOSS/interceptors/SoftwareOperationBinder.kt:202-248 | A finish that reached the engine and a failing updateAad end an operation for good; a failing update does not |
| `CertificateAliasCaches.CertificateAliasCache.ClearSyntheticCertificateState` | app/src/main/java/io/github/beakthoven/TrickyStoreOSS/interceptors/CertificateAliasCache.kt:114-133 | The in-place removal from the maps, and its delete job, is exactly the clearing the invariants are proved of |
| `CertificateAliasCaches.CertificateAliasCache.ResolveKey` | app/src/main/java/io/github/beakthoven/TrickyStoreOSS/interceptors/CertificateAliasCache.kt:88-98 | Looks up index, then alias, of the caller's own keys |
| `CertificateAliasCaches.CertificateAliasCache.InvalidateCertificateResponseState` | app/src/main/java/io/github/beakthoven/TrickyStoreOSS/interceptors/CertificateAliasCache.kt:146-155 | Whole new state: synthetic state cleared and passthrough ownership given up |
| `CertificateAliasCaches.CertificateAliasCache.CleanupAll` | app/src/main/java/io/github/beakthoven/TrickyStoreOSS/interceptors/CertificateAliasCache.kt:163-174 | Whole new state: all maps and the registry empty, a clear job queued |
| `CertificateAliasCaches.CertificateAliasCache.UpdateKeyCertChain` | app/src/main/java/io/github/beakthoven/TrickyStoreOSS/interceptors/CertificateAliasCache.kt:100-111 | Whole new state: the certificates of the key's forged and re-signed response change, its skip mark goes, all else stays |
| `CertificateAliasCaches.PassthroughKeyRegistry.Promote` | app/src/main/java/io/github/beakthoven/TrickyStoreOSS/interceptors/PassthroughKeyRegistry.kt:20-26 | Whole new registry after promotion |
| `CertificateAliasCaches.PassthroughKeyRegistry.Resolve` | app/src/main/java/io/github/beakthoven/TrickyStoreOSS/interceptors/PassthroughKeyRegistry.kt:41-50 | An own key under the nspace first, else the tracked alias |
| `KeystoreInterceptors.Keystore2Interceptor.GetKeyEntryPre` | app/src/main/java/io/github/beakthoven/TrickyStoreOSS/interceptors/Keystore2Interceptor.kt:256-372 | The read pre-hook over the shared objects: reply and whole new state as in the step machine |
| `KeystoreInterceptors.Keystore2Interceptor.GetKeyEntryPost` | app/src/main/java/io/github/beakthoven/TrickyStoreOSS/interceptors/Keystore2Interceptor.kt:547-647 | The read post-hook over the shared objects, whatever the package cache holds by then: reply and whole new state as in the step machine |
| `KeystoreInterceptors.Keystore2Interceptor.RejectHistoricalOwners` | app/src/main/java/io/github/beakthoven/TrickyStoreOSS/interceptors/GetKeyEntryCurrentModeAuthority.kt:33-50 | Says whether the descriptor has an alias and leads to a forged or re-signed response, and if so clears the synthetic state of that alias |
| `KeystoreInterceptors.Keystore2Interceptor.ChoosePostAction` | app/src/main/java/io/github/beakthoven/TrickyStoreOSS/interceptors/GetKeyEntryPostPolicy.kt:30-38 | Passthrough and plain AUTO before a cached patch before patching |
| `KeystoreInterceptors.Keystore2Interceptor.UpdateSubcomponentPre` | app/src/main/java/io/github/beakthoven/TrickyStoreOSS/interceptors/Keystore2Interceptor.kt:137-182 | The update pre-hook over the shared objects |
| `KeystoreInterceptors.Keystore2Interceptor.GrantKeyPre` | app/src/main/java/io/github/beakthoven/TrickyStoreOSS/interceptors/Keystore2Interceptor.kt:184-226 | The grant pre-hook over the shared objects |
| `KeystoreInterceptors.Keystore2Interceptor.UngrantKeyPre` | app/src/main/java/io/github/beakthoven/TrickyStoreOSS/interceptors/Keystore2Interceptor.kt:228-254 | The ungrant pre-hook over the shared objects |
| `KeystoreInterceptors.SecurityLevelInterceptor.GenerateKeyPre` | app/src/main/java/io/github/beakthoven/TrickyStoreOSS/interceptors/SecurityLevelInterceptor.kt:159-356 | The generateKey pre-hook over the shared objects, route by route |
| `KeystoreInterceptors.SecurityLevelInterceptor.GenerateKeyPost` | app/src/main/java/io/github/beakthoven/TrickyStoreOSS/interceptors/SecurityLevelInterceptor.kt:416-521 | The generateKey post-hook over the shared objects: passthrough acceptance or leaf patching |
| `KeystoreInterceptors.SecurityLevelInterceptor.StoreGeneratedKey` | app/src/main/java/io/github/beakthoven/TrickyStoreOSS/interceptors/SecurityLevelInterceptor.kt:536-573 | Whole new state after a forge, save job included, and what is left behind when building the response throws |
| `KeystoreInterceptors.SecurityLevelInterceptor.LoadPersistedKeys` | app/src/main/java/io/github/beakthoven/TrickyStoreOSS/interceptors/SecurityLevelInterceptor.kt:668-698 | The loop over loaded records restores one level as in the start-up function |
| `RecordCodec.RecordRoundTrip` | app/src/main/java/io/github/beakthoven/TrickyStoreOSS/PersistenceManager.kt:94-183 | For every record and every following bytes, the reader returns the record's written fields and consumes exactly its bytes, if all fit their fields |
| `RecordCodec.RecordsArePrefixFree` | app/src/main/java/io/github/beakthoven/TrickyStoreOSS/PersistenceManager.kt:186-305 | No encoding of a record is a proper prefix of another |
| `RecordCodec.LongExponentFits` | app/src/main/java/io/github/beakthoven/TrickyStoreOSS/PersistenceManager.kt:94-183 | A 64-bit public exponent always fits its length field |
| `DataStreams.FitsExactly` | app/src/main/java/io/github/beakthoven/TrickyStoreOSS/PersistenceManager.kt:94-183 | A text can be written exactly if its units make at most 65535 bytes, one, two or three each, whose number comes first |
| `DataStreams.UnitIsStandard` | app/src/main/java/io/github/beakthoven/TrickyStoreOSS/PersistenceManager.kt:94-183 | Each unit is written as java.io.DataOutput documents it, zero in two bytes |
| `DataStreams.NumbersAreBigEndian` | app/src/main/java/io/github/beakthoven/TrickyStoreOSS/PersistenceManager.kt:94-183 | Numbers are written high byte first |
| `DataStreams.UtfRoundTrip` | app/src/main/java/io/github/beakthoven/TrickyStoreOSS/PersistenceManager.kt:94-183 | readUTF inverts writeUTF on every UTF-16 text of at most 65535 encoded bytes, surrogates and NUL included |
| `DataStreams.TwosComplementRoundTrip` | app/src/main/java/io/github/beakthoven/TrickyStoreOSS/PersistenceManager.kt:94-183 | Big-endian two's complement of any length inverts to the number |
| `PersistenceManager.WriteRecord` | app/src/main/java/io/github/beakthoven/TrickyStoreOSS/PersistenceManager.kt:94-183 | The sequence of stream writes emits the encoding, or throws exactly when the record cannot be encoded |
| `PersistenceManager.ReadRecord` | app/src/main/java/io/github/beakthoven/TrickyStoreOSS/PersistenceManager.kt:186-305 | The sequence of stream reads is the decoder, failures included |
| `PersistenceManager.KeyFiles.SaveKeySync` | app/src/main/java/io/github/beakthoven/TrickyStoreOSS/PersistenceManager.kt:81-184 | The key's file is replaced on success, by the rename or else by the copy; a save that throws leaves every file as it was |
| `PersistenceManager.KeyFiles.LoadAll` | app/src/main/java/io/github/beakthoven/TrickyStoreOSS/PersistenceManager.kt:186-306 | Returns the record of every readable file in directory order and skips the others |
| `PersistenceManager.SavedIsLoaded` | app/src/main/java/io/github/beakthoven/TrickyStoreOSS/PersistenceManager.kt:81-305 | A saved file loads as its record |
| `DiskRefinement.MemoryStaysCovered` | app/src/main/java/io/github/beakthoven/TrickyStoreOSS/PersistenceManager.kt:47-79 | However hooks and the job thread interleave, draining the queue yields every forged key whose alias can be written |
| `KeyDirectory.MemoryIsLoadable` | app/src/main/java/io/github/beakthoven/TrickyStoreOSS/PersistenceManager.kt:186-319 | The same on bytes: draining the jobs over files and then loading them returns a matching record of a forged key exactly when its alias can be written |
| `Removal.RemainsExactly` | app/src/main/java/io/github/beakthoven/TrickyStoreOSS/interceptors/CertificateAliasCache.kt:114-174 | For every step: a key's file is there, the queued jobs run, exactly if the step stores the key under a writable alias, or it was there and the step is none of deletion, successful import, accepted passthrough, rejection of a forged owner and the wipe |
| `Removal.RemovedStaysRemoved` | app/src/main/java/io/github/beakthoven/TrickyStoreOSS/interceptors/Keystore2Interceptor.kt:110-135 | A key removed by such a step is not forged again by a restart after any run in which it is not stored again |
| `Restarts.StoredComesBack` | app/src/main/java/io/github/beakthoven/TrickyStoreOSS/interceptors/SecurityLevelInterceptor.kt:668-698 | A key stored, saved and restored by the next process is there in full: entry, key pair with chain, number and skip mark |
| `KeyDirectory.StartUpEstablishes` | app/src/main/java/io/github/beakthoven/TrickyStoreOSS/interceptors/SecurityLevelInterceptor.kt:668-698 | Restoring both levels from a saved directory establishes the ownership invariant and disk coverage |
| `KeyDirectory.StartUpBehindClearAll` | app/src/main/java/io/github/beakthoven/TrickyStoreOSS/config/Config.kt:59-65 | With clear jobs still queued at start-up, memory stays covered exactly when nothing was restored |
| `KeyDirectory.StartUpCountsNothing` | app/src/main/java/io/github/beakthoven/TrickyStoreOSS/interceptors/SecurityLevelInterceptor.kt:668-698 | Start-up restores no usage counter |
| `KeyDirectory.JobOnFiles` | app/src/main/java/io/github/beakthoven/TrickyStoreOSS/PersistenceManager.kt:53-79 | One job on files is that job on the records they hold |
| `Restarts.EmptyIsReady` | app/src/main/java/io/github/beakthoven/TrickyStoreOSS/interceptors/SecurityLevelInterceptor.kt:668-698 | An empty process over an empty directory is where such runs can start |
| `Restarts.RunKeepsReady` | app/src/main/java/io/github/beakthoven/TrickyStoreOSS/PersistenceManager.kt:47-79 | However hooks and saves interleave, every record in a file or a queued save belongs to a store, no two keys share a number, and forged keys serve what was stored for them |
| `Restarts.FiledIsWellFiled` | app/src/main/java/io/github/beakthoven/TrickyStoreOSS/interceptors/SecurityLevelInterceptor.kt:668-698 | What any run leaves in the directory is what start-up expects of it |
| `Restarts.RestartRestores` | app/src/main/java/io/github/beakthoven/TrickyStoreOSS/interceptors/SecurityLevelInterceptor.kt:668-698 | After any run, once the jobs have run and the files are loaded: a forged key is forged again exactly when its alias can be written, with its material, parameters and served metadata up to updated certificates, and the new process is ready for the next run |
| `BinderStream.FramingKept` | app/src/main/cpp/binder_interceptor.cpp:180-241 | For every buffer the rewritten buffer parses to the same commands at the same offsets, its transactions being the originals with exactly the redirected ones addressed to the stub |
| `BinderStream.OnlyTargetsChange` | app/src/main/cpp/binder_interceptor.cpp:169-175 | A byte changes only inside target, cookie and code of a redirected transaction |
| `BinderStream.BinderThread.ProcessBinderWriteRead` | app/src/main/cpp/binder_interceptor.cpp:180-241 | The in-place walk, early exits included, leaves the rewritten buffer, touches nothing past read_consumed and queues the origins of the redirected transactions in order |
| `BinderStream.BinderThread.ProcessBinderTransaction` | app/src/main/cpp/binder_interceptor.cpp:137-178 | One transaction: which branch redirects it, its three stores and its queue entry |
| `BinderStream.DigitsRoundTrip` | app/src/main/cpp/binder_interceptor.cpp:137-178 | Little-endian fields read back what was stored |
| `StubDispatch.StubServesItsOwn` | app/src/main/cpp/binder_interceptor.cpp:95-130 | Over every run with nested calls the stub serves each redirected transaction with that transaction's own origin, and the queue is the redirected transactions not yet dispatched |
| `StubDispatch.StubIsNeverLost` | app/src/main/cpp/binder_interceptor.cpp:99-105 | From an idle thread the stub never finds the queue empty |
| `StubDispatch.StrayCallStealsOrigin` | app/src/main/cpp/binder_interceptor.cpp:99-105 | Were the stub addressed directly, its service would take another transaction's origin: why the assumption is needed |
| `StubDispatch.OnTransact` | app/src/main/cpp/binder_interceptor.cpp:95-130 | Pops one origin and decides among backdoor, target, dead target and unknown transaction |
| `StubDispatch.ServedExactly` | app/src/main/cpp/binder_interceptor.cpp:137-178 | A call to a live binder registered for its code, or for all, is delivered to the stub and served with its own code and its own binder; the backdoor exactly for its code from root; any other call arrives as it was |
| `StubDispatch.QueuedExactly` | app/src/main/cpp/binder_interceptor.cpp:137-178 | In a buffer of many calls each is queued, or not, as if it were alone |
| `BinderLayout.TransactionIsRead` | app/src/main/cpp/external/linux-kernel/include/android/binder.h:301-334 | The fields are read from where the kernel's structure has them |
| `BinderLayout.CommandsAreRead` | app/src/main/cpp/external/linux-kernel/include/android/binder.h:372-381 | The size the walk takes from a command is the one encoded in it, and two commands carry transactions |
| `InterceptorWire.PreRoundTrip` | app/src/main/java/io/github/beakthoven/TrickyStoreOSS/interceptors/BinderInterceptor.kt:121-140 | Kotlin recovers from the native first request exactly the call, for every payload below 2^31 bytes |
| `InterceptorWire.PostRoundTrip` | app/src/main/java/io/github/beakthoven/TrickyStoreOSS/interceptors/BinderInterceptor.kt:142-184 | And from the second one also status and reply, an empty reply being null |
| `InterceptorWire.BinderInterceptor.OnTransact` | app/src/main/java/io/github/beakthoven/TrickyStoreOSS/interceptors/BinderInterceptor.kt:100-119 | Whatever is sent and whatever throws, the reply is the one whole valid action that the interposition theorem expects of this interceptor |
| `InterceptorWire.BinderInterceptor.HandlePostTransact` | app/src/main/java/io/github/beakthoven/TrickyStoreOSS/interceptors/BinderInterceptor.kt:142-184 | The cursor reads are the reader; anything unreadable is skipped |
| `InterceptorWire.BinderInterceptor.WriteResultToReply` | app/src/main/java/io/github/beakthoven/TrickyStoreOSS/interceptors/BinderInterceptor.kt:186-206 | A failing copy of an override resets the reply to a skip |
| `NativeInterceptor.ResultRoundTrip` | app/src/main/cpp/binder_interceptor.cpp:462-479 | Native reads exactly the decision Kotlin wrote |
| `NativeInterceptor.RegistrationRoundTrip` | app/src/main/java/io/github/beakthoven/TrickyStoreOSS/interceptors/BinderInterceptor.kt:61-78 | Native registers exactly the target, interceptor and codes Kotlin wrote |
| `NativeInterceptor.BinderInterceptor.HandleRegisterInterceptor` | app/src/main/cpp/binder_interceptor.cpp:277-328 | A readable registration replaces the target's earlier one; any other changes nothing |
| `NativeInterceptor.TransactedExactly` | app/src/main/cpp/binder_interceptor.cpp:330-430 | For every interceptor and fault: zero transactions exactly when the interceptor answered for the target, two exactly when interception fails after the target answered, else one |
| `NativeInterceptor.InterpositionIsIntended` | app/src/main/cpp/binder_interceptor.cpp:116-124 | Through both wire formats and both sides, the call's outcome is what the hooks mean: the target transacted once with the original request unless the first hook answers |
| `NativeInterceptor.BinderInterceptor.HandleInterceptedTransaction` | app/src/main/cpp/binder_interceptor.cpp:330-430 | The parcel code performs the interposition, or leaves it to be completed by forwarding |
| `NativeInterceptor.BinderInterceptor.Serve` | app/src/main/cpp/binder_interceptor.cpp:114-124 | The stub's whole service of a promoted target: status, reply and requests |
| `CallOutcomes.CallerGets` | app/src/main/cpp/binder_interceptor.cpp:330-430 | For every interceptor and fault the caller gets the override that was delivered, or else the status and reply of the target's last answer |
| `CallOutcomes.HooksDecide` | app/src/main/java/io/github/beakthoven/TrickyStoreOSS/interceptors/BinderInterceptor.kt:100-206 | With Kotlin hooks, which are shown the call's own code, flags, uid, pid and data: whose answer the caller gets, throws and failing copies included |
| `CallOutcomes.ReplacementIsRead` | app/src/main/cpp/binder_interceptor.cpp:462-479 | A replacement of the request is read as it was written |
| `CallOutcomes.ActionsExactly` | app/src/main/cpp/binder_interceptor.cpp:462-479 | A response is the action its first word numbers, and invalid without one of the four |
| `CallOutcomes.RegistersExactly` | app/src/main/cpp/binder_interceptor.cpp:277-328 | A registration is read exactly if it is all there and its target is a binder of this process |
| `EntryReply.ReadResponse` | app/src/main/java/io/github/beakthoven/TrickyStoreOSS/interceptors/Keystore2Interceptor.kt:607-618 | The cursor reads of the post-hook, the header read twice, are the reader |
| `EntryReply.SecondHeaderExactly` | app/src/main/java/io/github/beakthoven/TrickyStoreOSS/interceptors/InterceptorUtils.kt:166-168 | After a clean header the second read of a header succeeds exactly when the next word is zero |
| `EntryReply.NoEntryIsReached` | app/src/main/java/io/github/beakthoven/TrickyStoreOSS/interceptors/Keystore2Interceptor.kt:607-618 | In a well-formed reply that word says whether there is an entry, so no entry is ever reached |
| `EntryReply.ResignsExactly` | app/src/main/java/io/github/beakthoven/TrickyStoreOSS/interceptors/Keystore2Interceptor.kt:607-638 | The post-hook re-signs a reply exactly when its policy chooses to, the reply starts with two zero words and a nonzero one, and its chain can be re-signed |
| `EntryReply.WellFormedStaysReal` | app/src/main/java/io/github/beakthoven/TrickyStoreOSS/interceptors/Keystore2Interceptor.kt:542-647 | A read of a well-formed reply changes no map and returns no re-signed entry |
| `EntryReply.ReadsKeepCoherence` | app/src/main/java/io/github/beakthoven/TrickyStoreOSS/interceptors/Keystore2Interceptor.kt:542-647 | With well-formed replies, coherence of reads of a leaf-forwarded key needs no exception for reads: any number of them may come in between |
| `UsageCounter.UsageStaysBalanced` | app/src/main/java/io/github/beakthoven/TrickyStoreOSS/interceptors/SoftwareOperationBinder.kt:197-274 | For any interleaving of operations, hooks and restarts: what is left of a limit, the whole limit if there is no counter yet, plus the finishes charged to it since the key was stored or last restored is the limit, a finish being charged to whatever is forged under the (uid, alias) it is metered on; and no operation reaches its engine twice |
| `Lifetimes.KeptThroughoutExactly` | app/src/main/java/io/github/beakthoven/TrickyStoreOSS/interceptors/SoftwareOperationBinder.kt:224-274 | Per store of a key, over every run of operations, hooks and restarts: all its uses, those after its counter went included, together with what is left make up its limit in every state, exactly when none of its operations reaches its engine while the counter it is metered on is not that of its store, none of another store is charged to it, and no restart restores it used |
| `Lifetimes.KeptIsWithinLimit` | app/src/main/java/io/github/beakthoven/TrickyStoreOSS/interceptors/SoftwareOperationBinder.kt:262-274 | While that holds, the uses of the store are at most its limit and the limit less the uses is left |
| `Lifetimes.ExceedsExactly` | app/src/main/java/io/github/beakthoven/TrickyStoreOSS/interceptors/SoftwareOperationBinder.kt:224-246 | From there, a call or hook takes a store over its limit exactly when it is a finish of one of its operations that reaches the engine without its counter, all uses being made |
| `Lifetimes.StoreIsKept` | app/src/main/java/io/github/beakthoven/TrickyStoreOSS/interceptors/SecurityLevelInterceptor.kt:550-554 | A limited key starts its life with its accounts kept and no use |
| `Lifetimes.LifetimeWithinLimitExactly` | app/src/main/java/io/github/beakthoven/TrickyStoreOSS/interceptors/SoftwareOperationBinder.kt:262-274 | However operations, hooks and restarts go on without disturbing the accounts of a forged key, its uses are certain to stay within its limit exactly when it had no more uses so far than its counter was charged |
| `Lifetimes.EveryLimitCanBeExceeded` | app/src/main/java/io/github/beakthoven/TrickyStoreOSS/interceptors/CertificateAliasCache.kt:114-133 | From any kept state with a use left there is a run, a deletion in it but no restart, after which the key was used once more than its limit |
| `UsageCounter.FinishBalancesExactly` | app/src/main/java/io/github/beakthoven/TrickyStoreOSS/interceptors/SoftwareOperationBinder.kt:224-246 | A metered finish keeps the balance exactly when the key has a counter or the operation carries that key's limit |
| `UsageCounter.BalancedThroughoutExactly` | app/src/main/java/io/github/beakthoven/TrickyStoreOSS/interceptors/SoftwareOperationBinder.kt:224-274 | Over every run, nothing assumed of what operations carry: the accounts of all forged keys balance in every state exactly when no key without a counter takes its first count from another key's limit |
| `UsageCounter.OwnerIsFair` | app/src/main/java/io/github/beakthoven/TrickyStoreOSS/interceptors/SecurityLevelInterceptor.kt:373-392 | Operations an owner opens by alias or forged nspace always meet that condition |
| `ForgedKeys.StepKeepsForged` | app/src/main/java/io/github/beakthoven/TrickyStoreOSS/interceptors/CertificateAliasCache.kt:100-133 | A hook that does not store a key anew leaves material, parameters, nspace and count of a key that stays forged, and of its metadata changes at most the certificates |
| `UsageCounter.OwnerIsMetered` | app/src/main/java/io/github/beakthoven/TrickyStoreOSS/interceptors/SecurityLevelInterceptor.kt:373-392 | An operation the owner opens by alias or forged nspace is metered on that key with its limit |
| `UsageCounter.MeteredBySourceExactly` | app/src/main/java/io/github/beakthoven/TrickyStoreOSS/interceptors/CertificateAliasCache.kt:88-98 | The metered key is the key used exactly when the resolved key is forged and no grant comes first |
| `UsageCounter.FinishConsumes` | app/src/main/java/io/github/beakthoven/TrickyStoreOSS/interceptors/SoftwareOperationBinder.kt:224-274 | A rejected finish uses nothing up; one let through uses exactly one, whatever the engine says, the first one without a counter starting from the limit |
| `UsageCounter.SoftwareOperationBinder.FinishCall` | app/src/main/java/io/github/beakthoven/TrickyStoreOSS/interceptors/SoftwareOperationBinder.kt:224-274 | The guarded call on the shared counter and the operation: outcome and whole new state |
| `CertificateHack.RebuiltExactly` | app/src/main/java/io/github/beakthoven/TrickyStoreOSS/CertificateHack.kt:201-235 | The rewritten list is the one list sorted by tag with one root of trust, one OS version, each patch level replaced, dropped or kept as its override says, and all else in its old order |
| `CertificateHack.HackTwice` | app/src/main/java/io/github/beakthoven/TrickyStoreOSS/CertificateHack.kt:72-244 | A second rewrite of the whole extension changes nothing, whichever list the root of trust was in |
| `CertificateHack.RewrittenSays` | app/src/main/java/io/github/beakthoven/TrickyStoreOSS/CertificateHack.kt:174-244 | When an extension is rewritten, and in which list; its one root of trust then says the device's boot key, locked, verified and the original's boot hash or else the device's, and nothing else of the extension changes but that list |
| `CertificateHack.HashExactly` | app/src/main/java/io/github/beakthoven/TrickyStoreOSS/CertificateHack.kt:184-195 | The boot hash is the fourth item of the original root of trust if that is bytes, else the device's |
| `CertificateHack.OthersStay` | app/src/main/java/io/github/beakthoven/TrickyStoreOSS/CertificateHack.kt:39-66 | Authorizations of other tags stay as they were and in order |
| `CertificateHack.RewritesAgreeExactly` | app/src/main/java/io/github/beakthoven/TrickyStoreOSS/CertificateHack.kt:39-66 | Lists that agree on a patch tag agree after both rewrites exactly when the override is no value or the tag occurs once |
| `CertificateHack.PatchedReports` | app/src/main/java/io/github/beakthoven/TrickyStoreOSS/CertificateHack.kt:39-66 | What the authorizations report under a patch tag afterwards |
| `CertificateHack.HackAttestExtension` | app/src/main/java/io/github/beakthoven/TrickyStoreOSS/CertificateHack.kt:174-244 | The loop, the appended entries and the sort overwrite exactly one list of the extension; without a boot hash nothing changes |
| `CertificateHack.HackLeaf` | app/src/main/java/io/github/beakthoven/TrickyStoreOSS/CertificateHack.kt:72-89 | Finds the list by its root of trust, takes that out and rewrites; any unexpected shape leaves the extension alone |
| `StableSort.SortedUnique` | app/src/main/java/io/github/beakthoven/TrickyStoreOSS/CertificateHack.kt:233 | A sorted list is determined by the order within each rank: what a stable sort promises |
| `ListMerge.MergeExactly` | app/src/main/java/io/github/beakthoven/TrickyStoreOSS/interceptors/Keystore2Interceptor.kt:425-460 | The overriding list is the one list sorted by alias with, under each alias, the backend's entries in order and then one forged entry if missing; the visiting order of the map is irrelevant |
| `ListMerge.MergeContents` | app/src/main/java/io/github/beakthoven/TrickyStoreOSS/interceptors/Keystore2Interceptor.kt:425-460 | As a multiset: the non-null backend entries plus one entry per forged alias of the caller past the cursor and not listed |
| `ListMerge.MergesExactlyIfMissing` | app/src/main/java/io/github/beakthoven/TrickyStoreOSS/interceptors/Keystore2Interceptor.kt:425-460 | The reply is overridden exactly when it is a clean domain-0 listing and some alias is missing |
| `ListMerge.CallerSees` | app/src/main/java/io/github/beakthoven/TrickyStoreOSS/interceptors/Keystore2Interceptor.kt:425-460 | Of the arguments and the backend's list alone: when a listing is overridden, which aliases are added, what an added entry holds, and that no alias stands before a smaller one |
| `ListMerge.MergeListEntries` | app/src/main/java/io/github/beakthoven/TrickyStoreOSS/interceptors/Keystore2Interceptor.kt:425-460 | The loop with its growing set of listed aliases computes the merge |
| `PatchLevels.LayeringIsDocumented` | README.md:109-119 | For every file, component and caller, parse-then-lookup is the documented layering of the first configured package over the global section |
| `PatchLevels.SinglePackage` | app/src/main/java/io/github/beakthoven/TrickyStoreOSS/config/Config.kt:257-307 | For a caller with one package: last component line, else last all or lone value, of its merged sections, else of the global one |
| `PatchLevels.PatchLevelConfig.UpdatePatchLevel` | app/src/main/java/io/github/beakthoven/TrickyStoreOSS/config/Config.kt:264-288 | Parsing a file leaves exactly the levels of its sections; a missing file clears them |
| `PatchLevels.PatchLevelConfig.ParsePatchContext` | app/src/main/java/io/github/beakthoven/TrickyStoreOSS/config/Config.kt:290-307 | Later lines of a key replace earlier ones; a lone bare line is all |
| `PatchLevels.ShortIsLongOver100` | app/src/main/java/io/github/beakthoven/TrickyStoreOSS/AndroidUtils.kt:176-200 | A date is valid in both forms or neither, and the short form is the long one divided by 100 |
| `PatchLevels.OverrideMeansExactly` | app/src/main/java/io/github/beakthoven/TrickyStoreOSS/AndroidUtils.kt:138-162 | The tag is omitted exactly for no, and the device's value kept exactly for device_default or an unreadable date |
| `PatchLevels.TemplateIsThisMonth` | app/src/main/java/io/github/beakthoven/TrickyStoreOSS/AndroidUtils.kt:165-174 | YYYY-MM-dd lands on day dd of the current month on every date |
| `PatchLevels.ReportedAsConfigured` | app/src/main/java/io/github/beakthoven/TrickyStoreOSS/CertificateHack.kt:201-235 | What an attestation reports under a patch tag, for a caller with any packages, is what the layering of the file says |
| `AttestedLevels.PropIsMirrored` | app/src/main/java/io/github/beakthoven/TrickyStoreOSS/AndroidUtils.kt:138-152 | Unset or prop: the system's own level, month only for the system, in full for vendor and boot |
| `AttestedLevels.KeywordsAreReported` | README.md:120-124 | no reports nothing, device_default the device's own |
| `AttestedLevels.DateIsReported` | README.md:116-118 | A date written with dashes, without, without a day, or as YYYY-MM-dd for day dd of this month, is reported as its month for the system and in full for vendor and boot |
| `AttestedLevels.HeaderExactly` | app/src/main/java/io/github/beakthoven/TrickyStoreOSS/config/Config.kt:262 | A bracketed name is a header exactly if made of letters, digits, underscore, dot and dash |
| `AttestedLevels.SettingIsRead` | app/src/main/java/io/github/beakthoven/TrickyStoreOSS/config/Config.kt:290-299 | Key and value of a setting line |
| `AttestedLevels.LinesGoToTheirSection` | app/src/main/java/io/github/beakthoven/TrickyStoreOSS/config/Config.kt:264-288 | Line by line: headers begin sections, blank lines and comments belong to none, any other line is a setting of its section |
| `AttestedLevels.LastSettingWins` | app/src/main/java/io/github/beakthoven/TrickyStoreOSS/config/Config.kt:290-307 | The last setting of a component's own key is what counts for it |
| `AttestedLevels.AllIsForTheRest` | README.md:116-118 | The last setting of all counts for a component without one of its own, and for no other |
| `AttestedLevels.BareValueIsForAll` | app/src/main/java/io/github/beakthoven/TrickyStoreOSS/config/Config.kt:290-293 | A section of one bare value is for all components |
| `PkgConfig.LastLineWins` | app/src/main/java/io/github/beakthoven/TrickyStoreOSS/config/Config.kt:40-57 | A later line about a package replaces an earlier one |
| `PkgConfig.ModesExactly` | app/src/main/java/io/github/beakthoven/TrickyStoreOSS/config/Config.kt:194-247 | From the marks of a caller's packages to every mode, before and after they are looked up |
| `PkgConfig.LinesMean` | app/src/main/java/io/github/beakthoven/TrickyStoreOSS/config/Config.kt:40-57 | What a line of target.txt says of a package |
| `PkgConfig.PlainAutoModes` | app/src/main/java/io/github/beakthoven/TrickyStoreOSS/tee/TeeProbeClassifier.kt:69-72 | A plain AUTO uid is intercepted, never forged for, and stays plain AUTO once its packages are known |
| `PkgConfig.PkgConfig.CheckNeed` | app/src/main/java/io/github/beakthoven/TrickyStoreOSS/config/Config.kt:194-213 | Fills the package cache and finds whether any package has the mode |
| `PkgConfig.PkgConfig.UpdateTargetPackages` | app/src/main/java/io/github/beakthoven/TrickyStoreOSS/config/Config.kt:40-57 | The last line naming a package decides its mode |
| `Shortfalls.FirstGrantReadIsServed` | app/src/main/java/io/github/beakthoven/TrickyStoreOSS/interceptors/Keystore2Interceptor.kt:266-290 | From an empty process: forge, grant, then the first read of a plain AUTO grantee is served the owner's forged response |
| `Shortfalls.ForgottenPackagesAreServed` | app/src/main/java/io/github/beakthoven/TrickyStoreOSS/interceptors/Keystore2Interceptor.kt:547-606 | A plain AUTO caller whose packages are forgotten between the hooks is served its old re-signed response |
| `Shortfalls.GrantedUpdateLeavesStale` | app/src/main/java/io/github/beakthoven/TrickyStoreOSS/interceptors/Keystore2Interceptor.kt:137-182 | An update through a real grant is forwarded, and the owner still reads the response from before it |
| `Shortfalls.InterleavedGrantsCollide` | app/src/main/java/io/github/beakthoven/TrickyStoreOSS/interceptors/Keystore2Interceptor.kt:524-540 | A grant call that was forwarded is finished after the key has been forged and granted again: the grantee has two ids |
| `Shortfalls.UnbuiltResponseDangles` | app/src/main/java/io/github/beakthoven/TrickyStoreOSS/interceptors/SecurityLevelInterceptor.kt:546-553 | A store whose response cannot be built leaves an index entry that leads to no key |
| `Shortfalls.LongAliasIsNotSaved` | app/src/main/java/io/github/beakthoven/TrickyStoreOSS/PersistenceManager.kt:94-183 | A key with an alias of 65536 characters is forged, and draining the queue writes nothing |
| `Shortfalls.KeyboxBeforeStartUpWipes` | app/src/main/java/io/github/beakthoven/TrickyStoreOSS/config/Config.kt:59-65 | A keybox loaded before start-up: the restored key is in memory and, once the wipe has run, not on disk |
| `Shortfalls.ReplacedKeyReturns` | app/src/main/java/io/github/beakthoven/TrickyStoreOSS/interceptors/SecurityLevelInterceptor.kt:486-517 | A forged and saved key is generated again by the real keystore and re-signed: its file stays, and the next process forges it again |
| `Shortfalls.RestartRefills` | app/src/main/java/io/github/beakthoven/TrickyStoreOSS/interceptors/SecurityLevelInterceptor.kt:668-698 | A key with any limit from 2 on is stored, saved, used twice and restored by a restart: it has its whole limit again |
| `Shortfalls.DeletedKeyIsUsedAgain` | app/src/main/java/io/github/beakthoven/TrickyStoreOSS/interceptors/CertificateAliasCache.kt:114-133 | A key with limit 1: of two open operations one finishes before the key is deleted and one after, and both reach their engine |
| `Shortfalls.OldOperationSpendsNewKey` | app/src/main/java/io/github/beakthoven/TrickyStoreOSS/interceptors/SoftwareOperationBinder.kt:262-274 | An operation opened before its key is forged anew uses up the new key, which was never used |
| `Shortfalls.MeteredOnAnotherKey` | app/src/main/java/io/github/beakthoven/TrickyStoreOSS/interceptors/SecurityLevelInterceptor.kt:373-392 | A grantee that names a forged key by its grant and its own key by alias uses the one and is metered on the other |
| `Shortfalls.BothComeFromARun` | app/src/main/java/io/github/beakthoven/TrickyStoreOSS/interceptors/SecurityLevelInterceptor.kt:668-698 | Two forges of one process leave on disk exactly the two records the next one restores, which then has the invariant and may grant the first key |
| `Shortfalls.RestoredKeyBorrowsLimit` | app/src/main/java/io/github/beakthoven/TrickyStoreOSS/interceptors/SoftwareOperationBinder.kt:231-246 | In that process, for any two different limits: an operation opened through the grant and metered on the other key, which has no counter yet, gives it the first key's limit as its count |
| `Shortfalls.MissingTagDisagrees` | app/src/main/java/io/github/beakthoven/TrickyStoreOSS/CertificateHack.kt:39-66 | With no OS patch level in either list, an override is reported by the extension and not by the authorizations |
| `Shortfalls.LostInterceptorRepeatsCall` | app/src/main/cpp/binder_interceptor.cpp:330-430 | An interceptor that lets a call continue and cannot be reached afterwards makes the target receive it twice |

## Left out

- Cryptography, X.509 building and signing, key generation and software engines: their results are inputs.
- Concurrency finer than one hook: a hook is one step, although the maps are updated one after another.
- Response objects are values: an in-place change of a certificate is a map update, and a response shared by two maps is not modelled.
- Metadata of a stored key is opaque bytes; what it unmarshals to is an input of start-up.
- Fields of KeyGenParameters that are not written to disk, which a restart loses.
- KeyDirectory.MemoryIsLoadable: assumes that saves of writable records succeed and that file names of different keys differ; throwing saves, a failing rename and its copy are in PersistenceManager.KeyFiles only.
- A reply that cannot be serialized.
- Reply headers that carry strict-mode or app-op notes before the exception code: a header is one word.
- What a malformed entry parses to: in runs of hooks it is an input, which EntryReply narrows to nothing for well-formed replies.
- Descriptor domains other than the branches the hooks test, the pending map for device identifiers, and timing padding.
- Reads.PlainAutoReadsReal: assumes the caller is plain AUTO already at entry, because an unresolved one is not; PlainAutoExactly states exactly when.
- UsageCounter.UsageStaysBalanced: assumes FairRun, because a restored key can otherwise take its first count from another key's limit; BalancedThroughoutExactly assumes nothing of that and states exactly when the accounts balance.
- UsageCounter.OwnerIsMetered: says nothing of grantees, because a grant does not resolve to a metered key; MeteredBySourceExactly covers every caller.
- Coherence of reads for forwarded keys without a certificate, whose post-hook returns before old state is cleared.
- Disjointness of patched and tracked keys, which does not hold: a re-signed reply is stored by its nspace.
- Objects inside parcels, alignment and the kernel's translation of binders: a parcel is its bytes and a binder 28 of them.
- Kotlin's OnTransact with a null reply parcel: the native side always passes one.
- Concurrent changes of the interceptor registry during one buffer walk or one intercepted call.
- Overflow of the native counters: a buffer is shorter than the address space.
- Unicode decimal digits other than ASCII in dates, which toInt also accepts, and lower-casing beyond ASCII, which no configuration key contains.
- Reading files into lines, the file observer, the package manager's failures beyond an unknown uid.
- leafAlgorithms and the chain and CA rewrites of the older keystore interface, which build certificates.
- KeystoreInterceptor for Android 10 and 11, the injector, TEE probing and classification beyond its AUTO answers, diagnostics and logging.
- Paging completeness of batched listings, which the backend's page size decides.
