# AEGIS: verified models of the decision engine

AEGIS decides on payments that software agents initiate. This project models
its decision logic in Dafny and proves what the parts promise together. Run
`dafny verify dfyconfig.toml` to check everything.

| files | what they model |
|---|---|
| FuzzyMatching, Jaro, JaroValues, Fuzzy, Phonetic | the name matcher: greedy windowed matching over boolean arrays, the transposition scan, the phonetic key |
| Velocity, Structuring, StructuringLaws | the two sliding-window stores and Feature 3, over whole runs |
| Ownership | the sanctioned share of an entity, on graphs that may be cyclic |
| DecisionLedger, ChainLaws | the hash-chained decision ledger and its backends |
| ScopeState, ScopeLaws, ScopeLedger | the reservation and receipt state machine over its two stores |
| Json, Disclose, Nested, SdJwt, Issue, Selective, Repeats | selective disclosure: issuing, presenting and disclosing |
| Constraints, ConstraintLaws, Minimal | the constraint registry and the minimal-disclosure solver |
| ChainVerifier, Acceptance, Mandates | building an open-to-closed delegation, and the gate that accepts one |
| SoundCrypto | texts on which every cryptographic assumption of the project holds |
| Models, Context, Screening, Sanctions, Stages, StepUp, Risk, Offline | the pipeline's data, providers and stages |
| Decision, Orchestrator | evaluation and replay, on values and on the live objects |
| Verdicts, Reasons, Envelopes | the whole decision as one table, with every figure written out |
| ScreenRuns, FailClosed, SeverityOrder, Replay, RunSafety, Sessions | what holds over every provider, every exception and every run |

Code that updates objects, arrays or accumulators is a class or a method with
loops, proved equal to functions on values; the theorems are about those
functions and reach the objects through the methods' contracts.

Where the code and its documentation differ, the model follows the code:

- `sanctioned_share` says it resolves one level of indirect ownership; it follows
  up to five edges (aegis/data/reference.py:50-62).
- `phonetic_key` names Iosif / Yosef as colliding; the first letter is kept, so
  they do not (aegis/matching/fuzzy.py:82-98).
- The in-memory `window` promises entries up to `now` but sets no upper bound
  (aegis/state/velocity.py:25-31).
- The Travel Rule check falls back to the intent's beneficiary, but a cart always
  carries a beneficiary object, so the fallback is never taken
  (aegis/pipeline/f1_jurisdiction.py:34-37).
- `replay` speaks of byte-for-byte reproduction; verdict and ordered reason codes
  are reproduced, and the world-snapshot hash under the condition proved here
  (aegis/pipeline/orchestrator.py:111-152).
- The windows of structuring are kept per agent and beneficiary, but their key joins
  the two with a colon, so that agents with colons in their names, as DIDs have, can
  share one (aegis/pipeline/f3_structuring.py:39): StructuringLaws.ClustersCanMeet.
- RFC 9901, section 7.1, has a processor reject a digest that occurs twice;
  `disclose` makes no difference (aegis/ap2/sdjwt.py:260-308): Repeats.DuplicateAccepted
  is such a payload, and Repeats.AlikeSameVerdict shows that repetition decides nothing.

## Model

| member | source | states |
|---|---|---|
| FuzzyMatching.MergeSymmetric | aegis/matching/fuzzy.py:26-36 | Matching the occurrences of one character by merging their position lists commutes with swapping the lists; this is the order-free reading of the greedy inner loop. |
| FuzzyMatching.MergeIsMaximum | aegis/matching/fuzzy.py:26-36 | No one-to-one pairing of two position lists within the window has more pairs than the merge. |
| Fuzzy.MatchOne | aegis/matching/fuzzy.py:27-36 | The inner loop takes the first free equal character in the window, or finds none and changes nothing. |
| Fuzzy.GreedyMatch | aegis/matching/fuzzy.py:22-36 | The boolean arrays filled in place are the ends of the merges of all characters, and the counter is their number. |
| Fuzzy.CountTranspositions | aegis/matching/fuzzy.py:41-52 | Given equally many flags, the scan `while not s2_matches[k]` stays inside the array and counts the positions at which the two matched subsequences differ. |
| Fuzzy.JaroSimilarity | aegis/matching/fuzzy.py:13-55 | The loops compute the similarity that the lemmas of Jaro and JaroValues speak about. |
| Fuzzy.PrefixLength | aegis/matching/fuzzy.py:61-68 | The loop finds the longest common prefix of at most four characters. |
| Fuzzy.JaroWinklerSimilarity | aegis/matching/fuzzy.py:58-69 | The same for Jaro-Winkler, with any prefix weight. |
| Jaro.FlagsSymmetric | aegis/matching/fuzzy.py:19-36 | Swapping the strings swaps the two match arrays exactly. |
| Jaro.SelectionsRearranged | aegis/matching/fuzzy.py:41-52 | The matched subsequences are rearrangements of each other, so they have one length and one multiset. |
| Jaro.SimilaritySymmetric | aegis/matching/fuzzy.py:13-55 | Jaro similarity is symmetric. |
| Jaro.WinklerSymmetric | aegis/matching/fuzzy.py:58-69 | Jaro-Winkler similarity is symmetric for every prefix weight. |
| Jaro.GreedyIsMaximum | aegis/matching/fuzzy.py:26-36 | No one-to-one pairing of equal characters at most `match_distance` apart has more pairs than `matches`. |
| Jaro.GreedyIsAPairing | aegis/matching/fuzzy.py:26-36 | A pairing with exactly `matches` pairs exists, so the bound is reached. |
| Jaro.FullScoreMeansEqual | aegis/matching/fuzzy.py:52-55 | Halving the mismatches with `//` hides no difference: with every character matched and fewer than two mismatches the strings are equal. |
| Jaro.SimilarityRange | aegis/matching/fuzzy.py:13-55 | Jaro lies in [0, 1] and is 1 exactly for equal strings. |
| Jaro.CommonPrefixLongest | aegis/matching/fuzzy.py:61-68 | The prefix is the longest common one within the limit, in either order of the strings. |
| Jaro.WinklerBounds | aegis/matching/fuzzy.py:69-69 | For any weight: the boosted score exceeds 1 exactly when the strings differ and the boost exceeds 1, and is 1 exactly for equal strings or a full boost. |
| Jaro.DefaultWeight | aegis/matching/fuzzy.py:58-69 | With the default weight the score lies in [0, 1] and is 1 exactly for equal strings. |
| JaroValues.ZeroExactly | aegis/matching/fuzzy.py:20-38 | Different strings score 0 exactly when no character they share stands in both at places at most max(max(len1, len2) // 2 - 1, 0) apart. |
| JaroValues.PrefixValue | aegis/matching/fuzzy.py:52-55 | A non-empty proper prefix s1 of s2 scores (2 + len1 / len2) / 3. |
| JaroValues.SwapValue | aegis/matching/fuzzy.py:41-55 | Swapping two different neighbours in a string of at least four characters scores 1 - 1 / (3 n). |
| JaroValues.WinklerIs | aegis/matching/fuzzy.py:58-69 | The boosted score is j + 0.1 p (1 - j), with p the number of characters, up to four, that both strings begin with. |
| Phonetic.KeyToken | aegis/matching/fuzzy.py:97-110 | The loop that stops at four characters gives the same key as scanning the whole token. |
| Phonetic.PhoneticKey | aegis/matching/fuzzy.py:82-110 | The key of the first longest token, padded to four characters, or empty if there is no token. |
| Phonetic.LongestIsFirstLongest | aegis/matching/fuzzy.py:94-94 | `max(tokens, key=len)` is the first of the longest tokens. |
| Phonetic.ScanGrows | aegis/matching/fuzzy.py:100-109 | Reading further only appends to the key. |
| Phonetic.FirstLetterKept | aegis/matching/fuzzy.py:97-98 | Equal keys have equal first letters. |
| Phonetic.IosifIsNotYosef | aegis/matching/fuzzy.py:82-88 | So the pair IOSIF / YOSEF named in the documentation does not collide. |
| Phonetic.SoundsAlike | aegis/matching/fuzzy.py:72-110 | Words that begin with the same letter, and letter for letter are of one consonant group or both silent, share a key, whichever letters they are. |
| Phonetic.KeyIs | aegis/matching/fuzzy.py:97-110 | The key is the first letter and the codes of the later letters that differ from the code of the letter before, cut or filled up with zeros to four: the reset at vowels and H, W, Y changes nothing, since a letter without a code leaves none standing. |
| Phonetic.CodesAreGroups | aegis/matching/fuzzy.py:72-79 | The six groups BFPV, CGJKQSXZ, DT, L, MN and R have the codes 1 to 6, and no other letter has one. |
| Velocity.VelocityStore.Record | aegis/state/velocity.py:21-23 | Appends to the list of the key, as one step of the in-memory machine. |
| Velocity.VelocityStore.Window | aegis/state/velocity.py:25-31 | Prunes for good what is older than the window and returns the rest, as one step of the in-memory machine. |
| Velocity.VelocityStore.Seed | aegis/state/velocity.py:33-38 | Overwrites the keys of the mapping and no others. |
| Velocity.SqliteVelocityStore.Record | aegis/storage/velocity_sqlite.py:29-35 | Adds a row at the end of the table. |
| Velocity.SqliteVelocityStore.Window | aegis/storage/velocity_sqlite.py:37-57 | Deletes expired rows of the key and returns the rows of the closed interval ordered by time, then id. |
| Velocity.OrderIsSorted | aegis/storage/velocity_sqlite.py:49-53 | The ordering is by time and keeps every row. |
| Velocity.StoresAgree | aegis/state/velocity.py:21-31 | Under a clock that never goes back, the pruning in-memory store, the pruning SQLite store and a log that forgets nothing answer every window of a run alike. |
| Velocity.AgreeExactly | aegis/state/velocity.py:25-31 | For any readings of the clock and any width that is not negative: the three agree on every run of operations made at those readings exactly if the readings never go back. |
| Velocity.PrunedForGood | aegis/storage/velocity_sqlite.py:37-57 | One way in which they part when the clock goes back: an entry pruned at a late window is gone from both stores when an earlier window asks for it, while the log still has it; for all times, widths and amounts. |
| Velocity.BackwardClockParts | aegis/state/velocity.py:25-31 | The other: an entry recorded later than `now` is returned by the in-memory store, and neither by the SQLite store nor by the log. |
| Structuring.FindingsFromHistory | aegis/pipeline/f3_structuring.py:43-96 | Over any run with a non-decreasing clock every transfer gets, from either store, the finding that the full unpruned history gives. |
| Structuring.VelocityCapsHold | aegis/pipeline/f3_structuring.py:56-71 | In every closed 24 hours the transfers of an agent let through by Feature 3 are at most 50 and total at most 250,000 USD. |
| StructuringLaws.FoundExactly | aegis/pipeline/f3_structuring.py:33-96 | Over any run with a clock that never goes back, with either pruning store: a transfer exceeds the caps exactly if those of its agent in the day number more than 50 or exceed 250,000 with it, and otherwise looks like structuring exactly if it and those to its beneficiary are three or more, each under 10,000, that come to at least 10,000. |
| StructuringLaws.ClustersApart | aegis/pipeline/f3_structuring.py:39-40 | Two transfers count towards one cluster exactly if agent and beneficiary agree, where the names of the agents hold no colon. |
| StructuringLaws.ClustersCanMeet | aegis/pipeline/f3_structuring.py:39-40 | With a colon, as every DID has, two agents can share a cluster. |
| Stages.RunF3 | aegis/pipeline/f3_structuring.py:33-96 | On a context and either store: reads both windows before recording, snapshots them, and writes the cap breach or the structuring signal with its SAR draft. |
| RunSafety.StoredBy | aegis/pipeline/orchestrator.py:155-182 | An evaluation changes the velocity store exactly if it reaches Feature 3, and only a transfer within the caps is decided as anything but BLOCK. |
| RunSafety.JudgedByHistory | aegis/pipeline/f3_structuring.py:43-72 | In a store that agrees with a log, a transfer is judged as the whole log would judge it. |
| RunSafety.PassedWithinCaps | aegis/pipeline/orchestrator.py:75-109 | Over any run of whole evaluations, whatever the provider answers and whatever raises, at most 50 decisions of an agent in any closed day are not BLOCK, totalling at most 250,000 USD. |
| Ownership.OwnershipGraph.constructor | aegis/data/reference.py:36-42 | The map lists, for every entity, its stakes in edge order. |
| Ownership.OwnershipGraph.SanctionedShare | aegis/data/reference.py:50-62 | The recursion terminates on cyclic graphs and computes the share with a budget of five edges. |
| Ownership.ShareIsPathSum | aegis/data/reference.py:50-62 | The share is the sum, over the ownership paths of at most five edges that end at their first sanctioned owner, of the products of the percentages. |
| Ownership.PathsAreListable | aegis/data/reference.py:50-62 | Those paths can be listed without repetition for every graph. |
| Ownership.ShareRange | aegis/data/reference.py:50-62 | If percentages are non-negative and sum to at most 1 per entity, the share lies in [0, 1]. |
| Ownership.ShareMonotone | aegis/data/reference.py:50-62 | It never falls when more entities are sanctioned or the search goes deeper. |
| DecisionLedger.VerifyChain | aegis/ledger/store.py:132-146 | True exactly for a fully linked and signed chain, and otherwise the least index at which a link fails. |
| DecisionLedger.HeadDetermines | aegis/ledger/store.py:92-93 | Two verifying chains with equal heads, no entries of which collide under the hash, are equal entry by entry. |
| ChainLaws.IntactExactly | aegis/ledger/store.py:132-146 | A chain verifies exactly if every entry names the hash of the one before, sixty-four zeros for the first, is signed under the key, and has the hash it is said to have. |
| ChainLaws.ForgeryNoticed | aegis/ledger/store.py:132-146 | An entry whose signature does not verify is noticed, whatever else was recomputed around it. |
| ChainLaws.ReplacementNoticed | aegis/ledger/store.py:132-146 | Any other entry in the place of one that is not the last is noticed, however it is signed and hashed, unless the two collide. |
| SoundCrypto.LedgerSuiteIsPossible | aegis/ledger/store.py:95-106 | The assumptions about the hash and the signatures of the ledger can be met for contents of any type: own signatures verify, and chains do not collide where different contents have different texts. |
| DecisionLedger.AppendKeepsIntact | aegis/ledger/store.py:95-106 | Appending to a verifying chain gives a verifying chain. |
| DecisionLedger.RunIntact | aegis/ledger/store.py:95-116 | Every chain built by appends verifies. |
| DecisionLedger.Ledger.Open | aegis/ledger/store.py:49-81 | Refuses a foreign key and a chain that does not verify; otherwise loads what the table holds. |
| DecisionLedger.Ledger.Append | aegis/ledger/store.py:95-116 | Chains, signs, hashes and appends, in memory first and then in the table, which refuses a used id. |
| DecisionLedger.MemoryLedgerBackend.Append | aegis/storage/ledger_backend.py:51-54 | Adds the entry and files the archive under its id. |
| DecisionLedger.SqliteLedgerBackend.Append | aegis/storage/ledger_backend.py:107-121 | Inserts exactly when the id is new. |
| DecisionLedger.SqliteLedgerBackend.ArchiveFor | aegis/storage/ledger_backend.py:130-138 | The archive of the row with that id. |
| DecisionLedger.SqliteLedgerBackend.InitMeta | aegis/storage/ledger_backend.py:147-157 | Sets a key once and returns what is stored. |
| DecisionLedger.TableMirrorsMemory | aegis/storage/ledger_backend.py:107-121 | The table holds what memory holds exactly when no decision id was reused. |
| DecisionLedger.ReopenRestores | aegis/ledger/store.py:63-81 | Reopening finds an intact table with the same head exactly when no decision id was reused, where the entries of the run do not collide. |
| DecisionLedger.AppendThenReopen | aegis/ledger/store.py:49-116 | On the objects: append a run, drop the ledger, open the table again under the same key; the same entries are back exactly when no decision id was reused. |
| ScopeLedger.ScopeLedger.OpenScope | aegis/ap2/scope_ledger.py:103-109 | Returns the live scope if there is one, and otherwise a fresh one that is stored. |
| ScopeLedger.ScopeLedger.Reserve | aegis/ap2/scope_ledger.py:117-133 | On any handle, live or fetched long ago: refuses for the reasons of the state machine applied to the handle, or adds the hash and writes the handle over whatever was stored. |
| ScopeLedger.ScopeLedger.ApplyReceipt | aegis/ap2/scope_ledger.py:135-148 | On any handle: refuses a receipt that is not genuine, or takes the step of the state machine on the handle and writes it over whatever was stored. |
| ScopeLedger.MemoryScopeStore.Put | aegis/ap2/scope_ledger.py:88-89 | Keeps the very object under its mandate. |
| ScopeLedger.SqliteScopeStore.Put | aegis/storage/scope_sqlite.py:52-71 | Stores a row that decodes to the state of the scope, sets as sorted arrays. |
| ScopeLedger.SqliteScopeStore.Get | aegis/storage/scope_sqlite.py:35-50 | A fresh object in the state that the row decodes to. |
| ScopeLedger.ScopeLedger.Perform | aegis/ap2/scope_ledger.py:117-148 | One event on any handle: the outcome, the handle, and what a later fetch sees, as functions of the handle and of what was stored. |
| ScopeLedger.RefetchChangesNothing | aegis/ap2/scope_ledger.py:92-148 | Over every run, with either store, fetching the handle anew before any of the events changes no outcome and no state: each is that of the state machine, which knows no fetches. |
| ScopeLedger.StaleStep | aegis/storage/scope_sqlite.py:35-71 | An event performed on a handle while the store holds another state has the outcome and leaves the state that it would on the live scope exactly under a condition on the two states and the event. |
| ScopeLedger.StaleHandleForgets | aegis/storage/scope_sqlite.py:35-71 | Over SQLite, two fetches and then two reservations both go through, and the store ends with the second hash alone outstanding. |
| ScopeLedger.SharedHandleRefuses | aegis/ap2/scope_ledger.py:79-89 | Over the shared store the same four calls end with the second reservation refused and the first outstanding. |
| ScopeState.RunAccounted | aegis/ap2/scope_ledger.py:117-148 | Over every run: at most one outstanding hash, disjoint from the consumed ones; consumed only grows; remaining count and value are the grant less one, and less the amount, per first success receipt. |
| ScopeState.SettledNeverReserved | aegis/ap2/scope_ledger.py:119-120 | A settled hash is refused as a double spend ever after. |
| ScopeState.SpendWithinGrant | aegis/ap2/scope_ledger.py:117-148 | If each paying receipt names the outstanding hash and pays at most what was reserved, the count never goes negative and the total spend exceeds the grant by at most 1e-9, once. |
| ScopeState.SolventExactly | aegis/ap2/scope_ledger.py:117-148 | Count and value stay at or above zero (the value up to 1e-9) after every event of a run exactly if every paying receipt, when it arrives, finds a count of at least one and an amount within what remains. |
| ScopeState.SolventIsWithinGrant | aegis/ap2/scope_ledger.py:117-148 | In terms of the grant: that is no more first successes than the granted count and no more spent than the granted value and 1e-9. |
| ScopeState.UnreservedReceiptOverdraws | aegis/ap2/scope_ledger.py:135-148 | The condition can fail: a genuine receipt for a hash never reserved drives count and value below zero. |
| ScopeState.StepAgreesExactly | aegis/ap2/scope_ledger.py:117-148 | The condition on a stale handle is exact: a reservation agrees when both states refuse it for one reason or are equal; a receipt when it is not genuine, or when the states differ at most in its own reference or one has it applied already. |
| ScopeLaws.GrantUsable | aegis/ap2/scope_ledger.py:117-148 | Payments reserved and settled one after the other are all accepted exactly if each has a hash not used before, its number is within the count, and its amount within what remains of the value, up to 1e-9: nothing within the grant is refused. |
| ScopeLaws.OpenBlocks | aegis/ap2/scope_ledger.py:119-124 | While a reservation is open every other one is refused as a double spend. |
| ScopeLaws.RefusedByGrant | aegis/ap2/scope_ledger.py:125-131 | With none open, a hash never settled is refused exactly where the count is used up or the amount exceeds what remains. |
| Disclose.Walker.WalkNode | aegis/ap2/sdjwt.py:277-303 | The recursive walk, with its `used` set filled in place, computes the walk of the lemmas; it terminates along a rank on digests. |
| Disclose.Walker.WalkDict | aegis/ap2/sdjwt.py:278-290 | The same for dictionaries, whose `_sd` lists add properties, walked in turn. |
| Disclose.Walker.WalkList | aegis/ap2/sdjwt.py:291-302 | The same for lists, whose placeholders add elements. |
| Disclose.UsedIsReached | aegis/ap2/sdjwt.py:277-308 | A digest ends up used exactly when it is reached from the payload through placeholders of its own kind, following disclosed values. |
| Disclose.OkExactly | aegis/ap2/sdjwt.py:305-308 | `ok` holds exactly when every presented disclosure decodes and is reached. |
| Disclose.DisclosePayload | aegis/ap2/sdjwt.py:260-308 | The whole of `disclose`: the claims revealed and `ok`, or the TypeError it lets out, as the function that OkExactly and the lemmas of Nested pin down. |
| Nested.PropertyShown | aegis/ap2/sdjwt.py:283-286 | A disclosed property is shown as disclosing its own value as a payload, with the same disclosures, shows it, at whatever depth, unless something else sets the same key. |
| Nested.EntryShown | aegis/ap2/sdjwt.py:287-289 | So is a plain entry of an object. |
| Nested.ArrayShown | aegis/ap2/sdjwt.py:291-302 | An array shows, in order, what disclosing each item shows, in the place of each placeholder what disclosing its element shows, and nothing where it resolves to none. |
| Nested.KeysShown | aegis/ap2/sdjwt.py:278-290 | An object shows a key exactly if it has it itself, or a digest in an `_sd` list of it resolves to a property of that name. |
| Nested.NoDigestListLeft | aegis/ap2/sdjwt.py:277-303 | Where no disclosed property is named `_sd`, the claims hold no `_sd` key at any depth. |
| Nested.NoMarkerLeft | aegis/ap2/sdjwt.py:277-303 | Nor a placeholder, where `...` is a key of array placeholders only. |
| Nested.StrayEllipsis | aegis/ap2/sdjwt.py:292-296 | That condition is needed: `[{"_sd": [], "...": "x"}]` is shown as `[{"...": "x"}]`. |
| Nested.FailsExactly | aegis/ap2/sdjwt.py:277-303 | Disclosing raises exactly where the payload itself cannot be walked, or a value that one of its placeholders resolves to raises. |
| Nested.RaisesExactly | aegis/ap2/sdjwt.py:277-303 | A node cannot be walked exactly where an `_sd` entry is no list of hashable items, a string or an object, an array item is a placeholder of a list or an object, or a part of it cannot be. |
| Repeats.AlikeSameVerdict | aegis/ap2/sdjwt.py:260-308 | Payloads that differ only in how often and where items stand in their arrays, at any depth, both raise, or have the same `ok`: how often a digest occurs decides nothing. |
| Repeats.RepeatChangesNothing | aegis/ap2/sdjwt.py:277-308 | In particular a placeholder repeated anywhere in its array, or a digest in its `_sd` list, changes neither. |
| Repeats.DuplicateAccepted | aegis/ap2/sdjwt.py:291-308 | A payload with one digest in two places and its one disclosure is ok, and the value is shown twice. |
| SdJwt.RoundTrip | aegis/ap2/sdjwt.py:154-173 | Parsing the serialised form gives the container back exactly when no part contains the separator and the optional parts are not empty. |
| SdJwt.PresentationDetermines | aegis/ap2/sdjwt.py:183-189 | Equal `sd_hash` means the same issuer JWT and the same disclosures. |
| SdJwt.KbBinds | aegis/ap2/sdjwt.py:321-342 | A key-binding JWT is accepted exactly for the nonce and the presentation it was made for. |
| SoundCrypto.SoundIsPossible | aegis/ap2/sdjwt.py:34-101 | The assumptions about encodings, hashes and signatures under which disclosure and delegation are proved can be met all at once: prefix-free texts are given on which every one of them holds. |
| Issue.IssueSdJwt | aegis/ap2/sdjwt.py:205-253 | The loops build the payload and the disclosures that the lemmas speak about, for any sort and shuffle result. |
| Issue.WalkTame | aegis/ap2/sdjwt.py:277-303 | A value without markers passes the walk unchanged and uses nothing. |
| Selective.ClaimsSurvive | aegis/ap2/sdjwt.py:205-316 | Issuing, presenting any kept set and disclosing is ok and returns every plain claim unchanged, |
| Selective.PropertiesAsKept | aegis/ap2/sdjwt.py:205-316 | each disclosable property exactly when its digest was kept, |
| Selective.ArraysAsKept | aegis/ap2/sdjwt.py:205-316 | each disclosable array with just its kept elements, in placeholder order, |
| Selective.NothingElse | aegis/ap2/sdjwt.py:205-316 | and no other claim, for any decoys and any shuffle. |
| Selective.KeptValuesExactly | aegis/ap2/sdjwt.py:240-250 | A value shows in an array exactly when an element with that value was kept. |
| Constraints.ConstraintRegistry.Register | aegis/ap2/constraints.py:184-185 | Sets the verifier of a type, and of no other. |
| Constraints.ConstraintRegistry.Evaluate | aegis/ap2/constraints.py:193-202 | One result per constraint in order, or the exception of the first verifier that raises. |
| Constraints.AllPassMeans | aegis/ap2/constraints.py:193-202 | All results are ok exactly when every constraint passes its own verifier. |
| Constraints.UnknownTypeFails | aegis/ap2/constraints.py:196-200 | A constraint of an unregistered type fails the mandate. |
| Constraints.CheckOneElsewhere | aegis/ap2/constraints.py:50-120 | Of the default verifiers only the merchant one depends on the disclosed merchants. |
| Constraints.CheckOneMerchant | aegis/ap2/constraints.py:93-103 | The merchant verifier passes exactly when the payee is among the disclosed merchants. |
| ConstraintLaws.SpendCurvePasses | aegis/ap2/constraints.py:50-63 | The spend curve passes exactly if the mandate is not from the future and the amount is within the initial one times 0.5 to the number of half-lives gone by, up to 1e-9. |
| ConstraintLaws.SpendCurveHalves | aegis/ap2/constraints.py:50-63 | One half-life later a doubled budget decides alike. |
| ConstraintLaws.MccPasses | aegis/ap2/constraints.py:66-74 | The category verifier passes exactly for a payee whose category is listed. |
| ConstraintLaws.SlippagePasses | aegis/ap2/constraints.py:77-90 | The slippage bound passes exactly if the executed rate is off the quoted one, up or down, by no more than so many ten-thousandths of it. |
| ConstraintLaws.OneCurrencyPasses | aegis/ap2/constraints.py:77-83 | Without an executed rate it passes exactly in the quoted currency. |
| ConstraintLaws.EnvelopeRun | aegis/ap2/constraints.py:106-120 | A run of payments, each checked against those before it, passes to the end exactly if they are no more than the count and no sum of the first of them exceeds the value. |
| ConstraintLaws.SpendCurveIsRead | aegis/ap2/constraints.py:131-137 | What `compile_spend_curve` writes is read back as its two figures. |
| ConstraintLaws.FxBoundIsRead | aegis/ap2/constraints.py:148-155 | What `compile_fx_slippage_bound` writes is read back as its figures and currency. |
| ConstraintLaws.EnvelopeIsRead | aegis/ap2/constraints.py:166-175 | What `compile_velocity_envelope` writes is read back as its count and value. |
| ConstraintLaws.SpendCurveRaises | aegis/ap2/constraints.py:50-63 | Exactly when the spend curve raises on mandates it cannot read. |
| Minimal.Shrink | aegis/ap2/disclosure.py:37-45 | For any test of subsets and any listing order: what is left still satisfies, and if satisfaction is upward closed no proper subset of it does; an unsatisfiable start is returned whole. |
| Minimal.MinimalDisclosureSet | aegis/ap2/disclosure.py:23-45 | The same for the test that presents, discloses and evaluates an issued mandate under any registry. |
| Minimal.SatisfiesExactly | aegis/ap2/disclosure.py:30-35 | With the default registry a kept set satisfies exactly when the other constraints pass and, if a merchant constraint asks, a kept element names the payee. |
| Minimal.DefaultSmallest | aegis/ap2/disclosure.py:23-45 | With the default registry a set from which nothing can be dropped has one element if `checkout.allowed_merchants` is among the constraints and none otherwise. |
| Minimal.NothingSmaller | aegis/ap2/disclosure.py:23-45 | No satisfying set is smaller than that. |
| Minimal.DefaultRaisesUniformly | aegis/ap2/disclosure.py:30-35 | Whether evaluation raises does not depend on the kept set. |
| Minimal.SolveByDefault | aegis/ap2/disclosure.py:23-45 | The default solver, in any listing order: raises exactly where evaluating the whole mandate does, keeps everything where it is not satisfied, and otherwise returns a satisfying set of globally smallest size. |
| Mandates.ObservableSlots | aegis/ap2/disclosure.py:48-55 | The loop counts the placeholders in the top-level arrays. |
| Mandates.SlotsAreMerchantsAndDecoys | aegis/ap2/disclosure.py:48-55 | For an issued mandate that count is the number of merchants plus the number of decoys, whatever is revealed. |
| ChainVerifier.AcceptedContent | aegis/ap2/verifier.py:102-135 | An accepted closed mandate has exactly the content that its open mandate and checkout prescribe. |
| ChainVerifier.AcceptedContentUnique | aegis/ap2/verifier.py:102-135 | Any two closed mandates accepted for one open mandate, however presented, and one checkout agree on constraints, open_iat, sd_hash, checkout_hash, payment_amount, payee and line_items. |
| ChainVerifier.ClosedBelongsToOneOpen | aegis/ap2/verifier.py:115-124 | No closed mandate is accepted against two open mandates with different issuer JWTs, nor with two checkouts. |
| ChainVerifier.KbPinsPresentation | aegis/ap2/verifier.py:108-113 | A key-binding JWT cannot be moved to another presentation or nonce. |
| Acceptance.AcceptedIff | aegis/ap2/verifier.py:66-147 | Of any texts whatever: a chain is accepted exactly if the open issuer JWT is signed under the key that the resolver gives for its `iss`, the closed and the key-binding JWT under the key in `cnf`, both disclose in full, nonce, presentation, open mandate and checkout are bound, amount, payee and line items agree with the checkout, and every constraint passes. |
| Acceptance.RefusedFor | aegis/ap2/verifier.py:66-147 | A chain that is refused is refused for a reason that holds of the texts. |
| Mandates.BuildOpenMandate | aegis/ap2/mandates.py:49-73 | Issues the open mandate of the request, with the merchants as a disclosable array. |
| Mandates.SealClosed | aegis/ap2/mandates.py:111-120 | Signs a payload and binds a key-binding JWT to exactly that presentation. |
| Mandates.BuildClosedMandate | aegis/ap2/mandates.py:76-108 | Copies the constraints, hashes the open mandate and the checkout, signs and seals. |
| Mandates.BuildChain | aegis/ap2/mandates.py:123-170 | Builds the open mandate, the checkout (the default one if none is given) and the closed mandate. |
| Mandates.SealedParses | aegis/ap2/sdjwt.py:154-173 | A sealed mandate survives serialisation and parsing, payload included. |
| Mandates.AcceptedExactly | aegis/ap2/verifier.py:66-147 | A chain built by the holder of the endorsed key, whichever merchants are revealed, is accepted exactly when the nonce is the verifier’s, the checkout agrees with the closed mandate, and every constraint passes on the merchants revealed; arbitrary texts are the subject of Acceptance.AcceptedIff. |
| Mandates.BuiltAccepted | aegis/ap2/mandates.py:123-170 | With the default checkout, the serialised chain as built is accepted exactly when all its constraints evaluate ok on the allowed merchants. |
| Mandates.SatisfiesIsAccepted | aegis/ap2/disclosure.py:30-35 | The test of the solver and acceptance by the verifier coincide. |
| Mandates.DelegateMinimally | aegis/ap2/disclosure.py:23-45 | The chain presented with the minimal disclosure set is accepted exactly if the whole one is, and then reveals one merchant or none. |
| Context.DecisionContext.AddSignal | aegis/pipeline/context.py:79-83 | Appends the signal; the risk is raised by a positive delta up to 100 and never lowered. |
| Context.DecisionContext.HasHardBlock | aegis/pipeline/context.py:88-90 | True exactly if some signal is a hard block. |
| Context.DecisionContext.constructor | aegis/pipeline/context.py:61-68 | Empty accumulators and the hash of bundle, clock and controls as given. |
| Stages.RunF1 | aegis/pipeline/f1_jurisdiction.py:40-86 | The first of the restricted corridor, Travel Rule and data residency findings, or none. |
| Stages.StrictestBinds | aegis/pipeline/f1_jurisdiction.py:26-31 | The amount reaches the strictest threshold exactly when it reaches that of some touched jurisdiction, or the default if there is none. |
| Stages.RunF4 | aegis/pipeline/f4_adversarial.py:54-99 | Injection or a price breach is a hard block, drift above the threshold raises risk; an embedder that raises lets the exception out. |
| Screening.Screener.Screen | aegis/screening/provider.py:66-70 | One call to an arbitrary stateful provider, which may answer, be unavailable, or fail. |
| Sanctions.CollectNames | aegis/pipeline/f2_sanctions.py:68-83 | The names in the bundle without repetitions up to case, in order. |
| Sanctions.ScreenNames | aegis/pipeline/f2_sanctions.py:133-163 | Screens the names in turn and stops at the first match or failure, as the value-level screen does. |
| Sanctions.Run | aegis/pipeline/f2_sanctions.py:97-183 | The whole stage on a context, a provider and an ownership graph: provenance, freshness, names, 50% rule. |
| ScreenRuns.F2Returns | aegis/pipeline/f2_sanctions.py:97-183 | Every early return of the stage leaves a hard block. |
| ScreenRuns.F2Completes | aegis/pipeline/f2_sanctions.py:97-183 | A completed stage has the provenance answered in this run, within the freshness bound, every name logged with the answer that the provider gave at its turn, without a non-PEP match, and an ownership share below one half. |
| Envelopes.NamesScreened | aegis/pipeline/f2_sanctions.py:68-83 | The names screened are exactly the legal names given of the merchant, the beneficiary of the cart and that of the intent, each in its first spelling. |
| Offline.OfflineFixtureProvider.Screen | aegis/screening/offline.py:43-62 | The loop and the final sort compute the answer of the lemmas. |
| Offline.MatchesExactly | aegis/screening/offline.py:43-62 | The answer holds exactly the entries scoring at least the minimum, best first. |
| Offline.ScoreInRange | aegis/screening/offline.py:50-52 | Scores lie in [0, 1], and a name equal up to case scores 1. |
| Offline.PhoneticBonus | aegis/screening/offline.py:46-52 | Under the phonetic key of the name an entry scores 0.06 more, up to 1, than under any other. |
| Offline.ListedNeverCleared | aegis/screening/offline.py:43-62 | With the offline provider a bundle naming, up to case, an entry that is not a PEP is always BLOCKed. |
| StepUp.Run | aegis/pipeline/f5_risk_stepup.py:52-111 | The stage computes the settlement that Verdicts.F5Exactly spells out: bands, baseline risk, the refusal of unbounded authority, the score added, and the quorum challenge or the BLOCK where no quorum can be assembled. |
| StepUp.VerifyQuorum | aegis/pipeline/f5_risk_stepup.py:114-132 | Satisfied exactly when enough distinct eligible signers other than the maker signed validly, and how many are missing, in any order of the contributions. |
| StepUp.QuorumExactly | aegis/pipeline/f5_risk_stepup.py:114-132 | A quorum is met exactly if that many different approvers, each listed, none the maker, signed the cart hash validly under their own keys. |
| StepUp.QuorumReachable | aegis/pipeline/f5_risk_stepup.py:97-101 | Some contributions meet a challenge exactly when its distinct eligible approvers are at least the quorum. |
| StepUp.StepUpChallenge | aegis/pipeline/f5_risk_stepup.py:93-111 | A step-up is bound to the cart, never asks the maker, and counts at least the quorum of eligible names. |
| StepUp.DuplicateGuardian | aegis/pipeline/f5_risk_stepup.py:97-101 | One guardian listed twice passes that count, and then no contributions meet the quorum. |
| Risk.CorridorFeature | aegis/ml/risk_model.py:38-43 | The loop computes the corridor feature. |
| Risk.CorridorIsWorst | aegis/ml/risk_model.py:38-43 | The feature is that of the worst jurisdiction touched, in any order. |
| Risk.LogisticScoresNoLower | aegis/ml/risk_model.py:61-75 | The shipped model never scores an unattended bundle below the attended one. |
| Risk.Weights | aegis/ml/risk_model.py:61-75 | What each feature adds to the logit, other things equal: 2.2 times the amount feature, 2.6 times the corridor, 1.1 for a merchant not among those allowed, 0.7 with nobody present; and -1.4 without any. |
| FailClosed.DecisionFailsClosed | aegis/pipeline/orchestrator.py:75-109 | Over every provider: a decision other than BLOCK was made without an exception, on valid signatures, with no hard-block signal, on list data within its freshness bound, with every name in the bundle cleared by the answer given at its turn in this run, and the ownership share below one half. |
| FailClosed.ExceptionBlocks | aegis/pipeline/orchestrator.py:217-230 | An exception from any stage, whatever the context had become, is a BLOCK with its own reason code. |
| FailClosed.NeverSkipped | aegis/pipeline/orchestrator.py:184-198 | On this pipeline the guard against a skipped screen never fires. |
| FailClosed.CodesHold | aegis/pipeline/f7_reasoncodes.py:43-50 | The reason codes are the codes of the signals, each once. |
| Verdicts.SignedExactly | aegis/gateway/verify.py:27-65 | A bundle passes the signature check exactly if intent, cart and payment each bear a proof whose method is the signer, or a key of the signer after a hash mark, and which verifies under the signer’s key. |
| Verdicts.F1Exactly | aegis/pipeline/f1_jurisdiction.py:26-93 | Which of its findings Feature 1 makes, in terms of countries, thresholds, attestation and region written out. |
| Verdicts.F2Exactly | aegis/pipeline/f2_sanctions.py:97-183 | Feature 2 completes exactly with provenance no older than seven days, every name answered without a match from 0.90 on but for PEPs, and less than half owned by the sanctioned; it then adds 25 for each PEP. |
| Verdicts.F3Exactly | aegis/pipeline/f3_structuring.py:33-96 | Feature 3 blocks exactly on the caps and otherwise adds 45 exactly for structuring. |
| Verdicts.F4Exactly | aegis/pipeline/f4_adversarial.py:54-99 | Feature 4 lets pass exactly what is not injected and within the signed cap, and then adds 30 exactly if the similarity is under 0.15. |
| Verdicts.F5Exactly | aegis/pipeline/f5_risk_stepup.py:45-111 | Feature 5 settles risk plus score, up to 100: ALLOW under 40, BLOCK from 75, in between a step-up with two approvers, three from the middle on, or BLOCK if fewer are listed; 25 and 65 with nobody present, which also adds 10 and needs a signed cap. |
| Verdicts.DecidedExactly | aegis/pipeline/orchestrator.py:75-109 | The whole decision as one table, over every provider and store: BLOCK where a condition fails or the model raises, and otherwise what the accumulated risk plus the score comes to, with the challenge of a step-up. |
| Verdicts.ScoreBinds | aegis/pipeline/f5_risk_stepup.py:87-95 | With a score of at least 0: ALLOW means a score under 40, anything but BLOCK one under 75, 25 and 65 with nobody present, and the risk on the envelope is no less than the score, up to 100. |
| Reasons.BlockedFor | aegis/pipeline/orchestrator.py:75-182 | Where a condition fails or the model raises, the BLOCK carries the code of the first condition that fails. |
| Envelopes.EnvelopeExactly | aegis/pipeline/f7_reasoncodes.py:43-69 | Where none fails, the envelope names the mandate, gives each reason once in the order of the stages, both models with their versions and the provenance of the screen, and has a SAR draft, of every amount of the cluster and their sum, exactly on structuring. |
| SeverityOrder.ResolveMonotone | aegis/pipeline/f5_risk_stepup.py:87-101 | A higher score and the tightened bands never resolve to a milder verdict, the infeasible quorum included. |
| SeverityOrder.PipelineMonotone | aegis/pipeline/orchestrator.py:155-182 | With at least the risk and the hard blocks, and no more human presence, the pipeline never ends in a milder verdict. |
| SeverityOrder.SignalsOnlyTighten | aegis/pipeline/context.py:79-83 | Adding any signal never makes the verdict milder. |
| SeverityOrder.UnattendedNeverMilder | aegis/pipeline/f5_risk_stepup.py:57-88 | The same transaction, validly signed both ways, is never decided milder without a human present. |
| SeverityOrder.RiskStays | aegis/pipeline/context.py:79-83 | The risk score of every decision lies in [0, 100]. |
| Replay.RecordedF2 | aegis/screening/provider.py:73-101 | On its recording the screening stage ends as it did live; an outright provider failure ends as a block. |
| Replay.WindowsAgain | aegis/state/velocity.py:33-38 | A store seeded with the archived windows serves exactly them, whichever store they came from and however its clock ran. |
| Replay.ArchiveKeeps | aegis/pipeline/orchestrator.py:200-212 | The archive holds the inputs, except that the screening control is marked once Feature 2 has run, while the hash in the envelope is of the inputs. |
| Replay.ReplayReproduces | aegis/pipeline/orchestrator.py:75-152 | Under any stateful provider failing at any call: a replay that completes gives the same verdict; it reproduces verdict and ordered reason codes exactly when no exception interrupted the evaluation; the world-snapshot hash matches exactly when the control was set beforehand or Feature 2 never ran. |
| Orchestration.StepUpStore.Put | aegis/state/stepup.py:17-19 | Files the challenge under its id. |
| Orchestration.Orchestrator.constructor | aegis/pipeline/orchestrator.py:52-72 | Over an empty ledger and the default graph the object is in order. |
| Orchestration.Begin | aegis/pipeline/orchestrator.py:52-72 | From nothing: an empty ledger under its key, either velocity store, a provider, and an orchestrator in order over them. |
| Orchestration.Orchestrator.EvaluateAll | aegis/pipeline/orchestrator.py:75-109 | A run of evaluations on the live objects is the run of decisions on values, books, store and provider included. |
| Orchestration.RunVerifies | aegis/ledger/store.py:95-146 | However long such a run, the ledger verifies. |
| Sessions.RecordedAt | aegis/pipeline/orchestrator.py:184-215 | The ledger of a run has, at the place of each evaluation, an entry with the verdict that the run of decisions comes to there. |
| Sessions.RecordsWhatPassed | aegis/pipeline/orchestrator.py:184-215 | A ledger with those verdicts shows as let through exactly the transfers that the run decided so. |
| Sessions.RunSession | aegis/pipeline/orchestrator.py:75-109 | From empty objects, over any jobs with fresh ids, a clock that never goes back and no negative amounts: the ledger verifies, and what it records as other than BLOCK is within both caps for every agent in every closed day. |
| Orchestration.Orchestrator.RunPipeline | aegis/pipeline/orchestrator.py:155-182 | The stages in order on context, store and provider, stopping at the first hard block or exception. |
| Orchestration.Orchestrator.Finalize | aegis/pipeline/orchestrator.py:184-215 | Checks provenance once more, appends envelope and archive to the ledger, and files the challenge of a step-up. |
| Orchestration.Orchestrator.Evaluate | aegis/pipeline/orchestrator.py:75-109 | One evaluation on the live objects: the decision, the ledger, the store, the provider and the step-up store afterwards; every recorded decision stays auditable. |
| Orchestration.Orchestrator.ReplayArchive | aegis/pipeline/orchestrator.py:121-143 | The pipeline again on an isolated seeded store and the recorded provider. |
| Orchestration.Orchestrator.ReplayDecision | aegis/pipeline/orchestrator.py:111-152 | Over any run of evaluations, replaying a recorded decision answers exactly if no stage raises again; the answer confirms the verdict, the reason codes exactly when no exception was recorded, and the world snapshot exactly when the hash of the archived inputs is the recorded one, which, if the hash tells the controls apart, is when the screening control was set beforehand or Feature 2 never ran. |
| Orchestration.EnteredIntact | aegis/ledger/store.py:95-116 | Recording a decision leaves a verifying ledger verifying. |
| Orchestration.DecidedAudited | aegis/pipeline/orchestrator.py:75-152 | Every decision and its archive satisfy that promise when they are recorded, the snapshot hash being that of the inputs with the controls as given. |

## Left out

Idealisations:

- Floats are reals, so rounding, infinities and NaN are not modelled; the tolerance 1e-9 is kept where the source has it.
- JSON numbers are finite decimals in canonical form; objects compare with key order and `True == 1` is not modelled.
- SHA-256, base64 and JSON text are functions that are injective, or do not collide on the entries at hand, where a lemma says so; Ed25519 is a relation under which own signatures verify. That a signature cannot be forged is not assumed, since no lemma needs it.
- Salts, keys, uuids, decoy digests, sort and shuffle results and clocks are parameters, so every statement is about all of them; freshness of ids and of decoys is a stated precondition where it matters.
- SQLite tables are sequences or maps with the uniqueness and ordering the SQL states; connection set-up, JSON columns and SQL errors are not modelled.
- Locks and threads: each store operation is one atomic step.
- Unicode lower and upper case and character classes are parameters; disclosure keys that are not strings are not modelled.
- The archive is taken to survive its JSON round trip unchanged, and the key ring to be the same at replay.
- The amount feature and the rounded logistic curve of the risk model, and `0.5 ** x` in the spend curve, are uninterpreted functions, monotone and in range where a lemma says so.
- A custom risk model or embedder is a function of the bundle, or raises; models that read the accumulated signals are not modelled.

Not modelled:

- The HTTP gateway, the yente and Watchman clients, command-line tools, benchmarks and demos.
- Liability apportionment (aegis/pipeline/f6_liability.py), dispute adjudication, WYSIWYS formatting, rationales and signal details: single-branch readings or finite tables that would only add easy members.
- The embedder's vectors and the injection patterns: an uninterpreted similarity and an uninterpreted test.
- `round(ctx.risk_score, 2)` in the envelope and stage timings: telemetry and presentation.
- Approvals that mutate a challenge shared with a recorded envelope (aegis/gateway/main.py:56): the ledger lemmas are about runs of evaluate and append.
- Receipts' own signing and parsing: `MandateReceipt.verify` is a test of the raw JWT, and no field is tied to it, as in the source.
- `VelocityStore.reset`, `StepUpStore.get`, `delete` and `reset`, and the SQLite `seed`: they would only add easy members.
- Exceptions inside `_finalize` itself, such as a failing ledger disk.

Weaker on purpose:

- StepUp.StepUpChallenge: does not say that the quorum can be met, because the source counts duplicate guardians; StepUp.QuorumReachable gives the exact condition.
- Offline.ListedNeverCleared: is about names equal up to case; near matches depend on the score and are covered by Offline.MatchesExactly.
- Risk.LogisticScoresNoLower: says nothing of the other features, which Risk.Weights covers.
- Nested.PropertyShown: is about keys set once; of two that set one key the later is kept, as the disclosure walk writes it.
