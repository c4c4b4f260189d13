# libottery: a verified model

libottery is a userspace random number generator. A pseudorandom function (PRF, in practice
ChaCha8, ChaCha12 or ChaCha20) fills a block; the first bytes of the block replace the key and the
rest is handed out. The C in `src/ottery.c` keeps a buffer, a position, a block counter and a key
consistent by hand on three request paths, and again when seed is added and after a fork. This
project models that generator, the two ChaCha implementations under it and the entropy layer that
seeds it, and proves what the design promises of them. Nothing is executed.

## How the modules fit together

| module | what it models |
|---|---|
| `Prf` | a PRF: key size SB, block size OL, the function, and how seed is mixed in |
| `Machine` | the generator as a pure machine over states (K, BUF), refilled eagerly as in the C |
| `Ottery` | `struct ottery_state` as a class; every method is proved to compute the machine's functions |
| `Session` | initialization, the checks before a call, reseeding after a fork, add-seed, as functions |
| `Reference`, `Demo` | the Haskell generator `test/hs/Ottery.hs`, when it agrees with the C, and the scripts that compare the two |
| `Entropy` | collecting seed bytes from a table of sources |
| `Range` | drawing from a range by rejection |
| `Clearing`, `Leftovers` | positions in the buffer, and which of the bytes handed out are still in it, after one call and over runs |
| `Provenance`, `Fork` | where every byte comes from: the machine over symbolic bytes, and many processes |
| `Keys`, `Heads` | the keys that processes have had, and exactly which of them stay apart from what is handed out |
| `Erasure`, `Runs` | symbolic bytes stand for real ones, for calls and for whole runs of processes |
| `Locking`, `Threads` | threads that share one state through a lock |
| `Words`, `ChaCha` | 32-bit words, and the ChaCha block function of section 2.3 of RFC 8439 with a 64-bit nonce, a zero word above the counter, and any number of rounds |
| `Merged`, `Krovetz` | the scalar and the vector generator, each proved to give the same blocks |
| `Streams` | reading a window of the keystream through blocks of any size |
| `Arithmetic`, `Splice` | helpers |

The chain from code to claim has four links. `Merged` and `Krovetz` give exactly `PrfBlock`, which
is the function in `ChaChaPrf`. `Ottery` computes `Session` and `Machine` over any PRF. By
`Streams.ChaChaReads` and `Erasure.CallsCommute` every call on ChaCha bytes yields the values of what
the same call yields on symbolic bytes, and by `Runs.RunCommutes` so does every run of many processes.
`Fork.NothingIsSharedOrReused`, `Keys.KeysStayApart` and `Heads.KeyIsApartIff` speak about those symbolic runs;
`Runs.ChaChaRunsAreClean` puts the last three links together.

## Main results

* Every method of the class computes the machine, and every quiet state keeps the invariant
  `Ready`: counter 0, SB <= pos < OL, key bytes cleared, the rest of the buffer untouched.
* `Fork.NothingIsSharedOrReused`: under any interleaving of init, fork, exit, add-seed and requests,
  bytes handed out by a process go back to an entropy draw of that process, and no byte is handed out
  twice, by whatever processes. Two things are asked of the run. No request needs more than 2^32 ChaCha
  blocks; `Provenance.CleanIffItFits` shows that this bound is exact. And no process gets the identifier
  stored in the state it inherits; `Fork.RebornProcessRepeats` is a run in which one does, and repeats.
* `Heads.KeyIsApartIff`: for every key that any process has at some point of a run, and every key it was
  made from, in states of its own and in inherited ones, fed or not: no byte handed out in the run, before
  or after, is in it or was mixed into it, if and only if it was not made from the first block under a key
  from which some request takes whole blocks. So the key that a forked child makes when it adds seed to the
  state it inherited is shared exactly when its parent goes on to ask for whole blocks from that same key
  (`FedKeyIsApartIff` for one request, `HeadKeyIsApartIff` over runs, `Keys.InheritedKeysAreShared` for a
  run). The child reseeds before it hands out anything itself.
* `Keys.KeysStayApart`: the keys that a process has had while it owned its state, that is, since it was
  itself seeded from the operating system, always stay apart, even when a later initialization has dropped
  them.
* `Machine.ThresholdIsUnobservableIff` and `ChunkingIsUnobservable`: below one block more than what is
  buffered the switch from small to large requests cannot be seen, however a total is cut; from there
  on some PRF shows it.
* `Reference.RequestAgreesIff`, `SeedAgreesIff`, `ConstructAgreesIff`, `DocLotsAgreesIff`: exactly when
  the reference, the documented machine and the C agree, for every PRF.
* `Clearing.RequestIsGoneIff`, `DrawIsGoneIff`: exactly when all bytes handed out are gone from memory;
  `Leftovers.RunHolds`: which are still there after any run of calls.
* `Merged.MergedState.Generate` and `Krovetz.KrovetzState.Generate`: scalar and vector code agree, for
  every layout and every even round count; `ChaCha.BlockBytesAre` says which word stands where, and
  `ChaCha.RoundsArePermutation` that nothing is lost on the way.
* `Range.DivisorIs`, `ExactlyUniform`, `HalfIsAccepted`, `PicksTheFirst`, `PickIsTheFirst`: range draws, exactly.
* `Entropy.CollectIff`, `CalledIff`, `AdvertisedSizeSuffices`: entropy collection.
* `Threads.GeneratorIsSequential`, `LockIsGivenBack`: threads that share a state get what they would get
  making their calls one at a time, and the lock is given back after every call that ends.
  `Threads.RangeKeepsLockIff`: a range draw keeps it for ever exactly when no integer it draws is accepted.

## Where the code and its documents differ

* `test/hs/Ottery.hs` refills lazily and `doc/specification.txt:107` eagerly, like the C. So after an
  exhausted buffer a larger request (`RequestAgreesIff`) or an add-seed (`SeedAgreesIff`) differs.
* Adding an empty seed asks the operating system in C and only stirs in the Haskell. Whatever the
  entropy sources do, the two agree for every PRF if and only if the seed is not empty and the
  reference buffer is not empty (`SeedAgreesIff`). `Demo` and `ScriptsAgree` require such seeds.
* When the last block has no room for a key, `getLots` returns the rest of that block too, fewer bytes than
  a key has (`LotsLength`); the C refills once more there.
* `doc/specification.txt:101` says N_BLOCKS-1 where `test/hs/Ottery.hs:149` uses callsNeeded-1. Read as
  written, with what is there taken where the output is too short, the two agree for every PRF if and only
  if the request needs exactly N_BLOCKS blocks (`DocLotsAgreesIff`). The model follows the Haskell.
* C and Haskell switch to large requests one byte apart; by `ThresholdIsUnobservableIff` this is harmless.
* `test/hs/Ottery.hs:69` fixes 8 rounds. Rounds are a parameter here.
* With more than one entropy source the C stirs once more than "Construct" in
  `doc/specification.txt:58-66` (`ConstructAgreesIff`, `ConstructSkipsABuffer`).
* The shape test at `src/ottery.c:347-351` lets through PRFs for which the assertion at line 648 fails
  (`ShapeTestIsTooWeak`). The paths need SB >= 2, 2 SB <= OL and SB + 8 < OL, no less
  (`DimensionsAreNeeded`); every shipped PRF has these, and the class requires them.
* The code means to clear what it hands out, but after refilling an exhausted buffer it counts the bytes
  to clear from the start of the buffer (`src/ottery.c:646`, `739`), where the key bytes are already
  cleared. So the last bytes taken after such a refill, up to a key length, stay in memory until the next
  refill (`RequestKeeps`, `DrawKeeps`; over runs `Leftovers.RunHolds`; one input in `BytesThatStay`). All bytes are gone if and only if
  none was taken after such a refill (`RequestIsGoneIff`, `DrawIsGoneIff`).

## Model

| member | source | states |
|---|---|---|
| `Clearing.DimensionsAreNeeded` | src/ottery.c:347-351 | the paths stay inside the block, and add-seed makes progress, if and only if SB >= 2, 2 SB <= OL and SB + 8 < OL |
| `Clearing.ShapeTestIsTooWeak` | src/ottery.c:347-351 | a PRF that passes the shape test and breaks the assertion at line 648 |
| `Clearing.PositionsOfMachine` | src/ottery.c:631-687 | the positions computed here are those of the machine's buffers, for requests and draws |
| `Clearing.RequestKeeps` | src/ottery.c:631-687 | after a request, exactly the last bytes taken after refilling an exhausted buffer, up to a key length, are still in the buffer |
| `Clearing.DrawKeeps` | src/ottery.c:723-744 | after an integer draw that wraps, all of its bytes are, up to a key length |
| `Clearing.RequestIsGoneIff` | src/ottery.c:646 | all bytes handed out by a request are gone, whatever the blocks hold, if and only if none was taken after such a refill |
| `Clearing.DrawIsGoneIff` | src/ottery.c:739 | the bytes of an integer draw are gone if and only if it did not wrap |
| `Clearing.BytesThatStay` | src/ottery.c:639-647 | a request and a draw, with their sizes and positions, that leave 6 and 4 of their bytes in memory |
| `Leftovers.UseHolds` | src/ottery.c:631-744 | one request or draw: from what interval to what interval the bytes handed out are still in the buffer |
| `Leftovers.RunHolds` | src/ottery.c:631-744 | over any run of requests and draws, the bytes still in the buffer are those of the last block in one interval, which moves only when a Stir was needed |
| `Machine.SmallIsServe` | src/ottery.c:631-687 | a request below one block more than the buffer holds reads the one stirred stream |
| `Machine.ThresholdIsUnobservableIff` | src/ottery.c:659-663 | that bound is exact: the two request paths agree for every PRF if and only if n < OL + what is buffered |
| `Machine.ServeAdds` | doc/specification.txt:82-90 | reading a and then b bytes of the stirred stream is reading a + b |
| `Machine.ChunkingIsUnobservable` | src/ottery.c:652-687 | however a total is cut into such requests, bytes and final state are the same |
| `Machine.TinyIsServe` | src/ottery.c:723-744 | an integer draw is a byte request after dropping a remainder of fewer than k bytes, and it drops one only when it wraps |
| `Machine.DrawsAreServe` | src/ottery.c:723-744 | when k divides buffer and refill, m draws are one request of m k bytes |
| `Machine.PaddedSeed` | doc/specification.txt:114-121 | folding the seed as the C does equals folding it padded by `PaddedLength` |
| `Machine.PaddedLength` | doc/specification.txt:114-121 | the padded seed is the seed and zeros, in the fewest whole chunks of half a key length |
| `Machine.MixedBytes` | src/ottery.c:469-477 | each byte of the new key that the chunk reaches is the exclusive or, bit by bit, of the block byte and the seed byte; the others are the block's |
| `Machine.MixKeyIsInjective` | src/ottery.c:469-477 | for one old key, different chunks of a length make different keys |
| `Reference.CallsNeeded` | test/hs/Ottery.hs:134-147 | how many blocks ceiling division asks for: one or two more than the whole blocks given out |
| `Reference.TinyAgrees` | test/hs/Ottery.hs:116-119 | integer draws agree with the C, up to refilling |
| `Reference.SmallAgrees` | test/hs/Ottery.hs:125-132 | small requests agree with the C, up to refilling |
| `Reference.RefillsLazily` | test/hs/Ottery.hs:116-132 | where the two states differ: after all that is buffered was asked for, the reference keeps the key and an empty buffer, and the C has stirred |
| `Reference.LotsLength` | test/hs/Ottery.hs:141-154 | a large reference request returns n bytes if and only if the last block has room for a key; otherwise how many it returns, fewer than a key length too many |
| `Reference.LotsAgrees` | test/hs/Ottery.hs:141-154 | with room for a key, the closed form gives the bytes, key and buffer of the looped C path |
| `Reference.DocLotsAgreesIff` | doc/specification.txt:92-108 | for every N_BLOCKS: the document's cut after N_BLOCKS-1 blocks is the Haskell's, for every PRF, if and only if the request needs exactly N_BLOCKS blocks |
| `Reference.RequestAgreesIff` | test/hs/Ottery.hs:208-212 | a byte request agrees for every PRF if and only if `RoomForKey`, a test on sizes |
| `Reference.AddSeedAgrees` | test/hs/Ottery.hs:173-188 | the recursive add-seed with padded chunks is the in-place loop followed by a Stir |
| `Reference.SeedAgreesIff` | src/ottery.c:429-496 | for every outcome of the entropy sources: the add-seed call of the C does what the reference does, for every PRF, if and only if seed and reference buffer are not empty |
| `Reference.ConstructAgreesIff` | doc/specification.txt:58-66 | the C's start agrees with "Construct" for every PRF if and only if one source contributed |
| `Reference.ConstructSkipsABuffer` | src/ottery.c:396-411 | otherwise the C is where the document is after one whole buffer was handed out |
| `Reference.ScriptsAgree` | test/hs/test_ottery.hs:56-102 | on every script with room for keys and seeds, C and reference print the same lines |
| `Demo.Execute` | test/test_spec.c:62-100 | one command on the C state prints what the machine says and moves it there |
| `Demo.RunDemo` | test/test_spec.c:105-134 | a whole script on the C state prints what the reference program prints from the same key |
| `Entropy.GetEntropy` | src/ottery_entropy.c:59-112 | the in-place loop computes the fold over the table: bytes, length, flags and error |
| `Entropy.ScanCalls` | src/ottery_entropy.c:77-102 | who is called: no bit of its flags is disabled, and all selected bits are there; an error is remembered if and only if some called source failed |
| `Entropy.ScanRecorded` | src/ottery_entropy.c:85-97 | no two successes have a domain bit in common; the flags recorded are those of the successes, bit by bit, without the strong bit of those marked weak |
| `Entropy.ScanWritten` | src/ottery_entropy.c:88-98 | what is written is the bytes of the successes in order, n for each, inside the buffer |
| `Entropy.DomainsCover` | src/ottery_entropy.c:85-87 | the domain mask test is true if and only if some earlier success has one of bits 8 to 15 in common |
| `Entropy.HeaderMasks` | src/ottery-internal.h:33-51 | the strong flag and the domain mask are the bits of the numbers in the header |
| `Entropy.DisabledOrNot` | src/ottery_entropy.c:80-84 | the two mask tests before a call mean: no bit is disabled and all selected bits are there |
| `Entropy.StrongOrNot` | src/ottery_entropy.c:93-106 | the two mask tests on strength mean: bit 0 is there and no bit is marked weak |
| `Entropy.DomainOrNot` | src/ottery_entropy.c:85-87 | the domain test means: one of bits 8 to 15 is in both |
| `Entropy.CollectIff` | src/ottery_entropy.c:104-111 | success if and only if some successful source has the strong bit and no bit that is marked weak; then n bytes from each success and all their flags; otherwise the error of the last failure, or "no strong source" |
| `Entropy.AdvertisedSizeSuffices` | src/ottery_entropy.c:53-57 | with the advertised size the "cannot write" break never fires and success yields at least n bytes |
| `Entropy.CalledIff` | src/ottery_entropy.c:77-91 | with that size a source is called if and only if no bit of it is disabled, all selected bits are there, and no earlier success has a domain bit in common with it |
| `Session.Check` | src/ottery.c:565-619 | a refused check changes nothing; a passed one leaves an initialized state seeded by this process |
| `Session.FromDrawUsesAll` | src/ottery.c:398-409 | a start uses every byte drawn: the first ones are the key, and all others are added as a seed |
| `Session.SeedUsesAll` | src/ottery.c:445-460 | an add-seed without a seed is one with all the bytes the operating system gives, or is refused if these are fewer than a key has |
| `Session.FatalIff` | src/ottery_common.h:53-70 | what a request is refused with is a fatal code: 0x1000 for a dead state, 0x4000 and the entropy error after a fork; what an initialization, or an add-seed to a live state, is refused with is not |
| `Ottery.ClearedIsDead` | src/ottery.c:42-47 | no aligned address has magic number 0, so cleared memory is never taken for an initialized state |
| `Ottery.MagicIs` | src/ottery.c:42-47 | the magic number is the basis combined with the address by exclusive or; different addresses have different ones |
| `Ottery.OtteryState.LiveIff` | src/ottery.c:565-572 | a state is live if and only if its magic number and its address make the basis |
| `Ottery.AlignedIs` | src/ottery.c:325-326 | the alignment test is that the address is a multiple of 16 |
| `Ottery.RangeRound` | src/ottery.c:794-818 | a refused integer reads 0, which is accepted; any other round answers or leaves the same draw with one try less |
| `Ottery.WrappedCounter` | src/ottery.c:279-285 | a 32-bit counter that has wrapped selects the same block |
| `Ottery.OtteryState.constructor` | src/ottery-internal.h:187-246 | cleared memory is an uninitialized state |
| `Ottery.OtteryState.NextBlockNoRekey` | src/ottery.c:279-285 | the buffer holds block `block_counter` of the key, the rest is untouched, the counter steps modulo 2^32 |
| `Ottery.OtteryState.NextBlock` | src/ottery.c:297-305 | the state is the Stir of the old key at the old counter, and satisfies the invariant |
| `Ottery.OtteryState.RandBytesFromBuf` | src/ottery.c:631-650 | output and state are those of the machine's small request; the whole block in the buffer afterwards, cleared bytes included |
| `Ottery.OtteryState.WholeBlocks` | src/ottery.c:671-682 | the loop writes blocks 0..q-1 of the key and leaves less than a block |
| `Ottery.OtteryState.RandBytesImpl` | src/ottery.c:652-687 | a request of any size writes the machine's bytes, nothing else, and moves to its state; the position, and the whole block in the buffer afterwards |
| `Ottery.OtteryState.RandInt` | src/ottery.c:717-744 | an integer draw: the machine's bytes and state on all three branches, the position, and the whole block in the buffer afterwards |
| `Ottery.OtteryState.MixIn` | src/ottery.c:464-483 | the add-seed loop and its final block are the fold over the seed, one `MixChunk` for each part, followed by a Stir |
| `Ottery.OtteryState.MixChunk` | src/ottery.c:466-477 | one round of the loop: every byte of the new key, as in `MixedBytes`, and the counter back at 0 |
| `Ottery.OtteryState.Gather` | src/ottery.c:445-460 | an entropy draw into a buffer of the advertised size, with its error codes |
| `Ottery.OtteryState.Reseed` | src/ottery.c:376-414 | a failed reseed leaves memory as it was; a good one keys from the first bytes, folds in the rest and stirs |
| `Ottery.OtteryState.Initialize` | src/ottery.c:314-374 | for a PRF that is well formed if it passes the shape test: every outcome of initialization, its error code, and whether the state is live or dead |
| `Ottery.OtteryState.RandCheck` | src/ottery.c:565-619 | the checks before a request; a refused call leaves key, buffer and pid alone |
| `Ottery.OtteryState.RandBytes` | src/ottery.c:689-704 | a byte call: refused with nothing written, or exactly the requested bytes |
| `Ottery.OtteryState.RandInteger` | src/ottery.c:746-792 | an integer call: refused with 0, or the value of the drawn bytes, which `ValueDigits` gives byte by byte |
| `Ottery.OtteryState.AddSeedCall` | src/ottery.c:429-507 | an add-seed call with all its errors, the new state and the entropy flags |
| `Ottery.OtteryState.Wipe` | src/ottery.c:518-522 | all of the state is cleared, and it is dead |
| `Ottery.OtteryState.RandRange` | src/ottery.c:794-818 | a range call: refused with 0, or the value and state of the first draw that is accepted, as `PickIsTheFirst` gives them; never more than upper |
| `Range.AcceptedPart` | src/ottery.c:797-802 | upper + 1 times the divisor of `DivisorIs` fits in the integer type and is at least half of it, also when upper + 1 wraps |
| `Range.ExactlyUniform` | src/ottery.c:797-802 | every value v comes from exactly the words v d .. (v + 1) d - 1, where d is the divisor of `DivisorIs` |
| `Range.DivisorIs` | src/ottery.c:797-798 | the divisor d: (upper + 1) d < 2^k <= (upper + 1) (d + 1), or 1 when upper is the largest value |
| `Range.ReduceFinds` | src/ottery.c:802 | a word w gives the value v if and only if v d <= w < (v + 1) d |
| `Range.HalfIsAccepted` | src/ottery.c:810-815 | at least half of all words are accepted |
| `Range.ValueFits` | src/ottery.c:713-715 | k bytes give an integer below 256^k |
| `Range.ValueDigits` | src/ottery.c:713-715 | byte i of the integer, counted from the lowest, is byte i of the buffer |
| `Range.ValueIsLoad` | src/ottery.c:746-768 | four bytes make the word that a little-endian load of them gives |
| `Range.SpanIs` | src/ottery.c:794-805 | the integers are those below 2^32, or below 2^64 |
| `Range.PicksTheFirst` | src/ottery.c:800-804 | the result comes from the first accepted draw, and nothing more is drawn |
| `Range.PickIsTheFirst` | src/ottery.c:797-805 | conversely, any result v comes from a word w with v d <= w < (v + 1) d, all words before it are (upper + 1) d or more, and the state is the one right after it |
| `Range.PickStays` | src/ottery.c:800-804 | a pick does not depend on how many tries were allowed |
| `Provenance.TakeKeeps` | src/ottery.c:635-638 | handing out buffered bytes keeps the provenance invariant |
| `Provenance.RawsKeep` | src/ottery.c:671-682 | so does handing out whole blocks |
| `Provenance.RekeyKeeps` | src/ottery.c:297-305 | so does keying from the start of a block, with or without seed mixed in |
| `Provenance.StirKeeps` | doc/specification.txt:53-56 | so does a Stir at any counter inside the keystream |
| `Provenance.FromBufKeeps` | src/ottery.c:631-650 | so does a small request; its bytes go back to the root of the key |
| `Provenance.TinyKeeps` | src/ottery.c:723-744 | so does an integer draw |
| `Provenance.GetBytesKeeps` | src/ottery.c:652-687 | so does a request of any size that the keystream of one key covers |
| `Provenance.AddSeedKeeps` | src/ottery.c:464-483 | so does add-seed |
| `Provenance.ConstructStarts` | src/ottery.c:396-411 | a state made from a new entropy draw satisfies it and goes back to that draw |
| `Provenance.OthersKeep` | src/ottery.c:579-596 | bytes handed out under another root do not disturb a state |
| `Provenance.BeyondTheKeystream` | src/chacha_merged.c:143-144 | a request for more than 2^32 ChaCha blocks of one key hands out a byte twice, or a key byte, or keeps one to hand out again |
| `Provenance.CleanIffItFits` | src/ottery.c:652-687 | from any state of a run, a request hands out nothing twice and no key byte if and only if the keystream of one key covers it |
| `Fork.StartKeeps` | src/ottery.c:314-374 | initialization keeps processes isolated |
| `Fork.SplitKeeps` | src/ottery.c:579-596 | so does a fork |
| `Fork.FeedKeeps` | src/ottery.c:429-496 | so does add-seed, which does not look at the process |
| `Fork.AskKeeps` | src/ottery.c:579-619 | so does a request, which reseeds after a fork or is refused |
| `Fork.RunKeeps` | src/ottery.c:376-619 | so does every run |
| `Fork.ExitKeeps` | src/ottery.c:579-596 | so does an exit, which frees an identifier |
| `Fork.NothingIsSharedOrReused` | src/ottery.c:579-596 | over all runs: a process hands out only bytes that go back to its own draws, no byte twice, and none that is in the key of a process that owns its state, or in a key that one was made from |
| `Fork.RebornProcessRepeats` | src/ottery.c:583-591 | a run in which a process gets the identifier stored in the state it inherits: it passes the check and hands out the same bytes again |
| `Keys.PerformGrows` | src/ottery.c:652-744 | the key after a request or draw was made from the key before it |
| `Keys.AddSeedGrows` | src/ottery.c:464-483 | so was the key after add-seed |
| `Keys.HappenGuards` | src/ottery.c:376-619 | every event keeps a key apart that some process has had while it owned its state |
| `Keys.KeysStayApart` | src/ottery.c:579-596 | no byte handed out in a run, before or after, is in any key that a process has had while it owned its state, before mixing |
| `Keys.InheritedKeysAreShared` | src/ottery.c:429-496 | a run in which a forked child feeds its inherited state and the parent hands out the byte that was mixed into its key |
| `Heads.BytesHeads` | src/ottery.c:652-687 | a request hands out the first SB bytes under its key if and only if it takes whole blocks, and never those under another key |
| `Heads.FedKeyIsApartIff` | src/ottery.c:464-483 | the first key an add-seed makes from a state is apart from a request on that state, and from all before it, if and only if the request is smaller than the buffered bytes and one block |
| `Heads.HappenHeads` | src/ottery.c:376-619 | every event hands out such bytes only when it is a request that takes whole blocks from that key |
| `Heads.HeadKeyIsApartIff` | src/ottery.c:464-483 | over runs: a key made from the first block under some key, by any process in any state, is apart from all bytes if and only if no request takes whole blocks from that key |
| `Heads.KeyIsApartIff` | src/ottery.c:376-687 | over runs: exactly which of all keys of all processes are apart from all bytes handed out |
| `Erasure.EvalBlock` | src/ottery-internal.h:165-173 | a symbolic block stands for the block of the evaluated key |
| `Erasure.EvalGetBytes` | src/ottery.c:652-687 | evaluating a symbolic request gives the request on bytes |
| `Erasure.EvalTiny` | src/ottery.c:723-744 | evaluating a symbolic draw gives the draw on bytes |
| `Erasure.EvalAddSeed` | src/ottery.c:464-483 | evaluating a symbolic add-seed gives the add-seed on bytes |
| `Erasure.EvalConstruct` | src/ottery.c:396-411 | evaluating a symbolic start gives the start on bytes |
| `Erasure.CallsCommute` | src/ottery.c:314-704 | every call on bytes has the same refusals and the values of the same bytes as on terms |
| `Runs.HappenCommutes` | src/ottery.c:376-619 | an event among processes on bytes does what it does on terms |
| `Runs.RunCommutes` | src/ottery.c:376-619 | a run on bytes has the values of the same run on terms |
| `Runs.ChaChaRunsAreClean` | src/chacha_merged.c:179-201 | every allowed run of processes on ChaCha hands out the values of terms that are all different and of the right owner; which keys they are apart from, exactly |
| `Locking.StepKeeps` | src/ottery.c:598-609 | one step of any thread keeps: the lock is held exactly between acquire and release, and the state is the finished calls plus the parts of the holder |
| `Locking.NoDeadlock` | src/ottery.c:598-609 | while a thread has something to do, some thread can step |
| `Locking.HolderReleases` | src/ottery.c:598-609 | a holder whose call ends within m more parts gives the lock back within that many steps of its own, under every schedule |
| `Locking.HolderKeeps` | src/ottery.c:820-842 | a holder whose call never ends keeps the lock under every schedule |
| `Locking.LockOrderIsSequential` | src/ottery.c:689-696 | under every schedule, state and results are those of making the calls one at a time |
| `Threads.CallsStayLive` | src/ottery.c:598-609 | no part of any locked call takes an initialized state back |
| `Threads.RequestAlone` | src/ottery.c:689-696 | the locked parts of a byte or integer call, run alone, are the call |
| `Threads.SeedAlone` | src/ottery.c:445-489 | so are those of an add-seed, including the return before the lock when there is no entropy |
| `Threads.RangeAlone` | src/ottery.c:820-842 | so are the rounds of a range draw under one lock: first accepted draw, or 0 when refused |
| `Threads.AloneDoes` | src/ottery.c:689-704 | whatever number of parts a call took, it did what the session functions and the range attempts say |
| `Threads.HistoryIsFold` | src/ottery.c:462-489 | a sequential history is a fold of those calls: its state and each of its results |
| `Threads.GeneratorIsSequential` | src/ottery.c:598-609 | under every schedule the free state is that fold, each result is what its call gives on the fold before it, and each thread has made its calls in order and got those results |
| `Threads.CallsEnd` | src/ottery.c:689-696 | requests and add-seeds end within two parts |
| `Threads.RangeEndsIff` | src/ottery.c:794-805 | a range draw ends if and only if it is refused or some integer it draws is accepted |
| `Threads.LockIsGivenBack` | src/ottery.c:598-609 | a thread that holds the lock for a request or an add-seed gives it back within five steps of its own |
| `Threads.RangeKeepsLockIff` | src/ottery.c:820-842 | a thread in the middle of a range draw keeps the lock under every schedule if and only if the draw has no answer |
| `Words.NatXorTwice` | src/chacha_merged.c:27 | exclusive or is its own inverse |
| `Words.XorOfBytes` | src/ottery.c:472-474 | exclusive or of two bytes is that of the numbers they are, bit by bit |
| `Words.XorOfWords` | src/chacha_merged.c:27 | exclusive or of two words works on each of their four bytes |
| `Words.RotateBack` | src/chacha_merged_ecrypt.h:53-54 | the four rotations have the opposite rotations as inverses on both sides |
| `Words.LoadStore` | src/chacha_merged_ecrypt.h:74-86 | loading what was stored gives the word |
| `Words.StoreLoad` | src/chacha_merged_ecrypt.h:74-86 | storing what was loaded gives the bytes |
| `Words.StoreDigits` | src/chacha_merged_ecrypt.h:74-86 | byte i of a stored word is its i-th digit to base 256 |
| `Words.RotateByXor` | src/chacha_krovetz.c:80-88 | shifts combined by exclusive or rotate |
| `Words.RotateByInsert` | src/chacha_krovetz.c:41-49 | reversing halfwords, and shifting left, then right with insertion, rotate |
| `Words.RotateByShuffle` | src/chacha_krovetz.c:84-85 | the byte shuffles rotate by 8 and 16 |
| `ChaCha.UndoQRound` | test/hs/ChaCha.hs:46-56 | an explicit inverse undoes the quarter round |
| `ChaCha.RedoQRound` | test/hs/ChaCha.hs:46-56 | and the quarter round undoes it |
| `ChaCha.QRoundExample` | src/chacha_merged.c:31-35 | the quarter round gives the example of section 2.1.1 of RFC 8439 |
| `ChaCha.UndoColumns` | src/chacha_merged.c:117-120 | the four column rounds together have an inverse on both sides |
| `ChaCha.UndoDiagonals` | src/chacha_merged.c:121-124 | the four diagonal rounds together have an inverse on both sides |
| `ChaCha.RoundsArePermutation` | test/hs/ChaCha.hs:93-96 | any number of double rounds permutes the 16-word states |
| `ChaCha.BytesRoundTrip` | test/hs/ChaCha.hs:98-120 | bytes to words to bytes is the identity |
| `ChaCha.WordsRoundTrip` | test/hs/ChaCha.hs:98-120 | words to bytes to words is the identity |
| `ChaCha.WordsToBytesAt` | test/hs/ChaCha.hs:98-120 | bytes 4 i .. 4 i + 3 are those of word i, lowest first |
| `ChaCha.BlockInOrder` | src/chacha_merged.c:146-162 | bytes 4 i .. 4 i + 3 of a block are those of its field number i, for each of the sixteen |
| `ChaCha.BlockBytesAre` | src/chacha_merged.c:126-162 | every four bytes of a block: the word after the rounds plus the constant, key word, counter, zero or nonce word that went in there |
| `ChaCha.KeyOfIsInjective` | test/hs/Ottery.hs:57-64 | different 40-byte keys give different key and nonce words |
| `ChaCha.KeystreamInBytes` | test/hs/Ottery.hs:94-97 | the words of n blocks, in order, are the bytes of n blocks |
| `ChaCha.KeystreamByteAt` | test/hs/Ottery.hs:94-97 | byte 64 b + o of n blocks is byte o of block b |
| `ChaCha.BlockWraps` | src/chacha_merged.c:143-144 | block numbers equal modulo 2^32 give equal blocks |
| `Merged.MergedState.Setup` | src/chacha_merged.c:171-177 | the sixteen input words hold the constants, the key, a zero and the nonce |
| `Merged.MergedState.LoadsKey` | src/chacha_merged.c:39-66 | which bytes each key and nonce word is loaded from |
| `Merged.MergedState.QuarterRound` | src/chacha_merged.c:31-35 | the in-place macro is the quarter round |
| `Merged.MergedState.Rounds` | src/chacha_merged.c:116-125 | the round loop is half as many double rounds |
| `Merged.MergedState.PutBlock` | src/chacha_merged.c:146-162 | sixteen words are written, the word of field i as four little-endian bytes at 4 i, and nothing else |
| `Merged.MergedState.BlockLoop` | src/chacha_merged.c:99-165 | the block loop writes the keystream from the counter word on, in order |
| `Merged.MergedState.Generate` | src/chacha_merged.c:179-201 | the PRF call writes exactly blocks 16 idx .. 16 idx + 15, each as in `BlockBytesAre`, and keeps the key |
| `Krovetz.LanesRotate` | src/chacha_krovetz.c:41-88 | every way the vector code spells a rotation, on Neon with gcc and with clang, SSE2 and SSSE3, rotates each lane |
| `Krovetz.DoubleRoundOfRows` | src/chacha_krovetz.c:104-114 | a double round on rows, with lane rotations, is a double round of the block |
| `Krovetz.DQRoundVectors` | src/chacha_krovetz.c:104-114 | the in-place macro computes it |
| `Krovetz.QRoundWords` | src/chacha_krovetz.c:116-120 | the scalar macro is the quarter round |
| `Krovetz.RoundLoop` | src/chacha_krovetz.c:199-218 | the round loop takes all vector blocks, and the scalar block, through all rounds |
| `Krovetz.WriteAll` | src/chacha_krovetz.c:219-230 | the vector blocks are written in order with their input added, while the counter row steps |
| `Krovetz.WriteBlock` | src/chacha_krovetz.c:122-126 | sixteen words are written, field i at position i, and nothing else |
| `Krovetz.Iteration` | src/chacha_krovetz.c:175-252 | one iteration writes BPI consecutive blocks and leaves the counter row at the next |
| `Krovetz.Blocks` | src/chacha_krovetz.c:146-254 | all iterations write consecutive blocks of the scalar keystream |
| `Krovetz.KrovetzState.Setup` | src/chacha_krovetz.c:261-267 | the state holds the 32 key bytes and the 8 nonce bytes |
| `Krovetz.KrovetzState.Generate` | src/chacha_krovetz.c:269-288 | the PRF call writes exactly the scalar generator's blocks for the same step, each as in `BlockBytesAre`, for every layout |
| `Streams.StreamGenerate` | test/streams.c:34-56 | exactly bytes skip .. skip + length - 1 of the concatenated blocks, nothing else |
| `Streams.PrfBlockAt` | src/chacha_merged.c:179-184 | byte i of PRF block c, as a byte of one ChaCha keystream modulo 2^32 blocks |
| `Streams.ChaChaReads` | src/chacha_merged.c:179-201 | the ChaCha PRF reads its blocks from one keystream, as the provenance results assume |
| `Streams.WindowIndependence` | test/streams.c:34-56 | generators with different block sizes give equal windows inside the keystream |

## Left out

- The bodies of the entropy sources (urandom, EGD, CryptGenRandom, RDRAND): each is an oracle that fills its n bytes or fails with a nonzero error below 0x1000.
- CPU feature detection, `ottery_get_impl`, and the lock back ends: the PRF, and whether a lock could be made, are inputs.
- The AltiVec branch and its big-endian conversions: disabled by `#error`. Layouts are little-endian.
- Stack wiping, the volatile memset, and clearing of the temporary entropy buffers: effects a model of values cannot show.
- The global-state wrappers, configuration setters, version and build-flag getters, `prevent_backtracking`, and the NO_ build variants: one-branch members; the default build is modelled.
- The strength of the PRF: not a functional property. The provenance results treat different keystream places as different terms.
- The test framework, benchmarks, dump tool and fake EGD server.
- The `state_len` and structure-size tests in initialization, and the internal state bytes of a PRF inside `struct ottery_state`: the class keeps the bytes the PRF was set up from.
- Widths of `size_t` and `uint16_t`: lengths and positions are unbounded; n + pos is taken not to wrap.
- Ottery.OtteryState.Initialize: requires a PRF that passes the shape test to be well formed, because the test is weaker than the paths need: with SB < 2 the add-seed loop inside it would not end. `Clearing.DimensionsAreNeeded` says exactly what is needed.
- Ottery.OtteryState.AddSeedCall: takes the seed as a value, so a seed that overlaps the state is not modelled; a null seed is the empty one.
- Ottery.OtteryState.RandRange: is stated for draws that accept within some number of tries; a loop that never accepts does not return. `Threads.RangeAlone` has no such bound.
- Krovetz.Blocks: holds the vector blocks of an iteration in a sequence instead of variables chosen by `#if`, for every number of them, and takes the output as words.
- Fork.NothingIsSharedOrReused: a request must not need more than 2^32 ChaCha blocks, and a process must not get the identifier stored in the state it inherits. `Keys` and `Heads` have the same bounds. With identifiers used again, "its own draws" means draws under its identifier.
- Locking.LockOrderIsSequential: every call has the shape check, acquire, parts, release; that the code takes the lock once, and that its early return at `src/ottery.c:604-607` releases it, is built into the model. The unlocked read of the magic number is one step.
- The entropy state (an inode number), which an add-seed without seed touches before it takes the lock (`src/ottery.c:452`).
