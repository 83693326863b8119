# wallet-factory core, modelled in Dafny

This project models the deterministic part of a Cosmos wallet generator: how
one hierarchical-deterministic seed is turned into a list of wallet records,
one per BIP-44 path `m/44'/118'/0'/0/{index}`, and how that work is split
across worker threads and joined again in index order.

- `Generator` (src/generator.rs): `generate_addresses` as a function from a
  private key to the tuple (bech32 address, optional `0x` EVM address, base64
  public key, hex private key); the two batch loops as methods over a shared
  progress counter, proved equal to a specification function `BatchSpec`.
- `Partition` and `Orchestrator` (src/main.rs:129-151): the per-thread ranges
  as pure arithmetic, and the thread loop whose concatenated output is proved
  to be one sequential batch over `[0, count)`, whatever the number of threads.
- `Format` (src/main.rs:77-84 and 172-180): the thousands-separated count and
  the JSON array framing.
- `Driver` (src/main.rs:20-23 and 54-58): the count guard, the choice of the
  thread count, and one run from the guard to the written JSON text.
- `WalletTypes` mirrors `Wallet` (src/wallet.rs:4-13) and `KeyType`
  (src/cli.rs:4-9). `Text` renders decimals and hex. `Wrappers` holds Option and Result.

The cryptographic and encoding libraries are not modelled. `Primitives.Crypto`
is a record of functions passed to every operation: BIP-32 derivation,
secret-key validity, point serialisation, SHA-256, RIPEMD-160, Keccak-256,
human-readable-part validity, bech32 encoding and base64. Everything proved
holds for every behaviour of these functions, with one exception: the loops and
the run that calls them assume that derivation returns only valid secret keys
(`Primitives.DerivedKeysValid`, see "## Left out"). Only their output sizes are fixed:
20 bytes for RIPEMD-160, 32 for the other two hashes, 33 and 65 for the two
point serialisations. `hex::encode` is modelled concretely, as lower-case hex
with two digits per byte, and has a decoder.

Three behaviours of the code that the model keeps:
- An invalid prefix does not fail a run by itself. Each batch panics on it
  (`Hrp::parse(prefix).expect`) before its loop starts. A run with `count == 0`
  calls no batch, so it succeeds whatever the prefix. The model therefore
  requires a valid prefix only when some wallet is to be generated.
- The last thread's count is `count.saturating_sub(start)`, which can be 0. It is
  not `count - (threads - 1) * wpt`, which can be negative.
- The progress total of one batch of `count` is `1000 * ceil(count / 1000) + count % 1000`.
  This total exceeds `count` unless `count` is a multiple of 1000.
  `Generator.BatchProgressBounds` proves this.

## Model

| member | source | states |
|---|---|---|
| Text.NatToDecimalDigits | src/generator.rs:96 | the decimal rendering of an index is a non-empty string of digits with no leading zero (except `0` itself) |
| Text.DecimalRoundTrip | src/generator.rs:95-96 | parsing the decimal rendering of an index gives the index back |
| Text.DecimalInjective | src/generator.rs:95-96 | two indices render to the same decimal string iff they are equal |
| Text.HexRoundTrip | src/generator.rs:31 | hex-decoding `hex::encode(bytes)` gives back the bytes |
| Generator.PathIndexRoundTrip | src/generator.rs:95-96 | the index can be read back out of `m/44'/118'/0'/0/{index}` |
| Generator.DerivationPathInjective | src/generator.rs:94-96 | distinct indices give distinct derivation paths, and equal paths come from equal indices |
| Generator.AddressBytes | src/generator.rs:36-56 | the bytes behind the address are 20 long for both key types, and for Ethsecp256k1 they are the last 20 of the 32-byte Keccak digest |
| Generator.EvmAddress | src/generator.rs:60 | the EVM address starts with `0x` and has two hex characters per byte, so 2 + 2·20 = 42 characters for the 20 address bytes |
| Generator.EvmAddressRoundTrip | src/generator.rs:60 | the hex after `0x` decodes back to the address bytes |
| Generator.GenerateAddresses | src/generator.rs:22-58 | a rejected key gives `InvalidSecretKey`, checked first; an accepted key with a prefix that is not a valid HRP gives `InvalidPrefix` |
| Generator.GenerateAddressesOk | src/generator.rs:22-66 | `Ok` (never a partial tuple) exactly when the key is accepted, the prefix is valid and bech32 encoding succeeds. On `Ok`, the EVM address is absent iff the key type is Secp256k1. The same 20 bytes feed the bech32 address and the 42-character EVM address. The public key is base64 of the compressed point for both types. The private key is `hex::encode` of the key, which decodes back by `Text.HexRoundTrip` |
| Generator.WalletAtIndexed | src/generator.rs:94-121 | a wallet produced at an index carries that index's derivation path, from which its index reads back |
| Generator.Secp256k1WalletAt | src/generator.rs:95-121 | one iteration of the Secp256k1 loop yields the wallet `WalletAt` specifies: derivation, then the address tuple of the derived key, and no wallet when either fails; `.expect("Invalid key")` is excluded by `DerivedKeysValid` |
| Generator.Ethsecp256k1WalletAt | src/generator.rs:146-175 | one iteration of the Ethsecp256k1 loop yields the wallet `WalletAt` specifies, with the `0x` EVM address; no wallet when derivation or encoding fails; `.expect("Invalid key")` is excluded by `DerivedKeysValid` |
| Generator.BatchSplit | src/generator.rs:94-126 | a batch over `a + b` indices is the batch over the first `a` followed by the batch over the next `b` |
| Generator.BatchLength | src/generator.rs:90-130 | a batch returns at most `count` wallets |
| Generator.BatchSound | src/generator.rs:94-121 | every wallet of a batch has an index in `[start, start + count)`, is the pipeline's wallet for that index, and the indices strictly increase, so the paths are pairwise distinct |
| Generator.BatchMatchesGenerateAddresses | src/generator.rs:98-119 | for each pushed wallet, derivation succeeded at its path, and its four other fields are exactly `generate_addresses` of the derived key |
| Generator.BatchComplete | src/generator.rs:98-121 | a failed index drops only its own wallet: every index of the range whose derivation and encoding succeed has its wallet in the batch |
| Generator.BatchEvmShape | src/generator.rs:113-173 | Secp256k1 batches carry no EVM address; Ethsecp256k1 batches carry a 42-character `0x` address on every wallet |
| Generator.LoopProgressClosedForm | src/generator.rs:123-125 | the bumps inside the loop over `count` indices total `1000 * ceil(count / 1000)` |
| Generator.BatchProgressBounds | src/generator.rs:123-129 | one batch reports `1000 * ceil(count / 1000) + count % 1000`, never less than `count`, and exactly `count` iff `count % 1000 == 0` |
| Generator.ProgressCounter.FetchAdd | src/generator.rs:124 | `fetch_add` raises the counter by exactly the amount given |
| Generator.GenerateSecp256k1Batch | src/generator.rs:83-131 | the loop returns `BatchSpec` for Secp256k1 and raises the counter by `BatchProgress(count)`; `.expect("Invalid key")` is excluded by `DerivedKeysValid` |
| Generator.GenerateEthsecp256k1Batch | src/generator.rs:134-185 | the loop returns `BatchSpec` for Ethsecp256k1 and raises the counter by `BatchProgress(count)`; `.expect("Invalid key")` is excluded by `DerivedKeysValid` |
| Generator.GenerateWalletsBatch | src/generator.rs:68-80 | the loop is chosen by the key type alone, and the result is that key type's `BatchSpec` |
| Partition.SaturatingSub | src/main.rs:140 | `a.saturating_sub(b)` is 0 exactly when `a <= b`, and otherwise adds back to `a` |
| Partition.WalletsPerThreadIsCeiling | src/main.rs:129 | `(count + n - 1) / n` is the ceiling of `count / n`: the least `w` with `w * n >= count` |
| Partition.ThreadRange | src/main.rs:138-143 | thread `t` covers `[min(t·wpt, count), min((t+1)·wpt, count))`, the last thread included |
| Partition.ThreadSlice | src/main.rs:138-143 | a thread's count is the gap between consecutive boundaries, and a non-empty range starts at its boundary, so consecutive ranges are contiguous and do not overlap |
| Partition.ThreadRangeBounds | src/main.rs:138-143 | each range lies inside `[0, count)`, holds at most `wallets_per_thread` indices (the last thread too), and is empty once its start reaches `count` |
| Partition.CountsUpToPrefix | src/main.rs:135-143 | the first `k` threads together cover exactly `min(k·wpt, count)` indices |
| Partition.CountsSumToTotal | src/main.rs:135-151 | the per-thread counts sum to `count` |
| Partition.CoveredByExactlyOne | src/main.rs:138-143 | every index below `count` lies in the range of exactly one thread, thread `index / wpt` |
| Partition.EmptyRanges | src/main.rs:139-147 | with `count == 0`, or for a thread id at or beyond `count`, the thread's count is 0 |
| Orchestrator.AppendThread | src/main.rs:137-150 | appending thread `t`'s output to the results before its range gives the results up to the end of its range |
| Orchestrator.OutputsUpToPrefix | src/main.rs:135-151 | the outputs of the first `k` threads, in order, are the sequential results over `[0, min(k·wpt, count))` |
| Orchestrator.AllOutputsAreOneBatch | src/main.rs:135-151 | the concatenated output equals a single sequential batch over `[0, count)` |
| Orchestrator.ThreadCountIrrelevant | src/main.rs:129-151 | the final wallet list is the same for any two thread counts |
| Orchestrator.AllOutputsOrderedAndComplete | src/main.rs:135-151 | the final list has at most `count` wallets, indices strictly ascending within `[0, count)`, each the pipeline's wallet for its index, and every successful index present |
| Orchestrator.ProgressCoversCounts | src/main.rs:145-148 | the progress reported by the first `k` threads is at least their combined count |
| Orchestrator.PollerTerminates | src/main.rs:122 | after all threads finish, the counter satisfies the exit test `current_count >= args.count`, which holds at once when `count == 0` |
| Orchestrator.GenerateAllWallets | src/main.rs:135-151 | the thread loop returns the outputs concatenated in `thread_id` order and raises the counter by the sum of the batches' progress; a batch runs only for a non-empty range |
| Format.RChunksSizes | src/main.rs:80 | `rchunks(3)` of a non-empty string yields full 3-character chunks except the last (leftmost), which has 1 to 3 |
| Format.RChunksConcat | src/main.rs:80-81 | the reversed chunks, written one after another, spell the original string |
| Format.DigitGroupsShape | src/main.rs:78-83 | the digit groups are at least one, the first has 1 to 3 digits, every other exactly 3, and together they spell the decimal count |
| Format.RemoveCommasJoin | src/main.rs:84 | deleting the commas of digit groups joined by `,` gives the groups written together |
| Format.GroupThousandsRemoveCommas | src/main.rs:77-84 | deleting the commas of the rendered count gives back the plain decimal string |
| Format.JsonArrayIsJoin | src/main.rs:172-180 | the framing writes `[`, the entries `\n  ` + json joined by `,`, then `\n]`; no wallets give `[\n]` |
| Format.JsonArrayBodyCommas | src/main.rs:173-179 | the loop writes exactly `n - 1` separating commas for `n` wallets, besides those inside the wallets' JSON |
| Format.JsonArrayCommas | src/main.rs:172-180 | the whole array holds `n - 1` framing commas plus those inside the wallets' JSON |
| Format.WriteJsonArray | src/main.rs:172-180 | the write loop produces exactly the framed array |
| Driver.ValidateCount | src/main.rs:20-23 | the count passes iff it is at most 1,000,000,000, and the error says "Maximum is 1 billion" |
| Driver.ResolveThreads | src/main.rs:54-58 | the thread count is the requested one, or the CPU count when 0 is requested, and is never 0 |
| Driver.Run | src/main.rs:20-180 | a run fails iff the count exceeds the maximum; otherwise it writes the JSON array of the sequential batch over `[0, count)` |
| Partition.WalletsPerThread | src/main.rs:129 | definition of `wallets_per_thread`; its properties are proved in `Partition.WalletsPerThreadIsCeiling` |
| Partition.ThreadStart | src/main.rs:138 | definition of `start_idx`; its properties are proved in `Partition.ThreadSlice` and `Partition.ThreadRangeBounds` |
| Partition.ThreadCount | src/main.rs:139-143 | definition of a thread's count; its properties are proved in `Partition.ThreadRange`, `Partition.ThreadRangeBounds` and `Partition.CountsSumToTotal` |
| Orchestrator.ThreadOutput | src/main.rs:145-149 | definition of one thread's output; its properties are proved in `Orchestrator.AppendThread` |
| Orchestrator.OutputsUpTo | src/main.rs:135-151 | definition of the outputs of the first `k` threads in order; its properties are proved in `Orchestrator.OutputsUpToPrefix` and `Orchestrator.AllOutputsAreOneBatch` |
| Orchestrator.PollerStops | src/main.rs:122 | definition of the progress thread's exit test; its properties are proved in `Orchestrator.PollerTerminates` |
| Generator.DerivationPath | src/generator.rs:96 | definition of the path string; its properties are proved in `Generator.PathIndexRoundTrip` and `Generator.DerivationPathInjective` |
| Generator.WalletAt | src/generator.rs:94-121 | definition of one loop iteration's result; its properties are proved in `Generator.WalletAtIndexed` and `Generator.BatchMatchesGenerateAddresses` |
| Generator.BatchSpec | src/generator.rs:94-121 | definition of a batch's result; its properties are proved in `Generator.BatchSound`, `Generator.BatchComplete` and `Generator.BatchSplit` |
| Generator.LoopProgress | src/generator.rs:123-125 | definition of the loop's progress bumps; its properties are proved in `Generator.LoopProgressClosedForm` |
| Generator.BatchProgress | src/generator.rs:123-129 | definition of a batch's total progress; its properties are proved in `Generator.BatchProgressBounds` |
| Text.NatToDecimal | src/generator.rs:96 | definition of the `{}` rendering of an index; its properties are proved in `Text.NatToDecimalDigits` and `Text.DecimalRoundTrip` |
| Text.Hex | src/generator.rs:31 | definition of `hex::encode`; two characters per byte, and its inverse is proved in `Text.HexRoundTrip` |
| Format.GroupThousands | src/main.rs:77-84 | definition of the comma-grouped count; its properties are proved in `Format.DigitGroupsShape` and `Format.GroupThousandsRemoveCommas` |
| Format.JsonArray | src/main.rs:172-180 | definition of the framed JSON array; its properties are proved in `Format.JsonArrayIsJoin` and `Format.JsonArrayCommas` |

## Left out

- Elliptic-curve arithmetic, key validity, SHA-256, RIPEMD-160, Keccak-256 and BIP-32 child-key derivation. These are foreign library calls, kept as uninterpreted fields of `Crypto`.
- The bech32 checksum and the human-readable-part rules of BIP 173, and base64. These are library calls, also uninterpreted.
- Mnemonic parsing and seed generation of BIP 39, and the stdin prompts (src/main.rs:25-51). The seed is a parameter.
- The rayon thread pool, `flat_map` scheduling, relaxed atomic ordering and the thread-local secp256k1 context. The threads run one after another in the model, and the counter is a plain field.
- The progress-bar thread's sleeps, clock readings and `f64` rate (src/main.rs:102-126). Only its exit test is modelled.
- The memory estimate, file and directory creation, `BufWriter`, `fs::metadata` and the performance report (src/main.rs:25-35, 153-205). These are I/O and floating point. The JSON text is built as a string, and each wallet's serde JSON is a parameter.
- clap argument parsing and the serde field renames (src/cli.rs:11-37, src/wallet.rs:3-12).
- `usize` wrap-around in `count + num_threads - 1`, `thread_id * wallets_per_thread` and `fetch_add`. Integers are unbounded in the model. The count guard keeps `count` at most 10^9, but a huge `--threads` value is not excluded.
- Generator.Secp256k1WalletAt, Generator.Ethsecp256k1WalletAt, Generator.GenerateSecp256k1Batch, Generator.GenerateEthsecp256k1Batch, Generator.GenerateWalletsBatch, Orchestrator.GenerateAllWallets, Driver.Run: the `.expect("Invalid key")` panic is excluded by the precondition `DerivedKeysValid`, not proved absent. It states that every key BIP-32 derivation returns is a valid secret key; `tiny_hderive` holds the derived key as a parsed `SecretKey`.
- Driver.ResolveThreads, Driver.Run: `requires cpus >= 1` assumes that `num_cpus::get()` returns at least 1, which that library guarantees; the CPU count is a parameter.
