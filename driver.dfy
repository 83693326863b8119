/** The core of `main` in src/main.rs with its I/O taken out: the count
    guard, the choice of the thread count, the partitioned generation and
    the JSON array it writes. The seed, the CPU count and the per-wallet
    JSON rendering come in as parameters. */
module Driver {
  import opened Wrappers
  import opened Text
  import opened Primitives
  import opened WalletTypes
  import opened Generator
  import opened Orchestrator
  import opened Format

  /** `MAX_WALLETS`. */
  const MaxWallets: nat := 1_000_000_000

  /** Lines 20-23: more than `MAX_WALLETS` wallets is an error, whose message
      states the maximum in billions. */
  function ValidateCount(count: nat): (r: Result<nat, string>)
    ensures r.Ok? <==> count <= MaxWallets
    ensures r.Ok? ==> r.value == count
    ensures r.Err? ==> r.error == "Too many wallets requested. Maximum is 1 billion"
  {
    if count > MaxWallets then
      Err("Too many wallets requested. Maximum is " + NatToDecimal(MaxWallets / 1_000_000_000) + " billion")
    else Ok(count)
  }

  /** Lines 54-58: the requested thread count, or the number of CPUs when it is 0. */
  function ResolveThreads(threads: nat, cpus: nat): (n: nat)
    requires cpus >= 1
    ensures n >= 1
    ensures threads > 0 ==> n == threads
    ensures threads == 0 ==> n == cpus
  {
    if threads > 0 then threads else cpus
  }

  /** Generation from the guard to the written JSON text. A prefix that is not
      a valid human-readable part makes the batch loops panic, so it is
      excluded whenever some wallet is to be generated. */
  method Run(c: Crypto, seed: seq<byte>, count: nat, threads: nat, cpus: nat, prefix: string,
             keyType: KeyType, toJson: Wallet -> string)
    returns (r: Result<string, string>)
    requires cpus >= 1
    requires count == 0 || count > MaxWallets || c.isValidHrp(prefix)
    requires DerivedKeysValid(c, seed)
    ensures r.Err? <==> count > MaxWallets
    ensures r.Ok? ==> r.value == JsonArray(BatchSpec(c, seed, 0, count, prefix, keyType), toJson)
  {
    var checked := ValidateCount(count);
    if checked.Err? {
      return Err(checked.error);
    }
    var numThreads := ResolveThreads(threads, cpus);
    var progress := new ProgressCounter();
    var all := GenerateAllWallets(c, seed, count, numThreads, prefix, keyType, progress);
    PollerTerminates(count, numThreads);
    assert PollerStops(progress.value, count);  // the progress thread's loop exits
    AllOutputsAreOneBatch(c, seed, count, numThreads, prefix, keyType);
    var text := WriteJsonArray(all, toJson);
    r := Ok(text);
  }
}
