/** src/generator.rs: from a derived private key to the address tuple
    (`generate_addresses`), and the per-batch loops that walk a contiguous
    range of BIP-44 indices (`generate_wallets_batch` and the two loops it
    dispatches to), bumping a shared progress counter as they go. */
module Generator {
  import opened Wrappers
  import opened Text
  import opened Primitives
  import opened WalletTypes

  /** Why `generate_addresses` returns `Err`. */
  datatype AddressError =
    | InvalidSecretKey  // `SecretKey::from_slice` rejects the 32 bytes
    | InvalidPrefix     // `Hrp::parse` rejects the prefix
    | EncodingFailed    // `bech32::encode` fails

  /** `(bech32 address, EVM address, base64 public key, hex private key)`. */
  type Addresses = (string, Option<string>, string, string)

  /** BIP 44, section "Path levels": purpose 44', coin type 118', account 0', change 0. */
  const PathPrefix: string := "m/44'/118'/0'/0/"

  /** `format!("m/44'/118'/0'/0/{}", index)`. */
  function DerivationPath(index: nat): string {
    PathPrefix + NatToDecimal(index)
  }

  /** Reads the address index back out of a derivation path. */
  function PathIndex(path: string): Option<nat> {
    if |path| > |PathPrefix| && path[..|PathPrefix|] == PathPrefix && IsDigits(path[|PathPrefix|..])
    then Some(DecimalValue(path[|PathPrefix|..]))
    else None
  }

  lemma PathIndexRoundTrip(index: nat)
    ensures PathIndex(DerivationPath(index)) == Some(index)
  {
    var path := DerivationPath(index);
    assert path[..|PathPrefix|] == PathPrefix;
    assert path[|PathPrefix|..] == NatToDecimal(index);
    DecimalRoundTrip(index);
  }

  /** Different indices give different paths. */
  lemma DerivationPathInjective(i: nat, j: nat)
    ensures DerivationPath(i) == DerivationPath(j) <==> i == j
  {
    PathIndexRoundTrip(i);
    PathIndexRoundTrip(j);
  }

  /** The index a wallet was derived at, or -1 for a path of another shape. */
  function IndexOf(w: Wallet): int {
    match PathIndex(w.derivationPath)
    case Some(i) => i
    case None => -1
  }

  /** The bytes that the bech32 address (and, for Ethsecp256k1, the EVM
      address) encodes: RIPEMD-160 of SHA-256 of the compressed public key,
      or the last 20 bytes of Keccak-256 of the uncompressed key without its tag. */
  function AddressBytes(c: Crypto, privateKey: Bytes32, keyType: KeyType): (bytes: seq<byte>)
    ensures |bytes| == 20
  {
    match keyType
    case Secp256k1 => c.ripemd160(c.sha256(c.serializeCompressed(privateKey)))
    case Ethsecp256k1 => c.keccak256(c.serializeUncompressed(privateKey)[1..])[12..]
  }

  /** `format!("0x{}", hex::encode(address_bytes))`. */
  function EvmAddress(bytes: seq<byte>): (s: string)
    ensures |s| == 2 + 2 * |bytes| && s[..2] == "0x"
  {
    "0x" + Hex(bytes)
  }

  /** The EVM address decodes back to the bytes it was made from. */
  lemma EvmAddressRoundTrip(bytes: seq<byte>)
    ensures EvmAddress(bytes)[..2] == "0x" && HexDecode(EvmAddress(bytes)[2..]) == Some(bytes)
  {
    HexRoundTrip(bytes);
    assert EvmAddress(bytes)[2..] == Hex(bytes);
  }

  /** `generate_addresses`: the address tuple of one private key. */
  function GenerateAddresses(c: Crypto, privateKey: Bytes32, prefix: string, keyType: KeyType)
    : (r: Result<Addresses, AddressError>)
    ensures !c.isValidSecretKey(privateKey) ==> r == Err(InvalidSecretKey)
    ensures c.isValidSecretKey(privateKey) && !c.isValidHrp(prefix) ==> r == Err(InvalidPrefix)
  {
    if !c.isValidSecretKey(privateKey) then Err(InvalidSecretKey)
    else
      var privateKeyHex := Hex(privateKey);
      match keyType
      case Secp256k1 =>
        var pubkeyCompressed := c.serializeCompressed(privateKey);
        var pubkeyBase64 := c.base64(pubkeyCompressed);
        var ripemdHash := c.ripemd160(c.sha256(pubkeyCompressed));
        if !c.isValidHrp(prefix) then Err(InvalidPrefix)
        else (
          match c.bech32Encode(prefix, ripemdHash)
          case None => Err(EncodingFailed)
          case Some(address) => Ok((address, None, pubkeyBase64, privateKeyHex)))
      case Ethsecp256k1 =>
        var pubkeyCompressed := c.serializeCompressed(privateKey);
        var pubkeyBase64 := c.base64(pubkeyCompressed);
        var pubkeyUncompressed := c.serializeUncompressed(privateKey);
        var keccakHash := c.keccak256(pubkeyUncompressed[1..]);
        var addressBytes := keccakHash[12..];
        if !c.isValidHrp(prefix) then Err(InvalidPrefix)
        else (
          match c.bech32Encode(prefix, addressBytes)
          case None => Err(EncodingFailed)
          case Some(address) => Ok((address, Some("0x" + Hex(addressBytes)), pubkeyBase64, privateKeyHex)))
  }

  /** What `generate_addresses` returns when the key and the prefix are valid:
      `Ok` exactly when bech32 encoding succeeds, and then the four fields
      computed from the key. */
  lemma GenerateAddressesOk(c: Crypto, privateKey: Bytes32, prefix: string, keyType: KeyType)
    ensures var r := GenerateAddresses(c, privateKey, prefix, keyType);
      (r.Ok? <==>
        c.isValidSecretKey(privateKey) && c.isValidHrp(prefix) &&
        c.bech32Encode(prefix, AddressBytes(c, privateKey, keyType)).Some?) &&
      (r.Ok? ==>
        (r.value.1.None? <==> keyType == Secp256k1) &&
        r.value.0 == c.bech32Encode(prefix, AddressBytes(c, privateKey, keyType)).value &&
        (keyType == Ethsecp256k1 ==>
          r.value.1 == Some(EvmAddress(AddressBytes(c, privateKey, keyType))) && |r.value.1.value| == 42) &&
        r.value.2 == c.base64(c.serializeCompressed(privateKey)) &&
        r.value.3 == Hex(privateKey))
  {
  }

  /** The wallet the pipeline produces at one index, or None when derivation
      or address generation fails there. */
  function WalletAt(c: Crypto, seed: seq<byte>, index: nat, prefix: string, keyType: KeyType)
    : (w: Option<Wallet>)
  {
    var path := DerivationPath(index);
    match c.derive(seed, path)
    case None => None
    case Some(privateKey) =>
      match GenerateAddresses(c, privateKey, prefix, keyType)
      case Err(_) => None
      case Ok((address, evmAddress, pubkey, privateKeyHex)) =>
        Some(Wallet(address, evmAddress, pubkey, privateKeyHex, path))
  }

  /** The successful results of `at` over indices `start .. start + count`, in index order. */
  function Collect(at: nat -> Option<Wallet>, start: nat, count: nat): seq<Wallet> {
    if count == 0 then []
    else Collect(at, start, count - 1) + OptionToSeq(at(start + count - 1))
  }

  /** What one batch returns: the successful wallets of indices
      `start .. start + count`, in index order. */
  function BatchSpec(c: Crypto, seed: seq<byte>, start: nat, count: nat, prefix: string, keyType: KeyType)
    : seq<Wallet>
  {
    Collect(Pipeline(c, seed, prefix, keyType), start, count)
  }

  /** The whole per-index pipeline of one run, as a function of the index. */
  function Pipeline(c: Crypto, seed: seq<byte>, prefix: string, keyType: KeyType): nat -> Option<Wallet> {
    (i: nat) => WalletAt(c, seed, i, prefix, keyType)
  }

  /** Every wallet's index, as read by `idx`, lies in `lo .. hi`. */
  predicate IndicesWithin(ws: seq<Wallet>, idx: Wallet -> int, lo: int, hi: int) {
    forall j :: 0 <= j < |ws| ==> lo <= idx(ws[j]) < hi
  }

  /** The indices of the wallets, as read by `idx`, strictly increase. */
  predicate StrictlyAscending(ws: seq<Wallet>, idx: Wallet -> int) {
    forall j, k :: 0 <= j < k < |ws| ==> idx(ws[j]) < idx(ws[k])
  }

  /** Every wallet `at` produces carries the index it was produced at. */
  ghost predicate Indexed(at: nat -> Option<Wallet>, idx: Wallet -> int) {
    forall i: nat :: at(i).Some? ==> idx(at(i).value) == i
  }

  lemma WalletAtIndexed(c: Crypto, seed: seq<byte>, prefix: string, keyType: KeyType)
    ensures Indexed(Pipeline(c, seed, prefix, keyType), IndexOf)
  {
    forall i: nat | WalletAt(c, seed, i, prefix, keyType).Some?
      ensures IndexOf(WalletAt(c, seed, i, prefix, keyType).value) == i
    {
      PathIndexRoundTrip(i);
    }
  }

  lemma {:induction false} CollectSplit(at: nat -> Option<Wallet>, start: nat, a: nat, b: nat)
    ensures Collect(at, start, a + b) == Collect(at, start, a) + Collect(at, start + a, b)
  {
    if b > 0 {
      CollectSplit(at, start, a, b - 1);
    }
  }

  lemma {:induction false} CollectLength(at: nat -> Option<Wallet>, start: nat, count: nat)
    ensures |Collect(at, start, count)| <= count
  {
    if count > 0 {
      CollectLength(at, start, count - 1);
    }
  }

  lemma {:induction false} CollectWithin(at: nat -> Option<Wallet>, idx: Wallet -> int, start: nat, count: nat)
    requires Indexed(at, idx)
    ensures var ws := Collect(at, start, count);
      IndicesWithin(ws, idx, start, start + count) &&
      forall j :: 0 <= j < |ws| ==> idx(ws[j]) >= 0 && at(idx(ws[j])) == Some(ws[j])
  {
    if count > 0 {
      CollectWithin(at, idx, start, count - 1);
    }
  }

  lemma {:induction false} CollectAscending(at: nat -> Option<Wallet>, idx: Wallet -> int, start: nat, count: nat)
    requires Indexed(at, idx)
    ensures StrictlyAscending(Collect(at, start, count), idx)
  {
    if count > 0 {
      CollectAscending(at, idx, start, count - 1);
      CollectWithin(at, idx, start, count - 1);
    }
  }

  lemma {:induction false} CollectComplete(at: nat -> Option<Wallet>, start: nat, count: nat, i: nat)
    requires start <= i < start + count
    requires at(i).Some?
    ensures at(i).value in Collect(at, start, count)
  {
    if i < start + count - 1 {
      CollectComplete(at, start, count - 1, i);
    }
  }

  /** One more index extends a batch by that index's wallet, if any. */
  lemma BatchPush(c: Crypto, seed: seq<byte>, start: nat, i: nat, prefix: string, keyType: KeyType, w: Option<Wallet>)
    requires w == WalletAt(c, seed, start + i, prefix, keyType)
    ensures BatchSpec(c, seed, start, i + 1, prefix, keyType)
         == BatchSpec(c, seed, start, i, prefix, keyType) + OptionToSeq(w)
  {
  }

  /** A batch over `a + b` indices is the batch over the first `a` followed
      by the batch over the next `b`. */
  lemma BatchSplit(c: Crypto, seed: seq<byte>, start: nat, a: nat, b: nat, prefix: string, keyType: KeyType)
    ensures BatchSpec(c, seed, start, a + b, prefix, keyType)
         == BatchSpec(c, seed, start, a, prefix, keyType) + BatchSpec(c, seed, start + a, b, prefix, keyType)
  {
    CollectSplit(Pipeline(c, seed, prefix, keyType), start, a, b);
  }

  /** A batch never holds more wallets than indices it visited. */
  lemma BatchLength(c: Crypto, seed: seq<byte>, start: nat, count: nat, prefix: string, keyType: KeyType)
    ensures |BatchSpec(c, seed, start, count, prefix, keyType)| <= count
  {
    CollectLength(Pipeline(c, seed, prefix, keyType), start, count);
  }

  /** Every wallet of a batch is the pipeline's wallet at an index inside the
      batch's range, and the wallets appear in strictly increasing index
      order, so their derivation paths are pairwise distinct. */
  lemma BatchSound(c: Crypto, seed: seq<byte>, start: nat, count: nat, prefix: string, keyType: KeyType)
    ensures var ws := BatchSpec(c, seed, start, count, prefix, keyType);
      IndicesWithin(ws, IndexOf, start, start + count) &&
      StrictlyAscending(ws, IndexOf) &&
      forall j :: 0 <= j < |ws| ==> WalletAt(c, seed, IndexOf(ws[j]), prefix, keyType) == Some(ws[j])
  {
    WalletAtIndexed(c, seed, prefix, keyType);
    CollectWithin(Pipeline(c, seed, prefix, keyType), IndexOf, start, count);
    CollectAscending(Pipeline(c, seed, prefix, keyType), IndexOf, start, count);
  }

  /** Every wallet of a batch carries exactly the tuple `generate_addresses`
      returns for the key derived at its path. */
  lemma BatchMatchesGenerateAddresses(c: Crypto, seed: seq<byte>, start: nat, count: nat, prefix: string,
                                      keyType: KeyType)
    ensures var ws := BatchSpec(c, seed, start, count, prefix, keyType);
      forall j :: 0 <= j < |ws| ==>
        IndexOf(ws[j]) >= 0 &&
        ws[j].derivationPath == DerivationPath(IndexOf(ws[j])) &&
        c.derive(seed, ws[j].derivationPath).Some? &&
        GenerateAddresses(c, c.derive(seed, ws[j].derivationPath).value, prefix, keyType)
          == Ok((ws[j].address, ws[j].evmAddress, ws[j].pubkey, ws[j].privateKey))
  {
    var ws := BatchSpec(c, seed, start, count, prefix, keyType);
    BatchSound(c, seed, start, count, prefix, keyType);
    forall j | 0 <= j < |ws|
      ensures IndexOf(ws[j]) >= 0 &&
        ws[j].derivationPath == DerivationPath(IndexOf(ws[j])) &&
        c.derive(seed, ws[j].derivationPath).Some? &&
        GenerateAddresses(c, c.derive(seed, ws[j].derivationPath).value, prefix, keyType)
          == Ok((ws[j].address, ws[j].evmAddress, ws[j].pubkey, ws[j].privateKey))
    {
      var i: nat := IndexOf(ws[j]);
      assert WalletAt(c, seed, i, prefix, keyType) == Some(ws[j]);
    }
  }

  /** A failure at one index drops only that wallet: every index of the range
      whose pipeline succeeds has its wallet in the batch. */
  lemma BatchComplete(c: Crypto, seed: seq<byte>, start: nat, count: nat, prefix: string, keyType: KeyType, i: nat)
    requires start <= i < start + count
    requires WalletAt(c, seed, i, prefix, keyType).Some?
    ensures WalletAt(c, seed, i, prefix, keyType).value in BatchSpec(c, seed, start, count, prefix, keyType)
  {
    CollectComplete(Pipeline(c, seed, prefix, keyType), start, count, i);
  }

  /** Secp256k1 batches carry no EVM address; Ethsecp256k1 batches carry a
      42-character `0x` one, and each is the pipeline's result for its index. */
  lemma BatchEvmShape(c: Crypto, seed: seq<byte>, start: nat, count: nat, prefix: string, keyType: KeyType)
    ensures forall w :: w in BatchSpec(c, seed, start, count, prefix, keyType) ==>
      (w.evmAddress.None? <==> keyType == Secp256k1) &&
      (w.evmAddress.Some? ==> |w.evmAddress.value| == 42 && w.evmAddress.value[..2] == "0x")
  {
    var ws := BatchSpec(c, seed, start, count, prefix, keyType);
    BatchSound(c, seed, start, count, prefix, keyType);
    forall w | w in ws
      ensures (w.evmAddress.None? <==> keyType == Secp256k1) &&
        (w.evmAddress.Some? ==> |w.evmAddress.value| == 42 && w.evmAddress.value[..2] == "0x")
    {
      var j :| 0 <= j < |ws| && ws[j] == w;
      assert WalletAt(c, seed, IndexOf(w), prefix, keyType) == Some(w);
      GenerateAddressesOk(c, c.derive(seed, w.derivationPath).value, prefix, keyType);
    }
  }

  // ---------------------------------------------------------------------
  // Progress reporting

  /** The shared `AtomicUsize` progress counter (increments are sequential here). */
  class ProgressCounter {
    var value: nat

    constructor ()
      ensures value == 0
    {
      value := 0;
    }

    /** `fetch_add(n, Ordering::Relaxed)`. */
    method FetchAdd(n: nat)
      modifies this
      ensures value == old(value) + n
    {
      value := value + n;
    }
  }

  /** What the loop body adds over iterations `0 .. n`: 1000 whenever `i % 1000 == 0`. */
  function LoopProgress(n: nat): nat {
    if n == 0 then 0 else LoopProgress(n - 1) + (if (n - 1) % 1000 == 0 then 1000 else 0)
  }

  /** One iteration adds 1000 exactly when its index is a multiple of 1000. */
  lemma LoopProgressStep(i: nat)
    ensures LoopProgress(i + 1) == LoopProgress(i) + if i % 1000 == 0 then 1000 else 0
  {
  }

  /** All one batch of `count` indices adds: the loop's bumps and the final `count % 1000`. */
  function BatchProgress(count: nat): nat {
    LoopProgress(count) + count % 1000
  }

  lemma {:induction false} LoopProgressClosedForm(n: nat)
    ensures LoopProgress(n) == 1000 * ((n + 999) / 1000)
  {
    if n > 0 {
      var m := n - 1;
      LoopProgressClosedForm(m);
      var q, r := m / 1000, m % 1000;
      assert m == 1000 * q + r;
      if r == 0 {
        assert (m + 999) / 1000 == q;
        assert (n + 999) / 1000 == q + 1;
      } else {
        assert (m + 999) / 1000 == q + 1;
        assert (n + 999) / 1000 == q + 1;
      }
    }
  }

  /** A batch reports `1000 * ceil(count / 1000) + count % 1000`, never less
      than `count`, and exactly `count` iff `count` is a multiple of 1000. */
  lemma BatchProgressBounds(count: nat)
    ensures BatchProgress(count) == 1000 * ((count + 999) / 1000) + count % 1000
    ensures BatchProgress(count) >= count
    ensures BatchProgress(count) == count <==> count % 1000 == 0
  {
    LoopProgressClosedForm(count);
    var q, r := count / 1000, count % 1000;
    assert count == 1000 * q + r;
    if r == 0 {
      assert (count + 999) / 1000 == q;
    } else {
      assert (count + 999) / 1000 == q + 1;
    }
  }

  // ---------------------------------------------------------------------
  // The batch loops

  /** One iteration of the Secp256k1 loop: the wallet at `index`, if any. */
  method Secp256k1WalletAt(c: Crypto, seed: seq<byte>, index: nat, prefix: string) returns (w: Option<Wallet>)
    requires c.isValidHrp(prefix)
    requires DerivedKeysValid(c, seed)
    ensures w == WalletAt(c, seed, index, prefix, Secp256k1)
  {
    w := None;
    var path := DerivationPath(index);
    var derived := c.derive(seed, path);
    if derived.Some? {
      var privateKey := derived.value;
      assert c.isValidSecretKey(privateKey);  // `.expect("Invalid key")` cannot fire
      var pubkeyCompressed := c.serializeCompressed(privateKey);
      var pubkeyBase64 := c.base64(pubkeyCompressed);
      var privateKeyHex := Hex(privateKey);
      var ripemdHash := c.ripemd160(c.sha256(pubkeyCompressed));
      var encoded := c.bech32Encode(prefix, ripemdHash);
      if encoded.Some? {
        w := Some(Wallet(encoded.value, None, pubkeyBase64, privateKeyHex, path));
      }
    }
  }

  /** `generate_secp256k1_batch`. */
  method GenerateSecp256k1Batch(c: Crypto, seed: seq<byte>, start: nat, count: nat, prefix: string,
                                progress: ProgressCounter)
    returns (wallets: seq<Wallet>)
    requires c.isValidHrp(prefix)
    requires DerivedKeysValid(c, seed)
    modifies progress
    ensures wallets == BatchSpec(c, seed, start, count, prefix, Secp256k1)
    ensures progress.value == old(progress.value) + BatchProgress(count)
  {
    wallets := [];
    var i := 0;
    while i < count
      invariant i <= count
      invariant wallets == BatchSpec(c, seed, start, i, prefix, Secp256k1)
      invariant progress.value == old(progress.value) + LoopProgress(i)
    {
      var w := Secp256k1WalletAt(c, seed, start + i, prefix);
      if w.Some? {
        wallets := wallets + [w.value];
      }
      BatchPush(c, seed, start, i, prefix, Secp256k1, w);
      LoopProgressStep(i);
      if i % 1000 == 0 {
        progress.FetchAdd(1000);
      }
      i := i + 1;
    }
    progress.FetchAdd(count % 1000);
  }

  /** One iteration of the Ethsecp256k1 loop: the wallet at `index`, if any. */
  method Ethsecp256k1WalletAt(c: Crypto, seed: seq<byte>, index: nat, prefix: string) returns (w: Option<Wallet>)
    requires c.isValidHrp(prefix)
    requires DerivedKeysValid(c, seed)
    ensures w == WalletAt(c, seed, index, prefix, Ethsecp256k1)
  {
    w := None;
    var path := DerivationPath(index);
    var derived := c.derive(seed, path);
    if derived.Some? {
      var privateKey := derived.value;
      assert c.isValidSecretKey(privateKey);  // `.expect("Invalid key")` cannot fire
      var pubkeyCompressed := c.serializeCompressed(privateKey);
      var pubkeyBase64 := c.base64(pubkeyCompressed);
      var privateKeyHex := Hex(privateKey);
      var pubkeyUncompressed := c.serializeUncompressed(privateKey);
      var keccakHash := c.keccak256(pubkeyUncompressed[1..]);
      var addressBytes := keccakHash[12..];
      var encoded := c.bech32Encode(prefix, addressBytes);
      if encoded.Some? {
        var evmAddress := "0x" + Hex(addressBytes);
        w := Some(Wallet(encoded.value, Some(evmAddress), pubkeyBase64, privateKeyHex, path));
      }
    }
  }

  /** `generate_ethsecp256k1_batch`. */
  method GenerateEthsecp256k1Batch(c: Crypto, seed: seq<byte>, start: nat, count: nat, prefix: string,
                                   progress: ProgressCounter)
    returns (wallets: seq<Wallet>)
    requires c.isValidHrp(prefix)
    requires DerivedKeysValid(c, seed)
    modifies progress
    ensures wallets == BatchSpec(c, seed, start, count, prefix, Ethsecp256k1)
    ensures progress.value == old(progress.value) + BatchProgress(count)
  {
    wallets := [];
    var i := 0;
    while i < count
      invariant i <= count
      invariant wallets == BatchSpec(c, seed, start, i, prefix, Ethsecp256k1)
      invariant progress.value == old(progress.value) + LoopProgress(i)
    {
      var w := Ethsecp256k1WalletAt(c, seed, start + i, prefix);
      if w.Some? {
        wallets := wallets + [w.value];
      }
      BatchPush(c, seed, start, i, prefix, Ethsecp256k1, w);
      LoopProgressStep(i);
      if i % 1000 == 0 {
        progress.FetchAdd(1000);
      }
      i := i + 1;
    }
    progress.FetchAdd(count % 1000);
  }

  /** `generate_wallets_batch`: the loop is chosen by the key type alone. */
  method GenerateWalletsBatch(c: Crypto, seed: seq<byte>, start: nat, count: nat, prefix: string,
                              keyType: KeyType, progress: ProgressCounter)
    returns (wallets: seq<Wallet>)
    requires c.isValidHrp(prefix)
    requires DerivedKeysValid(c, seed)
    modifies progress
    ensures wallets == BatchSpec(c, seed, start, count, prefix, keyType)
    ensures progress.value == old(progress.value) + BatchProgress(count)
  {
    match keyType
    case Secp256k1 =>
      wallets := GenerateSecp256k1Batch(c, seed, start, count, prefix, progress);
    case Ethsecp256k1 =>
      wallets := GenerateEthsecp256k1Batch(c, seed, start, count, prefix, progress);
  }
}
