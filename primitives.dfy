/** The foreign library calls the generator makes, kept uninterpreted.

    Each one is a field of `Crypto`, a record of functions that every
    operation of the model takes as a parameter, so every statement proved
    holds for every behaviour of the libraries. Only the output sizes of the
    hashes and of the point serialisations are fixed, by their types. */
module Primitives {
  import opened Wrappers
  import opened Text

  type Bytes20 = s: seq<byte> | |s| == 20 witness seq(20, _ => 0)
  type Bytes32 = s: seq<byte> | |s| == 32 witness seq(32, _ => 0)
  type Bytes33 = s: seq<byte> | |s| == 33 witness seq(33, _ => 0)
  type Bytes65 = s: seq<byte> | |s| == 65 witness seq(65, _ => 0)

  datatype Crypto = Crypto(
    /** BIP-32 derivation of `tiny_hderive` followed by `.secret()`:
        the 32-byte private key at a path, or None when derivation fails. */
    derive: (seq<byte>, string) -> Option<Bytes32>,
    /** `SecretKey::from_slice` succeeds (non-zero and below the curve order). */
    isValidSecretKey: Bytes32 -> bool,
    /** `PublicKey::from_secret_key` then `serialize()`: 33 bytes. */
    serializeCompressed: Bytes32 -> Bytes33,
    /** `PublicKey::from_secret_key` then `serialize_uncompressed()`: 65 bytes. */
    serializeUncompressed: Bytes32 -> Bytes65,
    sha256: seq<byte> -> Bytes32,
    ripemd160: seq<byte> -> Bytes20,
    keccak256: seq<byte> -> Bytes32,
    /** `Hrp::parse` succeeds. */
    isValidHrp: string -> bool,
    /** `bech32::encode::<Bech32>` under an already parsed human-readable part. */
    bech32Encode: (string, seq<byte>) -> Option<string>,
    /** `general_purpose::STANDARD.encode`. */
    base64: seq<byte> -> string)

  /** The guarantee the batch loops rely on with `.expect("Invalid key")`:
      every key derivation hands back is accepted by `SecretKey::from_slice`. */
  ghost predicate DerivedKeysValid(c: Crypto, seed: seq<byte>) {
    forall path :: c.derive(seed, path).Some? ==> c.isValidSecretKey(c.derive(seed, path).value)
  }
}
