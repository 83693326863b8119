/** The record written for every generated key (src/wallet.rs) and the
    key-type selector of the command line (src/cli.rs). */
module WalletTypes {
  import opened Wrappers

  /** `KeyType`: which hash pipeline turns a public key into an address. */
  datatype KeyType =
    | Secp256k1     // SHA-256 then RIPEMD-160 over the compressed public key
    | Ethsecp256k1  // Keccak-256 over the uncompressed public key, last 20 bytes

  /** `Wallet`: bech32 address, optional `0x` EVM address, base64 public key,
      hex private key and the BIP-44 derivation path it came from. */
  datatype Wallet = Wallet(
    address: string,
    evmAddress: Option<string>,
    pubkey: string,
    privateKey: string,
    derivationPath: string)
}
