/**
 The tables of the wallet database as values.

 Identifiers are opaque: only equality matters, except for public keys, whose order decides
 a transaction log's id. Cryptography is ideal: what a view key reveals about an output is
 recorded on the output, and spend keys and key images are injective in what they are derived
 from.
 */
module Schema {

  datatype Option<+T> = None | Some(value: T)

  type u64 = x: int | 0 <= x < 0x1_0000_0000_0000_0000

  type i64 = x: int | -0x8000_0000_0000_0000 <= x < 0x8000_0000_0000_0000

  /** The cast `u as i64`: SQLite stores unsigned columns in two's complement. */
  function AsI64(u: u64): i64 {
    if u < 0x8000_0000_0000_0000 then u else u - 0x1_0000_0000_0000_0000
  }

  /** The cast `i as u64` that reads such a column back. */
  function AsU64(i: i64): u64 {
    if 0 <= i then i else i + 0x1_0000_0000_0000_0000
  }

  type AccountId = nat
  type TxoId = nat
  type PublicKey = nat

  /** A log's id is the text of a public key. */
  type LogId = PublicKey

  datatype Amount = Amount(value: u64, token: u64)

  /** The spend public key of subaddress `index` of `account`. */
  datatype SpendKey = SpendKey(account: AccountId, index: nat)

  /** The key image of the output with `publicKey`, spent with the keys of subaddress `index` of `account`. */
  datatype KeyImage = KeyImage(publicKey: PublicKey, account: AccountId, index: nat)

  /**
   An output in the ledger: `viewer` is the account whose view key decodes its amount, and
   `targetKey` is the subaddress spend key that this view key recovers from it.
   */
  datatype TxOut = TxOut(id: TxoId, publicKey: PublicKey, viewer: AccountId, amount: Amount, targetKey: SpendKey)

  datatype Block = Block(outputs: seq<TxOut>, keyImages: seq<KeyImage>)

  datatype Account = Account(firstBlock: nat, nextBlock: nat, viewOnly: bool, fogEnabled: bool, resyncing: bool)

  datatype Subaddress = Subaddress(account: AccountId, index: i64)

  datatype Txo = Txo(
    account: Option<AccountId>,
    value: i64,
    token: i64,
    targetKey: SpendKey,
    publicKey: PublicKey,
    subaddress: Option<i64>,
    keyImage: Option<KeyImage>,
    received: Option<nat>,
    spent: Option<nat>)

  datatype Log = Log(
    account: AccountId,
    feeValue: i64,
    feeToken: i64,
    submitted: Option<nat>,
    tombstone: Option<i64>,
    finalized: Option<nat>,
    comment: string,
    tx: seq<bv8>,
    failed: bool)

  datatype OutputLink = OutputLink(recipient: string, isChange: bool)

  /**
   The database. Assigned subaddresses are keyed by their spend key, which carries a unique index;
   the two memo tables are reduced to the set of txo ids that have a memo.
   */
  datatype Db = Db(
    accounts: map<AccountId, Account>,
    subaddresses: map<SpendKey, Subaddress>,
    txos: map<TxoId, Txo>,
    logs: map<LogId, Log>,
    inputs: set<(LogId, TxoId)>,
    outputs: map<(LogId, TxoId), OutputLink>,
    senderMemos: set<TxoId>,
    destinationMemos: set<TxoId>)

  datatype DbError =
    | AccountNotFound
    | AccountAlreadyExists
    | InvalidArgument
    | ConstraintViolation
    | TxOutNotFound
    | SubaddressesNotSupportedForFog

  /** What a sequence of statements leaves behind: on an error, the rows written before it. */
  datatype Outcome = Outcome(db: Db, error: Option<DbError>)
}
