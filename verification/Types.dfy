/**
 Values shared by every component of the chain-state model.

 Hashes are modelled as terms: the hash of a value is a datatype constructor wrapped
 around that value. Two hashes are therefore equal exactly when the hashed values are,
 and no hash can be contained in its own preimage.
 */
module Types {

  datatype Option<+T> = None | Some(value: T)

  datatype Result<+T, +E> = Ok(value: T) | Err(error: E) {
    predicate IsFailure() {
      Err?
    }

    function PropagateFailure<U>(): Result<U, E>
      requires Err?
    {
      Err(error)
    }

    function Extract(): T
      requires Ok?
    {
      value
    }
  }

  predicate Distinct<T(==)>(s: seq<T>) {
    forall i, j :: 0 <= i < j < |s| ==> s[i] != s[j]
  }

  function ToSet<T>(s: seq<T>): set<T> {
    set x | x in s
  }

  /** One more than the largest value of the 32-bit integers used for heights. */
  const U32_SIZE: nat := 0x1_0000_0000

  /** The largest number of satoshis a 64-bit amount can hold. */
  const MAX_AMOUNT: nat := 0xFFFF_FFFF_FFFF_FFFF

  type Amount = x: int | 0 <= x <= MAX_AMOUNT

  // ---------------------------------------------------------------- mainchain

  datatype MainHash = MainHash(id: nat)

  /** The all-zeros hash: the parent of every mainchain genesis block. */
  const ZERO_HASH: MainHash := MainHash(0)

  /** A mainchain address, with the length in bytes of the script it stands for. */
  datatype MainAddress = MainAddress(id: nat, scriptLen: nat)

  /** A mainchain transaction id commits to the sidechain outputs of its deposits. */
  datatype MainTxid = MainTxid(salt: nat, outputs: seq<Output>)

  datatype MainHeaderInfo = MainHeaderInfo(blockHash: MainHash, prevBlockHash: MainHash, work: nat)

  datatype BlockInfo = BlockInfo(bmmCommitment: Option<BlockHash>, events: seq<BlockEvent>)

  datatype EventStatus = EventSubmitted | EventConfirmed | EventFailed

  datatype BlockEvent =
    | DepositEvent(txid: MainTxid, vout: nat, output: Output)
    | BundleEvent(m6id: M6id, status: EventStatus)

  // ------------------------------------------------------- sidechain outputs

  datatype Content =
    | Value(amount: Amount)
    | Withdrawal(payout: Amount, mainFee: Amount, mainAddress: MainAddress)

  datatype Output = Output(address: nat, content: Content) {
    /** A withdrawal is worth its payout and its mainchain fee, saturating at the largest amount. */
    function GetValue(): Amount {
      match content
      case Value(amount) => amount
      case Withdrawal(payout, mainFee, _) =>
        if payout + mainFee <= MAX_AMOUNT then payout + mainFee else MAX_AMOUNT
    }
  }

  datatype OutPoint =
    | Regular(txid: Txid, vout: nat)
    | Coinbase(merkleRoot: MerkleRoot, vout: nat)
    | Deposit(mainTxid: MainTxid, vout: nat)

  /** The hash of an output together with its outpoint: a leaf of the accumulator. */
  datatype Leaf = Leaf(outpoint: OutPoint, output: Output)

  datatype InPoint =
    | RegularIn(txid: Txid, vin: nat)
    | WithdrawalIn(m6id: M6id)

  datatype SpentOutput = SpentOutput(output: Output, inpoint: InPoint)

  /** The output that the hash inside an outpoint commits to, if there is one. */
  function CommittedOutput(outpoint: OutPoint): Option<Output> {
    var (outputs, vout) :=
      match outpoint
      case Regular(txid, vout) => (txid.core.outputs, vout)
      case Coinbase(root, vout) => (root.coinbase, vout)
      case Deposit(mainTxid, vout) => (mainTxid.outputs, vout);
    if vout < |outputs| then Some(outputs[vout]) else None
  }

  // ------------------------------------------------- transactions and blocks

  /** The root of a note commitment tree determines the appended commitments. */
  datatype Root = Root(commitments: seq<nat>)

  datatype OrchardBundle = OrchardBundle(
    nullifiers: seq<nat>, commitments: seq<nat>, valueBalance: int, anchor: Root, spendsEnabled: bool)

  /** The part of a transaction that its id commits to: everything but the utreexo proof. */
  datatype TxCore = TxCore(
    inputs: seq<(OutPoint, Leaf)>, outputs: seq<Output>, orchardBundle: Option<OrchardBundle>)

  datatype Txid = Txid(core: TxCore)

  datatype Transaction = Transaction(core: TxCore, proof: nat) {
    function Id(): Txid {
      Txid(core)
    }
  }

  datatype Authorization = Authorization(address: nat, signature: nat)

  datatype AuthorizedTransaction = AuthorizedTransaction(
    transaction: Transaction, authorizations: seq<Authorization>)

  datatype Body = Body(
    coinbase: seq<Output>, transactions: seq<Transaction>, authorizations: seq<Authorization>)

  datatype MerkleRoot = MerkleRoot(coinbase: seq<Output>, transactions: seq<TxCore>)

  /** One call of the accumulator's `modify`: the leaves added and deleted, in order. */
  datatype Batch = Batch(adds: seq<Leaf>, dels: seq<Leaf>)

  /** The utreexo forest: its leaves, and the ordered batches that determine its shape and roots. */
  datatype Forest = Forest(leaves: set<Leaf>, log: seq<Batch>)

  datatype Header = Header(
    merkleRoot: MerkleRoot, prevSideHash: Option<BlockHash>, prevMainHash: MainHash, roots: Forest)

  datatype BlockHash = BlockHash(header: Header)

  // ------------------------------------------------------ withdrawal bundles

  datatype TxOut = TxOut(value: Amount, address: MainAddress)

  /** The bundle transaction: commitments to its inputs, height and fee, then the payouts. */
  datatype BundleTx = BundleTx(inputs: set<OutPoint>, height: nat, fee: Amount, payouts: seq<TxOut>)

  datatype M6id = M6id(tx: BundleTx)

  datatype WithdrawalBundle = WithdrawalBundle(spendUtxos: map<OutPoint, Output>, tx: BundleTx) {
    function ComputeM6id(): M6id {
      M6id(tx)
    }
  }
}
