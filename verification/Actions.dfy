/** The money-moving actions of src/actions.cpp as partial functions: `None` is an abort,
    which the host turns into "nothing happened". The EVM run itself is a parameter. */
module Actions {
  import opened Options
  import opened DustBalance
  import opened LedgerTypes
  import opened Egress
  import opened BridgeMessage

  datatype Sender = FromReserved(account: Name) | FromAddress(address: Address)

  datatype Tx = Tx(
    from: Sender,
    special: bool, // signed with the bridge's pseudo signature
    gasLimit: nat,
    maxFee: nat,
    maxPriorityFee: nat,
    value: nat,
    hasChainId: bool)

  datatype RuntimeConfig = RuntimeConfig(
    allowSpecial: bool,
    abortOnFailure: bool,
    enforceChainId: bool,
    allowNonSelfMiner: bool,
    gasPayer: Option<Name>)

  const EXTERNAL := RuntimeConfig(false, false, true, true, None)
  const INTERNAL := RuntimeConfig(true, true, false, false, None)

  /** What an EVM run leaves behind: receipt, reserved accounts, messages to reserved
      addresses, and the balances that will be persisted. */
  datatype EvmRun = EvmRun(
    success: bool,
    gasUsed: nat,
    inclusionFee: nat,
    reserved: seq<Reserved>,
    messages: seq<Message>,
    evm: map<Address, nat>)

  function MaxGasCost(tx: Tx): nat {
    Times(tx.gasLimit, tx.maxFee)
  }

  function PriorityFee(tx: Tx, baseFee: nat): nat {
    if tx.maxFee < baseFee then 0
    else if tx.maxPriorityFee < tx.maxFee - baseFee then tx.maxPriorityFee
    else tx.maxFee - baseFee
  }

  /** Wei moved into the EVM with the transaction. */
  function Ingress(tx: Tx): nat {
    if tx.special && tx.from.FromReserved? then tx.value + MaxGasCost(tx) else 0
  }

  // ---- execute_tx ----

  function DebitSender(balances: map<Name, nat>, n: Name, tx: Tx, rc: RuntimeConfig): Option<map<Name, nat>> {
    match rc.gasPayer
    case None => DebitRow(balances, n, tx.value + MaxGasCost(tx))
    case Some(payer) =>
      var b :- DebitRow(balances, payer, MaxGasCost(tx));
      if tx.value > 0 then DebitRow(b, n, tx.value) else Some(b)
  }

  function IngressPhase(c: Chain, l: Ledger, rc: RuntimeConfig, tx: Tx): Option<Ledger> {
    if !tx.special then Some(l)
    else
      :- Need(rc.allowSpecial);
      match tx.from
      case FromAddress(_) => Some(l)
      case FromReserved(n) =>
        :- Need(MaxGasCost(tx) + tx.value < UINT256_MAX);
        var b :- DebitSender(l.balances, n, tx, rc);
        var inevm :- Credit(c.unit, l.inevm, tx.value + MaxGasCost(tx));
        Some(l.(balances := b, inevm := inevm))
  }

  /** `gas_fee_miner_portion`, or an abort. */
  function MinerPortion(env: Env, tx: Tx, run: EvmRun, miner: Option<Name>): Option<Option<nat>> {
    if miner.None? then Some(None)
    else if env.version >= 3 then Some(Some(run.inclusionFee))
    else if env.version >= 1 then
      :- Need(Times(run.gasUsed, PriorityFee(tx, env.gasPrice)) < UINT256_MAX);
      Some(Some(Times(run.gasUsed, PriorityFee(tx, env.gasPrice))))
    else
      :- Need(Times(run.gasUsed, tx.maxFee) < UINT256_MAX);
      Some(Some(Times(Times(run.gasUsed, tx.maxFee), env.minerCut) / HUNDRED_PERCENT))
  }

  function PayMiner(c: Chain, l: Ledger, miner: Option<Name>, portion: Option<nat>, taken: bool): Option<Ledger> {
    if miner.None? || portion.None? || portion.value == 0 then Some(l)
    else
      :- Need(taken);
      var b :- CreditRow(c, l.balances, miner.value, portion.value);
      Some(l.(balances := b))
  }

  /** Gas actually charged: used gas at the effective price. */
  function GasFee(env: Env, tx: Tx, run: EvmRun): nat {
    Times(run.gasUsed, PriorityFee(tx, env.gasPrice) + env.gasPrice)
  }

  function RefundPayer(c: Chain, env: Env, l: Ledger, rc: RuntimeConfig, tx: Tx, run: EvmRun): Option<Ledger> {
    match rc.gasPayer
    case None => Some(l)
    case Some(payer) =>
      :- Need(GasFee(env, tx, run) < UINT256_MAX && MaxGasCost(tx) < UINT256_MAX);
      :- Need(MaxGasCost(tx) > GasFee(env, tx, run));
      :- Need(tx.from.FromReserved?);
      var refund := MaxGasCost(tx) - GasFee(env, tx, run);
      var b :- DebitRow(l.balances, tx.from.account, refund);
      var b' :- CreditRow(c, b, payer, refund);
      Some(l.(balances := b'))
  }

  function AddGasIncome(c: Chain, env: Env, l: Ledger, tx: Tx, run: EvmRun, portion: Option<nat>): Option<Ledger> {
    if tx.special && tx.from == FromReserved(c.self) then Some(l)
    else
      var fee := if env.version >= 1 then Times(run.gasUsed, env.gasPrice) else Times(run.gasUsed, tx.maxFee);
      :- Need(fee < UINT256_MAX);
      var net := if env.version >= 1 || portion.None? then fee else fee - portion.value;
      :- Need(0 <= net);
      var income :- Credit(c.unit, l.gasIncome, net);
      Some(l.(gasIncome := income))
  }

  function ActiveMiner(c: Chain, miner: Name): Option<Name> {
    if miner == c.self || miner == 0 then None else Some(miner)
  }

  /** The miner, the gas payer and the statistics. */
  function SettleGas(c: Chain, env: Env, l: Ledger, rc: RuntimeConfig, m: Option<Name>, tx: Tx, run: EvmRun,
                     portion: Option<nat>, taken: bool): Option<Ledger> {
    var l1 :- PayMiner(c, l, m, portion, taken);
    var l2 :- RefundPayer(c, env, l1, rc, tx, run);
    AddGasIncome(c, env, l2, tx, run, portion)
  }

  /** Everything after the EVM run. */
  function AfterRun(c: Chain, env: Env, l: Ledger, rc: RuntimeConfig, m: Option<Name>, tx: Tx, run: EvmRun,
                    portion: Option<nat>): Option<Ledger> {
    var egress :- EgressPhase(c, env, l, portion, run.reserved, run.messages);
    SettleGas(c, env, egress.0, rc, m, tx, run, portion, egress.1)
  }

  function ExecuteTx(c: Chain, env: Env, l: Ledger, rc: RuntimeConfig, miner: Name, tx: Tx, run: EvmRun): Option<Ledger> {
    var m := ActiveMiner(c, miner);
    :- Need(m.Some? ==> m.value in l.balances);
    var l1 :- IngressPhase(c, l, rc, tx);
    :- Need(rc.enforceChainId ==> tx.hasChainId);
    var portion :- MinerPortion(env, tx, run, m);
    :- Need(rc.abortOnFailure ==> run.success);
    AfterRun(c, env, l1, rc, m, tx, run, portion)
  }

  // ---- process_filtered_messages ----

  datatype Bridged = Bridged(balances: map<Name, nat>, total: nat)

  /** EVM messages with data, sent to the contract's own reserved address. */
  predicate IsBridgeMessage(c: Chain, msg: Message) {
    msg.receiver == c.self && |msg.data| > 0
  }

  /** The account a bridge message is for, once every check on it has passed. */
  function BridgeTarget(c: Chain, env: Env, msg: Message): Option<Name> {
    var d := Decode(msg.data);
    :- Need(d.Decoded? && d.msg.account in env.nameOf);
    var r := env.nameOf[d.msg.account];
    :- Need(r in env.accounts && r in env.receivers);
    :- Need(d.msg.forceAtomic ==> env.receivers[r].forceAtomic);
    :- Need(msg.value >= Times(env.receivers[r].minFee, c.unit));
    Some(r)
  }

  function BridgeOne(c: Chain, env: Env, b: Bridged, msg: Message): Option<Bridged> {
    if !IsBridgeMessage(c, msg) then Some(b)
    else
      var r :- BridgeTarget(c, env, msg);
      var balances :- CreditRow(c, b.balances, r, msg.value);
      Some(Bridged(balances, b.total + msg.value))
  }

  function BridgeUpTo(c: Chain, env: Env, balances: map<Name, nat>, msgs: seq<Message>, i: nat): Option<Bridged>
    requires i <= |msgs|
  {
    if i == 0 then Some(Bridged(balances, 0))
    else
      var b :- BridgeUpTo(c, env, balances, msgs, i - 1);
      BridgeOne(c, env, b, msgs[i - 1])
  }

  function MessagesPhase(c: Chain, env: Env, l: Ledger, msgs: seq<Message>): Option<Ledger> {
    var b :- BridgeUpTo(c, env, l.balances, msgs, |msgs|);
    if b.total == 0 then Some(l.(balances := b.balances))
    else
      var b' :- DebitRow(b.balances, c.self, b.total);
      Some(l.(balances := b'))
  }

  // ---- process_tx ----

  predicate PriceOk(env: Env, tx: Tx, minInclusion: Option<nat>) {
    if env.version >= 1 then
      tx.maxFee >= env.gasPrice && PriorityFee(tx, env.gasPrice) >= minInclusion.GetOr(0)
    else
      tx.maxPriorityFee == tx.maxFee && tx.maxFee >= env.gasPrice
  }

  function ProcessTx(c: Chain, env: Env, l: Ledger, rc: RuntimeConfig, miner: Name, tx: Tx,
                     minInclusion: Option<nat>, run: EvmRun): Option<Ledger> {
    if !rc.allowNonSelfMiner && miner != c.self then None
    else
      :- Need(PriceOk(env, tx, minInclusion));
      var l1 :- ExecuteTx(c, env, l, rc, miner, tx, run);
      var l2 :- MessagesPhase(c, env, l1, run.messages);
      Some(l2.(evm := run.evm))
  }

  // ---- actions ----

  function InitLedger(c: Chain): Ledger {
    Ledger(map[c.self := 0], 0, map[c.self := 0], 0, map[], 0, 0, [])
  }

  function OpenAccount(l: Ledger, n: Name): Ledger {
    l.(balances := if n in l.balances then l.balances else l.balances[n := 0],
       nonces := if n in l.nonces then l.nonces else l.nonces[n := 0])
  }

  function CloseAccount(c: Chain, l: Ledger, n: Name): Option<Ledger> {
    if n == c.self || n !in l.balances then None
    else
      :- Need(l.balances[n] == 0 && n in l.nonces);
      Some(l.(balances := l.balances - {n}, nonces := if l.nonces[n] == 0 then l.nonces - {n} else l.nonces))
  }

  function IncrementNonce(l: Ledger, n: Name): Option<Ledger> {
    if n !in l.nonces then None
    else
      Some(l.(nonces := l.nonces[n := l.nonces[n] + 1]))
  }

  /** Native units arriving: the token contract only moves positive, representable amounts. */
  function Receive(c: Chain, l: Ledger, quantity: nat): Option<Ledger> {
    if quantity == 0 || l.held + Times(quantity, c.unit) >= Cap(c.unit) then None
    else
      Some(l.(held := l.held + Times(quantity, c.unit)))
  }

  function Deposit(c: Chain, l: Ledger, to: Name, quantity: nat): Option<Ledger> {
    var l1 :- Receive(c, l, quantity);
    var b :- CreditRow(c, l1.balances, to, Times(quantity, c.unit));
    Some(l1.(balances := b))
  }

  function InternalTx(env: Env, from: Sender, value: nat, gasLimit: nat): Tx {
    Tx(from, true, gasLimit, env.gasPrice, env.gasPrice, value, false)
  }

  function BridgeInTx(c: Chain, env: Env, quantity: nat, gasLimit: nat): Tx
    requires quantity > env.ingressFee
  {
    InternalTx(env, FromReserved(c.self), Times(quantity - env.ingressFee, c.unit), gasLimit)
  }

  /** `handle_evm_transfer` up to the transaction: the whole quantity lands on the contract's row. */
  function PrepareBridgeIn(c: Chain, env: Env, l: Ledger, quantity: nat): Option<Ledger> {
    var l1 :- Receive(c, l, quantity);
    var b :- CreditRow(c, l1.balances, c.self, Times(quantity, c.unit));
    :- Need(quantity > env.ingressFee);
    var income :- Credit(c.unit, l1.bridgeIncome, Times(env.ingressFee, c.unit));
    IncrementNonce(l1.(balances := b, bridgeIncome := income), c.self)
  }

  function BridgeIn(c: Chain, env: Env, l: Ledger, quantity: nat, gasLimit: nat, run: EvmRun): Option<Ledger> {
    var l1 :- PrepareBridgeIn(c, env, l, quantity);
    ProcessTx(c, env, l1, INTERNAL, c.self, BridgeInTx(c, env, quantity, gasLimit), None, run)
  }

  function Withdraw(c: Chain, l: Ledger, owner: Name, quantity: int, to: Option<Name>): Option<Ledger> {
    if owner !in l.balances then None
    else
      var l1 :- SendTokens(c, l, to.GetOr(owner), quantity); // rejects quantity <= 0
      var b :- DebitRow(l.balances, owner, Times(quantity, c.unit)); // "overdrawn balance"
      Some(l1.(balances := b))
  }

  function Call(c: Chain, env: Env, l: Ledger, from: Name, value: nat, gasLimit: nat, run: EvmRun): Option<Ledger> {
    var l1 :- IncrementNonce(l, from);
    ProcessTx(c, env, l1, INTERNAL, c.self, InternalTx(env, FromReserved(from), value, gasLimit), None, run)
  }

  function CallOtherPay(c: Chain, env: Env, l: Ledger, payer: Name, from: Name, value: nat, gasLimit: nat,
                        run: EvmRun): Option<Ledger> {
    if env.version < 1 then None
    else
      var l1 :- IncrementNonce(l, from);
      ProcessTx(c, env, l1, INTERNAL.(gasPayer := Some(payer)), c.self,
                InternalTx(env, FromReserved(from), value, gasLimit), None, run)
  }

  function AdminCall(c: Chain, env: Env, l: Ledger, from: Sender, value: nat, gasLimit: nat, run: EvmRun): Option<Ledger> {
    match from
    case FromReserved(n) => Call(c, env, l, n, value, gasLimit, run)
    case FromAddress(a) =>
      :- Need(a in l.evm);
      ProcessTx(c, env, l, INTERNAL, c.self, InternalTx(env, from, value, gasLimit), None, run)
  }

  function PushTx(c: Chain, env: Env, l: Ledger, fromSelf: bool, miner: Name, tx: Tx,
                  minInclusion: Option<nat>, run: EvmRun): Option<Ledger> {
    if minInclusion.Some? && env.version < 1 then None
    else
      ProcessTx(c, env, l, if fromSelf then INTERNAL else EXTERNAL, miner, tx, minInclusion, run)
  }
}
