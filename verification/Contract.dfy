/** `evm_contract` as it is written: an object whose methods edit its tables in place, loop by
    loop, and the host that undoes an aborted action. Each method computes its function of Actions
    on the object's view and promises what is proved of it; on an abort the tables may hold partial
    results until the host restores them. */
module Contract {
  import opened Options
  import opened DustBalance
  import opened LedgerTypes
  import opened Egress
  import opened BridgeMessage
  import opened Actions
  import opened Solvency
  import opened Delivery
  import opened Settlement
  import opened Nonces
  import opened Outcomes
  import T = Transactions

  // ---- once a loop has aborted, so have all its longer runs ----

  lemma {:induction false} MarkFails(c: Chain, account: Name, balance: nat, msgs: seq<Message>, need: seq<bool>, i: nat, j: nat)
    requires i <= j <= |msgs| == |need| && MarkUpTo(c, account, balance, msgs, need, i).None?
    ensures MarkUpTo(c, account, balance, msgs, need, j).None?
    decreases j
  {
    if i < j {
      MarkFails(c, account, balance, msgs, need, i, j - 1);
    }
  }

  lemma {:induction false} EgressFails(c: Chain, env: Env, portion: Option<nat>, balances: map<Name, nat>,
                                       objs: seq<Reserved>, msgs: seq<Message>, i: nat, j: nat)
    requires i <= j <= |objs| && EgressUpTo(c, env, portion, balances, objs, msgs, i).None?
    ensures EgressUpTo(c, env, portion, balances, objs, msgs, j).None?
    decreases j
  {
    if i < j {
      EgressFails(c, env, portion, balances, objs, msgs, i, j - 1);
    }
  }

  lemma {:induction false} SendFails(c: Chain, l: Ledger, msgs: seq<Message>, need: seq<bool>, i: nat, j: nat)
    requires i <= j <= |msgs| == |need| && SendUpTo(c, l, msgs, need, i).None?
    ensures SendUpTo(c, l, msgs, need, j).None?
    decreases j
  {
    if i < j {
      SendFails(c, l, msgs, need, i, j - 1);
    }
  }

  lemma {:induction false} BridgeFails(c: Chain, env: Env, balances: map<Name, nat>, msgs: seq<Message>, i: nat, j: nat)
    requires i <= j <= |msgs| && BridgeUpTo(c, env, balances, msgs, i).None?
    ensures BridgeUpTo(c, env, balances, msgs, j).None?
    decreases j
  {
    if i < j {
      BridgeFails(c, env, balances, msgs, i, j - 1);
    }
  }

  class EvmContract {
    const chain: Chain
    var balances: map<Name, nat>
    var inevm: nat
    var nonces: map<Name, nat>
    var held: nat
    var evm: map<Address, nat>
    var gasIncome: nat
    var bridgeIncome: nat
    var sent: seq<Transfer>

    function View(): Ledger
      reads this
    {
      Ledger(balances, inevm, nonces, held, evm, gasIncome, bridgeIncome, sent)
    }

    /** The `init` action. */
    constructor (chain: Chain)
      ensures this.chain == chain && View() == InitLedger(chain)
      ensures balances == map[chain.self := 0] && nonces == map[chain.self := 0] && evm == map[] && sent == []
      ensures inevm == held == gasIncome == bridgeIncome == 0
    {
      this.chain := chain;
      balances, inevm, nonces, held := map[chain.self := 0], 0, map[chain.self := 0], 0;
      evm, gasIncome, bridgeIncome, sent := map[], 0, 0, [];
    }

    /** `balance_table.modify(balance_table.get(n), b += x)`. */
    method CreditBalance(n: Name, x: nat) returns (ok: bool)
      modifies this`balances
      ensures ok <==> CreditRow(chain, old(balances), n, x).Some?
      ensures ok ==> Some(balances) == CreditRow(chain, old(balances), n, x)
    {
      if n !in balances {
        return false;
      }
      var w := Credit(chain.unit, balances[n], x);
      if w.None? {
        return false;
      }
      balances := balances[n := w.value];
      return true;
    }

    method DebitBalance(n: Name, x: nat) returns (ok: bool)
      modifies this`balances
      ensures ok <==> DebitRow(old(balances), n, x).Some?
      ensures ok ==> Some(balances) == DebitRow(old(balances), n, x)
    {
      if n !in balances {
        return false;
      }
      var w := Debit(balances[n], x);
      if w.None? {
        return false;
      }
      balances := balances[n := w.value];
      return true;
    }

    method TransferTokens(to: Name, amount: int) returns (ok: bool)
      modifies this`held, this`sent
      ensures ok <==> SendTokens(chain, old(View()), to, amount).Some?
      ensures ok ==> Some(View()) == SendTokens(chain, old(View()), to, amount)
    {
      if amount <= 0 || amount > MAX_AMOUNT || to == chain.self {
        return false;
      }
      var worth := Times(amount, chain.unit);
      if worth > held {
        return false;
      }
      held := held - worth;
      sent := sent + [Transfer(to, amount)];
      return true;
    }

    // ---- execute_tx ----

    /** What leaves the rows enters the EVM total, exactly if the rows cover it and it fits. */
    method DoIngress(rc: RuntimeConfig, tx: Tx) returns (ok: bool)
      modifies this`balances, this`inevm
      ensures ok <==> IngressPhase(chain, old(View()), rc, tx).Some?
      ensures ok ==> Some(View()) == IngressPhase(chain, old(View()), rc, tx)
      ensures ok <==> T.CanEnter(chain, old(View()), rc, tx)
      ensures ok ==> View() == T.AfterIngress(old(View()), rc, tx)
      ensures ok && old(Balanced(chain, View(), 0)) ==> Balanced(chain, View(), 0) && inevm == old(inevm) + Ingress(tx)
    {
      ghost var before := View();
      T.IngressMeaning(chain, before, rc, tx);
      ok := DoDebits(rc, tx);
      if Balanced(chain, before, 0) {
        IngressBalanced(chain, before, rc, tx);
      }
    }

    method DoDebits(rc: RuntimeConfig, tx: Tx) returns (ok: bool)
      modifies this`balances, this`inevm
      ensures ok <==> IngressPhase(chain, old(View()), rc, tx).Some?
      ensures ok ==> Some(View()) == IngressPhase(chain, old(View()), rc, tx)
    {
      if !tx.special {
        return true;
      }
      if !rc.allowSpecial {
        return false;
      }
      if tx.from.FromAddress? {
        return true;
      }
      var cost := MaxGasCost(tx);
      if cost + tx.value >= UINT256_MAX {
        return false;
      }
      if rc.gasPayer.Some? {
        ok := DebitBalance(rc.gasPayer.value, cost);
        if ok && tx.value > 0 {
          ok := DebitBalance(tx.from.account, tx.value);
        }
      } else {
        ok := DebitBalance(tx.from.account, tx.value + cost);
      }
      if !ok {
        return false;
      }
      var w := Credit(chain.unit, inevm, tx.value + cost);
      if w.None? {
        return false;
      }
      inevm := w.value;
    }

    /** The inner loop: `None` on an abort, else the updated marks. */
    method MarkMessages(account: Name, balance: nat, msgs: seq<Message>, need: seq<bool>) returns (r: Option<seq<bool>>)
      requires |need| == |msgs|
      ensures var m := MarkUpTo(chain, account, balance, msgs, need, |msgs|);
              && (r.Some? <==> m.Some? && m.value.left == 0)
              && (r.Some? ==> r.value == m.value.need)
    {
      var left: nat, pending: nat, marks := balance, 0, need;
      for i := 0 to |msgs|
        invariant |marks| == |need|
        invariant MarkUpTo(chain, account, balance, msgs, need, i) == Some(Marking(left, pending, marks))
      {
        if msgs[i].receiver == account {
          pending := pending + 1;
          if pending > 5 || msgs[i].value % chain.unit != 0 || left < msgs[i].value {
            MarkFails(chain, account, balance, msgs, need, i + 1, |msgs|);
            return None;
          }
          left := left - msgs[i].value;
          marks := marks[i := true];
        }
      }
      return if left == 0 then Some(marks) else None;
    }

    /** One pass of the outer loop. */
    method VisitReserved(env: Env, portion: Option<nat>, o: Reserved, msgs: seq<Message>,
                         total: nat, need: seq<bool>, deducted: bool)
      returns (ok: bool, total': nat, need': seq<bool>, deducted': bool)
      requires |need| == |msgs|
      modifies this`balances
      ensures ok <==> EgressOne(chain, env, portion, msgs, Egressed(old(balances), total, need, deducted), o).Some?
      ensures ok ==> Some(Egressed(balances, total', need', deducted')) ==
                     EgressOne(chain, env, portion, msgs, Egressed(old(balances), total, need, deducted), o)
    {
      ok, total', need', deducted' := true, total, need, deducted;
      if o.hasCode || o.account == 0 {
        ok := false;
        return;
      }
      if o.balance == 0 {
        return;
      }
      total' := total + o.balance;
      if o.account in balances {
        ok := CreditBalance(o.account, o.balance);
        if ok && portion.Some? && o.account == chain.self {
          if deducted {
            ok := false;
            return;
          }
          ok := DebitBalance(o.account, portion.value);
          deducted' := true;
        }
      } else {
        if o.account == chain.self || o.account !in env.accounts || (o.account in env.coded && o.account !in env.egressList) {
          ok := false;
          return;
        }
        var marks := MarkMessages(o.account, o.balance, msgs, need);
        if marks.None? {
          ok := false;
          return;
        }
        need' := marks.value;
      }
    }

    method DoEgress(env: Env, portion: Option<nat>, objs: seq<Reserved>, msgs: seq<Message>) returns (ok: bool, deducted: bool)
      modifies this`balances, this`inevm, this`held, this`sent
      ensures ok <==> EgressPhase(chain, env, old(View()), portion, objs, msgs).Some?
      ensures ok ==> Some((View(), deducted)) == EgressPhase(chain, env, old(View()), portion, objs, msgs)
    {
      ok, deducted := true, false;
      if objs == [] {
        return;
      }
      var total: nat := 0;
      var need := seq(|msgs|, _ => false);
      for i := 0 to |objs|
        invariant |need| == |msgs|
        invariant View() == old(View()).(balances := balances)
        invariant EgressUpTo(chain, env, portion, old(balances), objs, msgs, i) == Some(Egressed(balances, total, need, deducted))
      {
        ok, total, need, deducted := VisitReserved(env, portion, objs[i], msgs, total, need, deducted);
        if !ok {
          EgressFails(chain, env, portion, old(balances), objs, msgs, i + 1, |objs|);
          return;
        }
      }
      ok := DoTransfers(msgs, need);
      if ok {
        var w := Debit(inevm, total);
        if w.None? {
          ok := false;
          return;
        }
        inevm := w.value;
      }
    }

    /** Launch the marked transfers in message order. */
    method DoTransfers(msgs: seq<Message>, need: seq<bool>) returns (ok: bool)
      requires |need| == |msgs|
      modifies this`held, this`sent
      ensures ok <==> SendUpTo(chain, old(View()), msgs, need, |msgs|).Some?
      ensures ok ==> Some(View()) == SendUpTo(chain, old(View()), msgs, need, |msgs|)
    {
      for i := 0 to |msgs|
        invariant SendUpTo(chain, old(View()), msgs, need, i) == Some(View())
      {
        if need[i] {
          ok := TransferTokens(msgs[i].receiver, NativeAmount(chain, msgs[i].value));
          if !ok {
            SendFails(chain, old(View()), msgs, need, i + 1, |msgs|);
            return;
          }
        }
      }
      ok := true;
    }

    /** After the egress phase: pay the miner what was taken for it, refund the gas payer, book the
        income. */
    method DoSettleGas(env: Env, rc: RuntimeConfig, miner: Option<Name>, tx: Tx, run: EvmRun, portion: Option<nat>,
                       deducted: bool) returns (ok: bool)
      modifies this`balances, this`gasIncome
      ensures ok <==> SettleGas(chain, env, old(View()), rc, miner, tx, run, portion, deducted).Some?
      ensures ok ==> Some(View()) == SettleGas(chain, env, old(View()), rc, miner, tx, run, portion, deducted)
    {
      if miner.Some? && portion.Some? && portion.value != 0 {
        if !deducted {
          return false;
        }
        ok := CreditBalance(miner.value, portion.value);
        if !ok {
          return;
        }
      }
      if rc.gasPayer.Some? {
        ok := DoRefund(env, rc, tx, run);
        if !ok {
          return;
        }
      }
      ok := DoGasIncome(env, tx, run, portion);
    }

    method DoGasIncome(env: Env, tx: Tx, run: EvmRun, portion: Option<nat>) returns (ok: bool)
      modifies this`gasIncome
      ensures ok <==> AddGasIncome(chain, env, old(View()), tx, run, portion).Some?
      ensures ok ==> Some(View()) == AddGasIncome(chain, env, old(View()), tx, run, portion)
    {
      if tx.special && tx.from == FromReserved(chain.self) {
        return true;
      }
      var fee := if env.version >= 1 then Times(run.gasUsed, env.gasPrice) else Times(run.gasUsed, tx.maxFee);
      var net: int := if env.version < 1 && portion.Some? then fee - portion.value else fee;
      if fee >= UINT256_MAX || net < 0 {
        return false;
      }
      var w := Credit(chain.unit, gasIncome, net);
      if w.None? {
        return false;
      }
      gasIncome := w.value;
      return true;
    }

    /** Give the gas payer back what the sender was left with. */
    method DoRefund(env: Env, rc: RuntimeConfig, tx: Tx, run: EvmRun) returns (ok: bool)
      requires rc.gasPayer.Some?
      modifies this`balances
      ensures ok <==> RefundPayer(chain, env, old(View()), rc, tx, run).Some?
      ensures ok ==> Some(View()) == RefundPayer(chain, env, old(View()), rc, tx, run)
    {
      var cost, fee := MaxGasCost(tx), GasFee(env, tx, run);
      if fee >= UINT256_MAX || cost >= UINT256_MAX || cost <= fee || !tx.from.FromReserved? {
        return false;
      }
      ok := DebitBalance(tx.from.account, cost - fee);
      if ok {
        ok := CreditBalance(rc.gasPayer.value, cost - fee);
      }
    }

    /** From the EVM run to the end: what left the EVM has left its total, and the ledger balances. */
    method DoAfterRun(env: Env, rc: RuntimeConfig, miner: Option<Name>, tx: Tx, run: EvmRun, portion: Option<nat>) returns (ok: bool)
      modifies this`balances, this`inevm, this`held, this`sent, this`gasIncome
      ensures ok <==> AfterRun(chain, env, old(View()), rc, miner, tx, run, portion).Some?
      ensures ok ==> Some(View()) == AfterRun(chain, env, old(View()), rc, miner, tx, run, portion)
      ensures ok && old(Balanced(chain, View(), 0)) && Distinct(run.reserved) && (miner.None? ==> portion.None?) ==>
                Balanced(chain, View(), 0) && inevm == old(inevm) - Leaving(run.reserved, None)
    {
      ghost var before := View();
      var deducted;
      ok, deducted := DoEgress(env, portion, run.reserved, run.messages);
      if ok {
        ok := DoSettleGas(env, rc, miner, tx, run, portion, deducted);
      }
      if Balanced(chain, before, 0) && Distinct(run.reserved) && (miner.None? ==> portion.None?) {
        AfterRunBalanced(chain, env, before, rc, miner, tx, run, portion);
      }
    }

    method DoPhases(env: Env, rc: RuntimeConfig, miner: Name, tx: Tx, run: EvmRun) returns (ok: bool)
      modifies this`balances, this`inevm, this`held, this`sent, this`gasIncome
      ensures ok <==> ExecuteTx(chain, env, old(View()), rc, miner, tx, run).Some?
      ensures ok ==> Some(View()) == ExecuteTx(chain, env, old(View()), rc, miner, tx, run)
    {
      var m := ActiveMiner(chain, miner);
      if m.Some? && m.value !in balances {
        return false;
      }
      ok := DoIngress(rc, tx);
      if !ok || (rc.enforceChainId && !tx.hasChainId) {
        return false;
      }
      var portion := MinerPortion(env, tx, run, m);
      if portion.None? || (rc.abortOnFailure && !run.success) {
        return false;
      }
      ok := DoAfterRun(env, rc, m, tx, run, portion.value);
    }

    /** `execute_tx`. Whatever the EVM returned, tokens held stay equal to rows plus EVM total; with a
        conserving run it goes through exactly under `ExecOk` and leaves every row as computed there. */
    method DoExecuteTx(env: Env, rc: RuntimeConfig, miner: Name, tx: Tx, run: EvmRun) returns (ok: bool)
      modifies this`balances, this`inevm, this`held, this`sent, this`gasIncome
      ensures ok <==> ExecuteTx(chain, env, old(View()), rc, miner, tx, run).Some?
      ensures ok ==> Some(View()) == ExecuteTx(chain, env, old(View()), rc, miner, tx, run)
      ensures ok && old(Balanced(chain, View(), 0)) && Distinct(run.reserved) ==>
                Balanced(chain, View(), 0) && inevm == old(inevm) + Ingress(tx) - Leaving(run.reserved, None)
      ensures forall minInclusion ::
                var job := T.Job(rc, miner, tx, minInclusion, run);
                old(Solvent(chain, View())) && Conserves(old(evm), tx, run) && (rc.allowNonSelfMiner || miner == chain.self)
                && T.PriceMet(env, job) ==>
                  (ok <==> T.ExecOk(chain, env, old(View()), job)) &&
                  (ok ==> View() == T.AfterGas(chain, env, T.Left(chain, env, old(View()), job), job))
    {
      ghost var before := View();
      ok := DoPhases(env, rc, miner, tx, run);
      ExecuteMeanings(chain, env, before, rc, miner, tx, run);
      if ok && Balanced(chain, before, 0) && Distinct(run.reserved) {
        ExecuteTxBalanced(chain, env, before, rc, miner, tx, run);
      }
    }

    // ---- process_filtered_messages ----

    /** Goes through exactly if every message can be delivered and paid for; each row then gains the
        messages that name it and the contract's row pays for all of them. */
    method DoMessages(env: Env, msgs: seq<Message>) returns (ok: bool)
      modifies this`balances
      ensures ok <==> MessagesPhase(chain, env, old(View()), msgs).Some?
      ensures ok ==> Some(View()) == MessagesPhase(chain, env, old(View()), msgs)
      ensures ok <==> Deliverable(chain, env, old(balances), msgs)
      ensures ok ==> balances.Keys == old(balances).Keys
      ensures ok ==> forall n :: n in balances ==>
                balances[n] == old(balances)[n] + DeliveredTo(chain, env, msgs, n, |msgs|)
                               - If(n == chain.self, DeliveredTotal(chain, msgs, |msgs|))
    {
      MessagesMeaning(chain, env, View(), msgs);
      ok := DoMessageLoop(env, msgs);
    }

    method DoMessageLoop(env: Env, msgs: seq<Message>) returns (ok: bool)
      modifies this`balances
      ensures ok <==> MessagesPhase(chain, env, old(View()), msgs).Some?
      ensures ok ==> Some(View()) == MessagesPhase(chain, env, old(View()), msgs)
    {
      var total: nat := 0;
      for i := 0 to |msgs|
        invariant BridgeUpTo(chain, env, old(balances), msgs, i) == Some(Bridged(balances, total))
      {
        ok, total := DoOneMessage(env, msgs[i], total);
        if !ok {
          BridgeFails(chain, env, old(balances), msgs, i + 1, |msgs|);
          return;
        }
      }
      ok := true;
      if total > 0 {
        ok := DebitBalance(chain.self, total);
      }
    }

    method DoOneMessage(env: Env, msg: Message, total: nat) returns (ok: bool, total': nat)
      modifies this`balances
      ensures ok <==> BridgeOne(chain, env, Bridged(old(balances), total), msg).Some?
      ensures ok ==> Some(Bridged(balances, total')) == BridgeOne(chain, env, Bridged(old(balances), total), msg)
    {
      ok, total' := true, total;
      if IsBridgeMessage(chain, msg) {
        var target := CheckMessage(env, msg);
        ok := target.Some?;
        if ok {
          ok := CreditBalance(target.value, msg.value);
          total' := total + msg.value;
        }
      }
    }

    /** The account a message is for, if it names one and every check on it passes. */
    method CheckMessage(env: Env, msg: Message) returns (r: Option<Name>)
      ensures r == BridgeTarget(chain, env, msg)
      ensures r == if Acceptable(chain, env, msg) then NamedBy(env, msg) else None
    {
      TargetMeaning(chain, env, msg);
      var d := DecodeMessage(msg.data);
      if !d.Decoded? || d.msg.account !in env.nameOf {
        return None;
      }
      var receiver := env.nameOf[d.msg.account];
      if receiver !in env.accounts || receiver !in env.receivers {
        return None;
      }
      if d.msg.forceAtomic && !env.receivers[receiver].forceAtomic {
        return None;
      }
      if msg.value < Times(env.receivers[receiver].minFee, chain.unit) {
        return None;
      }
      return Some(receiver);
    }

    method DoTx(env: Env, rc: RuntimeConfig, miner: Name, tx: Tx, minInclusion: Option<nat>, run: EvmRun) returns (ok: bool)
      modifies this
      ensures ok <==> ProcessTx(chain, env, old(View()), rc, miner, tx, minInclusion, run).Some?
      ensures ok ==> Some(View()) == ProcessTx(chain, env, old(View()), rc, miner, tx, minInclusion, run)
    {
      if !(rc.allowNonSelfMiner || miner == chain.self) || !PriceOk(env, tx, minInclusion) {
        return false;
      }
      ok := DoExecuteTx(env, rc, miner, tx, run);
      if ok {
        ok := DoMessages(env, run.messages);
      }
      evm := run.evm;
    }

    /** `process_tx`: with a run that conserves balances it goes through exactly under `TxOk`, leaves
        exactly `AfterTx`, and the contract solvent. No transaction touches the nonces. */
    method DoProcessTx(env: Env, rc: RuntimeConfig, miner: Name, tx: Tx, minInclusion: Option<nat>, run: EvmRun) returns (ok: bool)
      modifies this
      ensures ok <==> ProcessTx(chain, env, old(View()), rc, miner, tx, minInclusion, run).Some?
      ensures ok ==> Some(View()) == ProcessTx(chain, env, old(View()), rc, miner, tx, minInclusion, run)
      ensures ok && old(Solvent(chain, View())) && Conserves(old(evm), tx, run) ==> Solvent(chain, View())
      ensures old(Solvent(chain, View())) && Conserves(old(evm), tx, run) ==>
                var job := T.Job(rc, miner, tx, minInclusion, run);
                (ok <==> T.TxOk(chain, env, old(View()), job)) && (ok ==> View() == T.AfterTx(chain, env, old(View()), job))
      ensures ok ==> nonces == old(nonces)
    {
      ghost var before := View();
      ok := DoTx(env, rc, miner, tx, minInclusion, run);
      if Solvent(chain, before) && Conserves(before.evm, tx, run) {
        ProcessTxSolvent(chain, env, before, rc, miner, tx, minInclusion, run);
        T.TransactionMeaning(chain, env, before, T.Job(rc, miner, tx, minInclusion, run));
      }
      ProcessTxKeepsNonces(chain, env, before, rc, miner, tx, minInclusion, run);
    }

    // ---- actions ----

    /** Opening keeps solvency and every account's next nonce. */
    method DoOpen(owner: Name)
      modifies this`balances, this`nonces
      ensures View() == OpenAccount(old(View()), owner)
      ensures old(Good(chain, View())) ==> Good(chain, View())
      ensures forall n: Name :: Next(View(), n) == Next(old(View()), n)
    {
      if Good(chain, View()) {
        OpenGood(chain, View(), owner);
      }
      if owner !in balances {
        balances := balances[owner := 0];
      }
      if owner !in nonces {
        nonces := nonces[owner := 0];
      }
    }

    /** Only an empty row can go, and the next nonce is remembered. */
    method DoClose(owner: Name) returns (ok: bool)
      modifies this`balances, this`nonces
      ensures ok <==> owner != chain.self && old(owner in balances && balances[owner] == 0 && owner in nonces)
      ensures ok <==> CloseAccount(chain, old(View()), owner).Some?
      ensures ok ==> Some(View()) == CloseAccount(chain, old(View()), owner)
      ensures ok && old(Good(chain, View())) ==> Good(chain, View())
      ensures forall n: Name :: Next(View(), n) == Next(old(View()), n)
    {
      if Good(chain, View()) {
        CloseGood(chain, View(), owner);
      }
      if owner == chain.self || owner !in balances || balances[owner] != 0 || owner !in nonces {
        return false;
      }
      balances := balances - {owner};
      if nonces[owner] == 0 {
        nonces := nonces - {owner};
      }
      return true;
    }

    method GetAndIncrementNonce(owner: Name) returns (ok: bool, nonce: nat)
      modifies this`nonces
      ensures ok <==> owner in old(nonces)
      ensures ok ==> nonce == Next(old(View()), owner) && nonces == old(nonces)[owner := nonce + 1]
    {
      if owner !in nonces {
        return false, 0;
      }
      nonce := nonces[owner];
      nonces := nonces[owner := nonce + 1];
      ok := true;
    }

    method ReceiveTokens(quantity: nat) returns (ok: bool)
      modifies this`held
      ensures ok <==> Receive(chain, old(View()), quantity).Some?
      ensures ok ==> Some(View()) == Receive(chain, old(View()), quantity)
    {
      if quantity == 0 || held + Times(quantity, chain.unit) >= Cap(chain.unit) {
        return false;
      }
      held := held + Times(quantity, chain.unit);
      return true;
    }

    /** A deposit raises one open row and the tokens held by the same amount. */
    method HandleAccountTransfer(to: Name, quantity: nat) returns (ok: bool)
      modifies this`held, this`balances
      ensures ok <==> Deposit(chain, old(View()), to, quantity).Some?
      ensures ok ==> Some(View()) == Deposit(chain, old(View()), to, quantity)
      ensures ok && old(Good(chain, View())) ==> Good(chain, View())
      ensures ok <==> quantity > 0 && old(held) + Times(quantity, chain.unit) < Cap(chain.unit)
                      && to in old(balances) && old(balances)[to] + Times(quantity, chain.unit) < Cap(chain.unit)
      ensures ok ==> held == old(held) + Times(quantity, chain.unit)
                     && balances == old(balances)[to := old(balances)[to] + Times(quantity, chain.unit)]
    {
      DepositMeaning(chain, View(), to, quantity);
      if Good(chain, View()) {
        DepositGood(chain, View(), to, quantity);
      }
      ok := ReceiveTokens(quantity);
      if ok {
        ok := CreditBalance(to, Times(quantity, chain.unit));
      }
    }

    method DoPrepareBridgeIn(env: Env, quantity: nat) returns (ok: bool)
      modifies this`held, this`balances, this`bridgeIncome, this`nonces
      ensures ok <==> PrepareBridgeIn(chain, env, old(View()), quantity).Some?
      ensures ok ==> Some(View()) == PrepareBridgeIn(chain, env, old(View()), quantity)
    {
      ok := ReceiveTokens(quantity);
      if ok {
        ok := CreditBalance(chain.self, Times(quantity, chain.unit));
      }
      if !ok || quantity <= env.ingressFee {
        return false;
      }
      var w := Credit(chain.unit, bridgeIncome, Times(env.ingressFee, chain.unit));
      if w.None? {
        return false;
      }
      bridgeIncome := w.value;
      var nonce;
      ok, nonce := GetAndIncrementNonce(chain.self);
    }

    /** Bridging in to a plain address leaves the contract exactly the fee and the destination the rest. */
    method HandleEvmTransfer(env: Env, quantity: nat, gasLimit: nat, run: EvmRun) returns (ok: bool)
      modifies this
      ensures ok <==> BridgeIn(chain, env, old(View()), quantity, gasLimit, run).Some?
      ensures ok ==> Some(View()) == BridgeIn(chain, env, old(View()), quantity, gasLimit, run)
      ensures ok ==> forall dest :: BridgedPlainly(chain, env, old(View()), dest, quantity, gasLimit, run, View())
      ensures ok ==> quantity > env.ingressFee && bridgeIncome == old(bridgeIncome) + Times(env.ingressFee, chain.unit)
      ensures old(Solvent(chain, View())) && run.success && quantity > env.ingressFee
              && Conserves(old(evm), BridgeInTx(chain, env, quantity, gasLimit), run) ==>
                forall inflow :: Charges(chain, env, BridgeInTx(chain, env, quantity, gasLimit), run, inflow) ==>
                  (ok <==> BridgeInOk(chain, env, old(View()), quantity, gasLimit, run, inflow))
    {
      ghost var before := View();
      if Solvent(chain, before) && run.success && quantity > env.ingressFee
         && Conserves(before.evm, BridgeInTx(chain, env, quantity, gasLimit), run) {
        BridgeInSucceedsAny(chain, env, before, quantity, gasLimit, run);
      }
      ok := DoPrepareBridgeIn(env, quantity);
      if ok {
        ok := DoProcessTx(env, INTERNAL, chain.self, BridgeInTx(chain, env, quantity, gasLimit), None, run);
      }
      if ok {
        BridgeInAnywhere(chain, env, before, quantity, gasLimit, run, View());
        FeeIsBooked(chain, env, before, quantity, gasLimit, run, View());
      }
    }

    /** In a solvent contract exactly the withdrawals the owner's row covers succeed; they send the
        quantity to the named receiver, or to the owner if none is named. */
    method DoWithdraw(owner: Name, quantity: int, to: Option<Name>) returns (ok: bool)
      modifies this`balances, this`held, this`sent
      ensures ok <==> Withdraw(chain, old(View()), owner, quantity, to).Some?
      ensures ok ==> Some(View()) == Withdraw(chain, old(View()), owner, quantity, to)
      ensures old(Solvent(chain, View())) ==>
                (ok <==> owner in old(balances) && 0 < quantity <= MAX_AMOUNT && to.GetOr(owner) != chain.self
                         && Times(quantity, chain.unit) <= old(balances)[owner])
      ensures old(Solvent(chain, View())) && ok ==>
                && sent == old(sent) + [Transfer(to.GetOr(owner), quantity)]
                && held == old(held) - Times(quantity, chain.unit)
                && balances == old(balances)[owner := old(balances)[owner] - Times(quantity, chain.unit)]
    {
      if Solvent(chain, View()) {
        WithdrawMeaning(chain, View(), owner, quantity, to);
      }
      if owner !in balances {
        return false;
      }
      ok := TransferTokens(to.GetOr(owner), quantity);
      if ok {
        ok := DebitBalance(owner, Times(quantity, chain.unit));
      }
    }

    method DoCallTx(env: Env, payer: Option<Name>, from: Name, value: nat, gasLimit: nat, run: EvmRun) returns (ok: bool)
      modifies this
      ensures var r := CallPaid(chain, env, old(View()), payer, from, value, gasLimit, run);
              (ok <==> r.Some?) && (ok ==> Some(View()) == r)
    {
      ghost var before := View();
      if payer.Some? && env.version < 1 {
        return false;
      }
      var nonce;
      ok, nonce := GetAndIncrementNonce(from);
      if ok {
        CallPaidIsProcessTx(chain, env, before, payer, from, value, gasLimit, run, View());
        ok := DoProcessTx(env, INTERNAL.(gasPayer := payer), chain.self,
                          InternalTx(env, FromReserved(from), value, gasLimit), None, run);
      }
    }

    /** `call` without a payer, `callotherpay` with one: whoever pays, every row ends up settled. */
    method DoCall(env: Env, payer: Option<Name>, from: Name, value: nat, gasLimit: nat, run: EvmRun) returns (ok: bool)
      modifies this
      ensures var r := CallPaid(chain, env, old(View()), payer, from, value, gasLimit, run);
              (ok <==> r.Some?) && (ok ==> Some(View()) == r)
      ensures ok ==> forall inflow, n ::
                Charges(chain, env, InternalTx(env, FromReserved(from), value, gasLimit), run, inflow) ==>
                RowSettled(chain, env, old(View()), payer, InternalTx(env, FromReserved(from), value, gasLimit), run, inflow, n, View())
      ensures old(Solvent(chain, View())) && run.success
              && Conserves(old(evm), InternalTx(env, FromReserved(from), value, gasLimit), run) ==>
                forall inflow :: Charges(chain, env, InternalTx(env, FromReserved(from), value, gasLimit), run, inflow) ==>
                  (ok <==> CallOk(chain, env, old(View()), payer, from, value, gasLimit, run, inflow))
    {
      ghost var before := View();
      if Solvent(chain, before) && run.success && Conserves(before.evm, InternalTx(env, FromReserved(from), value, gasLimit), run) {
        CallSucceedsAny(chain, env, before, payer, from, value, gasLimit, run);
      }
      ok := DoCallTx(env, payer, from, value, gasLimit, run);
      if ok {
        CallSettlesAll(chain, env, before, payer, from, value, gasLimit, run, View());
      }
    }

    method DoAdminCall(env: Env, from: Sender, value: nat, gasLimit: nat, run: EvmRun) returns (ok: bool)
      modifies this
      ensures ok <==> AdminCall(chain, env, old(View()), from, value, gasLimit, run).Some?
      ensures ok ==> Some(View()) == AdminCall(chain, env, old(View()), from, value, gasLimit, run)
      ensures ok && from.FromAddress? ==> from.address in old(evm) && nonces == old(nonces)
      ensures old(Solvent(chain, View())) && from.FromAddress? && Conserves(old(evm), InternalTx(env, from, value, gasLimit), run) ==>
                (ok <==> from.address in old(evm) &&
                         T.TxOk(chain, env, old(View()), T.Job(OwnRules(None), chain.self, InternalTx(env, from, value, gasLimit), None, run)))
    {
      if Solvent(chain, View()) && Conserves(evm, InternalTx(env, from, value, gasLimit), run) {
        AdminCallMeaning(chain, env, View(), from, value, gasLimit, run);
      }
      if from.FromReserved? {
        ok := DoCall(env, None, from.account, value, gasLimit, run);
      } else if from.address !in evm {
        ok := false;
      } else {
        ok := DoProcessTx(env, INTERNAL, chain.self, InternalTx(env, from, value, gasLimit), None, run);
      }
    }

    /** A miner other than the contract is paid its due, by the contract. */
    method DoPushTx(env: Env, fromSelf: bool, miner: Name, tx: Tx, minInclusion: Option<nat>, run: EvmRun) returns (ok: bool)
      modifies this
      ensures ok <==> PushTx(chain, env, old(View()), fromSelf, miner, tx, minInclusion, run).Some?
      ensures ok ==> Some(View()) == PushTx(chain, env, old(View()), fromSelf, miner, tx, minInclusion, run)
      ensures ok && old(Solvent(chain, View())) && Conserves(old(evm), tx, run) && miner != chain.self && miner != 0 ==>
                MinerPaid(chain, env, old(View()), miner, tx, run, View())
    {
      ghost var before := View();
      if minInclusion.Some? && env.version < 1 {
        return false;
      }
      ok := DoProcessTx(env, if fromSelf then INTERNAL else EXTERNAL, miner, tx, minInclusion, run);
      if ok && Solvent(chain, before) && Conserves(before.evm, tx, run) && miner != chain.self && miner != 0 {
        MinerIsPaid(chain, env, before, fromSelf, miner, tx, minInclusion, run, View());
      }
    }

    method DoAction(env: Env, a: Action) returns (ok: bool)
      modifies this
      ensures ok <==> Apply(chain, env, old(View()), a).Some?
      ensures ok ==> Some(View()) == Apply(chain, env, old(View()), a)
    {
      match a {
        case Open(n) => DoOpen(n); ok := true;
        case Close(n) => ok := DoClose(n);
        case DepositTo(n, q) => ok := HandleAccountTransfer(n, q);
        case BridgeTo(q, g, run) => ok := HandleEvmTransfer(env, q, g, run);
        case WithdrawTo(n, q, to) => ok := DoWithdraw(n, q, to);
        case CallAs(n, v, g, run) => ok := DoCall(env, None, n, v, g, run);
        case CallPaidBy(p, n, v, g, run) => ok := DoCall(env, Some(p), n, v, g, run);
        case AdminCallAs(s, v, g, run) => ok := DoAdminCall(env, s, v, g, run);
        case Push(self, m, tx, mi, run) => ok := DoPushTx(env, self, m, tx, mi, run);
      }
    }

    /** The host undoing an action. */
    method Restore(l: Ledger)
      modifies this
      ensures View() == l
    {
      balances, inevm, nonces, held := l.balances, l.inevm, l.nonces, l.held;
      evm, gasIncome, bridgeIncome, sent := l.evm, l.gasIncome, l.bridgeIncome, l.sent;
    }

    /** The host: an action either takes effect as a whole or not at all; either way the contract
        stays solvent and exactly the issuer's next nonce has moved, by one, if it succeeded. */
    method Execute(env: Env, a: Action) returns (ok: bool)
      requires Good(chain, View()) && StepOk(chain, env, View(), a)
      modifies this
      ensures View() == Step(chain, old(View()), (env, a))
      ensures ok <==> Apply(chain, env, old(View()), a).Some?
      ensures Good(chain, View())
      ensures forall n: Name :: Next(View(), n) == Next(old(View()), n) + (if ok && Issuer(chain, a) == Some(n) then 1 else 0)
    {
      var before := View();
      ok := DoAction(env, a);
      if !ok {
        Restore(before);
      }
      StepOutcome(chain, before, env, a);
    }
  }

  lemma StepOutcome(c: Chain, l: Ledger, env: Env, a: Action)
    requires Good(c, l) && StepOk(c, env, l, a)
    ensures Step(c, l, (env, a)) == Apply(c, env, l, a).GetOr(l) && Good(c, Step(c, l, (env, a)))
    ensures forall n: Name :: Next(Step(c, l, (env, a)), n) ==
                        Next(l, n) + (if Apply(c, env, l, a).Some? && Issuer(c, a) == Some(n) then 1 else 0)
  {
    StepGood(c, env, l, a);
    forall n: Name ensures Next(Step(c, l, (env, a)), n) ==
                     Next(l, n) + (if Apply(c, env, l, a).Some? && Issuer(c, a) == Some(n) then 1 else 0)
    {
      StepNonces(c, l, (env, a), n);
    }
  }

  lemma ExecuteMeanings(c: Chain, env: Env, l: Ledger, rc: RuntimeConfig, miner: Name, tx: Tx, run: EvmRun)
    ensures forall minInclusion ::
              var job := T.Job(rc, miner, tx, minInclusion, run);
              Solvent(c, l) && Conserves(l.evm, tx, run) && (rc.allowNonSelfMiner || miner == c.self) && T.PriceMet(env, job) ==>
                ExecuteTx(c, env, l, rc, miner, tx, run) ==
                if T.ExecOk(c, env, l, job) then Some(T.AfterGas(c, env, T.Left(c, env, l, job), job)) else None
  {
    forall minInclusion |
      Solvent(c, l) && Conserves(l.evm, tx, run) && (rc.allowNonSelfMiner || miner == c.self)
      && T.PriceMet(env, T.Job(rc, miner, tx, minInclusion, run))
      ensures var job := T.Job(rc, miner, tx, minInclusion, run);
              ExecuteTx(c, env, l, rc, miner, tx, run) ==
              if T.ExecOk(c, env, l, job) then Some(T.AfterGas(c, env, T.Left(c, env, l, job), job)) else None
    {
      T.ExecuteMeaning(c, env, l, T.Job(rc, miner, tx, minInclusion, run));
    }
  }
}
