/**
  The fee-transfer gate of `Bank.withdrawBitcoinToFeeWallet`: send a fixed
  fee amount from the primary wallet to the fee wallet's receive address,
  but only when the balance covers that amount plus the minimum network fee.
  The wallet engine is abstract: its balance is an integer, and whether
  `completeTx` can fund the request is an input.
 */
module FeeTransfer {
  import opened Bitcoin

  /** The fixed amount moved to the fee wallet, in satoshis. */
  const FEE_AMOUNT: int := 10000

  /** A bitcoinj `SendRequest`: pay `amount` satoshis to `to`. */
  datatype SendRequest = SendRequest(to: Address, amount: int)

  /** What the engine did on the primary wallet's behalf. */
  datatype EngineAction =
    | Built(request: SendRequest)
    | Completed(request: SendRequest)
    | Committed(request: SendRequest)

  /**
    How `completeTx` treats a request: it finds inputs and settles the network
    fee it charges, or it throws `InsufficientMoneyException`.
   */
  datatype Completion = Funded(txFee: nat) | InsufficientMoney

  /**
    How a call ends. Each case returns normally to the caller: the source
    catches only `InsufficientMoneyException`.
   */
  datatype WithdrawOutcome =
    | BalanceTooLow
    | CompletionFailed
    | Withdrawn(feeDeducted: int)

  /** The effect of one call: its outcome, the engine actions in order, the new balance. */
  datatype Withdrawal = Withdrawal(outcome: WithdrawOutcome, actions: seq<EngineAction>, balance: int)

  /** Some action of `actions` commits a transaction. */
  predicate CommitsSomething(actions: seq<EngineAction>)
  {
    exists i :: 0 <= i < |actions| && actions[i].Committed?
  }

  /**
    What one call does, given the balance it reads, the fee wallet's current
    receive address, the minimum network fee and the way `completeTx` goes.
   */
  function Withdraw(balance: int, feeAddress: Address, minTxFee: nat, completion: Completion): (w: Withdrawal)
    // Below the threshold: nothing is built, completed or committed and the balance stays.
    ensures balance < FEE_AMOUNT + minTxFee <==> w.actions == []
    ensures balance < FEE_AMOUNT + minTxFee ==> w.outcome == BalanceTooLow && w.balance == balance
    // At or above it: the one request built is exactly the fee amount to the fee address.
    ensures forall i :: 0 <= i < |w.actions| ==> w.actions[i].request == SendRequest(feeAddress, FEE_AMOUNT)
    ensures w.actions != [] ==> w.actions[0].Built?
    // One call builds one request and completes and commits it at most once.
    ensures balance >= FEE_AMOUNT + minTxFee ==>
      var request := SendRequest(feeAddress, FEE_AMOUNT);
      w.actions == [Built(request)] + (if completion.Funded? then [Completed(request), Committed(request)] else [])
    ensures w.outcome == CompletionFailed <==> balance >= FEE_AMOUNT + minTxFee && completion.InsufficientMoney?
    // A commit happens only right after a successful completion.
    ensures forall i :: 0 <= i < |w.actions| && w.actions[i].Committed? ==> 0 < i && w.actions[i - 1].Completed?
    ensures CommitsSomething(w.actions) <==> balance >= FEE_AMOUNT + minTxFee && completion.Funded?
    ensures w.outcome.Withdrawn? <==> CommitsSomething(w.actions)
    // Only a commit moves money: the fee amount plus the fee the engine charged.
    ensures !w.outcome.Withdrawn? ==> w.balance == balance
    ensures w.outcome.Withdrawn? ==>
      completion.Funded? && w.outcome.feeDeducted == FEE_AMOUNT && w.balance == balance - FEE_AMOUNT - completion.txFee
  {
    if balance < FEE_AMOUNT + minTxFee then
      Withdrawal(BalanceTooLow, [], balance)
    else
      var request := SendRequest(feeAddress, FEE_AMOUNT);
      match completion
      case InsufficientMoney =>
        Withdrawal(CompletionFailed, [Built(request)], balance)
      case Funded(txFee) =>
        var actions := [Built(request), Completed(request), Committed(request)];
        assert actions[2].Committed?;
        Withdrawal(Withdrawn(FEE_AMOUNT), actions, balance - FEE_AMOUNT - txFee)
  }

  /** Two successive calls on an insufficient balance have no effect between them. */
  lemma {:induction false} InsufficientRepeatedIsNoOp(balance: int, feeAddress: Address, minTxFee: nat, c1: Completion, c2: Completion)
    requires balance < FEE_AMOUNT + minTxFee
    ensures var w1 := Withdraw(balance, feeAddress, minTxFee, c1);
            var w2 := Withdraw(w1.balance, feeAddress, minTxFee, c2);
            w1.actions + w2.actions == [] && w2.balance == balance
  {
  }

  /**
    When the engine funds a request only from what the wallet holds, a call
    never drives a non-negative balance below zero.
   */
  lemma WithdrawKeepsBalanceNonNegative(balance: int, feeAddress: Address, minTxFee: nat, completion: Completion)
    requires balance >= 0
    requires completion.Funded? ==> FEE_AMOUNT + completion.txFee <= balance
    ensures Withdraw(balance, feeAddress, minTxFee, completion).balance >= 0
  {
  }

  /** The primary wallet as the bitcoinj engine keeps it: a balance and the actions taken on it. */
  class WalletEngine {
    var balance: int
    var log: seq<EngineAction>

    constructor (balance: int)
      ensures this.balance == balance && log == []
    {
      this.balance := balance;
      log := [];
    }

    /** `wallet.getBalance()`. */
    method GetBalance() returns (b: int)
      ensures b == balance
    {
      b := balance;
    }

    /** `SendRequest.to(to, amount)`. */
    method SendRequestTo(to: Address, amount: int) returns (request: SendRequest)
      modifies this
      ensures request == SendRequest(to, amount)
      ensures log == old(log) + [Built(request)] && balance == old(balance)
    {
      request := SendRequest(to, amount);
      log := log + [Built(request)];
    }

    /** `wallet.completeTx(request)`: `ok` is false where bitcoinj throws `InsufficientMoneyException`. */
    method CompleteTx(request: SendRequest, completion: Completion) returns (ok: bool)
      modifies this
      ensures ok == completion.Funded?
      ensures log == (if ok then old(log) + [Completed(request)] else old(log))
      ensures balance == old(balance)
    {
      ok := completion.Funded?;
      if ok {
        log := log + [Completed(request)];
      }
    }

    /** `wallet.commitTx(request.tx)`: the amount and the fee leave the wallet. */
    method CommitTx(request: SendRequest, txFee: nat)
      modifies this
      ensures log == old(log) + [Committed(request)]
      ensures balance == old(balance) - request.amount - txFee
    {
      log := log + [Committed(request)];
      balance := balance - request.amount - txFee;
    }
  }

  /**
    `withdrawBitcoinToFeeWallet`: the check, then the engine calls; the new
    state is what `Withdraw` says of the balance read at entry.
   */
  method WithdrawBitcoinToFeeWallet(wallet: WalletEngine, feeAddress: Address, minTxFee: nat, completion: Completion)
    returns (outcome: WithdrawOutcome)
    modifies wallet
    ensures var w := Withdraw(old(wallet.balance), feeAddress, minTxFee, completion);
            outcome == w.outcome && wallet.log == old(wallet.log) + w.actions && wallet.balance == w.balance
  {
    var totalAmount := FEE_AMOUNT + minTxFee;
    var balance := wallet.GetBalance();
    if balance < totalAmount {
      return BalanceTooLow;
    }
    var request := wallet.SendRequestTo(feeAddress, FEE_AMOUNT);
    var completed := wallet.CompleteTx(request, completion);
    if completed {
      wallet.CommitTx(request, completion.txFee);
      outcome := Withdrawn(FEE_AMOUNT);
    } else {
      outcome := CompletionFailed;
    }
  }
}
