/** The messages exchanged by the ATM, the bank and the interface hardware
    (bank_atm_state/operation.h), as one datatype. */
module Operation {
  import opened Common

  /** The message queues a sender can refer to. The ATM's own `incoming`
      queue is the only reply address that ever travels in a message. */
  datatype Queue = AtmQueue | BankQueue | InterfaceHardware

  /** One constructor per message struct. Each struct constructor only copies
      its arguments into the fields, which is what a datatype constructor does. */
  datatype Message =
    | Withdraw(account: string, amount: u32, atmQueue: Queue)
    | WithdrawOk
    | WithdrawDenied
    | CancelWithdrawal(account: string, amount: u32)
    | WithdrawalProcessed(account: string, amount: u32)
    | CardInserted(account: string)
    | DigitPressed(digit: char)
    | ClearLastPressed
    | EjectCard
    | WithdrawPressed(amount: u32)
    | CancelPressed
    | IssueMoney(amount: u32)
    | VerifyPin(account: string, pin: string, atmQueue: Queue)
    | PinVerified
    | PinIncorrect
    | DisplayEnterPin
    | DisplayEnterCard
    | DisplayInsufficientFunds
    | DisplayWithdrawalCancelled
    | DisplayPinIncorrectMessage
    | DisplayWithdrawalOptions
    | GetBalance(account: string, atmQueue: Queue)
    | Balance(amount: u32)
    | DisplayBalance(amount: u32)
    | BalancePressed
      /** The messaging library's `close_queue`: no handler matches it and
          receiving it ends a machine's `run` loop. */
    | CloseQueue

  /** A message together with the queue it was sent to: one entry of an
      output log. */
  datatype Envelope = Envelope(to: Queue, msg: Message)

  /** The message constructors keep every argument unchanged. */
  lemma ConstructorsKeepArguments(account: string, pin: string, amount: u32, digit: char, q: Queue)
    ensures Withdraw(account, amount, q).account == account
    ensures Withdraw(account, amount, q).amount == amount
    ensures Withdraw(account, amount, q).atmQueue == q
    ensures CancelWithdrawal(account, amount).account == account
    ensures CancelWithdrawal(account, amount).amount == amount
    ensures WithdrawalProcessed(account, amount).account == account
    ensures WithdrawalProcessed(account, amount).amount == amount
    ensures CardInserted(account).account == account
    ensures DigitPressed(digit).digit == digit
    ensures VerifyPin(account, pin, q).account == account
    ensures VerifyPin(account, pin, q).pin == pin
    ensures VerifyPin(account, pin, q).atmQueue == q
    ensures WithdrawPressed(amount).amount == amount
    ensures IssueMoney(amount).amount == amount
    ensures Balance(amount).amount == amount
    ensures DisplayBalance(amount).amount == amount
    ensures GetBalance(account, q).account == account
    ensures GetBalance(account, q).atmQueue == q
  {
  }
}
