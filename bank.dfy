/** The bank's message-driven machine (bank_atm_state/bank.h): it checks a
    fixed PIN, allows a withdrawal only when the balance covers it and
    reports the balance. */
module Bank {
  import opened Common
  import opened Operation

  /** The balance a freshly constructed bank starts with. */
  const InitialBalance: u32 := 199

  /** The one PIN the bank accepts. */
  const CorrectPin: string := "1937"

  /** The message types the bank's dispatcher has a handler for; every other
      message is discarded by the dispatcher. */
  predicate Handles(m: Message)
  {
    m.VerifyPin? || m.Withdraw? || m.GetBalance? || m.WithdrawalProcessed? || m.CancelWithdrawal?
  }

  /** What one handled message does: the balance afterwards and the replies
      sent to the reply queue carried by the message. */
  function Handle(balance: u32, m: Message): (r: (u32, seq<Envelope>))
    requires Handles(m)
  {
    match m
    case VerifyPin(_, pin, q) =>
      (balance, [Envelope(q, if pin == CorrectPin then PinVerified else PinIncorrect)])
    case Withdraw(_, amount, q) =>
      if balance >= amount then (balance - amount, [Envelope(q, WithdrawOk)])
      else (balance, [Envelope(q, WithdrawDenied)])
    case GetBalance(_, q) => (balance, [Envelope(q, Balance(balance))])
    case WithdrawalProcessed(_, _) => (balance, [])
    case CancelWithdrawal(_, _) => (balance, [])
  }

  /** The outcome of the run loop over a finite input: the final balance,
      every reply sent, how many input messages were taken off the queue
      and whether a close_queue ended the loop. */
  datatype RunResult = RunResult(balance: u32, sent: seq<Envelope>, consumed: nat, closed: bool)

  /** The run loop: messages are taken in order until a close_queue is caught;
      when the input runs out the machine is left waiting. */
  function RunFrom(balance: u32, input: seq<Message>): (r: RunResult)
    ensures r.consumed <= |input|
    decreases |input|
  {
    if input == [] then RunResult(balance, [], 0, false)
    else if input[0].CloseQueue? then RunResult(balance, [], 1, true)
    else
      var step := if Handles(input[0]) then Handle(balance, input[0]) else (balance, []);
      var r := RunFrom(step.0, input[1..]);
      RunResult(r.balance, step.1 + r.sent, r.consumed + 1, r.closed)
  }

  /** verify_pin answers pin_verified exactly when the PIN is "1937" and
      pin_incorrect otherwise, to the queue named in the request, and leaves
      the balance alone. */
  lemma VerifyPinReply(balance: u32, account: string, pin: string, q: Queue)
    ensures Handle(balance, VerifyPin(account, pin, q)).0 == balance
    ensures Handle(balance, VerifyPin(account, pin, q)).1 == [Envelope(q, PinVerified)] <==> pin == "1937"
    ensures Handle(balance, VerifyPin(account, pin, q)).1 == [Envelope(q, PinIncorrect)] <==> pin != "1937"
  {
  }

  /** A withdrawal succeeds exactly when the balance covers it; it then
      lowers the balance by exactly the amount, and a denied withdrawal
      leaves the balance unchanged. */
  lemma WithdrawReply(balance: u32, account: string, amount: u32, q: Queue)
    ensures Handle(balance, Withdraw(account, amount, q)).1 == [Envelope(q, WithdrawOk)] <==> balance >= amount
    ensures Handle(balance, Withdraw(account, amount, q)).1 == [Envelope(q, WithdrawDenied)] <==> balance < amount
    ensures balance >= amount ==> Handle(balance, Withdraw(account, amount, q)).0 == balance - amount
    ensures balance < amount ==> Handle(balance, Withdraw(account, amount, q)).0 == balance
  {
  }

  /** get_balance reports the current balance; it and the two notifications
      withdrawal_processed and cancel_withdrawal leave the balance unchanged. */
  lemma QueriesKeepBalance(balance: u32, account: string, amount: u32, q: Queue)
    ensures Handle(balance, GetBalance(account, q)) == (balance, [Envelope(q, Balance(balance))])
    ensures Handle(balance, WithdrawalProcessed(account, amount)) == (balance, [])
    ensures Handle(balance, CancelWithdrawal(account, amount)) == (balance, [])
  {
  }

  /** The balance never grows, and every balance the bank reports lies
      between the final and the starting balance. */
  lemma {:induction false} RunBalanceBounded(balance: u32, input: seq<Message>)
    ensures RunFrom(balance, input).balance <= balance
    ensures forall e | e in RunFrom(balance, input).sent && e.msg.Balance? ::
              RunFrom(balance, input).balance <= e.msg.amount <= balance
    decreases |input|
  {
    if input != [] && !input[0].CloseQueue? {
      var step := if Handles(input[0]) then Handle(balance, input[0]) else (balance, []);
      RunBalanceBounded(step.0, input[1..]);
    }
  }

  /** Every message up to the first close_queue is taken off the queue and
      nothing after it: the loop ends exactly at the first close_queue. */
  lemma {:induction false} RunStopsAtClose(balance: u32, input: seq<Message>)
    ensures RunFrom(balance, input).closed <==> CloseQueue in input
    ensures RunFrom(balance, input).consumed <= |input|
    ensures RunFrom(balance, input).closed ==>
              var k := RunFrom(balance, input).consumed;
              0 < k && input[k - 1] == CloseQueue && CloseQueue !in input[..k - 1]
    ensures !RunFrom(balance, input).closed ==> RunFrom(balance, input).consumed == |input|
    decreases |input|
  {
    if input != [] && !input[0].CloseQueue? {
      var step := if Handles(input[0]) then Handle(balance, input[0]) else (balance, []);
      RunStopsAtClose(step.0, input[1..]);
      assert input == [input[0]] + input[1..];
      var k := RunFrom(step.0, input[1..]).consumed;
      if RunFrom(balance, input).closed {
        assert input[..k + 1 - 1] == [input[0]] + input[1..][..k - 1];
      }
    }
  }

  /** The run over `xs + ys` agrees with the run over `xs` followed by the
      run over `ys`. */
  ghost predicate RunsCompose(balance: u32, xs: seq<Message>, ys: seq<Message>)
  {
    var r1 := RunFrom(balance, xs);
    var r2 := RunFrom(r1.balance, ys);
    RunFrom(balance, xs + ys) == RunResult(r2.balance, r1.sent + r2.sent, |xs| + r2.consumed, r2.closed)
  }

  /** Running on two inputs one after the other is running on their
      concatenation, as long as the first holds no close_queue. */
  lemma {:induction false} RunAppend(balance: u32, xs: seq<Message>, ys: seq<Message>)
    requires CloseQueue !in xs
    ensures RunsCompose(balance, xs, ys)
    decreases |xs|
  {
    if xs == [] {
      assert xs + ys == ys;
    } else {
      var step := if Handles(xs[0]) then Handle(balance, xs[0]) else (balance, []);
      assert xs[0] in xs;
      assert CloseQueue !in xs[1..] by {
        forall i | 0 <= i < |xs| - 1 ensures xs[1..][i] != CloseQueue { assert xs[1..][i] == xs[i + 1]; }
      }
      RunAppend(step.0, xs[1..], ys);
      RunAppendStep(balance, xs, ys);
    }
  }

  /** The inductive step of `RunAppend`: composing the rest of `xs` with `ys`
      composes all of `xs` with `ys`. */
  lemma RunAppendStep(balance: u32, xs: seq<Message>, ys: seq<Message>)
    requires xs != [] && !xs[0].CloseQueue?
    requires var step := if Handles(xs[0]) then Handle(balance, xs[0]) else (balance, []);
             RunsCompose(step.0, xs[1..], ys)
    ensures RunsCompose(balance, xs, ys)
  {
    var step := if Handles(xs[0]) then Handle(balance, xs[0]) else (balance, []);
    assert (xs + ys)[0] == xs[0];
    assert (xs + ys)[1..] == xs[1..] + ys;
    var r1' := RunFrom(step.0, xs[1..]);
    var r2 := RunFrom(r1'.balance, ys);
    assert step.1 + (r1'.sent + r2.sent) == (step.1 + r1'.sent) + r2.sent;
  }

  /** The bank machine: its balance is decremented in place by the
      withdraw handler of its run loop. Messages sent to it wait in
      `incoming`; replies are appended to `sent`. */
  class BankMachine {
    var balance: u32
    var incoming: seq<Message>
    var sent: seq<Envelope>

    /** A new bank holds the initial balance of 199 and has received and sent
        nothing. */
    constructor ()
      ensures balance == InitialBalance && incoming == [] && sent == []
    {
      balance := InitialBalance;
      incoming := [];
      sent := [];
    }

    /** `get_sender().send(m)`: the message joins the bank's queue. */
    method Send(m: Message)
      modifies this
      ensures incoming == old(incoming) + [m]
      ensures balance == old(balance) && sent == old(sent)
    {
      incoming := incoming + [m];
    }

    /** `done()`: ask the run loop to stop. */
    method Done()
      modifies this
      ensures incoming == old(incoming) + [CloseQueue]
      ensures balance == old(balance) && sent == old(sent)
    {
      Send(CloseQueue);
    }

    /** The handler the dispatcher runs for one message the bank handles. */
    method Dispatch(m: Message)
      requires Handles(m)
      modifies this
      ensures sent == old(sent) + Handle(old(balance), m).1
      ensures balance == Handle(old(balance), m).0
      ensures incoming == old(incoming)
    {
      match m {
        case VerifyPin(_, pin, q) =>
          if pin == CorrectPin {
            sent := sent + [Envelope(q, PinVerified)];
          } else {
            sent := sent + [Envelope(q, PinIncorrect)];
          }
        case Withdraw(_, amount, q) =>
          if balance >= amount {
            sent := sent + [Envelope(q, WithdrawOk)];
            balance := balance - amount;
          } else {
            sent := sent + [Envelope(q, WithdrawDenied)];
          }
        case GetBalance(_, q) =>
          sent := sent + [Envelope(q, Balance(balance))];
        case WithdrawalProcessed(_, _) =>
        case CancelWithdrawal(_, _) =>
      }
    }

    /** The run loop: handles the queued messages in order until a
        close_queue is caught or the queue is empty (where the real machine
        would block). */
    method Run()
      modifies this
      ensures var r := RunFrom(old(balance), old(incoming));
              balance == r.balance && sent == old(sent) + r.sent &&
              incoming == old(incoming)[r.consumed..]
    {
      ghost var input := incoming;
      ghost var total := RunFrom(balance, incoming);
      ghost var acc: seq<Envelope> := [];
      ghost var i := 0;
      while incoming != []
        invariant 0 <= i <= |input| && incoming == input[i..]
        invariant sent == old(sent) + acc
        invariant total == Prepend(acc, i, RunFrom(balance, incoming))
        decreases |incoming|
      {
        var m := incoming[0];
        if m.CloseQueue? {
          incoming := incoming[1..];
          i := i + 1;
          return;
        }
        ghost var step := if Handles(m) then Handle(balance, m) else (balance, []);
        PrependHandled(acc, i, balance, incoming);
        incoming := incoming[1..];
        i := i + 1;
        if Handles(m) {
          Dispatch(m);
        }
        acc := acc + step.1;
      }
    }
  }

  /** Unfolding `RunFrom` over one message that is not a close_queue, behind
      an already processed prefix. */
  lemma PrependHandled(acc: seq<Envelope>, n: nat, balance: u32, input: seq<Message>)
    requires input != [] && !input[0].CloseQueue?
    ensures var step := if Handles(input[0]) then Handle(balance, input[0]) else (balance, []);
            Prepend(acc, n, RunFrom(balance, input)) == Prepend(acc + step.1, n + 1, RunFrom(step.0, input[1..]))
  {
    var step := if Handles(input[0]) then Handle(balance, input[0]) else (balance, []);
    var rest := RunFrom(step.0, input[1..]);
    assert acc + (step.1 + rest.sent) == (acc + step.1) + rest.sent;
  }

  /** A run result with the effect of an already processed prefix in front. */
  function Prepend(acc: seq<Envelope>, n: nat, r: RunResult): RunResult
  {
    RunResult(r.balance, acc + r.sent, n + r.consumed, r.closed)
  }
}
