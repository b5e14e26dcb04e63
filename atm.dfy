/** The ATM's message-driven state machine (bank_atm_state/atm.h). Each
    state function optionally announces something, then waits for one
    message its handlers accept and runs that handler, which may send
    messages and move to another state. */
module Atm {
  import opened Common
  import opened Operation

  /** The number of digits after which the PIN is sent for verification. */
  const PinLength: nat := 4

  /** The seven state functions the `state` member-function pointer can hold. */
  datatype State =
    | WaitingForCard
    | GettingPin
    | VerifyingPin
    | WaitForAction
    | ProcessWithdrawal
    | ProcessBalance
    | DoneProcessing

  /** The ATM's fields other than its queues. */
  datatype Config = Config(state: State, account: string, withdrawalAmount: u32, pin: string)

  /** How one call of a state function ended: it ran a handler, it caught a
      close_queue, or the input ran out while it was waiting. */
  datatype Outcome = Continue | Closed | Blocked

  /** What `incoming.wait()` delivered to the handlers. */
  datatype Event = Got(msg: Message) | CloseCaught | NothingLeft

  function ToHardware(m: Message): Envelope { Envelope(InterfaceHardware, m) }

  function ToBank(m: Message): Envelope { Envelope(BankQueue, m) }

  /** The message types each state function has a handler for. The done
      state does not wait for any message. */
  predicate Handles(s: State, m: Message)
  {
    match s
    case WaitingForCard => m.CardInserted?
    case GettingPin => m.DigitPressed? || m.ClearLastPressed? || m.CancelPressed?
    case VerifyingPin => m.PinVerified? || m.PinIncorrect? || m.CancelPressed?
    case WaitForAction => m.WithdrawPressed? || m.BalancePressed? || m.CancelPressed?
    case ProcessWithdrawal => m.WithdrawOk? || m.WithdrawDenied? || m.CancelPressed?
    case ProcessBalance => m.Balance? || m.CancelPressed?
    case DoneProcessing => false
  }

  /** What a state function sends before it starts waiting. */
  function Announce(s: State): seq<Envelope>
  {
    match s
    case WaitingForCard => [ToHardware(DisplayEnterCard)]
    case WaitForAction => [ToHardware(DisplayWithdrawalOptions)]
    case _ => []
  }

  /** The handler a state runs for a message it accepts: the new fields and
      the messages sent, in the order the handler sends them. */
  function Handle(c: Config, m: Message): (Config, seq<Envelope>)
    requires Handles(c.state, m)
  {
    match c.state
    case WaitingForCard =>
      (c.(account := m.account, pin := "", state := GettingPin), [ToHardware(DisplayEnterPin)])
    case GettingPin =>
      if m.DigitPressed? then
        var pin := c.pin + [m.digit];
        if |pin| == PinLength then
          (c.(pin := pin, state := VerifyingPin), [ToBank(VerifyPin(c.account, pin, AtmQueue))])
        else (c.(pin := pin), [])
      else if m.ClearLastPressed? then
        (if c.pin != [] then c.(pin := c.pin[..|c.pin| - 1]) else c, [])
      else (c.(state := DoneProcessing), [])
    case VerifyingPin =>
      if m.PinVerified? then (c.(state := WaitForAction), [])
      else if m.PinIncorrect? then (c.(state := DoneProcessing), [ToHardware(DisplayPinIncorrectMessage)])
      else (c.(state := DoneProcessing), [])
    case WaitForAction =>
      if m.WithdrawPressed? then
        (c.(withdrawalAmount := m.amount, state := ProcessWithdrawal),
         [ToBank(Withdraw(c.account, m.amount, AtmQueue))])
      else if m.BalancePressed? then
        (c.(state := ProcessBalance), [ToBank(GetBalance(c.account, AtmQueue))])
      else (c.(state := DoneProcessing), [])
    case ProcessWithdrawal =>
      if m.WithdrawOk? then
        (c.(state := DoneProcessing),
         [ToHardware(IssueMoney(c.withdrawalAmount)), ToBank(WithdrawalProcessed(c.account, c.withdrawalAmount))])
      else if m.WithdrawDenied? then
        (c.(state := DoneProcessing), [ToHardware(DisplayInsufficientFunds)])
      else
        (c.(state := DoneProcessing),
         [ToBank(CancelWithdrawal(c.account, c.withdrawalAmount)), ToHardware(DisplayWithdrawalCancelled)])
    case ProcessBalance =>
      if m.Balance? then (c.(state := WaitForAction), [ToHardware(DisplayBalance(m.amount))])
      else (c.(state := DoneProcessing), [])
  }

  /** The position of the first message a waiting state reacts to: one it
      handles or a close_queue; everything before it is discarded. */
  function FirstEvent(s: State, input: seq<Message>): (k: nat)
    ensures k <= |input|
    ensures forall j | 0 <= j < k :: !Handles(s, input[j]) && !input[j].CloseQueue?
    ensures k < |input| ==> Handles(s, input[k]) || input[k].CloseQueue?
    decreases |input|
  {
    if input == [] then 0
    else if Handles(s, input[0]) || input[0].CloseQueue? then 0
    else 1 + FirstEvent(s, input[1..])
  }

  /** A message state `s` neither handles nor stops at is discarded. */
  lemma FirstEventSkips(s: State, input: seq<Message>)
    requires input != [] && !Handles(s, input[0]) && !input[0].CloseQueue?
    ensures FirstEvent(s, input) == 1 + FirstEvent(s, input[1..])
  {
  }

  /** `incoming.wait()` in state `s`: the event delivered and how many
      messages were taken off the queue. */
  function Receive(s: State, input: seq<Message>): (Event, nat)
  {
    var k := FirstEvent(s, input);
    if k == |input| then (NothingLeft, k)
    else if input[k].CloseQueue? then (CloseCaught, k + 1)
    else (Got(input[k]), k + 1)
  }

  /** The effect of one call `(this->*state)()`. */
  datatype Step = Step(config: Config, sent: seq<Envelope>, consumed: nat, outcome: Outcome)

  function CallState(c: Config, input: seq<Message>): (st: Step)
    ensures st.consumed <= |input|
    ensures c.state == DoneProcessing ==>
              st.consumed == 0 && st.sent == [ToHardware(EjectCard)] &&
              st.config.state == WaitingForCard && st.outcome == Continue
    ensures c.state != DoneProcessing && st.outcome == Continue ==> st.consumed > 0
  {
    if c.state == DoneProcessing then
      Step(c.(state := WaitingForCard), [ToHardware(EjectCard)], 0, Continue)
    else
      var (e, k) := Receive(c.state, input);
      match e
      case NothingLeft => Step(c, Announce(c.state), k, Blocked)
      case CloseCaught => Step(c, Announce(c.state), k, Closed)
      case Got(m) =>
        var (c', out) := Handle(c, m);
        Step(c', Announce(c.state) + out, k, Continue)
  }

  /** The effect of `run` on a finite input: the final fields, every message
      sent, how many messages were taken off the queue and whether a
      close_queue ended the loop (otherwise the machine is left waiting). */
  datatype RunResult = RunResult(config: Config, sent: seq<Envelope>, consumed: nat, closed: bool)

  function RunFrom(c: Config, input: seq<Message>): (r: RunResult)
    ensures r.consumed <= |input|
    decreases |input|, if c.state == DoneProcessing then 1 else 0
  {
    var st := CallState(c, input);
    if st.outcome != Continue then RunResult(st.config, st.sent, st.consumed, st.outcome == Closed)
    else
      var r := RunFrom(st.config, input[st.consumed..]);
      RunResult(r.config, st.sent + r.sent, st.consumed + r.consumed, r.closed)
  }

  /** The PIN never holds more than four digits, and fewer than four while
      digits are still being collected. */
  ghost predicate PinInvariant(c: Config)
  {
    |c.pin| <= PinLength && (c.state == GettingPin ==> |c.pin| < PinLength)
  }

  /** Every verify_pin request goes to the bank, carries a full four-digit
      PIN and names the ATM's own queue for the reply. */
  ghost predicate VerifyRequestsWellFormed(sent: seq<Envelope>)
  {
    forall e | e in sent && e.msg.VerifyPin? :: e.to == BankQueue && |e.msg.pin| == PinLength && e.msg.atmQueue == AtmQueue
  }

  /** Inserting a card records the account, empties the PIN, asks for the
      PIN and moves to PIN entry. */
  lemma CardInsertedStartsPinEntry(c: Config, account: string)
    requires c.state == WaitingForCard
    ensures Handle(c, CardInserted(account)) ==
            (c.(account := account, pin := "", state := GettingPin), [ToHardware(DisplayEnterPin)])
  {
  }

  /** A digit appends one character; the fourth digit sends the PIN to the
      bank and moves on to verification, earlier ones send nothing. */
  lemma DigitAppends(c: Config, d: char)
    requires c.state == GettingPin
    ensures Handle(c, DigitPressed(d)).0.pin == c.pin + [d]
    ensures |c.pin| + 1 == PinLength ==>
              Handle(c, DigitPressed(d)).0.state == VerifyingPin &&
              Handle(c, DigitPressed(d)).1 == [ToBank(VerifyPin(c.account, c.pin + [d], AtmQueue))]
    ensures |c.pin| + 1 != PinLength ==>
              Handle(c, DigitPressed(d)).0.state == GettingPin && Handle(c, DigitPressed(d)).1 == []
  {
  }

  /** clear_last removes the last PIN character when there is one and
      otherwise changes nothing. */
  lemma ClearLastRemovesOne(c: Config)
    requires c.state == GettingPin
    ensures c.pin != [] ==> Handle(c, ClearLastPressed) == (c.(pin := c.pin[..|c.pin| - 1]), [])
    ensures c.pin == [] ==> Handle(c, ClearLastPressed) == (c, [])
  {
  }

  /** Cancel leads to the done state from PIN entry, verification, the action
      menu, a withdrawal and a balance query. */
  lemma CancelEndsSession(c: Config)
    requires c.state in {GettingPin, VerifyingPin, WaitForAction, ProcessWithdrawal, ProcessBalance}
    ensures Handles(c.state, CancelPressed)
    ensures Handle(c, CancelPressed).0 == c.(state := DoneProcessing)
  {
  }

  /** A balance reply is shown and the machine goes back to the action menu,
      not to the done state. */
  lemma BalanceReturnsToMenu(c: Config, amount: u32)
    requires c.state == ProcessBalance
    ensures Handle(c, Balance(amount)) == (c.(state := WaitForAction), [ToHardware(DisplayBalance(amount))])
  {
  }

  /** The done state always ejects the card and goes back to waiting for a
      card, without reading a message. */
  lemma DoneEjectsCard(c: Config, input: seq<Message>)
    requires c.state == DoneProcessing
    ensures CallState(c, input) == Step(c.(state := WaitingForCard), [ToHardware(EjectCard)], 0, Continue)
  {
  }

  /** One state call keeps the PIN invariant and sends only well-formed
      verification requests. */
  lemma CallStateKeepsInvariant(c: Config, input: seq<Message>)
    requires PinInvariant(c)
    ensures PinInvariant(CallState(c, input).config)
    ensures VerifyRequestsWellFormed(CallState(c, input).sent)
  {
    if c.state != DoneProcessing {
      var (e, k) := Receive(c.state, input);
      if e.Got? {
        HandleKeepsInvariant(c, e.msg);
        var out := Handle(c, e.msg).1;
        assert forall x | x in Announce(c.state) + out :: x in Announce(c.state) || x in out;
      }
    }
  }

  /** One handler keeps the PIN invariant and sends only well-formed
      verification requests. */
  lemma HandleKeepsInvariant(c: Config, m: Message)
    requires Handles(c.state, m) && PinInvariant(c)
    ensures PinInvariant(Handle(c, m).0)
    ensures VerifyRequestsWellFormed(Handle(c, m).1)
  {
  }

  /** Over a whole run the PIN invariant holds and every verify_pin request
      the ATM sends carries exactly four digits. */
  lemma {:induction false} RunKeepsInvariant(c: Config, input: seq<Message>)
    requires PinInvariant(c)
    ensures PinInvariant(RunFrom(c, input).config)
    ensures VerifyRequestsWellFormed(RunFrom(c, input).sent)
    decreases |input|, if c.state == DoneProcessing then 1 else 0
  {
    var st := CallState(c, input);
    CallStateKeepsInvariant(c, input);
    if st.outcome == Continue {
      RunKeepsInvariant(st.config, input[st.consumed..]);
    }
  }

  /** A waiting state takes messages off the queue up to and including the
      first one it reacts to, so a state call stops early only at a
      close_queue. */
  lemma CallStateConsumesUpToClose(c: Config, input: seq<Message>)
    ensures var st := CallState(c, input);
            (st.outcome == Closed ==> 0 < st.consumed && input[st.consumed - 1] == CloseQueue) &&
            CloseQueue !in input[..st.consumed - (if st.outcome == Closed then 1 else 0)] &&
            (st.outcome == Blocked ==> st.consumed == |input|)
  {
    var st := CallState(c, input);
    if c.state != DoneProcessing {
      var k := FirstEvent(c.state, input);
      assert forall j | 0 <= j < k :: input[..k][j] == input[j];
      if st.outcome == Continue {
        assert input[..k + 1] == input[..k] + [input[k]];
      }
    }
  }

  /** `run` loops until it catches a close_queue: it stops with `closed` set
      exactly when the input holds one, and then it has consumed the input
      up to the first close_queue and no further. */
  lemma {:induction false} RunStopsAtClose(c: Config, input: seq<Message>)
    ensures RunFrom(c, input).closed <==> CloseQueue in input
    ensures RunFrom(c, input).closed ==>
              var k := RunFrom(c, input).consumed;
              0 < k && input[k - 1] == CloseQueue && CloseQueue !in input[..k - 1]
    decreases |input|, if c.state == DoneProcessing then 1 else 0
  {
    var st := CallState(c, input);
    CallStateConsumesUpToClose(c, input);
    if st.outcome == Continue {
      var rest := input[st.consumed..];
      RunStopsAtClose(st.config, rest);
      var r := RunFrom(st.config, rest);
      assert RunFrom(c, input).closed == r.closed && RunFrom(c, input).consumed == st.consumed + r.consumed;
      SpliceClose(input, st.consumed, r.closed, r.consumed);
    } else if st.outcome == Blocked {
      assert input[..st.consumed] == input;
    } else {
      assert input[st.consumed - 1] in input;
    }
  }

  /** Where the first close_queue of `input` lies, knowing it is not among
      the first `n` messages and lies at position `k - 1` of the rest. */
  lemma SpliceClose(input: seq<Message>, n: nat, closed: bool, k: nat)
    requires n <= |input| && CloseQueue !in input[..n]
    requires closed <==> CloseQueue in input[n..]
    requires closed ==> 0 < k <= |input| - n && input[n..][k - 1] == CloseQueue && CloseQueue !in input[n..][..k - 1]
    ensures closed <==> CloseQueue in input
    ensures closed ==> input[n + k - 1] == CloseQueue && CloseQueue !in input[..n + k - 1]
  {
    assert input == input[..n] + input[n..];
    if closed {
      assert input[..n + k - 1] == input[..n] + input[n..][..k - 1];
    }
  }

  /** The run from `c` on `input` sends `out` while taking messages off the
      front of the queue until `rest` is left, and then goes on as the run
      from `c'` on `rest`. */
  ghost predicate RunsThrough(c: Config, input: seq<Message>, out: seq<Envelope>, c': Config, rest: seq<Message>)
  {
    |rest| <= |input| && rest == input[|input| - |rest|..] &&
    RunFrom(c, input) == Prepend(out, |input| - |rest|, RunFrom(c', rest))
  }

  /** Two stretches of a run, one after the other. */
  lemma RunsThroughTrans(c: Config, input: seq<Message>, out1: seq<Envelope>, c1: Config, mid: seq<Message>,
                         out2: seq<Envelope>, c2: Config, rest: seq<Message>)
    requires RunsThrough(c, input, out1, c1, mid) && RunsThrough(c1, mid, out2, c2, rest)
    ensures RunsThrough(c, input, out1 + out2, c2, rest)
  {
    var r := RunFrom(c2, rest);
    assert input[|input| - |mid|..][|mid| - |rest|..] == input[|input| - |rest|..];
    assert out1 + (out2 + r.sent) == (out1 + out2) + r.sent;
  }

  /** The same stretch of a run, described by equal values. */
  lemma RunsThroughSame(c: Config, input: seq<Message>, out: seq<Envelope>, c': Config, rest: seq<Message>,
                        out2: seq<Envelope>, c2: Config)
    requires RunsThrough(c, input, out, c', rest) && out == out2 && c' == c2
    ensures RunsThrough(c, input, out2, c2, rest)
  {
  }

  /** A state call that ran a handler: the run is that call's output
      followed by the run from its new fields and the queue it left. */
  lemma StepRuns(c: Config, input: seq<Message>, out: seq<Envelope>, n: nat, c': Config)
    requires CallState(c, input) == Step(c', out, n, Continue)
    ensures RunsThrough(c, input, out, c', input[n..])
  {
    StepContinues(c, input, [], c', input[n..], out);
  }

  /** From the action menu, a withdrawal of `amount` that the bank approves
      asks the bank for exactly that amount, then issues exactly that amount,
      reports it as processed and ejects the card. The action menu reacts to
      the withdraw_pressed at position `k1` of the queue and withdrawal
      processing to the withdraw_ok `k2` messages after it, discarding what
      comes before each; the run then goes on from waiting_for_card with the
      rest of the queue. */
  lemma WithdrawalIssuesRequestedAmount(c: Config, amount: u32, input: seq<Message>, k1: nat, k2: nat)
    requires c.state == WaitForAction
    requires k1 == FirstEvent(WaitForAction, input) && k1 < |input| && input[k1] == WithdrawPressed(amount)
    requires k2 == FirstEvent(ProcessWithdrawal, input[k1 + 1..]) && k1 + 1 + k2 < |input| && input[k1 + 1 + k2] == WithdrawOk
    ensures RunsThrough(c, input,
                        [ToHardware(DisplayWithdrawalOptions), ToBank(Withdraw(c.account, amount, AtmQueue))] +
                        [ToHardware(IssueMoney(amount)), ToBank(WithdrawalProcessed(c.account, amount)), ToHardware(EjectCard)],
                        c.(withdrawalAmount := amount, state := WaitingForCard),
                        input[k1 + 1 + k2 + 1..])
  {
    var rest := input[k1 + 1..];
    var c1 := c.(withdrawalAmount := amount, state := ProcessWithdrawal);
    var asked := [ToHardware(DisplayWithdrawalOptions), ToBank(Withdraw(c.account, amount, AtmQueue))];
    var issued := [ToHardware(IssueMoney(c1.withdrawalAmount)), ToBank(WithdrawalProcessed(c1.account, c1.withdrawalAmount)),
                   ToHardware(EjectCard)];
    WithdrawPressedStep(c, input, amount, k1);
    StepRuns(c, input, asked, k1 + 1, c1);
    ApprovedWithdrawal(c1, rest, k2);
    assert rest[k2 + 1..] == input[k1 + 1 + k2 + 1..];
    RunsThroughTrans(c, input, asked, c1, rest, issued, c1.(state := WaitingForCard), input[k1 + 1 + k2 + 1..]);
    RunsThroughSame(c, input, asked + issued, c1.(state := WaitingForCard), input[k1 + 1 + k2 + 1..],
                    [ToHardware(DisplayWithdrawalOptions), ToBank(Withdraw(c.account, amount, AtmQueue))] +
                    [ToHardware(IssueMoney(amount)), ToBank(WithdrawalProcessed(c.account, amount)), ToHardware(EjectCard)],
                    c.(withdrawalAmount := amount, state := WaitingForCard));
  }

  /** In withdrawal processing, an approval at position `k` of the queue
      issues the recorded amount, reports it to the bank and ejects the card;
      the run goes on from waiting_for_card with what follows the approval. */
  lemma ApprovedWithdrawal(c: Config, input: seq<Message>, k: nat)
    requires c.state == ProcessWithdrawal
    requires k == FirstEvent(ProcessWithdrawal, input) && k < |input| && input[k] == WithdrawOk
    ensures RunsThrough(c, input,
                        [ToHardware(IssueMoney(c.withdrawalAmount)), ToBank(WithdrawalProcessed(c.account, c.withdrawalAmount)),
                         ToHardware(EjectCard)],
                        c.(state := WaitingForCard), input[k + 1..])
  {
    var c2 := c.(state := DoneProcessing);
    var paid := [ToHardware(IssueMoney(c.withdrawalAmount)), ToBank(WithdrawalProcessed(c.account, c.withdrawalAmount))];
    WithdrawOkStep(c, input, k);
    StepRuns(c, input, paid, k + 1, c2);
    DoneStep(c2, input[k + 1..]);
    RunsThroughTrans(c, input, paid, c2, input[k + 1..], [ToHardware(EjectCard)], c.(state := WaitingForCard), input[k + 1..]);
    RunsThroughSame(c, input, paid + [ToHardware(EjectCard)], c.(state := WaitingForCard), input[k + 1..],
                    [ToHardware(IssueMoney(c.withdrawalAmount)), ToBank(WithdrawalProcessed(c.account, c.withdrawalAmount)),
                     ToHardware(EjectCard)],
                    c.(state := WaitingForCard));
  }

  /** In the action menu, the withdraw_pressed at position `k`, the first
      message it reacts to, records the amount and asks the bank for it; the
      messages before it are discarded. */
  lemma WithdrawPressedStep(c: Config, input: seq<Message>, amount: u32, k: nat)
    requires c.state == WaitForAction
    requires k == FirstEvent(WaitForAction, input) && k < |input| && input[k] == WithdrawPressed(amount)
    ensures CallState(c, input) ==
            Step(c.(withdrawalAmount := amount, state := ProcessWithdrawal),
                 [ToHardware(DisplayWithdrawalOptions), ToBank(Withdraw(c.account, amount, AtmQueue))],
                 k + 1, Continue)
  {
  }

  /** In withdrawal processing, the withdraw_ok at position `k`, the first
      message it reacts to, issues the recorded amount and reports it to the
      bank; the messages before it are discarded. */
  lemma WithdrawOkStep(c: Config, input: seq<Message>, k: nat)
    requires c.state == ProcessWithdrawal
    requires k == FirstEvent(ProcessWithdrawal, input) && k < |input| && input[k] == WithdrawOk
    ensures CallState(c, input) ==
            Step(c.(state := DoneProcessing),
                 [ToHardware(IssueMoney(c.withdrawalAmount)), ToBank(WithdrawalProcessed(c.account, c.withdrawalAmount))],
                 k + 1, Continue)
  {
  }

  /** The done state ejects the card without reading and the run goes on
      from waiting_for_card with the same queue. */
  lemma DoneStep(c: Config, input: seq<Message>)
    requires c.state == DoneProcessing
    ensures RunsThrough(c, input, [ToHardware(EjectCard)], c.(state := WaitingForCard), input)
  {
    assert input[0..] == input;
    StepContinues(c, input, [], c.(state := WaitingForCard), input, [ToHardware(EjectCard)]);
  }

  /** With nothing left to read, the done state ejects the card and the
      machine waits for the next one. */
  lemma EjectAndWait(c: Config)
    requires c.state == DoneProcessing
    ensures RunFrom(c, []) ==
            RunResult(c.(state := WaitingForCard), [ToHardware(EjectCard), ToHardware(DisplayEnterCard)], 0, false)
  {
    var c3 := c.(state := WaitingForCard);
    var empty: seq<Message> := [];
    assert CallState(c, empty) == Step(c3, [ToHardware(EjectCard)], 0, Continue);
    assert CallState(c3, empty) == Step(c3, [ToHardware(DisplayEnterCard)], 0, Blocked);
    assert RunFrom(c3, empty) == RunResult(c3, [ToHardware(DisplayEnterCard)], 0, false);
  }

  /** A run result with the effect of already executed state calls in front. */
  function Prepend(acc: seq<Envelope>, n: nat, r: RunResult): RunResult
  {
    RunResult(r.config, acc + r.sent, n + r.consumed, r.closed)
  }

  /** Unfolding `RunFrom` after a state call that ran a handler. */
  lemma PrependStep(c: Config, input: seq<Message>, acc: seq<Envelope>, n: nat)
    requires CallState(c, input).outcome == Continue
    ensures var st := CallState(c, input);
            Prepend(acc, n, RunFrom(c, input)) ==
            Prepend(acc + st.sent, n + st.consumed, RunFrom(st.config, input[st.consumed..]))
  {
    var st := CallState(c, input);
    var rest := RunFrom(st.config, input[st.consumed..]);
    assert RunFrom(c, input) == RunResult(rest.config, st.sent + rest.sent, st.consumed + rest.consumed, rest.closed);
    assert acc + (st.sent + rest.sent) == (acc + st.sent) + rest.sent;
  }

  /** Unfolding `RunFrom` after a state call that stopped the loop. */
  lemma PrependStop(c: Config, input: seq<Message>, acc: seq<Envelope>, n: nat)
    requires CallState(c, input).outcome != Continue
    ensures var st := CallState(c, input);
            Prepend(acc, n, RunFrom(c, input)) ==
            RunResult(st.config, acc + st.sent, n + st.consumed, st.outcome == Closed)
  {
  }

  /** What one state call leaves: the queue it leaves is a suffix of the
      one it found and the log only grows. */
  lemma StepSuffixes(c: Config, inp: seq<Message>, s0: seq<Envelope>,
                     inc: seq<Message>, snt: seq<Envelope>)
    requires var st := CallState(c, inp);
             snt == s0 + st.sent && inc == inp[st.consumed..]
    ensures |inc| <= |inp| && inc == inp[|inp| - |inc|..]
    ensures |s0| <= |snt| && snt == s0 + snt[|s0|..]
  {
  }

  /** A state call that ran a handler: the run goes on from the new fields
      and queue, and only the done state takes no message. */
  lemma StepContinues(c: Config, inp: seq<Message>, s0: seq<Envelope>,
                      f: Config, inc: seq<Message>, snt: seq<Envelope>)
    requires var st := CallState(c, inp);
             f == st.config && snt == s0 + st.sent && inc == inp[st.consumed..] && st.outcome == Continue
    ensures c.state != DoneProcessing ==> |inc| < |inp|
    ensures c.state == DoneProcessing ==> inc == inp && f.state == WaitingForCard
    ensures RunFrom(c, inp) == Prepend(snt[|s0|..], |inp| - |inc|, RunFrom(f, inc))
  {
    var st := CallState(c, inp);
    assert snt[|s0|..] == st.sent;
    var rest := RunFrom(f, inc);
    assert RunFrom(c, inp) == RunResult(rest.config, st.sent + rest.sent, st.consumed + rest.consumed, rest.closed);
  }

  /** A state call that caught a close_queue or ran out of input ends the
      run with what it leaves. */
  lemma StepStops(c: Config, inp: seq<Message>, s0: seq<Envelope>, o: Outcome,
                  f: Config, inc: seq<Message>, snt: seq<Envelope>)
    requires var st := CallState(c, inp);
             f == st.config && snt == s0 + st.sent && inc == inp[st.consumed..] && o == st.outcome && o != Continue
    ensures RunFrom(c, inp) == RunResult(f, snt[|s0|..], |inp| - |inc|, o == Closed)
  {
    var st := CallState(c, inp);
    assert snt[|s0|..] == st.sent;
  }

  /** The run `rest` still to come from queue `inp` and log `log` finishes
      the run `total` that started from queue `in0` and log `s0`. */
  ghost predicate Completes(rest: RunResult, inp: seq<Message>, log: seq<Envelope>,
                            total: RunResult, in0: seq<Message>, s0: seq<Envelope>)
  {
    total.consumed <= |in0| && rest.consumed <= |inp| &&
    rest.config == total.config &&
    log + rest.sent == s0 + total.sent &&
    inp[rest.consumed..] == in0[total.consumed..]
  }

  /** A turn that sent `out` and took `k` messages leaves the rest of the
      run still completing `total`. */
  lemma CompletesStep(r1: RunResult, in1: seq<Message>, s1: seq<Envelope>,
                      total: RunResult, in0: seq<Message>, s0: seq<Envelope>,
                      out: seq<Envelope>, k: nat, rest: RunResult)
    requires Completes(r1, in1, s1, total, in0, s0)
    requires r1 == Prepend(out, k, rest) && k <= |in1|
    ensures Completes(rest, in1[k..], s1 + out, total, in0, s0)
  {
    assert (s1 + out) + rest.sent == s1 + (out + rest.sent);
    assert in1[k..][rest.consumed..] == in1[k + rest.consumed..];
  }

  /** A turn that ended the run leaves exactly what the whole run ends with. */
  lemma CompletesStop(r1: RunResult, in1: seq<Message>, s1: seq<Envelope>,
                      total: RunResult, in0: seq<Message>, s0: seq<Envelope>,
                      out: seq<Envelope>, k: nat, c: Config)
    requires Completes(r1, in1, s1, total, in0, s0)
    requires r1.config == c && r1.sent == out && r1.consumed == k
    ensures c == total.config && s1 + out == s0 + total.sent && in1[k..] == in0[total.consumed..]
  {
    assert in1[k..][0..] == in1[k..];
  }

  /** The ATM object. Messages sent to it wait in `incoming`; everything it
      sends to the bank or the interface hardware is appended to `sent`. */
  class Atm {
    var state: State
    var account: string
    var withdrawalAmount: u32
    var pin: string
    var incoming: seq<Message>
    var sent: seq<Envelope>

    function Fields(): Config
      reads this
    {
      Config(state, account, withdrawalAmount, pin)
    }

    /** The object has made exactly the state call `CallState(c0, in0)`
        starting from log `s0`, ending with outcome `o`. */
    ghost predicate Stepped(c0: Config, in0: seq<Message>, s0: seq<Envelope>, o: Outcome)
      reads this
    {
      var st := CallState(c0, in0);
      Fields() == st.config && sent == s0 + st.sent && incoming == in0[st.consumed..] && o == st.outcome
    }

    /** A new ATM with empty queues. The source leaves the withdrawal amount
        and the state pointer unset until `run`; here they start as 0 and the
        card-waiting state. */
    constructor ()
      ensures Fields() == Config(WaitingForCard, "", 0, "")
      ensures incoming == [] && sent == []
    {
      state := WaitingForCard;
      account := "";
      withdrawalAmount := 0;
      pin := "";
      incoming := [];
      sent := [];
    }

    /** `get_sender().send(m)`: the message joins the ATM's queue. */
    method Send(m: Message)
      modifies this
      ensures incoming == old(incoming) + [m]
      ensures Fields() == old(Fields()) && sent == old(sent)
    {
      incoming := incoming + [m];
    }

    /** `done()`: ask the run loop to stop. */
    method Done()
      modifies this
      ensures incoming == old(incoming) + [CloseQueue]
      ensures Fields() == old(Fields()) && sent == old(sent)
    {
      Send(CloseQueue);
    }

    /** `incoming.wait()` with the handlers of the current state: discards
        messages nobody handles until one is handled or a close_queue comes. */
    method Wait() returns (e: Event)
      requires state != DoneProcessing
      modifies this`incoming
      ensures |incoming| <= |old(incoming)| && incoming == old(incoming)[|old(incoming)| - |incoming|..]
      ensures (e, |old(incoming)| - |incoming|) == Receive(state, old(incoming))
    {
      ghost var in0 := incoming;
      ghost var k := 0;
      var s := state;
      while incoming != [] && !Handles(s, incoming[0]) && !incoming[0].CloseQueue?
        invariant k <= |in0| && incoming == in0[k..]
        invariant FirstEvent(s, in0) == k + FirstEvent(s, incoming)
        decreases |incoming|
      {
        FirstEventSkips(s, incoming);
        incoming := incoming[1..];
        k := k + 1;
      }
      assert FirstEvent(s, incoming) == 0;
      if incoming == [] {
        e := NothingLeft;
      } else if incoming[0].CloseQueue? {
        e := CloseCaught;
        incoming := incoming[1..];
      } else {
        e := Got(incoming[0]);
        incoming := incoming[1..];
      }
    }

    method WaitingForCardState() returns (o: Outcome)
      requires state == WaitingForCard
      modifies this
      ensures Stepped(old(Fields()), old(incoming), old(sent), o)
    {
      sent := sent + [ToHardware(DisplayEnterCard)];
      var e := Wait();
      match e
      case Got(m) =>
        account := m.account;
        pin := "";
        sent := sent + [ToHardware(DisplayEnterPin)];
        state := GettingPin;
        o := Continue;
      case CloseCaught => o := Closed;
      case NothingLeft => o := Blocked;
    }

    method GettingPinState() returns (o: Outcome)
      requires state == GettingPin
      modifies this
      ensures Stepped(old(Fields()), old(incoming), old(sent), o)
    {
      var e := Wait();
      match e
      case Got(m) =>
        if m.DigitPressed? {
          pin := pin + [m.digit];
          if |pin| == PinLength {
            sent := sent + [ToBank(VerifyPin(account, pin, AtmQueue))];
            state := VerifyingPin;
          }
        } else if m.ClearLastPressed? {
          if pin != [] {
            pin := pin[..|pin| - 1];
          }
        } else {
          state := DoneProcessing;
        }
        o := Continue;
      case CloseCaught => o := Closed;
      case NothingLeft => o := Blocked;
    }

    method VerifyingPinState() returns (o: Outcome)
      requires state == VerifyingPin
      modifies this
      ensures Stepped(old(Fields()), old(incoming), old(sent), o)
    {
      var e := Wait();
      match e
      case Got(m) =>
        if m.PinVerified? {
          state := WaitForAction;
        } else if m.PinIncorrect? {
          sent := sent + [ToHardware(DisplayPinIncorrectMessage)];
          state := DoneProcessing;
        } else {
          state := DoneProcessing;
        }
        o := Continue;
      case CloseCaught => o := Closed;
      case NothingLeft => o := Blocked;
    }

    method WaitForActionState() returns (o: Outcome)
      requires state == WaitForAction
      modifies this
      ensures Stepped(old(Fields()), old(incoming), old(sent), o)
    {
      sent := sent + [ToHardware(DisplayWithdrawalOptions)];
      var e := Wait();
      match e
      case Got(m) =>
        if m.WithdrawPressed? {
          withdrawalAmount := m.amount;
          sent := sent + [ToBank(Withdraw(account, m.amount, AtmQueue))];
          state := ProcessWithdrawal;
        } else if m.BalancePressed? {
          sent := sent + [ToBank(GetBalance(account, AtmQueue))];
          state := ProcessBalance;
        } else {
          state := DoneProcessing;
        }
        o := Continue;
      case CloseCaught => o := Closed;
      case NothingLeft => o := Blocked;
    }

    method ProcessWithdrawalState() returns (o: Outcome)
      requires state == ProcessWithdrawal
      modifies this
      ensures Stepped(old(Fields()), old(incoming), old(sent), o)
    {
      var e := Wait();
      match e
      case Got(m) =>
        if m.WithdrawOk? {
          sent := sent + [ToHardware(IssueMoney(withdrawalAmount))];
          sent := sent + [ToBank(WithdrawalProcessed(account, withdrawalAmount))];
          state := DoneProcessing;
        } else if m.WithdrawDenied? {
          sent := sent + [ToHardware(DisplayInsufficientFunds)];
          state := DoneProcessing;
        } else {
          sent := sent + [ToBank(CancelWithdrawal(account, withdrawalAmount))];
          sent := sent + [ToHardware(DisplayWithdrawalCancelled)];
          state := DoneProcessing;
        }
        o := Continue;
      case CloseCaught => o := Closed;
      case NothingLeft => o := Blocked;
    }

    method ProcessBalanceState() returns (o: Outcome)
      requires state == ProcessBalance
      modifies this
      ensures Stepped(old(Fields()), old(incoming), old(sent), o)
    {
      var e := Wait();
      match e
      case Got(m) =>
        if m.Balance? {
          sent := sent + [ToHardware(DisplayBalance(m.amount))];
          state := WaitForAction;
        } else {
          state := DoneProcessing;
        }
        o := Continue;
      case CloseCaught => o := Closed;
      case NothingLeft => o := Blocked;
    }

    method DoneProcessingState() returns (o: Outcome)
      requires state == DoneProcessing
      modifies this
      ensures Stepped(old(Fields()), old(incoming), old(sent), o)
    {
      sent := sent + [ToHardware(EjectCard)];
      state := WaitingForCard;
      o := Continue;
    }

    /** `(this->*state)()`: call the function the state pointer holds. */
    method CallCurrentState() returns (o: Outcome)
      modifies this
      ensures Stepped(old(Fields()), old(incoming), old(sent), o)
    {
      match state
      case WaitingForCard => o := WaitingForCardState();
      case GettingPin => o := GettingPinState();
      case VerifyingPin => o := VerifyingPinState();
      case WaitForAction => o := WaitForActionState();
      case ProcessWithdrawal => o := ProcessWithdrawalState();
      case ProcessBalance => o := ProcessBalanceState();
      case DoneProcessing => o := DoneProcessingState();
    }

    /** One turn of the run loop, stated against `RunFrom`: either the loop
        goes on from the new fields and queue, or it stops here. */
    method RunStep() returns (o: Outcome)
      modifies this
      ensures |incoming| <= |old(incoming)| && |old(sent)| <= |sent|
      ensures o == Continue ==>
                RunFrom(old(Fields()), old(incoming)) ==
                Prepend(sent[|old(sent)|..], |old(incoming)| - |incoming|, RunFrom(Fields(), incoming))
      ensures o != Continue ==>
                RunFrom(old(Fields()), old(incoming)) ==
                RunResult(Fields(), sent[|old(sent)|..], |old(incoming)| - |incoming|, o == Closed)
      ensures o == Continue && old(state) != DoneProcessing ==> |incoming| < |old(incoming)|
      ensures o == Continue && old(state) == DoneProcessing ==> incoming == old(incoming) && state == WaitingForCard
      ensures sent == old(sent) + sent[|old(sent)|..]
      ensures incoming == old(incoming)[|old(incoming)| - |incoming|..]
    {
      ghost var c := Fields();
      ghost var inp := incoming;
      ghost var s0 := sent;
      o := CallCurrentState();
      if o == Continue {
        StepContinues(c, inp, s0, Fields(), incoming, sent);
      } else {
        StepStops(c, inp, s0, o, Fields(), incoming, sent);
      }
      StepSuffixes(c, inp, s0, incoming, sent);
    }

    /** The run loop's invariant: finishing the run from the current fields
        and queue completes the run `total` that started from queue `in0`
        and log `s0`. */
    ghost predicate Resumes(total: RunResult, in0: seq<Message>, s0: seq<Envelope>)
      reads this
    {
      Completes(RunFrom(Fields(), incoming), incoming, sent, total, in0, s0)
    }

    /** One turn of `run`, keeping `Resumes`; when the loop stops, the fields
        and queues are those the whole run ends with. */
    method Turn(ghost total: RunResult, ghost in0: seq<Message>, ghost s0: seq<Envelope>) returns (o: Outcome)
      requires Resumes(total, in0, s0)
      modifies this
      ensures o == Continue ==> Resumes(total, in0, s0)
      ensures o != Continue ==> Fields() == total.config && sent == s0 + total.sent && incoming == in0[total.consumed..]
      ensures o == Continue && old(state) != DoneProcessing ==> |incoming| < |old(incoming)|
      ensures o == Continue && old(state) == DoneProcessing ==> incoming == old(incoming) && state == WaitingForCard
    {
      ghost var in1 := incoming;
      ghost var s1 := sent;
      ghost var r1 := RunFrom(Fields(), incoming);
      o := RunStep();
      ghost var out := sent[|s1|..];
      ghost var k := |in1| - |incoming|;
      if o == Continue {
        CompletesStep(r1, in1, s1, total, in0, s0, out, k, RunFrom(Fields(), incoming));
      } else {
        CompletesStop(r1, in1, s1, total, in0, s0, out, k, Fields());
      }
    }

    /** `run`: start waiting for a card and call state functions until a
        close_queue is caught (or, here, until the queue runs dry). */
    method Run()
      modifies this
      ensures Fields() == RunFrom(old(Fields()).(state := WaitingForCard), old(incoming)).config
      ensures sent == old(sent) + RunFrom(old(Fields()).(state := WaitingForCard), old(incoming)).sent
      ensures incoming == old(incoming)[RunFrom(old(Fields()).(state := WaitingForCard), old(incoming)).consumed..]
    {
      state := WaitingForCard;
      ghost var total := RunFrom(Fields(), incoming);
      ghost var in0 := incoming;
      ghost var s0 := sent;
      while true
        invariant Resumes(total, in0, s0)
        decreases |incoming|, if state == DoneProcessing then 1 else 0
      {
        var o := Turn(total, in0, s0);
        if o != Continue {
          return;
        }
      }
    }
  }
}
