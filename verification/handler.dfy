/** The nonce-tracking transaction handler of the payment library's
    transfer package.

    A call to `SendWithGasPriceHandling` validates the options, asks the
    gas price incrementor whether the transaction may be queued and signed,
    picks a nonce (cached per account, or queried from the chain), sends the
    transaction through the caller's send function, retries once with a
    fresh nonce after a nonce error, caches the next nonce on success and
    finally hands the transaction to the incrementor, logging (never
    returning) a failure to do so.

    The section under the nonce mutex is one atomic step over the nonce map.
    Every collaborator is an oracle: its replies are part of the input and
    every question put to it is recorded as an `Event` in the call's trace. */
module Handler {
  import opened Results
  import Hex

  // ---------------------------------------------------------------------
  // Data model
  // ---------------------------------------------------------------------

  const UINT64_LIMIT: int := 0x1_0000_0000_0000_0000

  /** Nonces are Go `uint64` values. */
  type Nonce = n: int | 0 <= n < UINT64_LIMIT

  const ADDRESS_LENGTH: nat := 20

  /** go-ethereum's `common.Address`: twenty bytes. */
  type Address = a: seq<Hex.Byte> | |a| == ADDRESS_LENGTH witness Hex.Zeros(ADDRESS_LENGTH)

  /** `common.HexToAddress("")`, the address a sender must differ from. */
  const ZERO_ADDRESS: Address := Hex.Zeros(ADDRESS_LENGTH)

  /** A transaction produced by the send function; its content is opaque. */
  datatype Transaction = Transaction(hash: nat)

  /** An error produced by a collaborator; its content is opaque. */
  datatype Cause = Cause(code: nat)

  /** The incrementor's `TransactionOpts`; opaque to the handler. */
  datatype TransactionOpts = TransactionOpts(settings: seq<int>)

  /** `HandlerOpts`, given with every send. */
  datatype HandlerOpts = HandlerOpts(
    sender: Address,
    gasPriceIncOpts: TransactionOpts,
    forceQueue: bool)

  /** The errors a call can end with, and the one it can log. */
  datatype Error =
    | SenderNotSpecified               // the sender is the zero address
    | IncOptsRejected(cause: Cause)    // TransactionOpts.validate's error, returned unchanged
    | CanQueueFailed(cause: Cause)     // CanQueue's error, returned unchanged
    | QueueFull                        // ErrBlockchainQueueFull
    | NoSigners                        // ErrNoSigners
    | NonceQueryFailed(cause: Cause)   // "could not get nonce"
    | SendFailed(cause: Cause)         // "handler failed to send transaction"
    | RetryFailed(cause: Cause)        // "handler recovered nonce but still failed to send transaction"
    | InsertFailed(cause: Cause)       // InsertInitial's error; only ever logged

  /** One question put to a collaborator, in the order it was asked. */
  datatype Event =
    | CanQueueAsked(sender: Address)
    | CanSignAsked(sender: Address)
    | NonceQueried(chainID: int, account: Address)
    | SendCalled(nonce: Nonce)
    | InsertInitialCalled(tx: Transaction, opts: TransactionOpts, sender: Address)
    | Logged(err: Error)

  /** Replies of a collaborator asked up to twice within one call: the
      first question gets `first`, the second gets `second`. */
  datatype Replies<T> = Replies(first: T, second: T)
  {
    function Reply(asked: nat): T
    {
      if asked == 0 then first else second
    }
  }

  /** What the collaborators answer during one call. */
  datatype Collaborators = Collaborators(
    canQueue: Result<bool, Cause>,                  // inc.CanQueue(sender)
    canSign: bool,                                  // inc.CanSign(sender)
    pendingNonce: Replies<Result<Nonce, Cause>>,    // cl.PendingNonceAt(chainID, account)
    send: Replies<Result<Transaction, Cause>>,      // the caller's send function
    insertInitial: Option<Cause>)                   // inc.InsertInitial(tx, opts, sender)

  /** Functions the handler relies on whose definitions lie outside this
      model: `TransactionOpts.validate` and `isNonceError`. */
  datatype Rules = Rules(
    validateIncOpts: TransactionOpts -> Option<Cause>,
    isNonceError: Cause -> bool)

  /** The handler's state: the nonce cache, and whether a logger is attached. */
  datatype TransactionHandler = TransactionHandler(nonces: map<Address, Nonce>, hasLogger: bool)

  /** Events produced by a step that touches no nonce. */
  datatype Traced<T> = Traced(value: T, trace: seq<Event>)

  /** The outcome of the critical section: result, new nonce map, events. */
  datatype Step<T> = Step(value: T, nonces: map<Address, Nonce>, trace: seq<Event>)

  /** The outcome of a whole send: what the caller gets back, the handler
      afterwards, and the events. */
  datatype Dispatched = Dispatched(
    result: Result<Transaction, Error>,
    handler: TransactionHandler,
    trace: seq<Event>)

  // ---------------------------------------------------------------------
  // Trace projections
  // ---------------------------------------------------------------------

  /** The nonces passed to the send function, in order. */
  function Sends(trace: seq<Event>): seq<Nonce>
  {
    if trace == [] then []
    else
      var last := trace[|trace| - 1];
      Sends(trace[..|trace| - 1]) + (if last.SendCalled? then [last.nonce] else [])
  }

  /** How many times the chain was asked for a pending nonce. */
  function NonceQueries(trace: seq<Event>): nat
  {
    if trace == [] then 0
    else NonceQueries(trace[..|trace| - 1]) + (if trace[|trace| - 1].NonceQueried? then 1 else 0)
  }

  lemma {:induction false} ProjectionsAppend(a: seq<Event>, b: seq<Event>)
    ensures Sends(a + b) == Sends(a) + Sends(b)
    ensures NonceQueries(a + b) == NonceQueries(a) + NonceQueries(b)
    decreases |b|
  {
    if b == [] {
      assert a + b == a;
    } else {
      assert (a + b)[..|a + b| - 1] == a + b[..|b| - 1];
      ProjectionsAppend(a, b[..|b| - 1]);
    }
  }

  lemma ProjectionsSnoc(t: seq<Event>, e: Event)
    ensures Sends(t + [e]) == Sends(t) + (if e.SendCalled? then [e.nonce] else [])
    ensures NonceQueries(t + [e]) == NonceQueries(t) + (if e.NonceQueried? then 1 else 0)
  {
    assert (t + [e])[..|t|] == t;
  }

  lemma {:induction false} NoSendsWithoutSendEvents(t: seq<Event>)
    requires forall e :: e in t ==> !e.SendCalled?
    ensures Sends(t) == []
    decreases |t|
  {
    if t != [] {
      assert t[|t| - 1] in t;
      assert forall e :: e in t[..|t| - 1] ==> e in t;
      NoSendsWithoutSendEvents(t[..|t| - 1]);
    }
  }

  /** Events around a trace that are not sends leave its sends as they are. */
  lemma SendsAmidOtherEvents(before: seq<Event>, t: seq<Event>, after: seq<Event>)
    requires forall e :: e in before ==> !e.SendCalled?
    requires forall e :: e in after ==> !e.SendCalled?
    ensures Sends(before + t + after) == Sends(t)
  {
    NoSendsWithoutSendEvents(before);
    NoSendsWithoutSendEvents(after);
    ProjectionsAppend(before, t);
    ProjectionsAppend(before + t, after);
  }

  /** The incrementor was asked neither CanQueue nor CanSign. */
  predicate NoAdmissionAsked(trace: seq<Event>)
  {
    forall e :: e in trace ==> !e.CanQueueAsked? && !e.CanSignAsked?
  }

  /** Only the incrementor's admission questions were asked: no nonce
      query, no send, no registration, no log. */
  predicate OnlyAdmissionAsked(trace: seq<Event>)
  {
    forall e :: e in trace ==> e.CanQueueAsked? || e.CanSignAsked?
  }

  // ---------------------------------------------------------------------
  // Operations
  // ---------------------------------------------------------------------

  /** `NewTransactionhandler`: an empty nonce cache and no logger. */
  function NewTransactionHandler(): (h: TransactionHandler)
    ensures h.nonces == map[] && !h.hasLogger
  {
    TransactionHandler(map[], false)
  }

  /** `AttachLogger`: `attached` is false when the function given is nil. */
  function AttachLogger(h: TransactionHandler, attached: bool): (h': TransactionHandler)
    ensures h'.nonces == h.nonces && h'.hasLogger == attached
  {
    h.(hasLogger := attached)
  }

  /** `log`: the error reaches the logger exactly when one is attached. */
  function Log(h: TransactionHandler, err: Error): (trace: seq<Event>)
    ensures h.hasLogger ==> trace == [Logged(err)]
    ensures !h.hasLogger ==> trace == []
  {
    if h.hasLogger then [Logged(err)] else []
  }

  /** `HandlerOpts.validate`: the zero sender is refused before the
      incrementor options are looked at; an error of theirs is returned as
      it is. */
  function Validate(opts: HandlerOpts, rules: Rules): (r: Option<Error>)
    ensures r == None <==> opts.sender != ZERO_ADDRESS && rules.validateIncOpts(opts.gasPriceIncOpts) == None
    ensures opts.sender == ZERO_ADDRESS ==> r == Some(SenderNotSpecified)
    ensures opts.sender != ZERO_ADDRESS && rules.validateIncOpts(opts.gasPriceIncOpts).Some? ==>
      r == Some(IncOptsRejected(rules.validateIncOpts(opts.gasPriceIncOpts).value))
  {
    if opts.sender == ZERO_ADDRESS then Some(SenderNotSpecified)
    else match rules.validateIncOpts(opts.gasPriceIncOpts)
      case Some(cause) => Some(IncOptsRejected(cause))
      case None => None
  }

  /** `canQueue`: the admission gate. With ForceQueue set nothing is asked;
      otherwise CanQueue is asked first and CanSign only after CanQueue said
      yes. Whatever the answer, nothing but these two questions happens. */
  function CanQueue(opts: HandlerOpts, c: Collaborators): (r: Traced<Option<Error>>)
    ensures OnlyAdmissionAsked(r.trace)
    ensures opts.forceQueue ==> r.value == None && r.trace == []
    ensures !opts.forceQueue ==> |r.trace| >= 1 && r.trace[0] == CanQueueAsked(opts.sender)
    ensures r.value == None <==> opts.forceQueue || (c.canQueue == Success(true) && c.canSign)
    ensures !opts.forceQueue && c.canQueue.Failure? ==> r.value == Some(CanQueueFailed(c.canQueue.error))
    ensures !opts.forceQueue && c.canQueue == Success(false) ==> r.value == Some(QueueFull)
    ensures !opts.forceQueue && c.canQueue == Success(true) && !c.canSign ==> r.value == Some(NoSigners)
    ensures CanSignAsked(opts.sender) in r.trace <==> !opts.forceQueue && c.canQueue == Success(true)
  {
    if opts.forceQueue then Traced(None, [])
    else
      var asked := [CanQueueAsked(opts.sender)];
      match c.canQueue
      case Failure(cause) => Traced(Some(CanQueueFailed(cause)), asked)
      case Success(false) => Traced(Some(QueueFull), asked)
      case Success(true) =>
        var asked' := asked + [CanSignAsked(opts.sender)];
        if !c.canSign then Traced(Some(NoSigners), asked') else Traced(None, asked')
  }

  /** `nonce += 1` on a `uint64`. */
  function Next(n: Nonce): (m: Nonce)
    ensures n < UINT64_LIMIT - 1 ==> m == n + 1
    ensures n == UINT64_LIMIT - 1 ==> m == 0
  {
    (n + 1) % UINT64_LIMIT
  }

  /** The nonce a send starts with: the cached one, else the chain's
      pending nonce. */
  function PickNonce(nonces: map<Address, Nonce>, chainID: int, account: Address, c: Collaborators): (r: Traced<Result<Nonce, Error>>)
    ensures account in nonces ==> r == Traced(Success(nonces[account]), [])
    ensures account !in nonces ==> r.trace == [NonceQueried(chainID, account)]
    ensures account !in nonces && c.pendingNonce.first.Success? ==>
      r.value == Success(c.pendingNonce.first.value)
    ensures account !in nonces && c.pendingNonce.first.Failure? ==>
      r.value == Failure(NonceQueryFailed(c.pendingNonce.first.error))
  {
    if account in nonces then Traced(Success(nonces[account]), [])
    else
      var queried := [NonceQueried(chainID, account)];
      match c.pendingNonce.Reply(0)
      case Success(nonce) => Traced(Success(nonce), queried)
      case Failure(cause) => Traced(Failure(NonceQueryFailed(cause)), queried)
  }

  /** The recovery after a nonce error: one more pending-nonce query (the
      call's `asked`+1-th) and, if it is answered, one more send, whose
      failure of any kind is final. */
  function Recover(chainID: int, account: Address, c: Collaborators, asked: nat): (r: Traced<Result<(Nonce, Transaction), Error>>)
    ensures |r.trace| >= 1 && r.trace[0] == NonceQueried(chainID, account)
    ensures c.pendingNonce.Reply(asked).Failure? ==>
      r == Traced(Failure(NonceQueryFailed(c.pendingNonce.Reply(asked).error)), [NonceQueried(chainID, account)])
    ensures c.pendingNonce.Reply(asked).Success? ==>
      && r.trace == [NonceQueried(chainID, account), SendCalled(c.pendingNonce.Reply(asked).value)]
      && (r.value.Success? <==> c.send.second.Success?)
    ensures r.value.Success? ==>
      r.value.value == (c.pendingNonce.Reply(asked).value, c.send.second.value)
    ensures c.pendingNonce.Reply(asked).Success? && c.send.second.Failure? ==>
      r.value == Failure(RetryFailed(c.send.second.error))
  {
    var requeried := [NonceQueried(chainID, account)];
    match c.pendingNonce.Reply(asked)
    case Failure(cause) => Traced(Failure(NonceQueryFailed(cause)), requeried)
    case Success(renewed) =>
      var retried := requeried + [SendCalled(renewed)];
      match c.send.second
      case Success(tx) => Traced(Success((renewed, tx)), retried)
      case Failure(retryErr) => Traced(Failure(RetryFailed(retryErr)), retried)
  }

  /** The nonce of the last send in a trace that has one. */
  function LastSent(trace: seq<Event>): Nonce
    requires Sends(trace) != []
  {
    Sends(trace)[|Sends(trace)| - 1]
  }

  /** `sendWithNonceTracking`: the critical section under the nonce mutex.
      No nonce is consumed by a failure; a success caches, for this account
      only, the nonce that went out plus one. */
  function SendWithNonceTracking(
    nonces: map<Address, Nonce>, chainID: int, account: Address,
    c: Collaborators, isNonceError: Cause -> bool): (r: Step<Result<Transaction, Error>>)
    ensures r.value.Failure? ==> r.nonces == nonces
    ensures r.value.Success? ==> Sends(r.trace) != [] && r.nonces == nonces[account := Next(LastSent(r.trace))]
  {
    var picked := PickNonce(nonces, chainID, account, c);
    match picked.value
    case Failure(err) => Step(Failure(err), nonces, picked.trace)
    case Success(nonce) => SendWithNonce(nonces, chainID, account, c, isNonceError, picked.trace, nonce)
  }

  /** The sends once a nonce has been picked (after the events `before`):
      the first attempt and, after a nonce error, the recovery. */
  function SendWithNonce(
    nonces: map<Address, Nonce>, chainID: int, account: Address,
    c: Collaborators, isNonceError: Cause -> bool,
    before: seq<Event>, nonce: Nonce): (r: Step<Result<Transaction, Error>>)
    requires Sends(before) == []
    ensures r.value.Failure? ==> r.nonces == nonces
    ensures r.value.Success? ==> Sends(r.trace) != [] && r.nonces == nonces[account := Next(LastSent(r.trace))]
  {
    var firstTry := before + [SendCalled(nonce)];
    match c.send.first
    case Success(tx) =>
      ProjectionsSnoc(before, SendCalled(nonce));
      Step(Success(tx), nonces[account := Next(nonce)], firstTry)
    case Failure(sendErr) =>
      if !isNonceError(sendErr) then
        Step(Failure(SendFailed(sendErr)), nonces, firstTry)
      else
        var retry := Recover(chainID, account, c, |before|);
        match retry.value
        case Failure(err) => Step(Failure(err), nonces, firstTry + retry.trace)
        case Success((renewed, tx)) =>
          ProjectionsSnoc(firstTry + [retry.trace[0]], SendCalled(renewed));
          assert firstTry + retry.trace == firstTry + [retry.trace[0]] + [SendCalled(renewed)];
          Step(Success(tx), nonces[account := Next(renewed)], firstTry + retry.trace)
  }

  /** The critical section asks the chain and calls the send function,
      and nothing else. */
  lemma NonceTrackingOnlyQueriesAndSends(
    nonces: map<Address, Nonce>, chainID: int, account: Address,
    c: Collaborators, isNonceError: Cause -> bool)
    ensures forall e :: e in SendWithNonceTracking(nonces, chainID, account, c, isNonceError).trace ==>
      e.NonceQueried? || e.SendCalled?
  {
    var picked := PickNonce(nonces, chainID, account, c);
    if picked.value.Success? {
      var firstTry := picked.trace + [SendCalled(picked.value.value)];
      assert forall e :: e in firstTry ==> e.NonceQueried? || e.SendCalled?;
      if c.send.first.Failure? && isNonceError(c.send.first.error) {
        var retry := Recover(chainID, account, c, |picked.trace|);
        assert forall e :: e in retry.trace ==> e.NonceQueried? || e.SendCalled?;
        assert SendWithNonceTracking(nonces, chainID, account, c, isNonceError).trace == firstTry + retry.trace;
      }
    }
  }

  /** The registration after a successful send: `InsertInitial` is always
      asked, and its failure goes to the log only. */
  function Register(h: TransactionHandler, tx: Transaction, opts: HandlerOpts, c: Collaborators): (trace: seq<Event>)
    ensures |trace| >= 1 && trace[0] == InsertInitialCalled(tx, opts.gasPriceIncOpts, opts.sender)
    ensures forall e :: e in trace ==> e.InsertInitialCalled? || e.Logged?
    ensures forall e :: e in trace && e.Logged? ==>
      c.insertInitial.Some? && h.hasLogger && e.err == InsertFailed(c.insertInitial.value)
    ensures c.insertInitial.Some? && h.hasLogger ==>
      trace[|trace| - 1] == Logged(InsertFailed(c.insertInitial.value))
  {
    var inserted := [InsertInitialCalled(tx, opts.gasPriceIncOpts, opts.sender)];
    match c.insertInitial
    case None => inserted
    case Some(cause) => inserted + Log(h, InsertFailed(cause))
  }

  /** `SendWithGasPriceHandling`: a failed call leaves the handler as it
      was; a successful one advances the sender's cached nonce past the
      nonce that went out, and nothing else. */
  function SendWithGasPriceHandling(
    h: TransactionHandler, chainID: int, opts: HandlerOpts,
    c: Collaborators, rules: Rules): (r: Dispatched)
    ensures r.result.Failure? ==> r.handler == h
    ensures r.result.Success? ==>
      Sends(r.trace) != [] && r.handler == h.(nonces := h.nonces[opts.sender := Next(LastSent(r.trace))])
  {
    match Validate(opts, rules)
    case Some(err) => Dispatched(Failure(err), h, [])
    case None =>
      var gate := CanQueue(opts, c);
      match gate.value
      case Some(err) => Dispatched(Failure(err), h, gate.trace)
      case None =>
        var sent := SendWithNonceTracking(h.nonces, chainID, opts.sender, c, rules.isNonceError);
        var h' := h.(nonces := sent.nonces);
        match sent.value
        case Failure(err) =>
          assert h' == h;
          Dispatched(Failure(err), h', gate.trace + sent.trace)
        case Success(tx) =>
          var registration := Register(h, tx, opts, c);
          SendsAmidOtherEvents(gate.trace, sent.trace, registration);
          Dispatched(Success(tx), h', gate.trace + sent.trace + registration)
  }
}
