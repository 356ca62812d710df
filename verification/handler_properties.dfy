/** Properties of a single `SendWithGasPriceHandling` call and of its
    critical section, stated over the collaborators' replies and the trace
    of questions put to them. */
module HandlerProperties {
  import opened Results
  import opened Handler

  // ---------------------------------------------------------------------
  // The critical section
  // ---------------------------------------------------------------------

  /** A cached nonce is sent first: the chain is not asked before it. */
  lemma CacheHitSendsCachedNonce(
    nonces: map<Address, Nonce>, chainID: int, account: Address,
    c: Collaborators, isNonceError: Cause -> bool)
    requires account in nonces
    ensures var r := SendWithNonceTracking(nonces, chainID, account, c, isNonceError);
      |r.trace| >= 1 && r.trace[0] == SendCalled(nonces[account])
  {
  }

  /** Without a cached nonce the chain is asked exactly once before the
      first send, which uses its answer; an error answer ends the call with
      no send and no change to the cache. */
  lemma CacheMissQueriesOnceFirst(
    nonces: map<Address, Nonce>, chainID: int, account: Address,
    c: Collaborators, isNonceError: Cause -> bool)
    requires account !in nonces
    ensures var r := SendWithNonceTracking(nonces, chainID, account, c, isNonceError);
      && |r.trace| >= 1 && r.trace[0] == NonceQueried(chainID, account)
      && (c.pendingNonce.first.Success? ==>
            |r.trace| >= 2 && r.trace[1] == SendCalled(c.pendingNonce.first.value))
      && (c.pendingNonce.first.Failure? ==>
            r == Step(Failure(NonceQueryFailed(c.pendingNonce.first.error)), nonces, [NonceQueried(chainID, account)]))
  {
  }

  /** A first attempt that succeeds is the only one, and its nonce plus one
      is cached. */
  lemma FirstSuccessIsOnlyAttempt(
    nonces: map<Address, Nonce>, chainID: int, account: Address,
    c: Collaborators, isNonceError: Cause -> bool)
    requires PickNonce(nonces, chainID, account, c).value.Success?
    requires c.send.first.Success?
    ensures var nonce := PickNonce(nonces, chainID, account, c).value.value;
      var r := SendWithNonceTracking(nonces, chainID, account, c, isNonceError);
      && r.value == Success(c.send.first.value)
      && Sends(r.trace) == [nonce]
      && r.nonces == nonces[account := Next(nonce)]
  {
    var picked := PickNonce(nonces, chainID, account, c);
    ProjectionsSnoc(picked.trace, SendCalled(picked.value.value));
  }

  /** A send error that is not a nonce error is returned at once: one send,
      no further query, no change to the cache. */
  lemma OtherSendErrorIsNotRetried(
    nonces: map<Address, Nonce>, chainID: int, account: Address,
    c: Collaborators, isNonceError: Cause -> bool)
    requires PickNonce(nonces, chainID, account, c).value.Success?
    requires c.send.first.Failure? && !isNonceError(c.send.first.error)
    ensures var picked := PickNonce(nonces, chainID, account, c);
      var r := SendWithNonceTracking(nonces, chainID, account, c, isNonceError);
      && r.value == Failure(SendFailed(c.send.first.error))
      && r.trace == picked.trace + [SendCalled(picked.value.value)]
      && Sends(r.trace) == [picked.value.value]
      && r.nonces == nonces
  {
    var picked := PickNonce(nonces, chainID, account, c);
    ProjectionsSnoc(picked.trace, SendCalled(picked.value.value));
  }

  /** The chain is asked at most once before the first send. */
  lemma PickedTraceIsQueries(nonces: map<Address, Nonce>, chainID: int, account: Address, c: Collaborators)
    ensures var picked := PickNonce(nonces, chainID, account, c);
      |picked.trace| <= 1 && Sends(picked.trace) == [] && NonceQueries(picked.trace) == |picked.trace|
  {
    var picked := PickNonce(nonces, chainID, account, c);
    if picked.trace != [] {
      ProjectionsSnoc([], NonceQueried(chainID, account));
      assert [] + [NonceQueried(chainID, account)] == picked.trace;
    }
  }

  /** The critical section after a nonce error: the first send, then the
      recovery's events, with the recovery's outcome. */
  lemma RetryPath(
    nonces: map<Address, Nonce>, chainID: int, account: Address,
    c: Collaborators, isNonceError: Cause -> bool)
    requires PickNonce(nonces, chainID, account, c).value.Success?
    requires c.send.first.Failure? && isNonceError(c.send.first.error)
    ensures var picked := PickNonce(nonces, chainID, account, c);
      var retry := Recover(chainID, account, c, |picked.trace|);
      var r := SendWithNonceTracking(nonces, chainID, account, c, isNonceError);
      && r.trace == picked.trace + [SendCalled(picked.value.value)] + retry.trace
      && (retry.value.Failure? ==> r.value == Failure(retry.value.error) && r.nonces == nonces)
      && (retry.value.Success? ==>
            r.value == Success(retry.value.value.1) && r.nonces == nonces[account := Next(retry.value.value.0)])
  {
  }

  /** Sends and queries of a trace made of queries, one send, one query
      and at most one more send. */
  lemma RetryTraceProjections(before: seq<Event>, nonce: Nonce, requery: Event, after: seq<Nonce>)
    requires Sends(before) == [] && NonceQueries(before) == |before|
    requires requery.NonceQueried?
    requires |after| <= 1
    ensures var prefix := before + [SendCalled(nonce), requery];
      var t := prefix + (if after == [] then [] else [SendCalled(after[0])]);
      && |t| >= |prefix|
      && t[..|prefix|] == prefix
      && Sends(t) == [nonce] + after
      && NonceQueries(t) == |before| + 1
  {
    var firstTry := before + [SendCalled(nonce)];
    var prefix := before + [SendCalled(nonce), requery];
    ProjectionsSnoc(before, SendCalled(nonce));
    ProjectionsSnoc(firstTry, requery);
    assert prefix == firstTry + [requery];
    if after != [] {
      ProjectionsSnoc(prefix, SendCalled(after[0]));
      assert (prefix + [SendCalled(after[0])])[..|prefix|] == prefix;
    } else {
      assert prefix + [] == prefix;
    }
  }

  /** The whole trace after a nonce error, per reply to the second query. */
  lemma RetryTrace(
    nonces: map<Address, Nonce>, chainID: int, account: Address,
    c: Collaborators, isNonceError: Cause -> bool)
    requires PickNonce(nonces, chainID, account, c).value.Success?
    requires c.send.first.Failure? && isNonceError(c.send.first.error)
    ensures var picked := PickNonce(nonces, chainID, account, c);
      var reply := c.pendingNonce.Reply(|picked.trace|);
      var prefix := picked.trace + [SendCalled(picked.value.value), NonceQueried(chainID, account)];
      SendWithNonceTracking(nonces, chainID, account, c, isNonceError).trace
        == prefix + (if reply.Failure? then [] else [SendCalled(reply.value)])
  {
    var picked := PickNonce(nonces, chainID, account, c);
    var reply := c.pendingNonce.Reply(|picked.trace|);
    RetryPath(nonces, chainID, account, c, isNonceError);
    if reply.Success? {
      assert [NonceQueried(chainID, account), SendCalled(reply.value)]
        == [NonceQueried(chainID, account)] + [SendCalled(reply.value)];
    }
  }

  /** After a nonce error the chain is asked once more and, if it answers,
      the send function once more with the fresh nonce: on a cold cache the
      chain is asked twice in all. */
  lemma NonceErrorIsRetriedOnce(
    nonces: map<Address, Nonce>, chainID: int, account: Address,
    c: Collaborators, isNonceError: Cause -> bool)
    requires PickNonce(nonces, chainID, account, c).value.Success?
    requires c.send.first.Failure? && isNonceError(c.send.first.error)
    ensures var picked := PickNonce(nonces, chainID, account, c);
      var reply := c.pendingNonce.Reply(|picked.trace|);
      var r := SendWithNonceTracking(nonces, chainID, account, c, isNonceError);
      && |r.trace| >= |picked.trace| + 2
      && r.trace[..|picked.trace| + 2] == picked.trace + [SendCalled(picked.value.value), NonceQueried(chainID, account)]
      && NonceQueries(r.trace) == |picked.trace| + 1
      && (reply.Failure? ==> Sends(r.trace) == [picked.value.value])
      && (reply.Success? ==> Sends(r.trace) == [picked.value.value, reply.value])
  {
    var picked := PickNonce(nonces, chainID, account, c);
    var reply := c.pendingNonce.Reply(|picked.trace|);
    var after: seq<Nonce> := if reply.Failure? then [] else [reply.value];
    RetryTrace(nonces, chainID, account, c, isNonceError);
    PickedTraceIsQueries(nonces, chainID, account, c);
    RetryTraceProjections(picked.trace, picked.value.value, NonceQueried(chainID, account), after);
  }

  /** The send after recovery is the last: its failure, nonce error or not,
      ends the call as "recovered nonce but still failed" without touching
      the cache, and its success caches the fresh nonce plus one. A failed
      recovery query ends the call as "could not get nonce". */
  lemma RetryIsFinal(
    nonces: map<Address, Nonce>, chainID: int, account: Address,
    c: Collaborators, isNonceError: Cause -> bool)
    requires PickNonce(nonces, chainID, account, c).value.Success?
    requires c.send.first.Failure? && isNonceError(c.send.first.error)
    ensures var picked := PickNonce(nonces, chainID, account, c);
      var reply := c.pendingNonce.Reply(|picked.trace|);
      var r := SendWithNonceTracking(nonces, chainID, account, c, isNonceError);
      && (reply.Failure? ==> r.value == Failure(NonceQueryFailed(reply.error)) && r.nonces == nonces)
      && (reply.Success? && c.send.second.Failure? ==>
            r.value == Failure(RetryFailed(c.send.second.error)) && r.nonces == nonces)
      && (reply.Success? && c.send.second.Success? ==>
            r.value == Success(c.send.second.value) && r.nonces == nonces[account := Next(reply.value)])
  {
    RetryPath(nonces, chainID, account, c, isNonceError);
  }

  /** Whatever the replies, the send function is called at most twice and
      the chain asked at most twice within one critical section. */
  lemma AtMostTwoSends(
    nonces: map<Address, Nonce>, chainID: int, account: Address,
    c: Collaborators, isNonceError: Cause -> bool)
    ensures var r := SendWithNonceTracking(nonces, chainID, account, c, isNonceError);
      |Sends(r.trace)| <= 2 && NonceQueries(r.trace) <= 2
  {
    var picked := PickNonce(nonces, chainID, account, c);
    PickedTraceIsQueries(nonces, chainID, account, c);
    if picked.value.Success? {
      ProjectionsSnoc(picked.trace, SendCalled(picked.value.value));
      if c.send.first.Success? {
        FirstSuccessIsOnlyAttempt(nonces, chainID, account, c, isNonceError);
      } else if !isNonceError(c.send.first.error) {
        OtherSendErrorIsNotRetried(nonces, chainID, account, c, isNonceError);
      } else {
        NonceErrorIsRetriedOnce(nonces, chainID, account, c, isNonceError);
      }
    }
  }

  // ---------------------------------------------------------------------
  // A whole call
  // ---------------------------------------------------------------------

  /** A zero sender is refused before any collaborator is asked. */
  lemma ZeroSenderRefusedFirst(h: TransactionHandler, chainID: int, opts: HandlerOpts, c: Collaborators, rules: Rules)
    requires opts.sender == ZERO_ADDRESS
    ensures SendWithGasPriceHandling(h, chainID, opts, c, rules) == Dispatched(Failure(SenderNotSpecified), h, [])
  {
  }

  /** Options the incrementor rejects are refused, unchanged, before any
      collaborator is asked. */
  lemma RejectedIncOptsRefusedFirst(h: TransactionHandler, chainID: int, opts: HandlerOpts, c: Collaborators, rules: Rules)
    requires opts.sender != ZERO_ADDRESS && rules.validateIncOpts(opts.gasPriceIncOpts).Some?
    ensures SendWithGasPriceHandling(h, chainID, opts, c, rules)
      == Dispatched(Failure(IncOptsRejected(rules.validateIncOpts(opts.gasPriceIncOpts).value)), h, [])
  {
  }

  /** A forced call with valid options: the critical section's events,
      then the registration's when it succeeded. */
  lemma ForcedCallTrace(h: TransactionHandler, chainID: int, opts: HandlerOpts, c: Collaborators, rules: Rules)
    requires opts.forceQueue && Validate(opts, rules) == None
    ensures var sent := SendWithNonceTracking(h.nonces, chainID, opts.sender, c, rules.isNonceError);
      var r := SendWithGasPriceHandling(h, chainID, opts, c, rules);
      && r.result == sent.value
      && r.handler.nonces == sent.nonces
      && r.trace == sent.trace + (if sent.value.Success? then Register(h, sent.value.value, opts, c) else [])
  {
    var sent := SendWithNonceTracking(h.nonces, chainID, opts.sender, c, rules.isNonceError);
    assert CanQueue(opts, c).trace == [];
    if sent.value.Failure? {
      assert [] + sent.trace == sent.trace + [];
    }
  }

  /** With ForceQueue set the incrementor is asked neither CanQueue nor
      CanSign. */
  lemma ForceQueueAsksNoAdmission(h: TransactionHandler, chainID: int, opts: HandlerOpts, c: Collaborators, rules: Rules)
    requires opts.forceQueue
    ensures NoAdmissionAsked(SendWithGasPriceHandling(h, chainID, opts, c, rules).trace)
  {
    if Validate(opts, rules) == None {
      var sent := SendWithNonceTracking(h.nonces, chainID, opts.sender, c, rules.isNonceError);
      var tail := if sent.value.Success? then Register(h, sent.value.value, opts, c) else [];
      ForcedCallTrace(h, chainID, opts, c, rules);
      assert NoAdmissionAsked(sent.trace) by {
        NonceTrackingOnlyQueriesAndSends(h.nonces, chainID, opts.sender, c, rules.isNonceError);
      }
      assert NoAdmissionAsked(tail);
      NoAdmissionAskedAppend(sent.trace, tail);
    }
  }

  lemma NoAdmissionAskedAppend(a: seq<Event>, b: seq<Event>)
    requires NoAdmissionAsked(a) && NoAdmissionAsked(b)
    ensures NoAdmissionAsked(a + b)
  {
  }

  /** With ForceQueue set the incrementor's answers do not matter: a call
      with valid options proceeds to the critical section exactly as it
      would if it had been admitted. */
  lemma ForceQueueSkipsAdmission(h: TransactionHandler, chainID: int, opts: HandlerOpts, c: Collaborators, rules: Rules)
    requires opts.forceQueue && Validate(opts, rules) == None
    ensures var sent := SendWithNonceTracking(h.nonces, chainID, opts.sender, c, rules.isNonceError);
      var r := SendWithGasPriceHandling(h, chainID, opts, c, rules);
      && r.result == sent.value
      && r.handler.nonces == sent.nonces
      && r.trace[..|sent.trace|] == sent.trace
  {
    var sent := SendWithNonceTracking(h.nonces, chainID, opts.sender, c, rules.isNonceError);
    var tail := if sent.value.Success? then Register(h, sent.value.value, opts, c) else [];
    ForcedCallTrace(h, chainID, opts, c, rules);
    assert (sent.trace + tail)[..|sent.trace|] == sent.trace;
  }

  /** An admitted call runs the critical section and returns its result;
      the nonce cache and the sends are the critical section's. */
  lemma AdmittedCallRunsCriticalSection(h: TransactionHandler, chainID: int, opts: HandlerOpts, c: Collaborators, rules: Rules)
    requires Validate(opts, rules) == None
    requires opts.forceQueue || (c.canQueue == Success(true) && c.canSign)
    ensures var sent := SendWithNonceTracking(h.nonces, chainID, opts.sender, c, rules.isNonceError);
      var r := SendWithGasPriceHandling(h, chainID, opts, c, rules);
      && r.result == sent.value
      && r.handler == h.(nonces := sent.nonces)
      && Sends(r.trace) == Sends(sent.trace)
  {
    var sent := SendWithNonceTracking(h.nonces, chainID, opts.sender, c, rules.isNonceError);
    var gate := CanQueue(opts, c);
    NonceTrackingOnlyQueriesAndSends(h.nonces, chainID, opts.sender, c, rules.isNonceError);
    if sent.value.Success? {
      SendsAmidOtherEvents(gate.trace, sent.trace, Register(h, sent.value.value, opts, c));
    } else {
      SendsAmidOtherEvents(gate.trace, sent.trace, []);
      assert gate.trace + sent.trace + [] == gate.trace + sent.trace;
    }
  }

  /** A call the incrementor does not admit ends with the admission error
      and no other effect: no nonce query, no send, no registration, no
      log, and the handler as it was. */
  lemma RefusedAdmissionHasNoEffect(h: TransactionHandler, chainID: int, opts: HandlerOpts, c: Collaborators, rules: Rules)
    requires Validate(opts, rules) == None && !opts.forceQueue
    requires !(c.canQueue == Success(true) && c.canSign)
    ensures var r := SendWithGasPriceHandling(h, chainID, opts, c, rules);
      && r.handler == h
      && OnlyAdmissionAsked(r.trace)
      && Sends(r.trace) == []
      && (c.canQueue.Failure? ==> r.result == Failure(CanQueueFailed(c.canQueue.error)))
      && (c.canQueue == Success(false) ==> r.result == Failure(QueueFull))
      && (c.canQueue == Success(true) ==> r.result == Failure(NoSigners))
  {
    NoSendsWithoutSendEvents(CanQueue(opts, c).trace);
  }

  /** A failed registration does not fail the call: the transaction the
      send function produced is returned, and the failure reaches the log
      exactly when a logger is attached. */
  lemma RegistrationIsBestEffort(h: TransactionHandler, chainID: int, opts: HandlerOpts, c: Collaborators, rules: Rules)
    requires Validate(opts, rules) == None
    requires opts.forceQueue || (c.canQueue == Success(true) && c.canSign)
    requires SendWithNonceTracking(h.nonces, chainID, opts.sender, c, rules.isNonceError).value.Success?
    requires c.insertInitial.Some?
    ensures var tx := SendWithNonceTracking(h.nonces, chainID, opts.sender, c, rules.isNonceError).value.value;
      var r := SendWithGasPriceHandling(h, chainID, opts, c, rules);
      && r.result == Success(tx)
      && InsertInitialCalled(tx, opts.gasPriceIncOpts, opts.sender) in r.trace
      && (Logged(InsertFailed(c.insertInitial.value)) in r.trace <==> h.hasLogger)
  {
    var sent := SendWithNonceTracking(h.nonces, chainID, opts.sender, c, rules.isNonceError);
    var r := SendWithGasPriceHandling(h, chainID, opts, c, rules);
    NonceTrackingOnlyQueriesAndSends(h.nonces, chainID, opts.sender, c, rules.isNonceError);
    var reg := Register(h, sent.value.value, opts, c);
    var gate := CanQueue(opts, c);
    assert r.trace == gate.trace + sent.trace + reg;
    assert reg[0] in r.trace;
    if h.hasLogger {
      assert reg[|reg| - 1] in r.trace;
    }
  }

  /** Only a failed registration is ever logged, and only with a logger. */
  lemma OnlyRegistrationFailuresAreLogged(h: TransactionHandler, chainID: int, opts: HandlerOpts, c: Collaborators, rules: Rules)
    ensures var r := SendWithGasPriceHandling(h, chainID, opts, c, rules);
      forall e :: e in r.trace && e.Logged? ==>
        r.result.Success? && h.hasLogger && c.insertInitial.Some? && e.err == InsertFailed(c.insertInitial.value)
  {
    var r := SendWithGasPriceHandling(h, chainID, opts, c, rules);
    if Validate(opts, rules) == None && CanQueue(opts, c).value == None {
      var gate := CanQueue(opts, c);
      var sent := SendWithNonceTracking(h.nonces, chainID, opts.sender, c, rules.isNonceError);
      NonceTrackingOnlyQueriesAndSends(h.nonces, chainID, opts.sender, c, rules.isNonceError);
      if sent.value.Success? {
        var reg := Register(h, sent.value.value, opts, c);
        assert r.trace == gate.trace + sent.trace + reg;
      }
    }
  }
}
