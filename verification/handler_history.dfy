/** Calls made one after another on one handler: the nonces handed to the
    send function for one account follow each other, and the cache always
    holds one more than the nonce of the last successful send. */
module HandlerHistory {
  import opened Results
  import opened Handler
  import HandlerProperties

  /** One `SendWithGasPriceHandling` call: its arguments and the replies
      its collaborators give. */
  datatype Call = Call(chainID: int, opts: HandlerOpts, replies: Collaborators)

  function Dispatch(h: TransactionHandler, call: Call, rules: Rules): Dispatched
  {
    SendWithGasPriceHandling(h, call.chainID, call.opts, call.replies, rules)
  }

  /** The outcomes of `calls`, made in order, each on the handler the
      previous one left. */
  function Replay(h: TransactionHandler, calls: seq<Call>, rules: Rules): (outs: seq<Dispatched>)
    ensures |outs| == |calls|
    decreases |calls|
  {
    if calls == [] then []
    else
      var first := Dispatch(h, calls[0], rules);
      [first] + Replay(first.handler, calls[1..], rules)
  }

  /** The handler after `calls`. */
  function Final(h: TransactionHandler, calls: seq<Call>, rules: Rules): TransactionHandler
    decreases |calls|
  {
    if calls == [] then h else Final(Dispatch(h, calls[0], rules).handler, calls[1..], rules)
  }

  /** The nonce sent by the last call among `outs` that succeeded for
      `account`, if there is one. */
  function LastSuccessFor(outs: seq<Dispatched>, calls: seq<Call>, account: Address): Option<Nonce>
    requires |outs| == |calls|
    decreases |calls|
  {
    if calls == [] then None
    else match LastSuccessFor(outs[1..], calls[1..], account)
      case Some(n) => Some(n)
      case None =>
        if calls[0].opts.sender == account && outs[0].result.Success? && Sends(outs[0].trace) != []
        then Some(LastSent(outs[0].trace))
        else None
  }

  /** The nonce cache invariant: for every account, the cached nonce is one
      more than the nonce of the last successful send for it; an account
      without a successful send keeps the entry (or the absence of one) it
      had before. Failed calls consume nothing. */
  lemma {:induction false} CacheFollowsLastSuccess(h: TransactionHandler, calls: seq<Call>, rules: Rules, account: Address)
    ensures var final := Final(h, calls, rules);
      match LastSuccessFor(Replay(h, calls, rules), calls, account)
      case Some(n) => account in final.nonces && final.nonces[account] == Next(n)
      case None =>
        && (account in final.nonces <==> account in h.nonces)
        && (account in h.nonces ==> final.nonces[account] == h.nonces[account])
    decreases |calls|
  {
    if calls != [] {
      var first := Dispatch(h, calls[0], rules);
      var outs := Replay(h, calls, rules);
      assert outs[0] == first;
      assert outs[1..] == Replay(first.handler, calls[1..], rules);
      CacheFollowsLastSuccess(first.handler, calls[1..], rules, account);
    }
  }

  /** A call for `account` that is valid, admitted, and whose first send
      succeeds. */
  ghost predicate GoesThroughFirstTime(call: Call, account: Address, rules: Rules)
  {
    && call.opts.sender == account
    && Validate(call.opts, rules) == None
    && (call.opts.forceQueue || (call.replies.canQueue == Success(true) && call.replies.canSign))
    && call.replies.send.first.Success?
  }

  /** Every call among `outs` succeeded, the i-th after sending exactly
      `base + i` (as a `uint64`). */
  ghost predicate SentInSequence(outs: seq<Dispatched>, base: Nonce)
  {
    forall i :: 0 <= i < |outs| ==>
      outs[i].result.Success? && Sends(outs[i].trace) == [(base + i) % UINT64_LIMIT]
  }

  lemma ReplayStep(h: TransactionHandler, calls: seq<Call>, rules: Rules)
    requires calls != []
    ensures var outs := Replay(h, calls, rules);
      && outs[0] == Dispatch(h, calls[0], rules)
      && outs[1..] == Replay(Dispatch(h, calls[0], rules).handler, calls[1..], rules)
  {
  }

  /** A sequence that starts at `base` continues from `Next(base)`. */
  lemma SentInSequenceCons(outs: seq<Dispatched>, base: Nonce)
    requires outs != []
    requires outs[0].result.Success? && Sends(outs[0].trace) == [base]
    requires SentInSequence(outs[1..], Next(base))
    ensures SentInSequence(outs, base)
  {
  }

  /** A call that goes through the first time for an account with a cached
      nonce sends exactly that nonce and caches the next. */
  lemma CachedCallGoesThrough(h: TransactionHandler, call: Call, account: Address, rules: Rules)
    requires account in h.nonces
    requires GoesThroughFirstTime(call, account, rules)
    ensures var d := Dispatch(h, call, rules);
      && d.result.Success?
      && Sends(d.trace) == [h.nonces[account]]
      && account in d.handler.nonces && d.handler.nonces[account] == Next(h.nonces[account])
  {
    HandlerProperties.AdmittedCallRunsCriticalSection(h, call.chainID, call.opts, call.replies, rules);
    HandlerProperties.FirstSuccessIsOnlyAttempt(h.nonces, call.chainID, account, call.replies, rules.isNonceError);
  }

  /** The same with a cold cache: the chain's answer is sent and the next
      nonce cached. */
  lemma UncachedCallGoesThrough(h: TransactionHandler, call: Call, account: Address, rules: Rules)
    requires account !in h.nonces && call.replies.pendingNonce.first.Success?
    requires GoesThroughFirstTime(call, account, rules)
    ensures var d := Dispatch(h, call, rules);
      var base := call.replies.pendingNonce.first.value;
      && d.result.Success?
      && Sends(d.trace) == [base]
      && account in d.handler.nonces && d.handler.nonces[account] == Next(base)
  {
    HandlerProperties.AdmittedCallRunsCriticalSection(h, call.chainID, call.opts, call.replies, rules);
    HandlerProperties.FirstSuccessIsOnlyAttempt(h.nonces, call.chainID, account, call.replies, rules.isNonceError);
  }

  lemma {:induction false} SuccessiveNoncesFromCache(h: TransactionHandler, account: Address, calls: seq<Call>, rules: Rules)
    requires account in h.nonces
    requires forall i :: 0 <= i < |calls| ==> GoesThroughFirstTime(calls[i], account, rules)
    ensures SentInSequence(Replay(h, calls, rules), h.nonces[account])
    decreases |calls|
  {
    if calls != [] {
      var first := Dispatch(h, calls[0], rules);
      ReplayStep(h, calls, rules);
      CachedCallGoesThrough(h, calls[0], account, rules);
      SuccessiveNoncesFromCache(first.handler, account, calls[1..], rules);
      SentInSequenceCons(Replay(h, calls, rules), h.nonces[account]);
    }
  }

  /** Successive calls for one account that each go through the first time
      hand the send function `base, base+1, …` (as `uint64`s), where `base`
      is the cached nonce or, with a cold cache, the chain's answer to the
      first call's query. */
  lemma SuccessiveNonces(h: TransactionHandler, account: Address, calls: seq<Call>, rules: Rules, base: Nonce)
    requires |calls| > 0
    requires forall i :: 0 <= i < |calls| ==> GoesThroughFirstTime(calls[i], account, rules)
    requires account in h.nonces ==> h.nonces[account] == base
    requires account !in h.nonces ==> calls[0].replies.pendingNonce.first == Success(base)
    ensures SentInSequence(Replay(h, calls, rules), base)
  {
    if account in h.nonces {
      SuccessiveNoncesFromCache(h, account, calls, rules);
    } else {
      var first := Dispatch(h, calls[0], rules);
      ReplayStep(h, calls, rules);
      UncachedCallGoesThrough(h, calls[0], account, rules);
      SuccessiveNoncesFromCache(first.handler, account, calls[1..], rules);
      SentInSequenceCons(Replay(h, calls, rules), base);
    }
  }
}
