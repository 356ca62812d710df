# Nonce-tracking transaction handler and hex helpers, in Dafny

This project models two parts of the Mysterium payment library (Go).

1. **The transaction handler** (`transfer/handler.go`). `SendWithGasPriceHandling`
   runs these steps in order:
   - validates the options;
   - asks the gas price incrementor whether the sender may queue (`CanQueue`)
     and sign (`CanSign`), unless `ForceQueue` is set;
   - picks a nonce from the per-account cache, or asks the chain
     (`PendingNonceAt`) when the account has no entry;
   - calls the caller's send function;
   - after a nonce error, asks the chain once more and calls the send
     function once more;
   - on success, caches `nonce + 1` for the account;
   - hands the transaction to the incrementor (`InsertInitial`). A failure
     there is only logged.
2. **The hex and padding helpers** (`crypto/helpers.go`): `isHexCharacter`,
   `isHex`, `ensureNoPrefix`, `toBytes32` and `Pad`.

How the handler is modelled:

- The handler is an immutable value. It holds the nonce cache
  (`map<Address, Nonce>`) and a flag that says whether a logger is attached.
- The section under the nonce mutex is one pure function from the old map
  to the new map.
- The collaborators are oracles. Their replies are part of the input
  (`Collaborators`). The replies of the chain and of the send function are
  scripted per call: the first question gets the first reply and the
  second question gets the second reply.
- Every question put to a collaborator is recorded, in order, as an `Event`
  in the call's trace. So "not called", "called once" and "called before"
  can be stated. `Sends` projects the nonces given to the send function out
  of a trace, and `NonceQueries` counts the chain queries.
- `isNonceError` and `TransactionOpts.validate` are not part of this model.
  They are function parameters (`Rules`), and no property depends on how
  they decide.
- go-ethereum's `common.IsHexAddress` is not part of this model either. It
  is the parameter `isHexAddress` of `ToBytes32`.
- Nonces are Go `uint64` values. `nonce += 1` is modelled with its
  wrap-around (`Next`), so the sequence property is stated modulo 2^64.
- Errors are tagged kinds, not message texts. An error the source returns
  unchanged (from `TransactionOpts.validate` or `CanQueue`) carries the
  collaborator's error as it is.
- A Go string is modelled as `seq<char>` with one char per byte. A byte
  slice is `seq<Byte>`.

Files:

- `results.dfy`: `Option` and `Result`.
- `hex.dfy`: module `Hex`, the crypto helpers.
- `handler.dfy`: module `Handler`, the data model and the operations.
- `handler_properties.dfy`: module `HandlerProperties`, properties of one call.
- `handler_history.dfy`: module `HandlerHistory`, properties of successive calls.

Where the code and the design description of the library disagree, the
model follows the code:

- The design says the sender must be a well-formed, non-empty address.
  The code only rejects the zero address (`common.HexToAddress("")`).
- The design calls every option failure "InvalidOptions". The code returns
  its own "sender address must be specified" error for a zero sender. It
  returns the incrementor's validation error unchanged. The model keeps
  these as two kinds, `SenderNotSpecified` and `IncOptsRejected`.

## Model

| member | source | states |
|---|---|---|
| Hex.IsHexCharacterMeansHexDigit | crypto/helpers.go:26-28 | a byte is a hex character exactly when it is one of the 22 digits `0-9`, `a-f`, `A-F` |
| Hex.IsHex | crypto/helpers.go:30-42 | the early-returning loop answers true exactly when the length is even and every byte is a hex character; the empty string is hex, every odd-length string is not |
| Hex.EnsureNoPrefix | crypto/helpers.go:54-56 | the result is the input with one leading lower-case `0x` removed when present, and the input itself otherwise; exactly two bytes shorter or the same length |
| Hex.StripAddedPrefix | crypto/helpers.go:54-56 | stripping undoes prepending `0x` for every string, so from `0x0x…` only one prefix goes |
| Hex.UpperPrefixKept | crypto/helpers.go:54-56 | an upper-case `0X` prefix is not stripped |
| Hex.LowerChar | crypto/helpers.go:49 | lower-casing one byte leaves no upper-case letter, shifts `A-Z` by 32 and keeps every other byte |
| Hex.ToLower | crypto/helpers.go:49 | lower-casing keeps the length and lower-cases every byte in place |
| Hex.ToBytes32 | crypto/helpers.go:44-52 | it fails exactly when the address predicate rejects the input; on success the result is 24 `'0'` followed by the lower-cased digits after the prefix, with no upper-case letter anywhere |
| Hex.ToBytes32IsPaddedWord | crypto/helpers.go:44-52 | for 40 hex digits after the prefix, the result is a 64-digit hex string that decodes to the 20 address bytes left-padded with zeros to 32 bytes |
| Hex.Zeros | crypto/helpers.go:63 | a freshly made slice of `n` bytes holds zeros only |
| Hex.Pad | crypto/helpers.go:58-66 | a slice at least `size` long is returned unchanged; a shorter one becomes `size` long, ends with the input and starts with `size - len(b)` zero bytes |
| Hex.PadPreservesValue | crypto/helpers.go:58-66 | padding never changes the big-endian number the bytes encode, and the length becomes the larger of the two |
| Hex.PadIdempotent | crypto/helpers.go:58-66 | padding twice to the same size is padding once |
| Handler.NewTransactionHandler | transfer/handler.go:84-91 | a new handler has an empty nonce cache and no logger |
| Handler.AttachLogger | transfer/handler.go:98-100 | attaching a logger leaves the nonce cache alone |
| Handler.Log | transfer/handler.go:194-198 | an error reaches the log exactly when a logger is attached, and nothing else is recorded |
| Handler.Validate | transfer/handler.go:183-192 | options pass exactly when the sender is not the zero address and the incrementor options validate; the zero sender is refused first, and the incrementor's error is passed through unchanged |
| Handler.CanQueue | transfer/handler.go:163-181 | ForceQueue admits without asking; otherwise CanQueue is asked first, its error is returned unchanged, `false` gives QueueFull, CanSign is asked only after a `true` and `false` gives NoSigners; only these two questions are ever asked |
| Handler.Next | transfer/handler.go:157 | `nonce += 1` on a uint64 adds one, and wraps the largest value to 0 |
| Handler.PickNonce | transfer/handler.go:131-138 | a cached nonce is used with no query; otherwise the chain is asked once and its answer is used, and its error becomes "could not get nonce" |
| Handler.Recover | transfer/handler.go:146-154 | recovery asks the chain once and, if it answers, sends once more with that nonce; a failure of that send, whatever its kind, is final as "recovered nonce but still failed" |
| Handler.SendWithNonceTracking | transfer/handler.go:127-161 | a failure leaves the nonce cache unchanged; a success caches, for this account only, the nonce of the last send plus one |
| Handler.SendWithNonce | transfer/handler.go:140-160 | the same cache rule, once the nonce has been picked |
| Handler.NonceTrackingOnlyQueriesAndSends | transfer/handler.go:127-161 | the critical section only queries the chain and calls the send function |
| Handler.Register | transfer/handler.go:120-122 | InsertInitial is always asked, with the transaction, the incrementor options and the sender; its failure can only appear in the log, and only with a logger |
| Handler.SendWithGasPriceHandling | transfer/handler.go:106-125 | a failed call leaves the handler as it was; a successful call changes only the sender's cache entry, to the nonce of its last send plus one |
| HandlerProperties.CacheHitSendsCachedNonce | transfer/handler.go:131-140 | with a cached nonce the first event is the send with that nonce, so the chain is not asked first |
| HandlerProperties.CacheMissQueriesOnceFirst | transfer/handler.go:131-140 | without a cached nonce the chain is asked exactly once before the first send, which uses its answer; an error answer ends the call with no send and the cache unchanged |
| HandlerProperties.PickedTraceIsQueries | transfer/handler.go:131-138 | before the first send there is at most one event, a chain query, and no send |
| HandlerProperties.FirstSuccessIsOnlyAttempt | transfer/handler.go:140-160 | a successful first send is the only send, its transaction is returned, and its nonce plus one is cached |
| HandlerProperties.OtherSendErrorIsNotRetried | transfer/handler.go:140-144 | a send error that is not a nonce error is returned at once: one send, no further query, cache unchanged |
| HandlerProperties.RetryPath | transfer/handler.go:146-160 | after a nonce error the trace is the picked nonce's events, the first send, then the recovery's events; a failed recovery fails the call with the cache unchanged, a successful one caches its nonce plus one |
| HandlerProperties.RetryTrace | transfer/handler.go:146-154 | after a nonce error the trace is exactly: the picking events, the first send, one chain query, and one more send with the chain's answer when it answered |
| HandlerProperties.NonceErrorIsRetriedOnce | transfer/handler.go:146-154 | after a nonce error the chain is asked once more and, if it answers, the send function once more with the fresh nonce; on a cold cache the chain is asked twice in all |
| HandlerProperties.RetryIsFinal | transfer/handler.go:146-160 | the retry is final: a failed re-query gives "could not get nonce", a failed retry of any kind gives "recovered nonce but still failed", both with the cache unchanged; a successful retry caches the fresh nonce plus one |
| HandlerProperties.AtMostTwoSends | transfer/handler.go:127-161 | whatever the replies, the send function is called at most twice and the chain asked at most twice |
| HandlerProperties.ZeroSenderRefusedFirst | transfer/handler.go:107-109 | a zero sender fails with SenderNotSpecified, with no collaborator asked and the handler unchanged |
| HandlerProperties.RejectedIncOptsRefusedFirst | transfer/handler.go:183-192 | options the incrementor rejects are refused with its error, before any collaborator is asked |
| HandlerProperties.ForcedCallTrace | transfer/handler.go:111-125 | a forced call with valid options returns the critical section's result and cache, and its trace is the critical section's followed by the registration's when the send succeeded |
| HandlerProperties.ForceQueueAsksNoAdmission | transfer/handler.go:163-166 | with ForceQueue neither CanQueue nor CanSign is ever asked |
| HandlerProperties.ForceQueueSkipsAdmission | transfer/handler.go:163-166 | with ForceQueue and valid options the call runs the critical section exactly as an admitted one would, whatever the incrementor would have answered |
| HandlerProperties.AdmittedCallRunsCriticalSection | transfer/handler.go:111-118 | an admitted call returns the critical section's result and takes over its nonce cache and its sends |
| HandlerProperties.RefusedAdmissionHasNoEffect | transfer/handler.go:168-178 | a refused admission (CanQueue error, `false`, or CanSign `false`) gives the matching error, with no nonce query, no send, no registration, no log and the handler unchanged |
| HandlerProperties.RegistrationIsBestEffort | transfer/handler.go:120-124 | a failed InsertInitial still returns the sent transaction with no error, and its failure is logged exactly when a logger is attached |
| HandlerProperties.OnlyRegistrationFailuresAreLogged | transfer/handler.go:194-198 | the only thing ever logged is a failed registration of a successful call, and only with a logger |
| HandlerHistory.CacheFollowsLastSuccess | transfer/handler.go:131-160 | after any series of calls, each account's cached nonce is one more than the nonce of its last successful send; an account with no successful send keeps the entry, or the lack of one, it had before |
| HandlerHistory.CachedCallGoesThrough | transfer/handler.go:131-140 | a valid, admitted call whose first send succeeds sends the cached nonce and caches the next |
| HandlerHistory.UncachedCallGoesThrough | transfer/handler.go:131-140 | the same call with a cold cache sends the chain's answer and caches the next |
| HandlerHistory.SuccessiveNoncesFromCache | transfer/handler.go:157-158 | successive such calls for one account send the cached nonce, then that plus one, and so on, as uint64 values |
| HandlerHistory.SuccessiveNonces | transfer/handler.go:127-161 | successive such calls for one account send `base, base+1, …`, where `base` is the cached nonce or, with a cold cache, the chain's first answer |

## Left out

- The nonce mutex (transfer/handler.go:128-129) and concurrent callers: the critical section is one atomic step, and calls are replayed one after another.
- go-ethereum's `types.Transaction`, `common.Address`, `common.HexToAddress` and `common.IsHexAddress`: a transaction is an opaque value, an address is 20 bytes, the zero address is `common.HexToAddress("")`, and the address predicate is a parameter.
- `isNonceError` and `TransactionOpts.validate`: their code is not part of this model, so they are uninterpreted parameters.
- The text of wrapped error messages: errors are tagged kinds.
- A send function that returns a nil transaction together with a nil error: every successful reply carries a transaction.
- The send function's reply cannot depend on the nonce it is given. Every property holds for every scripted reply, so this loses nothing the properties cover.
- Hex.ToLower: only ASCII letters are lower-cased. Go's `strings.ToLower` also maps non-ASCII runes, and that Unicode case mapping is not modelled.
- The chain ID (`int64`) is only passed through to the nonce query and is modelled as an unbounded integer.
- `AttachLogger` must not be called concurrently with sends. This is a threading rule and is not modelled.
- client/ethclient_test.go: a test of a reconnecting RPC client against a live network. The client itself is not part of this model.
