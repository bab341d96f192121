# Verified models of the libcore protocols

These Dafny modules model the parts of the client's Go core whose correctness rests on state,
interleaving or arithmetic, and prove what they are meant to guarantee. Each object that changes
its fields is a class whose methods are proved against functions on values, and the properties
are lemmas about those functions. What several goroutines, threads or crashes interleave is a
state with an enabling condition and an effect per atomic step, an inductive invariant, and
lemmas over all runs.

| file | what it models |
|---|---|
| `H3Race.dfy`, `H3Outcome.dfy`, `HttpResponse.dfy` | the race of any number of HTTP requests for one response; the response object that must release its body once |
| `NatWorld.dfy`, `Discover.dfy` | a path with mapping and filter state and an honest STUN server; the classification run against it |
| `Common.dfy`, `Bytes.dfy`, `StunPacket.dfy`, `StunRequest.dfy`, `StunAddress.dfy`, `StunSend.dfy` | shared definitions; the STUN message format, the fingerprint, addresses, and the retransmission loop over timed datagrams |
| `Pump.dfy` | the event queue on a growing ring buffer |
| `Scope.dfy`, `ScopeHooks.dfy`, `BoxStart.dfy`, `StartOrder.dfy`, `StageOrder.dfy` | the tree of lifecycle scopes, the hooks it runs, and the staged start of a box |
| `GlWork.dfy` | GL calls queued for the thread that owns the context |
| `MainInstance.dfy`, `MainCalls.dfy` | box instances, the main instance and its protect server under two kinds of lock; what a call has done when it returns |
| `GeoCache.dfy` | results cached over a database file that is replaced at any moment |
| `AssetVersion.dfy`, `AssetExtract.dfy`, `AssetOrder.dfy`, `AssetCustom.dfy` | asset extraction with a process that may die in every step, which version it leaves, and the user's own file |
| `SavedBinary.dfy`, `EchList.dfy`, `ImportNames.dfy` | a binary record, the ECH list check, the allocation of import names |

`dafny verify dfyconfig.toml` checks everything.

## What the proofs found

- `discover` says "full cone" whenever the filter lets any host in, also when the mapping is not
  endpoint-independent; section 5 of RFC 3489 reserves the word for one mapping. `VerdictMeaning`
  states both sides. Its fake-full-cone flag stays down unless a NAT rewrites source addresses.
- `behaviorTest` reports endpoint-independent filtering for a NAT with endpoint-independent mapping
  and address-dependent filtering, because its own Test2 has opened the other address.
  `FilteringVerdictIsExact` shows that this is the only case.
- A start that fails closes the box and leaves the instance started, so that the guard of the
  instance lets work in on a torn-down box until Close: `ResetMeetsATornDownBox` is such a run, and
  `GuardedWork` shows that a failed start is the only way. A caller sees it as the error that Start
  returns. Close then closes the box a second time, which does nothing.
- The length field of a parsed STUN packet counts the attributes twice, as the parser preloads it
  from the header and then adds. `ParsedLength` gives the exact condition; nothing reads the field.
- `extractAssetNameLocked` takes a version file it cannot read for a missing one and removes the
  asset while the version file stays. If the process dies in that removal, a partial dashboard is
  kept for good (`UnreadableVersionFileKeepsABrokenAsset`); a single file is not at risk. With the
  dashboard missing, a partial old one of a process of the same number, which could not be removed,
  is moved into place when a rename fails (`UnremovedLeftoverIsMovedBack`). `Hurts` describes these
  two steps, and `BreaksIffHurts` shows that they are the only ones.
- A bundle that is older than the version file says, and is extracted because the asset is missing
  or it or its version file cannot be read, leaves a version file that claims more than the asset
  when the extraction is cut short, and a later upgrade looks old (`DowngradeHidesAnUpgrade`). An
  older old dashboard that cannot be removed may be moved back with the same effect. `Hides`
  describes these steps, and `HidesIffMayClaimMore` shows that they are the only ones; other
  downgrades are harmless.
- The file that the user has imported is never overwritten because of its version, but any error
  in looking at it or in reading its version file counts as a missing file, and the bundle then
  takes its place. `ReplacesIffMisread` shows that nothing else does that.

## Model

| member | source | states |
|---|---|---|
| H3Race.StepKeepsInv | libcore/http_h3.go:105-224 | one atomic action of any party keeps the invariant that ties every goroutine's program point to who owns its body, to the two counters and to the cancelled contexts |
| H3Race.BodyHasOneOwner | libcore/http_h3.go:127-183 | in every state of every run a body is closed at most once, and at most one body, of a status-200 response, is with the waiter or the caller |
| H3Race.EveryBodyIsReleased | libcore/http_h3.go:127-224 | once the call has returned and all goroutines have ended, every body was closed exactly once, but for the one returned to the caller as long as it is held |
| H3Race.FullCountMeansAllFailed | libcore/http_h3.go:130-137 | failedCount reaches the number of racers only if every racer failed and joined its error, with no success counted |
| H3Race.ReturnedResult | libcore/http_h3.go:200-224 | the call returns a status-200 response or an error; an error comes only after the deadline or the last failure, so that it is never nil, names every racer after the last failure, and is the context's own only after the deadline |
| H3Race.ContextsAfterReturn | libcore/http_h3.go:185-224 | after an error every request context is cancelled; after a success all but the winner's, which is cancelled exactly by the caller's Close |
| H3Race.NoEarlyCancel | libcore/http_h3.go:185-198 | no cancel call hits a context whose response may still be received or read |
| H3Race.Progress | libcore/http_h3.go:127-224 | no sender, waiter or other local step is stuck once nothing is awaited from the network or the wait context is done; responses and error pages may take for ever |
| H3Race.RunsAreBounded | libcore/http_h3.go:105-224 | a run of n racers has at most 10n + 7 steps under every schedule |
| H3Race.MaximalRunIsDone | libcore/http_h3.go:105-224 | a run that only the network or the caller could continue has returned; a goroutine that has not ended waits for the network, and its context is cancelled |
| H3Outcome.OutcomeDecides | libcore/http_h3.go:140-168 | in every run a racer has failed iff its request came back with an error or another status, and has succeeded, up to counting itself, iff it came back with status 200 |
| H3Outcome.AllFailedMeansNoSuccess | libcore/http_h3.go:130-137 | the wait ends for failures only if every request came back with an error or another status and none with status 200 |
| H3Outcome.SuccessWins | libcore/http_h3.go:168-204 | a run in which a request comes back with status 200 and the deadline does not pass returns a response, whatever the other requests do |
| H3Outcome.WinnerSucceeded | libcore/http_h3.go:168-204 | the response that is returned is one that came back with status 200 |
| H3Outcome.ErrorMeansNothingOffered | libcore/http_h3.go:205-213 | the call gives up only after a moment, past the end of the wait, at which no response was offered |
| H3Outcome.ErrorNamesTheFailed | libcore/http_h3.go:144-164 | an error names failed requests only, and all that had joined theirs when it was read |
| HttpResponse.ReadCloser.Close | libcore/http_response.go:45-55 | closes the wrapped body, runs the hook the first time only, reports the wrapped body's error before the hook's |
| HttpResponse.Response.Answer | libcore/http_response.go:63-125 | getContent, WriteTo, errorString and Close have exactly the bytes, the errors, the effects and the state of the specification |
| HttpResponse.WrittenWhole | libcore/http_response.go:106-115 | a file written without an error, from its creation to its Close, holds the whole of a body that ended without one; the error is nil exactly then |
| HttpResponse.HooksRunOnce | libcore/http_response.go:45-55 | closing a chain of hooks closes the transport's body and runs every hook once, from the inside out; closing it again runs none |
| HttpResponse.InnerErrorWins | libcore/http_response.go:35-55 | a close is silent exactly when the body and all hooks are; an inner error is never hidden by an outer one |
| HttpResponse.ReleasedOnce | libcore/http_response.go:86-125 | after any non-empty sequence of calls the body was closed once and every hook ran once |
| HttpResponse.ContentIsStable | libcore/http_response.go:86-94 | every getContent gives the same answer: the body's own when it is the first call, an error when the body was released before; 32 MB and one byte is too large |
| HttpResponse.ContentIsLimited | libcore/http_response.go:86-94 | content of up to 33554432 bytes is given whole with the error it ends with, and more is an error without content |
| HttpResponse.ErrorPageIsQuoted | libcore/http_response.go:63-76 | an error page of up to 100 bytes that ends by itself is quoted whole, a longer one by its first 100 bytes and an ellipsis, one whose reading fails within 1024 bytes not at all |
| HttpResponse.WriteErrors | libcore/http_response.go:106-115 | the error of a written file is that of its creation, or those of the copy and of its Close joined |
| HttpResponse.WrittenIsPrefix | libcore/http_response.go:106-115 | what a file holds is a beginning of the body, all that it has room for |
| Discover.Discover | libcore/stun/discover.go:67-183 | against every NAT, firewall and open path with filter state and an honest server, the verdict is that of Verdict; the fake-full-cone flag is raised exactly when a NAT rewrites the source of a changed answer |
| Discover.ProbeOtherAddress | libcore/stun/discover.go:125-183 | once nothing came back from the other address, probing it tells symmetric, restricted and port-restricted apart |
| Discover.VerdictMeaning | libcore/stun/discover.go:25-66 | the verdicts in the words of section 5 of RFC 3489: full iff any host may send, restricted and port-restricted iff one mapping and the respective filter, else symmetric |
| Discover.PublicVerdictMeaning | libcore/stun/discover.go:104-124 | on a public address no NAT iff any host may send, else a symmetric firewall; blocked iff UDP is, an error iff the server is no help |
| Discover.SendWithLog | libcore/stun/tests.go:22-70 | a probe counts only when its answer comes from the address asked for; a silent plain probe is an error, a silent change request is not |
| Discover.FilteringTest | libcore/stun/discover.go:250-279 | Test4 and Test5 report FilteringVerdict, given which peers the mapping under test has already contacted |
| Discover.BehaviorTest | libcore/stun/discover.go:185-279 | the mapping class is exact for every NAT, the filtering class is FilteringVerdict |
| Discover.FilteringVerdictIsExact | libcore/stun/discover.go:185-279 | the filtering class is exact iff not (endpoint-independent mapping and address-dependent filter); otherwise it is endpoint-independent, never stricter than the NAT |
| Discover.RewritingHidesFilter | libcore/stun/tests.go:32-37 | behind a NAT that rewrites source addresses the filtering class is reported only where no answer comes back at all |
| StunPacket.NewPacketFromBytes | libcore/stun/packet.go:45-93 | total on every byte string: the packet or the error that Parse gives, the loop in bounds and always advancing |
| StunPacket.ParseSerialize | libcore/stun/packet.go:45-114 | a binding response that fits its length field is parsed back to type, transaction id and attributes, whatever follows it |
| StunPacket.AcceptedIff | libcore/stun/packet.go:45-93 | accepted iff of a possible length, with the bytes of the magic cookie, of type 0x0101 or 0x0111, and with whole attributes inside the length of the header |
| StunPacket.ParsedAreWellFormed | libcore/stun/packet.go:75-92 | every attribute of an accepted message is stored zero-padded to its aligned length, and align has not wrapped |
| StunPacket.ParsedLength | libcore/stun/packet.go:89-98 | a parsed packet's length field equals the received one iff that is below 4, or above 65532 with the last attribute ending, padded, at 2^16, as the parser adds to the preloaded value |
| StunPacket.ParsedLengthDoubles | libcore/stun/packet.go:89-98 | the smallest witness: a 24-byte message with one empty attribute has 4 in its header and 8 in the parsed field |
| StunPacket.Reprinted | libcore/stun/packet.go:45-114 | every accepted message printed with a correct header and parsed again has the same parts, unless its attributes take 2^16 bytes; then the parser rejects what is printed |
| StunPacket.AttributesFit | libcore/stun/packet.go:75-92 | the attributes of an accepted message take at most 2^16 bytes, and that only for the three largest received lengths |
| StunPacket.Packet.AddAttribute | libcore/stun/packet.go:95-98 | appends, and keeps the length field equal to the size of the body modulo 2^16 |
| StunPacket.Packet.ToBytes | libcore/stun/packet.go:100-114 | prints header and attributes; the header length is the number of bytes after the 20-byte header, modulo 2^16 |
| StunPacket.NewAttributeIsWellFormed | libcore/stun/attribute.go:29-38 | an attribute of at most 65532 bytes keeps its value and is zero-padded to the aligned length |
| StunPacket.Align | libcore/stun/utils.go:32-36 | the least multiple of 4 from n on, wrapping to 0 from 65533 on |
| StunPacket.Padding | libcore/stun/utils.go:25-30 | a zeroed copy of the aligned length |
| StunRequest.BuildBindingRequest | libcore/stun/net.go:34-55 | for every software name and flag combination the last attribute is a FINGERPRINT over exactly the bytes before it, whose header already counts it |
| StunRequest.AddFingerprint | libcore/stun/net.go:47-52 | adding eight, computing, subtracting eight and adding the attribute leaves a matching length field and the checksum of the final preceding bytes |
| StunRequest.FittingRequest | libcore/stun/net.go:47-55 | a request that fits has a header that counts its bytes, the same one the checksum covers |
| StunRequest.ReceiverAccepts | libcore/stun/net.go:47-52 | the check of a receiver succeeds: the last eight bytes are a FINGERPRINT whose value without the published mask is the checksum of the rest |
| StunRequest.ChangeFlags | libcore/stun/attribute.go:51-60 | of the four bytes of CHANGE-REQUEST bit 2 asks for another address and bit 1 for another port, and no other is set |
| StunAddress.XorAddrRoundTrip | libcore/stun/attribute.go:72-90 | decoding an XOR-encoded address returns it iff it has 4 bytes for IPv4 and 16 otherwise |
| StunAddress.DecodedBits | libcore/stun/attribute.go:78-89 | every bit of the decoded port and address is that of the value exactly if the bit of the transaction id at its place is zero |
| StunAddress.RawAddrRoundTrip | libcore/stun/attribute.go:104-121 | a plain address that an attribute can hold is read back iff it has 4 bytes for IPv4, and whole words otherwise |
| StunAddress.XorAddr | libcore/stun/attribute.go:72-90 | the in-place loop computes the unmasked address, inside its 16 bytes |
| StunAddress.GetRawAddr | libcore/stun/packet.go:152-159 | the first attribute of the type decides |
| StunAddress.GetXorMappedAddr | libcore/stun/packet.go:161-176 | the standard attribute when it decodes, else the experimental one |
| StunAddress.ErrorCode | libcore/stun/packet.go:123-142 | safe on every well-formed attribute list; only the first ERROR-CODE attribute counts |
| StunAddress.ErrorCodeRoundTrip | libcore/stun/packet.go:123-142 | a server's code and reason are read back from whatever surrounds them, the padding cut off |
| StunSend.Send | libcore/stun/net.go:63-145 | at most count writes of identical bytes at the scheduled times; the result is the first matching reply before the end of the wait, received when it arrives, else nothing at exactly the end; what is received carries the transaction id of the request; junk never prolongs it |
| StunSend.AwaitReply | libcore/stun/net.go:109-142 | one interval: skips what is no reply and ends with the first reply or at its deadline |
| StunSend.CheckReply | libcore/stun/net.go:119-141 | a reply is a well-formed binding (error) response with the request's transaction id |
| StunSend.ReplyMeaning | libcore/stun/net.go:119-134 | a datagram is a reply iff it is well formed and carries the transaction id of the request, and an error reply iff its type is 0x0111 |
| StunSend.FirstReplyIsFirst | libcore/stun/net.go:119-141 | the first reply is preceded by non-replies only |
| StunSend.ScheduleLengths | libcore/stun.go:17-23 | the schedules in use take 3100 ms and 9500 ms |
| StunSend.IntervalSettles | libcore/stun/net.go:106-108 | once an interval has reached the limit all later ones are equal |
| StunSend.ElapsedBound | libcore/stun/net.go:85-108 | every schedule ends, within count times the larger of the first interval and twice the limit |
| Pump.Pump | libcore/gomobile/app/app.go:145-199 | on any sequence of receives, events and stops the ring buffer delivers and closes exactly as an unbounded queue |
| Pump.Ring.Grow | libcore/gomobile/app/app.go:179-186 | doubling keeps the queued events in order and every slot outside the window empty |
| Pump.Ring.Deliver | libcore/gomobile/app/app.go:164-167 | hands out the oldest event and empties its slot |
| Pump.Ring.Accept | libcore/gomobile/app/app.go:169-189 | queues an event behind all others, growing when the buffer is full |
| Pump.PumpConserves | libcore/gomobile/app/app.go:135-160 | delivered and queued events together are always those sent before the stop, in order; the output closes only when all of them were delivered |
| Pump.StoppedPumpDrains | libcore/gomobile/app/app.go:142-162 | after a stop, exactly as many receives as events are queued close the output |
| Pump.ReceiversGetTheHead | libcore/gomobile/app/app.go:164-167 | receivers get the queued events from the head on, the source active or not |
| Pump.ReceiversGetAll | libcore/gomobile/app/app.go:145-199 | whatever has happened, as many receivers as events are queued get all that was accepted, in order |
| Pump.MaskIsMod | libcore/gomobile/app/app.go:165-188 | masking an index with length - 1 is the remainder by a power-of-two length |
| Scope.Scope.Start | libcore/sing-box/adapter/lifecycle.go:91-126 | a closed scope starts nothing; a component gets one child scope on its first start, and what it registers stays even when it fails |
| Scope.Scope.Close | libcore/sing-box/adapter/lifecycle.go:128-142 | every cleanup runs once, last registered first, child scopes before they count as closed; a second Close does nothing |
| Scope.Scope.Add | libcore/sing-box/adapter/lifecycle.go:85-89 | a cleanup goes behind the registered ones, even on a closed scope |
| ScopeHooks.HooksRunInReverse | libcore/sing-box/adapter/lifecycle.go:128-142 | closing a scope runs every hook registered in it or below it, each once and last first |
| ScopeHooks.EveryRegisteredHookRuns | libcore/sing-box/box.go:503-660 | after a start, failed or not, closing runs exactly the hooks that the logger, the debug server, the clock and the components registered on the way, as often as they did |
| ScopeHooks.ComponentIsUnwound | libcore/sing-box/adapter/lifecycle.go:98-114 | an invoked component has its hooks of all stages run last first, none of another between them, and is closed right after |
| BoxStart.Box.StartBox | libcore/sing-box/box.go:503-511 | the schedule is run up to its first failing step; on failure the scope is closed, on success left open |
| BoxStart.Box.PreStart | libcore/sing-box/box.go:540-589 | the first five pieces of the schedule, or a failure within them |
| BoxStart.Box.StartComponents | libcore/sing-box/box.go:518-538 | the components in order up to the first that fails |
| BoxStart.RunMeaning | libcore/sing-box/box.go:591-654 | the steps taken are a beginning of the schedule, all successful but a last failing one |
| StartOrder.FailedStartClosesTheStarted | libcore/sing-box/box.go:503-660 | a start that fails at any step closes exactly the components invoked, the failing one among them, each once and in reverse order of first invocation |
| StartOrder.InvokedInOrder | libcore/sing-box/adapter/lifecycle.go:98-114 | the invoked components, each once, in the order of their first invocations |
| StartOrder.LoggerClosesLast | libcore/sing-box/box.go:540-548 | the logger is the last thing closed; if it does not start there is nothing to close |
| StartOrder.StagesComeInOrder | libcore/sing-box/box.go:540-654 | however a start ends each manager and internal service has seen a beginning of Initialize, Start, PostStart, Started, and all four after a success; the HTTP client service the first two |
| StageOrder.StagesAreOrdered | libcore/sing-box/box.go:555-654 | the managers of each stage in their order: internal services before all at the first stage, between the two lists at the second, after all at the third and fourth |
| StageOrder.StartSucceedsIff | libcore/sing-box/box.go:503-660 | a start succeeds iff neither the logger, the debug server nor the clock fails, nor any component at any of its stages |
| StageOrder.SimpleStartsInPlace | libcore/sing-box/box.go:540-607 | the logger starts first and the debug server second, the clock between the internal services and the managers that others reach |
| GlWork.Slots.RunBatch | libcore/gomobile/gl/work.go:27-39 | a batch runs its own calls in order, whatever older batches left in the slots, and yields the last call's result |
| GlWork.StepKeepsInv | libcore/gomobile/gl/work.go:98-148 | one action of either goroutine keeps: nothing lost or reordered, a blocking call last of everything in flight, values own, no work left to a parked worker without a wake-up |
| GlWork.RunsInOrder | libcore/gomobile/gl/work.go:98-148 | at every moment the calls run are a beginning of the calls made, the values returned those of calls run at once; a blocking call is last in its batch |
| GlWork.IssuedAreTheCalls | libcore/gomobile/gl/work.go:98-112 | what is issued is what was called, in order, but for the call still waiting for room |
| GlWork.BatchesAreFilled | libcore/gomobile/gl/work.go:114-140 | a batch is three calls, or ends with a blocking one, or is all there was |
| GlWork.ValueReturned | libcore/gomobile/gl/work.go:106-108 | a blocking call returns the driver's result for that very call, after all calls before it |
| GlWork.NeverStuck | libcore/gomobile/gl/work.go:98-148 | no deadlock and no lost wake-up: unless everything is done one of the goroutines can go on |
| GlWork.EquivalentToDirectCalls | libcore/gomobile/gl/work.go:98-148 | n calls take at most 10n steps, and a run that cannot go on has run every call made in order and given every blocking call its own value |
| MainInstance.StepKeepsInv | libcore/box.go:134-286 | one step of any thread keeps the lock, life-cycle, main-instance and protect-server invariants |
| MainInstance.GuardedWork | libcore/box.go:134-217 | guarded work and the start of a box happen on an instance that is not closed, one thread at a time; its box has not been torn down iff its start has not returned an error |
| MainInstance.FailedIffStartFailed | libcore/box.go:153-161 | what the model records of a failed start is exactly that such a step was taken |
| MainInstance.ResetMeetsATornDownBox | libcore/box.go:38-53 | the witness: an instance made main whose start fails is then used by ResetAllConnections, its box torn down |
| MainInstance.ClosedIsNotMain | libcore/box.go:166-231 | a closed main instance is one whose closer still holds its lock before the clearing step; a box is started at most once, and closed once, twice if its start failed |
| MainCalls.CallDoesItsWork | libcore/box.go:134-286 | a call has done its start, teardown, change of main instance or use before it returns, or found under the lock that there was nothing to do |
| MainCalls.CloseCloses | libcore/box.go:166-192 | once Close has returned, and for good: the instance is closed and not the main one, its box was torn down, and outside the locked sections the protect server is not its own |
| MainCalls.StartStarts | libcore/box.go:145-164 | once Start has returned the box has been started once, or the call found the instance closed |
| MainCalls.SetAsMainSets | libcore/box.go:220-231 | before SetAsMain returns its instance is the main one, with a new protect server if one can be started; or the call found the instance closed |
| MainCalls.ResetReachesMain | libcore/box.go:32-53 | a reset of all connections has read that there is no main instance, or has used the one it read or found it closed |
| MainInstance.ServerBelongsToMain | libcore/protect.go:33-59 | every protect server started was closed once, in order, or is the current one, which outside the locked sections belongs to the main instance |
| MainInstance.EveryCallReturns | libcore/box.go:32-286 | no deadlock for any number of threads and instances, the callback of SelectOutbound included; at most eleven steps a call |
| MainInstance.LockedCallbackWaitsForItself | libcore/box.go:276-286 | in every state that satisfies the invariant, with the main-instance lock free, a call that uses the main instance and called back into ResetAllConnections under its lock would come to ask for the lock its own thread holds |
| MainInstance.SelectUnderLockWouldHang | libcore/box.go:276-286 | a run from the start of the process reaches a call on the main instance whose callback, made with the lock held, would wait for its own thread for ever |
| GeoCache.Cache.Rules | libcore/geo_cache.go:46-89 | every success is what direct loading gives at some instant of the call; with an unchanging file and no failing access so is every failure; at most one handle is open and each superseded one was closed once |
| GeoCache.Cache.CurrentVersion | libcore/geo_cache.go:50-73 | a matching stamp means the version read is the one now at the path, even if stat and open once saw different versions |
| GeoCache.Cache.Refresh | libcore/geo_cache.go:50-73 | the handle then reads a version that was at the path at some instant of the call, or the file or an access has failed at one |
| GeoCache.Cache.Lookup | libcore/geo_cache.go:75-88 | a cached key costs no access, a new result is cached, a failure is not |
| GeoCache.Cache.Reopen | libcore/geo_cache.go:55-73 | a stale or missing state is dropped before the new file is opened; a failed open leaves the cache empty |
| AssetExtract.StepKeepsSafe | libcore/assets_android.go:52-191 | a step keeps the invariant iff it does not hurt: a dashboard's version file that is there fails to be read, or, with the dashboard missing, a partial old one of a process of the same number fails to be removed |
| AssetExtract.BreaksIffHurts | libcore/assets_android.go:52-191 | a step opens the way to a partial asset with a version file, without any further such step, iff it hurts; a single file is never broken |
| AssetExtract.NoBrokenAssetIsKept | libcore/assets_android.go:52-100 | with the process dying in any step and every step failing but those that hurt, the asset is absent, complete or without a version file |
| AssetExtract.RunHeals | libcore/assets_android.go:52-191 | from any state of the disk an uninterrupted run puts the complete bundled version and its version file in place iff the asset is missing, unmarked or stale, and otherwise changes nothing |
| AssetExtract.OkMeansCurrent | libcore/assets_android.go:66-100 | a run that returns without an error has put the bundled version and its version file in place, or found a file that is not stale and left everything alone |
| AssetOrder.NewestIsInPlace | libcore/assets_android.go:61-99 | from any disk in order, after interrupted runs of newer and older numeric bundles in which no step hurts or hides, an uninterrupted run leaves a complete asset no older than the bundle, the bundled one when it was older or broken |
| AssetCustom.UsersOwnIsKept | libcore/assets_version.go:11-14 | through any runs of any bundles, cut short anywhere, in which nothing is misread, the file that the user imported and everything beside it stay as they are |
| AssetCustom.ReplacesIffMisread | libcore/assets_android.go:66-82 | a step opens the way to something else in its place iff the file cannot be looked at or its version file cannot be read |
| AssetOrder.HidesIffMayClaimMore | libcore/assets_android.go:66-99 | a step opens the way to a version file that claims more than the asset is, without any further such step, iff it hides |
| AssetOrder.StepKeepsOrder | libcore/assets_android.go:66-99 | for numeric bundles a step that does not hurt keeps the order invariant iff it does not hide: it starts to extract a bundle older than the version file says, or leaves an older old dashboard where it may be moved back |
| AssetOrder.UnreadableVersionFileKeepsABrokenAsset | libcore/assets_android.go:72-79 | a version file that once cannot be read, and a process dying in RemoveAll, leave a broken asset that is never replaced |
| AssetOrder.UnremovedLeftoverIsMovedBack | libcore/assets_android.go:151-191 | an old dashboard of a process with the same number that cannot be removed is moved into place when the new one cannot be, and its version file stands |
| AssetOrder.DowngradeHidesAnUpgrade | libcore/assets_version.go:11-21 | a run in which a cut downgrade of a missing asset makes a later upgrade look old |
| AssetExtract.WhatAStepTouches | libcore/assets_android.go:66-191 | a step that reports an error leaves the asset as it was unless it was to remove it; only the last step touches the version file |
| AssetExtract.RankDrops | libcore/assets_android.go:118-191 | every run returns, whatever fails in it |
| AssetVersion.CutShort | libcore/assets_version.go:15-20 | a version file cut while a numeric version was written never claims more than it, and never reads as the user's mark |
| AssetVersion.CutShortIsStale | libcore/assets_version.go:5-10 | a cut version file of a number without leading zeros is always stale, so the asset self-heals |
| AssetVersion.UpdateIffStale | libcore/assets_version.go:11-21 | replaces iff the local version is not the user's mark and is a smaller number, or, unless both are numbers, different; the user's own file never |
| AssetVersion.NumberOfDecimal | libcore/assets_version.go:15-20 | decimal digits are read as their number, up to 64 bits |
| SavedBinary.SavedBinary.MarshalBinary | libcore/sing-box/adapter/experimental.go:58-93 | writes the version byte and the four parts |
| SavedBinary.SavedBinary.UnmarshalBinary | libcore/sing-box/adapter/experimental.go:95-149 | reads the parts into the receiver, keeping what was read before an error |
| SavedBinary.Reader.ReadUvarint | libcore/sing-box/adapter/experimental.go:102-105 | the accumulating loop reads a varint of at most ten bytes and 64 bits |
| SavedBinary.MarshalBack | libcore/sing-box/adapter/experimental.go:58-149 | reading a written record gives it back, whatever follows it and whatever the receiver held, the time cut to whole seconds |
| SavedBinary.CutRecordIsRejected | libcore/sing-box/adapter/experimental.go:95-149 | every strict beginning of a record is rejected, and the parts before the cut are kept |
| SavedBinary.PrefixFree | libcore/sing-box/adapter/experimental.go:58-93 | no record begins another, but for fractions of a second |
| SavedBinary.FirstVersionBack | libcore/sing-box/adapter/experimental.go:133-135 | a record of the first version keeps the receiver's hash |
| SavedBinary.UvarintBack | libcore/sing-box/adapter/experimental.go:64-67 | the varint of every number that has room is read back |
| SavedBinary.VarintIsRead | libcore/sing-box/adapter/experimental.go:102-105 | any varint, shortest or not, is read iff it has at most ten bytes and its value 64 bits |
| SavedBinary.NumbersOnTheWire | libcore/sing-box/adapter/experimental.go:60-75 | 300 as the bytes ac 02, one as seven zeros and a one, the sign in the first bit |
| SavedBinary.LaterVersionsReadAlike | libcore/sing-box/adapter/experimental.go:133-148 | any version from the second on is read alike |
| EchList.ValidECHList | libcore/anytlscompat/boxadapter/config.go:142-157 | accepts exactly the encodings of a non-empty list of versions with non-empty 16-bit bodies under one 16-bit length |
| EchList.EncodingIff | libcore/anytlscompat/boxadapter/config.go:142-157 | the boundary checks hold iff the bytes are such an encoding |
| EchList.EncodingIsUnique | libcore/anytlscompat/boxadapter/config.go:142-157 | accepted bytes encode one list only |
| ImportNames.GoGen.PkgName | libcore/gomobile/bind/gengo.go:562-593 | terminates, and leaves the tables of the specification; a known package keeps its name |
| ImportNames.NamesAreDistinct | libcore/gomobile/bind/gengo.go:569-592 | after any sequence of calls each package named has a name of its own and one import line |
| ImportNames.NamesAreStable | libcore/gomobile/bind/gengo.go:569-571 | a name once given never changes |
| ImportNames.NewNameIsLeast | libcore/gomobile/bind/gengo.go:572-590 | a new name is the package's own or has the least free suffix, which is at most the number of names taken |
| ImportNames.AliasIffRenamed | libcore/gomobile/bind/gengo.go:572-592 | a new package keeps its own name iff no other has taken it, and its import line gives an alias iff it does not |
| ImportNames.Pigeonhole | libcore/gomobile/bind/gengo.go:575-590 | no more candidates are taken than there are names, so the search ends |
| ImportNames.CandidatesDiffer | libcore/gomobile/bind/gengo.go:588-589 | differently numbered candidates differ |

## Left out

- Sockets, TLS, QUIC, HTTP, DNS and file-system libraries: their results are parameters or left open. CRC-32 is a parameter and the text form of addresses is not modelled.
- Panic recovery, logging, timers that only log, and the text of error messages, including the names of STUN error codes and the UTF-8 clean-up of quoted error pages.
- H3Race: the timeout of a request's own context, which the model leaves to the outcome of the request.
- HttpResponse.Response.Answer: the status that errorString writes before the bytes it quotes, and two goroutines in one response at the same time.
- NatWorld.World.SendBindingRequest: the environment of the classification, not code: probes are delivered once, mappings do not expire, and nothing is lost, duplicated or hairpinned.
- Discover.Discover: the host name lookup, and servers that answer from an address without saying which.
- StunSend.Send: partial writes of a datagram and the case of a server address that cannot be parsed count as a socket error; time passes in reads only.
- Pump.Pump: wrap-around of the machine integers i and j, which takes 2^63 events.
- Scope.Scope.Start: the refusal when the parent's context is cancelled, without a Close of the scope; the scope is closed by Close only. The model is sequential: the code starts a component without the lock, and a hook added after a concurrent Close never runs.
- Scope.Scope.Close: the errors that cleanups return, and cleanups that use the scope while it closes.
- BoxStart.Box.StartBox: Box.PreStart followed by Box.Start on one box, which runs the first part twice; components start with hooks of their own and no further scopes.
- GlWork: several goroutines making calls at once, which the code does not support, and the C functions of the driver, which are a function of the calls so far.
- MainInstance: statistics and the selector itself; what guarded work does with an open box; panics while a lock is held.
- GeoCache: databases that are written in place instead of being replaced, and two versions with one size and modification time.
- AssetExtract.NoBrokenAssetIsKept: a step system on values, as a process may die between and in any of the steps, so the aliasing of paths and links is not captured; the lock shared with the importing process is taken for granted; unpacking over leftovers of the same name counts as complete; and no directory is empty, over which a rename would succeed.
- AssetOrder.NewestIsInPlace: versions that are not numbers are compared for inequality only and have no order.
- SavedBinary.Reader.ReadUvarint: the truncation of bits beyond 64, which only rejected encodings have.
- ImportNames.GoGen.PkgName: import paths that need escaping in quotes.
- `box.New`, registries, option parsing, the tables of `outbound_trial.go`, generated GL bindings, JNI, certificate pinning, speed tests and the Windows code: wiring or enumerations with no property beyond their text.
