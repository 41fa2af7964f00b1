# Blackout classified-execution engine, modelled in Dafny

This project models the lifecycle engine of the Blackout Android app (`com.ghosttech.blackout.engine`).
The engine admits one sensitive operation at a time, signing bytes with an ephemeral private key.
It does so only while walking the phases UNLOCK, EXECUTE, ERASE.
The working bytes sit in a classified buffer inside a boundary.
Teardown destroys the key, wipes the buffer and returns the engine to rest.
Every Java method becomes a pure function over immutable records:

- `EngineStates`, `LifecyclePhases`: the two enums and their `isValidTransition` tables.
- `Mediation`: the mediation controller. It owns the state and the phase. A rejected request never throws: it appends an `Anomaly` to the controller's log and forces LOCKED. The log stands for the anomaly handler's `Log.e` output.
- `ClassifiedBuffers`: the buffer, as its bytes plus the `valid` flag. The capacity is the length of the bytes.
- `Boundaries`: the boundary, plus a heap of buffers. `allocateBuffer` returns the very object it holds, and `execute` writes through that reference. So buffers live in a heap (`seq<ClassifiedBuffer>`, with references as indices) and the boundary holds a reference. A buffer the boundary stops holding stays in the heap unchanged, as a Java object does.
- `Security`: custody of the ephemeral key. The SHA256withRSA primitive is passed in as function parameters: a `Signer` and a `Verifier`.
- `TeardownManager`: the fixed destruction sequence over the shared components.
- `BlackoutEngine`: the facade (`unlock`, `execute`, `erase`, `getState`). It has an invariant that every operation keeps: a COLD engine has no phase; the key is loaded exactly while the boundary is active; a buffer is held only inside an active boundary.
- `ApiBridge`: `normalizeUrl` and the ACTIVE gate at the top of `send`.

Getters (`getCurrentState`, `getCurrentPhase`, `isValid`, `isActive`, `getBuffer`) are field reads of the datatypes; the facade's `getState` is `BlackoutEngine.GetState`. They change nothing because every function here is pure.

The model follows the code where it falls short of its own comments, chiefly the rule at app/src/main/java/com/ghosttech/blackout/engine/TeardownManager.java:9 that all classified buffers must be wiped:

- `write` leaves bytes after the input as they were. `execute` always writes into a buffer of exactly the input's length, so this shows only when `write` is called directly (`WriteThenReadPadsWithZeros` covers the fresh-buffer case).
- `allocateBuffer` does not wipe the buffer it replaces, so teardown wipes only the last one (`FirstBufferOutlivesErase`).
- `execute` signs even after its phase request has forced LOCKED (`ExecuteTwice`).
- A fresh `unlock` from LOCKED stays LOCKED, though it still activates the boundary and loads the key (`OnlyEraseLeavesLocked`).
- Teardown is not idempotent on the state. From COLD it ends LOCKED; a second teardown then returns to COLD. So two teardowns in a row end LOCKED only when the first one started outside COLD (`TeardownTwice`).
- `erase` always ends COLD only on engines that satisfy the facade invariant (`EraseNeedsInvariant`). Every engine built from `New` by facade calls does (`EraseAlwaysEndsCold`).

## Model

| member | source | states |
|---|---|---|
| EngineStates.EngineState.IsValidTransition | app/src/main/java/com/ghosttech/blackout/engine/EngineState.java:26-46 | A state may move to `next` exactly when `next` is in its successor set: COLD to ACTIVE; ACTIVE to COLD or LOCKED; TEARDOWN and LOCKED to COLD |
| EngineStates.TableMatchesSuccessors | app/src/main/java/com/ghosttech/blackout/engine/EngineState.java:26-46 | The state table agrees, pair by pair, with an explicit successor-set table |
| EngineStates.ColdOnlyToActive | app/src/main/java/com/ghosttech/blackout/engine/EngineState.java:29-30 | From COLD the only valid next state is ACTIVE |
| EngineStates.ActiveToColdOrLocked | app/src/main/java/com/ghosttech/blackout/engine/EngineState.java:32-33 | From ACTIVE exactly COLD and LOCKED are valid |
| EngineStates.TeardownAndLockedOnlyToCold | app/src/main/java/com/ghosttech/blackout/engine/EngineState.java:35-41 | From TEARDOWN and from LOCKED only COLD is valid |
| EngineStates.NoSelfTransition | app/src/main/java/com/ghosttech/blackout/engine/EngineState.java:26-46 | No state may transition to itself |
| EngineStates.ColdFromEveryOtherState | app/src/main/java/com/ghosttech/blackout/engine/EngineState.java:29-41 | COLD is a valid target from exactly the states other than COLD |
| EngineStates.TeardownNeverATarget | app/src/main/java/com/ghosttech/blackout/engine/EngineState.java:26-46 | No transition targets TEARDOWN |
| EngineStates.TeardownUnreachable | app/src/main/java/com/ghosttech/blackout/engine/EngineState.java:26-46 | A walk through the table that does not start in TEARDOWN never visits it |
| LifecyclePhases.LifecyclePhase.IsValidTransition | app/src/main/java/com/ghosttech/blackout/engine/LifecyclePhase.java:25-41 | A phase may move to `next` exactly when `next` is the following phase in declaration order, so ERASE has no successor |
| LifecyclePhases.UnlockOnlyToExecute | app/src/main/java/com/ghosttech/blackout/engine/LifecyclePhase.java:28-29 | From UNLOCK the only valid next phase is EXECUTE |
| LifecyclePhases.ExecuteOnlyToErase | app/src/main/java/com/ghosttech/blackout/engine/LifecyclePhase.java:31-32 | From EXECUTE the only valid next phase is ERASE |
| LifecyclePhases.EraseIsTerminal | app/src/main/java/com/ghosttech/blackout/engine/LifecyclePhase.java:34-36 | ERASE has no valid successor |
| LifecyclePhases.TransitionsMoveForward | app/src/main/java/com/ghosttech/blackout/engine/LifecyclePhase.java:15-41 | Every valid transition advances exactly one place in declaration order |
| LifecyclePhases.NoSelfTransitionNorReturnToUnlock | app/src/main/java/com/ghosttech/blackout/engine/LifecyclePhase.java:25-41 | No phase follows itself, and UNLOCK is never a valid target |
| LifecyclePhases.PathAdvancesByOne | app/src/main/java/com/ghosttech/blackout/engine/LifecyclePhase.java:25-41 | Along any walk through the phase table, the i-th phase sits i places after the first |
| LifecyclePhases.PathHasAtMostThreePhases | app/src/main/java/com/ghosttech/blackout/engine/LifecyclePhase.java:25-41 | Because phases only move forward, a walk has at most three phases |
| Mediation.New | app/src/main/java/com/ghosttech/blackout/engine/MediationController.java:17-21 | A new controller is COLD with the phase unset and no anomaly logged |
| Mediation.TransitionState | app/src/main/java/com/ghosttech/blackout/engine/MediationController.java:28-36 | The phase never changes; the new state is the requested one exactly when the request is valid or asks for LOCKED, otherwise LOCKED; a rejection appends exactly one anomaly naming the rejected pair; the log only grows |
| Mediation.TransitionPhase | app/src/main/java/com/ghosttech/blackout/engine/MediationController.java:43-63 | From an unset phase only UNLOCK is accepted, afterwards the phase table decides; acceptance sets the phase and leaves state and log alone; rejection keeps the phase, forces LOCKED and appends one anomaly; the state is never set to anything but LOCKED |
| Mediation.ResetLifecycle | app/src/main/java/com/ghosttech/blackout/engine/MediationController.java:82-84 | The phase becomes unset; state and log are untouched |
| Mediation.LockedIsSticky | app/src/main/java/com/ghosttech/blackout/engine/MediationController.java:28-63 | From LOCKED only a COLD request leaves LOCKED; phase requests never do |
| Mediation.LogIsAppendOnly | app/src/main/java/com/ghosttech/blackout/engine/MediationController.java:28-84 | Over any sequence of requests the anomaly log only grows, by at most one entry per request |
| Mediation.LockedUntilColdRequested | app/src/main/java/com/ghosttech/blackout/engine/MediationController.java:28-84 | A LOCKED controller stays LOCKED through any sequence of requests that never asks for COLD |
| ClassifiedBuffers.New | app/src/main/java/com/ghosttech/blackout/engine/ClassifiedBuffer.java:28-31 | A new buffer is valid, has the requested capacity and holds only zero bytes |
| ClassifiedBuffers.Write | app/src/main/java/com/ghosttech/blackout/engine/ClassifiedBuffer.java:38-46 | Succeeds exactly when the buffer is valid and the input fits; invalid gives IllegalState, oversize gives IllegalArgument, and a failure changes nothing; success keeps validity and capacity, makes the prefix equal to the input and leaves the later bytes as they were |
| ClassifiedBuffers.Read | app/src/main/java/com/ghosttech/blackout/engine/ClassifiedBuffer.java:54-59 | Fails with IllegalState exactly when invalid; otherwise returns all the bytes, capacity many |
| ClassifiedBuffers.Wipe | app/src/main/java/com/ghosttech/blackout/engine/ClassifiedBuffer.java:64-69 | Every byte is zero, the buffer is invalid, and the capacity is kept |
| ClassifiedBuffers.WipeIsIdempotent | app/src/main/java/com/ghosttech/blackout/engine/ClassifiedBuffer.java:64-69 | Wiping twice equals wiping once |
| ClassifiedBuffers.WipedBufferRefusesAccess | app/src/main/java/com/ghosttech/blackout/engine/ClassifiedBuffer.java:38-69 | After a wipe, read and write both fail with IllegalState and write changes nothing |
| ClassifiedBuffers.WriteThenReadRoundTrip | app/src/main/java/com/ghosttech/blackout/engine/ClassifiedBuffer.java:28-59 | Writing into a fresh buffer of the input's size and reading back returns exactly the input |
| ClassifiedBuffers.WriteThenReadPadsWithZeros | app/src/main/java/com/ghosttech/blackout/engine/ClassifiedBuffer.java:28-59 | In a larger fresh buffer the read-back is the input followed by zeros |
| ClassifiedBuffers.InvalidityIsPermanent | app/src/main/java/com/ghosttech/blackout/engine/ClassifiedBuffer.java:20-69 | No sequence of calls changes the capacity or makes an invalid buffer valid again |
| Boundaries.New | app/src/main/java/com/ghosttech/blackout/engine/Boundary.java:15-18 | A new boundary is inactive and holds no buffer |
| Boundaries.Activate | app/src/main/java/com/ghosttech/blackout/engine/Boundary.java:24-26 | The boundary is active and the held buffer is untouched |
| Boundaries.ActivateIsIdempotent | app/src/main/java/com/ghosttech/blackout/engine/Boundary.java:24-26 | Activating twice equals activating once |
| Boundaries.AllocateBuffer | app/src/main/java/com/ghosttech/blackout/engine/Boundary.java:33-39 | An inactive boundary throws IllegalState and nothing changes; an active one holds a new valid zeroed buffer of the requested size and returns that same reference; every earlier heap cell is unchanged |
| Boundaries.AllocateOrphansPrevious | app/src/main/java/com/ghosttech/blackout/engine/Boundary.java:37-38 | Re-allocation stops holding the previous buffer but does not wipe it |
| Boundaries.Destroy | app/src/main/java/com/ghosttech/blackout/engine/Boundary.java:53-59 | The boundary ends inactive and empty; the held buffer, if any, is wiped (zeros, invalid, same capacity); no other buffer changes |
| Boundaries.DestroyIsIdempotent | app/src/main/java/com/ghosttech/blackout/engine/Boundary.java:53-59 | Destroying twice equals destroying once; on an inactive empty boundary destroy changes nothing |
| Security.New | app/src/main/java/com/ghosttech/blackout/engine/SecurityController.java:23-25 | A new controller holds the given public key and no ephemeral key |
| Security.LoadEphemeralKey | app/src/main/java/com/ghosttech/blackout/engine/SecurityController.java:31-33 | The given key is held, replacing any earlier one; the public key is kept |
| Security.Sign | app/src/main/java/com/ghosttech/blackout/engine/SecurityController.java:41-50 | Fails with IllegalState exactly when no key is loaded; otherwise returns the primitive's signature under the loaded key |
| Security.Verify | app/src/main/java/com/ghosttech/blackout/engine/SecurityController.java:59-64 | The answer is the primitive's verdict under the public key |
| Security.VerifyIgnoresEphemeralKey | app/src/main/java/com/ghosttech/blackout/engine/SecurityController.java:59-64 | Replacing the ephemeral key by anything, or by none, never changes a verification |
| Security.DestroyEphemeralKey | app/src/main/java/com/ghosttech/blackout/engine/SecurityController.java:70-75 | No key is held afterwards; the public key is kept |
| Security.DestroyIsIdempotentAndFinal | app/src/main/java/com/ghosttech/blackout/engine/SecurityController.java:41-75 | Destroying twice equals destroying once, and signing afterwards fails |
| Security.PublicKeyIsFixed | app/src/main/java/com/ghosttech/blackout/engine/SecurityController.java:20-75 | No sequence of key loads and destroys changes the public key |
| TeardownManager.Teardown | app/src/main/java/com/ghosttech/blackout/engine/TeardownManager.java:41-53 | Whatever happens to the final request: no key is held, the boundary is inactive and empty, the buffer it held is wiped to zeros at its original capacity, other buffers are untouched, and the phase is unset. The state becomes COLD from every state but COLD; from COLD it becomes LOCKED with one more anomaly |
| TeardownManager.TeardownTwice | app/src/main/java/com/ghosttech/blackout/engine/TeardownManager.java:41-53 | Two teardowns in a row end LOCKED if the first started outside COLD, and COLD if it started in COLD |
| BlackoutEngine.New | app/src/main/java/com/ghosttech/blackout/engine/BlackoutEngine.java:27-33 | A new engine is COLD with the phase unset, the boundary inactive and empty, no key and nothing logged, and it satisfies the facade invariant |
| BlackoutEngine.Unlock | app/src/main/java/com/ghosttech/blackout/engine/BlackoutEngine.java:41-47 | The key is loaded and the boundary activated even when the requests are rejected; the engine becomes ACTIVE exactly when it was COLD with no phase, and LOCKED otherwise; an unset phase becomes UNLOCK even when the state request was rejected, a set phase is kept; the log gains exactly the rejected state request (when not COLD) followed by the rejected phase request (when a phase was set); the invariant is kept |
| BlackoutEngine.Execute | app/src/main/java/com/ghosttech/blackout/engine/BlackoutEngine.java:55-67 | Requests phase EXECUTE; with an inactive boundary it throws IllegalState and leaves boundary and heap alone; with an active one the input lands in a newly held valid buffer; the result is the signature of the input whenever a key is loaded, whatever the state or phase; an active boundary without a key fails as an execution failure; the invariant is kept |
| BlackoutEngine.Erase | app/src/main/java/com/ghosttech/blackout/engine/BlackoutEngine.java:76-79 | From any engine: no key, boundary inactive and empty, its held buffer wiped to zeros at its original capacity, every other buffer unchanged, phase unset, and the result satisfies the invariant. The state is COLD unless the engine was COLD and accepted the ERASE request, in which case it is LOCKED. The log gains exactly the rejected ERASE request (if rejected), then the rejected COLD request (in that LOCKED case). From an engine satisfying the invariant the state is COLD |
| BlackoutEngine.EraseNeedsInvariant | app/src/main/java/com/ghosttech/blackout/engine/BlackoutEngine.java:76-79 | A COLD engine with phase EXECUTE breaks the invariant, and erase leaves it LOCKED |
| BlackoutEngine.EraseIsIdempotent | app/src/main/java/com/ghosttech/blackout/engine/BlackoutEngine.java:76-79 | A second erase changes nothing but the log, which gains one "must begin with UNLOCK" anomaly |
| BlackoutEngine.Step | app/src/main/java/com/ghosttech/blackout/engine/BlackoutEngine.java:41-79 | Every facade operation keeps the facade invariant |
| BlackoutEngine.Run | app/src/main/java/com/ghosttech/blackout/engine/BlackoutEngine.java:41-79 | Any sequence of facade operations keeps the facade invariant |
| BlackoutEngine.EraseAlwaysEndsCold | app/src/main/java/com/ghosttech/blackout/engine/BlackoutEngine.java:76-79 | After any calls on a new engine, erase ends COLD with no phase, an inactive empty boundary and no key |
| BlackoutEngine.UnlockFresh | app/src/main/java/com/ghosttech/blackout/engine/BlackoutEngine.java:41-47 | Unlock on a new engine gives ACTIVE, phase UNLOCK, an active boundary, the key loaded and nothing logged |
| BlackoutEngine.OnlyEraseLeavesLocked | app/src/main/java/com/ghosttech/blackout/engine/BlackoutEngine.java:41-79 | From LOCKED, unlock stays LOCKED though it activates the boundary and loads the key; erase returns to COLD |
| BlackoutEngine.ExecuteBeforeUnlock | app/src/main/java/com/ghosttech/blackout/engine/BlackoutEngine.java:55-58 | Execute on a new engine logs "must begin with UNLOCK", forces LOCKED, throws IllegalState from allocation and leaves no key |
| BlackoutEngine.ExecuteAfterUnlock | app/src/main/java/com/ghosttech/blackout/engine/BlackoutEngine.java:55-63 | Execute right after unlock stays ACTIVE, moves to phase EXECUTE, returns the signature of the input and leaves the input in the held buffer |
| BlackoutEngine.ExecuteTwice | app/src/main/java/com/ghosttech/blackout/engine/BlackoutEngine.java:55-63 | A second execute logs an EXECUTE to EXECUTE anomaly and forces LOCKED, yet still returns the signature; both inputs stay in valid buffers |
| BlackoutEngine.LockedEngineSignsAfterUnlock | app/src/main/java/com/ghosttech/blackout/engine/BlackoutEngine.java:41-63 | After execute-before-unlock has forced LOCKED, a later unlock sets phase UNLOCK while staying LOCKED, and the next execute returns the signature of its input although the engine is LOCKED |
| BlackoutEngine.GetStateAlongCycle | app/src/main/java/com/ghosttech/blackout/engine/BlackoutEngine.java:84-86 | getState reads COLD on a new engine, ACTIVE after unlock and after execute, and COLD after erase |
| BlackoutEngine.FullCycleWipesEverything | app/src/main/java/com/ghosttech/blackout/engine/BlackoutEngine.java:41-79 | Unlock, execute, erase ends COLD with no phase, no key, nothing logged and every allocated buffer wiped |
| BlackoutEngine.FirstBufferOutlivesErase | app/src/main/java/com/ghosttech/blackout/engine/BlackoutEngine.java:55-79 | With two executes before erase, the first buffer survives teardown still valid and holding its input |
| BlackoutEngine.ExecuteSignatureVerifies | app/src/main/java/com/ghosttech/blackout/engine/BlackoutEngine.java:55-63 | If the primitives agree on a key pair, the signature from unlock then execute verifies against the engine's public key |
| ApiBridge.NormalizeUrl | app/src/main/java/com/ghosttech/blackout/api/ApiBridge.java:138-146 | The URL starts with the whole base, and equals the base less one trailing slash, one slash, and the endpoint less one leading slash |
| ApiBridge.NormalizeUrlCases | app/src/main/java/com/ghosttech/blackout/api/ApiBridge.java:138-146 | Slashes on both sides: base plus endpoint without its first character; on neither: base, slash, endpoint; on exactly one: base plus endpoint |
| ApiBridge.NormalizeUrlEndsWithEndpoint | app/src/main/java/com/ghosttech/blackout/api/ApiBridge.java:138-146 | The URL ends with the endpoint, less at most one leading slash |
| ApiBridge.Send | app/src/main/java/com/ghosttech/blackout/api/ApiBridge.java:49-55 | The request is blocked exactly when the engine is not ACTIVE; otherwise it goes on, with its payload, towards the joined URL |
| ApiBridge.BlockedAfterEraseOrAnomaly | app/src/main/java/com/ghosttech/blackout/api/ApiBridge.java:49-55 | After erase, and whenever the engine is LOCKED, the bridge sends nothing |

## Left out

- Security.Sign: the SHA256withRSA primitive is a parameter, so exceptions thrown by the platform's signature engine (bad key type, signature failure) are not modelled. Neither is `execute`'s wrapping of them.
- Security.Verify: likewise does not model exceptions from the verification primitive. Verification is the parameter's verdict.
- Sign/verify round trip: it is not a fact of the model. `ExecuteSignatureVerifies` takes it as a hypothesis about the two primitives.
- Physical memory retention: what the garbage collector keeps, and whether a compiler elides zeroing, cannot be expressed. A wipe is "all bytes zero, `valid` false"; dropping the key is "no key held".
- `read`'s defensive copy: values in the model are immutable, so copy versus alias only shows through the buffer heap.
- Anomaly handler: its only effect is an Android log line. The model records a structured `Anomaly` value per rejected request in the mediation controller's log, not the message text.
- Unreachable `default: return false` branches of both enum switches: Dafny's `match` is exhaustive.
- Null arguments and negative buffer sizes (`NegativeArraySizeException`): sequences are never null, and sizes are `nat`. A null key is not modelled either: `unlock(null)` (BlackoutEngine.java:46, SecurityController.java:32) would leave the boundary active with no key, which breaks the invariant that the key is loaded exactly while the boundary is active, and then `execute` fails as an execution failure (the `ExecutionFailed(IllegalState)` branch of `BlackoutEngine.Execute`). The model's `Unlock` always loads a key.
- Unmodelled bridge code: HTTP posting, JSON envelope building, response validation and Base64 encoding are I/O and parsing. The `engine.sign` call in `send` names a method the engine does not have. The model stops at the gate and the joined URL.
- Wallet context, JavaScript bridge interface and the activities: thin platform wrappers with no engine logic.
- Concurrency: the engine is single-threaded, and every operation is modelled as one atomic step.
