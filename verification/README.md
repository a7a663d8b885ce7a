# nixtropic: crash-safe persistence, CTAP parsing and CTAPHID framing

A USB security key with a TROPIC01 secure element keeps all its persistent
state on that chip: FIDO credentials, a FIDO PIN, OpenPGP keys, PINs and a
wrapped decryption key.  Every chip call can fail, lose its answer or be torn
by a power cut.  This project models the firmware that has to live with that,
and the two parsers that face the host, and proves what the code promises.

## What is modelled

* `Values`, `Chip` - idealised cryptography and the chip.  HMAC, the
  MAC-and-Destroy functions and key wrapping are free constructors; XOR removes
  exactly its own pad.  Each chip call nondeterministically runs, is refused,
  runs with its answer lost or (R-memory) is torn.  A power cut is one faulty
  call after which every call is refused, so a postcondition that holds for
  all outcomes holds at every point where power can fail.  While `calm` is set
  nothing fails; that a command succeeds is stated for that case.  While `honest`
  is set no torn call claims success.
* `RecPair`, `RecPairRuns` - two copies of a record with generation numbers,
  write-then-read-back and repair on read.
* `PinKernel`, `PinRuns`, `Layouts` - a PIN whose attempts are MAC-and-Destroy
  slots: reserve, probe, restore; setup on the other range; retire.
* `OpenPgpState`, `OpenPgpCard`, `OpenPgpRuns` - the O3 record, PINs, DEC key,
  session flags, lifecycle and command dispatch.
* `FidoStore`, `FidoRuns` - bitmap and guard (O1), credentials, publication,
  wipe and boot order, account replacement, newest-first discovery.
* `PinTokens` - ClientPIN, the pinUvAuthToken and the wrong-PIN latch.
* `BigEndian`, `Cbor`, `CborLaws`, `CredList`, `Der` - the CBOR writer, reader,
  skip and validate; the credential-list parser and its second walk; ES256
  signatures in DER.
* `CtapFrames`, `CtapLog`, `CtapState`, `CtapHid` - CTAPHID: packets, the
  assembly, the response stream, held answers, resync and the main loop, with
  packets arriving inside a running request.  `CtapState` holds what is true
  between any two steps; the class keeps it.

Objects that the firmware updates in place are classes with those variables;
their methods are proved against predicates and functions on values, and
run-level theorems are lemmas over traces (`NeverRollsBack`,
`GuessingIsBounded`, `ChangeIsAtomic`) together with a method showing that the
real operations only produce such traces, or a class invariant that every
event keeps (`AnyRun`).

Five findings are stated exactly:

* A record pair loses an acknowledged object when a write is cut after one copy
  was erased and the other copy is damaged before the repair, whichever of the
  two was being rewritten (`RecPairRuns.CutThenDamageLoses`).  A write cut between
  the copies followed by damage to copy A only takes the new object back, which
  was never acknowledged (`RecPairRuns.CutThenDamageRollsBack`).  Damage to one
  copy loses the object if and only if the other copy is not valid, and hides
  nothing if and only if the other copy says the same (`RecPairRuns.DamageExact`).
* `write_cred` (firmware/src/fido_hid/slots.c:145-148) does not read metadata
  back.  If a torn write is acknowledged, the replaced credential of the account
  is gone and the new one does not resolve (`FidoStore.TornLosesAccount`).  The
  published credential resolves if and only if that write was not torn
  (`FidoStore.TornExact`); on a chip where no torn call claims success every
  outcome is the old set or the complete new one (`FidoStore.Store.MakeCredential`).
* The CBOR writers encode any 64-bit integer, the reader refuses values above
  SIZE_MAX, so the round trip holds if and only if every integer is within it
  (`CborLaws.RoundTrip`).
* The OpenPGP signature counter is said never to show fewer signatures than the
  card made (firmware/src/openpgp/openpgp_applet.c:1053-1054).  Over any run this
  holds of the present signature key until the 24-bit counter goes back to 0
  (`OpenPgpRuns.AnyRun`), which only a signature at its last value does
  (`OpenPgpCard.PgpCard.PsoCds`), and there it fails (`OpenPgpRuns.CounterGoesBack`).
* When USB takes every packet, a round of the CTAPHID main loop leaves nothing
  unsent, with one exception: a request that is abandoned while it waits behind
  a pending answer.  The main loop waits for the answer before it takes the
  request up (firmware/src/fido_hid/ctaphid.c:675), the held INIT answer waits
  for the request (line 184), and the pending answer waits for the held one
  (line 702).  Only an INIT on the channel of the pending answer ends this, and
  none does when that is the abandoned channel itself (`CtapHid.Hid.Task`,
  `CtapState.OnlyInitHelps`, `CtapHid.Hid.HeldForEver`).

## Model

| member | source | states |
|---|---|---|
| `ChipModel.Chip.RmemWrite` | tests/host/mock_tropic.c:161-176 | a write lands only in an empty slot; it may be refused, lose its answer or be torn, and what the slot then holds is one of the listed outcomes |
| `ChipModel.Chip.RmemErase` | tests/host/mock_tropic.c:191-201 | an erase empties the slot, leaves it, or tears it into garbage or masked data |
| `ChipModel.Chip.RmemRead` | tests/host/mock_tropic.c:178-189 | a read returns the slot, "empty" for blank or masked data, or an error that says nothing |
| `ChipModel.Chip.MacAndDestroy` | tests/host/mock_tropic.c:203-219 | the slot becomes F1 of the input and the answer is F2 of old, new and index, or the call did not run, or it ran and its answer was lost; no other slot changes |
| `ChipModel.Chip.EccErase` | tests/host/mock_tropic.c:226-233 | only the named key slot changes, to empty |
| `ChipModel.Chip.EccSign` | firmware/src/tropic/tropic.c:317-336 | a signature is made by the key in the slot or not at all, and it is counted even when its answer is lost |
| `ChipModel.Chip.CounterInit` | tests/host/mock_tropic.c:235-245 | the counter is set, or the call failed with the counter set or not |
| `RecPairs.RecPair.CommitCopy` | firmware/src/tropic/rec_pair.c:80-87 | ok only when the slot reads back as exactly the new record; otherwise it holds the old record, the new one, nothing or damage |
| `RecPairs.RecPair.EraseChecked` | firmware/src/tropic/rec_pair.c:90-96 | ok only when the slot reads empty; otherwise it is as before or holds no valid copy |
| `RecPairs.RecPair.Read` | firmware/src/tropic/rec_pair.c:98-146 | what comes back is exactly what one of the two slots held before: a record of this object, this schema and a generation from 1 to 2^32 - 1; "absent" only when both slots are empty; without faults, two slots of which neither holds such a record, and not both empty, answer CORRUPT and stay as they are; after OK both copies are equal; a repair, complete or cut, never changes the object; an uncertain pair answers only ERROR |
| `RecPairs.CellsDecide` | firmware/src/tropic/rec_pair.c:57-138 | of two slots the decision rule picks a record that one of them really holds, finds nothing only when both are empty, and no valid copy exactly when neither holds a record of this object and schema |
| `RecPairs.RecPair.CommitBoth` | firmware/src/tropic/rec_pair.c:149-157 | copy B is touched only once copy A holds the new record; acknowledged means both hold it |
| `RecPairs.RecPair.Write` | firmware/src/tropic/rec_pair.c:164-172 | acknowledged: both copies hold the next generation; cut anywhere: the old object or the new one; the generation never passes 2^32 - 1 |
| `RecPairs.RecPair.Clear` | firmware/src/tropic/rec_pair.c:174-179 | acknowledged: both slots empty; cut anywhere: the old object or none |
| `RecPairs.RecPair.Init` | firmware/src/tropic/rec_pair.c:181-187 | acknowledged: generation 1 in both copies; cut anywhere: the old object, none, or the new one |
| `RecPairRuns.DecideIsValue` | firmware/src/tropic/rec_pair.c:116-138 | on every pair that faults can produce the read rule never meets a contradiction, copy A is never rewritten from an older B, and no repair happens exactly when the copies agree |
| `RecPairRuns.DecideNewest` | firmware/src/tropic/rec_pair.c:116-138 | of two records whose generations follow each other the newer wins and the older is rewritten; the same generation with different contents, or generations further apart, are refused |
| `RecPairRuns.DamageExact` | firmware/src/tropic/rec_pair.c:116-138 | damage to copy A hides nothing if and only if copy B is the same record, damage to copy B if and only if copy A can be read; either loses the object if and only if the other copy is not valid |
| `RecPairRuns.CutThenDamageRollsBack` | firmware/src/tropic/rec_pair.c:128-138 | a write cut after copy A, and copy A damaged before the repair: the new object, never acknowledged, is gone and the acknowledged one is back |
| `RecPairRuns.CutThenDamageLoses` | firmware/src/tropic/rec_pair.c:80-157 | a write cut after copy A was erased and copy B damaged, or cut after copy B was erased and copy A damaged, before the repair: the acknowledged object is gone and none is left |
| `RecPairRuns.NeverRollsBack` | firmware/src/tropic/rec_pair.c:104-172 | over any run of reads, writes, cuts, single-copy damage and reboots an acknowledged record is still there or was replaced by a later write under a higher generation |
| `RecPairRuns.AnyRun` | firmware/src/tropic/rec_pair.c:104-187 | every sequence of the real operations under every fault is such a run |
| `PinKernel.ArmedFrame` | firmware/src/tropic/pin_md_kernel.c:131-155 | work on the other range and giving up slots leave a binding as armed as it was |
| `PinKernel.SpentArmed` | firmware/src/tropic/pin_md_kernel.c:220-239 | after one reserved attempt every slot still counted on is intact, whatever the spent slot holds |
| `PinKernel.ProbeExact` | firmware/src/tropic/pin_md_kernel.c:226-230 | one M&D answer opens the share if and only if the slot was intact and the PIN is the bound one, and then it yields the bound secret |
| `PinKernel.RetiredOpensNothing` | firmware/src/tropic/pin_md_kernel.c:131-144 | a retired slot opens no record and no PIN, an old record replayed included |
| `PinKernel.KeyedIsGenuine` | firmware/src/tropic/pin_md_kernel.c:174-185 | what setup writes is bound to one secret and one PIN in every share |
| `PinKernel.Kernel.Load` | firmware/src/tropic/pin_md_kernel.c:90-112 | only a record whose fields are in range is accepted: one share for each round, a range that exists, next at most the number of rounds, a pending retirement only where there are two ranges; without faults the live binding or its absence is found |
| `PinKernel.Kernel.Store` | firmware/src/tropic/pin_md_kernel.c:115-128 | both copies hold the new binding, or the old or the new one is live |
| `PinKernel.Kernel.Retire` | firmware/src/tropic/pin_md_kernel.c:131-144 | ok means every slot of the range was overwritten with a random input drawn by this call, and no slot outside it changed |
| `PinKernel.Kernel.Settle` | firmware/src/tropic/pin_md_kernel.c:148-155 | a stored pending retirement is cleared only after a full retire; the binding is otherwise kept |
| `PinKernel.Kernel.FinishRetirement` | firmware/src/tropic/pin_md_kernel.c:148-155 | the record says that the other range is retired only after every slot of it was; cut anywhere it is the binding as before or that |
| `PinKernel.Kernel.KeyRange` | firmware/src/tropic/pin_md_kernel.c:174-185 | every slot of the range holds F1(u) and every share opens with the given PIN and no other |
| `PinKernel.Kernel.SetupS` | firmware/src/tropic/pin_md_kernel.c:160-206 | cut anywhere: the old binding or the new one is live; on OK retire_pending is 0, all new slots are armed and every slot of the previous range was retired |
| `PinKernel.Kernel.Publish` | firmware/src/tropic/pin_md_kernel.c:186-197 | the old range is touched only once the new record is live; a half-done retirement stays recorded |
| `PinKernel.Kernel.Reserve` | firmware/src/tropic/pin_md_kernel.c:217-224 | the attempt is taken in an acknowledged record before any M&D call |
| `PinKernel.Kernel.Guess` | firmware/src/tropic/pin_md_kernel.c:226-230 | exactly one probe of the reserved slot; it opens if and only if the PIN is the bound one and the slot was armed |
| `PinKernel.Kernel.VerifyS` | firmware/src/tropic/pin_md_kernel.c:210-250 | correct if and only if the bound PIN was given; a wrong PIN uses exactly one slot, the right one restores all slots and next = 0; every intermediate failure keeps the invariant |
| `PinKernel.Kernel.Status` | firmware/src/tropic/pin_md_kernel.c:264-282 | the attempts reported are the slots left of the live binding; settling never changes which PIN is bound |
| `PinKernel.Kernel.Setup` | firmware/src/tropic/pin_md_kernel.c:284-295 | OK means the given PIN is bound to a freshly drawn secret with all attempts; cut anywhere the old binding or the new one is live, and a new one starts without probes |
| `PinKernel.Kernel.Verify` | firmware/src/tropic/pin_md_kernel.c:297-309 | the verdict is exact for an armed binding, k is derived from the bound secret, and the probe count never exceeds the attempts taken |
| `PinKernel.Kernel.Change` | firmware/src/tropic/pin_md_kernel.c:311-330 | OK and correct: the old PIN was the bound one, the new one is bound to the same secret on the other range and every slot of the old range was overwritten in this call; a failure leaves one of the two live |
| `PinKernel.Kernel.Clear` | firmware/src/tropic/pin_md_kernel.c:332-339 | needs no readable record; OK means every range was retired and both copies are empty |
| `PinRuns.GuessingIsBounded` | firmware/src/tropic/pin_md_kernel.c:210-250 | over any run of verifications, changes, status calls and reboots without the PIN, cut anywhere, PIN and secret stay, attempts never come back, and no more guesses are evaluated than attempts were taken, at most `rounds` |
| `PinRuns.SecretSurvives` | firmware/src/tropic/pin_md_kernel.c:210-330 | the secret behind the PIN, and so k, is the same after any run of calls without a setup or a clear |
| `PinRuns.ForgottenForGood` | firmware/src/tropic/pin_md_kernel.c:284-339 | over any run, setups and clears included and cut anywhere, a secret that is bound no longer is never bound again |
| `PinRuns.ChangeIsAtomic` | firmware/src/tropic/pin_md_kernel.c:311-330 | a change begun with two attempts left, cut anywhere, followed by any number of cut settlements and reboots, leaves exactly the old or the new PIN live, with the same secret and an attempt left |
| `PinRuns.SettlingKeeps` | firmware/src/tropic/pin_md_kernel.c:148-155 | settlements and reboots alone keep the binding and its attempts |
| `PinRuns.AnyRun` | firmware/src/tropic/pin_md_kernel.c:148-339 | every sequence of real calls under every fault, setups and clears included, is such a run and touches only its own slots; without a clear the binding stays armed |
| `PinRuns.ChangeThenProbe` | firmware/src/tropic/pin_md_kernel.c:311-330 | after a change and settlements cut anywhere, a working key accepts a PIN if and only if it is the live one of the two (the new one if and only if the commit took), and yields the same k |
| `Layouts.SitesAreApart` | firmware/src/openpgp/pgp_pin.c:21-28 | the FIDO, PW1, PW3 and RC layouts share no record slot and no M&D slot |
| `Layouts.Isolated` | firmware/src/tropic/pin_md_kernel.c:35-50 | for disjoint layouts, whatever one PIN does in its own slots leaves every other PIN its record and its verdict for every guess |
| `Layouts.RunIsolated` | firmware/src/openpgp/pgp_pin.c:21-28 | after any run of calls on one PIN, setups and clears included, cut anywhere, every other PIN has its record, its attempts and its intact slots |
| `OpenPgpState.CardInvKept` | firmware/src/openpgp/openpgp_state.c:335-364 | an O3 write of an allowed state, cut anywhere, keeps the agreement between record, keys and PW1 binding |
| `OpenPgpState.PinStep` | firmware/src/openpgp/pgp_pin.c:21-28 | an operation on one PIN that keeps that PIN in order keeps the whole card in order and every other PIN as it was |
| `OpenPgpState.StateStep` | firmware/src/openpgp/openpgp_state.c:88-105 | a permitted O3 write, cut anywhere, keeps the card in order: OPERATIONAL only over working PINs, TERMINATED only over an empty card, a DEC key only sealed for the live PW1, the signature counter never behind |
| `OpenPgpState.SignStep` | firmware/src/openpgp/openpgp_applet.c:1053-1059 | a signature by the stored key keeps the card in order if both O3 copies had counted it before |
| `OpenPgpState.StateStore.Load` | firmware/src/openpgp/openpgp_state.c:113-129 | loaded only from a record with valid fields, and then the RAM copy is what both slots hold |
| `OpenPgpState.StateStore.Commit` | firmware/src/openpgp/openpgp_state.c:95-105 | refused unless OPERATIONAL; the RAM copy changes only after both slots hold the new state; without faults it succeeds |
| `OpenPgpState.StateStore.Clear` | firmware/src/openpgp/openpgp_state.c:141-147 | OK means both slots are empty; nothing is loaded either way |
| `OpenPgpState.StateStore.Init` | firmware/src/openpgp/openpgp_state.c:149-163 | only the two lifecycle states can be initialised; loaded if and only if acknowledged |
| `OpenPgpState.StateStore.Activate` | firmware/src/openpgp/openpgp_state.c:165-177 | only TERMINATED becomes OPERATIONAL, with defaults, in one pair write |
| `OpenPgpState.StateStore.DecDestroy` | firmware/src/openpgp/openpgp_state.c:350-364 | OK means no DEC key in either copy, and its fingerprint and time zeroed; without faults it succeeds |
| `OpenPgpCard.PgpCard.AuthDrop` | firmware/src/openpgp/openpgp_applet.c:552-556 | the KEK is gone as soon as neither PW1 flag is left |
| `OpenPgpCard.PgpCard.PinStatus` | firmware/src/openpgp/pgp_pin.c:56-84 | blocked, active or not set exactly as the record and the lifecycle say, with its attempts and length, or ERROR; never ERROR for a record in order while nothing fails |
| `OpenPgpCard.PgpCard.PinVerify` | firmware/src/openpgp/pgp_pin.c:92-109 | for each of the three PINs: accepted means the bound PIN was given, and k is that of its secret; a wrong PIN takes one attempt; a length error costs nothing |
| `OpenPgpCard.PgpCard.PinChange` | firmware/src/openpgp/pgp_pin.c:111-126 | PW1 or PW3 changed means the old PIN was the bound one and the new one is bound now; cut anywhere one of the two is live with the same secret; without faults it succeeds exactly for the old PIN |
| `OpenPgpCard.PgpCard.Bind` | firmware/src/openpgp/pgp_pin.c:128-135 | OK means the PIN is bound to a fresh secret with every attempt working; for PW1 only while no DEC key is stored; no other PIN changes |
| `OpenPgpCard.PgpCard.ResetPw1` | firmware/src/openpgp/pgp_pin.c:145-150 | called only without a DEC key; OK means the given PIN is bound; without faults it succeeds for every fit PIN |
| `OpenPgpCard.PgpCard.SetRc` | firmware/src/openpgp/pgp_pin.c:152-165 | OK means the RC is bound and its guard set, or both gone; the DEC key and lifecycle are untouched; without faults it succeeds exactly for a fit RC or none, whatever the old record was |
| `OpenPgpCard.PgpCard.BindFactory` | firmware/src/openpgp/pgp_pin.c:167-173 | factory PW1 and PW3 are bound, and work, only where ECC slots 29-31 are empty and neither O3 copy holds a DEC key |
| `OpenPgpCard.PgpCard.ClearAll` | firmware/src/openpgp/pgp_pin.c:175-182 | OK means no binding of the three is left; O3 is untouched |
| `OpenPgpCard.PgpCard.Wipe` | firmware/src/openpgp/pgp_lifecycle.c:13-22 | keys go first, then O3, then the PINs: O3 changes only without keys, PW1 only without keys and O3 |
| `OpenPgpCard.PgpCard.Boot` | firmware/src/openpgp/pgp_lifecycle.c:24-35 | a stored state is loaded as it is; only an absent one is bootstrapped, after a wipe; without faults a readable card and a blank one come up |
| `OpenPgpCard.PgpCard.Terminate` | firmware/src/openpgp/pgp_lifecycle.c:37-41 | OK means TERMINATED is recorded on a card without keys and without PINs |
| `OpenPgpCard.PgpCard.Activate` | firmware/src/openpgp/pgp_lifecycle.c:43-54 | OPERATIONAL afterwards means no keys, no DEC key, no RC and both factory PINs; without faults it succeeds |
| `OpenPgpCard.PgpCard.Ensure` | firmware/src/openpgp/pgp_lifecycle.c:62-67 | a loaded state is left alone, and after the allowed number of tries the chip is not touched again |
| `OpenPgpCard.PgpCard.TerminatedIsEmpty` | firmware/src/openpgp/openpgp_applet.c:1226-1241 | a card that says TERMINATED holds no keys and no DEC key in either copy |
| `OpenPgpCard.PgpCard.TryPin` | firmware/src/openpgp/openpgp_applet.c:618-645 | exactly the referenced access flag is granted on success and dropped on failure, and only for the bound PIN; without faults exactly for it |
| `OpenPgpCard.PgpCard.HandleVerify` | firmware/src/openpgp/openpgp_applet.c:618-645 | no other flag is ever granted, and each flag, admin access included, only for its bound PIN; without faults and with an attempt left exactly for it, and a blocked PIN is told so |
| `OpenPgpCard.PgpCard.HandleChange` | firmware/src/openpgp/openpgp_applet.c:647-668 | a changed PIN means the body was the bound PIN followed by the new one; cut anywhere the old or the new PIN is live under the same secret; O3 stays; the access of that PIN is dropped; without faults and with an attempt left it succeeds exactly for the bound PIN followed by a fit one |
| `OpenPgpCard.PgpCard.HandleReset` | firmware/src/openpgp/openpgp_applet.c:670-716 | OK means the body was the bound reset code and the new PIN, or the new PIN alone under a verified PW3; PW1 has a new secret only if no DEC key is left, cut anywhere; without faults it succeeds exactly for such a body with a fit new PIN |
| `OpenPgpCard.PgpCard.CheckRc` | firmware/src/openpgp/openpgp_applet.c:682-708 | passed means the body is the bound reset code followed by a fit new PIN; without faults and with an attempt left exactly that passes |
| `OpenPgpCard.PgpCard.GenerateDec` | firmware/src/openpgp/openpgp_applet.c:868-879 | a DEC key is stored only with PW3 and PW1 access, sealed for the live PW1 secret; without faults exactly then |
| `OpenPgpCard.PgpCard.SealAndStore` | firmware/src/openpgp/pgp_dec.c:108-128 | what O3 stores is sealed under the given KEK; cut anywhere the card invariant holds |
| `OpenPgpCard.PgpCard.GenerateEcc` | firmware/src/openpgp/openpgp_applet.c:831-912 | only the named slot changes, only with PW3 access, and OK means a key generated by this call; without faults it succeeds |
| `OpenPgpCard.PgpCard.PutRc` | firmware/src/openpgp/openpgp_applet.c:718-761 | a reset code is set or cleared only with PW3 access, as the body says; without faults exactly with that access, for a fit code or none |
| `OpenPgpCard.PgpCard.PutInfo` | firmware/src/openpgp/openpgp_applet.c:783-801 | fingerprint and time of the DEC key are stored only with PW3 access, nothing else changes; without faults exactly then |
| `OpenPgpCard.PgpCard.PsoDec` | firmware/src/openpgp/pgp_dec.c:140-158 | with access and touch, decryption succeeds if and only if a key is stored, and uses exactly that key |
| `OpenPgpCard.PgpCard.PsoCds` | firmware/src/openpgp/openpgp_applet.c:1034-1073 | no signature, not even one whose answer is lost, without PW1.81 access, the touch, and a counter advanced by one that both O3 copies hold; access is spent when DO C4 is 00; without faults a signature of the message exactly with these and a key |
| `OpenPgpCard.PgpCard.HandleTerminate` | firmware/src/openpgp/openpgp_applet.c:1075-1094 | without PW3 access it is refused, and nothing changes, as long as PW3 can be read and has an attempt left; without faults PW3 access suffices, and so does a blocked PW3; OK means an empty TERMINATED card |
| `OpenPgpCard.PgpCard.HandleActivate` | firmware/src/openpgp/openpgp_applet.c:1096-1111 | OK means OPERATIONAL; from TERMINATED with both factory PINs and no access left over |
| `OpenPgpCard.PgpCard.Dispatch` | firmware/src/openpgp/openpgp_applet.c:1180-1284 | by the APDU's own fields: outside OPERATIONAL only the listed commands succeed; an access flag is granted only by VERIFY of that reference with the bound PIN; a signature is made only by PSO:CDS with touch, message, PW1.81 access and a counter advanced by one, and spends that access when DO C4 is 00; a key slot changes only by GENERATE for that slot with PW3 access, or is emptied by TERMINATE; a PIN changes only by CHANGE with the bound one, by RESET with the reset code or PW3, or by a lifecycle command; the O3 record changes only where its command says; what OK means, and without faults when an OPERATIONAL card answers it |
| `OpenPgpRuns.AnyRun` | firmware/src/openpgp/openpgp_applet.c:1180-1284 | over any commands, faults and power cycles each command moves access, keys, PINs, signatures and O3 only as it may; a stored DEC key belongs to the live PW1, an OPERATIONAL record to working PW1 and PW3, a TERMINATED record to a card without keys, and the signature counter shows no fewer signatures than the key made until it goes back to 0 |
| `OpenPgpRuns.AccessWasVerified` | firmware/src/openpgp/openpgp_applet.c:552-645 | over any run, access that the card has and did not begin with goes back to a successful VERIFY with the PIN bound then, and was held ever since |
| `OpenPgpRuns.CounterGoesBack` | firmware/src/openpgp/openpgp_state.c:321-333 | at the last value of the counter the next signature makes it show 0 while the key has made 2^24 |
| `OpenPgpRuns.ChangeThenDecrypt` | firmware/src/openpgp/openpgp_applet.c:647-668 | after a CHANGE cut anywhere, a key that works again accepts exactly the live one of the two PINs, and then decrypts with the key stored before |
| `OpenPgpRuns.NewCard` | firmware/src/openpgp/pgp_lifecycle.c:24-35 | a blank chip is in a state the invariant allows |
| `FidoStore.FewerIsFine` | firmware/src/fido_hid/slots.c:203-213 | losing credentials never breaks key ownership, account uniqueness or creation order |
| `FidoStore.PublishStep` | firmware/src/fido_hid/slots.c:278-341 | the O1 commit of a new credential publishes it under the key generated for it and retires the replaced ones in one step, and keeps keys and accounts in order |
| `FidoStore.TornExact` | firmware/src/fido_hid/slots.c:113-149 | after an acknowledged metadata write and the O1 commit the new credential resolves if and only if that write was not torn; otherwise only the replaced ones are gone |
| `FidoStore.TornLosesAccount` | firmware/src/fido_hid/slots.c:113-149 | such a torn write, by example: the account's only credential is gone and nothing has come |
| `FidoStore.Unlisted` | firmware/src/fido_hid/slots.c:381-403 | taking a slot out of the bitmap removes that credential and no other |
| `FidoStore.Store.WriteGlobal` | firmware/src/fido_hid/slots.c:100-110 | RAM follows O1 only after both copies hold it; cut anywhere: the old state or the new one |
| `FidoStore.Store.ReadCred` | firmware/src/fido_hid/slots.c:153-198 | a credential is reported exactly as its slot holds it, absence only when the slot holds none |
| `FidoStore.Store.OrphanScrub` | firmware/src/fido_hid/slots.c:203-213 | exactly the slots that read empty leave the bitmap, a slot with bad content or a read error does not |
| `FidoStore.Store.SlotsInit` | firmware/src/fido_hid/slots.c:217-247 | boot never changes which credentials resolve nor the PIN guard; an O1 record with a slot, Force-UV or guard value out of range is refused; without faults it succeeds |
| `FidoStore.Store.SlotsInitFresh` | firmware/src/fido_hid/slots.c:249-263 | O1 is the old object, none, or the fresh one, whatever is cut |
| `FidoStore.Store.WipeMeta` | firmware/src/fido_hid/slots.c:265-276 | OK means no readable metadata is left; cut anywhere each slot is as before or unreadable |
| `FidoStore.Store.WriteCred` | firmware/src/fido_hid/slots.c:113-149 | only that slot changes; acknowledged, it reads back as the new metadata or not at all, and not at all only after a torn call that claimed success |
| `FidoStore.Store.FirstFree` | firmware/src/fido_hid/slots.c:278-341 | the first slot not in the bitmap |
| `FidoStore.Store.PinState` | firmware/src/fido_hid/pin_md.c:21-38 | NOT_SET only without a binding and without a guard; the attempts reported are those of the live binding; without faults exact |
| `FidoStore.Store.PinSet` | firmware/src/fido_hid/pin_md.c:40-45 | OK means that there was no PIN and now this one is bound under a fresh secret, with guard and Force-UV set; an existing PIN stays as it is, whatever fails; the credentials are untouched; without faults a first PIN is set |
| `FidoStore.Store.PinChange` | firmware/src/fido_hid/pin_md.c:58-64 | the PIN changes only when the bound one was given, to the new one under the same secret; cut anywhere it is one of the two; without faults and with an attempt left exactly the bound PIN succeeds |
| `FidoStore.Store.PinBoot` | firmware/src/fido_hid/pin_md.c:79-89 | OK means guard and binding agree; the PIN stays bound and armed |
| `FidoStore.Store.PinClear` | firmware/src/fido_hid/pin_md.c:71-77 | OK means no binding, with both ranges retired, even when the pair was uncertain |
| `FidoStore.Store.EraseKeys` | firmware/src/fido_hid/fido_state.c:12-24 | key slots only ever become empty; OK means all FIDO keys are gone |
| `FidoStore.Store.Wipe` | firmware/src/fido_hid/fido_state.c:12-24 | O1 with its PIN guard stays as it was until keys and metadata are gone; the counter restarts only after every other step; OK means a clean store |
| `FidoStore.Store.Boot` | firmware/src/fido_hid/fido_state.c:26-39 | OK means guard and binding agree and the counter exists; with O1 there nothing is wiped and the PIN stays; without faults a blank chip and one with O1, its PIN and a counter boot |
| `FidoStore.Store.Init` | firmware/src/fido_hid/credstore.c:54-66 | ready if and only if the boot rules were gone through; done at most once until it succeeds |
| `FidoStore.Store.FactoryReset` | firmware/src/fido_hid/credstore.c:283-296 | ready if and only if the whole wipe got through, and then nothing is left |
| `FidoStore.Store.Alloc` | firmware/src/fido_hid/slots.c:278-341 | published in the first free slot under the key that the caller generated there, or the old credentials; cut anywhere one of the two, and complete unless a torn call claimed success |
| `FidoStore.Store.Publish` | firmware/src/fido_hid/slots.c:320-334 | one write lists the new credential and delists the replaced ones, or nothing happened |
| `FidoStore.Store.FreshKey` | firmware/src/fido_hid/credstore.c:70-147 | only that key slot changes; OK means it holds a key generated by this call |
| `FidoStore.Store.Make` | firmware/src/fido_hid/credstore.c:70-147 | cut anywhere, and also when it reports failure: the old credentials, or those minus the replaced ones plus the new one under a key drawn in this call; no key of a listed credential is touched; without faults it succeeds while a slot is free |
| `FidoStore.Store.EraseSlot` | firmware/src/fido_hid/credstore.c:161-182 | the key goes before the credential stops resolving, and no other credential or key changes; without faults key, bit and metadata are gone |
| `FidoStore.Store.Lookup` | firmware/src/fido_hid/slots.c:343-379 | an ID resolves only to its own slot, version and nonce; without faults if and only if the credential is live |
| `FidoStore.Store.Find` | firmware/src/fido_hid/credstore.c:206-225 | and only for the RP it was made for |
| `FidoStore.Store.Scan` | firmware/src/fido_hid/ctap2_creds.c:205-226 | the creation number is 1 if nothing resolves and otherwise one more than that of a live credential, and above every live one; the replaced slots are exactly the resident credentials of the same account; without faults it succeeds unless a live number is 2^32 - 1 |
| `FidoStore.NextNumber` | firmware/src/fido_hid/ctap2_creds.c:205-226 | numbers of at most n give a next one of at most n + 1, and it is 1 if and only if nothing resolves |
| `FidoStore.Store.MakeCredential` | firmware/src/fido_hid/ctap2_creds.c:273-329 | cut anywhere: the old credentials, or those minus exactly the account's plus one whose number is one more than the highest live one (1 in an empty store), under a key drawn in this call; without faults it succeeds while a slot is free and every listed slot resolves, and of the replaced ones neither key nor metadata is left |
| `FidoStore.Store.DropReplaced` | firmware/src/fido_hid/ctap2_creds.c:321-326 | only keys of replaced credentials are erased, nothing that resolves changes, and without faults neither key nor metadata of a replaced one is left |
| `FidoRuns.AnyRun` | firmware/src/fido_hid/credstore.c:70-182 | over any run at most one resident credential exists per account, live creation numbers are distinct and never exceed the number of registrations tried, and a resolving credential whose key is present has the key generated for it, which belongs to no other |
| `FidoRuns.RegisterAfter` | firmware/src/fido_hid/ctap2_creds.c:205-329 | after any run from an empty store with fewer than 2^32 - 1 registrations a further one succeeds without faults while a slot is free, with no bound on the numbers assumed |
| `FidoRuns.InterruptedResets` | firmware/src/fido_hid/fido_state.c:12-39 | any number of cut resets and boots only removes credentials and keeps the store guarded |
| `FidoRuns.NoPinMeansNothingLeft` | firmware/src/fido_hid/fido_state.c:12-39 | after any number of cut resets and boots, a boot that succeeds and finds no PIN finds no FIDO key and no readable metadata |
| `FidoRuns.InsertKeeps` | firmware/src/fido_hid/ctap2_creds.c:387-407 | one insertion keeps the list ordered, without repeats and complete so far |
| `FidoRuns.Assertions.Insert` | firmware/src/fido_hid/ctap2_creds.c:396-405 | in-place insertion behind every credential that is not older |
| `FidoRuns.Assertions.Discover` | firmware/src/fido_hid/ctap2_creds.c:387-407 | the RP's discoverable credentials, newest first, each once; all of them when the chip answers |
| `FidoRuns.Assertions.GetAssertion` | firmware/src/fido_hid/ctap2_creds.c:470-513 | answers with the newest and opens the walk only if there is more than one |
| `FidoRuns.Assertions.GetNextAssertion` | firmware/src/fido_hid/ctap2_creds.c:515-526 | the next slot of the list, never one twice; nothing after the end or a timeout |
| `FidoRuns.Assertions.Walk` | firmware/src/fido_hid/ctap2_creds.c:470-526 | GetAssertion and GetNextAssertion together answer for every discoverable credential of the RP exactly once, in strictly decreasing creation order |
| `FidoRuns.NoTies` | firmware/src/fido_hid/ctap2_creds.c:387-407 | with distinct creation numbers newest first is strict |
| `PinTokens.GrantsAreOffered` | firmware/src/fido_hid/pin.c:530-548 | no permission beyond those offered and asked for is ever granted, for any 64-bit request |
| `PinTokens.GrantsExact` | firmware/src/fido_hid/pin.c:530-548 | a request without permissions is granted makeCredential and getAssertion, one with permissions exactly the offered ones it asks for, and it is denied for the stated reason if and only if it names none or one that is not offered |
| `PinTokens.PermitsExact` | firmware/src/fido_hid/pin_token.c:103-106 | a permission is there if and only if it is not empty and none of its bits is missing |
| `PinTokens.Token.Reset` | firmware/src/fido_hid/pin_token.c:33-44 | nothing of a token is left and the generation moves on |
| `PinTokens.Token.Begin` | firmware/src/fido_hid/pin_token.c:46-60 | one fresh token with known permissions only, user verified, not yet used |
| `PinTokens.Token.ExpiredExact` | firmware/src/fido_hid/pin_token.c:62-70 | for any age below 2^32 ms, whenever it was issued: a token in use has expired if and only if it is older than ten minutes, or than 30 seconds and was never used |
| `PinTokens.Token.Verify` | firmware/src/fido_hid/pin_token.c:63-86 | accepted if and only if a token is in use, in time, and the parameter was made with it over this very message |
| `PinTokens.Token.Check` | firmware/src/fido_hid/ctap2_creds.c:144-155 | accepted if and only if the token in use made the parameter over this message in time, still carries userVerified and the permission, and is bound to this RP or to none; only then the RP is bound |
| `PinTokens.Token.BindRp` | firmware/src/fido_hid/pin_token.c:125-130 | an RP once bound is never replaced |
| `PinTokens.Token.Consume` | firmware/src/fido_hid/pin_token.c:132-137 | afterwards the token verifies no user and permits nothing |
| `PinTokens.ClientPin.VerifyPin` | firmware/src/fido_hid/pin.c:552-572 | a binding counts as verified only when its PIN was given; every wrong verdict adds one to the count and a right one ends it; without faults a right PIN is always told from a wrong one |
| `PinTokens.ClientPin.Mismatch` | firmware/src/fido_hid/pin.c:391-402 | after a counted wrong verdict the code's own count is the true one again and the door closes at the third; without faults the answer follows from what is left: PIN_BLOCKED with no attempt left, else PIN_AUTH_BLOCKED at the third wrong PIN in a row, else PIN_INVALID |
| `PinTokens.ClientPin.SetPin` | firmware/src/fido_hid/pin.c:406-454 | success means there was no PIN and the new one is bound, no token is in use and the count starts again; an existing PIN stays as it is, and while it can be read the answer is then PIN_AUTH_INVALID; without faults a first PIN that is fit is set |
| `PinTokens.ClientPin.ChangePin` | firmware/src/fido_hid/pin.c:461-527 | success means the old PIN was bound and the new one is now; whatever fails, the PIN is the one before, or the new one under the same secret after the live one was given; no token survives an attempt; behind a closed door no attempt is spent; without faults exactly the live PIN succeeds and a wrong one gets the answer its attempts and count demand |
| `PinTokens.ClientPin.GetToken` | firmware/src/fido_hid/pin.c:530-645 | a token only after the live PIN was given, fresh and with the permissions granted, and no other answer leaves a new one; the PIN itself stays; a request that is denied costs no attempt; behind a closed door no attempt is spent; without faults exactly the live PIN succeeds and a wrong one gets the answer its attempts and count demand |
| `PinTokens.ClientPin.Issue` | firmware/src/fido_hid/pin.c:574-609 | only for a verified binding: a token that carries it, or none at all |
| `PinTokens.ClientPin.FactoryReset` | firmware/src/fido_hid/ctap2.c:229-236 | the token goes in any case; unless the wipe got through no PIN command is served afterwards and the count of wrong PINs stands |
| `PinTokens.ClientPin.Boot` | firmware/src/main.c:200-232 | after power-on the PIN is the one before, no token is in use, and commands are served only if the store was validated |
| `PinTokens.ClientPin.GetRetries` | firmware/src/fido_hid/pin.c:251-277 | the attempts of the live binding, all of them only when no PIN is set, nothing for a state that cannot be read |
| `PinTokens.ClientPin.Serve` | firmware/src/fido_hid/ctap2.c:180-185 | no PIN command is served, and no attempt spent, unless the store is ready; by the command's own fields: what each success means, that only setPin without a PIN, changePin with the live one and a reset move the PIN, that a new token comes only from a successful token request, and without faults when each succeeds |
| `PinTokens.ClientPin.AnyRun` | firmware/src/fido_hid/pin.c:391-645 | in every state between commands a token in use was issued for the binding now live after that was verified; over the whole run every answer agrees with the count of wrong verdicts, which never passes three, and every command moves the PIN only as it may, resets that stop part-way included |
| `PinTokens.OnlyChangeMoves` | firmware/src/fido_hid/pin.c:406-527 | over any run without a reset a PIN that is set stays set under the same secret, and is another one later only if a changePin was given the live one |
| `PinTokens.TwoInvalids` | firmware/src/fido_hid/pin.c:391-402 | between answers that may follow a right PIN, and without a reset or boot, PIN_INVALID is answered at most twice |
| `BigEndian.ShiftsOut8` | firmware/src/fido_hid/cbor.c:78-84 | the shifted bytes are the big-endian digits |
| `Cbor.Writer.PutBytes` | firmware/src/fido_hid/cbor.c:47-54 | all of it, or the sticky error and nothing lost of what was written |
| `Cbor.Writer.PutHead` | firmware/src/fido_hid/cbor.c:57-86 | the shortest head for the value, or the sticky error |
| `Cbor.Writer.WriteNegint` | firmware/src/fido_hid/cbor.c:93-99 | -1 - n is encoded for n < 0 and anything else is an error |
| `Cbor.Writer.WriteRun` | firmware/src/fido_hid/cbor.c:101-112 | head and bytes, or the sticky error |
| `Cbor.Writer.WriteBool` | firmware/src/fido_hid/cbor.c:124-129 | false and true as simple values 20 and 21 |
| `Cbor.Reader.Head` | firmware/src/fido_hid/cbor.c:153-200 | exactly the head that the bytes spell, reserved and over-large arguments refused; a failure raises the sticky error |
| `Cbor.Reader.Typed` | firmware/src/fido_hid/cbor.c:202-208 | a head of the wanted type or the sticky error |
| `Cbor.Reader.Run` | firmware/src/fido_hid/cbor.c:210-232 | the bytes behind a string head, inside the buffer, or the sticky error |
| `Cbor.Reader.SkipItem` | firmware/src/fido_hid/cbor.c:258-297 | moves exactly past the item that Skip describes |
| `Cbor.Reader.ValidateItem` | firmware/src/fido_hid/cbor.c:300-331 | accepts and moves exactly as Validate describes |
| `Cbor.Validated` | firmware/src/fido_hid/cbor.c:333-339 | one well-formed item and not a byte more |
| `CborLaws.ValidateExact` | firmware/src/fido_hid/cbor.c:300-331 | on every input: accepted if and only if the bytes decode to a tree of at most four nested containers, and the end is the same |
| `CborLaws.SkipExact` | firmware/src/fido_hid/cbor.c:258-292 | on every input: skipped if and only if the bytes decode to a tree of at most sixteen levels, and the end is the same |
| `CborLaws.ValidatedSkips` | firmware/src/fido_hid/cbor.c:254-331 | whatever validation accepted, skip consumes, and exactly that |
| `CborLaws.ValidatedSkipsInside` | firmware/src/fido_hid/cbor.c:254-331 | the same inside a validated container: after any number of its items skip stands where validation does |
| `CborLaws.WriteTree` | firmware/src/fido_hid/cbor.c:57-135 | the writer calls for a tree produce its encoding, or the error flag if and only if it does not fit |
| `CborLaws.HeadExact` | firmware/src/fido_hid/cbor.c:153-200 | on every input: a head is read if and only if the bytes are one of the five forms of a head for that type and value (section 3 of RFC 8949); reserved, cut off and over-large ones are none |
| `CborLaws.DecodeExact` | firmware/src/fido_hid/cbor.c:153-252 | on every input: a tree is decoded, ending there, if and only if the bytes up to there are an item with that meaning; tags and indefinite lengths have none |
| `CborLaws.HeadRoundTrip` | firmware/src/fido_hid/cbor.c:57-200 | a written head reads back, exactly when its value is at most SIZE_MAX |
| `CborLaws.RoundTrip` | firmware/src/fido_hid/cbor.c:57-252 | a written tree decodes back to itself if and only if its integers are at most SIZE_MAX |
| `CborLaws.WrittenValidates` | firmware/src/fido_hid/cbor.c:300-339 | a written tree passes validation if and only if at most four containers nest |
| `CborLaws.ShortestHead` | firmware/src/fido_hid/cbor.c:57-86 | no bytes that read as the same head are fewer |
| `CborLaws.ShortestEncoding` | firmware/src/fido_hid/cbor.c:57-135 | no bytes that decode to the same tree are fewer than the written ones |
| `CredList.SkipIsLocal` | firmware/src/fido_hid/cbor.c:258-297 | skip depends only on the bytes it consumes |
| `CredList.EntriesAreLocal` | firmware/src/fido_hid/ctap2_parse.c:208-232 | so does a descriptor's entry list |
| `CredList.DescriptorsAreLocal` | firmware/src/fido_hid/ctap2_parse.c:234-249 | and a run of descriptors |
| `CredList.ListReplays` | firmware/src/fido_hid/ctap2_parse.c:234-249 | parsing just the bytes an accepted list consumed gives the same list, to the last byte |
| `CredList.DescriptorMeans` | firmware/src/fido_hid/ctap2_parse.c:208-232 | on every input: a descriptor is accepted if and only if the bytes decode to a map with text keys, within the skip limit, in which "id" occurs and is always bytes and "type" occurs and is always text; the last "id" is its id, and it counts if and only if the last "type" is "public-key" |
| `CredList.ListMeans` | firmware/src/fido_hid/ctap2_parse.c:234-249 | on every input: a list is accepted if and only if it decodes to an array of such descriptors, and its ids are those of the tree, in order |
| `CredList.ReadDescriptor` | firmware/src/fido_hid/ctap2_parse.c:208-232 | accepted if and only if the decoded tree is a descriptor, with its id and type, a repeated key counting with its last value; a well-formed tree that is none is UNEXPECTED_TYPE |
| `CredList.ReadCredList` | firmware/src/fido_hid/ctap2_parse.c:234-249 | accepted if and only if the decoded tree is an array of descriptors, and what is kept are the bytes consumed |
| `CredList.Walk.Next` | firmware/src/fido_hid/ctap2_parse.c:391-403 | the next "public-key" id of a list that parses; the branch for one that does not is never reached |
| `CredList.ParseThenWalk` | firmware/src/fido_hid/ctap2_parse.c:234-403 | parse, keep the sub-buffer, walk it: accepted if and only if the bytes decode to an array of descriptors, and the ids walked are those of its "public-key" ones, every one once and in order |
| `Der.LeadingZeros` | firmware/src/fido_hid/cose.c:46-48 | dropping leading zero bytes keeps the number |
| `Der.MinimalIsUnique` | firmware/src/fido_hid/cose.c:42-55 | a number has one minimal non-negative DER content |
| `Der.WriteInteger` | firmware/src/fido_hid/cose.c:44-55 | the minimal non-negative INTEGER of the 32-byte number, at most 35 bytes |
| `Der.EncodeSignature` | firmware/src/fido_hid/cose.c:57-68 | 8 to 72 bytes that decode to exactly r and s; the scratch body never overflows; -1 only for a buffer below 72 bytes |
| `Der.SignatureIsUnique` | firmware/src/fido_hid/cose.c:57-68 | two byte strings that decode to the same r and s are the same |
| `CtapFrames.IngestKeeps` | firmware/src/fido_hid/ctaphid.c:463-591 | between packets an assembly is short of its total, its sequence number never wraps, and none starts while a request is busy |
| `CtapFrames.FragmentsReassemble` | firmware/src/fido_hid/ctaphid.c:240-287 | any payload of up to 2048 bytes cut by the INIT/CONT rules is put together byte for byte |
| `CtapFrames.RequestArrives` | firmware/src/fido_hid/ctaphid.c:463-591 | a request cut into packets is accepted once and byte for byte, whatever packets of other channels come in between |
| `CtapLog.TookKeeps` | firmware/src/fido_hid/ctaphid.c:171-175 | a packet that may go keeps the history sound |
| `CtapLog.TookDelivers` | firmware/src/fido_hid/ctaphid.c:171-204 | one-packet answers and KEEPALIVEs do not disturb any answer |
| `CtapLog.LeftBehind` | firmware/src/fido_hid/ctaphid.c:335-361 | once the host has left a request nothing about it is owed |
| `CtapState.RunsFor` | firmware/src/fido_hid/ctaphid.c:425-441 | while a request waits or runs no assembly is active and its bytes are the accepted ones |
| `CtapState.ReplyAdvances` | firmware/src/fido_hid/ctaphid.c:240-287 | one emitted packet moves the answer on by exactly that packet |
| `CtapState.AnswersArrive` | firmware/src/fido_hid/ctaphid.c:240-287 | an answer that is not pending and was not left reassembles on the wire to exactly what was answered, under any pattern of busy or refused pushes |
| `CtapState.PacketPumped` | firmware/src/fido_hid/ctaphid.c:712-745 | a packet taken while a request runs leaves the request, its bytes and the response buffer alone |
| `CtapState.Started` | firmware/src/fido_hid/ctaphid.c:669-690 | handing the waiting request to a handler, or dropping it, fixes its fate once |
| `CtapState.Finished` | firmware/src/fido_hid/ctaphid.c:689-700 | letting go of a request discards a stale answer and keeps the rest |
| `CtapHid.Hid.FlushPending` | firmware/src/fido_hid/ctaphid.c:179-189 | the short slot first, a held resync answer only after its request is over |
| `CtapHid.Hid.SendNow` | firmware/src/fido_hid/ctaphid.c:193-204 | the answer goes out last, or is held, or the slot was full |
| `CtapHid.Hid.ReplyShort` | firmware/src/fido_hid/ctaphid.c:221-232 | answers never touch buffers that a request or a response owns, and a channel its host left gets none |
| `CtapHid.Hid.QueueAnswer` | firmware/src/fido_hid/ctaphid.c:206-217 | the running request's answer takes the buffer, none of it out yet |
| `CtapHid.Hid.AllocChannel` | firmware/src/fido_hid/ctaphid.c:291-300 | channel ids count up, skip 0 and the broadcast id, and start again at 1 |
| `CtapHid.Hid.Supersede` | firmware/src/fido_hid/ctaphid.c:335-346 | a newer INIT displaces only a held answer of its own channel |
| `CtapHid.Hid.Abandon` | firmware/src/fido_hid/ctaphid.c:348-358 | the busy request is left, its touch wait cancelled only if it runs, its INIT answer held |
| `CtapHid.Hid.HandleInit` | firmware/src/fido_hid/ctaphid.c:304-365 | refused by length, or a new channel, or a resync that touches only its own channel; the nonce is answered with the channel |
| `CtapHid.Hid.CompleteRequest` | firmware/src/fido_hid/ctaphid.c:425-441 | accepted with the bytes assembled, or refused during a touch wait; the branch for a busy device is never reached |
| `CtapHid.Hid.HandleContPacket` | firmware/src/fido_hid/ctaphid.c:563-591 | the assembly becomes exactly what the packet rules say |
| `CtapHid.Hid.HandleInitPacket` | firmware/src/fido_hid/ctaphid.c:463-561 | the same for INIT, CANCEL and first packets, each refusal with its error code |
| `CtapHid.Hid.HandlePacket` | firmware/src/fido_hid/ctaphid.c:752-769 | any report: the assembly and the accepted request are exactly those of the packet rules, a busy request is left in peace, and only INIT or CANCEL of its own channel cancels or abandons it |
| `CtapHid.Hid.PumpUsb` | firmware/src/fido_hid/ctaphid.c:712-725 | any packets delivered inside a running request leave its bytes and scratch buffer alone |
| `CtapHid.Hid.KeepAliveIfDue` | firmware/src/fido_hid/ctaphid.c:726-743 | sent on the busy channel with the status of the touch wait, if and only if the status changed or 50 ms have passed and USB takes it, 32-bit ticks wrapping |
| `CtapHid.Hid.Progress` | firmware/src/fido_hid/ctaphid.c:712-745 | re-entered or idle it does nothing; else it only pumps, flushes and keeps alive, and a KEEPALIVE that is due is the last thing sent when USB takes packets and the host has not left |
| `CtapHid.Hid.HandleCbor` | firmware/src/fido_hid/ctaphid.c:383-400 | only for a request that was not handed to a handler before; the dispatcher's answer is queued unless the host left meanwhile, whatever packets came at its progress points |
| `CtapHid.Hid.Dispatch` | firmware/src/fido_hid/ctaphid.c:443-459 | only for a request that was not handed to a handler before, and exactly once then: PING echoes, MSG is refused, CBOR is answered, anything else is told ERR_INVALID_CMD; an INIT is never dispatched |
| `CtapHid.Hid.RunRequest` | firmware/src/fido_hid/ctaphid.c:669-700 | the waiting request is handed to its handler exactly once, with the bytes it was accepted with, or dropped if its host had left |
| `CtapHid.Hid.EmitPacket` | firmware/src/fido_hid/ctaphid.c:240-287 | the next packet of the answer, or nothing changed when USB is busy or refuses |
| `CtapHid.Hid.EmitAll` | firmware/src/fido_hid/ctaphid.c:703-705 | the drain loop ends, with the response all out when USB takes every packet |
| `CtapHid.Hid.Task` | firmware/src/fido_hid/ctaphid.c:669-710 | runs a waiting request only when the previous answer is out, then sends; with USB taking every packet nothing stays unsent, except when the device is stuck: an abandoned request behind a pending answer |
| `CtapState.OnlyInitHelps` | firmware/src/fido_hid/ctaphid.c:304-365 | a stuck device stays so, answer untouched, under every packet but an INIT on the channel of the pending answer when that is not the abandoned one |
| `CtapHid.Hid.SendAll` | firmware/src/fido_hid/ctaphid.c:702-706 | no packet of an answer overtakes a held one-packet answer |
| `CtapHid.Hid.StaysStuck` | firmware/src/fido_hid/ctaphid.c:669-710 | a stuck device sends nothing but INIT and ERROR answers, for any packets, touch waits and rounds without such an INIT |
| `CtapHid.Hid.HeldForEver` | firmware/src/fido_hid/ctaphid.c:304-710 | three packets on one channel before the next round make the device stuck for good, even when USB takes every packet |
| `CtapHid.Hid.AnyRun` | firmware/src/fido_hid/ctaphid.c:669-769 | over any packets, touch waits and rounds of the main loop: each accepted request but the waiting one was handed to its handler once or dropped, every answer went out whole and in order or is still owed, and after its host left neither an answer nor a KEEPALIVE about a request goes out |

## Left out

- Cryptography itself, constant-time comparison and zeroing: free constructors stand for HMAC, AES-GCM, X25519, P-256 and SHA-256; a SHA-256 PIN material is the PIN.
- Record and payload byte layouts: a record is a value, and a torn one is a value that fails its checksum; the 32-bit generation is explicit.
- Arbitrary multi-slot corruption at rest: at most one copy of a record pair is damaged at a time, and only while both agree.
- Session handling of the secure element, SPI, USB descriptors, LED, button debouncing and the clock: calls that fail, packets that arrive, a touch that is given or not, and tick values are parameters.
- OpenPgpCard.PgpCard.Dispatch: touch policy, data objects other than the reset code and what belongs to the DEC key, and chained APDUs are not modelled.
- OpenPgpCard.PgpCard.HandleVerify: the attempts that the status 63CX counts down are not part of the status here; that a wrong PIN takes one is stated at `OpenPgpCard.PgpCard.PinVerify`.
- OpenPgpCard.PgpCard.HandleTerminate: when a chip call fails, a PW3 that could not be read is as good as an unreadable one, in the source as here.
- OpenPgpCard.PgpCard.PsoCds: a message longer than the chip signs and an answer buffer that is too short are not modelled.
- RecPairs.RecPair.Read: a payload longer than the caller's buffer, which is an error there (firmware/src/tropic/rec_pair.c:139), does not occur, as every caller's buffer takes its whole record.
- FidoStore.Store.MakeCredential: the excludeList, the authenticator data, attestation and the initialisation on demand inside credstore calls (not reached behind the readiness gate) are not modelled; credential IDs are slot, version and nonce, compared as wholes.
- FidoRuns.Assertions.GetAssertion: the signature, the signature counter and the allowList branch are not modelled; whether signing succeeds is a parameter.
- PinTokens.ClientPin.GetToken: request parsing, the ephemeral key pair and AES are parameters; timers are exact in 32-bit ticks but no absolute expiry is claimed.
- CredList.ParseThenWalk: of the request parsers only the credential list and its descriptors are modelled; the other members are one-branch readers.
- CtapHid.Hid.SendNow: a second one-packet answer that finds the slot full is dropped, as in the source; which answer was dropped is not recorded.
- CtapHid.Hid.HandleCbor: what the dispatcher computes is a parameter; it may write to the response buffer at every progress point.
- Debug-only remote procedure calls, firmware update, the Python tools and the CCID message layer are not part of this model.
