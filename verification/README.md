# A verified model of WarpTweet's signatures, data plane and grant lifecycle

This project models three parts of WarpTweet in Dafny 4.11 and proves what they promise.

**ML-DSA** (`internal/mldsa`, FIPS 204). Montgomery arithmetic modulo q = 8380417, the unrolled in-place
transforms, rounding and hints in multiply-and-shift form, bit packing, the hint codec, the samplers, key
generation, `signInternal` and `verifyInternal`. Every fast form is proved equal to a plain definition: the
integer modulo q, the value of a polynomial at a power of zeta, the negacyclic convolution, Decompose by
division, the concatenation of bit strings. The parts compose into `Signing.SignatureAccepted`: whatever
`signInternal` returns, `verifyInternal` accepts under the public key decoded from the signer's encoded key,
for every hash function, seed, message hash and number of rejected attempts. In the other direction
`Signing.VerifyIff` says exactly which strings are valid, and `Signing.SignIff` which signature is made. SHAKE is an arbitrary function
from a message and a position to a byte. The Go comments cite FIPS 203 for the transform; the definition
proved here is that of section 7.5 of FIPS 204.

**The SSH data plane** (`internal/dataplane`, RFC 4253 and RFC 4254). A connection is a state machine whose
steps are the sections under its mutex (module `Plane`). The serve loop and one forwarder per channel
interleave at those sections; any thread may write a packet at any time. `PlaneInvariant` proves what every
step keeps, `PlaneTheorems` states the results over all reachable states, `PlaneHistory` compares the state
with the steps of the run, and `Connection` is the object itself, each method one locked section. `Framing` holds the packet codecs, with the cipher streams and the
tag as arbitrary functions.

**The grant lifecycle** (`internal/enrollment`, `internal/grant`, `internal/grantsession`,
`internal/command/enroll_server.go`). Three durable stores: client records, invite records, the lines of
authorized_keys. Every operation is a plan, the list of states after each of its durable writes (module
`Grants`); a crash or a failed write leaves the state after a prefix of the plan. `Guards` and `Enrollment`
say when each operation succeeds and what it then changes. `GrantHost` is the host
object running the operations write by write against a budget of writes that still succeed; every method keeps
the invariant of `GrantRuns` at every cut, and states what its success means. `Limiter` is the
enrollment rate limiter over reals.

Five promises hold only under a condition. For each the condition is proved to be exact, and a run that
breaks the promise is given.

- A key and sequence number seal two frames exactly when a frame is sealed after a failed write under the
  same key (`PlaneTheorems.SequenceNumbers`, `PlaneTheorems.NumberReused`).
- Persisted status changes follow the transition table exactly when the operation is not an admitted
  revocation of a client in expiration_pending (`GrantRuns.TransitionsIff`, `GrantRuns.TransitionSkipped`).
- A consumed invite is answered for one client and one lease for ever; the key and token it is answered for
  are exactly those of the client's last completed rotation (`Enrollment.ConsumedAnswersOne`,
  `Enrollment.TokenReplaced`).
- A successful expiry or client revocation leaves the pending key of an interrupted rotation unauthorized
  exactly if that key has the old blob or was not in the file (`Removals.ExpireRemoves`,
  `Removals.ExpiryLeavesPending`). The next reconcile pass removes it (`Reconcile.ReconciledKeys`).
  Until then the key is admitted exactly if one other record has it as its own key, and that grant is live
  (`Sessions.LeftoverAdmittedIff`).
- A source keeps its token bucket exactly while fewer than maxSources other sources come between its
  requests (`Limiter.KeptIff`). Then it is allowed at most burst + rate·T requests in time T
  (`Limiter.RateBound`); each eviction allows up to a burst more (`Limiter.EvictionBound`,
  `Limiter.EvictionRefills`).

| files | content |
|---|---|
| `Field`, `FieldRing`, `Zetas`, `Poly`, `NttSpec`, `Ntt` | the field, the table of zetas, polynomials, the transforms |
| `Rounding`, `Hints`, `HintCodec`, `Bytes`, `Blocks`, `Packing`, `LittleEndian`, `Codec`, `SlowPack` | rounding, hints and encodings |
| `Sampling`, `Challenge`, `Vectors`, `Keys`, `Signing`, `Parameters` | samplers, linear algebra, keys, signatures |
| `Plane`, `PlaneInvariant`, `PlaneTheorems`, `PlaneHistory`, `Connection`, `Framing` | the data plane |
| `KeyLines`, `Grants`, `GrantRuns`, `Enrollment`, `Guards`, `Rotation`, `Removals`, `Sessions`, `Reconcile`, `GrantHost`, `Limiter` | the grant lifecycle |

## Model

| member | source | states |
|---|---|---|
| Field.AddExact | internal/mldsa/field.go:71-80 | the branch-free sum is the integer sum modulo q, for all reduced inputs |
| Field.SubExact | internal/mldsa/field.go:83-86 | the difference computed with a borrow is the integer difference modulo q |
| Field.MulExact | internal/mldsa/field.go:89-101 | the Montgomery product is reduced and equals a·b·R⁻¹ mod q, with no 64-bit overflow |
| Field.MulSubExact | internal/mldsa/field.go:103-107 | the fused form equals a·(b − c)·R⁻¹ mod q although b − c is shifted by q |
| Field.AddMulExact | internal/mldsa/field.go:110-114 | the fused sum of two products equals (a·b + c·d)·R⁻¹ mod q with one reduction and no overflow |
| FieldRing.ToFromMontgomery | internal/mldsa/field.go:31-53 | entering and leaving Montgomery form are inverse on all reduced values, and entering succeeds on them |
| FieldRing.FromMul | internal/mldsa/field.go:48-101 | the value of a Montgomery product is the product of the values modulo q |
| FieldRing.FromSubToMontgomery | internal/mldsa/field.go:41-46 | the value of fieldSubToMontgomery(a, b) is (a − b) mod q, negative differences included |
| Parameters.ParameterSetsSound | internal/mldsa/mldsa.go:31-33 | the program's three parameter sets meet the conditions that the theorems on encodings and signatures require |
| Zetas.ZetaIsPower | internal/mldsa/field.go:140-142 | entry k of the 256-entry table is ζ to the bit reversal of k, for every k |
| Zetas.ZetaOrder | internal/mldsa/field.go:140-142 | ζ^256 = −1 |
| NttSpec.NttDefinition | internal/mldsa/field.go:147-215 | coordinate i of the transform is f(ζ^(2·BitRev8(i)+1)), section 7.5 of FIPS 204 |
| NttSpec.InverseTransformOfTransform | internal/mldsa/field.go:147-288 | inverseNTT(ntt(f)) = f for every f |
| NttSpec.TransformOfInverseTransform | internal/mldsa/field.go:147-288 | ntt(inverseNTT(g)) = g for every g |
| NttSpec.TransformedProduct | internal/mldsa/field.go:147-297 | inverseNTT(nttMul(ntt(f), ntt(g))) is the product modulo X^256 + 1 |
| Poly.ProductIsConvolution | internal/mldsa/field.go:291-297 | that product's coefficients are the negacyclic convolution |
| NttCode.Ntt256 | internal/mldsa/field.go:147-215 | the in-place layers, unrolled for lengths 4, 2 and 1, compute the transform |
| NttCode.InverseNtt256 | internal/mldsa/field.go:218-288 | the layers with the zeta index counting down and the final scaling by 16382 compute the inverse transform |
| Rounding.Power2RoundExact | internal/mldsa/field.go:450-460 | r = r1·2^13 + r0 with r1 ≤ 1023 and −2^12 < r0 ≤ 2^12 |
| Rounding.Decompose32Exact | internal/mldsa/field.go:520-545 | multiply-and-shift high and low bits equal Decompose of section 7.4 of FIPS 204 for γ2 = (q−1)/32 |
| Rounding.Decompose88Exact | internal/mldsa/field.go:573-594 | the same for γ2 = (q−1)/88 |
| Hints.HighBitsExact | internal/mldsa/field.go:520-594 | the high and low parts are those of Decompose by division, both values of γ2 |
| Hints.UseHintExact | internal/mldsa/field.go:546-626 | a hint moves the high part one up or down by the sign of the low part, modulo the number of parts; no hint leaves it |
| Hints.MakeHintExact | internal/mldsa/field.go:501-626 | the hint is one exactly when adding ct0 changes the high part |
| Hints.HintRecovers | internal/mldsa/field.go:546-626 | useHint(w − cs2 + ct0, makeHint(ct0, w, cs2)) = highBits(w − cs2) whenever the norm of ct0 is below γ2 |
| Hints.SmallLowBits | internal/mldsa/mldsa.go:490-500 | low bits of w − cs2 below γ2 − β and norm of cs2 at most β give highBits(w − cs2) = highBits(w) |
| Hints.HintTheorem | internal/mldsa/mldsa.go:490-521 | the two together for ring elements, both values of γ2 |
| Hints.MakeHint | internal/mldsa/field.go:501-517 | the hints of a ring element, and the returned count is the number of ones |
| Hints.CoefficientsExceedBound | internal/mldsa/mldsa.go:569-579 | true exactly when some coefficient's infinity norm reaches the bound |
| Hints.LowBitsExceedBound | internal/mldsa/mldsa.go:581-601 | true exactly when some low part's absolute value reaches the bound |
| Packing.ChunkRoundTrip18 | internal/mldsa/field.go:649-734 | four 18-bit fields survive the nine shared bytes |
| Packing.ChunkRoundTrip20 | internal/mldsa/field.go:680-751 | two 20-bit fields survive the five shared bytes |
| Packing.ChunkRoundTrip10 | internal/mldsa/mldsa.go:251-288 | four 10-bit fields survive the five shared bytes of a public key |
| Packing.PackRoundTrip | internal/mldsa/field.go:633-751 | bitUnpack inverts bitPack on every polynomial with coefficients in [−2^γ1+1, 2^γ1] |
| Packing.PackCanonical | internal/mldsa/field.go:633-751 | every string of the right length unpacks to such a polynomial and is its packing |
| LittleEndian.PackPolyValue | internal/mldsa/field.go:633-695 | the packed bytes as one little-endian integer are the sum of the fields shifted by their widths, all five widths |
| LittleEndian.PackValue | internal/mldsa/field.go:633-695 | the same for bitPack: the fields are 2^γ1 minus the coefficients |
| Codec.BitPack | internal/mldsa/field.go:633-695 | the chunk loop appends the packing to the buffer |
| Codec.BitUnpack | internal/mldsa/field.go:700-751 | the chunk loop returns the unpacked polynomial |
| Codec.PkRoundTrip | internal/mldsa/mldsa.go:251-288 | pkDecode inverts pkEncode for every 32-byte seed and 10-bit vector |
| Codec.PkCanonical | internal/mldsa/mldsa.go:251-288 | pkDecode accepts exactly the strings of the right length, and pkEncode reproduces each |
| Codec.PkLayout | internal/mldsa/mldsa.go:251-269 | the seed comes first, then row i of t1 at its place, packed |
| Codec.PkEncode | internal/mldsa/mldsa.go:251-269 | the nested loops append the encoded key |
| Codec.PkDecode | internal/mldsa/mldsa.go:271-288 | the length error and the nested decoding loops |
| HintCodec.HintRoundTrip | internal/mldsa/mldsa.go:712-754 | hintDecode inverts hintEncode on every k binary rows with at most ω ones |
| HintCodec.HintCanonical | internal/mldsa/mldsa.go:712-754 | hintEncode reproduces every string that hintDecode accepts |
| HintCodec.HintLayout | internal/mldsa/mldsa.go:712-726 | row i lists the places of its ones in increasing order between the count before and the count after it, the latter is byte ω + i, and unused places are zero |
| HintCodec.HintEncode | internal/mldsa/mldsa.go:712-726 | the buffer after the loops: positions, zeros, running counts |
| HintCodec.HintDecode | internal/mldsa/mldsa.go:728-754 | all four outcomes: length, limits, order, extra indices, or the rows |
| Codec.SigRoundTrip | internal/mldsa/mldsa.go:686-710 | sigDecode inverts sigEncode on every packable response with at most ω hints |
| Codec.SigCanonical | internal/mldsa/mldsa.go:686-710 | sigEncode reproduces every signature that sigDecode accepts |
| Codec.SigLayout | internal/mldsa/mldsa.go:686-694 | the challenge hash comes first, then row i of the response at its place, then the hints |
| Codec.SigEncode | internal/mldsa/mldsa.go:686-694 | the loops append challenge hash, response and hints |
| Codec.SigDecode | internal/mldsa/mldsa.go:696-710 | the length error, the decoding loop and the hint errors |
| Codec.W1Injective | internal/mldsa/mldsa.go:540-567 | different in-range commitments are hashed as different strings |
| SlowPack.SlowRoundTrip | internal/mldsa/semiexpanded.go:184-245 | bitUnpackSlow inverts bitPackSlow for all bounds of 1 to 16 bits and all polynomials within them |
| SlowPack.SlowCanonical | internal/mldsa/semiexpanded.go:184-245 | bitPackSlow reproduces every string bitUnpackSlow accepts |
| SlowPack.BitPackSlow | internal/mldsa/semiexpanded.go:184-207 | the accumulator loop emits the concatenated little-endian fields cut into bytes, nothing lost in 32 bits |
| SlowPack.BitUnpackSlow | internal/mldsa/semiexpanded.go:209-245 | the accumulator loop reads the same fields back, with the length and range errors |
| SlowPack.MoreInput | internal/mldsa/semiexpanded.go:228-235 | the truncation error cannot occur after the length check |
| Sampling.FromThreeBytesExact | internal/mldsa/field.go:315-320 | a candidate is the 23-bit little-endian integer, kept iff it is below q |
| Sampling.SampleNtt | internal/mldsa/field.go:301-325 | reading through the 168-byte buffer yields the first 256 accepted triples of the stream |
| Sampling.SampleNttValues | internal/mldsa/field.go:301-325 | a ring element is drawn iff 256 of the triples are below q; its coefficients are the first 256 of these integers |
| Sampling.SampleBoundedPoly | internal/mldsa/field.go:330-365 | reading through the 136-byte buffer yields the first 256 accepted half bytes, whichever half ends the loop |
| Sampling.SampleBoundedValues | internal/mldsa/field.go:330-365 | a secret is drawn iff 256 half bytes are in range; its coefficients are the values of the first 256, low half first |
| Sampling.CoeffFromHalfByteExact | internal/mldsa/field.go:400-444 | the Barrett form gives 2 − (b mod 5) for b < 15, or 4 − b for b < 9, and rejects otherwise |
| Sampling.BoundedPolyNorm | internal/mldsa/field.go:330-365 | every sampled secret has coefficients in [−η, η] |
| Sampling.LimitIrrelevant | internal/mldsa/field.go:310-323 | a larger sampling limit never changes a sample |
| Challenge.SampleInBall | internal/mldsa/field.go:369-395 | the rounds, each skipping the bytes above its index and taking the sign of the next bit; the result is described by RoundLaw and BallSigns |
| Challenge.SignIsBit | internal/mldsa/field.go:369-395 | the sign of round n is the bit n of the first eight bytes as a little-endian integer: 1 for 0, −1 for 1 |
| Challenge.RoundLaw | internal/mldsa/field.go:379-394 | a round reads up to the first byte at most its index, moves the coefficient there to its index, puts the sign there and leaves the rest |
| Challenge.BallSigns | internal/mldsa/field.go:369-395 | the number of coefficients −1 is the number of ones among the first τ bits of the first eight bytes |
| Challenge.BallWeight | internal/mldsa/field.go:369-395 | exactly τ nonzero coefficients, each 1 or −1, for every stream |
| Challenge.ChallengeNorm | internal/mldsa/mldsa.go:404-408 | the product of a challenge with a polynomial in [−η, η] has infinity norm at most β = τη |
| Vectors.ApproxIs | internal/mldsa/mldsa.go:649-657 | verify's w′ is w − cs2 + ct0, row by row, for z = y + cs1 and a balanced key |
| Vectors.CommitmentInRing | internal/mldsa/mldsa.go:442-454 | row i of the commitment is the sum of the ring products of A[i] and the mask |
| Vectors.ApproxInRing | internal/mldsa/mldsa.go:649-657 | row i of verify's w′ is the sum of the ring products of A[i] and z, less the ring product of the challenge and t1·2^13 |
| Keys.NewPrivateKey | internal/mldsa/mldsa.go:160-219 | a key whose parts come from the seed and satisfy t1·2^13 + t0 = A·s1 + s2 with s2 short; it fails only if some sample is not drawn |
| Keys.PrivateKeyEquation | internal/mldsa/mldsa.go:186-216 | that equation for every key made from a seed |
| Keys.NewPublicKey | internal/mldsa/mldsa.go:304-320 | the key decoded from its bytes, and the length error exactly when the length is wrong |
| Keys.MatchingPublicKey | internal/mldsa/mldsa.go:210-216 | the public part of a private key is what newPublicKey makes of its bytes |
| Keys.PublicKeyUnique | internal/mldsa/mldsa.go:304-320 | encoded bytes determine the public key, whatever the sampling limits |
| Keys.SeedParts | internal/mldsa/mldsa.go:166-183 | the first 32 bytes of the public key, the secret seed and the signer's key are 128 consecutive bytes of one hash; A comes from the first, s1 and s2 from the second |
| Keys.MatrixEntryReads | internal/mldsa/mldsa.go:221-228 | entry (r, s) of A is sampled from the hash of the seed, s and r in this order |
| Keys.MatrixInputs | internal/mldsa/mldsa.go:221-228 | different entries are sampled from different strings |
| Keys.SecretPolyReads | internal/mldsa/field.go:330-365 | secret r is sampled from the hash of the secret seed and the two bytes of r |
| Keys.SecretInputs | internal/mldsa/mldsa.go:176-183 | different secrets are sampled from different strings |
| Keys.KeyHashReads | internal/mldsa/mldsa.go:230-236 | tr is the first 64 bytes of the hash of the encoded key |
| Signing.HintsRecover | internal/mldsa/mldsa.go:490-521 | a response that passes the four checks makes verify recover the signer's high bits |
| Signing.SignInternal | internal/mldsa/mldsa.go:400-532 | the rejection loop: the first attempt that passes all four checks, encoded; SignIff says which signature that is |
| Signing.RespondIff | internal/mldsa/mldsa.go:466-521 | for a mask, a commitment and a challenge, with z, cs2 and ct0 as ring sums and products: success iff z, the low bits of w − cs2, ct0 and the number of hints are within their bounds, and then with this z and these hints |
| Signing.AttemptIff | internal/mldsa/mldsa.go:427-521 | the same for a whole attempt: the masks unpack the hashes of nonce and counter, the commitment is a sum of ring products, its hash with mu gives the challenge |
| Signing.SignIff | internal/mldsa/mldsa.go:400-532 | the signature is the encoding of the first attempt that succeeds, after attempts that were all rejected, and there is none otherwise |
| Signing.ChallengeInputs | internal/mldsa/mldsa.go:456-462 | different message hashes of one length or different commitments are hashed as different strings |
| Signing.MaskInputs | internal/mldsa/mldsa.go:427-440 | different counters below 2^16 give different strings |
| Signing.MasksDistinct | internal/mldsa/mldsa.go:427-440 | no two rows of the masks of any two attempts hash the same string while the counter fits two bytes |
| Signing.NonceReads | internal/mldsa/mldsa.go:410-415 | the nonce is the first 64 bytes of the hash of key, randomness and mu; different ones are hashed as different strings |
| Signing.VerifyInternal | internal/mldsa/mldsa.go:627-684 | the verdict: encoding errors, bounds, challenge comparison; valid exactly if the signature is an encoding that certifies the message |
| Signing.VerifyIff | internal/mldsa/mldsa.go:627-684 | a signature is valid iff it decodes to ch, z, h with every coefficient of z below γ1 − β, and ch is the hash of mu and of the hinted high bits of A·z − c·t1·2^13 in the ring, c drawn from ch |
| Signing.EncodingVerdict | internal/mldsa/mldsa.go:627-648 | the encoding error exactly for strings that no hash, response and hints encode to |
| Signing.SamplingVerdict | internal/mldsa/field.go:369-395 | for an encoded signature, the sampling failure exactly if its challenge is not drawn within the limit |
| Signing.OneSignatureTwoMessages | internal/mldsa/mldsa.go:627-684 | a signature valid for two message hashes starts with the hash of both strings, over one commitment |
| Signing.SignedVerifies | internal/mldsa/mldsa.go:400-684 | every signature of the loop is accepted by verify under the same key, for every hash and nonce |
| Signing.SignatureAccepted | internal/mldsa/mldsa.go:160-684 | the same end to end: key generation, encoded public key, decoding, signing, verifying |
| PlaneInvariant.StepInv | internal/dataplane/conn.go:206-373 | every locked section of every thread keeps the connection invariant |
| PlaneInvariant.RunInv | internal/dataplane/conn.go:149-204 | the invariant holds after every run |
| PlaneTheorems.SendFlowControl | internal/dataplane/forward.go:141-169 | window + debited bytes = opening window + adjustments, no overflow; chunks nonempty, at most maxPkt, and with the rest they are the input |
| PlaneTheorems.ReceiveFlowControl | internal/dataplane/forward.go:171-220 | between messages recvWindow + consumed = 2^21, recvWindow > 2^20, and recvWindow is exactly the peer's unused credit |
| PlaneTheorems.DataAcceptedIff | internal/dataplane/forward.go:186-190 | data on an open channel disconnects the peer exactly when it exceeds 32 KiB: the window never runs out |
| PlaneTheorems.ConnectionInvariant | internal/dataplane/conn.go:206-373 | channels imply authentication, which implies both directions encrypted; pendingIn iff awaiting NEWKEYS; the client's KEXINIT is held iff not awaiting it; at most maxChannels channels despite the unlocked dial |
| PlaneTheorems.LocalIdsDistinct | internal/dataplane/forward.go:80-98 | local ids are distinct until 2^32 channels were opened; the table holds open channels under their own ids |
| PlaneTheorems.SessionFixed | internal/dataplane/conn.go:334-339 | once set, the session identifier never changes in any run |
| PlaneTheorems.SequenceNumbers | internal/dataplane/conn.go:360-371 | a key epoch and number seal two frames iff a frame is sealed after a failed write in that epoch; no number above 2^32 − 1 |
| PlaneTheorems.NoReuseWithoutFailure | internal/dataplane/conn.go:561-605 | up to the first failed write no key and number seal two frames, across rekeys and strict resets |
| PlaneTheorems.NumberReused | internal/dataplane/forward.go:131-136 | for every quota, a reachable state with a reused number: handshake, authentication and channel open with their sealed replies, then EOF fails and the close message is still sent |
| PlaneHistory.ChannelsMatchRequests | internal/dataplane/forward.go:69-98 | over every run the channels are the accepted open requests in order, each with the peer's number, window and packet size of its own request, and their adjustments, received sizes and input are those of the run's messages |
| PlaneHistory.OpenedIff | internal/dataplane/forward.go:69-98 | an open request adds a channel, under the next id, iff the client is authenticated, the packet size positive and the quota not reached |
| PlaneHistory.AdjustRefusedIff | internal/dataplane/forward.go:231-244 | an adjustment ends the connection iff the opening window, all adjustments and this one, less what was sent, pass 2^32 − 1 |
| PlaneHistory.OpenIffListed | internal/dataplane/forward.go:300-308 | until 2^32 channels were opened, a channel is open iff the table holds it, under its own number |
| PlaneHistory.CloseEffect | internal/dataplane/forward.go:300-308 | a close takes one channel out of the table and closes it; nothing else changes |
| PlaneHistory.PhaseMoves | internal/dataplane/conn.go:206-373 | the key exchange phase changes only to the next one and only by the step for it |
| PlaneHistory.StrictChosenIff | internal/dataplane/conn.go:221-229 | strict key exchange is set iff it is the first exchange and the client offers it |
| PlaneHistory.StrictSettled | internal/dataplane/conn.go:221-252 | after the first NEWKEYS no run changes it |
| PlaneHistory.NumbersAcrossKeys | internal/dataplane/conn.go:360-371 | over every run: with strict key exchange the first frame under each key has number 0, without it the numbers go on across keys |
| PlaneHistory.PacketsCounted | internal/dataplane/conn.go:236-252 | over every run the receive number is the count of packets, since the last NEWKEYS if strict, else of the whole run |
| Connection.SshConnection.ReceiveSection | internal/dataplane/conn.go:625-646 | the input number is one up after each packet |
| Connection.SshConnection.LookKexInitSection | internal/dataplane/conn.go:206-210 | the first section of handleKexInit: the phase that the second acts on |
| Connection.SshConnection.ApplyKexInitSection | internal/dataplane/conn.go:206-234 | the second section of handleKexInit, acting on the phase read before; keeps the invariant |
| Connection.SshConnection.LookEcdhSection | internal/dataplane/conn.go:304-312 | the phase check of handleKEX |
| Connection.SshConnection.HashEcdhSection | internal/dataplane/conn.go:334-339 | the session identifier is set if empty and returned |
| Connection.SshConnection.SwitchEcdhSection | internal/dataplane/conn.go:363-371 | the new output codec, the pending input codec and the strict reset of outSeq |
| Connection.SshConnection.TakeNewKeysSection | internal/dataplane/conn.go:236-254 | the pending codec taken into use, or the error |
| Connection.SshConnection.AuthenticateSection | internal/dataplane/conn.go:458-463 | a good signature authenticates the connection, over encrypted input only |
| Connection.SshConnection.LookOpenSection | internal/dataplane/forward.go:69-74 | the quota before the dial |
| Connection.SshConnection.InsertOpenSection | internal/dataplane/forward.go:80-98 | the quota again after the dial, and the new channel exactly when there was room |
| Connection.SshConnection.TakeDataSection | internal/dataplane/forward.go:180-193 | the packet and window checks and the debit of recvWindow |
| Connection.SshConnection.CreditSection | internal/dataplane/forward.go:205-215 | the credit at the threshold; the returned adjustment is exactly what the peer is granted |
| Connection.SshConnection.FailedDeliverySection | internal/dataplane/forward.go:194-203 | a failed backend write closes the channel unless it is closed already |
| Connection.SshConnection.AdjustWindowSection | internal/dataplane/forward.go:231-244 | the window grows by the adjustment, or the overflow is reported |
| Connection.SshConnection.CloseChannelSection | internal/dataplane/forward.go:300-308 | the channel is closed and leaves the table |
| Connection.SshConnection.TeardownSection | internal/dataplane/conn.go:648-663 | every channel of the table is closed and the table is empty |
| Connection.CloseAll | internal/dataplane/conn.go:650-655 | the loop over the table, in any order, closes exactly the channels listed in it |
| Connection.SshConnection.WriteSection | internal/dataplane/conn.go:568-600 | seal, write and number under one lock; the number advances only on success |
| Connection.SshConnection.StartRekeySection | internal/dataplane/conn.go:607-620 | a rekey starts only from the ready phase |
| Connection.SshConnection.DebitSection | internal/dataplane/forward.go:143-159 | the chunk taken from the window is nonempty and at most maxPkt |
| Connection.SshConnection.BackendReadSection | internal/dataplane/forward.go:121-129 | the bytes read become the forwarder's input |
| Connection.SshConnection.SendChunkSection | internal/dataplane/forward.go:160-166 | a written chunk moves from the rest to the sent chunks; a failed write ends the forwarder |
| Framing.XorStreamTwice | internal/dataplane/packet.go:64-71 | applying a key stream twice returns the data |
| Framing.OpenSealed | internal/dataplane/packet.go:49-119 | a sealed frame of any length opens to its payload exactly when its padded body is at most 256 KiB; below 2^32 bytes the failure is the length error |
| Framing.OpenIff | internal/dataplane/packet.go:82-119 | any input opens to a payload and rest iff it is a frame, with the tag of its bytes under this key and number, of a body with that payload and at least 4 bytes of padding, within the limits, followed by the rest |
| Framing.OtherTag | internal/dataplane/packet.go:103-110 | a frame whose last 16 bytes are not the tag of the rest is refused, whatever they are |
| Framing.PrefixShort | internal/dataplane/packet.go:82-103 | a frame cut short anywhere is a short read, never a payload |
| Framing.FrameLayout | internal/dataplane/packet.go:49-80 | byte for byte: encrypted length, encrypted body, tag over both |
| Framing.LengthBytes | internal/dataplane/packet.go:58-59 | the length is its four bytes, most significant first |
| Framing.StreamRoundTrip | internal/dataplane/packet.go:49-119 | opening consecutive frames in order returns exactly the payload list and the rest of the input |
| Framing.PadRoundTrip | internal/dataplane/packet.go:136-159 | unpadding inverts padding for every nonempty payload and padding content |
| Framing.UnpadIff | internal/dataplane/packet.go:150-159 | a body unpads to a payload iff it is the padding length, a nonempty payload and that many bytes, at least 4 |
| Framing.ReadWritten | internal/dataplane/packet.go:161-179 | readClearPacket inverts writePacket exactly when the packet is at most 256 KiB, for payloads of any length |
| Framing.ReadClearIff | internal/dataplane/packet.go:161-179 | a clear packet is read as a payload and rest iff the input is its length, padding length, payload, padding and rest, within the limits |
| KeyLines.BlobOfRendered | internal/command/enroll_server.go:799-813 | the blob of a managed line is the blob it was rendered for |
| KeyLines.BlobOfPlain | internal/command/enroll_server.go:799-813 | the blob of a plain key line is its second field |
| Grants.AcceptedBlob | internal/enrollment/accept.go:349-367 | every key line that enrollment or rotation accepts has a blob |
| Grants.EntryBlob | internal/server/authorized.go:192-228 | the line rendered for a key, with its options, target and expiry, carries the key's blob |
| Grants.EntryFields | internal/server/authorized.go:192-228 | the four fields of a managed line and the full text of its options |
| Grants.TransitionTable | internal/grant/state.go:47-65 | the allowed pairs of different statuses are the ten listed ones |
| KeyLines.ReplaceLine | internal/command/enroll_server.go:873-893 | the filtering loop and append of a replacement |
| KeyLines.RemoveLine | internal/command/enroll_server.go:895-914 | the filtering loop of a removal |
| KeyLines.AppendLine | internal/command/enroll_server.go:853-871 | nothing changes if the blob is present, else the line is appended |
| KeyLines.ReplacedCount | internal/command/enroll_server.go:873-893 | after a replacement the new blob occurs once, the old one not at all, every other one as before |
| KeyLines.ReplacedTwice | internal/command/enroll_server.go:873-893 | replacing twice is replacing once |
| KeyLines.RemovedAbsent | internal/command/enroll_server.go:566-581 | after a removal the absence check succeeds iff the key is parsable |
| KeyLines.AppendedCount | internal/command/enroll_server.go:853-871 | after an append the key is authorized |
| KeyLines.AppendedExactly | internal/command/enroll_server.go:853-871 | the line is added at the end iff its blob is not there; nothing else changes |
| KeyLines.WithoutJoined | internal/command/enroll_server.go:873-914 | filtering two parts of a file is filtering the whole: lines keep their order |
| KeyLines.WithoutOne | internal/command/enroll_server.go:873-914 | a single line is dropped iff it has one of the two blobs |
| GrantRuns.OpSteps | internal/enrollment/clients.go:176-510 | every durable write of every operation keeps leases, bindings, key lines and terminal records, and moves statuses only as allowed |
| GrantRuns.RunOutlives | internal/enrollment/clients.go:176-586 | over all runs with crashes leases, tunnels and terms never change, terminal records are never rewritten, consumed invites keep their client |
| GrantRuns.OnlyTarget | internal/enrollment/clients.go:176-510 | an operation, at every cut, writes at most the record of its own client |
| GrantRuns.TransitionsIff | internal/grant/state.go:47-65 | every write follows CanTransition iff the operation is not an admitted revocation of a client in expiration_pending |
| GrantRuns.TransitionSkipped | internal/enrollment/clients.go:288-335 | for every invite and matching request, a reachable host state in which a revocation leaves the table |
| Enrollment.ProofCarriesLease | internal/enrollment/accept.go:60-231 | a proof carries the stored lease, notAfter = acceptedAt + duration, and the client is then active with the key |
| Enrollment.ProofMeans | internal/enrollment/accept.go:60-231 | after a proof the client is active, the invite consumed for it, and the key authorized |
| Enrollment.IssuedIff | internal/enrollment/accept.go:60-231 | an issued invite is answered with a proof iff nonce, name and terms are the request's, it is unexpired with a positive duration, and no other enrollment holds the client id; the whole new state |
| Enrollment.AcceptIff | internal/enrollment/accept.go:60-260 | a proof iff the request may enroll or resume; otherwise no write changes a client or the file |
| Enrollment.EnrollOrder | internal/enrollment/accept.go:181-209 | at every cut: authorized only once stored, active only once authorized, consumed only once active |
| Enrollment.LeaseNeverExtended | internal/enrollment/accept.go:150-231 | once stored, a client is answered with the same lease after any run |
| Enrollment.RunHolds | internal/enrollment/clients.go:404-418 | over every run a client holds the key and token of its last completed rotation; a terminal record has its token burned |
| Enrollment.ConsumedAnswersOne | internal/enrollment/accept.go:233-260 | after any run a consumed invite is answered for the client it was consumed for, with that client's lease, exactly for the key and token of the client's last completed rotation |
| Enrollment.ConsumedOneKey | internal/enrollment/accept.go:233-260 | where client ids determine keys, all proofs ever given on a consumed invite have one key |
| Enrollment.TokenReplaced | internal/enrollment/clients.go:337-422 | for every enrollment, a rotation to the same key after which the consumed token is refused and the next one answered |
| Rotation.RotationConverges | internal/enrollment/clients.go:337-422 | after any run of cut-off attempts mixed with events that leave the record alone, an attempt before the expiry succeeds: rotated record, old key replaced by the new in the lines as found, all else unchanged |
| Rotation.OthersLeave | internal/command/enroll_server.go:598-612 | operations on other clients, enrollments, invite operations and rewrites of the file leave the record alone |
| Rotation.RotateMeans | internal/enrollment/clients.go:368-421 | any successful rotation leaves the client active with the key and next token, and its line in place of the previous key's |
| Rotation.CompletedMeans | internal/enrollment/clients.go:404-421 | active with the new key and next token and the same lease; new blob once, old blob gone unless equal, other lines kept in order |
| Removals.ExpireRemoves | internal/grant/expire.go:52-85 | expiry succeeds iff its plan is allowed; then the key is gone, and the pending key exactly if it has the same blob or was not in the file |
| Removals.RevokeRemoves | internal/enrollment/clients.go:176-251 | the same for a successful revocation, also a repeated one |
| Removals.CompleteRemoves | internal/enrollment/clients.go:535-586 | the same for a completed pending revocation |
| Removals.HostRevokeRemoves | internal/enrollment/clients.go:254-335 | after a successful host revocation neither the key nor the pending key is authorized |
| Guards.RotateIff | internal/enrollment/clients.go:337-422 | rotation succeeds iff the record already shows it, or the request has the client's token and tunnel before the expiry and the record is active or pending for the same key and next token; the whole new state, and no write otherwise |
| Guards.RotateOrder | internal/enrollment/clients.go:368-421 | at every cut the file changes only once the record is pending, the record's key only once the file has it |
| Guards.RevokeIff | internal/enrollment/clients.go:176-251 | revocation succeeds iff the request has the client's tunnel and its token, or, once revoked, the burned one; the whole new state, and no write otherwise |
| Guards.RevokeRepeats | internal/enrollment/clients.go:190-200 | a successful revocation succeeds again with the same request at any later time |
| Guards.RevokeOrder | internal/enrollment/clients.go:205-250 | at every cut the key leaves the file only once the end is pending, and the end is recorded only once it left |
| Guards.HostRevokeIff | internal/enrollment/clients.go:254-335 | host revocation succeeds iff the client is neither pending enrollment nor expired; the whole new state |
| Guards.HostRevokeOrder | internal/enrollment/clients.go:288-335 | the order of its writes |
| Guards.CompleteIff | internal/enrollment/clients.go:535-586 | a pending revocation completes, and a revoked client is left alone; anything else is refused |
| Guards.CompleteOrder | internal/enrollment/clients.go:535-586 | the order of its writes |
| Guards.ExpireIff | internal/enrollment/clients.go:443-510 | expiry succeeds iff the grant has expired already, or is due or on the way with a complete record; the whole new state |
| Guards.ExpireOrder | internal/grant/expire.go:52-85 | the order of its writes |
| Guards.IssueIff | internal/enrollment/invite.go:194-210 | an invite is stored iff its id is new and it is issued to no client |
| Guards.CancelIff | internal/enrollment/invite.go:397-422 | an invite is cancelled iff it is neither consumed nor revoked |
| Guards.RevokeInviteIff | internal/enrollment/invite.go:425-445 | an invite is revoked iff it is neither issued nor cancelled |
| Guards.LapseIff | internal/enrollment/invite.go:283-305 | an issued invite expires from its time on, and no other is touched |
| Removals.ExpiryLeavesPending | internal/enrollment/clients.go:443-510 | for every enrollment and rotation cut off between file and record, an expiry that succeeds and leaves the new key authorized |
| Sessions.MatchingGrant | internal/grantsession/authority.go:160-193 | a match exactly when the key has one grant and that grant is live |
| Sessions.AdmittedIff | internal/grantsession/authority.go:160-193 | over a whole store a key is admitted iff exactly one record has it as its own and that grant is live |
| Sessions.TerminalRejected | internal/grantsession/authority.go:160-193 | the key of an expired or revoked grant is rejected in every later state |
| Sessions.LeftoverAdmittedIff | internal/grantsession/authority.go:160-193 | in every later state of every run the key or pending key of an ended grant is admitted iff exactly one record has it as its own, another one, and that grant is live |
| Sessions.LeftoverRejected | internal/grantsession/authority.go:160-193 | the pending key that an expiry left authorized is rejected at any time while its client is the only one |
| Reconcile.PassSettles | internal/enrollment/clients.go:513-614 | after both loops succeed nothing is pending, nothing due is active or rotating, key, lease and terms of every record are kept, and every other record is as it was |
| Reconcile.ReconciledKeys | internal/command/enroll_server.go:745-797 | both loops and the rebuild, from any kept state: the file holds exactly the blobs of the grants active or rotation_pending before the pass and not due when read, each once |
| Reconcile.RebuiltExactly | internal/command/enroll_server.go:751-795 | each blob is written once iff some effective record has it |
| Reconcile.RebuildsIff | internal/command/enroll_server.go:751-795 | the rebuild fails iff a record in force has an unreadable expiry, or is unexpired with the target of another host |
| Reconcile.ExpiriesSteps | internal/enrollment/clients.go:589-614 | every write of the expiry loop keeps what runs keep |
| Reconcile.RevocationsSteps | internal/enrollment/clients.go:513-533 | every write of the revocation loop keeps what runs keep |
| GrantHost.Host.Accept | internal/enrollment/accept.go:60-231 | the writes of Accept in order, cut off where the budget ends; a proof only to a request that may enroll or resume, and always to one if the budget is enough; then the client is active, the invite consumed and the key authorized; keeps the invariant at every cut |
| GrantHost.Host.ResumeAcceptedEnrollment | internal/enrollment/accept.go:233-260 | the exact retry after consumption |
| GrantHost.Host.RevokeClient | internal/enrollment/clients.go:176-251 | its writes in order, cut off where the budget ends; succeeds exactly for a request the conditions in Guards admit, given the budget, and else writes nothing; on success revoked with the key gone; keeps the invariant at every cut |
| GrantHost.Host.RevokeClientAsHost | internal/enrollment/clients.go:254-335 | its writes in order, cut off where the budget ends; succeeds exactly for a request the conditions in Guards admit, given the budget, and else writes nothing; on success revoked with key and pending key gone; keeps the invariant at every cut |
| GrantHost.Host.RotateClientPublicKey | internal/enrollment/clients.go:337-422 | its writes in order, cut off where the budget ends; succeeds exactly for a request the conditions in Guards admit, given the budget, and else writes nothing; on success active with the new key and its line in the file; keeps the invariant at every cut |
| GrantHost.Host.ExpireClient | internal/enrollment/clients.go:443-510 | its writes in order; succeeds exactly under the condition of ExpireIff, given the budget; expired is recorded only after the key's absence was verified; keeps the invariant at every cut |
| GrantHost.Host.CompletePendingRevocation | internal/enrollment/clients.go:535-586 | its writes in order, cut off where the budget ends; succeeds exactly for a request the conditions in Guards admit, given the budget, and else writes nothing; on success revoked with the key gone; keeps the invariant at every cut |
| GrantHost.Host.CancelInvite | internal/enrollment/invite.go:397-422 | the invite is cancelled unless consumed or revoked; keeps the invariant at every cut |
| GrantHost.Host.RevokeInvite | internal/enrollment/invite.go:425-445 | the invite is revoked unless issued or cancelled; keeps the invariant at every cut |
| GrantHost.Host.ReconcilePendingRevocations | internal/enrollment/clients.go:513-533 | the writes of the loop over the listing, cut off where the budget ends; on success every record is revised; keeps the invariant at every cut |
| GrantHost.Host.ReconcileExpiredClients | internal/enrollment/clients.go:589-614 | the same for the expiry loop, stopped by an unreadable expiry; keeps the invariant at every cut |
| GrantHost.Host.ReconcileManagedAuthorizations | internal/command/enroll_server.go:745-797 | the rebuilt file at the clock readings taken, or nothing written on a bad expiry or foreign target; keeps the invariant at every cut |
| Limiter.AllowValid | internal/command/enroll_server.go:398-442 | order duplicate-free, exactly the bucket keys, least recently used first, at most maxSources; tokens in [0, burst] |
| Limiter.StandingStep | internal/command/enroll_server.go:422-442 | least recently used: where every source stands after a request follows from the request alone |
| Limiter.KeptIff | internal/command/enroll_server.go:422-442 | a source keeps its bucket iff on the trace fewer than maxSources distinct others, those behind it at the start included, come between its requests |
| Limiter.BetweenRequests | internal/command/enroll_server.go:433-437 | without requests of its own, a source is present iff the distinct others since are fewer than maxSources |
| Limiter.EvictionBound | internal/command/enroll_server.go:398-442 | any source is allowed at most burst·(1 + evictions) + rate·T requests in any interval of length T |
| Limiter.RateBound | internal/command/enroll_server.go:398-420 | a source between whose requests fewer than maxSources others come is allowed at most burst + rate·T requests in any interval of length T |
| Limiter.SteadyAllowed | internal/command/enroll_server.go:398-442 | with burst ≥ 1, a source whose requests are at least 1/rate apart is always allowed, whatever the others do |
| Limiter.EvictionRefills | internal/command/enroll_server.go:433-441 | for every burst ≥ 1, every maxSources and any distinct others: at one instant, one request more than the burst is allowed |
| Limiter.NewLimiterExceeded | internal/command/enroll_server.go:385-396 | such a run for every limiter that newEnrollmentRateLimiter builds with max ≥ 1 |
| Limiter.NewLimitsRate | internal/command/enroll_server.go:385-396 | the rate times the window is max, with one second for a window that is not positive; burst max and 4096 sources |
| Limiter.RateLimiter.constructor | internal/command/enroll_server.go:385-396 | the limits from max and window, an empty table and the invariant |
| Limiter.RateLimiter.RemoveFromOrder | internal/command/enroll_server.go:424-429 | the search loop drops the source from the order |
| Limiter.RateLimiter.Touch | internal/command/enroll_server.go:422-442 | move to the end, or evict the oldest and start a full bucket |
| Limiter.RateLimiter.Allow | internal/command/enroll_server.go:398-420 | the decision and the new table, keeping the invariant |

## Left out

- SHAKE, SHA-256, ChaCha20, Poly1305, Ed25519, ML-KEM and X25519 are arbitrary functions; nothing about secrecy, unforgeability or timing is stated.
- Sampling.SampleNtt: reads at most a given number of candidates, because Dafny needs the rejection loop to end; LimitIrrelevant shows that the limit never changes a sample.
- Sampling.SampleBoundedPoly: reads at most a given number of bytes, for the same reason.
- Challenge.SampleInBall: reads the stream no further than a given position; a larger limit never changes the challenge.
- Signing.SignInternal: makes at most a given number of attempts; the program has no such bound. The theorems hold for every bound.
- Signing.SignatureAccepted: with a smaller sampling limit than the signer's the verifier may fail to draw the challenge; it never rejects.
- Codec.BitPack: the 18-bit and the 20-bit loop are one method with the width as a parameter; out-of-range coefficients, which the source forbids, are excluded.
- The wrappers of sign and verify that hash a message and a context, the semi-expanded private key format and the named parameter checks.
- The threshold that triggers a rekey: in the model any thread may start one once the client is authenticated, which includes every real run.
- Name lists, exchange hash, key derivation, policy checks, deadlines and message parsing of the data plane; a step receives the parsed fields.
- "No channel data during a rekey" and "one server KEXINIT per exchange" are not stated: the code tests and acts in separate locked sections.
- Plane.SenderWrote: logs a frame also when sealing it fails, before the transport is reached; this only adds runs.
- Grants.AcceptPlan: counts a write of the file also when the key's line is already there, where the program makes none; this only adds runs.
- The writes of the serve loop are not tied to the messages they answer; the model allows any write at any time.
- JSON, file permissions, directory listing order, file locks and atomic replacement: a store is a map or a list of lines, and a write is one step.
- Operations on grants running at the same time under different locks: operations are serialised, with crashes between any two writes.
- Ending live sessions, and the process checks of Register: they change none of the three stores; a failure there ends the operation as a failed write does.
- Request validation (hexadecimal ids, token shape, sizes) is one flag of the request, apart from the type and blob of a key line; keys are taken as already trimmed; profile, principal, target, host key and published set are compared as text.
- GrantHost.Host.ReconcilePendingRevocations: once a write has failed all later writes of the pass fail too; in the program a later record's writes may succeed.
- GrantHost.Host.ReconcileExpiredClients: the same.
- Reading invites by generation is modelled only by its write, which marks a lapsed invite expired.
- Limiter.RateBound: floating point numbers are reals, and times do not decrease.
- Limiter.NewLimiterExceeded: max is a natural number; the program passes a positive constant.
- Packages for installation, host configuration, locators, clocks and command-line handling.
