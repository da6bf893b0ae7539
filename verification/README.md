# KeePassKeyWin in Dafny

KeePassKeyWin is a passkey authenticator in two processes. A KeePass plugin (C#) holds the vault and speaks CTAP2
over a named pipe; a sidecar (Rust) is activated by Windows, asks the user to verify, and forwards each request.
This project models the parts of both where the code decides something hard, and proves what they promise.

## How the model is laid out

- `CborSyntax`, `CborDecoding`, `CborEncoding`, `CanonicalItems`: the CBOR grammar as an item tree that remembers header
  widths, the cursor reader and the canonical writer with their loops, and the two proved inverse.
- `RequestFold`, `GetAssertionRequest`, `GetAssertionMeaning`, `MakeCredentialRequest`, `MakeCredentialMeaning`: the two
  hand-written request parsers. Each is given three times: the cursor loops, a fold over bytes that they compute, and a
  declarative reading of the item tree (`Describes`). The lemmas connect all three. `RequestItems` builds the canonical
  map of every request value; `RepeatedKeys` describes the parsers on every buffer, maps with repeated keys included.
- `Responses`: authenticator data, COSE keys and the two response builders, with the reading a relying party makes.
- `EcdsaDer`: the signer's and the verifier's signature conversions against one grammar of X.690.
- `DecimalText`, `Base64Url`, `VaultStore`, `VaultHandling`, `VaultRuns`, `VaultGates`, `VaultExample`: the store, the
  gates and the handlers as methods over objects, the state step they compute, whole runs of such steps, and runs built
  from bytes.
- `Handshake`, `PluginState`: nonce, handshake, dispatcher, prompt latch and key cache.
- `PipeMachine`, `SidecarRetry`, `PluginRestarts`: the sidecar's one pipe as a machine of atomic moves, the activation and
  retry code, which is shown to be a run of that machine, and the machine beside a plugin that ends and starts.
- `Reconcile`, `UserVerification`: the startup reconciliation with Windows and the user-verification tiers.
- `KnownValues`: names, alphabets and test vectors of the formats as literal bytes.

An imperative part is a method whose `ensures` ties it to a function of its inputs and old state; what that function
means is then proved as lemmas. SHA-256, ECDSA and RSA are arbitrary functions of which only digest length is known;
key pairs, random IDs, nonces, the user's answers, whether Save returns, HRESULTs and RPC outcomes are inputs of each
step. Exceptions are values of `Fault` or `None`. Text is its UTF-8 bytes (package names and nonces are Dafny strings).

## What was found

Some things one would like to hold do not. For each there is a concrete case and the exact condition.

- Reconciliation returns the pipe before it asks Windows for its list, so a credential created in between is listed, is
  missing from the enumeration, and is withdrawn (`LateCredentialIsWithdrawn`). The current vault is safe exactly when it
  gained nothing since it was enumerated (`WithdrawsNoneIffNothingNew`). The comment on the spawn, that the pipe is back
  before any COM operation can arrive, does not cover this.
- A vault array that names an ID twice publishes it twice (`RepeatIsAddedTwice`), exactly when an ID repeats among those
  to publish (`AddsAreNewIffNoRepeats`); the store's Add does not check.
- A send on a dead pipe that ends in end-of-file, not in a broken pipe, gives a JSON error, is not retried, and the dead
  pipe is stored back (`EofIsNotHealed`). So a dispatch may be lost although the plugin is up: any number in a row
  (`StaysLostCase`), or one whose successor reports a broken pipe and heals it (`LostThenHealedCase`). A dispatch is
  answered exactly when its pipe was alive or its first send reported it stale and the reconnect worked (`AnsweredIff`);
  a stored dead pipe stays exactly until a send on it reports it stale (`StuckUntilStale`, `FirstStaleHeals`).
- With an allowList the chosen credential's RP ID is not compared with the request's, and the answer carries the record's
  own (`RegistersThenAnswersTwice`). It is the requested one exactly when the first listed credential the vault holds is
  that RP's (`AnswerIsForRp`), and so in every order exactly when all those it holds are (`ListedForRpInAnyOrder`).
- A hello without a usable op-sign key is answered with an error, yet the connection is authenticated
  (`AuthenticatedWithoutKeyCase`, `CompleteBeforeKey`), although the comment calls the handshake itself rejected.
- A nonce is replaced in memory before it is written. If the write throws, the hello fails with its nonce consumed, and
  the registry keeps the old one (`UnwrittenCase`). A hello that presents what the registry holds passes the nonce check
  exactly when the current nonce could be written (`HonestIffWritten`).
- A length above 65535 is written truncated (`TruncatedCase`, `OutputIsStrict`); no 64-byte signature comes near it.
- A getAssertionRaw that fails after selecting a record leaves its count advanced (`BurnsACount`), exactly when Save
  throws, signing throws, or a text of the record does not decode or its algorithm is unknown (`CountBurns`, `ReplyIff`);
  the last two can be looked up in the record. For a record that makeCredentialRaw made only Save and signing are left; one
  that createPasskey made may also hold a user handle that is no base64url, which fails every request that lists no
  credentials (`OwnRecordIsAnswered`).
- A change stays in memory when the Save after it throws: a failed registration may leave its record, until KeePass is
  unlocked again (`UnsavedStays`). makeCredentialRaw changes the vault exactly when it succeeds or Save throws
  (`RefusalChangesNothing`, `RegisteredIff`); what vault and file both have reached is never taken back (`TickKeeps`).
- An empty `user.id` makes an otherwise complete registration request fail, because its base64url text is empty
  (`EmptyUserIdCase`); every other is accepted (`AcceptedIffUserId`).

The lock comment in the store says Add is serialised with the counter; Add takes no lock. The model runs requests one at a
time, as the pipe server does.

## Model

| member | source | states |
|---|---|---|
| CborSyntax.DecodeComplete | src/KeePassKeyWin.Core/Cbor/CborReader.cs:145-277 | the accepted grammar (major types 0-5 with any definite header width, nested arrays and maps, simple values 20-23): every well-formed item decodes to itself, whatever bytes follow it |
| CborSyntax.DecodeSound | src/KeePassKeyWin.Core/Cbor/CborReader.cs:145-277 | and nothing else decodes: whatever is decoded is well-formed and its encoding, followed by the remainder, is the input |
| CborSyntax.UniquePrefix | src/KeePassKeyWin.Core/Cbor/CborReader.cs:145-277 | item encodings are prefix-free and uniquely decodable |
| CborSyntax.ReadHeadSound | src/KeePassKeyWin.Core/Cbor/CborReader.cs:228-277 | a header read back is one of the five definite widths holding the value, with the bytes that spell it |
| CborDecoding.SkipExact | src/KeePassKeyWin.Core/Cbor/CborReader.cs:145-220 | skipping succeeds exactly when the bytes begin with one complete item of the grammar, and consumes exactly that item |
| CborDecoding.CborReader.EnsureAvailable | src/KeePassKeyWin.Core/Cbor/CborReader.cs:310-315 | fails exactly when fewer bytes remain than asked for |
| CborDecoding.CborReader.PeekMajorType | src/KeePassKeyWin.Core/Cbor/CborReader.cs:46-50 | the major type of the next item, without moving the cursor |
| CborDecoding.CborReader.ReadInitialByte | src/KeePassKeyWin.Core/Cbor/CborReader.cs:228-277 | decodes the header at the cursor for major types 0-5, refuses tags, simple values, reserved and indefinite lengths |
| CborDecoding.CborReader.ReadUnsignedInt | src/KeePassKeyWin.Core/Cbor/CborReader.cs:53-59 | an unsigned integer or an error; the cursor stands after it |
| CborDecoding.CborReader.ReadNegativeInt | src/KeePassKeyWin.Core/Cbor/CborReader.cs:65-74 | a negative integer within Int64 or an error |
| CborDecoding.CborReader.ReadBytes | src/KeePassKeyWin.Core/Cbor/CborReader.cs:283-297 | copies the declared bytes out only when they are there; what is copied out never exceeds what was consumed |
| CborDecoding.CborReader.ReadByteString | src/KeePassKeyWin.Core/Cbor/CborReader.cs:77-83 | a byte string or an error |
| CborDecoding.CborReader.ReadTextString | src/KeePassKeyWin.Core/Cbor/CborReader.cs:86-93 | the bytes of a text string or an error |
| CborDecoding.CborReader.ReadArrayHeader | src/KeePassKeyWin.Core/Cbor/CborReader.cs:99-107 | an element count up to Int32.MaxValue or an error |
| CborDecoding.CborReader.ReadMapHeader | src/KeePassKeyWin.Core/Cbor/CborReader.cs:113-121 | a pair count up to Int32.MaxValue or an error |
| CborDecoding.CborReader.ReadBool | src/KeePassKeyWin.Core/Cbor/CborReader.cs:131-139 | 0xF5 or 0xF4 and nothing else |
| CborDecoding.CborReader.SkipBytes | src/KeePassKeyWin.Core/Cbor/CborReader.cs:300-308 | moves past the declared bytes only when they are there |
| CborDecoding.CborReader.SkipValue | src/KeePassKeyWin.Core/Cbor/CborReader.cs:145-220 | the recursive cursor code computes the decoder: it ends exactly after the item at the cursor or fails, and terminates for every declared count because the remaining bytes are its measure |
| CborDecoding.CborReader.SkipItems | src/KeePassKeyWin.Core/Cbor/CborReader.cs:174-189 | the element and pair loops of SkipValue, for any 64-bit count |
| CborEncoding.ShortestHead | src/KeePassKeyWin.Core/Cbor/CborWriter.cs:74-106 | the width chosen for a value fits it, and no width that fits is shorter |
| CborEncoding.HeadRoundTrip | src/KeePassKeyWin.Core/Cbor/CborWriter.cs:74-106 | ReadInitialByte inverts WriteTypeAndValue for major types 0-5 and every 64-bit value |
| CborEncoding.TypedRoundTrip | src/KeePassKeyWin.Core/Cbor/CborWriter.cs:19-68 | every number, string and header written is read back by the typed read for it, negative integers over all of Int64 |
| CborEncoding.TooNegative | src/KeePassKeyWin.Core/Cbor/CborReader.cs:71-72 | a negative integer below Int64 has an encoding that ReadNegativeInt refuses |
| CborEncoding.BytewiseLexCompare | src/KeePassKeyWin.Core/Cbor/CborWriter.cs:108-116 | the loop computes the lexicographic comparison |
| CborEncoding.BytewiseIsCtapOrder | src/KeePassKeyWin.Core/Cbor/CborWriter.cs:108-116 | on keys in shortest form plain bytewise order is the order of section 8 of CTAP 2.1: major type, then length, then bytes |
| CborEncoding.CanonMapOrderFree | src/KeePassKeyWin.Core/Cbor/CborWriter.cs:57-68 | for distinct keys the bytes of a map do not depend on the order its pairs were added in |
| CborEncoding.SortedUnique | src/KeePassKeyWin.Core/Cbor/CborWriter.cs:60 | distinct keys leave a sort no freedom, so its being unstable cannot show |
| CborEncoding.CborWriter.WriteTypeAndValue | src/KeePassKeyWin.Core/Cbor/CborWriter.cs:74-106 | appends the shortest header, the eight-byte case by its shift loop |
| CborEncoding.CborWriter.WriteUnsignedInt | src/KeePassKeyWin.Core/Cbor/CborWriter.cs:19-22 | appends the header for the value |
| CborEncoding.CborWriter.WriteNegativeInt | src/KeePassKeyWin.Core/Cbor/CborWriter.cs:24-30 | refuses non-negative values, appends -1 - value otherwise, down to the lowest Int64 |
| CborEncoding.CborWriter.WriteString | src/KeePassKeyWin.Core/Cbor/CborWriter.cs:32-43 | appends the header and the bytes |
| CborEncoding.CborWriter.WriteMap | src/KeePassKeyWin.Core/Cbor/CborWriter.cs:57-68 | emits a sorted permutation of the pairs after a header with their number; for distinct keys the one canonical form |
| Base64Url.RoundTrip | src/KeePassKeyWin.Core/Util/Base64Url.cs:10-25 | decoding undoes encoding for every byte string |
| Base64Url.EncodeInjective | src/KeePassKeyWin.Core/Util/Base64Url.cs:10-14 | distinct byte strings get distinct texts |
| Base64Url.EncodeLength | src/KeePassKeyWin.Core/Util/Base64Url.cs:10-14 | four characters for three bytes, rounded up, and no padding |
| Base64Url.EncodeEmpty | src/KeePassKeyWin.Core/Util/Base64Url.cs:10-14 | only the empty byte string encodes to the empty text |
| Base64Url.StandardRoundTrip | src/KeePassKeyWin.Core/Ipc/VaultHandler.cs:181 | the standard base64 a private key is stored as reads back as the key |
| Base64Url.DecodableIff | src/KeePassKeyWin.Core/Util/Base64Url.cs:16-25 | a text without white space and padding decodes exactly when its length is not 1 more than a multiple of 4 and its characters are of either alphabet |
| GetAssertionRequest.ReadDescField | src/KeePassKeyWin.Core/Ipc/VaultHandler.cs:394-403 | one field of a credential descriptor |
| GetAssertionRequest.ReadAllowList | src/KeePassKeyWin.Core/Ipc/VaultHandler.cs:386-410 | the allowList loop appends the ID of each descriptor that has one and is typed "public-key" |
| GetAssertionRequest.ReadOptions | src/KeePassKeyWin.Core/Ipc/VaultHandler.cs:412-426 | the options loop sets up and uv, later values winning |
| GetAssertionRequest.ReadTopField | src/KeePassKeyWin.Core/Ipc/VaultHandler.cs:370-433 | one top-level pair, whatever its key |
| GetAssertionRequest.ParseGetAssertionCbor | src/KeePassKeyWin.Core/Ipc/VaultHandler.cs:359-451 | the cursor loops compute the byte-level specification on every input: they terminate, stay inside the buffer and return a request or an error |
| GetAssertionRequest.ParseMeaning | src/KeePassKeyWin.Core/Ipc/VaultHandler.cs:359-451 | the parser accepts exactly when the input begins with one complete item that stands for a request; what follows the item is ignored |
| GetAssertionMeaning.DenoteIffDescribes | src/KeePassKeyWin.Core/Ipc/VaultHandler.cs:359-451 | a map with distinct keys stands for exactly the request whose fields it spells out |
| GetAssertionMeaning.RoundTrip | src/KeePassKeyWin.Core/Ipc/VaultHandler.cs:359-451 | the parser inverts every encoding of every request: any header widths, any key order, unknown keys and descriptor fields with arbitrary values, trailing bytes; allowList order kept, other descriptor types dropped |
| GetAssertionMeaning.OrderFree | src/KeePassKeyWin.Core/Ipc/VaultHandler.cs:359-451 | reordering the pairs of a request never changes what the parser returns |
| GetAssertionMeaning.CopiesBounded | src/KeePassKeyWin.Core/Ipc/VaultHandler.cs:359-451 | the bytes collected plus one for each ID stay below the input length, whatever counts are declared |
| GetAssertionEveryMap.ParseIffSays | src/KeePassKeyWin.Core/Ipc/VaultHandler.cs:359-451 | on every buffer: a request is returned exactly when the bytes begin with one whole map that says it, keys repeated or not: of repeated texts and byte strings the last counts, repeated lists and option maps add up |
| GetAssertionEveryMap.DenoteIffSays | src/KeePassKeyWin.Core/Ipc/VaultHandler.cs:436-451 | the same for a decoded item; a map of the right shape that says no request is refused for its RP ID if that is missing or empty, and else for its hash |
| MakeCredentialRequest.ReadRp | src/KeePassKeyWin.Core/Ipc/VaultHandler.cs:569-583 | the rp loop, later fields winning |
| MakeCredentialRequest.ReadUser | src/KeePassKeyWin.Core/Ipc/VaultHandler.cs:585-601 | the user loop; user.id is kept as base64url text |
| MakeCredentialRequest.ReadAlgs | src/KeePassKeyWin.Core/Ipc/VaultHandler.cs:603-635 | the pubKeyCredParams loop keeps -7 and -257 of entries typed "public-key" |
| MakeCredentialRequest.ReadExcludeList | src/KeePassKeyWin.Core/Ipc/VaultHandler.cs:637-656 | the excludeList loop keeps the ID of every descriptor that has one, whatever its type |
| MakeCredentialRequest.ParseMakeCredentialCbor | src/KeePassKeyWin.Core/Ipc/VaultHandler.cs:543-688 | the cursor loops compute the byte-level specification on every input |
| MakeCredentialRequest.ParseMeaning | src/KeePassKeyWin.Core/Ipc/VaultHandler.cs:543-688 | the parser accepts exactly when the input begins with one complete item that stands for a request |
| MakeCredentialMeaning.DenoteIffDescribes | src/KeePassKeyWin.Core/Ipc/VaultHandler.cs:543-688 | a map with distinct keys stands for exactly the request whose fields it spells out, defaults for names included |
| MakeCredentialMeaning.RoundTrip | src/KeePassKeyWin.Core/Ipc/VaultHandler.cs:543-688 | the parser inverts every encoding of every request: any header widths, key order, unknown fields and trailing bytes |
| MakeCredentialMeaning.AcceptedIffUserId | src/KeePassKeyWin.Core/Ipc/VaultHandler.cs:666-672 | a map that describes a request in everything else is accepted exactly when its user.id bytes are not empty |
| MakeCredentialMeaning.OrderFree | src/KeePassKeyWin.Core/Ipc/VaultHandler.cs:543-688 | reordering the pairs of a request never changes what the parser returns |
| MakeCredentialMeaning.OnlySupported | src/KeePassKeyWin.Core/Ipc/VaultHandler.cs:603-675 | an accepted request offers at least one algorithm, and only -7 and -257 are kept |
| MakeCredentialMeaning.HandleIsEncoded | src/KeePassKeyWin.Core/Ipc/VaultHandler.cs:592 | the user handle of every accepted request is the base64url text of some bytes |
| MakeCredentialMeaning.CopiesBounded | src/KeePassKeyWin.Core/Ipc/VaultHandler.cs:543-688 | everything collected, base64url text at half its length, stays below the input length |
| MakeCredentialEveryMap.ParseIffSays | src/KeePassKeyWin.Core/Ipc/VaultHandler.cs:543-688 | on every buffer: a request is returned exactly when the bytes begin with one whole map that says it, keys repeated or not |
| MakeCredentialEveryMap.DenoteIffSays | src/KeePassKeyWin.Core/Ipc/VaultHandler.cs:658-688 | the same for a decoded item; a map of the right shape that says no request is refused for the first of hash, RP ID, user ID, user name and algorithm that is missing or empty |
| RequestItems.GetHasEncodingIff | src/KeePassKeyWin.Core/Ipc/VaultHandler.cs:359-451 | a getAssertion request value is what some encoding describes exactly when its RP ID is not empty and its hash has 32 bytes |
| RequestItems.GetRoundTrip | src/KeePassKeyWin.Core/Ipc/VaultHandler.cs:359-451 | each such request has a canonical encoding that parses back to it, whatever follows |
| RequestItems.MakeHasEncodingIff | src/KeePassKeyWin.Core/Ipc/VaultHandler.cs:543-688 | a makeCredential request value is what some encoding describes exactly when its parts are there, its algorithms are supported, its user handle is the text of non-empty bytes and its exclude list holds base64url texts |
| RequestItems.MakeRoundTrip | src/KeePassKeyWin.Core/Ipc/VaultHandler.cs:543-688 | each such request has a canonical encoding that parses back to it; the same map with an empty user.id is refused |
| RequestItems.EmptyUserIdCase | src/KeePassKeyWin.Core/Ipc/VaultHandler.cs:666-672 | a request complete but for an empty user.id, and refused |
| EcdsaDer.WriteLength | src/KeePassKeyWin.Core/Crypto/EcdsaSigner.cs:105-122 | writes the length field at pos and touches nothing else of the buffer; above 65535 only the low 16 bits |
| EcdsaDer.LengthFieldIsDer | src/KeePassKeyWin.Core/Crypto/EcdsaSigner.cs:98-122 | the length field is the shortest form of section 10.1 of X.690 exactly up to 65535 |
| EcdsaDer.EncodeInteger | src/KeePassKeyWin.Core/Crypto/EcdsaSigner.cs:79-96 | strips zeros, pads the sign bit, and fails on an empty value |
| EcdsaDer.UnsignedIsMinimal | src/KeePassKeyWin.Core/Crypto/EcdsaSigner.cs:79-96 | the integer content is minimal and non-negative (section 8.3 of X.690) and denotes the same number |
| EcdsaDer.P1363ToDer | src/KeePassKeyWin.Core/Crypto/EcdsaSigner.cs:56-76 | the array-filling code computes the encoder; odd and empty inputs fail |
| EcdsaDer.OutputIsStrict | src/KeePassKeyWin.Core/Crypto/EcdsaSigner.cs:56-122 | the output is strict DER of the same two numbers exactly when its content fits 65535 bytes; otherwise no reading of it is strict |
| EcdsaDer.TruncatedCase | src/KeePassKeyWin.Core/Crypto/EcdsaSigner.cs:105-122 | an input of 80000 bytes whose output has a truncated length and no strict reading |
| EcdsaDer.ReadDerLength | src/KeePassKeyWin.Core/Crypto/EcdsaVerifier.cs:125-136 | short, one-byte and two-byte lengths; a negative result for anything else |
| EcdsaDer.FitIsValue | src/KeePassKeyWin.Core/Crypto/EcdsaVerifier.cs:138-152 | a coordinate fits exactly when its value is below 2^256, and becomes the 32-byte form of that value |
| EcdsaDer.TryFitCoord | src/KeePassKeyWin.Core/Crypto/EcdsaVerifier.cs:138-152 | fills exactly its 32 bytes of the result, or nothing |
| EcdsaDer.TryDerToP1363 | src/KeePassKeyWin.Core/Crypto/EcdsaVerifier.cs:84-123 | the cursor code computes the decoder on every input |
| EcdsaDer.AcceptsIffSpells | src/KeePassKeyWin.Core/Crypto/EcdsaVerifier.cs:84-152 | the decoder returns p exactly when the input is a SEQUENCE of two INTEGERs, in the length forms it knows, whose unsigned contents are the halves of p |
| EcdsaDer.RoundTrip | src/KeePassKeyWin.Core/Crypto/EcdsaSigner.cs:56-122 | TryDerToP1363 of P1363ToDer of any 64-byte signature is that signature |
| EcdsaDer.ReencodeIffStrict | src/KeePassKeyWin.Core/Crypto/EcdsaVerifier.cs:84-152 | re-encoding an accepted input gives it back exactly when it was strict DER of non-negative integers |
| EcdsaDer.VerifyAcceptingEitherFormat | src/KeePassKeyWin.Core/Crypto/EcdsaVerifier.cs:58-77 | computes acceptance in either format; empty arguments are refused |
| EcdsaDer.EitherFormatAccepts | src/KeePassKeyWin.Core/Crypto/EcdsaVerifier.cs:58-77 | accepted are exactly the 64-byte signatures that verify, given as they are or in any spelling of their two numbers |
| EcdsaDer.BothFormatsPass | src/KeePassKeyWin.Core/Crypto/EcdsaVerifier.cs:58-77 | a valid 64-byte signature passes raw and as the signer encodes it |
| Responses.Build | src/KeePassKeyWin.Core/WebAuthn/AuthDataBuilder.cs:34-58 | writes registration authenticator data; empty or oversized IDs and empty keys fail |
| Responses.BuildAssertion | src/KeePassKeyWin.Core/WebAuthn/AuthDataBuilder.cs:66-80 | writes the 37 bytes of assertion authenticator data |
| Responses.RegistrationAuthDataReads | src/KeePassKeyWin.Core/WebAuthn/AuthDataBuilder.cs:34-58 | reading it by offsets gives back the RP ID hash, the flags, count 0, the zero AAGUID, the ID of any length to 65535, and the key bytes |
| Responses.AssertionAuthDataReads | src/KeePassKeyWin.Core/WebAuthn/AuthDataBuilder.cs:66-93 | the big-endian count read at offset 33 is the one written, for every 32-bit value |
| Responses.EncodeEc | src/KeePassKeyWin.Core/Cbor/CoseKey.cs:34-49 | writes the COSE map of a P-256 key; coordinates that are not 32 bytes fail |
| Responses.EncodeRsa | src/KeePassKeyWin.Core/Cbor/CoseKey.cs:57-71 | writes the COSE map of an RSA key; empty parameters fail |
| Responses.KeyReads | src/KeePassKeyWin.Core/Cbor/CoseKey.cs:34-71 | a reader of the COSE key finds the same parameters, for ES256 and RS256 |
| Responses.BuildAttestationObject | src/KeePassKeyWin.Core/Ipc/VaultHandler.cs:698-714 | writes {1: "none", 2: authData, 3: {}} in canonical form |
| Responses.AttestationReads | src/KeePassKeyWin.Core/Ipc/VaultHandler.cs:698-714 | decoding the object, its authenticator data and its COSE key recovers format "none", the empty statement, the RP ID hash, the flags, the ID and the public key |
| Responses.BuildAssertionResponse | src/KeePassKeyWin.Core/Ipc/VaultHandler.cs:475-527 | writes the response map; an undecodable user handle fails |
| Responses.AssertionReads | src/KeePassKeyWin.Core/Ipc/VaultHandler.cs:475-527 | decoding the response recovers every part; key 4 is present exactly when a user entity was given, the names in it exactly when they were |
| DecimalText.RoundTrip | src/KeePassKeyWin.Plugin/Storage/KeePassPasskeyStore.cs:171-178 | the decimal text of a number parses back to it up to 2^32 - 1 and to nothing beyond |
| VaultStore.KeePassPasskeyStore.Add | src/KeePassKeyWin.Plugin/Storage/KeePassPasskeyStore.cs:50-84 | appends the record with count text "0" and no duplicate check, and then saves: if Save throws the record stays in memory and the call fails |
| VaultStore.KeePassPasskeyStore.FindByRpId | src/KeePassKeyWin.Plugin/Storage/KeePassPasskeyStore.cs:86-100 | the records of exactly that RP ID, in vault order |
| VaultStore.ByRpIdMeans | src/KeePassKeyWin.Plugin/Storage/KeePassPasskeyStore.cs:86-100 | entry by entry: a record is among those found exactly when it has that RP ID, and in the order of the entries |
| VaultStore.KeePassPasskeyStore.FindById | src/KeePassKeyWin.Plugin/Storage/KeePassPasskeyStore.cs:102-115 | the first record with that ID, if any |
| VaultStore.ByIdMeans | src/KeePassKeyWin.Plugin/Storage/KeePassPasskeyStore.cs:102-115 | what is found is the record of the first entry with that ID, and nothing exactly when no entry has it |
| VaultStore.KeePassPasskeyStore.Delete | src/KeePassKeyWin.Plugin/Storage/KeePassPasskeyStore.cs:117-140 | removes the first record with that ID and says whether there was one; if Save throws after a removal the record stays removed in memory and the call fails |
| VaultStore.WithoutMeans | src/KeePassKeyWin.Plugin/Storage/KeePassPasskeyStore.cs:117-140 | deletion takes away exactly the first entry with the ID and keeps all others in order |
| VaultStore.KeePassPasskeyStore.IncrementSignCount | src/KeePassKeyWin.Plugin/Storage/KeePassPasskeyStore.cs:142-193 | advances the first matching count through its text, or throws and changes nothing; if Save throws the advanced count stays in memory and the call fails |
| VaultStore.IncrementedMeans | src/KeePassKeyWin.Plugin/Storage/KeePassPasskeyStore.cs:142-193 | the increment is strict, survives the text form, touches one count and nothing else; an unknown ID or a count of 2^32 - 1 is refused |
| VaultStore.CountMeans | src/KeePassKeyWin.Plugin/Storage/KeePassPasskeyStore.cs:160-170 | a count is the number its decimal text says, and zero for a missing text or one beyond 2^32 - 1 |
| PluginState.UvFallbackPrompt.ShouldProceed | src/KeePassKeyWin.Core/Ipc/UvFallbackPrompt.cs:20-31 | a decision once taken is returned ever after; an exception decides nothing |
| PluginState.OpSignPubKeyCache.Set | src/KeePassKeyWin.Core/Crypto/OpSignPubKeyCache.cs:48-53 | replaces the cached key |
| VaultHandling.VaultHandler.VerifyAndDecodeCbor | src/KeePassKeyWin.Core/Ipc/VaultHandler.cs:991-1053 | the presence, base64, bypass, cache and signature checks in the order of the code |
| VaultHandling.VaultHandler.VerifyUvSignatureOrPrompt | src/KeePassKeyWin.Core/Ipc/VaultHandler.cs:899-976 | the tier table: v2 signature, v1 or absent prompt, anything else refused |
| VaultHandling.VaultHandler.HandleMakeCredentialRaw | src/KeePassKeyWin.Core/Ipc/VaultHandler.cs:114-203 | the handler computes the state step and the answer of makeCredentialRaw |
| VaultHandling.VaultHandler.HandleGetAssertionRaw | src/KeePassKeyWin.Core/Ipc/VaultHandler.cs:225-335 | the handler computes the state step and the answer of getAssertionRaw, the count advanced before signing |
| VaultHandling.VaultHandler.CreatePasskey | src/KeePassKeyWin.Core/Ipc/VaultHandler.cs:60-106 | the handler computes the state step and the answer of createPasskey: three required texts, two defaults that apply only to missing names, the user handle stored unchecked |
| VaultHandling.VaultHandler.DeleteCredential | src/KeePassKeyWin.Core/Ipc/VaultHandler.cs:845-852 | the handler computes the state step and the answer of deleteCredential |
| VaultHandling.VaultHandler.SelectCredential | src/KeePassKeyWin.Core/Ipc/VaultHandler.cs:264-302 | the selection loop computes the choice of credential |
| VaultHandling.FirstListedMeans | src/KeePassKeyWin.Core/Ipc/VaultHandler.cs:283-302 | with an allowList the choice is the first listed raw ID the vault holds, and none exactly when it holds none |
| VaultHandling.FirstForRp | src/KeePassKeyWin.Core/Ipc/VaultHandler.cs:264-281 | without one it is the vault's first record of exactly that RP ID, and none exactly when there is none |
| VaultHandling.ChosenIff | src/KeePassKeyWin.Core/Ipc/VaultHandler.cs:264-302 | both ways of choosing, over the entries alone: without an allowList the first entry of exactly that RP ID; with one the first listed ID that some entry has, in the first entry that has it; nothing exactly when there is none |
| VaultHandling.ExcludedIff | src/KeePassKeyWin.Core/Ipc/VaultHandler.cs:142-150 | the exclude check hits exactly when some excluded ID is that of some entry |
| VaultHandling.ListedForRp | src/KeePassKeyWin.Core/Ipc/VaultHandler.cs:283-302 | with an allowList the choice is for the requested RP exactly when the first listed credential the vault holds is |
| VaultHandling.ListedForRpInAnyOrder | src/KeePassKeyWin.Core/Ipc/VaultHandler.cs:283-302 | in whatever order the list is given the choice is for the requested RP, exactly when every listed credential the vault holds is that RP's |
| VaultHandling.AllowListCrossesRps | src/KeePassKeyWin.Core/Ipc/VaultHandler.cs:283-302 | a listed credential of another RP is chosen: a concrete vault and request |
| VaultGates.GateIffAuthorised | src/KeePassKeyWin.Core/Ipc/VaultHandler.cs:899-1053 | bypass or not, the gates let bytes through exactly when, unless bypassed, the primitive accepts a signature of the cached key over them, and either (v2 tiers) a UV signature over the same bytes is a 64-byte signature the primitive accepts, raw or in any spelling, or (v1 or absent) a prompt is wired and the user says yes: by the answer latched if there is one, else by the answer given now |
| VaultGates.GateLatches | src/KeePassKeyWin.Core/Ipc/VaultHandler.cs:943-971 | the gates change nothing but the latch, and that exactly when a v1 or untiered call whose bytes are in order is answered while nothing is decided: then to the answer given |
| VaultGates.SignatureChecks | src/KeePassKeyWin.Core/Ipc/VaultHandler.cs:991-1053 | the first gate is passed by the bypass, or by a non-empty signature that the primitive accepts under the cached key; the first check that fails refuses |
| VaultGates.PromptRefusals | src/KeePassKeyWin.Core/Ipc/VaultHandler.cs:943-971 | v1 and untiered calls are refused exactly for a missing prompt, a prompt that fails with nothing decided, or a no, latched or given now |
| VaultGates.RawChangesAuthorised | src/KeePassKeyWin.Core/Ipc/VaultHandler.cs:114-335 | in every run a raw method changes the vault only for such bytes, and only if they parse as its request |
| VaultGates.RefusalChangesNothing | src/KeePassKeyWin.Core/Ipc/VaultHandler.cs:114-203 | makeCredentialRaw changes the vault exactly when it succeeds or Save throws after the record went in, and then by exactly one record at the end whose algorithm was offered and is -7 if that was |
| VaultGates.RegisteredIff | src/KeePassKeyWin.Core/Ipc/VaultHandler.cs:114-203 | makeCredentialRaw succeeds exactly when the gates let it through, it parses, no excluded ID is that of an entry, and Save returns; otherwise it fails with the first of these that does not hold |
| VaultGates.ReplyIff | src/KeePassKeyWin.Core/Ipc/VaultHandler.cs:304-335 | for every stored record, whoever made it, the answer fails after the count was advanced exactly when the key is no base64, the algorithm is neither -7 nor -257, signing throws, the ID is no base64url, or no credentials were listed and the user handle is no base64url |
| VaultGates.CountBurns | src/KeePassKeyWin.Core/Ipc/VaultHandler.cs:304-335 | getAssertionRaw advances a count exactly when it selects a record whose counter is not full; it fails and leaves the count advanced exactly when Save then throws or the record fails so; every other failure changes nothing |
| VaultGates.AssertRefusals | src/KeePassKeyWin.Core/Ipc/VaultHandler.cs:225-302 | which fault ends a getAssertionRaw that advances no count: the gate, the parser, up = false, no record to choose, or a full counter, in this order |
| VaultGates.FileFollows | src/KeePassKeyWin.Plugin/Storage/KeePassPasskeyStore.cs:50-193 | a request leaves the file a copy of the vault exactly when it changed the vault and Save returned, and otherwise as it was |
| VaultGates.AddedIsMadeHere | src/KeePassKeyWin.Core/Ipc/VaultHandler.cs:60-203 | whatever request adds a record, saved or not, its key and ID read back as what was drawn, and its user handle does if makeCredentialRaw made it |
| VaultGates.OwnRecordIsAnswered | src/KeePassKeyWin.Core/Ipc/VaultHandler.cs:60-335 | over any run, a record made by either method and later selected with its counter not full is answered exactly when Save returns, signing does not throw, and a handle that createPasskey stored is base64url or not due |
| VaultGates.LatchHolds | src/KeePassKeyWin.Core/Ipc/UvFallbackPrompt.cs:20-31 | over a run the prompt decision never changes once taken |
| VaultGates.LatchIsFirstAnswer | src/KeePassKeyWin.Core/Ipc/UvFallbackPrompt.cs:20-31 | in a run that begins undecided, something is decided exactly if some prompt was answered, and then it is the first answer the user gave |
| VaultGates.DeclinedForGood | src/KeePassKeyWin.Core/Ipc/VaultHandler.cs:943-971 | after one refusal no later v1 or untiered raw call of the run changes the vault, bypass or not |
| VaultGates.KeyFromHandshake | src/KeePassKeyWin.Core/Crypto/OpSignPubKeyCache.cs:48-70 | the cached key of any state is the initial one or one a handshake delivered |
| VaultRuns.TickKeeps | src/KeePassKeyWin.Plugin/Storage/KeePassPasskeyStore.cs:50-193 | every step of a run with fresh IDs keeps IDs distinct and canonical in the vault and in its file, and moves no credential back behind a record and count that both have reached; unlocking reads the file again and drops what was not saved |
| VaultRuns.TickAsserted | src/KeePassKeyWin.Core/Ipc/VaultHandler.cs:225-335 | what an answered getAssertionRaw is about: the selected record, its next count, its RP ID hash, its signature over authData and client data hash |
| VaultRuns.CountersIncrease | src/KeePassKeyWin.Core/Ipc/VaultHandler.cs:304-333 | in every run with fresh credential IDs the counters decoded from successive answers for one credential strictly increase, across creations, deletions, failures, throwing saves, handshakes, lockings and unlockings that drop what was not saved |
| VaultRuns.AnswerIsForRp | src/KeePassKeyWin.Core/Ipc/VaultHandler.cs:264-311 | the answer is about the chosen record, the first entry of the RP ID when no credentials are listed, and carries its RP ID hash; that record is the requested RP's exactly when no credentials were listed or the first listed one the vault holds is that RP's, and always when all those it holds are |
| VaultRuns.OwnListIsAnsweredForRp | src/KeePassKeyWin.Core/Ipc/VaultHandler.cs:114-335 | a relying party that lists only credentials it registered earlier in the run is answered for its own RP ID |
| VaultRuns.TickRegistered | src/KeePassKeyWin.Core/Ipc/VaultHandler.cs:114-203 | what an answered makeCredentialRaw did: one record more, with every field of the request in its place, no excluded ID among the entries before, and an answer that decodes to the record's ID, key and RP ID hash |
| VaultRuns.TickCreated | src/KeePassKeyWin.Core/Ipc/VaultHandler.cs:60-106 | createPasskey adds exactly one record, field by field what the request and the draws say, exactly when its three texts are not empty; it succeeds exactly if Save then returns, and its authenticator data reads back as the RP ID hash, count 0, the ID drawn and the key drawn |
| VaultRuns.TickDeleted | src/KeePassKeyWin.Core/Ipc/VaultHandler.cs:845-852 | deleteCredential takes away the first entry with the ID and nothing else, says whether there was one, and fails for an empty ID or when Save throws after it |
| VaultRuns.RegisterThenAssert | src/KeePassKeyWin.Core/Ipc/VaultHandler.cs:114-335 | an answer that names a credential registered earlier in the run is about exactly the record then stored |
| VaultRuns.UserReturned | src/KeePassKeyWin.Core/Ipc/VaultHandler.cs:311-333 | register, then assert: a discoverable answer returns the exact user.id bytes of the registration request, the names exactly when uv is true, and no user entity when the request listed credentials |
| VaultExample.RegistersThenAnswersTwice | src/KeePassKeyWin.Core/Ipc/VaultHandler.cs:114-335 | a run from request bytes, with the bypass off: a credential is registered, answers a request of another RP that lists it with its own RP ID hash, and then answers its own RP |
| VaultExample.BurnsACount | src/KeePassKeyWin.Core/Ipc/VaultHandler.cs:60-335 | a run in which createPasskey stores the handle "!", and a later assertion fails with its count advanced, although signing never throws and Save returns |
| VaultExample.UnsavedStays | src/KeePassKeyWin.Plugin/Storage/KeePassPasskeyStore.cs:77-78 | a run in which Save throws during a registration: the call fails, the record stays, and it is gone once KeePass is unlocked again |
| PipeMachine.NextKeeps | src/KeePassKeyWin.Provider/src/com/exe_server.rs:158-224 | every move of activations, dispatches, their futures and reconciliation tasks keeps the ownership invariant |
| PipeMachine.SlotIsOwner | src/KeePassKeyWin.Provider/src/com/exe_server.rs:158-224 | over every interleaving there is at most one connection, the shared slot names S exactly when S, a call or a task acting for S has the pipe or the right to reconnect it, the slot is never left half-dead at rest, and at most one call waits |
| PipeMachine.MovesAreSafe | src/KeePassKeyWin.Provider/src/com/exe_server.rs:411-482 | a connection is opened only when none is open, a pipe is stored only into an empty state, a clear drops only the state whose reconnect failed, and an activation stores only into an empty slot |
| PipeMachine.OneFrame | src/KeePassKeyWin.Provider/src/com/server.rs:286-291 | a re-entrant call never waits: it finds no pipe, or the shared state, and goes on at once |
| PipeMachine.BorrowReturns | src/KeePassKeyWin.Provider/src/com/exe_server.rs:467-482 | reconciliation takes the pipe of its state if it is there, and giving it back restores everything but its own task |
| SidecarRetry.Sidecar.ClearSharedState | src/KeePassKeyWin.Provider/src/com/exe_server.rs:424-426 | empties the slot and nothing else |
| SidecarRetry.Sidecar.ConnectAndHandshake | src/KeePassKeyWin.Provider/src/com/exe_server.rs:335-409 | a usable pipe or an error; a pipe whose hello failed is dropped |
| SidecarRetry.Sidecar.CfCreateInstance | src/KeePassKeyWin.Provider/src/com/exe_server.rs:158-224 | reuses the shared state; otherwise shares a new one, and starts reconciliation, exactly when the handshake worked |
| SidecarRetry.Sidecar.TakeCallWithRetry | src/KeePassKeyWin.Provider/src/com/server.rs:273-360 | the code computes the outcome: the reply, the pipe left in the state, the traffic, and the slot |
| SidecarRetry.StaleIff | src/KeePassKeyWin.Provider/src/com/classify_rpc_error.rs:51-61 | an error counts as stale exactly when it is a broken pipe or an aborted connection |
| SidecarRetry.RetryDiscipline | src/KeePassKeyWin.Provider/src/com/server.rs:273-360 | a reconnect is made exactly when the first send ends in a broken pipe or an aborted connection, right after the old pipe was dropped; a second, identical send exactly when the reconnect gives a usable pipe. The reply is that of the last send, or the error of the connect; the pipe kept is the one last sent on |
| PluginRestarts.AnsweredIff | src/KeePassKeyWin.Provider/src/com/server.rs:273-360 | over every interleaving with a plugin that ends, starts and hangs up at any time, and whatever each send on a dead pipe reports: a dispatch during which the plugin does none of these gets the plugin's answer exactly when the pipe it found was alive, or its first send reported a stale pipe and the reconnect, hello included, did not fail; it then leaves a live pipe, after a failed reconnect a cleared slot, otherwise the same dead pipe |
| PluginRestarts.StuckUntilStale | src/KeePassKeyWin.Provider/src/com/server.rs:300-312 | from a stored dead pipe on, up to the first send on it that reports a stale pipe, no event closes it, opens another connection or brings a dispatch the plugin's answer, however often the plugin starts again |
| PluginRestarts.FirstStaleHeals | src/KeePassKeyWin.Provider/src/com/server.rs:300-360 | the dispatch of that first stale report, if the plugin does nothing before it ends, is answered and leaves a live pipe exactly when its reconnect does not fail, and otherwise clears the slot |
| PluginRestarts.StaysLostCase | src/KeePassKeyWin.Provider/src/com/classify_rpc_error.rs:39-61 | for every n a run in which the plugin restarts once and n dispatches after that are all lost |
| PluginRestarts.LostThenHealedCase | src/KeePassKeyWin.Provider/src/com/classify_rpc_error.rs:13-21 | a run in which the plugin restarts in the middle of a call, which is lost, and the next dispatch finds the pipe stale, reconnects and is answered |
| SidecarRetry.EofIsNotHealed | src/KeePassKeyWin.Provider/src/com/classify_rpc_error.rs:51-61 | a send that ends in end-of-file loses the answer, and that call keeps the dead pipe: a concrete case |
| SidecarRetry.CallIsMachineRun | src/KeePassKeyWin.Provider/src/com/server.rs:273-360 | the call of the code is a run of the machine that ends with the same pipe and slot |
| SidecarRetry.ActivationIsMachineRun | src/KeePassKeyWin.Provider/src/com/exe_server.rs:158-224 | an activation of the code is a run of the machine: nothing while a state is shared, otherwise a new state that is shared, with a reconciliation task, exactly when its handshake worked |
| Reconcile.AddMissing | src/KeePassKeyWin.Provider/src/com/exe_server.rs:539-602 | the add loop computes its calls and gives up on the first that cannot be made |
| Reconcile.RemoveStale | src/KeePassKeyWin.Provider/src/com/exe_server.rs:612-630 | the remove loop computes its calls and stops at the first that cannot be made |
| Reconcile.ReconcileVaultWithOs | src/KeePassKeyWin.Provider/src/com/exe_server.rs:484-638 | the whole pass makes exactly the specified calls in order, whatever each returns |
| Reconcile.CallsAreDirected | src/KeePassKeyWin.Provider/src/com/exe_server.rs:539-631 | an add is only for a parseable vault record that is not in Windows' array, a removal only for a non-empty ID of the array that the enumeration lacks; without an array nothing is removed |
| Reconcile.PassWorksOff | src/KeePassKeyWin.Provider/src/com/exe_server.rs:539-638 | a pass calls for every record to publish and then for every ID to withdraw, in order, up to the first call that cannot be made; a call that Windows refuses stops nothing |
| Reconcile.CallsOfPass | src/KeePassKeyWin.Provider/src/com/exe_server.rs:539-631 | if every call takes effect, it adds exactly the parseable records not listed and removes exactly the listed non-empty IDs the vault lacks |
| Reconcile.FreedOnce | src/KeePassKeyWin.Provider/src/com/exe_server.rs:595-636 | the array is freed once and last exactly when its count is not 0, its pointer not null and the symbol exported, and never otherwise |
| Reconcile.DifferenceShrinks | src/KeePassKeyWin.Provider/src/com/exe_server.rs:539-631 | a pass never enlarges the symmetric difference of the two sides, whatever each call returns |
| Reconcile.PassCompletes | src/KeePassKeyWin.Provider/src/com/exe_server.rs:539-631 | if every call takes effect, what Windows then has is exactly: of the vault's IDs those it listed and those of parseable records, of others the empty ID if listed |
| Reconcile.SecondPassIsQuiet | src/KeePassKeyWin.Provider/src/com/exe_server.rs:539-631 | and a second pass makes no add or remove call |
| Reconcile.AddsAreNewIffNoRepeats | src/KeePassKeyWin.Provider/src/com/exe_server.rs:539-602 | no add names an ID Windows has by then exactly when the vault asks for no ID twice |
| Reconcile.RepeatIsAddedTwice | src/KeePassKeyWin.Provider/src/com/exe_server.rs:539-602 | a vault array that names an ID twice is published twice: a concrete case |
| Reconcile.LateCredentialIsWithdrawn | src/KeePassKeyWin.Provider/src/com/exe_server.rs:478-501 | a credential created after the enumeration and published before the listing is withdrawn: a concrete case |
| Reconcile.WithdrawsNoneIffNothingNew | src/KeePassKeyWin.Provider/src/com/exe_server.rs:478-631 | no credential of the current vault is ever withdrawn, whatever Windows lists and returns, exactly when the vault gained none since it was enumerated |
| UserVerification.WebauthnBindings.constructor | src/KeePassKeyWin.Provider/src/com/webauthn_ext.rs:256-269 | resolution order of the entrypoints; the tier is V1 exactly when no v2 is resolved |
| UserVerification.WebauthnBindings.ObserveV2Result | src/KeePassKeyWin.Provider/src/com/uv_fallback.rs:60-64 | sets the latch exactly on E_NOTIMPL |
| UserVerification.WebauthnBindings.PerformUserVerification2 | src/KeePassKeyWin.Provider/src/com/webauthn_ext.rs:475-543 | the code computes HRESULT, tier, latch, out-values and traffic, whatever each entrypoint writes |
| UserVerification.WebauthnBindings.FreeUserVerificationResponse | src/KeePassKeyWin.Provider/src/com/webauthn_ext.rs:582-589 | frees a non-null buffer |
| UserVerification.WebauthnBindings.VerifyUser | src/KeePassKeyWin.Provider/src/com/server.rs:519-561 | the dispatch captures the signature and frees the buffer on every path |
| UserVerification.TierIsCaller | src/KeePassKeyWin.Provider/src/com/webauthn_ext.rs:475-543 | v2 is called exactly when it is resolved and not latched, and its answer stands unless it is 0x80004001, which latches; the tier reported is V1 exactly when the HRESULT came from v1, called last |
| UserVerification.ForwardedIff | src/KeePassKeyWin.Provider/src/com/server.rs:519-561 | which buffer\'s bytes go to the plugin, in terms of what each entrypoint returned and wrote |
| UserVerification.NoV2AfterNotImpl | src/KeePassKeyWin.Provider/src/com/uv_fallback.rs:46-64 | over any sequence of dispatches v2 is never called again after its first E_NOTIMPL |
| UserVerification.RunFrees | src/KeePassKeyWin.Provider/src/com/server.rs:541-552 | over any sequence of dispatches the buffers freed are exactly the buffers handed out, each once |
| UserVerification.RunFreesAtOnce | src/KeePassKeyWin.Provider/src/com/webauthn_ext.rs:531-536 | the act after a buffer is handed out frees it, and nothing else frees anything |
| Handshake.RegistryNonceStore.Initialize | src/KeePassKeyWin.Plugin/Ipc/RegistryNonceStore.cs:28-37 | the drawn nonce is the one kept, and the one published if the registry can be written |
| Handshake.RegistryNonceStore.ConsumeNonce | src/KeePassKeyWin.Plugin/Ipc/RegistryNonceStore.cs:39-54 | matches letter case aside and then rotates, which throws after the change in memory if the registry cannot be written; otherwise changes nothing |
| Handshake.RegistryNonceStore.Clear | src/KeePassKeyWin.Plugin/Ipc/RegistryNonceStore.cs:56-65 | leaves no nonce to match |
| Handshake.RpcDispatcher.HandleHello | src/KeePassKeyWin.Core/Ipc/HandshakeHandler.cs:31-75 | the checks in order; the connection is complete before the key is looked at |
| Handshake.RpcDispatcher.Dispatch | src/KeePassKeyWin.Plugin/Ipc/RpcDispatcher.cs:27-39 | hello is handled, everything else needs a complete handshake and a wired vault handler |
| Handshake.ConsumesIff | src/KeePassKeyWin.Core/Ipc/HandshakeHandler.cs:33-51 | a hello consumes a nonce exactly when its connection is not complete, it names the expected package and a nonce, and that nonce is the current one letter case aside |
| Handshake.AlikeIff | src/KeePassKeyWin.Plugin/Ipc/RegistryNonceStore.cs:44-45 | the comparison holds exactly for texts of one length that differ in the case of letters alone |
| Handshake.HelloAnswers | src/KeePassKeyWin.Core/Ipc/HandshakeHandler.cs:31-75 | which answer each hello gets, check by check; one that consumes nothing changes nothing |
| Handshake.OtherIsForwardedIff | src/KeePassKeyWin.Plugin/Ipc/RpcDispatcher.cs:27-39 | any other method, whatever its name, is forwarded exactly on a complete connection with a vault handler wired, and changes nothing |
| Handshake.NoncesAreTheLast | src/KeePassKeyWin.Plugin/Ipc/RegistryNonceStore.cs:28-65 | over any run the registry holds what was last written to it and the plugin accepts what it last drew, until either is cleared |
| Handshake.KeyArrives | src/KeePassKeyWin.Core/Ipc/HandshakeHandler.cs:62-72 | the key a consuming hello carries in base64 is the key cached |
| Handshake.AuthenticatedIffConsumed | src/KeePassKeyWin.Core/Ipc/PipeServer.cs:99-131 | over every run a connection is authenticated exactly when a hello on it consumed a nonce and its successor could be written |
| Handshake.OneNoncePerConnection | src/KeePassKeyWin.Core/Ipc/HandshakeHandler.cs:33-51 | no connection consumes a second nonce unless the successor of the first could not be written |
| Handshake.NonceConsumedOnce | src/KeePassKeyWin.Plugin/Ipc/RegistryNonceStore.cs:39-54 | with fresh draws no nonce is consumed twice, so a replayed one is never accepted |
| Handshake.HonestIffWritten | src/KeePassKeyWin.Plugin/Ipc/RegistryNonceStore.cs:28-54 | with fresh draws a hello that presents the published nonce consumes the current one exactly when that could be written when it was drawn |
| Handshake.UnwrittenCase | src/KeePassKeyWin.Plugin/Ipc/RegistryNonceStore.cs:33-36 | a run in which the next nonce cannot be written: the hello fails with its nonce consumed, and an honest hello after it is refused |
| Handshake.ForwardedIsAuthenticated | src/KeePassKeyWin.Plugin/Ipc/RpcDispatcher.cs:32-36 | a vault method is forwarded only on a connection whose hello consumed a nonce and could write the next |
| Handshake.KeyFromConsumingHello | src/KeePassKeyWin.Core/Ipc/HandshakeHandler.cs:51-72 | any cached op-sign key came in a hello that consumed a nonce |
| Handshake.CompleteBeforeKey | src/KeePassKeyWin.Core/Ipc/HandshakeHandler.cs:51-72 | a consuming hello authenticates exactly when the next nonce could be written, and then leaves its key cached exactly when it carries a readable one; without it the connection is authenticated all the same |
| Handshake.AuthenticatedWithoutKeyCase | src/KeePassKeyWin.Core/Ipc/HandshakeHandler.cs:51-72 | a run in which a hello without a key is refused and the next request on its connection is forwarded |
| KnownValues.Names | src/KeePassKeyWin.Core/Ipc/VaultHandler.cs:370-656 | the member names the parsers and builders compare with, letter by letter |
| KnownValues.Alphabet | src/KeePassKeyWin.Core/Util/Base64Url.cs:10-25 | the alphabet of section 4 of RFC 4648 and the two characters of section 5 |
| KnownValues.Base64UrlVector | src/KeePassKeyWin.Core/Util/Base64Url.cs:10-14 | a text with both of these characters |
| KnownValues.CborVectors | src/KeePassKeyWin.Core/Cbor/CborWriter.cs:74-106 | items of appendix A of RFC 8949 have the bytes given there |
| KnownValues.CborRefused | src/KeePassKeyWin.Core/Cbor/CborReader.cs:228-277 | a tag, a reserved length, an indefinite length and a float are refused, whatever follows |
| KnownValues.DerVector | src/KeePassKeyWin.Core/Crypto/EcdsaSigner.cs:56-122 | the DER of the pair 1, 128 |
| KnownValues.AuthDataVectors | src/KeePassKeyWin.Core/WebAuthn/AuthDataBuilder.cs:34-93 | the flags byte of the four kinds of authenticator data, and the byte order of numbers |

## Left out

- Base64Url.DecodableIff: texts with white space or padding, which the .NET decoder also takes; the model decodes them, this lemma does not speak of them.
- Responses.AttestationReads: sizes beyond 2^64 - 1 bytes, and running out of memory anywhere; a real array is far smaller.
- RequestItems.GetHasEncodingIff: texts and lists longer than 2^64 - 1; no header can declare them.
- RequestItems.MakeHasEncodingIff: texts and lists longer than 2^64 - 1; no header can declare them.
- CborDecoding.CborReader.SkipValue: the call stack; very deep nesting overflows it in the original, the model only proves termination.
- CborDecoding.CborReader.ReadTextString: the replacement of invalid UTF-8 when text is decoded; the model keeps the bytes.
- CborEncoding.CborWriter.WriteMap: the sorting algorithm of List.Sort; an insertion sort stands for it, and for distinct keys the result is unique.
- PluginRestarts.AnsweredIff: the back-off inside a connect, which is one outcome; and an answer read from a pipe whose plugin has ended since it wrote it, which counts as lost.
- Reconcile.PassCompletes: an AddCredentials or RemoveCredentials call that reports failure but takes effect, or the reverse.
- VaultRuns.CountersIncrease: entries edited by hand in KeePass or by a synchronised copy of the database, another database file, and requests served by two threads at once.
- Handshake.NonceConsumedOnce: a collision of two random 32-byte nonces; freshness of the draws is a premise.
- The loop bodies of the parsers, of SkipValue and of the signature conversions are methods of their own, and two identical zero-stripping loops are one.
- Strings of an entry that are missing altogether; entries of the model have all the strings Add writes, and an algorithm ID is a number, not its text.
- Transports, flags, times, AAGUID and title of an entry: stored and never read back by the modelled code.
- listCredentials, signAssertion, enumerateForSync: steps that change nothing; signAssertion rebuilds its data with count 0, so it is no part of the counter claims.
- JSON and the base64 of its members: a request member is missing, malformed or bytes; the pipe's framing, UI refreshes, what Save writes to disk, logging, environment variables and the registry: the bypass is a constant, the nonce's registry copy a field.
- COM vtables, reference counts, class factory locking, message pumping and panics: only the moves they allow.
- PKCS#8, key generation, key blobs, DLL symbol loading beyond the order of the verification entrypoints.
- Building the CTAP hint text, the AddCredentials call after a registration, HRESULT mapping of RPC errors, authenticator information: easy or constant.
