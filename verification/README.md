# ksmbd-tools in Dafny

A model of the user-space half of the ksmbd SMB server: the MD4 digest of stored passwords, the ASN.1
and SPNEGO messages of a Kerberos login, the NDR marshalling and the named-pipe protocol of its RPC
services, security descriptors, share enumeration and bind negotiation, the lifetimes of shares,
sessions and tree connections in the daemon, host access lists, the share configuration sent to the
kernel, and the configuration file with the commands that edit it.

Each part follows one pattern. Functions on values say what an operation means, lemmas prove what the
system promises about those functions, and classes and methods in the form of the C code are proved
equal to them. `dafny verify dfyconfig.toml` checks the whole project.

| files | part of the system |
|---|---|
| Md4, Md4Words, Md4Shift, Md4Laws, Md4Vectors | the digest behind the password database |
| Asn1, Asn1Codec, Spnego | tags, lengths, object identifiers and the login reply |
| Ndr, NdrCodec, NdrLists | the RPC marshalling buffer |
| Smbacl, SmbaclReader | security identifiers and the security descriptor |
| Bind, Pipes, Srvsvc | bind negotiation, the pipe protocol, NetShareEnumAll |
| ShareLifetime, TreeConn | reference counts, connection and session limits, over whole runs |
| Hosts, ShareConfig | host patterns, and the share configuration for the kernel |
| ConfText, ConfParser, ConfReader | the configuration file and its parser |
| ConfPrinter, ConfWriter, Sorting, ShareConf | writing the configuration back |
| ConfUpdate, ConfCommands | the share commands, and what they leave in the file |
| Bytes | octets and buffers |

## What is proved

- Feeding a message to the MD4 context in any pieces gives the one-shot digest of RFC 1320 of the whole
  message, for every length, although the byte counter wraps. Its word functions are what RFC 1320 says bit by
  bit, and the digests of two messages of its test suite come out.
- ASN.1 headers decode to what was encoded for every length. An object identifier round-trips exactly
  when its first two arcs are well formed and fit one octet below 128 and every later arc fits 35 bits; the
  encoder cuts larger ones. The login reply fills the buffer that was computed for it to the last octet and reads back.
- Any list of NDR items that was written reads back, from any offset, in both byte orders and all
  alignments; a refused write leaves every payload alone exactly when its first primitive is refused.
- The two-pass security descriptor, with its size patched in later, equals the one-pass write, and it
  occupies its declared length exactly when it starts 4-aligned. A reader that follows its offsets and sizes
  finds the four entries with their rights and whole identifiers.
- In every interleaving of lookups, puts, additions and reloads a share's count is its table membership
  plus its outstanding references, no freed share is touched, and a share is freed exactly when unused.
- In every run of tree connects and disconnects the accounts balance. A share's live connections are its
  counter and its drift, which gains one at each refusal at the limit and loses one at each disconnect that
  finds the counter at zero. So the limit holds if and only if counter and drift stay within it, and a granted
  connection passes it if and only if they had reached it before. Live sessions stay within the capacity if
  and only if the sessions that never asked for a slot fit into the free slots, and a granted connection of a
  new session passes the capacity if and only if they had filled them before. Concrete runs exceed both.
  A disconnect undoes a connect, and the rights granted follow from the lists alone. A reload gives no slot
  back: in no run does it matter what a reloaded file says in its global section.
- Printing a configuration and parsing it gives it back exactly when no entry, printed as `key = value`,
  reads as a group header. The first line that gives a key a value sets it. A command changes the parameters its
  options name, the last option for each deciding, and nothing else in the file. After every run of commands that
  complete, the file parses to what the commands made of it. A command that is accepted completes exactly when
  it does not remove [ipc$] and what it makes has [global] or no [ipc$].
- A host pattern accepts exactly the addresses that share its prefix bits, the prefix length being the low 32
  bits of the number written.
- A pipe delivers at most one reply for each request it took, in every run whose encoders do not make what
  they deliver ready again; the enumeration encoder, the one that could, never does. An enumeration reply
  lists every share once with consecutive pointers, a client that follows them finds every field of every share,
  and the pipe drops every reference it took. No request changes what others hold on a share, and closing a pipe
  returns what it holds itself if and only if the callback that does so is set and every entry is counted, or no
  entry waits.

Where the code departs from its documentation or its purpose, the model follows the code:

- The comment above the host matcher (tools/management/share.c:930-943) promises a plain comparison when
  the prefix does not parse. A length outside the address width gets it if and only if its low 32 bits, as
  an int, are outside too (`Hosts.WideLengthExactly`). Otherwise those bits are the prefix length: 2^32 + 24
  acts as /24, and 2^32 accepts every address of the family (`Hosts.WidePatternAcceptsAll`).
- The limits `max connections` and `max active sessions` can be exceeded as described above
  (`TreeConn.LimitExceeded`, `TreeConn.CapacityExceeded`).
- Removing [ipc$] leaves the parser with a pointer to a freed group, which the writer reads; adding [ipc$] to
  a file without [global] makes the writer's list of groups a ring (`ConfUpdate.IpcCommandsStop`,
  `ConfCommands.RunCommand`).
- A bind on a pipe whose enumeration could not be sent unsets the callback, and the references of the waiting
  entries are not returned when the pipe is closed (`Pipes.CloseAfterFailedRead`).
- A NetShareEnumAll request for an unsupported level is answered with a count of zero and a TotalEntries
  of all listed shares (`Srvsvc.TotalAgreesExactly`).

## Model

| member | source | states |
|---|---|---|
| Md4.PadFillsBlocks | adduser/md4_hash.c:198-215 | padding always completes a whole number of 64-octet blocks and keeps the message in front |
| Md4.FoldBlocksSplits | adduser/md4_hash.c:169-196 | compressing two aligned pieces one after the other is compressing them joined |
| Md4.LengthWords | adduser/md4_hash.c:213-214 | the two words cut out of the wrapped byte count are the halves of the bit count modulo 2^64 |
| Md4.LoadUndoesStore | adduser/md4_hash.c:72-86 | a word stored octet by octet is loaded as the same number, as the count words need |
| Md4.PadTail | adduser/md4_hash.c:198-214 | the padding of the whole message is that of its incomplete last block, in one or two blocks |
| Md4.FourSteps | adduser/md4_hash.c:88-152 | four unrolled register updates are four steps of the table-driven compression |
| Md4.Transform | adduser/md4_hash.c:88-152 | the 48 unrolled steps compute the compression function of RFC 1320 |
| Md4.Context.TransformHelper | adduser/md4_hash.c:154-158 | one block from the buffer is compressed into the hash |
| Md4.Context.constructor | adduser/md4_hash.c:160-167 | a new context has absorbed the empty message |
| Md4.Context.Update | adduser/md4_hash.c:169-196 | a context that has absorbed a message absorbs the data behind it, whatever the split |
| Md4.Context.ConsumeBlocks | adduser/md4_hash.c:188-193 | whole blocks are folded until less than one is left |
| Md4.Context.Final | adduser/md4_hash.c:198-221 | the result is the one-shot digest of everything absorbed, and the context is wiped |
| Md4.HashPieces | adduser/md4_hash.c:160-221 | the digest of a message fed in any pieces is the digest of the whole message |
| Md4.HashWords | adduser/md4_hash.c:30-221 | on 32-bit words with the functions, constants and initial values of RFC 1320, the digest has sixteen octets and is that of the whole message |
| Md4Laws.FChooses | adduser/md4_hash.c:38-41 | in every bit, F chooses the second or third word by the first |
| Md4Laws.GIsMajority | adduser/md4_hash.c:43-46 | in every bit, G is the majority |
| Md4Laws.HIsParity | adduser/md4_hash.c:48-51 | in every bit, H is the parity |
| Md4Shift.ShiftMovesUp | adduser/md4_hash.c:32-36 | for every number of places the lower bits move up |
| Md4Shift.ShiftMovesAround | adduser/md4_hash.c:32-36 | and the upper bits come in at the bottom |
| Md4Shift.ShiftUndone | adduser/md4_hash.c:32-36 | the shift that completes the round undoes it |
| Md4Laws.RoundsAddRoots | adduser/md4_hash.c:53-69 | the constants of rounds 2 and 3 are the roots of 2 and 3 with thirty bits behind the point |
| Md4Laws.WordOrder | adduser/md4_hash.c:88-152 | round 2 takes the words of a block transposed, round 3 in bit-reversed order |
| Md4Laws.InitialOctets | adduser/md4_hash.c:160-167 | the initial registers are the octets 01 23 45 67 and so on of RFC 1320 |
| Md4Vectors.EmptyDigest | adduser/md4_hash.c:88-221 | the digest of the empty message is that of appendix A.5 of RFC 1320 |
| Md4Vectors.AbcDigest | adduser/md4_hash.c:88-221 | so is the digest of the message abc |
| Asn1.ContentUndoesWrapped | tools/asn1.c:262-284 | the content length is recovered from the total length of an element |
| Asn1.PeelUndoesNestedLen | tools/asn1.c:262-284 | the inner length is recovered from the length of any depth of nesting |
| Asn1.NestedLenMonotone | tools/asn1.c:262-284 | a longer content or a deeper nesting never makes a shorter element |
| Asn1.LengthFieldDecodes | tools/asn1.c:84-118 | the length field of every encodable length decodes to it |
| Asn1.HeaderRoundTrip | tools/asn1.c:120-143 | an encoded header decodes to its class, form, tag and end |
| Asn1.ArcDecodes | tools/asn1.c:187-202 | an encoded arc decodes to its low 35 bits |
| Asn1.OidRoundTrip | tools/asn1.c:204-259 | an encodable object identifier is read back from anywhere in a buffer |
| Asn1.LargeFirstLosesArc | tools/asn1.c:286-313 | a first octet with its continuation bit set makes whatever decodes shorter by an arc |
| Asn1.OidRoundTripExactly | tools/asn1.c:204-313 | for every identifier, decoding undoes encoding if and only if it is well formed and encodable |
| Asn1Codec.Ctx.Open | tools/asn1.c:28-35 | the context stands at the first octet without an error |
| Asn1Codec.Ctx.OctetDecode | tools/asn1.c:37-46 | the next octet, or the empty error with the pointer left in place |
| Asn1Codec.Ctx.IdDecode | tools/asn1.c:48-82 | the identifier octets decode as the reference function says, including long tags; a failure is the empty error at the end of the buffer |
| Asn1Codec.Ctx.LengthDecode | tools/asn1.c:84-118 | the length decodes as the reference function says and never passes the buffer; running out and an untrusted length leave different errors and pointers |
| Asn1Codec.Ctx.HeaderDecode | tools/asn1.c:120-143 | the header decodes as the reference function says; a primitive needs a definite length; each failure leaves its error and pointer |
| Asn1Codec.Ctx.OidDecode | tools/asn1.c:204-259 | the identifier decodes as the reference function says within the computed room |
| Asn1Codec.Ctx.ArcsDecode | tools/asn1.c:241-257 | every arc finds room, so the overflow error is never reported |
| Asn1Codec.HeaderLen | tools/asn1.c:262-284 | the length of a payload wrapped any number of times |
| Asn1Codec.ArcEncode | tools/asn1.c:300-309 | the unrolled branches write the base-128 text of an arc |
| Asn1Codec.OidEncode | tools/asn1.c:286-313 | the octets written are the encoding of the identifier and fit five per arc |
| Asn1Codec.HeaderEncode | tools/asn1.c:319-366 | the octets written are the header of what is left of the length |
| Spnego.CompareOid | tools/management/spnego.c:77-90 | zero exactly for equal identifiers |
| Spnego.TokenReads | tools/management/spnego.c:220-307 | reading the reply recovers result, mechanism, token identifier and blob |
| Spnego.TokenLengths | tools/management/spnego.c:237-244 | the lengths computed before encoding are those of the nested elements |
| Spnego.PutBody | tools/management/spnego.c:250-302 | the elements are written one behind the other at their computed lengths |
| Spnego.EncodeToken | tools/management/spnego.c:220-307 | the reply fills its buffer to the last octet |
| Spnego.EncodeNegTokenTarg | tools/management/spnego.c:220-307 | the buffer holds exactly the reply, and its fields read back |
| Spnego.MechanismsRecovered | tools/asn1.c:204-313 | the two Kerberos identifiers survive encoding and decoding |
| Spnego.MechanismOctets | tools/management/spnego.c:95-100 | the two Kerberos identifiers, octet by octet |
| Spnego.ShortReplyOctets | tools/management/spnego.c:220-307 | every reply with one-octet lengths, octet by octet, tags and lengths included |
| Ndr.Align | mountd/rpc.c:232-243 | the next multiple, less than one step away, and aligned offsets stay |
| Ndr.IntRoundTrip | mountd/rpc.c:279-325 | integers of every width survive in both byte orders |
| Ndr.OctetOrder | mountd/rpc.c:279-325 | which octet of a number stands where, in both byte orders |
| Ndr.PutPrimsFrame | mountd/rpc.c:245-299 | no octet outside the written range changes, whether or not the write succeeds |
| Ndr.PutPrimsLays | mountd/rpc.c:279-299 | a successful write leaves every primitive at its aligned place |
| Ndr.LaidKept | mountd/rpc.c:917-945 | what is laid out stays so when only octets in front of it change |
| Ndr.OffsetStaysNear | mountd/rpc.c:232-267 | offsets stay within 16 octets of the payload, and within one string alignment after a success |
| Ndr.VStringReads | mountd/rpc.c:532-592 | a string laid out by the writer is read back whole, and the offset ends behind it |
| Ndr.VStringPlaces | mountd/rpc.c:414-462 | a string from an aligned offset: both counts, the zero between them, the units in order and the terminator |
| Ndr.ItemsRead | mountd/rpc.c:279-592 | a list laid out in a payload is read back item by item |
| Ndr.RoundTrip | mountd/rpc.c:279-592 | reading the types of a written list gives the same items and the same end |
| Ndr.RefusedExactly | mountd/rpc.c:334-462 | a refused write changes no payload if and only if its first primitive is refused |
| Ndr.RefusedUnionCounterexample | mountd/rpc.c:334-349 | a refused union can leave its first half behind |
| NdrCodec.Dce.WriteInt | mountd/rpc.c:279-299 | writes one aligned integer or refuses it with only the offset aligned |
| NdrCodec.Dce.ReadInt | mountd/rpc.c:301-325 | reads one aligned integer or refuses past the end |
| NdrCodec.Dce.WriteUnionInt32 | mountd/rpc.c:334-349 | writes the selector twice |
| NdrCodec.Dce.ReadUnionInt32 | mountd/rpc.c:350-368 | accepts a selector only if both copies agree |
| NdrCodec.Dce.WriteBytes | mountd/rpc.c:370-379 | writes a 2-aligned block or refuses it |
| NdrCodec.Dce.ReadBytes | mountd/rpc.c:381-389 | reads a 2-aligned block or refuses it |
| NdrCodec.Dce.WriteVString | mountd/rpc.c:414-462 | writes counts, text with terminator and alignment, stopping at the first refusal |
| NdrCodec.Dce.ReadVString | mountd/rpc.c:532-592 | reads counts and text, refuses an actual count above the maximum and any unit that does not convert, and ends the text at its first NUL |
| Smbacl.WriteSid | mountd/smbacl.c:56-79 | writes the identifier, and nothing at all when it has too many sub-authorities |
| Smbacl.ReadSid | mountd/smbacl.c:33-54 | reads an identifier of one to fifteen sub-authorities |
| Smbacl.SidRoundTrip | mountd/smbacl.c:33-79 | reading undoes writing if and only if there is a sub-authority |
| Smbacl.CompareSids | mountd/smbacl.c:109-149 | zero exactly when the identifiers match up to the shorter one, otherwise their order |
| Smbacl.AceOccupiesItsSize | mountd/smbacl.c:229-266 | the declared size of an entry is what it occupies from an aligned offset |
| Smbacl.SetAce | mountd/smbacl.c:229-266 | one entry is written and its declared size returned |
| Smbacl.SetDacl | mountd/smbacl.c:268-306 | the four default entries are written and their sizes summed |
| Smbacl.PatchCommutes | mountd/smbacl.c:310-362 | writing behind a gap and patching the gap commute |
| Smbacl.PatchedIsOnePass | mountd/smbacl.c:310-362 | leaving a gap and patching the size in later is the one-pass write |
| Smbacl.SecDescOccupiesItsLength | mountd/smbacl.c:310-362 | the descriptor occupies its declared length if and only if it starts 4-aligned |
| Smbacl.BuildSecDesc | mountd/smbacl.c:310-362 | the descriptor is the one-pass write, with the declared length returned |
| SmbaclReader.AceReads | mountd/smbacl.c:229-266 | a reader finds kind, flags, size and rights of an entry, and the identifier with its rid |
| SmbaclReader.DescriptorReads | mountd/smbacl.c:268-362 | a reader that follows offsets and sizes finds the header and the four entries, whose rights and identifiers are given as numbers |
| Bind.SyntaxCmp | mountd/rpc.c:1106-1123 | zero exactly for equal syntaxes |
| Bind.SyntaxSupported | mountd/rpc.c:1125-1136 | the table result of a known syntax, otherwise -1 |
| Bind.Judge | mountd/rpc.c:1231-1264 | the result of the first known syntax the client listed, or a rejection naming the first |
| Bind.BindReturn | mountd/rpc.c:1285-1311 | a refusal if and only if every context would be rejected, otherwise one result per context in order |
| Bind.KnownIsNotRejected | mountd/rpc.c:1231-1264 | a context is rejected if and only if it lists no known syntax |
| Bind.KnownResults | mountd/rpc.c:48-69 | NDR version 2 is accepted, the feature negotiation acknowledged, and nothing else is known |
| Bind.JudgedSays | mountd/rpc.c:1231-1266 | the whole result for a client that lists NDR, the negotiation, or nothing known first |
| Bind.ReadContext | mountd/rpc.c:1039-1064 | reads one context; zero transfer syntaxes are an error |
| Bind.ParseBindReq | mountd/rpc.c:1014-1071 | reads the request, and no context without transfer syntaxes gets through |
| Bind.BindReadsExactly | mountd/rpc.c:1014-1071 | a request that stands in the payload is read as it was meant if and only if every context has a transfer syntax |
| Bind.WriteResults | mountd/rpc.c:1231-1266 | each context is judged and its result written, in order |
| Bind.ResultsRead | mountd/rpc.c:1231-1266 | a client reads back one result for each context, as it was judged |
| Bind.VerdictPlaces | mountd/rpc.c:1231-1266 | result, reason and syntax by their places |
| Bind.SyntaxPlaces | mountd/rpc.c:947-966 | a syntax that was read, by the places of its fields |
| Bind.ContextPlaces | mountd/rpc.c:1036-1060 | a context that was read, by the places of its fields and syntaxes |
| Bind.BindPlaces | mountd/rpc.c:1020-1029 | the head of a request that was parsed, by the places of its fields |
| Pipes.Daemon.OpenRequest | mountd/rpc.c:1543-1567 | a new pipe, or an error for a handle in use |
| Pipes.Daemon.CloseRequest | mountd/rpc.c:1569-1582 | the pipe is gone, or an error for an unknown handle; the references of waiting entries go back if and only if the callback is set and every entry is counted, or none waits |
| Pipes.CloseAfterFailedRead | mountd/rpc.c:1085-1104 | after an enumeration without room a close returns the reference; with a bind in between it stays |
| Pipes.Encode | mountd/rpc.c:1466-1490 | whatever is encoded, the flag that was cleared before is still clear afterwards |
| Pipes.Daemon.WriteRequest | mountd/rpc.c:1492-1541 | a request is taken, even if it fails, unless a reply waits; an enumeration gathers its entries, and a bind that parses unsets the callback and leaves them |
| Pipes.Daemon.ReadRequest | mountd/rpc.c:1442-1490 | a waiting reply is encoded once, by the enumeration encoder or another, and is never ready again afterwards; entries leave exactly if the array was encoded |
| Pipes.Daemon.IoctlRequest | mountd/rpc.c:1320-1350 | write and read in one, after which the reply counts as consumed |
| Pipes.Daemon.StateRequest | mountd/rpc.c:1352-1440 | a trial encoding leaves handle, counters, entries, references and cursor as they were |
| Pipes.AfterKeeps | mountd/rpc.c:1320-1582 | every request keeps the invariant of the pipes as long as no encoder re-arms what it delivers |
| Pipes.RunKeeps | mountd/rpc.c:1320-1582 | in every run whose encoders do not re-arm what they deliver, a consumed reply is never ready and each reply answers a request that had none |
| Pipes.OneReplyPerRequest | mountd/rpc.c:1320-1582 | in every such run a request was taken between two replies on a handle |
| Pipes.RearmDeliversTwice | mountd/rpc_srvsvc.c:373-380 | a delivered reply goes out a second time if and only if its encoder made the pipe ready again |
| Pipes.ConsumedIsSilent | mountd/rpc.c:1336-1347 | an answered ioctl delivered one reply, and reads deliver nothing after it |
| Pipes.OthersUntouched | mountd/rpc.c:1320-1582 | a request leaves every other handle alone |
| Pipes.HandleLives | mountd/rpc.c:1543-1582 | a handle is open exactly from its opening to its closing, and misuse is an error that changes nothing |
| Pipes.ReopenedIsFresh | mountd/rpc.c:1543-1582 | a closed handle can be opened again and is as new |
| Pipes.UnknownHandle | mountd/rpc.c:1320-1582 | on an unknown handle nothing is taken, delivered or changed |
| Pipes.Conversation | mountd/rpc.c:1442-1541 | a request is taken, a second one passed over, the reply delivered once, and then the next request taken |
| Pipes.IoctlConverses | mountd/rpc.c:1320-1350 | an ioctl takes a request and delivers its reply; asking for the length changes nothing |
| Srvsvc.Listed | mountd/rpc_srvsvc.c:262-280 | exactly the shares of the table that can be referenced, are browseable and available |
| Srvsvc.ListedOnce | mountd/rpc_srvsvc.c:262-287 | a table that hands out each share once gives a list that names each share once |
| Srvsvc.Pipe.EnumShare | mountd/rpc_srvsvc.c:262-280 | the reference is kept only for a listed share; what others hold is unchanged |
| Srvsvc.Pipe.EnumAllInvoke | mountd/rpc_srvsvc.c:282-287 | the entries grow by the listed shares of the table, with one reference each |
| Srvsvc.Pipe.ShareEntryProcessed | mountd/rpc_srvsvc.c:250-260 | the first entry leaves with its reference |
| Srvsvc.Pipe.ProcessEntries | mountd/rpc.c:699-702 | with the callback set, the entries counted and their references go together one by one; without it nothing moves |
| Srvsvc.Pipe.Reset | mountd/rpc.c:152-163 | no entry is counted any more; all references go back if and only if the callback is set and every entry is counted, or none waits |
| Srvsvc.Pipe.WriteArrayOfStructs | mountd/rpc.c:678-705 | all fixed parts, then all strings; entries are let go exactly on success with the callback set, and more data is never reported |
| Srvsvc.Pipe.EnumAllReturn | mountd/rpc_srvsvc.c:327-390 | the reply in full, the entries drained exactly if the array was encoded, and the flag untouched since the re-arming branch is not reached |
| Srvsvc.Pipe.WriteTail | mountd/rpc_srvsvc.c:370-389 | total and resume handle; the pipe is made ready again exactly when more data was reported and written |
| Srvsvc.Pipe.ShareInfoBody | mountd/rpc_srvsvc.c:529-556 | an unsupported level empties the list first; the entries counted leave exactly then or when the array was encoded |
| Srvsvc.Pipe.WriteHeaders | mountd/rpc.c:917-945 | both headers in front of the reply, with the length filled in |
| Srvsvc.Pipe.ShareInfoReturn | mountd/rpc_srvsvc.c:518-574 | the whole message: the client reads the headers, the reply and the return code behind them, up to the end |
| Srvsvc.Pipe.EnumAll | mountd/rpc_srvsvc.c:282-390 | one call on an empty pipe: every listed share in the message as a client reads it, none of them twice, and every reference given back |
| Srvsvc.Pipe.TrialReturn | mountd/rpc.c:1368-1392 | with the callback unset, encoding a reply moves no entry and no reference |
| Srvsvc.Pipe.PendingResponseLen | mountd/rpc.c:1352-1403 | after a trial encoding pipe and cursor are as before |
| Srvsvc.MessageReads | mountd/rpc_srvsvc.c:563-573 | writing the headers last leaves the reply behind them readable |
| Srvsvc.FewShares | mountd/rpc.c:678-705 | a reply in a payload of int size cannot list so many shares that a 32-bit field wraps |
| Srvsvc.ReplyIsExact | mountd/rpc_srvsvc.c:327-390 | the client reads back every share in one order, both counts are right, the referent ids count up from 2, and it tells what it should at every supported level |
| Srvsvc.ReplyTells | mountd/rpc_srvsvc.c:92-250 | a client that follows the pointers finds name, kind, comment, limit, uses and path of exactly the listed shares, in order |
| Srvsvc.HeaderPlaces | mountd/rpc.c:790-945 | every field of both headers by its place |
| Srvsvc.MessageTells | mountd/rpc_srvsvc.c:518-574 | headers, shares and a return code of zero in the message that is sent |
| Srvsvc.TotalAgreesExactly | mountd/rpc_srvsvc.c:531-556 | TotalEntries equals the counts if and only if the level is supported or nothing is listed |
| ShareLifetime.TouchesOnlyLive | tools/management/share.c:213-271 | no step of any thread touches a freed share |
| ShareLifetime.StepKeeps | tools/management/share.c:213-271 | every step under every interleaving keeps the invariant of counts, marks and table |
| ShareLifetime.IterPutKeeps | mountd/rpc_srvsvc.c:262-280 | a put made while iterating under the read lock keeps the invariant and never drops the last reference |
| ShareLifetime.CountsInEveryRun | tools/management/share.c:228-258 | in every run a count is table membership plus references held, and zero only after the mark |
| ShareLifetime.FreedExactlyWhenUnused | tools/management/share.c:242-258 | between requests a share is freed if and only if it is neither listed nor held |
| ShareLifetime.FreeingKeepsTable | tools/management/share.c:213-226 | freeing an old share never unlinks a new one of the same name |
| ShareLifetime.LookupSucceeds | tools/management/share.c:364-377 | looking up a listed name outside a reload always yields a reference |
| ShareLifetime.LookupFinds | tools/management/share.c:359-377 | a lookup finds the share listed under the name, if there is one, and changes nothing else |
| ShareLifetime.AddLists | tools/management/share.c:869-928 | a new share is listed under a free name with one reference; a taken name stays |
| ShareLifetime.PutReturns | tools/management/share.c:242-258 | a put gives back one reference of its share and none of another |
| ShareLifetime.ReloadEmptiesTable | tools/management/share.c:260-271 | a finished reload has emptied the table, and held shares stay allocated |
| TreeConn.ConnectKeeps | tools/management/tree_conn.c:38-235 | a connect request keeps the accounts of shares, sessions and capacity |
| TreeConn.DisconnectKeeps | tools/management/session.c:176-212 | a disconnect request keeps the accounts |
| TreeConn.DisconnectExactly | tools/management/session.c:176-212 | unknown names change nothing; a session leaves exactly at its last disconnect, others stay |
| TreeConn.DisconnectUndoesConnect | tools/management/session.c:113-212 | connections, sessions and counter are as before the connect, and the capacity but for a session that never asked |
| TreeConn.ConnectionStays | tools/management/session.c:113-212 | what a connection was granted stays with it in every run |
| TreeConn.FlagsAreRights | tools/management/tree_conn.c:75-195 | the rights granted, from the share and the lists alone: read list, write list, neither, admin and guest |
| TreeConn.KeptOut | tools/management/tree_conn.c:90-203 | each reason that keeps a request out, by hosts, guests, users and lists |
| TreeConn.LetIn | tools/management/tree_conn.c:90-214 | who is let in once the host is, and whether a slot is asked for |
| TreeConn.SessionsInEveryRun | tools/management/session.c:113-212 | in every run sessions count their connections, the capacity accounts balance, and the capacity holds if and only if the sessions that never asked fit the free slots |
| TreeConn.ConnectionsInEveryRun | tools/management/share.c:1045-1070 | in every run live connections are counter plus drift, so counter and limit are right if and only if the drift allows it |
| TreeConn.GrantPassesLimitExactly | tools/management/tree_conn.c:84-88 | a granted connection passes the limit if and only if counter and drift had reached it before |
| TreeConn.GrantPassesCapacityExactly | tools/management/tree_conn.c:131-212 | a granted connection leaves more sessions than the capacity if and only if the sessions that never asked had used up the free slots |
| TreeConn.ReloadKeepsSettings | tools/config_parser.c:381-396 | the first load gives a capacity in range; a reload leaves capacity, guest mapping and anonymous restriction alone, whatever the file says |
| TreeConn.FirstLoad | tools/config_parser.c:434-492 | what the first load makes of capacity, anonymous restriction and guest mapping, defaults included |
| TreeConn.ReloadedLinesIgnored | tools/config_parser.c:381-440 | two runs that differ only in the global sections of their reloaded files end in the same tables and accounts |
| TreeConn.ReloadFreesNoSlot | tools/config_parser.c:381-440 | at a capacity of one, a reload of a file that sets it to one does not let a second session in |
| TreeConn.LimitExceeded | tools/management/tree_conn.c:84-88 | a run with two live connections on a share limited to one |
| TreeConn.CapacityExceeded | tools/management/tree_conn.c:131-203 | a run with two live sessions at a capacity of one, on a share whose read list names the second |
| TreeConn.Server.constructor | tools/config_parser.c:398-440 | the daemon starts with empty tables and a capacity between 1 and 65536 |
| TreeConn.Server.Steal | tools/config_parser.c:381-396 | an entry counts if it is there and no reload is asked for |
| TreeConn.Server.ProcessGlobal | tools/config_parser.c:398-492 | capacity, anonymous restriction and guest mapping become what the reference function loads |
| TreeConn.Server.Hangup | mountd/mountd.c:92-94 | the signal asks for a reload and does nothing else |
| TreeConn.Server.Turn | mountd/mountd.c:285-293 | files are read only while a reload is asked for; shares are unlisted, the settings stay, and the request stays until the load is complete |
| TreeConn.Server.OpenConnection | tools/management/share.c:1045-1058 | one more connection, or a refusal at the limit |
| TreeConn.Server.CloseConnection | tools/management/share.c:1060-1070 | one connection fewer, never below zero |
| TreeConn.Server.LookupSession | tools/management/session.c:101-111 | takes a reference on a known session |
| TreeConn.Server.PutSession | tools/management/session.c:83-94 | drops a reference, and the session with its last one |
| TreeConn.Server.CheckSessionsCapacity | tools/management/session.c:150-168 | a known session passes, a new one takes a slot if there is one |
| TreeConn.Server.HandleTreeConnect | tools/management/session.c:113-148 | the connection joins its session, which is made if need be |
| TreeConn.Server.Judge | tools/management/tree_conn.c:90-220 | the order of host, guest, account and list checks admits exactly the requests the policy grants |
| TreeConn.Server.TreeConnect | tools/management/tree_conn.c:38-235 | the tables after the request are those of the reference function |
| TreeConn.Server.ConnectShare | tools/management/tree_conn.c:84-235 | a granted request is bound; a refused one closes what it opened, and at the limit what it did not |
| TreeConn.Server.BindConnection | tools/management/tree_conn.c:205-222 | a slot is asked for if need be, and the connection joins its session |
| TreeConn.Server.TreeDisconnect | tools/management/session.c:176-212 | the tables after a disconnect are those of the reference function |
| Hosts.OctetsAgreeExactly | tools/management/share.c:992-1005 | comparing octets and a masked rest decides exactly whether the first bits agree |
| Hosts.ShorterPrefixMatches | tools/management/share.c:944-1008 | a match at a longer prefix is a match at every shorter one |
| Hosts.PrefixMatches | tools/management/share.c:992-1007 | true exactly when the addresses agree up to the prefix length as numbers |
| Hosts.MatchHostCidr | tools/management/share.c:944-1008 | a subnet accepts the addresses with its prefix, any other pattern itself |
| Hosts.PatternAccepts | tools/management/share.c:962-1007 | a network with a number accepts by the low 32 bits of the number, or else itself |
| Hosts.PlainPattern | tools/management/share.c:950-965 | a pattern without a slash, or with nothing before it, accepts itself alone |
| Hosts.BrokenPattern | tools/management/share.c:962-990 | so does one whose network or length does not parse |
| Hosts.NumbersRead | tools/management/share.c:970-973 | digits with a sign or blank before them are read as decimal |
| Hosts.OnlyNumbersRead | tools/management/share.c:970-973 | anything behind the digits is an error |
| Hosts.NarrowsToInt | tools/management/share.c:970-973 | the number becomes an int with the same low 32 bits |
| Hosts.WideLengthExactly | tools/management/share.c:970-990 | a length outside the address width is a plain comparison if and only if its low 32 bits as an int are outside too |
| Hosts.WideLengthAcceptsAll | tools/management/share.c:970-993 | a length whose low 32 bits are zero makes any pattern accept every address of its family |
| Hosts.WidePatternAcceptsAll | tools/management/share.c:970-993 | 10.0.0.0/4294967296 is such a pattern, and its length is outside the address width |
| Hosts.LookupHostsMap | tools/management/share.c:1010-1043 | found if and only if some pattern accepts, in whatever order the table is walked |
| ShareConfig.Response.Handle | tools/management/share.c:1111-1178 | succeeds exactly when the payload has room for veto list, delimiter and path, and writes just that |
| ShareConfig.Response.PrintPath | tools/management/share.c:1169-1175 | the whole path with its terminator, or a failure |
| ShareConfig.SizeIsExact | tools/management/share.c:1083-1109 | the size asked for is the length of the payload, or an overflow |
| ShareConfig.PathIsRecovered | include/linux/ksmbd_server.h:213-222 | the reader finds root and path behind the veto list, which is intact |
| ShareConfig.Answer | tools/management/share.c:1083-1178 | a reply of the size asked for is filled exactly and reads back |
| ConfText.LTrimTrims | tools/config_parser.c:300-305 | leading blanks and nothing else are removed |
| ConfText.RTrimTrims | tools/config_parser.c:307-312 | trailing blanks are removed down to the first character |
| ConfText.LinesUndoUnlines | tools/config_parser.c:271-283 | splitting joined lines gives the lines back |
| ConfText.SameInLowerCase | tools/config_parser.c:314-317 | keys are one exactly when they differ at most in the case of ASCII letters |
| ConfParser.ParseConcat | tools/config_parser.c:271-283 | parsing two texts in a row is parsing them joined |
| ConfParser.ParseKeeps | tools/config_parser.c:219-238 | whatever the text, a parse leaves well-formed groups and keys |
| ConfParser.ParsesExactly | tools/config_parser.c:219-238 | a text parses if and only if every line is blank, a header, or an entry inside a section |
| ConfParser.FirstLineSets | tools/config_parser.c:204-217 | what stands stays; otherwise the first line that gives the key a value in a section of the group sets it, and nothing else does |
| ConfParser.FirstHeaderNames | tools/config_parser.c:176-202 | the groups are those with a header, and the first header gives the name |
| ConfParser.NamesAre | tools/management/share.c:128-160 | 1 to 63 characters, without brackets and control characters |
| ConfReader.IsShareName | tools/management/share.c:128-160 | exactly the printable UTF-8 names of 1 to 63 octets without brackets |
| ConfReader.IsAGroup | tools/config_parser.c:100-124 | exactly the group headers |
| ConfReader.Parser.IsAKeyValue | tools/config_parser.c:126-162 | exactly the printable key and value lines inside a group |
| ConfReader.Parser.AddsGroup | tools/config_parser.c:176-202 | the group is current, and new only if no equal name exists; the pointers to [global] and [ipc$] follow |
| ConfReader.Parser.AddGroupKeyValue | tools/config_parser.c:204-217 | the first definition of a key stays; empty values are passed over |
| ConfReader.Parser.ProcessEntry | tools/config_parser.c:219-238 | one line has the effect of the reference function, or none and an error |
| ConfReader.Parser.ParseText | tools/config_parser.c:240-291 | the whole text parses as the reference function says, and groups stay well formed |
| ConfReader.IsParameter | tools/config_parser.c:1203-1208 | the search through the table finds exactly the share parameters offered |
| ConfReader.Parser.TakeOption | tools/config_parser.c:1190-1216 | an option replaces or removes the parameter it sets, and is otherwise ignored |
| ConfReader.Parser.ParseExternalGroup | tools/config_parser.c:1182-1218 | the group exists and its parameters are those the options leave |
| ShareConf.NamesDistinct | tools/management/share.c:34-74 | no two share parameters have the same name in any letter case |
| ShareConf.RecognisedExactly | include/management/share.h:134-139 | every name is a parameter but admin users, and in [global] but its own two |
| ConfPrinter.BodyReads | addshare/share_admin.c:610-612 | a printed entry reads as the key and value it was printed from |
| ConfPrinter.SectionParses | addshare/share_admin.c:585-631 | a printed section parses to its group |
| ConfPrinter.PrintThenParse | addshare/share_admin.c:616-633 | groups without a header-like entry are parsed back from their text, in any order of printing |
| ConfPrinter.LinesDefine | tools/config_parser.c:219-238 | every entry of the result is defined by a line of the text |
| ConfPrinter.RoundTripExactly | addshare/share_admin.c:616-633 | the text parses back to the same groups if and only if no entry reads as a group header |
| ConfPrinter.RogueFromText | tools/config_parser.c:100-162 | such an entry comes from a line whose blanks made it too long for a header |
| Sorting.InsertSorted | addshare/share_admin.c:577 | the list stays sorted and gains exactly the new element |
| Sorting.StrLeExactly | addshare/share_admin.c:549 | the first difference decides, and a prefix comes first |
| Sorting.Sort | addshare/share_admin.c:549 | a sorted permutation in the order of strcmp |
| ConfWriter.NewShareKl | addshare/share_admin.c:562-583 | every key once: other keys first, then the share parameters, each part sorted |
| ConfWriter.NewShareNl | addshare/share_admin.c:545-560 | every group once: [global], [ipc$], then the shares by name; a ring if and only if [ipc$] stands without [global] |
| ConfWriter.AddSection | addshare/share_admin.c:585-631 | the text grows by exactly the lines of the section |
| ConfWriter.GetConfContents | addshare/share_admin.c:616-633 | the text lists everything once in the fixed order, and parses back if and only if no entry reads as a header; there is none exactly for a freed [ipc$] or a ring |
| ConfUpdate.LastMentionWins | tools/config_parser.c:1190-1216 | of several options for a parameter the last one counts, and an empty value removes it |
| ConfUpdate.UnmentionedStays | tools/config_parser.c:1190-1216 | every other parameter keeps its value |
| ConfUpdate.ApplyKeepsClean | addshare/share_admin.c:635-732 | a command keeps groups well formed and free of header-like entries |
| ConfUpdate.DeletingGlobalExactly | addshare/share_admin.c:712-717 | deleting [global] takes away exactly its share parameters |
| ConfUpdate.ApplyChanges | addshare/share_admin.c:635-732 | a command is accepted if and only if its name is valid and its group there or, to add, not there; then each parameter is what its last option says or what it was, and every other group is the same |
| ConfUpdate.StepChanges | addshare/share_admin.c:635-732 | one run on a clean file changes in the file what its command names, and nothing else |
| ConfUpdate.FileFollowsCommands | addshare/share_admin.c:635-732 | starting from a file without header-like entries, after any number of completed commands the file parses to what they made of its first groups |
| ConfUpdate.MadeByCommands | addshare/share_admin.c:635-732 | a file made by commands alone parses to what they say and has no header-like entry |
| ConfUpdate.WritableExactly | addshare/share_admin.c:545-560 | what a command makes can be written if and only if it has [global] or no [ipc$], in terms of the groups before |
| ConfUpdate.GlobalStays | addshare/share_admin.c:545-560 | from a file with [global] every further command completes until one removes [ipc$] |
| ConfUpdate.IpcCommandsStop | addshare/share_admin.c:550-559 | removing [ipc$], and adding it without [global], do not complete |
| ConfCommands.ApplyCommand | addshare/share_admin.c:635-732 | add, update and delete with their errors have the effect of the reference function, and a removed [ipc$] leaves its pointer behind |
| ConfCommands.RunCommand | addshare/share_admin.c:635-732 | every command on every file is rejected, rewrites the file as one step of a run, hangs or reads a freed group, each under its exact condition, and from a clean file the new file differs from the old one in what the command names alone; whether the configuration loads beyond its syntax is a parameter |

## Left out

- IPC framing, netlink, worker threads, signals, file locking and file input and output: effects outside the model.
- UTF-8 validation, case folding of names and `inet_pton` are parameters.
- Memory exhaustion: the branches for a failed allocation are not modelled.
- Kerberos, QUIC, the user database and password prompts: calls into other libraries or interactive code.
- `decode_negTokenInit` (tools/management/spnego.c:120-218): parsing of the client's first token; the header and identifier decoders it uses are modelled.
- `process_global_conf_kv` beyond the three settings that tree connections use, and the per-share interpretation of values: a long list of single assignments.
- The interactive option prompt of the share commands (addshare/share_admin.c:104-543): only options given on the command line are applied.
- SAMR, LSARPC and WKSSVC bodies, and NetShareGetInfo: they use the same marshalling and would add easy members.
- The framing of the bind replies around the list of results, and the version list of a bind refusal.
- The growing payload mode and ASCII strings of the marshaller: no daemon path sets them.
- Text outside the basic multilingual plane in NDR strings: a surrogate pair is two units for one character.
- User reference counts, `shm_destroy`, and two threads making one session at the same time (tools/management/session.c:113-148).
- ShareLifetime.StepKeeps: models one lock region as one step; the order of plain reads inside a region is not visible.
- TreeConn.Server.TreeConnect: runs one request at a time; the answers of the user database and the access lists are part of the request.
- Pipes.Daemon.StateRequest: the strings and bind lists that the trial encoding frees are not modelled.
- Pipes.Daemon.WriteRequest: an enumeration and the effect of a bind on the callback are modelled; the outcome of other requests is a parameter, and the entries that LSARPC requests keep on a pipe are left out.
- Pipes.Daemon.IoctlRequest: built on the same parameters for other requests and replies.
- Pipes.OneReplyPerRequest: assumes encoders that do not re-arm; proved of the enumeration encoder, the one place that sets the flag while encoding (mountd/rpc_srvsvc.c:380).
- Pipes.RunKeeps: the same assumption.
- Pipes.Daemon.ReadRequest: encoding is modelled for an enumeration; other encoders, which never set the flag, are a parameter.
- ConfCommands.RunCommand: the checks of `load_config` beyond the syntax of the file (tools/config_parser.c:780-814) are one parameter, free in every run. It requires that case folding tells `global` and `ipc$` apart, which is a fact about a parameter.
- Spnego.EncodeNegTokenTarg: requires the total length to fit an int, as the length arithmetic of the encoder does.
- Asn1Codec.HeaderLen: says nothing about totals of 2^32 and more, which wrap.
- Md4.Context.Update: takes pieces below 2^32 octets, the range of its length argument.
- Hosts.PrefixMatches: masks an octet by division instead of on bits.
