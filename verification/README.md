# Verified model of libptpmgmt

libptpmgmt builds and parses PTP management and signalling messages (IEEE Std 1588) and
converts them to and from JSON. This project models its core in Dafny and proves what it
promises.

- **TLV codec.** One chain of `proc` calls per TLV works in both directions. `TlvLayout` holds
  the chains and the identifiers table as data, `TlvCodec` what a chain writes and reads as
  functions on octets, `MsgProc` the object with the moving cursor that does it in place, and
  `TlvSizes` the planned sizes.
- **Messages.** `Sending` holds the state that `setAction`, `clearData` and the authentication
  calls leave, `Framing` the octets of a message and the check of the AUTHENTICATION TLV,
  `Signalling` the walk over signalling TLVs, `Receive` what a receiver makes of a message,
  `Handling` and `Message` the methods that do all this on a buffer.
- **What goes over the wire.** `Fields`, `Built` and `Actions` say octet by octet what is built and
  which actions are allowed, `Formats`, `Bodies` and `Answers` what each type of TLV and message has
  to look like to be taken, and `Authenticated` that under a check nothing else is.
- **JSON.** `JsonText`, `JsonNumber` and `JsonTree` hold strings, numbers and trees as functions
  on the rest of a text, `JsonParser` the parser object and the printing methods, `JsonWriter`
  the streaming writer, `JsonDecimal`, `JsonFields`, `JsonTyped` and
  `JsonReader` the typed conversion of TLVs, and `JsonTables`, `JsonMatching` and `JsonSchemas` its
  tables and how they match the chains of the codec. `JsonStrings` and `JsonGrammar` say which texts
  are accepted and what they mean, and `JsonAcceptance` which objects the typed reader accepts.
- **Binary.** `Base64`, `Binary` and `Texts` hold the growable buffer and its text codecs.
- **Authentication.** `SaFile` holds the reader of the SA file, `SaContents` and `SaTexts` what a file
  has to do with the associations it gives, `HmacLibrary` the reference count
  of the HMAC libraries.
- **Timestamps.** `Timestamps` holds the arithmetic on wrapping integers.

Where the source updates something in place there is a class or a method with loops, proved
against a function; the theorems are about the functions. Sequences of octets are written out,
and so are the widths of integers: a field of `w` octets holds the values below 256 to the `w`.

Some properties turn out to hold only in part; each has its exact condition.

- The size planned for CLOCK_DESCRIPTION is one octet short if and only if its texts and addresses
  have an odd length in all (`ClockDescriptionPlan`, `ClockDescriptionShort`). A GET has none of
  these, and SET is not allowed for it, so the planned message length is right in every state.
- The walk over signalling TLVs does not skip the body of an AUTHENTICATION TLV, so it is in step
  with the message if and only if that TLV is last (`SyncedExactly`, `AuthFirstRefused`).
- A message of more than 65535 octets is built with a length that is cut (`BuiltLength`).
- A gap that a positional set leaves in a `Binary` is zero if and only if memory is new or was zero
  there (`GapExactly`). Only taking over fewer octets than are in use leaves other octets behind
  (`CleanStep`, `RunGaps`), and then they show up again (`StaleGap`).
- The JSON parser is not a parser of RFC 8259. Its numbers are given by `NumberExactly`, and differ
  as `AcceptedIsRfc` and `RfcAccepted` say (`TwoPluses`, `PlusMinus`, `ZeroExponent`). An object may
  have a word in front of its first name (`ObjectExactly`, `WordInFront`), and control characters may
  stand in strings (`ControlTaken`). A NUL ends the text, and comments are an option; one that stands
  directly behind a number or a keyword is refused (`CommentsIgnored`, `CommentBehind`). All texts that
  are accepted are given by `StringExactly`, `NumberExactly`, `WordExactly` and `ParsedExactly`.
- `subt` on timestamps that are not normalised may not end (`LoopEnds`).

## Model

| member | source | states |
|---|---|---|
| TlvLayout.Line | src/ids_base.m4:25-95 | every line of the identifiers table agrees with the codec: its chain of `proc` calls can be read back, and a positive size is the padded length of the dataField |
| TlvLayout.FindIdValue | src/msg.cpp:137-152 | every identifier is found by its managementId value, so no two identifiers share one |
| TlvCodec.FieldRoundTrip | src/mngTlvs.cpp:149-209 | parsing the octets built for one member gives its normalised value and takes exactly those octets, whatever follows |
| TlvCodec.FieldReparse | src/mngTlvs.cpp:149-209 | every member that parse accepts can be built again into as many octets, and into the same octets unless they are flags or reserved |
| TlvCodec.FieldNormStable | src/mngTlvs.cpp:520-529 | normalising flags twice is normalising once, and does not change the octets built |
| TlvCodec.RecRoundTrip | src/mngTlvs.cpp:463-519 | the same for the records of lists, including those that announce their own length |
| TlvCodec.CountedRoundTrip | src/mngTlvs.cpp:549-566 | `vector_f` reads back exactly the records that were written, by induction over the list |
| TlvCodec.RestRoundTrip | src/mngTlvs.cpp:567-578 | `vector_o` reads back exactly the records that were written and leaves a shorter rest, such as the pad octet, alone |
| TlvCodec.ChainRoundTrip | src/mngTlvs.cpp:682-964 | for every dataField whose values fit their wire fields: parse after build yields the normalised value and consumes exactly the octets written, with any admissible octets behind them |
| TlvCodec.ChainRebuild | src/mngTlvs.cpp:682-964 | building the normalised value gives identical octets |
| TlvCodec.NegativeCountFails | src/mngTlvs.cpp:549-566 | a count read as negative, in either table with a signed count, makes the loop ask for more records than any message holds, so parsing fails |
| TlvCodec.CountedTakes | src/mngTlvs.cpp:549-566 | no more records are parsed than there are octets |
| TlvCodec.ItemReparse | src/mngTlvs.cpp:549-578 | whatever is parsed as a member or list can be built again into as many octets |
| TlvCodec.ChainReparse | src/mngTlvs.cpp:682-964 | every dataField that is parsed can be built again into as many octets, and what is built is parsed as the normalised value |
| MessageProcessor.MsgProc.Move | src/comp.h:330-334 | the three cursor members change together and stay inside the buffer |
| MessageProcessor.MsgProc.ProcUnsigned | src/mngTlvs.cpp:149-173 | on build the big endian octets at the cursor or a failure without space, on parse the value of the octets; nothing else of the buffer changes |
| MessageProcessor.MsgProc.ProcSigned | src/mngTlvs.cpp:174-189 | the same through the unsigned type of the same width |
| MessageProcessor.MsgProc.Proc48 | src/mngTlvs.cpp:190-209 | 48 bits in two parts; a value above 48 bits fails with the VAL error |
| MessageProcessor.MsgProc.ProcLe | src/mngTlvs.cpp:530-548 | 64 bits in little endian order, in both directions |
| MessageProcessor.MsgProc.ProcOctets | src/mngTlvs.cpp:393-429 | strings, binaries and octet arrays: on build their own length counts, on parse the given one |
| MessageProcessor.MsgProc.ProcText | src/mngTlvs.cpp:490-496 | a text of up to 255 characters behind its length octet; the text that is held before is looked at on parse too |
| MessageProcessor.MsgProc.ProcFlags | src/mngTlvs.cpp:520-529 | flags are masked on build and taken as they are on parse |
| MessageProcessor.MsgProc.ProcField | src/mngTlvs.cpp:149-209 | one member in either direction is the octet function of the codec |
| MessageProcessor.MsgProc.ProcRec | src/mngTlvs.cpp:497-519 | a record in either direction; a length that does not match on parse is the SIZE_MISS error |
| MessageProcessor.MsgProc.VectorF | src/mngTlvs.cpp:549-566 | the loop over a counted list writes all records, or reads exactly `count` of them |
| MessageProcessor.MsgProc.VectorO | src/mngTlvs.cpp:567-578 | the loop over a list without count reads as long as a whole record is left |
| MessageProcessor.MsgProc.ProcChain | src/mngTlvs.cpp:682-964 | a whole dataField in place: build succeeds exactly when the values fit and there is space, writes the encoding at the cursor and nothing outside the space left; parse equals the parse function and leaves the buffer alone |
| TlvSizes.VectorL | src/mngTlvs.cpp:593-598 | the summing loop gives the octets of the list plus its start value |
| TlvSizes.FixedChainSize | src/mngTlvs.cpp:682-964 | a dataField without texts and lists always takes the same number of octets |
| TlvSizes.CountedSizeAgrees | src/mngTlvs.cpp:605-666 | what the `_s` functions count is what the codec writes, but one octet less for CLOCK_DESCRIPTION |
| TlvSizes.PlannedSizeAgrees | src/mngTlvs.cpp:605-666 | the planned dataField size is the size of the padded encoding if and only if the TLV is not a CLOCK_DESCRIPTION of odd length |
| TlvSizes.ClockDescriptionPlan | src/mngTlvs.cpp:605-610 | for CLOCK_DESCRIPTION the plan is right if and only if its texts and addresses have an even length in all |
| TlvSizes.ClockDescriptionShort | src/mngTlvs.cpp:605-610 | there is a CLOCK_DESCRIPTION whose planned size is one octet too small |
| SendingState.PlannedLengthAgrees | src/msg.cpp:199-226 | with values that fit, the planned length is the length of the message and the dataField is even |
| SendingState.RunSendOk | src/msg.cpp:341-366 | over every run of `setAction` and `clearData` the action suits the identifier, and data is at hand exactly when SET or COMMAND needs it |
| SendingState.PlannedInEveryRun | src/msg.cpp:199-226 | in every state such a run reaches, the planned length is the length of the message |
| SendingState.RunAuthOk | src/msg.cpp:235-287 | over every run of `useAuth`, `changeAuth` and `disableAuth`, each of which may or may not get its key made, the HMAC object holds the selected key of the stored associations, and its MAC size is even and between 2 and 32 |
| Framing.AuthExactly | src/msg.cpp:617-672 | a TLV is accepted if and only if the key that it names verifies its ICV for all octets in front of it, the lengths are possible, and the key is the selected one or can be made |
| Framing.FrontLengths | src/msg.cpp:388-450 | the lengths in the header and in the TLV are right if and only if they fit 16 bits |
| Framing.SignedAccepted | src/msg.cpp:617-672 | for any MAC whose verify accepts its own digest: the octets digested in front of the ICV are the octets verified, and the check returns OK whatever follows the message |
| Framing.AuthHeadFields | src/msg.cpp:428-440 | type, length, SPP and key of the AUTHENTICATION TLV are read where they were written |
| Messages.Message.constructor | src/msg.cpp:187-195 | a transport specific value above 15 becomes 0; nothing is to be sent and authentication is off |
| Messages.Message.UpdateParams | src/msg.cpp:228-234 | parameters are replaced as a whole or not at all, and the state stays sound |
| Messages.Message.SetAction | src/msg.cpp:341-356 | accepted exactly when the table allows the action and the data is of the type it needs; a refused call changes nothing |
| Messages.Message.ClearData | src/msg.cpp:357-366 | without its data a SET or COMMAND becomes a GET |
| Messages.Message.UseAuth | src/msg.cpp:245-260 | succeeds exactly when the key exists and the library makes it; otherwise all members stay |
| Messages.Message.ChangeAuth | src/msg.cpp:261-274 | another key of the stored associations; a failure changes nothing |
| Messages.Message.ChangeKey | src/msg.cpp:275-287 | another key of the same SPP; a failure changes nothing |
| Messages.Message.DisableAuth | src/msg.cpp:909-913 | authentication is off, the key stays selected |
| Messages.Message.BuildData | src/msg.cpp:396-425 | the dataField with its pad octet, zeros for a GET, or nothing; it fails exactly when values do not fit or space is missing |
| Messages.Message.Sign | src/msg.cpp:428-449 | the AUTHENTICATION TLV: the ICV is the digest of all octets in front of it, with the message length already filled in |
| Messages.Message.Build | src/msg.cpp:367-454 | succeeds if and only if the values fit, the buffer holds the planned length and the digest can be made; the message has the planned, even length and exactly the octets of the frame; the mismatched TLV, odd size and invalid id errors are unreachable |
| Messages.Message.BuiltVerifies | src/msg.cpp:428-454 | `parseAuth` on the unmodified built message, pointed behind the dataField, returns OK |
| Messages.Message.BuiltLength | src/msg.cpp:388-454 | the length in the header of a built message is its length if and only if that is below 65536 |
| Messages.Message.ParseSig | src/msg.cpp:685-807 | the loop over a signalling message in place equals the walk function; the buffer is not changed |
| Messages.Message.Parse | src/msg.cpp:467-608 | parsing in place sets the members and returns the error of the receive function |
| Messages.Message.ParseMng | src/msg.cpp:513-608 | the management part, by TLV type |
| TlvHandling.BuildTlv | src/mngTlvs.cpp:118-148 | `call_tlv_data` on build: a wrong structure is a mismatch, an identifier without dataField does nothing |
| TlvHandling.ParseTlv | src/mngTlvs.cpp:118-148 | `call_tlv_data` on parse: the parse function and the cursor behind the octets it took |
| TlvHandling.BuildPadded | src/msg.cpp:401-411 | the dataField and the pad octet that makes it even |
| TlvHandling.HandleTlv | src/sigTlvs.cpp:101-219 | one signalling TLV, by its type: the cursor stays inside its body |
| TlvHandling.SigRound | src/msg.cpp:694-796 | one round of the loop of `parseSig` equals the step function |
| TlvHandling.ReadReply | src/msg.cpp:561-581 | a reply: identifier, action and data, in the order of the source's checks |
| TlvHandling.ReadErrorReply | src/msg.cpp:537-560 | an error status: identifier, error and display text |
| TlvHandling.ReadSmpte | src/msg.cpp:582-602 | the SMPTE extension, after its organization identifier is checked |
| Signalling.SigStep | src/msg.cpp:694-796 | every round leaves fewer octets and keeps the cursor inside the message, in every branch |
| Signalling.StepCursor | src/msg.cpp:694-796 | the cursor goes 4 and lengthField octets ahead, but only 4 at an AUTHENTICATION TLV |
| Signalling.StepMeaning | src/msg.cpp:694-796 | what a round does in terms of the TLV on the wire: when it stops, what it stores, what it remembers for authentication |
| Signalling.SignallingAccepted | src/msg.cpp:685-807 | if AUTHENTICATION comes last: accepted if and only if the TLVs fill the message up to at most three octets, none is malformed and the authentication policy is satisfied; then exactly the recognised TLVs that pass the filter are stored, in wire order |
| Signalling.SyncedExactly | src/msg.cpp:704-715 | the cursor is where the octets left begin, at every header, if and only if no AUTHENTICATION TLV with a body comes before the end |
| Signalling.AuthFirstRefused | src/msg.cpp:704-715 | a well-formed message with AUTHENTICATION in front of another TLV, which the walk refuses |
| Receiving.HeaderReceived | src/msg.cpp:471-505 | the header of a framed message gives back version, domain, flags, sequence and both port identities |
| Receiving.FrameReceived | src/msg.cpp:467-608 | a framed reply passes all checks, its signature included, and its dataField is handed on |
| Receiving.ReplyReceived | src/msg.cpp:561-581 | a reply that a peer frames as `build` does is received with the sender's header and the normalised TLV; a reply without octets leaves the earlier data in place |
| Receiving.PaddedReadBack | src/msg.cpp:409-411 | a dataField followed by its pad octet is read back |
| SecurityAssociation.SppReader.AddKey | src/cfg.cpp:338-381 | a key is stored if and only if it is usable and new or to be replaced; the key pool stays sound, and a refused key changes nothing |
| SecurityAssociation.SppReader.ReadVal | src/cfg.cpp:252-328 | a line of an SPP: a key line is taken as a whole, other lines are ignored |
| SecurityAssociation.SaFile.ReadSa | src/cfg.cpp:398-482 | the line loop equals the fold over the lines: a file is taken as a whole or the associations stay as they were |
| SecurityAssociation.ReadLinesOk | src/cfg.cpp:398-482 | whatever the file says, an accepted map has every SPP under its own id, with at least one key; every key has an id, a value of the exact size for AES, and an even digest within its limit |
| HmacLibraries.ApplyConsistent | src/hmac.cpp:43-211 | every call keeps handle, name and function table all null or all set, and the count at the number of keys; only a free call without keys unloads a library |
| HmacLibraries.RunConsistent | src/hmac.cpp:43-211 | the same over every run of calls |
| HmacLibraries.HmacLibrary.TryLib | src/hmac.cpp:67-78 | a library without the functions is not taken, though its handle is left |
| HmacLibraries.HmacLibrary.Load | src/hmac.cpp:122-138 | the first library of the list that can be loaded, or none and all pointers null |
| HmacLibraries.HmacLibrary.Select | src/hmac.cpp:80-120 | an empty pattern is refused; only a library with the single matching name is loaded or confirmed |
| HmacLibraries.HmacLibrary.FindOnly | src/hmac.cpp:86-101 | the loop over the names finds the only match |
| HmacLibraries.HmacLibrary.Alloc | src/hmac.cpp:194-211 | a key that cannot be initialised is not counted |
| HmacLibraries.HmacLibrary.Delete | src/hmac.cpp:193-193 | the count goes down with the key |
| HmacLibraries.HmacLibrary.Free | src/hmac.cpp:144-153 | a library with keys in use stays |
| BinaryBuffer.AllocSizeLeast | src/bin.cpp:101-105 | the allocation is the smallest positive multiple of 32 that is large enough |
| BinaryBuffer.Binary.Reserve | src/bin.cpp:95-115 | memory is kept if it suffices; new memory holds the octets in use and zeros |
| BinaryBuffer.Binary.SetBin | src/bin.cpp:160-169 | the contents become the given octets; in memory that is kept the octets behind them stay |
| BinaryBuffer.Binary.SetAt | src/bin.cpp:177-184 | one octet changes, all others in use stay; memory is new exactly when the position is outside it, and a gap holds what was in the memory, zeros if it is new |
| BinaryBuffer.GapExactly | src/bin.cpp:177-184 | a gap is zero if and only if memory is new or was zero there |
| BinaryBuffer.CleanStep | src/bin.cpp:160-263 | every call keeps the memory behind the contents zero, but for taking over fewer octets than are in use, which does so if and only if the octets left behind are zero |
| BinaryBuffer.RunGaps | src/bin.cpp:160-263 | over every run of calls without such a taking over, gaps are zero |
| BinaryBuffer.StaleGap | src/bin.cpp:160-184 | a run after which a gap shows an octet of earlier contents |
| BinaryBuffer.Binary.Resize | src/bin.cpp:224-235 | the octets that fit survive, the memory behind the size is cleared |
| BinaryBuffer.Binary.Clear | src/bin.cpp:236-242 | no contents, and all memory zero |
| BinaryBuffer.Binary.AppendOctet | src/bin.cpp:248-255 | the contents and one more octet |
| BinaryBuffer.Binary.Append | src/bin.cpp:256-263 | concatenation, also of an object with itself |
| BinaryBuffer.Binary.FromBase64 | src/bin.cpp:397-450 | accepts exactly what the decoder accepts; a rejected text leaves the object unchanged |
| BinaryBuffer.DecodeText | src/bin.cpp:404-447 | the loop over groups of four symbols equals the decoder |
| BinaryBuffer.Binary.ToBase64 | src/bin.cpp:451-487 | the loop over groups of three octets equals the encoder |
| Base64.Base64RoundTrip | src/bin.cpp:397-487 | for every octet sequence, each of the three alphabets, with or without padding: decoding the encoded text gives the octets back |
| Base64.DecodeAccepts | src/bin.cpp:53-94 | a text is accepted if and only if its length is possible and its symbols belong to a single alphabet, in any order |
| Base64.ScanAccepts | src/bin.cpp:53-94 | the symbol reader, from any state it can be in, accepts exactly the texts over an alphabet that is still open |
| Texts.HexRoundTrip | src/bin.cpp:357-396 | `fromHex` after `toHex` gives the octets back |
| Texts.IdRoundTrip | src/bin.cpp:310-340 | `fromId` after `toId` gives the octets back, with any of the separators |
| JsonText.MaskActs | src/jsonParser.cpp:714-721 | the masks 0xbff act as 0x3ff, because the bit they let through is set anyway |
| JsonText.PutUtf8Is | src/jsonParser.cpp:163-177 | the octets appended for an escape are the UTF-8 form of section 3 of RFC 3629 |
| JsonText.CharBack | src/jsonParser.cpp:142-199 | the escaped form of every character is read as that character: control characters, 2 and 3 octet characters, and surrogate pairs |
| JsonText.EscapedBack | src/jsonParser.cpp:639-730 | every well-formed UTF-8 text is escaped, never passed through as broken |
| JsonText.StringBack | src/jsonParser.cpp:266-330 | `getStr` on `strToStr` of every well-formed UTF-8 text gives the text back |
| JsonText.ControlTaken | src/jsonParser.cpp:266-330 | every control character but NUL is taken in a string as it is, unlike section 7 of RFC 8259 says |
| JsonParsing.Quote | src/jsonParser.cpp:639-730 | the escaping loop equals the escape function |
| JsonParsing.JsonParser.ReadString | src/jsonParser.cpp:266-330 | the string loop, with the half of a surrogate pair as its state, equals the reading function |
| JsonParsing.JsonParser.ReadUnit | src/jsonParser.cpp:142-179 | one escape of four digits, after the first half of a pair or without one |
| JsonNumber.AcceptedForm | src/jsonParser.cpp:331-414 | every number the automaton accepts is stored in the form of section 6 of RFC 8259 without plus sign or leading zero in the exponent, with `dot_loc` and `e_loc` at its '.' and 'e' |
| JsonNumber.NumberBack | src/jsonParser.cpp:331-414 | every number of that form is accepted in front of a delimiter and stored unchanged |
| JsonNumber.NumberExactly | src/jsonParser.cpp:331-414 | a text is accepted as a number if and only if it is the number that is stored, with any number of plus signs behind its 'e', in front of a delimiter |
| JsonNumber.AcceptedIsRfc | src/jsonParser.cpp:331-414 | such a text is a number of RFC 8259 if and only if there is at most one plus sign, and no minus sign behind it |
| JsonNumber.RfcAccepted | src/jsonParser.cpp:331-414 | a number of RFC 8259 is accepted if and only if its exponent does not start with zero |
| JsonNumber.TwoPluses | src/jsonParser.cpp:366-378 | 1e++5 is accepted |
| JsonNumber.PlusMinus | src/jsonParser.cpp:366-378 | 1e+-5 is accepted |
| JsonNumber.ZeroExponent | src/jsonParser.cpp:379-400 | 1e05 is refused |
| JsonNumber.FracExact | src/jsonParser.cpp:851-880 | for a non-negative number with at most k decimals that fits its 64 bits: integer times ten to the k plus fraction is the number times ten to the k |
| JsonParsing.JsonParser.ReadNumber | src/jsonParser.cpp:331-414 | the loop under its flag variables equals the automaton |
| JsonTree.TreeBack | src/jsonParser.cpp:961-973 | for every tree with UTF-8 texts, numbers of the lexer's form and sorted members: parsing its text at any indent gives the same tree, duplicate keys in order |
| JsonTree.ValueBack | src/jsonParser.cpp:474-579 | the same for a value inside a text, in front of any delimiter |
| JsonTree.ParsedTidy | src/jsonParser.cpp:490-579 | whatever the text, the tree made from it has sorted members and numbers in form at every level |
| JsonTree.InsertLast | src/jsonParser.cpp:517-517 | inserting a key that is not smaller than the others puts it last |
| JsonTree.ObjectExactly | src/jsonParser.cpp:490-532 | the object reader differs from one that wants a name or the end first if and only if the object starts with something else, which is then a word, and what follows it starts with a name and is accepted |
| JsonTree.WordInFront | src/jsonParser.cpp:490-532 | an object with the word null in front of its first name is accepted |
| JsonTree.PrintIs | src/jsonParser.cpp:961-1037 | the printer, written with the text that follows it, is the printer |
| JsonParsing.JsonParser.constructor | src/jsonParser.cpp:222-229 | the cursor starts behind a byte order mark |
| JsonParsing.JsonParser.SkipWs | src/jsonParser.cpp:66-84 | white space is skipped, and the cursor stays inside the text |
| JsonParsing.JsonParser.SkipComments | src/jsonParser.cpp:85-129 | line and block comments; a comment that is not closed is an error at the end of the text |
| JsonParsing.JsonParser.NextToken | src/jsonParser.cpp:230-264 | the next token and the rest of the text, with or without comments; it terminates, and the cursor never passes the end |
| JsonParsing.JsonParser.GetKey | src/jsonParser.cpp:200-216 | the three keywords |
| JsonParsing.JsonParser.Value | src/jsonParser.cpp:415-437 | any value: it terminates with the rest of the text as the measure, and equals the parse function |
| JsonParsing.JsonParser.Object | src/jsonParser.cpp:490-532 | the loop over members, sorted as they are inserted |
| JsonParsing.JsonParser.Array | src/jsonParser.cpp:533-563 | the loop over elements |
| JsonParsing.JsonMain.ParseBuffer | src/jsonParser.cpp:564-590 | a text that is refused or empty leaves the earlier tree in place |
| JsonParsing.ToText | src/jsonParser.cpp:881-895 | the printing methods give the text of the printer |
| JsonParsing.ObjectText | src/jsonParser.cpp:961-973 | the loop with a comma behind every member, and the last comma erased |
| JsonParsing.ArrayText | src/jsonParser.cpp:1026-1037 | the same for elements |
| JsonWriting.WrittenBack | src/json.cpp:552-629 | the text of every properly bracketed sequence of calls is accepted and parses to the tree the calls describe |
| JsonWriting.ContainerBack | src/json.cpp:580-613 | the same for an object, an array or a string at any depth |
| JsonWriting.JsonWriter.Close | src/json.cpp:563-568 | a comma in front of every value but the first |
| JsonWriting.JsonWriter.StartName | src/json.cpp:572-579 | a name on a line of its own at the depth of the stack |
| JsonWriting.JsonWriter.StartObject | src/json.cpp:580-585 | the flag of the container around is pushed |
| JsonWriting.JsonWriter.CloseObject | src/json.cpp:586-592 | the flag of the container around comes back |
| JsonWriting.JsonWriter.StartArray | src/json.cpp:597-602 | the same for arrays |
| JsonWriting.JsonWriter.CloseArray | src/json.cpp:603-609 | the same for arrays |
| JsonWriting.JsonWriter.WriteItems | src/json.cpp:593-641 | a run of named values writes the text described; the stack is as before, and the flag tells if there was a value |
| JsonWriting.JsonWriter.WriteContainer | src/json.cpp:630-706 | a nested run leaves stack and flag as before |
| JsonWriting.JsonWriter.WriteNamed | src/json.cpp:614-629 | one named value |
| JsonDecimal.NumberOfBack | src/json.cpp:493-502 | every integer is written in the lexer's form, and its value is found again |
| JsonDecimal.TimeBack | src/types.cpp:56-61 | a timestamp is written in the lexer's form, and `getFrac` gives back its seconds and nanoseconds |
| JsonDecimal.ClockBack | src/types.cpp:202-208 | the octets of a clock identity are found again by `fromHex` |
| JsonFields.SimpleBack | src/jsonDef.cpp:52-222 | every member that can be written is read back with the same value |
| JsonFields.SimpleExactly | src/jsonDef.cpp:52-222 | an enumerator comes back if and only if it has a name, a time if it has at least one second, an address if it has an octet, a truth value if it is zero or one |
| JsonFields.FlagsBack | src/jsonDef.cpp:309-320 | flags come back bit by bit, through the or of their masks |
| JsonFields.FieldsBack | src/jsonDef.cpp:223-320 | all members of a table are read from the object they were written to, and the other members stay |
| JsonFields.AllHeld | src/jsonParser.cpp:945-960 | with distinct names every member is found exactly once in the sorted object |
| JsonTyped.DocBack | src/jsonDef.cpp:321-368 | a TLV with its list is read back from the tree its calls describe |
| JsonTyped.TypedBack | src/json.cpp:822-834 | a TLV written as JSON at any indentation is accepted by the parser, and the typed reader returns the same TLV |
| JsonMatching.WalkedFits | src/json.cpp:41-492 | a table that the walk over a dataField accepts has every member of it once, in order and with a type that holds it, but for members without a name |
| JsonMatching.AndNamed | src/json.cpp:801-809 | masking with the mask of a table keeps exactly the bits that have a name |
| JsonMatching.FlagsFrom | src/json.cpp:801-809 | normalised flags have no other bits, and the flags before show the same bits, if a single flag is the lowest bit |
| JsonMatching.MatchedBack | src/json.cpp:534-550 | for any dataField and any table that matches it: all values that fit and can be expressed come back through the text as the normalised slots |
| JsonSchemas.TablesMatch | src/json.cpp:41-492 | the table of every identifier with data matches its dataField, lists and records included; only reserved octets, and in PORT_STATS_NP the counters without a name, are left out |
| JsonSchemas.ManagementBack | src/json.cpp:534-550 | for every identifier with data: all values that fit its dataField and that JSON can express are written as a text that is accepted and read, from an empty TLV on, as the normalised slots |
| JsonReading.JsonReader.Kind | src/jsonDef.cpp:223-248 | a structure is read with its object as the current one, and the object before is restored on success and failure |
| JsonReading.JsonReader.Fields | src/jsonDef.cpp:254-287 | the conjunction of calls: the first failure ends it, the current object is as before |
| JsonReading.JsonReader.List | src/jsonDef.cpp:321-363 | the loop over an array, with the current object restored on every exit |
| JsonReading.JsonReader.Document | src/json.cpp:534-550 | a whole dataField |
| Timestamps.AddThenSubtract | src/types.cpp:171-193 | `add` and `subt` undo each other on normalised timestamps, also where the seconds wrap around |
| Timestamps.SumInNanoseconds | src/types.cpp:118-121 | `toNanoseconds` turns `add` into addition modulo two to the 64 |
| Timestamps.NanosecondsBack | src/types.cpp:108-121 | `toNanoseconds` after `fromNanoseconds` is the identity on all 64 bits numbers, also those read as negative |
| Timestamps.LessIsOrder | src/types.cpp:143-148 | `less` is the order of the time in nanoseconds |
| Timestamps.Timestamp.NormNano | src/types.cpp:163-170 | the loop carries whole seconds and ends below a second |
| Timestamps.Timestamp.Add | src/types.cpp:171-176 | addition with wrap-around, normalised |
| Timestamps.Timestamp.Subtract | src/types.cpp:184-193 | subtraction with wrap-around, also of timestamps that are not normalised; the result is |
| Timestamps.LoopEnds | src/types.cpp:184-193 | the loop that borrows seconds ends if and only if some number of nanoseconds with the same nine lowest bits is large enough |
| Timestamps.Timestamp.FromNanoseconds | src/types.cpp:108-117 | the truncating division and the loop give the Euclidean one |
| Octets.BigEndianAt | src/mngTlvs.cpp:149-173 | the octet at every place of a number in network order, by division |
| WireFields.FieldBuilt | src/mngTlvs.cpp:149-209 | the octets written for every kind of member, digit by digit: network order, two's complement, little endian counters, lengths of one or two octets in front of texts and addresses, zero for a reserved octet |
| WireFields.FlagsBuilt | src/mngTlvs.cpp:520-529 | a bit of the flags is sent if and only if it is set and named in the mask; the lowest flag alone is sent for every value but 0 |
| WireFields.RecordBuilt | src/mngTlvs.cpp:497-509 | a record with a length starts with the number of its octets, the length included |
| WireFields.MembersBuilt | src/mngTlvs.cpp:463-519 | each member of a record stands at the sum of the sizes of those in front of it |
| WireFields.CountBuilt | src/mngTlvs.cpp:549-566 | a counted list starts with the number of its records, in the width of its count |
| BuiltMessages.MessageOctets | src/msg.cpp:367-454 | every octet of a built message: action 0, 1 or 3 for GET, SET, COMMAND, both hop counts, control field 4, zeros where nothing is set, zeros or the encoded data, the AUTHENTICATION TLV and the digest of all octets in front of it |
| TlvActions.AllowedColumn | src/ids_base.m4:25-95 | for every identifier, by its wire value: whether it can be read, set and commanded, belongs to linuxptp, and has data |
| TlvActions.SendExactly | src/msg.cpp:163-180 | a GET, SET or COMMAND may be sent if and only if the wire value is in that column, and linuxptp values only to linuxptp |
| TlvActions.ReplyExactly | src/msg.cpp:153-162 | ACKNOWLEDGE (4) answers exactly the commands, RESPONSE (2) exactly what can be read or set |
| TlvActions.SetActionExactly | src/msg.cpp:341-356 | the exact acceptance of `setAction` by wire value, action and data, and the state behind it; a refused call changes nothing |
| Authenticated.CheckedReceive | src/msg.cpp:528-532 | under authentication a management message whose check is not asked for, or succeeds, is received as without; otherwise it never ends well, and its TLV is taken only if bit 3 of `rcvAuth` is set, with the error of the check |
| Authenticated.OnlyGenuine | src/msg.cpp:467-608 | with bit 0 set and bit 3 clear: a good end, or any change of what is stored, comes from a message whose AUTHENTICATION TLV has the right ICV for the octets in front of it |
| Authenticated.GoodIsGenuine | src/msg.cpp:467-608 | a good end comes from an authentic message also where errors are ignored |
| Authenticated.SignallingGenuine | src/msg.cpp:685-807 | an accepted signalling message has an AUTHENTICATION TLV with the right ICV, if bit 1 or 2 asks for it |
| WireFormats.LayoutReads | src/sigTlvs.cpp:101-219 | the calls that read a signalling TLV read the members of its type, given with literal type numbers and widths |
| WireFormats.BodyStored | src/sigTlvs.cpp:101-219 | a body that is the encoding of the members of its type, octet by octet and lists included, is stored with exactly those members |
| WireFormats.ShortBody | src/sigTlvs.cpp:101-219 | a body shorter than the fixed members of its type makes the message fail |
| WireFormats.OthersSkipped | src/msg.cpp:790-792 | every other type is skipped |
| WireFormats.FilterActs | src/msg.cpp:717-722 | the filter, if it is on, lets through exactly the types of its set |
| WireFormats.SyncStored | src/sigTlvs.cpp:127-148 | L1_SYNC without bit 3 is stored from two octets with zeros for its parameters, and with it all parameters come back |
| WireBodies.OrganizationStored | src/sigTlvs.cpp:102-107 | an organization extension of any of the three types: two identifiers of three octets, and the rest |
| WireBodies.ErrorStored | src/msg.cpp:743-763 | an error status in a signalling message: the error in front of the identifier, four octets that are ignored, and the text |
| WireBodies.ErrorAnswered | src/msg.cpp:537-560 | the same as an answer, which ends with MSG or the error of the check |
| WireBodies.ManagementStored | src/msg.cpp:764-784 | a management TLV in a signalling message is stored with its identifier and the normalised data |
| WireBodies.ManagementSkipped | src/msg.cpp:764-784 | it is skipped without data, and if no usable identifier has its value |
| WireBodies.SmpteStored | src/msg.cpp:582-602 | the SMPTE extension: all its members come back from their octets |
| WireBodies.MessageTaken | src/msg.cpp:471-608 | a management message, octet by octet: every member of the header, the actions 2, 3 and 4, and the TLV by its type and length |
| WireBodies.SignallingTaken | src/msg.cpp:471-512 | a signalling message is walked through if that is asked for |
| WireBodies.OthersRefused | src/msg.cpp:467-491 | no other octets are accepted: type, length, version and message interval |
| WireAnswers.AnswerRefused | src/msg.cpp:561-572 | an answer is refused with action 3, without its identifier, and if no usable identifier has its value |
| WireAnswers.AnswerTaken | src/msg.cpp:561-581 | all outcomes of an answer with a known identifier: the action has to belong to it, data is read, and its errors are returned |
| WireAnswers.StatusStored | src/msg.cpp:743-763 | the exact reading of an error status in a signalling message; at most one octet is no text, and a text that is cut off fails |
| WireAnswers.StatusAnswered | src/msg.cpp:537-560 | the same as an answer, with an action that belongs to the identifier |
| WireAnswers.StatusRefused | src/msg.cpp:537-560 | an error status that is too short, or without a usable identifier |
| WireAnswers.SmpteRefused | src/msg.cpp:582-602 | the SMPTE extension is refused unless it is asked for, in a command, with the identifier 68-97-e8 |
| WireAnswers.ShortRefused | src/sigTlvs.cpp:101-148 | the least octets of organization extensions, L1_SYNC, extended L1_SYNC and management TLVs |
| SaContents.FileContents | src/cfg.cpp:398-482 | in the map of an accepted file an identifier is there if and only if a section names it, and its keys are exactly those of the key lines of the last such section |
| SaTexts.EntryRead | src/cfg.cpp:252-381 | a key line in one of the four kinds, with its type and optional digest size, gives exactly that key |
| SaTexts.FileBack | src/cfg.cpp:398-482 | every file written from sections with distinct identifiers is accepted and gives exactly these SPPs and keys |
| HmacLibraries.FreeUnloads | src/hmac.cpp:144-153 | without keys all pointers are null afterwards, with keys nothing changes |
| HmacLibraries.AllDeletedUnloads | src/hmac.cpp:144-193 | from any consistent state: after deleting every key in use, in any order, the free call unloads the library |
| HmacLibraries.AllocMeans | src/hmac.cpp:122-211 | a key is in use if and only if it was made, initialised and has a library, which is the one there or the first that can be loaded; other keys stay |
| HmacLibraries.SelectMeans | src/hmac.cpp:80-120 | a library is loaded by name if and only if none is there and the only one that matches can be |
| Base64.EncodedAt | src/bin.cpp:451-487 | every symbol of an encoded text is the letter of RFC 4648 for six bits of the octets, and padding fills groups of four |
| JsonStrings.StringExactly | src/jsonParser.cpp:266-330 | a text is accepted as a string if and only if it is made of octet groups, escapes of one letter, escapes of four digits and surrogate pairs up to a quotation mark, and exactly their octets are stored |
| JsonStrings.WordExactly | src/jsonParser.cpp:200-216 | the keywords are true, false and null in front of a delimiter, and nothing else |
| JsonGrammar.ParsedExactly | src/jsonParser.cpp:474-579 | a text is parsed to a tree if and only if its lexemes are those of a value with that meaning: the grammar of RFC 8259, but for one word in front of a first name; and it is empty if and only if it has no lexemes |
| JsonGrammar.Collected | src/jsonParser.cpp:490-532 | the members of an object are sorted, and hold for every name exactly the values of the text under that name, in its order |
| JsonGrammar.WovenLexed | src/jsonParser.cpp:230-264 | white space, line comments and closed block comments between lexemes leave the lexemes as they are |
| JsonGrammar.CommentsIgnored | src/jsonParser.cpp:85-129 | a text with comments between its lexemes, in front and at the end is parsed as the text without them |
| JsonGrammar.WovenParsed | src/jsonParser.cpp:474-579 | the text of every value, with any gaps, is parsed to the meaning of the value |
| JsonGrammar.CommentBehind | src/jsonParser.cpp:85-129 | directly behind a number or a keyword a comment is not skipped, and the value is refused |
| JsonAcceptance.GetExactly | src/jsonParser.cpp:945-960 | a member is found if and only if its key is in the object once, with this value |
| JsonAcceptance.ValueRead | src/jsonDef.cpp:36-222 | a value is read if and only if it has the form its type asks for |
| JsonAcceptance.UnsignedRead | src/jsonDef.cpp:36-222 | an unsigned number is its decimal value, stopped at 64 bits and cut to its width; true is 1 |
| JsonAcceptance.SignedRead | src/jsonDef.cpp:36-222 | a signed number that the member can hold is read as it is |
| JsonAcceptance.ReaderExactly | src/jsonDef.cpp:223-368 | a dataField is accepted if and only if every name of its table, list included, is a key of its object once, with a value that can be read for its type |

## Left out

- Sockets, polling, PHC clocks, interface lookup, options and the command line tools: system calls and user interface.
- The cryptographic back ends: a MAC is an abstract digest and verify pair, a digest has the length asked for, and making a key may fail.
- The C interface, copying of structures and ownership of TLVs: repetitive field copies.
- Float64 members: the model carries their 8 octets without interpreting them; `getFloat` and the float forms of timestamps are not modelled.
- The signed `proc48`: no TLV uses it, and its parse does not extend the sign, so it does not round trip.
- Messages.Message.SetAction: the data to send is a value here; the source keeps a pointer, so the caller could still change the data before `build`, and `build` masks the flags in it.
- TlvHandling.ParseTlv: for an identifier without dataField that carries octets the source leaves its TLV pointer uninitialised; the model stores no TLV.
- MessageProcessor.MsgProc.ProcChain: lists longer than their count can say are excluded on build.
- Line numbers of the JSON lexer and error texts: they do not influence the result.
- Refilling the JSON text from a file (`jsonParserFile`), `fopen` and `fgets`: texts and files are sequences of characters and lines; lines end with a white space.
- HmacLibraries.HmacLibrary.Alloc: calls are sequential steps; interleavings of threads are not modelled.
- JsonFields.SimpleBack: member names and enumerator names are parameters that have to be distinct; a clock accuracy without a name, numbers given as strings and timestamps that need floating point are not read; texts need no escape, because the writer does not escape them.
- JsonSchemas.ManagementBack: the counters of PORT_STATS_NP that have no name have to be zero, because they are not written; the source leaves them uninitialised in a TLV that it reads, and the model starts with zeros. Lengths and counts are derived in the model, and written as they are there.
- Timestamps.Timestamp.Subtract: not for a timestamp to be subtracted with more than 3294967296 nanoseconds where seconds are borrowed, because the 32 bits would wrap around and the loop may not end (`LoopEnds`).
- JsonNumber.FracExact: negative numbers give the fraction without its sign and are left out, and so are results beyond 64 bits.
- Configuration files other than the SA file, and IP address texts: table look-ups and library calls.
