# Corda IBC: wire codec, browser scripts and token transfer

A Dafny model of the parts of this repository whose correctness takes an argument, with proofs that
hold for all inputs, all runs or all reachable states.

* **The protobuf wire codec** that gogo/protobuf generated for the Corda light client
  (`corda-types.pb.go`, `bank.pb.go`), which implements the sections "Base 128 Varints" and "Message
  Structure" of the Protocol Buffers encoding.  `Varint`, `Skipper` (with the grammar of fields and
  groups), `Decoder` (the loop every `Unmarshal` is, for any message type), `Encoder` (writing
  backwards), `CordaTypes` and `CordaMessages` (leaf and nested messages as values and as objects),
  `BankTypes`, `BankSizes`, `BankMessages`, `BankMessage`, `BankLaws` and `MapGrowth` (maps in arbitrary
  iteration order, the whole bank, and how much room decoded maps take), and `WireLaws` (which bytes these
  are, told without the tables that encoding and decoding share).
* **The jQuery source** that the documentation ships: `Combinator` (cached selector walks and the
  compilation of selectors), `NthChild`, `CallbackList`, `CallbackObject` and `CallbackLaws`,
  `DeferredState`, `DeferredObject` and `DeferredLaws`, `When`.
* **The underscore source** that the documentation ships: `DeepEq`, `Throttle`, `Flatten`,
  `SortedIndex`.
* **The IBC handshake, packet and transfer handlers** in Kotlin: `DenomPath`, `TokenBank`, `ChannelHandshake`,
  `PacketChannel`, `TokenTransfer`, `TokenLaws`.

`Wrappers` and `Sets` hold what several of them share.

How the model is built.  What the source updates in place is a class or an array here, and its
methods are proved against functions of the old state; the laws are lemmas about those functions.
The Kotlin states are immutable and copied, so they are datatypes.  Runs are sequences of events of
the environment; a callback that runs synchronously, and may call back, is a stretch of events
between the event that calls it and the event in which it returns.

Seven things in the source do not do what one would expect, and the model follows the source:

* The cached search of `:nth-last-child` starts at the element instead of the last child, because the
  variable that is to walk the siblings is first used to reach the cache (jquery-3.5.1.js:1992).  The
  elements in front of the one that is asked for first get wrong positions for the rest of the run;
  `NthChild.Parent.LastPositions` says exactly which answers are right.
* A callback that empties its list while it fires and then adds to it may find the addition passed
  over (jquery-3.5.1.js:3586-3591); `CallbackList.PassIsComplete` says exactly when.
* `deepEq` pairs each object on its stack with one partner only (underscore-1.12.0.js:437-442), so that
  cyclic graphs that nothing tells apart can be found unequal: `DeepEq.BisimilarButDifferent`.
  `DeepEq.SameIff` says exactly when the answer is true.
* `chanOpenAck` accepts an ack of a channel that has itself answered (Handler.kt:388-389) and then
  overwrites the peer and the version of the answer (Handler.kt:421-425).  A proof may be of a state that
  has passed, so that two ends can be open of which one names a peer that names another:
  `ChannelHandshake.CrossingDisagrees`.  If every ack of a channel that has answered names the peer and
  the version of the answer, which a host can check before it handles the message, open ends agree
  (`ChannelHandshake.OpenChannelsAgree`); `ChannelHandshake.MisfitDisagrees` is the converse.
* The key and the value of a map entry are checked against the end of the buffer and not of the entry
  (bank.pb.go:1778, 1807, 1955, 1983), and either may be missing.  Bytes can so be read more than once,
  and a map can take quadratically more room when it is written again: `MapGrowth.OverlapGrows`.  When
  every entry gives a key and a value inside the entry nothing grows: `MapGrowth.BankCanonical`.
* Amounts are integers of either sign, and the only check is `balance >= amount` (Bank.kt:50-55): a
  negative amount can be locked or sent, and leaves negative balances and vouchers that nothing backs
  (`TokenBank.NegativeLock`, `TokenTransfer.NegativeSend`).  `TokenBank.SolventIff` says exactly when an
  operation keeps all balances from being negative.
* Locked tokens are kept by owner (Bank.kt:61-69), so a returning voucher is paid out only to a
  receiver with locked tokens of their own; `TokenTransfer.ReturnSucceedsIff` says exactly when.

Integers are unbounded where the source's cannot overflow in use, and otherwise the width is written
out: 64-bit varints, `int` lengths that turn negative, `int32` field numbers, `uint32` indexes.  A
buffer is shorter than 2^63 bytes, as every Go slice is.

Line numbers refer to the repository's files.

## Model

| member | source | states |
|---|---|---|
| Varint.EncodeVarint | go/x/ibc/light-clients/xx-corda/types/corda-types.pb.go:557-567 | writes exactly the base-128 digits of v in front of the offset, returns where they start, and changes no other byte |
| Varint.SovIsSize | go/x/ibc/light-clients/xx-corda/types/corda-types.pb.go:660-662 | the size predicted from the bit length is the number of base-128 digits |
| Varint.SizeIsLeast | go/x/ibc/light-clients/xx-corda/types/corda-types.pb.go:660-662 | n digits are enough for v if and only if v is below 128^n, so the digit count is the least one |
| Varint.SizeOfWord | go/x/ibc/light-clients/xx-corda/types/corda-types.pb.go:660-662 | a 64-bit number has 1 to 10 digits |
| Varint.SizeSubadditive | go/x/ibc/light-clients/xx-corda/types/corda-types.pb.go:660-662 | a sum has no more digits than its two parts have together |
| Varint.DecodeWord | go/x/ibc/light-clients/xx-corda/types/corda-types.pb.go:754-768 | the shift-accumulating loop, with its truncation to the word, reads the first varint of the input or fails as the specification of varints says |
| Varint.DecodeVarint | go/x/ibc/light-clients/xx-corda/types/corda-types.pb.go:754-768 | the loop over a 64-bit word: value, new index, overflow and end of input |
| Varint.DecodeUint32 | go/x/ibc/light-clients/xx-corda/types/corda-types.pb.go:815-833 | the loop that accumulates into a uint32 |
| Varint.ReadVarintOfEncoding | go/x/ibc/light-clients/xx-corda/types/corda-types.pb.go:557-567 | what the encoder writes is read back as v, whatever follows it, in exactly as many bytes |
| Varint.ReadVarintStable | go/x/ibc/light-clients/xx-corda/types/corda-types.pb.go:754-768 | a varint that was read is read the same when more bytes follow |
| Varint.CanonicalIsShortest | go/x/ibc/light-clients/xx-corda/types/corda-types.pb.go:754-768 | no accepted encoding of a number is shorter than the one that is written; the digit count bounds it |
| Varint.Uint32IsLowBits | go/x/ibc/light-clients/xx-corda/types/corda-types.pb.go:815-833 | for any accepted varint of up to ten bytes the uint32 accumulation is the uint64 value modulo 2^32 |
| Varint.OrAdds | go/x/ibc/light-clients/xx-corda/types/corda-types.pb.go:754-768 | or-ing shifted digits into a word that holds smaller bits adds them, also when the word is too narrow for the shift |
| Varint.LowIsRemainder | go/x/ibc/light-clients/xx-corda/types/corda-types.pb.go:815-833 | narrowing a word to w bits is taking the remainder modulo 2^w |
| Skipper.Skip | go/x/ibc/light-clients/xx-corda/types/bank.pb.go:2814-2891 | the loop with its depth counter computes the skip specification, in bounds and with every error, on all inputs |
| Skipper.SkipWireType | go/x/ibc/light-clients/xx-corda/types/bank.pb.go:2829-2884 | one turn of the switch on the wire type |
| Skipper.SkipIsField | go/x/ibc/light-clients/xx-corda/types/bank.pb.go:2814-2891 | skipping returns n within the input if and only if the first n bytes are one complete field of the grammar, groups balanced, group numbers unmatched |
| Skipper.SkipField | go/x/ibc/light-clients/xx-corda/types/bank.pb.go:2814-2891 | every field of the grammar, at any depth, is skipped exactly |
| Skipper.ParseField | go/x/ibc/light-clients/xx-corda/types/bank.pb.go:2814-2891 | whatever was skipped at depth 0 parses as a field of the grammar |
| Skipper.ParseGroup | go/x/ibc/light-clients/xx-corda/types/bank.pb.go:2859-2866 | a group that was skipped splits into fields and a closing tag |
| Skipper.SkipStable | go/x/ibc/light-clients/xx-corda/types/bank.pb.go:2814-2891 | skipping succeeds the same when more bytes follow |
| Decoder.DecodeTag | go/x/ibc/light-clients/xx-corda/types/bank.pb.go:1413-1436 | the tag in front of a field, with int32 truncation of its number and the two tag errors |
| Decoder.DecodeExtent | go/x/ibc/light-clients/xx-corda/types/bank.pb.go:1442-1465 | a length, with overflow to a negative int, and the span behind it inside the buffer |
| Decoder.DecodePayload | go/x/ibc/light-clients/xx-corda/types/bank.pb.go:1439-1465 | the checks of a length-delimited field in their order |
| Decoder.SkipUnknownField | go/x/ibc/light-clients/xx-corda/types/bank.pb.go:1653-1665 | a field the switch does not know is skipped, with its three errors |
| Decoder.StepStable | go/x/ibc/light-clients/xx-corda/types/bank.pb.go:1412-1671 | one turn of the loop reads the same when more bytes follow |
| Decoder.DecodeConcat | go/x/ibc/light-clients/xx-corda/types/bank.pb.go:1412-1671 | the loop over x followed by y is the loop over y from the message x left |
| Decoder.UnmarshalConcat | go/x/ibc/light-clients/xx-corda/types/bank.pb.go:1409-1672 | for every message type: decoding a concatenation is decoding its parts in turn on the same message |
| Decoder.UnmarshalUnknown | go/x/ibc/light-clients/xx-corda/types/bank.pb.go:1653-1668 | a complete field of an unknown number leaves the message as it is |
| Decoder.UnknownFieldsAreIgnored | go/x/ibc/light-clients/xx-corda/types/bank.pb.go:1653-1668 | inserting such a field at any field boundary does not change what is decoded |
| Decoder.DecodeGrows | go/x/ibc/light-clients/xx-corda/types/corda-types.pb.go:666-1302 | if no field makes a message larger than the field was, decoding never makes it larger than the input |
| Decoder.DecodeLenField | go/x/ibc/light-clients/xx-corda/types/corda-types.pb.go:666-1302 | a written length-delimited field is taken as one turn of the loop |
| Decoder.LoopTurn | go/x/ibc/light-clients/xx-corda/types/corda-types.pb.go:669-748 | what a handled field does to what is left to decode |
| Encoder.PutHeader | go/x/ibc/light-clients/xx-corda/types/corda-types.pb.go:363-371 | tag and length in front of a payload, nothing else changed |
| Encoder.PutBytes | go/x/ibc/light-clients/xx-corda/types/corda-types.pb.go:363-371 | a whole length-delimited field, written backwards |
| Encoder.PutOptBytes | go/x/ibc/light-clients/xx-corda/types/corda-types.pb.go:433-476 | a string field, left out when empty |
| Encoder.WrittenMore | go/x/ibc/light-clients/xx-corda/types/corda-types.pb.go:390-413 | pieces written backwards join without gap or overlap |
| CordaTypes.BlobRoundTrip | go/x/ibc/light-clients/xx-corda/types/corda-types.pb.go:360-373 | `SecureHash` and `PublicKey` read back what they wrote |
| CordaTypes.StateRefRoundTrip | go/x/ibc/light-clients/xx-corda/types/corda-types.pb.go:390-413 | `StateRef` reads back what it wrote: nested hash absent or present, index 0 omitted |
| CordaTypes.NameRoundTrip | go/x/ibc/light-clients/xx-corda/types/corda-types.pb.go:430-478 | `CordaX500Name` reads back what it wrote, empty strings omitted |
| CordaTypes.PartyRoundTrip | go/x/ibc/light-clients/xx-corda/types/corda-types.pb.go:525-555 | `Party` reads back what it wrote, nested messages absent or present |
| CordaTypes.BlobCanonical | go/x/ibc/light-clients/xx-corda/types/corda-types.pb.go:666-749 | any accepted `SecureHash` or `PublicKey` is no longer when marshalled again, and is the same message |
| CordaTypes.StateRefCanonical | go/x/ibc/light-clients/xx-corda/types/corda-types.pb.go:750-854 | any accepted `StateRef` is no longer when marshalled again, and is the same message |
| CordaTypes.NameCanonical | go/x/ibc/light-clients/xx-corda/types/corda-types.pb.go:855-1096 | any accepted `CordaX500Name` is no longer when marshalled again, and is the same message |
| CordaTypes.PartyCanonical | go/x/ibc/light-clients/xx-corda/types/corda-types.pb.go:1181-1302 | any accepted `Party` is no longer when marshalled again, and is the same message |
| CordaTypes.StateRefNeverGrows | go/x/ibc/light-clients/xx-corda/types/corda-types.pb.go:750-854 | decoding into a `StateRef` that holds something adds at most the length of the input to its size |
| CordaTypes.PartyNeverGrows | go/x/ibc/light-clients/xx-corda/types/corda-types.pb.go:1181-1302 | decoding into a `Party` that holds something adds at most the length of the input to its size, through the merging of its submessages |
| CordaTypes.NameNeverGrows | go/x/ibc/light-clients/xx-corda/types/corda-types.pb.go:855-1096 | decoding into a `CordaX500Name` that holds something adds at most the length of the input to its size, however often a field is given |
| CordaTypes.PartyLocal | go/x/ibc/light-clients/xx-corda/types/corda-types.pb.go:1181-1302 | a field of a `Party` is handled the same wherever it stands and whatever follows |
| CordaTypes.BlobLocal | go/x/ibc/light-clients/xx-corda/types/corda-types.pb.go:666-749 | a field of a `SecureHash` or `PublicKey` is handled the same wherever in a buffer it stands and whatever follows |
| CordaTypes.NameLocal | go/x/ibc/light-clients/xx-corda/types/corda-types.pb.go:855-1096 | a field of a `CordaX500Name` is handled the same wherever in a buffer it stands and whatever follows |
| CordaTypes.StateRefLocal | go/x/ibc/light-clients/xx-corda/types/corda-types.pb.go:750-854 | a field of a `StateRef` is handled the same wherever it stands and whatever follows |
| CordaMessages.BytesMessage.Size | go/x/ibc/light-clients/xx-corda/types/corda-types.pb.go:568-580 | the predicted size is the length of the encoding |
| CordaMessages.BytesMessage.MarshalToSizedBuffer | go/x/ibc/light-clients/xx-corda/types/corda-types.pb.go:360-373 | writes exactly its size into the end of the buffer given, backwards, and leaves the rest untouched |
| CordaMessages.BytesMessage.Unmarshal | go/x/ibc/light-clients/xx-corda/types/corda-types.pb.go:666-749 | on every input: the receiver and the error are those of the decoding specification, merged into what the receiver held |
| CordaMessages.StateRef.Size | go/x/ibc/light-clients/xx-corda/types/corda-types.pb.go:581-596 | the predicted size is the length of the encoding |
| CordaMessages.StateRef.MarshalToSizedBuffer | go/x/ibc/light-clients/xx-corda/types/corda-types.pb.go:390-413 | writes exactly its size into the end of the buffer given, backwards, and leaves the rest untouched |
| CordaMessages.StateRef.Unmarshal | go/x/ibc/light-clients/xx-corda/types/corda-types.pb.go:750-854 | on every input: the receiver and the error are those of the decoding specification, merged into what the receiver held |
| CordaMessages.CordaX500Name.Size | go/x/ibc/light-clients/xx-corda/types/corda-types.pb.go:597-629 | the predicted size is the length of the encoding |
| CordaMessages.CordaX500Name.MarshalToSizedBuffer | go/x/ibc/light-clients/xx-corda/types/corda-types.pb.go:430-478 | writes exactly its size into the end of the buffer given, backwards, and leaves the rest untouched |
| CordaMessages.CordaX500Name.Unmarshal | go/x/ibc/light-clients/xx-corda/types/corda-types.pb.go:855-1096 | on every input: the receiver and the error are those of the decoding specification, merged into what the receiver held |
| CordaMessages.Party.Size | go/x/ibc/light-clients/xx-corda/types/corda-types.pb.go:643-659 | the predicted size is the length of the encoding |
| CordaMessages.Party.MarshalToSizedBuffer | go/x/ibc/light-clients/xx-corda/types/corda-types.pb.go:525-555 | writes exactly its size into the end of the buffer given, backwards, and leaves the rest untouched |
| CordaMessages.Party.Unmarshal | go/x/ibc/light-clients/xx-corda/types/corda-types.pb.go:1181-1302 | on every input: the receiver and the error are those of the decoding specification, merged into what the receiver held |
| CordaMessages.StateRef.UnmarshalTxhash | go/x/ibc/light-clients/xx-corda/types/corda-types.pb.go:779-813 | the nested hash is merged into the one that is there, or into a new one |
| CordaMessages.StateRef.PutIndex | go/x/ibc/light-clients/xx-corda/types/corda-types.pb.go:395-399 | the index is written in front of the end unless it is 0 |
| CordaMessages.Party.UnmarshalName | go/x/ibc/light-clients/xx-corda/types/corda-types.pb.go:1210-1244 | the nested name is merged into the one that is there, or into a new one |
| CordaMessages.Party.UnmarshalOwningKey | go/x/ibc/light-clients/xx-corda/types/corda-types.pb.go:1246-1280 | the nested key is merged into the one that is there, or into a new one |
| CordaMessages.PutMessageHeader | go/x/ibc/light-clients/xx-corda/types/corda-types.pb.go:400-411 | length and tag in front of a nested message that was just written |
| BankTypes.EntryRoundTrip | go/x/ibc/light-clients/xx-corda/types/bank.pb.go:872-897 | a written map entry is read back as its key and value, either of which may be missing, nil values included |
| BankTypes.DecodeStrings | go/x/ibc/light-clients/xx-corda/types/bank.pb.go:1673-1849 | entries written in any order are overlaid on the map that is there, later ones winning |
| BankTypes.DecodeBalances | go/x/ibc/light-clients/xx-corda/types/bank.pb.go:1850-2028 | entries of a map of maps written in any order, nil values included, are overlaid on the map that is there, later ones winning |
| BankTypes.BankRoundTrip | go/x/ibc/light-clients/xx-corda/types/bank.pb.go:775-856 | whatever orders its maps were walked in, a written bank is read back whole |
| BankTypes.BankLocal | go/x/ibc/light-clients/xx-corda/types/bank.pb.go:1409-1672 | a field of a bank is handled the same wherever it stands and whatever follows |
| BankTypes.StringMapLocal | go/x/ibc/light-clients/xx-corda/types/bank.pb.go:1673-1849 | a field of a string map is handled the same wherever in a buffer it stands and whatever follows |
| BankTypes.BalanceMapLocal | go/x/ibc/light-clients/xx-corda/types/bank.pb.go:1850-2028 | a field of a map of maps is handled the same wherever in a buffer it stands and whatever follows |
| BankTypes.EntryLocal | go/x/ibc/light-clients/xx-corda/types/bank.pb.go:1736-1826 | a map entry is handled the same wherever in a buffer it stands and whatever follows, though its fields are checked against the end of the buffer and not of the entry |
| BankSizes.MapSizePick | go/x/ibc/light-clients/xx-corda/types/bank.pb.go:1257-1273 | the size of a map does not depend on which entry is taken first |
| BankSizes.StringsLength | go/x/ibc/light-clients/xx-corda/types/bank.pb.go:872-897 | every order in which a string map can be walked is written in as many bytes as its size says |
| BankSizes.BalancesLength | go/x/ibc/light-clients/xx-corda/types/bank.pb.go:914-946 | every order in which a map of maps can be walked, at both levels, is written in as many bytes as its size says |
| BankSizes.BankLength | go/x/ibc/light-clients/xx-corda/types/bank.pb.go:775-856 | every choice of orders for the maps of a bank is written in exactly the size predicted in another order |
| BankMessages.DecodePiece | go/x/ibc/light-clients/xx-corda/types/bank.pb.go:1736-1825 | one field of a map entry: bounds, overflow and skipping exactly as the specification has them |
| BankMessages.StringMapMessage.Size | go/x/ibc/light-clients/xx-corda/types/bank.pb.go:1257-1273 | walking the map in any order gives its size |
| BankMessages.StringMapMessage.MarshalToSizedBuffer | go/x/ibc/light-clients/xx-corda/types/bank.pb.go:872-897 | walking the map in any order writes all entries, each once, into exactly its size |
| BankMessages.StringMapMessage.UnmarshalEntry | go/x/ibc/light-clients/xx-corda/types/bank.pb.go:1705-1828 | one entry is read and overlaid on the map, in bounds on every input |
| BankMessages.StringMapMessage.Unmarshal | go/x/ibc/light-clients/xx-corda/types/bank.pb.go:1673-1849 | map and error are those of the decoding specification on every input; it ends, and succeeds only at the end of the input |
| BankMessages.BalanceMapMessage.Size | go/x/ibc/light-clients/xx-corda/types/bank.pb.go:1274-1295 | walking the map in any order gives its size, nil values counted without a value field |
| BankMessages.BalanceMapMessage.MarshalToSizedBuffer | go/x/ibc/light-clients/xx-corda/types/bank.pb.go:914-946 | walking the map in any order writes all entries, each once, nil values without a value field |
| BankMessages.BalanceMapMessage.PutBalance | go/x/ibc/light-clients/xx-corda/types/bank.pb.go:916-942 | one entry, its value message first, takes the room the size foresees |
| BankMessages.BalanceMapMessage.DecodeValue | go/x/ibc/light-clients/xx-corda/types/bank.pb.go:1986-1991 | an entry's value starts from an empty message each time it is given |
| BankMessages.BalanceMapMessage.UnmarshalEntry | go/x/ibc/light-clients/xx-corda/types/bank.pb.go:1882-2007 | one entry is read and overlaid on the map; values are new objects |
| BankMessages.BalanceMapMessage.Unmarshal | go/x/ibc/light-clients/xx-corda/types/bank.pb.go:1850-2028 | map and error are those of the decoding specification on every input |
| BankMessage.PutParties | go/x/ibc/light-clients/xx-corda/types/bank.pb.go:840-854 | the participants are written last one first, in front of what is there |
| BankMessage.Bank.MarshalMessages | go/x/ibc/light-clients/xx-corda/types/bank.pb.go:780-839 | fields 6 to 2 are written backwards, each walk of a map in an order of its own |
| BankMessage.Bank.MarshalToSizedBuffer | go/x/ibc/light-clients/xx-corda/types/bank.pb.go:775-856 | the whole bank fills exactly its size at the end of the buffer; the rest is untouched and the index never passes 0 |
| BankMessage.Bank.Size | go/x/ibc/light-clients/xx-corda/types/bank.pb.go:1222-1256 | the size of a bank, whatever orders its maps are walked in |
| BankMessage.Bank.Marshal | go/x/ibc/light-clients/xx-corda/types/bank.pb.go:760-768 | a buffer of the predicted size is filled by a second walk in orders of its own |
| BankMessage.Bank.UnmarshalParticipant | go/x/ibc/light-clients/xx-corda/types/bank.pb.go:1438-1471 | field 1: a new participant is appended, the others stay |
| BankMessage.Bank.UnmarshalBaseId | go/x/ibc/light-clients/xx-corda/types/bank.pb.go:1472-1507 | field 2: merged into the message that is there, other fields unchanged |
| BankMessage.Bank.UnmarshalAllocated | go/x/ibc/light-clients/xx-corda/types/bank.pb.go:1508-1543 | field 3: merged, other fields unchanged |
| BankMessage.Bank.UnmarshalLocked | go/x/ibc/light-clients/xx-corda/types/bank.pb.go:1544-1579 | field 4: merged, other fields unchanged |
| BankMessage.Bank.UnmarshalMinted | go/x/ibc/light-clients/xx-corda/types/bank.pb.go:1580-1615 | field 5: merged, other fields unchanged |
| BankMessage.Bank.UnmarshalDenoms | go/x/ibc/light-clients/xx-corda/types/bank.pb.go:1616-1651 | field 6: merged, other fields unchanged |
| BankMessage.Bank.UnmarshalField | go/x/ibc/light-clients/xx-corda/types/bank.pb.go:1412-1668 | one turn of the loop moves forward inside the buffer and keeps what is left to do |
| BankMessage.Bank.Unmarshal | go/x/ibc/light-clients/xx-corda/types/bank.pb.go:1409-1672 | bank and error are those of the decoding specification on every input, merged into what the bank held |
| BankMessage.RoundTrip | go/x/ibc/light-clients/xx-corda/types/bank.pb.go:760-856 | a bank that is marshalled and unmarshalled into a new one comes back whole |
| BankLaws.BankConcat | go/x/ibc/light-clients/xx-corda/types/bank.pb.go:1409-1672 | decoding a concatenation equals decoding its parts in turn on the same bank |
| BankLaws.BankIgnoresUnknown | go/x/ibc/light-clients/xx-corda/types/bank.pb.go:1653-1668 | an unknown field spliced in at a field boundary leaves the decoded bank unchanged |
| BankLaws.ParticipantsOnlyGrow | go/x/ibc/light-clients/xx-corda/types/bank.pb.go:1438-1471 | decoding only appends to the participants |
| BankLaws.AnyOrder | go/x/ibc/light-clients/xx-corda/types/bank.pb.go:775-988 | two walks of one bank in any orders write equally many bytes that read back as the same bank |
| BankLaws.EncodingIsInjective | go/x/ibc/light-clients/xx-corda/types/bank.pb.go:775-856 | banks written in the same bytes are the same |
| BankLaws.MapMessagesMayGrow | go/x/ibc/light-clients/xx-corda/types/bank.pb.go:1673-1849 | the smallest map message that grows: an entry without key and value, 2 bytes, becomes 6 |
| BankLaws.BlobLaws | go/x/ibc/light-clients/xx-corda/types/corda-types.pb.go:666-749 | a `SecureHash` or `PublicKey`: decoding a concatenation is decoding in turn, and unknown fields at a field boundary change nothing |
| BankLaws.StateRefLaws | go/x/ibc/light-clients/xx-corda/types/corda-types.pb.go:750-854 | the same two laws for `StateRef` |
| BankLaws.NameLaws | go/x/ibc/light-clients/xx-corda/types/corda-types.pb.go:855-1096 | the same two laws for `CordaX500Name` |
| BankLaws.PartyLaws | go/x/ibc/light-clients/xx-corda/types/corda-types.pb.go:1181-1302 | the same two laws for `Party` |
| BankLaws.StringMapLaws | go/x/ibc/light-clients/xx-corda/types/bank.pb.go:1673-1849 | the same two laws for a string map, whose entries are checked against the end of the buffer only |
| BankLaws.BalanceMapLaws | go/x/ibc/light-clients/xx-corda/types/bank.pb.go:1850-2028 | the same two laws for a map of maps |
| WireLaws.WrittenDigits | go/x/ibc/light-clients/xx-corda/types/corda-types.pb.go:557-567 | a number is written in base-128 digits that stand for it, all but the last with the continuation bit, and no zero digit at the end |
| WireLaws.ReadDigits | go/x/ibc/light-clients/xx-corda/types/corda-types.pb.go:754-768 | all inputs: up to ten digits are read modulo 2^64, minimal or not; ten bytes that all go on overflow, and an input that ends before is cut off |
| WireLaws.TagBits | go/x/ibc/light-clients/xx-corda/types/corda-types.pb.go:769-776 | the wire type is the low three bits of the tag and the number the rest, kept as a signed 32-bit one; end-group tags and numbers that are not positive are refused |
| WireLaws.LengthErrors | go/x/ibc/light-clients/xx-corda/types/corda-types.pb.go:793-803 | a length that is negative as an `int`, or longer than what is there, is refused |
| WireLaws.SkippedSizes | go/x/ibc/light-clients/xx-corda/types/corda-types.pb.go:1323-1378 | how much is skipped of an unknown field, by its wire type |
| WireLaws.WrongWireTypes | go/x/ibc/light-clients/xx-corda/types/corda-types.pb.go:778-781 | fields of bytes, strings or messages that are not length-delimited are refused |
| WireLaws.WrongWireTypesElse | go/x/ibc/light-clients/xx-corda/types/corda-types.pb.go:815-818 | an index that is not a varint and a map entry that is not length-delimited are refused |
| WireLaws.NameNumbers | go/x/ibc/light-clients/xx-corda/types/corda-types.pb.go:430-478 | a name is written as common name, organisation unit, organisation, locality, state and country under the numbers 1 to 6 |
| WireLaws.NameFieldSets | go/x/ibc/light-clients/xx-corda/types/corda-types.pb.go:884-1075 | a field of number 1 to 6 sets exactly the string of that number |
| WireLaws.BlobNumbers | go/x/ibc/light-clients/xx-corda/types/corda-types.pb.go:666-749 | the bytes of a `SecureHash` or `PublicKey` have number 1 and replace those that are there |
| WireLaws.StateRefNumbers | go/x/ibc/light-clients/xx-corda/types/corda-types.pb.go:390-413 | the hash is written and merged under number 1, and the index, unless it is 0, behind it |
| WireLaws.IndexNumber | go/x/ibc/light-clients/xx-corda/types/corda-types.pb.go:815-833 | the index has number 2 and is kept modulo 2^32 |
| WireLaws.PartyNumbers | go/x/ibc/light-clients/xx-corda/types/corda-types.pb.go:525-555 | the name is written and merged under number 1, and the key written under number 2 |
| WireLaws.KeyNumber | go/x/ibc/light-clients/xx-corda/types/corda-types.pb.go:1246-1280 | the key is merged under number 2 |
| WireLaws.StringEntryNumbers | go/x/ibc/light-clients/xx-corda/types/bank.pb.go:872-897 | an entry of a string map is a message with the key under number 1 and the value under number 2, written and read |
| WireLaws.BalanceEntryNumbers | go/x/ibc/light-clients/xx-corda/types/bank.pb.go:1850-2028 | an entry of a map of maps is read so, into a new value, or with a nil one |
| WireLaws.BalanceEntryWritten | go/x/ibc/light-clients/xx-corda/types/bank.pb.go:914-946 | and is written so, a nil value left out |
| WireLaws.EntryTypesIgnored | go/x/ibc/light-clients/xx-corda/types/bank.pb.go:1736-1811 | keys and values are read as length-delimited whatever wire type their tags have |
| WireLaws.EntryOthers | go/x/ibc/light-clients/xx-corda/types/bank.pb.go:1812-1825 | other fields of an entry are skipped and must end inside the entry |
| WireLaws.BankNumbers | go/x/ibc/light-clients/xx-corda/types/bank.pb.go:775-856 | a bank is written as its participants under number 1 and then base id, allocations, locked, minted and denominations under 2 to 6 |
| WireLaws.PartiesInOrder | go/x/ibc/light-clients/xx-corda/types/bank.pb.go:840-854 | participants are written in their order, each under number 1 |
| WireLaws.ParticipantNumber | go/x/ibc/light-clients/xx-corda/types/bank.pb.go:1438-1471 | a field 1 appends the participant and leaves all else |
| WireLaws.BaseIdNumber | go/x/ibc/light-clients/xx-corda/types/bank.pb.go:1472-1507 | a field 2 merges into the base id and leaves all else |
| WireLaws.BalancesNumber | go/x/ibc/light-clients/xx-corda/types/bank.pb.go:1508-1615 | fields 3, 4 and 5 merge into allocations, locked and minted, and leave all else |
| WireLaws.DenomsNumber | go/x/ibc/light-clients/xx-corda/types/bank.pb.go:1616-1651 | a field 6 merges into the denominations and leaves all else |
| WireLaws.HashMerges | go/x/ibc/light-clients/xx-corda/types/corda-types.pb.go:779-813 | a hash that is given twice is decoded as one with both payloads |
| WireLaws.NameMerges | go/x/ibc/light-clients/xx-corda/types/corda-types.pb.go:1210-1244 | a name that is given twice is decoded as one with both payloads |
| WireLaws.KeyMerges | go/x/ibc/light-clients/xx-corda/types/corda-types.pb.go:1246-1280 | so is a key |
| WireLaws.BaseIdMerges | go/x/ibc/light-clients/xx-corda/types/bank.pb.go:1472-1507 | a base id that is given twice is decoded as one with both payloads |
| WireLaws.BalancesMerge | go/x/ibc/light-clients/xx-corda/types/bank.pb.go:1508-1615 | allocations, locked and minted maps that are given twice are decoded as one with all entries |
| WireLaws.DenomsMerge | go/x/ibc/light-clients/xx-corda/types/bank.pb.go:1616-1651 | so are the denominations |
| WireLaws.PartyBytes | go/x/ibc/light-clients/xx-corda/types/corda-types.pb.go:525-555 | a party with common name A and a one-byte key, byte by byte, written and read |
| WireLaws.StateRefBytes | go/x/ibc/light-clients/xx-corda/types/corda-types.pb.go:390-413 | a reference with a one-byte hash and index 300, byte by byte, written and read |
| MapGrowth.StringsNeverGrow | go/x/ibc/light-clients/xx-corda/types/bank.pb.go:1673-1849 | if every entry gives a key and a value, each ending at or before the end of the entry, a string map grows by no more than the input, from any receiver |
| MapGrowth.BalancesNeverGrow | go/x/ibc/light-clients/xx-corda/types/bank.pb.go:1850-2028 | the same for a map of maps, whose values may be missing and are tidy themselves where they are not |
| MapGrowth.BankNeverGrows | go/x/ibc/light-clients/xx-corda/types/bank.pb.go:1409-1672 | a bank with such maps takes no more room than it was read from |
| MapGrowth.StringsCanonical | go/x/ibc/light-clients/xx-corda/types/bank.pb.go:872-897 | a tidy string map is written again, in any order, in no more bytes, which read back as the same map |
| MapGrowth.BalancesCanonical | go/x/ibc/light-clients/xx-corda/types/bank.pb.go:914-946 | the same for a tidy map of maps |
| MapGrowth.BankCanonical | go/x/ibc/light-clients/xx-corda/types/bank.pb.go:775-856 | the same for a whole tidy bank, in whatever orders its maps are walked |
| MapGrowth.WrittenBankTidy | go/x/ibc/light-clients/xx-corda/types/bank.pb.go:775-856 | what is written of a bank is tidy, whatever orders its maps were walked in |
| MapGrowth.OneStringIff | go/x/ibc/light-clients/xx-corda/types/bank.pb.go:1778-1826 | a minimally written entry takes more room when written again if and only if its key or value was left out, which is when it is not tidy |
| MapGrowth.OneBalanceIff | go/x/ibc/light-clients/xx-corda/types/bank.pb.go:1955-2007 | in a map of maps, if and only if the key was left out |
| MapGrowth.OverlapGrows | go/x/ibc/light-clients/xx-corda/types/bank.pb.go:1778-1807 | entries that end inside the header of a key: for every n, at most 13n bytes, 4n for n up to 31, are read as a map that takes at least 2n^2 + 4n, with equality for n up to 31 |
| MapGrowth.StringsBounded | go/x/ibc/light-clients/xx-corda/types/bank.pb.go:1673-1849 | tidy or not, a string map read from n bytes adds at most n entries of n bytes for key and value each |
| MapGrowth.BalancesBounded | go/x/ibc/light-clients/xx-corda/types/bank.pb.go:1850-2028 | tidy or not, a map of maps adds at most n entries of a key of n bytes and a value of that bound |
| Combinator.RelatedReaches | docs/_static/jquery-3.5.1.js:2402-2456 | a combinator relates an element to a matching one on its path: any eligible one, or the nearest |
| Combinator.RelatedStays | docs/_static/jquery-3.5.1.js:2604-2664 | combinators compiled later do not change what earlier ones mean |
| Combinator.MatcherFromTokens | docs/_static/jquery-3.5.1.js:2604-2664 | the compiled chain of combinators selects exactly what the list of tokens means, leading combinator and context included |
| Combinator.LeadingSelector | docs/_static/jquery-3.5.1.js:2607-2627 | a leading combinator and a filter: exactly the accepted nodes that are a child or a descendant of a context node, or the next or a later sibling of a context element |
| Combinator.LeadingCombinator | docs/_static/jquery-3.5.1.js:2607-2617 | a leading combinator alone relates a node to the context, whatever `elsewhere` says |
| Combinator.NoLeadingCombinator | docs/_static/jquery-3.5.1.js:2610-2625 | without one the accepted nodes below a context node are selected, or all of them when anything goes |
| Combinator.FilterBehind | docs/_static/jquery-3.5.1.js:2628-2661 | a filter keeps those nodes of the selector in front of it that it accepts |
| Combinator.CombinatorBehind | docs/_static/jquery-3.5.1.js:2394-2456 | a combinator gives the nodes that stand so, in the tree, to an element that the selector in front of it means |
| Combinator.AmongConcat | docs/_static/jquery-3.5.1.js:2700-2720 | matches are collected in the order of the candidates, repetitions included |
| Combinator.CompileGroup | docs/_static/jquery-3.5.1.js:2604-2664 | several selectors are compiled behind one another without changing each other's meaning |
| Combinator.ChosenStays | docs/_static/jquery-3.5.1.js:2393-2398 | a combinator keeps its meaning however many are numbered after it |
| Combinator.SelectElements | docs/_static/jquery-3.5.1.js:2604-2720 | a whole selection, compiled and run with caches: the candidates, in their order, that one of the selectors means |
| Combinator.Matcher.Match | docs/_static/jquery-3.5.1.js:2460-2472 | filters and the combinator to their left, in that order, keep every cached answer right |
| Combinator.Matcher.WalkFirst | docs/_static/jquery-3.5.1.js:2402-2409 | the walk of a child or adjacent combinator |
| Combinator.Matcher.WalkPlain | docs/_static/jquery-3.5.1.js:2418-2425 | the walk over an XML document, which nothing is cached for |
| Combinator.Matcher.WalkCached | docs/_static/jquery-3.5.1.js:2411-2456 | the cached walk answers as the uncached one, and keeps: a live entry at a node says whether it or one further along matches |
| Combinator.Matcher.Visit | docs/_static/jquery-3.5.1.js:2443-2449 | the shared entry is placed and the node matched, with the walks inside overwriting what they like |
| Combinator.Matcher.Settle | docs/_static/jquery-3.5.1.js:2437-2441 | setting the shared entry's result makes it right at every node that holds it |
| Combinator.Matcher.Walk | docs/_static/jquery-3.5.1.js:2393-2458 | every kind of walk, nested in others or not, answers as the plain tree walk |
| Combinator.Matcher.Select | docs/_static/jquery-3.5.1.js:2667-2720 | a run over any candidates in any order, with caches left by earlier runs, selects exactly the elements one of the selectors means |
| NthChild.AcceptsIff | docs/_static/jquery-3.5.1.js:2039-2041 | the final test accepts exactly the positions a*n + b with n >= 0, for a of any sign and 0 (section 6.6.5.2 of Selectors Level 3) |
| NthChild.Parent.SimpleChild | docs/_static/jquery-3.5.1.js:1935-1951 | `first`, `last` and `only` hold exactly at position 1 from that side, or both |
| NthChild.Parent.SeekResumed | docs/_static/jquery-3.5.1.js:1956-1984 | resuming from the parent's cached position, and starting over when the element is not behind it, gives the true position and caches it |
| NthChild.Parent.ForwardPositions | docs/_static/jquery-3.5.1.js:1956-1984 | for any order of questions in any runs every forward position is the true one |
| NthChild.Parent.SeekPlain | docs/_static/jquery-3.5.1.js:2005-2036 | the uncached search gives the true position from either end, by element or by name |
| NthChild.Parent.SeekLast | docs/_static/jquery-3.5.1.js:1986-2036 | the cached search from the back: what it answers and what it leaves at every sibling |
| NthChild.Parent.LastIsRightIff | docs/_static/jquery-3.5.1.js:1989-2010 | what a search begun at p leaves at an element is its true position if and only if the element is not in front of p |
| NthChild.PositionIsNumber | docs/_static/jquery-3.5.1.js:1976-2036 | a position is the number of siblings up to the child, or from it on, that are elements or have the name |
| NthChild.Parent.LeftIsNumber | docs/_static/jquery-3.5.1.js:1989-2030 | in front of the element that was asked for first the answer is the number of elements up to that one |
| NthChild.Parent.LastPositions | docs/_static/jquery-3.5.1.js:1986-2036 | over a run of questions `nth-last-child` positions are right exactly for the elements not in front of the one asked for first: `node = elem` makes the first search start at the element |
| NthChild.Parent.NthChild | docs/_static/jquery-3.5.1.js:1917-2043 | `:nth-child(an+b)` with its cache and its shortcut accepts exactly the positions the formula gives |
| NthChild.Parent.NthLastChild | docs/_static/jquery-3.5.1.js:1917-2043 | the cached `:nth-last-child(an+b)` accepts by the position that its search leaves; when the element is not in front of the first one asked for, exactly the positions that the formula gives |
| NthChild.Parent.LastAccepted | docs/_static/jquery-3.5.1.js:1917-2043 | over a whole selection by one formula every element not in front of the first one asked for is accepted exactly when its position meets the formula |
| NthChild.Parent.NthUncached | docs/_static/jquery-3.5.1.js:1917-2043 | `:nth-child`, `:nth-last-child` and their `of-type` kinds, where nothing is cached, accept exactly the positions the formula gives |
| CallbackList.RunKeeps | docs/_static/jquery-3.5.1.js:3453-3645 | over every run, for all options: the invariant that all of the following rest on |
| CallbackList.FiringsInOrder | docs/_static/jquery-3.5.1.js:3483-3525 | calls are made in the order of the fires and never interleave; within one, in the order of the list; nothing twice |
| CallbackList.PassIsComplete | docs/_static/jquery-3.5.1.js:3491-3505 | when a pass ends unstopped, a surviving entry was called in it if and only if it was not added at an index already passed, which takes emptying the list during the pass |
| CallbackList.EmptyingHidesAdditions | docs/_static/jquery-3.5.1.js:3586-3591 | a run in which a callback empties the list and adds to it, and the new entry is not called |
| CallbackList.MemoryIff | docs/_static/jquery-3.5.1.js:3489-3509 | over every run: the data of the last call that was taken up is remembered if and only if the call is being made or the list has the memory option, and it was neither stopped nor disabled since |
| CallbackList.NoMemory | docs/_static/jquery-3.5.1.js:3506-3509 | a list at rest that remembers anything has the memory option |
| CallbackList.LateAddition | docs/_static/jquery-3.5.1.js:3531-3559 | a late addition fires alone, with the arguments of the last call, if the list has the memory option and was neither stopped nor disabled since that call; otherwise an addition at rest calls nothing |
| CallbackList.NoCallIsLost | docs/_static/jquery-3.5.1.js:3620-3630 | without disable and lock every fire that was accepted has had its turn or is in the queue, in order |
| CallbackList.UniqueRuns | docs/_static/jquery-3.5.1.js:3545-3549 | with the unique flag no callback is ever in the list twice |
| CallbackList.RemoveAllKeeps | docs/_static/jquery-3.5.1.js:3562-3576 | removing entries during a pass, the current one included, neither skips nor repeats another |
| CallbackList.AddKeeps | docs/_static/jquery-3.5.1.js:3531-3559 | adding keeps the invariant, during a pass, before one and after one |
| CallbackList.ReturnKeeps | docs/_static/jquery-3.5.1.js:3495-3505 | going on after a callback, or stopping at false, keeps the invariant |
| CallbackLaws.AddContents | docs/_static/jquery-3.5.1.js:3540-3556 | what is added stands behind what was there, all of it, or with the unique flag each callback that is not there yet |
| CallbackLaws.RemoveContents | docs/_static/jquery-3.5.1.js:3562-3576 | every entry for the arguments is taken out, and the others keep their order |
| CallbackLaws.RemoveKeepsPlace | docs/_static/jquery-3.5.1.js:3565-3574 | removing shifts the firing index so that exactly the entries behind it are still behind it |
| CallbackLaws.FireIsSent | docs/_static/jquery-3.5.1.js:3620-3631 | a call that is not locked out is sent with its arguments: behind the calls that wait, or taken up at once at rest |
| CallbackLaws.LockStopsFires | docs/_static/jquery-3.5.1.js:3620-3622 | after `lock` or `disable`, whatever comes between, `fire` does nothing |
| CallbackLaws.LockDropsPending | docs/_static/jquery-3.5.1.js:3608-3614 | locking drops the calls that wait, lets the one that is being made go on, and spends a list at rest with nothing to remember |
| CallbackLaws.LockedEnd | docs/_static/jquery-3.5.1.js:3513-3524 | a locked list that has done firing keeps an empty list if it remembers its data, and is spent otherwise |
| CallbackLaws.OnceOnly | docs/_static/jquery-3.5.1.js:3485-3486 | with `once` every later fire is ignored, over every run |
| CallbackLaws.DisabledForGood | docs/_static/jquery-3.5.1.js:3596-3600 | after `disable` nothing is ever called again |
| CallbackLaws.PassGoesOn | docs/_static/jquery-3.5.1.js:3493-3505 | a callback that returns goes on to the next entry with the same data |
| CallbackLaws.StopEndsPass | docs/_static/jquery-3.5.1.js:3495-3502 | returning false where that stops the list ends the pass: no other entry is called in it |
| CallbackLaws.FiredIff | docs/_static/jquery-3.5.1.js:3488-3490 | `fired` tells whether a call was ever taken up |
| CallbackObject.Callbacks.Proceed | docs/_static/jquery-3.5.1.js:3491-3505 | the two loops, up to the next callback or to the end |
| CallbackObject.Callbacks.Leave | docs/_static/jquery-3.5.1.js:3508-3525 | what is done behind the loops: memory, flags and list |
| CallbackObject.Callbacks.FireQueue | docs/_static/jquery-3.5.1.js:3483-3525 | `fire`: single-firing is enforced and the queue is begun |
| CallbackObject.Callbacks.AddAll | docs/_static/jquery-3.5.1.js:3531-3559 | `add`, firing late additions in memory mode |
| CallbackObject.Callbacks.RemoveCallbacks | docs/_static/jquery-3.5.1.js:3562-3576 | `remove`, with firingIndex moved along |
| CallbackObject.Callbacks.RemoveCallback | docs/_static/jquery-3.5.1.js:3563-3574 | all places of one callback are spliced out |
| CallbackObject.Callbacks.EmptyList | docs/_static/jquery-3.5.1.js:3586-3591 | `empty` |
| CallbackObject.Callbacks.DisableList | docs/_static/jquery-3.5.1.js:3596-3600 | `disable` |
| CallbackObject.Callbacks.LockList | docs/_static/jquery-3.5.1.js:3608-3614 | `lock` |
| CallbackObject.Callbacks.FireAll | docs/_static/jquery-3.5.1.js:3620-3630 | `fireWith` |
| CallbackObject.Callbacks.Returned | docs/_static/jquery-3.5.1.js:3495-3505 | the callback that is being called returns |
| DeferredState.PlayIsSafe | docs/_static/jquery-3.5.1.js:3690-3984 | over every run of reentrant callbacks: how far settling has come decides the state, the other list and the progress list |
| DeferredState.SettlesOnce | docs/_static/jquery-3.5.1.js:3931-3936 | the state leaves pending at most once |
| DeferredState.CalledExactlyOnce | docs/_static/jquery-3.5.1.js:3920-3958 | only one of the two lists is ever called; at rest each callback it was given, before or after settling, was called exactly once, in order, and every call, at rest or not, has the arguments of the first settling |
| DeferredState.FirstArgumentsStay | docs/_static/jquery-3.5.1.js:3697-3700 | the arguments of the first settling are never replaced |
| DeferredState.StateBeforeCallbacks | docs/_static/jquery-3.5.1.js:3931-3955 | when a callback of the user is called the state is set, the other list disabled and progress locked |
| DeferredState.LaterFiresAreIgnored | docs/_static/jquery-3.5.1.js:3960-3972 | once settled, resolving, rejecting and notifying do nothing |
| DeferredState.NotBetween | docs/_static/jquery-3.5.1.js:3931-3955 | between callbacks settling is complete or has not begun |
| DeferredLaws.ListsAreRuns | docs/_static/jquery-3.5.1.js:3920-3972 | over every run each list of a deferred is a callback list of its own: additions, fires and returns of the user, the disabling of the other list and the locking of progress, and nothing else |
| DeferredLaws.LateProgress | docs/_static/jquery-3.5.1.js:3694-3696 | once there was a notification, a late progress callback is called at once with its arguments, whether the deferred has settled since or not |
| DeferredLaws.NotifyIsSent | docs/_static/jquery-3.5.1.js:3968-3972 | as long as the deferred is pending every notification is sent |
| DeferredLaws.SettleIsAccepted | docs/_static/jquery-3.5.1.js:3968-3972 | a pending deferred can be resolved and rejected: the first callback of the list is called with the arguments given |
| DeferredLaws.LockMeansSettled | docs/_static/jquery-3.5.1.js:3947-3951 | progress is locked by settling only |
| DeferredObject.DeferredMachine.constructor | docs/_static/jquery-3.5.1.js:3920-3958 | the callbacks that settle the state come first in their lists |
| DeferredObject.DeferredMachine.AddCallbacks | docs/_static/jquery-3.5.1.js:3927 | `done`, `fail` and `progress`, from inside any callback |
| DeferredObject.DeferredMachine.FireCallbacks | docs/_static/jquery-3.5.1.js:3971 | `resolveWith`, `rejectWith` and `notifyWith`, from inside any callback |
| DeferredObject.DeferredMachine.CallbackReturns | docs/_static/jquery-3.5.1.js:3491-3505 | the innermost callback returns and its list goes on or ends |
| DeferredObject.DeferredMachine.RunInternal | docs/_static/jquery-3.5.1.js:3931-3955 | a callback of the constructor does its part and returns |
| When.Aggregate.constructor | docs/_static/jquery-3.5.1.js:3987-4032 | plain values resolve at once, the last one first, and the promise of `when` holds from the start |
| When.Aggregate.Update | docs/_static/jquery-3.5.1.js:4004-4012 | an input that resolves is put in position; the master resolves with all values exactly when it was the last one |
| When.Aggregate.Refuse | docs/_static/jquery-3.5.1.js:4029 | an input that rejects rejects the master unless another has before |
| When.KeptNext | docs/_static/jquery-3.5.1.js:4004-4012 | resolves iff all resolve, values in position, and otherwise rejects with the first rejection: kept by a resolution |
| When.RejectedNext | docs/_static/jquery-3.5.1.js:4029 | resolves iff all resolve, values in position, and otherwise rejects with the first rejection: kept by a rejection |
| When.FirstRejectionIs | docs/_static/jquery-3.5.1.js:4029 | the rejection that counts is one that nothing was rejected before |
| DeepEq.TrueMeansBisimilar | docs/_static/underscore-1.12.0.js:356-473 | on any graph, cyclic or not, a true answer means that the two sides are bisimilar |
| DeepEq.AcyclicAnswer | docs/_static/underscore-1.12.0.js:356-473 | when the left value has no cycle the answer is true exactly for structural equality, exactly for bisimilarity, and exactly when every path reads the same on both sides |
| DeepEq.SameIff | docs/_static/underscore-1.12.0.js:356-473 | on every closed graph the answer is true if and only if the two sides are bisimilar and, on every walk along both sides that repeats no object on the left, each step back on the left is a step back to the partner on the right |
| DeepEq.AnswerIff | docs/_static/underscore-1.12.0.js:356-473 | on every closed graph the answer is true if and only if every path of indexes and keys reads the same on both sides, absence, array lengths and sets of keys included, and the ways round close together |
| DeepEq.BisimilarIff | docs/_static/underscore-1.12.0.js:356-473 | nothing tells two values apart if and only if every path reads the same on both sides, cyclic or not |
| DeepEq.EqualShapes | docs/_static/underscore-1.12.0.js:450-466 | objects that are found equal are of one class, equally long if they are arrays and with exactly the same keys if not |
| DeepEq.SameCloses | docs/_static/underscore-1.12.0.js:437-442 | a true answer closes every way round on the left on the right as well |
| DeepEq.ClosesIsSame | docs/_static/underscore-1.12.0.js:437-473 | bisimilar sides that close together are found equal from every walk on |
| DeepEq.FunctionalIsSame | docs/_static/underscore-1.12.0.js:437-446 | graphs that correspond by a function, copies for example, cyclic or not, are equal |
| DeepEq.BisimilarButDifferent | docs/_static/underscore-1.12.0.js:437-442 | two cyclic graphs that are bisimilar, do not close together, and get the answer false |
| DeepEq.SameIsStructural | docs/_static/underscore-1.12.0.js:437-473 | without cycles nothing is ever found on the stack |
| DeepEq.Comparison.Eq | docs/_static/underscore-1.12.0.js:356-368 | terminates on every closed graph and answers as the specification with these stacks; a true answer leaves the stacks as they were |
| DeepEq.Comparison.Deep | docs/_static/underscore-1.12.0.js:371-473 | terminates on two objects and answers as the specification with these stacks: class, stack search, push, members, pop |
| DeepEq.Comparison.Elements | docs/_static/underscore-1.12.0.js:449-456 | arrays of equal length are compared element by element from the back |
| DeepEq.Comparison.Properties | docs/_static/underscore-1.12.0.js:457-468 | objects with the same keys are compared key by key in any order |
| Throttle.Throttled.Call | docs/_static/underscore-1.12.0.js:1097-1115 | runs the function at once, exactly when the window is over, or with trailing leaves one timer, due within the wait, with the latest arguments; invocations stay `wait` apart |
| Throttle.Throttled.Later | docs/_static/underscore-1.12.0.js:1089-1094 | the timer runs the function with the latest arguments, at least `wait` after the last invocation, and without a leading edge leaves no window open, so that the next call does not run the function |
| Throttle.Throttled.Returns | docs/_static/underscore-1.12.0.js:1093 | the arguments are dropped when no timer needs them, also after reentrant calls |
| Throttle.Throttled.Cancel | docs/_static/underscore-1.12.0.js:1117-1121 | no timer is left, and the next invocation is not held to the spacing |
| Flatten.Flattener.Append | docs/_static/underscore-1.12.0.js:1022-1036 | the accumulator appends exactly what the pure definition gives, strict or not, and each write goes just behind the output |
| Flatten.Flattener.Start | docs/_static/underscore-1.12.0.js:1015-1037 | `flatten` for every depth, a number, not positive, or falsy, gives what lies at that level and, unless strict, the items above it |
| Flatten.FlatIsListing | docs/_static/underscore-1.12.0.js:1015-1037 | for every depth and mode: the values at exactly that level and, unless strict, the items above it, in the order of the text; without a depth all items, and in strict mode nothing |
| Flatten.FlatTwice | docs/_static/underscore-1.12.0.js:1015-1037 | flattening by d1 and then d2 is flattening by d1 + d2, for all natural and infinite depths, in either mode |
| Flatten.FlatConcat | docs/_static/underscore-1.12.0.js:1022-1035 | flattening distributes over concatenation |
| Flatten.FullyFlat | docs/_static/underscore-1.12.0.js:1017-1018 | without a bound no list is left, and in strict mode nothing is |
| Flatten.DeepEnough | docs/_static/underscore-1.12.0.js:1027-1030 | a bound that no list is nested beyond is no bound |
| SortedIndex.FindSortedIndex | docs/_static/underscore-1.12.0.js:1247-1256 | on every sorted array the binary search finds the leftmost insertion point |
| SortedIndex.LeftmostIsUnique | docs/_static/underscore-1.12.0.js:1245-1256 | there is only one such point |
| SortedIndex.InsertKeepsOrder | docs/_static/underscore-1.12.0.js:1245-1256 | inserting there keeps the order, and nowhere further left does |
| SortedIndex.IndexOf | docs/_static/underscore-1.12.0.js:1259-1287 | the first place of the item from the start, or -1; on sorted arrays the binary path gives the answer of the linear scan |
| SortedIndex.LastIndexOf | docs/_static/underscore-1.12.0.js:1259-1291 | the last place of the item before the bound, or -1 |
| SortedIndex.AnswersAreUnique | docs/_static/underscore-1.12.0.js:1259-1282 | either search has one answer only, so the two paths agree |
| DenomPath.PrefixRoundTrip | contracts/src/main/kotlin/jp/datachain/corda/ibc/ics20/denom-path.kt:5-35 | what was added to a path is there and is what is taken off again |
| DenomPath.PrefixPutBack | contracts/src/main/kotlin/jp/datachain/corda/ibc/ics20/denom-path.kt:14-35 | a prefix that is taken off can be put back if and only if the path is not the prefix followed by a bare slash |
| DenomPath.DenomRoundTrip | contracts/src/main/kotlin/jp/datachain/corda/ibc/ics20/Denom.kt:34-41 | a denomination survives being sent as a string if and only if its base has no slash |
| DenomPath.FromStringBase | contracts/src/main/kotlin/jp/datachain/corda/ibc/ics20/Denom.kt:34-41 | what is read from a string has a base without slashes |
| DenomPath.PrefixIff | contracts/src/main/kotlin/jp/datachain/corda/ibc/ics20/denom-path.kt:24-35 | a path has the prefix if and only if it is the port and the channel, alone or with more behind a slash |
| DenomPath.VoucherString | contracts/src/main/kotlin/jp/datachain/corda/ibc/ics20/denom-path.kt:5-12 | a voucher is written as the port, the channel and the denomination that it stands for |
| TokenBank.LockMoves | contracts/src/main/kotlin/jp/datachain/corda/ibc/ics20/Bank.kt:61-64 | locking moves a fund of one denomination and leaves all totals else |
| TokenBank.UnlockMoves | contracts/src/main/kotlin/jp/datachain/corda/ibc/ics20/Bank.kt:66-69 | unlocking moves it back |
| TokenBank.UnlockUndoesLock | contracts/src/main/kotlin/jp/datachain/corda/ibc/ics20/Bank.kt:61-69 | what was locked can be unlocked, and every balance is what it was |
| TokenBank.TotalUp | contracts/src/main/kotlin/jp/datachain/corda/ibc/ics20/Bank.kt:44-48 | crediting changes one total by the amount and no other |
| TokenBank.TotalDown | contracts/src/main/kotlin/jp/datachain/corda/ibc/ics20/Bank.kt:50-55 | debiting changes one total by the amount and no other |
| TokenBank.SolventIff | contracts/src/main/kotlin/jp/datachain/corda/ibc/ics20/Bank.kt:44-77 | for amounts of either sign: an operation that goes through leaves no negative balance if and only if the balance it credits does not become negative; a burn always does |
| TokenBank.NegativeLock | contracts/src/main/kotlin/jp/datachain/corda/ibc/ics20/Bank.kt:50-64 | locking -5 on a zero balance goes through and leaves 5 free and -5 locked |
| PacketChannel.SendKeepsLink | contracts/src/main/kotlin/jp/datachain/corda/ibc/ics25/Handler.kt:561-609 | a packet is committed under a sequence that was never used |
| PacketChannel.RecvKeepsLink | contracts/src/main/kotlin/jp/datachain/corda/ibc/ics25/Handler.kt:611-691 | a packet that is received was not received before and is still committed at its sender; receipts, sequences and acknowledgements stay in step |
| PacketChannel.AckKeepsLink | contracts/src/main/kotlin/jp/datachain/corda/ibc/ics25/Handler.kt:693-757 | acknowledging removes the commitment of a packet that was received |
| PacketChannel.NeverTwice | contracts/src/main/kotlin/jp/datachain/corda/ibc/ics25/Handler.kt:659-687 | a packet that was received, or acknowledged, is refused from then on |
| ChannelHandshake.OpenChannelsAgree | contracts/src/main/kotlin/jp/datachain/corda/ibc/ics25/Handler.kt:255-480 | over every run in which each ack of a channel that has answered names the peer and version of the answer, in-place answers included: an open channel of either host has a peer that names it, with ports crossed and the same order and version, and no other open channel has that peer |
| ChannelHandshake.RunIsRecorded | contracts/src/main/kotlin/jp/datachain/corda/ibc/ics25/Handler.kt:255-480 | the invariant behind it, over every run of either host in any order, refused messages included; without the condition on acks, what was ever stored still fits what is there |
| ChannelHandshake.AckRecords | contracts/src/main/kotlin/jp/datachain/corda/ibc/ics25/Handler.kt:372-426 | an ack keeps the invariant: what it proves named this channel when it answered, and where the ack fits it still does |
| ChannelHandshake.ConfirmRecords | contracts/src/main/kotlin/jp/datachain/corda/ibc/ics25/Handler.kt:428-480 | a confirmation keeps the invariant: it is of a channel that is open with this one |
| ChannelHandshake.TryRecords | contracts/src/main/kotlin/jp/datachain/corda/ibc/ics25/Handler.kt:285-370 | an answer keeps the invariant, with a new channel or in place of an own init |
| ChannelHandshake.MisfitDisagrees | contracts/src/main/kotlin/jp/datachain/corda/ibc/ics25/Handler.kt:388-425 | the converse, after every run: once an ack is accepted that breaks the condition, while the channel that was answered still waits, one more ack is accepted that leaves that channel open with a peer that does not agree |
| ChannelHandshake.MisfitLeaves | contracts/src/main/kotlin/jp/datachain/corda/ibc/ics25/Handler.kt:388-425 | if the channel that was answered is open with this one already, such an ack breaks the agreement at once, unless it only brings the version into line |
| ChannelHandshake.CrossingDisagrees | contracts/src/main/kotlin/jp/datachain/corda/ibc/ics25/Handler.kt:388-425 | a run from two new hosts in which an ack breaks the condition: both ends are open, and one names a peer that names another |
| ChannelHandshake.InPlaceOpens | contracts/src/main/kotlin/jp/datachain/corda/ibc/ics25/Handler.kt:297-316 | two hosts that both begin, one of which answers in place of its own init, open a channel that both ends agree on |
| ChannelHandshake.InPlaceKeeps | contracts/src/main/kotlin/jp/datachain/corda/ibc/ics25/Handler.kt:297-316 | an answer in place of an own init changes its phase, its port and its peer, and nothing else |
| ChannelHandshake.HandshakeOpens | contracts/src/main/kotlin/jp/datachain/corda/ibc/ics25/Handler.kt:255-480 | between any two hosts the four messages in turn open a channel that both ends agree on |
| TokenTransfer.SendBalances | contracts/src/main/kotlin/jp/datachain/corda/ibc/ics20/Module.kt:17-57 | sending, by lock or by burn, keeps every denomination balanced on both chains |
| TokenTransfer.ReceiveBalances | contracts/src/main/kotlin/jp/datachain/corda/ibc/ics20/ModuleCallbacks.kt:10-41 | receiving, by unlock, by mint or with a failure, keeps every denomination balanced on both chains |
| TokenTransfer.ConfirmBalances | contracts/src/main/kotlin/jp/datachain/corda/ibc/ics20/ModuleCallbacks.kt:43-65 | an acknowledgement, with or without refund, keeps every denomination balanced on both chains |
| TokenTransfer.PlayIsSafe | contracts/src/main/kotlin/jp/datachain/corda/ibc/ics25/Handler.kt:561-757 | whatever the two chains do, and however packets are relayed, delayed, repeated or dropped, all invariants hold |
| TokenTransfer.TokensAreConserved | contracts/src/main/kotlin/jp/datachain/corda/ibc/ics20/ModuleCallbacks.kt:10-65 | over every run from two new chains: what is locked of a denomination at home is out as vouchers or under way in either direction |
| TokenTransfer.VouchersAreBacked | contracts/src/main/kotlin/jp/datachain/corda/ibc/ics20/Bank.kt:61-77 | over every run from two new chains whose turns have no negative amounts, vouchers are never negative and never exceed what is locked for them |
| TokenTransfer.BackedIff | contracts/src/main/kotlin/jp/datachain/corda/ibc/ics20/Bank.kt:61-77 | over every run, whatever the signs of its amounts, vouchers are backed if and only if what is under way is not negative in sum |
| TokenTransfer.NegativeSend | contracts/src/main/kotlin/jp/datachain/corda/ibc/ics20/Module.kt:20-36 | a run that sends -5: no voucher is out and -5 is locked |
| TokenTransfer.PlayAmounts | contracts/src/main/kotlin/jp/datachain/corda/ibc/ics20/Bank.kt:44-77 | over every run whose turns have no negative amounts no balance and no packet is negative |
| TokenTransfer.AmountsStayOk | contracts/src/main/kotlin/jp/datachain/corda/ibc/ics20/Bank.kt:44-77 | actions whose amounts are not negative keep it so |
| TokenTransfer.ReturnSucceedsIff | contracts/src/main/kotlin/jp/datachain/corda/ibc/ics20/ModuleCallbacks.kt:18-27 | a returning voucher is paid out if and only if its receiver has that much locked |
| TokenTransfer.ReturnToAnotherFails | contracts/src/main/kotlin/jp/datachain/corda/ibc/ics20/ModuleCallbacks.kt:18-27 | tokens that are locked, but by another owner, are not paid out |
| TokenTransfer.RefundsSucceed | contracts/src/main/kotlin/jp/datachain/corda/ibc/ics20/ModuleCallbacks.kt:53-65 | the acknowledgement of a received packet always goes through: a reported failure can be refunded |
| TokenTransfer.ReceivedOnce | contracts/src/main/kotlin/jp/datachain/corda/ibc/ics25/Handler.kt:611-691 | over every step: an acknowledgement that was written stays, and its packet is never received again |
| TokenTransfer.ConfirmedOnce | contracts/src/main/kotlin/jp/datachain/corda/ibc/ics25/Handler.kt:693-757 | over every step: a commitment that is gone never comes back, and its packet is never acknowledged again |
| TokenTransfer.HomeTotalStays | contracts/src/main/kotlin/jp/datachain/corda/ibc/ics20/Module.kt:17-57 | only funding changes how much of a denomination there is at home, free and locked together |
| TokenLaws.OperationsMove | contracts/src/main/kotlin/jp/datachain/corda/ibc/ics20/Bank.kt:57-77 | each operation changes the balances of one owner in one denomination, and no other balance of anyone |
| TokenLaws.SendDebitsSender | contracts/src/main/kotlin/jp/datachain/corda/ibc/ics20/Module.kt:28-54 | sending takes the amount from the sender and nobody else, and commits a packet that names denomination, amount, sender and receiver |
| TokenLaws.ReceiveCreditsReceiver | contracts/src/main/kotlin/jp/datachain/corda/ibc/ics20/ModuleCallbacks.kt:18-38 | a successful receive gives the receiver the amount, minted, or free with as much less locked; every other balance of every owner stays, and all do on a failure |
| TokenLaws.ConfirmRefundsSender | contracts/src/main/kotlin/jp/datachain/corda/ibc/ics20/ModuleCallbacks.kt:43-65 | a confirmed failure gives the sender back what was taken; a confirmed success changes no balance |
| TokenLaws.TransferOut | contracts/src/main/kotlin/jp/datachain/corda/ibc/ics20/ModuleCallbacks.kt:30-35 | from end to end: what the sender has locked on one chain the receiver holds on the other as a voucher, written as port, channel and denomination |
| TokenLaws.TransferHome | contracts/src/main/kotlin/jp/datachain/corda/ibc/ics20/ModuleCallbacks.kt:19-23 | and home again: the sender's vouchers are gone, and the receiver has as much less locked and more free |
| TokenLaws.RefundUndoesTransfer | contracts/src/main/kotlin/jp/datachain/corda/ibc/ics20/ModuleCallbacks.kt:53-65 | a transfer that is refunded leaves every balance of everyone as it was |

## Left out

- The partial state of a receiver after a decoding error: only the error is specified then.
- The difference between nil and empty slices and maps, which the encoding does not keep either.
- Receivers whose fields share objects that decoding would update twice: `Bank.Valid` excludes them.
- `SecureHash` and `PublicKey` have the same code and are one class, as are `Bank_BalanceMapPerDenom` and `Bank_IbcDenomMap`; the second copies of `encodeVarint`, `sov` and `skip` are cited at the first.
- Byte slices that are passed to decoding are sequences, so a decoded byte field does not alias the input; UTF-8 validity of strings is not checked by the code and not modelled.
- Request and response messages, `config.pb.go`, `corda.pb.go`, descriptors, registration and gRPC plumbing: the same generated patterns or plain forwarding.
- Participants that are nil pointers, on which marshalling panics.
- Node matchers of selectors are fixed sets of nodes; attribute, pseudo-class and positional matchers, set matchers, the `legend` special case of a combinator, and matchers that run selectors of their own are not modelled.
- Cloned attribute caches of old browsers (`uniqueID`).
- Exceptions thrown by callbacks, which leave a jQuery callback list firing for ever.
- Inspecting nested arrays of callbacks in `add`; they are given as one flat list here.
- `Deferred.then`, `pipe` and the handler lists behind them, `setTimeout` and exception hooks: the constructor's callbacks for those lists do nothing here.
- `when` with fewer than two inputs; inputs that settle more than once, which a jQuery promise never does.
- Underscore's NaN, signed zero, boxed primitives, dates, regular expressions, typed arrays, functions and constructors in `deepEq`; values are primitives, arrays and plain objects.
- Array-like objects that are not arrays in `flatten`; depths that are not whole numbers.
- The return value of a throttled function; clocks that run backwards.
- NaN in `indexOf`; items that cannot be compared.
- Packet timeouts, heights, connection states, port authentication and closed channels: whether they allow a step is left to the environment; a proof of a light client is taken to show what the other chain has or had.
- The handshake of connections, which is assumed to have paired the two hosts; versions other than by equality.
- Packets sent before a channel is open; the two ends of `PacketChannel` are paired from the start.
- Several channels or chains that share one bank.
- The hash that stands for a voucher in a message (`ibc/` and a digest): a transfer names the denomination itself.
- Sequence numbers that pass the range of a 64-bit integer.
