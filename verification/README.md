# Codevar, modelled and proved

A Dafny model of the parts of codevar whose correctness is hardest to see, with proofs of what they promise.

* **WEZC** (`tools/wezc.py`), the context-mixing compressor: the adaptive model, the carry-less arithmetic coder, the UTF-32 plane split and the container.
* **D-Bus** (`crates/dbus/src`): the signature grammar, names, marshalling at any offset, messages, the incremental stream with its descriptor queue, the transmit queue, the receive loop, replies and serials, and the authentication handshake.
* **HTML repair** (`crates/base/src/html.rs`): the tokenizer, the tree builder and the repaired document.
* **URLs** (`crates/base/src/url.rs`) and **Base64** (`crates/base/src/base64.rs`), including the vector kernel.

`dafny verify dfyconfig.toml` checks everything.

## Main results

* Decompression inverts compression for every predictor, dictionary and input, with encoder and decoder in the same state after every bit (`CoderRoundTrip`, `WezcRuns`, `WezcContainer`, `Utf32`); every run keeps every table index and state in range.
* Every well-typed D-Bus value written at any offset is read back and skipped to the same place (`DbusRoundTrip`, `DbusRead`); every message decodes to itself exactly when its names are valid and its reply serial is not zero (`DbusMessageRoundTrip`).
* A sequence of messages comes out of the stream unchanged however the bytes and the descriptors are cut into reads (`DbusStream`); no byte and no descriptor is lost, repeated or misplaced by the transmit queue, whatever the kernel answers (`DbusConn`); and what one connection sends is what the other one reads (`DbusDuplex`).
* Every message that comes in goes to the call it answers or to the application, once and in order (`DbusConn`), from what one application sends to what the other one gets (`DbusLink`).
* Every interleaving of polls and feeds is a legal handshake (`DbusAuth`).
* Every HTML input ends, and every document that comes out is balanced, has one root and no stray text (`HtmlRepair`), whatever chunks of bytes it came in (`HtmlFeed`).
* A document comes out unchanged exactly when no rule of the tokenizer or the tree builder touches any of its tokens (`HtmlFaithful`, `HtmlExact`); raw text passes exactly when it holds no markup characters. Which characters an input may hold for its document to be sure to be XML is stated exactly in `HtmlXmlInput`.
* Signatures, names, IPv4 and IPv6 addresses, ports and URLs are accepted exactly when they follow their grammars, and print back to their input (`DbusSignature`, `DbusNames`, `UrlAddress`, `UrlParse`).
* The vector Base64 encoder equals the scalar one on every input (`Base64Simd`).

## How the model is built

Code that computes values is modelled by functions. Code that changes things step by step is modelled by methods and classes with the loops and fields of the original, and each method is proved to do what a function of the old state says. The theorems are about those functions, so they hold of the methods.

| files | models |
|---|---|
| `Bytes`, `Utf8`, `Iteration` | little-endian numbers, slices, UTF-8, loops as iterated functions |
| `ArithmeticCoder`, `CoderRoundTrip`, `WezcModel`, `WezcRuns`, `WezcClass`, `WezcRun`, `Utf32`, `WezcContainer` | WEZC |
| `DbusSignature`, `DbusNames`, `DbusWire`, `DbusRead`, `DbusRoundTrip`, `DbusWriter`, `DbusReader` | D-Bus types, names and values |
| `DbusMessage`, `DbusMessageRoundTrip`, `DbusMessageCode`, `DbusStream`, `DbusConn`, `DbusDuplex`, `DbusLink`, `DbusAuth` | D-Bus messages, streams, connections, authentication |
| `HtmlTokens`, `HtmlTree`, `HtmlTokenizer`, `HtmlRepair`, `HtmlParser`, `HtmlFeed` | HTML repair |
| `HtmlFaithful`, `HtmlGrowth`, `HtmlExact` | which documents come out unchanged |
| `HtmlXml`, `HtmlAlphabet`, `HtmlXmlInput` | which inputs become XML |
| `UrlAddress`, `Url`, `UrlParse` | URLs |
| `Base64`, `Base64Simd` | Base64 |

## Where the code and its documentation differ

The model follows the code.

* `base64::decode` documents that padding is accepted only in the last quartet (`crates/base/src/base64.rs:97-109`); the code accepts it in every quartet. `Base64.PaddingInTheMiddle` shows it, `Base64.DecodeIff` says exactly what is accepted and `Base64.ReencodesIff` says exactly when decoding loses nothing.
* D-Bus names are documented to have at most 255 bytes (`crates/dbus/src/names.rs:18-21`); the code allows 256, and 257 for unique bus names, whose colon it does not count: `DbusNames.OverlongNames`, with the exact lengths in `DbusNames.NameLengths`.
* A reply serial of zero is encoded but never decoded: `DbusMessageRoundTrip.ZeroReplySerialIsLost`, with the exact condition in `DbusMessageRoundTrip.DecodeUndoesEncode`.
* A string of 4 GiB or more is written with a truncated length: `DbusRoundTrip.StrBackIff` gives the exact condition.
* Writer, reader and stream align the length of an array to eight bytes, where the D-Bus Specification aligns it to four. The model has eight.
* The HTML parser documents well-formed XML (`crates/base/src/html.rs:16`, `crates/base/src/html.rs:2857`). White space that only Unicode knows stays beside the root, and instruction targets are read with Unicode's letter classes instead of XML's: `HtmlXml.WideSpaceStays` and `HtmlXml.OrdinalTarget` show it. `HtmlXmlInput.AlwaysXmlIff` gives the exact condition on the characters of the input, and `HtmlXml.TargetsAreNamesIff` the one on the letter classes.
* Well-formed input is said to pass through (`crates/base/src/html.rs:4316-4325`). Raw text is not unescaped but is escaped on output, so `<style>&amp;</style>` changes: `HtmlExact.StyleIsChanged`, with the exact condition for elements with text in `HtmlExact.ElementTextIff` and for every document in `HtmlExact.UnchangedIff`.
* `feed` documents that chunks may split multi-byte characters (`crates/base/src/html.rs:2936-2940`); the code refuses a character of three or four bytes cut anywhere but before its last byte: `HtmlFeed.EuroCutEarly`, with the exact condition in `HtmlFeed.FedIff`.

## Model

| member | source | states |
|---|---|---|
| `CoderRoundTrip.DecodeInvertsEncode` | tools/wezc.py:420-480 | for every predictor with outputs in 1..4095, every start state and every list of priming and coded blocks, decoding the payload of an encoding returns exactly the coded bytes |
| `CoderRoundTrip.LockStepAfterEveryBit` | tools/wezc.py:420-480 | for every block list, dictionaries included: after any blocks, any bytes of the next block and any bits of the next byte, the decoder holds the same model and interval as the encoder, and its window lies inside the interval |
| `CoderRoundTrip.EntersInStep` | tools/wezc.py:429-475 | the two ends enter every block with equal models and intervals, the window on the encoder's next bytes |
| `CoderRoundTrip.CodeBitInStep` | tools/wezc.py:442-463 | on encoder output the decoder's window lies inside the interval, it reads the encoder's bit, and both intervals stay equal |
| `CoderRoundTrip.RenormBack` | tools/wezc.py:449-463 | a payload inside the interval after the shifts was inside it before them |
| `CoderRoundTrip.SlideWindow` | tools/wezc.py:459-463 | shifting payload bytes in keeps `x` equal to four payload bytes at the read position, zeros past the end |
| `CoderRoundTrip.ClosingOnTrack` | tools/wezc.py:476-479 | the four closing bytes put the payload inside the last interval |
| `CoderRoundTrip.PrimingOnlyTeaches` | tools/wezc.py:433-475 | a priming block changes the model and nothing else: not the interval, the window, the position or the output |
| `ArithmeticCoder.MidInside` | tools/wezc.py:443-448 | before every coded bit the top bytes differ and `x1 <= mid < x2` |
| `ArithmeticCoder.ShiftWidens` | tools/wezc.py:449-452 | a shift keeps the ends ordered, makes the interval 256 times wider and only drops the shared top byte |
| `ArithmeticCoder.RenormWithinFourShifts` | tools/wezc.py:449-452 | renormalisation ends within four shifts, also from an interval that collapsed to one point |
| `ArithmeticCoder.PartialWhole` | tools/wezc.py:438-468 | the eight bits collected behind the marker bit are the byte |
| `WezcRuns.EveryRunKeepsTheModelValid` | tools/wezc.py:420-480 | table sizes, table indices, slot states, state-map entries and the match pointer stay valid after any blocks in any direction, also when decoding arbitrary payloads and across priming resets |
| `WezcRuns.RunKeeps` | tools/wezc.py:420-480 | whatever the predictor's own steps keep, every run keeps |
| `WezcRuns.StreamRoundTrip` | tools/wezc.py:483-494 | `decode_stream` returns what `encode_stream` was given, for all data, dictionaries and parameters |
| `WezcRun.EmitLeading` | tools/wezc.py:449-452 | the encoder's shift loop ends in the renormalised interval and appends exactly the shared bytes |
| `WezcRun.FetchLeading` | tools/wezc.py:459-463 | the decoder's shift loop ends in the same interval, having slid the window over as many bytes |
| `WezcRun.CodeOneBit` | tools/wezc.py:442-463 | one coded bit computes the chosen bit and the coder state of the specification in each mode |
| `WezcRun.RunBit` | tools/wezc.py:440-466 | one turn of the bit loop is one step of the specified coder, model included |
| `WezcRun.RunByte` | tools/wezc.py:436-469 | one byte is the specified eight bit steps and byte update |
| `WezcRun.RunBlock` | tools/wezc.py:433-475 | one block, priming or coded, is the specified block step |
| `WezcRun.RunBlocks` | tools/wezc.py:420-480 | the whole loop returns the specified output for either direction |
| `WezcRun.EncodeData` | tools/wezc.py:483-487 | the encoder's payload decodes back to the data |
| `WezcRun.DecodeData` | tools/wezc.py:490-494 | the decoder returns the specified stream |
| `WezcModel.NextStateCounts` | tools/wezc.py:191-203 | the seen bit's count goes up by one and stops at 7; the other one drops by one exactly when it is above 3 and the two exceed 7; the last bit is recorded |
| `WezcModel.InitialEntry` | tools/wezc.py:205-214 | every initial state-map entry has a probability in 1..65534 and a zero counter |
| `WezcModel.LearnEntry` | tools/wezc.py:406-412 | a state-map entry stays in range and its counter goes up by one, stopping at 255 |
| `WezcModel.Init` | tools/wezc.py:220-255 | a new model is valid for every table size |
| `WezcModel.MatchInput` | tools/wezc.py:296-313 | the match model returns a logit in -2047..2047, keeps the model valid and changes only its own table and miss flag |
| `WezcModel.Predict` | tools/wezc.py:315-379 | every prediction lies in 1..4095 and leaves a valid model |
| `WezcModel.Update` | tools/wezc.py:381-414 | learning a bit leaves a valid model |
| `WezcModel.ByteUpdate` | tools/wezc.py:257-294 | folding in a byte leaves a valid model: the match pointer stays inside the history while a match runs |
| `WezcModel.EndPriming` | tools/wezc.py:470-475 | after a dictionary the history is empty, no match runs and the model is valid |
| `WezcModel.WezcPredictor` | tools/wezc.py:217-414 | the model is a lawful predictor for the coder: outputs in 1..4095 |
| `WezcClass.Wezc.constructor` | tools/wezc.py:220-255 | builds the specified initial model and keeps the object valid |
| `WezcClass.Wezc.MatchInput` | tools/wezc.py:296-313 | returns the specified logit and updates the table of the match model as specified |
| `WezcClass.Wezc.Gather` | tools/wezc.py:317-351 | the lookup loops fill indices, states, inputs and mixer rows as specified and keeps the object valid |
| `WezcClass.Wezc.Decide` | tools/wezc.py:352-378 | the mixing loops and the secondary estimation give the specified probability and keeps the object valid |
| `WezcClass.Wezc.Predict` | tools/wezc.py:315-379 | returns a probability in 1..4095 and the state the specified predictor has and keeps the object valid |
| `WezcClass.Wezc.LearnMixers` | tools/wezc.py:391-405 | both weight-update loops leave the specified rows and keeps the object valid |
| `WezcClass.Wezc.LearnContexts` | tools/wezc.py:406-413 | the loop over the contexts leaves the specified slots and entries and keeps the object valid |
| `WezcClass.Wezc.LearnSse` | tools/wezc.py:414 | moves the selected cell as specified and keeps the object valid |
| `WezcClass.Wezc.Update` | tools/wezc.py:381-414 | learns a bit exactly as the specified predictor does and keeps the object valid |
| `WezcClass.Wezc.FoldContexts` | tools/wezc.py:259-275 | appends the byte and updates every rolling context as specified and keeps the object valid |
| `WezcClass.Wezc.ExtendMatch` | tools/wezc.py:277-282 | follows or drops the match as specified and keeps the object valid |
| `WezcClass.Wezc.FindMatch` | tools/wezc.py:283-294 | records the position and starts a match only at a confirmed candidate and keeps the object valid |
| `WezcClass.Wezc.ByteUpdate` | tools/wezc.py:257-294 | folds a byte exactly as the specified predictor does and keeps the object valid |
| `WezcClass.Wezc.EndPriming` | tools/wezc.py:470-475 | forgets the match history as specified and keeps the object valid |
| `Utf32.JoinInvertsSplit` | tools/wezc.py:93-152 | splitting any whole number of code units and joining the body gives the input back |
| `Utf32.SplitIsPlausible` | tools/wezc.py:93-120 | a split body is never longer than four times the input plus sixteen |
| `Utf32.EscapesListed` | tools/wezc.py:105 | the escape list holds exactly the code units whose upper bytes are not all zero |
| `Utf32.VarintReads` | tools/wezc.py:131-139 | reading undoes the varint coding of every number |
| `Utf32.DeltasRead` | tools/wezc.py:130-141 | reading the deltas rebuilds the ascending escape positions |
| `Utf32.WordsRead` | tools/wezc.py:142 | the three-byte words hold the upper bytes of their code units |
| `Utf32.FillRebuilds` | tools/wezc.py:145-151 | the escape words put back into the spread low plane rebuild the input |
| `Utf32.VarintLength` | tools/wezc.py:111-116 | a number below 2 to the power 7k takes at most k bytes |
| `Utf32.PutVarint` | tools/wezc.py:113-116 | the loop appends exactly the varint of the number |
| `Utf32.ListEscapes` | tools/wezc.py:105 | the scan lists exactly the escapes |
| `Utf32.PutDeltas` | tools/wezc.py:109-116 | the loop appends the varint deltas of the positions |
| `Utf32.PutWords` | tools/wezc.py:117-118 | the loop appends the three-byte words |
| `Utf32.SplitPlanes` | tools/wezc.py:93-120 | returns the specified body, or the error for a length that is no multiple of four or does not fit |
| `Utf32.GetVarint` | tools/wezc.py:131-139 | reads the specified varint or fails at the end of the body |
| `Utf32.GetPositions` | tools/wezc.py:128-141 | reads the specified positions or fails |
| `Utf32.PutEscapes` | tools/wezc.py:147-151 | writes the specified bytes or fails at the first position out of range |
| `Utf32.JoinPlanes` | tools/wezc.py:123-152 | returns the specified bytes or the specified error for every body |
| `WezcContainer.UnpackInvertsPack` | tools/wezc.py:500-535 | whatever packs unpacks to the same data, length and unit count, in both modes, with any dictionary and parameters; the plausibility check never fires |
| `WezcContainer.PackSucceeds` | tools/wezc.py:500-516 | every input of less than about a gigabyte packs, in whole code units when it is split |
| `WezcContainer.HeaderReads` | tools/wezc.py:507-530 | a written header is read back field by field and the plausibility check is decided by its lengths |
| `WezcContainer.PackData` | tools/wezc.py:500-516 | returns the specified blob or error, and the blob unpacks to the data |
| `WezcContainer.UnpackData` | tools/wezc.py:519-535 | returns the specified result for every blob, including every malformed one |
| `DbusSignature.ParseOneSound` | crates/dbus/src/signature.rs:91-158 | what is accepted is the printing of a type within the depth limits, and nothing after it is consumed |
| `DbusSignature.ParseOneComplete` | crates/dbus/src/signature.rs:91-158 | the printing of a type is accepted, whatever follows, exactly when the type is within the limits and dict entries stand only in arrays |
| `DbusSignature.ValidIffPrinted` | crates/dbus/src/signature.rs:210-231 | a signature is valid exactly when it has at most 255 bytes and prints some legal types |
| `DbusSignature.SingleIffPrinted` | crates/dbus/src/signature.rs:240-255 | a single type is valid exactly when it has at most 255 bytes and prints one legal type |
| `DbusSignature.SingleOfPrinted` | crates/dbus/src/signature.rs:267-286 | checking a printed type decides whether the type is legal, with or without a dict entry at the top |
| `DbusSignature.LegalShallower` | crates/dbus/src/signature.rs:91-158 | a type legal at some depth is legal at every smaller one |
| `DbusSignature.ItemsPartition` | crates/dbus/src/signature.rs:179-200 | the iterator cuts every valid signature into the printings of its complete types, in order |
| `DbusSignature.FirstItem` | crates/dbus/src/signature.rs:164-200 | the iterator takes exactly the first complete type, whatever follows |
| `DbusSignature.ParseType` | crates/dbus/src/signature.rs:91-158 | the recursive parser stops where the specification does or fails with the same error |
| `DbusSignature.ParseStruct` | crates/dbus/src/signature.rs:111-130 | the field loop of a struct stops where the specification does or fails with the same error |
| `DbusSignature.CheckSignature` | crates/dbus/src/signature.rs:210-231 | the loop accepts exactly the valid signatures |
| `DbusSignature.CheckSingle` | crates/dbus/src/signature.rs:240-286 | accepts exactly the valid single types |
| `DbusSignature.SignatureIter.Next` | crates/dbus/src/signature.rs:191-200 | returns the specified item and keeps the specified rest |
| `DbusNames.NamesAreTheGrammar` | crates/dbus/src/names.rs:83-165 | interface names, bus names and object paths are accepted exactly when they follow the grammar of the D-Bus Specification, section "Valid Names", with the code's limit of 256 bytes, the colon of a unique name not counted |
| `DbusNames.NameLengths` | crates/dbus/src/names.rs:26-165 | interface and well-known bus names come in exactly 3 to 256 bytes, members in 1 to 256, unique names in 4 to 257 |
| `DbusNames.OverlongNames` | crates/dbus/src/names.rs:18-46 | an interface name of 256 bytes and a unique name of 257 bytes are accepted, past the documented 255 |
| `DbusNames.ElementNameIff` | crates/dbus/src/names.rs:41-75 | the scan accepts exactly the dotted names with enough non-empty elements |
| `DbusNames.PathIff` | crates/dbus/src/names.rs:83-115 | the scan accepts exactly the object paths |
| `DbusNames.JoinPieces` | crates/dbus/src/names.rs:41-75 | splitting at separators undoes joining |
| `DbusNames.CheckElements` | crates/dbus/src/names.rs:41-75 | the index loop decides the specification |
| `DbusNames.CheckPath` | crates/dbus/src/names.rs:83-115 | the index loop decides the specification |
| `DbusWire.IntRoundTrip` | crates/dbus/src/marshal.rs:64-86 | integers of any width read back in both byte orders |
| `DbusWire.IntInjective` | crates/dbus/src/marshal.rs:64-86 | every byte string is the image of exactly one number below 256 to its length |
| `DbusWire.GapIsLeast` | crates/dbus/src/marshal.rs:486-493 | padding stops at the first multiple of the alignment and nowhere before |
| `DbusWire.TypedIsSolid` | crates/dbus/src/marshal.rs:627-676 | every well-typed value has a type that is read without ambiguity |
| `DbusRead.SkipStopsWhereReadingDoes` | crates/dbus/src/message.rs:1128-1205 | a value that can be read can be skipped, and skipping ends exactly where reading does |
| `DbusRead.Skip` | crates/dbus/src/message.rs:1128-1205 | skipping ends for every buffer and every type; a skip that succeeds consumes at least one byte and stays in its range |
| `DbusRead.ReadValue` | crates/dbus/src/marshal.rs:160-430 | reading ends for every buffer and every type; a value read takes at least one byte and stays in its range |
| `DbusRead.TypeIn` | crates/dbus/src/marshal.rs:425-429 | an accepted variant signature prints exactly the legal type it is read as |
| `DbusRoundTrip.ReadUndoesMarshal` | crates/dbus/src/marshal.rs:160-690 | any well-typed value of any type, marshalled at any offset, is read back from there and reading ends where writing stopped |
| `DbusRoundTrip.StrBackIff` | crates/dbus/src/marshal.rs:320-585 | a string is read back as written exactly when its length fits the 32-bit length field |
| `DbusRoundTrip.SigBack` | crates/dbus/src/marshal.rs:353-616 | every valid signature is read back as written |
| `DbusRoundTrip.IntBack` | crates/dbus/src/marshal.rs:198-565 | an aligned integer is read back and the cursor ends behind it |
| `DbusRoundTrip.ArrayBack` | crates/dbus/src/marshal.rs:382-645 | the reader finds exactly the range of items the writer wrote |
| `DbusRoundTrip.BoxedBack` | crates/dbus/src/marshal.rs:425-673 | a variant is read back with its type and value |
| `DbusWriter.Writer.Align` | crates/dbus/src/marshal.rs:486-493 | pads with zeros to the next multiple, and does nothing for alignment zero |
| `DbusWriter.Writer.WriteStr` | crates/dbus/src/marshal.rs:571-580 | refuses embedded zeros and otherwise appends the marshalled string |
| `DbusWriter.Writer.WriteObjectPath` | crates/dbus/src/marshal.rs:588-595 | appends the marshalled path, or refuses it and leaves the buffer alone |
| `DbusWriter.Writer.WriteSignature` | crates/dbus/src/marshal.rs:603-615 | appends the marshalled signature, or refuses it and leaves the buffer alone |
| `DbusWriter.Writer.PatchU32` | crates/dbus/src/marshal.rs:678-690 | overwrites exactly four bytes, or refuses a position out of range |
| `DbusWriter.Writer.WriteInt` | crates/dbus/src/marshal.rs:501-565 | appends padding and the bytes of the integer |
| `DbusWriter.PatchFillsIn` | crates/dbus/src/marshal.rs:627-644 | patching the length in place gives the array with its length in front |
| `DbusWriter.Writer.OpenArray` | crates/dbus/src/marshal.rs:631-635 | leaves an aligned place for the length and padding up to the first item |
| `DbusWriter.Writer.CloseArray` | crates/dbus/src/marshal.rs:637-643 | patches the length in, or refuses an array that is too long |
| `DbusWriter.BodyWriter.Record` | crates/dbus/src/message.rs:165-169 | appends to the signature only outside containers |
| `DbusWriter.BodyWriter.Write` | crates/dbus/src/message.rs:172-373 | writes the marshalled value or its error; outside containers the recorded signature is the printing of the value's type |
| `DbusWriter.BodyWriter.WriteBasic` | crates/dbus/src/message.rs:172-281 | writes the marshalled basic value and records its code |
| `DbusWriter.BodyWriter.WriteArray` | crates/dbus/src/message.rs:291-319 | writes the marshalled array with its patched length, or its error, and records its type once |
| `DbusWriter.BodyWriter.WriteStruct` | crates/dbus/src/message.rs:330-348 | writes the marshalled struct or its error and records its type once |
| `DbusWriter.BodyWriter.WriteEntry` | crates/dbus/src/message.rs:330-348 | writes the marshalled dict entry inside an array |
| `DbusWriter.BodyWriter.WriteVariant` | crates/dbus/src/message.rs:359-372 | writes the marshalled variant or its error and records only the variant code |
| `DbusReader.Reader.Align` | crates/dbus/src/marshal.rs:160-171 | moves to the next multiple or fails at the end of the range |
| `DbusReader.Reader.Bytes` | crates/dbus/src/marshal.rs:179-190 | takes exactly the bytes asked for or fails without reading past the range |
| `DbusReader.Reader.Str` | crates/dbus/src/marshal.rs:320-332 | returns the specified string or error |
| `DbusReader.Reader.ObjectPath` | crates/dbus/src/marshal.rs:340-344 | returns the specified path or error |
| `DbusReader.Reader.Signature` | crates/dbus/src/marshal.rs:353-369 | returns the specified signature or error |
| `DbusReader.Reader.VariantSignature` | crates/dbus/src/marshal.rs:425-429 | returns the specified single type or error |
| `DbusReader.Reader.ArrayRange` | crates/dbus/src/marshal.rs:382-403 | hands out the specified range of items and moves behind it |
| `DbusReader.Reader.Int` | crates/dbus/src/marshal.rs:198-289 | returns the specified integer or error |
| `DbusReader.Reader.Terminated` | crates/dbus/src/marshal.rs:320-372 | takes text and its closing zero or fails as specified |
| `DbusReader.Reader.SkipValue` | crates/dbus/src/message.rs:1128-1205 | the code guided only by signature bytes skips exactly what the typed specification skips |
| `DbusReader.Reader.SkipCode` | crates/dbus/src/message.rs:1135-1152 | skips a basic value as specified |
| `DbusReader.Reader.SkipVariant` | crates/dbus/src/message.rs:1153-1156 | skips the signature and the value of a variant as specified |
| `DbusReader.Reader.SkipArray` | crates/dbus/src/message.rs:1157-1171 | the item loop skips an array as specified and ends |
| `DbusReader.Reader.SkipStruct` | crates/dbus/src/message.rs:1172-1181 | the loop over the split signature skips the fields of a struct as specified |
| `DbusReader.Reader.SkipEntry` | crates/dbus/src/message.rs:1182-1197 | skips the key and the value of a dict entry as specified |
| `DbusMessageRoundTrip.DecodeUndoesEncode` | crates/dbus/src/message.rs:758-1054 | decoding an encoded message succeeds exactly when its names are valid and its reply serial is not zero, and then returns kind, flags, order, serial, every header field, signature and body, with the announced descriptor count and no descriptors |
| `DbusMessageRoundTrip.ZeroReplySerialIsLost` | crates/dbus/src/message.rs:758-1054 | a reply to serial zero encodes but never decodes |
| `DbusMessageRoundTrip.StoreFields` | crates/dbus/src/message.rs:971-1043 | storing the fields of a message rebuilds it exactly when its names are valid |
| `DbusMessageRoundTrip.FieldsBack` | crates/dbus/src/message.rs:957-1044 | the bytes of a field list decode to those fields stored in order |
| `DbusMessageRoundTrip.HeaderBack` | crates/dbus/src/message.rs:929-954 | the fixed header is read back from every frame |
| `DbusMessageRoundTrip.FieldBack` | crates/dbus/src/message.rs:958-1087 | one written field is read back and stored |
| `DbusMessageCode.CheckForEncode` | crates/dbus/src/message.rs:758-801 | refuses exactly the messages the specification refuses, with the same error |
| `DbusMessageCode.PutField` | crates/dbus/src/message.rs:1080-1087 | appends the specified field or fails as specified |
| `DbusMessageCode.PutFields` | crates/dbus/src/message.rs:834-884 | appends the fields that are present, in code order, or fails as specified |
| `DbusMessageCode.PutHeader` | crates/dbus/src/message.rs:821-832 | leaves the fixed header, the padding and a gap for the length of the fields |
| `DbusMessageCode.PutBody` | crates/dbus/src/message.rs:886-898 | patches the lengths, pads, appends the body and enforces both limits |
| `DbusMessageCode.EncodeMessage` | crates/dbus/src/message.rs:818-899 | the buffer-and-patch code returns the specified bytes or error for every message |
| `DbusMessageCode.MarshalFieldsAppend` | crates/dbus/src/message.rs:834-884 | marshalling two field lists one after the other is marshalling their concatenation |
| `DbusMessageCode.ReadHeaderField` | crates/dbus/src/message.rs:971-1043 | one pass of the field loop reads and stores as specified, skipping unknown codes |
| `DbusMessageCode.DecodeTail` | crates/dbus/src/message.rs:957-1053 | fields, padding, body and the check for trailing bytes follow the specification |
| `DbusMessageCode.ReadHeaderFields` | crates/dbus/src/message.rs:958-1044 | the loop reads every field as specified and refuses repeated ones |
| `DbusMessageCode.DecodeMessage` | crates/dbus/src/message.rs:928-1054 | returns the specified message or error for every byte string |
| `DbusStream.SentIsDelivered` | crates/dbus/src/message.rs:1249-1360 | messages sent one after the other come out exactly as sent, in order and with their own descriptors, however bytes and descriptors are cut into reads, and the part of a next message waits |
| `DbusStream.AnyChunking` | crates/dbus/src/message.rs:1249-1360 | for arbitrary input, valid or not, cutting it into reads changes neither the messages nor the reason to stop, nor what is left over |
| `DbusStream.NeverMissingIff` | crates/dbus/src/message.rs:1275-1360 | no read reports missing descriptors exactly when every message has its descriptors queued no later than its last byte |
| `DbusStream.PollStarves` | crates/dbus/src/message.rs:1340-1348 | a message whose descriptors are not queued is an error that keeps its bytes and the queue |
| `DbusStream.PollDelivers` | crates/dbus/src/message.rs:1290-1360 | a sent message at the head of the buffer is delivered as it was sent and removed |
| `DbusStream.PartIsKept` | crates/dbus/src/message.rs:1290-1360 | every proper prefix of a sent message yields nothing and leaves the buffer unchanged |
| `DbusStream.PollGrows` | crates/dbus/src/message.rs:1290-1360 | more input never changes a message already delivered or an error already reported |
| `DbusStream.DrainGrows` | crates/dbus/src/message.rs:1290-1360 | draining in two parts is draining at once |
| `DbusStream.InspectGrows` | crates/dbus/src/message.rs:1291-1334 | more bytes never change a framing already decided |
| `DbusStream.PartNeedsMore` | crates/dbus/src/message.rs:1291-1334 | no proper prefix of a message is taken for a message or an error |
| `DbusStream.EncodedIsComplete` | crates/dbus/src/message.rs:818-1334 | every encoded message is framed by exactly its own length |
| `DbusStream.MessageStream.FeedWithFds` | crates/dbus/src/message.rs:1249-1252 | appends the bytes and queues the descriptors |
| `DbusStream.MessageStream.NextMessage` | crates/dbus/src/message.rs:1290-1360 | the loop returns and keeps what the specified poll does, for every buffer and queue |
| `DbusStream.MessageStream.Frames` | crates/dbus/src/message.rs:1291-1334 | decides the framing as specified |
| `DbusStream.MessageStream.Deliver` | crates/dbus/src/message.rs:1335-1358 | decodes a complete message and attaches its descriptors as specified |
| `DbusConn.EveryRunConserves` | crates/dbus/src/conn.rs:407-488 | over any sends and flushes with any answers of the kernel, also past hard errors, every descriptor is held or closed exactly once, in order; while nothing failed, accepted bytes followed by unsent tails are the encodings in order, with descriptors on the first byte of their message |
| `DbusConn.FlushKeeps` | crates/dbus/src/conn.rs:443-481 | one flush loses, repeats and reorders nothing; a failed one closes everything still held; one that clears the write flag has sent everything |
| `DbusConn.QueueKeeps` | crates/dbus/src/conn.rs:407-424 | sending appends the encoding and the descriptors to what is to go out |
| `DbusConn.FirstFailure` | crates/dbus/src/conn.rs:456-488 | at the first hard error the accepted bytes are a prefix of the encodings, nothing is held and every descriptor handed in is closed |
| `DbusConn.DoKeeps` | crates/dbus/src/conn.rs:407-488 | each send or flush keeps the stream and the descriptors accounted for, from any state of the queue |
| `DbusConn.DropAllKeeps` | crates/dbus/src/conn.rs:76-80 | dropping the queue closes exactly the descriptors still held |
| `DbusConn.EncodedNotEmpty` | crates/dbus/src/conn.rs:407-424 | what is queued is never empty |
| `DbusConn.RepliesReachTheirCalls` | crates/dbus/src/conn.rs:366-566 | over any arrivals, awaits and receptions, and for every serial, the replies handed out followed by those waiting are those that arrived, in order |
| `DbusConn.OthersReachTheApplication` | crates/dbus/src/conn.rs:366-547 | over any arrivals, awaits and receptions, the messages received from the queue followed by those still in it are the messages that answer no call, in order of arrival |
| `DbusConn.TakeIsOldest` | crates/dbus/src/conn.rs:555-566 | a call takes the oldest reply to its serial and touches no other one |
| `DbusConn.SerialsDistinct` | crates/dbus/src/conn.rs:588-595 | serials less than a full cycle of 2 to the power 32, less one, apart differ, and a full cycle later the serial returns |
| `DbusConn.SerialClosedForm` | crates/dbus/src/conn.rs:588-595 | the serial after k allocations counts modulo the cycle and is never zero |
| `DbusConn.Connection.AllocateSerial` | crates/dbus/src/conn.rs:588-595 | hands out the current serial, never zero, and steps past the wrap |
| `DbusConn.Connection.Send` | crates/dbus/src/conn.rs:407-424 | queues the encoding with its descriptors, giving a serial only when there is none; an encoding error queues nothing |
| `DbusConn.Connection.WriteFront` | crates/dbus/src/conn.rs:449-477 | one write attempt is one step of the specified flush |
| `DbusConn.Connection.FlushWritable` | crates/dbus/src/conn.rs:443-481 | the loop ends in the state, the transport and the error of the specified flush |
| `DbusConn.Connection.DropSegments` | crates/dbus/src/conn.rs:485-488 | closes every descriptor still held and empties the queue |
| `DbusConn.Connection.Receive` | crates/dbus/src/conn.rs:534-547 | files a reply under its serial and anything else in the incoming queue |
| `DbusConn.Connection.TakeReply` | crates/dbus/src/conn.rs:555-566 | the search removes the oldest matching reply, or nothing |
| `DbusConn.Connection.TakeIncoming` | crates/dbus/src/conn.rs:366-394 | takes the oldest queued message, or nothing |
| `DbusLink.EndToEnd` | crates/dbus/src/conn.rs:366-586 | whatever one end sends and its kernel accepts, and however the other end reads, waits for replies and asks for messages: per serial, the replies its calls got followed by those waiting are the replies among the messages that are whole so far, in order, and the messages its application got followed by those queued are the others |
| `DbusLink.EveryTraceIsConsistent` | crates/dbus/src/conn.rs:366-586 | over any drains, searches and receptions the inbox holds what its events left, and what arrived is what the stream makes of the reads |
| `DbusLink.PullFeeds` | crates/dbus/src/conn.rs:507-532 | a drain feeds its reads to the stream and files every message that comes out, in order |
| `DbusLink.WaitIsARun` | crates/dbus/src/conn.rs:549-586 | waiting for a reply consists of drains and a last search, the reply it returns is the one that search hands out, and a run it fails fails by the error of its last drain |
| `DbusLink.WaitEndToEnd` | crates/dbus/src/conn.rs:366-586 | a call that waits gets the next one of the replies that the peer sent for its serial: as many came before it as had been handed out |
| `DbusLink.WaitAnswers` | crates/dbus/src/conn.rs:549-586 | a call gets a method return to its own serial, or an error |
| `DbusLink.Endpoint.DispatchWaiting` | crates/dbus/src/conn.rs:527-529 | the inner loop files every whole message, also those before an error |
| `DbusLink.Endpoint.DrainAvailable` | crates/dbus/src/conn.rs:507-532 | the read loop does what the specified drain does, with at most 64 reads |
| `DbusLink.Endpoint.TryRecv` | crates/dbus/src/conn.rs:366-369 | drains and then takes the oldest queued message |
| `DbusLink.Endpoint.WaitReply` | crates/dbus/src/conn.rs:549-586 | the loop returns the reply, the error it names, the error of a flush, a drain or a wait, or a timeout, as specified |
| `DbusDuplex.SendsAreReceived` | crates/dbus/src/conn.rs:407-532 | over any run of one end with any answers of its kernel, up to and including the first hard error, and any reads of the other end that keep descriptors with their byte: after every read the other end has exactly the messages that are whole so far, in order, with their descriptors, and is never short of one |
| `DbusDuplex.FlushedIsReceived` | crates/dbus/src/conn.rs:407-532 | once everything is flushed and read, the other end has every message handed in |
| `DbusDuplex.PrefixIsRead` | crates/dbus/src/message.rs:1249-1360 | any prefix of the marked byte stream, however cut, yields the messages that are whole in it |
| `DbusDuplex.AcceptedIsPrefix` | crates/dbus/src/conn.rs:426-488 | what the kernel accepted is a prefix of the encodings of the messages handed in, descriptors on their first bytes |
| `DbusConn.Transport.Write` | crates/dbus/src/transport.rs:168-196 | the assumed transport accepts a prefix of the bytes and takes the descriptors with its first byte |
| `DbusAuth.EveryRunIsAHandshake` | crates/dbus/src/auth.rs:107-219 | for every interleaving of polls and feeds with any server bytes, the writes are a prefix of EXTERNAL, at most one ANONYMOUS after a rejection, and one BEGIN after an OK line; the end is reported only after BEGIN |
| `DbusAuth.RunLegal` | crates/dbus/src/auth.rs:107-219 | every step of a session keeps the handshake legal |
| `DbusAuth.PushHex` | crates/dbus/src/auth.rs:222-228 | appends the lower-case hexadecimal digits |
| `DbusAuth.AuthSession.constructor` | crates/dbus/src/auth.rs:101-103 | a fresh session has nothing written and nothing received |
| `DbusAuth.AuthSession.Poll` | crates/dbus/src/auth.rs:107-131 | answers and moves on as specified |
| `DbusAuth.AuthSession.Feed` | crates/dbus/src/auth.rs:142-186 | the line loop acts on complete lines, keeps the rest and fails as specified |
| `DbusAuth.AuthSession.HandleLine` | crates/dbus/src/auth.rs:194-219 | acts on one line as specified, or refuses it unchanged |
| `DbusAuth.TakeLines` | crates/dbus/src/auth.rs:158-180 | cuts complete lines off the buffer, strips only a full line end, drops empty lines, keeps the rest, and refuses a line that is not UTF-8 |
| `DbusAuth.FindNewline` | crates/dbus/src/auth.rs:162-163 | finds the first newline or the end |
| `HtmlRepair.EveryDocumentIsRepaired` | crates/base/src/html.rs:2997-4253 | whatever the input, a finished document is balanced with matching names, has exactly one top-level element and no other top-level text than white space; names are XML names, attributes differ beyond ASCII case, characters are XML characters, and no instruction is called `xml` or is ended by its own data |
| `HtmlRepair.EveryDocumentIsAForest` | crates/base/src/html.rs:2997-4253 | a finished document is the serialisation of a forest of elements |
| `HtmlRepair.EveryRunNests` | crates/base/src/html.rs:3052-4253 | at every point of every run the unclosed tags of the output are the stack, the counters match it, at most one foreign root is open, and paragraphs, list items and definitions never enclose their own kind without a scope boundary between |
| `HtmlRepair.FinishIsRepaired` | crates/base/src/html.rs:2997-3032 | finishing from any reachable state gives a repaired document |
| `HtmlRepair.EmptyIffBlank` | crates/base/src/html.rs:3017-3025 | input is refused as empty exactly when it produced nothing but white space |
| `HtmlRepair.WrapIsRepaired` | crates/base/src/html.rs:3026-3031 | wrapping any balanced output in the synthetic root repairs it |
| `HtmlRepair.ChunksDoNotMatter` | crates/base/src/html.rs:3052-3063 | the text may be cut between any characters without changing the state that is reached |
| `HtmlFeed.FedIff` | crates/base/src/html.rs:2947-3033 | whatever chunks of bytes the input comes in, a document comes out exactly when the input is within the limit, is UTF-8, is cut only between characters or before the last byte of one, and is not blank; it is then the document of the whole text |
| `HtmlFeed.OneShortIff` | crates/base/src/html.rs:428-470 | the code keeps the beginning of a character exactly when a single byte of it is missing |
| `HtmlFeed.GoodCutIff` | crates/base/src/html.rs:428-470 | a cut of UTF-8 input is accepted exactly between two characters or when all but one byte of a character are there |
| `HtmlFeed.EuroCutEarly` | crates/base/src/html.rs:2936-2981 | the euro sign cut after its first byte is refused, cut after its second or not at all it is accepted |
| `HtmlFeed.FeedSees` | crates/base/src/html.rs:2947-2983 | the state after a chunk is decided by all bytes so far, and an error carries the offset of the first byte that is no whole character |
| `HtmlFeed.HtmlInput.FeedBytes` | crates/base/src/html.rs:2947-2983 | feeds a chunk as specified; an error leaves the parser as it was |
| `HtmlFeed.HtmlInput.Finished` | crates/base/src/html.rs:2997-3032 | refuses a character still cut in two and finishes as specified otherwise |
| `Utf8.TextAppend` | crates/base/src/html.rs:2957-2981 | the text of two well-formed parts is the two texts, one after the other |
| `Utf8.ValidAppend` | crates/base/src/html.rs:2965-2981 | well-formed input in front moves the first fault by its length |
| `HtmlRepair.StepProgress` | crates/base/src/html.rs:3052-3898 | each step lowers a lexicographic measure of unread, pushed-back and buffered characters, so every run ends, replayed references included |
| `HtmlRepair.StepHolds` | crates/base/src/html.rs:3067-3789 | one character in any state keeps every property of the tree that the tree builder's own steps keep |
| `HtmlRepair.RunHolds` | crates/base/src/html.rs:3052-3898 | whatever the tree builder's own steps keep, every run of the parser keeps |
| `HtmlRepair.SettleHolds` | crates/base/src/html.rs:3003-3016 | so does the loop that ends references at the end of input |
| `HtmlRepair.ResolveAtEndEnds` | crates/base/src/html.rs:3826-3852 | a reference ended by the end of input gives back no more than it took |
| `HtmlTokenizer.LookSettles` | crates/base/src/html.rs:3093-3789 | a state that looks at a character again hands it to a state of lower rank; only named references push input back, and no more than they took |
| `HtmlTokenizer.StepStateKeeps` | crates/base/src/html.rs:3093-3789 | the chain of states looking at one character ends and keeps the parser well shaped |
| `HtmlTokenizer.StepKeeps` | crates/base/src/html.rs:3067-3087 | after a character less input is held back than before, or a reference holds exactly that character |
| `HtmlTokenizer.ResolveNamedReplays` | crates/base/src/html.rs:3856-3898 | a failed named reference pushes back at most what it buffered and returns to the place it was found |
| `HtmlTree.StartTagKeeps` | crates/base/src/html.rs:4044-4096 | a start tag keeps the invariant, whatever its name and attributes |
| `HtmlTree.EndTagKeeps` | crates/base/src/html.rs:4100-4131 | an end tag keeps the invariant, whatever its name |
| `HtmlTree.AutoCloseClears` | crates/base/src/html.rs:4160-4211 | a paragraph, list item or definition first closes whatever of its kind would enclose it in scope |
| `HtmlTree.CloseThroughClears` | crates/base/src/html.rs:4135-4157 | closing through a target leaves no target in scope |
| `HtmlTree.BreakOutKeeps` | crates/base/src/html.rs:4056-4060 | leaving foreign content keeps the invariant and closes the foreign root |
| `HtmlTree.PopToKeeps` | crates/base/src/html.rs:4214-4223 | popping keeps the invariant and leaves the stack prefix |
| `HtmlTree.PushForeign` | crates/base/src/html.rs:4056-4096 | in foreign content no paragraph, list item or definition is opened |
| `HtmlTree.Find` | crates/base/src/html.rs:4135-4157 | finds the innermost target unless a boundary lies further in, and when it finds none every target is shielded |
| `HtmlTokens.NormalizeIsName` | crates/base/src/html.rs:213-250 | the result is always an XML name, and an XML name is left alone |
| `HtmlTokens.NeedsRepair` | crates/base/src/html.rs:213-250 | the scan finds exactly the names with a wrong first or later character |
| `HtmlTokens.RepairName` | crates/base/src/html.rs:213-250 | the repair loop builds the specified name |
| `HtmlTokens.NormalizeName` | crates/base/src/html.rs:213-250 | returns the specified name |
| `HtmlTokens.NestIsPartial` | crates/base/src/html.rs:3941-4253 | a sequence of tags that nests is a forest with some elements still open |
| `HtmlTokens.BalancedIsForest` | crates/base/src/html.rs:3941-4253 | a balanced sequence is the serialisation of a forest |
| `HtmlParser.TreeBuilder.Emit` | crates/base/src/html.rs:3941-3952 | emits the text, counting top-level text as specified |
| `HtmlParser.TreeBuilder.PopOpen` | crates/base/src/html.rs:4214-4223 | closes the innermost element as specified |
| `HtmlParser.TreeBuilder.CloseNearest` | crates/base/src/html.rs:4135-4157 | the downward search closes through the nearest target as specified |
| `HtmlParser.TreeBuilder.AutoCloseFor` | crates/base/src/html.rs:4160-4211 | closes what the new element ends, as specified |
| `HtmlParser.TreeBuilder.TreeStart` | crates/base/src/html.rs:4044-4096 | opens an element, or writes an empty one, as specified and returns the text mode |
| `HtmlParser.TreeBuilder.TreeEnd` | crates/base/src/html.rs:4100-4131 | closes the matching element or recovers as specified |
| `HtmlParser.TreeBuilder.LeaveForeign` | crates/base/src/html.rs:4056-4060 | the loop pops until no foreign root is open |
| `HtmlParser.TreeBuilder.PopUntil` | crates/base/src/html.rs:4214-4223 | the loop pops down to the given depth |
| `HtmlParser.HtmlParser.EmitCurrentTag` | crates/base/src/html.rs:4024-4040 | hands the finished tag to the tree builder object and ends in the specified state |
| `HtmlParser.HtmlParser.LookOnce` | crates/base/src/html.rs:3093-3789 | one look at a character, tags and text going through the tree builder object, is the specified one |
| `HtmlParser.HtmlParser.StepOne` | crates/base/src/html.rs:3093-3789 | the reconsuming loop ends and reaches the specified state |
| `HtmlParser.HtmlParser.Feed` | crates/base/src/html.rs:3067-3087 | strips a leading byte order mark and normalises line ends as specified |
| `HtmlParser.HtmlParser.ProcessText` | crates/base/src/html.rs:3052-3063 | the loop over replayed and unread characters ends in the specified state |
| `HtmlParser.HtmlParser.Done` | crates/base/src/html.rs:2997-3032 | finishes as specified, and what it returns is repaired |
| `HtmlParser.ParseHtml` | crates/base/src/html.rs:4269-4271 | a whole document in one call, repaired whenever there is one |
| `HtmlExact.UnchangedIff` | crates/base/src/html.rs:2997-4253 | any sequence of tokens, written out and parsed, comes out as it went in exactly when it is a repaired document every token of which is accepted in its place |
| `HtmlExact.RefusedIsLost` | crates/base/src/html.rs:2997-4253 | a document with a token refused in its place never comes out as it went in |
| `HtmlExact.ElementTextIff` | crates/base/src/html.rs:3107-3137 | an element with text comes out as it went in exactly when its kind hands the text on: any text in ordinary elements, `title` and `textarea`; text without `&`, `<` and `>` in `script`, `style`, `xmp`, `iframe`, `noembed` and `noframes`; never in `plaintext` |
| `HtmlExact.RawTextIsEscapedAgain` | crates/base/src/html.rs:3107-3137 | the escaped text of every raw-text element and script is read as it stands and comes out escaped once more |
| `HtmlExact.StyleIsChanged` | crates/base/src/html.rs:3118-3125 | `<style>&amp;</style>` comes out with its ampersand escaped once more |
| `HtmlExact.PagePasses` | crates/base/src/html.rs:4316-4325 | the page of the pass-through test, with its head, title, body and attribute but without its document type, comes out as it went in |
| `HtmlExact.OutputStays` | crates/base/src/html.rs:3052-4253 | what is written stays written to the end, up to the synthetic root |
| `HtmlFaithful.OrderlyPassesThrough` | crates/base/src/html.rs:2997-4253 | a repaired document every token of which is accepted in its place comes out exactly as it went in: ordinary, raw-text and foreign elements, attributes, references and processing instructions |
| `HtmlFaithful.TokenPasses` | crates/base/src/html.rs:3093-4253 | every accepted token passes through as itself, in ordinary content, in escapable and raw text, in foreign content, and as a processing instruction |
| `HtmlFaithful.StartPasses` | crates/base/src/html.rs:3163-3315 | a start tag reaches the tree builder with its name and its attributes as they are read back, whatever the tree builder makes of it |
| `HtmlFaithful.RawClosePasses` | crates/base/src/html.rs:3595-3675 | the end tag of a raw-text element is recognised |
| `HtmlFaithful.PiPasses` | crates/base/src/html.rs:3466-3520 | a sound processing instruction is read and written as it was |
| `HtmlFaithful.Reference` | crates/base/src/html.rs:3856-3927 | a known named reference is replaced by its character in text and in attribute values |
| `HtmlFaithful.AttrsPass` | crates/base/src/html.rs:3999-4022 | quoted attributes are collected in order with their values |
| `HtmlFaithful.TextPasses` | crates/base/src/html.rs:3941-3953 | escaped text is emitted as itself where references are read, and elsewhere when it holds no markup characters |
| `HtmlFaithful.ValueChars` | crates/base/src/html.rs:3261-3271 | an attribute value is read back with characters XML does not allow replaced and line ends normalised |
| `HtmlGrowth.StartAdds` | crates/base/src/html.rs:4044-4096 | a start tag closes elements and then adds at most one token |
| `HtmlGrowth.EndAdds` | crates/base/src/html.rs:4100-4131 | an end tag closes elements, or writes an empty pair or a line break |
| `HtmlGrowth.EveryInstructionIsOk` | crates/base/src/html.rs:3466-3972 | every instruction that comes out has a target of the letter classes the parser reads, not `xml`, and data that cannot end it |
| `HtmlXmlInput.AlwaysXmlIff` | crates/base/src/html.rs:2997-4253 | every input over a set of characters becomes XML whenever anything comes out, exactly when the set cannot write both an element and wide space (as itself, by a named reference or by a number) and cannot write an instruction with a letter that XML does not take for one |
| `HtmlXmlInput.HarmlessIsXml` | crates/base/src/html.rs:2997-4253 | whatever comes out of an input whose characters are harmless in that sense is an XML document, for every lexicon |
| `HtmlXmlInput.PlainInputIsXml` | crates/base/src/html.rs:2997-4253 | an input without `&` and without wide space, and without `?` or with letters that XML takes for letters, becomes XML |
| `HtmlXmlInput.WideIsHarmful` | crates/base/src/html.rs:3521-3594 | characters that can write an element and wide space have an input whose output is no XML |
| `HtmlXmlInput.MisnamedIsHarmful` | crates/base/src/html.rs:3466-3492 | so have characters that can write an instruction and hold a wrong letter |
| `HtmlXmlInput.WideName` | crates/base/src/html.rs:3856-3927 | a reference that names wide space leaves it beside the element after it, with or without its semicolon |
| `HtmlXmlInput.WideNumeral` | crates/base/src/html.rs:3559-3594 | so does a decimal or hexadecimal number for wide space |
| `HtmlAlphabet.RunKept` | crates/base/src/html.rs:3052-4253 | whatever the text, instructions and tags that some characters can write keep of the tree, every run over these characters keeps |
| `HtmlAlphabet.LookKept` | crates/base/src/html.rs:3093-3789 | one look at a character keeps everything the parser holds, buffers, names, numbers and matches, within the characters of the input, and each state reached only by the characters it needs |
| `HtmlAlphabet.AddDigitFits` | crates/base/src/html.rs:3568-3594 | the digits of a number come from the input, or the number is too big |
| `HtmlXml.XmlIff` | crates/base/src/html.rs:2997-4253 | of the final state of every run: the output is an XML document exactly when its instructions have names for targets and it was wrapped or no white space unknown to XML stands beside its root |
| `HtmlXml.TopIsXmlIff` | crates/base/src/html.rs:3941-3953 | beside the root of a repaired document every character is white space, and XML's exactly when it is none of the wider ones of Unicode |
| `HtmlXml.TargetsAreNamesIff` | crates/base/src/html.rs:3466-3492 | the instructions of every output have XML names for targets exactly when the letter classes the parser reads them with lie within those of XML names |
| `HtmlXml.OrdinalTarget` | crates/base/src/html.rs:3466-3492 | an instruction named by the feminine ordinal comes out, which is no XML |
| `HtmlXml.WideSpaceStays` | crates/base/src/html.rs:3017-3031 | a no-break space before `<b></b>` comes out beside the root, which is no XML |
| `UrlParse.PrintUndoesParse` | crates/base/src/url.rs:93-147 | printing a parsed URL reproduces the input byte for byte |
| `UrlParse.ParseUndoesPrint` | crates/base/src/url.rs:93-436 | parsing a printed valid URL gives its parts back |
| `UrlParse.AcceptedIffPrinted` | crates/base/src/url.rs:93-147 | a string is accepted exactly when it is the printing of valid parts |
| `UrlParse.ParsedIsValid` | crates/base/src/url.rs:93-147 | every part of an accepted URL is valid for its place |
| `UrlParse.AuthorityParses` | crates/base/src/url.rs:597-617 | a printed authority is split into exactly its userinfo, host and port |
| `UrlParse.PrintsAuthority` | crates/base/src/url.rs:420-436 | printing a parsed authority reproduces its text |
| `UrlParse.SplitPrinted` | crates/base/src/url.rs:623-655 | a printed host, bracketed or not, and port are split exactly |
| `UrlParse.PortIff` | crates/base/src/url.rs:573-589 | a port is accepted exactly when it is a decimal number up to 65535 |
| `UrlParse.CheckPort` | crates/base/src/url.rs:573-589 | the digit loop reports the specified fault |
| `UrlAddress.Ipv4Iff` | crates/base/src/url.rs:689-725 | accepts exactly the IPv4address grammar of section 3.2.2 of RFC 3986 |
| `UrlAddress.Ipv6Iff` | crates/base/src/url.rs:729-792 | accepts exactly the IPv6address grammar of section 3.2.2 of RFC 3986, compressed forms and embedded IPv4 included |
| `UrlAddress.CheckIpv4` | crates/base/src/url.rs:689-725 | the index loop decides the specification |
| `UrlAddress.CheckIpv6` | crates/base/src/url.rs:729-792 | the index loop decides the specification |
| `UrlAddress.ScanRest` | crates/base/src/url.rs:749-791 | the group loop decides the rest of an address |
| `UrlAddress.CheckOctet` | crates/base/src/url.rs:698-711 | accepts exactly the decimal numbers up to 255 without leading zeros |
| `Url.TextBackIff` | crates/base/src/url.rs:192-255 | encoded bytes are decoded as text exactly when they are UTF-8, and then come back |
| `Url.DecodeUndoesEncode` | crates/base/src/url.rs:211-299 | decoding undoes percent-encoding for all bytes |
| `Url.FaultlessIffUnits` | crates/base/src/url.rs:544-567 | a component is accepted exactly when it is made of allowed bytes and complete escapes |
| `Url.EncodedIsValid` | crates/base/src/url.rs:211-570 | encoded bytes are valid in every component that allows unreserved bytes |
| `Url.EncodeBytes` | crates/base/src/url.rs:211-227 | the loop returns the specified text |
| `Url.DecodeBytes` | crates/base/src/url.rs:280-299 | the loop returns the specified bytes or the first error with its position |
| `Url.CheckComponent` | crates/base/src/url.rs:544-567 | the loop reports the specified first fault |
| `Base64.DecodeUndoesEncode` | crates/base/src/base64.rs:82-157 | encoded text, with white space inserted anywhere, decodes to the original bytes |
| `Base64.EncodedIsStripped` | crates/base/src/base64.rs:82-93 | encoded text holds no white space |
| `Base64.DecodeIff` | crates/base/src/base64.rs:125-157 | decoding succeeds exactly when the length is a multiple of four and every quartet is well formed |
| `Base64.PaddingInTheMiddle` | crates/base/src/base64.rs:125-157 | padding before the last quartet is accepted |
| `Base64.ReencodesIff` | crates/base/src/base64.rs:82-157 | encoding what was decoded gives the stripped text back exactly when padding is confined to the last quartet and its unused bits are zero |
| `Base64Simd.FastIsScalar` | crates/base/src/base64.rs:82-441 | the block encoder followed by the scalar tail equals the scalar encoder on every input |
| `Base64Simd.BlockIsScalar` | crates/base/src/base64.rs:378-441 | one vector block produces the sixteen characters of its twelve bytes |
| `Base64Simd.LaneIsQuad` | crates/base/src/base64.rs:412-422 | shuffle, masks and multiplications put the four sextets of each triplet into its lane |
| `Base64Simd.TranslateIsChar` | crates/base/src/base64.rs:435-441 | the offset table maps every sextet to its alphabet character |
| `Base64Simd.ShiftsReplaceMulHi` | crates/base/src/base64.rs:516-529 | the shifts of the other kernels equal the high multiplication on the masked words |
| `Base64Simd.EncodeSplits` | crates/base/src/base64.rs:82-93 | encoding may be split at any multiple of three bytes |
| `Base64Simd.EncodeBlocks` | crates/base/src/base64.rs:378-401 | the block loop fills the output with the encoding of what it consumed |
| `Base64Simd.EncodeScalar` | crates/base/src/base64.rs:192-225 | the loop fills the rest of the output with the encoding of its input and leaves the front alone |
| `Base64Simd.EncodeBytes` | crates/base/src/base64.rs:82-93 | blocks and tail together return the encoding |
| `Base64Simd.StripSpaces` | crates/base/src/base64.rs:125-129 | drops exactly the white space |
| `Base64Simd.DecodeText` | crates/base/src/base64.rs:125-157 | the quartet loop returns the specified bytes or the first error |

## Left out

- The `SQ` and `ST` tables of WEZC come from floating-point formulas: the model takes them as any tables with the stated ranges, so the proofs hold for every such table.
- WEZC mixer weights and estimation cells are unbounded integers; the 32-bit and 64-bit overflow errors of the Python arrays are not modelled.
- WezcModel.Predict: states validity and the range of the prediction, not how good it is, because the round trip holds for every deterministic predictor.
- WezcModel.Update: states validity only, for the same reason; the methods of `WezcClass.Wezc` are proved equal to these functions.
- WezcModel.ByteUpdate: states validity only, for the same reason.
- WezcRuns.StreamRoundTrip: requires a learning-rate shift of at least eight, below which the program raises an error on the first bit; `WezcContainer` models that error.
- The `Wezc` tables, the HTML parser state and the transmit queue are fields holding values (records, sequences) that the methods reassign; aliasing inside them is not modelled.
- The vectorised scan of `utf8_valid_up_to` is modelled by what it computes, the length of the longest prefix of whole characters.
- The HTML entity table and the Unicode letter classes of names are parameters (`HtmlTokenizer.Lexicon`).
- HTML output is a sequence of tokens with a rendering function; the string building inside `write_start` is not modelled byte by byte.
- HtmlExact.UnchangedIff: is about documents as the parser writes them, token by token; other spellings of the same document, such as unquoted attributes or unescaped ampersands, are covered by the repair results only.
- HtmlParser.HtmlParser.LookOnce: only tags and plain text go through the tree builder object; script text, references, CDATA sections and instructions change the tree through the transition function on the parser record.
- HtmlXml.XmlIff: speaks of the final state of a run; the conditions on the input are in `HtmlXmlInput`. They depend on which characters the input holds, not on their order.
- HtmlXml.TopIsXmlIff: says which white space beside the root XML does not know; which input leaves it there is stated in `HtmlXmlInput`.
- HtmlXmlInput.AlwaysXmlIff: the direction from XML to the characters requires reference names of letters and digits and a newline that is no letter, as in the tables of the program.
- D-Bus floating-point values are their 64-bit images; error texts are dropped, error kinds are kept.
- DbusConn.Transport.Write: a scripted answer to each write stands for the kernel; sockets, clocks and waiting are not modelled.
- DbusLink.Endpoint.WaitReply: the wake-ups up to the deadline are a parameter; the clock itself is not modelled. The same wait around `recv_timeout` is left out.
- DbusLink.Inlet.Read: a scripted answer to each read stands for the kernel.
- The constructors and setters of `DbusMessage`, `build_body`, addresses, match rules and the `org.freedesktop.DBus` calls would only add easy members.
- Base64Simd.ShiftsReplaceMulHi: the NEON and WebAssembly kernels are covered only where they differ from the SSSE3 one, in the multiplication.
- `crates/base/src/xml.rs`, CPU detection, time, the console, command-line, GPU and application crates, the WEZC command line and benchmarks, and all build scripts are not part of this model.
