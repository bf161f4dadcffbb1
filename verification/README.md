# qcp, modelled in Dafny

qcp copies files between hosts: a client starts a server over ssh, the two agree
on a configuration over that control channel, and the files travel over QUIC.
This project models the parts of qcp that decide what a run agrees on and what
lands on disk, and proves properties of them. `dafny verify dfyconfig.toml`
checks everything.

## What is modelled

- **Control handshake** (`Compat`, `Messages`, `Negotiation`, `Endpoints`,
  `Handshake`, `ControlChannels`, `Acceptance`). A client and a server, each with its own
  protocol level, joined by two first-in-first-out channels, as a transition
  system; and the two straight-line procedures that the program runs, as a class
  over streams, proved to take their endpoint exactly where the interleaved
  moves take it; and when a server accepts, said of the two configurations alone.
  Configurations (`Configurations`) are layered maps: a merged
  layer wins, a joined layer loses.
- **Wire forms** (`Bare`, `Variants`, `Tags`, `MessageWire`, `Framing`). The BARE
  encoding (section 2 of draft-devault-bare-11) of variants, tagged data and the
  first client message; the four-byte length framing over a stream.
- **OpenSSH-style configuration files** (`Tokenizer`, `SshConfig`,
  `SshLines`, `SshIncludes`). The tokenizer loop against an automaton; what each line
  means; the recursive include processor, with
  its shared flag and first-wins insertion, against one fold over the text with
  the includes spliced in place. The file system is a finite map from names to
  lines; which files an include argument resolves to is a parameter.
- **Payload streaming** (`Streaming`). The buffered, length-limited copy under
  every pattern of short or failing reads and writes, and the trailer that
  follows on the same stream.
- **Copying trees, to the remote end** (`Paths`, `Routes`, `DirWalk`, `TreeWalk`,
  `CommandLine`, `MainLoop`, `RemoteFs`, `RemotePaths`, `RemoteServer`, `Copies`,
  `RecursivePut`, `PermissionPass`, `PreservingPut`, `FailedPut`,
  `PermissionOrder`, `CopiedTree`). From the command line through the walk to
  jobs, and through the transfer loop and the server's non-recursive requests to
  the file system that results and the exit of the client, for runs that succeed
  and runs that fail. Paths are text, resolved part by part with "." and "..";
  directories can be open or closed to traversal.
- **Copying trees, from the remote end** (`RecursiveGet`, `PreservingGet`,
  `NewDirectories`, `LocalDestinations`, `SingleGets`). From a remote listing to the local tree,
  permissions included, into a directory that is there or to a place that is made.
- **Several sources at once** (`SeveralSources`, `SeveralPuts`, `SeveralGets`).
  All transfers, then one permission pass, into one directory.

Where the program updates things in place (streams, managers, attribute lists,
parser output, loops over jobs and walks) the model has methods and classes,
each proved against a function; the properties are lemmas about that function.

## Main results

- Every interleaving keeps an invariant, takes at most twelve steps, never
  deadlocks, and ends in an outcome that depends on the two sides alone. Both
  ends select the smaller level, exactly unless a forced level separates them.
- Whenever the client takes the server's answer, the two final configurations
  agree: both bandwidths, round-trip time and congestion algorithm always, the
  initial window and the timeout with one exact exception each.
- A server accepts if and only if its layers are readable, setup and endpoint are in
  order, algorithms and ports not at odds, the terms of the rule table valid, and
  algorithm and credentials known to both levels; it goes on with exactly those
  terms. Two sides of one level that set nothing always succeed.
- Neither end may be made to send or receive faster than either of the two is
  configured for.
- A recursive put reports success if and only if the walker could look at the
  whole source, the destination leads somewhere, each entry can land there (a
  directory on a directory or nothing, a file on anything but a directory, or
  inside the directory in its way), in a directory that lets it through, and, if
  permissions are set, the text of the destination does not lead through a
  directory of the copy that gets closed. Then every entry is in its place, and
  nothing else has changed; the place is its own below the target exactly when no
  file met a directory. Into an empty place all of that always holds, whatever
  order the walker takes.
- A put goes where the text of its destination leads, or, with a final separator, to
  the entry of the source's last part in the directory that it leads to.
- A recursive get succeeds under the same condition on its entries; a place that
  is not there is made first, by what comes to making one directory after the
  other from the front, for a directory; a file that is got to such a place is written
  there, and nothing is made.
- Several sources of different names go into one open directory under these
  conditions together, and land independently of each other.
- A put that fails stops with exactly the entries before the first that cannot
  land in their places; the permission pass that follows, unless it closes its own
  way, sets the permissions of every directory that can be reached, and changes
  nothing else.
- A permission pass over directories succeeds whatever their permissions if and
  only if no directory comes before one below it, and the destination leads
  through none but the last; the program's order has no directory before one below
  it, the order of the transfers does.
- No run of transfers, to either end, whatever its jobs and however it ends,
  removes anything or turns a file into a directory or back.
- A line of a configuration file is what its keyword spells, in any case and with
  marks in it, whatever the separator, the quoting of the arguments and the white
  space around; a setting below a host line holds for exactly the hosts named.
- Parsing with nested includes is a fold over spliced text, and succeeds if and
  only if no include chain is longer than sixteen files and every reachable file
  is sound.
- A receiver that drops its copy count still reports success only for a whole
  payload and a whole trailer, if and only if its buffer has room at all.
- A variant of any nesting is read back from its encoding, whatever follows. Text is
  valid UTF-8 if and only if some sequence of scalar values is encoded as it, and a
  varint is refused for exactly two reasons.
- Text is taken for a port or a range of ports if and only if it is one numeral, or two
  that do not decrease with a dash between them, of which only both may be zero.

## Where the program does not do what its text says

- The table in the documentation of `combine_bandwidth_configurations`
  (qcp/src/transport.rs:253) lets the client win for the initial congestion
  window. The code lets the server win (qcp/src/transport.rs:327-333), and so
  does the model: the client wins if and only if the server has no value or the
  same (`Negotiation.ClientWindowWinsIff`); with 500 and 1000 the result is 1000
  (`Negotiation.ServerWindowWins`).
- A buffer size of zero passes validation (`Configurations.NoBufferIsValid`); the
  copy then moves nothing and the payload is parsed as a trailer
  (`Streaming.PayloadTakenForTrailer`, `Streaming.ExactnessNeedsABuffer`).
- A preserving copy to a destination such as `a/b/..` can close `a/b` and then
  fail to reach its own root (`CopiedTree.ClosingTheWay`); `PreservingCopy` has
  the exact condition.
- A file that is copied over an existing directory is put inside that directory,
  and the request succeeds (`CopiedTree.IntoTheDirectory`). The server appends the
  name up to twice, once for the request (qcp/src/session/put.rs:165-171) and once
  when the file is opened (qcp/src/util/file_ext.rs:116-119), so `d/f` and `d/f/f`
  may both be directories; the client of a get appends it once
  (`RemotePaths.PutFileAt`, `RemotePaths.CreateAt`).
- A recursive put of a single file needs an existing directory as its
  destination (`CopiedTree.SingleFile`).
- A recursive put none of whose walks yields an entry to list has no job, and the
  client panics (`CommandLine.NoJobsIff`); an empty directory that is put to a
  bare host is an example (`CommandLine.EmptyDirectoryToBareHost`).
- A get to a place such as `new/.` that is not there stops, for a path that ends in
  a dot is not made (`NewDirectories.DotIsNotMade`).
- A source whose last part is ".." is copied out of the destination directory
  (`CopiedTree.TargetOfPut`).
- A forced level on one side makes the two ends select different levels
  (`Handshake.ForcedLevelCanDisagree`), and one above its side's own level gets
  it messages that it cannot read (`Handshake.AnnouncingMoreIsTooNew`); the
  client program forces none.
- A valid configuration can have windows of zero bytes
  (`Configurations.ValidConfigurationCanHaveNoWindow`,
  `Configurations.NoWindowIsValid`).
- An unquoted NUL character is dropped (`Tokenizer.KeptOutsideQuotes`,
  `Tokenizer.UnquotedNulVanishes`).

## Model

| member | source | states |
|---|---|---|
| Compat.ChoiceIsMutual | qcp/src/control/channel.rs:121-142 | two endpoints that announce their own levels choose the same one, the smaller, and it supports exactly what both support |
| Compat.FeaturesByLevel | qcp/src/protocol/compat.rs:54-64 | the level that each feature came with; a newer peer supports everything, an unknown one nothing |
| Compat.LevelOnTheWire | qcp/src/protocol/control.rs:144-163 | a level goes over the wire as it is, and is read as newer above the reader's own; what is no level goes as zero |
| Handshake.RunKeepsInv | qcp/src/control/channel.rs:144-259 | in every world that any interleaving reaches, each channel holds a prefix of its endpoint's script and each endpoint's state follows from what it has read |
| Handshake.NoDeadlock | qcp/src/control/channel.rs:315-381 | in such a world neither endpoint can move exactly when both have stopped |
| Handshake.RunsAreShort | qcp/src/control/channel.rs:214-259 | no schedule takes more than twelve steps |
| Handshake.OutcomeIsDetermined | qcp/src/control/channel.rs:432-505 | when a run can go no further both ends have stopped, and which of them succeeded is a function of the two sides, not of the interleaving |
| Handshake.LevelsAgree | qcp/src/control/channel.rs:136-162 | the selected levels are equal if and only if each announced level, capped by the other's own, comes to the same; without a forced level both are the smaller level |
| Handshake.ForcedLevelCanDisagree | qcp/src/control/channel.rs:136-142 | with level 1 forced on a level 4 client, the client selects 4 and the server 1 |
| Handshake.ClientMessageFollowsGreeting | qcp/src/control/channel.rs:225-243 | in every reachable world a client message is only queued once a server greeting has been read |
| Handshake.NothingTooNewIsSent | qcp/src/control/channel.rs:164-194 | if the two sides can read each other, no queued message is one that its receiver is too old for: no version 2 message and no NewReno value |
| Handshake.OwnLevelsAreReadable | qcp/src/control/channel.rs:121-162 | endpoints that announce no more than their own level, forced or not, can read each other |
| Handshake.TooNewIffUnreadable | qcp/src/control/channel.rs:164-194 | a run that goes on to its end has sent only what its receivers can read if and only if the two sides can read each other, which is a matter of their levels, the forced levels and the algorithms that the two are configured for |
| Handshake.ClientMessageUnderstood | qcp/src/control/channel.rs:225-243 | the server can read the client's message if and only if it is new enough for the form that the chosen level asks for, or, in the older form, for the algorithm asked for |
| Handshake.AnnouncingMoreIsTooNew | qcp/src/control/channel.rs:144-162 | a server below level 3 that announces 3 or more gets a version 2 message from a newer client, which it cannot read |
| Handshake.BothOrNeither | qcp/src/control/channel.rs:334-381 | with a readable client configuration, the client accepts if and only if the server does and the client is new enough for the form of the answer, or for the algorithm that either of them asks for; without a level forced above its own it always is |
| Handshake.RunsAgree | qcp/src/control/channel.rs:245-259 | in every reachable world in which the client has taken the server's answer, its configuration and the server's agree, up to the two exact exceptions |
| Endpoints.EndToEndAgreement | qcp/src/transport.rs:267-370 | if the server accepts the client's message, transmit and receive bandwidths match crosswise, rtt and congestion are equal, and window and timeout are equal if and only if their exception does not apply |
| Endpoints.PreferencesArrive | qcp/src/protocol/control/client_msg.rs:167-256 | the server reads exactly the client's preferences for all seven options, ports and bandwidths from its own side; only version 1 loses the bandwidth towards the server, when the client sets that one alone |
| Endpoints.BandwidthIsNeverExceeded | qcp/src/transport.rs:285-312 | neither final bandwidth of the client, hence of the server, exceeds a non-zero one that either side is configured for |
| Endpoints.AcceptedIsAskedFor | qcp/src/transport.rs:312-326 | a server that accepts goes on with NewReno if and only if the client's or the server's own configuration asks for it |
| Acceptance.WishesArrive | qcp/src/protocol/control/client_msg.rs:167-256 | for every option of the server, what it reads in the client's message is the wish that the client's configuration and the chosen level come to, no more and no less |
| Acceptance.NegotiationIs | qcp/src/transport.rs:267-370 | with readable layers the negotiation gives the terms of the rule table, unless the algorithms are at odds, the ports have none in common or the terms do not validate, in this order, each with its own error |
| Acceptance.AcceptsIff | qcp/src/control/channel.rs:432-505 | a server accepts if and only if setup and endpoint are in order, its layers readable, algorithms and ports not at odds, the terms valid, NewReno and raw keys asked for only of ends that know them, and the message readable; it goes on with exactly the terms |
| Acceptance.AnswersAre | qcp/src/control/channel.rs:432-505 | which of malformed, negotiation failed, endpoint failed, silence or the full message a server in order answers |
| Acceptance.SucceedsIff | qcp/src/control/channel.rs:315-381 | in any interleaving that can go no further the server is done if and only if all this holds and the session goes well, and the client if it can read the answer as well |
| Acceptance.DefaultsSucceed | qcp/src/transport.rs:104-125 | two sides of the same level that set nothing always both end in success |
| ControlChannels.ControlChannel.RunClient | qcp/src/control/channel.rs:214-259 | the client's procedure over its streams leaves the inbox, the outbox, the selected level and the manager where the moves of the transition system leave them |
| ControlChannels.ControlChannel.RunServer | qcp/src/control/channel.rs:432-505 | the same for the server's procedure up to the start of the session, its manager included, which takes up the client's preferences; when it accepts is in `Acceptance.AcceptsIff` |
| ControlChannels.RunMatchesClientProcedure | qcp/src/control/channel.rs:214-259 | any interleaved run in which the client gets its configuration sends exactly what the client's procedure sends when given the server's whole output at once |
| ControlChannels.RunMatchesServerProcedure | qcp/src/control/channel.rs:432-505 | any interleaved run in which the server gets into session sends exactly what the server's procedure sends when given the client's whole output at once |
| ControlChannels.SessionConfiguration | qcp/src/control/channel.rs:432-505 | a server procedure that gets into session has in its manager the layers that its configuration is extracted from |
| Configurations.Manager.MergeProvider | qcp/src/config/manager.rs:140-150 | the new data is the old with the new layer over it |
| Configurations.Manager.ApplySystemDefault | qcp/src/config/manager.rs:166-172 | the new data is the old with the defaults under it |
| Configurations.OverlayPrecedence | qcp/src/config/manager.rs:140-172 | merging prefers the new layer and joining the old one, for every option |
| Configurations.DefaultsComplete | qcp/src/config/manager.rs:166-188 | after the defaults are joined, a full configuration can be extracted exactly when the options that are set have their types |
| Configurations.ExtractedAre | qcp/src/config/manager.rs:174-188 | every option that is set is extracted as it is, and nothing else; a full extraction has every value |
| Configurations.ExtractionFails | qcp/src/config/manager.rs:174-188 | an extraction fails over unreadable layers, else over a value of the wrong type, else over one that is missing, and over nothing else |
| Configurations.WindowsFit | qcp/src/config/structure.rs:587-629 | after validation no bandwidth-delay product overflows 64 bits, the receive window fits a 62-bit transport integer, and eight times the truncated send product stays below the product itself |
| Configurations.ValidIff | qcp/src/config/structure.rs:697-755 | the checks pass if and only if each bandwidth is at least 150 (an absent transmit bandwidth aside) with a product of 64 bits, the round trip is not zero, and buffer and packets have their least sizes |
| Configurations.WindowsAre | qcp/src/config/structure.rs:587-629 | the receive window is the whole thousandths of bandwidth times milliseconds, and the send window eight times that of the other direction |
| Configurations.ValidConfigurationCanHaveNoWindow | qcp/src/config/structure.rs:590-629 | a valid configuration has an empty window exactly when less than 1000 byte-milliseconds are in flight |
| Configurations.NoBufferIsValid | qcp/src/config/structure.rs:587-629 | a layer that sets the buffer size to zero gives, over the defaults, a configuration that passes validation |
| Configurations.NoWindowIsValid | qcp/src/config/structure.rs:590-629 | a layer with a bandwidth of 150 and a round-trip time of 6 gives a valid configuration whose windows are both empty |
| Negotiation.Negotiate | qcp/src/transport.rs:183-222 | one option: the client's value, the resolution, nothing or a conflict, in the right output layer |
| Negotiation.CombineBandwidthConfigurations | qcp/src/transport.rs:267-370 | the manager's final layers and the resulting configuration or error are those of the negotiation function, the first conflict in order included |
| Negotiation.NegotiatedIs | qcp/src/transport.rs:267-370 | every option ends up as the client's pick, the resolution, the server's value or the default, as the rule for it says |
| Negotiation.AnyonesPreferences | qcp/src/transport.rs:293-370 | what any client's numbers come to: 16-bit values lose what does not fit, an unknown algorithm is no preference, and one port alone is a range of one |
| Negotiation.RulesAre | qcp/src/transport.rs:293-370 | each option is decided by its own row of the rule table; only two different algorithms or disjoint port ranges are at odds |
| Negotiation.BandwidthIsSmallerPreference | qcp/src/transport.rs:224-230 | in either direction the bandwidth is the smaller non-zero preference, never above either side's, and the default when neither side speaks |
| Negotiation.ClientWindowWinsIff | qcp/src/transport.rs:327-333 | the negotiated window is the client's preference if and only if the server has none or the same |
| Negotiation.ServerWindowWins | qcp/src/transport.rs:327-333 | with 500 from the client and 1000 on the server the result is 1000 |
| Negotiation.AcceptedPortsAreValid | qcp/src/transport.rs:267-370 | a negotiation that succeeds has a valid port range, whichever side it came from |
| PortRanges.CombineIsIntersection | qcp/src/util/port_range.rs:95-112 | the combined range is valid and admits exactly the ports that both ranges admit; it fails, as unsatisfiable, exactly when there is none |
| PortRanges.CombineLaws | qcp/src/util/port_range.rs:95-112 | on valid ranges, failures included, combination is idempotent, commutative and associative with 0-0 as its unit |
| PortRanges.ParseUndoesPrint | qcp/src/util/port_range.rs:31-85 | parsing the printed form of a valid range gives it back |
| PortRanges.ParsedIsValid | qcp/src/util/port_range.rs:43-85 | only valid ranges come out of the parser |
| PortRanges.ParsesIff | qcp/src/util/port_range.rs:43-85 | text is a port if and only if it is a numeral of 16 bits, with sign and zeros as one likes, and a range if it is two with a dash between them that do not decrease and of which only both may be zero; each refusal has its reason |
| Messages.AttributeList.ApplyConfigAttributes | qcp/src/protocol/control/client_msg.rs:167-211 | the list grows by the attributes of the configuration, in the order of the pushes |
| Messages.ConfiguredAnswer | qcp/src/protocol/control/client_msg.rs:167-211 | looking up any tag in that list gives what the configuration says under it, and nothing for the rest |
| Messages.KnownTags | qcp/src/protocol/control/client_msg.rs:318-355 | the tags by number with what goes under each |
| Messages.ConvertedAnswer | qcp/src/protocol/control/client_msg.rs:214-256 | looking up any tag in a converted version 1 message gives what that message says under it |
| Messages.ConversionFidelity | qcp/src/protocol/control/client_msg.rs:427-490 | a converted version 1 message and a version 2 message answer every tag alike, except the bandwidth to the server, if and only if only a receive bandwidth is set; the credentials agree exactly when they are X.509 |
| Messages.HardCodedLabelIsTrue | qcp/src/util/cert.rs:70-115 | a sender that has to use version 1 sends its certificate, labelled X.509, or fails |
| Messages.KnownCredentials | qcp/src/util/cert.rs:70-115 | which credentials a sender of any configuration gives to a peer of any level, labelled by number |
| Messages.DirectionSurvivesTheWire | qcp/src/protocol/control/client_msg.rs:385-409 | a direction read back from its attribute is the same direction |
| Messages.ProvideData | qcp/src/protocol/control/server_msg.rs:307-354 | the provider's loop builds the layer that the message's attributes describe |
| Messages.ClientLearns | qcp/src/protocol/control/server_msg.rs:223-354 | the layer that a client gets from the server's message, in either version, is exactly the server's configuration without the values it leaves out |
| Messages.UnknownTagSpoils | qcp/src/protocol/control/server_msg.rs:307-354 | a client takes nothing from an answer if and only if it has a tag that the client does not know |
| Messages.AnswerSays | qcp/src/protocol/control/server_msg.rs:40-90 | in either version the client reads the port, the name, the round trip, the bandwidths from the server's side and the credentials, under a certificate's label in version 1; only version 1 carries a warning |
| Bare.UintRoundTrip | qcp/src/protocol/variant.rs:150-176 | a 64-bit varint is read back with whatever follows it, and takes at most ten bytes |
| Bare.UintFailsIff | qcp/src/protocol/variant.rs:150-176 | a varint is refused if and only if it ends while up to nine bytes ask for more, or the tenth byte is above one |
| Bare.OptionRoundTrip | qcp/src/protocol/control/client_msg.rs:58-92 | an optional value is read back if its contents are |
| Bare.FlagsAre | qcp/src/protocol/control/client_msg.rs:58-92 | a flag, and the mark of an optional value, is one byte of zero or one, and anything else is refused for what it is |
| Bare.DataEndsEarly | qcp/src/protocol/control/client_msg.rs:58-92 | data that is shorter than its length says is refused |
| Bare.FixedSizeIsLittleEndian | qcp/src/protocol/common.rs:75-84 | numbers of 16 and 32 bits are written least significant byte first |
| Bare.FixedSizeIsRead | qcp/src/protocol/common.rs:75-84 | and read so |
| Variants.RoundTrip | qcp/src/protocol/variant.rs:150-176 | a variant of any nesting, lists and key-ordered maps included, is read back with whatever follows it |
| Utf8.ValidIff | qcp/src/protocol/variant.rs:150-176 | text is valid if and only if it is what some sequence of scalar values is encoded as, each in its shortest form |
| Variants.StringIsRead | qcp/src/protocol/variant.rs:150-176 | text is read back if and only if it is valid |
| Variants.EncodingIsPrefixFree | qcp/src/protocol/variant.rs:150-176 | no encoding is a prefix of another: equal streams start with equal variants |
| Variants.DecodedIsWellFormed | qcp/src/protocol/variant.rs:150-176 | whatever is decoded is a proper variant: valid text, ordered keys |
| Variants.OtherKindsAreRefused | qcp/src/protocol/variant.rs:150-176 | a discriminant above those of the eight kinds is refused |
| Variants.KnownIntegers | qcp/src/protocol/variant.rs:662-678 | four encodings of integers, byte for byte |
| Variants.KnownList | qcp/src/protocol/variant.rs:689-700 | the encoding of a mixed list, byte for byte |
| Variants.KnownMap | qcp/src/protocol/variant.rs:702-719 | the encoding of a map, byte for byte, in key order whatever the order of insertion |
| Variants.InsertIs | qcp/src/protocol/variant.rs:150-176 | insertion into the ordered map puts the new value under its key and keeps what is under the others |
| Variants.CoercionsAgree | qcp/src/protocol/variant.rs:436-463 | the signed and the unsigned coercion are the same 64 bits |
| Tags.FindTagAfterPush | qcp/src/protocol/data_tag.rs:174-188 | a pushed attribute is found under its tag only if none was there before |
| Tags.TagListRoundTrip | qcp/src/protocol/data_tag.rs:107-118 | a list of tagged data is read back with whatever follows it |
| MessageWire.V1RoundTrip | qcp/src/protocol/control/client_msg.rs:58-92 | a version 1 client message is read back from its bytes |
| MessageWire.KnownMessage | qcp/src/protocol/control/client_msg.rs:58-92 | the encoding of a message with something in nearly every field, byte for byte |
| MessageWire.OthersAreRefused | qcp/src/protocol/control/client_msg.rs:58-92 | another discriminant or connection type is refused |
| MessageWire.OriginalReadsV1 | qcp/src/protocol/control/client_msg.rs:270-284 | a reader with one reserved byte in the place of the attributes recovers all shared fields, and reads that byte as zero exactly for an empty list |
| MessageWire.V1ReadsOriginal | qcp/src/protocol/control/client_msg.rs:270-284 | a message from before the attributes, its reserved byte zero, is read as one without attributes |
| MessageWire.OriginalReaderFindsNextFrame | qcp/src/protocol/common.rs:172-224 | through framing the old reader also ends at the next frame, however long the list that it skipped |
| Framing.FrameRoundTrip | qcp/src/protocol/common.rs:172-224 | a framed payload within the limit is read back whole, and reading stops at its end |
| Framing.FramesRoundTrip | qcp/src/protocol/common.rs:172-224 | so is any number of frames in a row |
| Framing.FirstFrame | qcp/src/protocol/common.rs:172-208 | for any bytes: four of them give the length, least significant first, and then the frame is too big, cut short or followed by the rest |
| Framing.ByteStream.WriteFramed | qcp/src/protocol/common.rs:227-245 | writes the frame, or nothing when the payload is over its limit |
| Framing.ByteStream.ReadFramed | qcp/src/protocol/common.rs:183-208 | takes the first frame off the stream, or says why it cannot |
| Tokenizer.SplitArgs | qcp/src/config/ssh/lines.rs:33-81 | the nested index loops compute what the one-pass automaton computes, errors included |
| Tokenizer.SplitComposes | qcp/src/config/ssh/lines.rs:38-79 | text that splits without a comment splits independently of what follows a blank; after a comment nothing counts |
| Tokenizer.SplitUndoesQuoting | qcp/src/config/ssh/lines.rs:33-81 | quoting any list of arguments and splitting the result gives the list back |
| Tokenizer.EitherQuote | qcp/src/config/ssh/lines.rs:52-76 | a single and a double quote each take everything up to the next of the same kind, and an open one is an error |
| Tokenizer.CommentMark | qcp/src/config/ssh/lines.rs:38-46 | between arguments a mark starts a comment that runs to the end; inside one it is a character |
| Tokenizer.UnquotedNulVanishes | qcp/src/config/ssh/lines.rs:60-76 | a NUL outside quotes, wherever it stands: in an argument or a comment nothing changes, except that a backslash is parted from what it would escape; between arguments an empty argument starts |
| Tokenizer.KeptOutsideQuotes | qcp/src/config/ssh/lines.rs:60-76 | in an argument, outside quotes and after no backslash, a character is kept if and only if it is literal, and lost if and only if it is NUL |
| SshConfig.CanonicalIsIdempotent | qcp/src/config/ssh/files.rs:91-102 | the canonical form of a keyword is its own canonical form |
| SshConfig.WhiteSpaceIs | qcp/src/config/ssh/files.rs:178-179 | white space is exactly the twenty-five characters of that property |
| SshConfig.StarMatchesEverything | qcp/src/config/ssh/matching.rs:4-9 | the pattern of a single star matches every text |
| SshConfig.UnspecifiedHostMatchesLess | qcp/src/config/ssh/matching.rs:4-19 | a host line that is in effect for no host is in effect for every named host |
| SshLines.LineMeans | qcp/src/config/ssh/files.rs:178-207 | a line of a keyword, a separator and a text is a host, match or include line if and only if the letters of the keyword, whatever their case and marks, spell that word, and else a setting of the first field that they spell, or under themselves; its arguments are those of the text, errors included |
| SshLines.QuotedLineMeans | qcp/src/config/ssh/files.rs:178-207 | the same for any list of arguments written in quotes, with white space around the line |
| SshLines.KeywordAlone | qcp/src/config/ssh/files.rs:178-193 | a keyword alone lacks its arguments |
| SshLines.EmptyLines | qcp/src/config/ssh/files.rs:178-193 | blank lines, comments and lines that start with an equals sign say nothing |
| SshLines.StarIff | qcp/src/config/ssh/matching.rs:4-9 | a star stands for any text at all |
| SshLines.OneCharacter | qcp/src/config/ssh/matching.rs:4-9 | a question mark stands for one character, and any other for itself |
| SshLines.Negated | qcp/src/config/ssh/matching.rs:4-9 | an exclamation mark in front turns a pattern round |
| SshLines.NamesMatch | qcp/src/config/ssh/matching.rs:12-19 | a host line of plain names is in effect for exactly those, and for no unspecified host |
| SshLines.SettingBelowHost | qcp/src/config/ssh/files.rs:211-267 | a setting below a host line of plain names is the setting of exactly these hosts, and nothing is set for another |
| SshLines.OtherHostsBlock | qcp/src/config/ssh/files.rs:178-238 | the lines `Host other` and `rx 1M` set `rx` for `other` and nothing for `me` |
| SshConfig.Output.TakeLine | qcp/src/config/ssh/files.rs:230-264 | one line updates the flag and the settings, the first accepted entry of a key winning |
| SshConfig.Parser.Parse | qcp/src/config/ssh/files.rs:211-267 | the loop with its recursive sub-parsers leaves the output where the specification of the file does, or fails with the same error; what each line means is in `SshLines.LineMeans` |
| SshIncludes.ParsingIsFolding | qcp/src/config/ssh/files.rs:211-267 | parsing with nested includes and a shared flag is one fold over the spliced lines: same settings, provenance, final flag and first error |
| SshIncludes.ParseSucceedsIff | qcp/src/config/ssh/files.rs:209-276 | a parse succeeds if and only if no chain of includes has more than sixteen files and each reachable file exists, parses line by line and resolves |
| SshIncludes.NoIncludeCycle | qcp/src/config/ssh/files.rs:209-253 | after a successful parse no chain of includes visits a file twice |
| SshIncludes.ParsedSettings | qcp/src/config/ssh/files.rs:254-276 | each key has the setting of the first line in effect with that keyword in the spliced text, and nothing else is set |
| SshIncludes.LaterTextKeepsSettings | qcp/src/config/ssh/files.rs:254-262 | text added at the end that parses changes no existing setting |
| SshIncludes.UnspecifiedHostSetsLess | qcp/src/config/ssh/matching.rs:12-19 | the keys set for no host are set for every named host, whose parse succeeds too |
| Streaming.ReceivedIsExact | qcp/src/session/get.rs:88-98 | with a buffer, success means exactly that the whole payload and a whole trailer arrived; the content is the first `size` bytes |
| Streaming.PayloadTakenForTrailer | qcp/src/session/get.rs:88-98 | without room in the buffer, any framed trailer at the start of the payload is taken for the trailer, and the file stays empty |
| Streaming.ExactnessNeedsABuffer | qcp/src/util/io.rs:29-41 | success means that the whole payload arrived, for all streams, if and only if the buffer has room or the payload is empty |
| Streaming.ReceiverGetsWhatWasSent | qcp/src/session/put.rs:92-127 | what a successful sender wrote is received with its trailer, and the stream is left at what follows |
| Streaming.SenderFailsIff | qcp/src/session/put.rs:92-127 | the sender reports a mismatch if and only if the bytes it can copy are not as many as announced, an oversized trailer only after that, and otherwise writes the file and one frame |
| Streaming.CopyBuffered | qcp/src/util/io.rs:29-41 | under any short reads and writes the writer gets a prefix of the pending bytes, all of them on success, and the bytes past the limit are untouched |
| Streaming.CopyLarge | qcp/src/session/put.rs:258-266 | a limited copy leaves the reader exactly after the bytes it moved |
| Streaming.ReceiveFile | qcp/src/session/put.rs:225-242 | unless a read or write fails, file, trailer, rest of the stream and error are those of the specification; the file is always a prefix of the payload |
| Streaming.SendFile | qcp/src/session/put.rs:92-127 | unless a read or write fails, the stream gets payload and trailer, or the size mismatch is reported |
| Streaming.TransferFile | qcp/src/session/get.rs:139-171 | for all buffer sizes: if both sides report success, and the receiver has a buffer, the announced bytes arrived, which are the whole file if the sender has a buffer, and nothing is left on the stream; a receiver without one gets an empty file |
| Paths.SplitUndoesJoin | qcp/src/util/dirwalk.rs:155-164 | names joined by separators are the parts of the result |
| Paths.ComponentsOfJoin | qcp/src/util/dirwalk.rs:155-164 | appending names to a path appends them to its components |
| Paths.FileNameOfJoin | qcp/src/session/put.rs:78-83 | the final component of such a path is the last name |
| RemoteServer.Server.HandleMakeDirectory | qcp/src/session/mkdir.rs:55-82 | the file system and the status are those of the specification; on success the name is a directory and at most that is new, a refused request changes nothing |
| RemoteServer.Server.HandlePut | qcp/src/session/put.rs:153-217 | the same for a put, with its rule for the destination and with payloads that fail half way: on success one path has the content, where no directory was, and the destination or the name below it leads there |
| RemoteServer.Server.HandleSetPermissions | qcp/src/session/set_meta.rs:64-108 | succeeds if and only if the path leads to a directory, whose permission then is all that has changed |
| RemoteServer.PutFileIsThere | qcp/src/session/put.rs:165-217 | after a put the destination, or the name once or twice below it, leads to the content; one path has changed, which was no directory |
| RemoteServer.MadeDirectoryIsThere | qcp/src/session/mkdir.rs:63-81 | after a directory request that succeeds the name is a directory, and nothing but that one can be new |
| RemotePaths.RequestsGrow | qcp/src/session/mkdir.rs:63-81 | a successful directory or put request removes nothing, leaves directories as they are, and never turns a file into a directory or back |
| RemotePaths.MakeDirectoryAt | qcp/src/session/mkdir.rs:63-81 | below a destination whose directories are there, the directory of an entry is made, found, or refused for exactly one reason each |
| RemotePaths.PutFileAt | qcp/src/session/put.rs:165-217 | below a destination whose directories are there, a put writes one path: the entry, or the name once or twice below it, the first that is no directory; it is refused if and only if there is none or a directory on the way is closed |
| RemotePaths.PutFileHere | qcp/src/session/put.rs:165-171 | a put to an empty destination or "." goes by its name into the working directory, or inside a directory of that name, if that lets it through and there is no second one in the way, and else fails |
| RemotePaths.CreateAt | qcp/src/util/file_ext.rs:109-133 | the same where a file is only opened, as in a get: the name is appended once at most |
| RemotePaths.MakeDirectoryAtRoot | qcp/src/util/dirwalk.rs:92-129 | the root job, whose destination ends in a separator, makes or finds the target directory, and fails on a file |
| RemotePaths.NoTargetRefuses | qcp/src/session/mkdir.rs:63-81 | when the destination leads nowhere, its parent being missing, a file or closed, the root job is refused |
| RemotePaths.TargetInDirectory | qcp/src/util/dirwalk.rs:92-112 | a name appended to the text of an open directory leads to the entry of that name in it; ".." leads to the parent |
| DirWalk.ContentsOf | qcp/src/util/dirwalk.rs:139-185 | the loop over the walk computes the listing, the completeness flag or the fatal error |
| DirWalk.StemOf | qcp/src/util/dirwalk.rs:92-112 | the loop finds the last non-empty part of the source, which is appended to a destination with a final separator only; where that leads is in `CopiedTree.StemLeads` |
| DirWalk.RecurseLocalSource | qcp/src/util/dirwalk.rs:75-133 | the output grows by one job per listed entry |
| DirWalk.ListingIsComplete | qcp/src/util/dirwalk.rs:139-185 | the flag is true if and only if every entry deep enough has a Unicode name and there was no problem, and then each of them is listed, in order, with its path relative to the root; the error is fatal exactly for a problem other than a denied permission |
| CommandLine.Remotes | qcp/src/cli/args.rs:212-229 | the loop finds the set of host names, and whether more than one user is named |
| CommandLine.UserAtHost | qcp/src/client/job.rs:10-43 | the user is what stands before the first at-sign, and the host what follows it |
| CommandLine.BuildJobs | qcp/src/cli/args.rs:208-290 | the loops compute the job list, the completeness flag or the first error |
| CommandLine.RefusedIff | qcp/src/cli/args.rs:197-260 | a command line is refused for its length, two users, two hosts or its sides, in this order, and for nothing else before its sources are looked at |
| CommandLine.PlainJobsAre | qcp/src/cli/args.rs:272-290 | a copy that walks nothing has exactly one job for each source, in order, unless one of them cannot be named |
| CommandLine.PlainDestination | qcp/src/cli/args.rs:262-287 | a single plain source keeps the destination as given; of several, each goes by its last part behind the destination, with one separator between, and one without a last part is refused; sources of a recursive get keep the destination |
| CommandLine.JobsGoOneWay | qcp/src/cli/args.rs:208-290 | all jobs have the direction and the remote host of the first, from which the client takes both, and those that name a remote user name the same |
| CommandLine.NoSilentLoss | qcp/src/client/main_loop.rs:176-261 | a recursive put that reports success listed every entry of every source, and carried out every job and every permission step |
| CommandLine.NoJobsIff | qcp/src/client/main_loop.rs:176-261 | the client stops over an empty job list if and only if the command line is accepted, asks for a recursive put, and no walk has an entry with a Unicode path that is deep enough |
| CommandLine.EmptyDirectoryToBareHost | qcp/src/util/dirwalk.rs:114-131 | an empty directory that is put to a bare host is such a command line |
| MainLoop.ProcessFileTransfers | qcp/src/client/main_loop.rs:635-761 | for every environment the two loops end in the state, flag, statistics or fatal error of the specification |
| MainLoop.StopsAtFirstFailure | qcp/src/client/main_loop.rs:667-731 | only the last outcome can be a failure, and jobs are left out only after one |
| MainLoop.TotalIsSumAndPeak | qcp/src/client/main_loop.rs:711-717 | the statistics are the sum of the bytes and the maximum of the rates over the outcomes |
| MainLoop.SuccessMeansAllDone | qcp/src/client/main_loop.rs:652-760 | the flag is true if and only if every job and every permission step was carried out without failure |
| MainLoop.RequestsMade | qcp/src/client/main_loop.rs:667-758 | when the streams open, the requests of a run to a remote destination are the jobs up to and including the first failure, then the whole permission pass whether or not a job failed |
| MainLoop.KeptReversedVisits | qcp/src/client/main_loop.rs:733-758 | the pass visits each directory to be preserved exactly once, a later job before an earlier one |
| PermissionOrder.SafeOrders | qcp/src/client/main_loop.rs:733-737 | a list of directories is safe for every choice of permissions if and only if no directory comes before one below it, and none but the last is on the way to all |
| PermissionOrder.PassReaches | qcp/src/session/set_meta.rs:64-108 | the permission requests for a list of directories are all carried out if and only if each directory is reached in its turn, given what was closed before, what each request closes, and what the destination leads through |
| PermissionOrder.SafePasses | qcp/src/client/main_loop.rs:733-758 | where the directories above are open, those requests are carried out for every choice of permissions if and only if no directory comes before one below it and the destination leads through none but the last |
| PermissionOrder.VisitsGoUp | qcp/src/client/main_loop.rs:733-758 | of two directories that the pass visits, the later is never below the earlier, even after a job failed |
| PermissionOrder.ReversedPassIsSafe | qcp/src/client/main_loop.rs:733-758 | the program's pass visits the directories of a copy backwards, and its requests are all carried out whatever permissions the source has, if and only if the destination leads through no directory of the copy but the first |
| PermissionOrder.ForwardPassIsUnsafe | qcp/src/client/main_loop.rs:733-758 | a pass in the order of the transfers fails for some permissions as soon as one directory of the copy is below another |
| PermissionOrder.TransfersMakeReady | qcp/src/client/main_loop.rs:667-731 | after transfers that all succeeded, the destination is found, the directories of the copy are there and those above them are open, as those statements ask |
| RecursivePut.EntryStep | qcp/src/session/put.rs:165-217 | whatever the entries before it have left, the request for an entry succeeds if and only if the entry can land at the original destination, and puts it into its place |
| RecursivePut.RebuildFrom | qcp/src/client/main_loop.rs:667-731 | from any point of the job list on, all transfers succeed if and only if every remaining entry can land, and then each is in its place, with all bytes counted |
| RecursivePut.StopsAt | qcp/src/client/main_loop.rs:667-731 | when an entry is the first that cannot land, the transfers stop there, with exactly those before it in place and counted |
| RecursivePut.NowhereToGo | qcp/src/client/main_loop.rs:635-761 | when the destination leads nowhere, the run reports failure and changes nothing |
| RecursivePut.NothingIsLost | qcp/src/client/main_loop.rs:635-761 | no run of any jobs to the remote end, however it ends, removes anything or turns a file into a directory or back |
| FailedPut.FailedRun | qcp/src/client/main_loop.rs:667-761 | such a run reports failure with the bytes of the entries before, and ends in that state, or in what the permission pass makes of it |
| FailedPut.PassAfterFailure | qcp/src/client/main_loop.rs:733-758 | the pass after a failure, unless the destination leads through a directory that gets closed, gives every directory of the copy that can be reached, made or found, the permissions of the source, and changes nothing else |
| FailedPut.ProgressIsShortened | qcp/src/client/main_loop.rs:667-731 | the state in which transfers stop is that of a copy of the entries before, and of nothing else |
| PermissionPass.AllOkIff | qcp/src/client/main_loop.rs:733-758 | from a state in which they can be reached, all directories are still reached in their turn if and only if the destination does not lead through a closed directory of the copy |
| Copies.LandedIsRebuilt | qcp/src/util/file_ext.rs:109-133 | what has landed is the source laid over the destination if and only if every entry found its own kind or nothing |
| Copies.LandedIsUnique | qcp/src/util/file_ext.rs:109-133 | saying that each entry is in its place and nothing else is different determines the file system |
| PreservingPut.PermissionsFrom | qcp/src/client/main_loop.rs:733-758 | from any state, and from any point of the pass on, the requests leave exactly the directories that are reached in their turn with the permissions of the source, and all succeed if and only if every directory is |
| PreservingPut.PreservingCopy | qcp/src/client/main_loop.rs:635-761 | a preserving run of more than one job succeeds if and only if the destination leads somewhere, every entry can land, and the destination does not lead through a closed directory of the copy; then each entry is in its place, permissions included, and nothing else has changed; and the source is laid over the destination if and only if every entry fits too |
| CopiedTree.PlainCopy | qcp/src/client/main_loop.rs:635-761 | the same for a run without permission pass, which includes every run with a single job: contents only, and no condition on closed directories |
| CopiedTree.ClientPuts | qcp/src/client/main_loop.rs:603-761 | from the command line to the exit, for any text of the destination: success is reported if and only if the walker could look at everything, the destination leads somewhere and the copy lands there; what could not be looked at does not keep the rest from landing |
| CopiedTree.ReportsAllBytes | qcp/src/client/main_loop.rs:711-717 | when every entry lands, the bytes reported are the sizes of all files |
| PermissionPass.EmptyDestinationFits | qcp/src/session/mkdir.rs:63-81 | nothing can be in the way of a copy into an empty place whose parent exists |
| CopiedTree.SubtreeIsSource | qcp/src/util/dirwalk.rs:75-133 | after a rebuilding copy into an empty place, the names, kinds, contents and permissions below the target are those of the source |
| CopiedTree.RestIsUntouched | qcp/src/util/dirwalk.rs:114-131 | after any copy that has landed, everything that is not below the target is as before, even where files went into directories |
| TreeWalk.JobsOfWalk | qcp/src/util/dirwalk.rs:75-185 | the walk of a source tree, in whatever parent-first order, yields the jobs of a copy of what the walker may look at; below a closed directory it reports denied permissions, and it counts as complete if and only if there was nothing of that kind |
| TreeWalk.SeenIsTree | qcp/src/util/dirwalk.rs:139-185 | what an unprivileged walker can look at of a tree is a tree |
| TreeWalk.CopiesEverything | qcp/src/util/dirwalk.rs:139-185 | the jobs of a walk name everything that can be seen exactly once, directories first |
| CopiedTree.RecursivePutRebuildsTree | qcp/src/client/main_loop.rs:603-761 | from the command line to the file system: a preserving recursive put of more than one entry to where its destination leads, into an empty place, leaves there exactly what the walker could look at of the source, touches nothing else, counts all bytes, and reports success if and only if that is the whole source |
| CopiedTree.TargetOfPut | qcp/src/util/dirwalk.rs:92-112 | into an open directory whose text ends in a separator, a put goes to the entry of the source's last part; "." and an absent one mean the directory itself, and ".." its parent |
| CopiedTree.StemLeads | qcp/src/util/dirwalk.rs:92-114 | without a final separator the destination itself is where the jobs lead, and with one the entry of the source's last part in the directory that it leads to |
| CopiedTree.LastPartOf | qcp/src/util/dirwalk.rs:92-112 | the last part of a source is its last name, whatever separators follow |
| SeveralSources.RunOfAll | qcp/src/client/main_loop.rs:635-761 | a run over the jobs of several copies to different places in one directory succeeds if and only if every entry of each can land and, with permissions, the way there leads through no closed directory of any, the first root aside; then each entry of each is in its place, and nothing else has changed |
| SeveralPuts.ClientPutsAll | qcp/src/cli/args.rs:250-262 | from the command line to the exit, a recursive put of several directories with different last parts into an open directory reports success if and only if all of each could be looked at and those conditions hold |
| RecursiveGet.ProcessRecursiveGet | qcp/src/client/main_loop.rs:765-912 | for every environment, the checks of the local destination, the listings, the late making of a new destination and the transfers end in the state and result of the specification |
| RecursiveGet.CollectJobs | qcp/src/client/main_loop.rs:832-890 | the nested loops assemble one job per listed entry of every source, or stop at the first listing that fails |
| RecursiveGet.NamesMirror | qcp/src/client/main_loop.rs:843-866 | the local name of an entry hangs off the local stem as the entry hangs off the remote source, final separators or not |
| RecursiveGet.PostMovesNothing | qcp/src/client/main_loop.rs:720-761 | the permission pass of a get moves no bytes, and leaves a file alone |
| RecursiveGet.PerformGrows | qcp/src/client/main_loop.rs:674-701 | no local step of a get removes anything or changes a file into a directory or back, even one that fails half way |
| RecursiveGet.GetRebuildFrom | qcp/src/client/main_loop.rs:667-731 | from any point of the job list of a get on, all local steps succeed if and only if every remaining entry can land, and then each is in its place |
| RecursiveGet.GetCopies | qcp/src/client/main_loop.rs:635-731 | a local run without permission pass succeeds if and only if every entry can land at its target; then the contents are in place, and they are the source laid over the target if and only if every entry fits |
| PreservingGet.PreservingGetCopies | qcp/src/client/main_loop.rs:576-601 | a local run with permission pass succeeds if and only if every entry can land and the text of the target does not lead through a directory of the copy that gets closed; then each entry is in its place with contents and permissions |
| PreservingGet.LocalPermissionsFrom | qcp/src/client/main_loop.rs:733-758 | the same for the local pass of a get, from any state that has no file where a directory belongs |
| PreservingGet.NothingIsLostLocally | qcp/src/client/main_loop.rs:635-761 | no run of any jobs to the local end, however it ends, removes anything or turns a file into a directory or back |
| PreservingGet.GetLosesNothing | qcp/src/client/main_loop.rs:765-912 | nor does a recursive get as a whole, whatever is listed, with the making of its destination |
| LocalDestinations.GetIntoDirectory | qcp/src/client/main_loop.rs:765-912 | a get of one source into a directory that exists goes to the entry of the source's name in it, and succeeds if and only if the directory lets it through, every entry can land there and, with permissions, the destination does not lead through a directory that gets closed |
| LocalDestinations.GetIntoNewDirectory | qcp/src/client/main_loop.rs:801-911 | a get of one directory to a place that is not there makes it, whatever is missing on the way, or stops; then it succeeds if and only if every entry can land there and, with permissions, the destination does not lead through a directory that gets closed; in an empty place it always does |
| LocalDestinations.GetBelowMissing | qcp/src/client/main_loop.rs:801-911 | when names are missing on the way, with empty parts and dots between them, it succeeds and rebuilds the source if and only if the last directory that is there lets it through; otherwise the client stops and nothing changes |
| NewDirectories.CreatesWay | qcp/src/client/main_loop.rs:893-903 | for every path that does not end in a dot, trying the whole path first and going back to what is missing comes to making one part after the other from the front, failures included |
| NewDirectories.DotIsNotMade | qcp/src/client/main_loop.rs:893-903 | of a path that ends in a dot, what leads to the part before the dot is made, but not that part |
| NewDirectories.CreatedIsThere | qcp/src/client/main_loop.rs:893-903 | when it succeeds, the path leads to a directory |
| LocalDestinations.TargetOfGet | qcp/src/client/main_loop.rs:843-866 | a get into an existing directory has the source's name in it as its target, and none if the directory is closed |
| SingleGets.GetRefused | qcp/src/client/main_loop.rs:765-832 | a get to a file, of several sources to a place that is not there, or from a peer that cannot list changes nothing and fails |
| SingleGets.GetFileAsNew | qcp/src/client/main_loop.rs:893-911 | a recursive get of what turns out to be one file, to a place that is not there, writes that place and makes no directory; it succeeds if and only if the text leads somewhere and does not end in a separator |
| SingleGets.GetFileInto | qcp/src/client/main_loop.rs:843-866 | into a directory that is there it goes by its own name |
| SeveralGets.GetAll | qcp/src/client/main_loop.rs:832-911 | a recursive get of several directories of different names into an open directory succeeds if and only if those conditions hold locally |
| CopiedTree.SingleFile | qcp/src/util/file_ext.rs:109-133 | a single file with a final separator in its destination goes by its name into an existing open directory, or into the directory of that name there, and nowhere else |
| CopiedTree.IntoTheDirectory | qcp/src/util/file_ext.rs:109-133 | a concrete copy of a file `f` over a directory `d/f`: it succeeds, and `d/f/f` is all that is new |
| CopiedTree.ClosingTheWay | qcp/src/session/set_meta.rs:64-108 | a concrete copy to `a/b/..` that fits, but cannot set the permissions of its root any more |

## Left out

- QUIC, TLS, ssh, sockets, port binding, kernel buffers: foreign libraries and system calls. Whether a QUIC endpoint can be set up and whether its session works are parameters of the server.
- Timeouts, statistics text, progress display, tracing, colours, help output: user interface and clocks.
- figment: reading and writing of configuration text is taken to be lossless, an unreadable layer makes the whole unreadable; only the options that the handshake or the validation look at are keys.
- Older peers: a peer of an older level is modelled as the same program that understands fewer messages.
- Key generation and certificate checks: credentials are opaque bytes with a type tag.
- The texts of warnings and failures: a failure is a constructor. A version 2 server message carries no warning (qcp/src/protocol/control/server_msg.rs:56-67), so neither does the model.
- wildmatch and glob: matching is the specification of `*` and `?`; the files that an include argument names are a parameter.
- walkdir: any parent-first enumeration; it follows links, so trees have none. A closed directory can still be listed; one that cannot be read at all, and names that are no Unicode, are in the model of the walk (`DirWalk`) but not in that of a whole copy.
- Symbolic links, device nodes, `umask`, modes beyond traversal, times, Windows paths on the remote end: platform detail.
- The mode of a new directory: it is taken to be open to its owner.
- Directory requests to a peer below level 4, which the client refuses to send (qcp/src/session/mkdir.rs:28-33): the copies assume a peer that knows them.
- Payloads and streams that fail half way: the server's handler has them (`RemoteServer`), the runs of whole copies assume that what is sent arrives.
- Modes that a listing does not give, and local files that get a mode: a get sets the traversal permission of directories.
- The listing request itself, and the splitting of long listings into packets: a listing is a parameter.
- Interleaving of the jobs' streams: the program awaits each job before the next, and so does the model.
- File headers and the form of trailers: opaque framed values; the size and the name are taken from the header.
- The text that the reader recovers when a length is absurd (qcp/src/protocol/common.rs:191-203): diagnostics only.
- Varints that end in superfluous zero groups: decoded, but never written.
- Configuration provenance for display, and the pretty-printing of numbers: easy members.
- Several sources whose destination has no final separator (they are laid over each other at one place), several sources of the same name, and files among several sources: the statements about several sources are for directories of different names.
