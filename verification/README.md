# Verified models of an IRC server's hard parts

This project models, in Dafny, the parts of the server whose correctness spans many calls: the channel
timestamp protocol, the asynchronous DNS resolver, the tree of D-lined networks, two storage
structures, and three smaller machines driven by time or by lists kept on two sides. Each module's
methods follow the C functions step by step and are proved against functions on values; the lemmas
say what those functions mean. `dafny verify dfyconfig.toml` checks everything.

The configuration is the one shipped: TS5, SERVICES and JUPE_CHANNEL are defined, IGNORE_BOGUS_TS is
not. The G-line vote is modelled as if GLINES were defined. What comes from outside (octets received,
results of sends and reads, the current time, memory from the system, the coin of a random choice) is
a parameter of the operation it reaches.

## Modules

- `ModeText`, `Sjoin`: the text of channel modes, `m_sjoin` as methods of a channel, and the burst of
  `send_channel_modes`.
- `TextLaws`, `SjoinTable`: numbers, keys, tokens and mode fields letter by letter, and what an SJOIN makes of
  a channel case by case of the two timestamps.
- `SjoinAgreement`, `SjoinRuns`, `NetJoin`, `SjoinPatch`: agreement along the server tree, whole
  runs and when their order matters, convergence of crossing bursts, and the MODE lines as a patch.
- `Cidr`, `IpTree`, `DlineTable`, `Dlines`: networks and the oracle word, the linked search trees, a slot of
  the table, and the whole table with the exceptions that found no place.
- `DBuf`, `DBufs`: the chunked byte queue as a flat sequence, and all queues on their one pool.
- `Words`, `BlockHeap`: bits of words and the slab allocator.
- `DomainWire`, `DomainText`, `DomainRoundTrip`, `WireLaws`: names in messages, names as text, the round trips
  between them, and the format of messages told by octets.
- `ResolverState`, `ResolverRuns`, `ResolverTries`, `ResolverLaws`, `Resolver`: queries and queues as values with the
  invariant, whole runs, what becomes of a query nobody answers, what each step makes of a query's record, and the
  methods that work on queries and queues step by step.
- `DList`, `TcpFrames`: the list macros and the deframing of the TCP stream.
- `Pings`, `GlineVote`, `GlineLaws`, `Membership`: reaping silent clients, voting on bans and when a vote must
  succeed, members and invitations.
- `Bytes`, `Fields`, `Wrappers`: shared types and the widths of text fields.

## What the proofs found

- A limit is read with `atoi` and may be negative. Then the outcome may depend on the order of arrival
  (`SjoinRuns.NegativeLimitDependsOnOrder`), on how a burst is cut into lines
  (`NetJoin.NegativeLimitDependsOnCut`), and the `0` sent on for a newer state lifts the limit of the next
  server only (`SjoinAgreement.NegativeLimitDiverges`). Order, cut, net join and relaying are each proved
  harmless under their exact conditions.
- A timestamp is read with `atol` and sent on with a `%lu` that writes one character in front of nine
  digits. Negative ones and those of more than ten digits are read as others at the next server
  (`ModeText.TsReadsBackIff`, `SjoinAgreement.FarTimestampDiverges`), or lose the line.
- A mode field that begins with `0` and goes on with letters is read with its letters but sent on as
  `0` (`SjoinAgreement.ZeroWithModesDiverges`). These three are the only ways for a line that is sent on to
  break agreement (`SjoinAgreement.ForwardingKeepsAgreement`).
- `delete_ip_subtree` relinks only the replacement of a node with two children. Networks between the
  two are lost (`IpTree.DeletionLosesANetwork`); `IpTree.PruneKeepsUncoveredIffLossless` says when not.
- The oracle word is right for masked addresses only (`Cidr.OracleCoversIffMasked`). The DLINE
  command does not mask: neither the address of a client given by nick (`src/m_kline.c:1150-1190`) nor one
  given as 10.1.2.3/24 (`src/s_conf.c:3268-3336`, `src/m_kline.c:1267`).
- `mkquery` accepts a final dot and drops it. `adns_submit` removes one dot first, but not two.
- Octets are quoted in octal and read in decimal (`DomainRoundTrip.QuotedRoundTrip`).
- A compression pointer to itself keeps `adns__findlabel_next` for ever (`DomainWire.SelfPointerNeverEnds`).
- `majority_gline` compares what is kept of a name with the whole name: a victim whose name does not fit
  is never found again, and each request opens a new entry (`GlineVote.NoTwinsIff`).
- The same comparison lets an operator whose user name does not fit count once for each server, up to a
  decision alone (`GlineVote.DecidesAloneIff`), and a server whose name does not fit count once for each of its
  operators (`GlineVote.DecidesFromOneIff`).
- A client that is added right after a check may get its first one too late to be given up within three
  intervals (`Pings.NewClientOutlives`).
- `mkquery_header` is asked for as much room as the datagram is long. A name whose labels overlap takes more
  (`DomainWire.OverlappingNameHasNoRoom`).
- `clear_juped_channels` leaves empty channels behind that are no longer juped
  (`Membership.ClearedIsLivingIff`).
- The garbage collector of `BlockHeap` may drop the first block, though its comment says that it never
  does, and `BlockHeapFree` of a pointer into an element frees that element.

## Model

| member | source | states |
|---|---|---|
| ModeText.AtoiPrintInt | src/channel.c:3965-3969 | a limit printed as decimal text reads back as the same number, negative ones included |
| ModeText.TsReadsBackIff | src/sprintf_irc.c:301-336 | a timestamp printed by `%lu`, nine digits behind at most one character, is read back as itself exactly if it is not negative and has at most ten digits; then its text is a parameter of its own |
| ModeText.TokensOfSpaced | src/channel.c:4423-4424 | tokens joined by blanks are split into the same tokens again |
| ModeText.TokensOfTrimmed | src/channel.c:4537-4538 | cutting the trailing blank off a forwarded line loses no token |
| ModeText.ParseModes | src/channel.c:3933-3971 | the loop over the mode letters takes an argument per `k` and `l`, stops when none is left, and yields the flags, limit and key that `ReadModes` says |
| ModeText.ChannelModes | src/channel.c:674-712 | the letters are those of the modes set, and the arguments are the limit and the key in the order the reader takes them |
| ModeText.ReadOwnModes | src/channel.c:3933-3971 | whatever `channel_modes` prints, `m_sjoin` reads back as the same flags, limit and key |
| ModeText.KeyLessTotal | src/channel.c:4089-4090 | keys are totally ordered by `strcmp`, so the larger of two is well defined |
| TextLaws.AtoiIs | src/channel.c:3965-3969 | `atoi` yields the number that the digits stand for place by place, behind a sign or not, and stops at anything else |
| TextLaws.AtolIs | src/channel.c:3930 | `atol` does so behind blanks, tabs and line ends, and behind nothing else |
| TextLaws.PrintedIs | src/channel.c:700-706 | a number is printed with the digits that stand for it and no zero in front |
| TextLaws.LeadIs | src/sprintf_irc.c:307-314 | the one character in front of nine digits is the digit zero moved on by all that is above them, less a multiple of 256 |
| TextLaws.KeyLessIff | src/channel.c:4089-4090 | one key is smaller exactly if it has the smaller character, or ends, at the first place where the two differ |
| TextLaws.TokensApart | src/channel.c:4423-4424 | blanks part tokens, however many there are, and nothing else does |
| TextLaws.OneToken | src/channel.c:4423-4424 | text without blanks is one token, and no text is none |
| TextLaws.ReadModesIs | src/channel.c:3933-3971 | a mode field is read exactly if a parameter is left behind those its letters take, and gives each flag whose letter is in it |
| TextLaws.LimitAndKeyAre | src/channel.c:3961-3969 | the limit and the key are the parameters of the last `l` and the last `k`, the key cut to its field |
| Sjoin.Channel.HandleSjoin | src/channel.c:3890-4544 | one SJOIN: the new timestamp, modes, limit, key and every member's flags, the MODE lines for local clients and the line sent on, with the text of its timestamp, all as functions of the old channel and the line |
| Sjoin.Channel.StripAll | src/channel.c:4305-4390 | every operator and voice flag goes, and the lines sent say so with at most MAXMODEPARAMS parameters each |
| Sjoin.Channel.JoinAll | src/channel.c:4423-4530 | the accepted nicks join with the flags the timestamp verdict allows; the lines sent give exactly those flags |
| Sjoin.Channel.ChangeModes | src/channel.c:4108-4303 | the letters and arguments sent are the difference between the old and the new modes |
| Sjoin.Channel.SendChannelModes | src/channel.c:771-843 | the burst is the member tokens, cut where a line has grown past BUFSIZE - 80 behind the heads that the names of server and channel make; no token is lost and no line is empty, the first has the modes, the others `0` |
| Sjoin.CutIsSplit | src/channel.c:826-838 | cutting by length loses no token and makes no empty line |
| Sjoin.ReadLinesConcat | src/channel.c:3865-3888 | reading MODE lines one after the other is reading their changes in order, wherever the lines were cut |
| SjoinTable.PrefixesAre | src/channel.c:4430-4433 | `@` in front of a nick makes an operator and `+` gives voice, and the nick is what is behind them |
| SjoinTable.BothPrefixesAre | src/channel.c:4430-4433 | both prefixes, in either order, make an operator with voice |
| SjoinTable.PeersMerge | src/channel.c:4020-4024 | a line that creates the channel, that meets or brings a zero timestamp, or that is as old: the timestamp, the union of flags, the larger limit, the larger key by `strcmp`, both sides' operators and voices, and all of that sent on with the prefixes |
| SjoinTable.OlderWins | src/channel.c:4028-4033 | an older line: its timestamp and its modes alone, its flags and nobody else's, sent on whole |
| SjoinTable.JupedEmptyMerges | src/channel.c:4057-4059 | a newer line on a channel that is juped and empty: its timestamp, both sides' modes, its operators and voices, and all of that sent on |
| SjoinTable.NewerLoses | src/channel.c:4063-4064 | any other newer line: the channel's timestamp, modes and flags alone; newcomers have none, and the line sent on is `0` and bare nicks |
| SjoinTable.ForwardCarries | src/channel.c:4405-4542 | the line sent on has the verdict's timestamp, the channel's new modes with their parameters or `0`, and exactly the tokens taken in their order, with prefixes or without |
| SjoinTable.UnitedIsUnique | src/channel.c:4083-4091 | only one mode has the union of flags, the larger limit and the larger key of two |
| SjoinTable.TakenConcat | src/channel.c:4452-4456 | tokens are taken one by one, each by its own nick |
| SjoinTable.TakenOne | src/channel.c:4452-4456 | a token is taken exactly if its nick is known behind the sending link |
| SjoinTable.NewestFirst | src/channel.c:4457-4460 | those who were there stay at the end of the list in order, and each newcomer in front has the flags of its token's prefixes, or is marked as deopped for an operator's prefix that does not count |
| SjoinTable.StripIs | src/channel.c:4305-4390 | who was there loses operator status and voice and nothing else |
| SjoinTable.ReadOn | src/channel.c:3865-3872 | a MODE line read letter by letter: signs stand until the next one, and `o`, `v`, `k` and a limit that is set take the parameters in turn |
| SjoinTable.CutIsTight | src/channel.c:826-838 | a line of a burst is closed by the first token that makes it longer than BUFSIZE - 80, and the next one starts with the shorter head |
| SjoinTable.CutFits | src/channel.c:841-843 | what fits stays on one line |
| SjoinTable.BurstIs | src/channel.c:790-825 | token by token: the first operator, then the others in the order of the list, each behind `@` and `+` as it has them |
| SjoinTable.BurstLinesAre | src/channel.c:783-784 | the first line carries the modes and their parameters, each other one `0` |
| SjoinAgreement.ForwardingKeepsAgreement | src/channel.c:4405-4463 | if two servers agree on a channel, one handles a line with at least one accepted nick and the other handles what comes in of what it sends on, they agree again, for every timestamp, exactly if the line survives: in range it must smuggle no modes behind a `0` and, if it is newer, find no negative limit; out of range it must leave the timestamp, and either be lost without news or be taken for a newer line without modes or flags to give |
| SjoinAgreement.UnforwardedLine | src/channel.c:4535-4542 | a line without an accepted nick is not sent on; both sides still agree exactly if it is newer, or as old (or met by a zero timestamp) with flags, limit and key that the channel has already |
| SjoinAgreement.ZeroWithModesDiverges | src/channel.c:4405-4411 | concrete line with modes `0n`: the first server sets +n, the line it sends on says `0`, and the next server does not |
| SjoinAgreement.NegativeLimitDiverges | src/channel.c:4405-4411 | concrete line: passing a channel with limit -3 as the newer state it leaves the limit here and lifts it to 0 at the next server |
| SjoinAgreement.OutOfRangeDiverges | src/channel.c:4414-4415 | an otherwise harmless line that creates a channel parts two servers for every timestamp out of range |
| SjoinAgreement.FarTimestampDiverges | src/sprintf_irc.c:307-314 | concrete timestamp 20000000000: sent on as `D000000000` and read as 0 |
| SjoinAgreement.TreeStaysInAgreement | src/channel.c:4405-4542 | along a path of servers of any length that agree, all agree after a relayed line exactly if it survives at the first, for every timestamp |
| SjoinAgreement.TreeAlwaysAgrees | src/channel.c:3890-4544 | for any run of lines, sent on or not, down a path of any length: the servers agree after every line exactly if each line passes at the first server when it comes |
| SjoinAgreement.RanksOfHandle | src/channel.c:4305-4463 | the flags of every nick after a line, said without lists: the accepted claims and the kept flags of each side |
| SjoinRuns.RunSettles | src/channel.c:4020-4091 | after any run of lines with nonzero timestamps, negative ones included, the timestamp is the least seen; flags, limit and key are the join over exactly the states that carried it, with 0 among the limits exactly if the first line of all is one of them; and so are the operators and voices |
| SjoinRuns.OrderDoesNotMatter | src/channel.c:4020-4091 | two orders of the same lines end with the same timestamp, modes, limit, key and flags exactly if an oldest line comes first in both or in neither, or one of the oldest offers a limit that is not negative |
| SjoinRuns.AnyOrderAgreesIff | src/channel.c:4020-4091 | every order ends with the same channel exactly if all lines are equally old or one of the oldest offers a limit that is not negative |
| SjoinRuns.NegativeLimitDependsOnOrder | src/channel.c:4084-4091 | concrete run: with a negative limit, which `atoi` lets through, the outcome depends on the order |
| NetJoin.BurstNamesEveryMemberOnce | src/channel.c:790-826 | the burst loop, which takes the first operator to the front, names every member exactly once with its own prefix |
| NetJoin.NicksStayDistinct | src/channel.c:4457-4460 | no line puts a nick onto the channel twice |
| NetJoin.ReceiveLines | src/channel.c:3890-4544 | receiving a burst cut into any nonempty lines is merging the two channels once; of the cut only this remains, that a second line whose modes count lifts a negative limit to 0 |
| NetJoin.CutDoesNotMatterIff | src/channel.c:771-843 | two cuts of one burst leave the same channel exactly if both or neither have a second line, or the receiver keeps only its own modes, or the merged limit is not negative, or the timestamp's text loses the lines |
| NetJoin.NegativeLimitDependsOnCut | src/channel.c:826-838 | concrete bursts of one channel of six long nicks with limit -3: from a server with a name of one letter it is one line and leaves -3, from one with a name of 63 it is two lines and leaves 0 |
| NetJoin.ReceiveBurst | src/channel.c:771-843 | a burst as sent merges the sender's modes, limit, key and every member's flags, under the timestamp that its text is read as, into the receiver's channel; nothing is received if that text breaks the lines |
| NetJoin.NetJoinConverges | src/channel.c:4020-4091 | two servers with disjoint members that send each other crossing bursts end with the same timestamp, modes, limit, key and flags, for any timestamps, exactly if both bursts come in and the two verdicts on what is seen meet |
| NetJoin.MeetInRangeIff | src/channel.c:4020-4091 | with both timestamps in range, zero included, that is so exactly if the merged limit is not negative or both or neither get a second line that lifts it |
| NetJoin.ReadAsZeroParts | src/sprintf_irc.c:307-314 | a far timestamp that is read as 0, against an older one that is not 0, keeps the two servers apart |
| NetJoin.NewChannelIsCopied | src/channel.c:4020-4021 | a server that did not have the channel ends with the sender's copy exactly if the timestamp is in range and the limit not negative |
| SjoinPatch.ModeChangesPatch | src/channel.c:4108-4303 | reading the changes over the old flags, limit and key gives the new ones |
| SjoinPatch.AnnouncementIsPatch | src/channel.c:4108-4532 | reading all MODE lines over the old channel gives the new modes and flags exactly if no token overclaims, that is, asks for a flag that its nick, on the channel before or named earlier in the line, does not hold |
| SjoinPatch.OrdinaryLineIsPatch | src/channel.c:4423-4532 | for lines that name newcomers only the announcement is always right |
| SjoinPatch.EveryLossAnnouncedOnce | src/channel.c:4305-4390 | each operator or voice stripped is announced by exactly one change |
| Cidr.NetsAreNested | src/dline_conf.c:135-209 | two networks that share an address are nested |
| Cidr.OracleCoversIffMasked | src/dline_conf.c:420-421 | the oracle bits of a D-line let all its addresses through exactly if its address is masked, which one set by the DLINE command need not be |
| Cidr.RoundIs | src/dline_conf.c:77-91 | masking takes the multiple of the network's size below, and shifting divides by it |
| Cidr.OrAndBits | src/dline_conf.c:420-421 | `/` and `&` work bit by bit |
| IpTree.FindIpSubtree | src/dline_conf.c:119-135 | the search loop computes the descent by masked comparison |
| IpTree.FindIsScan | src/dline_conf.c:119-135 | on a sorted tree of pairwise disjoint networks the search finds a node exactly if a stored network contains the address, and it is that one |
| IpTree.InsertIpSubtree | src/dline_conf.c:99-112 | in-place insertion gives the tree with the new leaf where the comparison leads, all other links kept |
| IpTree.DeleteIpSubtree | src/dline_conf.c:146-211 | in-place deletion of every covered node, for either side of the coin at each, with the configuration lists collected |
| IpTree.PruneKeepsOrder | src/dline_conf.c:146-211 | what deletion leaves is sorted, has no node twice, comes from the old tree and is not covered |
| IpTree.PruneKeepsUncoveredIffLossless | src/dline_conf.c:184-208 | every network outside the deleted one survives exactly if each node with two children is replaced by its own child |
| IpTree.DeletionLosesANetwork | src/dline_conf.c:186-196 | concrete tree in which deleting one network drops another that is disjoint from it |
| IpTree.SurvivorsAreDisjoint | src/dline_conf.c:411-428 | if no broader network is stored, nothing that is left overlaps the new one |
| IpTree.AddKeepsGood | src/dline_conf.c:411-439 | deleting and inserting keeps the tree sorted and its networks pairwise disjoint |
| DlineTable.IpSlot.AddDline | src/dline_conf.c:395-439 | in its slot, a D-line is refused exactly if a stored one as wide holds it or an exception does; otherwise the tree, the oracle word and the node's list, the D-line and the exceptions of what it covers, are stated exactly, and a masked one keeps every stored address let through |
| DlineTable.TrimIs | src/dline_conf.c:217-230 | trimming keeps exactly the exceptions, in their order |
| DlineTable.TrimOne | src/dline_conf.c:217-230 | an entry stays exactly if it is an exception |
| DlineTable.GatheredIs | src/dline_conf.c:146-211 | deletion collects exactly the entries on the lists of the networks covered |
| DlineTable.GatheredInOrder | src/dline_conf.c:158-170 | a network's own entries come first, those of larger addresses next, those of smaller ones last |
| DlineTable.FirstHoldingIs | src/dline_conf.c:315-326 | the exception found is the first on the list that holds the address, and none is found exactly if none holds it |
| DlineTable.AnswerIs | src/dline_conf.c:451-480 | an address in a stored network is exempted by the first exception on its list that holds it, and banned by its D-line exactly if none does |
| DlineTable.EntryHolds | src/dline_conf.c:402-409 | an entry without a mask is for one address, any other for those that share all bits but its last ones |
| DlineTable.IpSlot.MatchDline | src/dline_conf.c:451-480 | in its slot, the answer is that of a plain scan of the stored networks, given that the oracle covers them |
| DlineTable.IpSlot.NewIsFound | src/dline_conf.c:437-439 | the new network is disjoint from all others and is what is found for each of its addresses |
| DlineTable.OracleStaysCovering | src/dline_conf.c:420-421 | adding a masked D-line keeps the oracle from turning any stored address away |
| Dlines.Table.MatchDline | src/dline_conf.c:451-486 | over all 256 slots the answer is that of a plain scan of everything stored, given that the oracles cover it |
| Dlines.Table.OneHolds | src/dline_conf.c:119-135 | no address is in two stored networks, so the scan has one answer |
| Dlines.Table.AddDline | src/dline_conf.c:395-443 | refused exactly if a stored network as wide holds the address or an unplaced exception does; otherwise the node is the only new one, and an exception is on its list exactly if a network that it covers had it or it was unplaced and the node holds it; the unplaced come first, those of what was covered behind them as collected, other networks get those they hold, and exactly the others stay unplaced; what is stored or covered stays excepted; masked D-lines keep the oracles covering |
| Dlines.HousedConcat | src/dline_conf.c:370-385 | exceptions are placed one by one, in their order |
| Dlines.HomelessConcat | src/dline_conf.c:370-385 | exceptions stay unplaced one by one, in their order |
| Dlines.Table.AddException | src/dline_conf.c:335-360 | the exception goes right behind the D-line of the network that holds it, or to the head of the unplaced ones if none does |
| Dlines.Table.RescanDlines | src/dline_conf.c:370-385 | placed are exactly the exceptions that a stored network holds, in their order; the others are left in theirs |
| Dlines.LoadDlines | src/s_conf.c:2484-2497 | after loading any list of entries, whose addresses are masked here, what is stored and what is unplaced comes from the entries, no stored address is turned away by an oracle and no exception that a network holds is unplaced, so each answer is that of a scan |
| DBuf.DBuf.Put | src/dbuf.c:173-220 | the contents grow by the data, first in the buffer at the tail and then across as many new ones as it takes, none empty, and the tail is the last of the chain again |
| DBuf.DBuf.Map | src/dbuf.c:223-231 | the head piece offered is a nonempty prefix of the contents |
| DBuf.DBuf.Delete | src/dbuf.c:239-272 | a prefix goes, whole buffers going back to the pool, length stays exact, and the tail is the last of the chain or nothing |
| DBuf.DBuf.Get | src/dbuf.c:274-296 | what is returned is the prefix of the contents that goes |
| DBuf.DBuf.Flush | src/dbuf.c:298-339 | exactly the leading line ends go |
| DBuf.DBuf.GetMsg | src/dbuf.c:341-389 | the first line behind leading line ends is returned and taken exactly if its end lies within the limit, wherever the buffers are cut |
| DBuf.LineIsRead | src/dbuf.c:341-389 | a line between newlines and carriage returns is read exactly if its end is there and it is shorter than the limit, and what is behind its line ends is left; otherwise it stays, without the line ends in front |
| DBufs.Server.Put | src/dbuf.c:173-220 | with any number of queues on the pool: putting into one leaves the contents of all others, they still share nothing, and the count of buffers in use is the sum over the chains |
| DBufs.Server.Delete | src/dbuf.c:239-272 | the same for deleting from one queue |
| DBufs.Server.GetMsg | src/dbuf.c:341-389 | the same for taking a message from one queue |
| DBuf.FlatConcat | src/dbuf.c:173-220 | the flat contents of a chain are the contents of its parts, in order |
| DBuf.Pool.Alloc | src/dbuf.c:112-132 | buffers in use are counted exactly, whether reused or new |
| DBuf.Pool.Free | src/dbuf.c:134-149 | a freed buffer goes back to the list and off the count of those in use |
| BlockHeap.ClearBitsFlip | src/blalloc.c:264-266 | flipping one slot changes the count of clear bits by one |
| BlockHeap.Flipped | src/blalloc.c:350-351 | setting or clearing one bit of one word flips that slot only and no bit beyond the slots |
| BlockHeap.LiveElementsNeverOverlap | src/blalloc.c:276-280 | two live addresses are at least an element apart |
| BlockHeap.Block.FindClear | src/blalloc.c:250-291 | the search finds the first clear slot of a block that has one, and it is inside the block |
| BlockHeap.Block.IsFree | src/blalloc.c:392-397 | no word is set exactly if no slot is taken |
| Words.BitCounts | src/blalloc.c:264-266 | setting a clear bit adds its power of two to the word, and clearing a set one takes it away |
| BlockHeap.BlockHeap.Alloc | src/blalloc.c:221-300 | the address returned was not live and is now, all others stay, counters stay exact; it fails only if all is taken and the system has no memory |
| BlockHeap.BlockHeap.Free | src/blalloc.c:314-361 | the element that encloses the pointer stops being live, and nothing else; a second time changes nothing |
| BlockHeap.BlockHeap.GarbageCollect | src/blalloc.c:375-428 | early exit or not, no block without a taken slot is left and every live address stays live |
| BlockHeap.BlockHeap.NewBlock | src/blalloc.c:104-151 | a block of clear slots goes to the head of the chain and no live address changes |
| BlockHeap.SlotOf | src/blalloc.c:329-336 | dividing an offset by the element size finds the slot it was computed from |
| DomainWire.FindLabel.Next | adns/parse.c:74-115 | one label, with the loop over pointers, the limits and every error; it ends exactly if the chain of pointers does |
| DomainWire.ChainEndsSoonOrNever | adns/parse.c:80-94 | a chain of pointers that ends at all ends after at most as many as the datagram has bytes |
| DomainWire.BackwardNamesEnd | adns/parse.c:74-115 | walking over a name ends if every pointer leads backwards, as section 4.1.4 of RFC 1035 has it |
| DomainWire.SelfPointerNeverEnds | adns/parse.c:80-94 | a pointer to itself, anywhere in any datagram, is never left, however often it is followed |
| DomainWire.ReadIsLegal | adns/parse.c:96-103 | what was read has labels of 1 to 63 octets and at most 255 in all |
| DomainWire.FindRr | adns/parse.c:163-225 | the record's fields, its end and every error; the owner matches exactly if the two label sequences are equal up to ASCII case (section 2.3.3 of RFC 1035), however either is compressed |
| WireLaws.RecordIs | adns/parse.c:208-222 | for all type, class, time to live and length whose octets stand high first behind the owner: the record found has exactly these numbers, the time to live capped at seven days, and its data and the next record begin where they say; it is cut short exactly if the data run beyond the datagram |
| WireLaws.RecordIsCut | adns/parse.c:206 | without ten octets behind the owner there is no record |
| WireLaws.RecordReads | adns/parse.c:163-225 | a record with any owner, numbers and data is read back as them, wherever it stands |
| WireLaws.ReadIffWritten | adns/parse.c:74-115 | a place reads as a whole name exactly if the name is written there, each label behind its length, a zero at its end, and pointers of fourteen bits to the rest of it, and counts at most 255 |
| WireLaws.RefusedIf | adns/parse.c:80-115 | a name is refused for what is wrong behind the labels it begins with: cut off by the datagram, going on behind its bound, too long, or of a reserved length |
| WireLaws.SameLabelIff | adns/parse.c:196-200 | labels are the same exactly if octet by octet they are equal or one letter in its two cases |
| WireLaws.QuestionIs | adns/transmit.c:48-75 | the octets of a query: its number, recursion desired, one question with the name, its type and the class IN, all high octet first |
| DomainWire.ReadWire | adns/transmit.c:147-155 | a name written without compression reads as its labels wherever it stands |
| DomainWire.MkQueryFrDgram | adns/transmit.c:137-165 | the question made from a name of a datagram has the same labels, without compression; it fits the room set aside, the datagram's length for the name, if no place of the datagram is used twice |
| DomainWire.NameHasRoom | adns/transmit.c:137-155 | a name that uses no place of its datagram twice takes at most as many octets as the datagram has |
| DomainWire.OverlappingNameHasNoRoom | adns/transmit.c:144-155 | concrete message: behind any header and question a label of 40 octets holds the labels that a pointer leads to; the name takes 81 octets, the message has 60 |
| DomainText.MkQuery | adns/transmit.c:79-135 | the message for an owner text, or the reason for refusing it; the name takes at most `ol + 2` and at most 255 octets (section 2.3.4 of RFC 1035) |
| DomainText.OwnerIsLegal | adns/transmit.c:121-124 | what is accepted has labels of 1 to 63 octets and weighs less than 255 |
| DomainText.OwnerFits | adns/transmit.c:121-128 | the labels never take more octets than the text has characters, but for one |
| WireLaws.OwnerRefusedIf | adns/transmit.c:92-124 | why a text is refused without quoting, by the first thing wrong with it: an empty label, a character that is no letter, digit or inner dash and a label of more than 255 are invalid; a label of more than 63, or one that takes the name to 255 octets, is too long |
| WireLaws.PlainIff | adns/transmit.c:111-120 | taken without quoting are letters, digits, and a dash that is not first |
| WireLaws.EscapeIs | adns/transmit.c:97-110 | behind a backslash three digits are a decimal octet below 256, and anything else but a NUL is itself |
| DomainRoundTrip.AppendQuoted | adns/parse.c:34-57 | quoting in runs shows every octet in its own way |
| WireLaws.QuotedIs | adns/parse.c:39-49 | letters, digits and `-_/+` are shown as they are, other printable octets behind a backslash, all others in three octal digits |
| DomainRoundTrip.ParseDomain | adns/parse.c:128-161 | the walk shows the labels with dots between, or stops with the right error |
| DomainRoundTrip.WholeNameIsShown | adns/parse.c:128-161 | a whole name is shown as its labels, and without quoting only if all are plain |
| DomainRoundTrip.AcceptedUnquoted | adns/transmit.c:111-120 | without quoting the texts accepted are exactly those of host names that fit, with or without a final dot |
| DomainRoundTrip.UnquotedRoundTrip | adns/transmit.c:79-135 | an accepted owner comes back from the message exactly as it was if and only if it does not end in a dot, and otherwise without that dot |
| DomainRoundTrip.QuotedRoundTrip | adns/parse.c:41-44 | quoting and reading back gives a name's own labels exactly if every octet is printable or below 8: octal is written, decimal is read |
| DomainRoundTrip.QuotedTextRoundTrip | adns/transmit.c:97-110 | quoted text of such a name, asked for and shown again, is the same text |
| ResolverState.Finish | adns/query.c:506-546 | a query that is done, with its children cancelled and its parents carried along, keeps the invariant and leaves all other waiting queries as they were |
| ResolverState.FinishParent | adns/types.c:689-718 | the callback fails the parent, leaves it waiting for its other children, or finishes it, and keeps the invariant |
| ResolverState.CutKeeps | adns/query.c:377-431 | freeing a set of queries that is closed under children keeps queues, parents and children lists in step |
| ResolverState.Worked | adns/reply.c:145-373 | using a reply, with the children it spawns and each way it can end, keeps the invariant |
| ResolverState.ExpiredCounts | adns/event.c:207-215 | handling a late query leaves fewer late ones on its queue |
| Resolver.Adns.Cancel | adns/query.c:433-459 | cancelling, child by child, takes exactly the query and all below it off the queues and the lists |
| Resolver.Adns.UserCancel | adns/query.c:433-459 | as users call it on a query of theirs, wherever it is queued |
| Resolver.Adns.CancelChildren | adns/query.c:404-411 | the loop over the children takes exactly what is below the query |
| Resolver.Adns.QueryDone | adns/query.c:506-546 | the steps come to what `Finish` says |
| Resolver.Adns.Callback | adns/types.c:443-460 | `icb_hostaddr` and `icb_ptr` come to what `FinishParent` says: unless the child was the check of a PTR answer that did not end well or does not confirm the address, the parent waits on for its other children or is done with the status it has; otherwise it fails |
| ResolverLaws.ChildIsHeard | adns/types.c:689-718 | a finished PTR check leaves its parent's status alone exactly if it ended well and confirms the address; it fails it as inconsistent for no such name, no data or other addresses only, and with its own status otherwise; any other child never fails its parent |
| ResolverLaws.ChildEnds | adns/query.c:534-542 | the same of the records: a child that ends leaves its parent's list, and the parent is unchanged and waiting, or on the output with the status it has, or on the output with the one it failed with |
| Resolver.Adns.QueryFail | adns/query.c:548-552 | failing is finishing with that status, whatever children there were |
| Resolver.Adns.QuerySend | adns/transmit.c:226-262 | a try over UDP, a change to TCP for a message that is too big, or failure when the tries are used up |
| ResolverLaws.SendIs | adns/transmit.c:226-262 | a send over UDP notes the next server in turn and waits 1500 milliseconds, a message too big for UDP waits 30000 for TCP, and after fifteen tries the query is timed out |
| Resolver.Adns.InternalSubmit | adns/query.c:110-125 | a child is sent and linked under its parent, which may be at work on a reply |
| Resolver.Adns.Submit | adns/query.c:200-263 | the new query is waiting or, for an owner that makes no question, failed at once |
| ResolverLaws.SubmittedIs | adns/query.c:200-263 | a new query is sent at once, or is on the output as failed for an owner that makes no question |
| Resolver.Adns.FindQuery | adns/reply.c:88-106 | the first query on the queue with the reply's number and question that was sent to that server |
| Resolver.Adns.ProcDgram | adns/reply.c:38-373 | a reply acts on that query only, or on none |
| ResolverLaws.TargetIs | adns/reply.c:88-106 | a readable reply is for the first query of its transport whose number and question it repeats and which, over UDP, was sent to its sender; if there is none it changes nothing |
| ResolverLaws.ReplyFails | adns/reply.c:238-271 | a reply that fails its query puts it on the output with that status, without children |
| ResolverLaws.ReplyAnswers | adns/reply.c:336-343 | a whole answer ends its query, or leaves it waiting for exactly the children it asks for, in their order, each new and sent once |
| ResolverLaws.ReplyRestarts | adns/reply.c:352-373 | a query that starts over has lost its children and its count of tries, and perhaps its name, and is sent at once |
| Resolver.Adns.RestartQuery | adns/reply.c:352-373 | the query starts over without children, perhaps under its canonical name |
| Resolver.Adns.TimeoutsQueue | adns/event.c:197-217 | the pass, which starts over after each query it handles, ends and leaves no late query on the queue |
| ResolverLaws.ExpiredIs | adns/event.c:207-215 | a late query over TCP, or after its last try, is on the output as timed out; any other is sent on |
| Resolver.Adns.InternalCheck | adns/event.c:650-674 | the oldest finished query, the one asked about, or none; saying there is none means there is none |
| ResolverLaws.CheckIs | adns/event.c:650-668 | asked for any answer: the one that has waited longest, none to come exactly if no query is held, and else to ask again; asked for one of the user's queries: that one exactly if it is done |
| ResolverRuns.NoSuchMeansNone | adns/event.c:657-664 | with nothing finished and nothing waiting for a message there is no query at all: no parent waits for ever |
| ResolverRuns.EveryRunIsSound | adns/check.c:65-161 | in every run each live query is on exactly its state's queue, parents and children mirror each other, and every query asked is live, answered or cancelled, only one of these, and answered at most once |
| ResolverTries.SentFifteenTimes | adns/transmit.c:238-261 | in every run in which a query is asked and nothing answers, cancels or takes it, whatever else is asked, answered, timed out or cancelled: it is sent once more at each of its time-outs and is on the UDP queue with the servers of its sends noted, up to UDPMAXRETRIES sends, and the next time-out puts it on the output as timed out |
| ResolverTries.RepliedSpares | adns/reply.c:88-373 | a reply for another query, with the children it spawns and whatever parents it finishes, leaves a waiting query as it was |
| ResolverTries.ClockSendsOnce | adns/event.c:197-217 | a pass of the clock, whatever other queries it handles, sends a late query exactly once, or gives it up after its last send |
| ResolverTries.TriedOnce | adns/transmit.c:243-260 | send number k goes to server k modulo their number, and the servers noted are those sent to |
| ResolverTries.SendsAreShared | adns/transmit.c:258-259 | after k sends each of n servers was used k/n times, rounded down or up |
| DList.List.Unlink | adns/dlist.h:35-41 | the macro takes exactly that node out, for every place in the list |
| DList.List.LinkTail | adns/dlist.h:43-49 | the macro puts the node behind the last one |
| TcpFrames.FramesJoin | adns/event.c:343-381 | the frames of a stream are those of its first piece and of the rest with the second |
| TcpFrames.ChunkingDoesNotMatter | adns/event.c:343-381 | receiving piece by piece gives the frames of the whole stream, however it is cut (section 4.2.2 of RFC 1035) |
| TcpFrames.SentReceived | adns/event.c:343-356 | messages sent behind their lengths, high octet first, with the beginning of another, are received as these messages, and the beginning is kept |
| TcpFrames.Receiver.ProcessReadable | adns/event.c:343-381 | while the connection is up exactly the complete frames received are handed on, once and in order, and the begun one is kept; the first frame whose handler breaks the connection is the last, and reading ends for the reason that the socket gives |
| TcpFrames.Receiver.Fill | adns/event.c:360-379 | every read has room for at least one octet, and what is pending is moved, not changed |
| TcpFrames.Receiver.Ensure | adns/general.c:141-149 | making room keeps the octets |
| Pings.GetClientPing | src/class.c:82-113 | the interval is positive: the default if a negative one is given, else the shortest behind the last zero, and the default if there is none |
| Pings.CheckPings | src/client.c:277-660 | every client is visited once, those to go are marked in order, and the next call is due in the future, at the earliest time wanted and so no later than any client wants |
| Pings.Client.LookAfter | src/client.c:507-600 | the visit: PING, giving up, and the next time to look |
| Pings.VisitIs | src/client.c:507-600 | by the clock: a client goes if its socket is dead, if it let two intervals pass after a PING, or if it is still unknown after twenty seconds; it is sent a PING when silent for more than an interval; and it is to be seen again at the first time in the future that is a number of intervals after it was heard of |
| Pings.NeverTooSoon | src/client.c:532-572 | a client is given up only after its PING went unanswered for its whole interval |
| Pings.ReapedOnlyAfterPing | src/client.c:532-572 | the same over whole runs of hearing and checking |
| Pings.SilentIsReaped | src/client.c:507-581 | a client that falls silent at L is given up by L + 3 * ping if its first check comes within an interval, and by an interval after its first check otherwise, if checks after the first come no later than asked for |
| Pings.ReapedInTimeIff | src/client.c:507-581 | every such history gives the client up by L + 3 * ping exactly if the first check comes by L + 2 * ping |
| Pings.CheckedBefore | src/client.c:577-581 | that is so for a client seen by a check before it fell silent |
| Pings.NewClientOutlives | src/s_auth.c:161 | concrete client, added after the check that a new connection asks for: its first check is too late |
| Pings.EarliestIs | src/client.c:577-581 | the time asked for is the earliest that any client wants |
| GlineVote.Votes.MajorityGline | src/m_gline.c:920-997 | the pending list and the answer are those of `Cast`, and a YES is carried by three requests |
| GlineVote.Votes.ExpirePending | src/m_gline.c:834-867 | an entry stays exactly if less than 600 seconds passed since the last request for it |
| GlineLaws.LiveConcat | src/m_gline.c:834-867 | entries expire one by one, and the list keeps its order |
| GlineVote.CastIsSound | src/m_gline.c:935-997 | every request keeps the records backed; a YES has three requests that agree, each apart from those before by what is kept of operator and server, and in time after the one before |
| GlineVote.DecisionIsCarried | src/m_gline.c:920-997 | in every run from an empty list, the two earlier requests behind a YES were made in that run |
| GlineVote.ApartMeansDifferent | src/m_gline.c:948-950 | if the names on record fit their fields, a request counts beside another exactly if server and operator are different |
| GlineVote.SameOperApartIff | src/m_gline.c:948-950 | one operator's requests count as two exactly if the operator's names do not fit and the server is told apart |
| GlineVote.SameServerApartIff | src/scache.c:85-86 | one server's requests count as from two exactly if its name does not fit the 63 characters kept and the operators are told apart |
| GlineVote.LongNameCountsTwice | src/m_gline.c:222-224 | concrete operator with a user name of eleven letters who counts twice |
| GlineVote.DecidedByThree | src/m_gline.c:935-983 | in every run a YES has requests of three different operators if all operators' names fit, and from three different servers if all servers' names fit |
| GlineLaws.ThreeDecide | src/m_gline.c:935-997 | from any list: three requests for a victim that fits and is not pending, each within 600 seconds of the one before and the second apart from the first, come to no YES before the third, and then to one exactly if the third is apart from both and the ban is not in force, whatever is asked for other victims in between |
| GlineLaws.SecondIsNoted | src/m_gline.c:948-985 | a second request is noted exactly if it is apart from the first; otherwise nothing changes |
| GlineLaws.ThirdIsJudged | src/m_gline.c:957-983 | a third request changes nothing but the answer |
| GlineVote.DecidesAloneIff | src/m_gline.c:935-983 | some run of one operator's requests alone comes to a YES exactly if the operator's names do not fit |
| GlineVote.DecidesFromOneIff | src/m_gline.c:935-983 | some run of requests from one server alone comes to a YES exactly if the server's name does not fit |
| GlineVote.DecidesAloneFromOneIff | src/m_gline.c:935-983 | some run of one operator's requests from one server comes to a YES exactly if neither name fits |
| GlineVote.LongServerDecides | src/scache.c:85-86 | concrete: operators a, bb and ccc at h on one server with a long name come to a YES |
| GlineVote.NoTwinsIff | src/m_gline.c:944-946 | no two pending entries name one victim after a request exactly if its names fit the fields or what fits of them is not pending |
| Membership.Server.AddUser | src/channel.c:508-528 | both lists and both counters grow |
| Membership.Server.RemoveUser | src/channel.c:530-561 | both lists and both counters shrink, and an empty channel goes with its invitations unless it is juped |
| Membership.Server.Sub1 | src/channel.c:2230-2277 | the loop over the invitations ends, with none left on either side |
| Membership.Server.AddInvite | src/channel.c:2167-2201 | the invitation is at the head of the channel's list and at the end of the user's, which keeps its newest ten |
| Membership.WithoutApart | src/channel.c:2206-2223 | taking an entry out of a list keeps the others in order |
| Membership.JoinIs | src/channel.c:508-528 | who joins is the newest member, of a new channel if there was none, and is invited no longer |
| Membership.JupeIs | src/channel.c:2230-2277 | a jupe comes and goes as it is set, and a channel without members goes with it |
| Membership.Server.DelInvite | src/channel.c:2206-2223 | the invitation goes on both sides |
| Membership.Server.ExitUser | src/client.c:1230-1235 | both loops end; the user is gone from every list, and a channel goes exactly if the user was alone on it and it was not juped |
| Membership.Exited | src/client.c:1230-1235 | the lists after an exit still mirror each other and no other member is lost |
| Membership.EmptyWorldIsSound | src/channel.c:508-561 | runs can start: a server without users and channels is sound |
| Membership.EveryRunIsSound | src/channel.c:508-561 | in every run of joining, leaving, inviting, juping and exiting the lists mirror each other, counters are lengths, nobody has more than MAXCHANNELSPERUSER invitations, and an empty channel is a juped one |
| Membership.ClearedIsLivingIff | src/s_conf.c:1532-1553 | taking jupes off at a rehash leaves an empty channel behind exactly if one of those channels is empty |

## Left out

- Sockets, `select` and `poll`, logging, notices to users, files and the clock: taken as inputs or not modelled.
- SJOIN: the MODE_LIMIT bit and the DEOPPED flag, which servers need not share; `set_channel_mode`, bans,
  topics, KNOCK and spambot counters.
- SjoinAgreement.ForwardingKeepsAgreement: the channel is juped on neither side.
- SjoinRuns.RunSettles: timestamps are nonzero, because with a zero timestamp the code merges instead of choosing.
- SjoinPatch.AnnouncementIsPatch: says when the announcement is right; lines that name members with flags make it announce what it does not set.
- NetJoin.NetJoinConverges: members are disjoint and every burst's nicks are accepted, as on a net join without collisions.
- Sjoin.Channel.HandleSjoin: nicks are tokens of letters that are none of the prefixes, text fits its buffers, and a limit and a timestamp read are any integers (`atoi` and `atol` beyond their range are not defined); a timestamp is sent as a word of 64 bits.
- Sjoin.Channel.SendChannelModes: if the character in front of a timestamp ends the string, the lines are shorter than counted; they are lost either way.
- IpTree.DeleteIpSubtree: survival of every uncovered network is false of the code; the exact condition is proved instead.
- Dlines.Table.AddDline: masks are of /8 or longer or zero, so that a network lies in one slot; the K-line tree (`add_ip_Kline`) is left out.
- DlineTable.IpSlot.AddDline: one slot, up to the rescan of unplaced exceptions, which `Dlines.Table.AddDline` adds.
- DlineTable.IpSlot.MatchDline: one slot; `Dlines.Table.MatchDline` is about the whole table.
- `dbuf_init` makes one buffer more than INITIAL_DBUFS, and `DBufCount` never goes down; neither is modelled, only the count of buffers in use.
- DBuf.DBuf.Put: memory is always there; the limit on buffers and `dbuf_malloc_error` are left out; the links from buffer to buffer are a sequence.
- BlockHeap.BlockHeap.Alloc: addresses are numbers, and blocks the system gives share no octet.
- BlockHeap: the link field of a block is a sequence of blocks in chain order.
- DomainText.MkQuery: the text ends with a NUL, as the strings of callers do; search lists are left out.
- DomainWire.MkQueryFrDgram: the octets written are a sequence; that they fit the buffer is said of their number, one way, since a name may overlap itself and still fit.
- DomainWire.FindLabel.Next: after a failure the cursor is of no further use and is not stated.
- Resolver: queries are records in a map by identity, so pointers and their reuse are not captured; `DList` proves the link macros apart.
- Resolver.Adns.ProcDgram: the sections of a reply are summed up as the children it spawns and the way it ends; matching is on number, question and server.
- ResolverState.Worked: what the answer section means is given as the children it spawns and the way it ends.
- Resolver.Adns.Callback: whether a finished PTR check confirms the name is an input, and the records handed up are left out.
- ResolverTries.SentFifteenTimes: the message is never too big for UDP; over TCP the tries are not counted on.
- Resolver.Adns.Submit: search lists, saved owners and memory failure are left out, and so is the time-out pass that may follow.
- Resolver.Adns.QuerySend: the TCP connection (`tcp_events`, `adns__tcp_tryconnect`, partial writes) and `adns_globalsystemfailure` are left out.
- Resolver.Adns.TimeoutsQueue: the mode that only computes the time to wait is left out.
- TcpFrames.Receiver.ProcessReadable: a handler that breaks the connection is a predicate on frames.
- Pings.CheckPings: bans, idle and reject checks and the pass after a rehash are left out, and so is exiting the marked clients.
- Pings.SilentIsReaped: the interval is fixed while the client is silent, and checks after the first come no later than asked for, as the main loop tries (`src/ircd.c:525-526`).
- GlineVote.CastIsSound: operators have nonempty user names; which of two spellings of a server's name the cache keeps is left open, as comparing folds case; entries agree up to the size of their fields; `find_is_glined` is an input and `log_gline` is left out.
- Membership.Server.RemoveUser: the exceptions removed with a kicked user are left out; users and channels are records in maps.
- Membership.EveryRunIsSound: an SJOIN whose nicks are all unknown can create an empty channel and is not one of the events.
- `match`, `irccmp`, `find_chasing`, hash tables, `BlockHeapCountMemory` and per-record text printing: given or easier members.
