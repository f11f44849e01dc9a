# Vultisig relay and wallet cores in Dafny

This project models the relay and the small pure cores of the Vultisig (formerly Voltix) iOS wallet.

The main part is the **Mediator**, the in-process relay for the TSS ceremony. It owns one key-value cache. That cache holds:

- session participant lists, under `session-<sid>`;
- ceremony-start snapshots, under `session-<sid>-start`;
- relayed messages, one copy per recipient, under `<sid>-<recipient>-[<message id>-]<hash>`.

The relay also keeps two maps:

- identity → WebSocket connection;
- session → owner identity.

Each HTTP handler is a method of the class `Mediator.Mediator`. Each handler's new state is tied to a specification function on maps: `RegisterParticipants`, `Deposit` and `Poll`. Lemmas then prove the promised properties about those functions:

- merging without duplicates;
- a start snapshot is overwritten, never merged;
- per-recipient isolation;
- exact-key deletion;
- delivery to the polling recipient.

The WebSocket handlers are methods that change the two maps and append to `sent`, the log of frames written to connections. Their contracts state that content is forwarded verbatim, and only to identities that were connected.

The smaller cores, one module each:

- `StringExtension`: left padding, `0x` stripping, comma normalisation, lenient big-integer parsing.
- `Utils`: hex encoding of bytes and of UTF-8 text, the dotted-path walk over nested JSON dictionaries, the time-to-live cache check.
- `RpcEvmService`: ERC-20 calldata. This is the Solidity contract ABI layout of EIP-20 `transfer`, `balanceOf` and `allowance`: a 4-byte selector followed by 32-byte left-zero-padded words.
- `Endpoint`: explorer and API URL builders.
- `KeychainService`: keychain identifiers and the getter/setter routing.
- `TokensStore`: the coin catalogue and cloning.
- `KeysignPayload` and `VoltixKeysignPayload`: the two apps' per-chain `gas` mapping.
- `TransactionMemoOpenLoan` and `TransactionMemoMigrate`: the THORChain memo text.

`Numerals` (decimal and hexadecimal text) and `Wrappers` (`Option`, `Result`) are shared helpers.

Where a description of the relay and its code disagree, the model follows the code:

- A first registration stores the posted list as given, duplicates included. Only later registrations skip ids that are already present.
- A session id that is empty or only whitespace is not rejected. Only a missing route parameter is answered with a bad request.

## Model

| member | source | states |
|---|---|---|
| Mediator.Trim | Mediator/Sources/Mediator/Mediator.swift:220 | trimmed text is no longer than the input and never starts or ends with whitespace |
| Mediator.TrimStartSuffix | Mediator/Sources/Mediator/Mediator.swift:220 | cutting leading whitespace leaves a suffix that does not start with whitespace, and every character cut is whitespace |
| Mediator.TrimEndPrefix | Mediator/Sources/Mediator/Mediator.swift:220 | cutting trailing whitespace leaves a prefix that does not end with whitespace, and every character cut is whitespace |
| Mediator.TrimKeepsContent | Mediator/Sources/Mediator/Mediator.swift:220 | trimmed text holds only characters of the input, and is empty exactly for all-whitespace input |
| Mediator.TrimIdempotent | Mediator/Sources/Mediator/Mediator.swift:315 | an id without surrounding whitespace is used unchanged; trimming twice equals trimming once |
| Mediator.InboxPrefix | Mediator/Sources/Mediator/Mediator.swift:289-293 | the poll prefix always ends in `-` |
| Mediator.SessionKey | Mediator/Sources/Mediator/Mediator.swift:316 | the participant-list key is `session-` followed by the session id |
| Mediator.StartKey | Mediator/Sources/Mediator/Mediator.swift:221 | the start key is `session-`, the session id, then `-start` |
| Mediator.MessageKey | Mediator/Sources/Mediator/Mediator.swift:264-268 | a copy's key is the recipient's poll prefix for the message id followed by the hash |
| Mediator.MessageKeyShape | Mediator/Sources/Mediator/Mediator.swift:264-268 | the key splits as `<sid>-`, the recipient, then `-[<message id>-]<hash>` |
| Mediator.MessageKeyInInbox | Mediator/Sources/Mediator/Mediator.swift:264-268 | every stored copy's key starts with the recipient's poll prefix for the same message id |
| Mediator.MessageKeyRecipientInjective | Mediator/Sources/Mediator/Mediator.swift:264-268 | copies of one message for two recipients have equal keys iff the recipients are equal |
| Mediator.InboxPrefixClash | Mediator/Sources/Mediator/Mediator.swift:289-293 | the trailing `-` does not isolate ids containing `-`: a copy for `A-B` lies under `A`'s poll prefix |
| Mediator.SessionKeyMeetsStartKey | Mediator/Sources/Mediator/Mediator.swift:316 | the session key of `<sid>-start` is the start key of `<sid>`; a session's own two keys differ |
| Mediator.ParticipantsAt | Mediator/Sources/Mediator/Mediator.swift:362 | a list is found exactly when a session value is stored under the key, and it is that session's list |
| Mediator.FirstIndex | Mediator/Sources/Mediator/Mediator.swift:323-327 | the position of the first occurrence: below the length iff present, holding the id, no earlier copy |
| Mediator.FirstIndexSnoc | Mediator/Sources/Mediator/Mediator.swift:323-327 | appending an id keeps the first positions of ids already present; a new id lands at the old length |
| Mediator.Merge | Mediator/Sources/Mediator/Mediator.swift:323-327 | the existing list stays in front; an id is in the result iff it was existing or posted; each id behind it was posted and not existing, in the order of first posting |
| Mediator.MergeNoDuplicates | Mediator/Sources/Mediator/Mediator.swift:324 | merging into a duplicate-free list never adds a duplicate |
| Mediator.MergeOfPresent | Mediator/Sources/Mediator/Mediator.swift:324 | posting only ids already present leaves the list unchanged |
| Mediator.MergeIdempotent | Mediator/Sources/Mediator/Mediator.swift:321-329 | posting the same list twice equals posting it once |
| Mediator.MergeAppend | Mediator/Sources/Mediator/Mediator.swift:321-329 | posting `p` then `q` equals posting `p + q` |
| Mediator.RegisterParticipants | Mediator/Sources/Mediator/Mediator.swift:321-333 | only the session key changes; absent session: exactly the posted list; existing session: merged list; a message under the key: cache unchanged |
| Mediator.RegisterScenario | Mediator/Sources/Mediator/Mediator.swift:310-340 | posting `["A","B"]` then `["C"]` lists `["A","B","C"]` |
| Mediator.Deposit | Mediator/Sources/Mediator/Mediator.swift:264-271 | keys are the old keys plus one per recipient; each recipient key holds the message, every other key its old value |
| Mediator.Poll | Mediator/Sources/Mediator/Mediator.swift:297-301 | every result is a message stored under a matching key, and every message under a matching key is in the result; values of other kinds skipped |
| Mediator.PollCountsMatchingKeys | Mediator/Sources/Mediator/Mediator.swift:297-301 | over keys listed once each, one result per matching key that holds a message |
| Mediator.PollEmpty | Mediator/Sources/Mediator/Mediator.swift:297-303 | no message under a matching key gives an empty list |
| Mediator.DepositThenPoll | Mediator/Sources/Mediator/Mediator.swift:264-301 | after a deposit, each recipient's poll with the same message id returns the message |
| Mediator.DepositPollDeleteScenario | Mediator/Sources/Mediator/Mediator.swift:255-394 | deposit to `B` with hash `h1`: B's poll returns it; deleting that key leaves nothing |
| Mediator.CommitteeFrames | Mediator/Sources/Mediator/Mediator.swift:118-124 | every frame carries the content verbatim to a connected socket; every connected member gets one; never more frames than committee entries |
| Mediator.CommitteeFramesFollowMembers | Mediator/Sources/Mediator/Mediator.swift:118-124 | frame j goes to the j-th connected member in committee order: one frame per connected member, in order |
| Mediator.CommitteeFramesOnlyMembers | Mediator/Sources/Mediator/Mediator.swift:118-124 | every frame is the content sent to some committee member who is connected; nobody else is written to |
| Mediator.ConnectedMembers | Mediator/Sources/Mediator/Mediator.swift:118-124 | an id is kept iff it is in the committee and connected; never longer than the committee |
| Mediator.ConnectedMembersSingle | Mediator/Sources/Mediator/Mediator.swift:118-124 | a one-member committee is kept iff that member is connected |
| Mediator.ConnectedMembersAppend | Mediator/Sources/Mediator/Mediator.swift:118-124 | filtering `a + b` is filtering `a` then `b`, so committee order is kept |
| Mediator.CommitteeScenario | Mediator/Sources/Mediator/Mediator.swift:118-124 | committee `[A,B,C]` with only A and B connected reaches exactly A and B, in order |
| Mediator.Mediator.constructor | Mediator/Sources/Mediator/Mediator.swift:12-14 | a new relay has an empty cache, no connections, no owners, nothing sent |
| Mediator.Mediator.PostSession | Mediator/Sources/Mediator/Mediator.swift:310-340 | missing id or undecodable body: bad request, nothing changes; otherwise `created` and the cache is `RegisterParticipants` on the trimmed id |
| Mediator.Mediator.DeleteSession | Mediator/Sources/Mediator/Mediator.swift:342-352 | removes exactly the session key and the start key, answers ok even when neither existed |
| Mediator.Mediator.GetSession | Mediator/Sources/Mediator/Mediator.swift:354-372 | the stored list of the trimmed id, or not found when absent or not a session |
| Mediator.Mediator.StartKeygenOrKeysign | Mediator/Sources/Mediator/Mediator.swift:216-253 | POST overwrites the start key with exactly the posted list; GET: not found if absent, the list if a session, not acceptable otherwise; other methods not found |
| Mediator.Mediator.SendMessage | Mediator/Sources/Mediator/Mediator.swift:255-277 | undecodable body: bad request; otherwise accepted and the cache is `Deposit` of one copy per recipient |
| Mediator.Mediator.GetMessages | Mediator/Sources/Mediator/Mediator.swift:279-308 | missing parameters: bad request; otherwise a message is returned iff it is stored under a key with the trimmed inbox prefix, one entry per such key |
| Mediator.Mediator.DeleteMessage | Mediator/Sources/Mediator/Mediator.swift:374-394 | each missing parameter its bad request; otherwise removes exactly the one key from trimmed ids, message id and untrimmed hash |
| Mediator.Mediator.ProcessHelloMessage | Mediator/Sources/Mediator/Mediator.swift:181-195 | binds the client key to the connection, replacing any earlier binding; undecodable: no change |
| Mediator.Mediator.ProcessStartSession | Mediator/Sources/Mediator/Mediator.swift:174-179 | records the client key as the session's owner |
| Mediator.Mediator.ProcessEndSession | Mediator/Sources/Mediator/Mediator.swift:130-137 | removes the session's owner entry |
| Mediator.Mediator.ProcessJoinAndDropSession | Mediator/Sources/Mediator/Mediator.swift:140-157 | one verbatim frame to the owner's connection iff the session has an owner and the owner is connected; otherwise nothing |
| Mediator.Mediator.ProcessStartTSS | Mediator/Sources/Mediator/Mediator.swift:110-128 | appends exactly `CommitteeFrames`: verbatim content to each connected member, others skipped |
| Mediator.Mediator.ProcessTSSRouting | Mediator/Sources/Mediator/Mediator.swift:89-108 | one verbatim frame to the addressee iff connected; otherwise dropped |
| Mediator.Mediator.OnClientDisconnected | Mediator/Sources/Mediator/Mediator.swift:77-87 | removes exactly the identities bound to the closed connection; all others keep their binding |
| Mediator.Mediator.Stop | Mediator/Sources/Mediator/Mediator.swift:210-214 | empties the cache and leaves the connection and owner maps |
| Mediator.Mediator.OnWebSocketText | Mediator/Sources/Mediator/Mediator.swift:44-71 | each header has its handler's effect on the decoded body (Hello binds, StartSession/EndSession set or clear the owner, Join/Drop forward to the owner, StartTSS to the connected committee, TSSRouting to the addressee); the cache is never touched |
| StringExtension.Cycle | VultisigApp/VultisigApp/Extensions/StringExtension.swift:22 | the pad repeated from its start, cut at n: length n, character i is `pad[i mod len]` |
| StringExtension.PaddingLeft | VultisigApp/VultisigApp/Extensions/StringExtension.swift:15-23 | unchanged when long enough; otherwise length is the target, the original is the suffix, pad characters in front |
| StringExtension.StripHexPrefix | VultisigApp/VultisigApp/Extensions/StringExtension.swift:25-31 | with a `0x` prefix `"0x" + result == s`; without one the string is unchanged |
| StringExtension.StripHexPrefixOnce | VultisigApp/VultisigApp/Extensions/StringExtension.swift:25-31 | only one prefix is stripped: `0x0x…` keeps its second `0x` |
| StringExtension.FormatCurrency | VultisigApp/VultisigApp/Extensions/StringExtension.swift:33-35 | same length; every `,` becomes `.`, every other character is kept |
| StringExtension.FormatCurrencyIdempotent | VultisigApp/VultisigApp/Extensions/StringExtension.swift:33-35 | no comma is left, so a second application changes nothing |
| StringExtension.ParseBigInt | VultisigApp/VultisigApp/Extensions/StringExtension.swift:97 | a value is produced iff the text is an optional sign followed by decimal digits |
| StringExtension.ToBigInt | VultisigApp/VultisigApp/Extensions/StringExtension.swift:96-101 | text that is not an integer gives 0 |
| StringExtension.ToBigIntOfDescription | VultisigApp/VultisigApp/Extensions/StringExtension.swift:96-101 | the decimal text of any integer is valid and parses back to that integer |
| StringExtension.ToBigIntOfNatDescription | VultisigApp/VultisigApp/Views/Keysign/KeysignPayload.swift:35 | `fee.description.toBigInt()` gives `fee` back |
| StringExtension.ToBigIntOfPaddedText | VultisigApp/VultisigApp/Extensions/StringExtension.swift:96-101 | leading zeros and an explicit `+` do not change the value; `-` with any padding negates it, so `-0` is 0 |
| Numerals.NatToDecimal | VultisigApp/VultisigApp/Views/Keysign/KeysignPayload.swift:35 | `description` of a number is a non-empty string of decimal digits without a leading zero unless the number is 0 |
| Numerals.NatToHex | VultisigApp/VultisigApp/Services/RpcEvmService.swift:127 | `String(value, radix: 16)` is a non-empty string of lower-case hex digits, with no leading zero unless the value is 0 |
| Numerals.IntToDecimal | VultisigApp/VultisigApp/Model/TransactionMemo/TransactionMemoMigrate.swift:30 | the text starts with `-` iff the number is negative; the digits follow, without a leading zero after a sign |
| Numerals.IntToHex | VultisigApp/VultisigApp/Services/RpcEvmService.swift:127 | the text starts with `-` iff the value is negative; hex digits follow, without a leading zero after a sign |
| Numerals.DecimalRoundTrip | VultisigApp/VultisigApp/Views/Keysign/KeysignPayload.swift:35 | decimal text of a natural number reads back as that number |
| Numerals.HexRoundTrip | VultisigApp/VultisigApp/Services/RpcEvmService.swift:127 | `String(value, radix: 16)` reads back as the value |
| Numerals.HexValueLeadingZeros | VultisigApp/VultisigApp/Services/RpcEvmService.swift:128 | zero padding in front does not change a hex value |
| Numerals.DecimalValueLeadingZeros | VultisigApp/VultisigApp/Extensions/StringExtension.swift:96-101 | zero padding in front does not change a decimal value |
| Numerals.DecimalZerosAlone | VultisigApp/VultisigApp/Extensions/StringExtension.swift:96-101 | a text of zeros alone has value 0 |
| Numerals.NatToDecimalInjective | VultisigApp/VultisigApp/Model/TransactionMemo/TransactionMemoMigrate.swift:30 | different numbers never print alike |
| Numerals.IntToDecimalInjective | VultisigApp/VultisigApp/Model/TransactionMemo/TransactionMemoMigrate.swift:30 | different signed integers never print alike |
| Utils.BytesToHexString | voltixApp/VoltixApp/Utils/Utils.swift:270-272 | 2n characters for n bytes; characters 2i and 2i+1 are the two lower-case hex digits of byte i |
| Utils.HexToBytes | voltixApp/VoltixApp/Utils/Utils.swift:270-272 | a decoded byte sequence is half as long as the text |
| Utils.HexRoundTrip | voltixApp/VoltixApp/Utils/Utils.swift:270-272 | decoding the hex text gives the original bytes back |
| Utils.BytesToHexStringInjective | voltixApp/VoltixApp/Utils/Utils.swift:270-272 | equal hex text means equal bytes |
| Utils.Utf8OfChar | voltixApp/VoltixApp/Utils/Utils.swift:208 | 1 to 4 bytes per scalar; exactly one, equal to the code, for ASCII |
| Utils.Utf8OfCharShape | voltixApp/VoltixApp/Utils/Utils.swift:208 | the shortest length for the code point; the lead byte (00–7F, C0–DF, E0–EF, F0–F7) announces it; the rest are 80–BF; the bits spell the code point |
| Utils.Utf8 | voltixApp/VoltixApp/Utils/Utils.swift:208 | one to four bytes per character |
| Utils.Utf8Decode | voltixApp/VoltixApp/Utils/Utils.swift:208 | a strict reader: a decoded string has no more characters than there are bytes |
| Utils.Utf8RoundTrip | voltixApp/VoltixApp/Utils/Utils.swift:208 | reading back the UTF-8 bytes of any string gives that string |
| Utils.Utf8Injective | voltixApp/VoltixApp/Utils/Utils.swift:208 | different strings have different UTF-8 bytes |
| Utils.StringToHex | voltixApp/VoltixApp/Utils/Utils.swift:207-209 | equals `BytesToHexString` of the UTF-8 bytes; at least two characters per input character |
| Utils.StringToHexOfAscii | voltixApp/VoltixApp/Utils/Utils.swift:207-209 | for ASCII text exactly two hex digits per character, those of its code |
| Utils.StringToHexRoundTrip | voltixApp/VoltixApp/Utils/Utils.swift:207-209 | the hex text reads back to the UTF-8 bytes, and those to the string, for any text |
| Utils.Split | voltixApp/VoltixApp/Utils/Utils.swift:289 | `components(separatedBy:)` always yields at least one component |
| Utils.SplitJoin | voltixApp/VoltixApp/Utils/Utils.swift:289 | joining the pieces with the separator gives the path back; no piece holds a separator |
| Utils.SplitWithoutSeparator | voltixApp/VoltixApp/Utils/Utils.swift:300-301 | a path without `.` is a single component |
| Utils.JoinSplit | voltixApp/VoltixApp/Utils/Utils.swift:289 | pieces without the separator, joined and split again, come back unchanged |
| Utils.Walk | voltixApp/VoltixApp/Utils/Utils.swift:291-298 | a value after a non-empty path means the start was a dictionary holding the first key |
| Utils.WalkAppend | voltixApp/VoltixApp/Utils/Utils.swift:291-298 | walking `a + b` is walking `a` then `b` |
| Utils.WalkFromNothing | voltixApp/VoltixApp/Utils/Utils.swift:292-296 | once the current value is not a dictionary the walk stays nil |
| Utils.IsCacheValid | voltixApp/VoltixApp/Utils/Utils.swift:306-310 | false for a missing key; for a present one, true iff it was stored no more than the limit before now |
| Utils.GetValueFromJson | voltixApp/VoltixApp/Utils/Utils.swift:285-303 | nil for a nil dictionary; a direct lookup for a path without `.`; otherwise the key-by-key walk over the components |
| Utils.CacheValidityMonotone | voltixApp/VoltixApp/Utils/Utils.swift:306-310 | a valid entry stays valid for a longer TTL and an earlier time; a missing key is never valid |
| Utils.GetCachedData | voltixApp/VoltixApp/Utils/Utils.swift:312-318 | data is returned iff the entry is valid, and it is the stored data |
| RpcEvmService.Word | VultisigApp/VultisigApp/Services/RpcEvmService.swift:124 | 64 characters for short input; the input is the suffix, zeros in front |
| RpcEvmService.DropFirst | VultisigApp/VultisigApp/Services/RpcEvmService.swift:82 | `dropFirst(k)` is empty for strings of at most k characters, otherwise the text after the first k |
| RpcEvmService.ConstructERC20TransferData | VultisigApp/VultisigApp/Services/RpcEvmService.swift:119-134 | starts with `0x` and the `transfer` selector |
| RpcEvmService.ValueWordReadsBack | VultisigApp/VultisigApp/Services/RpcEvmService.swift:127-128 | the padded value word is hex and reads back as the value |
| RpcEvmService.TransferDataLayout | VultisigApp/VultisigApp/Services/RpcEvmService.swift:119-134 | for fitting inputs: 138 characters; `0xa9059cbb`, then the padded stripped address, then the value word, which reads back as the value |
| RpcEvmService.TransferDataInjective | VultisigApp/VultisigApp/Services/RpcEvmService.swift:119-134 | equal calldata for fitting inputs means equal values and equal padded address words |
| RpcEvmService.BalanceOfData | VultisigApp/VultisigApp/Services/RpcEvmService.swift:82-83 | starts with `0x70a08231`; when the address fits, 74 characters with the padded address word after the selector |
| RpcEvmService.BalanceOfDataLayout | VultisigApp/VultisigApp/Services/RpcEvmService.swift:82-83 | for a `0x` address that fits: 74 characters, the word of the stripped address after the selector |
| RpcEvmService.AllowanceData | VultisigApp/VultisigApp/Services/RpcEvmService.swift:94-97 | starts with `0xdd62ed3e`; when both addresses fit, 138 characters: owner word, then spender word |
| RpcEvmService.DropFirstVersusStrip | VultisigApp/VultisigApp/Services/RpcEvmService.swift:82-97 | dropping two characters equals stripping `0x` only when the prefix is there |
| RpcEvmService.AllowanceDataLayout | VultisigApp/VultisigApp/Services/RpcEvmService.swift:94-97 | for `0x` addresses that fit: 138 characters, owner word then spender word |
| RpcEvmService.WithHexPrefix | VultisigApp/VultisigApp/Services/RpcEvmService.swift:42 | the result has a `0x` prefix; unchanged if it had one, otherwise stripping gives the input back |
| RpcEvmService.WithHexPrefixIdempotent | VultisigApp/VultisigApp/Services/RpcEvmService.swift:42 | prefixing twice equals prefixing once |
| Endpoint.FetchAccountNumberThorchainNineRealms | voltixApp/VoltixApp/Utils/Endpoint.swift:14-16 | THORNode URL ending with the address |
| Endpoint.FetchAccountBalanceThorchainNineRealms | voltixApp/VoltixApp/Utils/Endpoint.swift:18-20 | THORNode URL ending with the address |
| Endpoint.FetchSwapQuoteThorchainNineRealms | voltixApp/VoltixApp/Utils/Endpoint.swift:22-24 | quote URL with the from-asset first and the destination last |
| Endpoint.BitcoinLabelTxHash | voltixApp/VoltixApp/Utils/Endpoint.swift:34-36 | mempool.space tx URL ending with the hash |
| Endpoint.LitecoinLabelTxHash | voltixApp/VoltixApp/Utils/Endpoint.swift:38-40 | litecoinspace tx URL ending with the hash |
| Endpoint.BlockchairStats | voltixApp/VoltixApp/Utils/Endpoint.swift:42-44 | proxy URL for the chain ending in `/stats` |
| Endpoint.BlockchairBroadcast | voltixApp/VoltixApp/Utils/Endpoint.swift:46-48 | proxy URL for the chain ending in `/push/transaction` |
| Endpoint.BlockchairDashboard | voltixApp/VoltixApp/Utils/Endpoint.swift:50-52 | proxy URL for the coin ending in the address dashboard path |
| Endpoint.EthereumLabelTxHash | voltixApp/VoltixApp/Utils/Endpoint.swift:53-55 | etherscan tx URL ending with the hash |
| Endpoint.FetchCryptoPrices | voltixApp/VoltixApp/Utils/Endpoint.swift:57-59 | CoinGecko URL with the coin id and ending with the fiat code |
| Endpoint.FetchBitcoinTransactions | voltixApp/VoltixApp/Utils/Endpoint.swift:61-63 | mempool.space address URL ending in `/txs` |
| Endpoint.FetchLitecoinTransactions | voltixApp/VoltixApp/Utils/Endpoint.swift:65-67 | litecoinspace address URL ending in `/txs` |
| Endpoint.BscLabelTxHash | voltixApp/VoltixApp/Utils/Endpoint.swift:69-71 | bscscan tx URL ending with the hash |
| Endpoint.FetchCosmosAccountBalance | voltixApp/VoltixApp/Utils/Endpoint.swift:73-75 | Cosmos REST URL ending with the address |
| Endpoint.FetchCosmosAccountNumber | voltixApp/VoltixApp/Utils/Endpoint.swift:76-78 | Cosmos REST URL ending with the address |
| Endpoint.SimpleBuildersInjective | voltixApp/VoltixApp/Utils/Endpoint.swift:14-78 | different addresses give different account URLs |
| Endpoint.TransactionListBuildersInjective | voltixApp/VoltixApp/Utils/Endpoint.swift:61-67 | different addresses give different transaction-list URLs |
| Endpoint.GetExplorerURL | voltixApp/VoltixApp/Utils/Endpoint.swift:82-105 | `""` iff the ticker is not one of the nine; otherwise a URL ending with the txid |
| Endpoint.ExplorerURLIsBasePlusTxid | voltixApp/VoltixApp/Utils/Endpoint.swift:82-101 | the URL is the ticker's fixed base followed by the txid |
| Endpoint.GetExplorerByAddressURL | voltixApp/VoltixApp/Utils/Endpoint.swift:107-130 | a URL iff the ticker is one of the nine, ending with the address; nil otherwise |
| Endpoint.ExplorerByAddressURLIsBasePlusAddress | voltixApp/VoltixApp/Utils/Endpoint.swift:107-130 | for a known ticker the URL is the ticker's fixed address-page base followed by the address |
| Endpoint.SolanaAddressUsesTxPath | voltixApp/VoltixApp/Utils/Endpoint.swift:119-120 | the address URL equals the tx URL exactly for `SOL` |
| KeychainService.Keys.Identifier | VultisigApp/VultisigApp/Services/Keychain/KeychainService.swift:55-57 | starts with `com.vultisig.wallet.`, followed by the per-kind key |
| KeychainService.Keys.Key | VultisigApp/VultisigApp/Services/Keychain/KeychainService.swift:59-66 | `fastPassword-` or `fastHint-` by kind, followed by the public key |
| KeychainService.IdentifierInjective | VultisigApp/VultisigApp/Services/Keychain/KeychainService.swift:51-67 | equal identifiers mean the same kind and the same public key |
| KeychainService.KindLetter | VultisigApp/VultisigApp/Services/Keychain/KeychainService.swift:59-66 | the fifth key character is `P` for passwords and `H` for hints |
| KeychainService.PasswordAndHintDiffer | VultisigApp/VultisigApp/Services/Keychain/KeychainService.swift:59-66 | one public key's password and hint identifiers differ |
| KeychainService.DefaultKeychainService.GetFastPassword | VultisigApp/VultisigApp/Services/Keychain/KeychainService.swift:32-34 | reads the password identifier of the key |
| KeychainService.DefaultKeychainService.GetFastHint | VultisigApp/VultisigApp/Services/Keychain/KeychainService.swift:40-42 | reads the hint identifier of the key |
| KeychainService.DefaultKeychainService.SetFastPassword | VultisigApp/VultisigApp/Services/Keychain/KeychainService.swift:36-38 | the getter then returns the stored value; all hints and other keys' passwords unchanged |
| KeychainService.DefaultKeychainService.SetFastHint | VultisigApp/VultisigApp/Services/Keychain/KeychainService.swift:44-46 | the getter then returns the stored value; all passwords and other keys' hints unchanged |
| TokensStore.TokenSelectionAssets | voltixApp/VoltixApp/Stores/TokensStore.swift:4-44 | the catalogue has twenty entries |
| TokensStore.FirstWithTicker | voltixApp/VoltixApp/Stores/TokensStore.swift:47 | none iff no entry has the ticker; otherwise an entry with the ticker and none before it |
| TokensStore.FirstWithTickerIsEarliest | voltixApp/VoltixApp/Stores/TokensStore.swift:47 | the first matching entry is the one returned |
| TokensStore.GetCoin | voltixApp/VoltixApp/Stores/TokensStore.swift:46-48 | nil iff no template has the ticker; a result has the ticker |
| TokensStore.UsdcResolvesToEthereum | voltixApp/VoltixApp/Stores/TokensStore.swift:4-48 | `USDC` gives the Ethereum template, not the later Avalanche one |
| TokensStore.Coin.Clone | voltixApp/VoltixApp/Stores/TokensStore.swift:54 | the clone holds exactly the template's fields |
| TokensStore.CreateNewCoinInstance | voltixApp/VoltixApp/Stores/TokensStore.swift:50-58 | fails with "doesn't support coin" iff there is no template; otherwise a fresh clone with the given address and key, other fields from the template |
| KeysignPayload.Gas | VultisigApp/VultisigApp/Views/Keysign/KeysignPayload.swift:28-47 | UTXO byte fee; Ethereum max fee plus priority fee; THORChain the fee itself; Maya the Maya constant; Cosmos 7500; Solana 1000000; Sui the reference price; Polkadot its constant |
| KeysignPayload.ThorchainGasIsFee | VultisigApp/VultisigApp/Views/Keysign/KeysignPayload.swift:34-35 | THORChain gas fits in 64 bits and equal gas means equal fee |
| KeysignPayload.ConstantGasChains | VultisigApp/VultisigApp/Views/Keysign/KeysignPayload.swift:36-45 | Maya, Cosmos, Solana and Polkadot gas ignore every field |
| KeysignPayload.EthereumGasCountsPriorityFee | VultisigApp/VultisigApp/Views/Keysign/KeysignPayload.swift:32-33 | a different priority fee gives a different Ethereum gas |
| KeysignPayload.Init | VultisigApp/VultisigApp/Views/Keysign/KeysignPayload.swift:68-79 | every argument is stored in its field; approval defaults to none |
| KeysignPayload.InitKeepsArguments | VultisigApp/VultisigApp/Views/Keysign/KeysignPayload.swift:68-79 | without an approval argument the payload has none; equal payloads come from equal arguments |
| VoltixKeysignPayload.Gas | voltixApp/VoltixApp/Views/Keysign/KeysignPayload.swift:26-41 | UTXO byte fee; Ethereum and ERC-20 max fee; THORChain 2000000; Cosmos 7500; Solana the default fee |
| VoltixKeysignPayload.PriorityFeeIgnored | voltixApp/VoltixApp/Views/Keysign/KeysignPayload.swift:30-33 | the priority fee never changes the gas; ERC-20 and Ethereum agree on the same max fee |
| VoltixKeysignPayload.GasDiffersFromCurrentApp | voltixApp/VoltixApp/Views/Keysign/KeysignPayload.swift:30-35 | the older Ethereum gas is the current one minus the priority fee; THORChain gas agrees only for a fee of 2000000 |
| TransactionMemoOpenLoan.LoanFields | VultisigApp/VultisigApp/Model/TransactionMemo/TransactionMemoOpenLoan.swift:41-63 | four to six fields, the first four `LOAN+`, asset, destination and min-out text |
| TransactionMemoOpenLoan.LoanMemoText | VultisigApp/VultisigApp/Model/TransactionMemo/TransactionMemoOpenLoan.swift:41-63 | the text appended piece by piece (two colons before the fee when the affiliate is empty) is the fields joined with `:` |
| TransactionMemoOpenLoan.LoanMemo | VultisigApp/VultisigApp/Model/TransactionMemo/TransactionMemoOpenLoan.swift:41-63 | always starts with `LOAN+:<asset>:<destination>:`; without affiliate and fee it is that head and the min-out text |
| TransactionMemoOpenLoan.LoanMemoFields | VultisigApp/VultisigApp/Model/TransactionMemo/TransactionMemoOpenLoan.swift:44-60 | for colon-free parts, splitting at `:` gives the fields; a non-zero fee is the sixth; no affiliate and zero fee give four |
| TransactionMemoOpenLoan.TransactionMemoOpenLoan.constructor | VultisigApp/VultisigApp/Model/TransactionMemo/TransactionMemoOpenLoan.swift:29-35 | stores each argument; affiliate and fee default to empty and zero |
| TransactionMemoOpenLoan.TransactionMemoOpenLoan.Empty | VultisigApp/VultisigApp/Model/TransactionMemo/TransactionMemoOpenLoan.swift:13-27 | every field empty or zero |
| TransactionMemoOpenLoan.TransactionMemoOpenLoan.AddressFields | VultisigApp/VultisigApp/Model/TransactionMemo/TransactionMemoOpenLoan.swift:20 | exactly the keys `destinationAddress` and `affiliate`, with their fields |
| TransactionMemoOpenLoan.TransactionMemoOpenLoan.SetAddressFields | VultisigApp/VultisigApp/Model/TransactionMemo/TransactionMemoOpenLoan.swift:21-24 | a present key replaces its field, an absent one keeps it; other fields unchanged |
| TransactionMemoOpenLoan.TransactionMemoOpenLoan.ToString | VultisigApp/VultisigApp/Model/TransactionMemo/TransactionMemoOpenLoan.swift:41-63 | the text built step by step is the fields joined with `:` |
| TransactionMemoOpenLoan.TransactionMemoOpenLoan.Description | VultisigApp/VultisigApp/Model/TransactionMemo/TransactionMemoOpenLoan.swift:37-39 | the same memo as `toString()` |
| TransactionMemoOpenLoan.TransactionMemoOpenLoan.ToDictionary | VultisigApp/VultisigApp/Model/TransactionMemo/TransactionMemoOpenLoan.swift:65-74 | six entries; each field as text; `memo` is the memo of `toString()` |
| TransactionMemoMigrate.TransactionMemoMigrate.Empty | VultisigApp/VultisigApp/Model/TransactionMemo/TransactionMemoMigrate.swift:13-20 | block height zero |
| TransactionMemoMigrate.TransactionMemoMigrate.constructor | VultisigApp/VultisigApp/Model/TransactionMemo/TransactionMemoMigrate.swift:22-24 | stores the block height |
| TransactionMemoMigrate.TransactionMemoMigrate.ToString | VultisigApp/VultisigApp/Model/TransactionMemo/TransactionMemoMigrate.swift:30-32 | `MIGRATE:` followed by the decimal text of the block height; the rest parses back as the height |
| TransactionMemoMigrate.TransactionMemoMigrate.Description | VultisigApp/VultisigApp/Model/TransactionMemo/TransactionMemoMigrate.swift:26-28 | equals `toString()` |
| TransactionMemoMigrate.TransactionMemoMigrate.AddressFields | VultisigApp/VultisigApp/Model/TransactionMemo/TransactionMemoMigrate.swift:15-16 | always empty |
| TransactionMemoMigrate.TransactionMemoMigrate.SetAddressFields | VultisigApp/VultisigApp/Model/TransactionMemo/TransactionMemoMigrate.swift:17 | changes nothing; the getter stays empty |
| TransactionMemoMigrate.TransactionMemoMigrate.ToDictionary | VultisigApp/VultisigApp/Model/TransactionMemo/TransactionMemoMigrate.swift:34-39 | exactly `blockHeight` and `memo`; the height is its decimal text and reads back; `memo` equals `toString()` |
| TransactionMemoMigrate.MigrateMemoInjective | VultisigApp/VultisigApp/Model/TransactionMemo/TransactionMemoMigrate.swift:30-32 | two migrate memos are equal iff their heights are |

## Left out

- The Swifter HTTP server's routing table, `NetService` publishing, `start`, and JSON encoding and decoding are left out. Requests arrive as decoded arguments (`None` for a missing parameter or an undecodable body). WebSocket bodies are decoded by the `Decoders` parameter. Logging is not modelled.
- Mediator.Mediator.GetMessages: the `internalServerError` answers are not modelled. They arise only from a failing JSON encoder or a cache read that throws.
- Mediator.Mediator.StartKeygenOrKeysign: same as above, the `internalServerError` answers are not modelled.
- The order of `cache.allKeys` is not fixed by the cache library. `GetMessages` takes it as the `allKeys` parameter, each key listed once, and promises which messages are returned and how many, not their order.
- Concurrency: the handlers share unsynchronised dictionaries. The model runs them one at a time and says nothing about races.
- `Session` is a Swift class updated in place and stored back. The model treats it as a value, since no other reference to the cached object escapes.
- A WebSocket connection is a `Socket` value compared by identity. `writeText` appends to the `sent` log and cannot fail.
- `OnClientConnected` does nothing and `deinit` only clears the cache. Neither is modelled.
- The default `MemoryStorage` configuration never expires entries. The model has no expiry.
- `MayaChainHelper.MayaChainGas` and `PolkadotHelper.defaultFeeInPlancks` are not part of this model. Their values are the parameters `mayaChainGas` and `polkadotDefaultFee`.
- The older app's `SolanaHelper` is not part of this model, so its default fee is the parameter `solanaDefaultFee`. The current app's constant, 1000000 lamports, is modelled.
- KeysignPayload.Gas: the MayaChain value is `MayaChainGas` read back from its decimal text. The model takes that constant as an unsigned 64-bit value.
- `toAmountString` and `getKeysignMessages` are left out. They use `Decimal` arithmetic and the WalletCore signing helpers, which are foreign code.
- The `Coin`, `UtxoInfo`, `SwapPayload` and `ERC20ApprovePayload` records are type parameters of `KeysignPayload`.
- The loan memo's `Double` values are reals. Their text rendering (`"\(minOut)"`) is the parameter `render`, of which nothing is assumed; only a comparison with zero decides the layout.
- The `getView` methods are left out: they are SwiftUI only.
- The system keychain behind `KeychainService` is not part of this model. It is a class holding a map from identifier to string, where storing nil removes the entry.
- The grammar of `BigInt(String)` is taken to be an optional `+` or `-` followed by at least one decimal digit.
- Utils.GetValueFromJson: `NSDictionary` values are a `JsonValue` datatype, and `components(separatedBy:)` is the `Split` function.
- Utils.GetCachedData: `Date()` is the parameter `now`, in seconds. The `Date` timestamps, `timeIntervalSince` and the `Double` limit are exact reals in `CacheEntry`, so floating-point rounding is not modelled.
- Utils.IsCacheValid: same as above, `Date()` is the parameter `now`, and the stored timestamp, the elapsed interval and the limit are exact reals rather than `Double` values.
- StringExtension.PaddingLeft: requires a non-empty pad, as does `StringExtension.Cycle`. With an empty pad, `padding(toLength:withPad:startingAt:)` raises an exception; that case is not modelled. Every caller passes `"0"`.
- Swift counts characters as grapheme clusters. The model counts Unicode scalars, which agree for the ASCII addresses, hashes and hex strings these functions handle.
- The network calls around the calldata builders and URL builders are left out. That covers `intRpcCall`, `strRpcCall` and every URLSession request.
- TokensStore.GetCoin: in the source the templates are one shared `static var` array of `Coin` objects, and `getCoin` hands out the shared object; `clone()` guards against that aliasing. The model's templates are immutable values, so a template left unchanged holds by construction rather than by proof.
- TokensStore.CreateNewCoinInstance: same as above; the clone is a new value, so aliasing with the template cannot be expressed.
- Endpoint.FetchSwapQuoteThorchainNineRealms: `asUrl` force-unwraps `URL(string:)`, so the source crashes on text that is not a URL. The model returns the text and does not model URL validity or the crash.
