# dnstraverse: a verified model of the delegation walk

dnstraverse explores DNS delegation. An ordinary resolver follows one path
from the root servers down. dnstraverse instead follows every candidate name
server and every server address, and gives each outcome (an answer, NODATA,
an error, a lame delegation, a missing glue record, ...) the probability
that a resolver choosing servers uniformly would end there.

The engine is a tree of `Referral` nodes. Each node asks one server one
question (qname, qclass, qtype), and is handled in two phases:

1. Resolve: the server's name is resolved to addresses. This phase has its
   own children.
2. Process: each address is queried. Each reply becomes either a terminal
   outcome or a referral, and a referral spawns one child per start server.

A `Traverser` walks this tree depth first over an explicit stack. The
stack holds nodes plus two marker items, `:calc_resolve` and `:calc_answer`.
A node's statistics are calculated after its children's (post-order), so
the root's outcome probabilities sum to one. `SummaryStats` then buckets
the root's probability by status and groups the answered probability by
record data.

The repository holds three generations of this engine. Modules are named
after the path they model:

| prefix | source directory |
|---|---|
| none | `lib/dnstraverse` (newest) |
| `Dnstraverse` | `dnstraverse/lib/dnstraverse` (middle) |
| `DnscheckLib` | `dnscheck/lib/dnstraverse` |
| `Dnscheck` | `dnscheck/` (oldest) |

Modules whose code exists in one generation only carry no prefix:

| module | source file |
|---|---|
| `MessageUtility` | `dnscheck/message_utility.rb` |
| `DecodedQueries` | `dnstraverse/lib/dnstraverse/decoded_query.rb` |
| `DecodedQueryCaches` | `dnstraverse/lib/dnstraverse/decoded_query_cache.rb` |
| `Referrals`, `ReferralStats` | `dnstraverse/lib/dnstraverse/referral.rb`, the node every traverser here walks (the `dnscheck/lib` traverser included, see "## Left out") |

`lib/dnstraverse/referral.rb` is not part of this model. The newest
traverser therefore walks the middle iteration's nodes. Helper modules:

- `Names`: case folding, suffixes, the bailiwick test.
- `Hashes`: Ruby's insertion-ordered `Hash`.
- `Lists` and `Sorting`: `select`, `uniq`, `sort`.
- `Outcomes`: statuses.
- `CacheRecords`: the key and update shared by both record caches.
- `DnsMessage`: records, messages, the transport.

Modelling choices:

- The network is a function parameter, `(ip, qname, qtype, udp size) -> message or exception`. A `Resolver` value holds it with the EDNS0 buffer size.
- Ruby's `raise` becomes the `Err` case of a `Result`. `nil` becomes `None`.
- Probabilities are exact reals.
- Objects that the source updates in place are classes, with arrays and hashes as `seq` fields. These are the record caches, the decoded-query cache, the responses, the tree of referral nodes, the two older `Referral`s and the traversers.
- The middle tree keeps its nodes in an arena (`Referrals.Tree.nodes`), addressed by index, with the parent held as an index.
- The two older `Referral`s are single objects. The children they create are described by the arguments they are created with. The children's statistics come back as a function argument.

## Model

| member | source | states |
|---|---|---|
| Names.StripLabel | lib/dnstraverse/info_cache.rb:84 | dropping the leftmost label gives a strictly shorter name: the part after the first dot, or the root `""` when there is no dot |
| Names.SuffixesEndAtRoot | lib/dnstraverse/info_cache.rb:75-86 | the closest-zone search starts at the domain itself and always reaches the root `""` |
| Names.OnSuffixChain | dnstraverse/lib/dnstraverse/decoded_query.rb:111-119 | a zone lies on a name's suffix chain iff the name is the zone, the zone is the root, or the name ends in "." + zone |
| Names.InsideBailiwickOnSuffixChain | dnstraverse/lib/dnstraverse/decoded_query.rb:111-119 | the bailiwick test accepts exactly the names whose label-stripping chain reaches the bailiwick, so the bailiwick test and `get_ns?` agree on which zones enclose a name |
| Names.InsideImpliesAsWritten | dnstraverse/lib/dnstraverse/decoded_query.rb:113-116 | every name the intended bailiwick test accepts is also accepted by the unescaped regex the source writes |
| Names.AsWrittenAcceptsSiblingZone | dnscheck/message_utility.rb:151-152 | the regex `/.example.com$/i` accepts "ns.myexample.com", which is not inside the zone "example.com" |
| Names.AsWrittenAcceptsOutsideName | dnstraverse/lib/dnstraverse/decoded_query.rb:113-116 | the regex `/.com$/i` accepts "telecom", which is not inside the zone "com" |
| Names.LowerIdempotent | lib/dnstraverse/info_cache.rb:26 | lower-casing a cache key twice is lower-casing it once |
| Names.JoinInjective | dnstraverse/lib/dnstraverse/response.rb:36-39 | joining colon-free fields with ":" is injective, so statistics keys built from different field lists differ |
| Names.FieldBeforeColon | dnstraverse/lib/dnstraverse/response.rb:36-39 | two keys that agree up to a field and then carry different colon-free fields differ, whatever follows |
| Names.DottedQuadShape | lib/dnstraverse/info_cache.rb:56 | a string the dotted-quad test accepts holds only digits and dots |
| Outcomes.StatusNameInjective | dnstraverse/lib/dnstraverse/response.rb:36-39 | different statuses print differently, so keys built from them differ |
| Outcomes.StatusNameHasNoColon | dnstraverse/lib/dnstraverse/response.rb:36-39 | no status name contains the ":" that separates key fields |
| CacheRecords.WithKeyCounts | lib/dnstraverse/info_cache.rb:39-46 | the records selected under a key are exactly the input records with that key, with their multiplicities |
| CacheRecords.ClearedAt | lib/dnstraverse/info_cache.rb:40 | the clearing loop of `add` empties every key of the input and leaves other keys alone |
| CacheRecords.PushedAt | lib/dnstraverse/info_cache.rb:41-44 | the pushing loop of `add` appends each key's records in input order after what the key held |
| CacheRecords.ReplacedAt | lib/dnstraverse/info_cache.rb:39-46 | after `add(rrs)` each key of `rrs` holds exactly its records of `rrs` in input order, other keys are unchanged, and no other key appears |
| CacheRecords.ReplaceNotAppend | lib/dnstraverse/info_cache.rb:37-40 | `add` replaces: what a key held before makes no difference afterwards |
| CacheRecords.ReplacedIdempotent | lib/dnstraverse/info_cache.rb:39-46 | adding the same records twice is adding them once |
| CacheRecords.ReplacedNonEmpty | lib/dnstraverse/info_cache.rb:39-46 | `add` never creates an empty entry, so a found entry is a non-empty list |
| CacheRecords.AddressRecords | lib/dnstraverse/info_cache.rb:55-59 | one address record per IP, in order, typed A or AAAA by the dotted-quad test |
| CacheRecords.BuildServerRecords | lib/dnstraverse/info_cache.rb:53-59 | the inner loop of `add_hints` builds the NS record of one server followed by its address records |
| CacheRecords.BuildHintRecords | lib/dnstraverse/info_cache.rb:50-60 | the outer loop of `add_hints` builds the records of every server in turn |
| CacheRecords.HintRecordsComplete | lib/dnstraverse/info_cache.rb:50-62 | every server's NS record owned by the domain and every one of its address records are among the hint records |
| CacheRecords.HintRecordsSound | lib/dnstraverse/info_cache.rb:50-62 | every hint record is the NS record or an address record of a listed server |
| CacheRecords.HintRecordsCount | lib/dnstraverse/info_cache.rb:50-62 | there is exactly one hint record per server plus one per address |
| CacheRecords.HintNsKey | lib/dnstraverse/info_cache.rb:53-54 | a hint NS record is stored under the key `get?` uses for (domain, NS), so `get_ns?` finds it |
| InfoCaches.InfoCache.constructor | lib/dnstraverse/info_cache.rb:31-35 | a new cache is empty and sits above the given parent |
| InfoCaches.InfoCache.Add | lib/dnstraverse/info_cache.rb:39-46 | `add` changes only this cache's map, to the replace-per-key update of the old one |
| InfoCaches.InfoCache.AddHints | lib/dnstraverse/info_cache.rb:50-62 | `add_hints` is one `add` of the NS and A/AAAA hint records, on this cache only |
| InfoCaches.InfoCache.Get | lib/dnstraverse/info_cache.rb:64-73 | `get?` returns the local entry under the lower-cased key (class IN by default), else the parent's answer, else nil; a found entry is non-empty |
| InfoCaches.InfoCache.GetScoped | lib/dnstraverse/info_cache.rb:64-73 | a lookup returns the entry of this cache or one of its ancestors, and nil only when none of them has the key |
| InfoCaches.InfoCache.GetNs | lib/dnstraverse/info_cache.rb:75-86 | `get_ns?` returns a non-empty NS set when it succeeds |
| InfoCaches.InfoCache.GetNsClosest | lib/dnstraverse/info_cache.rb:75-86 | a found NS set belongs to the first name on the suffix chain that has one: the closest known enclosing zone |
| InfoCaches.InfoCache.GetNsFailsOnlyWithoutNs | lib/dnstraverse/info_cache.rb:81-83 | `get_ns?` raises only when no name on the chain down to the root has NS records |
| InfoCaches.InfoCache.GetNsFailsWithoutNs | lib/dnstraverse/info_cache.rb:81-83 | and when none has, it does raise |
| InfoCaches.InfoCache.StartServersUsable | lib/dnstraverse/info_cache.rb:88-104 | a start-server list has at least one server, and every address list it carries is non-empty |
| InfoCaches.InfoCache.GetStartServers | lib/dnstraverse/info_cache.rb:88-104 | one starter per NS record in NS order, with the cached addresses of the requested type or nil, and the owner of the first NS record as bailiwick; an error exactly when `get_ns?` raises |
| InfoCaches.StarterNames | lib/dnstraverse/response.rb:97-98 | the lower-cased starter names, one per starter, in order |
| DnscheckLibInfoCaches.InfoCache.constructor | dnscheck/lib/dnstraverse/info_cache.rb:16-23 | a cache built from another cache holds a copy of its map, otherwise an empty map |
| DnscheckLibInfoCaches.InfoCache.Add | dnscheck/lib/dnstraverse/info_cache.rb:27-34 | the same replace-per-key update, on this object only: the cache it was copied from is not affected |
| DnscheckLibInfoCaches.InfoCache.AddHints | dnscheck/lib/dnstraverse/info_cache.rb:38-50 | one `add` of the NS and A/AAAA hint records |
| DnscheckLibInfoCaches.InfoCache.Get | dnscheck/lib/dnstraverse/info_cache.rb:52-58 | `get?` consults only the local map: found iff the lower-cased key is present, and then non-empty |
| DnscheckLibInfoCaches.InfoCache.GetNs | dnscheck/lib/dnstraverse/info_cache.rb:60-71 | a found NS set is non-empty |
| DnscheckLibInfoCaches.InfoCache.GetNsClosest | dnscheck/lib/dnstraverse/info_cache.rb:60-71 | a found NS set is the entry of the first name on the suffix chain that has one |
| DnscheckLibInfoCaches.InfoCache.GetNsFailsOnlyWithoutNs | dnscheck/lib/dnstraverse/info_cache.rb:66-68 | `get_ns?` raises only when no name on the chain has NS records |
| DnscheckLibInfoCaches.InfoCache.GetNsFailsWithoutNs | dnscheck/lib/dnstraverse/info_cache.rb:66-68 | and when none has, it raises |
| DnscheckLibInfoCaches.InfoCache.GetNsIn | dnscheck/lib/dnstraverse/info_cache.rb:60-71 | the lookup on the object is the lookup on its map, which the referral code uses |
| DnscheckLibInfoCaches.InfoCache.StartServersIn | dnscheck/lib/dnstraverse/referral.rb:84-101 | the start servers stated on the object are the ones computed on its map |
| DnscheckLibInfoCaches.InfoCache.GetStartServers | dnscheck/lib/dnstraverse/referral.rb:84-101 | the `Referral`'s lookup, here on the cache (see "## Left out"): one starter per NS record of the closest known zone, with cached addresses or nil, and the first NS owner as bailiwick; the error of `get_ns?` passed on unchanged |
| DecodedQueries.EdnsFallback | dnstraverse/lib/dnstraverse/decoded_query.rb:73-90 | the first reply is kept unless it is a FORMERR/NOTIMP/SERVFAIL message at a size other than 512 and the 512-byte retry is a message with another code; only then is the retry kept, with exactly one "doesn't seem to support EDNS0" warning |
| DecodedQueries.EdnsNeverKeepsWorseReply | dnstraverse/lib/dnstraverse/decoded_query.rb:73-90 | when the retry would succeed, the kept reply is never an EDNS-suspect message |
| DecodedQueries.MakeQueryMessage | dnstraverse/lib/dnstraverse/decoded_query.rb:73-90 | the method returns the fallback's reply and warnings and leaves the resolver's buffer size and nameserver as they were |
| DecodedQueries.ErrorMessageAsWritten | dnstraverse/lib/dnstraverse/decoded_query.rb:150-163 | as written, `process_error` gives a message only for FORMERR, SERVFAIL and NXDOMAIN and raises for every other code |
| DecodedQueries.RefusedRaisesAsWritten | dnstraverse/lib/dnstraverse/decoded_query.rb:157-160 | a REFUSED reply makes `process_error` raise as written, where the intended text is "Refused" |
| DecodedQueries.ErrorMessageExtendsAsWritten | dnstraverse/lib/dnstraverse/decoded_query.rb:150-163 | the corrected messages keep the source's text wherever it does not raise, and name NOTIMP and REFUSED |
| DecodedQueries.TargetNames | dnstraverse/lib/dnstraverse/decoded_query.rb:178 | the authority names are the lower-cased NS targets, one per record, in order |
| DecodedQueries.ProcessClassifies | dnstraverse/lib/dnstraverse/decoded_query.rb:124-137 | classification is total and exclusive in the order exception, restart (outside the bailiwick only), error, answered, nodata, referral; the last fallback to restart is unreachable |
| DecodedQueries.AnsweredCarriesAnswers | dnstraverse/lib/dnstraverse/decoded_query.rb:132-133 | `answered` carries a non-empty list of exactly the answers matching the end of the CNAME chain and the type asked for |
| DecodedQueries.ReferralNamesAuthorities | dnstraverse/lib/dnstraverse/decoded_query.rb:176-180 | `referral` carries at least one IN NS record and names the lower-cased targets of those records, in section order |
| DecodedQueries.ClassifiedShape | dnstraverse/lib/dnstraverse/decoded_query.rb:124-180 | exception iff the reply raised; every other status has an end name; answered has answers; referral has authority names; the classifier never says lame or noglue |
| DecodedQueries.NilAndRootBailiwickAgree | dnstraverse/lib/dnstraverse/decoded_query_cache.rb:38 | a nil bailiwick and the root bailiwick, which print alike in the memo key, classify every reply alike |
| DecodedQueries.RootBailiwickCachesAll | dnscheck/message_utility.rb:144-158 | the root bailiwick keeps every record, as a nil one does |
| DecodedQueries.DecodedQuery.constructor | dnstraverse/lib/dnstraverse/decoded_query.rb:36-54 | a new query stores its arguments and the classification of its message, with no warnings |
| DecodedQueries.DecodedQuery.WarningsAdd | dnstraverse/lib/dnstraverse/decoded_query.rb:56-63 | the warning list is created on first use; an array is appended element by element, anything else as one entry |
| DecodedQueries.Make | dnstraverse/lib/dnstraverse/decoded_query.rb:36-54 | the nameserver is queried only when no message is handed in; a queried reply must pass `msg_validate`; the result is classified; the resolver's buffer size is unchanged and the fallback warning is kept |
| DecodedQueryCaches.DecodedQueryCache.constructor | dnstraverse/lib/dnstraverse/decoded_query_cache.rb:25-30 | a new memo is empty with no hits |
| DecodedQueryCaches.DecodedQueryCache.Query | dnstraverse/lib/dnstraverse/decoded_query_cache.rb:32-49 | a missing qname, qclass, qtype or ip is an error; a hit returns the stored object whatever message is passed and adds exactly one hit; a miss stores exactly one new entry and adds no hit |
| DecodedQueryCaches.New | dnstraverse/lib/dnstraverse/decoded_query_cache.rb:26 | construction fails exactly when there is no resolver |
| DecodedQueryCaches.QueryTwice | dnstraverse/lib/dnstraverse/decoded_query_cache.rb:38-48 | two calls with equal arguments return the identical object, and the second only counts a hit |
| MessageUtility.SelectMembers | dnscheck/message_utility.rb:47-51 | a selection holds exactly the records of the section whose name, class (IN by default) and type match, ignoring case |
| MessageUtility.SelectAppend | dnscheck/message_utility.rb:47-51 | a selection keeps section order |
| MessageUtility.LookupSpec | dnscheck/message_utility.rb:45-67 | a section lookup is empty exactly when no record matches, and otherwise holds exactly the matching records |
| MessageUtility.AnswersSpec | dnscheck/message_utility.rb:45-54 | `msg_answers?` is nil iff no answer record matches, never an empty list, and otherwise holds exactly the matching answers |
| MessageUtility.AdditionalSpec | dnscheck/message_utility.rb:56-67 | `msg_additional?` is nil iff no additional record matches, and otherwise holds exactly the matching ones |
| MessageUtility.AdditionalIpsSpec | dnscheck/message_utility.rb:69-83 | `msg_additional_ips?` is never nil: it holds the addresses of exactly the matching additional records, and is empty iff `msg_additional?` is nil |
| MessageUtility.AuthorityNs | dnscheck/message_utility.rb:104-120 | the NS part is the IN NS records of the authority section, in section order |
| MessageUtility.AuthoritySoa | dnscheck/message_utility.rb:104-120 | the SOA part is the IN SOA records, in section order |
| MessageUtility.AuthorityOther | dnscheck/message_utility.rb:104-120 | the other part is every record that is neither, in section order |
| MessageUtility.AuthorityPartition | dnscheck/message_utility.rb:104-120 | the three parts together hold every authority record exactly once |
| MessageUtility.NoDataSpec | dnscheck/message_utility.rb:135-142 | `msg_nodata?` holds iff the authority section has an IN SOA record or no IN NS record |
| MessageUtility.FollowCnames | dnscheck/message_utility.rb:122-133 | the name returned has an answer of the type asked for or no CNAME answer |
| MessageUtility.EndName | dnscheck/message_utility.rb:122-133 | the name `msg_follow_cnames` returns, when it returns, is one at which the loop stops |
| MessageUtility.EndNameIsFirstStop | dnscheck/message_utility.rb:122-133 | the name returned is the first stop on the chain: each earlier name has a CNAME answer and no answer of the type asked for, and the next name is the first CNAME's target |
| MessageUtility.EndNameNoneDiverges | dnscheck/message_utility.rb:125-132 | when no end is found, the chain continues at every step: the source loop never returns |
| MessageUtility.CnameLoopHasNoEnd | dnscheck/message_utility.rb:125-132 | a chain that comes back to a name it has passed never returns |
| MessageUtility.CnameCycleHasNoEnd | dnscheck/message_utility.rb:125-132 | two names whose CNAME records point at each other make `msg_follow_cnames` loop for ever |
| MessageUtility.ChaseNoneDiverges | dnscheck/message_utility.rb:125-132 | a loop that stops only at answers and has not stopped after as many steps as there are targets plus two is on a cycle and never stops, so the cut-off loses nothing |
| MessageUtility.NextIsAnswerData | dnscheck/message_utility.rb:131 | each step of the chain lands on the data of an answer record |
| MessageUtility.CacheableGood | dnscheck/message_utility.rb:144-164 | `:good` is exactly the records the intended bailiwick test accepts (all of them without a bailiwick), in order; the unescaped regex accepts more (see "## Left out") |
| MessageUtility.CacheableBad | dnscheck/message_utility.rb:144-164 | `:bad` is exactly the records the intended test rejects, in order |
| MessageUtility.CacheablePartition | dnscheck/message_utility.rb:144-164 | every additional and authority record lands in exactly one of good and bad |
| MessageUtility.CacheableWithoutBailiwick | dnscheck/message_utility.rb:151 | with a nil bailiwick every record is good and none bad |
| MessageUtility.Validate | dnscheck/message_utility.rb:22-43 | a message with an error code passes unchecked; otherwise it passes iff it has exactly one question whose supplied name, class (IN by default) and type match, ignoring case |
| Responses.StatsKey | lib/dnstraverse/response.rb:56-62 | the key is a `key:` string, so it is never taken for an address |
| Responses.StatsKeySeparatesStatuses | lib/dnstraverse/response.rb:53-58 | responses with different statuses never share a key, whatever their other fields |
| Responses.EvaluatedStatus | lib/dnstraverse/response.rb:82-96 | the status is the classifier's, except that a referral becomes lame iff there was a bailiwick and the new bailiwick does not end in "." + it |
| Responses.LameTestAsWritten | lib/dnstraverse/response.rb:94 | as written, a referral is lame unless there was no bailiwick or the new bailiwick matches `/\.#{bailiwick}$/`, whose inner dots are wildcards |
| Responses.NotLameAsWrittenOutsideZone | lib/dnstraverse/response.rb:94 | as written, a referral from "example.com" to "sub.example-com" is not lame, where the intended test calls it lame |
| Responses.NonLameReferralDescends | lib/dnstraverse/response.rb:94-96 | a referral that is not lame moves strictly down: the new bailiwick is inside the old one and longer |
| Responses.Evaluate | lib/dnstraverse/response.rb:82-102 | in-bailiwick records go into the response's cache unless the query raised; restart and referral take the start servers of the end name from that cache; lameness by bailiwick extension; a name mismatch only adds a warning |
| Responses.Response.constructor | lib/dnstraverse/response.rb:32-44 | the fields as `initialize` leaves them, with the key built from the final status |
| Responses.Response.Cleanup | lib/dnstraverse/response.rb:65-70 | the cache and the starters are dropped; the status and the key stay |
| Responses.New | lib/dnstraverse/response.rb:32-44 | the decoded query comes from the memo and is evaluated on a fresh child of the given cache, which is left as it was: the new cache holds exactly the replaced in-bailiwick records, the status is `EvaluatedStatus` of the decoded one, and the starters are the start servers of the end name (starters exactly for restart or referral) |
| Responses.Respond | lib/dnstraverse/response.rb:32-44 | `evaluate` on a fresh child cache gives the response its cache contents, status, starters and key |
| Responses.EvaluatedShape | lib/dnstraverse/response.rb:82-96 | after `evaluate` the status is the classifier's or a lame referral, and starters exist exactly for restart and referral |
| DnstraverseResponses.StatsKey | dnstraverse/lib/dnstraverse/response.rb:36-39 | the key is a `key:` string |
| DnstraverseResponses.StatsKeySeparatesStatuses | dnstraverse/lib/dnstraverse/response.rb:36-39 | two outcomes from one address with different statuses are never merged |
| DnstraverseResponses.NamesDifferByCount | dnstraverse/lib/dnstraverse/response.rb:60-61 | comparing the sorted name lists is comparing the names counted with multiplicity, whatever their order |
| DnstraverseResponses.EvaluatedStatus | dnstraverse/lib/dnstraverse/response.rb:50-65 | the status is the classifier's, except that a referral becomes lame iff its starter names and authority names differ |
| DnstraverseResponses.Evaluate | dnstraverse/lib/dnstraverse/response.rb:50-65 | in-bailiwick records go into the cache unless the query raised; restart and referral take the start servers of the end name, which are usable; lameness by name comparison |
| DnstraverseResponses.Response.constructor | dnstraverse/lib/dnstraverse/response.rb:16-27 | the fields as `initialize` leaves them, with the key built from the final status |
| DnstraverseResponses.Response.Cleanup | dnstraverse/lib/dnstraverse/response.rb:42-47 | only the cache and the starters are dropped |
| DnstraverseResponses.Carries | dnstraverse/lib/dnstraverse/response.rb:50-65 | an answered response has answers and a restart or (lame) referral has the end name of its CNAME chain |
| DnstraverseResponses.New | dnstraverse/lib/dnstraverse/response.rb:16-27 | the decoded query comes from the memo and is evaluated on a fresh child of the given cache, which is untouched: the new cache holds exactly the replaced in-bailiwick records, a referral is lame exactly when its starter and authority names differ, and the starters are the usable start servers of the end name |
| DnstraverseResponses.Respond | dnstraverse/lib/dnstraverse/response.rb:16-27 | `evaluate` on a fresh child cache gives the response its cache contents, status, starters and key |
| DnstraverseResponses.EvaluatedShape | dnstraverse/lib/dnstraverse/response.rb:50-65 | after `evaluate` the status is the classifier's or a lame referral, and starters exist exactly for restart and referral |
| DnstraverseResponseNoGlue.NoGlue.Status | dnstraverse/lib/dnstraverse/response_noglue.rb:35 | the status is always noglue, never a referral |
| DnstraverseResponseNoGlue.NoGlue.StatsKey | dnstraverse/lib/dnstraverse/response_noglue.rb:44-46 | the key is a `key:` string |
| DnstraverseResponseNoGlue.NoGlue.Describe | dnstraverse/lib/dnstraverse/response_noglue.rb:48-50 | the description ends with the server name |
| DnstraverseResponseNoGlue.KeyApartFromResponses | dnstraverse/lib/dnstraverse/response_noglue.rb:44-46 | a noglue outcome never shares a key with an ordinary response of another status from the same address |
| DnstraverseResponseNoGlue.KeySeparatesServers | dnstraverse/lib/dnstraverse/response_noglue.rb:44-46 | glueless referrals to different servers are counted apart |
| DnscheckLibResponses.FromQuestion | dnscheck/lib/dnstraverse/response.rb:22-24 | a missing query field is taken from the message's first question, and fails when there is none |
| DnscheckLibResponses.FromAnswerfrom | dnscheck/lib/dnstraverse/response.rb:25 | a missing address is the sender of the message, and fails for an exception |
| DnscheckLibResponses.Process | dnscheck/lib/dnstraverse/response.rb:55-117 | an exception is only recorded; any message has its in-bailiwick records cached first, even with an error code, and is classified; restart and referral take start servers from the cache; a referral is lame iff its sorted starter names differ from its sorted NS targets |
| DnscheckLibResponses.Response.constructor | dnscheck/lib/dnstraverse/response.rb:20-40 | the fields once `process` has run, with the key `key:ip:status:qname:qclass:qtype` |
| DnscheckLibResponses.New | dnscheck/lib/dnstraverse/response.rb:20-40 | the query fields default to the message's question and sender; the cache is a copy and the one given is left as it was; what is stored is what `process` gives for the message on that copy |
| DnscheckLibResponses.Respond | dnscheck/lib/dnstraverse/response.rb:20-40 | `process` on a copy of the given cache gives the response its classification and key |
| DnscheckLibResponses.AgreesWithDecodedQuery | dnscheck/lib/dnstraverse/response.rb:55-69 | this classifier agrees with the newer one, except that a referral may be lame |
| ReferralStats.TotalPut | dnstraverse/lib/dnstraverse/referral.rb:280-281 | assigning an entry removes the old entry's probability under that key and adds the new one's |
| ReferralStats.AccumulateTotal | dnstraverse/lib/dnstraverse/referral.rb:237-243 | copying in or adding to an entry adds exactly its probability to the total |
| ReferralStats.AddScaledTotal | dnstraverse/lib/dnstraverse/referral.rb:235-245 | merging one child at share `pct` adds `pct` times the child's total |
| ReferralStats.CombineAtTotal | dnstraverse/lib/dnstraverse/referral.rb:233-246 | merging children at one share adds that share times the sum of their totals |
| ReferralStats.SumTotalsOfUnits | dnstraverse/lib/dnstraverse/referral.rb:233-246 | children whose stats each sum to 1 sum to their number |
| ReferralStats.CombineConserves | dnstraverse/lib/dnstraverse/referral.rb:233-246 | `stats_calculate_children` over a non-empty list of children whose stats each sum to 1 adds exactly the weight: mass is conserved |
| ReferralStats.CombineDistinct | dnstraverse/lib/dnstraverse/referral.rb:237-243 | stats merged per key never list a key twice |
| ReferralStats.CombineWellFormed | dnstraverse/lib/dnstraverse/referral.rb:237-243 | merging keeps every answered entry's answers |
| ReferralStats.SpreadTotal | dnstraverse/lib/dnstraverse/referral.rb:219-222 | spreading a share over n addresses adds n times the share |
| ReferralStats.WeighEntryTotal | dnstraverse/lib/dnstraverse/referral.rb:214-227 | one resolution entry adds exactly its probability to the weights: an answer's split evenly over its addresses, any other kept under its key |
| ReferralStats.ResolveWeightsTotal | dnstraverse/lib/dnstraverse/referral.rb:213-228 | the weights `resolve_calculate` derives sum to the total probability of the resolution |
| ReferralStats.ResolveWeightsDistinct | dnstraverse/lib/dnstraverse/referral.rb:229 | `serverips`, the keys of the weights, never repeats an address |
| ReferralStats.InitialWeightsLookup | dnstraverse/lib/dnstraverse/referral.rb:119-123 | each listed address is weighted 1/n and no other address has a weight |
| ReferralStats.InitialWeightsSumToOne | dnstraverse/lib/dnstraverse/referral.rb:119-123 | the weights set at construction sum to 1 over the address list, even with repeated addresses |
| ReferralStats.SumOverKeys | dnstraverse/lib/dnstraverse/referral.rb:229 | summed over its own keys, a weights hash gives its total |
| ReferralStats.AllCalculated | dnstraverse/lib/dnstraverse/referral.rb:236 | the children's stats are available exactly when every child has been calculated |
| ReferralStats.AnswerStatsWellFormed | dnstraverse/lib/dnstraverse/referral.rb:261-283 | `answer_calculate` keeps every answered entry's answers |
| ReferralStats.AnswerStepConserves | dnstraverse/lib/dnstraverse/referral.rb:261-283 | one address adds exactly its weight, whether it is a placeholder, has children or is terminal (accumulated) |
| ReferralStats.AnswerStatsConserve | dnstraverse/lib/dnstraverse/referral.rb:261-283 | when `answer_calculate` succeeds the node's stats sum to the sum of its addresses' weights |
| ReferralStats.AnswerStatsAsWrittenLosesMass | dnstraverse/lib/dnstraverse/referral.rb:280-281 | as written, an address listed twice whose visits share a stats key keeps only one weight: 0.5 instead of 1 |
| Referrals.NonPlaceholdersMembers | dnstraverse/lib/dnstraverse/referral.rb:52-59 | exactly the addresses that are not `key:` placeholders stay |
| Referrals.IpsAsArray | dnstraverse/lib/dnstraverse/referral.rb:51-59 | `ips_as_array` is empty before the addresses are known and otherwise the non-placeholder addresses in order |
| Referrals.NotGluelessOutsideBailiwick | dnstraverse/lib/dnstraverse/referral.rb:161-165 | an unresolved node that is not glueless has a bailiwick its server lies outside of |
| Referrals.QueryMessage | dnstraverse/lib/dnstraverse/referral.rb:371-373 | the max-depth error is handed in exactly when the refid has at least `maxdepth` dots, and it is an exception |
| Referrals.NoGlueOutcome | dnstraverse/lib/dnstraverse/referral.rb:199-207 | the no-glue entry has status noglue under a `key:` key |
| Referrals.ChildStats | dnstraverse/lib/dnstraverse/referral.rb:236 | one stats slot per child, nil for a child not yet calculated |
| Referrals.InitialServerWeights | dnstraverse/lib/dnstraverse/referral.rb:119-123 | the loop sets each given address's weight to 1/n |
| Referrals.StatsCalculateChildren | dnstraverse/lib/dnstraverse/referral.rb:233-246 | the loop computes the combined, scaled stats |
| Referrals.WeighResolution | dnstraverse/lib/dnstraverse/referral.rb:213-228 | the loop computes the server weights of the resolution |
| Referrals.AnswerLoop | dnstraverse/lib/dnstraverse/referral.rb:261-283 | the per-address loop computes the node's stats, with terminal entries accumulated |
| Referrals.AnswerStatsStopsAtError | dnstraverse/lib/dnstraverse/referral.rb:265-272 | once an address fails an assertion, the whole calculation fails with that error |
| Referrals.SpawnListAt | dnstraverse/lib/dnstraverse/referral.rb:398-413 | the k-th child is spawned from the k-th starter and numbered k + 1 |
| Referrals.SpawnListStarters | dnstraverse/lib/dnstraverse/referral.rb:398-413 | each spawned child asks its own starter, in starter order |
| Referrals.SpawnListFields | dnstraverse/lib/dnstraverse/referral.rb:415-424 | every spawned child has the parent, the parent address and the query fields it was given, and is neither processed nor calculated |
| Referrals.SpawnSound | dnstraverse/lib/dnstraverse/referral.rb:119-123 | a child built from a starter with known addresses has weights summing to 1 |
| Referrals.SpawnListSound | dnstraverse/lib/dnstraverse/referral.rb:398-413 | children spawned from usable starters are all sound |
| Referrals.SpawnedClosed | dnstraverse/lib/dnstraverse/referral.rb:398-413 | appending the children keeps the arena sound and closed, each on the given cache |
| Referrals.InfoSound | dnstraverse/lib/dnstraverse/referral.rb:261-283 | in a sound arena every child list is non-empty and every calculated child's stats sum to 1 |
| Referrals.NoGlueResolvesToItsKey | dnstraverse/lib/dnstraverse/referral.rb:199-207 | a glueless server resolves to exactly one placeholder address, carrying all the weight |
| Referrals.CombinedSound | dnstraverse/lib/dnstraverse/referral.rb:210 | combining calculated children at weight 1 gives stats that sum to 1 |
| Referrals.WeightsSound | dnstraverse/lib/dnstraverse/referral.rb:213-229 | resolution stats summing to 1 give a non-empty address list whose weights sum to 1 |
| Referrals.ResolutionSound | dnstraverse/lib/dnstraverse/referral.rb:195-231 | `resolve_calculate` keeps a sound node sound |
| Referrals.AnswerSound | dnstraverse/lib/dnstraverse/referral.rb:248-288 | a sound node's answer sums to 1 |
| Referrals.SwappedSpec | dnstraverse/lib/dnstraverse/referral.rb:426-430 | `replace_child` keeps every key and the length and order of every list, puts the new child exactly where the old one was, and leaves no old one behind |
| Referrals.Cleaned | dnstraverse/lib/dnstraverse/referral.rb:139-150 | `cleanup` keeps the stats, the resolution, the flags and the addresses |
| Referrals.PutChildrenSound | dnstraverse/lib/dnstraverse/referral.rb:385-389 | storing a non-empty child list keeps a node sound |
| Referrals.PutResponseSound | dnstraverse/lib/dnstraverse/referral.rb:381 | storing a response with its answers keeps a node sound |
| Referrals.NormalSkip | dnstraverse/lib/dnstraverse/referral.rb:369 | a placeholder address changes nothing |
| Referrals.NormalStep | dnstraverse/lib/dnstraverse/referral.rb:375-394 | one queried address stores its response and, for a restart or referral, its child list, and nothing else |
| Referrals.MarkedKeeps | dnstraverse/lib/dnstraverse/referral.rb:323 | marking the node processed keeps what processing did |
| Referrals.ProcessKeepsCalculation | dnstraverse/lib/dnstraverse/referral.rb:312-325 | processing leaves the node's calculation alone |
| Referrals.NewReferral | dnstraverse/lib/dnstraverse/referral.rb:85-125 | a new child node is the spawned node, weights set by the constructor loop |
| Referrals.Tree.constructor | dnstraverse/lib/dnstraverse/referral.rb:85-125 | the root-root node with class IN, type A, address type A and depth 10 by default, on a fresh cache holding the root hints |
| Referrals.Tree.SpawnAll | dnstraverse/lib/dnstraverse/referral.rb:398-413 | appends one child per starter, numbered in order, and returns their ids |
| Referrals.Tree.AddResolves | dnstraverse/lib/dnstraverse/referral.rb:176-192 | appends the resolve children, numbered `<refid>.0.k`, to the node's resolve list |
| Referrals.Tree.Resolve | dnstraverse/lib/dnstraverse/referral.rb:168-193 | an error once resolved; nothing for a glueless server; otherwise one class-IN child per start server of the server name, asking for `nsatype` within the new bailiwick, numbered `<refid>.0.1`, `<refid>.0.2`, ...; an error exactly when the cache has no NS set |
| Referrals.Tree.ResolveCalculate | dnstraverse/lib/dnstraverse/referral.rb:195-231 | the node gains the resolution stats, the weights they give and those weights' keys as addresses; nothing else changes |
| Referrals.Tree.AnswerCalculate | dnstraverse/lib/dnstraverse/referral.rb:248-288 | the node gains its stats, which sum to 1, and the calculated flag; nothing else changes |
| Referrals.Tree.ReplaceChild | dnstraverse/lib/dnstraverse/referral.rb:426-430 | every child list of the node is swapped, and nothing else changes |
| Referrals.Tree.Cleanup | dnstraverse/lib/dnstraverse/referral.rb:139-150 | the parts not asked for are dropped from the node, and nothing else changes |
| Referrals.Tree.MakeReferrals | dnstraverse/lib/dnstraverse/referral.rb:398-413 | one child per start server of the response, asking for the end name within the new bailiwick on the response's cache from the referring address, numbered `<refid>.1`, `<refid>.2`, ... |
| Referrals.Tree.QueryIp | dnstraverse/lib/dnstraverse/referral.rb:370-379 | the response is made on a fresh child of the node's cache; at the depth limit it comes from the max-depth error (or the memo); a restart or referral has usable starters |
| Referrals.Tree.StoreResponse | dnstraverse/lib/dnstraverse/referral.rb:381-394 | the response is stored under the address; only a restart or referral spawns its children under the address; lame referrals are terminal |
| Referrals.Tree.NormalAddress | dnstraverse/lib/dnstraverse/referral.rb:368-394 | one turn of `process_normal`'s loop keeps the loop invariant |
| Referrals.Tree.ProcessNormal | dnstraverse/lib/dnstraverse/referral.rb:357-396 | every non-placeholder address is queried in turn, its response stored and, for a restart or referral, its children spawned; nodes before it are unchanged |
| Referrals.Tree.ProcessAddRoots | dnstraverse/lib/dnstraverse/referral.rb:327-340 | the roots of the root zone become the children under `:rootroot`, numbered after the refid (no dot when it is empty), asking the node's own query |
| Referrals.Tree.ProcessBranch | dnstraverse/lib/dnstraverse/referral.rb:315-320 | a node with a server is processed normally; the root-root node adds the roots |
| Referrals.Tree.ProcessResolved | dnstraverse/lib/dnstraverse/referral.rb:315-324 | the node is marked processed and every child it has is returned, list after list |
| Referrals.Tree.Process | dnstraverse/lib/dnstraverse/referral.rb:312-325 | an error once processed or while not resolved; otherwise processed and all its children returned |
| Traversers.DowncaseBang | lib/dnstraverse/traverser.rb:163 | `downcase!` gives nil exactly when the text is already lower case, and the lower-cased text otherwise |
| Traversers.FastKeyAsWrittenCollides | lib/dnstraverse/traverser.rb:163 | with `downcase!`, any two nodes whose key texts are already lower case share the key nil, however different they are |
| Traversers.FastKey | lib/dnstraverse/traverser.rb:163 | the intended memo key is lower case |
| Traversers.FastKeySeparates | lib/dnstraverse/traverser.rb:163 | two nodes share the intended memo key exactly when their key texts agree but for case |
| Traversers.SeenAsWrittenForgets | lib/dnstraverse/traverser.rb:167-171 | as written, a server name with capitals already seen in lower case keeps only the new addresses, while the intended update keeps the old ones as well |
| Traversers.SeenUpdate | lib/dnstraverse/traverser.rb:167-171 | the lower-cased server name is added as a key, other entries are unchanged, its list holds exactly the old and new addresses, each once |
| Traversers.SeenUpdateKeeps | lib/dnstraverse/traverser.rb:167-171 | the update keeps every key lower case and every list free of repeats, and the addresses already listed keep their places |
| Traversers.DropTop | lib/dnstraverse/traverser.rb:185-189 | popping a node without expanding it keeps the stack well formed and loses no node once that node counts as dropped |
| Traversers.SkipMemoised | lib/dnstraverse/traverser.rb:185-189 | a memo hit swaps the node for the memoised one in its parent's child lists and pops it; a node without a parent makes the walk fail and leaves the tree unchanged |
| Traversers.Traverser.constructor | lib/dnstraverse/traverser.rb:36-47 | the traverser starts with the given fast flag and an empty memo and `@seen` table |
| Traversers.Traverser.ServersEncountered | lib/dnstraverse/traverser.rb:300-302 | every server name returned is lower case and lists each address once |
| Traversers.Traverser.Answer | lib/dnstraverse/traverser.rb:155-173 | the node under the marker is calculated and popped; in fast mode a normal node with no lame referral is remembered under its key; its addresses join `@seen` under its server name; the memo only holds calculated nodes |
| Traversers.Traverser.Remember | lib/dnstraverse/traverser.rb:159-166 | the memo gains the node under its key exactly when fast mode is on, the node is normal and no response of it is a lame referral |
| Traversers.Traverser.Record | lib/dnstraverse/traverser.rb:167-171 | `@seen` becomes the intended update for a node with a server and stays as it was otherwise |
| Traversers.Traverser.Visit | lib/dnstraverse/traverser.rb:176-200 | in fast mode a memo hit on a node that is neither no-glue nor a loop pops it without expanding it; otherwise the node is expanded; the stack stays well formed and no node is lost |
| Traversers.Traverser.Hit | lib/dnstraverse/traverser.rb:185-189 | a memo hit pops the node, which has a parent and counts as dropped, with the stack still well formed |
| Traversers.Traverser.Expand | lib/dnstraverse/traverser.rb:193-228 | an unresolved node is resolved and a resolved one processed, with the stack kept well formed; a node already processed makes the walk fail |
| Traversers.Traverser.Step | lib/dnstraverse/traverser.rb:146-228 | one turn of the loop keeps the stack well formed, loses no node, keeps calculated nodes calculated and leaves the memo alone unless fast mode is on |
| Traversers.Traverser.Run | lib/dnstraverse/traverser.rb:129-230 | a walk that succeeds leaves the root calculated, or in fast mode swapped for a memoised node, and a calculated root's answer probabilities sum to one; a stack deeper than 1000 is an error |
| DnstraverseTraversers.Pushed | dnstraverse/lib/dnstraverse/traverser.rb:152 | pushing the reversed list puts exactly the listed nodes on the stack, one item each |
| DnstraverseTraversers.StackKept | dnstraverse/lib/dnstraverse/traverser.rb:123-177 | changes to the tree that keep calculated nodes calculated and processed nodes processed keep the stack well formed |
| DnstraverseTraversers.PostOrder | dnstraverse/lib/dnstraverse/traverser.rb:132-134 | when a `:calc_answer` marker is on top of a well-formed stack, the node beneath it is processed and each of its children is calculated or was dropped by a memo hit |
| DnstraverseTraversers.PushResolve | dnstraverse/lib/dnstraverse/traverser.rb:149-153 | pushing a node, its `:calc_resolve` marker and its resolve children keeps the stack well formed |
| DnstraverseTraversers.PushAnswer | dnstraverse/lib/dnstraverse/traverser.rb:155-177 | pushing a processed node, its `:calc_answer` marker and every child not yet calculated keeps the stack well formed |
| DnstraverseTraversers.PopResolve | dnstraverse/lib/dnstraverse/traverser.rb:124-131 | popping a `:calc_resolve` marker leaves its node on top of a well-formed stack, with no node lost |
| DnstraverseTraversers.PopAnswer | dnstraverse/lib/dnstraverse/traverser.rb:132-143 | popping a `:calc_answer` marker and its node once the node is calculated keeps the stack well formed and loses no node |
| DnstraverseTraversers.PopDone | dnstraverse/lib/dnstraverse/traverser.rb:132-143 | the same, for a tree that has not changed |
| DnstraverseTraversers.Unmemoised | dnstraverse/lib/dnstraverse/traverser.rb:159-175 | the children still to walk are exactly the children with no memo entry |
| DnstraverseTraversers.SwappedChildren | dnstraverse/lib/dnstraverse/referral.rb:426-430 | after `replace_child(before, after)` every child is `after` or a former child other than `before` |
| DnstraverseTraversers.SwappingDone | dnstraverse/lib/dnstraverse/traverser.rb:159-175 | after the fast-mode pass, the node's child lists have every memoised child swapped, the kept children are the unmemoised ones, and every child is calculated or kept |
| DnstraverseTraversers.SwapMemoised | dnstraverse/lib/dnstraverse/traverser.rb:159-175 | the pass changes only the node's child lists, keeps in order exactly the children with no memo entry, and leaves every child calculated or kept |
| DnstraverseTraversers.MemoKept | dnstraverse/lib/dnstraverse/traverser.rb:139-142 | memoised nodes stay calculated while the tree changes in the allowed ways |
| DnstraverseTraversers.CalcResolveStep | dnstraverse/lib/dnstraverse/traverser.rb:124-131 | the node under the marker gets the resolution `resolve_calculate` gives and is left on top, with the stack well formed |
| DnstraverseTraversers.CalcAnswerStep | dnstraverse/lib/dnstraverse/traverser.rb:132-138 | the node under the marker gets the answer `answer_calculate` gives, is cleaned up keeping the chosen parts, and is popped with its marker; its probabilities sum to one |
| DnstraverseTraversers.ExpandResolve | dnstraverse/lib/dnstraverse/traverser.rb:149-153 | an unresolved node is pushed back with its marker and the resolve children `resolve` made, in order; a no-glue node gets no new children; the stack stays well formed |
| DnstraverseTraversers.ProcessStep | dnstraverse/lib/dnstraverse/referral.rb:312-325 | among the existing nodes only the processed node changes; it is processed afterwards and its children are the ones handed back |
| DnstraverseTraversers.ProcessChildren | dnstraverse/lib/dnstraverse/traverser.rb:155-175 | after processing, every child is calculated or still to walk; without fast mode the children to walk are all of them, and with it none has a memo entry |
| DnstraverseTraversers.ExpandProcess | dnstraverse/lib/dnstraverse/traverser.rb:155-177 | a resolved node is pushed back with `:calc_answer` and the children to walk; without fast mode these are all its children, in order; the stack stays well formed |
| DnstraverseTraversers.Traverser.constructor | dnstraverse/lib/dnstraverse/traverser.rb:21-31 | the traverser starts with the given fast flag and an empty memo |
| DnstraverseTraversers.Traverser.Answer | dnstraverse/lib/dnstraverse/traverser.rb:132-143 | the node under the marker is calculated and popped, and in fast mode remembered under its key |
| DnstraverseTraversers.Traverser.Visit | dnstraverse/lib/dnstraverse/traverser.rb:144-179 | an unresolved node is resolved and an unprocessed one processed; a node that is both fails with the fatal stack error |
| DnstraverseTraversers.Traverser.Step | dnstraverse/lib/dnstraverse/traverser.rb:120-179 | one turn of the loop keeps the stack well formed, loses no node, keeps calculated nodes calculated and the memo's nodes calculated |
| DnstraverseTraversers.Traverser.Run | dnstraverse/lib/dnstraverse/traverser.rb:104-181 | a walk that succeeds leaves the root calculated with answer probabilities summing to one; a stack deeper than 1000 is an error |
| DnscheckLibTraversers.CleanupCannotBeDisabled | dnscheck/lib/dnstraverse/traverser.rb:103 | as written the cleanup switch is on whatever argument is passed, including `false` |
| DnscheckLibTraversers.CleanupFlag | dnscheck/lib/dnstraverse/traverser.rb:103 | the intended switch is on exactly when `false` was not passed |
| DnscheckLibTraversers.KeepParts | dnscheck/lib/dnstraverse/traverser.rb:135 | cleaning keeps no parts, and not cleaning keeps every part |
| DnscheckLibTraversers.KeepAllKeepsNode | dnscheck/lib/dnstraverse/traverser.rb:135 | with cleaning off a node stays as it was |
| DnscheckLibTraversers.Step | dnscheck/lib/dnstraverse/traverser.rb:118-157 | one turn keeps the stack well formed and loses no node; a node already resolved and processed fails with the fatal stack error |
| DnscheckLibTraversers.Run | dnscheck/lib/dnstraverse/traverser.rb:101-158 | a walk that succeeds leaves the root calculated with answer probabilities summing to one; a stack deeper than 100 is an error |
| SummaryStats.AddToTotal | lib/dnstraverse/summary_stats.rb:115-116 | adding `p` to a bucket raises the total of the buckets by `p` |
| SummaryStats.AddToKeys | lib/dnstraverse/summary_stats.rb:115 | adding to a bucket creates it when it is missing, and no status gets two buckets |
| SummaryStats.AddToLookup | lib/dnstraverse/summary_stats.rb:115-116 | adding to a bucket raises that bucket by `p` and leaves every other bucket as it was |
| SummaryStats.SummaryKeys | lib/dnstraverse/summary_stats.rb:110-119 | there is a bucket for exactly the statuses present in the stats, each once |
| SummaryStats.SummaryMass | lib/dnstraverse/summary_stats.rb:110-119 | each bucket holds the total probability of the entries with its status |
| SummaryStats.SummaryTotal | lib/dnstraverse/summary_stats.rb:110-119 | the buckets together hold the total probability of the stats |
| SummaryStats.SummaryOfCalculatedRoot | lib/dnstraverse/summary_stats.rb:14-15 | for stats that sum to one the buckets sum to one |
| SummaryStats.Rdatas | lib/dnstraverse/summary_stats.rb:126 | the record data of the answers, one per record and in order |
| SummaryStats.GroupKeyIgnoresOrder | lib/dnstraverse/summary_stats.rb:126 | answers holding the same record data in any order get the same group key |
| SummaryStats.AnswerTotal | lib/dnstraverse/summary_stats.rb:121-132 | the answer groups together hold exactly the probability of the answered entries |
| SummaryStats.AnswersMatchSummary | lib/dnstraverse/summary_stats.rb:45-46 | the answer groups add up to the `answered` bucket of the summary |
| SummaryStats.AddAnswerDistinct | lib/dnstraverse/summary_stats.rb:127 | adding an entry gives no key two groups |
| SummaryStats.AddAnswerLookup | lib/dnstraverse/summary_stats.rb:125-128 | an answered entry creates its group when missing, holding its records; a group already there keeps its records |
| SummaryStats.AnswerDistinct | lib/dnstraverse/summary_stats.rb:121-132 | no group key occurs twice |
| SummaryStats.AnswerGroup | lib/dnstraverse/summary_stats.rb:121-132 | there is a group for exactly the keys of answered entries, holding the records of the first entry with that key |
| SummaryStats.AnsweredHasGroup | lib/dnstraverse/summary_stats.rb:125-127 | every answered entry's key has a group |
| SummaryStats.GroupLines | lib/dnstraverse/summary_stats.rb:75-80 | one answer line per group, in order, with the group's probability and records |
| SummaryStats.Text | lib/dnstraverse/summary_stats.rb:69-107 | the report is the answer lines of the first pass over the buckets followed by the category lines of the second |
| SummaryStats.FirstPassOnce | lib/dnstraverse/summary_stats.rb:73-82 | the first pass gives the answer groups once when there is an `answered` bucket, and nothing otherwise |
| SummaryStats.SecondPassLines | lib/dnstraverse/summary_stats.rb:83-105 | the second pass holds only category lines, one with the fixed phrase for each bucket other than `answered` |
| SummaryStats.TextOrder | lib/dnstraverse/summary_stats.rb:69-107 | every answer line comes before every category line, the groups come first once when anything was answered, and every other bucket has its line |
| DnscheckLibReferrals.SpawnDepth | dnscheck/lib/dnstraverse/referral.rb:394-406 | one child per start server, each numbered one level below the prefix, so that the depth guard is reached after `maxdepth` generations |
| DnscheckLibReferrals.GluelessImpliesAsWritten | dnscheck/lib/dnstraverse/referral.rb:106 | every server name strictly inside the bailiwick also passes the no-glue pattern as written |
| DnscheckLibReferrals.GluelessAsWrittenOutsideZone | dnscheck/lib/dnstraverse/referral.rb:106 | the pattern as written takes `telecom` for a name inside `com`, which the intended test does not |
| DnscheckLibReferrals.RepeatTotal | dnscheck/lib/dnstraverse/referral.rb:150-155 | giving each of `n` addresses the whole of `p` adds `n` times `p` to the weights |
| DnscheckLibReferrals.NoSplitWeightsTotal | dnscheck/lib/dnstraverse/referral.rb:147-161 | the weights as written sum to the probability of each entry counted once per answer address |
| DnscheckLibReferrals.NoSplitOverweights | dnscheck/lib/dnstraverse/referral.rb:147-161 | a server resolved with certainty to two addresses gets weights summing to 2 as written, and to 1 when split |
| DnscheckLibReferrals.NotDoneIsReferral | dnscheck/lib/dnstraverse/referral.rb:313-322 | a message `done?` calls not done has rcode NOERROR, no answer for the name its CNAME chain ends at, no SOA and at least one NS record |
| DnscheckLibReferrals.Calc | dnscheck/lib/dnstraverse/referral.rb:249 | one statistics entry per child, in order |
| DnscheckLibReferrals.AddressInfoAgreesWithDone | dnscheck/lib/dnstraverse/referral.rb:211-249 | on a message echoing the node's question, an address ends in a terminal outcome of a status exactly when `done?` says that status; when it is not done, a lame verdict gives a lame outcome and children give their combined statistics |
| DnscheckLibReferrals.ExamineReply | dnscheck/lib/dnstraverse/referral.rb:356-390 | handling one reply does what the reply-examination definition says: exceptions and non-NOERROR replies kept, the enriched cache copied, and children or a lame verdict for a referral |
| DnscheckLibReferrals.Delegation | dnscheck/lib/dnstraverse/referral.rb:366-390 | the children of a referral are the ones the delegation definition gives from the enriched cache |
| DnscheckLibReferrals.LameIffNamesDiffer | dnscheck/lib/dnstraverse/referral.rb:382-390 | a referral is lame exactly when its start server names, counted with repeats, are not the NS target names of the reply |
| DnscheckLibReferrals.SpawnedChildren | dnscheck/lib/dnstraverse/referral.rb:385-387 | every child of a referral asks the node's question type for the name the CNAME chain ended at, reads the enriched cache and sits one level deeper; there is at least one |
| DnscheckLibReferrals.KidsOnlyFromReferrals | dnscheck/lib/dnstraverse/referral.rb:350-390 | children or a lame verdict come only from a valid NOERROR reply that is not done, asked within the depth limit |
| DnscheckLibReferrals.VisitKidsNonEmpty | dnscheck/lib/dnstraverse/referral.rb:385-387 | a child list recorded for an address is never empty |
| DnscheckLibReferrals.TooDeepAsksNothing | dnscheck/lib/dnstraverse/referral.rb:352-355 | past the depth limit no query is sent: the address gets the max-depth error and nothing else |
| DnscheckLibReferrals.VisitAllNext | dnscheck/lib/dnstraverse/referral.rb:350-351 | the address loop extends by one address: placeholders are skipped, an earlier error stays, a visit that fails ends the loop and one that succeeds is entered |
| DnscheckLibReferrals.VisitAllStopsAtError | dnscheck/lib/dnstraverse/referral.rb:350-391 | once the loop has failed, the remaining addresses change nothing |
| DnscheckLibReferrals.PutSpawnedNonEmpty | dnscheck/lib/dnstraverse/referral.rb:385 | assigning a non-empty child list keeps every child list non-empty |
| DnscheckLibReferrals.CalcSound | dnscheck/lib/dnstraverse/referral.rb:166-179 | when every child is calculated, there is one statistics entry per child, each summing to 1 and well formed |
| DnscheckLibReferrals.AddressInfoSound | dnscheck/lib/dnstraverse/referral.rb:242-250 | an address with children has at least one, and each calculated child's statistics sum to 1 |
| DnscheckLibReferrals.NodeCache | dnscheck/lib/dnstraverse/referral.rb:53-75 | the node's cache is the one given (else a new empty one), with the root hints added as one replacing `add` when roots are given |
| DnscheckLibReferrals.Referral.constructor | dnscheck/lib/dnstraverse/referral.rb:47-82 | the defaults (class IN, type A, address type A, refid "", depth limit 10), a fresh cache unless one is given, root hints added when given, and weight 1/n for each of n given addresses |
| DnscheckLibReferrals.Referral.Resolve | dnscheck/lib/dnstraverse/referral.rb:104-130 | a resolved node is refused; a glueless server is marked with no children; otherwise one resolution child per start server of the server name, numbered `<refid>.0.k`, is appended, and a missing start server is an error |
| DnscheckLibReferrals.Referral.ResolveCalculate | dnscheck/lib/dnstraverse/referral.rb:132-164 | the resolution statistics sum to 1, the address weights split them and sum to 1, and the addresses become the weights' keys; an uncalculated child is an error that changes nothing |
| DnscheckLibReferrals.Referral.AnswerCalculate | dnscheck/lib/dnstraverse/referral.rb:181-255 | the answer statistics are the ones the answer definition gives and sum to 1; a failure leaves them as they were |
| DnscheckLibReferrals.Referral.InfoConserves | dnscheck/lib/dnstraverse/referral.rb:193-250 | for a sound node every child list an address uses is non-empty and each child's statistics sum to 1 |
| DnscheckLibReferrals.Referral.VisitAddress | dnscheck/lib/dnstraverse/referral.rb:350-442 | one address's visit is the visit definition applied to it, with the resolver's buffer size restored |
| DnscheckLibReferrals.Referral.ProcessNormal | dnscheck/lib/dnstraverse/referral.rb:340-392 | every non-placeholder address is visited in order and its results assigned under it; a node without addresses or a visit that fails is an error |
| DnscheckLibReferrals.Referral.Record | dnscheck/lib/dnstraverse/referral.rb:356-390 | one visit's reply, cache, out-of-bailiwick records, children and warnings are entered under its address |
| DnscheckLibReferrals.Referral.ProcessAddRoots | dnscheck/lib/dnstraverse/referral.rb:289-301 | one child per root server known to the cache, numbered from 1 under the node's refid, asking the node's question with the node's cache; an error when no root is known |
| DnscheckLibReferrals.Referral.Process | dnscheck/lib/dnstraverse/referral.rb:275-287 | a processed or unresolved node is refused without change; the root-root node adds the roots, any other node visits its addresses; the result is every child made, in order |
| DnscheckReferrals.OldVisitQueriesAlways | dnscheck/referral.rb:323-345 | every address is queried at the default buffer size however deep the node, no warning is kept, and any children recorded are a non-empty list, never a lame verdict |
| DnscheckReferrals.ExceptionReplyFailsAsWritten | dnscheck/referral.rb:193-204 | as written an address whose reply is an exception makes the calculation fail, while reading the exception first enters an exception outcome at the address's weight |
| DnscheckReferrals.OldInfoAgreesOnMessages | dnscheck/referral.rb:193-214 | on a reply that is a message, the two orders of reading agree |
| DnscheckReferrals.PlaceholderSquaredAsWritten | dnscheck/referral.rb:180-189 | as written, a failed resolution of probability p between 0 and 1, weighted p, contributes p squared, less than its weight; entered once it contributes p |
| DnscheckReferrals.OldInfoSound | dnscheck/referral.rb:216-224 | an address with children has at least one, and each calculated child's statistics sum to 1 |
| DnscheckReferrals.FixedWeightIsShare | dnscheck/referral.rb:180 | without a resolution each of the n listed addresses weighs 1/n |
| DnscheckReferrals.Referral.constructor | dnscheck/referral.rb:35-63 | the defaults (class IN, type A, address type A, refid ""), a fresh cache unless one is given, root hints added when given, and no weights |
| DnscheckReferrals.Referral.Resolve | dnscheck/referral.rb:90-116 | a resolved node is refused; a glueless server is marked with no children; otherwise one resolution child per start server of the server name is appended |
| DnscheckReferrals.Referral.ResolveCalculate | dnscheck/referral.rb:118-149 | the resolution statistics sum to 1, the address weights split them and sum to 1, and the addresses become the weights' keys; an uncalculated child is an error that changes nothing |
| DnscheckReferrals.Referral.InfoConserves | dnscheck/referral.rb:178-224 | for a sound node every child list an address uses is non-empty and each child's statistics sum to 1 |
| DnscheckReferrals.Referral.AnswerCalculate | dnscheck/referral.rb:166-229 | the answer statistics are the ones the answer definition gives and sum to 1; a failure leaves them as they were |
| DnscheckReferrals.Referral.VisitAddress | dnscheck/referral.rb:361-377 | one address's visit is the old visit definition applied to it, and the resolver is left at the default buffer size |
| DnscheckReferrals.Referral.Record | dnscheck/referral.rb:325-343 | one visit's reply, cache, out-of-bailiwick records and children are entered under its address |
| DnscheckReferrals.Referral.ProcessNormal | dnscheck/referral.rb:313-345 | every non-placeholder address is visited in order and its results assigned under it; a node without addresses or a visit that fails is an error |
| DnscheckReferrals.Referral.ProcessAddRoots | dnscheck/referral.rb:262-274 | one child per root server known to the cache, numbered from 1 under the node's refid; an error when no root is known |
| DnscheckReferrals.Referral.Process | dnscheck/referral.rb:249-260 | a processed or unresolved node is refused without change; the root-root node adds the roots, any other node visits its addresses; the result is every child made, in order |
| Sorting.Sort | dnstraverse/lib/dnstraverse/response.rb:61 | Ruby's string `sort` gives a list in ascending order holding the same strings the same number of times |
| Sorting.SortAlikeIffSameStrings | dnscheck/lib/dnstraverse/referral.rb:384 | comparing two sorted name lists for equality compares the name multisets: the sorted lists agree exactly when the names agree, counted with repeats |
| Lists.Uniq | lib/dnstraverse/traverser.rb:170 | `uniq!` leaves each element once, and exactly the elements that were there |
| Lists.UniqAppend | lib/dnstraverse/traverser.rb:169-170 | appending to a list and removing repeats keeps what the earlier list gave as a prefix |
| Lists.UniqOfNoDups | lib/dnstraverse/traverser.rb:170 | a list without repeats is left as it is |

## Left out

- The wire transport (the caching resolver subclasses, `send_async` and its thread queue) is left out. It is the transport function parameter. The resolver's `nameserver` is the address each query is given, and `udp_size` is a field of the `Resolver` value.
- Logging, `msg_comment`, `to_s`, `txt_ips`, `txt_ips_verbose`, `stats_display`, `showstats` and `txt_prob` are left out. They are output formatting and have no effect on the walk. Where the newest traverser builds its memo key from `txt_ips_verbose`, that text is a parameter of the traverser.
- Traverser `initialize` wiring, `get_a_root`, `find_all_roots`, `run_query` and the `report_progress` / progress callbacks are left out. They are network queries and user-interface hooks. The traversers take the tree and the root node as given.
- The fingerprint subsystem is left out. It is a separate tool that sends live probes.
- `dnscheck/info_cache.rb` is left out because it is an unfinished draft: its `get_ns?` calls an undefined method. The oldest `Referral` is modelled over the `dnscheck/lib` cache, which has the same interface.
- `check_loop?` is left out. It is unreachable, and it calls `exit`.
- `Response#method_missing` forwarding is replaced by explicit fields.
- The `:loop` status of the newest traverser comes from the newest `Referral`, which is not part of this model. The nodes it would mark are a set given to the traverser.
- SummaryStats.Phrase: has no phrase for `:cname_loop`. No outcome in this model has that status: a CNAME chain that never ends is an error here (see MessageUtility.FollowCnames).
- The `:secure` argument of the `Referral`s is left out. Because of `|| true` it is always true, so only in-bailiwick records are ever added to a cache.
- The exception-suffix branch of the newest response's statistics key is left out. It tests `@stats`, which is never assigned, so it cannot run.
- The oldest `process_normal_makequery` rescues only timeouts and reports a nil reply as a timeout. The model treats every failure of the transport as an exception reply.
- The refkey text of the middle `Referral`, its `summary_stats` method and its `:parent` object link are left out. The parent is kept as an arena index.
- Floating point is left out. Probabilities are exact reals, so the equality assertion of `answer_calculate` on a `key:` entry holds exactly.
- Traversers.Traverser.Run: the loop takes a `fuel` bound on the number of steps and fails with "step limit reached" when it runs out. The source has no such bound.
- DnstraverseTraversers.Traverser.Run: the same `fuel` bound.
- DnscheckLibTraversers.Run: the same `fuel` bound.
- MessageUtility.FollowCnames: the CNAME chase stops after one step more than there are answer records. `MessageUtility.EndName` is the result at that bound, and `MessageUtility.EndNameNoneDiverges` proves that when it finds nothing the source loop never returns. A node whose chain never ends therefore fails with an error, where the source hangs.
- DnscheckLibReferrals.Referral.ResolveCalculate: follows the corrected weights (split over an answer's addresses), not the loop as written. `DnscheckLibReferrals.NoSplitWeights` keeps the loop as written (see Findings).
- DnscheckReferrals.Referral.ResolveCalculate: the same corrected weights.
- DnscheckReferrals.Referral.AnswerCalculate: reads an exception reply before the stored message's question, and enters a `key:` placeholder once at its weight. `DnscheckReferrals.OldInfo` with `asWritten` and `DnscheckReferrals.AnswerStatsAsWritten` keep the code as written (see Findings).
- DnscheckLibReferrals.Referral.Resolve: uses the intended no-glue test, not the regex. `DnscheckLibReferrals.GluelessAsWritten` keeps the regex (see Findings).
- DnscheckReferrals.Referral.Resolve: the same intended no-glue test.
- Traversers.Traverser.Answer: memoises under the intended lower-cased key and updates `@seen` under the lower-cased name (see Findings).
- Referrals.Tree.AnswerCalculate: adds a terminal outcome's weight to an entry already under its key rather than overwriting it (see Findings).
- DecodedQueries.Process: uses the corrected `process_error` messages. As written, a reply inside the bailiwick whose code is not FORMERR, SERVFAIL or NXDOMAIN raises `NameError`, so `DecodedQuery.new` fails. `DecodedQueries.ErrorMessageAsWritten` keeps the code as written (see Findings). It also decides the bailiwick with the intended suffix test, not the unescaped regex of dnstraverse/lib/dnstraverse/decoded_query.rb:116, which also accepts names such as "ns.myexample.com" for the bailiwick "example.com" (see Findings). Such a name is classified a restart here and inside the bailiwick in the source.
- DecodedQueries.ProcessClassifies: holds of the corrected classifier of `DecodedQueries.Process`. As written, `error` is raised as `NameError` for codes other than FORMERR, SERVFAIL and NXDOMAIN, and `restart` follows the regex, not the intended test.
- DecodedQueries.ClassifiedShape: the `error` shape it gives for NOTIMP, REFUSED and other codes is the corrected one; as written these raise `NameError`.
- DnscheckLibResponses.Process: the same corrected `process_error` messages (dnscheck/lib/dnstraverse/response.rb:90-93 has the same undefined constants) and the same intended bailiwick test in place of the regex. Its restart and referral steps also take their start servers with `DnscheckLibInfoCaches.InfoCache.GetStartServers`, which `DNSCheck::InfoCache` does not have (see `DnscheckLibResponses.New`).
- DnscheckLibResponses.New: builds its cache as a copying `DnscheckLibInfoCaches.InfoCache` and gives a restart or a referral the start servers that `DnscheckLibInfoCaches.InfoCache.GetStartServers` returns. As written it cannot do so. dnscheck/lib/dnstraverse/response.rb:27 names `InfoCache` inside `module DNSTraverse`, while the only cache class in `dnscheck/lib` is `DNSCheck::InfoCache` (dnscheck/lib/dnstraverse/info_cache.rb:3-4). That class has no `get_startservers`, which is a method of the `dnscheck/lib` `Referral` (dnscheck/lib/dnstraverse/referral.rb:84-101). With the `dnscheck/lib` files alone, `new` therefore raises `NameError` at line 27. With a cache class that resolves there but lacks the method, it raises `NoMethodError` at line 78 or 112 for every restart and every referral. The model returns `Ok` with the starters instead. If the newer `DNSTraverse::InfoCache` (lib/dnstraverse/info_cache.rb:18-19) is loaded, the name at line 27 resolves to it, and its `get_startservers(domain, nsatype = 'A')` (line 88) fits the calls. That cache is parent-chained, not copied. The model keeps the copying cache of the `dnscheck/lib` files.
- DnscheckLibResponses.Respond: the same swap: the start servers of a restart or referral come from `DnscheckLibInfoCaches.InfoCache.GetStartServers` on the copied cache, where the source as written raises.
- DnscheckLibInfoCaches.InfoCache.GetStartServers: is the `dnscheck/lib` `Referral`'s `get_startservers` (dnscheck/lib/dnstraverse/referral.rb:84-101) run on the cache's map. `DNSCheck::InfoCache` itself defines no such method. It is put on the cache so that the `Referral` and the `Response` of `dnscheck/lib` share one definition, and the `Response` can call it the way response.rb:78 and response.rb:112 do.
- MessageUtility.CacheableRecords: splits the records with the intended bailiwick test. The source's `/#{bwend}$/i` (dnscheck/message_utility.rb:151-152) leaves the dots of the bailiwick unescaped, so it also counts "ns.myexample.com" as good for "example.com"; `Names.AsWrittenAcceptsSiblingZone` shows this and `Names.InsideImpliesAsWritten` shows that the regex accepts every name the intended test does.
- MessageUtility.CacheableGood: the good records under the intended test; as written the list also holds records the regex wrongly accepts.
- MessageUtility.CacheableBad: the complement of the intended test; as written the records the regex wrongly accepts are not in it.
- Referrals.InsideBailiwickOf: the intended suffix test, not the regex of dnstraverse/lib/dnstraverse/referral.rb:157.
- Referrals.Glueless: built on `Referrals.InsideBailiwickOf`, so a server such as "ns.myexample.com" under the bailiwick "example.com" is not glueless here, where the source calls it glueless and never resolves it.
- Referrals.Tree.Resolve: decides glueless with `Referrals.Glueless`, so it resolves the servers that the regex as written would skip.
- Responses.NotDeeper: the intended test, "." + the old bailiwick as a literal suffix. The source's `/\.#{bailiwick}$/` (lib/dnstraverse/response.rb:94) leaves the dots of the bailiwick unescaped; `Responses.LameTestAsWritten` keeps it (see Findings).
- Responses.EvaluatedStatus: judges lameness with `Responses.NotDeeper`, not the regex as written.
- Responses.NonLameReferralDescends: holds of the intended test only. Under the regex as written a referral that is not lame need not lie inside the old bailiwick (`Responses.NotLameAsWrittenOutsideZone`).
- DnscheckLibTraversers.Run: walks the middle `Referrals.Tree` in place of the `dnscheck/lib` `Referral`, which is what the source's `require 'dnstraverse/referral'` loads there. That `Referral` has no `cleanup` and no `method_missing`, and `cleanup` is always true (traverser.rb:103), so in the source `r.cleanup if cleanup` (traverser.rb:135) raises `NoMethodError` at the first `:calc_answer` and no run succeeds. The model states what the run does with a node that can be cleaned (see Findings).
- DnscheckLibTraversers.Step: the same substitution: its `:calc_answer` turn succeeds where the source raises `NoMethodError`.
- DnscheckLibTraversers.KeepParts: describes a `cleanup` that the `dnscheck/lib` `Referral` does not have.
- DnscheckLibTraversers.KeepAllKeepsNode: concerns the middle tree's `cleanup`, for the same reason.
- DnscheckLibReferrals.Referral.AnswerCalculate: adds a terminal outcome's weight to an entry already under its key, where dnscheck/lib/dnstraverse/referral.rb:244 assigns it (see Findings).
- DnscheckReferrals.Referral.AnswerCalculate: adds a terminal outcome's weight to an entry already under its key, where dnscheck/referral.rb:218 assigns it (see Findings).

## Findings

| source | as written | input that shows it | evidently intended | confidence | as-written member | corrected member |
|---|---|---|---|---|---|---|
| dnscheck/lib/dnstraverse/traverser.rb:103 | `cleanup = args[:cleanup] \|\| true` is true whatever is passed | every run reaches `r.cleanup`, which the `dnscheck/lib` `Referral` lacks, so `run(r, :cleanup => false)` raises `NoMethodError` at the first `:calc_answer` like every other run | cleaning off when `false` is passed, so that such a run completes | not executed | DnscheckLibTraversers.CleanupCannotBeDisabled | DnscheckLibTraversers.CleanupFlag |
| lib/dnstraverse/traverser.rb:163 | the memo key is built with `downcase!`, which returns nil when the text is already lower case | a traversal started with the class and type passed in lower case (`:qclass => "in", :qtype => "a"`; the defaults `IN` and `A` are upper case): two different nodes whose names, servers and address texts are also lower case both get key nil, so the second is taken for the first | the lower-cased key text | not executed | Traversers.FastKeyAsWrittenCollides | Traversers.FastKeySeparates |
| lib/dnstraverse/traverser.rb:168 | `@seen` is reset unless `has_key?(r.server)`, but the keys are lower case | a server `NS.Example.NET` already seen as `ns.example.net` loses its earlier addresses | test the lower-cased name | not executed | Traversers.SeenAsWrittenForgets | Traversers.SeenUpdateKeeps |
| dnstraverse/lib/dnstraverse/decoded_query.rb:113-116 | the bailiwick suffix is interpolated into a regex unescaped, so its dots match any character | `telecom` is taken to be inside the bailiwick `com` | equal to the bailiwick, or ending in `.` plus the bailiwick | not executed | Names.AsWrittenAcceptsOutsideName | Names.InsideBailiwickOnSuffixChain |
| dnscheck/lib/dnstraverse/referral.rb:106 | the no-glue test is `/.#{@bailiwick}$/i` | server `telecom` with bailiwick `com` is marked glueless and never resolved | the server lies strictly below the bailiwick | not executed | DnscheckLibReferrals.GluelessAsWrittenOutsideZone | DnscheckLibReferrals.Referral.Resolve |
| dnstraverse/lib/dnstraverse/referral.rb:280-281 | a terminal outcome is assigned under its statistics key, replacing an entry already there | server addresses `[a, a]` whose two visits give the same key: weight 1 in total, stats sum to 0.5 | add the weight to the entry, as `stats_calculate_children` does | not executed | ReferralStats.AnswerStatsAsWrittenLosesMass | ReferralStats.AnswerStatsConserve |
| dnscheck/lib/dnstraverse/referral.rb:147-161 | every answer address receives the entry's whole probability | a server resolved with certainty to two addresses gets weights summing to 2 | split the probability over the addresses, as the later `resolve_calculate` does | not executed | DnscheckLibReferrals.NoSplitOverweights | DnscheckLibReferrals.Referral.ResolveCalculate |
| dnscheck/referral.rb:195-202 | `msg.question[0]` is read before the test `msg.is_a? Exception` | an address whose query raised: the calculation fails instead of recording an exception outcome | test for the exception first | not executed | DnscheckReferrals.ExceptionReplyFailsAsWritten | DnscheckReferrals.Referral.AnswerCalculate |
| dnscheck/referral.rb:181-189 | a `key:` placeholder enters its resolution probability times its weight, which is that same probability | a resolution that failed with probability 0.5 contributes 0.25 | enter the placeholder once at its weight | not executed | DnscheckReferrals.PlaceholderSquaredAsWritten | DnscheckReferrals.Referral.AnswerCalculate |
| dnstraverse/lib/dnstraverse/decoded_query.rb:157-160 | `process_error` tests `when NOTIMP` and `when REFUSED`, constants nothing defines (dnscheck/lib/dnstraverse/response.rb:90-93 has the same) | a REFUSED reply for a name inside the bailiwick: `DecodedQuery.new` raises `NameError` | Dnsruby's `RCode::NOTIMP` and `RCode::REFUSED`, with the texts "Not implemented (NOTIMP)" and "Refused" | not executed | DecodedQueries.RefusedRaisesAsWritten | DecodedQueries.ErrorMessageExtendsAsWritten |
| lib/dnstraverse/response.rb:94 | the lameness regex `/\.#{bailiwick}$/` interpolates the bailiwick unescaped, so its inner dots match any character | a referral from bailiwick `example.com` to the zone `sub.example-com` is not marked lame | the new bailiwick ends in `.` plus the old bailiwick | not executed | Responses.NotLameAsWrittenOutsideZone | Responses.NonLameReferralDescends |
| dnscheck/lib/dnstraverse/referral.rb:244 | a terminal outcome is assigned under its statistics key, replacing an entry already there | server addresses `[a, a]` whose two visits give the same key: weight 1 in total, stats sum to 0.5 | add the weight to the entry | not executed | ReferralStats.AnswerStatsAsWrittenLosesMass | ReferralStats.AnswerStatsConserve |
| dnscheck/referral.rb:218 | a terminal outcome is assigned under its statistics key, replacing an entry already there | server addresses `[a, a]` whose two visits give the same key: weight 1 in total, stats sum to 0.5 | add the weight to the entry | not executed | ReferralStats.AnswerStatsAsWrittenLosesMass | ReferralStats.AnswerStatsConserve |
