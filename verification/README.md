# rdns in Dafny

A model of the hard logic of the rdns DNS server, with proofs about it. Everything is stated over one
name type: a sequence of lowercase labels of 1 to 63 octets with a wire length of at most 255.

The model has five parts.

- **Wire codec.** Names with the shared suffix table and the pointer-following decoder (`Names`), messages
  and records (`Messages`), the codec theorem (`Codec`, `Limits`, `Normal`, `Stable`), the encoder and parser
  as they run, with the length field patched in place (`Wire`), and TSIG (`Tsigs`).
- **DNSSEC.** Signatures over record sets (`Orders`, `Rrsigs`, `Binding`), type bitmaps (`Bitmaps`), NSEC
  (`Lookups`, `Nsecs`), NSEC3 (`Base32`, `Nsec3s`), the chain of trust and the verdict on a response
  (`Trust`, `Verdicts`), and signer against validator (`Denials`, `SignedZones`, `SignedDenials`,
  `SignedAnswers`, `SignedCases`).
- **Zones and replication.** The store and its edits (`Seqs`, `Zones`, `UpdateRuns`, `ZoneServer`, `Load`), full
  transfer end to end over bytes (`Axfr`) and the journal behind incremental transfer (`Journals`).
- **Resolver.** Request merging under every interleaving (`Flights`) and the iterative resolver against
  arbitrary servers (`Recursors`).
- **Bounded resources.** The response cache (`Caches`) and the rate limiter (`Limiter`).

Code that loops or updates fields is a method or a class, proved against a specification function; the laws
are lemmas about those functions. HMAC, signature checks, digests and the NSEC3 hash are function parameters.
All that is ever asked of them, in the `requires` of the lemmas that need it, is that the signature check accepts
what the signer made, that it accepts it on no other data, that an HMAC does not collide on two given inputs, and
that NSEC3 hashes have 20 octets. The network, the clock, map iteration order and eviction choices are parameters
or arbitrary choices too.

Where a law turned out not to hold everywhere, the lemma states exactly when it does, and a concrete input
shows that it fails otherwise:

| law | holds exactly when | fails at |
|---|---|---|
| parse after encode | no name needs more than 64 pointer jumps, as with at most 64 labels (`Codec.ParseEncode`, `Limits.RoundTrip`) | nested questions of up to 65 labels (`Limits.DeepMessageRefused`) |
| an update record keeps the store in order | it adds no SOA, at the apex or elsewhere, except the very one that is there, and does not delete that one (`Zones.UpdateOneExact`) | a refreshed SOA TTL (`Zones.SoaTtlBreaks`) |
| a whole update does | the SOA comes back by its end (`UpdateRuns.ApplyUpdateExact`) | the same record alone; deleting and adding back is fine (`UpdateRuns.DeleteThenAdd`) |
| a lookup gives an answer | no owner without the type asked for has a first CNAME that lacks a name (`Lookups.AbortsExactly`) | after an update that adds such a CNAME (`Lookups.UpdateAborts`) |
| full transfer rebuilds the zone | every message fits its 16-bit length and no name in it is behind too many pointers (`Axfr.TransferExact`) | two records of 40000 octets (`Axfr.LongTransferFails`) |
| a journal client gets its own diffs | the serials in the window are distinct (`Journals.ChainExact`) | a serial set back (`Journals.SerialComesBack`) |
| a negative answer is proven with NSEC | the name is absent or the type is not one the signer adds (`Nsecs.NsecComplete`) | RRSIG at the apex (`Nsecs.SignerTypeUnproven`) |
| a no-data answer is proven with NSEC3 | the name hashes like an owner (`Nsec3s.Nsec3Complete`) | an empty non-terminal (`Nsec3s.EmptyNameUnproven`) |
| the NSEC3 chain is built | the apex is not the root and reads back, from its escaped text, as valid labels of at most 222 octets (`Nsec3s.ChainBuilt`) | the root (`Nsec3s.RootHasNoOwner`) and eight accented letters (`Nsec3s.EscapedApexFails`) |
| a signed zone's answer is judged secure | some name it shows exists, and every CNAME followed at an existing name is the only one there, visited once (`SignedAnswers.LookupVerdict`, `SignedCases.TrailVerdict`) | two CNAMEs at one name (`SignedCases.TwoAliasesBogus`) and a CNAME loop (`SignedCases.LoopBogus`), both bogus; wildcard answers all the way, insecure |
| a signed zone's response without answers is | as in the two rows above and, with NSEC3, at most 100 iterations (`SignedAnswers.NsecVerdict`, `SignedAnswers.Nsec3Verdict`) | the same inputs |
| the memoised walk gives the plain answer | it climbs at most 20 zones (`Trust.WalkExact`) | 21 labels (`Trust.DeepZonePoisons`) |
| a client gets at most burst + qps * T | burst is at most 60 * qps (`Limiter.BoundExact`) | the run of `Limiter.BoundFails` |

Four more laws fail without such a boundary. That NSEC records never deny a held record is shown for types up to
2039 (`Nsecs.NsecSound`) and fails at 2040 (`Nsecs.NsecForgets`). NSEC3 records have no such protection at any type:
the whole hashed chain denies every name under the apex, held or not (`Nsec3s.WholeChainDeniesAll`). A secure verdict
covers neither unsigned rrsets (`SignedCases.UnsignedUnjudged`) nor who signed (`SignedCases.OutsideSecure`). And a
puller with a key takes a transfer without any signature as readily as a signed one (`Axfr.TransferExact`).

Where the code and its comments differ, the model follows the code. The update scan that is said to check the
SOA rules (crates/dns-zone/src/lib.rs:342) looks at owner names only. The resolver's limit on nested
resolutions (crates/dns-resolver/src/recursor.rs:23) bounds their depth, not their total
(`Recursors.NestedCount`). A bogus delegation is
remembered as an empty key set, although the comment beside it
(crates/dns-resolver/src/validator.rs:359-360) speaks of caching none.

## Model

| member | source | states |
|---|---|---|
| Names.FromWire | crates/dns-proto/src/name.rs:134-179 | the decoding loop terminates on every buffer and gives what the recursive reading gives |
| Names.ReadNameValid | crates/dns-proto/src/name.rs:134-179 | whatever the buffer holds, a decoded name is valid and lowercase, of at most 255 octets, and the cursor moved forward in bounds |
| Names.HopsBound | crates/dns-proto/src/name.rs:146-160 | every pointer lands on a label, so a name of k labels costs at most k jumps |
| Names.ReadNameAt | crates/dns-proto/src/name.rs:134-179 | an encoded name is given back exactly when its pointer chain is within the jump limit, and is refused as a loop otherwise |
| Names.NameAtAppend | crates/dns-proto/src/name.rs:183-201 | bytes appended later change nothing about a name already written |
| Names.NameWireKeeps | crates/dns-proto/src/name.rs:183-201 | table entries are never overwritten and only suffixes of the written name are added |
| Names.NameWireOk | crates/dns-proto/src/name.rs:183-201 | writing a name keeps every table offset decoding to its suffix, and the new name decodes within one jump per label |
| Names.PlainRoundTrip | crates/dns-proto/src/name.rs:134-201 | an uncompressed name placed anywhere in a buffer decodes to itself |
| Messages.FlagsRoundTrip | crates/dns-proto/src/message.rs:172-201 | unpacking packed header flags gives them back |
| Codec.RecordNext | crates/dns-proto/src/message.rs:422-432 | a record appended to an encoding is read back, or reading stops at the first name behind too many pointers; the table invariant survives |
| Codec.ParseEncoded | crates/dns-proto/src/message.rs:638-727 | a message followed by further additional entries is given back with those entries read where its encoding ends |
| Codec.ParseEncode | crates/dns-proto/src/message.rs:638-727 | parsing the encoding of any well-formed message gives the message and uses every byte, unless a name needs more than 64 jumps; then it is refused |
| Limits.ShallowWhenFew | crates/dns-proto/src/name.rs:134-201 | names of at most 64 labels never need more than the 64 allowed jumps |
| Limits.RoundTrip | crates/dns-proto/src/message.rs:638-727 | round trip for every well-formed message with names of at most 64 labels |
| Limits.DeepMessageRefused | crates/dns-proto/src/name.rs:146-160 | a well-formed message of 66 nested questions, none over 65 labels, is refused by its own parser |
| Normal.ParseWf | crates/dns-proto/src/message.rs:638-684 | for every buffer, an accepted message is well-formed and was read in bounds |
| Normal.ParseNormalises | crates/dns-proto/src/message.rs:638-727 | for every accepted buffer, encoding and parsing again gives the same message apart from TSIG, exactly when no name is too deep |
| Stable.ParseStable | crates/dns-proto/src/message.rs:638-684 | a message that parses still parses to the same when bytes are appended to the buffer |
| Wire.Encoder.ToWire | crates/dns-proto/src/name.rs:183-201 | the compressing loop on the shared buffer and table writes what the specification writes |
| Wire.Encoder.PutRData | crates/dns-proto/src/message.rs:339-374 | each rdata type is appended as specified |
| Wire.Encoder.PutRecord | crates/dns-proto/src/message.rs:422-432 | writing a zero length and patching it afterwards equals writing the length of the rdata |
| Wire.Encoder.PutBody | crates/dns-proto/src/message.rs:696-727 | questions and sections go out in order through one table |
| Wire.EncodeMessage | crates/dns-proto/src/message.rs:696-727 | the encoder as it runs produces the specified encoding |
| Wire.ParseMessage | crates/dns-proto/src/message.rs:638-684 | the four counted loops over one cursor compute the specified parse |
| Wire.ParseTxt | crates/dns-proto/src/message.rs:311-321 | the TXT loop computes the specified strings or error |
| Tsigs.PatchEncoding | crates/dns-proto/src/message.rs:688-694 | raising or lowering ARCOUNT in place equals encoding behind the other header |
| Tsigs.SignedWire | crates/dns-proto/src/message.rs:545-593 | a signed message is the body behind a raised ARCOUNT followed by the TSIG record |
| Tsigs.VerifiedBody | crates/dns-tsig/src/lib.rs:112-121 | the bytes the verifier rebuilds are the bytes the signer digested |
| Tsigs.ParseSigned | crates/dns-proto/src/message.rs:638-684 | whether a signed message parses is decided by its body; then its TSIG fields and cut point are exact |
| Tsigs.SignedVerifies | crates/dns-tsig/src/lib.rs:132-204 | for any HMAC a signed message is accepted exactly when the clocks agree within the fudge, otherwise refused for its time, and the verifier learns the signer's MAC |
| Tsigs.AcceptedIsSigned | crates/dns-tsig/src/lib.rs:132-204 | a message accepted with the MAC of a signed one is, if the HMAC does not collide on the two, the signed message read back in full, with the signer's time and fudge |
| Zones.ReplaceKeeps | crates/dns-zone/src/lib.rs:195-242 | an accepted rrset replacement keeps the store invariant and the origin |
| Zones.DeleteKeeps | crates/dns-zone/src/lib.rs:244-258 | an accepted rrset deletion keeps the store invariant and the origin |
| Zones.BumpKeeps | crates/dns-zone/src/lib.rs:260-271 | bumping keeps the invariant and advances the serial by one modulo 2^32 |
| Zones.ApplyUpdateKeeps | crates/dns-zone/src/lib.rs:289-397 | a dynamic update that spares individual SOAs keeps the invariant when it succeeds |
| Zones.UpdateOneExact | crates/dns-zone/src/lib.rs:348-393 | one update record keeps the store invariant if and only if it does not harm the apex SOA |
| Zones.SoaTtlBreaks | crates/dns-zone/src/lib.rs:351-362 | adding the SOA again with another TTL leaves an apex copy that differs from the field |
| UpdateRuns.UpdatesExact | crates/dns-zone/src/lib.rs:348-393 | a list of updates keeps the store invariant if and only if the SOA comes back, whatever else the list does |
| UpdateRuns.ApplyUpdateExact | crates/dns-zone/src/lib.rs:289-397 | an update that succeeds keeps the zone's invariant if and only if the SOA comes back |
| UpdateRuns.DeleteThenAdd | crates/dns-zone/src/lib.rs:348-393 | deleting the SOA and adding it back is such a list, and its first half is not |
| ZoneServer.CommitKeeps | crates/rdns/src/server.rs:765-776 | what is published after any request, accepted or refused, keeps the invariant |
| ZoneServer.RunKeeps | crates/dns-zone/src/lib.rs:195-397 | over every sequence of requests the published zone keeps the invariant |
| ZoneServer.RefusedReplaceBreaks | crates/dns-zone/src/lib.rs:195-242 | a refused replacement can leave an empty node on the copy it ran on, so only dropping the copy keeps the zone in order |
| ZoneServer.LiveZone.DeleteRrset | crates/dns-zone/src/lib.rs:244-258 | deletion in place yields the specified zone and verdict |
| ZoneServer.LiveZone.ReplaceRrset | crates/dns-zone/src/lib.rs:195-242 | replacement in place yields the specified zone and verdict |
| ZoneServer.LiveZone.BumpSerial | crates/dns-zone/src/lib.rs:260-271 | bumping in place changes the field and the apex copy alike |
| ZoneServer.LiveZone.ApplyUpdateInPlace | crates/dns-zone/src/lib.rs:289-397 | prerequisites, owner scan and updates in place yield the specified rcode and zone |
| ZoneServer.Server.HandleUpdate | crates/rdns/src/server.rs:754-776 | the fold of the updates is published with the serial bumped on NOERROR, and nothing is published otherwise |
| Load.LoadRecords | crates/dns-zone/src/lib.rs:144-166 | the loading loop computes the specified zone or error |
| Load.FromRecordsExact | crates/dns-zone/src/lib.rs:144-166 | a record list is accepted exactly when all owners lie under the origin and the one SOA is the apex's; the zone then groups the list by owner, in order, and meets the invariant |
| Axfr.ListThenLoad | crates/dns-zone/src/lib.rs:144-280 | listing a zone in any map order and loading the list gives the same origin, SOA, count and per-owner records |
| Axfr.CollectSlice | crates/dns-xfr/src/lib.rs:328-339 | collecting chunk by chunk equals collecting the whole, and the closing SOA is seen exactly at the end |
| Axfr.CutShort | crates/dns-xfr/src/lib.rs:306-325 | a message cut short by a wrapped length field is never accepted |
| Axfr.PullRecords | crates/dns-xfr/src/lib.rs:300-342 | the pulling loop computes the specified result |
| Axfr.RunSignFrames | crates/rdns/src/server.rs:679-706 | the signing loop with its chained MAC computes the specified frames |
| Axfr.SignedFrames | crates/rdns/src/server.rs:679-706 | parsing each frame again to sign it loses nothing: the signed frames carry the same messages, chained to the MAC before where they can be read back and as they were otherwise |
| Axfr.PullReplies | crates/dns-xfr/src/lib.rs:306-342 | from any frame on, for a stream signed with the puller's key or not at all, its prior MAC is the signer's and it ends with the records if and only if every message left fits and has no name behind too many pointers; otherwise it fails |
| Axfr.TransferExact | crates/dns-xfr/src/lib.rs:36-342 | over bytes, signed or not and whether or not the puller has a key, for any zone, map order and HMAC, the puller stops exactly after the last frame with the zone's records and rebuilds the zone if and only if every message fits a 16-bit length and no name in it is behind too many pointers; otherwise it fails |
| Axfr.ClearWhenFew | crates/dns-xfr/src/lib.rs:36-57 | with names of at most 64 labels only the lengths matter |
| Axfr.LongTransferFails | crates/dns-xfr/src/lib.rs:306-325 | a sound zone with two records of 40000 octets cannot be transferred to any puller |
| Journals.Journal.Record | crates/dns-xfr/src/lib.rs:111-135 | recording an edit appends its diff to that zone's log, drops the oldest past 64, and touches no other log |
| Journals.Journal.GetChain | crates/dns-xfr/src/lib.rs:140-157 | the chain loop computes the specified chain, which is a path of recorded diffs to the current serial of at most 64 steps |
| Journals.ChainExact | crates/dns-xfr/src/lib.rs:140-157 | every version in the log is served exactly the diffs since it if and only if the serials in the log are distinct |
| Journals.SerialComesBack | crates/dns-xfr/src/lib.rs:140-157 | two accepted requests bring the serial back while the zone changed, and a client at the first version is told it has everything |
| Journals.HistoryLog | crates/dns-xfr/src/lib.rs:111-135 | after any run over any zones a zone's log is the last 64 diffs of its own edits |
| Journals.DiffCarries | crates/dns-xfr/src/lib.rs:117-122 | removing the deleted and adding the added records turns the old record set into the new one, whatever the listing orders |
| Journals.ReplayExact | crates/dns-xfr/src/lib.rs:111-157 | for edits that each bump once, including wrap-around, a client at most 64 edits behind gets exactly the missing diffs and replay gives the current record set; any other serial gets none |
| Journals.RunReplays | crates/dns-xfr/src/lib.rs:111-157 | the same over every run of server requests that do not set the serial themselves |
| Journals.SecondaryNotices | crates/dns-xfr/src/lib.rs:409-411 | after any number of edits the secondary sees the primary as newer exactly when the edits it lacks, modulo 2^32, are between 1 and 2^31 - 1 |
| Orders.BytesLeTotal | crates/dns-dnssec/src/validate.rs:107 | byte strings are totally ordered |
| Orders.SortOk | crates/dns-dnssec/src/lib.rs:573 | the sort permutes and orders |
| Orders.SortStable | crates/dns-dnssec/src/validate.rs:107 | the sort forgets the order it was given |
| Rrsigs.ComputeKeyTag | crates/dns-dnssec/src/validate.rs:83-90 | the key-tag loop computes the specified tag and its 32-bit accumulator never overflows on rdata that fits a record |
| Rrsigs.BuildSignedData | crates/dns-dnssec/src/validate.rs:95-114 | the verifier's loop computes the specified signed bytes |
| Rrsigs.RrsigReads | crates/dns-dnssec/src/validate.rs:35-62 | the fields of a made RRSIG are read back, prefix and signature included |
| Rrsigs.RrsigAgrees | crates/dns-dnssec/src/lib.rs:544-589 | for the rrset in any order and with any TTLs the verifier rebuilds exactly the signed bytes and accepts under the published key |
| Binding.CanonReads | crates/dns-proto/src/message.rs:378-448 | a canonical record reads back as itself with the original TTL |
| Binding.SignedBytesBind | crates/dns-dnssec/src/validate.rs:95-114 | two rrsets have the same signed bytes exactly when they agree up to order and live TTLs |
| Binding.RrsigRejects | crates/dns-dnssec/src/validate.rs:128-141 | with a check that accepts a signature only on the data it was made for, a made signature verifies over no rrset but its own, up to order and live TTLs |
| Bitmaps.BuildBitmap | crates/dns-dnssec/src/lib.rs:594-598 | setting bits in place gives the specified octets |
| Bitmaps.ParseTypeBitmap | crates/dns-resolver/src/validator.rs:568-586 | the nested loops list exactly the types marked by complete windows |
| Bitmaps.BitmapInverse | crates/dns-dnssec/src/lib.rs:591-603 | up to type 2039 reader and writer are exact inverses |
| Bitmaps.BitmapTooLong | crates/dns-dnssec/src/lib.rs:600-601 | with type 2040 the length octet wraps and no listed type is seen |
| Lookups.RunFindNode | crates/dns-zone/src/lib.rs:106-126 | the wildcard loop finds the specified node |
| Lookups.RunLookup | crates/dns-zone/src/lib.rs:56-103 | the bounded CNAME chase computes the specified result |
| Lookups.NegativeMeans | crates/dns-zone/src/lib.rs:56-131 | a negative result never names a type held at the queried name, and is NXDOMAIN only where there is no node, exact or synthesised, and nothing below |
| Lookups.AbortsExactly | crates/dns-zone/src/lib.rs:78-86 | some lookup for a type aborts if and only if some owner without that type has a first CNAME whose rdata is not a name |
| Lookups.UpdateAborts | crates/dns-zone/src/lib.rs:351-362 | an update that adds a CNAME without rdata makes every lookup of another type at that name abort |
| Nsecs.NameLeTotal | crates/dns-dnssec/src/lib.rs:606-610 | canonical name order is total |
| Nsecs.AncestorFirst | crates/dns-dnssec/src/lib.rs:606-610 | an ancestor sorts before everything below it |
| Nsecs.OwnersOk | crates/dns-dnssec/src/lib.rs:412-414 | the sorted, deduplicated owners are strictly increasing, are exactly the zone's names and start at the apex |
| Nsecs.BuildNsecChain | crates/dns-dnssec/src/lib.rs:412-452 | the chain loop links each owner to the next and the last to the first |
| Nsecs.DenyWithNsec | crates/dns-dnssec/src/lib.rs:271-298 | the scan picks the exact entry for no-data, else the last at or before the name, else the last |
| Nsecs.GapHoldsNoOwner | crates/dns-resolver/src/validator.rs:603-612 | no owner lies in the gap of any entry, wrap included |
| Nsecs.NsecComplete | crates/dns-dnssec/src/lib.rs:271-298 | for every negative lookup the records picked are accepted, except exactly when the name exists and the type is one the signer adds there |
| Nsecs.SignerTypeUnproven | crates/dns-resolver/src/validator.rs:591-617 | a question for RRSIG at the apex of a one-record zone is answered with no data that the validator does not accept |
| Nsecs.NsecExact | crates/dns-resolver/src/validator.rs:591-617 | from the whole chain the validator accepts a denial for exactly the names that are no owner and, at an owner, the types not listed |
| Nsecs.NsecSound | crates/dns-resolver/src/validator.rs:591-617 | no selection of the zone's own NSEC records denies a record the zone holds |
| Nsecs.NsecForgets | crates/dns-dnssec/src/lib.rs:591-603 | a name whose only record has type 2040 gets an NSEC record that denies it |
| Base32.EncodeBase32Hex | crates/dns-dnssec/src/nsec3.rs:38-55 | the loop with its 32-bit rolling accumulator emits the digits of the pending bits |
| Base32.DecodeBase32Hex | crates/dns-resolver/src/validator.rs:640-658 | the loop with its 32-bit rolling accumulator emits the octets of the pending bits or refuses |
| Base32.Base32RoundTrip | crates/dns-dnssec/src/nsec3.rs:38-55 | decoding what was encoded gives back every octet string |
| Nsec3s.NodeReads | crates/dns-resolver/src/validator.rs:620-638 | every record of the chain reads back as its own hash, the next one and the parameters |
| Nsec3s.OwnerFirst | crates/dns-dnssec/src/nsec3.rs:120-121 | however the apex is escaped, the first label of an owner decodes to its hash |
| Nsec3s.RootHasNoOwner | crates/dns-dnssec/src/nsec3.rs:120-121 | under the root no owner name can be made |
| Nsec3s.OwnerExact | crates/dns-dnssec/src/nsec3.rs:120-121 | for any apex a 20-octet hash gets an owner exactly when the apex is not the root and its escaped text reads back as a valid name with room for the hash; the owner is then the hash before that name |
| Nsec3s.ShownReads | crates/dns-proto/src/name.rs:93-106 | a name printed without escapes reads back as itself, so then only its 222 octets matter |
| Nsec3s.EscapedApexFails | crates/dns-dnssec/src/nsec3.rs:120-121 | an apex of eight accented letters, 18 octets, has no owner names at all |
| Nsec3s.ChainBuilt | crates/dns-dnssec/src/nsec3.rs:101-131 | with 20-octet hashes the chain is built exactly for an apex that is not the root and that its escaped text gives back within 222 octets |
| Nsec3s.BuildChain | crates/dns-dnssec/src/nsec3.rs:101-131 | sorting, deduplicating and linking yields the specified chain or the failed unwrap |
| Nsec3s.HashAllOk | crates/dns-dnssec/src/nsec3.rs:107-113 | the chain's hashes are strictly increasing and are exactly the owners' hashes, collisions included |
| Nsec3s.CoverFound | crates/dns-dnssec/src/lib.rs:313-330 | whatever the hash, some node of the ring covers it, through wrapped and single-node rings alike |
| Nsec3s.EncloserIs | crates/dns-dnssec/src/lib.rs:502-516 | the closest encloser is the longest suffix of the name that exists |
| Nsec3s.NxdomainProves | crates/dns-resolver/src/validator.rs:662-708 | for any hash the closest-encloser records are accepted for every absent name of the zone |
| Nsec3s.NodataExact | crates/dns-dnssec/src/lib.rs:334-340 | a no-data answer is accepted exactly when the name's hash is an owner's |
| Nsec3s.Nsec3Complete | crates/dns-dnssec/src/lib.rs:300-360 | for every negative lookup the records picked are accepted exactly when it is NXDOMAIN or the name hashes like an owner |
| Nsec3s.EmptyNameUnproven | crates/dns-dnssec/src/lib.rs:334-340 | an empty non-terminal is answered with no data and, with a hash that tells it apart, not proven |
| Nsec3s.Nsec3Exact | crates/dns-resolver/src/validator.rs:662-708 | from the whole chain the validator accepts a denial for exactly the names that hash like an owner or have a proper suffix that does, whatever the type |
| Nsec3s.WholeChainDeniesAll | crates/dns-resolver/src/validator.rs:662-708 | so the whole chain denies every name at or below the apex, held ones included |
| Denials.NsecAnswerProven | crates/dns-resolver/src/lib.rs:531-551 | the authority section attached to a negative answer passes the validator's NSEC test under the exact condition above |
| Denials.Nsec3AnswerProven | crates/dns-resolver/src/lib.rs:531-551 | the same for a hashed chain |
| Trust.Ctx.GetDnskeys | crates/dns-resolver/src/validator.rs:303-397 | the memoised walk with its placeholder and fetches computes the specified keys, memo and number of fetches |
| Trust.Ctx.GetDs | crates/dns-resolver/src/validator.rs:401-454 | the DS step computes the specified result through the parent's keys |
| Trust.WalkSound | crates/dns-resolver/src/validator.rs:303-454 | against any fetcher, and from the replies to the questions this run asked alone, every key set returned or remembered has an unbroken chain from an anchor, and every zone taken for unsigned has a reason: no keys or no signed delegation in a reply, an unsigned parent, or the depth limit below a zone asked for |
| Trust.WalkRefines | crates/dns-resolver/src/validator.rs:309-397 | within the depth limit the walk equals the plain recursion, never meets its own placeholder, and leaves only plain results behind |
| Trust.MemoRefines | crates/dns-resolver/src/validator.rs:303-397 | with a deterministic fetcher, any order of calls on zones of at most 20 labels sharing one memo gives the plain answers |
| Trust.WalkExact | crates/dns-resolver/src/validator.rs:309-317 | on an untouched memo the walk gives the plain answer exactly when the plain recursion climbs no more than the depth left, and otherwise insecure |
| Trust.DeepZonePoisons | crates/dns-resolver/src/validator.rs:65 | in a world where every zone is properly signed, a lookup of 21 labels answers insecure and makes the next one, of 20, answer insecure |
| Verdicts.RunTrySigs | crates/dns-resolver/src/validator.rs:259-276 | the signature loop computes the specified outcome and memo |
| Verdicts.RunSection | crates/dns-resolver/src/validator.rs:233-282 | the section loop computes the specified result and memo |
| Verdicts.RunValidate | crates/dns-resolver/src/validator.rs:179-226 | the verdict is the specified one |
| Verdicts.ValidateSound | crates/dns-resolver/src/validator.rs:179-282 | against any fetcher a response is secure only if some rrset verifies under keys trusted from this run's replies, in the answer or in an authority section that proves the denial, and every signed rrset of the answer verified so or has a signer this run found unsigned for a reason |
| Verdicts.VerdictExact | crates/dns-resolver/src/validator.rs:179-282 | with a deterministic fetcher the verdict, all three values of it, is the one read off what becomes of each signed rrset by plain recursion, whatever their order |
| Verdicts.SecureExact | crates/dns-resolver/src/validator.rs:179-282 | with a deterministic fetcher a response is secure if and only if no signed rrset fails and some signed rrset verifies, in the answer or beside a proven denial; unsigned rrsets play no part |
| SignedZones.AttachSigs | crates/dns-resolver/src/lib.rs:531-542 | the loop appends the stored signatures of each answer rrset once, in order |
| SignedZones.SetJudged | crates/dns-resolver/src/validator.rs:258-276 | under an honest chain a signed set verifies if it is the one that was signed, up to order and TTLs, and fails otherwise if the check is strict |
| SignedZones.SectionVerdict | crates/dns-resolver/src/validator.rs:233-282 | a section whose signatures are all over whole rrsets has no failing set, and a verified one exactly if it has a signature |
| SignedZones.AnswerSetJudged | crates/dns-resolver/src/lib.rs:531-542 | beside its attached signatures a set of an answer is unsigned exactly if its name does not exist, else verifies if it is shown as it was signed, else fails |
| SignedDenials.AuthoritySection | crates/dns-resolver/src/lib.rs:543-551 | the authority section attached to a negative answer verifies, for NSEC and NSEC3 |
| SignedAnswers.KeysVerdict | crates/dns-resolver/src/lib.rs:291-300 | the apex key set, signed by the keys marked for it, is judged secure |
| SignedAnswers.ParamsVerdict | crates/dns-resolver/src/lib.rs:301-309 | the NSEC3 parameters are judged secure, unless the zone holds some of its own, which are signed along with them; then bogus |
| SignedAnswers.LookupVerdict | crates/dns-resolver/src/lib.rs:310-319 | end to end, any looked-up answer, through any CNAME chase and whatever ends it, is judged bogus if some set under an existing name is not shown as it was signed, else secure if any name shown exists, else insecure |
| SignedAnswers.NsecVerdict | crates/dns-resolver/src/lib.rs:531-551 | a response without answers is judged secure, except exactly when the name exists and the type is one the signer adds there; then bogus |
| SignedAnswers.Nsec3Verdict | crates/dns-resolver/src/lib.rs:531-551 | the same for a hashed chain: secure exactly when it uses at most 100 iterations and the name is absent or hashes like an owner, otherwise insecure |
| SignedAnswers.ResponseVerdict | crates/dns-resolver/src/lib.rs:285-319 | all of it together: the verdict on every response of a signed zone, whatever is asked |
| SignedCases.TrailVerdict | crates/dns-zone/src/lib.rs:56-103 | the verdict on an answer read off the zone: bogus exactly when a CNAME followed at an existing name is not all there is, as often as it was visited; else secure exactly when any name shown exists |
| SignedCases.WildcardAliasSecure | crates/dns-zone/src/lib.rs:106-126 | an answer that begins at a wildcard CNAME and ends at an existing name is judged secure |
| SignedCases.TwoAliasesBogus | crates/dns-zone/src/lib.rs:82-86 | with two CNAMEs at one name the server's own answer is judged bogus |
| SignedCases.LoopBogus | crates/dns-zone/src/lib.rs:56-103 | a CNAME to itself is shown eight times and signed once, and judged bogus |
| SignedCases.UnsignedUnjudged | crates/dns-resolver/src/validator.rs:244-257 | a record of an rrset without signatures, added to a secure answer, leaves it secure |
| SignedCases.OutsideSecure | crates/dns-resolver/src/validator.rs:258-276 | what a trusted zone's keys sign is judged secure, for every owner outside that zone |
| SignedCases.StrictWorldOk | crates/dns-resolver/src/validator.rs:303-397 | for every origin of at most 20 labels some validator and keys are honest and strict |
| Flights.Singleflight.BeginFlight | crates/dns-resolver/src/flight.rs:27-35 | the caller leads exactly when no live guard holds the key, otherwise it waits on the channel of the guard that does; map and position afterwards are those of that step of the system |
| Flights.Singleflight.Release | crates/dns-resolver/src/flight.rs:45-48 | the entry removed is the guard's own; afterwards nobody holds the key, every other entry is as it was, and the map is that of the removal step |
| Flights.StepKeeps | crates/dns-resolver/src/flight.rs:26-53 | every step of every request keeps the invariant tying map, flights, requests and cache |
| Flights.RunKeeps | crates/dns-resolver/src/lib.rs:434-496 | so every reachable state has it, under every interleaving |
| Flights.EntryOwned | crates/dns-resolver/src/flight.rs:26-53 | a key is in the map exactly while one live guard that has not removed it owns the entry |
| Flights.RemovesOwn | crates/dns-resolver/src/flight.rs:45-48 | a guard removes its own entry and no other leader's |
| Flights.WaiterServed | crates/dns-resolver/src/lib.rs:489-494 | a waiting follower's channel is signalled or its sender is alive |
| Flights.StoredBeforeWake | crates/dns-resolver/src/lib.rs:480-487 | a successful leader has stored its result and let the key go before it wakes anyone |
| Flights.KeptThenHit | crates/dns-resolver/src/lib.rs:434-496 | when the leader's result was kept and not evicted since, a follower with a round left that resumes at any later time hits the cache with a stored result for its own key |
| Flights.CanStep | crates/dns-resolver/src/lib.rs:434-496 | no deadlock: an unfinished request can step or waits for a leader that can |
| Flights.StepsBounded | crates/dns-resolver/src/lib.rs:434-436 | in any run a request takes at most fourteen steps, so at most three rounds |
| Recursors.Recursor.FindStart | crates/dns-resolver/src/recursor.rs:77-91 | the scan finds the deepest unexpired delegation at or above the name |
| Recursors.Recursor.CacheDelegation | crates/dns-resolver/src/recursor.rs:93-103 | the delegation is stored with its expiry, after purging an overfull map |
| Recursors.Recursor.ResolveDepth | crates/dns-resolver/src/recursor.rs:136-290 | the referral loop computes the specified reply, state, visited zones and asked names, and terminates within the depth and referral limits |
| Recursors.Recursor.RunTurn | crates/dns-resolver/src/recursor.rs:168-286 | one turn asks, decides and moves as specified |
| Recursors.Recursor.GetReferralAddrs | crates/dns-resolver/src/recursor.rs:296-330 | in-bailiwick glue, or the first server name that resolves, as specified |
| Recursors.PathDescends | crates/dns-resolver/src/recursor.rs:246-279 | every learned zone is reached from the root by strictly descending accepted referrals of this run, no more than it has labels |
| Recursors.ResolveSound | crates/dns-resolver/src/recursor.rs:136-330 | against arbitrary servers visited zones step strictly down from one at or above the name, every name asked is a suffix of it, at most thirty are asked, a DS question never reaches the zone itself; the answer, and the servers of every remembered delegation, came in replies to queries this run sent, from servers learned down from the root, by glue or by resolving a server name of the referral |
| Recursors.NestedCount | crates/dns-resolver/src/recursor.rs:296-330 | one resolution makes as many nested ones as a referral names servers without addresses, any number of them |
| Caches.Cache.Get | crates/dns-cache/src/lib.rs:54-82 | a fresh entry is served aged, and only an entry past the stale window is dropped |
| Caches.Cache.GetStale | crates/dns-cache/src/lib.rs:86-104 | only an expired entry within the stale window is served |
| Caches.Cache.Insert | crates/dns-cache/src/lib.rs:108-156 | an accepted response is stored after purging and shedding as specified; a refused one changes nothing |
| Caches.CacheRefines | crates/dns-cache/src/lib.rs:54-156 | over every sequential run all answers are those of a cache that keeps the most recent accepted insert and forgets only what is shed, and the size stays within the bound |
| Caches.NeverBoth | crates/dns-cache/src/lib.rs:54-104 | a fresh and a stale answer never exist together |
| Caches.ServedTtl | crates/dns-cache/src/lib.rs:63-67 | a positive answer's served TTL plus the elapsed whole seconds is its stored TTL, and the clamp never fires |
| Limiter.RateLimiter.CheckAllowed | crates/dns-guard/src/lib.rs:114-132 | the answer and the buckets are the specified ones |
| Limiter.AllowedBound | crates/dns-guard/src/lib.rs:114-132 | what one client is allowed is at most its level plus the refill, whoever else calls |
| Limiter.PurgeInvisible | crates/dns-guard/src/lib.rs:117-119 | when burst is at most 60 * qps no answer of any run depends on the purge |
| Limiter.BoundFails | crates/dns-guard/src/lib.rs:117-119 | with a longer burst a crowd that forces the purge lets one client take twice the burst in a minute |
| Limiter.BoundExact | crates/dns-guard/src/lib.rs:106-132 | burst + qps * T bounds every window of every run exactly when burst is at most 60 * qps |

## Left out

- Sockets, TLS, DoH, DoQ, HTTP, the REST routes, configuration, metrics and the command line.
- Cryptography: HMAC, signatures, digests and the NSEC3 hash are parameters; key generation and key files are not modelled.
- Zone files, journal files and other text forms; a name's text appears only where NSEC3 owners are built from it, and rrset contents arrive already read.
- The records of an IXFR response and a reader for them; replay is stated on the diffs.
- Bitmaps.BitmapInverse: beyond type 2039 only a failing list is shown, not that every longer list fails, because octets read as windows can mark types by accident.
- Nsecs.NsecSound: beyond type 2039 only a failing name is shown, for the same reason.
- Verdicts.SecureExact: is for a deterministic fetcher and signers of at most 20 labels; against any fetcher `Verdicts.ValidateSound` gives one direction.
- SignedAnswers.ResponseVerdict: leaves out zones with types above 2039, answers that hold RRSIG records of the zone's own, and a validator whose key lookups fail or differ from call to call.
- Rrsigs.RrsigAgrees: takes the rrset under its own owner name; the program attaches no signatures to wildcard-expanded answers (`SignedZones.AnswerSetJudged`).
- Tsigs.AcceptedIsSigned: is for a received TSIG record without other data; with some, the digest alone does not tell where the message ends.
- Rrsigs.ComputeKeyTag: is for rdata below 65536 octets, the most a record can carry.
- The direct lookup after three merged rounds, and the answer cache in front of the resolver.
- Flights.StepKeeps: takes each locked section as one step and the cache as a set of stored results.
- Limiter.RateLimiter.CheckAllowed: uses real numbers for `f64` and a clock that does not run backwards.
- Caches.CacheRefines: takes operations one after another.
- Address masks, response policy zones, cookies, message truncation and upstream failover, which would only add easy members.
