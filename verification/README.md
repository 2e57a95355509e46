# Verified model of mobiscope's decoders, pipeline and triage

mobiscope analyses mobile applications. It decodes Android and iOS binaries in-process, runs
analysis tools in two concurrent phases, deduplicates and clusters what they find, and lets language
models triage the clusters under a privacy policy. This project models those parts in Dafny and proves
what they are for. `dafny verify dfyconfig.toml` checks everything.

Every loop or in-place update of the source is a method or a class with loop invariants. The method is
proved equal to a specification function (or meets an outright specification), and the lemmas are about
that specification, over all inputs.

## How to read it

| files | what they hold |
|---|---|
| `Bytes`, `Chunks`, `Text`, `Order` | integers in bytes, chunk framing, numbers as text, the order of names |
| `StringPool`, `Axml`, `AxmlParser`, `AxmlEncoder` | Android binary XML: a recursive-descent meaning, the stack machine that builds a tree of heap nodes, and the encoder |
| `Arsc`, `ArscEncoder` | resource tables and their three entry encodings |
| `SigningBlock`, `ContentDigest`, `Signers`, `Verify`, `Signing` | the APK signing block, the chunked content digest, signer lists, the verdict, and all of it end to end |
| `Dex`, `DexEncoder` | DEX strings and class names |
| `MachO`, `MachOEncoder` | Mach-O images in both byte orders and widths, and universal files |
| `Nsc`, `NscReader`, `NscAgree`, `NscFindings` | the network security config, read from XML and from binary XML |
| `Pipeline` | the two-phase concurrent scheduler and the session directory its analyzers share, as a state machine |
| `Schedules`, `FailFast`, `Sessions`, `Races` | when the interleaving matters, what fail-fast reports, the session that a run ends with, and analyzers that read each other's output |
| `Findings`, `Diff`, `Cluster` | findings, their keys, diff and baseline, clustering and verdict propagation |
| `Router`, `Retry`, `Triage`, `Escape`, `Truncate`, `CacheKey` | model routing, retries, a triage run, prompt escaping and truncation, the cache key |
| `Metrics`, `AnalyzerMetrics` | the shared counters as interleaved threads |

The outside world enters as parameters: hash functions, character decoding, the outcome of model calls,
provider availability, cancellation, the clock and random draws. Nothing is assumed of them beyond what
a contract says. Go's `int` is 64 bits wide; where a width matters it is written out (32-bit sums in DEX
files, 64-bit sums in the signing block, the shifted delay of a retry). A Go string is a byte sequence:
decoders use byte sequences, and findings, names and prompts use Dafny strings, where a `char` stands for
a byte.

## What the proofs showed about the code

- Signing block: a length field close to 2^63 overflows a signed sum and the slice that follows panics. The
  exact condition is proved for any file (`SigningBlock.LocatePanicsExactly`), and files that meet it by their
  size field and by a pair length are exhibited (`SigningBlock.SizeOverflowIsReachable`,
  `SigningBlock.PairOverflowIsReachable`).
- Retry: with the eight-second maximum that the commands set, the shifted delay is exact for every base of whole
  milliseconds up to 73.786 seconds, the default included, and on every attempt (`Retry.MillisecondsAreExact`,
  from `Retry.BackoffIsExact`). Beyond that `Retry.ClampIsAlwaysRightExactly` gives the exact condition on
  the settings, `Retry.ClampIsRightExactly` that on one attempt, and
  `Retry.OverflowCanUndercut` a base of whole milliseconds with which the third attempt waits less than three
  milliseconds.
- Fingerprints and deduplication keys join fields with bars, so two different findings can share one when a
  title contains a bar (`Findings.FingerprintsCanCollide`, `Findings.DedupKeysCanCollide`). A deduplication key is
  safe exactly for findings without bars in category, title and file (`Findings.DedupKeyExactly`). A
  fingerprint is safe exactly for findings of a rule without bars in tool, rule and file
  (`Findings.FingerprintExactly`); without a rule there is always another issue with the same one
  (`Findings.RuleAlias`), though not among findings with bars in no field but the evidence
  (`Findings.BarFreeIsMaximal`). The comment on `Dedup` names category, file, line and snippet hash; the code also
  uses the title, and the model follows the code.
- Network security config: a domain-config that has pin sets and only blank domain elements is read
  differently from XML and from binary XML (`NscAgree.ReadersDiffer`). Among the files that
  otherwise keep to the schema, those without one are exactly those that both readers read alike
  (`NscAgree.ReadersAgree`).
- Pipeline: the comment on the phases says that an independent analyzer does not depend on decompiler output,
  but the library inventory takes versions from the tree that jadx writes in the same phase
  (`internal/analyzers/sdk.go:466-510` and `:586-606`), and the native library reader falls back to it
  (`internal/analyzers/elf.go:171-176`). With two workers or more, four being the default, one and the same
  run may report a version or miss it, in the default list too (`Races.JadxRacesSdk`,
  `Races.DefaultListRaces`). `Schedules.InterleavingMattersExactly` says for all
  configurations when the interleaving matters; it never does with one worker, nor where no analyzer looks
  at its own phase. Scanners always see the finished first phase (`Pipeline.ScannersSeeTheFirstPhase`).
- Pipeline: fail-fast cancels within one phase only; the scanners still run, over whatever a cancelled first
  phase left, and nothing is claimed of what they then return (`FailFast.FailFastVerdict`).
- Pipeline: a failure whose result carries no tool name does not reach the list of failed tools, so the session
  counts as completed (`Sessions.FailureWithoutNameIsLost`). Every analyzer of the repository sets the name first,
  and a panic is given the analyzer's name, so only another implementation of the interface can do this.
- Resource tables: the test of the entry offset against -1 never fires on a 64-bit `int`; absent dense entries
  are dropped by the bounds test instead (`ArscEncoder.TypeReadBack` covers them).
- Mach-O: the constant called load bias is 0x01000000, not the 0x80000000 of the system headers, and an
  encryption command shorter than 20 bytes is judged by bytes of its successor. The model does both.
- DEX: once the table checks have passed, no 32-bit sum wraps and none of the later guards can fire
  (`Dex.DexTypeName`, `Dex.DexClassNames` are proved equal to functions without wrapping and guards).

## Model

| member | source | states |
|---|---|---|
| `StringPool.ParseStringPool` | internal/analyzers/axml.go:91-126 | for every byte string, the strings found at the declared offsets in the declared width, or which header check failed; every read is in bounds |
| `StringPool.DecodeUtf16String` | internal/analyzers/axml.go:158-179 | a one- or two-word length and that many code units, or the empty string when the buffer is too short |
| `StringPool.DecodeEncode8` | internal/analyzers/axml.go:138-155 | reading a UTF-8 item gives back the string, with a one- or two-byte length, whatever follows it |
| `StringPool.DecodeEncode16` | internal/analyzers/axml.go:158-179 | reading a UTF-16 item gives back the decoded units, with a one- or two-word length |
| `StringPool.ParseUndoesEncode` | internal/analyzers/axml.go:91-126 | every pool that fits its length fields is read back exactly, in both widths and both length forms |
| `AxmlParser.DecodeAXMLElement` | internal/analyzers/axml.go:259-337 | the element's name, line and attributes with raw values, typed values and framework names, or the error of a short or nameless element; the attribute loop never reads out of bounds |
| `AxmlParser.TreeBuilder.Open` | internal/analyzers/axml.go:222-233 | pushing a new element keeps the stack the rightmost spine of the tree hanging from the root |
| `AxmlParser.TreeBuilder.AddText` | internal/analyzers/axml.go:234-242 | character data is appended to the innermost open element and to nothing else |
| `AxmlParser.TreeBuilder.Pop` | internal/analyzers/axml.go:243-246 | the innermost element is finished, becomes the last child of its parent, and the rest of the spine is untouched |
| `AxmlParser.HandleChunk` | internal/analyzers/axml.go:200-255 | after any chunk, reading the remaining tokens from the stack gives what reading that chunk's token first would have given: the stack machine simulates the recursive reading step by step |
| `AxmlParser.ParseAXML` | internal/analyzers/axml.go:184-256 | for every byte string, the heap tree the stack machine builds and the error it returns are those of a recursive-descent reading of the chunk list; the nodes are fresh and form a tree |
| `AxmlEncoder.AttrReadBack` | internal/analyzers/axml.go:284-333 | a raw or typed attribute record is read back as the same namespace, name, value, type and data |
| `AxmlEncoder.StartReadBack` | internal/analyzers/axml.go:259-337 | an encoded start element is read back with its name, line and all attributes in order |
| `AxmlEncoder.TextReadBack` | internal/analyzers/axml.go:234-242 | text whose pool index stands at byte 20 of its chunk is read back |
| `AxmlEncoder.ContentReadBack` | internal/analyzers/axml.go:200-255 | recursive descent over a document's tokens rebuilds children and text and stops exactly at its end |
| `AxmlEncoder.MapReadBack` | internal/analyzers/axml.go:214-222 | an encoded resource map is taken up as its ids |
| `AxmlEncoder.ParseUndoesDocument` | internal/analyzers/axml.go:184-256 | parsing an encoded document returns exactly its tree and no error, for every pool layout, with any resource map or none, names spelled by the pool or supplied by the map, every mix of raw and typed attributes, and text between children |
| `AxmlEncoder.EveryTreeRoundTrips` | internal/analyzers/axml.go:184-256 | every tree of named elements survives being encoded over a pool of its own strings, with any resource map, and parsed |
| `AxmlEncoder.UnhandledChunksAreSkipped` | internal/analyzers/axml.go:200-255 | a well-formed chunk of an unhandled type between any two chunks of any file changes neither tree nor error |
| `Arsc.ResourceTable.RecordResourceValue` | internal/analyzers/arsc.go:171-208 | one entry adds its id and non-empty value unless the id is known; bad offsets and complex entries add nothing |
| `Arsc.ResourceTable.ReadSparse` | internal/analyzers/arsc.go:109-167 | the sparse loop records, in order, the entries its pairs name |
| `Arsc.ResourceTable.ReadOffset16` | internal/analyzers/arsc.go:109-167 | the 16-bit loop records, in order, the present entries |
| `Arsc.ResourceTable.ReadDense` | internal/analyzers/arsc.go:109-167 | the dense loop records, in order, the entries whose offsets stay in the chunk |
| `Arsc.ResourceTable.ParsePackageChunk` | internal/analyzers/arsc.go:83-106 | the type chunks of a package are walked until one does not fit, each adding its records to the map |
| `Arsc.ParseResourceTable` | internal/analyzers/arsc.go:42-79 | for every byte string, the map holds the first record of each id in file order under the latest string pool, and the error is that of the chunk walk |
| `Arsc.FirstRecordWins` | internal/analyzers/arsc.go:204-207 | recorded values stay, a new id gets its first record's value, and no other id appears |
| `ArscEncoder.EntryReadBack` | internal/analyzers/arsc.go:171-208 | a simple entry anywhere in the entry data is read as its typed value |
| `ArscEncoder.TypeReadBack` | internal/analyzers/arsc.go:109-167 | the dense, 16-bit and sparse encodings of one table all yield the records of its slots, absent ones included |
| `ArscEncoder.FileReadBack` | internal/analyzers/arsc.go:42-79 | a written file with any number of packages and tables is read back as exactly their records |
| `ArscEncoder.EncodingsAgree` | internal/analyzers/arsc.go:109-167 | two files that write the same packages in different mixes of the three encodings give the same map |
| `SigningBlock.LastIndexOf` | internal/analyzers/signing.go:286-300 | the last occurrence of the needle, or -1 when there is none |
| `SigningBlock.ReadPairs` | internal/analyzers/signing.go:259-272 | walking the block collects the first value of each id, stops where a length does not fit, or panics; the position strictly grows |
| `SigningBlock.ReadAPKSigningBlockInfo` | internal/analyzers/signing.go:196-274 | for every file, the located end record, offsets and pairs, or a panic, are those of the specification, with 64-bit sums that wrap |
| `SigningBlock.LocatedIsPlaced` | internal/analyzers/signing.go:196-274 | a block reported with pairs has an offset below 2^32 and an end record of at least 20 bytes and at most one chunk, which is all the soundness of the content digest asks for |
| `SigningBlock.PairsPanicExactly` | internal/analyzers/signing.go:259-272 | the walk panics if and only if the length it stops at overflows position + 8 + length |
| `SigningBlock.ReadBlockPanicsExactly` | internal/analyzers/signing.go:240-272 | reading a block panics if and only if there is one and its size field overflows size + 8 or the walk over its pairs stops at a length that overflows |
| `SigningBlock.LocatePanicsExactly` | internal/analyzers/signing.go:196-274 | for any file whatever: the reader panics if and only if a whole end record is found and the block in front of its directory has an overflowing size field or pair length |
| `SigningBlock.SizeOverflowIsReachable` | internal/analyzers/signing.go:247-255 | a 54-byte file whose size field makes the reader panic |
| `SigningBlock.PairOverflowIsReachable` | internal/analyzers/signing.go:259-272 | a 66-byte file with a right size field whose pair length makes the reader panic |
| `SigningBlock.CollectDistinct` | internal/analyzers/signing.go:266-270 | with distinct ids every id gets its own value |
| `SigningBlock.CollectAdds` | internal/analyzers/signing.go:266-270 | the collected ids are the known ones and those of the pairs |
| `SigningBlock.LocateUndoesAssembly` | internal/analyzers/signing.go:196-274 | contents, block, directory and end record put together are taken apart again: three offsets, the end record, and the pairs |
| `Signers.CertificatesFromSignedData` | internal/analyzers/signing.go:367-393 | the certificates are the non-empty fields of the second field, or a bare DER certificate |
| `Signers.CertificatesReadBack` | internal/analyzers/signing.go:367-393 | encoded certificates come back, empty ones dropped |
| `Signers.ParseSchemeSignerList` | internal/analyzers/signing.go:306-348 | for every byte string, the signers whose fields can all be read, with v3's eight extra bytes skipped |
| `Signers.ListReadBack` | internal/analyzers/signing.go:306-348 | every nested encoding of a signer list is parsed back to the same signers, for v2 and v3 |
| `ContentDigest.ApkContentDigest` | internal/analyzers/signing.go:564-625 | the three sections are hashed in pieces of at most 1 MiB, the piece counter and the digests are hashed again; a section that cannot be read gives no digest |
| `ContentDigest.EqualDigests` | internal/analyzers/signing.go:575-582 | equal top-level hashes mean the same pieces, or two different hashed inputs with one hash are exhibited |
| `ContentDigest.SectionsRecovered` | internal/analyzers/signing.go:600-619 | the directory offset patched into the last piece tells where the contents end, so equal pieces mean equal sections |
| `ContentDigest.DigestSound` | internal/analyzers/signing.go:560-632 | for any fixed-length hash, equal digests of two files mean equal contents, central directory and patched end record, or an exhibited collision |
| `Verify.FirstRecordIsFirst` | internal/analyzers/signing.go:501-558 | the first wanted record of a sequence is the one taken |
| `Verify.RecordReadBack` | internal/analyzers/signing.go:501-558 | an encoded record of id and length-prefixed payload is read back, whatever follows it |
| `Verify.FindSignature` | internal/analyzers/signing.go:501-526 | the first record with a supported algorithm id, together with that algorithm |
| `Verify.FindDigest` | internal/analyzers/signing.go:531-558 | the first digest record with the given id |
| `Verify.GenuineIsJudgedVerified` | internal/analyzers/signing.go:441-496 | the checks end in a positive verdict if and only if signature, key type, certificate key and recomputed digest are all right |
| `Verify.VerifySchemeSigner` | internal/analyzers/signing.go:441-496 | true exactly for a genuine signer; otherwise the note names the first check that failed |
| `Verify.VerifySchemeSigners` | internal/analyzers/signing.go:426-437 | true exactly when there are signers and all of them are genuine; otherwise the note is that of the first that is not |
| `Verify.VerifiedFilesAgree` | internal/analyzers/signing.go:441-496 | two files that verify under one signed statement protect the same bytes, or a hash collision is exhibited |
| `Signing.InspectAPKSigningMaterial` | internal/analyzers/signing.go:87-147 | for every file: v3.1, v3 and v2 are tried in this order, the first with readable signers is the one reported, and it is verified if and only if all of its signers are genuine; or the block reader panics |
| `Signing.GenuineExactly` | internal/analyzers/signing.go:441-496 | a signer read back from its encoding is genuine if and only if its first supported signature and its first digest record for that algorithm are right for the file |
| `Signing.SignedFilesVerifyExactly` | internal/analyzers/signing.go:87-147 | end to end: contents, signing block, directory and end record put together are located, the signers under the preferred scheme are parsed, and the file is judged verified if and only if each of them signs the contents, the directory and the end record with its offset replaced |
| `Dex.InRange` | internal/analyzers/anti_analysis.go:594-599 | the 64-bit check is exactly off + size <= length |
| `Dex.EntryInTable` | internal/analyzers/anti_analysis.go:524-535 | inside a table that passed its check, the 32-bit offset of every entry is exact and the guard against a short table cannot fire |
| `Dex.ReadString` | internal/analyzers/anti_analysis.go:570-591 | a length of at most five bytes is skipped and the text ends at the first NUL; none if the buffer ends first |
| `Dex.DexStrings` | internal/analyzers/dexscan.go:23-48 | for every buffer, the readable strings of the pool in order, or which header check failed |
| `Dex.DexTypeName` | internal/analyzers/anti_analysis.go:546-567 | the wrapping, guarded lookup equals the plain one without wrapping and guards |
| `Dex.DexClassNames` | internal/analyzers/anti_analysis.go:509-543 | for every buffer, the descriptors of the resolvable classes in order, or which header check failed; the loop never breaks early |
| `DexEncoder.StringReadBack` | internal/analyzers/anti_analysis.go:570-591 | a NUL-free string item with any ULEB128 length below 2^32 is read back |
| `DexEncoder.StringsReadBack` | internal/analyzers/dexscan.go:23-48 | from every layout of a file the string pool is read back completely and in order |
| `DexEncoder.ClassNamesReadBack` | internal/analyzers/anti_analysis.go:509-543 | from every layout of a file the class descriptors are read back through class, type and string tables, dangling indices left out |
| `DexEncoder.EveryClassNamed` | internal/analyzers/anti_analysis.go:509-543 | without dangling indices there is one name per class, each its own descriptor |
| `DexEncoder.DexRoundTrip` | internal/analyzers/anti_analysis.go:509-591 | encoding and reading is the identity on strings and descriptors |
| `MachO.WalkCommands` | internal/analyzers/macho.go:344-389 | the flags and library names of at most the announced number of commands, in order, until one does not fit |
| `MachO.InspectCommand` | internal/analyzers/macho.go:358-384 | what one command tells: a non-zero encryption id, or a non-empty NUL-terminated name inside the command |
| `MachO.ParseSlice` | internal/analyzers/macho.go:312-390 | for every buffer and offset, architecture, encryption flag and libraries are those of the specification |
| `MachO.UnionIsUnion` | internal/analyzers/macho.go:459-473 | the result extends the list without repeats and holds exactly the non-empty strings of both |
| `MachO.UnionKeepsOrder` | internal/analyzers/macho.go:459-473 | what is added stands in the order of first occurrence |
| `MachO.DedupeStrings` | internal/analyzers/macho.go:459-473 | the result is the union of nothing with the list |
| `MachO.NativeLib.ParseFAT` | internal/analyzers/macho.go:268-308 | architectures are extended by those of the slices without repeats, the flag is the disjunction, libraries are joined and deduplicated; an implausible slice count changes nothing |
| `MachO.NativeLib.Inspect` | internal/analyzers/macho.go:225-245 | a file of 32 bytes and more with one of the six magic numbers is read as universal or thin and fills the fresh record accordingly; any other file leaves it empty |
| `MachOEncoder.CommandReadBack` | internal/analyzers/macho.go:346-384 | a load command in either byte order is read back |
| `MachOEncoder.ImageReadBack` | internal/analyzers/macho.go:312-390 | an image in either byte order and width, at any offset of any buffer, tells its architecture, encryption flag and libraries in order |
| `MachOEncoder.FormDoesNotMatter` | internal/analyzers/macho.go:317-330 | two encodings of one image read alike wherever they lie |
| `MachOEncoder.UniversalReadBack` | internal/analyzers/macho.go:268-308 | a universal file announces exactly its slices and tells what its images tell, whatever form each is in, with 32- and 64-bit tables |
| `MachOEncoder.ContainerDoesNotMatter` | internal/analyzers/macho.go:208-308 | an image inspects alike as a thin file and as the only slice of a universal file, in any two byte orders and widths |
| `NscReader.NscPolicy.ApplyNode` | internal/analyzers/nsc.go:177-263 | the tree reader adds exactly the contributions of the node and what is below it, and the last base-config that has the attribute decides the base flag |
| `NscReader.NscPolicy.ApplyDomainConfig` | internal/analyzers/nsc.go:207-261 | one policy per non-blank domain, one pin per pin set and domain or a global one, and the flags |
| `NscReader.NscPolicy.ReadDecoded` | internal/analyzers/nsc.go:104-162 | the decoded reader fills in the policy its specification says |
| `NscAgree.PinProduct` | internal/analyzers/nsc.go:239-260 | listing pins set by set or domain by domain gives the same pins equally often |
| `NscAgree.DomainConfigsAgreeExactly` | internal/analyzers/nsc.go:118-161 | on a domain-config both readers agree, up to pin order, if and only if it has no pin set, no domain element, or a non-blank one |
| `NscAgree.BaseConfigsAgree` | internal/analyzers/nsc.go:105-116 | on a base-config both readers contribute exactly the same |
| `NscAgree.ReadersAgree` | internal/analyzers/nsc.go:100-263 | for every config that otherwise keeps to the schema both readers give equal base flags, and equal domain policies in order, flags and pins with multiplicity if and only if the pin sets of every domain-config apply to domains both see |
| `NscAgree.ReadersDiffer` | internal/analyzers/nsc.go:118-161 | a domain-config with one blank domain and one pin set: the tree reader reports a global pin, the decoded reader none |
| `NscFindings.NetworkFindings` | internal/analyzers/nsc.go:311-399 | the findings of a policy in the order of the source |
| `NscFindings.ReportTree` | internal/analyzers/nsc.go:165-173 | reading a tree and reporting gives the findings of the tree's policy |
| `NscFindings.ReportDecoded` | internal/analyzers/nsc.go:100-163 | reading a decoded document and reporting gives the findings of its policy |
| `NscFindings.PinOrder` | internal/analyzers/nsc.go:370-387 | permuting the pins permutes their findings |
| `NscFindings.BothFormsReportTheSame` | internal/analyzers/nsc.go:311-399 | the decoded and the compiled form of a config that keeps to the schema and has usable domains report the same findings equally often |
| `NscFindings.CompilingKeepsFindings` | internal/analyzers/nsc.go:88-173 | compiling a config to binary XML in any way (string pool layout and order, resource map, text runs, raw or typed attributes), parsing the bytes and reporting gives the findings of decoding the XML and reporting |
| `Pipeline.StepInv` | internal/pipeline/pipeline.go:189-254 | every enabled step of tasks, main loop or outside world keeps the scheduler's invariant |
| `Pipeline.ScheduleIsSafe` | internal/pipeline/pipeline.go:174-254 | in every state of every schedule at most MaxConcurrency tasks hold a token, each slot was written at most once and by its own task, and no scanner has started before every first-phase analyzer returned |
| `Pipeline.EachRunsOnce` | internal/pipeline/pipeline.go:189-254 | without fail-fast and cancellation every complete schedule runs each analyzer exactly once and writes its slot exactly once |
| `Pipeline.BeginsOnce` | internal/pipeline/pipeline.go:197-205 | no analyzer is run twice, and one was run if and only if its task got past its beginning |
| `Pipeline.ScannersSeeTheFirstPhase` | internal/pipeline/pipeline.go:249-254 | the barrier: all that a scanner can see of a first-phase analyzer is what that one left for good, whole if it was run and nothing if it was refused |
| `Pipeline.StepWorks` | internal/pipeline/pipeline.go:189-254 | every step uses up part of a finite amount of work |
| `Pipeline.NeverStuck` | internal/pipeline/pipeline.go:189-254 | an unfinished run always has an enabled step other than cancelling |
| `Pipeline.EveryScheduleCompletes` | internal/pipeline/pipeline.go:189-254 | every schedule can be completed without cancelling, within a bounded number of steps |
| `Schedules.SteadyGivesReference` | internal/pipeline/pipeline.go:174-254 | if no analyzer reacts to how far its own group has come, every undisturbed schedule fills every slot with what a run with one worker gives |
| `Schedules.OneWorkerIsSteady` | internal/pipeline/pipeline.go:192 | with MaxConcurrency 1 no configuration reacts to the schedule |
| `Schedules.ReferenceOccurs` | internal/pipeline/pipeline.go:174-254 | with any number of workers some schedule gives what one worker gives |
| `Schedules.InterleavingMattersExactly` | internal/pipeline/pipeline.go:174-254 | all undisturbed schedules fill the slots alike if and only if no analyzer returns anything else over a view of its own group that fewer unfinished predecessors than workers allow |
| `Races.BlindIsSteady` | internal/analyzers/analyzer.go:32-43 | if no analyzer looks at what its own phase leaves, which is what the phases promise, the interleaving does not matter for any number of workers |
| `Races.FirstLook` | internal/pipeline/pipeline.go:189-254 | any of the first MaxConcurrency analyzers of the first phase may find the session directory empty, and then reports what it returns over that |
| `Races.ReadersRace` | internal/pipeline/pipeline.go:189-254 | with two workers or more an analyzer that needs the output of an earlier one of its own phase makes the interleaving matter |
| `Races.Overlooks` | internal/pipeline/pipeline.go:189-254 | with two workers or more an analyzer of the first phase may overlook any single earlier one, whatever the others do |
| `Races.ReaderHasTwoResults` | internal/pipeline/pipeline.go:189-254 | a reader of the first phase among analyzers that do not look at their phase has both results, that with the files of the earlier one and that without, while all the others have one |
| `Races.JadxRacesSdk` | internal/analyzers/sdk.go:466-510 | the library inventory reads what jadx writes in the same phase: with two workers or more, whatever blind analyzers stand between and behind them and whatever scanners follow, one schedule reports the library's version and another reports it as unknown |
| `Races.DefaultListRaces` | cmd/mobiscope/analyze.go:737-778 | so for the default Android list with its four workers: jadx, four analyzers that read the target only, sdk, two scanners |
| `Sessions.Collect` | internal/pipeline/pipeline.go:256-279 | results, findings, failed tools and first error in registration order, slots without a tool name left out |
| `Sessions.ScheduleIndependence` | internal/pipeline/pipeline.go:174-285 | a steady configuration and one that differs from it by fewer workers only report the same session on every two undisturbed schedules |
| `Sessions.PartialExactly` | internal/pipeline/pipeline.go:256-285 | for every configuration, an undisturbed run is partial if and only if some slot holds an error under a tool name, and completed otherwise |
| `Sessions.SlotsAreResults` | internal/pipeline/pipeline.go:205-230 | without fail-fast and cancellation every filled slot holds what its analyzer returns over some view of the session directory, in the first phase one without scanners |
| `Sessions.NamelessFailuresAreHidden` | internal/pipeline/pipeline.go:258-261 | an analyzer whose failures come without a tool name is not noticed: the session is the one without its slot, and alone it counts as completed |
| `Sessions.FailureWithoutNameIsLost` | internal/pipeline/pipeline.go:258-261 | such an analyzer and a run that completes although it failed |
| `FailFast.FailFastVerdict` | internal/pipeline/pipeline.go:189-254 | with fail-fast and a steady configuration the first phase reports an error if and only if one of its analyzers fails with one worker; if it does not, the same holds of the second phase; without any error all slots are those of one worker |
| `Sessions.FailFastAborts` | internal/pipeline/pipeline.go:280-285 | with fail-fast an undisturbed run of a steady configuration fails if and only if some analyzer of either phase fails with one worker |
| `Findings.FingerprintIdentifies` | internal/pipeline/diff.go:17-26 | without bars in the joined fields, two findings share a fingerprint if and only if they are the same issue |
| `Findings.BarFreeIsMaximal` | internal/pipeline/diff.go:21-26 | findings without bars but in the evidence are a largest collection without collisions: such a finding shares its fingerprint with no other such issue, and every other finding does share it with one of them |
| `Findings.FingerprintExactly` | internal/pipeline/diff.go:21-26 | to have a rule, and no bar in tool, rule and file, is exactly the condition under which a finding shares its fingerprint with its own issue only, whatever the other finding looks like |
| `Findings.RuleAlias` | internal/pipeline/diff.go:21-26 | every finding without a rule has the fingerprint of an issue with one |
| `Findings.FingerprintsCanCollide` | internal/pipeline/diff.go:21-26 | with a bar in a title two different issues can share a fingerprint |
| `Findings.DedupKeyIdentifies` | internal/pipeline/dedup.go:32-39 | without bars, two findings share a key if and only if category, title, file, line and snippet hash agree |
| `Findings.DedupKeyJoins` | internal/pipeline/dedup.go:32-39 | for all findings, bars or not, two share a key if and only if line, snippet hash and the joined text of category, title and file agree |
| `Findings.DedupKeyExactly` | internal/pipeline/dedup.go:32-39 | freedom from bars in category, title and file is exactly the condition under which a finding shares its key with none but those that agree in category, title, file, line and snippet hash |
| `Findings.DedupKeysCanCollide` | internal/pipeline/dedup.go:36-39 | with a bar in a title two different findings can share a key |
| `Diff.DiffFindings` | internal/pipeline/diff.go:31-68 | for every fingerprint the new findings hold max(0, new - old) occurrences as an order-preserving subsequence, the resolved ones are the mirror image, and new + unchanged and resolved + unchanged are the two sizes, in whatever order the map is summed |
| `Diff.ExcessPrints` | internal/pipeline/diff.go:41-58 | the occurrences past the other side's count are the multiset difference of fingerprints |
| `Diff.ExcessSubsequence` | internal/pipeline/diff.go:41-58 | they keep their order |
| `Diff.FilterBaseline` | internal/pipeline/diff.go:72-86 | the survivors are the findings whose fingerprint is not in the baseline, in order, and the suppressed ones are counted |
| `Diff.BaselineFingerprints` | internal/pipeline/diff.go:89-95 | exactly the fingerprints that occur |
| `Diff.SurvivorsAreNew` | internal/pipeline/diff.go:70-95 | what a baseline of the old findings lets through is a subsequence of the new findings of the diff |
| `Cluster.Dedup` | internal/pipeline/dedup.go:16-30 | the first finding of each key, in order |
| `Cluster.DedupedKeys` | internal/pipeline/dedup.go:16-30 | no first finding is lost, no key remains twice, and nothing is invented |
| `Cluster.DedupedOrder` | internal/pipeline/dedup.go:16-30 | deduplication keeps the order of findings |
| `Cluster.SortByLocation` | internal/pipeline/dedup.go:60-66 | a permutation of the indices ordered by file and line |
| `Cluster.ClusterFindings` | internal/pipeline/dedup.go:43-102 | exactly one representative per signature, least by file and line; triage needed if and only if representative; nothing but the three cluster fields changes; the count is that of shared signatures, whatever the order of groups and of equal locations |
| `Cluster.ClusteringIsDetermined` | internal/pipeline/dedup.go:43-102 | without equal locations inside a class the outcome is unique |
| `Cluster.PropagateClusterVerdicts` | internal/pipeline/dedup.go:106-134 | only members other than the representative change, and only in the six assessment fields |
| `Cluster.VerdictsAgree` | internal/pipeline/dedup.go:43-134 | after clustering, any reordering and any triage of representatives, every member of a class agrees with a representative that has a verdict, and nothing else changes |
| `Router.DefaultModel` | internal/llm/router.go:165-185 | the triage task's model if it names this provider, else that of the first such task in name order, else the built-in one |
| `Router.DefaultModelIsUnique` | internal/llm/router.go:165-185 | the model does not depend on map order, and is built in or taken from a task bound to this very provider |
| `Router.TryProvider` | internal/llm/router.go:100-122 | a provider is accepted if and only if it is configured, permitted and available; the policy error is raised exactly for a configured provider that is not permitted |
| `Router.FindFirst` | internal/llm/router.go:124-150 | the least name, in string order, among the providers of a kind that answer, if any does |
| `Router.RouteTask` | internal/llm/router.go:47-98 | task, default provider and search are tried in this order, and a policy refusal met on the way is what gets reported |
| `Router.RoutingIsDetermined` | internal/llm/router.go:154-163 | for given answers there is one outcome: the order in which maps are walked cannot change a route |
| `Router.RouteIsPermitted` | internal/llm/router.go:44-46 | a route always leads to a configured provider that the policy permits and that answered |
| `Router.RouteFailsExactly` | internal/llm/router.go:83-98 | with steady availability routing fails if and only if no permitted provider is up, and blames the policy if and only if it forbids a configured task provider or the default one |
| `Router.ConfiguredComesFirst` | internal/llm/router.go:47-82 | with steady availability the task's provider is the one used if it is configured, permitted and up, and otherwise the default one if that is |
| `Router.LocalComesFirst` | internal/llm/router.go:124-152 | while a local provider is up, a cloud provider is used only if the configuration names it for this purpose or as the default and it is permitted and up |
| `Order.OneAscendingList` | internal/llm/router.go:154-163 | a set of names has exactly one sorted list |
| `Order.SortedNames` | internal/llm/router.go:156-163 | the keys of a map in ascending order, whatever order they are met in |
| `Retry.RetryableExactly` | internal/llm/retry.go:47-79 | an error is retried if and only if it is transient in some respect and permanent in none |
| `Retry.BackoffIsExact` | internal/llm/retry.go:129-136 | if the maximum times the base without some of its factors of two stays below 2^63, the shift and clamp give min(base * 2^(attempt-1), max) on every attempt, overflow included, and the delay lies between half and three quarters of it |
| `Retry.MillisecondsAreExact` | cmd/mobiscope/analyze.go:455-459 | with the eight seconds that commands set, every base of whole milliseconds up to 73.786 seconds gives the exact delays |
| `Retry.ClampIsRightExactly` | internal/llm/retry.go:129-134 | for all positive settings the clamped shift is right if and only if it did not overflow or overflowed to a value that is clamped |
| `Retry.ClampIsAlwaysRightExactly` | internal/llm/retry.go:129-134 | from the settings alone: the clamped shift is right on all attempts if and only if at no place of the word that a shift brings to the top the base, freed of its factors of two, has a zero bit, higher bits, and lower bits that come out below the maximum |
| `Retry.OverflowCanUndercut` | internal/llm/retry.go:129-134 | a base of whole milliseconds with which, under the eight seconds that commands set, the third attempt waits less than three milliseconds |
| `Retry.RunWithRetry` | internal/llm/retry.go:83-126 | the loop's calls, waits and result are those of the specification |
| `Retry.RetryIsBounded` | internal/llm/retry.go:83-126 | at most MaxRetries + 1 calls, none after a success or a permanent error, and waits without a server hint of at most three quarters of the maximum delay each |
| `Triage.TriageOne` | internal/llm/triage.go:177-267 | one finding is rendered, answered from the cache or by a retried call, and updated; a failure leaves it as it was |
| `Triage.ApplyResponse` | internal/llm/triage.go:269-308 | an answer that parses sets verdict, confidence, texts and cost, one that does not makes the finding inconclusive; no other finding changes |
| `Triage.RunTriage` | internal/llm/triage.go:91-168 | for every batch and world: each eligible finding before the stop has had its turn with the one route of its kind, every other finding is untouched, the count and the reported error are exact, and the log lists every routing decision and call |
| `Triage.CallsArePermitted` | internal/llm/triage.go:91-168 | over the whole log, every call goes to a configured provider the policy permits for that very finding: cloud needs the permission, and a secret needs the second one |
| `Triage.RoutedOncePerKind` | internal/llm/triage.go:95-116 | a route is resolved exactly once for each kind of finding met and never for a kind not met, so at most twice |
| `Triage.CallsAreBounded` | internal/llm/triage.go:147-157 | a batch makes at most processed * (MaxRetries + 1) calls |
| `Triage.ConfirmedExactly` | internal/llm/triage.go:269-308 | a finding is confirmed if and only if it was routed, got an answer, and that answer parses to a confirmation |
| `Triage.EveryEligibleFindingIsJudged` | internal/llm/triage.go:118-158 | after an uncancelled run every eligible finding has one of the three verdicts and every other finding is untouched |
| `Triage.TriageTouchesRepresentatives` | internal/llm/triage.go:118-158 | run on clustered findings, triage changes only representatives and only their model fields, which is what verdict propagation relies on |
| `Triage.EveryClassEndsWithOneVerdict` | internal/llm/triage.go:91-168 | from clustering over any sorting and an uncancelled triage run to propagation: every finding of a class ends with its representative's assessment, and that has a verdict unless the representative is informational |
| `Triage.FirstFailureIsFirst` | internal/llm/triage.go:136-153 | the reported error is the first policy failure of the batch, and there is none if and only if no finding had one |
| `Escape.EscapeUntrusted` | internal/llm/prompts.go:116-121 | the loop applies the eleven replacements one after the other |
| `Escape.PassCreatesNothing` | internal/llm/prompts.go:97-121 | a replacement pass removes its own sequence and creates none of the others |
| `Escape.EscapingCloses` | internal/llm/prompts.go:97-121 | no escaped text contains any of the eleven sequences, and a text stays as it is if and only if it contains none |
| `Escape.EscapingIsIdempotent` | internal/llm/prompts.go:114-121 | escaping twice is escaping once |
| `Escape.EscapingIsOneScan` | internal/llm/prompts.go:97-121 | the eleven passes together do what one scan that replaces whatever sequence it meets would do |
| `Truncate.TruncateContext` | internal/llm/prompts.go:123-134 | a text within the budget is returned unchanged, a longer one is cut at the last rune start within the budget, and a negative budget panics |
| `Truncate.CutKeepsWholeRunes` | internal/llm/prompts.go:123-134 | of a text of whole runes the longest prefix of whole runes that fits is kept |
| `CacheKey.Key` | internal/llm/cache.go:45-52 | the key is the truncated hash of the four length-prefixed fields in order |
| `CacheKey.ReadUndoesPreimage` | internal/llm/cache.go:40-49 | the records are read back whatever the fields contain, digits, colons and bars included |
| `CacheKey.SameKeySameRequest` | internal/llm/cache.go:40-52 | two requests share a key only if all fields agree or their truncated hashes collide |
| `Metrics.StepInv` | internal/metrics/metrics.go:28-47 | every step of every thread keeps the invariant and never replaces or lowers a counter |
| `Metrics.NoLostUpdates` | internal/metrics/metrics.go:28-37 | in every interleaving, for every key, the stored count plus the adds still to come is the number of increments called; at rest nothing is to come |
| `Metrics.OneHolder` | internal/metrics/metrics.go:29-35 | at most one thread is inside the locked section |
| `Metrics.CountersAreKept` | internal/metrics/metrics.go:28-37 | however a run goes on, a stored counter stays the same counter and does not fall |
| `Metrics.SnapshotsGrow` | internal/metrics/metrics.go:39-47 | a later snapshot has every key of an earlier one with at least its count, and no snapshot runs ahead of the counters |
| `Metrics.CostsAddUp` | internal/metrics/metrics.go:101-109 | the cost total is the committed costs added in the order of their commits, for any addition, rounding or not |
| `Metrics.FailedSwapMeansProgress` | internal/metrics/metrics.go:102-108 | a swap fails only if another cost was committed since its load |
| `AnalyzerMetrics.ExecutionsAddUp` | internal/metrics/metrics.go:78-86 | in every interleaving a tool's runs, time and errors plus what its threads still owe are what was called for, and errors never exceed runs |
| `AnalyzerMetrics.NothingIsOwedAtRest` | internal/metrics/metrics.go:78-86 | when all threads are idle the counters are exactly what was called for |

## Left out

- Cryptography, certificate parsing and SHA-256: abstract functions; signature checks are parameters of `Verify`.
- UTF-16 surrogates, floating-point formatting, the table of framework attribute names, JSON, XML and template libraries, regular expressions and secret redaction: parameters, or not modelled.
- `encoding/xml` is represented by `Nsc.Decode`, which says what it fills in for a tree that keeps to the schema with distinct attribute names; malformed XML and its errors are not part of this model.
- White-space trimming and case folding in the network security config are parameters, of which only the behaviour on the empty string is used.
- The numbers inside error messages; errors are told apart by kind only.
- The session directory is modelled as what each analyzer has left in it, absent, half-written or whole, and an analyzer sees of another's files one of these; which files there are, and analyzers that overwrite each other's files, are not.
- Of the signing material, the v1 files inside the archive, the certificate's facts, rotation and source stamp; scheme choice, signers and verdict are modelled.
- Files other than that, logging, clocks, and the persistence of sessions and cached answers; the answer cache is an oracle.
- The pipeline's dry run, stage filter, inventory phase, attribution of origins, and the recomputation of repackaging findings.
- hasRotationProof, extractInstallName, and the kind of a binary guessed from its path: small lookups.
- Tool wrappers, HTTP providers, the API server, reporters and commands.
- The signature by which findings are clustered (trimmed, lower-case title, extension) and the hash that makes a cluster id are parameters; `Cluster.VerdictsAgree` asks that ids tell the signatures at hand apart.
- A provider's kind and its IsLocal answer are one value, as in every provider of the repository.
- Counters in `Metrics` and `AnalyzerMetrics` are unbounded; the source's 64-bit counters wrap after 2^63 increments.
- Token cost accounting and log output of triage.
- FailFast.FailFastVerdict: claims nothing of the scanners after a failed first phase, because what they see of a cancelled phase depends on the schedule; `Pipeline.ScannersSeeTheFirstPhase` says what that can be.
- Sessions.ScheduleIndependence: asks for steady configurations, because it is false of all others (`Schedules.InterleavingMattersExactly`).
- Dex.DexStrings: asks for a buffer below 2^32 bytes, because callers read at most 64 MiB of a file; what larger buffers would do is not modelled.
- Dex.DexClassNames: asks for a buffer below 2^32 bytes, for the same reason.
- Dex.DexTypeName: asks for tables that fit the buffer, which its only caller has checked.
- Aliasing of findings across slices: clustering, propagation and triage update one array in place; deduplication and diff work on values, as the source copies findings.
