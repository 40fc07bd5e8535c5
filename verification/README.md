# Verification of the BTF engine and of three smaller cores

A model, in Dafny, of the parts of this repository with the most state and the
most branching, and proofs of what they are for.  Each `.dfy` file is one module.

**BTF deduplication** (`BtfWords`, `IdMaps`, `TypeMeaning`, `BtfCompare`,
`BtfSection`, `DedupState`, `DedupEquiv`, `DedupMerge`, `DedupHistory`,
`DedupPrims`, `DedupStructs`, `DedupRefs`, `DedupCompact`, `BtfDedup`).  A type is
the sequence of 32-bit words of its record; a section is the array of words with the
array of offsets, and both are changed in place.  What a type ID means is its
unfolding to every depth
(`TypeMeaning.Bisim`): all words that are not type IDs, and what the type IDs lead
to.  Where everything is a complete definition the exact unfolding counts; where
forward declarations or declared-only enums occur, the unfolding that looks at
structs, unions and enums only by kind and name.  The canonical map is proved to be
a forest that links only IDs of equal meaning, in every state of every pass.  The
graph comparison is proved by bisimulation up to the map, and complete for types that
can be paired, forward declarations included.  The main result is
`BtfDedup.DedupTypes`.

**BTF builder, serializer and parser** (`BtfFormat`, `BtfBuild`, `BtfRaw`).  The
section grows by calls of `btf__add_*`; written in either byte order it is parsed,
on a machine of either byte order, to the same types, index and strings.

**BTF-to-C dumper** (`DumpOrder`, `DumpRepeat`, `DumpDecl`, `DumpPrinter`,
`DumpPadding`).  The emission order is topological, holds nothing that is not needed,
and fails exactly on circular definitions; declarations are read back, by a reader for
the declarator grammar of C, as the types they were printed for; padding puts members
where they were.

**Loader generator** (`LoaderMachine`, `LoaderFeed`, `LoaderGen`,
`LoaderGiven`).  A small-step machine runs the instruction list, a parameter deciding
the outcome of every command; all programs that the generator can emit have a shape for
which every run ends well, and each call's contract says which commands it adds,
whether their failure ends the run, and what they are given: in every run the attributes
hold it when the command is reached.

**Hash map** (`HashMap`): bucket chains of linked entries that refine a finite map.
**Line-info index** (`LineInfo`).  **SHA-256** (`Sha256`, `Sha256Constants`), against
FIPS 180-4.
**Checksum and authentication option** (`IpOption`).  **Bit I/O** (`BitIO`) and
**phrase substitution** (`Phrases`).

Where the code does less than its purpose asks, the model follows the code, gives the
input, and states what holds for all inputs: a struct entry count of 65536
(`BtfBuild.Btf.AddEntry`), a bit-field behind an implicit gap
(`DumpPadding.LostBitField`, exactly when in `DumpPadding.Printer.EmitStructDef`), a
length check that wraps around (`LineInfo.WrapsAround`, exactly when in
`LineInfo.WithinLength`), a typedef queued twice (`DumpRepeat.QueuedTwice`, at most when
in `DumpOrder.DumpType`), two option searches that disagree (`IpOption.SearchesPart`,
exactly when in `IpOption.SearchesMeet`).

Three preconditions of deduplication come from C itself or from the source's own
comments: direct containment of structs is well founded (`Nested`), names are unique
strings, and, for maximal sharing only, each compilation unit is free of duplicates
(`UnitsDeduped`).  `CTypes` for the dump order says that references other than
through a struct are not circular and that functions are neither members, elements,
parameters nor results.

## Model

| member | source | states |
|---|---|---|
| BtfDedup.DedupTypes | Network Authentication/lib/libbpf/src/btf.c:3039-3102 | The whole run, in place on the section: it fails with -ELOOP only if references run in a circle and with -EINVAL only if a type that is no tag, variable or data section refers to one of these; it succeeds only if no circle exists, and then every type ID means, under its new number and to every depth, what it meant before; if every compilation unit was free of duplicates, the result is free of duplicates exactly when the variables were; for the merges of structs that the run has made, and every struct that shares its new ID with another was part of one, a forward declaration paired with a definition has become one |
| BtfDedup.Canonize | Network Authentication/lib/libbpf/src/btf.c:3054-3089 | The primitive, struct, forward-declaration and reference passes, in this order, decide every type; the map stays a forest that links only IDs of equal meaning, and what the struct merges have resolved stays resolved |
| BtfDedup.Compact | Network Authentication/lib/libbpf/src/btf.c:3090-3102 | Compaction and renumbering of a decided run give a section with the meaning preserved, and never fail |
| BtfDedup.ResultAlike | Network Authentication/lib/libbpf/src/btf.c:4663-4761 | Every ID unfolds in the result, at its new number, to the tree it unfolded to before, to any depth |
| BtfDedup.ResultPreserved | Network Authentication/lib/libbpf/src/btf.c:4663-4761 | The same as a statement about all IDs and views; every record of the result comes from some ID |
| BtfDedup.ResultBisim | Network Authentication/lib/libbpf/src/btf.c:4663-4761 | Two IDs of the result mean the same exactly when the canonical types behind them did |
| BtfDedup.ResultUnique | Network Authentication/lib/libbpf/src/btf.c:4663-4761 | The result has no two IDs of equal meaning exactly when no two canonical types had equal meaning |
| BtfDedup.ResultReported | Network Authentication/lib/libbpf/src/btf.c:4204-4265 | In the result of every merge on record, neither a recorded pair nor anything that the two records of a pair refer to holds a forward declaration where the other side has a definition: its new ID is a struct or union |
| BtfDedup.SecondRunKeepsAll | Network Authentication/lib/libbpf/src/btf.c:3039-3102 | What is free of duplicates loses nothing to another run: distinct IDs get distinct new IDs |
| BtfDedup.NonePlacedWrongly | Network Authentication/lib/libbpf/src/btf.c:4717-4729 | After the earlier passes the -EINVAL case of remapping cannot occur: everything resolves to a kept type |
| IdMaps.MakeRoot | Network Authentication/lib/libbpf/src/btf.c:3156-3181 | Making any ID its own root, or unmapped, keeps the map a forest |
| IdMaps.Link | Network Authentication/lib/libbpf/src/btf.c:3742-3857 | Redirecting an ID keeps the map a forest if the chain of the new target avoids it; chains then end where they should |
| IdMaps.LinkToRoot | Network Authentication/lib/libbpf/src/btf.c:4289-4345 | Linking to a root that is another ID keeps the forest |
| IdMaps.LinkRoot | Network Authentication/lib/libbpf/src/btf.c:4204-4265 | Linking a root below a node of another tree keeps the forest |
| IdMaps.LinkedRoots | Network Authentication/lib/libbpf/src/btf.c:4204-4265 | Linking one root to another moves the roots of exactly that tree |
| DedupState.Dedup.ResolveTypeId | Network Authentication/lib/libbpf/src/btf.c:3852-3857 | Following a forest ends, at the root of the ID's tree |
| DedupState.RootSound | Network Authentication/lib/libbpf/src/btf.c:3852-3857 | In a sound map an ID means what the root it resolves to means |
| DedupState.Dedup.ResolveFwdId | Network Authentication/lib/libbpf/src/btf.c:3863-3877 | A resolved forward declaration stands for its definition, any other ID for itself |
| DedupState.SameRootBisim | Network Authentication/lib/libbpf/src/btf.c:3852-3857 | Two IDs that resolve to the same root mean the same |
| TypeMeaning.BisimFromChildren | Network Authentication/lib/libbpf/src/btf.c:4018-4176 | Records of equal label whose references mean the same mean the same |
| TypeMeaning.BisimUnfold | Network Authentication/lib/libbpf/src/btf.c:4018-4176 | The converse: IDs of equal meaning have equal labels and references of equal meaning |
| TypeMeaning.UpToSound | Network Authentication/lib/libbpf/src/btf.c:4018-4176 | A relation that is a bisimulation up to equality of meaning relates only IDs of equal meaning |
| TypeMeaning.AlikeTrans | Network Authentication/lib/libbpf/src/btf.c:4018-4176 | Unfolding alike is transitive at every depth |
| BtfCompare.HashStruct | Network Authentication/lib/libbpf/src/btf.c:3505-3519 | The loop computes the signature hash of a struct or union, in 64-bit wrap-around arithmetic |
| BtfCompare.HashFnproto | Network Authentication/lib/libbpf/src/btf.c:3602-3615 | The same for function prototypes |
| BtfCompare.SameLabelSameHash | Network Authentication/lib/libbpf/src/btf.c:3381-3643 | Records that agree in everything but type IDs are filed under one hash, so equal types are always candidates for one another |
| BtfCompare.EqualEnum | Network Authentication/lib/libbpf/src/btf.c:3469-3479 | Enum comparison is equality of records, enumerators included |
| BtfCompare.CompatEnum | Network Authentication/lib/libbpf/src/btf.c:3486-3498 | Compatible are equal enums, and a declared-only enum with any enum of its name |
| BtfCompare.ShallowEqualStruct | Network Authentication/lib/libbpf/src/btf.c:3526-3545 | True exactly when the records agree in everything but the members' type IDs |
| BtfCompare.EqualFnproto | Network Authentication/lib/libbpf/src/btf.c:3624-3643 | True exactly when the records are equal |
| BtfCompare.CompatFnproto | Network Authentication/lib/libbpf/src/btf.c:3650-3670 | True exactly when the records agree in everything but type IDs |
| DedupEquiv.IdenticalArrays | Network Authentication/lib/libbpf/src/btf.c:3886-3896 | A positive answer means that the two arrays mean the same |
| DedupEquiv.IdenticalStructs | Network Authentication/lib/libbpf/src/btf.c:3899-3923 | It ends, because direct containment is well founded, and a positive answer means equal meaning |
| DedupEquiv.HypotMapAdd | Network Authentication/lib/libbpf/src/btf.c:3156-3171 | The list of recorded pairs and the map stay in step |
| DedupEquiv.IsEquiv | Network Authentication/lib/libbpf/src/btf.c:4018-4176 | It ends; 1 leaves recorded pairs that form, with the pair at hand, a bisimulation up to the current map, and all that two paired records refer to has in turn been paired or resolves to one type; 0 is never the answer where some pairing, each canonical type with one type, matches the two, incomplete types included; -EINVAL only when a type that is no tag, variable or data section refers to one of these |
| DedupEquiv.SecondPairing | Network Authentication/lib/libbpf/src/btf.c:4037-4075 | A canonical ID met again is accepted for its recorded partner, or for one that is identical |
| DedupEquiv.EquivNodes | Network Authentication/lib/libbpf/src/btf.c:4076-4176 | The comparison by kind settles the recorded pair and does not reject paired IDs; if just one side is a forward declaration of the same name, the answer is 1 exactly for equal kinds |
| DedupEquiv.EquivFwd | Network Authentication/lib/libbpf/src/btf.c:4082-4101 | A forward declaration against a struct or union of its name |
| DedupEquiv.EquivMembers | Network Authentication/lib/libbpf/src/btf.c:4138-4154 | The members of two structs or unions, in order |
| DedupEquiv.EquivFnproto | Network Authentication/lib/libbpf/src/btf.c:4156-4170 | Result and parameters of two prototypes, in order |
| DedupEquiv.PendingDone | Network Authentication/lib/libbpf/src/btf.c:4018-4176 | A recorded pair all of whose references have been compared is settled |
| DedupEquiv.PairedChild | Network Authentication/lib/libbpf/src/btf.c:4018-4176 | What paired records refer to is paired or resolves to one type, so the comparison of references may not say no |
| DedupPrims.FindEnum | Network Authentication/lib/libbpf/src/btf.c:3742-3825 | An enum takes the candidate the code takes; one with enumerators has redirected every declared-only candidate of its name that it has passed, and a declared-only one has passed no enum of its name |
| DedupPrims.ChosenSound | Network Authentication/lib/libbpf/src/btf.c:3742-3825 | Recording the choice keeps the map a forest of IDs of equal meaning |
| DedupPrims.ChosenUnique | Network Authentication/lib/libbpf/src/btf.c:3742-3825 | Recording the choice keeps the canonical types pairwise different in meaning |
| DedupPrims.ChosenSettled | Network Authentication/lib/libbpf/src/btf.c:3742-3825 | After each primitive type: no declared-only enum is canonical beside an enum of its name that has enumerators |
| DedupPrims.DedupPrimTypes | Network Authentication/lib/libbpf/src/btf.c:3827-3837 | After the pass every primitive type is decided, links lead to decided IDs only, no two canonical ones mean the same, and no declared-only enum is canonical beside one of its name with enumerators |
| DedupMerge.MergePairSound | Network Authentication/lib/libbpf/src/btf.c:4204-4265 | Merging the roots of a pair of equal meaning never closes a cycle |
| DedupMerge.MergeHypotMap | Network Authentication/lib/libbpf/src/btf.c:4204-4265 | The map becomes the one that merging the recorded pairs in order gives; for each pair, if just one of the two resolved to a forward declaration neither does now, and an undecided struct or union whose partner was canonical is decided; only undecided composites and forward declarations change |
| DedupMerge.RoundMerges | Network Authentication/lib/libbpf/src/btf.c:4217-4263 | One round does this for its own pair, whatever the rounds before it have done |
| DedupHistory.MetResolved | Network Authentication/lib/libbpf/src/btf.c:4204-4265 | Two IDs that a successful comparison has put side by side, one a forward declaration, the other a definition: both resolve to a definition from then on |
| DedupStructs.SettledPairs | Network Authentication/lib/libbpf/src/btf.c:4018-4176 | A map of settled pairs relates only IDs of equal meaning |
| DedupStructs.TryCandidate | Network Authentication/lib/libbpf/src/btf.c:4316-4335 | One candidate: 1 only for equal meaning, and then all pairs are merged and no forward declaration paired with a definition is left; 0 only where no pairing matches the two, and only for different meaning when the units have no duplicates |
| DedupStructs.ChooseStruct | Network Authentication/lib/libbpf/src/btf.c:4311-4335 | The candidates in turn, leaving the map sound; the type stays canonical only if it can be paired with no canonical candidate |
| DedupStructs.UnitsPairable | Network Authentication/lib/libbpf/src/btf.c:4018-4176 | In units without duplicates IDs of equal meaning can be paired |
| DedupStructs.DedupStructTypes | Network Authentication/lib/libbpf/src/btf.c:4347-4357 | After the pass every struct and union is decided, and canonical ones differ in meaning when the units have no duplicates |
| DedupStructs.FillUniqueNamesMap | Network Authentication/lib/libbpf/src/btf.c:4529-4561 | Per name the only canonical struct or union, or 0 where several share it |
| DedupStructs.ResolveFwds | Network Authentication/lib/libbpf/src/btf.c:4563-4650 | Exactly the forward declarations whose name has one canonical struct or union, of the announced kind, are resolved to it; nothing else changes |
| DedupRefs.OrderedNoCycle | Network Authentication/lib/libbpf/src/btf.c:4383-4507 | An order in which each reference leads to something earlier rules out a cycle of reference kinds |
| DedupRefs.DedupRefType | Network Authentication/lib/libbpf/src/btf.c:4383-4507 | The canonical ID of a type, which means what the type means; -ELOOP only on a cycle of reference kinds |
| DedupRefs.FixRefs | Network Authentication/lib/libbpf/src/btf.c:4398-4488 | All references of a type are replaced, in place, by canonical IDs of equal meaning |
| DedupRefs.FindEqualRef | Network Authentication/lib/libbpf/src/btf.c:4405-4488 | The first candidate equal word for word, if there is one |
| DedupRefs.RewrittenAlike | Network Authentication/lib/libbpf/src/btf.c:4383-4507 | Rewriting references in place changes the meaning of no ID |
| DedupRefs.EqualRewrittenBisim | Network Authentication/lib/libbpf/src/btf.c:4383-4507 | Records that became equal meant the same all along |
| DedupRefs.DedupRefTypes | Network Authentication/lib/libbpf/src/btf.c:4509-4522 | It ends on every graph, fails with -ELOOP exactly when some cycle consists of reference kinds only, and else decides every type |
| DedupRefs.OneCanonical | Network Authentication/lib/libbpf/src/btf.c:4383-4522 | Maximal sharing: canonical IDs of equal meaning are one |
| DedupRefs.CanonicalsUnique | Network Authentication/lib/libbpf/src/btf.c:4383-4522 | After the pass canonical types differ in meaning exactly when the variables do |
| DedupCompact.KeptAt | Network Authentication/lib/libbpf/src/btf.c:4663-4709 | A canonical type is found under its new ID |
| DedupCompact.KeptFrom | Network Authentication/lib/libbpf/src/btf.c:4663-4709 | Every new ID belongs to a canonical type |
| DedupCompact.KeptOrder | Network Authentication/lib/libbpf/src/btf.c:4663-4709 | The order of canonical types is kept |
| DedupCompact.MoveStep | Network Authentication/lib/libbpf/src/btf.c:4686-4697 | Moving a record down overwrites no word and no offset that is still to be read |
| DedupCompact.CompactTypes | Network Authentication/lib/libbpf/src/btf.c:4663-4709 | In place: afterwards the section holds exactly the canonical types, in their original order, with dense IDs |
| DedupCompact.RemapTypes | Network Authentication/lib/libbpf/src/btf.c:4741-4761 | Every type ID in every record becomes the new ID of what it resolves to; -EINVAL only if something resolves to a type without new ID |
| BtfSection.Section.TypeById | Network Authentication/lib/libbpf/src/btf.c:450-470 | The offset index finds the record of an ID |
| BtfSection.Section.SetWord | Network Authentication/lib/libbpf/src/btf.c:4717-4729 | Overwriting a type ID changes that word of that record and nothing else |
| BtfSection.MoveDown | Network Authentication/lib/libbpf/src/btf.c:4686-4697 | Overlapping move towards the front |
| BtfFormat.SwapBytes | Network Authentication/lib/libbpf/src/btf.c:1255-1303 | Writing swapped words is writing in the other byte order |
| BtfFormat.WordsBytes | Network Authentication/lib/libbpf/src/btf.c:1255-1303 | Words written are read back in the same byte order |
| BtfFormat.SwapWords | Network Authentication/lib/libbpf/src/btf.c:329-411 | Swapping what was read is reading in the other byte order |
| BtfBuild.Btf.AddStr | Network Authentication/lib/libbpf/src/btf.c:1518-1538 | The offset of a string that is there, or is appended; strings never move |
| BtfBuild.Btf.AddRecord | Network Authentication/lib/libbpf/src/btf.c:1551-1563 | One record more, with the name, kind and content asked for; the offsets still tile the section exactly |
| BtfBuild.Btf.AddEntry | Network Authentication/lib/libbpf/src/btf.c:2049-2061 | One entry more in the last record: right exactly if the entries are fewer than 65536 |
| BtfBuild.Btf.AddInt | Network Authentication/lib/libbpf/src/btf.c:1757-1795 | Error conditions and record of btf__add_int |
| BtfBuild.Btf.AddFloat | Network Authentication/lib/libbpf/src/btf.c:1805-1836 | The same for floats |
| BtfBuild.Btf.AddRefKind | Network Authentication/lib/libbpf/src/btf.c:1850-1877 | The same for kinds that refer to one type |
| BtfBuild.Btf.AddFwd | Network Authentication/lib/libbpf/src/btf.c:2255-2281 | The same for forward declarations, those of enums included |
| BtfBuild.Btf.AddFunc | Network Authentication/lib/libbpf/src/btf.c:2359-2377 | The same for functions, with their linkage |
| BtfBuild.Btf.AddArray | Network Authentication/lib/libbpf/src/btf.c:1900-1927 | The same for arrays |
| BtfBuild.Btf.AddComposite | Network Authentication/lib/libbpf/src/btf.c:1930-1957 | The same for structs and unions |
| BtfBuild.Btf.AddField | Network Authentication/lib/libbpf/src/btf.c:2009-2062 | A member more, with the bit-field rules and error conditions of the source |
| BtfBuild.Btf.AddEnum | Network Authentication/lib/libbpf/src/btf.c:2064-2094 | Enums of either width |
| BtfBuild.Btf.AddEnumValue | Network Authentication/lib/libbpf/src/btf.c:2126-2172 | An enumerator more, negative ones setting the flag |
| BtfBuild.Btf.AddEnum64Value | Network Authentication/lib/libbpf/src/btf.c:2203-2244 | A 64-bit enumerator more |
| BtfBuild.Btf.AddFuncProto | Network Authentication/lib/libbpf/src/btf.c:2391-2415 | Prototypes |
| BtfBuild.Btf.AddFuncParam | Network Authentication/lib/libbpf/src/btf.c:2425-2466 | A parameter more |
| BtfBuild.Btf.AddVar | Network Authentication/lib/libbpf/src/btf.c:2478-2514 | Variables |
| BtfBuild.Btf.AddDatasec | Network Authentication/lib/libbpf/src/btf.c:2528-2555 | Data sections |
| BtfBuild.Btf.AddDatasecVarInfo | Network Authentication/lib/libbpf/src/btf.c:2567-2603 | A section entry more |
| BtfBuild.Btf.AddDeclTag | Network Authentication/lib/libbpf/src/btf.c:2615-2645 | Declaration tags |
| BtfBuild.TextStays | Network Authentication/lib/libbpf/src/btf.c:1518-1538 | Adding strings changes no string that is there |
| BtfBuild.OneMore | Network Authentication/lib/libbpf/src/btf.c:1546-1549 | Counting one entry more keeps the record well sized exactly if the count was below 65535 |
| BtfBuild.TilesUnique | Network Authentication/lib/libbpf/src/btf.c:413-449 | The offsets of a section are determined by its data |
| BtfRaw.SwapRest | Network Authentication/lib/libbpf/src/btf.c:336-411 | All words of a record after its header are swapped, kind by kind |
| BtfRaw.SwapTypes | Network Authentication/lib/libbpf/src/btf.c:1276-1290 | Every word of the copied section is swapped, each record read while its info word is native |
| BtfRaw.RawData | Network Authentication/lib/libbpf/src/btf.c:1255-1303 | Writing with swapping gives the bytes that a machine of the other byte order writes without |
| BtfRaw.ParseHeader | Network Authentication/lib/libbpf/src/btf.c:220-267 | Accepts exactly headers that read right in one byte order and describe what is there; -ENOTSUP exactly for foreign headers of another length |
| BtfRaw.WalkOn | Network Authentication/lib/libbpf/src/btf.c:413-449 | One record further, every possible index still begins with the offsets found |
| BtfRaw.ParseTypes | Network Authentication/lib/libbpf/src/btf.c:413-449 | Succeeds exactly if the section can be tiled by records, and then finds the tiling, the data swapped in place if foreign |
| BtfRaw.New | Network Authentication/lib/libbpf/src/btf.c:867-915 | Parses exactly what is well formed in the machine's own or the other byte order |
| BtfRaw.FormatReadable | Network Authentication/lib/libbpf/src/btf.c:220-449 | What is written in either byte order is well formed for every machine, in that order only, and holds the same types and strings |
| BtfRaw.WriteAndParse | Network Authentication/lib/libbpf/src/btf.c:1255-1303 | The round trip: types, index and strings are recovered, whatever the byte orders of writer and reader |
| DumpOrder.Dumper.constructor | Network Authentication/lib/libbpf/src/btf_dump.c:277-297 | A new dumper has queued nothing |
| DumpOrder.PathSettled | Network Authentication/lib/libbpf/src/btf_dump.c:469-614 | From a settled visit everything needed is settled, and earlier |
| DumpOrder.MetAgain | Network Authentication/lib/libbpf/src/btf_dump.c:504-518 | Meeting a type that is being ordered, where a forward declaration would not do, shows a circular definition |
| DumpOrder.UnderWay | Network Authentication/lib/libbpf/src/btf_dump.c:504-518 | A visit under way whose type is met again is not settled in between |
| DumpOrder.TypedefAgain | Network Authentication/lib/libbpf/src/btf_dump.c:566-582 | A typedef queued below itself is one of a function type, and leads back to itself |
| DumpOrder.OrderType | Network Authentication/lib/libbpf/src/btf_dump.c:469-614 | The three-colour search, kind by kind: settles the visit, keeps the queue topological, queues only definitions that the visits under way need, each once but for typedefs of function types that lead back to themselves, and fails only on circular definitions |
| DumpOrder.OrderStruct | Network Authentication/lib/libbpf/src/btf_dump.c:549-578 | A struct or union: its members by value first, then itself if it is named |
| DumpOrder.OrderProto | Network Authentication/lib/libbpf/src/btf_dump.c:583-603 | Result and parameters of a prototype |
| DumpOrder.DumpType | Network Authentication/lib/libbpf/src/btf_dump.c:277-297 | After any calls, what a queued type needs by value was queued before it; what a call queues is a definition that the type asked for needs, structs and unions not only through pointers; nothing stands twice in the queue but typedefs of function types that lead back to themselves; -ELOOP exactly when the definitions needed by a type that is no function are circular |
| DumpRepeat.QueuedTwice | Network Authentication/lib/libbpf/src/btf_dump.c:566-603 | An input on which a typedef is queued twice, before and after the struct that its function takes, in every run from an untouched dumper |
| DumpRepeat.QueuedOnce | Network Authentication/lib/libbpf/src/btf_dump.c:566-603 | An input on which such a typedef is queued once |
| DumpRepeat.TypedefTwice | Network Authentication/lib/libbpf/src/btf_dump.c:566-603 | The call of the dumper on this input |
| DumpDecl.DeclarationReads | Network Authentication/lib/libbpf/src/btf_dump.c:1416-1596 | A printed declaration, read by the declarator grammar of section 6.7.6 of ISO/IEC 9899:2011, denotes the chain it was printed from, up to qualifiers directly on arrays and functions |
| DumpDecl.DeclaratorReads | Network Authentication/lib/libbpf/src/btf_dump.c:1416-1596 | The same for declarators, whatever follows them |
| DumpDecl.ParamsRead | Network Authentication/lib/libbpf/src/btf_dump.c:1548-1586 | The same for parameter lists |
| DumpDecl.DeclarationSpaced | Network Authentication/lib/libbpf/src/btf_dump.c:1416-1596 | The spaces printed keep all words apart and change nothing else |
| DumpPrinter.Printer.EmitTypeDecl | Network Authentication/lib/libbpf/src/btf_dump.c:1287-1366 | Prints the declaration of the type's chain and restores the shared stack |
| DumpPrinter.EmitTypeChain | Network Authentication/lib/libbpf/src/btf_dump.c:1416-1596 | Prints what the frame on the stack stands for, and pops it |
| DumpPrinter.EmitMods | Network Authentication/lib/libbpf/src/btf_dump.c:1368-1392 | Prints and pops the qualifiers on top |
| DumpPrinter.EmitParams | Network Authentication/lib/libbpf/src/btf_dump.c:1548-1586 | The parameter list, each parameter by a nested declaration on the same stack |
| DumpPrinter.PrintedReadsBack | Network Authentication/lib/libbpf/src/btf_dump.c:1287-1366 | The declaration printed for any declarable type reads back as that type |
| DumpPadding.FillStep | Network Authentication/lib/libbpf/src/btf_dump.c:928-951 | One filling declaration extends the struct, under the bit-field rules, to where the program counts on |
| DumpPadding.Straddles | Network Authentication/lib/libbpf/src/btf_dump.c:886-951 | A bit-field that would cross a boundary of its type starts at that boundary |
| DumpPadding.Marked | Network Authentication/lib/libbpf/src/btf_dump.c:886-926 | Whether or not the boundary marker is printed, the rest of the gap can be filled exactly |
| DumpPadding.Printer.EmitBitPadding | Network Authentication/lib/libbpf/src/btf_dump.c:860-952 | For every gap, alignment and pointer size: the padding ends exactly at the next offset, unless no bit-field precedes and the next member's own alignment leads there; the filling loop ends |
| DumpPadding.Printer.EmitStructDef | Network Authentication/lib/libbpf/src/btf_dump.c:963-1027 | The compiler puts all members of a struct that is not packed where they were exactly if no bit-field is lost, and then the struct has its size |
| DumpPadding.MemberPlaced | Network Authentication/lib/libbpf/src/btf_dump.c:981-1011 | A member is where it was unless it is a bit-field left to an implicit gap |
| DumpPadding.LostBitField | Network Authentication/lib/libbpf/src/btf_dump.c:994-998 | The input on which exactness fails: a bit-field after a member that is none, across a gap that only an ordinary member would force |
| LoaderMachine.CleanupRuns | Network Authentication/lib/libbpf/src/gen_loader.c:131-151 | From any state the cleanup code closes every positive descriptor of the stack slots and of the map array, in order, and leaves the failed command's result in R0 |
| LoaderMachine.BodyStep | Network Authentication/lib/libbpf/src/gen_loader.c:113-154 | One instruction of the body: onwards, or, for a failed command, to the cleanup code |
| LoaderMachine.BodyRuns | Network Authentication/lib/libbpf/src/gen_loader.c:370-406 | From anywhere in the body the run ends with 0, or a command has failed |
| LoaderMachine.FailureSeen | Network Authentication/lib/libbpf/src/gen_loader.c:282-295 | No failure of a checked command goes unnoticed: with any negative result but the excepted one, the run reaches the cleanup code and ends with this very result in R0, everything closed |
| LoaderMachine.LoaderRuns | Network Authentication/lib/libbpf/src/gen_loader.c:113-154 | Over all outcomes of the commands: every run of a program of this shape ends, with R0 = 0, or with the negative result of the failed command after all positive descriptors were closed |
| LoaderGen.Gen.Init | Network Authentication/lib/libbpf/src/gen_loader.c:113-154 | The prologue and the cleanup code have the shape that the machine's theorem needs, at any log level |
| LoaderGen.Gen.EmitCheckErr | Network Authentication/lib/libbpf/src/gen_loader.c:282-295 | The last command's failure counts from now on: the check targets exactly the cleanup label, or generation fails with -ERANGE |
| LoaderGen.Gen.EmitDebug | Network Authentication/lib/libbpf/src/gen_loader.c:298-324 | Debug output keeps the shape |
| LoaderGen.Gen.EmitClose | Network Authentication/lib/libbpf/src/gen_loader.c:344-354 | The jump over a close lands behind it, whatever is logged |
| LoaderGen.Gen.EmitSysCloseStack | Network Authentication/lib/libbpf/src/gen_loader.c:356-360 | Closing a stack slot keeps the shape |
| LoaderGen.Gen.EmitSysCloseBlob | Network Authentication/lib/libbpf/src/gen_loader.c:362-368 | Closing a descriptor of the blob keeps the shape |
| LoaderGen.Gen.LoadBtf | Network Authentication/lib/libbpf/src/gen_loader.c:417-446 | One command more, BTF_LOAD, whose failure counts, given its attributes with the log settings and the data's address filled in; its descriptor goes to the BTF slot, which the cleanup closes |
| LoaderGen.Gen.MapCreate | Network Authentication/lib/libbpf/src/gen_loader.c:448-524 | One command more, MAP_CREATE, whose failure counts, given its attributes with BTF, inner map and number of entries filled in; its descriptor goes to the inner-map slot or to its place in the map array, and an inner map that was used is closed |
| LoaderGen.Gen.GetKsymDesc | Network Authentication/lib/libbpf/src/gen_loader.c:584-611 | One reference more to the symbol of this kind, sort and name; a new entry exactly if there was none |
| LoaderGen.Gen.EmitReloKfunc | Network Authentication/lib/libbpf/src/gen_loader.c:664-733 | All hand-counted jumps of a kernel function relocation land inside it; one lookup more exactly if the symbol is new, whose failure counts unless the symbol is weak |
| LoaderGen.Gen.EmitReloTypeless | Network Authentication/lib/libbpf/src/gen_loader.c:754-785 | The same for symbols without type, -ENOENT being the failure that does not count |
| LoaderGen.Gen.EmitReloBtf | Network Authentication/lib/libbpf/src/gen_loader.c:801-849 | The same for typed symbols |
| LoaderGen.Gen.EmitRelos | Network Authentication/lib/libbpf/src/gen_loader.c:885-891 | One lookup for each symbol that is new, in order, and none for the others |
| LoaderGen.Gen.EmitAttachTarget | Network Authentication/lib/libbpf/src/gen_loader.c:1005-1015 | One lookup, whose failure counts, and the code that stores what it has found where PROG_LOAD expects it |
| LoaderGen.Gen.CleanupRelos | Network Authentication/lib/libbpf/src/gen_loader.c:902-932 | Module descriptors are closed, keeping the shape |
| LoaderGen.Gen.ProgLoad | Network Authentication/lib/libbpf/src/gen_loader.c:934-1032 | The lookup of the attach target, those of the symbols, and PROG_LOAD, whose failure counts, given its attributes with the addresses of the program's data, laid out one after the other, which the lookups in between leave alone; the descriptor goes to the program's own slot |
| LoaderGen.Gen.MapUpdateElem | Network Authentication/lib/libbpf/src/gen_loader.c:1034-1079 | The code that fetches the initial value, and one command more, MAP_UPDATE_ELEM, whose failure counts, given its attributes with the map's descriptor and the addresses of key and value filled in |
| LoaderGen.Gen.PopulateOuterMap | Network Authentication/lib/libbpf/src/gen_loader.c:1081-1106 | One command more, MAP_UPDATE_ELEM, whose failure counts, given the outer map's descriptor, the key's address and that of the inner map's descriptor |
| LoaderGen.Gen.MapFreeze | Network Authentication/lib/libbpf/src/gen_loader.c:1108-1123 | One command more, MAP_FREEZE, whose failure counts, given the map's descriptor |
| LoaderGen.Gen.Finish | Network Authentication/lib/libbpf/src/gen_loader.c:370-406 | An error-free sequence of calls yields a program of the shape that closes the BTF and hands every program and map descriptor to its place in the context; -EFAULT if the numbers of programs and maps do not fit what was announced |
| LoaderGen.JumpsLand | Network Authentication/lib/libbpf/src/gen_loader.c:131-153 | Every jump of a finished body is a check to the cleanup label, or goes forward to the start of an instruction, never into a 64-bit load; every descriptor kept on the stack has a slot the cleanup closes |
| LoaderFeed.RelStoreRuns | Network Authentication/lib/libbpf/src/gen_loader.c:210-218 | Run by the machine, the code of emit_rel_store fills its eight bytes with the address |
| LoaderFeed.BlobToBlobRuns | Network Authentication/lib/libbpf/src/gen_loader.c:220-228 | That of move_blob2blob copies the bytes |
| LoaderFeed.CtxToBlobRuns | Network Authentication/lib/libbpf/src/gen_loader.c:238-250 | That of move_ctx2blob copies the bytes, or leaves the field alone for a zero where it should |
| LoaderFeed.StackToBlobRuns | Network Authentication/lib/libbpf/src/gen_loader.c:252-258 | That of move_stack2blob copies the bytes |
| LoaderFeed.ReadWritten | Network Authentication/lib/libbpf/src/gen_loader.c:210-258 | What is written in any width is read back modulo that width |
| LoaderFeed.AllFilled | Network Authentication/lib/libbpf/src/gen_loader.c:210-258 | Fields that do not overlap, filled in turn, all hold what they should in the end |
| LoaderFeed.SpareStep | Network Authentication/lib/libbpf/src/gen_loader.c:885-891 | A lookup between the fields and the command writes no byte of the attributes but the attach target's |
| LoaderFeed.CommandGiven | Network Authentication/lib/libbpf/src/gen_loader.c:266-275 | In every run of a finished loader that gets to a bpf command, R1, R2 and R3 are the command and the address and size of its attributes, and the fields hold what they should |
| LoaderGiven.UpdateGiven | Network Authentication/lib/libbpf/src/gen_loader.c:1070-1076 | For attribute fields that do not overlap: MAP_UPDATE_ELEM gets the descriptor in the map's place of the array, the address of the key and that of the value |
| LoaderGiven.FreezeGiven | Network Authentication/lib/libbpf/src/gen_loader.c:1116-1120 | MAP_FREEZE gets the descriptor in the map's place of the array |
| LoaderGiven.BtfGiven | Network Authentication/lib/libbpf/src/gen_loader.c:432-441 | BTF_LOAD gets the log settings of the context and the address of the data |
| LoaderGiven.CreateGiven | Network Authentication/lib/libbpf/src/gen_loader.c:476-498 | MAP_CREATE gets the descriptors of BTF and inner map from the stack, and the context's number of entries unless that is zero |
| LoaderGiven.ProgGiven | Network Authentication/lib/libbpf/src/gen_loader.c:977-1018 | PROG_LOAD gets the addresses of the program's data and of the array of descriptors, the log settings and the BTF descriptor, whatever has been looked up in between |
| LoaderGiven.InitialValueRuns | Network Authentication/lib/libbpf/src/gen_loader.c:1048-1068 | The initial value is read by the helper that the flags choose, from the context's address into the value's bytes, and not at all without one |
| LoaderGiven.TargetStored | Network Authentication/lib/libbpf/src/gen_loader.c:1007-1014 | Of what was found for the attach target the lower half goes to the ID and the upper to the descriptor |
| HashMap.HashBits | Network Authentication/lib/libbpf/src/hashmap.h:15-29 | The bucket number is below the number of buckets |
| HashMap.HashMap.FindEntry | Network Authentication/lib/libbpf/src/hashmap.c:130-152 | The first entry of the bucket with an equal key, or there is none anywhere |
| HashMap.HashMap.Find | Network Authentication/lib/libbpf/src/hashmap.c:206-218 | A value stored under an equal key, exactly if there is one |
| HashMap.HashMap.Insert | Network Authentication/lib/libbpf/src/hashmap.c:154-204 | Add, set, update and append: results, error codes and the whole new content |
| HashMap.HashMap.Delete | Network Authentication/lib/libbpf/src/hashmap.c:220-240 | Exactly one entry with an equal key is removed, if there is one |
| HashMap.HashMap.Grow | Network Authentication/lib/libbpf/src/hashmap.c:101-128 | Twice the buckets, at least 4, with the same pairs; chains relinked in place |
| HashMap.MoveChain | Network Authentication/lib/libbpf/src/hashmap.c:111-124 | Moving one chain keeps every entry in exactly one place |
| HashMap.Bypass | Network Authentication/lib/libbpf/src/hashmap.c:31-36 | Unlinking leads around one entry of one chain |
| HashMap.InsertRefines | Network Authentication/lib/libbpf/src/hashmap.c:154-204 | Add, set and update are these operations of a finite map |
| HashMap.DeleteRefines | Network Authentication/lib/libbpf/src/hashmap.c:220-240 | Deletion is removal from a finite map |
| HashMap.NotElsewhere | Network Authentication/lib/libbpf/src/hashmap.c:130-152 | A key that equals none in its bucket equals none at all |
| LineInfo.ProgLineInfo.Dissect | Network Authentication/lib/libbpf/src/bpf_prog_linfo.c:22-86 | Succeeds exactly if the records can be split among the functions by the rules, and then finds the split, which is the only one, with all counts |
| LineInfo.StepScanned | Network Authentication/lib/libbpf/src/bpf_prog_linfo.c:47-75 | What one record decides: the next function starts there, or not, or there is no split |
| LineInfo.StartsIncrease | Network Authentication/lib/libbpf/src/bpf_prog_linfo.c:22-86 | Function starts strictly increase from 0 |
| LineInfo.CountsCover | Network Authentication/lib/libbpf/src/bpf_prog_linfo.c:22-86 | Counts are positive and sum to the number of records |
| LineInfo.OneOwner | Network Authentication/lib/libbpf/src/bpf_prog_linfo.c:22-86 | Every record belongs to exactly one function |
| LineInfo.WithinLength | Network Authentication/lib/libbpf/src/bpf_prog_linfo.c:57-60 | Addresses of every function but the last lie within its length, exactly unless they span the whole 64-bit space, where the check wraps around |
| LineInfo.WrapsAround | Network Authentication/lib/libbpf/src/bpf_prog_linfo.c:57-60 | The input on which the check wraps around |
| LineInfo.New | Network Authentication/lib/libbpf/src/bpf_prog_linfo.c:100-178 | Which inputs give an index, and which fields it has |
| LineInfo.ProgLineInfo.LfindAddrFunc | Network Authentication/lib/libbpf/src/bpf_prog_linfo.c:181-216 | The last record before the first one above the address, after the skipped ones; in every function but the last that is the greatest address not above the query |
| LineInfo.ProgLineInfo.Lfind | Network Authentication/lib/libbpf/src/bpf_prog_linfo.c:219-246 | The same over instruction offsets |
| LineInfo.Greatest | Network Authentication/lib/libbpf/src/bpf_prog_linfo.c:181-246 | On an increasing run the lookup finds the greatest key not above the query |
| Sha256.MacrosAgree | Network Authentication/packet-solutions/xdp_prog_kern_02.c:37-43 | The macros compute the functions of section 4.1.2 of FIPS 180-4 |
| Sha256Constants.FirstPrimes | Network Authentication/packet-solutions/xdp_prog_kern_02.c:58-68 | The list holds exactly the primes up to 311, in order: the first 64 |
| Sha256Constants.CubeRoots | Network Authentication/packet-solutions/xdp_prog_kern_02.c:58-68 | Entry t of the table k is the first 32 bits of the fractional part of the cube root of the t-th prime, section 4.2.2 |
| Sha256Constants.SquareRoots | Network Authentication/packet-solutions/xdp_prog_kern_02.c:173-182 | The initial state is that of the square roots of the first eight primes, section 5.3.3 |
| Sha256.Context.FillSchedule | Network Authentication/packet-solutions/xdp_prog_kern_02.c:103-117 | The schedule of section 6.2.2, step 1 |
| Sha256.Context.Transform | Network Authentication/packet-solutions/xdp_prog_kern_02.c:94-162 | The state becomes the hash value of section 6.2.2 after one more block |
| Sha256.Context.Init | Network Authentication/packet-solutions/xdp_prog_kern_02.c:164-185 | The context stands for the empty message |
| Sha256.Context.Update | Network Authentication/packet-solutions/xdp_prog_kern_02.c:187-215 | The context stands for the message with the input appended, however it is cut into chunks |
| Sha256.HoldsPadded | Network Authentication/packet-solutions/xdp_prog_kern_02.c:223-258 | One or two last blocks end the padded message of section 5.1.1, with the length modulo 2^64 |
| Sha256.Context.Final | Network Authentication/packet-solutions/xdp_prog_kern_02.c:217-301 | The output is the digest of everything fed in |
| BitIO.BitWriter.WriteBits | Compression/main.cpp:40-56 | Appends the lowest bits of the value, most significant first |
| BitIO.BitWriter.Flush | Compression/main.cpp:58-69 | The rest goes into a last byte, padded with zeros |
| BitIO.BitReader.ReadBits | Compression/main.cpp:88-107 | The number the next bits stand for, as many as there are |
| BitIO.ValOfBits | Compression/main.cpp:40-56 | Bits of a number stand for the number modulo a power of 2 |
| BitIO.FieldsRoundTrip | Compression/main.cpp:33-112 | Every field is read back modulo its width, whatever the alignment and whatever follows |
| BitIO.WriteAndRead | Compression/main.cpp:33-112 | The round trip through writer and reader, for any list of widths up to 32 |
| Phrases.SplitJoin | Compression/main.cpp:381-405 | Splitting a key gives back the phrase, so different phrases have different keys |
| Phrases.NGramsAre | Compression/main.cpp:211-225 | The n-grams built are exactly the runs of 2 to 5 tokens, each as often as it stands in the text |
| Phrases.CountKeys | Compression/main.cpp:381-387 | How often each phrase occurs |
| Phrases.Compressor.AddPhrase | Compression/main.cpp:410-445 | The trie gains this phrase and no other, and the dictionary spells it |
| Phrases.Compressor.FindRegularPhrases | Compression/main.cpp:371-447 | Exactly the phrases that stand in the text often enough are stored, whatever the order of the table; phrases stored before stay |
| Phrases.WithChildTree | Compression/main.cpp:427-433 | A new child keeps the trie a tree with one node per path |
| Phrases.Compressor.LongestMatch | Compression/main.cpp:454-483 | The longest stored phrase of at most five words at a position |
| Phrases.Compressor.ProcessWithPhrases | Compression/main.cpp:450-503 | Expanding the result gives back the tokens, and every replacement is the longest possible |
| Phrases.Lossless | Compression/main.cpp:450-503 | The same from the replacements alone |
| IpOption.Checksum | Network Authentication/packet-solutions/xdp_prog_kern_02.c:310-332 | The complement of the folded sum of the words |
| IpOption.FoldKeeps | Network Authentication/packet-solutions/xdp_prog_kern_02.c:324-328 | Folding keeps the sum modulo 65535, and is 0 for 0 only |
| IpOption.OtherOrder | Network Authentication/packet-solutions/xdp_prog_kern_02.c:310-332 | In the other byte order the sum is 256 times as large modulo 65535 |
| IpOption.ChecksumValid | Network Authentication/packet-solutions/xdp_prog_kern_02.c:310-332 | With the checksum in place the words fold to all ones, for a receiver of either byte order |
| IpOption.AddIpOption | Network Authentication/packet-solutions/xdp_prog_kern_02.c:334-407 | The frame with the option inserted, edited in place; fails exactly for frames shorter than the two headers |
| IpOption.TaggedValid | Network Authentication/packet-solutions/xdp_prog_kern_02.c:334-407 | The header sent has the length it announces and a valid checksum |
| IpOption.FindOption | Network Authentication/packet-solutions/hash_verifier.c:115-144 | The first hash option that a walk over well-formed options from the first one on meets; nothing only if no such walk meets one |
| IpOption.SearchesMeet | Network Authentication/packet-solutions/hash_verifier.c:184-205 | For the options of any header: the second search finds the option of the first one exactly if the lengths in front of it are in line, and otherwise none |
| IpOption.Rebuild | Network Authentication/packet-solutions/hash_verifier.c:89-205 | Which hash and which header the verifier compares: the one option whose hash was taken is removed exactly if the lengths in front of it are in line, and otherwise none is |
| IpOption.RemoveOption | Network Authentication/packet-solutions/hash_verifier.c:184-205 | The rest moved over the option that the second search finds |
| IpOption.SearchesPart | Network Authentication/packet-solutions/hash_verifier.c:184-205 | An input on which the second search misses the option: a no-operation before it |
| IpOption.SearchesMeetAgain | Network Authentication/packet-solutions/hash_verifier.c:184-205 | An input on which the searches fall out of step and still meet |
| IpOption.TagRebuilds | Network Authentication/packet-solutions/hash_verifier.c:149-205 | Insertion undone: from a tagged frame without other options the hash and the original header are recovered |

## Left out

- Split BTF, `btf_ext`, `hypot_adjust_canon`: deduplication is modelled for a BTF of its own.
- String deduplication: names are compared by offset, as after `btf_dedup_strings`.
- Memory allocation failure; capacities other than the limits of the source are unbounded.
- Exact meaning in the presence of forward declarations: matching them is not transitive, so only kind and name are compared there (the tag view).
- The hash function values of `btf_hash_common` and others are modelled, the collision-hash option is not.
- BtfBuild.Btf.AddStr: the string set's hash map is a finite map from strings to offsets, as proved for the hash map.
- BtfBuild.Btf.AddRefKind: functions that rewrite the info word after it pass it the final one instead.
- BtfRaw.RawData: cached raw data, and sizes whose sum exceeds 32 bits, are not modelled.
- `btf__add_type` and `btf__add_btf`.
- DumpOrder.DumpType: requires that references form no cycle without a struct or union, on which the source does not return (a typedef of itself), and that functions are neither members, elements, parameters nor results, as in C; what is ordered is modelled, not the text of definitions, name clashes or missing aliases.  That a typedef of a function type is queued twice only if it leads back to itself is proved one way: it may then be queued once all the same (`DumpRepeat.QueuedOnce`), in general depending on which other types earlier calls have ordered; printing skips the second, which is not modelled.
- DumpOrder.Dumper.constructor: the marking of anonymous types referenced by others is an input.
- DumpPrinter.Printer.EmitTypeDecl: struct, union and enum bodies printed in place of an anonymous type are one word; TYPE_TAG and the option to strip qualifiers are not modelled.
- DumpPadding.Printer.EmitStructDef: packed structs and unions are not modelled; struct members come in order and do not overlap.
- LoaderGen.Gen.ProgLoad: the layout of attributes inside the blob is a parameter, the contents that the blob starts with are not modelled, a stored address is its offset in the blob, and CO-RE relocations are only counted.
- LoaderMachine.LoaderRuns: the results of commands and what they write are arbitrary values chosen by a parameter; memory is a map from addresses to bytes.
- HashMap.HashMap.Insert: growth beyond 2^60 buckets counts as lack of memory; clearing and iteration are not modelled.
- LineInfo.ProgLineInfo.LfindAddrFunc: records are addressed by number; the 32-bit product of number and record size is not modelled.
- Sha256.Context.Update: the fixed-size map entries that hold the context are fields of an object, and looking them up always succeeds.
- Phrases.Compressor.FindRegularPhrases: trie nodes are places in a table instead of pointers; frequencies kept for statistics only are left out.
- Wildcard phrases, for which substitution loses words, and the whole file round trip, whose writer and reader use different tags.
- BitIO.BitReader.ReadBits: `has_more`, which is always true.
- IpOption.AddIpOption: the room gained in front of the packet always suffices; VLAN frames and headers that had options before are not handled by the source.
- IpOption.Rebuild: the capture must hold the whole header, which the source does not check; printing and the test of the Ethernet type are left out.
- Equality of the two digests: the key bytes that the two programs hash differ.
