# Godot ClassDB dumper — a verified model of its memory-introspection core

Godot-AutoDumper attaches to a running Godot game and finds the engine's class
registry (`ClassDB::classes`) in the executable's memory. The registry is a
hash map whose elements form a doubly linked list. The dumper then decodes
every registered class: its name, its parent, its method binds and its
properties. Last, it estimates each property's byte offset inside the class.

This project models that core in Dafny:

- **Memory access** (`memory.dfy`). The target's address space is a fixed snapshot, `map<int, byte>`. A read either fails or returns exactly the bytes that were asked for. Also here: the plausibility test for pointers, C strings, and the `StringName` decoder with its narrow and UTF-32 forms.
- **Section table** (`process.dfy`). The PE section table is read from the module's DOS and PE headers.
- **Header scoring** (`scanner.dfy`, `scanner_facts.dfy`). This is the heuristic that rates a 48-byte window as a possible registry header. It applies structural rejections, a size bonus, and a bounded walk of up to 20 list nodes with a class-name test and ClassInfo checks.
- **Sweep** (`sweep.dfy`). The data sections are swept in 8-byte steps, and every window scoring above 100 becomes a candidate. The candidates are then stably sorted by score, highest first.
- **Candidate choice** (`dumper.dfy`). The first candidate whose sample names contain `Object` is picked, else the best-scoring one.
- **Decoding** (`parser.dfy`, `classmap.dfy`, `classmap_facts.dfy`, `registry.dfy`). Method binds, the per-class method and property maps, and the class map keyed by name.
- **Field layout** (`layout.dfy`). Each property is placed after its parent's fields on 8-byte boundaries, and cycles in the parent chain are cut.

The shared pieces:

- **`chains.dfy`:** the bounded linked-list walk that all four loops share. A walk stops at a null pointer, an unreadable node or an exhausted step budget, and collects what each node contributes.
- **`bytes.dfy`:** little-endian integer decoding.
- **`strings.dfy`:** text as sequences of code points.
- **`constants.dfy`:** the ClassInfo offsets and the Variant type tables.

Pure code becomes functions and lemmas. Loops become methods proved equal to those functions. The layout pass keeps the form of the source, which mutates the class dictionary in place under a shared recursion guard. In the model it is a class, `Layout.ClassTable`, with the class map and the `visited` set as fields.

## Model

| member | source | states |
|---|---|---|
| Bytes.LittleEndianBound | godot_dumper/memory.py:48-54 | an unsigned n-byte little-endian value is below 256^n |
| Bytes.LittleEndianZero | godot_dumper/parser.py:123-124 | a little-endian value is zero exactly when every byte is zero, so a null pointer is eight zero bytes |
| Bytes.U16 | godot_dumper/process.py:90-91 | `'<H'` reads a value below 2^16 |
| Bytes.U32 | godot_dumper/scanner.py:30-31 | `'<I'` reads a value below 2^32 |
| Bytes.U64 | godot_dumper/scanner.py:26-29 | `'<Q'` reads a value below 2^64 |
| Bytes.U16IsLittleEndian | godot_dumper/process.py:90-91 | the 2-byte reader is the little-endian value of the two bytes it covers |
| Bytes.U32IsLittleEndian | godot_dumper/scanner.py:30-31 | the 4-byte reader is the little-endian value of the four bytes it covers |
| Bytes.U64IsLittleEndian | godot_dumper/scanner.py:26-29 | the 8-byte reader is the little-endian value of the eight bytes it covers |
| Bytes.I32 | godot_dumper/parser.py:22-25 | `'<i'` is the two's-complement reading: in [-2^31, 2^31), equal to the unsigned value when non-negative and to it minus 2^32 otherwise |
| Bytes.FlagBitsAreByteParity | godot_dumper/parser.py:48-50 | the flag masks 0x1, 0x100 and 0x10000 test the low bit of bytes 0, 1 and 2 of the flags word |
| Strings.AsciiDecode | godot_dumper/memory.py:77 | decoding with errors ignored yields at most one character per byte, each of them ASCII |
| Strings.AsciiDecodeOfAscii | godot_dumper/memory.py:77 | on pure ASCII bytes the decoder returns the bytes unchanged |
| Strings.AsciiDecodeFrom | godot_dumper/process.py:101 | every decoded character is one of the input bytes |
| Strings.Lower | godot_dumper/scanner.py:140 | lower-casing keeps the length, turns each of A-Z into its lower-case letter, keeps every other character, and leaves no upper-case letter |
| Strings.RemoveAll | godot_dumper/scanner.py:78 | deleting every occurrence of a pattern never lengthens the text |
| Strings.RemoveAllKeeps | godot_dumper/scanner.py:78 | each input character survives or belongs to the deleted pattern |
| Strings.RemoveAllFrom | godot_dumper/scanner.py:78 | each character of the result is a character of the input |
| Strings.RemoveAllKeepsHead | godot_dumper/scanner.py:78 | a first character that cannot start the pattern survives as the first character |
| Memory.MemoryReader.ReadBytes | godot_dumper/memory.py:41-46 | a read succeeds exactly when the whole range is mapped, and then returns exactly `size` bytes |
| Memory.MemoryReader.ReadQword | godot_dumper/memory.py:48-50 | None exactly when the 8-byte read fails; otherwise the little-endian u64 of the mapped bytes |
| Memory.MemoryReader.ReadDword | godot_dumper/memory.py:52-54 | None exactly when the 4-byte read fails; otherwise the little-endian u32 of the mapped bytes |
| Memory.PointerCharacterization | godot_dumper/memory.py:57-65 | a pointer is plausible iff it is at least 0x10000 and lies inside the module or strictly between 0x10000 and 0x7FFFFFFFFFFF; a plausible pointer is never null |
| Memory.PointerBoundaries | godot_dumper/memory.py:57-65 | the edge cases: 0 and 0x10000 are rejected, the module's first and last bytes are accepted, and the end of user space is excluded unless the module covers it |
| Memory.FirstZero | godot_dumper/memory.py:76 | `index(0)` finds the first zero byte, or reports that there is none |
| Memory.ReadCString | godot_dumper/memory.py:68-80 | None for an address below 0x10000, an unreadable window or one with no terminator; any string returned is non-empty, shorter than `max_len`, printable and free of NUL |
| Memory.ReadCStringCases | godot_dumper/memory.py:68-80 | both directions: a string comes back iff the address is at least 0x10000, the window reads, it holds a zero byte, and the decoded text before that zero is non-empty and printable; the string is then exactly that text |
| Memory.CStringIsPrefixBeforeNul | godot_dumper/memory.py:72-78 | on ASCII memory a decoded C string is exactly the bytes before the first zero |
| Memory.Utf32Prefix | godot_dumper/memory.py:102-115 | the wide decoder yields at most one character per complete 4-byte word, never a NUL |
| Memory.Utf32PrefixIsFilteredWords | godot_dumper/memory.py:106-113 | wide decoding is: split into words, cut at the first zero word, drop words at or above 0x110000 |
| Memory.Utf32Example | godot_dumper/memory.py:106-115 | the words 'S', 'p', 0, 'A' decode to "Sp" |
| Memory.StringName | godot_dumper/memory.py:83-116 | None for an implausible pointer or an unreadable header; otherwise the narrow name when it decodes, else the wide one; a name returned is non-empty |
| Memory.DecodeUtf32 | godot_dumper/memory.py:105-113 | the word loop computes exactly the wide decoder's result |
| Memory.ReadStringName | godot_dumper/memory.py:83-116 | the method returns exactly `StringName` |
| Chains.Chain | godot_dumper/parser.py:65-78 | a bounded walk visits at most `fuel` nodes, each with the full node size |
| Chains.ChainFollowsLinks | godot_dumper/parser.py:65-78 | the walk starts at the head, each node is the one its predecessor's next pointer names, no node is null, and each node holds the bytes in memory |
| Chains.ChainStopsForAReason | godot_dumper/parser.py:65-78 | a walk that ends before its bound ends at a null next pointer or an unreadable node |
| Chains.CollectAppend | godot_dumper/parser.py:61-80 | collecting keeps walk order: the yield of a concatenation is the concatenation of the yields |
| Chains.CollectBound | godot_dumper/parser.py:71-74 | if each node contributes at most one record, a walk yields at most one record per node |
| Chains.CollectExact | godot_dumper/scanner.py:60-105 | if each full-size node contributes exactly one record, the walk yields one per node |
| Chains.CollectMembers | godot_dumper/parser.py:61-80 | every record a walk yields was contributed by one of its nodes |
| Chains.CollectAll | godot_dumper/parser.py:61-80 | a property that every node's contribution has, every collected record has |
| Constants.GetCppType | godot_dumper/constants.py:88-90 | a known tag 0..38 maps to its C++ name; any other tag maps to "Variant" |
| Constants.GetTypeSize | godot_dumper/constants.py:93-95 | a tabled tag 0..28 has its tabled size; any other has 8; no size is zero |
| Constants.PackedArraysFallBackToEight | godot_dumper/constants.py:12-95 | the packed-array tags 29..38 are named but unsized, so they take the default size 8 |
| Constants.ClassInfoFieldsFit | godot_dumper/constants.py:6-9 | the method-map, property-map, inherits and name fields all lie inside the 0x200-byte window the decoder reads, and the method map and name lie inside the scanner's 0x190-byte window |
| Process.StripTrailingNul | godot_dumper/process.py:101 | `rstrip(b'\x00')` keeps a prefix, drops only zeros and leaves no trailing zero |
| Process.SectionName | godot_dumper/process.py:101 | a section name has at most eight characters, all ASCII |
| Process.Headers | godot_dumper/process.py:81-94 | a section table is found only when the DOS header is readable and starts with `MZ` |
| Process.HeadersLocateTable | godot_dumper/process.py:81-94 | a table is found iff the DOS header reads with `MZ` and the 264 bytes at `base + e_lfanew` (the u32 at DOS offset 60) read with `PE\0\0`; the table then starts at `base + e_lfanew + 24 + SizeOfOptionalHeader` (u16 at PE offset 20) and declares `NumberOfSections` (u16 at PE offset 6) headers |
| Process.NoPeSignature | godot_dumper/process.py:85-88 | a valid DOS header whose `e_lfanew` names an unreadable header or one without `PE\0\0` yields no sections |
| Process.PeSectionsLocated | godot_dumper/process.py:81-111 | with both signatures valid, the result is the entries read from the table at `base + e_lfanew + 24 + SizeOfOptionalHeader`, `NumberOfSections` of them |
| Process.Entries | godot_dumper/process.py:96-109 | `n` header reads yield at most `n` entries |
| Process.PeSections | godot_dumper/process.py:74-111 | no valid signatures give no sections; otherwise at most the declared number of sections |
| Process.GetPeSections | godot_dumper/process.py:74-111 | the method returns exactly `PeSections` |
| Process.ReadSectionTable | godot_dumper/process.py:96-109 | the loop reads header `i` at `base + offset + 40i` and skips unreadable ones, giving exactly `Entries` |
| Process.EntriesCount | godot_dumper/process.py:96-99 | exactly `n` entries come back iff every one of the `n` reads succeeds |
| Process.EntriesInOrder | godot_dumper/process.py:96-109 | when every read succeeds, entry `k` is section header `k` |
| Process.EntriesFrom | godot_dumper/process.py:96-109 | every entry comes from a successful read among the first `n` |
| Process.PeSectionsInOrder | godot_dumper/process.py:74-111 | with valid signatures and every header readable, there is one section per declared header, in table order |
| Process.NoDosSignature | godot_dumper/process.py:81-83 | an unreadable DOS header or one without `MZ` yields no sections |
| Process.SectionFields | godot_dumper/process.py:102-108 | `va` is the base plus the little-endian VirtualAddress, and `size` is the little-endian VirtualSize |
| Process.AsciiSectionName | godot_dumper/process.py:101 | an ASCII name is the name bytes with the zero padding stripped, and does not end in a zero |
| Scanner.ScoreNodeMeaning | godot_dumper/scanner.py:67-101 | a node is flagged as prev-linked iff its prev pointer is set; it is valid iff its key decodes to a class-like name, and then carries that name; only a valid node has methods or earns points, at most 65 |
| Scanner.ClassInfoPoints | godot_dumper/scanner.py:86-101 | the ClassInfo checks earn 0, 5, 10 or 15 points, with the 5 exactly for a method map, and nothing for an unreadable ClassInfo |
| Scanner.CheckClassInfo | godot_dumper/scanner.py:86-101 | the ClassInfo part of the loop body computes exactly the function's verdict |
| Scanner.ScoreElement | godot_dumper/scanner.py:67-101 | one iteration of the loop body computes exactly that node's score |
| Scanner.VisitNode | godot_dumper/scanner.py:63-103 | a visit appends exactly the node's score and keeps the running totals in agreement with the walk |
| Scanner.WalkNodes | godot_dumper/scanner.py:58-105 | the loop visits exactly the bounded walk of `min(20, size)` nodes, and its totals agree with it |
| Scanner.ScoreWalk | godot_dumper/scanner.py:46-125 | the second half of the method returns the tally of exactly that walk |
| Scanner.ScoreHashmap | godot_dumper/scanner.py:15-125 | the method returns exactly the score and details of `Score` |
| ScannerFacts.ValidNamesAppend | godot_dumper/scanner.py:80 | class names are collected in walk order |
| ScannerFacts.FirstPenaltyOnlyFirst | godot_dumper/scanner.py:72-73 | the broken-list penalty is -20 iff the first node is prev-linked, and later nodes never change it |
| ScannerFacts.TallyBounds | godot_dumper/scanner.py:76-101 | `has_methods <= valid_elements <= nodes`; node points are between 0 and 65 per node; every valid name is class-like; no valid names means no points |
| ScannerFacts.NodeScorerShaped | godot_dumper/scanner.py:67-101 | every node score of a walk is well formed |
| ScannerFacts.ScoresShaped | godot_dumper/scanner.py:60-105 | a walk yields one well-formed score per visited node, and at most `bound` of them |
| ScannerFacts.PenaltyFromHead | godot_dumper/scanner.py:60-73 | the penalty is -20 exactly when the head node is readable and its prev pointer is non-zero |
| ScannerFacts.RejectedScoresZero | godot_dumper/scanner.py:22-44 | an unreadable header scores 0 with empty details; a header is rejected with only size and head iff its size is outside [10, 10000], its capacity index outside (0, 30), or its head or tail pointer implausible |
| ScannerFacts.WalkedScore | godot_dumper/scanner.py:46-119 | (an unfolding of `Score`, kept as the score formula) a walked score is the size bonus plus the first-node penalty plus the node points plus the two count bonuses |
| ScannerFacts.ScoreIsTally | godot_dumper/scanner.py:22-125 | a walked outcome comes from a readable, plausible header and is the tally of its walk |
| ScannerFacts.TallySummary | godot_dumper/scanner.py:107-125 | a tally of well-formed scores has `has_methods <= valid_elements <=` nodes, keeps the first five names as samples, all class-like, and scores between -10 and 1580 |
| ScannerFacts.WalkSummary | godot_dumper/scanner.py:15-125 | the details of any walked header satisfy those bounds, with at most `min(20, size)` nodes visited |
| ScannerFacts.ExactlyHundred | godot_dumper/scanner.py:46-119 | a header with 500..2000 elements, no prev link and no valid element scores exactly 100 |
| ClassDbScan.DataFilter | godot_dumper/scanner.py:138-141 | the filter keeps exactly the sections whose lower-cased name contains `data` or `bss` |
| ClassDbScan.DataFilterAppend | godot_dumper/scanner.py:138-141 | the filter keeps table order and multiplicity: filtering two stretches of table is filtering each, in turn |
| ClassDbScan.DataFilterOne | godot_dumper/scanner.py:138-141 | a single section is kept, once, exactly when it is a data section |
| ClassDbScan.DataSectionsChosen | godot_dumper/scanner.py:138-143 | the swept list is never empty; it is the ordered data-section filter of the table when there is a data section, and the single `full` section covering the module otherwise |
| ClassDbScan.SweepSectionMembers | godot_dumper/scanner.py:145-159 | a candidate comes from a section iff it is kept at some probed address `start + 8k < end - 48` |
| ClassDbScan.SweepAllMembers | godot_dumper/scanner.py:145-159 | a candidate of the unsorted sweep is exactly one found in one of the swept sections |
| ClassDbScan.InsertByScore | godot_dumper/scanner.py:161 | inserting one candidate adds it to the multiset and puts it or the old head first |
| ClassDbScan.SortByScore | godot_dumper/scanner.py:161 | sorting permutes the candidates |
| ClassDbScan.SortedCons | godot_dumper/scanner.py:161 | a head scoring at least the rest keeps a sorted list sorted |
| ClassDbScan.InsertSorted | godot_dumper/scanner.py:161 | inserting into a list sorted by descending score keeps it sorted |
| ClassDbScan.SortByScoreSorted | godot_dumper/scanner.py:161 | the sorted list is ordered by score, highest first, and is a permutation of the input |
| ClassDbScan.InsertKeepsTies | godot_dumper/scanner.py:161 | inserting puts the new candidate before the others of its score |
| ClassDbScan.SortByScoreStable | godot_dumper/scanner.py:161 | the sort is stable: candidates of equal score keep their order |
| ClassDbScan.ScanResultOrdered | godot_dumper/scanner.py:128-162 | the returned list is ordered by descending score, is a permutation of the sweep, and keeps the sweep's order among equal scores |
| ClassDbScan.ScanResultMembers | godot_dumper/scanner.py:128-162 | a candidate is returned iff it is found in a swept section; it scored above 100, its offset is its address less the base, and its score and details are those of `score_hashmap` at its address |
| ClassDbScan.HundredNotKept | godot_dumper/scanner.py:152 | a header scoring exactly 100 is never a candidate |
| ClassDbScan.ProbeAddress | godot_dumper/scanner.py:151-158 | one probe appends exactly that address's candidate, if it has one |
| ClassDbScan.ScanSection | godot_dumper/scanner.py:146-159 | the inner loop appends exactly the section's candidates in address order |
| ClassDbScan.ChooseSections | godot_dumper/scanner.py:138-143 | the method returns exactly the chosen sections |
| ClassDbScan.SweepSections | godot_dumper/scanner.py:145-159 | the outer loop produces exactly the unsorted sweep, section after section |
| ClassDbScan.ScanForClassdb | godot_dumper/scanner.py:128-162 | the method returns exactly `ScanResult`, which the lemmas above characterise |
| Dumper.SelectCandidate | godot_dumper/dumper.py:64-78 | nothing is selected iff there are no candidates; otherwise the selection is the first candidate whose sample names include `Object`, or the first candidate if none does |
| Parser.MethodAtFields | godot_dumper/parser.py:16-53 | a method exists iff the 80-byte bind is readable and its name decodes; id, counts and the three flag bits come from their fixed offsets; the type array is read only for a plausible pointer and a count in [0, 30), and then supplies the return type and exactly `arg_count` argument types |
| Parser.ReadSignature | godot_dumper/parser.py:33-41 | the argument loop computes exactly the signature function |
| Parser.ParseMethod | godot_dumper/parser.py:16-53 | the method returns exactly `MethodAt` |
| Parser.MethodOfNode | godot_dumper/parser.py:69-74 | a method-map node contributes at most one method |
| Parser.DecodeMethodElement | godot_dumper/parser.py:69-74 | one iteration's body computes exactly that node's contribution |
| Parser.DumpClassMethods | godot_dumper/parser.py:56-80 | the loop returns exactly the walk's methods, at most `mm_size + 10` of them |
| Parser.PropertyOfNode | godot_dumper/parser.py:96-103 | a property node contributes at most one property, which has a non-empty name and no offset yet |
| Parser.DecodePropertyElement | godot_dumper/parser.py:96-103 | one iteration's body computes exactly that node's contribution |
| Parser.DumpClassProperties | godot_dumper/parser.py:83-110 | the loop returns exactly the walk's properties, at most `prop_size + 10` of them |
| ClassMap.ClassFromInfo | godot_dumper/parser.py:139-154 | a ClassInfo yields at most one class, with a non-empty name and no size yet |
| ClassMap.ClassAt | godot_dumper/parser.py:136-154 | an element yields at most one class, from the ClassInfo 24 bytes in |
| ClassMap.HeaderAsWrittenRaises | godot_dumper/parser.py:120-130 | a mapped non-zero head qword with an unmapped count dword makes the code as written raise |
| ClassMap.Header | godot_dumper/parser.py:120-124 | the corrected header read never raises, agrees with the code wherever that does not raise, and gives a walk exactly when the head and count are readable and the head is non-zero |
| ClassMap.AllClassesWithoutHeader | godot_dumper/parser.py:123-124 | (an unfolding of `Header`) without a readable non-zero head and a readable count, the result is empty |
| ClassMap.DecodeClassInfo | godot_dumper/parser.py:139-154 | decoding one ClassInfo computes exactly `ClassFromInfo` |
| ClassMap.DecodeClassElement | godot_dumper/parser.py:131-154 | one iteration's body computes exactly that element's class |
| ClassMap.WalkClasses | godot_dumper/parser.py:126-161 | the loop returns exactly the registered classes of the walk |
| ClassMap.DumpAllClasses | godot_dumper/parser.py:113-161 | the method returns exactly `AllClasses` |
| ClassMapFacts.DecoderNamedSingles | godot_dumper/parser.py:139-154 | a class-map node contributes at most one class, named and without a size |
| ClassMapFacts.WalkRegistryNamed | godot_dumper/parser.py:146-154 | registering a walk stores each class under its own non-empty name, without a size |
| ClassMapFacts.WalkRegistryCount | godot_dumper/parser.py:126-161 | a walk registers at most the declared count plus 100 classes; no walk registers none |
| ClassMapFacts.AllClassesKeys | godot_dumper/parser.py:146-149 | the result holds exactly the names the walk decoded |
| ClassMapFacts.AllClassesKeyedByName | godot_dumper/parser.py:149-154 | each class is stored under its own non-empty name, and no class has a size yet |
| ClassMapFacts.AllClassesCount | godot_dumper/parser.py:123-130 | an empty or unreadable header gives no classes; a walk gives at most `size + 100` |
| ClassMapFacts.AllClassesLastWins | godot_dumper/parser.py:149 | a name repeated along the walk keeps the last class that carries it |
| Registry.RegisterAppend | godot_dumper/parser.py:149 | registering two stretches of records is registering them in turn |
| Registry.RegisterKeys | godot_dumper/parser.py:149 | the registered names are the names already present plus those the records carry |
| Registry.RegisterUntouched | godot_dumper/parser.py:149 | a name that no record carries keeps its entry |
| Registry.RegisterLastWins | godot_dumper/parser.py:149 | the entry under a name is the last record that carries it |
| Registry.RegisterCount | godot_dumper/parser.py:149 | registering adds at most one name per record |
| Registry.RegisterValues | godot_dumper/parser.py:149 | every entry was already present or is one of the records |
| Registry.RegisterKeyedByName | godot_dumper/parser.py:149 | entries stay stored under their own name |
| Registry.RegisterWalk | godot_dumper/parser.py:126-161 | a walk of single named contributions registers exactly the carried names, each under its own name, at most one per node |
| Layout.Types | godot_dumper/parser.py:186-187 | the type list has one entry per property, in order |
| Layout.ShapeOf | godot_dumper/parser.py:172-175 | the shape map has exactly the classes' names |
| Layout.AlignUpIsNextMultiple | godot_dumper/parser.py:177-178 | rounding up gives the least multiple of 8 at or above the value |
| Layout.Offsets | godot_dumper/parser.py:186-191 | there is one offset per field |
| Layout.ParentSize | godot_dumper/parser.py:168-181 | `get_parent_size` is never below 8 |
| Layout.SetOffsets | godot_dumper/parser.py:190 | each property gets its own offset and is otherwise unchanged |
| Layout.SetOffsetsKeepsTypes | godot_dumper/parser.py:186-190 | setting offsets keeps every type, and setting them again changes nothing |
| Layout.EndOfAtLeast | godot_dumper/parser.py:175-179 | laying out fields never ends before the start, and properties strictly advance it |
| Layout.OffsetsLayout | godot_dumper/parser.py:186-192 | each field starts on a multiple of 8 at or after the start and leaves room for its own size before the next field; the layout ends where its last field ends |
| Layout.OffsetsIncrease | godot_dumper/parser.py:186-191 | offsets strictly increase in declaration order |
| Layout.OffsetAt | godot_dumper/parser.py:186-191 | field `i` starts at the end of the fields before it, rounded up to a multiple of 8 |
| Layout.RootsStartAtEight | godot_dumper/parser.py:169-170 | (an unfolding of `BaseSize`) a class with no parent, an empty parent name or an unknown parent starts its fields at 8 |
| Layout.CycleIsCut | godot_dumper/parser.py:169-171 | two classes naming each other as parent both get size 8: the cycle is cut at the repeated name |
| Layout.LaidKeepsShape | godot_dumper/parser.py:183-192 | laying out a class keeps its name, parent, methods and property types, and doing it again changes nothing |
| Layout.ShapeOfLaidOut | godot_dumper/parser.py:183-192 | the pass keeps every class name, parent and property type |
| Layout.LayoutIdempotent | godot_dumper/parser.py:164-192 | running the pass twice gives the same result as once |
| Layout.LaidFields | godot_dumper/parser.py:183-192 | every property keeps its name and type and gets an offset that is a multiple of 8 and at least 8; offsets leave room for each field; the class size is where its last field ends, or its base size if it has no properties |
| Layout.LaidOutFields | godot_dumper/parser.py:183-192 | after the pass every class is its own layout against the original shapes, whatever the iteration order |
| Layout.InheritanceExample | godot_dumper/parser.py:164-192 | a root A with no properties has size 8; B extends A with a bool at offset 8 and has size 9; C extends B with an int at offset 16 and has size 24 |
| Layout.ClassTable.constructor | godot_dumper/parser.py:164-166 | the table starts with the given classes and an empty `visited` set |
| Layout.ClassTable.EndOfFields | godot_dumper/parser.py:175-179 | the field loop of `get_parent_size` ends exactly where the fields end |
| Layout.ClassTable.GetParentSize | godot_dumper/parser.py:168-181 | the recursion restores `visited` and the classes, and returns exactly `ParentSize` |
| Layout.ClassTable.PlaceFields | godot_dumper/parser.py:186-192 | the field loop of the pass gives each property exactly its offset and returns the end of the fields |
| Layout.ClassTable.LayOutClass | godot_dumper/parser.py:184-192 | one outer iteration replaces exactly one class by its layout against the original shapes |
| Layout.ClassTable.LayOutNext | godot_dumper/parser.py:183-192 | one turn lays out one more pending class, in any order |
| Layout.ClassTable.CalculateFieldOffsets | godot_dumper/parser.py:164-192 | the in-place pass leaves exactly `LaidOut` of the old classes, with `visited` empty again |
| Layout.PartlyLaidShape | godot_dumper/parser.py:183-192 | part-way through the pass, the names and shapes are those of the original |
| Layout.ShapeOfUpdate | godot_dumper/parser.py:190-192 | replacing a class by one of the same parent and types keeps the map's shape |

## Left out

- The live process is not modelled. Finding the process, `get_module_info`, opening and closing the handle, and `ReadProcessMemory` are replaced by a fixed memory snapshot. A read is all-or-nothing, as a failed partial copy is reported as a failure. The source's short-read checks are kept in form.
- Everything in `dumper.py` apart from the candidate choice is not modelled: printing, JSON and header output, and the interactive flow.
- Text is handled as ASCII only. `decode('utf-8', errors='ignore')` keeps only bytes below 0x80; a valid multi-byte UTF-8 sequence is dropped instead of decoded. `isupper`, `isalnum`, `isprintable` and `lower` treat only ASCII as letters, digits or printable, so a non-ASCII class name is never class-like here.
- `details['head_ptr']` is the number itself, not its `hex()` string.
- `Scanner.Score`: the header's elements and hashes pointers are read by the source but never used, so the model does not decode them.
- `ClassDbScan.SortByScore`: `list.sort(key=…, reverse=True)` is modelled as a stable insertion sort with the same result (same order, same permutation, ties in input order). Timsort's internal steps are not modelled.
- `Layout.ClassTable.CalculateFieldOffsets`: the iteration order of `classes.items()` is not fixed; each turn picks any pending class. The result is proved independent of the order.
- `Layout.ClearLowBits`: `(x + 7) & ~7` is modelled as subtracting `(x + 7) % 8`, which equals it for the non-negative sizes that occur.
- Property offsets are stored in records held by value in the class map. The model writes back a new record instead of mutating the shared property dictionary, so aliasing between dictionaries is not modelled (the source creates no such aliasing).
- `ClassMap.DumpAllClasses` follows the corrected header read `ClassMap.Header`. The source's `TypeError` on a readable head with an unreadable count is kept only in `ClassMap.HeaderAsWritten` (see Findings).

## Findings

| source | as written | input that shows it | evidently intended | confidence | as-written member | corrected member |
|---|---|---|---|---|---|---|
| godot_dumper/parser.py:120-130 | the head qword and the count dword are read separately, and only the head is tested before `size + 100` | a registry address whose head qword (+16) is mapped and non-zero while its count dword (+36) is unmapped: `size` is None and `None + 100` raises `TypeError` | an unreadable count means there is no class map to walk, so the result is `{}` | not executed | ClassMap.HeaderAsWrittenRaises | ClassMap.Header |
