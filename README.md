# genxml.py, modelled in Dafny

genxml.py (ArchiveTools, A2 Collaboration) writes one XML metadata file per
data file handed to an archive. It runs three guards on every argument:
directories are skipped, non-regular files are skipped, and an existing
metadata file is never overwritten. It then classifies the name by its
compression suffix and collects several facts into a `file` element:

- path and name;
- committer, compression label, copy counts and free-text options;
- size and timestamps;
- owner and group;
- MD5/SHA-224 digests of the file, or digests read from the directory's
  `MD5SUM` file;
- digests of the decompressed content, when one of gzip, bzip2 or xz
  decodes it.

It writes the document with its own `fixed_writexml`.

The model has one module per concern:

| module | file | what it models |
|---|---|---|
| `PyPath` | pypath.dfy | `os.path.splitext` and `os.path.split` of Python 2 |
| `Digest` | digest.dfy | the chunked digest loop `md5sum` |
| `Classify` | classify.dfy | the suffix rewrite chain and the metadata path |
| `Inflate` | inflate.dfy | the two-tier decompression attempts and the gzip > bzip2 > xz choice |
| `XmlWriter` | xmlwriter.dfy | `fixed_writexml`, as a `Writer` object whose output grows with every `write` |
| `Decimal` | decimal.dfy | `str` of integers |
| `CliOptions` | options.dfy | the compression label and the owner/group identities |
| `Md5sumFile` | md5sumfile.dfy | the `MD5SUM` line matching |
| `GenXml` | genxml.dfy | one iteration and the loop over all arguments |

**Functions and methods.**

- Loops and writer calls are methods. Each method is proved equal to a
  specification function: `Md5sum`, `WriteXml`, `WriteAttrs`,
  `WriteChildren`, `Classify`, `ProcessFile`, `WriteMetadata`, `Checksums`,
  `PrettyXml` and `Run`.
- The properties are proved about those functions.

**The environment.** The world a run sees is an `Env` of oracles:

- the file-system predicates;
- `os.stat`;
- the account and group databases;
- the byte streams of files;
- the outcome of every decoder and subprocess;
- the two hash functions;
- the character-data escaping.

A run also sees its own writes: a metadata path written for an earlier
argument exists, and is a regular file, for every later argument.

**Behaviour of genxml.py the model keeps as written:**

- `data.tgz` is classified as root `data.tar` with suffix `.gz`. So its
  metadata is `data.tar.xml` and its `inflated` name is `data.tar`
  (`GenXml.CompoundArchiveInDirectory`).
- `--committer` must be given, but its value may be empty; an empty value
  only omits the `committer` element (genxml.py:84, 150).
- The exit status of `gzip -dc`, `bzip2 -dc` and `xz -dc` is never read. A
  subprocess result is dropped only when it produced no bytes
  (genxml.py:300, 323, 346).
- A `KeyError` from the account or group database is not caught. It ends
  the whole run, not just the current file (genxml.py:242, 255;
  `GenXml.Metadata`, `GenXml.RunHalts`).
- `import bzip2` names a module that does not exist. So the in-process
  bzip2 tier always raises `ImportError`, and bzip2 is only ever tried
  through its subprocess (`Inflate.Bzip2Library`).

## Model

| member | source | states |
|---|---|---|
| PyPath.RFind | genxml.py:109-110 | the index of the last occurrence of the character, with no occurrence after it, or -1 |
| PyPath.RStrip | genxml.py:110 | the head without its trailing slashes: a prefix, what was removed is all slashes, and it does not end in one |
| PyPath.Splitext | genxml.py:109 | root and extension concatenate back to the name |
| PyPath.SplitextExtension | genxml.py:109 | the extension is empty or a dot followed by no dot or slash; a non-empty extension leaves a non-dot character in the root's final component |
| PyPath.SplitextOfDottedSuffix | genxml.py:109 | a stem plus a dot plus a dot-free, slash-free word splits into exactly that stem and that dotted word |
| PyPath.Split | genxml.py:110 | the tail is everything after the last slash; the head is a prefix followed only by slashes up to the tail; a head that is not all slashes does not end in one, and a head made of slashes only is everything before the tail; the head is empty exactly when the name holds no slash |
| PyPath.SplitOfJoin | genxml.py:110 | splitting `dir/name` gives back `dir` and `name` |
| Digest.DigestOf | genxml.py:42 | the size reported is the number of bytes hashed |
| Digest.Md5sum | genxml.py:32-42 | the loop returns the MD5, SHA-224 and length of exactly the bytes read before the first empty read |
| Digest.ConsumedStopsAtEmpty | genxml.py:37-38 | nothing after the first empty read reaches the digests |
| Digest.ConsumedNonEmpty | genxml.py:36-41 | with no empty read, every block is consumed, in order |
| Digest.FileReadsConsumeContent | genxml.py:32-41 | reading a regular file in blocks of any positive size consumes exactly its content |
| Digest.ChunkingIrrelevant | genxml.py:32-42 | the result depends only on the bytes, not on how the reads cut them |
| Classify.CompoundStage | genxml.py:111-115 | every compound suffix implies a single-stage compression suffix genxml.py recognises |
| Classify.Classification | genxml.py:109-117 | the extension is empty or a compression suffix; it is empty exactly when splitext found neither kind of suffix, and then the root is the whole name; without a compound suffix, root and extension join back to the name |
| Classify.Classify | genxml.py:109-117 | the chain of reassignments reaches `Classification` |
| Classify.CompoundSuffixRewritten | genxml.py:111-115 | `stem.tgz`, `.tbz`, `.tbz2`, `.txz` and `.tlz` classify as `stem.tar` plus `.gz`, `.bz2`, `.bz2`, `.xz` and `.lzma` |
| Classify.CompressionSuffixKept | genxml.py:116-117 | `stem` plus a compression suffix classifies as that stem and that suffix |
| Classify.XmlPath | genxml.py:119-122 | defines the metadata path: the data file's name plus `.xml` under `--nocompression`, else the classified root plus `.xml`; `XmlPathIsNotInput` states what it promises |
| Classify.XmlPathIsNotInput | genxml.py:119-122 | with or without `--nocompression`, the metadata path differs from the data file's name |
| Inflate.Subprocess | genxml.py:293-304 | a subprocess result is kept exactly when the process produced at least one byte |
| Inflate.FallsBack | genxml.py:286-340 | defines which exception hands a family over to its subprocess: `IOError` for gzip, `ImportError` for bzip2 and xz; `TwoTier` and `TwoTierSound` state its effect |
| Inflate.TwoTier | genxml.py:286-307 | the library result is kept even when empty; only the family's fall-back exception hands over to the subprocess; any other exception gives none |
| Inflate.InflateAll | genxml.py:284-353 | `--noinflate` gives three empty results; otherwise gzip, bzip2 (subprocess only) and xz are each tried in their two tiers |
| Inflate.FirstSome | genxml.py:355-358 | the first present value of a priority list, or none exactly when all are absent |
| Inflate.Select | genxml.py:355-358 | the if-chain is the first present result of gzip, bzip2, xz |
| Inflate.SelectPriority | genxml.py:355-358 | none is selected exactly when all three failed; otherwise the earliest family wins |
| Inflate.TwoTierSound | genxml.py:286-353 | every result comes from the library, or from a non-empty subprocess run after the fall-back exception |
| Inflate.EmptyResultOnlyFromLibrary | genxml.py:300-353 | an empty kept result comes from an in-process decoder, so never from bzip2 |
| Inflate.FamiliesIndependent | genxml.py:285-353 | each family's result depends only on that family's own attempts |
| Inflate.PlainFileNotInflated | genxml.py:286-358 | a file no decoder accepts gets no inflated result |
| XmlWriter.BelowTotal | genxml.py:52 | Python 2 string order compares any two names |
| XmlWriter.BelowAntisymmetric | genxml.py:52 | two names each below the other are equal |
| XmlWriter.BelowTransitive | genxml.py:52 | the string order is transitive |
| XmlWriter.LeastExists | genxml.py:51-52 | a non-empty set of attribute names has a least name |
| XmlWriter.SortedNames | genxml.py:50-52 | `keys(); sort()` gives as many names as there are attributes; `SortedNamesSorted` states that they are those names, ascending |
| XmlWriter.SortedNamesSorted | genxml.py:50-52 | the sorted names are exactly the attribute names, each once, in strictly ascending order |
| XmlWriter.SortedNamesMembers | genxml.py:51-52 | the sorted names hold exactly the attribute names |
| XmlWriter.SortedNamesAscending | genxml.py:52 | the sorted names are strictly ascending |
| XmlWriter.Writer.constructor | genxml.py:380 | a fresh writer holds no output |
| XmlWriter.Writer.Write | genxml.py:48 | `write` appends its argument to the output and changes nothing else |
| XmlWriter.WriteXml | genxml.py:44-70 | the method appends exactly `Render` of the node to the writer's output |
| XmlWriter.WriteBody | genxml.py:58-70 | after the attributes, it appends `/>` for no child, the text child inline, or the children one level deeper followed by the closing tag |
| XmlWriter.WriteAttrs | genxml.py:54-57 | it appends ` name="value"` for each name, in the given order |
| XmlWriter.WriteChildren | genxml.py:65-66 | it appends every child's rendering, in order, at the same indentation |
| XmlWriter.Render | genxml.py:44-70 | defines what `writexml` writes for a node at a given indentation; `WriteXml` is proved to write it, and the lemmas below state its shape |
| XmlWriter.ElementBody | genxml.py:58-70 | defines what an element writes after its attributes, in the three cases of genxml.py:58-70; `ChildrenIndented` and `LeafOnOneLine` state them of `Render` |
| XmlWriter.RenderChildren | genxml.py:65-66 | defines the children written one after another at one indentation; `RenderChildrenAppend` and `RenderChildrenAt` state how it splits |
| XmlWriter.RenderFlatIsCompact | genxml.py:60-62 | written with empty indentation and newline, a tree is its compact form |
| XmlWriter.LeafOnOneLine | genxml.py:58-70 | a childless element, or one with a single text child, is written on one line with nothing inserted inside it |
| XmlWriter.RenderChildrenAppend | genxml.py:65-66 | writing two runs of children is writing the first run, then the second |
| XmlWriter.ChildrenIndented | genxml.py:58-69 | an element with several children, or one that is not text, is written as its indentation, opening tag, `>` and a newline, then every child whole and in order at the element's indentation plus one step, then the closing tag at the element's own indentation |
| XmlWriter.RenderChildrenAt | genxml.py:65-66 | children written at one indentation are those before the `k`-th, the `k`-th whole, then those after it |
| Decimal.NatToString | genxml.py:212 | `str` of a natural number is non-empty decimal digits with no leading zero, one digit exactly below ten |
| Decimal.ParseNatToString | genxml.py:212 | reading the written number back gives the number |
| Decimal.NatToStringInjective | genxml.py:176-177 | different counts are written differently |
| Decimal.IntToString | genxml.py:162 | `str` of an integer reads back to it, with a minus sign exactly for a negative one, and its digits have no leading zero unless the number is 0 |
| CliOptions.CompressionOf | genxml.py:157-172 | both directions for each label: `none` exactly under `--nocompression`; otherwise the first of xz, gzip, bzip2 with a level of at least 0; otherwise `auto`. A level is written exactly for the three codecs, and it is that codec's option |
| CliOptions.CompressionPrecedence | genxml.py:158-162 | `--nocompression`, then `--xz`, decides the label whatever the deprecated options say |
| CliOptions.IdentityOf | genxml.py:233-257 | the id is the override when it is at least 0, else the file's own id; the name is the override when it is non-empty, else the database's name for the file's own id; the lookup fails with that id exactly when it is needed and the id is unknown |
| CliOptions.IdOverrideKeepsLookedUpName | genxml.py:235-242 | overriding only the id keeps the looked-up name of the file's own id |
| CliOptions.OverridesNeedNoLookup | genxml.py:235-255 | with both overrides, the account database is never consulted |
| Md5sumFile.SliceBound | genxml.py:264 | a Python slice bound lies within the string and is itself when in range |
| Md5sumFile.PySlice | genxml.py:264-266 | a Python slice is never longer than the string, is the ordinary slice for in-range bounds, and is empty from past the end |
| Md5sumFile.FileLines | genxml.py:263 | iterating over the file yields lines that concatenate to its text, each ending in its only newline, except possibly the last |
| Md5sumFile.FileLinesOfJoin | genxml.py:263 | text made of lines is cut back into exactly those lines |
| Md5sumFile.Md5sumPath | genxml.py:261 | defines the checksum file's path, `head + '/MD5SUM'`; `GenXml.ChecksumFromListing` uses it |
| Md5sumFile.LineNames | genxml.py:264 | defines the test `line[34:len(line)-1] == tail`; `WellFormedLine` and `UnterminatedLastLine` state what it accepts |
| Md5sumFile.LineDigest | genxml.py:266 | defines `line[:32]`; `WellFormedLine` states that it is the digest of a line in md5sum's format |
| Md5sumFile.MatchingDigests | genxml.py:263-268 | every digest comes from a line naming the file, and every such line gives its digest |
| Md5sumFile.MatchingDigestsAppend | genxml.py:263-268 | the digests of two runs of lines are those of the first run followed by those of the second, so file order is kept |
| Md5sumFile.MatchingDigestsLine | genxml.py:264-268 | one line gives exactly one digest, its own, when it names the file, and none otherwise; with `MatchingDigestsAppend` every matching line gives one element |
| Md5sumFile.WellFormedLine | genxml.py:264-266 | a line in md5sum's format matches exactly when its name is the file's, and gives its digest |
| Md5sumFile.UnterminatedLastLine | genxml.py:264 | a last line without a newline loses the last character of its name to the slice |
| GenXml.SkipGuard | genxml.py:103-108 | both directions for each case: skipped as a directory, as not a regular file, or for existing metadata, and passing exactly when no guard applies |
| GenXml.WritesKeepWellFormed | genxml.py:103-127 | in a well-formed file system, the metadata a run writes is seen as an existing regular file and not a directory, and the view stays well formed |
| GenXml.LookupFails | genxml.py:233-257 | defines when a lookup raises `KeyError`: no `--user` and the file's uid unknown, or no `--group` and its gid unknown; `Metadata` states its effect |
| GenXml.LookupError | genxml.py:242-255 | defines which `KeyError` is raised first: the owner's lookup, else the group's, each with the file's own id |
| GenXml.OptionalElement | genxml.py:150-154 | an optional element is written exactly when its text is not empty, at most once |
| GenXml.Md5sumElements | genxml.py:263-268 | one `md5sum` element per recorded digest, in order |
| GenXml.RecordedDigests | genxml.py:260-263 | defines the digests taken from `MD5SUM`: those of its matching lines when it is a regular file, else none |
| GenXml.ChecksumElements | genxml.py:259-281 | defines the checksum elements: one `md5sum` per recorded digest under `--nochecksums`, else `md5sum` and `sha224` of the file's bytes; `Checksums` and `ChecksumFromListing` state it |
| GenXml.CompressionElement | genxml.py:157-172 | defines the `compression` element: the label as text and a `level` attribute exactly when `CompressionOf` gives one |
| GenXml.CopiesElement | genxml.py:175-178 | defines the `copies` element with its `tape` and `disk` counts |
| GenXml.IdentityElement | genxml.py:233-257 | defines the `owner` and `group` elements: the id as attribute, the name as text |
| GenXml.Header | genxml.py:134-257 | defines the children of `file` before the checksums, in document order; `PathElementIffDirectory` and `HeaderTags` state its properties |
| GenXml.InflatedElement | genxml.py:361-376 | defines the `inflated` element: the last component of the root, then size, MD5 and SHA-224 of the inflated bytes |
| GenXml.Outcome | genxml.py:101-382 | a file is skipped exactly when a guard applies; it ends the run exactly when it passes the guards and a lookup fails, with the owner's `KeyError` before the group's; written metadata goes to the classified path, which did not exist and is not the file, and its text is the pretty-printed document |
| GenXml.Metadata | genxml.py:129-382 | past the guards, a file is written or ends the run, never skipped; it ends the run exactly when the owner's or the group's lookup fails, reporting the users database and the file's uid when the owner's fails, else the groups database and its gid; the path and text are as above |
| GenXml.RunWith | genxml.py:101-102 | a run has at most one outcome per argument |
| GenXml.ProcessFile | genxml.py:102-127 | the guards with their reassignments reach `Outcome` |
| GenXml.WriteMetadata | genxml.py:129-382 | lookups, checksums, inflate attempts and writing reach `Metadata` |
| GenXml.Checksums | genxml.py:259-281 | the checksum elements are the recorded digests under `--nochecksums`, else the digests of the file's own bytes |
| GenXml.PrettyXml | genxml.py:378-380 | the text is the XML declaration followed by the document written with two-space indentation and newlines |
| GenXml.Run | genxml.py:101-102 | the loop produces `RunWith` of the arguments |
| GenXml.HaltedStays | genxml.py:242 | once a `KeyError` has ended the run, later arguments change nothing |
| GenXml.CreatedIsWritten | genxml.py:125-127 | the paths a run treats as existing are exactly the metadata paths it has written |
| GenXml.RunSteps | genxml.py:101-102 | each outcome is that of its argument given the earlier writes; only the last can be a `KeyError`; a short run was ended by one |
| GenXml.RunHalts | genxml.py:242-255 | only the last outcome can be a `KeyError`, and a run shorter than its arguments ended with one |
| GenXml.RunOutcomes | genxml.py:101-127 | each outcome is that of its argument, given the metadata written for the arguments before it |
| GenXml.RunNeverOverwrites | genxml.py:125-127 | no path written existed when the run started or is the name of the file it describes, and no two arguments write the same path; in a well-formed file system it was neither a file nor a directory |
| GenXml.InflatedIffSelected | genxml.py:360-376 | a written document has an `inflated` child exactly when a result was selected; it is then the last child, named after the root |
| GenXml.FileElementInflated | genxml.py:361-376 | the `inflated` child is present exactly when a result was selected, and is then the last one |
| GenXml.HeaderTags | genxml.py:134-257 | no header child is named `inflated` |
| GenXml.CompoundArchiveInDirectory | genxml.py:109-122 | `dir/name.tgz` has metadata `dir/name.tar.xml`, or `dir/name.tgz.xml` under `--nocompression`, path `dir`, name `name.tgz`, and inflated name `name.tar` |
| GenXml.PathElementIffDirectory | genxml.py:134-147 | the first child is `path` exactly when the name has a directory part, and `name` otherwise |
| GenXml.ChecksumFromListing | genxml.py:259-268 | under `--nochecksums`, an `MD5SUM` file with one line for the file gives exactly that line's digest |

## Left out

- Argument parsing (genxml.py:76-97) is out: the model starts from the resolved options. Their defaults are described with `CliOptions.Options`, but the ranges argparse enforces are not imposed.
- `os.path.isdir`, `os.path.isfile`, `os.path.exists`, `os.stat` and the `pwd`/`grp` databases are oracles in `Env`. Files other than the metadata a run writes do not change during the run.
- The file-system oracles of `Env` are not required to agree with each other. `GenXml.WellFormed` states what the operating system guarantees (a directory or regular file exists; nothing is both), and the properties that need it take it as a hypothesis.
- The timestamps (genxml.py:216-231) are text supplied by the `Stat` oracle. Conversion to Europe/Berlin time and ISO-8601 formatting are not modelled.
- MD5 and SHA-224 are the functions in `Hashes`. The hash algorithms are not modelled.
- The gzip, bzip2 and lzma modules, `Popen` and the external decompressors are not modelled. What each attempt ends with is given as an `Attempt`.
- Character-data escaping (`_write_data`) is the `esc` parameter. A text node is written by minidom's own `writexml`, modelled as `esc(indent + data + newl)`.
- Encoding the document to UTF-8 and creating the minidom `Document` are not modelled. Replacing `Element.writexml` by `fixed_writexml` is not modelled either; the model writes every element with it.
- GenXml.Outcome: the model assumes every text it writes is ASCII. In Python 2.7, `toprettyxml(encoding="utf-8")` writes through a UTF-8 stream writer that first decodes each byte string as ASCII. So a non-ASCII byte in the file name, the path, an option text or an account name raises `UnicodeDecodeError` at genxml.py:380. By then genxml.py:379 has already created an empty metadata file, so the run ends and later runs skip that file. The model returns `Written` with the pretty-printed text instead and does not capture this crash or the empty file it leaves behind.
- GenXml.PrettyXml: returns the document's text without encoding it, so it does not capture the `UnicodeDecodeError` that non-ASCII text raises at genxml.py:380 (see the line above).
- Opening, writing and closing the metadata file are not modelled: the run records the path and text. The contents and `stat` of files the run writes are not linked back to what was written.
- The `print` messages are left out, since they do not affect the output.
- I/O errors other than the uncaught `KeyError` are left out. These are an unreadable file, a failing `open` of the metadata path, and an unreadable `MD5SUM`. Each would end the run with a traceback.
- The behaviour of `--verbose` is left out: it is parsed but never used.
