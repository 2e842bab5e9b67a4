# OSFabricum: verified model of the core services

A Dafny model of the parts of OSFabricum that carry algorithms rather than plumbing: the distribution
designer, the catalog seeder, the MBR codec, boot-chain rendering, the mimeapps writer, the compliance and
generation caches, root filesystem composition over the artifact store, source fetching, flashing, diff
reports and dependency graphs. `dafny verify dfyconfig.toml` checks the whole project.

## How it is built

Each service that changes rows is a class (`Session`, `Store`, `Stage`, `Device`) whose methods follow the
source's branches and loops. Every such method is proved to compute a specification function of the old
state, and the laws are lemmas about those functions, over all inputs, all runs or all reachable states. The
modules `CatalogDocument`, `ComplianceReports` and `GenerationReports`, and the closing sections of the others, say
what ends up in rows, bytes and texts in the source's own words.

| component | files |
|---|---|
| shared: results, bytes, order and stable sort, upsert tables, text | `Wrappers`, `Bytes`, `Ordering`, `SortedSets`, `Tables`, `TextLines` |
| catalog seeder | `CatalogSpec`, `CatalogClosedForm`, `CatalogDocument`, `CatalogSeeder` |
| distribution designer | `DocSchema`, `Distribution`, `DistributionLaws` |
| MBR codec | `Mbr` |
| boot chain | `BootChain`, `BootChainExact` |
| mimeapps and user directories | `MimeApps`, `MimeAppsLaws` |
| compliance | `Compliance`, `ComplianceLaws`, `ComplianceReports` |
| generations | `Generations`, `GenerationLaws`, `GenerationReports` |
| artifact store, its garbage collection, source fetch cache | `ArtifactStore`, `GarbageCollection`, `Fetch` |
| root filesystem composition | `Staging`, `Packages`, `Services`, `Rootfs`, `RootfsLaws` |
| flasher, diff, graphs | `Flasher`, `Diff`, `Graph` |

Conventions:

- Tables are sequences of rows in insertion order; a fresh key is a counter. A database session is the value
  of all tables, and leaving a session without commit keeps the committed value.
- SHA-256 is a function parameter; injectivity is a hypothesis only where a lemma says so.
- JSON, ZIP, tar, UTF-8, image packing, configuration templates, glob matching and the network are function
  parameters; their failure is `None`.
- Text order is code-point order, as in Python's `sorted`.

## What the code does beyond, or against, its documentation

- **Round trip.** Exporting and importing a distribution reproduces the document exactly when no class it
  names is the empty string (`RoundTrip`): the import treats `""` as no class (`EmptyClassIsLost`). It
  reproduces what is stored, keys aside, exactly when besides that the distribution has no free-form metadata
  and its profiles have inputs and no other selections (board, kernel, toolchain, package set):
  the document does not carry these (`RoundTripOfRows`).
- **Import.** Cyclic `inherits` links are accepted (`CyclicDocumentImports`): the imported rows are acyclic exactly
  when the document's links are (`ImportAcyclicExactly`). The import reads free-form metadata that no export
  writes. `default_channel: null` fails at the NOT NULL column, which is an error like any other. An overwriting
  import removes a distribution that has builds, which a delete refuses, and leaves those builds without one
  (`ImportKeepsBuildsExactly`); foreign keys are not enforced, as in SQLite by default.
- **Clone.** A parent outside the distribution becomes no parent.
- **Boot chain.** The replacement loop is a simultaneous substitution for every brace-free dictionary exactly
  when braces do not nest in the template (`FlatIsExact`). A value is substituted like this in every flat template
  exactly when it has no brace itself (`ValueIsExact`); a placeholder in a value is replaced again
  (`BracedValueIsReplacedAgain`).
- **MBR.** The docstring of `_lba_to_chs` says that addresses above 1023 give `FF FF FF`; the code does so from
  1024·63·255 on (`ChsMarker`). `struct` is modelled as little-endian, the native order of the supported
  hosts, and its range errors as `FieldOutOfRange`. An entry of type 0 is written but not read back.
- **mimeapps.** The file depends on row order exactly when two different rows of a section share MIME type and
  priority (`OrderIndependentExactly`).
- **Compliance.** A refused `update_compliance_profile` leaves the fields set before the refused one changed in
  the session, with the old hash; `SessionCoherentExactly` gives the exact condition. Callers that drop the
  session on an exception stay coherent (`RunKeepsCoherent`). The threshold `none` ranks last, so it blocks
  every gate whose action is `block` (`NoneBlocksEverything`).
- **Ingest.** The docstring says that an existing row is returned unchanged; that holds exactly when the digest
  is the row's own (`RowUnchangedExactly`). Otherwise the code updates the row in place and keeps its id.
- **Fetch.** The keys of two ids stay apart, whatever their file names, exactly when neither id continues the other
  behind a slash (`KeysApartExactly`); otherwise one source can be served the other's artifact
  (`SharedKeyServesWrongBlob`). Ids are UUIDs in practice. The cache lasts until a garbage collection selects the
  artifact (`FetchedUntilCollected`); fetched artifacts are of the class that a quota evicts.
- **Services.** BusyBox scripts start in list order exactly up to eight services: the ninth is numbered 100
  (`StartOrderExactly`). A disabled service keeps a script exactly when the composition writes one that looks
  like its own (`DisabledKeepsScriptExactly`), which the ninth service can do under another name
  (`NinthScriptEscapes`).
- **Composition.** Default configuration files are written when no distribution is given, but none when a
  distribution has no stored values. A package's file archive is protected against replacement exactly when its
  checksum file lists it (`ProtectedExactly`).
- **Layer graph.** `distribution_id` is not used, and two entries of the same kind and name share a node id. The
  edges form a simple path exactly when no two enabled entries do (`SimplePathExactly`); two layers of one name
  give a self-loop (`SharedNodeIdLoops`).

## Model

| member | source | states |
|---|---|---|
| Tables.ReplayIsIdentity | osfabricum/db/seed_data.py:1981-2096 | replaying the upserts that produced a table, under an associative and idempotent update rule, reproduces it row for row, with ids and positions |
| CatalogSpec.DisciplinesAreBands | osfabricum/db/seed_data.py:2045-2049 | the three attribute rules (first wins, first non-null, last non-null) are associative and idempotent |
| CatalogSpec.StepEvolves | osfabricum/db/seed_data.py:2099-2229 | each get-or-create step keeps every row's position, id and key and folds its declaration into the row's value |
| CatalogSpec.RunTwice | osfabricum/db/seed_data.py:1981-2096 | any run of steps whose references resolve is idempotent as a whole |
| CatalogSpec.CatalogScoped | osfabricum/db/seed_data.py:2051-2092 | every reference of every document is resolved before it is used, whatever the tables held before |
| CatalogSpec.SeedingTwice | osfabricum/db/seed_data.py:1981-2096 | seeding any list of documents twice leaves every table exactly as after the first time |
| CatalogClosedForm.CatalogLog | osfabricum/db/seed_data.py:2023-2092 | the upserts of a catalog are exactly its declarations, table by table and in file order; undeclared members and groups are skipped |
| CatalogClosedForm.CatalogRows | osfabricum/db/seed_data.py:1981-2229 | after seeding, each of the eight tables holds exactly its earlier keys and the declared ones, one new row for each, with earlier ids kept |
| CatalogClosedForm.PackageFirstWins | osfabricum/db/seed_data.py:2099-2106 | after seeding, a package has the values of its earliest row or declaration over all files |
| CatalogClosedForm.DistributionClassFirstNonNull | osfabricum/db/seed_data.py:2033-2049 | a distribution keeps its first description and channel and takes the first non-null class over all files |
| CatalogClosedForm.ProfileAttributesLastNonNull | osfabricum/db/seed_data.py:2195-2229 | board, kernel, toolchain and package set of a profile are the last non-null ones over all sets and files |
| CatalogDocument.NewDistribution | osfabricum/db/seed_data.py:2032-2047 | a new distribution has the document's description, its channel or "dev", and its class if the table knows it, else none |
| CatalogDocument.NewProfile | osfabricum/db/seed_data.py:2079-2089 | a new profile has its board, kernel and toolchain as the tables know them, its set, and nothing else |
| CatalogDocument.NewPackage | osfabricum/db/seed_data.py:2053-2056 | a new package has the kind and layer of its first declaration, "system" where that is silent |
| CatalogDocument.NewTexts | osfabricum/db/seed_data.py:2063-2074 | new groups and sets are described by distribution and name |
| CatalogDocument.NewVersion | osfabricum/db/seed_data.py:2057-2057 | new package versions are available |
| CatalogDocument.SeededDists | osfabricum/db/seed_data.py:2023-2049 | the distributions are the earlier and the named ones |
| CatalogDocument.SeededPackages | osfabricum/db/seed_data.py:2053-2056 | the packages are the earlier and the declared ones |
| CatalogDocument.SeededVersions | osfabricum/db/seed_data.py:2029-2057 | the versions are the earlier ones and "latest" of each declared package for its document's architecture, aarch64 by default |
| CatalogDocument.SeededGroups | osfabricum/db/seed_data.py:2061-2063 | the groups are the earlier and the declared ones |
| CatalogDocument.SeededMembers | osfabricum/db/seed_data.py:2064-2066 | a package is a new member of a group if and only if the group lists it and the document declares it |
| CatalogDocument.SeededSets | osfabricum/db/seed_data.py:2071-2074 | the sets are the earlier and the declared ones |
| CatalogDocument.SeededSetMembers | osfabricum/db/seed_data.py:2075-2077 | a group is a new member of a set if and only if the set lists it and the document declares it |
| CatalogDocument.SeededProfiles | osfabricum/db/seed_data.py:2080-2089 | the profiles are the earlier and the declared ones |
| CatalogSeeder.Session.GetOrCreatePackage | osfabricum/db/seed_data.py:2099-2106 | returns the id of the first row with the name, adding one only if there is none |
| CatalogSeeder.Session.GetOrCreatePackageVersion | osfabricum/db/seed_data.py:2109-2126 | one row for each (package, version, architecture) |
| CatalogSeeder.Session.GetOrCreatePackageGroup | osfabricum/db/seed_data.py:2129-2145 | one group for each (distribution, name), whose id is returned |
| CatalogSeeder.Session.AddPackageToGroup | osfabricum/db/seed_data.py:2148-2157 | one membership row for each (group, package) |
| CatalogSeeder.Session.GetOrCreatePackageSet | osfabricum/db/seed_data.py:2160-2176 | one set for each (distribution, name), whose id is returned |
| CatalogSeeder.Session.AddGroupToSet | osfabricum/db/seed_data.py:2179-2192 | one member row for each (set, group) |
| CatalogSeeder.Session.GetOrCreateProfile | osfabricum/db/seed_data.py:2195-2229 | adds the profile, or overwrites the attributes for which a value is given |
| CatalogSeeder.Session.EnsureDistribution | osfabricum/db/seed_data.py:2032-2051 | the name map keeps agreeing with the table while a distribution is added or adopts a class |
| CatalogSeeder.Session.SeedPackages | osfabricum/db/seed_data.py:2053-2059 | the package map holds exactly the declared names with their rows' ids |
| CatalogSeeder.Session.SeedGroups | osfabricum/db/seed_data.py:2061-2069 | groups and the memberships of declared packages, in order; undeclared names are skipped |
| CatalogSeeder.Session.SeedSets | osfabricum/db/seed_data.py:2071-2092 | sets, their declared groups and their profiles, in order |
| CatalogSeeder.Session.SeedDocument | osfabricum/db/seed_data.py:2023-2094 | one document is its list of upserts by name; a document without a name does nothing |
| CatalogSeeder.Session.SeedCatalog | osfabricum/db/seed_data.py:1977-2096 | the nested loops over ids compute the run over names that all laws of the three catalog modules are about |
| DocSchema.ValidateDoc | osfabricum/distribution/schema.py:34-66 | lists exactly the problems that the document has, of every kind and at every entry; none exactly for well-formed documents |
| Distribution.FindDist | osfabricum/distribution/service.py:40-46 | an id wins over a name, and nothing is found only if neither matches |
| Distribution.Store.Delete | osfabricum/distribution/service.py:164-177 | refused with builds; otherwise exactly the distribution and its profiles go |
| Distribution.Store.Clone | osfabricum/distribution/service.py:185-223 | the two passes with the id map give the closed form of the clone, whose row has the source's description, channel, class and metadata; errors change nothing |
| Distribution.Store.Import | osfabricum/distribution/service.py:251-310 | succeeds exactly for importable documents and stores their header; any error leaves all tables as before |
| Distribution.CopyProfiles | osfabricum/distribution/service.py:202-213 | one unlinked copy for each row, and the map from old to new ids |
| Distribution.LinkCopies | osfabricum/distribution/service.py:214-220 | parents inside the source become their copies, others none |
| Distribution.InsertProfiles | osfabricum/distribution/service.py:285-295 | one unlinked row for each entry; fails exactly on an unknown class |
| Distribution.LinkProfiles | osfabricum/distribution/service.py:297-307 | parents by name; fails exactly on an unknown parent |
| Distribution.DeleteKeepsValid | osfabricum/distribution/service.py:164-177 | unique ids and names survive a delete |
| Distribution.CloneKeepsValid | osfabricum/distribution/service.py:185-223 | unique ids, names and (distribution, profile name) survive a clone |
| Distribution.ImportKeepsValid | osfabricum/distribution/service.py:251-310 | unique ids, names and (distribution, profile name) survive an import |
| DistributionLaws.SortedProfilesFacts | osfabricum/distribution/service.py:55-58 | the exported profiles are the distribution's rows, each once, in strict name order |
| DistributionLaws.ExportLists | osfabricum/distribution/service.py:53-76 | an export has one entry for each profile row, in strict name order, with that row's parent and class by name, or none where it has none |
| DistributionLaws.ExportWellFormed | osfabricum/distribution/schema.py:34-66 | every export of a database with non-empty names passes the document check |
| DistributionLaws.ExportAfterImport | osfabricum/distribution/service.py:226-310 | the stored import exports as the normal form of the document: sorted, inherits by name, null inputs as {} |
| DistributionLaws.ImportStoresEntry | osfabricum/distribution/service.py:285-307 | each entry is stored with its inputs, its class and parent by name, and no other selections |
| DistributionLaws.ExportIsNormal | osfabricum/distribution/service.py:53-76 | an export is its own normal form if and only if it names no empty class |
| DistributionLaws.RoundTrip | osfabricum/distribution/service.py:226-310 | an export imports into any store with the same class names, and what is stored there exports as the identical document if and only if it names no empty class |
| DistributionLaws.EmptyClassIsLost | osfabricum/distribution/service.py:31-37 | a concrete store with an empty class name, whose export does not come back identical |
| DistributionLaws.RoundTripOfRows | osfabricum/distribution/service.py:226-310 | importing an export elsewhere stores the same distribution, keys aside, if and only if it has no metadata, no missing inputs, no selections besides class and inputs, and no empty class |
| DistributionLaws.ImportAcyclicExactly | osfabricum/distribution/service.py:297-305 | the imported inheritance is acyclic if and only if the document's inherits links are |
| DistributionLaws.CyclicDocumentImports | osfabricum/distribution/service.py:297-305 | a concrete profile that inherits from itself is imported |
| DistributionLaws.CloneIsomorphic | osfabricum/distribution/service.py:185-223 | the clone's profile view, parents included, equals the source's |
| DistributionLaws.CloneExports | osfabricum/distribution/service.py:185-248 | the stored clone exports as its source except for the name |
| DistributionLaws.CloneParentsStayInside | osfabricum/distribution/service.py:214-219 | every parent link of a copy leads to a copy |
| DistributionLaws.CloneAcyclic | osfabricum/distribution/service.py:214-219 | the clone's inheritance is acyclic if and only if the source's is |
| DistributionLaws.CloneLeavesOthers | osfabricum/distribution/service.py:185-223 | every other distribution exports as before a clone |
| DistributionLaws.ImportLeavesOthers | osfabricum/distribution/service.py:263-310 | an import, overwriting or not, leaves the export of every other distribution unchanged |
| DistributionLaws.DeleteLeavesOthers | osfabricum/distribution/service.py:174-177 | every other distribution exports as before a delete |
| DistributionLaws.DeletedExactly | osfabricum/distribution/service.py:174-177 | a removal takes the distribution and its profiles and nothing else |
| DistributionLaws.DeleteUndoesClone | osfabricum/distribution/service.py:164-223 | deleting a fresh clone is allowed and restores every row |
| DistributionLaws.DeletedBuildsExactly | osfabricum/distribution/service.py:164-177 | removing a distribution leaves builds without one if and only if it has builds |
| DistributionLaws.ImportKeepsBuildsExactly | osfabricum/distribution/service.py:263-274 | after an import every build still has its distribution if and only if the overwritten one had no builds |
| Mbr.ChsParts | osfabricum/image/mbr.py:56-65 | cylinder, head and sector of an in-range address, with c <= 1023, h <= 254, 1 <= s <= 63 |
| Mbr.ChsRoundTrip | osfabricum/image/mbr.py:51-65 | decoding the three bytes recovers every address below the limit |
| Mbr.ChsOnto | osfabricum/image/mbr.py:51-65 | every geometry-conforming triple is the encoding of its address |
| Mbr.ChsKeepsOrder | osfabricum/image/mbr.py:51-65 | lexicographic (c, h, s) order is address order |
| Mbr.ChsMarker | osfabricum/image/mbr.py:56-57 | FF FF FF is produced if and only if the address is at or above the limit |
| Mbr.U32RoundTrip | osfabricum/image/mbr.py:74-82 | little-endian 32-bit fields decode to what was encoded |
| Mbr.EntryRoundTrip | osfabricum/image/mbr.py:68-82 | a packed entry unpacks to itself |
| Mbr.ImageLayout | osfabricum/image/mbr.py:102-119 | 446 zero bytes, four 16-byte slots, signature 55 AA |
| Mbr.WriteMbr | osfabricum/image/mbr.py:85-119 | succeeds exactly for at most four entries with fitting fields, and then yields the sector whose bytes `WrittenSlot` and `SectorFrame` describe |
| Mbr.WrittenSlot | osfabricum/image/mbr.py:68-82 | every used slot of a written sector has its flag, CHS start, type, CHS end, first sector and size, little-endian; unused slots are blank |
| Mbr.SectorFrame | osfabricum/image/mbr.py:102-119 | 512 bytes, no boot code, signature 55 AA |
| Mbr.ReadMbr | osfabricum/image/mbr.py:122-146 | succeeds exactly on long enough data with the signature, and yields the non-empty slots in order |
| Mbr.ReadAfterWrite | osfabricum/image/mbr.py:85-146 | reading a written sector gives exactly the non-empty entries, in order |
| Mbr.WriteAfterRead | osfabricum/image/mbr.py:85-146 | writing back what was read reproduces the sector if and only if no entry had type 0 |
| Mbr.ReadIsStable | osfabricum/image/mbr.py:85-146 | any readable sector, read, written and read again, gives the same entries |
| BootChain.PrintTokens | osfabricum/bootchain/service.py:233-235 | splitting a template into text, braces and placeholders loses nothing |
| BootChain.ReplaceTokens | osfabricum/bootchain/service.py:235 | one textual replacement replaces exactly the placeholders of that name |
| BootChain.SequentialIsSimultaneous | osfabricum/bootchain/service.py:233-235 | for flat templates and brace-free dictionaries the loop of replacements is one simultaneous substitution |
| BootChain.OrderIrrelevant | osfabricum/bootchain/service.py:234 | the order of the dictionary does not matter |
| BootChain.StagesMerge | osfabricum/bootchain/service.py:233-235 | rendering with two disjoint dictionaries, in either order, is rendering with their union |
| BootChain.NoPlaceholderLeft | osfabricum/bootchain/service.py:233-235 | no supplied placeholder occurs in the result |
| BootChain.RenderBootChain | osfabricum/bootchain/service.py:207-251 | every file of the chain with its columns and its substituted text, which comes from an existing template, else from the row; unknown chains fail |
| BootChain.FilesOfAppend | osfabricum/bootchain/service.py:219-221 | the files of a chain are its rows in row order |
| BootChain.OneFile | osfabricum/bootchain/service.py:219-221 | a single row is a file of its own chain and of no other |
| BootChain.ReplaceFirst | osfabricum/bootchain/service.py:235-235 | a replacement takes the first occurrence and goes on behind it |
| BootChain.ReplaceNothing | osfabricum/bootchain/service.py:235-235 | text without an occurrence stays |
| BootChainExact.FlatIsExact | osfabricum/bootchain/service.py:233-235 | a template is flat if and only if the loop is the simultaneous substitution for every brace-free dictionary |
| BootChainExact.NestedTemplatesDiffer | osfabricum/bootchain/service.py:233-235 | for every template with nested braces a dictionary on which the two differ |
| BootChainExact.BracedValueIsReplacedAgain | osfabricum/bootchain/service.py:233-235 | a concrete value that holds another placeholder, which is replaced again |
| BootChainExact.ValueIsExact | osfabricum/bootchain/service.py:233-235 | a value renders as the simultaneous substitution in every flat template, with any further brace-free variables, if and only if it is brace-free |
| BootChainExact.BracedValueDiffers | osfabricum/bootchain/service.py:233-235 | for every value with a brace a flat template, a key and a further variable on which the loop differs |
| MimeApps.PrintSection | osfabricum/desktopint/service.py:427-439 | one section in MIME order, absent when empty |
| MimeApps.BuildMimeapps | osfabricum/desktopint/service.py:412-440 | the three dictionaries filled in sorted order print as the specified text |
| MimeApps.BuildUserDirs | osfabricum/desktopint/service.py:443-450 | one line for each known directory with the last given path or the default; unknown names are ignored |
| MimeAppsLaws.PathIsLast | osfabricum/desktopint/service.py:443-446 | the last row of a directory wins over earlier ones and over the default |
| MimeAppsLaws.PathIsDefault | osfabricum/desktopint/service.py:443-446 | a directory without a row has its default path |
| MimeAppsLaws.SectionConserves | osfabricum/desktopint/service.py:412-426 | a type's list in a section holds exactly the matching rows, each once, in priority order |
| MimeAppsLaws.SectionInPriorityOrder | osfabricum/desktopint/service.py:417-423 | the files of a type come from rows of rising priority number |
| MimeAppsLaws.ParsePrinted | osfabricum/desktopint/service.py:427-440 | parsing printed sections gives back the three dictionaries |
| MimeAppsLaws.ParseBack | osfabricum/desktopint/service.py:412-440 | parsing the generated file recovers all associations, for names without separators |
| MimeAppsLaws.OneRowFile | osfabricum/desktopint/service.py:409-440 | the whole file for a single association of each kind |
| MimeAppsLaws.OrderIndependent | osfabricum/desktopint/service.py:412-440 | without ties the file does not depend on row order |
| MimeAppsLaws.TiesChangeFile | osfabricum/desktopint/service.py:412-440 | with a tie two orders of the same rows print differently |
| MimeAppsLaws.OrderIndependentExactly | osfabricum/desktopint/service.py:412-440 | the file is independent of row order if and only if no two different rows of a section tie |
| Compliance.Session.CreateProfile | osfabricum/compliance/service.py:45-84 | adds an unrendered profile; refuses invalid thresholds and taken names |
| Compliance.Session.UpdateProfile | osfabricum/compliance/service.py:103-123 | sets fields up to the first refused one; clears the hash only if none is refused; a taken name fails at the flush and is rolled back |
| Compliance.Session.SetFields | osfabricum/compliance/service.py:111-118 | the fields before the first refused one are set, no other profile changes, and the answer is whether none was refused |
| Compliance.Session.SetLicenseRule | osfabricum/compliance/service.py:130-161 | upserts by (profile, license) and clears the hash |
| Compliance.Session.SetVulnGate | osfabricum/compliance/service.py:179-221 | upserts by (profile, CVE) and clears the hash |
| Compliance.Session.AddSbomEntry | osfabricum/compliance/service.py:239-280 | upserts by (profile, package, version) and clears the hash |
| Compliance.Session.Invalidate | osfabricum/compliance/service.py:436-441 | afterwards the profile of that id has no hash, and every other profile and row is as before |
| Compliance.Session.RenderReport | osfabricum/compliance/service.py:298-320 | stores the three reports of the current rows and their hash |
| Compliance.RenderSbom | osfabricum/compliance/service.py:323-350 | the loop writes the specified SBOM text |
| Compliance.RenderVulnReport | osfabricum/compliance/service.py:353-391 | the loop's lines, blocked and warned lists are those of the gates in CVE order |
| Compliance.RenderLicenseReport | osfabricum/compliance/service.py:394-429 | verdict lines, failures and warnings follow the rule table |
| Compliance.RuleMap | osfabricum/compliance/service.py:399-409 | the dictionary holds the last rule of each license |
| ComplianceLaws.EffectKeepsValid | osfabricum/compliance/service.py:45-320 | every call, failed or not, keeps profile ids, (profile, license), (profile, CVE) and (profile, package, version) unique and thresholds valid |
| ComplianceLaws.SuccessKeepsNames | osfabricum/compliance/service.py:45-123 | a successful call keeps (distribution, name) unique |
| ComplianceLaws.SuccessKeepsCoherent | osfabricum/compliance/service.py:103-320 | after a successful call a non-null hash means that all three reports are fresh |
| ComplianceLaws.RunKeepsCoherent | osfabricum/compliance/service.py:45-320 | the same, with unique names, over every run of requests that drop a failed session |
| ComplianceLaws.SessionCoherentExactly | osfabricum/compliance/service.py:103-123 | a kept session stays coherent if and only if the call was not an update refused after changing a printed field |
| ComplianceLaws.StaleAfterRefusedUpdate | osfabricum/compliance/service.py:103-123 | a concrete refused update that leaves a stale hash |
| ComplianceLaws.BlockedExactly | osfabricum/compliance/service.py:363-380 | a CVE is blocked if and only if one of its gates has action block and reaches the threshold |
| ComplianceLaws.BlockedGrows | osfabricum/compliance/service.py:363-380 | a wider threshold keeps every blocked gate and their order |
| ComplianceLaws.NoneBlocksEverything | osfabricum/compliance/service.py:363-380 | threshold none blocks every gate with action block |
| ComplianceLaws.BlockedInOrder | osfabricum/compliance/service.py:353-391 | blocked CVEs are listed in CVE order, each once |
| ComplianceReports.BlocksByRank | osfabricum/compliance/service.py:355-369 | over critical, high, medium, low, info, none: a gate blocks if and only if its action is block and its severity stands no later than the threshold |
| ComplianceReports.GatesAppend | osfabricum/compliance/service.py:360-380 | blocked and warned CVEs are listed gate by gate |
| ComplianceReports.WarnsByAction | osfabricum/compliance/service.py:370-374 | a gate warns if and only if its action is warn |
| ComplianceReports.CreateRefused | osfabricum/compliance/service.py:45-70 | a new profile is refused for a threshold other than the six, then for a taken name |
| ComplianceReports.ChildRefused | osfabricum/compliance/service.py:130-260 | rules, gates, packages and renderings are refused for unknown words, then for a missing profile |
| ComplianceReports.UpdateRefused | osfabricum/compliance/service.py:103-123 | an update is refused for a missing profile, an unknown field or threshold, or a taken name |
| ComplianceReports.CreateStores | osfabricum/compliance/service.py:66-84 | a new profile has the given fields and no reports |
| ComplianceReports.UpdateStores | osfabricum/compliance/service.py:103-123 | one change sets that field, clears the hash and keeps everything else |
| ComplianceReports.RuleStores | osfabricum/compliance/service.py:140-161 | the rule is stored under profile and license, other rules and tables stay, and only this profile loses its hash |
| ComplianceReports.GateStores | osfabricum/compliance/service.py:190-221 | the same for a gate under profile and CVE |
| ComplianceReports.SbomStores | osfabricum/compliance/service.py:250-280 | the same for a package under profile, name and version |
| ComplianceReports.GatesAre | osfabricum/compliance/service.py:305-312 | a report is about exactly the profile's gates, in CVE order |
| ComplianceReports.SbomsAre | osfabricum/compliance/service.py:305-312 | and about exactly its packages, by name, then version |
| ComplianceReports.RulesAre | osfabricum/compliance/service.py:305-312 | and about exactly its rules, by license |
| ComplianceReports.SbomText | osfabricum/compliance/service.py:323-350 | an SBOM is its eight header lines and the blocks of its packages |
| ComplianceReports.SbomAppend | osfabricum/compliance/service.py:334-349 | blocks follow each other in the order of the packages |
| ComplianceReports.SbomBlock | osfabricum/compliance/service.py:334-349 | a block names package and version, shows each optional field if it is not empty, and says whether files were analysed |
| ComplianceReports.VulnText | osfabricum/compliance/service.py:353-391 | the gate report: threshold, one line per gate with action, package, version and reason, the counts, and the blocking CVEs |
| ComplianceReports.LicenseText | osfabricum/compliance/service.py:394-429 | the license report: both flags, one line per package with the verdict of the last rule for its license, the counts, and the denied packages |
| ComplianceReports.JudgedAppend | osfabricum/compliance/service.py:407-421 | failures and warnings are listed package by package |
| ComplianceReports.JudgedOne | osfabricum/compliance/service.py:411-421 | a package is denied or questionable if and only if the last rule for its license, or for the stand-in of a missing one, says so |
| ComplianceReports.RenderStores | osfabricum/compliance/service.py:298-320 | a rendering stores the three reports and the digest of their joined texts in this profile only |
| Generations.Session.CreateGeneration | osfabricum/generations/service.py:40-61 | adds an unrendered generation; refuses invalid statuses and taken (distribution, number) pairs |
| Generations.Session.UpdateGeneration | osfabricum/generations/service.py:84-102 | sets the given fields and clears both cached fields; errors change nothing |
| Generations.Session.AddGenerationArtifact | osfabricum/generations/service.py:105-140 | upserts by (generation, role) and invalidates |
| Generations.Session.AddRollbackTarget | osfabricum/generations/service.py:143-180 | upserts by (generation, target), drops its plan and invalidates |
| Generations.Session.RenderGenerationManifest | osfabricum/generations/service.py:183-232 | stores the manifest of the current rows and its hash |
| Generations.Session.RenderRollbackPlan | osfabricum/generations/service.py:235-289 | stores the plan of the current target |
| Generations.Session.Invalidate | osfabricum/generations/service.py:292-295 | afterwards the generation of that id has neither manifest nor hash, and every other generation and row is as before |
| Generations.WriteManifest | osfabricum/generations/service.py:196-225 | the loop writes the specified manifest text |
| GenerationLaws.PlanIsInvisible | osfabricum/generations/service.py:183-289 | storing a plan does not change any manifest |
| GenerationLaws.OthersKeepManifest | osfabricum/generations/service.py:84-180 | an operation changes the manifest of no other generation |
| GenerationLaws.EffectKeepsUnique | osfabricum/generations/service.py:40-180 | generation ids, (distribution, number), (generation, role) and (generation, target) stay unique |
| GenerationLaws.EffectKeepsCoherent | osfabricum/generations/service.py:84-295 | every operation keeps cached manifests and plans equal to fresh renderings |
| GenerationLaws.RunKeepsCoherent | osfabricum/generations/service.py:40-295 | the same, and unique keys, over every run |
| GenerationReports.CreateRefused | osfabricum/generations/service.py:40-61 | a new generation is refused for an unknown status, then for a taken number in its distribution |
| GenerationReports.OthersRefused | osfabricum/generations/service.py:84-180 | updates, artifacts, targets and renderings are refused for unknown words and missing rows |
| GenerationReports.CreateStores | osfabricum/generations/service.py:40-61 | a new generation has the given fields and no manifest |
| GenerationReports.UpdateStores | osfabricum/generations/service.py:84-102 | status and description change if given, both cached fields are cleared, everything else stays |
| GenerationReports.ArtifactStores | osfabricum/generations/service.py:105-140 | the artifact is stored under generation and role, and the generation loses its manifest |
| GenerationReports.TargetStores | osfabricum/generations/service.py:143-180 | the target is stored without a plan, and the generation loses its manifest |
| GenerationReports.PlanStores | osfabricum/generations/service.py:235-289 | the plan leads from the generation's number to the target's and is stored with that target only |
| GenerationReports.PlanSteps | osfabricum/generations/service.py:245-287 | the plan's header and the steps of each rollback kind |
| GenerationReports.HeaderLines | osfabricum/generations/service.py:196-212 | a manifest starts with the fields of its generation |
| GenerationReports.ManifestLines | osfabricum/generations/service.py:212-225 | it goes on with one line per artifact (URI, else id, else unset) and, if there are any, one per rollback target |
| GenerationReports.RowsAre | osfabricum/generations/service.py:186-195 | artifacts by role; targets by priority, then number; of this generation only |
| GenerationReports.ManifestStores | osfabricum/generations/service.py:183-232 | the manifest is stored with its digest in this generation only |
| ArtifactStore.Store.Ingest | osfabricum/store/ingest.py:18-105 | refuses a wrong digest without a change; otherwise stores the blob once, moves the reference, and updates or adds the key's row |
| ArtifactStore.IngestStoresRow | osfabricum/store/ingest.py:73-105 | a new row is as described; a known one takes a new digest, its size and the given provenance, and keeps its other columns |
| ArtifactStore.IngestStoresBlob | osfabricum/store/ingest.py:58-67 | the blob is stored under its digest, only the key's reference moves, and no other blob changes |
| ArtifactStore.IngestKeepsSound | osfabricum/store/ingest.py:52-105 | keys and ids stay unique, blobs carry their digest, and every row, reference and blob agree |
| ArtifactStore.ReadAfterIngest | osfabricum/store/ingest.py:58-67 | a key reads as the bytes last ingested under it, and all other keys as before |
| ArtifactStore.IngestKeepsRows | osfabricum/store/ingest.py:73-105 | an ingest keeps the id of its key's row and leaves other rows untouched |
| ArtifactStore.RowUnchangedExactly | osfabricum/store/ingest.py:74-88 | an existing row comes back unchanged if and only if the digest is its own; otherwise it holds the new digest |
| ArtifactStore.IngestTwice | osfabricum/store/ingest.py:75-88 | ingesting the same bytes again changes nothing |
| ArtifactStore.IngestKeepsLoads | osfabricum/store/ingest.py:73-105 | every artifact except the ingested one loads as before, found or not |
| ArtifactStore.LoadIs | osfabricum/composer/packages.py:147-163 | an artifact id finds its row, and the row its blob |
| ArtifactStore.LoadMissing | osfabricum/composer/packages.py:148-150 | an unknown artifact id finds nothing |
| GarbageCollection.CollectGarbage | osfabricum/store/gc.py:202-245 | deleting selected rows with their references and last blobs, then sweeping orphans, leaves exactly the other rows, their references and their blobs; a dry run changes nothing |
| GarbageCollection.LastReference | osfabricum/store/gc.py:126-133 | a blob with at most one row belongs to no surviving row once that row is selected |
| GarbageCollection.CollectKeepsSound | osfabricum/store/gc.py:202-245 | whatever is selected, no remaining row loses its blob or its reference |
| GarbageCollection.CollectedExactly | osfabricum/store/gc.py:202-245 | a key loses its row if and only if that row was selected, and otherwise reads as before |
| GarbageCollection.CollectTwice | osfabricum/store/gc.py:202-245 | collecting the same selection again changes nothing |
| Fetch.LookupSource | osfabricum/fetcher/fetch.py:26-48 | finds by URI before id before name, and fails only when none matches |
| Fetch.FindsFirst | osfabricum/fetcher/fetch.py:26-48 | which source is found: the first of the URI, else the first of the id, else the first of the name |
| Fetch.KeyDeterminesId | osfabricum/fetcher/fetch.py:51-57 | equal store keys mean equal ids and file names, unless one id continues the other behind a slash and a file name has a slash |
| Fetch.KeysApartExactly | osfabricum/fetcher/fetch.py:51-57 | two different ids never share a store key, whatever their sources' references, if and only if neither continues the other behind a slash |
| Fetch.KeysAreDistinct | osfabricum/fetcher/fetch.py:51-57 | among sources with unique ids, none of which continues another behind a slash, keys are equal only for the same source |
| Fetch.FetchSource | osfabricum/fetcher/fetch.py:82-169 | follows the specified fetch, and any error leaves the store as it was |
| Fetch.StepKeepsTrusted | osfabricum/fetcher/fetch.py:124-168 | one step keeps every cached artifact at its expected hash |
| Fetch.RunKeepsTrusted | osfabricum/fetcher/fetch.py:82-169 | over every run of fetches, foreign ingests and collections, cached artifacts match their normalised expected hash |
| Fetch.SlashFreeRunKeepsTrusted | osfabricum/fetcher/fetch.py:51-57 | the same for slash-free ids, such as UUIDs, without any other condition |
| Fetch.RunKeepsCached | osfabricum/fetcher/fetch.py:82-169 | over every run of fetches, foreign ingests and collections, a cached artifact keeps its id and row if and only if no collection selects it |
| Fetch.RunKeepsSound | osfabricum/store/gc.py:202-245 | over every run of fetches, ingests and collections, rows, references and blobs agree |
| Fetch.FetchedUntilCollected | osfabricum/fetcher/fetch.py:124-128 | a source once fetched yields the same artifact after any such run, offline or not, whatever the network answers and without touching the store, if and only if no collection in between selected it |
| Fetch.OfflineOnlyReads | osfabricum/fetcher/fetch.py:130-131 | offline calls never change the store and succeed exactly on cached sources |
| Fetch.FetchDelivers | osfabricum/fetcher/fetch.py:146-169 | after success the bytes under the key hash to what the source expects |
| Fetch.SharedKeyServesWrongBlob | osfabricum/fetcher/fetch.py:51-57 | two concrete sources with a slash in an id, where the second is served the first one's artifact |
| Fetch.StoreKeyIs | osfabricum/fetcher/fetch.py:51-57 | the file name in a key: the reference of a git source, the last part of another URI, or archive |
| Fetch.AcceptsExactly | osfabricum/fetcher/fetch.py:146-153 | without an expected hash everything is accepted, otherwise exactly that hash, with or without its algorithm |
| Fetch.FetchStores | osfabricum/fetcher/fetch.py:133-168 | a fetched source was downloaded over its own protocol, git from its reference or main, and its row describes it as cache-hot |
| Fetch.MediaTypes | osfabricum/fetcher/fetch.py:60-73 | media types by the ending of the file name |
| Fetch.FetchFails | osfabricum/fetcher/fetch.py:115-153 | when a call fails, with which error, and when the cached artifact is returned |
| Staging.Stage.ExtractAll | osfabricum/composer/packages.py:83-84 | extracting an archive applies its members in order |
| Staging.AppliedIs | osfabricum/composer/rootfs.py:156-218 | each path holds what was written to it last, or what it held before |
| Packages.ParseChecksums | osfabricum/composer/packages.py:62-68 | the map holds, for each member, the digest of its last line; comments and blank lines are skipped |
| Packages.VerifyChecksums | osfabricum/composer/packages.py:70-78 | accepted exactly when every listed member is present with its digest |
| Packages.InstallOfpkg | osfabricum/composer/packages.py:40-86 | installs exactly the intact packages, and a refused one writes nothing |
| Packages.TamperedIsRefused | osfabricum/composer/packages.py:70-84 | a package that lists its file archive is refused with any other file archive |
| Packages.ProtectedExactly | osfabricum/composer/packages.py:70-84 | an intact package refuses every other readable file archive if and only if its checksum file lists the archive |
| Packages.UnlistedIsAccepted | osfabricum/composer/packages.py:70-84 | a package whose checksum file does not list the archive installs with any other readable one |
| Packages.LinesSplit | osfabricum/composer/packages.py:64-64 | a text is split at its line ends, which are dropped |
| Packages.BreaksExactly | osfabricum/composer/packages.py:64-64 | the ten characters that end a line |
| Packages.StripsExactly | osfabricum/composer/packages.py:65-65 | the characters that are stripped from both ends of a line |
| Packages.CommentsListNothing | osfabricum/composer/packages.py:65-66 | blank lines and comments list nothing |
| Packages.ChecksumsDecide | osfabricum/composer/packages.py:46-78 | with one line for each of several members, a package is installed if and only if it is complete, readable, and every one of these members has its digest |
| Packages.SingleWord | osfabricum/composer/packages.py:67-78 | a checksum file that is one word asks for a member with an empty name of that digest |
| Packages.InstallsItsFiles | osfabricum/composer/packages.py:80-86 | an installed package brings the members of its file archive and its manifest |
| Packages.InstallDestdir | osfabricum/composer/packages.py:89-101 | writes every member at its stripped name, skipping the root |
| Packages.DestdirIsRoot | osfabricum/composer/packages.py:93-101 | an archive under destdir/ is installed as if that were its root |
| Packages.LandingIs | osfabricum/composer/packages.py:93-101 | names lose the destdir/ prefix, the directory lands nowhere, other names stay |
| Packages.InstallPackage | osfabricum/composer/packages.py:118-180 | the writes of the artifact followed by its installed-package record |
| Packages.BuildOutputRecord | osfabricum/composer/packages.py:157-180 | a build output is recorded under its name and version with the manifest made up for it |
| Packages.PackageRecord | osfabricum/composer/packages.py:104-115 | a package is recorded under its manifest's name, version and architecture, or the defaults |
| Packages.InstallPackages | osfabricum/composer/packages.py:183-198 | all writes in list order; fails exactly when one package fails |
| Packages.PackagesSplit | osfabricum/composer/packages.py:183-198 | a list installs as its two halves one after the other |
| Packages.OneOfList | osfabricum/composer/packages.py:194-198 | a list of one package is that package |
| Packages.ManifestsInOrder | osfabricum/composer/packages.py:183-198 | one manifest for each package, in list order, each as the package alone reports it |
| Services.InstallBusybox | osfabricum/composer/services.py:77-103 | the stored unit, or a stub, at etc/init.d/S followed by order and name |
| Services.InstallSystemd | osfabricum/composer/services.py:106-138 | unit and enabling link; fails exactly on a dangling entry in the link's place |
| Services.InstallService | osfabricum/composer/services.py:141-212 | the service's own init system and unit win over the requested ones; unknown systems fail |
| Services.BusyboxService | osfabricum/composer/services.py:77-103 | a BusyBox service gets its stored unit, or the generated one, at its numbered script path, and nothing else |
| Services.ScriptIs | osfabricum/composer/services.py:89-89 | a script name is S, the order in at least two digits, and the service |
| Services.SystemdService | osfabricum/composer/services.py:106-138 | a systemd service gets its unit file and, if nothing is there, the enabling link |
| Services.OtherService | osfabricum/composer/services.py:196-212 | any other init system fails |
| Services.InstallServices | osfabricum/composer/services.py:215-238 | all services in list order, and for each name the paths of its last installation, which all exist |
| Services.ReportIs | osfabricum/composer/services.py:215-238 | the paths reported for the last service of a name, with its number in the list |
| Services.StartOrderExactly | osfabricum/composer/services.py:89-90 | script names sort in list order for arbitrary service names if and only if there are at most eight |
| Rootfs.ApplyOverlays | osfabricum/composer/rootfs.py:173-184 | all overlays in list order; needs a database unless there are none |
| Rootfs.ApplyConfigs | osfabricum/config/distro_config.py:244-271 | all four configuration files are written |
| Rootfs.DisableServices | osfabricum/composer/rootfs.py:197-203 | exactly the matching start scripts are removed |
| Rootfs.StageRootfs | osfabricum/composer/rootfs.py:156-218 | the stages run one after the other compute the specified tree, and fail exactly when it has none |
| Rootfs.ComposeRootfs | osfabricum/composer/rootfs.py:130-286 | a failing stage leaves the store unchanged; otherwise the packed tree is ingested under the spec's key |
| RootfsLaws.LastStageWins | osfabricum/composer/rootfs.py:156-218 | each path's content comes from the last stage that touched it: services, disabling, configs, overlays, packages, base |
| RootfsLaws.OverlaysSplit | osfabricum/composer/rootfs.py:175-184 | the writes of an overlay list are those of its two parts |
| RootfsLaws.SplitListsComposeTheSame | osfabricum/composer/rootfs.py:162-184 | installing package or overlay lists in two halves gives the same tree |
| RootfsLaws.DisabledSurvivesExactly | osfabricum/composer/rootfs.py:197-215 | a disabled script is in the result if and only if a service of the same composition writes it |
| RootfsLaws.DisabledKeepsScriptExactly | osfabricum/composer/rootfs.py:197-218 | for any number of services and any patterns, a disabled service has a script in the result if and only if a service of the composition gets one that looks like it |
| RootfsLaws.DisabledIsGone | osfabricum/composer/rootfs.py:197-218 | with at most eight services, a disabled service keeps a script if and only if it is installed itself |
| RootfsLaws.NinthScriptEscapes | osfabricum/composer/services.py:228-236 | with nine services a disabled name can keep a matching script without being installed |
| RootfsLaws.ComposeTwice | osfabricum/composer/rootfs.py:220-268 | composing again builds the same tree and leaves the store as it is, unless the composed artifact is an input of its own |
| RootfsLaws.ComposeKeepsStore | osfabricum/composer/rootfs.py:253-268 | a composition keeps the store sound, every other artifact's row, and the fetch cache |
| RootfsLaws.ComposedRow | osfabricum/composer/rootfs.py:78-79 | the composed artifact's key and columns |
| RootfsLaws.ConfigsWritten | osfabricum/composer/rootfs.py:184-195 | which configuration files are written, with which values, with and without a distribution |
| RootfsLaws.ArchiveIs | osfabricum/composer/rootfs.py:156-184 | base image and overlays are unpacked as their blobs list them, and cannot be when row or blob is missing |
| RootfsLaws.LabelIs | osfabricum/composer/rootfs.py:169-169 | how a manifest with or without name and version is reported |
| Flasher.Device.WriteImage | osfabricum/flasher/flash.py:115-133 | the chunks concatenate to the image over the previous content; fails exactly when it does not fit |
| Flasher.Device.ReadBack | osfabricum/flasher/flash.py:138-147 | terminates having hashed exactly the first min(image, medium) bytes |
| Flasher.Device.Flash | osfabricum/flasher/flash.py:61-181 | allowlist, dry run, write and verification outcomes, with the device content in each case, also when the image does not fit |
| Flasher.WriteStep | osfabricum/flasher/flash.py:119-122 | one chunk extends the written prefix and keeps everything behind it |
| Flasher.VerifiedMeansReadsBack | osfabricum/flasher/flash.py:138-148 | with an injective hash, verified if and only if the medium returns the image |
| Flasher.HealthyMediumVerifies | osfabricum/flasher/flash.py:115-163 | on a healthy medium verification always succeeds, and a device keeps its size and tail |
| Flasher.FlashTwice | osfabricum/flasher/flash.py:115-123 | flashing the same image again leaves the device as after the first time |
| Diff.Classify | osfabricum/diff/service.py:88-102 | three strictly sorted lists holding exactly the added, removed and changed keys |
| Diff.PatchIsExact | osfabricum/diff/service.py:96-102 | the report's rows alone turn a into b and b back into a |
| Diff.ReportCovers | osfabricum/diff/service.py:113-124 | the report has one row for each added, removed and changed key and no others |
| Diff.KeysArePartitioned | osfabricum/diff/service.py:96-102 | added, removed, changed and unchanged keys are disjoint and cover both key sets |
| Diff.SwapExchanges | osfabricum/diff/service.py:96-102 | swapping the inputs swaps added and removed and keeps changed |
| Diff.ReportIsMinimal | osfabricum/diff/service.py:96-102 | every set of keys outside of which the inputs agree contains the report |
| Diff.ReportIsMetric | osfabricum/diff/service.py:96-102 | the number of reported keys is zero only for equal data, symmetric and triangular |
| Graph.PackageGraph | osfabricum/graph/service.py:123-155 | exactly the edges that touch the root, or all, with every endpoint among the sorted nodes |
| Graph.EdgesAreRows | osfabricum/graph/service.py:123-155 | an edge goes from the package of a row's version to the name that the row needs, with the row's type |
| Graph.PackageReverse | osfabricum/graph/service.py:158-180 | exactly the full graph's edges into the node |
| Graph.SelectThenResolve | osfabricum/graph/service.py:158-174 | selecting rows by name before resolving them gives the full graph's edges into the node, in order |
| Graph.ShownAtEndpoints | osfabricum/graph/service.py:143-144 | an edge is shown for exactly its two endpoints, with its multiplicity |
| Graph.ReverseInsideRooted | osfabricum/graph/service.py:143-174 | the reverse graph of a node is the part of its rooted graph that points at it |
| Graph.Handshake | osfabricum/graph/service.py:123-155 | over the rooted graphs of all nodes every edge is counted twice, a self-dependency once |
| Graph.FullGraphHandshake | osfabricum/graph/service.py:123-155 | the nodes listed with the full graph are enough for that count |
| Graph.LayerGraph | osfabricum/graph/service.py:183-202 | one node for each enabled entry in priority order, and one edge between neighbours |
| Graph.LayersInOrder | osfabricum/graph/service.py:186-187 | the nodes are the enabled entries by priority, then name |
| Graph.SimplePathExactly | osfabricum/graph/service.py:186-200 | each edge starts where the one before ends, at a node of its own, and the last ends at a new one, if and only if the enabled entries have different node ids |
| Graph.SharedNodeIdLoops | osfabricum/graph/service.py:186-200 | two concrete layers of one name whose graph is a self-loop |

## Left out

- Listing, reading and creating endpoints (`list_*`, `get_*`, `create_distribution`, `update_distribution`): single-row reads and writes.
- Returned counters of the seeder, log lines, timestamps and error texts.
- UUID values: fresh keys are numbers. The unique constraints that a compliance or generation call can run into are modelled as errors; the others are invariants, and races between sessions are not modelled.
- The selection of artifacts for collection by age, pin and quota: the laws hold for every selection. Blob files that cannot be deleted and the counters of a collection are not modelled.
- A compliance session kept after a refused call is followed for that call only; runs drop it.
- Malformed catalog files (missing keys, wrong YAML types) and documents whose names are neither text nor null.
- The database half of the desktop service and the autostart entries; only its two text builders are modelled.
- Stub graphs, graph snapshots and the text of diff reports.
- `flash_image_artifact` and block sizes below one; a device's partial write is its end of space.
- File modes, directory entries implied by a path, writes through symbolic links, and path normalisation in the staging tree.
- Archives that fail halfway: an archive is readable as a whole or not at all.
- The digests behind `input_hash` and the reproduction record are a function of spec and archive; nothing is claimed about them.
- Package lookup by name ignores the namespace, as the code does; namespaces are not modelled further.
- Board, branding, graphical, application catalog and analysis services, build drivers, migrations, routes, command line and worker.
- CatalogSeeder.Session.SeedCatalog: the totals it returns are not modelled, because every call recounts what it visits.
- ArtifactStore.Store.Ingest: `refs/<store_key>` is a path, so a key below another key's reference, or above one, raises after the blob is written; the model keeps references apart and succeeds.
- Disabled service names that contain a slash, which glob into subdirectories.
- Staging.Stage.ExtractAll: members that pass through symbolic links or replace directories are not followed, because the tree maps whole paths.
- RootfsLaws.LastStageWins: for the same reason, says nothing about writes through the base image's symbolic links.
