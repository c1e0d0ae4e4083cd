# applist in Dafny

`applist` lists the applications installed on a Windows machine. It reads the
uninstall keys of the registry, two under `HKEY_LOCAL_MACHINE` and one under
`HKEY_CURRENT_USER`. Each child key of an uninstall key is one candidate
application. `listentry` opens the child directly, or else its
`InstallProperties` sub-key. It drops system components and child
applications (those with a `ParentDisplayName`) and keeps every child whose
`DisplayName` it can read. The version, the publisher and the estimated size
are optional. `listapps` appends every accepted entry to the global
`products`. Three global width trackers (`maxname`, `maxver`, `maxpub`)
follow the widest value read so far. The argument loop of `wmain` picks the
sort mode (`-s1` by name, `-s2` by publisher, `-s3` by size). Then
`std::sort` orders the list with `SortFunction`, and the print loop totals
the sizes and counts the entries.

The model replaces the registry with an abstract, read-only store: a map
from the full key path to a key. A key holds typed values (`Dword` or `Str`)
and the ordered names of its children. A ghost multiset of the open handles
shows that every key the program opens is closed again, and that only an
open handle is ever closed. The files are:

- `store.dfy` (module `Store`) holds the store and the value queries. A
  string query uses a buffer of `MAX_PATH` bytes, so a value of more than
  129 characters fails to read. The query reports the byte count with its
  terminating NUL.
- `entry.dfy` (module `Entry`) is the specification of one `listentry` call
  (`Extract`, `WidthsAfter`) and of one `listapps` call (`Collect`, `Scan`),
  with their lemmas.
- `sorting.dfy` (module `Sorting`) holds `SortFunction` as `Less`, proved to
  be a strict weak ordering, and a sort proved to yield an ordered
  permutation.
- `args.dfy` (module `Args`) holds `_wtoi` and the argument loop as functions.
- `applist.dfy` (module `AppList`) holds the globals as the fields of class
  `AppList`. Its methods `ListEntry`, `ListApps`, `ParseArguments`,
  `SortProducts` and `Run` update those fields as the program does, with
  `ListAll` and `Report` for the two halves of `wmain` after the argument
  loop. `Totals` only reads `products` and computes the print loop's total
  and count.
  Each is proved against the functions above.

Three places where the code differs from a plain reading of the program's
intent; the model follows the code in each:

- An empty `DisplayName` is accepted. `listentry` only requires the query to
  succeed (applist.cpp:100-101).
- A width tracker is raised to `dwSize / sizeof(wchar_t)`. That is the
  length of the value plus one for the terminating NUL, not the length
  itself (applist.cpp:110, 118, 126). For string values stored with their
  terminating NUL, every listed text is therefore strictly narrower than its
  column (`Entry.Fits`).
- `maxname` is raised only for accepted entries. The name is the last of the
  three filters, so a rejected child never moves any tracker.

## Model

| member | source | states |
|---|---|---|
| Store.Registry.Open | applist.cpp:78-81 | RegOpenKeyEx yields a handle exactly when the joined path is a key of the store; a successful open adds that handle to the open ones |
| Store.Registry.Close | applist.cpp:140 | RegCloseKey may only be given an open handle, and releases exactly that one |
| Store.QueryString | applist.cpp:98-100 | a string query into the MAX_PATH-byte buffer succeeds iff the value exists, is a string and its data fits in 260 bytes; the text is what precedes the first NUL and is shorter than the reported byte count / 2 |
| Store.QueryDword | applist.cpp:86-88 | the DWORD query into a four-byte buffer: a definition, yielding the value when it exists and is a DWORD; what its success means for an entry is stated by Entry.AcceptedIff and Entry.AcceptedEntryFields |
| Store.HasValue | applist.cpp:93-95 | the query of ParentDisplayName with no data buffer succeeds exactly when the value exists, whatever its type or size |
| Store.CStr | applist.cpp:109 | assigning the buffer to a wstring keeps the longest NUL-free prefix |
| Entry.KbToBytes | applist.cpp:129-136 | EstimatedSize widened to 64 bits and times 1024 is exactly kb * 1024: it never wraps and is a multiple of 1024 at most (2^32-1)*1024 |
| Entry.Extract | applist.cpp:70-142 | the entry listentry accepts for a child, if any: its size is a whole number of kilobytes within the DWORD range, and each of its texts is shorter than 130 characters |
| Entry.WidthsAfter | applist.cpp:108-127 | the trackers after listentry on one child are never below the trackers before |
| Entry.AcceptedIff | applist.cpp:77-101 | a child is accepted iff it opens directly or else as child\InstallProperties, SystemComponent is absent or 0, ParentDisplayName is absent, and DisplayName reads |
| Entry.AcceptedEntryFields | applist.cpp:103-136 | an accepted entry holds the resolved key's name, version, publisher and size*1024, with "" and 0 for values that do not read: nothing leaks from the reused entry |
| Entry.SystemComponentExcluded | applist.cpp:85-91 | a key whose SystemComponent DWORD is non-zero is never accepted |
| Entry.WidthsAfterProps | applist.cpp:108-127 | after listentry the trackers never decrease, are unchanged for a rejected child, maxver/maxpub move only when the version/publisher was read, and the accepted entry fits the raised trackers with a well-formed size |
| Entry.ScanMissingRoot | applist.cpp:167-168 | a root that does not open contributes no entries and leaves the trackers unchanged |
| Entry.CollectAppend | applist.cpp:170-178 | the entries of two runs of children are those of the first followed by those of the second |
| Entry.CollectSnoc | applist.cpp:171-177 | enumerating one more child appends its accepted entry, if any, and raises the trackers as listentry does |
| Entry.CollectStep | applist.cpp:171-177 | the pass of the loop over the child at a given index appends that child's accepted entry, if any, to the entries of the children before it, and raises the trackers as listentry does |
| Entry.CollectOne | applist.cpp:175-177 | one child contributes its accepted entry or nothing |
| Entry.CollectSound | applist.cpp:175-176 | every appended entry is the accepted entry of some enumerated child |
| Entry.CollectComplete | applist.cpp:175-176 | the accepted entry of every enumerated child is appended |
| Entry.Collect | applist.cpp:170-178 | the entries listapps appends for the enumerated children: at most one per child, each with a well-formed size |
| Entry.CollectWidths | applist.cpp:170-178 | a definition: the trackers after listentry has run on each enumerated child in turn, the counterpart of Entry.Collect; Entry.CollectCovers and Entry.CollectFits state its properties |
| Entry.ScanWidths | applist.cpp:160-181 | a definition: the trackers after one listapps call, unchanged when the root does not open, otherwise Entry.CollectWidths over its children |
| Entry.Scan | applist.cpp:160-181 | the entries one listapps call appends: none when the root does not open, otherwise at most one per child of the root |
| Entry.CollectCovers | applist.cpp:170-178 | the trackers never decrease over the children of one key |
| Entry.CollectFits | applist.cpp:170-178 | after a scan the trackers cover their start, and every appended entry fits them and has a well-formed size |
| Entry.CStrNoNul | applist.cpp:109 | a value without NUL reads back whole |
| Entry.ExtractDirect | applist.cpp:78-101 | a child that opens directly yields exactly what its own key admits |
| Entry.NameOnlyEntry | applist.cpp:103-109 | a key with only a DisplayName is admitted and gives that name with empty version and publisher and size 0 |
| Entry.ScenarioPlainEntry | applist.cpp:160-181 | an uninstall key with one name-only child lists exactly that one entry |
| Entry.ScenarioSystemComponent | applist.cpp:86-91 | a child flagged SystemComponent=1 is dropped even though it has a name and a size |
| Entry.ScenarioParentDisplayName | applist.cpp:92-95 | a child with a ParentDisplayName is dropped while its parent is listed |
| Sorting.CaseIsIgnored | applist.cpp:150-152 | strings that differ only in the case of ASCII letters compare alike against any third string |
| Sorting.AppleBeforeBanana | applist.cpp:150 | "apple" sorts before "Banana" by name, although 'B' precedes 'a' as a code unit |
| Sorting.LexLessIrreflexive | applist.cpp:150-152 | the string comparison is irreflexive |
| Sorting.LexLessTransitive | applist.cpp:150-152 | the string comparison is transitive |
| Sorting.LexLessTotal | applist.cpp:150-152 | of two different strings one is less than the other |
| Sorting.LessIgnoringCase | applist.cpp:150-152 | a definition: lstrcmpi(a, b) < 0, taken as code-unit order on the ASCII case-folded strings; Sorting.CaseIsIgnored and the LexLess lemmas state its properties |
| Sorting.Less | applist.cpp:147-156 | SortFunction in each mode (folded name ascending, folded publisher ascending, size descending) never holds between two entries of the same rank |
| Sorting.LessIrreflexive | applist.cpp:147-156 | SortFunction(x, x) is false in every mode |
| Sorting.LessTransitive | applist.cpp:147-156 | SortFunction is transitive in every mode |
| Sorting.EquivalentIffSameRank | applist.cpp:147-156 | two entries are equivalent under SortFunction iff they have the same rank (folded name, folded publisher or size), so equivalence is transitive: a strict weak ordering as std::sort requires |
| Sorting.SortedBySize | applist.cpp:153-154 | ordered by mode 3 means sizes are non-increasing |
| Sorting.InsertSorted | applist.cpp:244 | inserting before the first greater element keeps a sequence ordered |
| Sorting.UpperBound | applist.cpp:244 | finds the position after every element not greater than x and before the first greater one |
| Sorting.InsertStep | applist.cpp:244 | one insertion step keeps the result ordered and a permutation of the input so far |
| Sorting.SortEntries | applist.cpp:244 | the result is ordered under SortFunction and a permutation of the input; an ordered input is returned unchanged |
| Args.LargeValueSaturates | applist.cpp:210-220 | -s followed by a digit run above INT_MAX, after any number of valid sort options, ends the run reporting INT_MAX |
| Args.SkipSpaces | applist.cpp:215 | what follows the leading white space is a suffix of the input, everything before it is white space, and it does not start with white space |
| Args.DigitPrefix | applist.cpp:215 | the digit run is the longest prefix made of digits |
| Args.Atoi | applist.cpp:215 | _wtoi: a non-zero result needs a digit in the text |
| Args.AtoiNonNumeric | applist.cpp:215 | a suffix with no digits after the optional white space and sign parses to 0 |
| Args.NonNumericRejected | applist.cpp:210-220 | a sort option whose suffix has no digits, after any number of valid sort options, ends the run reporting 0 |
| Args.AtoiDigit | applist.cpp:215 | a single digit parses to its value |
| Args.IsSortOption | applist.cpp:212-214 | a definition: an argument is a sort option when its first character is '/' or '-' and its second is 's', reading the terminating NUL past the end of a short argument |
| Args.ParseArgs | applist.cpp:210-233 | the argument loop: a run that ends on a bad sort option reports a value outside 1..3 |
| Args.ProceedIff | applist.cpp:210-233 | the run proceeds iff every argument is -s or /s with a value in 1..3 |
| Args.ProceedMode | applist.cpp:210-233 | a run that proceeds does so in the mode of the last sort option, or in the default mode when there are no arguments |
| Args.LastSortOptionWins | applist.cpp:214-217 | appending a valid sort option makes it the mode of a run that proceeds and changes nothing otherwise |
| Args.FirstBadArgument | applist.cpp:210-231 | the first argument that is not a valid sort option decides the ending, whatever follows it: InvalidSort with its value when it is a sort option, the usage text otherwise |
| Args.OtherArgumentIsUsage | applist.cpp:210-231 | an argument that is not a sort option, after any number of valid sort options, ends the run with the usage text |
| Args.InvalidModeNine | applist.cpp:216-220 | -s9 ends the run reporting 9 |
| AppList.SizeSum | applist.cpp:272 | the exact sum of the sizes, against which the 64-bit total is stated |
| AppList.SizeSumAppend | applist.cpp:272 | the total of a concatenation is the sum of the totals |
| AppList.SizeSumRemove | applist.cpp:272 | taking one entry out of the list takes its size off the total |
| AppList.SizeSumPermutation | applist.cpp:272 | the total does not depend on the order, so sorting does not change it |
| AppList.SizeSumBound | applist.cpp:272 | the total is at most the number of entries times (2^32-1)*1024 |
| AppList.TotalIsExact | applist.cpp:272-276 | with at most 2^22 entries the 64-bit total never wraps |
| AppList.ScanAll | applist.cpp:235-242 | a definition: the entries the three listapps calls of wmain append, in the order of the calls; AppList.AppList.ListAll and AppList.AppList.Run are stated against it |
| AppList.ScanAllWidths | applist.cpp:235-242 | the trackers after the three listapps calls of wmain are never below those before |
| AppList.ScanCovers | applist.cpp:160-181 | the trackers never decrease over one listapps call |
| AppList.AppList.constructor | applist.cpp:41-158 | the globals start at maxname=maxver=maxpub=10, sort=1 and no products |
| AppList.AppList.ListEntry | applist.cpp:70-142 | listentry returns TRUE iff the child is accepted, yields its entry (the entry is untouched otherwise), raises the trackers as WidthsAfter states, and closes every key it opens |
| AppList.AppList.OpenEntry | applist.cpp:77-83 | the key listentry reads is the child itself, or only if that fails its InstallProperties sub-key, and that key is left open |
| AppList.AppList.ReadEntry | applist.cpp:85-139 | on the opened key, the three filters decide acceptance and the entry and trackers are filled from the key's values |
| AppList.AppList.ListApps | applist.cpp:160-181 | listapps returns 0, appends exactly the accepted entries of the root's children in enumeration order, raises the trackers as ScanWidths states, keeps every entry fitting the trackers, and closes every key |
| AppList.AppList.ListChild | applist.cpp:171-177 | one pass of the listapps loop appends the child's accepted entry, if any, raises the trackers as listentry does, and keeps every entry fitting them |
| AppList.AppList.ParseArguments | applist.cpp:210-233 | the argument loop ends as ParseArgs states and, when the run proceeds, leaves sort at the chosen mode |
| AppList.AppList.SortProducts | applist.cpp:244 | after std::sort the products are ordered under SortFunction and a permutation of what they were |
| AppList.AppList.Totals | applist.cpp:262-276 | the print loop's total is the 64-bit wrapped sum of the sizes and its count the 32-bit wrapped number of entries |
| AppList.AppList.ListAll | applist.cpp:235-242 | the three listapps calls append the entries of the three uninstall keys in that order, and leave the trackers as the three scans raise them, never lower |
| AppList.AppList.Report | applist.cpp:244-276 | the listed products are sorted, and the total and count are those of the list before sorting |
| AppList.AppList.Run | applist.cpp:200-277 | wmain either ends in the argument loop with nothing listed and the trackers untouched, or lists the three keys, raises the trackers as the three scans do, sorts in the chosen mode, and reports the total size and count |

## Left out

- The Win32 registry calls are replaced by the abstract store. This covers RegOpenKeyEx, RegEnumKeyEx, RegQueryValueEx and RegCloseKey, the KEY_WOW64_64KEY view and access rights, and the case-insensitivity of key and value names.
- Store.DataSize: every string value is taken to be stored with its terminating NUL. A REG_SZ stored without one reads on into what an earlier query left in the shared buffer (applist.cpp:100, 115, 123), and its tracker is raised only to its length; the model does not capture either.
- A query of a value of the wrong type fails in the model. The Win32 call would instead copy the raw bytes when they fit.
- Enumeration is a plain sequence of child names. The path where RegEnumKeyEx fails with an error other than ERROR_NO_MORE_ITEMS is not modelled. In that path `listentry` still runs on a stale buffer (applist.cpp:172-175), and what follows depends on the operating system.
- Characters are Dafny `char`s. UTF-16 surrogate pairs are not modelled.
- Sorting.LessIgnoringCase: lstrcmpi's locale-aware comparison is modelled by ASCII case folding and code-unit order.
- Sorting.SortEntries: std::sort is an unstable in-place sort. The model is a stable insertion sort on a sequence, and its ordering and permutation contracts are all the C++ standard promises. Its third contract, that an already ordered input is returned unchanged, is true of the model only.
- Args.Atoi: _wtoi's overflow behaviour is modelled as saturation to INT_MIN and INT_MAX. Only the ASCII digits 0-9 and the ASCII white space characters (space, \t, \n, \v, \f, \r) are modelled; the CRT's wide conversion also skips other iswspace characters and reads other Unicode decimal digits (fullwidth digits, for instance), so an option such as -s followed by a fullwidth 3 selects mode 3 in the program but reads as 0 in the model.
- `exit(0)` is modelled as the ParseOutcome values InvalidSort and Usage. The run then lists nothing.
- The following are output only and are left out: `xstrerror` (FormatMessage and GetLastError, never called), `ConsoleSetBufferWidth`, `StrFormatByteSizeEx`, the banner, the `usage` text and every `wprintf` column layout.
