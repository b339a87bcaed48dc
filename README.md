# auto-pts Mynewt GATT handlers and bot, in Dafny

auto-pts drives the Bluetooth Profile Tuning Suite (PTS) against an
implementation under test (IUT) running Apache Mynewt. This project models
three parts of it and proves properties of the model:

- **GATT work-item handlers** (`ptsprojects/mynewt/gatt_wid.py`, module
  `GattWid`). During a test case PTS sends a work-item id and a free-text
  prompt. `gatt_wid_hdl` calls `hdl_wid_<id>`, and an unknown id yields None.
  - The handlers scan the prompt with fixed regular expressions (module `Scan`).
  - They read the IUT's attribute database over btp.
  - `hdl_wid_1` makes the IUT connectable, discoverable and advertising.
  - `hdl_wid_17` checks that every service PTS names is a primary service of the IUT, counted with multiplicity.
  - `hdl_wid_52` compares a stored value with a number.
  - `hdl_wid_56` compares the concatenation of two stored values with a text.

  The device is an abstract attribute database passed in as a parameter. Each
  handler's result is an `Outcome`: the reply (True, False, None, or the Python
  exception that escapes) plus the btp commands sent, in order. `hdl_wid_17`
  builds and consumes lists in loops, so it is a method proved against the
  function `Wid17Expected`.
- **GATT formatting and attribute layout** (`ptsprojects/mynewt/gatt.py`,
  module `Gatt`, on top of the hexadecimal text model in `HexText`).
  - The helpers `hdl_str`, `u16_hdl_str` and `u16_hdl_uc_str` are modelled through `str.format`.
  - The `PTS_DB` UUIDs, ids and handles are modelled, with the handles computed from `iut_attr_db_off`.
  - So are the `Value` texts.
  - `u16_hdl_uc_str` does not upper-case: its `'X'` is an unused second format argument.
  - `CHR_READ_WRITE_HDL` is the one handle written without zero fill.
  - `SVC_END_HDL` repeats `DSC_READ_WRITE_AUTHEN_HDL`.
- **Mynewt bot** (`bot/mynewt.py`, module `MynewtBot`).
  - `_validate_pair` and the `autopts2board` table.
  - The commands `build_and_flash` runs, and its `k=v:k=v` syscfg argument.
  - `run_tests`: it collects the default deny-list from overlay configurations, chooses each configuration's allow-list and deny-list, builds and runs, then merges what the runs report.
  - The subset filter, the test runner and the description lookup are not part of this model. They are function parameters.
  - `run_tests`, the default deny-list loop, the status-count loop and the description loop are methods proved against specification functions.

The source is Python 2 (`hexlify` returns `str`, and exceptions carry `.message`). The model follows the Python 2 semantics:

- `re.findall` returns the group tuples of non-overlapping leftmost greedy matches.
- `dict(pairs)` keeps the last value for a key.
- `int(None, 16)` raises TypeError and `int('', 16)` raises ValueError.
- `UUID(hex=...)` accepts exactly 32 hex digits here, and anything else raises ValueError.
- `hex(n)` is `0x` followed by lower-case digits.
- `hexlify(b).upper()` gives upper-case digits, two per byte.

On these points the code behaves as follows, and so does the model:

- Only AttributeError is caught by `gatt_wid_hdl` (`ptsprojects/mynewt/gatt_wid.py:35`). A handler's TypeError, ValueError or btp failure escapes, and is not turned into a negative reply.
- Configurations are not skipped on a failure. A missing `test_cases` key, or a board `autopts2board` does not list, raises KeyError out of `run_tests`.
- The regressions returned are those of the last configuration only.
- An overlay configuration runs its own list with no deny-list. Every other configuration runs its own list as the allow-list, with the overlay configurations' lists as the deny-list.

## Model

| member | source | states |
|---|---|---|
| HexText.HexValue | ptsprojects/mynewt/gatt_wid.py:91-92 | `int(s, 16)` of a hex text is below 16 to the power of its length |
| HexText.LowerHex | ptsprojects/mynewt/gatt.py:38-39 | `'{:x}'` gives non-empty lower-case hex that reads back as `n`, with no leading zero, and is as short as possible |
| HexText.LowerHexDigits | ptsprojects/mynewt/gatt.py:42-43 | `n` fits in `k` hex digits exactly when `n < 16^k` |
| HexText.ZeroPadValue | ptsprojects/mynewt/gatt.py:42-43 | zero fill to a width keeps the text lower-case hex and keeps its value |
| HexText.LeadingZerosIgnored | ptsprojects/mynewt/gatt_wid.py:91-92 | leading zero digits do not change what `int(s, 16)` reads |
| HexText.LowerHexCanonical | ptsprojects/mynewt/gatt.py:42-43 | two lower-case hex texts with the same length and value are the same text |
| HexText.UpperKeepsValue | ptsprojects/mynewt/gatt_wid.py:122 | `str.upper` of hex text gives upper-case hex with the same value |
| HexText.LowerKeepsValue | ptsprojects/mynewt/gatt_wid.py:57 | lower-casing hex text gives lower-case hex with the same value |
| HexText.Upper | ptsprojects/mynewt/gatt_wid.py:122 | `str.upper` works character by character: same length, `a`-`z` raised, everything else kept |
| HexText.Lower | ptsprojects/mynewt/gatt_wid.py:57 | lower-casing works character by character: same length, `A`-`Z` lowered, everything else kept |
| HexText.Hexlify | ptsprojects/mynewt/gatt_wid.py:95 | `hexlify` gives two lower-case hex digits per byte |
| HexText.HexlifyValue | ptsprojects/mynewt/gatt_wid.py:95 | `int(hexlify(b), 16)` is the big-endian value of the bytes |
| HexText.BigEndian | ptsprojects/mynewt/gatt_wid.py:95 | the bytes read as one unsigned big-endian number, which stays below 256 to the power of the byte count |
| HexText.HexlifyConcat | ptsprojects/mynewt/gatt_wid.py:121-129 | the hexlify of two byte strings put together is the two texts put together |
| HexText.UpperHexlifyIff | ptsprojects/mynewt/gatt_wid.py:122-132 | a text equals `hexlify(b).upper()` iff it is upper-case hex, has two digits per byte and reads as the big-endian value of `b` |
| Scan.HexRunEnd | ptsprojects/mynewt/gatt_wid.py:49 | the greedy `[0-9a-fA-F]+` run stops at the first non-hex character or at the end |
| Scan.MatchAt | ptsprojects/mynewt/gatt_wid.py:49-50 | a match found at a position ends within the text, and is at least one character per token long |
| Scan.MatchAtSound | ptsprojects/mynewt/gatt_wid.py:49-50 | every match the scanner finds spells the pattern with the groups it returns |
| Scan.MatchAtComplete | ptsprojects/mynewt/gatt_wid.py:49-50 | for the handlers' patterns, any spelling of the pattern at a position is the one match the scanner finds there |
| Scan.FindAll | ptsprojects/mynewt/gatt_wid.py:50 | `re.findall`: the groups of each non-overlapping match, left to right, resuming at a match's end or one character on; its meaning is stated by `FindAllSound`, `FindAllEmpty`, `FindAllFirst` and `FindAllFit` |
| Scan.FindAllSpan | ptsprojects/mynewt/gatt_wid.py:50 | gives for the n-th result a stretch of the prompt, at or after the start position, that spells the pattern with those groups |
| Scan.FindAllSound | ptsprojects/mynewt/gatt_wid.py:50 | every group tuple `findall` returns is spelled by a stretch of the prompt |
| Scan.FindAllEmpty | ptsprojects/mynewt/gatt_wid.py:50-51 | `findall` returns nothing iff the pattern matches at no position |
| Scan.FindAllFirst | ptsprojects/mynewt/gatt_wid.py:116-117 | the first tuple `findall` returns is the groups of the leftmost match |
| Scan.FindAllFit | ptsprojects/mynewt/gatt_wid.py:83-84 | every hex group returned is non-empty hex, and every `(a\|b)` group is one of its two words |
| Gatt.FormatHex | ptsprojects/mynewt/gatt.py:38-47 | a one-field hex format yields lower-case hex of the named argument, filled to the width; extra arguments are ignored, and a missing or string argument is an error |
| Gatt.HdlStr | ptsprojects/mynewt/gatt.py:38-39 | `hdl_str` is the handle in lower-case hex, without zero fill |
| Gatt.U16HdlStr | ptsprojects/mynewt/gatt.py:42-43 | `u16_hdl_str` is lower-case hex of the handle with at least 4 digits, and exactly 4 iff the handle is below 0x10000 |
| Gatt.U16HdlUcStr | ptsprojects/mynewt/gatt.py:46-47 | `u16_hdl_uc_str` is the same text as `u16_hdl_str`, which is lower-case |
| Gatt.PtsUuid | ptsprojects/mynewt/gatt.py:51 | `PTS_UUID_FMT.format(id)` is `0000`, then the id, then the fixed 24-digit suffix |
| Gatt.PtsUuidAt | ptsprojects/mynewt/gatt.py:52-67 | each PTS_DB UUID is 32 characters: `0000`, a 4-digit id and the fixed suffix |
| Gatt.PtsUuidOrdinal | ptsprojects/mynewt/gatt.py:52-67 | the k-th UUID's id is `u16_hdl_str(k + 1)`, so the ids run from 0001 to 0010 |
| Gatt.PtsUuidLowerHex | ptsprojects/mynewt/gatt.py:51-67 | every PTS_DB UUID is 32 lower-case hex digits |
| Gatt.PtsUuidsDistinct | ptsprojects/mynewt/gatt.py:52-67 | two PTS_DB UUIDs are equal iff they are the same entry |
| Gatt.AttrIdAt | ptsprojects/mynewt/gatt.py:69-82 | the characteristic and descriptor ids are 0 to 13 in declaration order, hence distinct and consecutive |
| Gatt.HandleOffset | ptsprojects/mynewt/gatt.py:86-102 | the offset each PTS_DB handle adds to `iut_attr_db_off`, in declaration order; `HandleOffsetsRise` states how they rise |
| Gatt.HandleAt | ptsprojects/mynewt/gatt.py:84-102 | each handle reads back as 26 plus its offset, and every handle except `CHR_READ_WRITE_HDL` has 4 digits |
| Gatt.HandleOffsetsRise | ptsprojects/mynewt/gatt.py:86-102 | the handle offsets rise strictly in declaration order, except that +23 repeats |
| Gatt.ChrReadWriteHdlUnpadded | ptsprojects/mynewt/gatt.py:91 | `CHR_READ_WRITE_HDL` is the unpadded text `"25"` |
| Gatt.SameOffsetSameHandle | ptsprojects/mynewt/gatt.py:86-102 | two zero-filled handles with the same offset are the same text |
| Gatt.SvcEndRepeats | ptsprojects/mynewt/gatt.py:99-100 | `SVC_END_HDL` is the same text as `DSC_READ_WRITE_AUTHEN_HDL` |
| Gatt.HandlesDistinct | ptsprojects/mynewt/gatt.py:86-102 | two handle texts are equal iff they are that one repeated pair |
| Gatt.Repeat | ptsprojects/mynewt/gatt.py:110-111 | `s * n` is `n` copies of `s`, with length `|s| * n` |
| Gatt.LongValues | ptsprojects/mynewt/gatt.py:108-111 | `long_1` and `long_2` are four copies of their 8-byte texts, 64 digits each |
| Gatt.ValueShapes | ptsprojects/mynewt/gatt.py:105-111 | every `Value` text is an even number of upper-case hex digits, i.e. whole bytes |
| GattWid.PatternsWellFormed | ptsprojects/mynewt/gatt_wid.py:49-110 | the four prompt patterns are of the shape for which the scanner is complete |
| GattWid.ServiceGroups | ptsprojects/mynewt/gatt_wid.py:49-50 | each service found is one non-empty hex group |
| GattWid.HandleOrValueGroups | ptsprojects/mynewt/gatt_wid.py:83-84 | each pair found is `Handle` or `value`, followed by non-empty hex |
| GattWid.HandlePairGroups | ptsprojects/mynewt/gatt_wid.py:103-105 | each handle pair found is two non-empty hex groups |
| GattWid.ValueGroups | ptsprojects/mynewt/gatt_wid.py:110-111 | each value found is one non-empty hex group |
| GattWid.HdlWid1 | ptsprojects/mynewt/gatt_wid.py:40-44 | sends set-connectable, set-general-discoverable and advertise-on, in that order, and returns True |
| GattWid.PyHex | ptsprojects/mynewt/gatt_wid.py:56 | `hex(n)` is `0x` followed by lower-case hex digits that read back as `n` |
| GattWid.Dashed | ptsprojects/mynewt/gatt_wid.py:57 | the 8-4-4-4-12 form is 36 characters with dashes at 8, 13, 18 and 23 |
| GattWid.DashedRoundTrip | ptsprojects/mynewt/gatt_wid.py:57 | removing the dashes from the dashed form gives the 32 digits back |
| GattWid.UuidText | ptsprojects/mynewt/gatt_wid.py:57 | `UUID(hex=s).urn[9:]` is 36 characters |
| GattWid.NormaliseService | ptsprojects/mynewt/gatt_wid.py:56-57 | a service id normalises iff it has 4 or 32 digits (any other length makes UUID raise) |
| GattWid.NormaliseShortId | ptsprojects/mynewt/gatt_wid.py:56 | a 4-digit id becomes `0x` plus lower-case hex of the same value, with no leading zero |
| GattWid.NormaliseUuid | ptsprojects/mynewt/gatt_wid.py:57 | a 32-digit id becomes its lower-cased digits in dashed form, and undashing gives them back |
| GattWid.NormaliseAll | ptsprojects/mynewt/gatt_wid.py:56-57 | the list normalises iff every id does, element by element and in order |
| GattWid.ServicesFound | ptsprojects/mynewt/gatt_wid.py:49-50 | each service `findall` returns is one non-empty hex group |
| GattWid.ServiceTexts | ptsprojects/mynewt/gatt_wid.py:50 | the service texts are the single groups of the matches, in order |
| GattWid.IutUuids | ptsprojects/mynewt/gatt_wid.py:63-67 | `iut_services` is the IUT's primary-service UUIDs, in the order listed |
| GattWid.ServiceReads | ptsprojects/mynewt/gatt_wid.py:62-65 | one `gatts_get_attrs('2800')`, then one value read per primary service, in order |
| GattWid.Wid17Expected | ptsprojects/mynewt/gatt_wid.py:47-78 | the reply of `hdl_wid_17` is always True, False or an exception, never None |
| GattWid.RemoveFirst | ptsprojects/mynewt/gatt_wid.py:72 | `list.remove` drops exactly one occurrence: the multiset loses one copy |
| GattWid.MissingService | ptsprojects/mynewt/gatt_wid.py:75-77 | a service PTS names with no copy left among the IUT's means the multiset is not contained |
| GattWid.ReadPrimaryServices | ptsprojects/mynewt/gatt_wid.py:59-67 | the collection loop builds the IUT's UUID list and sends the reads of `ServiceReads` |
| GattWid.FindServices | ptsprojects/mynewt/gatt_wid.py:69-78 | the verification loop returns True iff the multiset of PTS services is contained in the IUT's; extra IUT services are allowed |
| GattWid.HdlWid17 | ptsprojects/mynewt/gatt_wid.py:47-78 | with no service in the prompt: False and no reads; a badly sized id: ValueError and no reads; otherwise the reads, then the multiset containment verdict |
| GattWid.Wid17BadLength | ptsprojects/mynewt/gatt_wid.py:56-57 | one service id of neither 4 nor 32 digits anywhere in the prompt makes `hdl_wid_17` raise ValueError before any read |
| GattWid.Wid17Accepts | ptsprojects/mynewt/gatt_wid.py:59-78 | a True answer means every primary service was read and every service in the prompt normalises to a UUID the IUT lists |
| GattWid.Wid17CountsRepeats | ptsprojects/mynewt/gatt_wid.py:69-78 | a UUID the prompt names twice needs two IUT entries: with fewer the answer is not True |
| GattWid.Wid17NoService | ptsprojects/mynewt/gatt_wid.py:49-53 | `hdl_wid_17` answers False without reading anything iff no `Service = '<hex>'` occurs in the prompt |
| GattWid.DictOf | ptsprojects/mynewt/gatt_wid.py:89 | `dict(pairs)` has exactly the keys of the pairs, and each value comes from a pair with that key |
| GattWid.DictOfLastWins | ptsprojects/mynewt/gatt_wid.py:89 | the value kept for a key is the one from its last pair |
| GattWid.Pairs | ptsprojects/mynewt/gatt_wid.py:84 | the key and value pairs are the match groups, in order |
| GattWid.Wid52Params | ptsprojects/mynewt/gatt_wid.py:83-89 | every parsed parameter is non-empty hex text, as the regex's `+` guarantees |
| GattWid.Get | ptsprojects/mynewt/gatt_wid.py:91-92 | `dict.get`: a value iff the key is present, and then the one stored under it |
| GattWid.Int16 | ptsprojects/mynewt/gatt_wid.py:91-92 | `int(t, 16)`: None raises TypeError, the empty text ValueError, and any other hex text gives its value |
| GattWid.CheckAttrValue | ptsprojects/mynewt/gatt_wid.py:89-99 | the Handle, then the value, is converted before any read: missing gives TypeError, empty gives ValueError. Otherwise one read of the handle: no attribute gives a btp failure, an empty value ValueError, else True iff the big-endian value equals the parsed value |
| GattWid.HdlWid52 | ptsprojects/mynewt/gatt_wid.py:81-99 | never None |
| GattWid.Wid52NoParams | ptsprojects/mynewt/gatt_wid.py:83-87 | `hdl_wid_52` answers False without reading anything iff the prompt holds no `Handle='..'` or `value='..'` |
| GattWid.Wid52LastWins | ptsprojects/mynewt/gatt_wid.py:89-92 | the handle and value used are those of the last `Handle=` and the last `value=` in the prompt |
| GattWid.Wid52MissingKey | ptsprojects/mynewt/gatt_wid.py:89-92 | a prompt with matches but no `Handle` (or no `value`) raises TypeError before any read |
| GattWid.CheckConcatenation | ptsprojects/mynewt/gatt_wid.py:121-134 | reads handle 1, then handle 2; a missing attribute is a btp failure; True iff the value text is upper-case hex of both values' bytes in order, two digits per byte |
| GattWid.HdlWid56 | ptsprojects/mynewt/gatt_wid.py:102-134 | never None |
| GattWid.Wid56NoParams | ptsprojects/mynewt/gatt_wid.py:103-114 | `hdl_wid_56` answers False without reading anything iff the handle pair or the value is missing from the prompt |
| GattWid.Wid56Leftmost | ptsprojects/mynewt/gatt_wid.py:103-127 | `hdl_wid_56` checks the leftmost handle pair and the leftmost value in the prompt, whatever follows them |
| GattWid.LowerCaseValueRejected | ptsprojects/mynewt/gatt_wid.py:132 | the comparison is case-sensitive: a value with a lower-case hex letter is never accepted |
| GattWid.GattWidHdl | ptsprojects/mynewt/gatt_wid.py:27-36 | ids 1, 17, 52 and 56 get their handler's outcome and never None; any other id gets None with no btp command |
| MynewtBot.ValidatePair | bot/mynewt.py:47-54 | True iff the object has a length and it is 2; an object without one gives False, not an exception |
| MynewtBot.MynewtBoard | bot/mynewt.py:106-109 | None maps to None and `nrf52` to `nordic_pca10056`; any other board raises KeyError |
| MynewtBot.SyscfgArg | bot/mynewt.py:91 | the `k=v:k=v` join of the overlay; `SyscfgRoundTrip` and `SyscfgNonEmpty` state what it preserves |
| MynewtBot.TargetSettings | bot/mynewt.py:76-93 | four `newt target set` commands, five with an overlay, each on the boot loader or the tester target |
| MynewtBot.BuildAndFlash | bot/mynewt.py:57-103 | 15 commands, 16 with an overlay; the lemmas below state their order, the syscfg command, the preparation and the deployment |
| MynewtBot.BuildAndFlashInOrder | bot/mynewt.py:67-103 | the commands run in phase order: remove, target create, target set, build, create-image, load |
| MynewtBot.SettingsSyscfg | bot/mynewt.py:76-93 | among the target settings only the fifth, present only with an overlay, is a syscfg setting, and it carries the joined overlay |
| MynewtBot.BuildAndFlashSyscfg | bot/mynewt.py:90-93 | a syscfg command is issued iff an overlay is given, and it is `syscfg=` plus the `k=v:k=v` join |
| MynewtBot.BuildAndFlashPrepares | bot/mynewt.py:67-88 | removes `bin/` and both target directories, creates both targets, and sets each one's BSP to the board and its app |
| MynewtBot.BuildAndFlashDeploys | bot/mynewt.py:72-103 | the boot loader target and the tester target are both created, built, imaged and loaded |
| MynewtBot.SyscfgRoundTrip | bot/mynewt.py:91 | splitting the syscfg argument at `:` and then at the first `=` gives back the overlay items, in order, when keys hold no `:` or `=` and values no `:` |
| MynewtBot.SyscfgNonEmpty | bot/mynewt.py:91-92 | the argument is empty iff the overlay is empty |
| MynewtBot.DefaultToOmitMembers | bot/mynewt.py:162-168 | a test case is in `default_to_omit` iff some configuration with an overlay lists it in `test_cases` |
| MynewtBot.DefaultToOmit | bot/mynewt.py:162-168 | the overlay configurations' `test_cases` lists concatenated in configuration order; `DefaultToOmitMembers` states its members |
| MynewtBot.CollectDefaultToOmit | bot/mynewt.py:162-168 | the first loop builds exactly the concatenation, in configuration order, of the overlay configurations' lists |
| MynewtBot.Select | bot/mynewt.py:170-180 | KeyError iff `test_cases` is missing. An overlay configuration runs its list with no deny-list; any other runs its list with `default_to_omit` as the deny-list |
| MynewtBot.ChooseTests | bot/mynewt.py:188-191 | the subset filter is applied iff the allow-list or deny-list is non-empty; otherwise the whole catalogue runs |
| MynewtBot.WholeCatalogue | bot/mynewt.py:170-191 | a configuration with an empty list and nothing to deny runs the whole catalogue |
| MynewtBot.AddStatusCounts | bot/mynewt.py:198-202 | the status loop leaves the running counts plus the run's counts |
| MynewtBot.AddItemsCount | bot/mynewt.py:198-202 | after adding a run's counts, each status holds its earlier count plus the run's sum for it; the statuses are the earlier ones and the run's |
| MynewtBot.TotalStatusCounts | bot/mynewt.py:198-202 | after all runs, `status[k]` is the sum of every run's count for `k`, and the keys are exactly those some run reported |
| MynewtBot.TotalStatus | bot/mynewt.py:198-202 | the status counts after every run's counts are added in, in order; `TotalStatusCounts` states the sums |
| MynewtBot.MergeResults | bot/mynewt.py:204 | `results.update` with every run's results in order; `MergeResultsKeys` and `MergeResultsLastWins` state the outcome |
| MynewtBot.MergeResultsKeys | bot/mynewt.py:204 | the merged results name exactly the test cases some run reported |
| MynewtBot.MergeResultsLastWins | bot/mynewt.py:204 | a test case's merged result is the one from the last run that reported it |
| MynewtBot.DescribeAll | bot/mynewt.py:207-209 | the descriptions have exactly the keys of the results, each from the description lookup |
| MynewtBot.RunOf | bot/mynewt.py:182-196 | one configuration's report: the runner applied to the build commands for the mapped board and the tests chosen for it |
| MynewtBot.Runs | bot/mynewt.py:170-196 | one report per configuration, in order |
| MynewtBot.RunConfig | bot/mynewt.py:170-196 | one configuration's pass: KeyError iff its `test_cases` or the board is missing, else the run of its build and selection |
| MynewtBot.RunTests | bot/mynewt.py:129-215 | no configuration: UnboundLocalError. A missing `test_cases` or unknown board: KeyError. Otherwise the summed status, the last-write-wins results, a description per result, and the last configuration's regressions |

## Left out

- Logging, `time.sleep`, the threads and the callback/pending-response synchroniser are left out. So are the PTS proxy, `iutctl`, cache set-up and clean-up, and the whole of `main` in `bot/mynewt.py`: it updates sources and produces reports, Drive uploads and mail.
- The btp transport is not modelled. Each read is a lookup in the attribute database passed in, and a handle the database lacks raises a btp failure. `btp2uuid` is not part of this model: each primary service carries the UUID text it produces.
- `hdl_wid_56` passes the handle texts straight to btp. The model assumes btp reads the attribute whose handle the hex text names.
- `GattWid.GattWidHdl` does not model the AttributeError branch. `gatt_wid_hdl` would also catch an AttributeError raised inside a handler, but none of the four modelled handlers raises one. `test_case_name` is only logged.
- The regex engine and Python's `uuid` module are not modelled. Only fixed-shape scanners for the four prompt patterns are, plus the two normalisation shapes `hdl_wid_17` uses.
- `get_test_cases` and the test-case catalogues are not part of this model. That covers the `gatt.py` catalogue and set-up functions and the whole of `l2cap.py`, `btpdef.py` and `pre_tc.py`. `run_tests` takes the catalogue as a parameter.
- `additional_test_cases` is not modelled. The runner parameter stands for `run_test_cases` with everything it is given, including `args["retry"]`, whose `int()` conversion is not modelled either.
- `MynewtBot.RunTests` keeps the build commands as data: they are not executed. Every command (`check_call`, which raises CalledProcessError on a failing command, bot/mynewt.py:33-44) and every foreign call (`init_pts`, `iutctl.init`, `get_test_cases`, `run_test_cases`, `get_test_case_description`) is assumed to complete normally. So KeyError and UnboundLocalError are the only failures modelled.
- `MynewtBot.RunConfig` rests on the same assumption: a failing build or run of one configuration is not modelled, only the KeyError of its lookups.
- `MynewtBot.BuildAndFlash` does not model `check_call`'s `split()` on white space. A command is kept as its structured form, which matches the split words when the board, keys and values hold no white space.
- `MynewtBot.RunTests` does not trace the command lists of earlier configurations. On a KeyError it reports only the error, although earlier configurations have already been built and run.
- Python 2 dictionaries iterate in no fixed order. The model gives `iut_config` and each overlay a fixed order as a list of pairs, and the deny-list order, the syscfg text, and which configuration's result or regressions come last all follow that order.
- An `overlay` key bound to None is not modelled. `ConfigValue` treats the key as present with a dictionary, or absent.
- Overlay keys and values are kept as the text `'{}'.format` makes of them, and status counts are kept as unbounded integers.
