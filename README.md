# pt_ana_ts core, modelled in Dafny

`pt_ana_ts` reads static-timing-analysis path reports. It turns them into a
summary report and a bar chart of each path's cells. This project models
the deterministic core of the analyser and proves properties of it:

- **The rules-file compiler `load_times_cfg`** (`times_cfg.dfy`).
  - Each non-blank line is `key: value` with an optional `#` comment.
  - The line is handled by the branch its key selects: one of 17 boolean
    toggles, or `bds`, `ckt`, `ckp`, `ckm`, `dpc`, `pc`, `cc`, `dc`, `hcd`.
  - All lines are folded into one configuration record.
  - The first line that raises ends the load with a syntax error that
    carries the line's 1-based number.
  - A default path class that names no `pc` tag is dropped at the end.
  - The loader is a method with a loop over the lines, proved equal to a
    fold of a line function. The lemmas state what each key does to the
    record.
- **The bar-chart data of `get_time_bar_info`** (`time_bar.dfy`).
  - Every cell of the launch clock, capture clock and data paths becomes a
    bar. The bar is coloured by the first segment class, in insertion
    order, whose pattern full-matches the cell's attribute.
  - The class is sticky: it is only looked up again when the current
    class's pattern stops matching.
  - A data-only bar restarts at the startpoint clock pin. That pin's bar is
    hatched and edged blue, and its position is recorded as `did`/`dsp`.
  - The nested loops are methods proved equal to functions. The lemmas state
    each bar's cells, colours, hatches, edge colours and startpoint position
    in closed form.
- **The `-r` range option of `main`** (`scan_range.dfy`).
  - A comma-separated list of `start[:last][+count]` items.
  - Items that do not match are skipped.
  - An empty result becomes the single default range `[0, None, 1]`.
- **The derived figures of `report_summary`** (`summary.dfy`): data
  latency, clock skew, datapath level, the launch and capture clock segment
  lengths, and the network part of each clock latency.
- **The viewer's key table `key_event_check`** (`key_event.dfy`).
- **`str2int` of `utils/common.py`** (`str2int.dfy`). It reads decimal or
  `0x` hexadecimal text as an integer that must fit in `bits` bits, signed
  or unsigned, and sign-extends hexadecimal values in signed mode.

The supporting modules model what that code relies on:

- Python `str` operations (`pystr.dfy`): `strip()`, `split(sep)`,
  `split()`, `lower()`.
- Digit runs and decimal text (`digits.dfy`).
- Insertion-ordered dictionaries (`ordered_table.dfy`).
- Compiled regular expressions as opaque values, with the engine's
  "compiles" and "full-matches" tests as a parameter (`patterns.dfy`).
- `Option` and `Result` (`wrappers.dfy`).

Two choices of the model that a reader might not expect:

- A well-formed rules-file line whose key has no handler is silently
  ignored. The `if`/`elif` chain of `load_times_cfg` has no `else` branch
  (pt_ana_ts.py:83-132), so such a line changes nothing and raises nothing.
  `TimesCfg.UnknownKeyIgnored` states this.
- The toggles are tried before the named keys in the source. The model
  tries the named keys first. No toggle key is a named key, so the branch
  selected is the same (`TimesCfg.HandlerToggleFirst`).

## Model

| member | source | states |
|---|---|---|
| TimesCfg.ToggleIndex | pt_ana_ts.py:46-64 | the toggle found for a key has that key; no toggle is found exactly when no toggle has the key |
| TimesCfg.Defaults | pt_ana_ts.py:46-66 | every toggle starts at its hard-coded default |
| TimesCfg.HandleToggle | pt_ana_ts.py:83-88 | a toggle line changes only that toggle's entry |
| TimesCfg.HandleBds | pt_ana_ts.py:89-91 | a `bds` line changes only the `bds` map |
| TimesCfg.HandleCkt | pt_ana_ts.py:92-99 | a `ckt` line changes only the clock-type rules |
| TimesCfg.CompileAll | pt_ana_ts.py:105-106 | the patterns compile all or none; on success, one compiled pattern per word, in order |
| TimesCfg.HandleCkp | pt_ana_ts.py:100-107 | a `ckp` line changes only the clock pin cell set, instance set and pattern list |
| TimesCfg.HandleCkm | pt_ana_ts.py:108-110 | a `ckm` line changes only the clock-match list |
| TimesCfg.HandleDc | pt_ana_ts.py:119-124 | a `dc` line changes only the driving-cell map |
| TimesCfg.HandleHcd | pt_ana_ts.py:125-132 | an `hcd` line changes only the hard-coded-delay map |
| TimesCfg.HandlerOf | pt_ana_ts.py:83-125 | a key that selects a toggle is that toggle's key |
| TimesCfg.HandleEntry | pt_ana_ts.py:83-132 | no handler removes a toggle; only `pc` changes the path classes and only `cc` the cell classes, as a class assignment does |
| TimesCfg.LoadTimesCfg | pt_ana_ts.py:44-141 | the line loop, stopping at the first failing line with its 1-based number, followed by the `dpc` check, equals the specification function `Load` |
| TimesCfg.Load | pt_ana_ts.py:44-141 | without a file the configuration is the defaults; a failure names a line of the file by its 1-based number; a loaded default path class names a `pc` tag |
| TimesCfg.LoadLine | pt_ana_ts.py:78-134 | a line that is blank once the comment is cut off changes nothing; a line that changes anything splits at exactly one colon; no line removes a toggle |
| TimesCfg.CheckDpc | pt_ana_ts.py:136-139 | afterwards a default path class, if any, names a `pc` tag; one that already does is kept; otherwise it is dropped to None; nothing else changes |
| TimesCfg.ToggleKeysLong | pt_ana_ts.py:46-64 | every toggle key is longer than three characters |
| TimesCfg.ShortKeyNoToggle | pt_ana_ts.py:83-125 | no key of three characters or fewer, such as `bds` or `hcd`, is a toggle key |
| TimesCfg.HandlerToggleFirst | pt_ana_ts.py:83-89 | a toggle key selects its toggle, as when toggles are tried first |
| TimesCfg.ToggleRule | pt_ana_ts.py:83-88 | a toggle line never fails; it sets its flag to the opposite of the default exactly when the value, lower-cased, spells that opposite, and otherwise to the default; no other field or flag changes |
| TimesCfg.ToggleLastWins | pt_ana_ts.py:83-88 | of two lines for one toggle, the later one decides, whatever the earlier one said |
| TimesCfg.SlackToggleExample | pt_ana_ts.py:52-88 | `slack_on_report: False` turns the slack flag off; `no` leaves it on |
| TimesCfg.UnknownKeyIgnored | pt_ana_ts.py:83-132 | a key with no handler leaves the configuration unchanged and is no error |
| TimesCfg.CommentCut | pt_ana_ts.py:78 | cutting at the first `#` leaves the text before the comment |
| TimesCfg.KeyValueText | pt_ana_ts.py:81 | text with one colon splits into exactly the key and the value |
| TimesCfg.NoColonPadded | pt_ana_ts.py:81 | padding a colon-free value with whitespace adds no colon |
| TimesCfg.LoadLineEntry | pt_ana_ts.py:78-82 | a line whose stripped text splits at one colon goes to the handler with the stripped key and value |
| TimesCfg.EntryLine | pt_ana_ts.py:78-82 | `key: value # comment`, with any whitespace around key and value, reaches the handler of `key` with the bare key and value |
| TimesCfg.CommentLine | pt_ana_ts.py:78-79 | a blank line or a comment-only line changes nothing |
| TimesCfg.ColonCountLine | pt_ana_ts.py:78-134 | a line with text but no colon, or with more than one, is a syntax error: the unpacking at line 81 fails and the handler turns that into a syntax error |
| TimesCfg.BdsRule | pt_ana_ts.py:89-91 | `bds: tag codes...` maps the tag to its codes, replacing an earlier entry; every other tag and field is unchanged |
| TimesCfg.BdsEmpty | pt_ana_ts.py:89-90 | a `bds` line without words is an error, since unpacking the words fails |
| TimesCfg.CktRule | pt_ana_ts.py:92-99 | a `ckt` line succeeds exactly with two words, a `y`/`n` flag in either case and a compiling pattern; it appends (flag is `y`, pattern) |
| TimesCfg.CkpEntry | pt_ana_ts.py:100-107 | a `ckp` key is handled by the `ckp` handler on the value's words |
| TimesCfg.CkpCells | pt_ana_ts.py:103 | `ckp: c names...` makes the cell set the old set plus the names, and changes nothing else |
| TimesCfg.CkpInstances | pt_ana_ts.py:104 | `ckp: i names...` makes the instance set the old set plus the names, and changes nothing else |
| TimesCfg.CkpPatterns | pt_ana_ts.py:105-106 | `ckp: r pats...` succeeds exactly when all patterns compile, and appends them in order after the old list |
| TimesCfg.CkpOther | pt_ana_ts.py:101-107 | another `ckp` type, or no words, is an error |
| TimesCfg.CkmRule | pt_ana_ts.py:108-110 | a `ckm` line succeeds exactly when it has a first word that compiles, and appends that pattern only |
| TimesCfg.DpcRule | pt_ana_ts.py:111-112 | `dpc: name` records the name as given |
| TimesCfg.ClassRule | pt_ana_ts.py:113-118 | `table[tag] = pattern` succeeds exactly when the pattern compiles; afterwards the tag reads the pattern, other tags read as before, tags stay unique, an existing tag keeps its place and a new one is appended |
| TimesCfg.HandleClass | pt_ana_ts.py:113-118 | a class line succeeds exactly when it has two words and the pattern compiles; the tag is then in the table, existing tags keep their order and a new tag is appended |
| TimesCfg.ClassArity | pt_ana_ts.py:113-118 | a class line without exactly two words is an error |
| TimesCfg.PcRule | pt_ana_ts.py:113-115 | a `pc` line changes the path-class table as a class assignment does, and nothing else |
| TimesCfg.CcRule | pt_ana_ts.py:116-118 | a `cc` line changes the cell-class table as a class assignment does, and nothing else |
| TimesCfg.DcRule | pt_ana_ts.py:119-124 | fewer than two words is an error; `r pat` stores the compiled pattern under `re`; `value cell` stores the decimal under the cell; it fails exactly when the pattern or the decimal does |
| TimesCfg.HcdSetLookup | pt_ana_ts.py:131-132 | recording an `hcd` tag sets that one (type, pin pair) entry; every other entry reads as before |
| TimesCfg.HcdEntry | pt_ana_ts.py:125-132 | an `hcd` key is handled by the `hcd` handler on the raw value |
| TimesCfg.HcdQuotedSplit | pt_ana_ts.py:126-128 | a quoted `hcd` value splits into the three words before the quote and the quoted tag |
| TimesCfg.HcdQuoted | pt_ana_ts.py:126-132 | `hcd: type pi po "tag"` records the quoted tag, blanks included, under `pi:po`; text after the closing quote is ignored |
| TimesCfg.HcdUnquoted | pt_ana_ts.py:129-132 | `hcd: type pi po tag` records the tag under `pi:po` |
| TimesCfg.HcdUnquotedArity | pt_ana_ts.py:129-130 | without quotes, any number of words other than four is an error |
| TimesCfg.FoldAppend | pt_ana_ts.py:77-134 | loading `a + b` is loading `a`, then `b` from the configuration and line number reached, unless `a` fails |
| TimesCfg.FoldError | pt_ana_ts.py:77-134 | a failed load names a line within the file; the lines before it load, and that line fails |
| TimesCfg.FoldErrorAt | pt_ana_ts.py:77-134 | conversely, if the lines before line k load and line k fails, the load fails with line k's number |
| TimesCfg.FoldKeeps | pt_ana_ts.py:77-134 | an invariant every line keeps holds after the whole load |
| TimesCfg.HandleEntryValid | pt_ana_ts.py:83-132 | every handler keeps all toggles set and the class tables free of duplicate tags |
| TimesCfg.ClassDistinct | pt_ana_ts.py:113-118 | a class assignment keeps the table's tags unique |
| TimesCfg.LoadLineValid | pt_ana_ts.py:78-132 | every line keeps the invariant |
| TimesCfg.LoadResult | pt_ana_ts.py:44-141 | a loaded configuration keeps the invariant, and its `dpc`, if any, names a `pc` tag |
| TimesCfg.LoadDpc | pt_ana_ts.py:136-139 | after the last line, `dpc` is kept exactly when it is None or names a `pc` tag, and dropped to None otherwise; nothing else changes |
| TimesCfg.LoadError | pt_ana_ts.py:77-134 | a failed load reports a 1-based line number within the file; the lines before it load, and that line fails |
| TimesCfg.EmptyFile | pt_ana_ts.py:66-77 | an empty rules file gives the same configuration as no file |
| TimeBar.InitTag | pt_ana_ts.py:776-781 | `init_tag` is the default tag when there are classes and it is one of them, and None otherwise |
| TimeBar.StartLegend | pt_ana_ts.py:801-804 | a bar starts from the legend holding only the default tag in the default colour when there is no `init_tag`, and from the empty legend otherwise |
| TimeBar.AddKey | pt_ana_ts.py:832-834 | adding a key to the legend keeps every key and every entry's colour, and the key is then present |
| TimeBar.FirstMatch | pt_ana_ts.py:814-818 | the result is the fallback or the tag of some class |
| TimeBar.NextTag | pt_ana_ts.py:810-819 | the tag stays None or a class tag, and is never None once there is an `init_tag` |
| TimeBar.FindTag | pt_ana_ts.py:814-819 | the loop over the classes returns the first match in insertion order, or `init_tag` |
| TimeBar.Step | pt_ana_ts.py:808-846 | one cell keeps the scan invariant: valid tag, default tag in the legend when needed, legend colours right |
| TimeBar.StartScan | pt_ana_ts.py:797-804 | the start of each bar meets the scan invariant |
| TimeBar.ScanCells | pt_ana_ts.py:808-846 | the scan of any cells meets the scan invariant |
| TimeBar.TagAfter | pt_ana_ts.py:810-819 | the tag after any cells is None or a class tag |
| TimeBar.VisitCell | pt_ana_ts.py:809-846 | the loop body equals one step of the specification scan |
| TimeBar.ScanPath | pt_ana_ts.py:797-846 | the cell loop for one bar type yields the specification scan's bar and `dsp` |
| TimeBar.MergeLegend | pt_ana_ts.py:848-854 | the merge loop yields `MergedLegend`, whose keys, order and colours `MergedLegendSpec` gives |
| TimeBar.UsedKeysMembers | pt_ana_ts.py:850-852 | the keys the merge adds are exactly the class keys that the bar's legend holds and the legend does not have yet |
| TimeBar.MergeKeysDistinct | pt_ana_ts.py:849-852 | merging keeps the merged legend's keys unique |
| TimeBar.MergeKeysOrder | pt_ana_ts.py:849-852 | merging keeps the keys already present in place and appends the new keys the bar's legend holds, in class order |
| TimeBar.MergeKeysGet | pt_ana_ts.py:851-852 | a merged key reads the bar's colour for it; every other key reads as before |
| TimeBar.MergedLegendSpec | pt_ana_ts.py:848-854 | without classes the merged legend is the bar's legend; with classes its keys are unique, the default tag comes first and the classes the bar used follow in class order; a class the bar used keeps the bar's colour; the default tag otherwise has the default colour; no other key appears |
| TimeBar.MergedLegend | pt_ana_ts.py:848-854 | without classes the merged legend is the bar's own legend; with classes it starts with the default tag |
| TimeBar.MergeKeysFirst | pt_ana_ts.py:849-852 | the merge loop only assigns, so the first key of the legend stays first |
| TimeBar.AppendBar | pt_ana_ts.py:796-860 | one pass of the bar-type loop equals `AddBar`; `AddBarMarks` and `InfoOfBars` give what it appends and records |
| TimeBar.AddBar | pt_ana_ts.py:795-860 | a drawn type adds one entry to every list and any other type adds none; `did` and `dsp` are either kept or both set, `did` to the index of the new bar |
| TimeBar.InfoOf | pt_ana_ts.py:785-860 | the lists of `bar_info` stay aligned, at most one entry per type; `did` is set exactly when `dsp` is, and then indexes a drawn bar |
| TimeBar.GetTimeBarInfo | pt_ana_ts.py:756-862 | the whole `bar_info` equals `InfoOf` over `l`, `c`, `d`, which `GetTimeBarInfoSpec` describes |
| TimeBar.Drawn | pt_ana_ts.py:795-796 | the drawn types are exactly the listed types in the requested set |
| TimeBar.DrawnOrder | pt_ana_ts.py:795-796 | the bars are drawn in the order `l`, `c`, `d`, with the data bar last |
| TimeBar.InfoOfBars | pt_ana_ts.py:856-860 | `bar_info` holds one entry per drawn type, in type order: that type's cells, colours, hatches, edge colours and merged legend |
| TimeBar.AddBarMarks | pt_ana_ts.py:839-841 | a drawn bar that reaches the startpoint sets `did` to the number of bars before it and `dsp` to the startpoint's place in it; any other bar type leaves both unchanged |
| TimeBar.ClockBarsNoDid | pt_ana_ts.py:839-841 | the launch and capture clock bars never set `did` or `dsp` |
| TimeBar.GetTimeBarInfoSpec | pt_ana_ts.py:795-860 | one bar per drawn type in the order `l`, `c`, `d`, each with its cells and merged legend; `did` is set exactly when the data bar is drawn and the startpoint pin is on the launch path, and is then the data bar's index, the number of bars drawn before it; `dsp` is the startpoint's place in the data bar |
| TimeBar.DataBarMarks | pt_ana_ts.py:795-860 | `did` is set exactly when the data bar is drawn and the startpoint pin is on the launch path, and is then the number of clock bars drawn; `dsp` is the startpoint's place in the data bar |
| TimeBar.FirstMatchFirst | pt_ana_ts.py:815-818 | the first class in order whose pattern matches gives the tag |
| TimeBar.FirstMatchNone | pt_ana_ts.py:814-819 | when no class matches, the fallback `init_tag` is used |
| TimeBar.StickyKeeps | pt_ana_ts.py:812-813 | a tag whose pattern still full-matches the cell is kept |
| TimeBar.StickyBeatsOrder | pt_ana_ts.py:812-819 | the tag is kept even when an earlier class also matches, which a fresh lookup would pick |
| TimeBar.Reclassify | pt_ana_ts.py:812-819 | with no tag, or a tag whose pattern fails, the new tag is the first matching class in order, or `init_tag` if none matches |
| TimeBar.StickyRun | pt_ana_ts.py:808-819 | over a run of cells that all match the current class, the class does not change |
| TimeBar.ClassColor | pt_ana_ts.py:782-783 | class i is drawn in palette colour i mod 26 |
| TimeBar.ColorOf | pt_ana_ts.py:776-783 | a key gets the default colour exactly when it is not a class |
| TimeBar.PaletteColor | pt_ana_ts.py:31-41 | no palette colour is the grey of unclassified cells |
| TimeBar.BarStart | pt_ana_ts.py:822-829 | the bar starts at the startpoint pin for a data-only bar that has reached it, and at the first cell otherwise |
| TimeBar.LookupColor | pt_ana_ts.py:833-838 | a legend key's colour is the key's palette or default colour |
| TimeBar.StepShape | pt_ana_ts.py:821-846 | one cell appends itself, its class colour, its hatch and its edge colour to the bar, restarted at the startpoint of a data-only bar, and sets `dsp` at the startpoint |
| TimeBar.ScanTag | pt_ana_ts.py:810-819 | the scan's tag is the sticky tag after the last cell |
| TimeBar.ScanCe | pt_ana_ts.py:828-837 | a bar holds exactly the cells from its start on |
| TimeBar.ScanHatch | pt_ana_ts.py:829-846 | a bar has one hatch per cell from its start on; only the data startpoint is hatched |
| TimeBar.ScanEdge | pt_ana_ts.py:829-846 | a bar has one edge colour per cell from its start on: blue for the data startpoint, black elsewhere |
| TimeBar.DspAt | pt_ana_ts.py:839-841 | `dsp` is set exactly for a data bar that has passed the startpoint, and plus the bar's start it gives the startpoint's index |
| TimeBar.ScanDsp | pt_ana_ts.py:822-841 | after the scan, `dsp` is the startpoint's position in the data bar, or None |
| TimeBar.Colors | pt_ana_ts.py:832-838 | one colour per cell |
| TimeBar.ScanColors | pt_ana_ts.py:822-838 | a bar's colours are those of its cells' sticky classes, from the bar's start on |
| TimeBar.ColorsAt | pt_ana_ts.py:832-838 | cell i's colour is the colour of the sticky class after cells 0..i |
| ScanRange.LexCount | pt_ana_ts.py:965 | the optional `+count` part is empty, or `+` followed by digits |
| ScanRange.Lex | pt_ana_ts.py:965-967 | lexed groups are well formed and spell the item exactly |
| ScanRange.LexAfter | pt_ana_ts.py:965 | the optional `:last` and `+count` parts, once lexed, are well formed and spell the rest of the item exactly |
| ScanRange.ParseItemSpec | pt_ana_ts.py:967-971 | an item yields a range exactly when it full-matches `st[:ed][+nu]`, and then the range holds the values of the groups that spell it |
| ScanRange.ParseItem | pt_ana_ts.py:966-971 | an item that yields a range starts with a digit, and the range starts at the value of the item's leading digits |
| ScanRange.LexStart | pt_ana_ts.py:965 | the `st` group is the item's whole leading digit run |
| ScanRange.LexUnique | pt_ana_ts.py:965-967 | whatever well-formed groups spell an item, the lexer reads back exactly those groups |
| ScanRange.ParseRanges | pt_ana_ts.py:963-973 | the loop over the items yields the specification `RangeList` |
| ScanRange.LexCountComplete | pt_ana_ts.py:965 | every well-formed count part is lexed back |
| ScanRange.LexComplete | pt_ana_ts.py:965-967 | the text of any well-formed groups is lexed back to those groups |
| ScanRange.LexAfterComplete | pt_ana_ts.py:965 | the text of the optional `:last` and `+count` parts of well-formed groups is lexed back to them |
| ScanRange.LexMatches | pt_ana_ts.py:967 | an item is lexed exactly when the pattern full-matches it |
| ScanRange.RangeRoundTrip | pt_ana_ts.py:967-971 | any range written as `start[:last][+count]` parses back to itself |
| ScanRange.MatchedAppend | pt_ana_ts.py:966-971 | the ranges of two item lists are those of the first, then those of the second |
| ScanRange.MatchedOne | pt_ana_ts.py:967-971 | one item contributes its range exactly when it matches |
| ScanRange.NoMatchDefault | pt_ana_ts.py:966-972 | no range is collected exactly when no item matches |
| ScanRange.RangeListDefault | pt_ana_ts.py:963-973 | the range list is never empty; without the option, or when no item matches, it is `[0, None, 1]`; otherwise it is the collected ranges exactly when some item matches |
| ScanRange.RangeList | pt_ana_ts.py:963-973 | the range list is never empty, is `[0, None, 1]` without the option, and holds at most one range per comma-separated item |
| ScanRange.MatchedLength | pt_ana_ts.py:966-971 | each item contributes at most one range |
| ScanRange.MatchedStep | pt_ana_ts.py:966-971 | one more item appends its range if it matches, and nothing otherwise |
| ScanRange.FullItemExample | pt_ana_ts.py:965-971 | `10:20+3` gives start 10, last 20, count 3 |
| ScanRange.RejectedItemExample | pt_ana_ts.py:967 | `x` and `5:+2` match nothing |
| ScanRange.MatchedFirstOfThree | pt_ana_ts.py:966-971 | of three items where only the first matches, only the first contributes |
| ScanRange.ItemsExample | pt_ana_ts.py:966-971 | of the items `10:20+3`, `x` and `5:+2` only the first gives a range, `[10, 20, 3]` |
| ScanRange.ExampleSplit | pt_ana_ts.py:966 | `10:20+3,x,5:+2` splits at its commas into the three items |
| ScanRange.Example | pt_ana_ts.py:963-973 | `-r 10:20+3,x,5:+2` gives the range list `[[10, 20, 3]]`, not the default |
| Summary.DataLatency | pt_ana_ts.py:217 | the single formula of line 217, as the identity launch edge + launch clock latency + input delay + data latency = arrival |
| Summary.Skew | pt_ana_ts.py:249 | capture clock latency + CRPR + skew = launch clock latency; skew is positive exactly when the launch latency exceeds capture latency plus CRPR |
| Summary.DatapathLevel | pt_ana_ts.py:243 | the level is the number of launch-path pins after the startpoint clock pin |
| Summary.LaunchSegmentLength | pt_ana_ts.py:270-271 | the launch clock segment counts the pins up to and including the startpoint pin, from after the source index when there is one |
| Summary.CaptureSegmentLength | pt_ana_ts.py:272-273 | the capture clock segment counts the whole capture path, or the pins after the source index |
| Summary.LaunchNetworkLatency | pt_ana_ts.py:397-398 | the single formula of line 398, as the identity source latency + network latency = launch clock latency; `SkewSplit` relates it to the skew |
| Summary.CaptureNetworkLatency | pt_ana_ts.py:399-400 | the single formula of line 400, as the identity source latency + network latency = capture clock latency; `SkewSplit` relates it to the skew |
| Summary.CaptureSourceLatency | pt_ana_ts.py:363-366 | the branch of lines 363-366: the shown capture source latency includes CRPR exactly when the configuration asks for it |
| Summary.LaunchPartition | pt_ana_ts.py:243-271 | the launch path is the pins before the segment, then the launch segment, then the data pins; their counts add up to its length |
| Summary.CapturePartition | pt_ana_ts.py:272-273 | the capture segment length lies between 0 and the capture path's length |
| Summary.SkewSplit | pt_ana_ts.py:249-400 | the skew of line 249 equals the source-latency difference plus the difference of the network latencies of lines 397-400, less CRPR |
| Summary.SkewExample | pt_ana_ts.py:249 | launch 2.0, capture 1.2 and CRPR 0.3 give skew 0.5 |
| KeyEvent.KeyEventCheck | pt_ana_ts.py:865-877 | the operation is NONE exactly for keys outside the ten bound keys, and then the amount is 0 |
| KeyEvent.KeyOf | pt_ana_ts.py:867-876 | any key recovered from an operation and amount is a bound key |
| KeyEvent.KeyRoundTrip | pt_ana_ts.py:867-876 | every bound key is recovered from its operation and amount |
| KeyEvent.KeysDistinct | pt_ana_ts.py:867-876 | no two bound keys give the same operation and amount |
| KeyEvent.OppositeKeysCancel | pt_ana_ts.py:868-873 | up/down, left/right and a/d are one operation each, with amounts that cancel |
| Common.HexOverflow | utils/common.py:20-23 | hexadecimal text overflows exactly when its value is at least 2^bits |
| Common.HexUnsigned | utils/common.py:18-23 | unsigned hexadecimal, the default mode, returns the value `int(s, 16)` reads when it is below 2^bits, and is an overflow otherwise |
| Common.HexSignExtend | utils/common.py:24-26 | signed hexadecimal with bit bits-1 set reads as value - 2^bits; otherwise as the value |
| Common.SignExtend | utils/common.py:24-26 | the sign extension of a number below 2^bits subtracts 2^bits exactly when bit bits-1 is set, and lands in [-2^(bits-1), 2^(bits-1)) |
| Common.HexSignedRange | utils/common.py:20-26 | signed hexadecimal results lie in [-2^(bits-1), 2^(bits-1)) |
| Common.HexUnsignedRange | utils/common.py:20-23 | unsigned hexadecimal results lie in [0, 2^bits) |
| Common.DecimalUnsignedNegative | utils/common.py:31-32 | unsigned decimal mode rejects every negative value |
| Common.DecimalUnsignedRange | utils/common.py:31-34 | unsigned decimal mode accepts a non-negative value exactly when it is below 2^bits; otherwise it is an overflow |
| Common.DecimalSignedRange | utils/common.py:29-36 | signed decimal mode accepts exactly [-2^(bits-1), 2^(bits-1)); anything else is an overflow |
| Common.DecimalUnchanged | utils/common.py:27-38 | a successful decimal result is the parsed integer itself |
| Common.DecimalTextRoundTrip | utils/common.py:27-38 | the decimal text of a value that fits reads back as that value, in both modes, and negated with a minus sign in signed mode |
| Common.Str2Int | utils/common.py:18-38 | a result fits: in [0, 2^bits) unsigned, in [-2^(bits-1), 2^(bits-1)) signed, and only zero when `bits` leaves no room |
| Common.ParseHex | utils/common.py:20-21 | hexadecimal text is read exactly when one or more hex digits follow the `0x` prefix, and its value is below 2^(4 * digits) |
| Common.HexValueBound | utils/common.py:21 | n hexadecimal digits hold a value below 2^(4n) |
| Common.ParseDecimal | utils/common.py:28 | decimal text is read exactly when it is digits with at most one leading sign; only a leading minus gives a negative value |
| Digits.DecimalRoundTrip | pt_ana_ts.py:968 | `int(str(n)) == n` for every natural number |
| Digits.DecimalText | pt_ana_ts.py:965 | the text of a natural number is a non-empty run of decimal digits, the form a `\d+` group takes |
| Digits.DigitRun | pt_ana_ts.py:965 | the longest digit prefix: all digits, followed by a non-digit or the end |
| Digits.DigitRunOf | pt_ana_ts.py:965 | a digit run followed by a non-digit is read whole |
| PyStr.StripLeftShape | pt_ana_ts.py:78-82 | the left half of `strip()` keeps a suffix, removes only whitespace and stops at the first character that is not whitespace |
| PyStr.StripRightShape | pt_ana_ts.py:78-82 | the right half of `strip()` keeps a prefix, removes only whitespace and stops at the last character that is not whitespace |
| PyStr.StripShape | pt_ana_ts.py:78-82 | `strip()` leaves the middle part after the leading whitespace, framed by whitespace, with no whitespace at either end |
| PyStr.StripPadded | pt_ana_ts.py:78-82 | stripping whitespace-padded trimmed text gives the text |
| PyStr.SplitOn | pt_ana_ts.py:78-81 | `split(sep)` gives one more piece than there are separators, none holding the separator |
| PyStr.SplitOnJoin | pt_ana_ts.py:78-81 | joining the pieces of `split(sep)` with the separator gives back the text |
| PyStr.JoinSplitOn | pt_ana_ts.py:78-81 | splitting separator-free pieces joined by the separator gives back the pieces |
| PyStr.SplitWs | pt_ana_ts.py:90 | `split()` gives non-empty whitespace-free words |
| PyStr.JoinSplitWs | pt_ana_ts.py:90 | splitting words joined by blanks, with trailing whitespace, gives back the words |
| PyStr.Lower | pt_ana_ts.py:84-85 | `lower()` keeps the length and lowers each letter |
| OrderedTable.IndexOf | pt_ana_ts.py:113-118 | the position found holds the key and no earlier entry does; none is found exactly for an absent key |
| OrderedTable.PutDistinct | pt_ana_ts.py:113-118 | dict assignment keeps keys unique |
| OrderedTable.PutKeys | pt_ana_ts.py:113-118 | dict assignment keeps an existing key's place and appends a new key |
| OrderedTable.PutGet | pt_ana_ts.py:113-118 | after assignment the key reads the new value and every other key reads as before |

## Left out

- Reading the rules file (pt_ana_ts.py:76-77). The file is a sequence of lines, or None for no file.
- The `[INFO]` message when `dpc` is dropped (pt_ana_ts.py:137-138), and all printing and CSV writing in `report_summary`.
- The parser, clock-path checker and segment aggregator. `utils/primetime_ts.py` is not part of this model.
- The report header, delta and segment printing in `report_summary`; only the figures it derives are modelled.
- `create_argparse`, the default-configuration lookup in `main` (filesystem I/O) and the report path print (pt_ana_ts.py:975).
- `show_time_bar` and its mouse and key handlers: drawing and UI. `key_event_check` is modelled; the handler that acts on its result is not.
- Regular expressions: whether a pattern compiles and whether it full-matches are parameters (`Engine`, `Params.fullmatch`), not an implementation.
- The cell attribute `cell.__dict__[aid]` is a parameter function from cell to text.
- `pal_idx` in `get_time_bar_info` is set and never read, so it is not modelled.
- `Decimal(text)` in the `dc` handler is a parameter, a partial function from text to `real`. Non-finite decimals are not represented: `Decimal("NaN")` and `Decimal("Infinity")` succeed in the source (pt_ana_ts.py:124), but have no `real`, so a `dc` line with such a value is either rejected or stores a finite number here. Nothing in this core reads `dc` values.
- Summary: Decimal arithmetic is modelled as exact `real` arithmetic. This matches the source as long as no result needs more than the decimal context's 28 significant digits.
- Summary.DatapathLevel, Summary.LaunchSegmentLength and Summary.CaptureSegmentLength: only the lengths of `lpath` and `cpath` and the indices matter. The pins are a type parameter.
- A path without a startpoint clock pin (`spin` None) is given a negative `spin` in `TimeBar.Params`, which no cell index equals.
- KeyEvent.KeyEventCheck: the source returns the integers 0, 1, -1 and 2 for some keys and floats for others. Every amount is a `real` here.
- PyStr.Lower: only ASCII letters are lowered. The lowered text is only compared with `true`, `false`, `y` and `n`, and no other character lowers to these letters.
- Digits.DigitRun: `\d` and `int()` also accept non-ASCII decimal digits; the model accepts ASCII digits only.
- Common.DecimalUnchanged: `int()` also accepts surrounding whitespace, underscores between digits and non-ASCII digits. The model reads a sign and ASCII digits only and reports anything else as malformed.
- Common.HexOverflow: `int(s, 16)` also accepts underscores after the `0x` prefix and trailing whitespace. The model reads ASCII hexadecimal digits only.
- Common.ParseDecimal: as for `Common.DecimalUnchanged`, whitespace, underscores and non-ASCII digits, which `int()` accepts, read as malformed here.
- Common.ParseHex: as for `Common.HexOverflow`, underscores and trailing whitespace, which `int(s, 16)` accepts, read as malformed here.
- TimesCfg.Config: `bds`, `dc` and `hcd` are Dafny maps, so their insertion order is not modelled. Nothing in this core reads that order: `bds` is only looked up (pt_ana_ts.py:417-418), `dc` only counted (pt_ana_ts.py:497), and `dc` and `hcd` are only passed on to the report parser (pt_ana_ts.py:151-158), which is not part of this model.
