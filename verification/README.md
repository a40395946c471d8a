# stackcollapse-perf, modelled in Dafny

`stackcollapse-perf` reads the text that `perf script` prints and writes it
back as "folded stacks". A folded stack is one line per distinct call stack:
the process name and the frames from outermost to innermost, joined by `;`,
then a space and the number of samples that had exactly that stack.

The program works in three parts, and the model has one module (or more) for each.

1. **Classifying lines** (`PerfScriptParser::process`, `skip_ws`, and the
   line-ending strip in `foreach_line_stdio`). Each input line is one of:
   - a header line, which starts a sample: the process name, then a
     `PID` or `PID/TID` token;
   - a frame line, which starts with a tab: an address, then the symbol;
   - an empty line, which ends the sample.

   Lines that do not fit are dropped, after a message on standard error.
2. **Interning and counting** (`StackCollapsingHandler`). Every symbol and
   process name gets a dense integer id, the first time it is seen. The
   frames of a sample are collected as a list of ids. When the sample ends,
   the id of the current process is appended and the count of that key goes
   up by one.
3. **Dumping** (`StackCollapsingHandler::dump`). Names are made printable:
   `;` becomes `:` and a space becomes `_`. They are sorted, and ids are
   renumbered by rank. Every key is reversed and renumbered, the keys are
   sorted, and each key is printed as a folded line.

## Modules

| file | module | contents |
|---|---|---|
| `wrappers.dfy` | `Wrappers` | `Option` |
| `cstr.dfy` | `CStr` | C strings as `seq<char>`: the line-ending strip, the cut at the first NUL, `strchr`, `skip_ws` (a method with its loop), `std::stoi`, `%d` |
| `events.dfy` | `Events` | the handler's three calls as an `Event`, a classified line as an `Outcome`, and what the handler does, read as names (`Trace`) |
| `classify.dfy` | `Classifier` | what `process` decides for one line, as a pure function, with lemmas characterising frames, headers and the PID field |
| `parser.dfy` | `Parser` | class `PerfScriptParser`: `read_file` and `process` as methods with the source's loops, proved against `Classifier.Classify` |
| `symbols.dfy` | `Symbols` | the two-way symbol table invariant and decoding of id lists |
| `handler.dfy` | `Collapse` | class `StackCollapsingHandler`, with the counting invariant and `Dump` |
| `order.dfy` | `Order` | `operator<` on strings, pairs and id vectors; `std::sort` as insertion sort; strictly sorted sequences are unique |
| `canon.dfy` | `Canon` | the display form, canonical ids, the reversed and renumbered keys, the sorted rows, the rendered text, and `dump`'s phases as methods |
| `scenarios.dfy` | `Scenarios` | concrete lines and blocks worked through the model |

**Unordered maps.** The source iterates over two `std::unordered_map`s, and
their order is unspecified.
- `Dump` takes both iteration orders as parameters (`nameOrder`, `keyOrder`),
  and must be given some enumeration of each map's keys.
- It is proved to return the single text `Canon.Folded(symbolNames, stackCounts)`,
  whatever the orders are.

**The handler's history.** The handler carries a ghost `history`: the keys
completed so far, in order.
- `View()` reads the state as names: the current process, the current
  block, and every completed stack.
- Every handler method is proved to act on `View()` exactly as
  `Events.Apply` says.
- The counts are proved to be the tally of `history`.

**Where the program differs from its own description.** The model follows
the code, in each of these places:
- **A frame's symbol is only its first word.** It is the first space-free run
  after the address, so `"\t 55d0 Foo Bar (mod)"` yields `Foo`
  (`Scenarios.SymbolStopsAtSpace`). A frame line with nothing after the
  symbol is dropped.
- **A header needs a space after the PID.** The header `myproc 123`, with
  nothing after the PID, is rejected (`Scenarios.HeaderWithoutSpaceAfterPid`).
- **Frames after a rejected header are kept.** They are not discarded.
  - They are credited to the previous process name, or to `""` if there was
    none (`Events.OrphanFramesKeepProcess`, `Scenarios.TwoBlocksWithBareHeaders`).
  - Such a block prints as `;sym_b;sym_a 2` (`Scenarios.BareFoldedLine`).
- **`skip_ws` steps over its first character unconditionally.** A one-character
  address right after the tab is therefore skipped as if it were the space run.
  The next word is then taken for the address, and the word after it for the
  symbol: `"\t0 Foo Bar (mod)"` yields `Bar` (`Scenarios.AddressRightAfterTab`).
- **The process name is not trimmed.** It is everything before the space run
  that precedes the first digit-led word (`Classifier.HeaderProcessName`).
- **Output lines are ordered by canonical id sequences, not by their text.**
  The name sequences compare element by element, a proper prefix first. So
  `a;z 1` is printed before `a- 1`, although `a- 1` is smaller as text
  (`Canon.LinesNotInTextOrder`).
- **Distinct symbols can print identically.** Symbols with the same display
  form (`a;b` and `a:b`) keep distinct ids and are ordered by first-seen id
  (`Canon.SharedDisplayFollowsFirstSeen`). Their lines can then print
  identically (`Canon.DisplayMerges`).
- **The output depends on the order symbols arrived in.** Two symbols with the
  same display form are ordered by first-seen id, so the same samples fed in
  another order can print differently. Feeding the `a;b` block of process `p`
  twice and then the `a:b` block prints `p;a:b 2` then `p;a:b 1`. The `a:b`
  block first, then `a;b` twice, records the same stacks but prints
  `p;a:b 1` then `p;a:b 2` (`Scenarios.ArrivalOrderDecidesDump`,
  `Scenarios.ArrivalOrderShowsInOutput`). When all display forms differ, the
  order is that of the printed names and does not depend on arrival
  (`Canon.RowsFollowPaths`).
- **Counts are C `int`.** They are printed with `%d`, not as unsigned 64-bit
  numbers.

## Model

| member | source | states |
|---|---|---|
| CStr.StripLineEnd | stackcollapse-perf.cpp:81-88 | a trailing `\r\n` is removed whole; a lone trailing `\n` or `\r` is removed; a line with neither ending is kept; nothing else is ever removed |
| CStr.CText | stackcollapse-perf.cpp:89 | `process` sees the buffer up to its first NUL: a NUL-free prefix of it, and either the whole buffer or stopped at a NUL |
| CStr.LineText | stackcollapse-perf.cpp:80-89 | the C string `process` receives for one buffer: no contract of its own; it is `CStr.CText` of `CStr.StripLineEnd`, and their contracts characterise it |
| CStr.IndexOf | stackcollapse-perf.cpp:100 | `strchr`: the first position at or after the start that holds the character, or none when no later position holds it |
| CStr.IndexOfFinds | stackcollapse-perf.cpp:100 | any position holding the character with none before it is what `strchr` returns; no occurrence means a null result |
| CStr.SkipSpaces | stackcollapse-perf.cpp:66 | the end of the space run starting at a position: only spaces were skipped, and it stops at a non-space or the end |
| CStr.SkipWsEnd | stackcollapse-perf.cpp:65-68 | `skip_ws` always moves at least one character forward and stays within the string |
| CStr.SkipWs | stackcollapse-perf.cpp:65-68 | the loop steps over its first character, then over spaces only, and stops at a non-space or the terminator |
| CStr.DigitRunEnd | stackcollapse-perf.cpp:156 | the digits `stoi` consumes: a run of digits ending at a non-digit or the end |
| CStr.SkipCSpaces | stackcollapse-perf.cpp:156 | the leading white space `stoi` skips, in the C locale |
| CStr.ParseInt | stackcollapse-perf.cpp:156-159 | `std::stoi` in base 10: no contract of its own; `CStr.ParseIntDigitLed`, `CStr.ParseIntRejects` and `CStr.ParseIntOfDecimal` characterise it |
| CStr.Decimal | stackcollapse-perf.cpp:264 | `%d` of a count: a non-empty run of digits without a leading zero |
| CStr.DecimalRoundTrip | stackcollapse-perf.cpp:264 | reading back the printed digits gives the number that was printed |
| CStr.ParseIntOfDecimal | stackcollapse-perf.cpp:264 | `stoi` of a printed count gives the count back |
| CStr.ParseIntDigitLed | stackcollapse-perf.cpp:156 | a token starting with a digit always converts, to the value of its leading digit run |
| CStr.ParseIntRejects | stackcollapse-perf.cpp:159-161 | empty text, or text starting with anything other than white space, a sign or a digit, makes `stoi` throw `invalid_argument` |
| Events.Apply | stackcollapse-perf.cpp:175-195 | what each handler call means, on names: no contract of its own; `Events.FeedFrames`, `Events.FeedEndAfterFrames`, `Events.FeedBlock` and `Events.DoneGrowsByEnds` characterise it, and each handler method is proved to act on `View()` as it says |
| Events.Feed | stackcollapse-perf.cpp:94-170 | a dropped line reaches no handler method and leaves the state as it was: no contract of its own; `Parser.PerfScriptParser.Process` is proved against it and `Events.OrphanFramesKeepProcess` characterises it |
| Events.FeedAllAppend | stackcollapse-perf.cpp:59-61 | feeding lines in two pieces is the same as feeding them at once |
| Events.FeedAllSnoc | stackcollapse-perf.cpp:59-61 | one more line acts on the state the earlier lines left |
| Events.DoneGrowsByEnds | stackcollapse-perf.cpp:183-194 | completed stacks grow only by appending, and by exactly one per block end |
| Events.FeedFrames | stackcollapse-perf.cpp:179-181 | a run of frame lines appends their symbols to the current block, in order, and changes nothing else |
| Events.FeedOneFrame | stackcollapse-perf.cpp:179-181 | the first frame of a run is appended before the rest are handled |
| Events.FeedBlock | stackcollapse-perf.cpp:175-195 | a whole block of header, frames and blank line records exactly one stack: its symbols followed by its process name |
| Events.FeedEndAfterFrames | stackcollapse-perf.cpp:179-195 | frames, then a blank line, record the frames followed by the current process, and empty the block |
| Events.OrphanFramesKeepProcess | stackcollapse-perf.cpp:175-195 | after a rejected header, the block's frames are still recorded, under the process from before the header |
| Events.BlocksCommute | stackcollapse-perf.cpp:183-195 | the multiset of recorded stacks does not depend on the order of two blocks, and each block adds its own stack |
| Classifier.Classify | stackcollapse-perf.cpp:94-170 | a line is a block end exactly when it is empty; frames come only from tab lines and headers only from other lines; a rejection names the frame path exactly for tab lines; "unrecognized" is never reached |
| Classifier.ClassifyFrame | stackcollapse-perf.cpp:95-116 | a frame line either fails as a bad frame or yields a non-empty symbol containing no space |
| Classifier.WordEnd | stackcollapse-perf.cpp:107 | the end of the word starting at a non-space: no space inside it, and it stops at a space or the end |
| Classifier.WordsSkipSpaces | stackcollapse-perf.cpp:106 | leading spaces do not change the words of a line |
| Classifier.NoWordsOnlySpaces | stackcollapse-perf.cpp:101 | a stretch with no words holds only spaces |
| Classifier.FrameIsSecondWord | stackcollapse-perf.cpp:98-114 | a tab line is accepted exactly when it has at least two words after the tab and a space after the second; the symbol is then the second word |
| Classifier.FrameAfterAddress | stackcollapse-perf.cpp:106-114 | the same characterisation, from the position after the address's space run |
| Classifier.FrameSymbolWord | stackcollapse-perf.cpp:107-112 | a space follows the symbol exactly when another word follows or the line ends in a space, and the symbol is the first word |
| Classifier.FindPidToken | stackcollapse-perf.cpp:126-141 | the header loop finds the first space run followed by a digit: it gives the run's first space and the digit, and no earlier digit follows a space; none means no such run exists |
| Classifier.NoDigitWordInWord | stackcollapse-perf.cpp:127 | inside a space-free stretch no digit follows a space |
| Classifier.NoDigitWordInSpaces | stackcollapse-perf.cpp:132 | inside the run `skip_ws` passes over, no digit follows a space |
| Classifier.PidTid | stackcollapse-perf.cpp:150-164 | the pid is the token's leading digits; without `/` the tid is -1 and parsing succeeds; with a `/` the tid is `stoi` of the text after it; parsing fails exactly when there is a `/` and the text after it does not convert |
| Classifier.PidBeforeSlash | stackcollapse-perf.cpp:158 | the text before the `/` converts to the token's leading digits |
| Classifier.DigitRunOfPrefix | stackcollapse-perf.cpp:158 | cutting a string at a non-digit does not change a digit run before the cut |
| Classifier.ClassifyHeader | stackcollapse-perf.cpp:121-167 | a header line either starts a stack or fails for a header reason |
| Classifier.HeaderProcessName | stackcollapse-perf.cpp:124-142 | a header fails at end of line exactly when no digit follows a space anywhere; otherwise the process name is the prefix before the space run preceding the first such digit |
| Classifier.SkipSpacesRun | stackcollapse-perf.cpp:66 | a space run ending at a non-space ends there |
| Classifier.HeaderNeedsSpaceAfterPid | stackcollapse-perf.cpp:144-149 | a header is rejected for a missing PID exactly when no space follows the first digit-led word |
| Classifier.HeaderBadTid | stackcollapse-perf.cpp:150-164 | with a space after the PID token, the header fails exactly when the token has a `/` followed by text that does not convert, and the reason carries the token |
| Parser.OutcomesStep | stackcollapse-perf.cpp:80-89 | the outcomes of one more line are the earlier outcomes plus that line's classification |
| Parser.Outcomes | stackcollapse-perf.cpp:80-89 | one outcome per buffer, in input order; `Parser.PerfScriptParser.ReadFile` is proved against it |
| Parser.PerfScriptParser.constructor | stackcollapse-perf.cpp:54-55 | the parser drives the handler it is given |
| Parser.PerfScriptParser.ReadFile | stackcollapse-perf.cpp:58-62 | after the loop, the handler's state is the fold of every line's classification, in input order, and the names table is the old one with every name those lines intern appended in first-seen order (`Collapse.NamesAfter`) |
| Parser.PerfScriptParser.Process | stackcollapse-perf.cpp:94-170 | the character-scanning dispatch changes the handler exactly as the line's classification says, and interns exactly the frame's symbol or, at a block end, the current process; dropped lines change nothing |
| Parser.PerfScriptParser.FindPid | stackcollapse-perf.cpp:126-141 | the header's `while (true)` scan returns what `Classifier.FindPidToken` describes: the first space run followed by a digit, or nothing when the line ends first |
| Parser.PerfScriptParser.ParsePidTid | stackcollapse-perf.cpp:150-164 | the `try`/`catch` around `stoi` gives the pid/tid pair, or the failure, that `Classifier.PidTid` describes |
| Collapse.DecodeAllExtend | stackcollapse-perf.cpp:219 | appending names to the table does not change what existing keys mean |
| Collapse.DecodeExtend | stackcollapse-perf.cpp:219 | appending names does not change what one key means |
| Collapse.DecodeAllSnoc | stackcollapse-perf.cpp:183-195 | one more completed key adds its names at the end of the completed stacks |
| Collapse.EndStep | stackcollapse-perf.cpp:183-195 | completing a key whose last id names the current process records the block's names followed by that process |
| Collapse.DecodeInjective | stackcollapse-perf.cpp:215-224 | with distinct names, two keys mean the same names exactly when they are the same key |
| Collapse.DecodeAllInjective | stackcollapse-perf.cpp:215-224 | with distinct names, two lists of keys that mean the same stacks are the same list |
| Collapse.CountByName | stackcollapse-perf.cpp:187-192 | how often a key was completed equals how often its names were recorded |
| Collapse.TallySnoc | stackcollapse-perf.cpp:187-192 | one more completed key bumps that key's count |
| Collapse.TallyCounts | stackcollapse-perf.cpp:187-192 | the count map holds exactly the completed keys, each with the number of times it was completed |
| Collapse.TallyTotal | stackcollapse-perf.cpp:184-192 | the counts sum to the number of completed keys |
| Collapse.TotalBump | stackcollapse-perf.cpp:187-192 | a bump adds exactly one to the sum of the counts, whether the key is new or not |
| Collapse.TotalRemove | stackcollapse-perf.cpp:212 | the sum of the counts splits into one key's count plus the rest |
| Collapse.EndCounting | stackcollapse-perf.cpp:183-195 | completing a non-empty key of interned ids keeps the counting invariant: counts are the tally of the history, and the sample counter is its length |
| Collapse.NamesAfterSnoc | stackcollapse-perf.cpp:215-224 | one more line interns what its outcome asks for: a frame its symbol, a block end the current process, anything else nothing |
| Collapse.NamesAfterAppend | stackcollapse-perf.cpp:58-62 | the names table after two runs of lines is the table after the first run, then the second run fed from the state the first left |
| Collapse.NamesAfterFrames | stackcollapse-perf.cpp:179-181 | frame lines intern their symbols in order |
| Collapse.NamesAfterBlock | stackcollapse-perf.cpp:175-195 | a whole block interns its symbols in order, then its process name |
| Collapse.NamesAfterGrows | stackcollapse-perf.cpp:215-224 | the names table only grows at its end, never holds a name twice, and every name it gains is one the lines fed to the handler mention |
| Collapse.MentionsKept | stackcollapse-perf.cpp:175-195 | handling a line never forgets a name the state mentions |
| Collapse.StackCollapsingHandler.constructor | stackcollapse-perf.cpp:270 | a new handler is valid, with no names, no counts, a zero sample counter and the empty state |
| Collapse.StackCollapsingHandler.NamesDistinct | stackcollapse-perf.cpp:215-224 | no name is interned twice |
| Collapse.StackCollapsingHandler.GetOrCreateSymbolId | stackcollapse-perf.cpp:215-224 | a known name returns its id and changes nothing; a new name gets the next id and is appended to both tables, so the names table is `Symbols.Intern` of the old one; the tables stay inverse bijections |
| Collapse.StackCollapsingHandler.InternKeepsView | stackcollapse-perf.cpp:219-220 | interning new names does not change what the current block or the recorded keys mean |
| Collapse.StackCollapsingHandler.SameState | stackcollapse-perf.cpp:205-212 | what the state means and the names table together fix every field: reverse table, current block, history, counts and sample counter |
| Collapse.StackCollapsingHandler.CountsFromKeys | stackcollapse-perf.cpp:183-195 | keys that spell the completed stacks are the history, and the counts are their tally |
| Collapse.StackCollapsingHandler.OnStackStart | stackcollapse-perf.cpp:175-177 | only the current process changes |
| Collapse.StackCollapsingHandler.OnStackFrame | stackcollapse-perf.cpp:179-181 | the symbol's id is appended to the current block; a known symbol leaves both tables as they were, a new one is appended to them; the state's meaning changes as `Events.Apply` of a frame says |
| Collapse.StackCollapsingHandler.OnStackEnd | stackcollapse-perf.cpp:183-195 | the sample counter grows by one; the process name is interned; the key is the block plus the process id, it is appended to the history, and its count becomes 1 or goes up by 1 while all other counts stay; the block is emptied; the state's meaning changes as `Events.Apply` of a block end says |
| Collapse.StackCollapsingHandler.CountKey | stackcollapse-perf.cpp:187-192 | the find, then insert-or-increment, is one bump of the key's count |
| Collapse.StackCollapsingHandler.NStacks | stackcollapse-perf.cpp:201-203 | the sample counter equals both the number of completed stacks and the sum of all counts |
| Collapse.StackCollapsingHandler.NUniqueStacks | stackcollapse-perf.cpp:198-200 | the number of keys equals the number of distinct completed stacks |
| Collapse.StackCollapsingHandler.CountsAreBlockCounts | stackcollapse-perf.cpp:183-195 | each key's count is the number of completed blocks with exactly that stack of names |
| Collapse.StackCollapsingHandler.CountsWellFormed | stackcollapse-perf.cpp:187-192 | every key is non-empty, holds only interned ids, and has a count of at least 1 |
| Collapse.StackCollapsingHandler.DumpCountsBlocks | stackcollapse-perf.cpp:245-265 | every key is printed as a row, its names printed outermost first, with the number of blocks that had that stack |
| Collapse.StackCollapsingHandler.Dump | stackcollapse-perf.cpp:227-266 | whatever order the two hash maps iterate in, the text written is the canonical folded text of the names and counts |
| Order.LexIrreflexive | stackcollapse-perf.cpp:254 | no id vector is below itself |
| Order.LexTransitive | stackcollapse-perf.cpp:254 | vector order is transitive |
| Order.LexTotal | stackcollapse-perf.cpp:254 | any two vectors are equal or ordered one way |
| Order.CodesInjective | stackcollapse-perf.cpp:238 | strings compare as their character codes, and different strings have different codes |
| Order.RowLessIsStrictTotal | stackcollapse-perf.cpp:254 | the order on (frame, count) pairs is a strict total order |
| Order.NameLessIsStrictTotal | stackcollapse-perf.cpp:238 | the order on (name, id) pairs is a strict total order |
| Order.SortedPositions | stackcollapse-perf.cpp:238 | in a strictly increasing sequence, equal elements are at the same position |
| Order.Insert | stackcollapse-perf.cpp:238 | inserting adds exactly one element |
| Order.Sort | stackcollapse-perf.cpp:238 | sorting is a permutation of its input |
| Order.InsertSorted | stackcollapse-perf.cpp:238 | inserting a new element into an increasing sequence keeps it increasing |
| Order.InsertAbove | stackcollapse-perf.cpp:238 | a lower bound of the inserted element and the sequence bounds the result |
| Order.SortSorted | stackcollapse-perf.cpp:238 | sorting distinct elements yields them in strictly increasing order |
| Order.HeadIsLeast | stackcollapse-perf.cpp:238 | the first element of an increasing sequence is its least |
| Order.SortedUnique | stackcollapse-perf.cpp:238 | two increasing sequences with the same elements are equal |
| Order.SortKeepsElements | stackcollapse-perf.cpp:238 | sorting keeps exactly the input's elements |
| Order.SortIgnoresArrivalOrder | stackcollapse-perf.cpp:232-238 | the sorted result depends only on the set of elements, not on the hash-map iteration order |
| Symbols.InterningMembers | stackcollapse-perf.cpp:210-224 | a name is in the reverse map exactly when it is in the names vector |
| Symbols.InterningUnique | stackcollapse-perf.cpp:210-211 | the names vector alone fixes the reverse map |
| Canon.Replace | stackcollapse-perf.cpp:234 | `std::replace`: every occurrence is replaced and every other character kept |
| Canon.Display | stackcollapse-perf.cpp:233-235 | a display name has the same length and contains no `;` and no space |
| Canon.DisplayKeepsClean | stackcollapse-perf.cpp:234-235 | a name prints unchanged exactly when it has no `;` and no space |
| Canon.DisplayIdempotent | stackcollapse-perf.cpp:234-235 | sanitising twice is sanitising once |
| Canon.DisplayMerges | stackcollapse-perf.cpp:234-235 | `a;b` and `a:b` are different names with the same display form |
| Canon.JoinSnoc | stackcollapse-perf.cpp:257-262 | the separator is written before every name but the first |
| Canon.JoinAddsOnlySeparators | stackcollapse-perf.cpp:257-262 | joining introduces no character but `;` |
| Canon.SplitJoin | stackcollapse-perf.cpp:257-262 | names without `;` are recovered by splitting the joined text at `;` |
| Canon.FoldedLineRoundTrip | stackcollapse-perf.cpp:256-264 | a folded line of clean names parses back to the same names and count |
| Canon.FoldedLine | stackcollapse-perf.cpp:256-264 | a folded line always holds the space before its count; `Canon.FoldedLineRoundTrip` reads it back to its names and count |
| Canon.Rank | stackcollapse-perf.cpp:240-243 | the rank is the first sorted position holding the id |
| Canon.SortedNamesElements | stackcollapse-perf.cpp:230-238 | `sorted_names` is strictly increasing and holds exactly the (display form, id) pairs |
| Canon.SortedNames | stackcollapse-perf.cpp:230-238 | one entry per interned name; `Canon.SortedNamesElements`, `Canon.NamesArrivalOrder` and `Canon.CanonicalIds` characterise it |
| Canon.RankOfId | stackcollapse-perf.cpp:240-243 | each id's new id is a valid index, and that sorted entry is the id's own pair |
| Canon.RankOfEntry | stackcollapse-perf.cpp:240-243 | the entry at position i carries an id whose new id is i |
| Canon.CanonicalIds | stackcollapse-perf.cpp:240-243 | `new_ids` and `sorted_names` are inverse bijections on 0..n-1 |
| Canon.RankOrder | stackcollapse-perf.cpp:238-243 | new ids follow the order of (display form, original id) pairs, in both directions |
| Canon.KeysOf | stackcollapse-perf.cpp:247 | some enumeration of the count map's keys, each once |
| Canon.Frame | stackcollapse-perf.cpp:248-251 | a printed frame has one id per key id; `Canon.FrameHead`, `Canon.FrameInjective`, `Canon.NewFrame` and `Canon.FrameOrderIsPathOrder` characterise it |
| Canon.RowsOf | stackcollapse-perf.cpp:247-253 | one row per visited key; `Canon.RowsOfMembers` and `Canon.RowsArrivalOrder` characterise it |
| Canon.FrameInjective | stackcollapse-perf.cpp:248-251 | different keys get different printed frames |
| Canon.RankInjective | stackcollapse-perf.cpp:240-243 | different ids get different new ids |
| Canon.RowsOfMembers | stackcollapse-perf.cpp:247-253 | the rows are exactly the (frame, count) pairs of the visited keys |
| Canon.RowsOfFrames | stackcollapse-perf.cpp:247-253 | two rows with the same frame are the same row |
| Canon.RowsOfDistinct | stackcollapse-perf.cpp:247-253 | distinct keys give distinct rows |
| Canon.RowsArrivalOrder | stackcollapse-perf.cpp:247-254 | the sorted rows do not depend on the order the count map is visited in |
| Canon.SortedRowsElements | stackcollapse-perf.cpp:254 | `sorted_counts` has one row per key, is strictly increasing, and holds exactly the rows |
| Canon.StacksEmittedOnce | stackcollapse-perf.cpp:245-265 | every key is printed exactly once, with its count, and rows are in strictly increasing order of their frames; the count tie-break is never needed |
| Canon.RowsIncreaseByFrame | stackcollapse-perf.cpp:254 | consecutive rows increase by frame alone |
| Canon.FrameBelow | stackcollapse-perf.cpp:248-251 | printed frames index into `sorted_names` |
| Canon.SortedRowsPrintable | stackcollapse-perf.cpp:256-264 | every sorted row can be printed |
| Canon.PathIsPrinted | stackcollapse-perf.cpp:248-261 | a key prints as its recorded names, reversed and sanitised |
| Canon.Path | stackcollapse-perf.cpp:248-261 | a key's printed names have one name per id; `Canon.PathIsPrinted` and `Canon.PathHead` characterise them |
| Canon.LineOfStack | stackcollapse-perf.cpp:256-264 | looking up new ids in `sorted_names` prints the key's own reversed display names, and the line parses back to them and the count |
| Canon.SharedDisplayFollowsFirstSeen | stackcollapse-perf.cpp:238-243 | names with the same display form are ordered by first-seen id |
| Canon.RankFollowsDisplay | stackcollapse-perf.cpp:238-243 | when display forms differ, new ids follow string order of the display forms, in both directions |
| Canon.FrameOrderIsPathOrder | stackcollapse-perf.cpp:254 | when display forms differ, sorting by new ids sorts by the printed name sequences, element by element |
| Canon.FrameHead | stackcollapse-perf.cpp:250-251 | the printed frame starts with the key's last id, renumbered |
| Canon.PathHead | stackcollapse-perf.cpp:250-261 | the printed stack starts with the key's last name |
| Canon.PathOrderIsNotTextOrder | stackcollapse-perf.cpp:254 | name-sequence order and text order of the lines disagree on `a;z` against `a-` |
| Canon.LinesNotInTextOrder | stackcollapse-perf.cpp:254-265 | with names a, a-, z, the stack printed `a;z` comes before `a-`, while its text is larger |
| Canon.NamesArrivalOrder | stackcollapse-perf.cpp:232-238 | whatever order the name map is visited in, sorting gives `SortedNames` |
| Canon.EntriesAreIndexed | stackcollapse-perf.cpp:232-237 | the collected entries are exactly the (display form, id) pairs |
| Canon.SortNames | stackcollapse-perf.cpp:230-238 | building and sorting `sorted_names` gives the canonical sorted names |
| Canon.NewIds | stackcollapse-perf.cpp:240-243 | `new_ids[a]` is the rank of id a |
| Canon.SortedIdsDistinct | stackcollapse-perf.cpp:240-243 | the ids in `sorted_names` are valid and pairwise distinct |
| Canon.FrameStep | stackcollapse-perf.cpp:250-251 | the reverse loop appends one renumbered id per step |
| Canon.NewFrame | stackcollapse-perf.cpp:248-251 | the reverse loop builds the key's printed frame |
| Canon.SortCounts | stackcollapse-perf.cpp:245-254 | building and sorting `sorted_counts` gives the canonical sorted rows, whatever the visiting order |
| Canon.RowsOfStep | stackcollapse-perf.cpp:247-253 | each visited key appends its row |
| Canon.RenderStep | stackcollapse-perf.cpp:256-265 | each row appends its folded line and a newline |
| Canon.NamesStep | stackcollapse-perf.cpp:257-262 | each id appends the separator and its display name |
| Canon.EmitRow | stackcollapse-perf.cpp:257-264 | the inner loop and `fprintf` write one folded line and a newline |
| Canon.Emit | stackcollapse-perf.cpp:256-265 | the output loop writes the rendering of all rows, in order |
| Canon.Render | stackcollapse-perf.cpp:256-265 | the text of the output loop: no contract of its own; `Canon.Emit` is proved to write it, and `Canon.RenderOne`, `Canon.RenderSnoc` and `Canon.RenderTwo` characterise it |
| Canon.Folded | stackcollapse-perf.cpp:227-266 | all that `dump` writes: no contract of its own; `Collapse.StackCollapsingHandler.Dump` is proved to write it whatever the hash-map orders, `Canon.StacksEmittedOnce` prints each key once, and `Canon.FoldedOneStack` and `Canon.SharedDisplayRows` work it out on concrete tables |
| Canon.RenderOne | stackcollapse-perf.cpp:256-264 | one row prints as its folded line and a newline |
| Canon.RenderSnoc | stackcollapse-perf.cpp:256-265 | one more row appends its folded line and a newline to the text of the earlier rows |
| Canon.RenderTwo | stackcollapse-perf.cpp:256-265 | two rows print as their two lines, in row order |
| Canon.FoldedOneStack | stackcollapse-perf.cpp:245-265 | a table with a single counted key prints exactly one line: the key's printed names and its count |
| Canon.RowsFollowPaths | stackcollapse-perf.cpp:238-254 | when all display forms differ, a stack printed before another has the smaller printed name sequence, root first, whatever order the stacks arrived in |
| Canon.TwoRowsInOrder | stackcollapse-perf.cpp:254 | a strictly increasing pair of rows holding two given rows is those rows, smaller frame first |
| Canon.TwoKeysSorted | stackcollapse-perf.cpp:245-254 | a count map of two keys sorts into their two rows, smaller renumbered frame first |
| Canon.SharedDisplayRanks | stackcollapse-perf.cpp:232-243 | with `a;b`, `p` and `a:b` interned in either order, the first-seen of the two same-display names gets canonical id 0, the other 1, and `p` 2 |
| Canon.SharedFrames | stackcollapse-perf.cpp:248-251 | under those ranks, the keys `0;1` and `2;1` renumber to `2;0` and `2;1`, in that order |
| Canon.SharedDisplaySorted | stackcollapse-perf.cpp:245-254 | under those ranks, the row of key `0;1` sorts before the row of key `2;1` |
| Canon.RenderTwoRows | stackcollapse-perf.cpp:256-265 | those two rows print as two `p;a:b` lines, with their counts in row order |
| Canon.SharedDisplayFolded | stackcollapse-perf.cpp:245-265 | under those ranks, `dump` prints the count of key `0;1`, then the count of key `2;1`, both on `p;a:b` lines |
| Canon.SharedDisplayRows | stackcollapse-perf.cpp:227-266 | with `a;b` and `a:b` interned in either order, `dump` prints two `p;a:b` lines whose counts follow interned ids, not names |
| Scenarios.FrameAt | stackcollapse-perf.cpp:99-114 | a frame line whose scan positions are known yields the symbol between them |
| Scenarios.FrameWords | stackcollapse-perf.cpp:95-115 | a frame line laid out as tab, space, address, space, symbol, space and a tail yields that symbol |
| Scenarios.SymbolStopsAtSpace | stackcollapse-perf.cpp:106-112 | a symbol with spaces is cut at its first space |
| Scenarios.AddressRightAfterTab | stackcollapse-perf.cpp:99-112 | a one-character address right after the tab is stepped over, the next word is taken for the address, and the one after it becomes the symbol |
| Scenarios.NonNumericPidDropped | stackcollapse-perf.cpp:126-135 | a header with no digit-led word is dropped at end of line |
| Scenarios.FrameLineA | stackcollapse-perf.cpp:95-115 | a typical frame line yields its symbol |
| Scenarios.FrameLineB | stackcollapse-perf.cpp:95-115 | a typical frame line yields its symbol |
| Scenarios.PidField | stackcollapse-perf.cpp:153-156 | a bare PID gives tid -1 |
| Scenarios.PidTokenAt | stackcollapse-perf.cpp:126-138 | a first space run followed by a digit is where the header loop stops |
| Scenarios.HeaderAt | stackcollapse-perf.cpp:142-166 | a header whose scan positions are known is rejected or starts a stack, as its PID field decides |
| Scenarios.HeaderTokens | stackcollapse-perf.cpp:124-145 | the scan positions of a typical header |
| Scenarios.HeaderLine | stackcollapse-perf.cpp:121-167 | a typical header starts a stack for its process, with tid -1 |
| Scenarios.HeaderWithoutSpaceAfterPid | stackcollapse-perf.cpp:145-149 | a header that ends right after the PID is rejected |
| Scenarios.BlockTwice | stackcollapse-perf.cpp:175-195 | the same block twice records the same stack twice |
| Scenarios.OrphanBlockTwice | stackcollapse-perf.cpp:175-195 | two blocks after rejected headers record their frames under the empty process |
| Scenarios.SampleBlock | stackcollapse-perf.cpp:94-170 | a typical sample's four lines classify as a block |
| Scenarios.BareSampleBlock | stackcollapse-perf.cpp:94-170 | the same sample with a bare header classifies as an orphan block |
| Scenarios.SampleFrames | stackcollapse-perf.cpp:114 | two frame lines are two frame events |
| Scenarios.TwoIdenticalBlocks | stackcollapse-perf.cpp:183-195 | two identical samples record one stack twice |
| Scenarios.TwoBlocksWithBareHeaders | stackcollapse-perf.cpp:175-195 | two samples with bare headers record their frames under `""` |
| Scenarios.SampleFoldedLine | stackcollapse-perf.cpp:256-264 | that stack prints as `myproc;sym_b;sym_a 2` |
| Scenarios.BareFoldedLine | stackcollapse-perf.cpp:256-264 | the orphan stack prints as `;sym_b;sym_a 2` |
| Scenarios.FoldedText | stackcollapse-perf.cpp:256-264 | three clean names print outermost first, joined by `;`, with the count |
| Scenarios.TwoIdenticalBlocksDump | stackcollapse-perf.cpp:175-265 | a handler fed the sample block twice holds one key with count 2 and `dump` prints exactly the one line `myproc;sym_b;sym_a 2` |
| Scenarios.SampleTables | stackcollapse-perf.cpp:175-224 | that handler's names table is `sym_a`, `sym_b`, `myproc`, and its one key `0;1;2` has count 2 |
| Scenarios.OneFrameBlocks | stackcollapse-perf.cpp:175-224 | two one-frame blocks of one process, fed first twice then second, or second then first twice: the names table lists the first-seen frame first, and the completed stacks are the same three in another order |
| Scenarios.SemicolonFirstTables | stackcollapse-perf.cpp:175-224 | a handler fed the `a;b` block twice, then the `a:b` block, holds names `a;b`, `p`, `a:b` and counts 2 for `0;1` and 1 for `2;1` |
| Scenarios.ColonFirstTables | stackcollapse-perf.cpp:175-224 | a handler fed the `a:b` block, then the `a;b` block twice, holds names `a:b`, `p`, `a;b` and counts 1 for `0;1` and 2 for `2;1` |
| Scenarios.SharedText | stackcollapse-perf.cpp:227-266 | either of those tables, with counts 2 and 1 in either order, prints its two `p;a:b` lines with the counts in key order |
| Scenarios.ArrivalOrderShowsInOutput | stackcollapse-perf.cpp:227-266 | the two tables record the same stacks with the same counts, yet print `p;a:b 2` then `p;a:b 1` in one case and the reverse in the other |
| Scenarios.ArrivalOrderDecidesDump | stackcollapse-perf.cpp:175-266 | two handlers fed the same three blocks in two orders complete the same multiset of stacks, but `dump` writes different texts |

## Left out

- Reading input. `getline`, the growing buffer and `ScopeGuard`'s `free` are
  not modelled: `ReadFile` takes the sequence of buffers `getline` filled,
  each with its line ending.
- Standard error. The messages for dropped lines are not modelled, and only
  the reason (`Reject`) is kept. The timing, the summary printed by `main`,
  and `timeit` are left out too, since they are wall-clock and I/O.
- `main` itself is left out. The handler's zero-initialised counter is its
  constructor.
- `std::hash<StackTrace>`. The hash formula does not affect results, which
  depend only on key equality, so the maps are Dafny `map`s.
- Hash-map iteration order. It is taken as a parameter of `Dump`, because it
  is unspecified; the result is proved independent of it.
- Collapse.StackCollapsingHandler.Dump: returns the written text as a string
  instead of writing it with `fputs`/`fprintf` to a `FILE*`.
- `std::sort` is modelled by insertion sort. Only its result is modelled: all
  elements are distinct and the order is total, so every correct sort gives
  the same sequence. The comparison count and the algorithm are not modelled.
- Parser.PerfScriptParser.Process: requires a tab line to have a character
  after the tab. A line that is exactly `\t` makes `skip_ws` read past the
  terminator, which is undefined behaviour in the source.
- CStr.ParseInt: integers are unbounded. `stoi`'s `out_of_range`, which the
  source does not catch and which aborts the program, is not modelled.
- Collapse.StackCollapsingHandler.OnStackEnd: the counts, the sample counter
  and the ids are unbounded. Overflow of the source's `int` is not modelled.
- In-place updates of `std::vector`s are modelled by reassigning `seq`
  fields. This covers `_current_stack`, `_symbol_names`, `sorted_names` and
  `sorted_counts`. `new_ids` is an `array`. Nothing in the source aliases
  these vectors.
- The handler's tables are fields of one class. The parser holds the handler
  in a `const` field: the reference is never reseated, like a C++ reference
  member. The template parameter is fixed to `StackCollapsingHandler`.
- The pid and tid are parsed and passed to `OnStackStart`, which ignores them
  as the source does.
- `string.hpp` is not part of this model. `stackcollapse-perf.cpp` never
  includes it.
