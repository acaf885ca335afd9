# Asterisk-outline compiler of `ciak`, modelled in Dafny

`ciak` reads a plain-text outline. An outline line is optional whitespace,
one or more `*`, optional whitespace, and then text. The number of asterisks
gives the line's level in a tree. The outline is flattened into shell
commands: every leaf of the tree gives one command, made by joining with
single spaces the texts on the path from the root down to that leaf. This
project models the two steps of `ciak/parser.py` that do this:

- **the line filter**, `start_with_asterisk` used through `filter`. It keeps
  the lines that the anchored pattern `^(\s)*(\*)+(\s)*` matches, in their
  original order.
- **the tree flattener**, `prepare_commands`. It computes each line's level
  (its number of asterisks) and its payload (the line with the pattern's
  match removed). Then, in one loop, it keeps the chain of open ancestors
  and emits one joined command per leaf.

Files and modules:

| file | module | contents |
|---|---|---|
| `py_builtins.dfy` | `PyBuiltins` | `" ".join(...)` and Python's prefix slice `xs[:stop]`, including its negative-stop rule |
| `asterisk_regex.dfy` | `AsteriskRegex` | the pattern written out by hand (`\s` as the characters for which `str.isspace()` holds); the language it denotes (`RegexMatches`); marker length, payload and level |
| `line_filter.dfy` | `LineFilter` | the filter and its properties |
| `commands.dfy` | `Commands` | the specification functions `ChainBefore`, `ChainAt`, `Emitted` and `Flatten`; the imperative `PrepareCommands`; the leaf rule; the well-formed-tree theorem |
| `examples.dfy` | `OutlineExamples` | the docstring example and the two test cases, derived in the model |

The loop of `prepare_commands` is a `method` with loop invariants. Its
postcondition ties the returned list to `Flatten`, a function defined one
iteration at a time. The properties of the walk are lemmas about `Flatten`.
The level map, the payload map and the filter are pure in the source, and
they are functions here.

Where the documentation and the code differ, the model follows the code:

- The level of a line is the number of asterisks in the whole line, because
  the code uses `re.findall(r"\*", x)`. It is not only the leading run. An
  asterisk inside the payload adds to the level
  (`LevelIsMarkerStarsPlusPayloadStars`).
- The payload is not trimmed at the end. `re.sub` with the anchored pattern
  removes one leading marker and nothing else (`Payload`,
  `PayloadStripsLongestMarker`).
- When a line is followed by one that is two or more levels shallower, the
  chain is cut by Python's slice rule, exactly as written. When the outline
  is well formed, the result is the root-to-leaf path (`WellFormedCommands`).
  Well formed means it starts at level 1, every level is at least 1, and it
  never goes more than one level deeper at a time. The converse is not
  proved in general. `SkippedLevel` is one example of an outline that skips
  a level and keeps a stale ancestor.

## Model

| member | source | states |
|---|---|---|
| AsteriskRegex.SpaceRun | ciak/parser.py:56 | the run of `\s` at a position is maximal: every character in it is whitespace, and the next one is not or the string ends |
| AsteriskRegex.StarRun | ciak/parser.py:56 | the run of `*` at a position is maximal: every character in it is `*`, and the next one is not or the string ends |
| AsteriskRegex.MarkerLength | ciak/parser.py:56 | the marker length fits in the line, and it is positive exactly when the line starts with asterisks after its whitespace |
| AsteriskRegex.StartsWithAsteriskIffRegexMatches | ciak/parser.py:75-81 | `start_with_asterisk` holds exactly when some prefix of the line is in the language `(\s)*(\*)+(\s)*`, in both directions |
| AsteriskRegex.LongestMarker | ciak/parser.py:56 | the marker removed is a word of the pattern's language, and no longer prefix is: it is the greedy match |
| AsteriskRegex.Payload | ciak/parser.py:116 | the payload is a suffix of the line, and a line that does not start with asterisks is left unchanged |
| AsteriskRegex.PayloadStripsLongestMarker | ciak/parser.py:116 | the payload is exactly what follows the longest marker prefix, so one anchored match is removed, not every occurrence |
| AsteriskRegex.DecomposedLine | ciak/parser.py:111-116 | a line built as whitespace, stars, whitespace and a rest is kept; its payload is the rest, and its level is the number of stars plus the rest's asterisks |
| AsteriskRegex.LevelIsStarCount | ciak/parser.py:111 | the level, a count of asterisks, equals the number of matches found by a left-to-right scan for `*` |
| AsteriskRegex.LevelIsMarkerStarsPlusPayloadStars | ciak/parser.py:111-116 | the level of a kept line is the length of its leading star run plus the asterisks left in its payload |
| AsteriskRegex.LevelPositive | ciak/parser.py:75-83 | every line with the marker has level at least 1 |
| AsteriskRegex.LevelSplit | ciak/parser.py:111 | the level of a concatenation is the sum of the levels of its parts |
| LineFilter.AsteriskLines | ciak/parser.py:83 | the filter never returns more lines than it is given |
| LineFilter.KeptExactly | ciak/parser.py:83 | every kept line starts with asterisks, and a line is kept exactly when it is among the input lines and starts with asterisks |
| LineFilter.AsteriskLinesAppend | ciak/parser.py:83 | filtering a concatenation gives the concatenation of the filtered parts, so the kept lines keep their order |
| LineFilter.SingleLine | ciak/parser.py:75-83 | a one-line input is kept exactly when the regex matches it |
| LineFilter.AllKept | ciak/parser.py:83 | lines that all start with asterisks pass through unchanged |
| LineFilter.Idempotent | ciak/parser.py:83 | filtering twice gives the same result as filtering once |
| LineFilter.KeptLinesHaveLevel | ciak/parser.py:83 | every kept line has level at least 1 |
| Commands.Levels | ciak/parser.py:111 | there is one level per line |
| Commands.LevelsAt | ciak/parser.py:111 | entry `i` of the level list is the level of line `i` |
| Commands.Payloads | ciak/parser.py:116 | there is one payload per line |
| Commands.PayloadsAt | ciak/parser.py:116 | entry `i` of the payload list is the payload of line `i` |
| Commands.PrepareCommands | ciak/parser.py:86-157 | the loop returns `Flatten` of the lines' levels and payloads: at every step `current_command` is the chain before that line and `return_list` holds the commands of the lines already read |
| Commands.LeafIndices | ciak/parser.py:125-137 | the leaf indices below `k` are strictly increasing, and they are exactly the leaves below `k` |
| Commands.LeafRule | ciak/parser.py:120-137 | there is exactly one command per leaf, in order, and command `m` is the joined chain at leaf `m`; a leaf is the last line, or a line followed by one no deeper |
| Commands.EmptyIffNoCommands | ciak/parser.py:126-128 | the command list is empty exactly when the outline is empty, because the last line is always a leaf |
| Commands.EmittedEndsWithPayload | ciak/parser.py:123-128 | the command at a line is that line's payload, after the joined earlier chain and one space when the chain is not empty |
| Commands.ChainUpdate | ciak/parser.py:133-155 | a deeper next line keeps the chain with the current line on top and emits nothing; otherwise the line is a leaf, and the new chain is the prefix whose length is Python's rule for `[:len + diff - 1]` |
| Commands.ChainBounded | ciak/parser.py:119-155 | the chain before line `i` never has more than `i` entries |
| Commands.Ancestor | ciak/parser.py:86-102 | the ancestor at a level is the most recent line at or before `i` with that level; no line between them has that level, and if it is not at that level then no line up to `i` is |
| Commands.WellFormedChain | ciak/parser.py:118-155 | in a well-formed outline the chain before line `i` has `level[i] - 1` entries, and once line `i` is appended it is the root-to-line path; each path entry is the line's ancestor at that level, and every line after it is deeper |
| Commands.WellFormedCommands | ciak/parser.py:86-102 | in a well-formed outline the command at each leaf is the joined root-to-leaf path, with one component per level |
| Commands.FlatChain | ciak/parser.py:133-155 | in an outline where every line has level 1, the chain is empty before every line |
| Commands.FlatOutline | ciak/parser.py:118-157 | an outline where every line has level 1 yields its payloads, unchanged and in order |
| OutlineExamples.ItemLine | ciak/parser.py:111-116 | a line `<ws><stars> <word>` has level equal to the number of stars and the word as its payload |
| OutlineExamples.DocstringOutline | ciak/parser.py:94-100 | the docstring's shape, levels 1 2 3 2 1, gives `a b c`, `a d` and `e` for any five words |
| OutlineExamples.DocstringExample | ciak/parser.py:94-100 | the docstring outline gives `["One Two Three", "One Four", "Five"]` |
| OutlineExamples.TestOutline | tests/test_ciak.py:41-62 | the eleven-line outline of the test gives its seven commands, for any eleven words |
| OutlineExamples.TestExample | tests/test_ciak.py:38-64 | the test's eleven lines give `"1 1.1 1.1.1"`, `"1 1.1 1.1.2"`, `"1 1.2"`, `"2 2.1 2.1.1"`, `"2 2.1 2.1.2"`, `"3"`, `"4"` |
| OutlineExamples.FilterExample | tests/test_ciak.py:23-35 | among comment, blank and trailing-asterisk lines, the filter keeps exactly `"* Item 1"`, `"** Item 1.1"`, `"*** Item 1.1.1"`, `"*Item 2"` and `" * Item 3"`, in that order |
| OutlineExamples.SkippedLevel | ciak/parser.py:133-155 | for levels 1 3 1 the third line's command is still joined to the first line, so a skipped level leaves a stale ancestor in the chain |
| PyBuiltins.Join | ciak/parser.py:128 | for a non-empty list, the joined string is as long as the parts together plus one character per gap between neighbours, and it starts with the first part; that each gap is one space and the later parts follow in order is `JoinSnoc`'s contract |
| PyBuiltins.JoinSnoc | ciak/parser.py:123-128 | appending a part to the list appends a space and that part to the joined string |
| PyBuiltins.SlicePrefix | ciak/parser.py:153-155 | `xs[:stop]` is a prefix of `xs`; its length is `stop`, clamped to the length, or `len + stop` for a negative stop, clamped at 0 |

## Left out

- Reading the file and splitting it into lines (`ciak/parser.py:72-73`) are I/O. The model starts from the list of lines that `splitlines` returns.
- Python's regular-expression engine is not modelled in general. The one pattern used is written out as a predicate, its language is stated separately (`RegexMatches`), and the two are proved equal. `re.compile` caching has no observable effect.
- A Python `str` may hold lone surrogate code points. A Dafny `char` cannot, so such lines are outside the model.
- `ciak/ciak.py` is not part of this model. It is the module through which the tests reach the parser's functions. The command runner, templates and parallel blocks are not part of this model either.
- `tests/example_file.txt` is not part of this model. `FilterExample` uses stand-in lines that contain the test's expected lines together with lines that must be dropped.
- The tests compare the returned list with a tuple. The model compares the contents as sequences.
- Commands.WellFormedChain: requires a well-formed outline: it starts at level 1, every level is at least 1, and no line is more than one level deeper than the one before. For other outlines only the general lemmas hold (`LeafRule`, `ChainUpdate`, `EmittedEndsWithPayload`), and `SkippedLevel` shows the root-path property failing.
- Commands.WellFormedCommands: has the same well-formedness requirement, for the same reason.
- PyBuiltins.Join: its own `ensures` state only the length and the first part. The single-space separator and the order of the later parts are proved by `JoinSnoc` instead. Stating them inside `Join`'s contract, which needs a recursive call to `Join`, makes the proofs that use `Join` run out of resource.
