# Projects tracker — a Dafny model of its core

`projects.py` is a small terminal tool that tracks research projects. Each
project lives in a directory under a root folder and is described by a
`project.md` markdown file. The tool walks the tree, reads every
`project.md` into a dictionary (name, a few labelled fields, the text of a
"to do" section), sorts the projects by the directory's modification time
and numbers them 1, 2, .... An interactive prompt then lists, searches,
expands and opens projects and prints a to-do list across all of them.

This project models the logic of that core and proves what it computes:

- `Text.dfy` holds the Python string operations the code relies on:
  - `str.strip()` over the `str.isspace` characters;
  - `casefold()` restricted to ASCII;
  - the substring test `in`;
  - `split('\n')` and `'\n'.join`;
  - `str()` of a count.
- `ProjectFile.dfy` models `read_proj_file` on the file's text:
  - `ScanLines`/`ParseProjFile` define the reading as a fold over the lines.
  - `ReadProjFile` carries the loops of `read_proj_file` and is proved equal to the fold.
  - Further lemmas restate the fold without reference to itself:
    - `Outline` gives each heading line with the body lines below it;
    - `LabelValue` gives the last label line for a keyword;
    - `WellFormed` says exactly when the line loop raises an `IndexError`.
- `Collection.dfy` holds the project record and the pure parts of the
  collection:
  - the stable sort by `last_mod`;
  - the case-insensitive name match;
  - the "TD" flag;
  - the sections of the to-do list.
- `Projects.dfy` holds the `Projects` object. Its field `projs` is rebuilt
  by `ReadProjects`, and it is read by `SearchProjects` and `PrintTodos`.
- `Prompt.dfy` holds the prompt's own logic:
  - the number check of `expand` and `open`, Python negative indexing
    included;
  - the one-letter dispatch of `default`.

Python's `IndexError`s are modelled as explicit results:
- `ParseError` for the reader;
- `None` for the number check;
- `Crash` for `default` on an empty line.

The reader's errors are:
- `HashOnlyHeading(i)`: line `i` is made only of `#`, so `line[0]` fails
  on the emptied line.
- `BodyBeforeHeading(i)`: line `i` is a body line before any heading, so
  `tree[-1]` fails.
- `NoHeading`: the file has no heading at all, so `tree[0]` fails.

A record's `count` is 0 until the numbering loop sets it.

Three behaviours of `projects.py` are worth noting:
- Only `state`, `status` and `collabs` are extracted from label lines.
- The value of a label is cut at the fixed offset `5 + len(kw)` from the
  start of the line, wherever the label was found (see `LabelAt`).
- A file that fails to read ends `read_projects` with its exception, and
  `projs` keeps its old value.

## Model

| member | source | states |
|---|---|---|
| ProjectFile.ReadProjFile | projects.py:45-74 | the reader's loops produce exactly `ParseProjFile(text)`, the fold of `Step` over the lines of `text.split('\n')` followed by the to-do pick and `tree[0]` |
| ProjectFile.ParseProjFileSpec | projects.py:45-74 | reading succeeds iff every line is well formed and some line is a heading line; it raises the `tree[0]` error iff the lines are well formed without a heading line; on success the name is the title of the first heading line, each keyword holds the value of its last label line (no other key is set) and the to-do text comes from the outline of the lines |
| ProjectFile.CountHashes | projects.py:56-59 | the `while line[0] == '#'` loop yields the length of the run of leading `#` and the rest of the line after it |
| ProjectFile.HashRun | projects.py:56-59 | the level is at most the line's length, every character before it is `#` and the character at it, if any, is not |
| ProjectFile.SetLabels | projects.py:63-65 | the keyword loop over `state`, `status`, `collabs` yields `SetKeywords` of the three keywords |
| ProjectFile.SetKeywords | projects.py:63-65 | after the loop a key is set to the line's value iff it is one of the keywords and its bold label occurs in the case-folded line; every other key keeps its value and no other key is added |
| ProjectFile.LabelAtStart | projects.py:64-65 | when the line opens with the label, the label is recognised and the stored value is the trimmed text after the label |
| ProjectFile.LabelAt | projects.py:64-65 | a label found at any position `i` of the case-folded line sets the keyword, and the value is trimmed from the text after offset `n = 5 + len(kw)` whatever `i` is: for `i <= n` that text is the label's last `i` characters as written followed by the text after the label; for `i >= n` it still holds the whole label |
| ProjectFile.LabelAtBefore | projects.py:65 | for a label found at `i <= len(label)`, `line[len(label):]` is the label's last `i` characters as written (they fold to the label's tail) followed by the text after the label |
| ProjectFile.BulletedLabelMatches | projects.py:64 | example: the label is recognised after a `- ` bullet in `- **State:** done` |
| ProjectFile.BulletedLabelValue | projects.py:65 | example: `- **State:** done` stores `** done`, keeping the label's two closing asterisks |
| ProjectFile.SetsKeyword | projects.py:64 | defines the label test: `**kw:**` occurs in the case-folded line |
| ProjectFile.KeywordValue | projects.py:65 | defines the stored value: the line from offset `5 + len(kw)` (empty past the end), trimmed |
| ProjectFile.Step | projects.py:54-65 | defines the effect of one line: empty lines change nothing; a heading line appends an entry (or raises when it is all `#`); a body line extends the last entry's body and runs the keyword loop (or raises when there is no entry) |
| ProjectFile.ScanLines | projects.py:53-65 | defines the line loop as `Step` folded over the lines, the first error ending it |
| ProjectFile.TodoOf | projects.py:67-70 | defines the to-do pick: the joined body of the last heading whose folded title is `to do`, or none |
| ProjectFile.ParseProjFile | projects.py:45-74 | defines the whole reading: the line loop on `text.split('\n')`, then the to-do pick and the name from `tree[0]` |
| ProjectFile.PickTodo | projects.py:67-70 | the loop over the heading list yields `TodoOf(tree)`: the to-do text of the last heading titled "to do" |
| ProjectFile.TodoAbsentIffNoTodoHeading | projects.py:67-70 | there is no `todo` key iff no heading's case-folded title is `to do` |
| ProjectFile.TodoIsLastTodoSection | projects.py:67-70 | when there is a `todo` key, its value is the newline-joined body of the last heading titled "to do" |
| ProjectFile.ScanErrorSticks | projects.py:53-62 | once a prefix of the lines raised an error, reading all lines raises that same error |
| ProjectFile.ScanErrorIsLineError | projects.py:53-62 | the line loop never raises the no-heading error; that error comes only from `tree[0]` at the end |
| ProjectFile.ScanOkIffWellFormed | projects.py:53-62 | the line loop raises no error iff every heading line has a character after its `#` run and every body line has a heading line above it |
| ProjectFile.ScanBuildsOutline | projects.py:53-62 | a successful line loop builds exactly `Outline(lines)`: one entry per heading line, in order, with level = number of `#`, trimmed title, and the trimmed non-empty lines up to the next heading |
| ProjectFile.ScanKeepsLastLabel | projects.py:61-65 | after a successful line loop each keyword holds the value of its last label line (last occurrence wins), and no other key is set |
| ProjectFile.OutlineSnocHeading | projects.py:55-60 | a heading line appended to the text adds a new entry with an empty body at the end of the outline |
| ProjectFile.OutlineSnocOther | projects.py:61-62 | a non-heading line appended to the text adds its trimmed form to the body of the last entry (an empty line adds nothing) |
| ProjectFile.OutlineEmpty | projects.py:53-60 | the outline is empty iff no line is a heading line |
| ProjectFile.OutlineFirst | projects.py:72 | when some line is a heading line, the first outline entry (the project's name) carries the title of the first heading line |
| Text.Strip | projects.py:60 | the result is no longer than the input and neither starts nor ends with whitespace |
| Text.StripKeepsMiddle | projects.py:60 | `strip()` keeps a contiguous slice of the input, starting where the leading whitespace ends, and drops only whitespace |
| Text.StripUnchanged | projects.py:65 | a string without whitespace at either end is its own strip |
| Text.Fold | projects.py:64 | case folding keeps the length and lowers every ASCII capital, character by character |
| Text.FoldIdempotent | projects.py:165 | folding a folded string changes nothing |
| Text.Contains | projects.py:64 | defines Python's `needle in hay`: `needle` occurs at some position of `hay` |
| Text.JoinLines | projects.py:68 | defines `'\n'.join`: the pieces with one newline between each two |
| Text.SplitLines | projects.py:51 | `split('\n')` yields at least one piece and no piece contains a newline |
| Text.JoinSplit | projects.py:51 | joining the pieces of a split with newlines gives back the text |
| Text.SplitJoin | projects.py:68 | splitting the newline-join of one or more newline-free lines gives back the lines |
| Text.Decimal | projects.py:157 | `str(count)` is a non-empty string of decimal digits, `"0"` for 0 and without a leading zero otherwise |
| Text.DecimalRoundTrip | projects.py:157 | the decimal text of a count reads back as the same number |
| Collection.Record | projects.py:83-84 | the record keeps the file's name, fields and to-do text and adds the relative path and the modification time |
| Collection.SortSortsAndPermutes | projects.py:87 | `sorted(..., key=last_mod)` yields a list ordered by `last_mod` that is a permutation of its input |
| Collection.SortIsStable | projects.py:87 | for every time `t`, the records modified at `t` keep their relative order (Python's sort is stable) |
| Collection.SortByLastMod | projects.py:87 | defines `sorted(..., key=last_mod)` as a stable insertion sort; it keeps the number of records |
| Collection.MatchesAll | projects.py:165 | defines the `all(...)` test of `search_projects`, term by term |
| Collection.MatchesFoldedTerms | projects.py:165 | searching for the case-folded terms finds exactly what searching for the terms as typed finds |
| Collection.MatchesAllIff | projects.py:165 | the `all(...)` test holds iff every term, case-folded, is a substring of the case-folded name |
| Collection.MatchesAllAppend | projects.py:165 | searching for more terms matches exactly the names that match both term lists, so adding terms only narrows a search |
| Collection.MatchesAllIgnoresCase | projects.py:165 | names and terms that agree up to case give the same match |
| Collection.TodoFlag | projects.py:126-129 | the third column is "TD" or empty, and it is "TD" iff the record has a `todo` key with a non-empty value |
| Collection.TodoListMatchesFlag | projects.py:154-156 | a record appears in the to-do list iff it is in the collection and flagged "TD"; the list is no longer than the collection |
| Collection.TodoListSnoc | projects.py:154-157 | each record appends its section `\n\n## [count] name\n\ntodo` to the to-do text iff it is flagged "TD", and otherwise leaves the text unchanged |
| Collection.Section | projects.py:157 | defines one record's section `\n\n## [count] name\n\ntodo` |
| Collection.TodoList | projects.py:153-157 | defines the to-do markdown: `# To do list` followed by the sections of the "TD"-flagged records in collection order |
| Collection.SectionsAppend | projects.py:157 | the sections of two record lists in a row are the sections of the first followed by those of the second |
| Projects.Projects.constructor | projects.py:41-43 | a new object tracks the given root and holds no records yet |
| Projects.Projects.ReadProjects | projects.py:77-94 | succeeds iff every `project.md` reads without error; on error, returns the first failing file's error and leaves `projs` unchanged; on success, `projs` holds one record per directory, ordered by `last_mod`, with counts 1..n, a permutation of the records in walk order, and records with equal times in walk order |
| Projects.ReadAll | projects.py:79-85 | returns the records in walk order iff every file reads; otherwise returns the error of the first file that fails |
| Projects.NumberFrom1 | projects.py:89-92 | the numbering loop gives the record at position `i` the count `i + 1` and changes nothing else |
| Projects.SortKeepsCounts | projects.py:87 | sorting keeps every record's count at 0 until numbering |
| Projects.Projects.SearchProjects | projects.py:162-167 | returns strictly increasing positions in the collection, and a position is returned iff every search term is a case-insensitive substring of that project's name |
| Projects.Projects.PrintTodos | projects.py:152-157 | the markdown is `# To do list` followed by one section per "TD"-flagged record, in collection order |
| Prompt.PyIndex | projects.py:223 | `xs[i]` on a list of length `n` succeeds iff `-n <= i < n`, and reads position `i mod n` |
| Prompt.Select | projects.py:221-228 | `expand` accepts `count` iff it parsed and `-n+1 <= count <= n`, and shows project `(count-1) mod n` |
| Prompt.SelectCountsBack | projects.py:244-251 | the same check in `open`: counts 1..n select positions 0..n-1, while 0 and the negative counts down to -n+1 select from the last project backwards |
| Prompt.Default | projects.py:265-277 | exactly `x` and `q` exit; an empty line raises; otherwise a line whose first character is `l`/`s`/`e`/`o`/`t` runs that command on the rest of the line, and any other line does nothing |
| Prompt.DefaultDispatches | projects.py:268-277 | any line made of a command's letter followed by an argument runs that command with that argument |

## Left out

- Filesystem access is given as input rather than performed:
  - `os.walk`, `os.path.expanduser`, `open`/`read` and `os.path.getmtime` are replaced by a sequence of `ProjectDir` values, each holding the relative path, the file text and an integer modification time;
  - the relative-path slice `d[0][len(self.path)+1:]` is not modelled, and the path is given as is;
  - the walk order is the order of that sequence;
  - an I/O error while opening a file is not modelled.
- Text-mode newline translation (`\r\n` and `\r` read as `\n`) is left to the input text.
- Floating-point modification times are modelled as integers. Only their order matters to the code.
- All `rich` output is left out: `Console`, `Table`, `Markdown`, `print_project`, the layout of `print_projects` and `print_proj_md`. Of the listing, only the "TD" column is modelled. Of the to-do list, only the markdown string is modelled, not its rendering.
- `open_dir` runs the foreign `xdg-open` process. The model stops at the selected position.
- The `cmd.Cmd` loop, `argparse` and `shlex` are left out. The search terms arrive already split, and `int(inp)` arrives as an `Option<int>` (`None` when the conversion raises). The loop never passes an empty line to `default`, but `default` itself would raise on one, which is what `Prompt.Default` models.
- `do_list`, `do_search`, `do_todo`, `do_update` and `do_exit` are not modelled beyond the dispatch in `Prompt.Default`.
- Text.Fold: `str.casefold` is modelled for ASCII letters only; other characters are left unchanged.
- The `verb` message of `read_projects`, `run()` and the module start-up code are left out.
- Projects.Projects.constructor: `projs` starts as the empty list. In Python the attribute does not exist before the first `read_projects`.
- In the reader, the heading list's bodies are joined in place (`s[2] = '\n'.join(s[2])`). The model computes the joined text without changing the list.
