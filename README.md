# Cliply argument registry, modelled in Dafny

Cliply is a small command-line argument library. An application (`App`) has a
name, a version and an author, plus a registry that maps each flag name to its
help text and a bit saying whether the flag takes data. The library can:

- declare flags;
- tell whether a flag was given (under any of its spellings `-x`, `--name` and `name`);
- return the token that follows a data flag;
- render the help and version texts.

The model has four modules:

- `Errors` (`src/modules/errors.rs`): the error record `CliplyError` with its
  constructor and its three string views, and the `Result` of a lookup.
- `Coutils`: the helpers the registry imports from the external `coutils`
  crate, written as the behaviour the registry relies on. `get_index` becomes
  `GetIndex`, which returns an `Option`. `has_item` becomes `x in v`.
  `has_index` becomes `i < |v|`. `clean_split(name, "")[1]` becomes `name[0]`.
- `Text`: `Join` models the standard vector join. `Lines` splits a text at its
  newlines and is the reference used to show that the help and version texts
  split back into the lines they were built from.
- `Cliply` (`src/modules/cliply.rs`): `ArgData` is a datatype. `App` is a
  class, because `add_arg` updates its map in place. The queries are functions
  of the class. `HelpInfo` is a method, and `FlagLines` holds its loop over the map.

The process argument vector is an explicit `argv: seq<string>` parameter of
every query. As in the real vector, its first token is the program path, and
the model, like the code, does not skip it (`ProgramPathIsSearched`).

The version text is `<name> v.<version>`, a newline, then `by <author>.`.
There is no space after the newline; the model follows the code
(`src/modules/cliply.rs:237`), which is what `VersionInfoExample` pins down.

`get_arg_data` keeps its permissive fallbacks. A flag declared without data,
or not given at all, yields `Ok("")`. The only error that can come out is
"No data supplied to "<spelling>".".

## Model

| member | source | states |
|---|---|---|
| `Errors.New` | src/modules/errors.rs:36-40 | the error stores its message verbatim |
| `Errors.ToString` | src/modules/errors.rs:45-47 | the string form is the message: building an error from it gives the same error back |
| `Errors.Description` | src/modules/errors.rs:52-54 | the description is the message, the same as the string form |
| `Errors.Fmt` | src/modules/errors.rs:60-62 | displaying keeps the formatter's earlier output and appends exactly the message |
| `Errors.EqualIffSameDetails` | src/modules/errors.rs:24-27 | the derived equality: two errors are equal iff their messages are |
| `Errors.NewInjective` | src/modules/errors.rs:36-40 | errors built from different messages are different |
| `Coutils.GetIndex` | src/modules/cliply.rs:137-147 | `None` exactly when the item is absent, otherwise the first position holding it |
| `Coutils.GetIndexIsFirst` | src/modules/cliply.rs:142-147 | any position holding the item with no earlier occurrence is the one found |
| `Text.Join` | src/modules/cliply.rs:278 | the vector join: its length is the summed length of the lines plus one separator between each two |
| `Text.LinesOfJoin` | src/modules/cliply.rs:278 | splitting a newline-joined vector of newline-free lines at its newlines gives the vector back |
| `Text.LinesOfTwo` | src/modules/cliply.rs:237 | two newline-free lines joined by one newline split back into those two lines |
| `Cliply.NewArgData` | src/modules/cliply.rs:53-58 | flag information keeps the help text and the data bit as given |
| `Cliply.SpellingsCharacterized` | src/modules/cliply.rs:97-102 | the three spellings are exactly the two-character `-` plus first letter, `--` plus the name, and the bare name |
| `Cliply.ValueAfter` | src/modules/cliply.rs:136-159 | one extraction branch: an absent spelling is the defensive error, an error for a present spelling means it is the last token and names it, a value is the token right after an occurrence |
| `Cliply.ValueAfterFirstOccurrence` | src/modules/cliply.rs:142-159 | with `i` the first position of the spelling, the result is token `i + 1`, or the "No data supplied" error when `i` is last |
| `Cliply.ArgLineDescribesFlag` | src/modules/cliply.rs:255-270 | a flag's help line starts with its three spellings, its column reads " DATA  " iff the flag takes data, and help text and data bit read back from it |
| `Cliply.HelpTextDescribesRegistry` | src/modules/cliply.rs:246-280 | the help text splits into one line per declared flag, each reading back to that flag's information, then the `help` line, then the `version` line: registry size plus two lines |
| `Cliply.HelpTextShape` | src/modules/cliply.rs:272-279 | whatever the flag order, the help text ends with the `version` line, and without newlines it splits into registry size plus two lines, the last two being `help` then `version` |
| `Cliply.App.constructor` | src/modules/cliply.rs:81-89 | a new application keeps its name, version and author and has no flags |
| `Cliply.App.ArgWasUsed` | src/modules/cliply.rs:94-108 | true iff some token of `argv` is a spelling of the name; the registry is not consulted |
| `Cliply.App.AddArg` | src/modules/cliply.rs:114-122 | the name now maps to the new information, overwriting any earlier entry; other keys, name, version and author are unchanged |
| `Cliply.App.GetArgData` | src/modules/cliply.rs:126-215 | requires a declared name; `Ok("")` for a flag without data or a flag not given; an error only when the last token is a spelling, and its message names that spelling; a non-empty value is a token right after a spelling; the exact result for a data flag that is given (priority of spellings, first occurrence) is stated by `Cliply.GetArgDataFirstSpelling` |
| `Cliply.App.VersionIs` | src/modules/cliply.rs:220-223 | true iff `-v`, `--version` or `version` occurs |
| `Cliply.App.HelpIs` | src/modules/cliply.rs:228-231 | true iff `-h`, `--help` or `help` occurs |
| `Cliply.App.VersionInfo` | src/modules/cliply.rs:235-242 | the text is two lines, `<name> v.<version>` and `by <author>.`, when the fields hold no newline |
| `Cliply.App.FlagLines` | src/modules/cliply.rs:254-271 | the loop over the map yields one help line per declared flag, in an order that lists every declared flag exactly once |
| `Cliply.App.HelpInfo` | src/modules/cliply.rs:246-280 | the text is the newline join of the flag lines followed by the `help` and `version` lines; it always ends with the `version` line, and without newlines in names or help texts it splits into registry size plus two lines |
| `Cliply.GetArgDataFirstSpelling` | src/modules/cliply.rs:135-212 | priority: for the first of short, long, bare to occur, at first position `i`, the data is token `i + 1`, or the error naming it when `i` is last; later spellings are ignored |
| `Cliply.GetArgDataNeverNotFound` | src/modules/cliply.rs:149-152 | the defensive "not found in arguments" error is never returned |
| `Cliply.ShortFormCollision` | src/modules/cliply.rs:97-102 | `-v` given for a user flag starting with `v` also makes the version probe true |
| `Cliply.ProgramPathIsSearched` | src/modules/cliply.rs:96-102 | the program path at index 0 counts as a use of a flag of the same name, and as a data flag with no data when it is the only token |
| `Cliply.CgreetLongForm` | src/modules/cliply.rs:161-185 | `--cgreet World` yields `World`; a trailing `--cgreet` is the error naming `--cgreet` |
| `Cliply.CgreetShortFormWins` | src/modules/cliply.rs:135-160 | `-c --cgreet World` yields `--cgreet`; a trailing `-c` is an error even when the bare spelling has a value |
| `Cliply.ProbeScenarios` | src/modules/cliply.rs:94-108 | `--greet` and `-g` are uses of `greet`, `--greeting` is not; `-h` is a help request and not a version request |
| `Cliply.VersionInfoExample` | src/modules/cliply.rs:235-242 | the example application's version text is `Example v.0.1.0`, newline, `by Alyx Shang.` |
| `Cliply.ExampleApp` | example/src/main.rs:22-40 | the example application declares `greet` without data and `cgreet` with data |

## Left out

- Reading the process arguments (`env::args()`, `src/modules/cliply.rs:96`, `:127`): replaced by the parameter `argv`.
- Coutils.GetIndex: that `get_index` returns the first position of an item, and succeeds for every item that is present, is assumed of the `coutils` crate, whose source is not part of this model; the spelling-priority results of `GetArgDataFirstSpelling` and `ValueAfterFirstOccurrence`, and the unreachability of the `get_index` failure branch, rest on it.
- The `coutils` crate is not part of this model. `clean_split(name, "")[1]` is assumed to be the first character of the name. So the queries and `HelpInfo` require non-empty names. What the source does with an empty name depends on that crate.
- The error message that `get_index` itself would produce is unknown. Its failure branch and the `has_item` failure branch are merged into one defensive error carrying the `has_item` message. Neither branch can be reached (`Cliply.GetArgDataNeverNotFound`).
- `HashMap` iteration order: `FlagLines` picks keys in an unspecified order and returns that order as a ghost value. The contract of `HelpInfo` pins the text relative to that order, and, when no flag name or help text holds a newline, states its line count and its last two lines for every order.
- Cliply.App.HelpInfo: it does not say that the output is the same on every call. The source's map order is fixed for one map, but the model's choice is not.
- Cliply.App.VersionInfo: its line structure is stated only when name, version and author contain no newline; with a newline the text still matches the format, but `Lines` would split it further.
- Cliply.HelpTextDescribesRegistry: holds only when no flag name or help text contains a newline, for the same reason.
- Panics: indexing the map with an undeclared name panics in the source. `GetArgData` therefore requires a declared name.
- The Rust `Error`, `Display` and `Formatter` trait machinery: `Fmt` models writing to a string sink, which always succeeds, so the `fmt::Result` is not modelled.
- Ownership: `to_string` takes the error by value; the model's value semantics do not show the move.
- The example program's dispatch and printing (`example/src/main.rs:43-74`): only its set-up (`Cliply.ExampleApp`) and its command lines, as scenario lemmas, are modelled.
