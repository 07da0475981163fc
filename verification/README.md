# Securities master: progress bar and symbol insert statement

This project models the two pieces of self-contained computation in the
securities-master scripts. Everything else in those scripts is database and
network plumbing.

- **The terminal progress bar** (`print_progress_bar`, utils/progress.py).
  Given `iteration`, `total` and `length`, it computes
  `filled_length = length * iteration // total`. The bar is `filled_length`
  copies of `fill` followed by `length - filled_length` dashes. The line written
  is `'\r' + prefix + ' |' + bar + '| ' + percent + '% ' + suffix`, followed by
  `print_end`. One extra newline follows when `iteration == total`. Computing
  the percentage raises `OverflowError` when `total` or `iteration` is too large
  for a double, and `ZeroDivisionError` when `total` is zero. Building the bar
  raises `OverflowError` when a repetition count does not fit a `Py_ssize_t` or
  the repeated text would be too long. Nothing is printed then.
- **The symbol insert statement** (`insert_snp500_symbols`, snp500_insert.py).
  The statement is `INSERT INTO symbol <fields> VALUES <template>`. `<fields>`
  is the fixed, parenthesised list of eight columns. `<template>` is
  `len(symbols)` copies of `%s` joined by commas. The rows are then bound
  positionally to those placeholders.

Files:

- `wrappers.dfy` (module `Wrappers`): the `Result` datatype both other modules
  use for their error paths.
- `strings.dfy` (module `Strings`): Python's sequence repetition `s * k`, which
  is empty for `k <= 0`, the condition under which `str * k` overflows, and
  `str.join`, with their lemmas.
- `progress.dfy` (module `Progress`): Python's floor division, `filled_length`,
  the bar, the emitted line and the completion newline.
- `symbol_insert.dfy` (module `SymbolInsert`): the column list, the placeholder
  template, the statement, and a reference model of positional `%s` binding.

Modelling decisions:

- Python's `//` is floor division. Dafny's `/` is Euclidean. `Progress.FloorDiv`
  covers every non-zero divisor, so a negative `total` behaves as in Python.
  Its contract is the defining inequality of the floor.
- The percentage is a floating-point format of `iteration / total`, so it enters
  `Progress.Render` as an already formatted string. `decimals` is therefore not
  a parameter. The other parameters keep Python's defaults: `prefix` and
  `suffix` empty, `length` 100, `fill` the block character U+2588 and
  `print_end` a carriage return.
- Computing the percentage converts `total`, then `iteration`, to a double.
  Conversion rounds to nearest with ties to even, so it overflows exactly when
  the magnitude is at least `2^1024 - 2^970` (`Progress.FitsFloat`). The quotient
  itself cannot overflow, because `abs(float(total)) >= 1` whenever `total` is
  non-zero.
- `str * k` first converts `k` to a `Py_ssize_t`, which raises `OverflowError`
  outside `-2^63 .. 2^63 - 1` on a 64-bit build. For a positive count it then
  raises `OverflowError` when the result would be longer than `2^63 - 1`
  characters (`Strings.RepeatOverflows`). `Progress.Render` applies this check
  to both repetitions of the bar. `Strings.Repeat` itself is the value of a
  repetition that passes it.
- The two `print` calls are replaced by a returned `Emission`. It holds the bar
  line, the `print_end` text and whether the bare newline follows.
  `Progress.Output` gives the characters the terminal receives.
- `fill` is any string, as in Python. The lemmas that describe the bar cell by
  cell assume a one-character fill, which is the documented use.
- `SymbolInsert.Fields` is built as `"(" + Join(", ", Columns) + ")"` from the
  eight column names. `SymbolInsert.FieldsSpelled` proves that this spells the
  literal at snp500_insert.py:39, name by name.

## Model

| member | source | states |
|---|---|---|
| `Progress.FloorDiv` | utils/progress.py:36 | the quotient is the floor of `a / b` for either sign of the divisor: `q*b <= a < q*b + b` when `b > 0`, and `q*b + b < a <= q*b` when `b < 0` |
| `Progress.FilledLength` | utils/progress.py:36 | `filled_length` is the largest count whose share of `total` does not pass `length * iteration`: `n*total <= length*iteration < n*total + total` for a positive `total`, mirrored for a negative one |
| `Progress.Bar` | utils/progress.py:37 | the bar is `filled_length` copies of `fill`, each count clipped at zero, then only dashes; its length is `max(filled_length, 0) * len(fill) + max(length - filled_length, 0)` |
| `Progress.Render` | utils/progress.py:7-41 | with Python's defaults for every parameter except the percentage: `OverflowError` exactly when `total` or `iteration` does not fit a double, or when `total` is non-zero and the fill count or the dash count of the bar is not index-sized or makes the text too long; otherwise `ZeroDivisionError` exactly when `total == 0`; otherwise the line is followed by `print_end`, and the extra newline is emitted exactly when `iteration == total` |
| `Progress.Output` | utils/progress.py:38-41 | the terminal receives the line, then `print_end`, then one newline exactly when the emission asks for it, and nothing else |
| `Progress.FilledLengthBounds` | utils/progress.py:36 | when `length >= 0` and `iteration` lies between 0 and `total` (either sign), `0 <= filled_length <= length` |
| `Progress.FilledLengthComplete` | utils/progress.py:36 | when `iteration == total`, `filled_length == length` for every `length` and every non-zero `total` |
| `Progress.FilledLengthMonotone` | utils/progress.py:36 | when `total > 0` and `length >= 0`, `filled_length` never decreases as `iteration` grows |
| `Progress.FilledLengthOverrun` | utils/progress.py:36 | when `iteration > total > 0` and `length >= 0`, `filled_length >= length` |
| `Progress.BarCells` | utils/progress.py:36-37 | with a one-character fill and `iteration` in range, the bar has exactly `length` cells: the first `filled_length` are `fill`, the rest are `-` |
| `Progress.BarAdvances` | utils/progress.py:36-37 | with `total > 0`, a cell that is filled at one iteration stays filled at every later iteration up to `total` |
| `Progress.BarComplete` | utils/progress.py:36-37 | when `iteration == total`, the bar is `length` copies of `fill` and holds no `-` unless `fill` does |
| `Progress.BarEmpty` | utils/progress.py:36-37 | when `iteration == 0`, the bar is `length` dashes and nothing else |
| `Progress.BarOverrun` | utils/progress.py:36-37 | when `iteration > total > 0`, the negative dash count adds nothing: the bar is `filled_length >= length` copies of `fill` |
| `Progress.LineLayout` | utils/progress.py:38 | on a successful call, the line is a carriage return, the prefix, a space and a vertical bar, the bar, a vertical bar and a space, the percentage, `% ` and the suffix, each at a fixed offset, so the bar can be read back from the line |
| `Progress.OutputCompletes` | utils/progress.py:38-41 | on a successful call, after the last iteration the terminal receives exactly the line, `print_end` and a newline; otherwise exactly the line and `print_end` |
| `Progress.RenderDefaults` | utils/progress.py:7 | called with only `iteration`, `total` and the percentage, an in-range call succeeds with a 100-cell bar, an empty prefix and suffix and a carriage return as `print_end`; at completion every cell is the block character |
| `Progress.BarFitsInRange` | utils/progress.py:36-37 | with `iteration` in range and a full bar of `length` fills no longer than a `str` can be, building the bar never overflows |
| `Progress.RenderIndexOverflow` | utils/progress.py:35-37 | `print_progress_bar(2**60, 1)` passes the float conversion but asks for more than `2^63 - 1` fills, so it raises `OverflowError` |
| `Strings.RepeatOverflowsExactly` | utils/progress.py:37 | for an index-sized count, `str * k` overflows exactly when its result would be longer than `2^63 - 1`, and never for `k <= 0` |
| `Strings.Repeat` | utils/progress.py:37 | Python's `s * k`, for a count that does not overflow (`Strings.RepeatOverflows`), has length `k * len(s)`, and is empty when `k <= 0` |
| `Strings.RepeatAt` | utils/progress.py:37 | copy `i` of `s * k` sits at offset `i * len(s)` and equals `s` |
| `Strings.JoinLength` | snp500_insert.py:40 | `sep.join(parts)` (`Strings.Join`) is as long as all parts together plus one separator per neighbouring pair |
| `Strings.JoinMembers` | snp500_insert.py:39-40 | everything in `sep.join(parts)` comes from the separator or from one of the parts |
| `SymbolInsert.Template` | snp500_insert.py:40 | the template for `n` rows is empty when `n == 0` and `3n - 1` characters long otherwise |
| `SymbolInsert.TemplateShape` | snp500_insert.py:40 | offset `3i` of the template holds `%`, offset `3i + 1` holds `s` and offset `3i + 2` holds `,` |
| `SymbolInsert.TemplateStep` | snp500_insert.py:40 | one more row puts `%s,` in front of the template |
| `SymbolInsert.TemplateCounts` | snp500_insert.py:40 | the template holds exactly `n` placeholders and `n - 1` commas (none when `n == 0`) |
| `SymbolInsert.BuildInsert` | snp500_insert.py:41 | the statement is the fixed head `INSERT INTO symbol `, column list, ` VALUES `, and then exactly the template |
| `SymbolInsert.InsertStatement` | snp500_insert.py:39-44 | the statement executed for a batch holds exactly one placeholder per row |
| `SymbolInsert.InsertPlaceholders` | snp500_insert.py:39-41 | the statement for `n` rows holds exactly `n` placeholders |
| `SymbolInsert.HeadHasNoPlaceholder` | snp500_insert.py:39-41 | the fixed head, column list included, holds no placeholder |
| `SymbolInsert.Bind` | snp500_insert.py:44 | positional binding succeeds exactly when the argument count equals the placeholder count, and reports too few arguments exactly when placeholders outnumber them |
| `SymbolInsert.InsertBindsEachRow` | snp500_insert.py:40-44 | executing the statement with one argument per row binds, and any other number of arguments fails |
| `SymbolInsert.InsertDependsOnCountOnly` | snp500_insert.py:39-41 | two batches give the same statement exactly when they have the same number of rows, whatever the rows hold |
| `SymbolInsert.FieldsSpelled` | snp500_insert.py:39 | the column list is `(ticker, instrument, name, sector, currency, current_constituent, created_date, last_updated)`, name by name |
| `SymbolInsert.FieldsMatchRows` | snp500_insert.py:15-39 | the column list names eight distinct columns, as many as the values of a row in the docstring, starting with `ticker` and ending with `last_updated` |

## Left out

- The percentage text and `decimals` (utils/progress.py:35): a floating-point format. It is a parameter of `Render`, so a negative `decimals`, which makes the format raise, is not modelled.
- `Progress.Render`, `Progress.Bar`, `Strings.Repeat`: a repetition whose result fits a `Py_ssize_t` but cannot be allocated raises `MemoryError`; this depends on the memory available and is not modelled, so such a call is a `Success` in the model. `Bar` and `Repeat` give the repeated text for any count; the `OverflowError` of an out-of-range count is decided by `Render` through `RepeatOverflows` before `Bar` is used.
- The list repetition `['%s'] * n` at snp500_insert.py:40 raises `MemoryError` rather than `OverflowError` when too long; its count is a batch length, so neither is modelled.
- Terminal I/O: `print` is replaced by the returned `Emission`. Cursor movement and rendering of `\r` are not modelled.
- Non-integer arguments to `print_progress_bar`: the model takes integers, where `int(...)` at utils/progress.py:36 is the identity.
- `SymbolInsert.Bind`: a reference model of positional `%s` substitution, not the database driver's. It does not quote values or adapt Python lists and tuples to SQL. It does not treat `%%` or other `%` conversions. Row values are taken as the already rendered text.
- Connecting to the database, executing, committing and closing (snp500_insert.py:20-49), and reading credentials from the environment.
- `build_db_tables.py`: table DDL sent to the database, with no logic of its own.
- `scrape_snp500_current.py`, `scrape_snp500_past.py`, `ScrapePastsnp500Quick.py`: a network fetch of a web page followed by library DataFrame operations.
- `retrieve_historic_prices.py`, `daily_price_updates.py`: environment loading, database connections and the price update and backfill scripts; not modelled.
- `utils/fileio.py`: CSV file writing.
