# storage:ls — a Dafny model

`storage:ls` is a Laravel console command that lists one directory of a
configured storage disk. Its whole logic is `ListStorage::handle()`:

1. With no `filesystems.disks` configuration at all, it reports an error and
   exits with code 1.
2. A `--disk` value that names no configured disk is reported as an error and
   then treated as if no disk had been chosen.
3. With no disk chosen, it prints `Available disks:` and a table with one row
   per disk: the name, marked ` [*]` for the default disk, and the driver, or
   `unknown` when the disk has none.
4. Otherwise it lists the `--dir` directory of that disk and prints one line
   per item as `sprintf('%1s %10d %s %s', flag, size, date, basename)`. Missing
   fields get defaults: basename `unknown`, size 0, type `file`. When the size
   is 0 and the type is exactly `file`, it asks the disk for the size of
   `dirname/basename` again and ignores a failure of that call.

The model has three modules:

- `Wrappers` (wrappers.dfy): `Option`, standing for a PHP value that may be
  missing or null. `GetOr` is PHP's `??`.
- `Format` (format.dfy): the parts of `sprintf` the line uses. `%d` is
  `Decimal`, which `ParseDecimal` reads back. A field width is `PadLeft`,
  which `TrimLeft` undoes. The line itself is `LineFormat`.
- `ListStorage` (list_storage.dfy): the disk configuration, the item records
  and the console output as datatypes. Disk selection, the table rows and the
  per-item rules are functions. `ListItem` (the loop body), `ListItems` (the
  `foreach`) and `Handle` are methods proved against those functions.

Framework calls are parameters of `Handle`:

- `config('filesystems.disks')` is an `Option<DiskConfig>`. A `DiskConfig` is
  the disks in insertion order, with distinct names.
- `config('filesystems.default')`, `--disk` and `--dir` are `Option<string>`.
- `listContents` is a function from disk and directory to a sequence of
  `Item`s.
- `getSize` is a function from disk and path to `Option<int>`. `None` means
  the call threw.
- `date` is a function from timestamp to text.

Every call on the storage disk is recorded in a trace of `Call`s. This lets
the model say when the listing and the size lookups happen, and with which
arguments.

Some consequences of `handle()` as written:

- Exit code 1 is returned only when `filesystems.disks` is null. An empty
  disk array shows an empty table and exits with 0.
- A size listed as exactly 0 for a file is looked up again.
- The flag column of anything that is not a directory is one space (`%1s` of
  the empty string).
- The size lookup is always made when the rule above says so.
- `option('dir', '/')` passes its `'/'` to a method that takes only the option
  name, so the raw `--dir` value, or null when it is absent, is what reaches
  `listContents`. The model passes the raw option as well.
- The command has no recursion, no directory headers, no short or long
  formats, no `disk:path` shorthand and no modification-time lookup.

## Model

| member | source | states |
|---|---|---|
| `ListStorage.Handle` | src/Console/Commands/ListStorage.php:21-91 | Null disk configuration: exit 1, only the "No disks defined" error, no disk call. Otherwise exit 0. No or empty `--disk`: the disk table and no disk call. Unknown `--disk`: the error naming it, then the disk table, and no disk call. A known disk: one `listContents(disk, --dir)` call, then the listing lines and that listing's size lookups |
| `ListStorage.SelectDisk` | src/Console/Commands/ListStorage.php:30-38 | Nothing is selected exactly when `--disk` is absent or empty. A disk is selected only when it is a non-empty configured name. It is rejected only when it is a non-empty name that is not configured |
| `ListStorage.UnknownDiskMessage` | src/Console/Commands/ListStorage.php:34 | The error is `Selected disk "` + the name + `" does not exist`. The name sits at a fixed position |
| `ListStorage.DiskLabel` | src/Console/Commands/ListStorage.php:45 | The name gets ` [*]` exactly when it equals the default. It is the bare name exactly when it does not |
| `ListStorage.DriverLabel` | src/Console/Commands/ListStorage.php:46 | The configured driver, or `unknown` when there is none |
| `ListStorage.DiskRows` | src/Console/Commands/ListStorage.php:43-48 | The rows of the disk table, one per disk in configuration order; its properties are proved in `DiskRowsMarkDefault` |
| `ListStorage.DiskRowsMarkDefault` | src/Console/Commands/ListStorage.php:41-49 | One two-column row per configured disk, in configuration order. Row i holds disk i's name, with ` [*]` exactly when it is the default, and its driver label. Row i is marked exactly when disk i is the default. At most one row is marked. Exactly one is marked when the default names a configured disk |
| `ListStorage.Pathname` | src/Console/Commands/ListStorage.php:58-59 | The lookup path starts with the item's directory, followed by a slash and the basename (`unknown` when absent) |
| `ListStorage.NeedsSizeLookup` | src/Console/Commands/ListStorage.php:61-68 | A second size lookup is needed exactly when the size is absent or 0 and the type is absent or exactly `file`. Directories and other types never need one |
| `ListStorage.ShownSize` | src/Console/Commands/ListStorage.php:61-73 | The shown size is the listed size (default 0) when no lookup is needed, the looked-up size when the lookup succeeds, and 0 when it fails |
| `ListStorage.DateText` | src/Console/Commands/ListStorage.php:75-81 | The date text is empty without a timestamp and `date(timestamp)` with one |
| `ListStorage.ItemLineLayout` | src/Console/Commands/ListStorage.php:58-89 | An item's line is `d` (type exactly `dir`) or a space, a space, the size column, a space, the date text, a space, and the basename (`unknown` when absent). The size column is at least 10 wide and reads back as the shown size. The date text is empty exactly without a timestamp and `date(timestamp)` otherwise |
| `ListStorage.ListItem` | src/Console/Commands/ListStorage.php:58-89 | The loop body produces the item's line and makes the item's size lookup (one, on `dirname/basename`) exactly when it is needed |
| `ListStorage.ListItems` | src/Console/Commands/ListStorage.php:57-90 | The loop prints the listing lines and makes the listing's size lookups, in item order |
| `ListStorage.ListingLinesAt` | src/Console/Commands/ListStorage.php:57-90 | There is exactly one line per listed item and line i belongs to item i. Nothing is skipped or reordered, whatever the size lookups return |
| `ListStorage.MapLinesAt` | src/Console/Commands/ListStorage.php:57 | Mapping items to lines keeps the length and the order |
| `ListStorage.LookupCallsSpec` | src/Console/Commands/ListStorage.php:58-73 | Each size lookup is on the selected disk, with the path `dirname/basename` of an item that needs one. Every item that needs one gets one (the count is `LookupCallsCount`) |
| `ListStorage.LookupCallsCount` | src/Console/Commands/ListStorage.php:58-73 | There are exactly as many size lookups as items that need one, so never more than the items |
| `ListStorage.LookupCallsAppend` | src/Console/Commands/ListStorage.php:57-73 | The lookups of a listing are those of its first items followed by those of the rest, so they are made in item order |
| `Format.Decimal` | src/Console/Commands/ListStorage.php:84-86 | `%d` of an integer: at least one character, a leading minus exactly for a negative number, then the digits of the magnitude with no leading zero (just `0` for zero), so it is the shortest decimal form; it reads back as the number (`DecimalRoundTrip`) |
| `Format.PadLeft` | src/Console/Commands/ListStorage.php:84-85 | A field width: the text right-justified with spaces to the width, or left as it is when it is wider (never truncated); trimming undoes it (`TrimPadLeft`) |
| `Format.LineFormat` | src/Console/Commands/ListStorage.php:83-89 | `sprintf('%1s %10d %s %s', …)`: the flag column, the size column, the date text and the basename, separated by single spaces; its layout is proved in `ItemLineLayout`, `FlagField` and `SizeField` |
| `Format.DigitsRoundTrip` | src/Console/Commands/ListStorage.php:84 | The decimal digits of a natural number read back as that number |
| `Format.DecimalRoundTrip` | src/Console/Commands/ListStorage.php:84-86 | `%d` of any integer, with its sign, reads back as that integer |
| `Format.TrimPadLeft` | src/Console/Commands/ListStorage.php:84 | Right-justifying a field and then removing the leading spaces gives back the field, if it does not itself start with a space |
| `Format.FlagField` | src/Console/Commands/ListStorage.php:84-85 | `%1s` keeps a one-character flag and turns the empty flag into one space |
| `Format.SizeField` | src/Console/Commands/ListStorage.php:84-86 | `%10d` is ten characters wide, or as wide as the number when it is longer (never truncated). It reads back as the number |
| `ListStorage.DiskLabelAsWritten` | src/Console/Commands/ListStorage.php:43-45 | The name column as the source computes it: an integer-keyed disk is never marked; how it differs from `DiskLabel` is proved in `DiskLabelAsWrittenDiffers` |
| `ListStorage.DiskLabelAsWrittenDiffers` | src/Console/Commands/ListStorage.php:43-45 | The name column as written differs from the intended one exactly for a default disk whose name PHP stores as an integer key |
| `ListStorage.NumericDefaultDiskUnmarked` | src/Console/Commands/ListStorage.php:43-45 | A default disk keyed `'0'` is shown as `0` where `0 [*]` is intended |

## Left out

- src/Providers/LsProvider.php only registers the command with the framework. It is not part of this model.
- `config()`, `Storage::disk()`, `listContents`, `getSize` and `date()` are framework or library calls. They are parameters here (values and functions). How the framework finds the disk, reads the directory or formats a date is not modelled.
- Exceptions thrown by `Storage::disk()` or `listContents` are not caught by `handle()` and would end the command. The model's `listContents` always returns a listing.
- A missing `dirname` field (read without `??` in the source) is not modelled. `Item.dirname` is always present.
- Sizes, timestamps and option values of other PHP types are not modelled. This covers string or float sizes, a size lookup that returns `false` (printed as 0, the same as an oracle returning `Some(0)`), non-string disk names and non-array disk entries.
- Sizes and timestamps are unbounded integers. PHP's 64-bit range is modelled only where it decides which disk names become integer keys (`IsIntegerKey`, in the finding below).
- Console styling and the drawing of the disk table by `$this->info`, `$this->error` and `$this->table` are not modelled. Output is a sequence of `Info`, `Error` and `Table` values.

## Findings

The model's disk table (`DiskRows`) uses the corrected name column. `DiskLabelAsWritten` is the column as the source computes it.

| source | as written | input that shows it | evidently intended | confidence | as-written member | corrected member |
|---|---|---|---|---|---|---|
| src/Console/Commands/ListStorage.php:43-45 | PHP stores a disk key such as `'0'` as the integer 0. The closure then gets an int `$name`, so `$defaultDisk === $name` compares a string with an int and is always false | `filesystems.disks` = `['0' => ['driver' => 'local']]` and `filesystems.default` = `'0'`: the row shows `0` | the default disk is marked ` [*]` whatever its name: `0 [*]` | medium, not executed | `ListStorage.NumericDefaultDiskUnmarked` | `ListStorage.DiskRowsMarkDefault` |
