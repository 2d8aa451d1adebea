/**
  The `storage:ls` console command: choose a configured storage disk, or show
  the table of disks, or list one directory of the chosen disk one line per
  item.

  The framework is reached through parameters: the disk configuration and the
  command's options are values, and the storage calls are functions
  (`listContents`, `getSize`, `date`). Every call made to the storage disk is
  recorded in a trace of `Call`s, so that the model can say which calls the
  command makes and with which arguments.
 */
module ListStorage {
  import opened Wrappers
  import opened Format

  /** One entry of `filesystems.disks`: its key and its `driver` setting, if any. */
  datatype Disk = Disk(name: string, driver: Option<string>)

  /** Keys of a PHP array are distinct. */
  predicate UniqueNames(disks: seq<Disk>) {
    forall i, j :: 0 <= i < j < |disks| ==> disks[i].name != disks[j].name
  }

  /** The `filesystems.disks` array, in its insertion order. */
  type DiskConfig = disks: seq<Disk> | UniqueNames(disks) witness []

  function Names(disks: seq<Disk>): set<string> {
    set d | d in disks :: d.name
  }

  /** One item of a `listContents` result; every field except `dirname` may be absent. */
  datatype Item = Item(
    dirname: string,
    basename: Option<string>,
    size: Option<int>,
    kind: Option<string>,
    timestamp: Option<int>)

  /** A call the command makes on the selected storage disk. */
  datatype Call =
    | ListContents(disk: string, dir: Option<string>)
    | GetSize(disk: string, path: string)

  /** What the command writes to the console. */
  datatype Output =
    | Info(text: string)
    | Error(text: string)
    | Table(headers: seq<string>, rows: seq<seq<string>>)

  const NoDisksMessage := "No disks defined on this system"
  const AvailableDisksMessage := "Available disks:"
  const TableHeaders := ["name", "driver"]

  // ---------------------------------------------------------------------------
  // Disk selection

  /** The outcome of validating the `--disk` option. */
  datatype Selection =
    | NoDisk                  // option absent or empty
    | UnknownDisk(name: string) // option names no configured disk
    | Selected(name: string)

  function SelectDisk(disks: DiskConfig, diskOption: Option<string>): (s: Selection)
    ensures s.NoDisk? <==> diskOption.GetOr("") == ""
    ensures s.UnknownDisk? ==> diskOption == Some(s.name) && s.name != "" && s.name !in Names(disks)
    ensures s.Selected? ==> diskOption == Some(s.name) && s.name != "" && s.name in Names(disks)
  {
    var selected := diskOption.GetOr("");
    if selected == "" then NoDisk
    else if selected in Names(disks) then Selected(selected)
    else UnknownDisk(selected)
  }

  function UnknownDiskMessage(name: string): (m: string)
    ensures |m| == |name| + 31
    ensures m[..15] == "Selected disk \"" && m[15..15 + |name|] == name
    ensures m[15 + |name|..] == "\" does not exist"
  {
    "Selected disk \"" + name + "\" does not exist"
  }

  // ---------------------------------------------------------------------------
  // The table of disks

  /** The name column: the default disk carries a ` [*]` suffix. */
  function DiskLabel(name: string, defaultDisk: Option<string>): (shown: string)
    ensures shown == name + " [*]" <==> defaultDisk == Some(name)
    ensures shown == name <==> defaultDisk != Some(name)
  {
    name + (if defaultDisk == Some(name) then " [*]" else "")
  }

  /** The driver column: `unknown` when the disk has no driver setting. */
  function DriverLabel(driver: Option<string>): (shown: string)
    ensures driver.Some? ==> shown == driver.value
    ensures driver.None? ==> shown == "unknown"
  {
    driver.GetOr("unknown")
  }

  function DiskRows(disks: seq<Disk>, defaultDisk: Option<string>): seq<seq<string>> {
    seq(|disks|, i requires 0 <= i < |disks| =>
      [DiskLabel(disks[i].name, defaultDisk), DriverLabel(disks[i].driver)])
  }

  /** The row for disk i is marked as the default one. */
  predicate Marked(rows: seq<seq<string>>, disks: seq<Disk>, i: int)
    requires |rows| == |disks|
  {
    0 <= i < |rows| && |rows[i]| > 0 && rows[i][0] == disks[i].name + " [*]"
  }

  /**
    One row per configured disk, in configuration order, holding the disk's name
    and its driver; the row of the default disk, and only that one, carries the
    marker; so at most one row is marked,
    and exactly one when the default names a configured disk.
   */
  lemma DiskRowsMarkDefault(disks: DiskConfig, defaultDisk: Option<string>)
    ensures var rows := DiskRows(disks, defaultDisk);
      && |rows| == |disks|
      && (forall i :: 0 <= i < |rows| ==>
            && |rows[i]| == 2
            && rows[i][0] == (if defaultDisk == Some(disks[i].name) then disks[i].name + " [*]" else disks[i].name)
            && rows[i][1] == DriverLabel(disks[i].driver))
      && (forall i :: 0 <= i < |rows| ==> (Marked(rows, disks, i) <==> defaultDisk == Some(disks[i].name)))
      && (forall i, j :: Marked(rows, disks, i) && Marked(rows, disks, j) ==> i == j)
      && (defaultDisk.Some? && defaultDisk.value in Names(disks) ==> exists i :: Marked(rows, disks, i))
  {
    var rows := DiskRows(disks, defaultDisk);
    forall i | 0 <= i < |rows|
      ensures Marked(rows, disks, i) <==> defaultDisk == Some(disks[i].name)
    {
      assert rows[i][0] == DiskLabel(disks[i].name, defaultDisk);
    }
    if defaultDisk.Some? && defaultDisk.value in Names(disks) {
      var d :| d in disks && d.name == defaultDisk.value;
      var i :| 0 <= i < |disks| && disks[i] == d;
      assert Marked(rows, disks, i);
    }
  }

  /**
    PHP stores a string array key as an integer when the string is the
    canonical decimal form of a 64-bit integer: "0", "42", "-7", but not "007",
    "+7", "-0" or "9223372036854775808".
   */
  predicate IsIntegerKey(key: string) {
    var v := ParseDecimal(key);
    v.Some? && Decimal(v.value) == key && -0x8000_0000_0000_0000 <= v.value < 0x8000_0000_0000_0000
  }

  /**
    The name column as the source computes it: the closure receives an integer
    key as an int, and the strict comparison of the string default with that
    integer never holds, so such a disk is never marked.
   */
  function DiskLabelAsWritten(name: string, defaultDisk: Option<string>): string {
    if IsIntegerKey(name) then name else DiskLabel(name, defaultDisk)
  }

  /** The source's column differs from the intended one exactly for a default disk with an integer-like name. */
  lemma DiskLabelAsWrittenDiffers(name: string, defaultDisk: Option<string>)
    ensures DiskLabelAsWritten(name, defaultDisk) != DiskLabel(name, defaultDisk)
      <==> IsIntegerKey(name) && defaultDisk == Some(name)
  {
  }

  /** With `'default' => '0'` and a disk keyed `'0'`, the table shows `0` where `0 [*]` is meant. */
  lemma NumericDefaultDiskUnmarked()
    ensures IsIntegerKey("0")
    ensures DiskLabelAsWritten("0", Some("0")) == "0"
    ensures DiskLabel("0", Some("0")) == "0 [*]"
  {
    assert Digits(0) == "0";
    assert DigitsValue("0") == 0;
  }

  /** The heading line followed by the table of disks. */
  function DiskTable(disks: DiskConfig, defaultDisk: Option<string>): seq<Output> {
    [Info(AvailableDisksMessage), Table(TableHeaders, DiskRows(disks, defaultDisk))]
  }

  // ---------------------------------------------------------------------------
  // One listed item

  /** The item's basename, `unknown` when the listing gave none. */
  function Basename(item: Item): string {
    item.basename.GetOr("unknown")
  }

  /** The item's directory, a slash and its basename: the path given to the size lookup. */
  function Pathname(item: Item): (path: string)
    ensures |path| > |item.dirname| && path[..|item.dirname|] == item.dirname
    ensures path[|item.dirname|..] == "/" + (if item.basename.Some? then item.basename.value else "unknown")
  {
    item.dirname + "/" + Basename(item)
  }

  /** The size the listing gave, 0 when it gave none. */
  function ListedSize(item: Item): int {
    item.size.GetOr(0)
  }

  /** The type the listing gave, `file` when it gave none. */
  function Kind(item: Item): string {
    item.kind.GetOr("file")
  }

  /** Whether the command asks the disk for the size again: the listed size is 0 and the type exactly `file`. */
  function NeedsSizeLookup(item: Item): (needed: bool)
    ensures needed <==> (item.size == None || item.size == Some(0)) && (item.kind == None || item.kind == Some("file"))
  {
    ListedSize(item) == 0 && Kind(item) == "file"
  }

  /**
    The size shown for an item: the listed one, unless a lookup is made and
    succeeds; a failed lookup leaves it at 0.
   */
  function ShownSize(disk: string, item: Item, getSize: (string, string) -> Option<int>): (size: int)
    ensures !NeedsSizeLookup(item) ==> size == ListedSize(item)
    ensures NeedsSizeLookup(item) && getSize(disk, Pathname(item)).None? ==> size == 0
    ensures NeedsSizeLookup(item) && getSize(disk, Pathname(item)).Some? ==> size == getSize(disk, Pathname(item)).value
  {
    if NeedsSizeLookup(item) then getSize(disk, Pathname(item)).GetOr(0) else ListedSize(item)
  }

  /** The date column: empty without a timestamp. */
  function DateText(timestamp: Option<int>, date: int -> string): (text: string)
    ensures timestamp.None? ==> text == ""
    ensures timestamp.Some? ==> text == date(timestamp.value)
  {
    if timestamp.Some? then date(timestamp.value) else ""
  }

  /** The flag column before padding: `d` for a type of exactly `dir`, empty otherwise. */
  function TypeFlag(item: Item): string {
    if Kind(item) == "dir" then "d" else ""
  }

  /** The line printed for one item. */
  function ItemLine(disk: string, item: Item, getSize: (string, string) -> Option<int>, date: int -> string): string {
    LineFormat(TypeFlag(item), ShownSize(disk, item, getSize), DateText(item.timestamp, date), Basename(item))
  }

  /**
    The line for an item, read field by field: `d` or a blank in the first
    column, the shown size right-aligned in at least ten columns, the date text
    (empty exactly when there is no timestamp) and the basename (`unknown` when
    absent).
   */
  lemma ItemLineLayout(disk: string, item: Item, getSize: (string, string) -> Option<int>, date: int -> string)
    ensures var size, dt := ShownSize(disk, item, getSize), DateText(item.timestamp, date);
      var column := PadLeft(Decimal(size), 10);
      && ItemLine(disk, item, getSize, date)
         == [if item.kind == Some("dir") then 'd' else ' '] + " " + column + " " + dt + " "
            + (if item.basename.Some? then item.basename.value else "unknown")
      && |column| >= 10
      && ParseDecimal(TrimLeft(column)) == Some(size)
      && (item.timestamp.None? ==> dt == "")
      && (item.timestamp.Some? ==> dt == date(item.timestamp.value))
  {
    FlagField(TypeFlag(item));
    SizeField(ShownSize(disk, item, getSize));
  }

  // ---------------------------------------------------------------------------
  // The listing

  /** One `Info` line per item, in the order of the items. */
  function MapLines(content: seq<Item>, line: Item -> string): seq<Output> {
    if content == [] then []
    else MapLines(content[..|content| - 1], line) + [Info(line(content[|content| - 1]))]
  }

  lemma {:induction false} MapLinesAt(content: seq<Item>, line: Item -> string)
    ensures |MapLines(content, line)| == |content|
    ensures forall i :: 0 <= i < |content| ==> MapLines(content, line)[i] == Info(line(content[i]))
  {
    if content != [] {
      var init := content[..|content| - 1];
      MapLinesAt(init, line);
      assert forall i :: 0 <= i < |init| ==> init[i] == content[i];
    }
  }

  /** The lines printed for a listing. */
  function ListingLines(disk: string, content: seq<Item>, getSize: (string, string) -> Option<int>, date: int -> string): seq<Output> {
    MapLines(content, item => ItemLine(disk, item, getSize, date))
  }

  /** The size lookups made for one item: one exactly when it needs a lookup. */
  function ItemLookups(disk: string, item: Item): seq<Call> {
    if NeedsSizeLookup(item) then [GetSize(disk, Pathname(item))] else []
  }

  /** The size lookups made during a listing, in the order listed. */
  function LookupCalls(disk: string, content: seq<Item>): seq<Call> {
    if content == [] then []
    else
      var item := content[|content| - 1];
      LookupCalls(disk, content[..|content| - 1]) + ItemLookups(disk, item)
  }

  /** Exactly one line per listed item, in the backend's order, whatever the size lookups return. */
  lemma ListingLinesAt(disk: string, content: seq<Item>, getSize: (string, string) -> Option<int>, date: int -> string)
    ensures |ListingLines(disk, content, getSize, date)| == |content|
    ensures forall i :: 0 <= i < |content| ==>
      ListingLines(disk, content, getSize, date)[i] == Info(ItemLine(disk, content[i], getSize, date))
  {
    MapLinesAt(content, item => ItemLine(disk, item, getSize, date));
  }

  /** The number of listed items that need a size lookup. */
  function Needing(content: seq<Item>): nat {
    if content == [] then 0
    else Needing(content[..|content| - 1]) + (if NeedsSizeLookup(content[|content| - 1]) then 1 else 0)
  }

  /** One size lookup per item that needs one. */
  lemma {:induction false} LookupCallsCount(disk: string, content: seq<Item>)
    ensures |LookupCalls(disk, content)| == Needing(content) <= |content|
  {
    if content != [] {
      LookupCallsCount(disk, content[..|content| - 1]);
    }
  }

  /** The lookups of a listing are those of its first part followed by those of the rest. */
  lemma {:induction false} LookupCallsAppend(disk: string, a: seq<Item>, b: seq<Item>)
    ensures LookupCalls(disk, a + b) == LookupCalls(disk, a) + LookupCalls(disk, b)
  {
    if b == [] {
      assert a + b == a;
    } else {
      var init := b[..|b| - 1];
      assert (a + b)[..|a + b| - 1] == a + init;
      assert (a + b)[|a + b| - 1] == b[|b| - 1];
      LookupCallsAppend(disk, a, init);
    }
  }

  /**
    A size lookup is made for an item exactly when it needs one, always on the
    selected disk and always with the path `dirname/basename`. How many lookups
    there are is stated by LookupCallsCount, their order by LookupCallsAppend.
   */
  lemma {:induction false} LookupCallsSpec(disk: string, content: seq<Item>)
    ensures forall c :: c in LookupCalls(disk, content) ==>
      c.GetSize? && c.disk == disk &&
      exists i :: 0 <= i < |content| && NeedsSizeLookup(content[i]) && c.path == Pathname(content[i])
    ensures forall i :: 0 <= i < |content| && NeedsSizeLookup(content[i]) ==>
      GetSize(disk, Pathname(content[i])) in LookupCalls(disk, content)
  {
    if content != [] {
      var init := content[..|content| - 1];
      var last := content[|content| - 1];
      LookupCallsSpec(disk, init);
      assert LookupCalls(disk, content) == LookupCalls(disk, init) + ItemLookups(disk, last);
      assert forall i :: 0 <= i < |init| ==> init[i] == content[i];
      forall c | c in LookupCalls(disk, content)
        ensures c.GetSize? && c.disk == disk &&
          exists i :: 0 <= i < |content| && NeedsSizeLookup(content[i]) && c.path == Pathname(content[i])
      {
        if c !in LookupCalls(disk, init) {
          assert NeedsSizeLookup(content[|content| - 1]) && c == GetSize(disk, Pathname(last));
        }
      }
    }
  }

  /**
    The body of the `foreach`: normalise the item, look its size up again when
    the listing gave 0 for a file (a failed lookup is ignored), and format its
    line.
   */
  method ListItem(disk: string, item: Item, getSize: (string, string) -> Option<int>, date: int -> string)
    returns (line: string, calls: seq<Call>)
    ensures line == ItemLine(disk, item, getSize, date)
    ensures calls == ItemLookups(disk, item)
  {
    var basename := Basename(item);
    var pathname := Pathname(item);
    var size := ListedSize(item);
    var kind := Kind(item);
    calls := [];
    if size == 0 && kind == "file" {
      calls := [GetSize(disk, pathname)];
      var fetched := getSize(disk, pathname);
      if fetched.Some? {
        size := fetched.value;
      }
    }
    var datetime := DateText(item.timestamp, date);
    line := LineFormat(if kind == "dir" then "d" else "", size, datetime, basename);
  }

  /** The `foreach` over the listed items: one line per item, in the order listed. */
  method ListItems(disk: string, content: seq<Item>, getSize: (string, string) -> Option<int>, date: int -> string)
    returns (out: seq<Output>, calls: seq<Call>)
    ensures out == ListingLines(disk, content, getSize, date)
    ensures calls == LookupCalls(disk, content)
  {
    out, calls := [], [];
    for i := 0 to |content|
      invariant out == ListingLines(disk, content[..i], getSize, date)
      invariant calls == LookupCalls(disk, content[..i])
    {
      var line, lookups := ListItem(disk, content[i], getSize, date);
      out := out + [Info(line)];
      calls := calls + lookups;
      assert content[..i + 1][..i] == content[..i];
    }
    assert content[..|content|] == content;
  }

  // ---------------------------------------------------------------------------
  // The command

  /**
    `handle()`: the exit code (1 only when there is no disk configuration at
    all, 0 otherwise), the console output and the calls made on the disk.
   */
  method Handle(
    config: Option<DiskConfig>,
    defaultDisk: Option<string>,
    diskOption: Option<string>,
    dirOption: Option<string>,
    listContents: (string, Option<string>) -> seq<Item>,
    getSize: (string, string) -> Option<int>,
    date: int -> string)
    returns (code: int, out: seq<Output>, calls: seq<Call>)
    ensures config.None? ==> code == 1 && out == [Error(NoDisksMessage)] && calls == []
    ensures config.Some? ==> code == 0
    ensures config.Some? && SelectDisk(config.value, diskOption).NoDisk? ==>
      out == DiskTable(config.value, defaultDisk) && calls == []
    ensures config.Some? && SelectDisk(config.value, diskOption).UnknownDisk? ==>
      out == [Error(UnknownDiskMessage(diskOption.value))] + DiskTable(config.value, defaultDisk) && calls == []
    ensures config.Some? && SelectDisk(config.value, diskOption).Selected? ==>
      var disk := diskOption.value;
      var content := listContents(disk, dirOption);
      && out == ListingLines(disk, content, getSize, date)
      && calls == [ListContents(disk, dirOption)] + LookupCalls(disk, content)
  {
    if config.None? {
      return 1, [Error(NoDisksMessage)], [];
    }
    var disks := config.value;
    var selected := diskOption.GetOr("");
    out := [];
    if selected != "" && selected !in Names(disks) {
      out := out + [Error(UnknownDiskMessage(selected))];
      selected := "";
    }
    if selected == "" {
      return 0, out + DiskTable(disks, defaultDisk), [];
    }
    var content := listContents(selected, dirOption);
    var lines, lookups := ListItems(selected, content, getSize, date);
    return 0, out + lines, [ListContents(selected, dirOption)] + lookups;
  }
}
