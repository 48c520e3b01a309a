/** Migration of options from the .config file to the .settings file, as functions, and what
    it does to the values a reader of the settings finds (migrate_config_to_settings). */
module Settings {
  import opened Wrappers
  import opened Lines

  /** One option: its name in the .config file, its key in the .settings file. */
  datatype Row = Row(config: string, setting: string)

  /** Keys contain no `=`, and a line that assigns to one is not a comment. */
  predicate KeyOk(key: string) {
    '=' !in key && (key == "" || key[0] != '#')
  }

  /** What migration needs of the table of options. */
  ghost predicate TableOk(table: seq<Row>) {
    && (forall r :: 0 <= r < |table| ==> '=' !in table[r].config && KeyOk(table[r].setting))
    && (forall r, t :: 0 <= r < t < |table| ==> table[r].config != table[t].config)
  }

  // ---------- std::map<std::string, std::vector<std::string>> ----------

  datatype Entry = Entry(key: string, values: seq<string>)

  predicate Less(a: string, b: string) {
    if b == "" then false
    else if a == "" then true
    else a[0] < b[0] || (a[0] == b[0] && Less(a[1..], b[1..]))
  }

  ghost predicate Sorted(m: seq<Entry>) {
    forall i, j :: 0 <= i < j < |m| ==> Less(m[i].key, m[j].key)
  }

  ghost predicate DistinctKeys(m: seq<Entry>) {
    forall i, j :: 0 <= i < j < |m| ==> m[i].key != m[j].key
  }

  /** m[key].push_back(value), the map being kept in key order. */
  function PushBack(m: seq<Entry>, key: string, value: string): (r: seq<Entry>)
    ensures |r| > 0
  {
    if m == [] then [Entry(key, [value])]
    else if m[0].key == key then [Entry(key, m[0].values + [value])] + m[1..]
    else if Less(key, m[0].key) then [Entry(key, [value])] + m
    else [m[0]] + PushBack(m[1..], key, value)
  }

  function ValuesIn(m: seq<Entry>, key: string): seq<string> {
    if m == [] then [] else if m[0].key == key then m[0].values else ValuesIn(m[1..], key)
  }

  // ---------- reading the two files ----------

  function LineKeys(line: string): set<string> {
    if Active(line) && KeyOf(line).Some? then {KeyOf(line).value} else {}
  }

  /** Keys with an active line. */
  function ExistingKeys(lines: seq<string>): set<string> {
    if lines == [] then {}
    else ExistingKeys(lines[..|lines| - 1]) + LineKeys(lines[|lines| - 1])
  }

  function TrimRight(s: string): string {
    if s == "" then "" else if s[|s| - 1] == ' ' || s[|s| - 1] == '\t' then TrimRight(s[..|s| - 1]) else s
  }

  /** A .config value without its comment and the blanks before it. */
  function Cleaned(raw: string): string {
    match IndexOfChar(raw, '#')
    case Some(comment) => TrimRight(raw[..comment])
    case None => TrimRight(raw)
  }

  /** The option a .config line sets, if any. */
  function RowFor(table: seq<Row>, line: string): (r: Option<nat>)
    ensures r.Some? ==> r.value < |table| && KeyOf(line) == Some(table[r.value].config)
    ensures r.None? ==> forall i :: 0 <= i < |table| ==> KeyOf(line) != Some(table[i].config)
  {
    if table == [] then None
    else if KeyOf(line) == Some(table[0].config) then Some(0)
    else match RowFor(table[1..], line)
         case Some(i) => Some(i + 1)
         case None => None
  }

  /** The setting and value a .config line stands for. */
  function Setting(table: seq<Row>, line: string): Option<(string, string)> {
    match RowFor(table, line)
    case None => None
    case Some(r) =>
      var value := Cleaned(RestOf(line));
      if value == "" then None else Some((table[r].setting, value))
  }

  /** All values the .config file gives a setting, through any of its names, in file order. */
  function ConfigValues(table: seq<Row>, config: seq<string>, key: string): seq<string> {
    if config == [] then []
    else
      var before := ConfigValues(table, config[..|config| - 1], key);
      match Setting(table, config[|config| - 1])
      case Some((k, v)) => if k == key then before + [v] else before
      case None => before
  }

  function CollectLine(table: seq<Row>, m: seq<Entry>, line: string, existing: set<string>): seq<Entry> {
    match Setting(table, line)
    case Some((k, v)) => if k in existing then m else PushBack(m, k, v)
    case None => m
  }

  /** to_migrate */
  function Collected(table: seq<Row>, config: seq<string>, existing: set<string>): seq<Entry> {
    if config == [] then []
    else CollectLine(table, Collected(table, config[..|config| - 1], existing), config[|config| - 1], existing)
  }

  // ---------- insertion ----------

  function Placeholder(key: string): string {
    "#" + key + "="
  }

  function Assignments(key: string, values: seq<string>): (r: seq<string>)
    ensures |r| == |values| && forall i :: 0 <= i < |r| ==> r[i] == key + "=" + values[i]
  {
    seq(|values|, i requires 0 <= i < |values| => key + "=" + values[i])
  }

  /** The entry whose placeholder a line is, if any. */
  function Hit(line: string, m: seq<Entry>): (k: Option<nat>)
    ensures k.Some? ==> k.value < |m| && StartsWith(line, Placeholder(m[k.value].key))
    ensures k.None? ==> forall i :: 0 <= i < |m| ==> !StartsWith(line, Placeholder(m[i].key))
  {
    if m == [] then None
    else if StartsWith(line, Placeholder(m[0].key)) then Some(0)
    else match Hit(line, m[1..])
         case Some(i) => Some(i + 1)
         case None => None
  }

  /** One pass over the original lines: each is followed by the values of the entry whose first
      placeholder it is. */
  function OnePass(lines: seq<string>, m: seq<Entry>): seq<string> {
    if lines == [] then []
    else match Hit(lines[0], m)
         case None => [lines[0]] + OnePass(lines[1..], m)
         case Some(k) => [lines[0]] + Assignments(m[k].key, m[k].values) + OnePass(lines[1..], m[..k] + m[k + 1..])
  }

  predicate HasPlaceholder(lines: seq<string>, key: string) {
    exists i :: 0 <= i < |lines| && StartsWith(lines[i], Placeholder(key))
  }

  /** to_append: the entries without a placeholder. */
  function Unplaced(lines: seq<string>, m: seq<Entry>): seq<Entry> {
    if m == [] then []
    else if HasPlaceholder(lines, m[0].key) then Unplaced(lines, m[1..])
    else [m[0]] + Unplaced(lines, m[1..])
  }

  function AllAssignments(m: seq<Entry>): seq<string> {
    if m == [] then [] else Assignments(m[0].key, m[0].values) + AllAssignments(m[1..])
  }

  function Appendix(m: seq<Entry>, source: string): seq<string> {
    if m == [] then [] else ["", "# Migrated from " + source] + AllAssignments(m)
  }

  /** The settings lines after migration from a file named `source`. */
  function Migrated(table: seq<Row>, settings: seq<string>, config: seq<string>, source: string): seq<string> {
    var m := Collected(table, config, ExistingKeys(settings));
    OnePass(settings, m) + Appendix(Unplaced(settings, m), source)
  }
}
