/** What startup writes, said of the lines of the two files and the rows of the table alone. */
module SettingsAnswers {
  import opened Wrappers
  import opened Sequences
  import opened Lines
  import opened Settings
  import opened SettingsTheorems
  import opened Documentation

  // ---------- values ----------

  predicate Blank(c: char) {
    c == ' ' || c == '\t'
  }

  /** From position k only blanks stand before the comment or the end, at n. */
  ghost predicate EndsBlank(raw: string, k: nat, n: nat) {
    k <= n <= |raw| && (n == |raw| || raw[n] == '#') && forall i :: k <= i < n ==> Blank(raw[i])
  }

  /** `value` is what stands before a comment and the blanks in front of it, if there are any. */
  ghost predicate CleanedFrom(value: string, raw: string) {
    && value <= raw && '#' !in value && (value != "" ==> !Blank(value[|value| - 1]))
    && exists n: nat :: EndsBlank(raw, |value|, n)
  }

  lemma CleanedIs(raw: string)
    ensures CleanedFrom(Cleaned(raw), raw)
  {
    TrimmedEnd(raw);
    match IndexOfChar(raw, '#')
    case Some(n) =>
      TrimmedEnd(raw[..n]);
      assert EndsBlank(raw, |Cleaned(raw)|, n);
    case None =>
      assert EndsBlank(raw, |Cleaned(raw)|, |raw|);
  }

  lemma PrefixHas(b: string, raw: string, n: nat)
    requires b <= raw && n < |b|
    ensures b[n] == raw[n] && b[n] in b
  {
  }

  lemma CleanedNoLonger(a: string, b: string, raw: string)
    requires CleanedFrom(a, raw) && CleanedFrom(b, raw)
    ensures |b| <= |a|
  {
    var n: nat :| EndsBlank(raw, |a|, n);
    if n < |b| {
      PrefixHas(b, raw, n);
    } else if b != "" {
      PrefixHas(b, raw, |b| - 1);
    }
  }

  /** There is only one such value. */
  lemma CleanedOnce(a: string, b: string, raw: string)
    requires CleanedFrom(a, raw) && CleanedFrom(b, raw)
    ensures a == b
  {
    CleanedNoLonger(a, b, raw);
    CleanedNoLonger(b, a, raw);
  }

  // ---------- what a .config line sets ----------

  /** Row r's option is set on this line, to a value that is not empty. */
  ghost predicate SetsBy(row: Row, line: string, key: string, value: string) {
    && row.setting == key && StartsWith(line, row.config + "=")
    && value != "" && CleanedFrom(value, line[|row.config| + 1..])
  }

  ghost predicate Sets(table: seq<Row>, line: string, key: string, value: string) {
    exists r :: 0 <= r < |table| && SetsBy(table[r], line, key, value)
  }

  /** A line of the form name=value sets the key of that name to the cleaned value. */
  lemma AssignmentSets(table: seq<Row>, r: nat, raw: string, value: string)
    requires r < |table| && value != "" && CleanedFrom(value, raw)
    ensures Sets(table, table[r].config + "=" + raw, table[r].setting, value)
  {
    var line := table[r].config + "=" + raw;
    assert line[..|table[r].config| + 1] == table[r].config + "=";
    assert line[|table[r].config| + 1..] == raw;
    assert SetsBy(table[r], line, table[r].setting, value);
  }

  lemma SameRow(table: seq<Row>, line: string, r: nat, t: nat)
    requires TableOk(table) && r < |table| && t < |table|
    requires StartsWith(line, table[r].config + "=") && StartsWith(line, table[t].config + "=")
    ensures r == t
  {
    PrefixIsKey(line, table[r].config);
    PrefixIsKey(line, table[t].config);
  }

  lemma RowIs(table: seq<Row>, line: string, r: nat)
    requires TableOk(table) && r < |table|
    ensures StartsWith(line, table[r].config + "=") <==> RowFor(table, line) == Some(r)
    ensures StartsWith(line, table[r].config + "=") ==> RestOf(line) == line[|table[r].config| + 1..]
  {
    PrefixIsKey(line, table[r].config);
    match RowFor(table, line)
    case Some(t) =>
      PrefixIsKey(line, table[t].config);
      if StartsWith(line, table[r].config + "=") { SameRow(table, line, r, t); }
    case None =>
  }

  lemma SettingFinds(table: seq<Row>, line: string, key: string, value: string)
    requires TableOk(table) && Sets(table, line, key, value)
    ensures Setting(table, line) == Some((key, value))
  {
    var r :| 0 <= r < |table| && SetsBy(table[r], line, key, value);
    RowIs(table, line, r);
    CleanedIs(RestOf(line));
    CleanedOnce(value, Cleaned(RestOf(line)), RestOf(line));
  }

  lemma SettingSets(table: seq<Row>, line: string)
    requires TableOk(table) && Setting(table, line).Some?
    ensures Sets(table, line, Setting(table, line).value.0, Setting(table, line).value.1)
  {
    var r := RowFor(table, line).value;
    RowIs(table, line, r);
    CleanedIs(RestOf(line));
    assert SetsBy(table[r], line, table[r].setting, Cleaned(RestOf(line)));
  }

  /** A line sets one key to one value at most, and Setting finds it. */
  lemma SettingIs(table: seq<Row>, line: string, key: string, value: string)
    requires TableOk(table)
    ensures Sets(table, line, key, value) <==> Setting(table, line) == Some((key, value))
  {
    if Sets(table, line, key, value) { SettingFinds(table, line, key, value); }
    if Setting(table, line) == Some((key, value)) { SettingSets(table, line); }
  }

  /** The lines with indices `at` are those that set the key, and set it to these values. */
  ghost predicate SetAt(table: seq<Row>, config: seq<string>, key: string, values: seq<string>, at: seq<nat>) {
    && |at| == |values|
    && (forall j, k :: 0 <= j < k < |at| ==> at[j] < at[k])
    && (forall j :: 0 <= j < |at| ==> at[j] < |config| && Sets(table, config[at[j]], key, values[j]))
    && (forall i, v :: 0 <= i < |config| && Sets(table, config[i], key, v) ==> i in at)
  }

  lemma SetAtPassed(table: seq<Row>, before: seq<string>, line: string, key: string, values: seq<string>, at: seq<nat>)
    requires SetAt(table, before, key, values, at) && forall v :: !Sets(table, line, key, v)
    ensures SetAt(table, before + [line], key, values, at)
  {
    var config := before + [line];
    assert forall i :: 0 <= i < |before| ==> config[i] == before[i];
  }

  lemma SetAtTaken(table: seq<Row>, before: seq<string>, line: string, key: string, values: seq<string>, at: seq<nat>, v: string)
    requires SetAt(table, before, key, values, at) && Sets(table, line, key, v)
    ensures SetAt(table, before + [line], key, values + [v], at + [|before|])
  {
    var config, at' := before + [line], at + [|before|];
    assert forall i :: 0 <= i < |before| ==> config[i] == before[i];
    assert at'[|at|] == |before|;
    forall i, x | 0 <= i < |config| && Sets(table, config[i], key, x)
      ensures i in at'
    {
      if i < |before| { assert i in at; }
    }
  }

  lemma SetsNothing(table: seq<Row>, line: string, key: string)
    requires TableOk(table) && (Setting(table, line).Some? ==> Setting(table, line).value.0 != key)
    ensures forall v :: !Sets(table, line, key, v)
  {
    forall v
      ensures !Sets(table, line, key, v)
    {
      SettingIs(table, line, key, v);
    }
  }

  lemma {:induction false} ValuesAreSet(table: seq<Row>, config: seq<string>, key: string) returns (at: seq<nat>)
    requires TableOk(table)
    ensures SetAt(table, config, key, ConfigValues(table, config, key), at)
    decreases |config|
  {
    if config == [] {
      at := [];
    } else {
      var before, line := config[..|config| - 1], config[|config| - 1];
      at := ValuesAreSet(table, before, key);
      var values := ConfigValues(table, before, key);
      assert before + [line] == config;
      if Setting(table, line).Some? && Setting(table, line).value.0 == key {
        var v := Setting(table, line).value.1;
        SettingIs(table, line, key, v);
        SetAtTaken(table, before, line, key, values, at, v);
        at := at + [|before|];
      } else {
        SetsNothing(table, line, key);
        SetAtPassed(table, before, line, key, values, at);
      }
    }
  }

  /** Read-back, in terms of lines: a key without an active line in the settings ends with the
      values of exactly those .config lines that set it, in file order. */
  lemma ReadBackLines(table: seq<Row>, settings: seq<string>, config: seq<string>, source: string, key: string)
    returns (at: seq<nat>)
    requires TableOk(table) && ActiveValues(settings, key) == []
    ensures SetAt(table, config, key, ActiveValues(Migrated(table, settings, config, source), key), at)
  {
    ReadBack(table, settings, config, source, key);
    at := ValuesAreSet(table, config, key);
  }

  // ---------- where the values go ----------

  lemma HasPlaceholderCons(line: string, lines: seq<string>, key: string)
    ensures HasPlaceholder([line] + lines, key) <==> StartsWith(line, Placeholder(key)) || HasPlaceholder(lines, key)
  {
    assert ([line] + lines)[1..] == lines;
    PlaceholderInTail([line] + lines, key);
  }

  lemma UnplacedOver(line: string, lines: seq<string>, m: seq<Entry>)
    requires Hit(line, m) == None
    ensures Unplaced([line] + lines, m) == Unplaced(lines, m)
  {
    if m != [] {
      HasPlaceholderCons(line, lines, m[0].key);
      UnplacedOver(line, lines, m[1..]);
    }
  }

  lemma {:induction false} UnplacedHit(line: string, lines: seq<string>, m: seq<Entry>, k: nat)
    requires PassOk(m) && Hit(line, m) == Some(k)
    ensures Unplaced([line] + lines, m) == Unplaced(lines, m[..k] + m[k + 1..])
  {
    HitInTail(line, m);
    HasPlaceholderCons(line, lines, m[0].key);
    if k == 0 {
      NoneBefore(m);
      UnplacedOver(line, lines, m[1..]);
    } else {
      FewerHead(m, k);
      assert PassOk(m[1..]);
      UnplacedHit(line, lines, m[1..], k - 1);
    }
  }

  lemma {:induction false} UnplacedOfNothing(m: seq<Entry>)
    ensures Unplaced([], m) == m
  {
    if m != [] {
      UnplacedOfNothing(m[1..]);
    }
  }

  /** One pass over a file is a pass over its beginning and one over the rest, with the entries
      that the beginning has no placeholder for. */
  lemma {:induction false} OnePassSplits(a: seq<string>, b: seq<string>, m: seq<Entry>)
    requires PassOk(m)
    ensures OnePass(a + b, m) == OnePass(a, m) + OnePass(b, Unplaced(a, m))
    decreases |a|
  {
    if a == [] {
      assert a + b == b;
      UnplacedOfNothing(m);
    } else {
      var line, rest := a[0], a[1..];
      assert (a + b)[1..] == rest + b && a == [line] + rest;
      match Hit(line, m) {
        case None =>
          OnePassSplits(rest, b, m);
          UnplacedOver(line, rest, m);
          Assoc([line], OnePass(rest, m), OnePass(b, Unplaced(rest, m)));
        case Some(k) =>
          var fewer := m[..k] + m[k + 1..];
          FewerOk(m, k);
          OnePassSplits(rest, b, fewer);
          UnplacedHit(line, rest, m, k);
          Assoc([line] + Assignments(m[k].key, m[k].values), OnePass(rest, fewer), OnePass(b, Unplaced(rest, fewer)));
      }
    }
  }

  lemma {:induction false} EntryOf(m: seq<Entry>, key: string) returns (k: nat)
    requires ValuesIn(m, key) != []
    ensures k < |m| && m[k].key == key && m[k].values == ValuesIn(m, key)
  {
    if m[0].key == key {
      k := 0;
    } else {
      k := EntryOf(m[1..], key);
      k := k + 1;
    }
  }

  lemma HitIs(line: string, m: seq<Entry>, k: nat)
    requires PassOk(m) && k < |m| && StartsWith(line, Placeholder(m[k].key))
    ensures Hit(line, m) == Some(k)
  {
    var h := Hit(line, m);
    OnePlaceholder(line, m[k].key, m[h.value].key);
  }

  /** The values stand at position `at`, one line each. */
  predicate AssignedAt(lines: seq<string>, at: nat, key: string, values: seq<string>) {
    at + |values| <= |lines| && forall j :: 0 <= j < |values| ==> lines[at + j] == key + "=" + values[j]
  }

  lemma PassAtLine(line: string, b: seq<string>, u: seq<Entry>, key: string)
    requires PassOk(u) && StartsWith(line, Placeholder(key))
    ensures var r := OnePass([line] + b, u); r != [] && r[0] == line && AssignedAt(r, 1, key, ValuesIn(u, key))
  {
    assert ([line] + b)[1..] == b;
    if ValuesIn(u, key) != [] {
      var k := EntryOf(u, key);
      HitIs(line, u, k);
    }
  }

  lemma Behind(x: seq<string>, r: seq<string>, line: string, key: string, values: seq<string>)
    requires r != [] && r[0] == line && AssignedAt(r, 1, key, values)
    ensures var s := x + r;
            |x| < |s| && s[..|x|] == x && s[|x|] == line && AssignedAt(s, |x| + 1, key, values)
  {
  }

  lemma Before(r: seq<string>, y: seq<string>, at: nat, key: string, values: seq<string>)
    requires at < |r| && AssignedAt(r, at + 1, key, values)
    ensures AssignedAt(r + y, at + 1, key, values) && (r + y)[..at] == r[..at] && (r + y)[at] == r[at]
  {
  }

  lemma PlacedBehind(x: seq<string>, line: string, b: seq<string>, u: seq<Entry>, a: seq<string>, m: seq<Entry>, key: string)
    requires PassOk(m) && u == Unplaced(a, m) && StartsWith(line, Placeholder(key)) && !HasPlaceholder(a, key)
    ensures var r := x + OnePass([line] + b, u);
            |x| < |r| && r[..|x|] == x && r[|x|] == line && AssignedAt(r, |x| + 1, key, ValuesIn(m, key))
  {
    UnplacedOk(a, m);
    ValuesOfUnplaced(a, m, key);
    PassAtLine(line, b, u, key);
    Behind(x, OnePass([line] + b, u), line, key, ValuesIn(m, key));
  }

  lemma OnePassPlaces(a: seq<string>, line: string, b: seq<string>, m: seq<Entry>, key: string)
    requires PassOk(m) && StartsWith(line, Placeholder(key)) && !HasPlaceholder(a, key)
    ensures var r := OnePass(a + ([line] + b), m);
            var at := |OnePass(a, m)|;
            && at < |r| && r[..at] == OnePass(a, m) && r[at] == line
            && AssignedAt(r, at + 1, key, ValuesIn(m, key))
  {
    OnePassSplits(a, [line] + b, m);
    PlacedBehind(OnePass(a, m), line, b, Unplaced(a, m), a, m, key);
  }

  /** What is collected for a key without an active line, and what it ends with. */
  lemma CollectedFor(table: seq<Row>, settings: seq<string>, config: seq<string>, source: string, key: string)
    requires TableOk(table) && ActiveValues(settings, key) == []
    ensures var m := Collected(table, config, ExistingKeys(settings));
            && PassOk(m) && Sorted(m) && ValuesIn(m, key) == ConfigValues(table, config, key)
            && ActiveValues(Migrated(table, settings, config, source), key) == ConfigValues(table, config, key)
  {
    CollectedPassOk(table, config, ExistingKeys(settings));
    CollectedIs(table, config, ExistingKeys(settings), key);
    ExistingIsActive(settings, key);
    ReadBack(table, settings, config, source, key);
  }

  lemma OriginalsPlaced(lines: seq<string>, m: seq<Entry>)
    ensures Subsequence(lines, OnePass(lines, m))
  {
    OriginalsRemain(lines, m, []);
    assert OnePass(lines, m) + [] == OnePass(lines, m);
  }

  lemma PlacedInFile(settings: seq<string>, m: seq<Entry>, more: seq<string>, key: string, i: nat) returns (at: nat)
    requires PassOk(m) && i < |settings| && StartsWith(settings[i], Placeholder(key))
    requires !HasPlaceholder(settings[..i], key)
    ensures var r := OnePass(settings, m) + more;
            && at < |r| && r[at] == settings[i] && Subsequence(settings[..i], r[..at])
            && AssignedAt(r, at + 1, key, ValuesIn(m, key))
  {
    var a, b := settings[..i], settings[i + 1..];
    assert settings == a + ([settings[i]] + b);
    OnePassPlaces(a, settings[i], b, m, key);
    at := |OnePass(a, m)|;
    OriginalsPlaced(a, m);
    Before(OnePass(settings, m), more, at, key, ValuesIn(m, key));
  }

  /** A key without an active line but with a placeholder ends with its values directly behind
      the first placeholder, which follows what stood before it. */
  lemma ValuesFollowPlaceholder(table: seq<Row>, settings: seq<string>, config: seq<string>, source: string,
                                key: string, i: nat) returns (at: nat)
    requires TableOk(table) && ActiveValues(settings, key) == []
    requires i < |settings| && StartsWith(settings[i], "#" + key + "=")
    requires forall j :: 0 <= j < i ==> !StartsWith(settings[j], "#" + key + "=")
    ensures var r := Migrated(table, settings, config, source);
            && at < |r| && r[at] == settings[i] && Subsequence(settings[..i], r[..at])
            && AssignedAt(r, at + 1, key, ActiveValues(r, key))
  {
    CollectedFor(table, settings, config, source, key);
    var m := Collected(table, config, ExistingKeys(settings));
    at := PlacedInFile(settings, m, Appendix(Unplaced(settings, m), source), key, i);
  }

  // ---------- the block at the end ----------

  lemma {:induction false} UnplacedSorted(lines: seq<string>, m: seq<Entry>)
    requires Sorted(m)
    ensures Sorted(Unplaced(lines, m))
  {
    if m != [] {
      SortedTail(m);
      UnplacedSorted(lines, m[1..]);
      UnplacedAreEntries(lines, m[1..]);
      var u := Unplaced(lines, m[1..]);
      if u != [] {
        assert u[0] in m[1..];
        var j :| 0 <= j < |m[1..]| && m[1..][j] == u[0];
        assert Less(m[0].key, m[j + 1].key);
        SortedCons(m[0], u);
      } else {
        SortedCons(m[0], []);
      }
    }
  }

  /** Lines that assign to keys before `key`. */
  ghost predicate AssignBefore(lines: seq<string>, key: string) {
    forall i :: 0 <= i < |lines| ==> KeyOf(lines[i]).Some? && Less(KeyOf(lines[i]).value, key)
  }

  lemma AssignmentsBefore(e: Entry, key: string)
    requires KeyOk(e.key) && Less(e.key, key)
    ensures AssignBefore(Assignments(e.key, e.values), key)
  {
    forall i | 0 <= i < |e.values|
      ensures KeyOf(e.key + "=" + e.values[i]) == Some(e.key)
    {
      KeyOfAssignment(e.key, e.values[i]);
    }
  }

  lemma {:induction false} AllAssignedAt(m: seq<Entry>, k: nat) returns (at: nat)
    requires PassOk(m) && Sorted(m) && k < |m|
    ensures var all := AllAssignments(m);
            at <= |all| && AssignBefore(all[..at], m[k].key) && AssignedAt(all, at, m[k].key, m[k].values)
    decreases k
  {
    var first, rest := Assignments(m[0].key, m[0].values), AllAssignments(m[1..]);
    if k == 0 {
      at := 0;
    } else {
      SortedTail(m);
      assert PassOk(m[1..]);
      at := AllAssignedAt(m[1..], k - 1);
      assert m[1..][k - 1] == m[k];
      AssignmentsBefore(m[0], m[k].key);
      assert (first + rest)[..|first| + at] == first + rest[..at];
      at := |first| + at;
    }
  }

  /** A block is headed at `head`, and a key's values stand in it at `at`, in the order of keys. */
  ghost predicate BlockAt(lines: seq<string>, head: nat, at: nat, source: string, key: string, values: seq<string>) {
    && head + 2 <= at <= |lines| && lines[head] == "" && lines[head + 1] == "# Migrated from " + source
    && AssignBefore(lines[head + 2..at], key) && AssignedAt(lines, at, key, values)
  }

  lemma BlockIs(u: seq<Entry>, source: string)
    requires u != []
    ensures Appendix(u, source) == ["", "# Migrated from " + source] + AllAssignments(u)
  {
  }

  lemma InBlock(placed: seq<string>, all: seq<string>, tail: seq<string>, source: string, p: nat, key: string, values: seq<string>)
    requires tail == ["", "# Migrated from " + source] + all
    requires p <= |all| && AssignBefore(all[..p], key) && AssignedAt(all, p, key, values)
    ensures BlockAt(placed + tail, |placed|, |placed| + 2 + p, source, key, values) && (placed + tail)[..|placed|] == placed
  {
    var r := placed + tail;
    assert r[|placed| + 2..|placed| + 2 + p] == all[..p];
  }

  /** What is left for the block, and where in it a key's values stand. */
  lemma LeftForBlock(settings: seq<string>, m: seq<Entry>, key: string) returns (p: nat)
    requires PassOk(m) && Sorted(m) && !HasPlaceholder(settings, key) && ValuesIn(m, key) != []
    ensures var u := Unplaced(settings, m);
            && u != [] && p <= |AllAssignments(u)|
            && AssignBefore(AllAssignments(u)[..p], key) && AssignedAt(AllAssignments(u), p, key, ValuesIn(m, key))
  {
    var u := Unplaced(settings, m);
    UnplacedOk(settings, m);
    UnplacedSorted(settings, m);
    ValuesOfUnplaced(settings, m, key);
    var k := EntryOf(u, key);
    p := AllAssignedAt(u, k);
  }

  lemma BlockOf(settings: seq<string>, placed: seq<string>, u: seq<Entry>, source: string, p: nat, key: string, values: seq<string>)
    returns (head: nat, at: nat)
    requires u != [] && Subsequence(settings, placed) && p <= |AllAssignments(u)|
    requires AssignBefore(AllAssignments(u)[..p], key) && AssignedAt(AllAssignments(u), p, key, values)
    ensures BlockAt(placed + Appendix(u, source), head, at, source, key, values)
    ensures Subsequence(settings, (placed + Appendix(u, source))[..head])
  {
    BlockIs(u, source);
    InBlock(placed, AllAssignments(u), Appendix(u, source), source, p, key, values);
    head, at := |placed|, |placed| + 2 + p;
  }

  lemma BlockInFile(settings: seq<string>, m: seq<Entry>, placed: seq<string>, u: seq<Entry>, source: string, key: string)
    returns (head: nat, at: nat)
    requires PassOk(m) && Sorted(m) && !HasPlaceholder(settings, key) && ValuesIn(m, key) != []
    requires placed == OnePass(settings, m) && u == Unplaced(settings, m)
    ensures BlockAt(placed + Appendix(u, source), head, at, source, key, ValuesIn(m, key))
    ensures Subsequence(settings, (placed + Appendix(u, source))[..head])
  {
    var p := LeftForBlock(settings, m, key);
    OriginalsPlaced(settings, m);
    head, at := BlockOf(settings, placed, u, source, p, key, ValuesIn(m, key));
  }

  /** A key without an active line and without a placeholder that the .config file has values for
      ends with them in the one block at the end, which is headed by a blank line and the name of
      that file and is in the order of keys. */
  lemma ValuesAreAppended(table: seq<Row>, settings: seq<string>, config: seq<string>, source: string, key: string)
    returns (head: nat, at: nat)
    requires TableOk(table) && ActiveValues(settings, key) == [] && !HasPlaceholder(settings, key)
    requires ActiveValues(Migrated(table, settings, config, source), key) != []
    ensures var r := Migrated(table, settings, config, source);
            BlockAt(r, head, at, source, key, ActiveValues(r, key)) && Subsequence(settings, r[..head])
  {
    CollectedFor(table, settings, config, source, key);
    var m := Collected(table, config, ExistingKeys(settings));
    head, at := BlockInFile(settings, m, OnePass(settings, m), Unplaced(settings, m), source, key);
  }

  /** Order of keys: that of their first difference, a prefix coming first. */
  lemma {:induction false} LessIs(a: string, b: string, n: nat)
    requires n <= |a| && n <= |b| && a[..n] == b[..n] && (n < |a| && n < |b| ==> a[n] != b[n])
    ensures Less(a, b) <==> n < |b| && (n == |a| || a[n] < b[n])
    decreases n
  {
    if n > 0 {
      assert a[..n][0] == b[..n][0] && a[..n][1..] == a[1..][..n - 1] && b[..n][1..] == b[1..][..n - 1];
      LessIs(a[1..], b[1..], n - 1);
    }
  }

  // ---------- what documentation writes ----------

  /** The lines of one registration stand at position `at`. */
  ghost predicate DocumentedAt(lines: seq<string>, at: nat, r: Registration) {
    && at < |lines| && lines[at] == "# " + r.kind + ": " + r.description
    && match r.presets
       case NoPreset => at + 3 <= |lines| && lines[at + 1] == "#" + r.key + "=" && lines[at + 2] == ""
       case One(value) => at + 3 <= |lines| && lines[at + 1] == "#" + r.key + "=" + value && lines[at + 2] == ""
       case Several(values) =>
         && at + |values| + 2 <= |lines| && lines[at + |values| + 1] == ""
         && forall j :: 0 <= j < |values| ==> lines[at + 1 + j] == "#" + r.key + "=" + values[j]
  }

  lemma DocLinesAt(r: Registration, before: seq<string>, after: seq<string>)
    ensures DocumentedAt(before + DocLines(r) + after, |before|, r)
  {
    var docs := DocLines(r);
    var all := before + docs + after;
    assert forall j :: 0 <= j < |docs| ==> all[|before| + j] == docs[j];
    match r.presets
    case NoPreset => assert docs[1] == "#" + r.key + "=" && docs[2] == "";
    case One(value) => assert docs[1] == "#" + r.key + "=" + value && docs[2] == "";
    case Several(values) =>
      assert docs[|values| + 1] == "";
      assert forall j :: 0 <= j < |values| ==> docs[1 + j] == "#" + r.key + "=" + values[j];
  }

  lemma NewDocsLast(known: set<string>, regs: seq<Registration>, n: nat)
    requires |regs| == n + 1
    ensures NewDocs(known, regs) == NewDocs(known, regs[..n]) + (if regs[n].key in known then [] else DocLines(regs[n]))
  {
  }

  lemma Nothing(a: seq<string>)
    ensures a + [] == a
  {
  }

  /** Position of the i-th registration among the new documentation. */
  lemma {:induction false} NewDocsAt(known: set<string>, regs: seq<Registration>, i: nat) returns (before: seq<string>, after: seq<string>)
    requires i < |regs| && regs[i].key !in known
    ensures NewDocs(known, regs) == before + DocLines(regs[i]) + after
    ensures before == NewDocs(known, regs[..i])
    decreases |regs|
  {
    var n := |regs| - 1;
    NewDocsLast(known, regs, n);
    if i == n {
      before, after := NewDocs(known, regs[..n]), [];
      Nothing(before + DocLines(regs[n]));
    } else {
      var later;
      before, later := NewDocsAt(known, regs[..n], i);
      assert regs[..n][..i] == regs[..i] && regs[..n][i] == regs[i];
      var last := if regs[n].key in known then [] else DocLines(regs[n]);
      after := later + last;
      Assoc(before + DocLines(regs[i]), later, last);
    }
  }

  lemma FourParts(a: seq<string>, b: seq<string>, c: seq<string>, d: seq<string>)
    ensures a + (b + c + d) == (a + b) + c + d && a <= (a + b) + c + d
  {
  }

  /** Every attribute that the settings do not mention is documented behind them, after the
      attributes registered before it. */
  lemma UnmentionedIsDocumented(lines: seq<string>, regs: seq<Registration>, i: nat) returns (at: nat)
    requires i < |regs| && regs[i].key !in Mentioned(lines)
    ensures lines <= Documented(lines, regs) && DocumentedAt(Documented(lines, regs), at, regs[i])
    ensures at == |Documented(lines, regs[..i])|
  {
    var before, after := NewDocsAt(Mentioned(lines), regs, i);
    at := |lines + before|;
    DocLinesAt(regs[i], lines + before, after);
    FourParts(lines, before, DocLines(regs[i]), after);
  }

  /** The others are not: nothing is written for them. */
  lemma MentionedIsNotDocumented(lines: seq<string>, regs: seq<Registration>)
    ensures Documented(lines, regs) == lines <==> forall i :: 0 <= i < |regs| ==> regs[i].key in Mentioned(lines)
  {
    NothingNew(Mentioned(lines), regs);
    assert |Documented(lines, regs)| == |lines| + |NewDocs(Mentioned(lines), regs)|;
  }

  /** A startup leaves the migrated lines first, and documents behind them every attribute that
      was neither mentioned by the settings nor set by the .config file. */
  lemma StartupDocumentsLast(table: seq<Row>, lines: seq<string>, config: seq<string>, source: string,
                             regs: seq<Registration>, i: nat) returns (at: nat)
    requires TableOk(table) && RegistrationsOk(regs) && i < |regs|
    requires regs[i].key !in Mentioned(lines) && ConfigValues(table, config, regs[i].key) == []
    ensures var migrated, once := Migrated(table, lines, config, source), Startup(table, lines, config, source, regs);
            migrated <= once && |migrated| <= at && DocumentedAt(once, at, regs[i])
  {
    MigratedMentions(table, lines, config, source, regs[i].key);
    at := UnmentionedIsDocumented(Migrated(table, lines, config, source), regs, i);
  }
}
