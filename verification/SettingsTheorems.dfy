/** What migration promises: the in-place insertions amount to one pass, and a reader finds
    every key's old values, or else exactly those of the .config file. */
module SettingsTheorems {
  import opened Wrappers
  import opened Sequences
  import opened Lines
  import opened Settings

  // ---------- the sorted map ----------

  lemma {:induction false} LessIsStrict(a: string, b: string)
    ensures !Less(a, a)
    ensures Less(a, b) ==> a != b && !Less(b, a)
    ensures a == b || Less(a, b) || Less(b, a)
    decreases |a|
  {
    if a != "" {
      LessIsStrict(a[1..], if b == "" then "" else b[1..]);
      if b != "" && a[0] == b[0] {
        assert a == [a[0]] + a[1..] && b == [b[0]] + b[1..];
      }
    }
  }

  lemma {:induction false} LessTransitive(a: string, b: string, c: string)
    requires Less(a, b) && Less(b, c)
    ensures Less(a, c)
  {
    if a != "" && a[0] == b[0] && b[0] == c[0] {
      LessTransitive(a[1..], b[1..], c[1..]);
    }
  }

  lemma SortedIsDistinct(m: seq<Entry>)
    requires Sorted(m)
    ensures DistinctKeys(m)
  {
    forall i, j | 0 <= i < j < |m| ensures m[i].key != m[j].key {
      LessIsStrict(m[i].key, m[j].key);
    }
  }

  lemma SortedCons(e: Entry, m: seq<Entry>)
    requires Sorted(m) && (m != [] ==> Less(e.key, m[0].key))
    ensures Sorted([e] + m)
  {
    var r := [e] + m;
    forall i, j | 0 <= i < j < |r| ensures Less(r[i].key, r[j].key) {
      if i == 0 && j > 1 {
        LessTransitive(e.key, m[0].key, m[j - 1].key);
      }
    }
  }

  lemma SortedTail(m: seq<Entry>)
    requires Sorted(m) && m != []
    ensures Sorted(m[1..]) && (m[1..] != [] ==> Less(m[0].key, m[1..][0].key))
  {
  }

  lemma {:induction false} PushBackSorts(m: seq<Entry>, key: string, value: string)
    requires Sorted(m)
    ensures Sorted(PushBack(m, key, value))
    ensures var k := PushBack(m, key, value)[0].key; k == key || (m != [] && k == m[0].key)
  {
    if m != [] {
      SortedTail(m);
      if m[0].key == key {
        SortedCons(Entry(key, m[0].values + [value]), m[1..]);
      } else if Less(key, m[0].key) {
        SortedCons(Entry(key, [value]), m);
      } else {
        LessIsStrict(key, m[0].key);
        PushBackSorts(m[1..], key, value);
        SortedCons(m[0], PushBack(m[1..], key, value));
      }
    }
  }

  lemma {:induction false} AbsentBelow(m: seq<Entry>, key: string)
    requires Sorted(m) && (m != [] ==> Less(key, m[0].key))
    ensures ValuesIn(m, key) == []
  {
    if m != [] {
      LessIsStrict(key, m[0].key);
      SortedTail(m);
      if m[1..] != [] { LessTransitive(key, m[0].key, m[1].key); }
      AbsentBelow(m[1..], key);
    }
  }

  lemma {:induction false} PushBackValues(m: seq<Entry>, key: string, value: string, k: string)
    requires Sorted(m)
    ensures ValuesIn(PushBack(m, key, value), k) == ValuesIn(m, k) + (if k == key then [value] else [])
  {
    if m != [] {
      SortedTail(m);
      var r := PushBack(m, key, value);
      if m[0].key == key {
        assert r[1..] == m[1..];
      } else if Less(key, m[0].key) {
        assert r[1..] == m;
        AbsentBelow(m, key);
      } else {
        assert r[1..] == PushBack(m[1..], key, value);
        PushBackValues(m[1..], key, value, k);
      }
    }
  }

  /** Entries of the map: usable keys that had no active line, each with a value. */
  ghost predicate EntriesOk(m: seq<Entry>, existing: set<string>) {
    forall i :: 0 <= i < |m| ==> KeyOk(m[i].key) && m[i].key !in existing && m[i].values != []
  }

  lemma {:induction false} PushBackEntries(m: seq<Entry>, key: string, value: string, existing: set<string>)
    requires EntriesOk(m, existing) && KeyOk(key) && key !in existing
    ensures EntriesOk(PushBack(m, key, value), existing)
  {
    if m != [] {
      assert EntriesOk(m[1..], existing);
      PushBackEntries(m[1..], key, value, existing);
    }
  }

  /** The map holds, for every key without an active line, the values the .config file gives it. */
  lemma {:induction false} CollectedIs(table: seq<Row>, config: seq<string>, existing: set<string>, key: string)
    requires TableOk(table)
    ensures var m := Collected(table, config, existing);
            && Sorted(m) && EntriesOk(m, existing)
            && ValuesIn(m, key) == if key in existing then [] else ConfigValues(table, config, key)
    decreases |config|
  {
    if config != [] {
      var before, line := config[..|config| - 1], config[|config| - 1];
      CollectedIs(table, before, existing, key);
      var m := Collected(table, before, existing);
      match Setting(table, line)
      case Some((k, v)) =>
        if k !in existing {
          PushBackSorts(m, k, v);
          PushBackValues(m, k, v, key);
          PushBackEntries(m, k, v, existing);
        }
      case None =>
    }
  }

  // ---------- many passes are one ----------

  /** Insertion of one entry's values after the first line that is its placeholder. */
  function Place(lines: seq<string>, e: Entry): seq<string> {
    if lines == [] then []
    else if StartsWith(lines[0], Placeholder(e.key)) then
      [lines[0]] + Assignments(e.key, e.values) + lines[1..]
    else [lines[0]] + Place(lines[1..], e)
  }

  /** The entries one after the other, each into what the previous ones left. */
  function ManyPasses(lines: seq<string>, m: seq<Entry>): seq<string>
    decreases |m|
  {
    if m == [] then lines else ManyPasses(Place(lines, m[0]), m[1..])
  }

  lemma PlaceholderIsKey(line: string, key: string)
    requires KeyOk(key)
    ensures StartsWith(line, Placeholder(key)) <==> line != "" && line[0] == '#' && KeyOf(line[1..]) == Some(key)
  {
    if line != "" {
      PrefixIsKey(line[1..], key);
      assert Placeholder(key) == ['#'] + (key + "=");
      if |Placeholder(key)| <= |line| {
        assert line[..|Placeholder(key)|] == [line[0]] + line[1..][..|key| + 1];
        assert line[..|Placeholder(key)|][1..] == line[1..][..|key| + 1];
        assert Placeholder(key)[1..] == key + "=";
      }
    }
  }

  /** No line is the placeholder of two keys. */
  lemma OnePlaceholder(line: string, a: string, b: string)
    requires KeyOk(a) && KeyOk(b)
    requires StartsWith(line, Placeholder(a)) && StartsWith(line, Placeholder(b))
    ensures a == b
  {
    PlaceholderIsKey(line, a);
    PlaceholderIsKey(line, b);
  }

  /** No inserted line is a placeholder. */
  lemma AssignmentIsNoPlaceholder(key: string, value: string, other: string)
    requires KeyOk(key) && KeyOk(other)
    ensures !StartsWith(key + "=" + value, Placeholder(other))
  {
    PlaceholderIsKey(key + "=" + value, other);
  }

  ghost predicate PassOk(m: seq<Entry>) {
    DistinctKeys(m) && forall i :: 0 <= i < |m| ==> KeyOk(m[i].key)
  }

  lemma {:induction false} OnePassOfNothing(lines: seq<string>)
    ensures OnePass(lines, []) == lines
  {
    if lines != [] {
      OnePassOfNothing(lines[1..]);
    }
  }

  lemma {:induction false} OnePassSkips(inserted: seq<string>, lines: seq<string>, m: seq<Entry>)
    requires forall i :: 0 <= i < |inserted| ==> Hit(inserted[i], m) == None
    ensures OnePass(inserted + lines, m) == inserted + OnePass(lines, m)
  {
    if inserted == [] {
      assert inserted + lines == lines;
    } else {
      assert (inserted + lines)[1..] == inserted[1..] + lines;
      OnePassSkips(inserted[1..], lines, m);
    }
  }

  lemma AssignmentsAreSkipped(e: Entry, m: seq<Entry>)
    requires KeyOk(e.key) && forall i :: 0 <= i < |m| ==> KeyOk(m[i].key)
    ensures forall i :: 0 <= i < |Assignments(e.key, e.values)| ==> Hit(Assignments(e.key, e.values)[i], m) == None
  {
    forall i | 0 <= i < |e.values| ensures Hit(e.key + "=" + e.values[i], m) == None {
      var h := Hit(e.key + "=" + e.values[i], m);
      if h.Some? {
        AssignmentIsNoPlaceholder(e.key, e.values[i], m[h.value].key);
      }
    }
  }

  /** Where a line finds its entry once the first entry is out of the way. */
  lemma HitInTail(line: string, m: seq<Entry>)
    requires m != [] && PassOk(m)
    ensures match Hit(line, m)
            case None => Hit(line, m[1..]) == None && !StartsWith(line, Placeholder(m[0].key))
            case Some(k) => if k == 0 then Hit(line, m[1..]) == None && StartsWith(line, Placeholder(m[0].key))
                            else Hit(line, m[1..]) == Some(k - 1) && !StartsWith(line, Placeholder(m[0].key))
  {
    if StartsWith(line, Placeholder(m[0].key)) {
      var h := Hit(line, m[1..]);
      if h.Some? {
        OnePlaceholder(line, m[0].key, m[1..][h.value].key);
      }
    }
  }

  /** The first line is no placeholder. */
  lemma PassesOver(lines: seq<string>, m: seq<Entry>)
    requires lines != [] && m != [] && Hit(lines[0], m) == None && Hit(lines[0], m[1..]) == None
    requires !StartsWith(lines[0], Placeholder(m[0].key))
    requires OnePass(Place(lines[1..], m[0]), m[1..]) == OnePass(lines[1..], m)
    ensures OnePass(Place(lines, m[0]), m[1..]) == OnePass(lines, m)
  {
    assert Place(lines, m[0])[1..] == Place(lines[1..], m[0]);
  }

  lemma PlaceFirst(lines: seq<string>, e: Entry)
    requires lines != [] && StartsWith(lines[0], Placeholder(e.key))
    ensures Place(lines, e) == [lines[0]] + (Assignments(e.key, e.values) + lines[1..])
  {
  }

  /** A line that is no placeholder is passed by. */
  lemma OnePassOver(line: string, rest: seq<string>, m: seq<Entry>)
    requires Hit(line, m) == None
    ensures OnePass([line] + rest, m) == [line] + OnePass(rest, m)
  {
    assert ([line] + rest)[1..] == rest;
  }

  lemma NoneBefore(m: seq<Entry>)
    requires m != []
    ensures m[..0] + m[0 + 1..] == m[1..]
  {
  }

  lemma OnePassFirst(lines: seq<string>, m: seq<Entry>)
    requires lines != [] && m != [] && Hit(lines[0], m) == Some(0)
    ensures OnePass(lines, m) == [lines[0]] + Assignments(m[0].key, m[0].values) + OnePass(lines[1..], m[1..])
  {
    NoneBefore(m);
  }

  /** The first line is the first entry's placeholder. */
  lemma PassesFirst(lines: seq<string>, m: seq<Entry>)
    requires lines != [] && m != [] && PassOk(m) && Hit(lines[0], m) == Some(0) && Hit(lines[0], m[1..]) == None
    ensures OnePass(Place(lines, m[0]), m[1..]) == OnePass(lines, m)
  {
    var kv := Assignments(m[0].key, m[0].values);
    PlaceFirst(lines, m[0]);
    AssignmentsAreSkipped(m[0], m[1..]);
    OnePassSkips(kv, lines[1..], m[1..]);
    OnePassOver(lines[0], kv + lines[1..], m[1..]);
    OnePassFirst(lines, m);
    Assoc([lines[0]], kv, OnePass(lines[1..], m[1..]));
  }

  lemma FewerOk(m: seq<Entry>, k: nat)
    requires PassOk(m) && k < |m|
    ensures PassOk(m[..k] + m[k + 1..])
  {
    var fewer := m[..k] + m[k + 1..];
    assert forall i :: 0 <= i < |fewer| ==> fewer[i] == m[if i < k then i else i + 1];
  }

  lemma FewerHead(m: seq<Entry>, k: nat)
    requires 0 < k < |m|
    ensures var fewer := m[..k] + m[k + 1..];
            fewer[0] == m[0] && fewer[1..] == m[1..][..k - 1] + m[1..][k - 1 + 1..] && m[1..][k - 1] == m[k]
  {
  }

  /** The first line is another entry's placeholder. */
  lemma PassesLater(lines: seq<string>, m: seq<Entry>, k: nat)
    requires lines != [] && 0 < k < |m| && Hit(lines[0], m) == Some(k) && Hit(lines[0], m[1..]) == Some(k - 1)
    requires !StartsWith(lines[0], Placeholder(m[0].key)) && m[1..][k - 1] == m[k]
    requires OnePass(Place(lines[1..], m[0]), m[1..][..k - 1] + m[1..][k - 1 + 1..])
               == OnePass(lines[1..], m[..k] + m[k + 1..])
    ensures OnePass(Place(lines, m[0]), m[1..]) == OnePass(lines, m)
  {
    assert Place(lines, m[0])[1..] == Place(lines[1..], m[0]);
  }

  /** Placing the first entry and then passing once with the others. */
  lemma {:induction false} PlaceThenPass(lines: seq<string>, m: seq<Entry>)
    requires m != [] && PassOk(m)
    ensures OnePass(Place(lines, m[0]), m[1..]) == OnePass(lines, m)
    decreases |lines|
  {
    if lines != [] {
      HitInTail(lines[0], m);
      match Hit(lines[0], m)
      case None =>
        PlaceThenPass(lines[1..], m);
        PassesOver(lines, m);
      case Some(k) =>
        if k == 0 {
          PassesFirst(lines, m);
        } else {
          FewerOk(m, k);
          FewerHead(m, k);
          PlaceThenPass(lines[1..], m[..k] + m[k + 1..]);
          PassesLater(lines, m, k);
        }
    }
  }

  /** The insertions, each into the lines the earlier ones left, amount to one pass over the
      original lines. */
  lemma {:induction false} ManyPassesAreOne(lines: seq<string>, m: seq<Entry>)
    requires PassOk(m)
    ensures ManyPasses(lines, m) == OnePass(lines, m)
    decreases |m|
  {
    if m == [] {
      OnePassOfNothing(lines);
    } else {
      PlaceThenPass(lines, m);
      assert PassOk(m[1..]);
      ManyPassesAreOne(Place(lines, m[0]), m[1..]);
    }
  }

  // ---------- what a reader of the result finds ----------

  lemma {:induction false} ValuesInAt(m: seq<Entry>, i: nat)
    requires DistinctKeys(m) && i < |m|
    ensures ValuesIn(m, m[i].key) == m[i].values
  {
    if i > 0 {
      assert m[0].key != m[i].key && m[1..][i - 1] == m[i];
      ValuesInAt(m[1..], i - 1);
    }
  }

  lemma {:induction false} AbsentValues(m: seq<Entry>, key: string)
    requires forall i :: 0 <= i < |m| ==> m[i].key != key
    ensures ValuesIn(m, key) == []
  {
    if m != [] {
      AbsentValues(m[1..], key);
    }
  }

  lemma {:induction false} ValuesOfFewer(m: seq<Entry>, k: nat, key: string)
    requires DistinctKeys(m) && k < |m|
    ensures ValuesIn(m[..k] + m[k + 1..], key) == if key == m[k].key then [] else ValuesIn(m, key)
  {
    var fewer := m[..k] + m[k + 1..];
    if k == 0 {
      assert fewer == m[1..];
      if key == m[0].key { AbsentValues(fewer, key); }
    } else {
      assert fewer[1..] == m[1..][..k - 1] + m[1..][k..];
      ValuesOfFewer(m[1..], k - 1, key);
    }
  }

  lemma {:induction false} ValuesOfAssignments(key: string, values: seq<string>, k: string)
    requires KeyOk(key)
    ensures ActiveValues(Assignments(key, values), k) == if k == key then values else []
    decreases |values|
  {
    if values != [] {
      var kv := Assignments(key, values);
      assert kv[1..] == Assignments(key, values[1..]);
      KeyOfAssignment(key, values[0]);
      ValuesOfAssignments(key, values[1..], k);
      assert [values[0]] + values[1..] == values;
    }
  }

  lemma {:induction false} ValuesOfAll(m: seq<Entry>, k: string)
    requires PassOk(m)
    ensures ActiveValues(AllAssignments(m), k) == ValuesIn(m, k)
  {
    if m != [] {
      ValuesAppend(Assignments(m[0].key, m[0].values), AllAssignments(m[1..]), k);
      ValuesOfAssignments(m[0].key, m[0].values, k);
      ValuesOfAll(m[1..], k);
      if k == m[0].key {
        AbsentValues(m[1..], k);
      }
    }
  }

  lemma {:induction false} UnplacedAreEntries(lines: seq<string>, m: seq<Entry>)
    ensures forall i :: 0 <= i < |Unplaced(lines, m)| ==> Unplaced(lines, m)[i] in m
  {
    if m != [] {
      UnplacedAreEntries(lines, m[1..]);
    }
  }

  lemma {:induction false} UnplacedOk(lines: seq<string>, m: seq<Entry>)
    requires PassOk(m)
    ensures PassOk(Unplaced(lines, m))
  {
    if m != [] {
      assert PassOk(m[1..]);
      UnplacedOk(lines, m[1..]);
      UnplacedAreEntries(lines, m[1..]);
      var u := Unplaced(lines, m[1..]);
      forall i | 0 <= i < |u| ensures u[i].key != m[0].key {
        assert u[i] in m[1..];
      }
    }
  }

  lemma {:induction false} ValuesOfUnplaced(lines: seq<string>, m: seq<Entry>, k: string)
    requires PassOk(m)
    ensures ValuesIn(Unplaced(lines, m), k) == if HasPlaceholder(lines, k) then [] else ValuesIn(m, k)
  {
    if m != [] {
      assert PassOk(m[1..]);
      ValuesOfUnplaced(lines, m[1..], k);
      if k == m[0].key {
        AbsentValues(m[1..], k);
      } else {
        assert !HasPlaceholder(lines, m[0].key) ==> Unplaced(lines, m)[1..] == Unplaced(lines, m[1..]);
      }
    }
  }

  lemma ValuesOfAppendix(m: seq<Entry>, source: string, k: string)
    requires PassOk(m)
    ensures ActiveValues(Appendix(m, source), k) == ValuesIn(m, k)
  {
    if m != [] {
      var header := ["", "# Migrated from " + source];
      ValuesAppend(header, AllAssignments(m), k);
      ValuesOfAll(m, k);
      assert header[1..][1..] == [];
      assert ActiveValues(header[1..], k) == [];
    }
  }

  lemma PlaceholderInTail(lines: seq<string>, k: string)
    requires lines != []
    ensures HasPlaceholder(lines, k) <==> StartsWith(lines[0], Placeholder(k)) || HasPlaceholder(lines[1..], k)
  {
    if HasPlaceholder(lines[1..], k) {
      var i :| 0 <= i < |lines[1..]| && StartsWith(lines[1..][i], Placeholder(k));
      assert lines[i + 1] == lines[1..][i];
    }
    if HasPlaceholder(lines, k) && !StartsWith(lines[0], Placeholder(k)) {
      var i :| 0 <= i < |lines| && StartsWith(lines[i], Placeholder(k));
      assert lines[1..][i - 1] == lines[i];
    }
  }

  lemma KeyOfValues(m: seq<Entry>, k: string) returns (i: nat)
    requires ValuesIn(m, k) != []
    ensures i < |m| && m[i].key == k
  {
    if m[0].key == k {
      i := 0;
    } else {
      i := KeyOfValues(m[1..], k);
      i := i + 1;
    }
  }

  lemma NotHitNotPlaceholder(line: string, m: seq<Entry>, k: string)
    requires Hit(line, m) == None && ValuesIn(m, k) != []
    ensures !StartsWith(line, Placeholder(k))
  {
    var i := KeyOfValues(m, k);
  }

  lemma ValuesOfHit(line: string, e: Entry, rest: seq<string>, k: string)
    requires KeyOk(e.key) && !Active(line)
    ensures ActiveValues([line] + Assignments(e.key, e.values) + rest, k) ==
              (if k == e.key then e.values else []) + ActiveValues(rest, k)
  {
    var kv := Assignments(e.key, e.values);
    assert ([line] + kv + rest)[1..] == kv + rest;
    ValuesAppend(kv, rest, k);
    ValuesOfAssignments(e.key, e.values, k);
  }

  lemma OtherPlaceholder(line: string, m: seq<Entry>, i: nat, k: string)
    requires PassOk(m) && i < |m| && StartsWith(line, Placeholder(m[i].key))
    requires k != m[i].key && ValuesIn(m, k) != []
    ensures !StartsWith(line, Placeholder(k))
  {
    var j := KeyOfValues(m, k);
    if StartsWith(line, Placeholder(k)) {
      OnePlaceholder(line, m[i].key, k);
    }
  }

  lemma {:induction false} ValuesOfOnePass(lines: seq<string>, m: seq<Entry>, k: string)
    requires PassOk(m)
    ensures ValuesIn(m, k) == [] || ActiveValues(lines, k) == [] ==>
              ActiveValues(OnePass(lines, m), k) ==
              ActiveValues(lines, k) + (if HasPlaceholder(lines, k) then ValuesIn(m, k) else [])
    decreases |lines|
  {
    if lines != [] && (ValuesIn(m, k) == [] || ActiveValues(lines, k) == []) {
      var line, rest := lines[0], lines[1..];
      PlaceholderInTail(lines, k);
      match Hit(line, m)
      case None =>
        ValuesOfOnePass(rest, m, k);
        if ValuesIn(m, k) != [] {
          NotHitNotPlaceholder(line, m, k);
        }
      case Some(i) =>
        var e, fewer := m[i], m[..i] + m[i + 1..];
        FewerOk(m, i);
        ValuesOfFewer(m, i, k);
        ValuesInAt(m, i);
        PlaceholderIsKey(line, e.key);
        ValuesOfOnePass(rest, fewer, k);
        ValuesOfHit(line, e, OnePass(rest, fewer), k);
        if k != e.key && ValuesIn(m, k) != [] {
          OtherPlaceholder(line, m, i, k);
        }
    }
  }

  lemma {:induction false} ExistingIsActive(lines: seq<string>, key: string)
    ensures key in ExistingKeys(lines) <==> ActiveValues(lines, key) != []
    decreases |lines|
  {
    if lines != [] {
      var before, last := lines[..|lines| - 1], lines[|lines| - 1];
      assert lines == before + [last];
      ExistingIsActive(before, key);
      ValuesAppend(before, [last], key);
      assert [last][1..] == [];
    }
  }

  lemma CollectedPassOk(table: seq<Row>, config: seq<string>, existing: set<string>)
    requires TableOk(table)
    ensures PassOk(Collected(table, config, existing))
  {
    CollectedIs(table, config, existing, "");
    SortedIsDistinct(Collected(table, config, existing));
  }

  /** Entries for keys without an active line add exactly their values. */
  lemma ValuesOfInsertion(lines: seq<string>, m: seq<Entry>, source: string, key: string)
    requires PassOk(m) && (ValuesIn(m, key) == [] || ActiveValues(lines, key) == [])
    ensures ActiveValues(OnePass(lines, m) + Appendix(Unplaced(lines, m), source), key)
              == ActiveValues(lines, key) + ValuesIn(m, key)
  {
    UnplacedOk(lines, m);
    ValuesOfOnePass(lines, m, key);
    ValuesOfUnplaced(lines, m, key);
    ValuesOfAppendix(Unplaced(lines, m), source, key);
    ValuesAppend(OnePass(lines, m), Appendix(Unplaced(lines, m), source), key);
  }

  lemma {:induction false} NoRowNoValues(table: seq<Row>, config: seq<string>, key: string)
    requires forall r :: 0 <= r < |table| ==> table[r].setting != key
    ensures ConfigValues(table, config, key) == []
    decreases |config|
  {
    if config != [] {
      NoRowNoValues(table, config[..|config| - 1], key);
    }
  }

  /** Read-back: of every key, active lines of the migrated settings give the values they gave
      before, if there were any, and otherwise all values of the .config file, in file order and
      through whichever of its names. Keys that are in no table row are unchanged. */
  lemma ReadBack(table: seq<Row>, settings: seq<string>, config: seq<string>, source: string, key: string)
    requires TableOk(table)
    ensures ActiveValues(Migrated(table, settings, config, source), key) ==
              if ActiveValues(settings, key) != [] then ActiveValues(settings, key)
              else ConfigValues(table, config, key)
    ensures (forall r :: 0 <= r < |table| ==> table[r].setting != key) ==>
              ActiveValues(Migrated(table, settings, config, source), key) == ActiveValues(settings, key)
  {
    var existing := ExistingKeys(settings);
    CollectedIs(table, config, existing, key);
    CollectedPassOk(table, config, existing);
    ExistingIsActive(settings, key);
    ValuesOfInsertion(settings, Collected(table, config, existing), source, key);
    if forall r :: 0 <= r < |table| ==> table[r].setting != key {
      NoRowNoValues(table, config, key);
    }
  }

  lemma {:induction false} TrimmedEnd(s: string)
    ensures var t := TrimRight(s);
            t <= s && (t != "" ==> t[|t| - 1] != ' ' && t[|t| - 1] != '\t')
            && (forall i :: |t| <= i < |s| ==> s[i] == ' ' || s[i] == '\t')
    decreases |s|
  {
    if s != "" && (s[|s| - 1] == ' ' || s[|s| - 1] == '\t') {
      TrimmedEnd(s[..|s| - 1]);
    }
  }

  /** A value found in the .config file is not empty, carries no comment and ends in no blank. */
  lemma {:induction false} ValuesAreClean(table: seq<Row>, config: seq<string>, key: string)
    ensures forall v :: v in ConfigValues(table, config, key) ==>
              v != "" && '#' !in v && v[|v| - 1] != ' ' && v[|v| - 1] != '\t'
    decreases |config|
  {
    if config != [] {
      ValuesAreClean(table, config[..|config| - 1], key);
      var raw := RestOf(config[|config| - 1]);
      TrimmedEnd(raw);
      match IndexOfChar(raw, '#')
      case Some(i) => TrimmedEnd(raw[..i]);
      case None =>
    }
  }

  // ---------- the original lines ----------

  ghost predicate Subsequence(a: seq<string>, b: seq<string>)
    decreases |b|
  {
    if a == [] then true
    else if b == [] then false
    else (a[0] == b[0] && Subsequence(a[1..], b[1..])) || Subsequence(a, b[1..])
  }

  lemma {:induction false} SubsequenceAfter(a: seq<string>, before: seq<string>, b: seq<string>)
    requires Subsequence(a, b)
    ensures Subsequence(a, before + b)
    decreases |before|
  {
    if before == [] {
      assert before + b == b;
    } else {
      assert (before + b)[1..] == before[1..] + b;
      SubsequenceAfter(a, before[1..], b);
    }
  }

  lemma HeadKept(lines: seq<string>, b: seq<string>)
    requires lines != [] && Subsequence(lines[1..], b)
    ensures Subsequence(lines, [lines[0]] + b)
  {
    assert ([lines[0]] + b)[1..] == b;
  }

  lemma Regroup(x: string, kv: seq<string>, tail: seq<string>, more: seq<string>)
    ensures [x] + (kv + (tail + more)) == ([x] + kv + tail) + more
  {
  }

  lemma {:induction false} OriginalsRemain(lines: seq<string>, m: seq<Entry>, more: seq<string>)
    ensures Subsequence(lines, OnePass(lines, m) + more)
    decreases |lines|
  {
    if lines != [] {
      var rest := lines[1..];
      match Hit(lines[0], m)
      case None =>
        OriginalsRemain(rest, m, more);
        Assoc([lines[0]], OnePass(rest, m), more);
        HeadKept(lines, OnePass(rest, m) + more);
      case Some(k) =>
        var kv, fewer := Assignments(m[k].key, m[k].values), m[..k] + m[k + 1..];
        var tail := OnePass(rest, fewer);
        OriginalsRemain(rest, fewer, more);
        SubsequenceAfter(rest, kv, tail + more);
        HeadKept(lines, kv + (tail + more));
        Regroup(lines[0], kv, tail, more);
    }
  }

  lemma MigrationKeepsLines(table: seq<Row>, settings: seq<string>, config: seq<string>, source: string)
    ensures Subsequence(settings, Migrated(table, settings, config, source))
  {
    var m := Collected(table, config, ExistingKeys(settings));
    OriginalsRemain(settings, m, Appendix(Unplaced(settings, m), source));
  }

  lemma NothingCollected(table: seq<Row>, settings: seq<string>, config: seq<string>)
    requires TableOk(table)
    requires forall key :: ConfigValues(table, config, key) != [] ==> ActiveValues(settings, key) != []
    ensures Collected(table, config, ExistingKeys(settings)) == []
  {
    var existing := ExistingKeys(settings);
    var m := Collected(table, config, existing);
    CollectedPassOk(table, config, existing);
    if m != [] {
      CollectedIs(table, config, existing, m[0].key);
      ValuesInAt(m, 0);
      ExistingIsActive(settings, m[0].key);
    }
  }

  /** Migration does nothing to settings in which every key the .config file sets is active. */
  lemma NothingToMigrate(table: seq<Row>, settings: seq<string>, config: seq<string>, source: string)
    requires TableOk(table)
    requires forall key :: ConfigValues(table, config, key) != [] ==> ActiveValues(settings, key) != []
    ensures Migrated(table, settings, config, source) == settings
  {
    NothingCollected(table, settings, config);
    OnePassOfNothing(settings);
  }
}
