/** migrate_config_to_settings and the DocumentingStore class as they work: reading line by line,
    inserting in place, appending to the file. */
module SettingsMigration {
  import opened Wrappers
  import opened Sequences
  import opened Lines
  import opened Settings
  import opened SettingsTheorems
  import opened Documentation
  import opened SettingsFiles

  // ---------- facts about the loops' partial results ----------

  lemma NextLine(all: seq<string>, done: seq<string>, text: string)
    requires text != "" && all == done + LinesOf(text)
    ensures all == (done + [FirstLine(text).0]) + LinesOf(FirstLine(text).1)
  {
  }

  lemma GrownByLast(lines: seq<string>, line: string)
    ensures (lines + [line])[..|lines + [line]| - 1] == lines
    ensures ExistingKeys(lines + [line]) == ExistingKeys(lines) + LineKeys(line)
    ensures Mentioned(lines + [line]) == Mentioned(lines) + LineMentions(line)
  {
    assert (lines + [line])[..|lines + [line]| - 1] == lines;
  }

  /** No other row's name starts a line that one row's name starts. */
  lemma OneRow(table: seq<Row>, line: string, r: nat)
    requires TableOk(table) && r < |table|
    ensures StartsWith(line, table[r].config + "=") <==> RowFor(table, line) == Some(r)
    ensures StartsWith(line, table[r].config + "=") ==> RestOf(line) == line[|table[r].config| + 1..]
  {
    PrefixIsKey(line, table[r].config);
  }

  lemma {:induction false} PlacedAt(lines: seq<string>, e: Entry, i: nat)
    requires i < |lines| && StartsWith(lines[i], Placeholder(e.key))
    requires forall j :: 0 <= j < i ==> !StartsWith(lines[j], Placeholder(e.key))
    ensures Place(lines, e) == lines[..i + 1] + Assignments(e.key, e.values) + lines[i + 1..]
    decreases i
  {
    var rest := lines[1..];
    if i == 0 {
      assert lines[..1] == [lines[0]];
    } else {
      assert forall j :: 0 <= j < i - 1 ==> rest[j] == lines[j + 1];
      PlacedAt(rest, e, i - 1);
      assert lines[..i + 1] == [lines[0]] + rest[..i];
      assert rest[i..] == lines[i + 1..];
    }
  }

  lemma {:induction false} NotPlaced(lines: seq<string>, e: Entry)
    requires !HasPlaceholder(lines, e.key)
    ensures Place(lines, e) == lines
  {
    if lines != [] {
      assert !StartsWith(lines[0], Placeholder(e.key));
      PlaceholderInTail(lines, e.key);
      NotPlaced(lines[1..], e);
    }
  }

  lemma AssignmentsAddNone(e: Entry, lines: seq<string>, key: string)
    requires KeyOk(e.key) && KeyOk(key)
    ensures HasPlaceholder(Assignments(e.key, e.values) + lines, key) <==> HasPlaceholder(lines, key)
  {
    var kv := Assignments(e.key, e.values);
    var all := kv + lines;
    forall i | 0 <= i < |kv| ensures !StartsWith(all[i], Placeholder(key)) {
      AssignmentIsNoPlaceholder(e.key, e.values[i], key);
    }
    if HasPlaceholder(lines, key) {
      var i :| 0 <= i < |lines| && StartsWith(lines[i], Placeholder(key));
      assert all[|kv| + i] == lines[i];
    }
    if HasPlaceholder(all, key) {
      var i :| 0 <= i < |all| && StartsWith(all[i], Placeholder(key));
      assert lines[i - |kv|] == all[i];
    }
  }

  /** Insertions create no placeholders, and remove none. */
  lemma {:induction false} PlacingKeepsPlaceholders(lines: seq<string>, e: Entry, key: string)
    requires KeyOk(e.key) && KeyOk(key)
    ensures HasPlaceholder(Place(lines, e), key) <==> HasPlaceholder(lines, key)
  {
    if lines != [] {
      PlaceholderInTail(lines, key);
      var placed := Place(lines, e);
      PlaceholderInTail(placed, key);
      if StartsWith(lines[0], Placeholder(e.key)) {
        var kv := Assignments(e.key, e.values);
        assert placed[1..] == kv + lines[1..];
        AssignmentsAddNone(e, lines[1..], key);
      } else {
        assert placed[1..] == Place(lines[1..], e);
        PlacingKeepsPlaceholders(lines[1..], e, key);
      }
    }
  }

  lemma {:induction false} OnePassMore(lines: seq<string>, m: seq<Entry>, e: Entry)
    ensures ManyPasses(lines, m + [e]) == Place(ManyPasses(lines, m), e)
    decreases |m|
  {
    if m == [] {
      assert m + [e] == [e];
      assert ManyPasses(Place(lines, e), [e][1..]) == Place(lines, e);
    } else {
      assert (m + [e])[1..] == m[1..] + [e];
      OnePassMore(Place(lines, m[0]), m[1..], e);
    }
  }

  lemma {:induction false} ManyPassesKeepPlaceholders(lines: seq<string>, m: seq<Entry>, key: string)
    requires KeyOk(key) && forall i :: 0 <= i < |m| ==> KeyOk(m[i].key)
    ensures HasPlaceholder(ManyPasses(lines, m), key) <==> HasPlaceholder(lines, key)
    decreases |m|
  {
    if m != [] {
      PlacingKeepsPlaceholders(lines, m[0], key);
      ManyPassesKeepPlaceholders(Place(lines, m[0]), m[1..], key);
    }
  }

  lemma {:induction false} UnplacedMore(lines: seq<string>, m: seq<Entry>, e: Entry)
    ensures Unplaced(lines, m + [e]) == Unplaced(lines, m) + (if HasPlaceholder(lines, e.key) then [] else [e])
    decreases |m|
  {
    if m == [] {
      assert m + [e] == [e];
      assert Unplaced(lines, [e][1..]) == [];
    } else {
      assert (m + [e])[1..] == m[1..] + [e];
      UnplacedMore(lines, m[1..], e);
    }
  }

  lemma {:induction false} AllAssignmentsMore(m: seq<Entry>, e: Entry)
    ensures AllAssignments(m + [e]) == AllAssignments(m) + Assignments(e.key, e.values)
    decreases |m|
  {
    if m == [] {
      assert m + [e] == [e];
      assert AllAssignments([e][1..]) == [];
    } else {
      assert (m + [e])[1..] == m[1..] + [e];
      AllAssignmentsMore(m[1..], e);
    }
  }

  // ---------- migration ----------

  /** Reads the settings into memory, collecting active keys. */
  method ReadSettings(text: string) returns (lines: seq<string>, existing: set<string>)
    ensures lines == LinesOf(text) && existing == ExistingKeys(lines)
  {
    lines, existing := [], {};
    var rest := text;
    while rest != ""
      invariant LinesOf(text) == lines + LinesOf(rest)
      invariant existing == ExistingKeys(lines)
      decreases |rest|
    {
      NextLine(LinesOf(text), lines, rest);
      var (line, after) := FirstLine(rest);
      GrownByLast(lines, line);
      lines := lines + [line];
      if line != "" && line[0] != '#' {
        match IndexOfChar(line, '=')
        case Some(eq) => existing := existing + {line[..eq]};
        case None =>
      }
      rest := after;
    }
  }

  /** Strips a comment, then the blanks before it. */
  method CleanValue(raw: string) returns (value: string)
    ensures value == Cleaned(raw)
  {
    value := raw;
    match IndexOfChar(value, '#') {
      case Some(comment) => value := value[..comment];
      case None =>
    }
    ghost var uncommented := value;
    while value != "" && (value[|value| - 1] == ' ' || value[|value| - 1] == '\t')
      invariant TrimRight(value) == TrimRight(uncommented)
      decreases |value|
    {
      value := value[..|value| - 1];
    }
  }

  /** What one .config line contributes, option by option. */
  method CollectOptions(table: seq<Row>, line: string, existing: set<string>, before: seq<Entry>) returns (m: seq<Entry>)
    requires TableOk(table)
    ensures m == CollectLine(table, before, line, existing)
  {
    m := before;
    for r := 0 to |table|
      invariant m == match RowFor(table, line)
                     case Some(f) => if f < r then CollectLine(table, before, line, existing) else before
                     case None => before
    {
      OneRow(table, line, r);
      if table[r].setting !in existing {
        if StartsWith(line, table[r].config + "=") {
          var value := CleanValue(line[|table[r].config| + 1..]);
          if value != "" {
            m := PushBack(m, table[r].setting, value);
          }
        }
      }
    }
  }

  /** Collects values from the .config file for keys absent from the settings. */
  method CollectValues(table: seq<Row>, config: string, existing: set<string>) returns (m: seq<Entry>)
    requires TableOk(table)
    ensures m == Collected(table, LinesOf(config), existing)
  {
    m := [];
    var rest := config;
    ghost var lines: seq<string> := [];
    while rest != ""
      invariant LinesOf(config) == lines + LinesOf(rest)
      invariant m == Collected(table, lines, existing)
      decreases |rest|
    {
      NextLine(LinesOf(config), lines, rest);
      var (line, after) := FirstLine(rest);
      GrownByLast(lines, line);
      m := CollectOptions(table, line, existing, m);
      lines := lines + [line];
      rest := after;
    }
    assert lines + [] == lines;
  }

  lemma InsertedAt(lines: seq<string>, kv: seq<string>, at: nat, j: nat)
    requires at <= |lines| && j < |kv|
    ensures var r := lines[..at] + kv[..j] + lines[at..];
            r[..at + j] + [kv[j]] + r[at + j..] == lines[..at] + kv[..j + 1] + lines[at..]
  {
    var r := lines[..at] + kv[..j] + lines[at..];
    assert r[..at + j] == lines[..at] + kv[..j];
    assert r[at + j..] == lines[at..];
    assert kv[..j + 1] == kv[..j] + [kv[j]];
  }

  /** Inserts an entry's values after its first placeholder, one by one. */
  method InsertEntry(lines: seq<string>, e: Entry) returns (result: seq<string>, inserted: bool)
    ensures result == Place(lines, e)
    ensures inserted <==> HasPlaceholder(lines, e.key)
  {
    result, inserted := lines, false;
    var placeholder := "#" + e.key + "=";
    for i := 0 to |lines|
      invariant result == lines && !inserted
      invariant forall j :: 0 <= j < i ==> !StartsWith(lines[j], placeholder)
    {
      if StartsWith(result[i], placeholder) {
        ghost var kv := Assignments(e.key, e.values);
        for j := 0 to |e.values|
          invariant result == lines[..i + 1] + kv[..j] + lines[i + 1..]
        {
          InsertedAt(lines, kv, i + 1, j);
          result := result[..i + 1 + j] + [e.key + "=" + e.values[j]] + result[i + 1 + j..];
        }
        assert kv[..|e.values|] == kv;
        PlacedAt(lines, e, i);
        inserted := true;
        return;
      }
    }
    NotPlaced(lines, e);
  }

  /** The insertions in key order, and the entries left over. */
  method InsertEntries(lines: seq<string>, m: seq<Entry>) returns (result: seq<string>, toAppend: seq<Entry>)
    requires PassOk(m)
    ensures result == OnePass(lines, m)
    ensures toAppend == Unplaced(lines, m)
  {
    result, toAppend := lines, [];
    for k := 0 to |m|
      invariant result == ManyPasses(lines, m[..k])
      invariant toAppend == Unplaced(lines, m[..k])
    {
      assert m[..k + 1] == m[..k] + [m[k]];
      OnePassMore(lines, m[..k], m[k]);
      UnplacedMore(lines, m[..k], m[k]);
      ManyPassesKeepPlaceholders(lines, m[..k], m[k].key);
      var inserted;
      result, inserted := InsertEntry(result, m[k]);
      if !inserted {
        toAppend := toAppend + [m[k]];
      }
    }
    assert m[..|m|] == m;
    ManyPassesAreOne(lines, m);
  }

  method AppendValues(lines: seq<string>, e: Entry) returns (result: seq<string>)
    ensures result == lines + Assignments(e.key, e.values)
  {
    result := lines;
    ghost var kv := Assignments(e.key, e.values);
    for j := 0 to |e.values|
      invariant result == lines + kv[..j]
    {
      OneMore(kv, j);
      Assoc(lines, kv[..j], [kv[j]]);
      result := result + [e.key + "=" + e.values[j]];
    }
    WholeSlice(kv);
  }

  method AppendEntries(lines: seq<string>, toAppend: seq<Entry>, source: string) returns (result: seq<string>)
    ensures result == lines + Appendix(toAppend, source)
  {
    result := lines;
    if toAppend != [] {
      ghost var header := ["", "# Migrated from " + source];
      result := result + [""];
      result := result + ["# Migrated from " + source];
      assert result == lines + header;
      for k := 0 to |toAppend|
        invariant result == (lines + header) + AllAssignments(toAppend[..k])
      {
        OneMore(toAppend, k);
        AllAssignmentsMore(toAppend[..k], toAppend[k]);
        Assoc(lines + header, AllAssignments(toAppend[..k]), Assignments(toAppend[k].key, toAppend[k].values));
        result := AppendValues(result, toAppend[k]);
      }
      WholeSlice(toAppend);
      Assoc(lines, header, AllAssignments(toAppend));
    }
  }

  method WriteLines(lines: seq<string>) returns (text: string)
    ensures text == Render(lines)
  {
    text := "";
    for i := 0 to |lines|
      invariant text == Render(lines[..i])
    {
      assert lines[..i + 1] == lines[..i] + [lines[i]];
      RenderAppend(lines[..i], [lines[i]]);
      assert Render([lines[i]][1..]) == "";
      text := text + lines[i] + "\n";
    }
    assert lines[..|lines|] == lines;
  }

  /** The settings file after migration; it is only rewritten if there is something to migrate. */
  method MigrateConfigToSettings(table: seq<Row>, settings: string, config: string, source: string) returns (out: string)
    requires TableOk(table)
    ensures out == MigratedFile(table, settings, config, source)
  {
    out := settings;
    var lines, existing := ReadSettings(settings);
    var toMigrate := CollectValues(table, config, existing);
    if toMigrate == [] { return; }
    CollectedPassOk(table, LinesOf(config), existing);
    var toAppend;
    lines, toAppend := InsertEntries(lines, toMigrate);
    lines := AppendEntries(lines, toAppend, source);
    out := WriteLines(lines);
  }

  // ---------- documentation ----------

  lemma RenderOne(a: string)
    ensures Render([a]) == a + "\n"
  {
    assert Render([a][1..]) == "";
  }

  lemma RenderThree(a: string, b: string, c: string)
    ensures Render([a] + [b] + [c]) == a + "\n" + (b + "\n") + (c + "\n")
  {
    RenderAppend([a] + [b], [c]);
    RenderAppend([a], [b]);
    RenderOne(a);
    RenderOne(b);
    RenderOne(c);
  }

  /** The three lines of an attribute with at most one preset, written one by one. */
  lemma ThreeLines(doc: string, kind: string, key: string, description: string, preset: Option<string>)
    ensures var text := if preset.Some? then preset.value else "";
            var r := Registration(kind, key, description, if preset.Some? then One(preset.value) else NoPreset);
            doc + ("# " + kind + ": " + description + "\n") + ("#" + key + "=" + text + "\n") + ("" + "\n")
              == doc + Render(DocLines(r))
  {
    var first := "# " + kind + ": " + description;
    var second := "#" + key + "=" + (if preset.Some? then preset.value else "");
    assert "#" + key + "=" + "" == "#" + key + "=";
    RenderThree(first, second, "");
    Assoc(doc, first + "\n", second + "\n");
    Assoc(doc, first + "\n" + (second + "\n"), "" + "\n");
  }

  function NewLines(known: set<string>, r: Registration): seq<string> {
    if r.key in known then [] else DocLines(r)
  }

  class DocumentingStore {
    var existingKeys: set<string>
    var doc: string      // the settings file, open for appending

    constructor (target: string)
      ensures existingKeys == Mentioned(LinesOf(target)) && doc == target
    {
      var keys: set<string> := {};
      var rest := target;
      ghost var lines: seq<string> := [];
      while rest != ""
        invariant LinesOf(target) == lines + LinesOf(rest)
        invariant keys == Mentioned(lines)
        decreases |rest|
      {
        NextLine(LinesOf(target), lines, rest);
        var (line, after) := FirstLine(rest);
        GrownByLast(lines, line);
        lines := lines + [line];
        rest := after;
        if line == "" { continue; }
        if line[0] != '#' {
          match IndexOfChar(line, '=')
          case Some(eq) => keys := keys + {line[..eq]};
          case None =>
        } else {
          var content := line[1..];
          match IndexOfChar(content, '=')
          case Some(eq) => keys := keys + {content[..eq]};
          case None =>
        }
      }
      assert lines + [] == lines;
      existingKeys, doc := keys, target;
    }

    /** An attribute without a preset, or with one value. */
    method AddAttribute(kind: string, key: string, description: string, preset: Option<string>)
      modifies this`doc
      ensures doc == old(doc) +
        if key in existingKeys then ""
        else Render(DocLines(Registration(kind, key, description,
                                          if preset.Some? then One(preset.value) else NoPreset)))
    {
      if key !in existingKeys {
        var text := if preset.Some? then preset.value else "";
        Append("# " + kind + ": " + description);
        Append("#" + key + "=" + text);
        Append("");
        ThreeLines(old(doc), kind, key, description, preset);
      }
    }

    method Append(line: string)
      modifies this`doc
      ensures doc == old(doc) + (line + "\n")
    {
      doc := doc + (line + "\n");
    }

    /** An attribute with a list of presets: a line for each. */
    method AddListAttribute(kind: string, key: string, description: string, presets: seq<string>)
      modifies this`doc
      ensures doc == old(doc) +
        if key in existingKeys then ""
        else Render(DocLines(Registration(kind, key, description, Several(presets))))
    {
      if key !in existingKeys {
        ghost var first, kv := "# " + kind + ": " + description, CommentedAssignments(key, presets);
        doc := doc + ("# " + kind + ": " + description + "\n");
        assert Render([first]) == first + "\n" by { assert Render([first][1..]) == ""; }
        for i := 0 to |presets|
          invariant doc == old(doc) + Render([first] + kv[..i])
        {
          assert [first] + kv[..i + 1] == ([first] + kv[..i]) + [kv[i]];
          RenderAppend([first] + kv[..i], [kv[i]]);
          assert Render([kv[i]][1..]) == "";
          doc := doc + ("#" + key + "=" + presets[i] + "\n");
        }
        assert kv[..|presets|] == kv;
        RenderAppend([first] + kv, [""]);
        assert Render([""]) == "\n" by { assert Render([""][1..]) == ""; }
        doc := doc + "\n";
      }
    }

    method Add(r: Registration)
      modifies this`doc
      ensures doc == old(doc) + Render(NewLines(existingKeys, r))
    {
      match r.presets {
        case NoPreset => AddAttribute(r.kind, r.key, r.description, None);
        case One(value) => AddAttribute(r.kind, r.key, r.description, Some(value));
        case Several(values) => AddListAttribute(r.kind, r.key, r.description, values);
      }
    }
  }

  lemma DocsGrow(text: string, known: set<string>, regs: seq<Registration>, i: nat)
    requires i < |regs|
    ensures text + Render(NewDocs(known, regs[..i + 1])) ==
              (text + Render(NewDocs(known, regs[..i]))) + Render(NewLines(known, regs[i]))
  {
    OneMore(regs, i);
    RenderAppend(NewDocs(known, regs[..i]), NewLines(known, regs[i]));
    Assoc(text, Render(NewDocs(known, regs[..i])), Render(NewLines(known, regs[i])));
  }

  /** Every attribute of the shell registered in turn with one store. */
  method DocumentAll(settings: string, regs: seq<Registration>) returns (out: string)
    ensures out == DocumentedFile(settings, regs)
  {
    var store := new DocumentingStore(settings);
    ghost var known := Mentioned(LinesOf(settings));
    assert settings + Render(NewDocs(known, regs[..0])) == settings;
    for i := 0 to |regs|
      invariant store.existingKeys == known
      invariant store.doc == settings + Render(NewDocs(known, regs[..i]))
    {
      DocsGrow(settings, known, regs, i);
      store.Add(regs[i]);
    }
    assert regs[..|regs|] == regs;
    out := store.doc;
  }
}
