/** The self-documenting pass over the settings file, and why a second startup changes nothing
    (DocumentingStore, after migrate_config_to_settings). */
module Documentation {
  import opened Wrappers
  import opened Lines
  import opened Settings
  import opened SettingsTheorems

  datatype Presets = NoPreset | One(value: string) | Several(values: seq<string>)

  /** One add_..._attribute call: the type tag, the key, its description and presets as text. */
  datatype Registration = Registration(kind: string, key: string, description: string, presets: Presets)

  /** Keys the settings mention, active or commented out. */
  function LineMentions(line: string): set<string> {
    if line == "" then {}
    else
      var content := if line[0] != '#' then line else line[1..];
      match KeyOf(content)
      case Some(key) => {key}
      case None => {}
  }

  function Mentioned(lines: seq<string>): set<string> {
    if lines == [] then {} else Mentioned(lines[..|lines| - 1]) + LineMentions(lines[|lines| - 1])
  }

  function CommentedAssignments(key: string, values: seq<string>): (r: seq<string>)
    ensures |r| == |values| && forall i :: 0 <= i < |r| ==> r[i] == "#" + key + "=" + values[i]
  {
    seq(|values|, i requires 0 <= i < |values| => "#" + key + "=" + values[i])
  }

  /** The lines written for a key that the settings do not mention. */
  function DocLines(r: Registration): seq<string> {
    ["# " + r.kind + ": " + r.description]
    + (match r.presets
       case NoPreset => ["#" + r.key + "="]
       case One(value) => ["#" + r.key + "=" + value]
       case Several(values) => CommentedAssignments(r.key, values))
    + [""]
  }

  /** The scan happens once, when the store opens the file; registrations only append. */
  function NewDocs(known: set<string>, regs: seq<Registration>): seq<string> {
    if regs == [] then []
    else NewDocs(known, regs[..|regs| - 1])
         + (if regs[|regs| - 1].key in known then [] else DocLines(regs[|regs| - 1]))
  }

  function Documented(lines: seq<string>, regs: seq<Registration>): seq<string> {
    lines + NewDocs(Mentioned(lines), regs)
  }

  // ---------- what documentation leaves alone, and what it makes known ----------

  lemma {:induction false} MentionedAppend(a: seq<string>, b: seq<string>)
    ensures Mentioned(a + b) == Mentioned(a) + Mentioned(b)
    decreases |b|
  {
    if b == [] {
      assert a + b == a;
    } else {
      assert (a + b)[..|a + b| - 1] == a + b[..|b| - 1];
      MentionedAppend(a, b[..|b| - 1]);
    }
  }

  lemma {:induction false} MentionedIn(lines: seq<string>, i: nat)
    requires i < |lines|
    ensures LineMentions(lines[i]) <= Mentioned(lines)
    decreases |lines|
  {
    if i < |lines| - 1 {
      MentionedIn(lines[..|lines| - 1], i);
    }
  }

  lemma {:induction false} MentionedBy(lines: seq<string>, key: string)
    requires key in Mentioned(lines)
    ensures exists i :: 0 <= i < |lines| && key in LineMentions(lines[i])
    decreases |lines|
  {
    var before := lines[..|lines| - 1];
    if key in Mentioned(before) {
      MentionedBy(before, key);
      var i :| 0 <= i < |before| && key in LineMentions(before[i]);
      assert key in LineMentions(lines[i]);
    } else {
      assert key in LineMentions(lines[|lines| - 1]);
    }
  }

  /** Every line of documentation is a comment or blank, so no active value changes. */
  lemma DocLinesAreInactive(r: Registration)
    ensures forall i :: 0 <= i < |DocLines(r)| ==> !Active(DocLines(r)[i])
  {
  }

  lemma {:induction false} InactiveHaveNoValues(lines: seq<string>, key: string)
    requires forall i :: 0 <= i < |lines| ==> !Active(lines[i])
    ensures ActiveValues(lines, key) == []
  {
    if lines != [] {
      InactiveHaveNoValues(lines[1..], key);
    }
  }

  lemma {:induction false} DocsAreInactive(known: set<string>, regs: seq<Registration>)
    ensures forall i :: 0 <= i < |NewDocs(known, regs)| ==> !Active(NewDocs(known, regs)[i])
    decreases |regs|
  {
    if regs != [] {
      DocsAreInactive(known, regs[..|regs| - 1]);
      DocLinesAreInactive(regs[|regs| - 1]);
    }
  }

  lemma DocumentationKeepsValues(lines: seq<string>, regs: seq<Registration>, key: string)
    ensures ActiveValues(Documented(lines, regs), key) == ActiveValues(lines, key)
  {
    var docs := NewDocs(Mentioned(lines), regs);
    DocsAreInactive(Mentioned(lines), regs);
    InactiveHaveNoValues(docs, key);
    ValuesAppend(lines, docs, key);
  }

  /** Keys as live_config writes them: they contain no `=` and do not begin with a blank. */
  predicate PlainKey(key: string) {
    '=' !in key && (key == "" || key[0] != ' ')
  }

  lemma CommentMentions(key: string, value: string)
    requires '=' !in key
    ensures LineMentions("#" + key + "=" + value) == {key}
  {
    var line := "#" + key + "=" + value;
    assert line[1..] == key + "=" + value;
    KeyOfAssignment(key, value);
  }

  /** A registration's lines mention its key, unless it has an empty list of presets. */
  lemma DocLinesMention(r: Registration)
    requires '=' !in r.key
    ensures r.presets != Several([]) ==> r.key in Mentioned(DocLines(r))
  {
    var docs := DocLines(r);
    match r.presets
    case NoPreset =>
      assert docs[1] == "#" + r.key + "=" + "";
      CommentMentions(r.key, "");
      MentionedIn(docs, 1);
    case One(value) =>
      CommentMentions(r.key, value);
      MentionedIn(docs, 1);
    case Several(values) =>
      if values != [] {
        assert docs[1] == "#" + r.key + "=" + values[0];
        CommentMentions(r.key, values[0]);
        MentionedIn(docs, 1);
      }
  }

  lemma DescriptionMentions(r: Registration, key: string)
    requires key in LineMentions("# " + r.kind + ": " + r.description)
    ensures !PlainKey(key)
  {
    var line := "# " + r.kind + ": " + r.description;
    assert line[1] == ' ' && line[1..][0] == ' ';
    var eq := IndexOfChar(line[1..], '=').value;
    assert key == line[1..][..eq];
    assert eq > 0 && key[0] == ' ';
  }

  /** They mention no other plain key: what a description seems to assign begins with a blank. */
  lemma DocLinesMentionOnly(r: Registration, key: string)
    requires PlainKey(r.key) && PlainKey(key) && key in Mentioned(DocLines(r))
    ensures key == r.key && r.presets != Several([])
  {
    var docs := DocLines(r);
    MentionedBy(docs, key);
    var i :| 0 <= i < |docs| && key in LineMentions(docs[i]);
    if i == 0 {
      DescriptionMentions(r, key);
    } else if i < |docs| - 1 {
      match r.presets
      case NoPreset =>
        assert docs[i] == "#" + r.key + "=" + "";
        CommentMentions(r.key, "");
      case One(value) => CommentMentions(r.key, value);
      case Several(values) =>
        assert docs[i] == "#" + r.key + "=" + values[i - 1];
        CommentMentions(r.key, values[i - 1]);
    }
  }

  lemma {:induction false} DocsMention(known: set<string>, regs: seq<Registration>, i: nat)
    requires i < |regs| && '=' !in regs[i].key
    requires regs[i].key !in known && regs[i].presets != Several([])
    ensures regs[i].key in Mentioned(NewDocs(known, regs))
    decreases |regs|
  {
    var before, last := regs[..|regs| - 1], regs[|regs| - 1];
    MentionedAppend(NewDocs(known, before), if last.key in known then [] else DocLines(last));
    if i < |regs| - 1 {
      DocsMention(known, before, i);
    } else {
      DocLinesMention(last);
    }
  }

  lemma {:induction false} DocsMentionOnly(known: set<string>, regs: seq<Registration>, key: string)
    requires PlainKey(key) && forall i :: 0 <= i < |regs| ==> PlainKey(regs[i].key)
    requires key in Mentioned(NewDocs(known, regs))
    ensures exists i :: 0 <= i < |regs| && regs[i].key == key && regs[i].presets != Several([])
    decreases |regs|
  {
    var before, last := regs[..|regs| - 1], regs[|regs| - 1];
    var more := if last.key in known then [] else DocLines(last);
    MentionedAppend(NewDocs(known, before), more);
    if key in Mentioned(NewDocs(known, before)) {
      DocsMentionOnly(known, before, key);
      var i :| 0 <= i < |before| && before[i].key == key && before[i].presets != Several([]);
      assert regs[i] == before[i];
    } else {
      DocLinesMentionOnly(last, key);
      assert regs[|regs| - 1].key == key;
    }
  }

  lemma {:induction false} NothingNew(known: set<string>, regs: seq<Registration>)
    ensures NewDocs(known, regs) == [] <==> forall i :: 0 <= i < |regs| ==> regs[i].key in known
    decreases |regs|
  {
    if regs != [] {
      NothingNew(known, regs[..|regs| - 1]);
    }
  }

  // ---------- documenting twice ----------

  ghost predicate RegistrationsOk(regs: seq<Registration>) {
    && (forall i :: 0 <= i < |regs| ==> PlainKey(regs[i].key))
    && (forall i, j :: 0 <= i < j < |regs| ==> regs[i].key != regs[j].key)
  }

  /** An attribute with an empty preset list that the settings do not mention. */
  ghost predicate Undocumentable(lines: seq<string>, regs: seq<Registration>, i: nat)
    requires i < |regs|
  {
    regs[i].presets == Several([]) && regs[i].key !in Mentioned(lines)
  }

  /** Documenting twice is documenting once, exactly if every empty preset list belongs to a
      key that the settings already mention: for any other one no key line is ever written,
      and its description is appended anew at each startup. */
  lemma DocumentingIsIdempotentIff(lines: seq<string>, regs: seq<Registration>)
    requires RegistrationsOk(regs)
    ensures Documented(Documented(lines, regs), regs) == Documented(lines, regs) <==>
              forall i :: 0 <= i < |regs| ==> !Undocumentable(lines, regs, i)
  {
    var known := Mentioned(lines);
    var docs := NewDocs(known, regs);
    var known' := Mentioned(Documented(lines, regs));
    MentionedAppend(lines, docs);
    NothingNew(known', regs);
    forall i | 0 <= i < |regs|
      ensures regs[i].key in known' <==> !Undocumentable(lines, regs, i)
    {
      if Undocumentable(lines, regs, i) {
        if regs[i].key in Mentioned(docs) {
          DocsMentionOnly(known, regs, regs[i].key);
        }
      } else if regs[i].key !in known {
        DocsMention(known, regs, i);
      }
    }
    assert |Documented(Documented(lines, regs), regs)| == |Documented(lines, regs)| + |NewDocs(known', regs)|;
  }

  // ---------- which keys the migrated settings mention ----------

  /** A line that migration writes for one of these entries. */
  ghost predicate Written(line: string, m: seq<Entry>) {
    exists i, j :: 0 <= i < |m| && 0 <= j < |m[i].values| && line == m[i].key + "=" + m[i].values[j]
  }

  lemma WrittenForMore(line: string, m: seq<Entry>, n: seq<Entry>)
    requires Written(line, m) && forall e :: e in m ==> e in n
    ensures Written(line, n)
  {
    var i, j :| 0 <= i < |m| && 0 <= j < |m[i].values| && line == m[i].key + "=" + m[i].values[j];
    assert m[i] in n;
    var k :| 0 <= k < |n| && n[k] == m[i];
    assert line == n[k].key + "=" + n[k].values[j];
  }

  lemma AssignmentsAreWritten(m: seq<Entry>, k: nat, line: string)
    requires k < |m| && line in Assignments(m[k].key, m[k].values)
    ensures Written(line, m)
  {
    var kv := Assignments(m[k].key, m[k].values);
    var j :| 0 <= j < |kv| && kv[j] == line;
    assert line == m[k].key + "=" + m[k].values[j];
  }

  /** The lines of one pass are the original ones and those written. */
  lemma {:induction false} OnePassOrigin(lines: seq<string>, m: seq<Entry>, line: string)
    requires line in OnePass(lines, m)
    ensures line in lines || Written(line, m)
    decreases |lines|
  {
    match Hit(lines[0], m)
    case None =>
      if line != lines[0] { OnePassOrigin(lines[1..], m, line); }
    case Some(k) =>
      var fewer := m[..k] + m[k + 1..];
      if line in Assignments(m[k].key, m[k].values) {
        AssignmentsAreWritten(m, k, line);
      } else if line != lines[0] {
        OnePassOrigin(lines[1..], fewer, line);
        if Written(line, fewer) { WrittenForMore(line, fewer, m); }
      }
  }

  lemma {:induction false} AllAreWritten(m: seq<Entry>, line: string)
    requires line in AllAssignments(m)
    ensures Written(line, m)
  {
    if line in Assignments(m[0].key, m[0].values) {
      AssignmentsAreWritten(m, 0, line);
    } else {
      AllAreWritten(m[1..], line);
      WrittenForMore(line, m[1..], m);
    }
  }

  lemma MigratedOrigin(table: seq<Row>, lines: seq<string>, config: seq<string>, source: string, line: string)
    requires line in Migrated(table, lines, config, source)
    ensures var m := Collected(table, config, ExistingKeys(lines));
            line in lines || Written(line, m) || line == "" || line == "# Migrated from " + source
  {
    var m := Collected(table, config, ExistingKeys(lines));
    var u := Unplaced(lines, m);
    if line in OnePass(lines, m) {
      OnePassOrigin(lines, m, line);
    } else if line in AllAssignments(u) {
      AllAreWritten(u, line);
      UnplacedAreEntries(lines, m);
      WrittenForMore(line, u, m);
    }
  }

  lemma HeaderMentions(source: string, key: string)
    requires key in LineMentions("# Migrated from " + source)
    ensures !PlainKey(key)
  {
    var line := "# Migrated from " + source;
    assert line[1] == ' ' && line[1..][0] == ' ';
    var eq := IndexOfChar(line[1..], '=').value;
    assert key == line[1..][..eq] && eq > 0 && key[0] == ' ';
  }

  lemma WrittenMentions(table: seq<Row>, config: seq<string>, existing: set<string>, line: string, key: string)
    requires TableOk(table)
    requires Written(line, Collected(table, config, existing)) && key in LineMentions(line)
    ensures ConfigValues(table, config, key) != []
  {
    var m := Collected(table, config, existing);
    var i, j :| 0 <= i < |m| && 0 <= j < |m[i].values| && line == m[i].key + "=" + m[i].values[j];
    CollectedIs(table, config, existing, m[i].key);
    SortedIsDistinct(m);
    ValuesInAt(m, i);
    KeyOfAssignment(m[i].key, m[i].values[j]);
  }

  lemma {:induction false} SubsequenceHas(a: seq<string>, b: seq<string>, line: string)
    requires Subsequence(a, b) && line in a
    ensures line in b
    decreases |b|
  {
    if a[0] == b[0] && Subsequence(a[1..], b[1..]) {
      if line != a[0] { SubsequenceHas(a[1..], b[1..], line); }
    } else {
      SubsequenceHas(a, b[1..], line);
    }
  }

  lemma {:induction false} ActiveIsMentioned(lines: seq<string>, key: string)
    requires ActiveValues(lines, key) != []
    ensures key in Mentioned(lines)
  {
    if Active(lines[0]) && KeyOf(lines[0]) == Some(key) {
      MentionedIn(lines, 0);
    } else {
      ActiveIsMentioned(lines[1..], key);
      assert lines == [lines[0]] + lines[1..];
      MentionedAppend([lines[0]], lines[1..]);
    }
  }

  lemma MentionedStays(table: seq<Row>, lines: seq<string>, config: seq<string>, source: string, key: string)
    requires TableOk(table)
    requires key in Mentioned(lines) || ConfigValues(table, config, key) != []
    ensures key in Mentioned(Migrated(table, lines, config, source))
  {
    var migrated := Migrated(table, lines, config, source);
    if key in Mentioned(lines) {
      MentionedBy(lines, key);
      var i :| 0 <= i < |lines| && key in LineMentions(lines[i]);
      MigrationKeepsLines(table, lines, config, source);
      SubsequenceHas(lines, migrated, lines[i]);
      var j :| 0 <= j < |migrated| && migrated[j] == lines[i];
      MentionedIn(migrated, j);
    } else {
      ReadBack(table, lines, config, source, key);
      ActiveIsMentioned(migrated, key);
    }
  }

  lemma MentionedNowhereElse(table: seq<Row>, lines: seq<string>, config: seq<string>, source: string,
                             line: string, key: string)
    requires TableOk(table) && PlainKey(key)
    requires line in Migrated(table, lines, config, source) && key in LineMentions(line)
    ensures key in Mentioned(lines) || ConfigValues(table, config, key) != []
  {
    MigratedOrigin(table, lines, config, source, line);
    if line in lines {
      var j :| 0 <= j < |lines| && lines[j] == line;
      MentionedIn(lines, j);
    } else if Written(line, Collected(table, config, ExistingKeys(lines))) {
      WrittenMentions(table, config, ExistingKeys(lines), line, key);
    } else {
      HeaderMentions(source, key);
    }
  }

  /** Migration makes known exactly the keys that the .config file gives values. */
  lemma MigratedMentions(table: seq<Row>, lines: seq<string>, config: seq<string>, source: string, key: string)
    requires TableOk(table) && PlainKey(key)
    ensures key in Mentioned(Migrated(table, lines, config, source)) <==>
              key in Mentioned(lines) || ConfigValues(table, config, key) != []
  {
    var migrated := Migrated(table, lines, config, source);
    if key in Mentioned(lines) || ConfigValues(table, config, key) != [] {
      MentionedStays(table, lines, config, source, key);
    } else if key in Mentioned(migrated) {
      MentionedBy(migrated, key);
      var i :| 0 <= i < |migrated| && key in LineMentions(migrated[i]);
      MentionedNowhereElse(table, lines, config, source, migrated[i], key);
    }
  }

  // ---------- a second startup ----------

  /** One startup: migrate, then document. */
  function Startup(table: seq<Row>, lines: seq<string>, config: seq<string>, source: string,
                   regs: seq<Registration>): seq<string>
  {
    Documented(Migrated(table, lines, config, source), regs)
  }

  /** The second migration finds nothing to do, whatever was documented in between. */
  lemma SecondMigrationIsIdle(table: seq<Row>, lines: seq<string>, config: seq<string>, source: string,
                              regs: seq<Registration>)
    requires TableOk(table)
    ensures var once := Startup(table, lines, config, source, regs);
            Migrated(table, once, config, source) == once
  {
    var once := Startup(table, lines, config, source, regs);
    forall key | ConfigValues(table, config, key) != []
      ensures ActiveValues(once, key) != []
    {
      ReadBack(table, lines, config, source, key);
      DocumentationKeepsValues(Migrated(table, lines, config, source), regs, key);
    }
    NothingToMigrate(table, once, config, source);
  }

  /** Every attribute with an empty preset list is mentioned by the settings or set by the
      .config file. */
  ghost predicate EmptyListsAreKnown(table: seq<Row>, lines: seq<string>, config: seq<string>, regs: seq<Registration>) {
    forall i :: 0 <= i < |regs| && regs[i].presets == Several([]) ==>
      regs[i].key in Mentioned(lines) || ConfigValues(table, config, regs[i].key) != []
  }

  /** Startup over both components is idempotent exactly if that holds of the two files it reads. */
  lemma StartupIsIdempotentIff(table: seq<Row>, lines: seq<string>, config: seq<string>, source: string,
                               regs: seq<Registration>)
    requires TableOk(table) && RegistrationsOk(regs)
    ensures var once := Startup(table, lines, config, source, regs);
            Startup(table, once, config, source, regs) == once <==> EmptyListsAreKnown(table, lines, config, regs)
  {
    var migrated := Migrated(table, lines, config, source);
    SecondMigrationIsIdle(table, lines, config, source, regs);
    DocumentingIsIdempotentIff(migrated, regs);
    forall i | 0 <= i < |regs| && regs[i].presets == Several([])
      ensures Undocumentable(migrated, regs, i) <==>
                !(regs[i].key in Mentioned(lines) || ConfigValues(table, config, regs[i].key) != [])
    {
      MigratedMentions(table, lines, config, source, regs[i].key);
    }
  }
}
