/** The same startup on file contents: what is written, and when lines and text agree. */
module SettingsFiles {
  import opened Wrappers
  import opened Sequences
  import opened Lines
  import opened Settings
  import opened SettingsTheorems
  import opened Documentation

  /** Rewritten only if there is something to migrate. */
  function MigratedFile(table: seq<Row>, text: string, config: string, source: string): string {
    if Collected(table, LinesOf(config), ExistingKeys(LinesOf(text))) == [] then text
    else Render(Migrated(table, LinesOf(text), LinesOf(config), source))
  }

  /** Documentation is appended to the file. */
  function DocumentedFile(text: string, regs: seq<Registration>): string {
    text + Render(NewDocs(Mentioned(LinesOf(text)), regs))
  }

  function StartupFile(table: seq<Row>, text: string, config: string, source: string, regs: seq<Registration>): string {
    DocumentedFile(MigratedFile(table, text, config, source), regs)
  }

  // ---------- nothing written contains a newline of its own ----------

  ghost predicate TableNewlineFree(table: seq<Row>) {
    forall r :: 0 <= r < |table| ==> '\n' !in table[r].setting
  }

  ghost predicate RegistrationNewlineFree(r: Registration) {
    && '\n' !in r.kind && '\n' !in r.key && '\n' !in r.description
    && match r.presets
       case NoPreset => true
       case One(value) => '\n' !in value
       case Several(values) => NewlineFree(values)
  }

  ghost predicate EntriesNewlineFree(m: seq<Entry>) {
    forall i :: 0 <= i < |m| ==> '\n' !in m[i].key && NewlineFree(m[i].values)
  }

  lemma {:induction false} PushBackNewlineFree(m: seq<Entry>, key: string, value: string)
    requires EntriesNewlineFree(m) && '\n' !in key && '\n' !in value
    ensures EntriesNewlineFree(PushBack(m, key, value))
  {
    if m != [] {
      assert EntriesNewlineFree(m[1..]);
      PushBackNewlineFree(m[1..], key, value);
    }
  }

  lemma CleanedNewlineFree(line: string)
    requires '\n' !in line
    ensures '\n' !in Cleaned(RestOf(line))
  {
    var raw := RestOf(line);
    TrimmedEnd(raw);
    match IndexOfChar(raw, '#')
    case Some(i) => TrimmedEnd(raw[..i]);
    case None =>
  }

  lemma {:induction false} CollectedNewlineFree(table: seq<Row>, config: seq<string>, existing: set<string>)
    requires TableNewlineFree(table) && NewlineFree(config)
    ensures EntriesNewlineFree(Collected(table, config, existing))
    decreases |config|
  {
    if config != [] {
      var line := config[|config| - 1];
      CollectedNewlineFree(table, config[..|config| - 1], existing);
      CleanedNewlineFree(line);
      match Setting(table, line)
      case Some((k, v)) =>
        PushBackNewlineFree(Collected(table, config[..|config| - 1], existing), k, v);
      case None =>
    }
  }

  lemma {:induction false} OnePassNewlineFree(lines: seq<string>, m: seq<Entry>)
    requires NewlineFree(lines) && EntriesNewlineFree(m)
    ensures NewlineFree(OnePass(lines, m))
    decreases |lines|
  {
    if lines != [] {
      match Hit(lines[0], m)
      case None => OnePassNewlineFree(lines[1..], m);
      case Some(k) =>
        var fewer := m[..k] + m[k + 1..];
        assert forall i :: 0 <= i < |fewer| ==> fewer[i] == m[if i < k then i else i + 1];
        OnePassNewlineFree(lines[1..], fewer);
    }
  }

  lemma {:induction false} AllNewlineFree(m: seq<Entry>)
    requires EntriesNewlineFree(m)
    ensures NewlineFree(AllAssignments(m))
  {
    if m != [] {
      assert EntriesNewlineFree(m[1..]);
      AllNewlineFree(m[1..]);
    }
  }

  lemma MigratedNewlineFree(table: seq<Row>, lines: seq<string>, config: seq<string>, source: string)
    requires TableNewlineFree(table) && NewlineFree(lines) && NewlineFree(config) && '\n' !in source
    ensures NewlineFree(Migrated(table, lines, config, source))
  {
    var m := Collected(table, config, ExistingKeys(lines));
    CollectedNewlineFree(table, config, ExistingKeys(lines));
    OnePassNewlineFree(lines, m);
    var u := Unplaced(lines, m);
    UnplacedAreEntries(lines, m);
    AllNewlineFree(u);
  }

  lemma NewlineFreeAppend(a: seq<string>, b: seq<string>)
    requires NewlineFree(a) && NewlineFree(b)
    ensures NewlineFree(a + b)
  {
  }

  lemma DocLinesNewlineFree(r: Registration)
    requires RegistrationNewlineFree(r)
    ensures NewlineFree(DocLines(r))
  {
    var first := "# " + r.kind + ": " + r.description;
    assert '\n' !in first;
    var keys := match r.presets
      case NoPreset => ["#" + r.key + "="]
      case One(value) => ["#" + r.key + "=" + value]
      case Several(values) => CommentedAssignments(r.key, values);
    assert NewlineFree(keys) by {
      match r.presets
      case NoPreset => assert '\n' !in keys[0];
      case One(value) => assert '\n' !in keys[0];
      case Several(values) =>
    }
    NewlineFreeAppend([first], keys);
    NewlineFreeAppend([first] + keys, [""]);
  }

  lemma {:induction false} DocsNewlineFree(known: set<string>, regs: seq<Registration>)
    requires forall i :: 0 <= i < |regs| ==> RegistrationNewlineFree(regs[i])
    ensures NewlineFree(NewDocs(known, regs))
    decreases |regs|
  {
    if regs != [] {
      var r := regs[|regs| - 1];
      DocsNewlineFree(known, regs[..|regs| - 1]);
      DocLinesNewlineFree(r);
      NewlineFreeAppend(NewDocs(known, regs[..|regs| - 1]), if r.key in known then [] else DocLines(r));
    }
  }

  // ---------- text and lines agree ----------

  ghost predicate InputsOk(table: seq<Row>, source: string, regs: seq<Registration>) {
    && TableOk(table) && RegistrationsOk(regs)
    && TableNewlineFree(table) && '\n' !in source
    && (forall i :: 0 <= i < |regs| ==> RegistrationNewlineFree(regs[i]))
  }

  /** Rewriting gives the migrated lines, and not rewriting leaves what were already those. */
  lemma MigratedFileLines(table: seq<Row>, text: string, config: string, source: string)
    requires TableOk(table) && TableNewlineFree(table) && '\n' !in source
    ensures LinesOf(MigratedFile(table, text, config, source)) ==
              Migrated(table, LinesOf(text), LinesOf(config), source)
    ensures Terminated(text) ==> Terminated(MigratedFile(table, text, config, source))
  {
    var lines, cfg := LinesOf(text), LinesOf(config);
    LinesAreNewlineFree(text);
    LinesAreNewlineFree(config);
    var migrated := Migrated(table, lines, cfg, source);
    if Collected(table, cfg, ExistingKeys(lines)) == [] {
      OnePassOfNothing(lines);
    } else {
      MigratedNewlineFree(table, lines, cfg, source);
      LinesOfRendered(migrated, "");
      assert Render(migrated) + "" == Render(migrated);
      RenderedIsTerminated(migrated);
    }
  }

  /** The documented file has the documented lines exactly if it ended in a newline, or was
      empty, or nothing was documented. */
  lemma DocumentedFileLinesIff(text: string, regs: seq<Registration>)
    requires forall i :: 0 <= i < |regs| ==> RegistrationNewlineFree(regs[i])
    ensures LinesOf(DocumentedFile(text, regs)) == Documented(LinesOf(text), regs) <==>
              Terminated(text) || NewDocs(Mentioned(LinesOf(text)), regs) == []
  {
    var docs := NewDocs(Mentioned(LinesOf(text)), regs);
    DocsNewlineFree(Mentioned(LinesOf(text)), regs);
    if docs == [] {
      assert text + "" == text;
    } else {
      AppendedLines(text, docs);
    }
  }

  lemma RenderGlued(text: string, docs: seq<string>)
    requires docs != []
    ensures text + Render(docs) == (text + docs[0]) + "\n" + Render(docs[1..])
  {
  }

  lemma GluedOnto(text: string, docs: seq<string>)
    requires '\n' !in text && NewlineFree(docs) && docs != []
    ensures LinesOf(text + Render(docs)) == [text + docs[0]] + docs[1..]
  {
    RenderGlued(text, docs);
    FirstLineOfRendered(text + docs[0], Render(docs[1..]));
    LinesOfRendered(docs[1..], "");
    assert Render(docs[1..]) + "" == Render(docs[1..]);
  }

  lemma RegroupAssignment(key: string, value: string, more: string)
    ensures key + "=" + value + more == key + "=" + (value + more)
    ensures key == "" || key[0] != '#' ==> Active(key + "=" + (value + more))
  {
  }

  lemma OneActiveLine(line: string, rest: seq<string>, key: string)
    requires Active(line) && KeyOf(line) == Some(key)
    requires forall i :: 0 <= i < |rest| ==> !Active(rest[i])
    ensures ActiveValues([line] + rest, key) == [RestOf(line)]
  {
    assert ([line] + rest)[1..] == rest;
    InactiveHaveNoValues(rest, key);
  }

  lemma LinesAfter(text: string, more: string)
    requires Terminated(text)
    ensures LinesOf(text + more) == LinesOf(text) + LinesOf(more)
  {
    RenderedLines(text);
    LinesAreNewlineFree(text);
    LinesOfRendered(LinesOf(text), more);
  }

  /** The documented file, when the last line is an assignment that is not terminated. */
  lemma SpoiltLines(text: string, line: string, docs: seq<string>)
    requires Terminated(text) && '\n' !in line && NewlineFree(docs) && docs != []
    ensures LinesOf(text + line + Render(docs)) == LinesOf(text) + ([line + docs[0]] + docs[1..])
  {
    GluedOnto(line, docs);
    LinesAfter(text, line + Render(docs));
    Assoc(text, line, Render(docs));
  }

  lemma SpoiltValue(key: string, value: string, docs: seq<string>)
    requires KeyOk(key) && docs != []
    requires forall i :: 0 <= i < |docs| ==> !Active(docs[i])
    ensures ActiveValues([key + "=" + value + docs[0]] + docs[1..], key) == [value + docs[0]]
  {
    RegroupAssignment(key, value, docs[0]);
    KeyOfAssignment(key, value + docs[0]);
    OneActiveLine(key + "=" + (value + docs[0]), docs[1..], key);
  }

  /** An assignment that ends the file without a newline takes the first line of documentation
      into its value; the key's other values are as before. */
  lemma UnterminatedValueIsSpoilt(text: string, key: string, value: string, regs: seq<Registration>)
    requires Terminated(text) && KeyOk(key) && '\n' !in key && '\n' !in value
    requires forall i :: 0 <= i < |regs| ==> RegistrationNewlineFree(regs[i])
    ensures var whole := text + (key + "=" + value);
            var docs := NewDocs(Mentioned(LinesOf(whole)), regs);
            docs != [] ==>
              ActiveValues(LinesOf(DocumentedFile(whole, regs)), key) ==
                ActiveValues(LinesOf(text), key) + [value + docs[0]]
  {
    var line := key + "=" + value;
    var known := Mentioned(LinesOf(text + line));
    var docs := NewDocs(known, regs);
    if docs != [] {
      DocsNewlineFree(known, regs);
      DocsAreInactive(known, regs);
      SpoiltLines(text, line, docs);
      SpoiltValue(key, value, docs);
      ValuesAppend(LinesOf(text), [line + docs[0]] + docs[1..], key);
    }
  }

  lemma TerminatedAppend(a: string, b: string)
    requires Terminated(a) && Terminated(b)
    ensures Terminated(a + b)
  {
    if b == "" { assert a + b == a; }
  }

  /** What a startup leaves, if what it documents is terminated. */
  lemma StartupFileLines(table: seq<Row>, text: string, config: string, source: string, regs: seq<Registration>)
    requires InputsOk(table, source, regs) && Terminated(MigratedFile(table, text, config, source))
    ensures var out := StartupFile(table, text, config, source, regs);
            LinesOf(out) == Startup(table, LinesOf(text), LinesOf(config), source, regs) && Terminated(out)
  {
    var migrated := MigratedFile(table, text, config, source);
    MigratedFileLines(table, text, config, source);
    DocumentedFileLinesIff(migrated, regs);
    RenderedIsTerminated(NewDocs(Mentioned(LinesOf(migrated)), regs));
    TerminatedAppend(migrated, Render(NewDocs(Mentioned(LinesOf(migrated)), regs)));
  }

  lemma SecondStartupOnTerminated(table: seq<Row>, text: string, config: string, source: string, regs: seq<Registration>)
    requires InputsOk(table, source, regs) && Terminated(MigratedFile(table, text, config, source))
    ensures var once := StartupFile(table, text, config, source, regs);
            StartupFile(table, once, config, source, regs) == once <==>
              EmptyListsAreKnown(table, LinesOf(text), LinesOf(config), regs)
  {
    var once := StartupFile(table, text, config, source, regs);
    var twice := StartupFile(table, once, config, source, regs);
    StartupFileLines(table, text, config, source, regs);
    MigratedFileLines(table, once, config, source);
    StartupFileLines(table, once, config, source, regs);
    StartupIsIdempotentIff(table, LinesOf(text), LinesOf(config), source, regs);
    RenderedLines(once);
    RenderedLines(twice);
  }

  /** Starting up a second time leaves a terminated settings file byte for byte as it was,
      exactly if every attribute with an empty preset list is mentioned there or set by the
      .config file. */
  lemma SecondStartupIsIdle(table: seq<Row>, text: string, config: string, source: string, regs: seq<Registration>)
    requires InputsOk(table, source, regs) && Terminated(text)
    ensures var once := StartupFile(table, text, config, source, regs);
            StartupFile(table, once, config, source, regs) == once <==>
              EmptyListsAreKnown(table, LinesOf(text), LinesOf(config), regs)
  {
    MigratedFileLines(table, text, config, source);
    SecondStartupOnTerminated(table, text, config, source, regs);
  }

  // ---------- a second startup on a file that was not terminated ----------

  function Description(r: Registration): string {
    "# " + r.kind + ": " + r.description
  }

  lemma DocLinesOpen(r: Registration)
    ensures DocLines(r) != [] && DocLines(r)[0] == Description(r)
  {
  }

  lemma HeadOfSum(a: seq<string>, b: seq<string>)
    requires a + b != []
    ensures if a != [] then (a + b)[0] == a[0] else b != [] && (a + b)[0] == b[0]
  {
  }

  /** The first line of new documentation describes some attribute. */
  lemma {:induction false} DocsOpenWithDescription(known: set<string>, regs: seq<Registration>) returns (i: nat)
    requires NewDocs(known, regs) != []
    ensures i < |regs| && NewDocs(known, regs)[0] == Description(regs[i])
    decreases |regs|
  {
    var n := |regs| - 1;
    var before, last := NewDocs(known, regs[..n]), if regs[n].key in known then [] else DocLines(regs[n]);
    HeadOfSum(before, last);
    if before != [] {
      i := DocsOpenWithDescription(known, regs[..n]);
    } else {
      DocLinesOpen(regs[n]);
      i := n;
    }
  }

  lemma MentionedOne(line: string)
    ensures Mentioned([line]) == LineMentions(line)
  {
    assert [line][..0] == [];
  }

  /** Losing it costs no mention of a plain key. */
  lemma DescriptionIsNoLoss(known: set<string>, regs: seq<Registration>, key: string)
    requires NewDocs(known, regs) != [] && PlainKey(key)
    ensures var docs := NewDocs(known, regs); key in Mentioned(docs) <==> key in Mentioned(docs[1..])
  {
    var docs := NewDocs(known, regs);
    var i := DocsOpenWithDescription(known, regs);
    if key in LineMentions(docs[0]) {
      DescriptionMentions(regs[i], key);
    }
    assert docs == [docs[0]] + docs[1..];
    MentionedAppend([docs[0]], docs[1..]);
    MentionedOne(docs[0]);
  }

  /** A key stays a line's key whatever is glued to the line. */
  lemma GluedKey(line: string, more: string)
    requires KeyOf(line).Some?
    ensures KeyOf(line + more) == KeyOf(line)
  {
    var eq := IndexOfChar(line, '=').value;
    assert (line + more)[..eq] == line[..eq];
    IndexIsFirst(line + more, '=', eq);
  }

  lemma GluedMentions(line: string, more: string)
    requires line != ""
    ensures LineMentions(line) <= LineMentions(line + more)
    ensures Active(line + more) == Active(line)
  {
    assert (line + more)[1..] == line[1..] + more;
    if KeyOf(line).Some? { GluedKey(line, more); }
    if KeyOf(line[1..]).Some? { GluedKey(line[1..], more); }
  }

  /** The lines of a file that was not terminated, once documented. */
  function Spoilt(lines: seq<string>, line: string, docs: seq<string>): seq<string>
    requires docs != []
  {
    lines + ([line + docs[0]] + docs[1..])
  }

  lemma SpoiltMentions(lines: seq<string>, line: string, known: set<string>, regs: seq<Registration>, key: string)
    requires line != "" && NewDocs(known, regs) != [] && PlainKey(key)
    ensures var docs := NewDocs(known, regs);
            key in Mentioned(Spoilt(lines, line, docs)) <==>
              key in Mentioned(lines + [line]) || key in LineMentions(line + docs[0]) || key in Mentioned(docs)
  {
    var docs := NewDocs(known, regs);
    MentionedAppend(lines, [line + docs[0]] + docs[1..]);
    MentionedAppend([line + docs[0]], docs[1..]);
    MentionedAppend(lines, [line]);
    MentionedOne(line + docs[0]);
    MentionedOne(line);
    GluedMentions(line, docs[0]);
    DescriptionIsNoLoss(known, regs, key);
  }

  lemma ActiveOne(line: string, key: string)
    ensures ActiveValues([line], key) != [] <==> Active(line) && KeyOf(line) == Some(key)
  {
    assert [line][1..] == [];
  }

  lemma SpoiltStaysActive(lines: seq<string>, line: string, docs: seq<string>, key: string)
    requires line != "" && docs != [] && ActiveValues(lines + [line], key) != []
    ensures ActiveValues(Spoilt(lines, line, docs), key) != []
  {
    ValuesAppend(lines, [line], key);
    ValuesAppend(lines, [line + docs[0]] + docs[1..], key);
    ValuesAppend([line + docs[0]], docs[1..], key);
    ActiveOne(line, key);
    ActiveOne(line + docs[0], key);
    GluedMentions(line, docs[0]);
    if KeyOf(line).Some? { GluedKey(line, docs[0]); }
  }

  /** If nothing was collected before, nothing is after. */
  lemma SpoiltHasNothingToMigrate(table: seq<Row>, lines: seq<string>, line: string, docs: seq<string>, config: seq<string>)
    requires TableOk(table) && line != "" && docs != []
    requires Collected(table, config, ExistingKeys(lines + [line])) == []
    ensures Collected(table, config, ExistingKeys(Spoilt(lines, line, docs))) == []
  {
    forall key | ConfigValues(table, config, key) != []
      ensures ActiveValues(Spoilt(lines, line, docs), key) != []
    {
      CollectedIs(table, config, ExistingKeys(lines + [line]), key);
      ExistingIsActive(lines + [line], key);
      SpoiltStaysActive(lines, line, docs, key);
    }
    NothingCollected(table, Spoilt(lines, line, docs), config);
  }

  /** What a second scan finds unmentioned. */
  lemma MissingAfterSpoiling(lines: seq<string>, line: string, regs: seq<Registration>)
    requires line != "" && RegistrationsOk(regs) && NewDocs(Mentioned(lines + [line]), regs) != []
    ensures var docs := NewDocs(Mentioned(lines + [line]), regs);
            NewDocs(Mentioned(Spoilt(lines, line, docs)), regs) == [] <==>
              forall i :: 0 <= i < |regs| && Undocumentable(lines + [line], regs, i) ==>
                regs[i].key in LineMentions(line + docs[0])
  {
    var known := Mentioned(lines + [line]);
    var docs := NewDocs(known, regs);
    NothingNew(Mentioned(Spoilt(lines, line, docs)), regs);
    forall i | 0 <= i < |regs|
      ensures regs[i].key in Mentioned(Spoilt(lines, line, docs)) <==>
                !Undocumentable(lines + [line], regs, i) || regs[i].key in LineMentions(line + docs[0])
    {
      SpoiltMentions(lines, line, known, regs, regs[i].key);
      if Undocumentable(lines + [line], regs, i) {
        if regs[i].key in Mentioned(docs) { DocsMentionOnly(known, regs, regs[i].key); }
      } else if regs[i].key !in known {
        DocsMention(known, regs, i);
      }
    }
  }

  /** The key that a last line and the documentation glued to it happen to mention. */
  function Glued(table: seq<Row>, whole: string, line: string, config: string, regs: seq<Registration>): set<string> {
    var docs := NewDocs(Mentioned(LinesOf(whole)), regs);
    if Collected(table, LinesOf(config), ExistingKeys(LinesOf(whole))) != [] || docs == [] then {}
    else LineMentions(line + docs[0])
  }

  lemma NewlineInside(a: string, b: string)
    ensures '\n' in a + "\n" + b
  {
    assert (a + "\n" + b)[|a|] == '\n';
  }

  lemma LinesOfOne(line: string)
    requires line != "" && '\n' !in line
    ensures LinesOf(line) == [line]
  {
    FirstLineSplits(line);
    var (first, rest) := FirstLine(line);
    NewlineInside(first, rest);
    assert LinesOf(rest) == [];
  }

  /** A file that is not terminated is a terminated one and a last line. */
  lemma {:induction false} LastLineSplits(text: string) returns (before: string, line: string)
    requires !Terminated(text)
    ensures text == before + line && Terminated(before) && line != "" && '\n' !in line
    decreases |text|
  {
    if '\n' !in text {
      before, line := "", text;
      assert text == "" + text;
    } else {
      assert text == [text[0]] + text[1..];
      before, line := LastLineSplits(text[1..]);
      before := [text[0]] + before;
    }
  }

  lemma UntouchedByMigration(table: seq<Row>, text: string, config: string, source: string)
    requires Collected(table, LinesOf(config), ExistingKeys(LinesOf(text))) == []
    ensures MigratedFile(table, text, config, source) == text
  {
  }

  /** Documented when nothing is to be migrated: the second startup finds the spoilt lines, has
      nothing to migrate either, and documents what they do not mention. */
  lemma SecondStartupOnSpoilt(table: seq<Row>, text: string, line: string, config: string, source: string, regs: seq<Registration>)
    requires InputsOk(table, source, regs) && Terminated(text) && line != "" && '\n' !in line
    requires Collected(table, LinesOf(config), ExistingKeys(LinesOf(text) + [line])) == []
    requires LinesOf(text + line) == LinesOf(text) + [line]
    requires NewDocs(Mentioned(LinesOf(text) + [line]), regs) != []
    ensures var docs := NewDocs(Mentioned(LinesOf(text) + [line]), regs);
            var once := StartupFile(table, text + line, config, source, regs);
            StartupFile(table, once, config, source, regs) == once <==>
              NewDocs(Mentioned(Spoilt(LinesOf(text), line, docs)), regs) == []
  {
    var docs := NewDocs(Mentioned(LinesOf(text) + [line]), regs);
    var once := text + line + Render(docs);
    UntouchedByMigration(table, text + line, config, source);
    assert StartupFile(table, text + line, config, source, regs) == once;
    DocsNewlineFree(Mentioned(LinesOf(text) + [line]), regs);
    SpoiltLines(text, line, docs);
    SpoiltHasNothingToMigrate(table, LinesOf(text), line, docs, LinesOf(config));
    UntouchedByMigration(table, once, config, source);
    RenderedIsTerminated(NewDocs(Mentioned(LinesOf(once)), regs));
  }

  lemma RewrittenIsTerminated(table: seq<Row>, text: string, config: string, source: string)
    requires Collected(table, LinesOf(config), ExistingKeys(LinesOf(text))) != []
    ensures Terminated(MigratedFile(table, text, config, source))
  {
    RenderedIsTerminated(Migrated(table, LinesOf(text), LinesOf(config), source));
  }

  /** With nothing to migrate, whatever the .config file sets is mentioned. */
  lemma CollectedMentions(table: seq<Row>, lines: seq<string>, config: seq<string>)
    requires TableOk(table) && Collected(table, config, ExistingKeys(lines)) == []
    ensures forall key :: ConfigValues(table, config, key) != [] ==> key in Mentioned(lines)
  {
    forall key | ConfigValues(table, config, key) != []
      ensures key in Mentioned(lines)
    {
      CollectedIs(table, config, ExistingKeys(lines), key);
      ExistingIsActive(lines, key);
      ActiveIsMentioned(lines, key);
    }
  }

  /** Every attribute with an empty preset list is mentioned, set, or among `others`. */
  ghost predicate KnownOrAmong(table: seq<Row>, lines: seq<string>, config: seq<string>, regs: seq<Registration>,
                               others: set<string>)
  {
    forall i :: 0 <= i < |regs| && regs[i].presets == Several([]) ==>
      regs[i].key in Mentioned(lines) || ConfigValues(table, config, regs[i].key) != [] || regs[i].key in others
  }

  lemma NothingMissing(table: seq<Row>, whole: string, config: string, source: string, regs: seq<Registration>)
    requires Collected(table, LinesOf(config), ExistingKeys(LinesOf(whole))) == []
    requires NewDocs(Mentioned(LinesOf(whole)), regs) == []
    ensures StartupFile(table, whole, config, source, regs) == whole
    ensures forall i :: 0 <= i < |regs| ==> regs[i].key in Mentioned(LinesOf(whole))
  {
    UntouchedByMigration(table, whole, config, source);
    NothingNew(Mentioned(LinesOf(whole)), regs);
    assert whole + "" == whole;
  }

  lemma MissingIsUnknown(table: seq<Row>, lines: seq<string>, config: seq<string>, regs: seq<Registration>, others: set<string>)
    requires TableOk(table) && Collected(table, config, ExistingKeys(lines)) == []
    ensures KnownOrAmong(table, lines, config, regs, others) <==>
              forall i :: 0 <= i < |regs| && Undocumentable(lines, regs, i) ==> regs[i].key in others
  {
    CollectedMentions(table, lines, config);
  }

  /** On a file that was not terminated a second startup leaves every byte exactly under the
      same condition, but for keys that the last line and the documentation glued to it happen
      to mention. */
  lemma SecondStartupIsIdleUnterminated(table: seq<Row>, text: string, line: string, config: string, source: string,
                                        regs: seq<Registration>)
    requires InputsOk(table, source, regs) && Terminated(text) && line != "" && '\n' !in line
    ensures var whole := text + line;
            var once := StartupFile(table, whole, config, source, regs);
            StartupFile(table, once, config, source, regs) == once <==>
              KnownOrAmong(table, LinesOf(whole), LinesOf(config), regs, Glued(table, whole, line, config, regs))
  {
    var whole := text + line;
    LinesAfter(text, line);
    LinesOfOne(line);
    if Collected(table, LinesOf(config), ExistingKeys(LinesOf(whole))) != [] {
      RewrittenIsTerminated(table, whole, config, source);
      SecondStartupOnTerminated(table, whole, config, source, regs);
    } else if NewDocs(Mentioned(LinesOf(whole)), regs) == [] {
      NothingMissing(table, whole, config, source, regs);
    } else {
      SecondStartupOnSpoilt(table, text, line, config, source, regs);
      MissingAfterSpoiling(LinesOf(text), line, regs);
      MissingIsUnknown(table, LinesOf(whole), LinesOf(config), regs, Glued(table, whole, line, config, regs));
    }
  }
}
