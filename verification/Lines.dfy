/** Settings and configuration files as text: lines, keys, values. */
module Lines {
  import opened Wrappers

  function FirstLine(text: string): (r: (string, string))
    requires text != ""
    ensures |r.1| < |text| && '\n' !in r.0
  {
    if text[0] == '\n' then ("", text[1..])
    else if |text| == 1 then (text, "")
    else var (line, rest) := FirstLine(text[1..]); ([text[0]] + line, rest)
  }

  /** std::getline until the end of the file: a last line need not be terminated. */
  function LinesOf(text: string): seq<string>
    decreases |text|
  {
    if text == "" then []
    else
      var (line, rest) := FirstLine(text);
      [line] + LinesOf(rest)
  }

  /** Writing lines out, each followed by a newline. */
  function Render(lines: seq<string>): string {
    if lines == [] then "" else lines[0] + "\n" + Render(lines[1..])
  }

  predicate Terminated(text: string) {
    text == "" || text[|text| - 1] == '\n'
  }

  predicate NewlineFree(lines: seq<string>) {
    forall i :: 0 <= i < |lines| ==> '\n' !in lines[i]
  }

  /** line.rfind(prefix, 0) == 0 */
  predicate StartsWith(line: string, prefix: string) {
    |prefix| <= |line| && line[..|prefix|] == prefix
  }

  function IndexOfChar(s: string, c: char): (i: Option<nat>)
    ensures i.Some? ==> i.value < |s| && s[i.value] == c && c !in s[..i.value]
    ensures i.None? ==> c !in s
  {
    if s == "" then None
    else if s[0] == c then Some(0)
    else match IndexOfChar(s[1..], c)
         case Some(i) => assert s[..i + 1] == [s[0]] + s[1..][..i]; Some(i + 1)
         case None => None
  }

  /** What stands before the first `=`, if there is one. */
  function KeyOf(line: string): Option<string> {
    match IndexOfChar(line, '=')
    case Some(eq) => Some(line[..eq])
    case None => None
  }

  /** What stands after it. */
  function RestOf(line: string): string {
    match IndexOfChar(line, '=')
    case Some(eq) => line[eq + 1..]
    case None => ""
  }

  predicate Active(line: string) {
    line != "" && line[0] != '#'
  }

  /** The values of a key's active lines, in file order. */
  function ActiveValues(lines: seq<string>, key: string): seq<string> {
    if lines == [] then []
    else (if Active(lines[0]) && KeyOf(lines[0]) == Some(key) then [RestOf(lines[0])] else [])
         + ActiveValues(lines[1..], key)
  }

  lemma {:induction false} IndexIsFirst(s: string, c: char, k: nat)
    requires k < |s| && s[k] == c && c !in s[..k]
    ensures IndexOfChar(s, c) == Some(k)
  {
    if k > 0 {
      assert s[..k] == [s[0]] + s[1..][..k - 1];
      IndexIsFirst(s[1..], c, k - 1);
    }
  }

  /** A key without `=` is the line's key exactly if the line starts with it and an `=`. */
  lemma PrefixIsKey(line: string, key: string)
    requires '=' !in key
    ensures StartsWith(line, key + "=") <==> KeyOf(line) == Some(key)
    ensures StartsWith(line, key + "=") ==> RestOf(line) == line[|key| + 1..]
  {
    if StartsWith(line, key + "=") {
      assert line[|key|] == (key + "=")[|key|];
      assert line[..|key|] == (key + "=")[..|key|] == key;
      IndexIsFirst(line, '=', |key|);
    }
  }

  lemma KeyOfAssignment(key: string, value: string)
    requires '=' !in key
    ensures KeyOf(key + "=" + value) == Some(key) && RestOf(key + "=" + value) == value
  {
    var line := key + "=" + value;
    assert line[..|key| + 1] == key + "=";
    PrefixIsKey(line, key);
  }

  lemma {:induction false} ValuesAppend(a: seq<string>, b: seq<string>, key: string)
    ensures ActiveValues(a + b, key) == ActiveValues(a, key) + ActiveValues(b, key)
  {
    if a == [] {
      assert a + b == b;
    } else {
      assert (a + b)[1..] == a[1..] + b;
      ValuesAppend(a[1..], b, key);
    }
  }

  // ---------- lines and text ----------

  lemma {:induction false} FirstLineOfRendered(line: string, rest: string)
    requires '\n' !in line
    ensures FirstLine(line + "\n" + rest) == (line, rest)
  {
    var text := line + "\n" + rest;
    if line == "" {
      assert text[1..] == rest;
    } else {
      assert text[1..] == line[1..] + "\n" + rest;
      FirstLineOfRendered(line[1..], rest);
      assert [line[0]] + line[1..] == line;
    }
  }

  lemma {:induction false} LinesOfRendered(lines: seq<string>, more: string)
    requires NewlineFree(lines)
    ensures LinesOf(Render(lines) + more) == lines + LinesOf(more)
  {
    if lines == [] {
      assert Render(lines) + more == more;
    } else {
      assert Render(lines) + more == lines[0] + "\n" + (Render(lines[1..]) + more);
      FirstLineOfRendered(lines[0], Render(lines[1..]) + more);
      LinesOfRendered(lines[1..], more);
    }
  }

  lemma {:induction false} LinesAreNewlineFree(text: string)
    ensures NewlineFree(LinesOf(text))
    decreases |text|
  {
    if text != "" {
      LinesAreNewlineFree(FirstLine(text).1);
    }
  }

  lemma {:induction false} FirstLineSplits(text: string)
    requires text != ""
    ensures var (line, rest) := FirstLine(text);
            text == line + "\n" + rest || (text == line && rest == "" && '\n' !in text)
  {
    if text[0] != '\n' && |text| > 1 {
      FirstLineSplits(text[1..]);
      assert text == [text[0]] + text[1..];
    } else if text[0] == '\n' {
      assert text == "" + "\n" + text[1..];
    }
  }

  /** A terminated text is the rendering of its lines. */
  lemma {:induction false} RenderedLines(text: string)
    requires Terminated(text)
    ensures Render(LinesOf(text)) == text
    decreases |text|
  {
    if text != "" {
      FirstLineSplits(text);
      var (line, rest) := FirstLine(text);
      assert text[|text| - 1] in text;
      assert rest != "" ==> rest[|rest| - 1] == text[|text| - 1];
      RenderedLines(rest);
    }
  }

  lemma {:induction false} RenderedIsTerminated(lines: seq<string>)
    ensures Terminated(Render(lines))
    ensures lines != [] ==> Render(lines) != ""
  {
    if lines != [] {
      RenderedIsTerminated(lines[1..]);
    }
  }

  lemma RenderAppend(a: seq<string>, b: seq<string>)
    ensures Render(a + b) == Render(a) + Render(b)
  {
    if a == [] {
      assert a + b == b;
    } else {
      assert (a + b)[1..] == a[1..] + b;
      RenderAppend(a[1..], b);
    }
  }

  lemma TerminatedByRest(line: string, rest: string)
    requires Terminated(rest)
    ensures Terminated(line + "\n" + rest)
  {
  }

  /** Of a text that is not terminated, the last line and the first one appended run together. */
  lemma {:induction false} GluedLines(text: string, lines: seq<string>)
    requires NewlineFree(lines) && lines != [] && !Terminated(text)
    ensures |LinesOf(text + Render(lines))| == |LinesOf(text)| + |lines| - 1
    decreases |text|
  {
    FirstLineSplits(text);
    var (line, rest) := FirstLine(text);
    if text == line && rest == "" && '\n' !in text {
      var glued := [text + lines[0]] + lines[1..];
      assert Render(glued) == text + Render(lines);
      LinesOfRendered(glued, "");
      assert Render(glued) + "" == Render(glued);
      assert LinesOf(rest) == [];
    } else {
      assert text + Render(lines) == line + "\n" + (rest + Render(lines));
      FirstLineOfRendered(line, rest + Render(lines));
      if Terminated(rest) { TerminatedByRest(line, rest); }
      GluedLines(rest, lines);
    }
  }

  /** Appending lines to a file leaves those before it alone exactly if the file was terminated. */
  lemma AppendedLines(text: string, lines: seq<string>)
    requires NewlineFree(lines) && lines != []
    ensures LinesOf(text + Render(lines)) == LinesOf(text) + lines <==> Terminated(text)
  {
    if Terminated(text) {
      RenderedLines(text);
      LinesAreNewlineFree(text);
      LinesOfRendered(LinesOf(text), Render(lines));
      LinesOfRendered(lines, "");
      assert Render(lines) + "" == Render(lines);
    } else {
      GluedLines(text, lines);
    }
  }
}
