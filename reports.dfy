/** The exception texts the precompile command builds with a `StringBuilder`:
    a header line, then one line per diagnostic. `AppendLine` ends a line
    with "\n", the POSIX `Environment.NewLine`. */
module Reports {
  import opened Paths

  const NewLine: char := '\n'
  const SyntaxTreesHeader: string := "Error creating syntax trees:"
  const CompilationHeader: string := "Error creating compilation:"

  /** The lines `messages` contribute, each followed by a line break. */
  function AppendedLines(messages: seq<string>): string {
    if messages == [] then "" else messages[0] + [NewLine] + AppendedLines(messages[1..])
  }

  /** The report: the header line, then every message on a line of its own. */
  function Report(header: string, messages: seq<string>): (r: string)
    ensures IsPrefix(header + [NewLine], r)
  {
    header + [NewLine] + AppendedLines(messages)
  }

  lemma {:induction false} AppendedLinesSnoc(messages: seq<string>, m: string)
    ensures AppendedLines(messages + [m]) == AppendedLines(messages) + m + [NewLine]
  {
    if messages != [] {
      assert (messages + [m])[1..] == messages[1..] + [m];
      AppendedLinesSnoc(messages[1..], m);
    } else {
      assert AppendedLines([m]) == m + [NewLine] + AppendedLines([]);
    }
  }

  /** `AppendLine(header)`, then `AppendLine` for each message in order. */
  method BuildReport(header: string, messages: seq<string>) returns (text: string)
    ensures text == Report(header, messages)
  {
    text := header + [NewLine];
    for i := 0 to |messages|
      invariant text == header + [NewLine] + AppendedLines(messages[..i])
    {
      AppendedLinesSnoc(messages[..i], messages[i]);
      assert messages[..i + 1] == messages[..i] + [messages[i]];
      text := text + messages[i] + [NewLine];
    }
    assert messages[..|messages|] == messages;
  }

  /** Position of the first line break of `s`, or `|s|` when there is none. */
  function LineEnd(s: string): (r: nat)
    ensures r <= |s| && (r < |s| ==> s[r] == NewLine)
    ensures forall k :: 0 <= k < r ==> s[k] != NewLine
  {
    if s == [] || s[0] == NewLine then 0 else 1 + LineEnd(s[1..])
  }

  /** The lines of a text, split at its line breaks; a final line break does
      not start another line. */
  function Lines(s: string): seq<string>
    decreases |s|
  {
    if s == [] then []
    else
      var e := LineEnd(s);
      [s[..e]] + (if e == |s| then [] else Lines(s[e + 1..]))
  }

  predicate IsLine(s: string) {
    forall k :: 0 <= k < |s| ==> s[k] != NewLine
  }

  lemma {:induction false} LineEndAfter(line: string, rest: string)
    requires IsLine(line)
    ensures LineEnd(line + [NewLine] + rest) == |line|
  {
    if line != [] {
      assert (line + [NewLine] + rest)[1..] == line[1..] + [NewLine] + rest;
      LineEndAfter(line[1..], rest);
    }
  }

  lemma FirstLine(line: string, rest: string)
    requires IsLine(line)
    ensures Lines(line + [NewLine] + rest) == [line] + Lines(rest)
  {
    var s := line + [NewLine] + rest;
    LineEndAfter(line, rest);
    assert s[..|line|] == line;
    assert s[|line| + 1..] == rest;
  }

  lemma {:induction false} AppendedLinesSplit(messages: seq<string>)
    requires forall i :: 0 <= i < |messages| ==> IsLine(messages[i])
    ensures Lines(AppendedLines(messages)) == messages
  {
    if messages != [] {
      FirstLine(messages[0], AppendedLines(messages[1..]));
      AppendedLinesSplit(messages[1..]);
    }
  }

  /** Reading the report back line by line gives the header and the messages,
      as long as none of them holds a line break itself. */
  lemma ReportLines(header: string, messages: seq<string>)
    requires IsLine(header)
    requires forall i :: 0 <= i < |messages| ==> IsLine(messages[i])
    ensures Lines(Report(header, messages)) == [header] + messages
  {
    FirstLine(header, AppendedLines(messages));
    AppendedLinesSplit(messages);
  }
}
