/**
 * The line-by-line rewriting that turns the Lua table saved by the Auctionator add-on
 * into JSON text. Lines are skipped until one mentions the snapshot marker; from then
 * on each line is cleaned (comment cut, brackets dropped, `=` turned into `:`) and
 * copied, a comma and a line separator are put between consecutive values, the table
 * of auctions becomes a JSON list, and the first line that starts with `}` closes the
 * object and ends the rewriting. The three parsers of the repository share this loop;
 * only the line separator differs, so it is a parameter.
 */
module SnapshotRewriter {
  import opened Text

  const MARKER := "AUCTIONATOR_SNAPSHOT"
  const AUCTIONS_OPEN := "\"auctions\" : {"
  const AUCTIONS_LIST := "\t\"auctions\" : ["
  const LIST_CLOSE := "\t]"

  /** The line without its last `--` comment, without brackets, with `=` made `:`. */
  function CleanLine(line: string): (r: string)
    ensures '[' !in r && ']' !in r && '=' !in r
    ensures forall c :: c in r ==> c in line || c == ':'
  {
    var uncommented := SubstringBeforeLast(line, "--");
    assert forall c :: c in uncommented ==> c in line;
    ReplaceChar(ReplaceChar(ReplaceChar(uncommented, '[', ""), ']', ""), '=', ":")
  }

  /** What a recorded line contributes besides the separating comma. */
  function Body(clean: string, lineSeparator: string): (r: string)
    requires '[' !in clean && ']' !in clean
    ensures ',' !in lineSeparator ==> ',' !in r
    ensures '=' !in clean && '=' !in lineSeparator ==> '=' !in r
    ensures '[' !in lineSeparator ==> ('[' in r <==> Contains(clean, AUCTIONS_OPEN))
    ensures ']' !in lineSeparator ==> (']' in r <==> !Contains(clean, AUCTIONS_OPEN) && StartsWith(clean, "\t}"))
  {
    if Contains(clean, AUCTIONS_OPEN) then
      assert AUCTIONS_LIST[|AUCTIONS_LIST| - 1] == '[';
      AUCTIONS_LIST
    else if StartsWith(clean, "\t}") then
      assert (LIST_CLOSE + lineSeparator)[1] == ']';
      LIST_CLOSE + lineSeparator
    else
      ReplaceChar(clean, ',', "")
  }

  /** Whether a comma is pending after the line: a plain value was copied, or one was pending and the line closes a table. */
  function CommaAfter(clean: string, comma: bool): (r: bool) {
    if !Contains(clean, AUCTIONS_OPEN) && !StartsWith(clean, "\t}") && !Contains(clean, "{") then true
    else comma && Contains(clean, "}")
  }

  /** The separating comma written before a line, when one is pending and the line closes nothing. */
  function Separator(clean: string, comma: bool, lineSeparator: string): (r: string)
    ensures r != [] <==> comma && !Contains(clean, "}")
    ensures r != [] ==> r[0] == ','
  {
    if comma && !Contains(clean, "}") then "," + lineSeparator else ""
  }

  /** Before the marker line, or inside the snapshot with or without a pending comma. */
  datatype Phase = Waiting | Recording(comma: bool)

  /** The text the rewriting produces from `lines` when it is in `phase`. */
  function Run(phase: Phase, lines: seq<string>, lineSeparator: string): string
    decreases |lines|
  {
    if lines == [] then ""
    else
      match phase
      case Waiting =>
        if Contains(lines[0], MARKER) then "{" + Run(Recording(false), lines[1..], lineSeparator)
        else Run(Waiting, lines[1..], lineSeparator)
      case Recording(comma) =>
        if StartsWith(lines[0], "}") then "}"
        else
          var clean := CleanLine(lines[0]);
          Separator(clean, comma, lineSeparator) + Body(clean, lineSeparator) +
            Run(Recording(CommaAfter(clean, comma)), lines[1..], lineSeparator)
  }

  function Rewrite(lines: seq<string>, lineSeparator: string): string {
    Run(Waiting, lines, lineSeparator)
  }

  /** The loop of parseAuctionerFile, stopping at the line that closes the snapshot. */
  method RewriteSnapshot(lines: seq<string>, lineSeparator: string) returns (snapshot: string)
    ensures snapshot == Rewrite(lines, lineSeparator)
  {
    snapshot := "";
    var record := false;
    var comma := false;
    var i := 0;
    while i < |lines|
      invariant 0 <= i <= |lines|
      invariant record ==> snapshot + Run(Recording(comma), lines[i..], lineSeparator) == Rewrite(lines, lineSeparator)
      invariant !record ==> !comma
      invariant !record ==> snapshot + Run(Waiting, lines[i..], lineSeparator) == Rewrite(lines, lineSeparator)
    {
      var line := lines[i];
      if record {
        RecordingStep(comma, lines, i, lineSeparator);
        if StartsWith(line, "}") {
          snapshot := snapshot + "}";
          break;
        }
        var cleanLine := CleanLine(line);
        ghost var before, pending := snapshot, comma;
        snapshot, comma := RecordLine(snapshot, cleanLine, comma, lineSeparator);
        Regroup(before, Separator(cleanLine, pending, lineSeparator), Body(cleanLine, lineSeparator),
          Run(Recording(comma), lines[i + 1..], lineSeparator));
      } else {
        WaitingStep(lines, i, lineSeparator);
        if Contains(line, MARKER) {
          record := true;
          Append(snapshot, "{", Run(Recording(false), lines[i + 1..], lineSeparator));
          snapshot := snapshot + "{";
        }
      }
      i := i + 1;
    }
  }

  /** One recorded line: the pending comma, then the line's own contribution. */
  method RecordLine(snapshot: string, cleanLine: string, pending: bool, lineSeparator: string) returns (out: string, comma: bool)
    requires '[' !in cleanLine && ']' !in cleanLine
    ensures out == snapshot + Separator(cleanLine, pending, lineSeparator) + Body(cleanLine, lineSeparator)
    ensures comma == CommaAfter(cleanLine, pending)
  {
    out := snapshot;
    comma := pending;
    if comma && !Contains(cleanLine, "}") {
      out := out + ("," + lineSeparator);
      comma := false;
    }
    ghost var separated := out;
    if Contains(cleanLine, AUCTIONS_OPEN) {
      out := out + AUCTIONS_LIST;
    } else if StartsWith(cleanLine, "\t}") {
      out := out + (LIST_CLOSE + lineSeparator);
    } else {
      out := out + ReplaceChar(cleanLine, ',', "");
      if !Contains(cleanLine, "{") {
        comma := true;
      }
    }
    assert separated == snapshot + Separator(cleanLine, pending, lineSeparator);
    assert out == separated + Body(cleanLine, lineSeparator);
  }

  lemma Regroup(a: string, b: string, c: string, d: string)
    ensures a + (b + c + d) == a + b + c + d
  {
  }

  lemma Append(a: string, b: string, c: string)
    ensures a + (b + c) == a + b + c
  {
  }

  /** Run before the marker on the lines from `i`, unfolded once. */
  lemma WaitingStep(lines: seq<string>, i: nat, lineSeparator: string)
    requires i < |lines|
    ensures Run(Waiting, lines[i..], lineSeparator) ==
      if Contains(lines[i], MARKER) then "{" + Run(Recording(false), lines[i + 1..], lineSeparator)
      else Run(Waiting, lines[i + 1..], lineSeparator)
  {
    assert lines[i..][0] == lines[i];
    assert lines[i..][1..] == lines[i + 1..];
  }

  /** Run inside the snapshot on the lines from `i`, unfolded once. */
  lemma RecordingStep(comma: bool, lines: seq<string>, i: nat, lineSeparator: string)
    requires i < |lines|
    ensures StartsWith(lines[i], "}") ==> Run(Recording(comma), lines[i..], lineSeparator) == "}"
    ensures !StartsWith(lines[i], "}") ==>
      var clean := CleanLine(lines[i]);
      Run(Recording(comma), lines[i..], lineSeparator) ==
        Separator(clean, comma, lineSeparator) + Body(clean, lineSeparator) +
        Run(Recording(CommaAfter(clean, comma)), lines[i + 1..], lineSeparator)
  {
    assert lines[i..][0] == lines[i];
    assert lines[i..][1..] == lines[i + 1..];
  }

  // ---------------------------------------------------------------------------
  // Properties of the rewriting

  /** A file without the marker gives an empty text. */
  lemma {:induction false} NoMarker(lines: seq<string>, lineSeparator: string)
    requires forall k :: 0 <= k < |lines| ==> !Contains(lines[k], MARKER)
    ensures Rewrite(lines, lineSeparator) == ""
    decreases |lines|
  {
    if lines != [] {
      assert forall k :: 0 <= k < |lines[1..]| ==> lines[1..][k] == lines[k + 1];
      NoMarker(lines[1..], lineSeparator);
    }
  }

  /** The text opens with `{` at the first line that mentions the marker. */
  lemma {:induction false} MarkerOpens(lines: seq<string>, k: nat, lineSeparator: string)
    requires k < |lines| && Contains(lines[k], MARKER)
    requires forall j :: 0 <= j < k ==> !Contains(lines[j], MARKER)
    ensures Rewrite(lines, lineSeparator) == "{" + Run(Recording(false), lines[k + 1..], lineSeparator)
    decreases k
  {
    if k > 0 {
      assert forall j :: 0 <= j < k - 1 ==> lines[1..][j] == lines[j + 1];
      assert lines[1..][k - 1] == lines[k];
      MarkerOpens(lines[1..], k - 1, lineSeparator);
      assert lines[1..][k..] == lines[k + 1..];
    }
  }

  /** Once inside the snapshot, a closing line ends the text with `}` and what follows it is ignored. */
  lemma {:induction false} CloseEnds(comma: bool, lines: seq<string>, more: seq<string>, k: nat, lineSeparator: string)
    requires k < |lines| && StartsWith(lines[k], "}")
    ensures Run(Recording(comma), lines + more, lineSeparator) == Run(Recording(comma), lines, lineSeparator)
    ensures |Run(Recording(comma), lines, lineSeparator)| > 0
    ensures Run(Recording(comma), lines, lineSeparator)[|Run(Recording(comma), lines, lineSeparator)| - 1] == '}'
    decreases k
  {
    assert (lines + more)[0] == lines[0];
    if k > 0 && !StartsWith(lines[0], "}") {
      var clean := CleanLine(lines[0]);
      assert (lines + more)[1..] == lines[1..] + more;
      assert lines[1..][k - 1] == lines[k];
      CloseEnds(CommaAfter(clean, comma), lines[1..], more, k - 1, lineSeparator);
    }
  }

  /** With a separator free of `=`, the text has none: every `=` has become `:`. */
  lemma {:induction false} NoEquals(phase: Phase, lines: seq<string>, lineSeparator: string)
    requires '=' !in lineSeparator
    ensures '=' !in Run(phase, lines, lineSeparator)
    decreases |lines|
  {
    if lines != [] {
      match phase
      case Waiting =>
        NoEquals(Recording(false), lines[1..], lineSeparator);
        NoEquals(Waiting, lines[1..], lineSeparator);
      case Recording(comma) =>
        if !StartsWith(lines[0], "}") {
          var clean := CleanLine(lines[0]);
          NoEquals(Recording(CommaAfter(clean, comma)), lines[1..], lineSeparator);
        }
    }
  }
}
