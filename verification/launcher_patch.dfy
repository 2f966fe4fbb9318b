/** The rewrite of `bin/elasticsearch.in.sh`: `re.sub('ES_HOME=.*', '', body)`
    deletes every `ES_HOME=` together with the rest of its line, so the staged
    launcher no longer points at the original install. */
module LauncherPatch {
  import opened Wrappers
  import opened Text

  const Marker: string := "ES_HOME="

  /** The index of the first newline, or `|s|`: where `.*` stops, since `.`
      does not match a newline. */
  function LineEnd(s: string): (k: nat)
    ensures k <= |s|
    ensures forall j :: 0 <= j < k ==> s[j] != '\n'
    ensures k < |s| ==> s[k] == '\n'
    decreases |s|
  {
    if |s| == 0 || s[0] == '\n' then 0 else 1 + LineEnd(s[1..])
  }

  /** `re.sub('ES_HOME=.*', '', s)`: scanning left to right, a match deletes
      the marker and everything up to the end of its line, and the scan
      resumes at the newline; any other character is kept. */
  function StripEsHome(s: string): (r: string)
    ensures |r| <= |s|
    decreases |s|
  {
    if |s| == 0 then ""
    else if StartsWith(s, Marker) then StripEsHome(s[LineEnd(s)..])
    else [s[0]] + StripEsHome(s[1..])
  }

  /** `s` holds the marker at position `i`. */
  predicate MarkerAt(s: string, i: int) {
    0 <= i && i + |Marker| <= |s| && s[i..i + |Marker|] == Marker
  }

  lemma MarkerAtTail(s: string, i: nat)
    requires |s| > 0
    ensures MarkerAt(s[1..], i) <==> MarkerAt(s, i + 1)
  {
    if i + |Marker| <= |s[1..]| {
      assert s[1..][i..i + |Marker|] == s[i + 1..i + 1 + |Marker|];
    }
  }

  /** The position of the leftmost marker in `s`, if any. */
  function MarkerIndex(s: string): (r: Option<nat>)
    ensures r.Some? ==> MarkerAt(s, r.value) && forall j :: 0 <= j < r.value ==> !MarkerAt(s, j)
    ensures r.None? <==> forall i :: 0 <= i < |s| ==> !MarkerAt(s, i)
    ensures r.Some? ==> r.value + |Marker| <= |s| && s[r.value..r.value + |Marker|] == Marker
    decreases |s|
  {
    if |s| == 0 then None
    else if StartsWith(s, Marker) then
      assert s[0..|Marker|] == s[..|Marker|];
      assert MarkerAt(s, 0);
      Some(0)
    else
      assert !MarkerAt(s, 0) by {
        if |Marker| <= |s| { assert s[0..|Marker|] == s[..|Marker|]; }
      }
      var rest := MarkerIndex(s[1..]);
      forall j | 0 < j < |s| && (rest.None? || j < rest.value + 1)
        ensures !MarkerAt(s, j)
      {
        MarkerAtTail(s, j - 1);
      }
      match rest
      case None => None
      case Some(i) =>
        MarkerAtTail(s, i);
        Some(i + 1)
  }

  predicate HasNewline(s: string) {
    exists i :: 0 <= i < |s| && s[i] == '\n'
  }

  lemma MarkerHasNoNewline()
    ensures !HasNewline(Marker)
  {
  }

  lemma TailHasNoNewline(s: string)
    requires |s| > 0 && !HasNewline(s)
    ensures s[0] != '\n' && !HasNewline(s[1..])
  {
    forall i | 0 <= i < |s[1..]|
      ensures s[1..][i] != '\n'
    {
      assert s[1..][i] == s[i + 1];
    }
  }

  /** A text that does not start with the marker keeps its first character. */
  lemma StripKeepsFirst(s: string)
    requires |s| > 0 && !StartsWith(s, Marker)
    ensures StripEsHome(s) == [s[0]] + StripEsHome(s[1..])
  {
  }

  /** A text starting with a newline keeps it: the newline is not the
      marker's first character. */
  lemma StripStartsWithNewline(rest: string)
    requires |rest| > 0 && rest[0] == '\n'
    ensures StripEsHome(rest) == "\n" + StripEsHome(rest[1..])
  {
    if |rest| >= |Marker| {
      assert rest[..|Marker|][0] == '\n';
    }
    StripKeepsFirst(rest);
  }

  /** Where a marker matched, the output continues with a newline or ends. */
  lemma StripAfterMarker(s: string)
    requires StartsWith(s, Marker)
    ensures StripEsHome(s) == StripEsHome(s[LineEnd(s)..])
    ensures |StripEsHome(s)| == 0 || StripEsHome(s)[0] == '\n'
  {
    var rest := s[LineEnd(s)..];
    if |rest| > 0 {
      StripStartsWithNewline(rest);
    }
  }

  /** A piece of output without newlines comes from the same piece of input:
      deletions are always followed by a newline or by the end. */
  lemma {:induction false} StripKeepsLinePrefix(s: string, w: string)
    requires !HasNewline(w)
    ensures StartsWith(StripEsHome(s), w) ==> StartsWith(s, w)
    decreases |s|
  {
    if |w| == 0 || |s| == 0 {
    } else if StartsWith(s, Marker) {
      StripAfterMarker(s);
      var t := StripEsHome(s);
      TailHasNoNewline(w);
      assert |t| == 0 || t[0] != w[0];
      assert !StartsWith(t, w) by {
        if |w| <= |t| {
          assert t[..|w|][0] == t[0];
        }
      }
    } else {
      var t := StripEsHome(s[1..]);
      StripKeepsFirst(s);
      TailHasNoNewline(w);
      StripKeepsLinePrefix(s[1..], w[1..]);
      if StartsWith([s[0]] + t, w) {
        assert ([s[0]] + t)[..|w|] == [s[0]] + t[..|w| - 1];
        assert w == [w[0]] + w[1..];
        assert StartsWith(t, w[1..]);
        assert s[..|w|] == [s[0]] + s[1..][..|w| - 1];
      }
    }
  }

  lemma MarkerFromTail(s: string)
    requires |s| > 0
    ensures StartsWith(s[1..], Marker[1..]) && s[0] == Marker[0] ==> StartsWith(s, Marker)
  {
    if StartsWith(s[1..], Marker[1..]) && s[0] == Marker[0] {
      assert s[..|Marker|] == [s[0]] + s[1..][..|Marker| - 1];
    }
  }

  /** After the rewrite no `ES_HOME=` is left anywhere in the text. */
  lemma {:induction false} StripRemovesMarker(s: string)
    ensures MarkerIndex(StripEsHome(s)).None?
    decreases |s|
  {
    if |s| == 0 {
    } else if StartsWith(s, Marker) {
      StripRemovesMarker(s[LineEnd(s)..]);
    } else {
      var t := StripEsHome(s[1..]);
      StripKeepsFirst(s);
      StripRemovesMarker(s[1..]);
      var r := [s[0]] + t;
      assert r[1..] == t;
      var w := Marker[1..];
      MarkerHasNoNewline();
      TailHasNoNewline(Marker);
      StripKeepsLinePrefix(s[1..], w);
      MarkerFromTail(s);
      assert !StartsWith(r, Marker) by {
        if |Marker| <= |r| && r[0] == Marker[0] {
          assert r[..|Marker|] == [r[0]] + t[..|w|];
          assert Marker == [Marker[0]] + w;
        }
      }
    }
  }

  /** Text without the marker passes through unchanged. */
  lemma {:induction false} StripWithoutMarker(s: string)
    requires MarkerIndex(s).None?
    ensures StripEsHome(s) == s
    decreases |s|
  {
    if |s| > 0 {
      assert !StartsWith(s, Marker);
      StripWithoutMarker(s[1..]);
      assert s == [s[0]] + s[1..];
    }
  }

  /** Patching an already patched launcher changes nothing. */
  lemma StripIdempotent(s: string)
    ensures StripEsHome(StripEsHome(s)) == StripEsHome(s)
  {
    StripRemovesMarker(s);
    StripWithoutMarker(StripEsHome(s));
  }

  /** `s.split('\n')`. */
  function Lines(s: string): (ls: seq<string>)
    ensures |ls| > 0
    ensures forall i :: 0 <= i < |ls| ==> !HasNewline(ls[i])
    decreases |s|
  {
    var k := LineEnd(s);
    if k == |s| then [s] else [s[..k]] + Lines(s[k + 1..])
  }

  /** `'\n'.join(ls)`. */
  function Unlines(ls: seq<string>): string
    requires |ls| > 0
    decreases |ls|
  {
    if |ls| == 1 then ls[0] else ls[0] + "\n" + Unlines(ls[1..])
  }

  /** Splitting on newlines and joining again gives the text back. */
  lemma {:induction false} UnlinesLines(s: string)
    ensures Unlines(Lines(s)) == s
    decreases |s|
  {
    var k := LineEnd(s);
    if k < |s| {
      UnlinesLines(s[k + 1..]);
      assert s == s[..k] + "\n" + s[k + 1..];
    }
  }

  /** A line up to its first marker. */
  function CutLine(line: string): string {
    match MarkerIndex(line)
    case None => line
    case Some(i) => line[..i]
  }

  function CutLines(ls: seq<string>): (r: seq<string>)
    ensures |r| == |ls|
    ensures forall i :: 0 <= i < |ls| ==> r[i] == CutLine(ls[i])
  {
    seq(|ls|, i requires 0 <= i < |ls| => CutLine(ls[i]))
  }

  /** On a line, `.*` runs to the end of the text. */
  lemma {:induction false} LineEndOfLine(line: string)
    requires !HasNewline(line)
    ensures LineEnd(line) == |line|
    decreases |line|
  {
    if |line| > 0 {
      TailHasNoNewline(line);
      LineEndOfLine(line[1..]);
    }
  }

  /** On a single line the rewrite cuts the line at its first marker. */
  lemma {:induction false} StripLine(line: string)
    requires !HasNewline(line)
    ensures StripEsHome(line) == CutLine(line)
    decreases |line|
  {
    if |line| == 0 {
    } else if StartsWith(line, Marker) {
      LineEndOfLine(line);
      assert line[|line|..] == "";
    } else {
      TailHasNoNewline(line);
      StripKeepsFirst(line);
      StripLine(line[1..]);
      CutLineKeepsFirst(line);
    }
  }

  /** A line that does not start with the marker keeps its first character. */
  lemma CutLineKeepsFirst(line: string)
    requires |line| > 0 && !StartsWith(line, Marker)
    ensures CutLine(line) == [line[0]] + CutLine(line[1..])
  {
    var tail := line[1..];
    assert line == [line[0]] + tail;
    match MarkerIndex(tail)
    case None =>
    case Some(i) =>
      assert line[..i + 1] == [line[0]] + tail[..i];
  }

  /** A marker cannot run past the end of its line. */
  lemma MarkerWithinLine(line: string, rest: string)
    requires !HasNewline(line)
    ensures StartsWith(line + "\n" + rest, Marker) <==> StartsWith(line, Marker)
  {
    var s := line + "\n" + rest;
    MarkerHasNoNewline();
    if |line| < |Marker| {
      assert s[|line|] == '\n';
      assert Marker[|line|] != '\n';
      if |Marker| <= |s| {
        assert s[..|Marker|][|line|] == '\n';
      }
    } else {
      assert s[..|Marker|] == line[..|Marker|];
    }
  }

  /** The rewrite works line by line: the newline between two lines is kept. */
  lemma {:induction false} StripSplitsAtNewline(line: string, rest: string)
    requires !HasNewline(line)
    ensures StripEsHome(line + "\n" + rest) == StripEsHome(line) + "\n" + StripEsHome(rest)
    decreases |line|
  {
    var s := line + "\n" + rest;
    if |line| == 0 {
      assert s == "\n" + rest;
      StripStartsWithNewline(s);
      assert s[1..] == rest;
    } else if StartsWith(line, Marker) {
      StripSplitsAtMarkerLine(line, rest);
    } else {
      MarkerWithinLine(line, rest);
      TailHasNoNewline(line);
      StripKeepsFirst(s);
      StripKeepsFirst(line);
      assert s[1..] == line[1..] + "\n" + rest;
      StripSplitsAtNewline(line[1..], rest);
    }
  }

  /** A line that starts with the marker is removed whole; its newline stays. */
  lemma StripSplitsAtMarkerLine(line: string, rest: string)
    requires !HasNewline(line) && StartsWith(line, Marker)
    ensures StripEsHome(line + "\n" + rest) == StripEsHome(line) + "\n" + StripEsHome(rest)
  {
    var s := line + "\n" + rest;
    MarkerWithinLine(line, rest);
    LineEndOfLine(line);
    StripAfterMarker(line);
    assert line[|line|..] == "";
    LineEndAfterLine(line, rest);
    StripAfterMarker(s);
    assert s[|line|..] == "\n" + rest;
    StripStartsWithNewline("\n" + rest);
    assert ("\n" + rest)[1..] == rest;
  }

  lemma {:induction false} LineEndAfterLine(line: string, rest: string)
    requires !HasNewline(line)
    ensures LineEnd(line + "\n" + rest) == |line|
    decreases |line|
  {
    var s := line + "\n" + rest;
    if |line| > 0 {
      TailHasNoNewline(line);
      LineEndAfterLine(line[1..], rest);
      assert s[1..] == line[1..] + "\n" + rest;
    }
  }

  /** An independent description of the rewrite: split the text into lines,
      cut every line at its first `ES_HOME=`, join the lines again. Line
      breaks and all text before each marker are kept. */
  lemma {:induction false} StripIsLineWiseCut(s: string)
    ensures StripEsHome(s) == Unlines(CutLines(Lines(s)))
    decreases |s|
  {
    var k := LineEnd(s);
    var line := s[..k];
    assert !HasNewline(line) by {
      forall i | 0 <= i < |line| ensures line[i] != '\n' {
        assert line[i] == s[i];
      }
    }
    if k == |s| {
      assert line == s;
      StripLine(s);
    } else {
      var rest := s[k + 1..];
      assert s == line + "\n" + rest;
      StripSplitsAtNewline(line, rest);
      StripLine(line);
      StripIsLineWiseCut(rest);
      assert CutLines(Lines(s))[1..] == CutLines(Lines(rest));
    }
  }

  /** Writing `body` from the start of a file opened `r+` that held `original`,
      without truncating it: `body` replaces the first `|body|` characters
      and whatever lies beyond them stays. */
  function RewriteInPlace(original: string, body: string): (r: string)
    ensures StartsWith(r, body)
    ensures |r| == if |body| >= |original| then |body| else |original|
    ensures |body| < |original| ==> r[|body|..] == original[|body|..]
  {
    if |body| >= |original| then body else body + original[|body|..]
  }

  /** The launcher as the rewrite leaves it on disk: as long as the
      original, beginning with the substituted text, followed by the
      original's last characters. */
  lemma RewrittenLauncherKeepsTail(text: string)
    ensures var body := StripEsHome(text);
            && |RewriteInPlace(text, body)| == |text|
            && RewriteInPlace(text, body) == body + text[|body|..]
  {
  }

  /** A line holding only a marker assignment is removed up to its newline. */
  lemma StripMarkerLine(value: string, rest: string)
    requires !HasNewline(value)
    ensures StripEsHome(Marker + value + "\n" + rest) == StripEsHome("\n" + rest)
  {
    var s := Marker + value + "\n" + rest;
    assert StartsWith(s, Marker) by { assert s[..|Marker|] == Marker; }
    LineEndAfterPrefix(Marker + value, rest);
    assert s[|Marker + value|..] == "\n" + rest;
  }

  lemma {:induction false} LineEndAfterPrefix(line: string, rest: string)
    requires !HasNewline(line)
    ensures LineEnd(line + "\n" + rest) == |line|
    decreases |line|
  {
    if |line| > 0 {
      TailHasNoNewline(line);
      LineEndAfterPrefix(line[1..], rest);
      assert (line + "\n" + rest)[1..] == line[1..] + "\n" + rest;
    }
  }

  /** Two assignment lines rewrite to their two newlines. */
  lemma StripTwoAssignments(a: string, b: string)
    requires !HasNewline(a) && !HasNewline(b)
    ensures StripEsHome(Marker + a + "\n" + Marker + b + "\n") == "\n\n"
  {
    var second := Marker + b + "\n";
    assert Marker + a + "\n" + Marker + b + "\n" == Marker + a + "\n" + second;
    StripMarkerLine(a, second);
    var nl: string := "\n";
    assert StripEsHome(nl + second) == nl + StripEsHome(second) by {
      assert !StartsWith(nl + second, Marker);
      assert (nl + second)[1..] == second;
    }
    assert second == Marker + b + "\n" + "";
    StripMarkerLine(b, "");
    assert StripEsHome(nl + "") == nl by {
      assert !StartsWith(nl, Marker);
      assert nl[1..] == "";
    }
  }

  /** The defect of rewriting without truncating: for a launcher of two
      assignment lines, say `ES_HOME=a` and `ES_HOME=b`, the rewrite leaves
      just the two newlines, the rest of the original survives behind them,
      and the second `ES_HOME=` is still in the file. */
  lemma {:induction false} LeftoverMarkerAsWritten(a: string, b: string)
    requires !HasNewline(a) && !HasNewline(b)
    ensures var text := Marker + a + "\n" + Marker + b + "\n";
            && StripEsHome(text) == "\n\n"
            && MarkerIndex(RewriteInPlace(text, StripEsHome(text))).Some?
  {
    var text := Marker + a + "\n" + Marker + b + "\n";
    StripTwoAssignments(a, b);
    var onDisk := RewriteInPlace(text, "\n\n");
    var p := |Marker| + |a| + 1;
    assert text[p..p + |Marker|] == Marker;
    assert onDisk[2..] == text[2..];
    assert onDisk[p..p + |Marker|] == Marker;
    assert MarkerAt(onDisk, p);
  }
}
