/** The two ways the standard library cuts a string into pieces that the
    network-range resolver uses: `str::split(',')` for inline ranges and
    `str::lines()` for a range file. */
module TextSplit {

  /** How many times `c` occurs in `s`. */
  function Count(s: string, c: char): nat
    decreases |s|
  {
    if s == [] then 0 else (if s[0] == c then 1 else 0) + Count(s[1..], c)
  }

  /** `s.split(sep)`: the maximal runs between separators, in order; an
      empty string gives one empty piece, two adjacent separators an empty
      piece between them. */
  function Split(s: string, sep: char): (pieces: seq<string>)
    ensures |pieces| == Count(s, sep) + 1
    ensures forall i :: 0 <= i < |pieces| ==> sep !in pieces[i]
    decreases |s|
  {
    if s == [] then [""]
    else
      var rest := Split(s[1..], sep);
      if s[0] == sep then [""] + rest
      else [[s[0]] + rest[0]] + rest[1..]
  }

  /** The pieces glued back together with `sep` between neighbours. */
  function Join(pieces: seq<string>, sep: char): string
    decreases |pieces|
  {
    if pieces == [] then ""
    else if |pieces| == 1 then pieces[0]
    else pieces[0] + [sep] + Join(pieces[1..], sep)
  }

  /** Splitting loses nothing: joining the pieces gives the input back. */
  lemma {:induction false} JoinSplit(s: string, sep: char)
    ensures Join(Split(s, sep), sep) == s
    decreases |s|
  {
    if s != [] {
      var rest := Split(s[1..], sep);
      JoinSplit(s[1..], sep);
      if s[0] == sep {
        assert Split(s, sep)[1..] == rest;
      } else {
        var pieces := Split(s, sep);
        if |rest| == 1 {
          assert pieces == [[s[0]] + rest[0]];
        } else {
          assert pieces[1..] == rest[1..];
          assert Join(rest, sep) == rest[0] + [sep] + Join(rest[1..], sep);
        }
      }
    }
  }

  /** A prefix without separators stays glued to the first piece of what follows. */
  lemma {:induction false} SplitPrefix(p: string, t: string, sep: char)
    requires sep !in p
    ensures Split(p + t, sep) == [p + Split(t, sep)[0]] + Split(t, sep)[1..]
    decreases |p|
  {
    if p != [] {
      assert (p + t)[1..] == p[1..] + t;
      SplitPrefix(p[1..], t, sep);
      assert [p[0]] + (p[1..] + Split(t, sep)[0]) == p + Split(t, sep)[0];
    } else {
      var rest := Split(t, sep);
      assert p + t == t;
      assert p + rest[0] == rest[0];
      assert rest == [rest[0]] + rest[1..];
    }
  }

  /** Joining pieces that hold no separator and splitting again gives the
      same pieces back. */
  lemma {:induction false} SplitJoin(pieces: seq<string>, sep: char)
    requires |pieces| > 0
    requires forall i :: 0 <= i < |pieces| ==> sep !in pieces[i]
    ensures Split(Join(pieces, sep), sep) == pieces
    decreases |pieces|
  {
    if |pieces| == 1 {
      SplitPrefix(pieces[0], "", sep);
      assert pieces[0] + "" == pieces[0];
    } else {
      var tail := Join(pieces[1..], sep);
      SplitJoin(pieces[1..], sep);
      assert pieces[0] + [sep] + tail == pieces[0] + ([sep] + tail);
      SplitPrefix(pieces[0], [sep] + tail, sep);
      assert ([sep] + tail)[1..] == tail;
      assert Split([sep] + tail, sep) == [""] + pieces[1..];
      assert pieces[0] + "" == pieces[0];
    }
  }

  /** The last piece of a split is empty exactly when the string is empty
      or ends with the separator. */
  lemma {:induction false} SplitLastEmpty(s: string, sep: char)
    ensures var pieces := Split(s, sep);
      pieces[|pieces| - 1] == "" <==> s == [] || s[|s| - 1] == sep
    decreases |s|
  {
    if s != [] {
      SplitLastEmpty(s[1..], sep);
      var rest := Split(s[1..], sep);
      if |rest| > 1 || s[0] == sep {
        assert s[1..] != [] ==> s[1..][|s[1..]| - 1] == s[|s| - 1];
      }
    }
  }

  /** One line with the carriage return of a CRLF ending taken off. */
  function StripCr(line: string): string {
    if |line| > 0 && line[|line| - 1] == '\r' then line[..|line| - 1] else line
  }

  /** `s.lines()`: split at line feeds, with no empty line after a final
      line feed, and one trailing carriage return stripped from each line. */
  function Lines(s: string): (lines: seq<string>)
    ensures forall i :: 0 <= i < |lines| ==> '\n' !in lines[i]
  {
    var pieces := Split(s, '\n');
    var terminated := if pieces[|pieces| - 1] == "" then pieces[..|pieces| - 1] else pieces;
    seq(|terminated|, i requires 0 <= i < |terminated| => StripCr(terminated[i]))
  }

  /** The number of lines: one per line feed, plus one for an unterminated last line. */
  lemma LineCount(s: string)
    ensures |Lines(s)| == if s == [] || s[|s| - 1] == '\n' then Count(s, '\n') else Count(s, '\n') + 1
  {
    SplitLastEmpty(s, '\n');
  }

  /** Each line followed by a line feed, as a file with a final newline holds them. */
  function Terminated(lines: seq<string>): string
    decreases |lines|
  {
    if lines == [] then "" else lines[0] + "\n" + Terminated(lines[1..])
  }

  lemma {:induction false} TerminatedIsJoin(lines: seq<string>)
    ensures Terminated(lines) == Join(lines + [""], '\n')
    decreases |lines|
  {
    if lines != [] {
      TerminatedIsJoin(lines[1..]);
      assert (lines + [""])[1..] == lines[1..] + [""];
    }
  }

  /** The lines of a text that splits into `lines` and one empty final
      piece are `lines`, when none of them ends with a carriage return. */
  lemma LinesOfSplit(s: string, lines: seq<string>)
    requires Split(s, '\n') == lines + [""]
    requires forall i :: 0 <= i < |lines| ==> StripCr(lines[i]) == lines[i]
    ensures Lines(s) == lines
  {
    var result := Lines(s);
    assert |result| == |lines|;
    forall i | 0 <= i < |lines| ensures result[i] == lines[i] {
      assert result[i] == StripCr((lines + [""])[i]);
    }
  }

  lemma NoNewlineAppendEmpty(lines: seq<string>)
    requires forall i :: 0 <= i < |lines| ==> '\n' !in lines[i]
    ensures forall i :: 0 <= i < |lines + [""]| ==> '\n' !in (lines + [""])[i]
  {
    forall i | 0 <= i < |lines + [""]| ensures '\n' !in (lines + [""])[i] {
      if i < |lines| { assert (lines + [""])[i] == lines[i]; }
    }
  }

  /** Reading back a file written one line per line feed gives the lines,
      as long as none holds a line feed or ends with a carriage return. */
  lemma LinesOfTerminated(lines: seq<string>)
    requires forall i :: 0 <= i < |lines| ==> '\n' !in lines[i]
    requires forall i :: 0 <= i < |lines| ==> StripCr(lines[i]) == lines[i]
    ensures Lines(Terminated(lines)) == lines
  {
    TerminatedIsJoin(lines);
    NoNewlineAppendEmpty(lines);
    SplitJoin(lines + [""], '\n');
    LinesOfSplit(Terminated(lines), lines);
  }

  /** Reading back a file whose last line has no line feed after it gives
      the lines, as long as none holds a line feed or ends with a carriage
      return and the last one is not empty. */
  lemma LinesOfJoined(lines: seq<string>)
    requires |lines| > 0 && lines[|lines| - 1] != ""
    requires forall i :: 0 <= i < |lines| ==> '\n' !in lines[i]
    requires forall i :: 0 <= i < |lines| ==> StripCr(lines[i]) == lines[i]
    ensures Lines(Join(lines, '\n')) == lines
  {
    SplitJoin(lines, '\n');
    LinesOfPieces(Join(lines, '\n'), lines);
  }

  /** The lines of a text whose split ends with a non-empty piece are all
      the pieces, when none of them ends with a carriage return. */
  lemma LinesOfPieces(s: string, pieces: seq<string>)
    requires Split(s, '\n') == pieces && |pieces| > 0 && pieces[|pieces| - 1] != ""
    requires forall i :: 0 <= i < |pieces| ==> StripCr(pieces[i]) == pieces[i]
    ensures Lines(s) == pieces
  {
    var result := Lines(s);
    assert |result| == |pieces|;
    forall i | 0 <= i < |result| ensures result[i] == pieces[i] {
      assert result[i] == StripCr(pieces[i]);
    }
  }

  /** Each line followed by a carriage return and a line feed, as a file
      written with Windows line endings holds them. */
  function Crlf(lines: seq<string>): string
    decreases |lines|
  {
    if lines == [] then "" else lines[0] + "\r\n" + Crlf(lines[1..])
  }

  /** Each line with a carriage return appended. */
  function WithCr(lines: seq<string>): (pieces: seq<string>)
    ensures |pieces| == |lines|
    ensures forall i :: 0 <= i < |lines| ==> pieces[i] == lines[i] + "\r"
  {
    seq(|lines|, i requires 0 <= i < |lines| => lines[i] + "\r")
  }

  lemma {:induction false} CrlfIsJoin(lines: seq<string>)
    ensures Crlf(lines) == Join(WithCr(lines) + [""], '\n')
    decreases |lines|
  {
    if lines != [] {
      CrlfIsJoin(lines[1..]);
      var all := WithCr(lines) + [""];
      assert all[1..] == WithCr(lines[1..]) + [""];
      assert lines[0] + "\r\n" + Crlf(lines[1..]) == (lines[0] + "\r") + ['\n'] + Crlf(lines[1..]);
    }
  }

  /** A carriage return appended is the one `StripCr` takes off. */
  lemma StripCrOfCr(line: string)
    ensures StripCr(line + "\r") == line
  {
    assert (line + "\r")[..|line|] == line;
  }

  lemma NoNewlineWithCr(lines: seq<string>)
    requires forall i :: 0 <= i < |lines| ==> '\n' !in lines[i]
    ensures forall i :: 0 <= i < |WithCr(lines) + [""]| ==> '\n' !in (WithCr(lines) + [""])[i]
  {
    var all := WithCr(lines) + [""];
    forall i | 0 <= i < |all| ensures '\n' !in all[i] {
      if i < |lines| {
        assert all[i] == lines[i] + "\r";
      }
    }
  }

  /** The lines of a text that splits into the CR-ended `lines` and one
      empty final piece are `lines` without their carriage returns. */
  lemma LinesOfCrSplit(s: string, lines: seq<string>)
    requires Split(s, '\n') == WithCr(lines) + [""]
    ensures Lines(s) == lines
  {
    var result := Lines(s);
    assert |result| == |lines|;
    forall i | 0 <= i < |lines| ensures result[i] == lines[i] {
      assert result[i] == StripCr((WithCr(lines) + [""])[i]);
      StripCrOfCr(lines[i]);
    }
  }

  /** Reading back a file written with CRLF line endings gives the lines
      without their carriage returns, as long as none holds a line feed. */
  lemma LinesOfCrlf(lines: seq<string>)
    requires forall i :: 0 <= i < |lines| ==> '\n' !in lines[i]
    ensures Lines(Crlf(lines)) == lines
  {
    CrlfIsJoin(lines);
    NoNewlineWithCr(lines);
    SplitJoin(WithCr(lines) + [""], '\n');
    LinesOfCrSplit(Crlf(lines), lines);
  }
}
