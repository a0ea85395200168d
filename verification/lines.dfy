/** Line framing on the control channels: Go's `bufio.Scanner` with its
    default `ScanLines` split function, which both control servers and the
    cleanup service read through, and the newline-terminated writes
    (`fmt.Fprintln`, an explicit "\n") their peers produce. */
module Lines {
  import opened Common

  /** Index of the first newline, if any. */
  function NewlineAt(s: string): (r: Option<nat>)
    ensures r.Some? ==> r.value < |s| && s[r.value] == '\n' && '\n' !in s[..r.value]
    ensures r.None? ==> '\n' !in s
  {
    if |s| == 0 then None
    else if s[0] == '\n' then Some(0)
    else
      match NewlineAt(s[1..])
      case None =>
        assert s == [s[0]] + s[1..];
        None
      case Some(i) =>
        assert s[..i + 1] == [s[0]] + s[1..][..i];
        Some(i + 1)
  }

  /** A line's carriage return before the newline is not part of the token. */
  function DropCR(s: string): (r: string)
    ensures |s| > 0 && s[|s| - 1] == '\r' ==> s == r + "\r"
    ensures !(|s| > 0 && s[|s| - 1] == '\r') ==> r == s
  {
    if |s| > 0 && s[|s| - 1] == '\r' then s[..|s| - 1] else s
  }

  /** The tokens `Scan`/`Text` return for a stream that ends after `data`:
      each newline ends a token (a trailing "\r" dropped); a last line
      without a newline is still a token; a final newline does not start an
      empty one. */
  function ScanLines(data: string): (r: seq<string>)
    ensures forall i :: 0 <= i < |r| ==> '\n' !in r[i]
    ensures |data| > 0 <==> |r| > 0
    decreases |data|
  {
    if |data| == 0 then []
    else
      match NewlineAt(data)
      case None => [DropCR(data)]
      case Some(i) =>
        assert '\n' !in DropCR(data[..i]) by {
          if |data[..i]| > 0 && data[..i][|data[..i]| - 1] == '\r' {
            assert DropCR(data[..i]) == data[..i][..i - 1];
          }
        }
        [DropCR(data[..i])] + ScanLines(data[i + 1..])
  }

  /** What a peer writes for `lines`, one `Fprintln` each. */
  function JoinLines(lines: seq<string>): string
  {
    if |lines| == 0 then "" else lines[0] + "\n" + JoinLines(lines[1..])
  }

  /** A line the scanner returns unchanged: no newline, no trailing "\r". */
  predicate PlainLine(l: string)
  {
    '\n' !in l && !(|l| > 0 && l[|l| - 1] == '\r')
  }

  lemma FirstNewline(a: string, b: string)
    requires '\n' !in a
    ensures NewlineAt(a + "\n" + b) == Some(|a|)
  {
    var d := a + "\n" + b;
    assert d[|a|] == '\n';
    assert forall j :: 0 <= j < |a| ==> d[j] == a[j];
  }

  /** Reading back what a peer wrote, one line per `Fprintln`, gives the
      lines it wrote. */
  lemma {:induction false} ScanJoin(lines: seq<string>)
    requires forall i :: 0 <= i < |lines| ==> PlainLine(lines[i])
    ensures ScanLines(JoinLines(lines)) == lines
  {
    if |lines| > 0 {
      var a := lines[0];
      var rest := JoinLines(lines[1..]);
      var d := a + "\n" + rest;
      assert PlainLine(lines[0]);
      FirstNewline(a, rest);
      assert d[..|a|] == a;
      assert d[|a| + 1..] == rest;
      ScanJoin(lines[1..]);
    }
  }

  /** A "\r\n" line ending and a missing final newline read the same as
      "\n"; an empty line is a token of its own. */
  lemma ScanExamples()
    ensures ScanLines("11\r\n") == ["11"]
    ensures ScanLines("11") == ["11"]
    ensures ScanLines("\n5\n") == ["", "5"]
  {
    assert NewlineAt("11\r\n") == Some(3) by { FirstNewline("11\r", ""); }
    assert "11\r\n"[..3] == "11\r" && "11\r"[..2] == "11";
    assert NewlineAt("\n5\n") == Some(0);
    assert "\n5\n"[1..] == "5\n";
    assert NewlineAt("5\n") == Some(1) by { FirstNewline("5", ""); }
    assert "5\n"[..1] == "5";
  }
}
