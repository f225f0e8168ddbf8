/** The bounded buffers around restic: the last bytes of a stream, and the last lines of one. */
module TailBuffers {
  import opened Common
  import opened Text
  import opened Redaction

  /** The three ways the tail grows: everything fits, only the new part counts, or the old tail is cut to make room. */
  lemma TailGrows<T>(h: seq<T>, p: seq<T>, n: nat)
    ensures |Last(h, n)| + |p| <= n ==> Last(h + p, n) == Last(h, n) + p && (|h + p| > n <==> |h| > n)
    ensures |Last(h, n)| + |p| > n ==> |h + p| > n
    ensures |p| >= n ==> Last(h + p, n) == p[|p| - n..]
    ensures |p| < n && |Last(h, n)| + |p| > n ==>
      Last(h + p, n) == Last(h, n)[|Last(h, n)| + |p| - n..] + p
  {
    var y := h + p;
    if |p| >= n {
      assert y[|y| - n..] == p[|p| - n..];
    }
    if |Last(h, n)| + |p| > n {
      assert |p| < n ==> y[|y| - n..] == Last(h, n)[|Last(h, n)| + |p| - n..] + p;
    }
  }

  const MARKER := "...[truncated]...\n"
  const MAX_STDOUT := 1048576
  const MAX_STDERR := 4096
  const MAX_TAIL_LINES := 200

  /** Moves src[from..from+count] to the front of the same array, as copy does on overlapping slices. */
  method ShiftDown<T>(a: array<T>, from: nat, count: nat)
    requires from + count <= a.Length
    modifies a
    ensures a[..count] == old(a[from..from + count])
    ensures forall i :: count <= i < a.Length ==> a[i] == old(a[i])
  {
    for i := 0 to count
      invariant forall k :: 0 <= k < i ==> a[k] == old(a[from + k])
      invariant forall k :: i <= k < a.Length ==> a[k] == old(a[k])
    {
      a[i] := a[from + i];
    }
  }

  class TailBuffer {
    const max: nat
    const buf: array<char>
    var len: nat
    var truncated: bool
    ghost var history: string     // everything written so far

    ghost predicate Valid()
      reads this, buf
    {
      && buf.Length == max && len <= max
      && buf[..len] == Last(history, max)
      && (truncated <==> |history| > max)
    }

    constructor (max: nat)
      ensures Valid() && history == "" && this.max == max && fresh(buf)
    {
      this.max := max;
      buf := new char[max];
      len, truncated, history := 0, false, "";
    }

    /** Appends p in place; afterwards the buffer is again the tail of everything written. */
    method Write(p: string) returns (n: nat)
      requires Valid()
      modifies this`len, this`truncated, this`history, buf
      ensures Valid() && n == |p| && history == old(history) + p
    {
      n := |p|;
      TailGrows(history, p, max);
      ghost var before := buf[..len];
      history := history + p;
      if len + n <= max {
        Append(p);
        return;
      }
      truncated := true;
      if n >= max {
        len := 0;
        Append(p[n - max..]);
        return;
      }
      var keep := max - n;
      assert before[len - keep..] == buf[len - keep..len - keep + keep];
      ShiftDown(buf, len - keep, keep);
      len := keep;
      Append(p);
    }

    method Append(p: string)
      requires len + |p| <= buf.Length
      modifies this`len, buf
      ensures len == old(len) + |p| && buf[..len] == old(buf[..len]) + p
    {
      for i := 0 to |p|
        invariant len == old(len)
        invariant buf[..len] == old(buf[..len])
        invariant buf[len..len + i] == p[..i]
      {
        buf[len + i] := p[i];
      }
      assert p[..|p|] == p && buf[..len + |p|] == buf[..len] + buf[len..len + |p|];
      len := len + |p|;
    }

    method String() returns (s: string)
      requires Valid()
      ensures s == (if |history| > max then MARKER else "") + Last(history, max)
    {
      if truncated { return MARKER + buf[..len]; }
      return buf[..len];
    }
  }

  /** The stream as it was framed: every line with its newline. */
  function Framed(lines: seq<string>): string
  {
    if lines == [] then "" else Framed(lines[..|lines| - 1]) + lines[|lines| - 1] + "\n"
  }

  /** Line by line, each followed by a newline. */
  lemma {:induction false} FramedLines(a: seq<string>, b: seq<string>, line: string)
    ensures Framed([]) == "" && Framed([line]) == line + "\n" && Framed(a + b) == Framed(a) + Framed(b)
  {
    assert [line][..0] == [] && "" + line == line;
    if b == [] {
      assert a + b == a;
    } else {
      var n := |b| - 1;
      FramedLines(a, b[..n], line);
      assert (a + b)[..|a + b| - 1] == a + b[..n];
    }
  }

  /** What runRestic returns of standard output. */
  method CollectStdout(lines: seq<string>) returns (s: string)
    ensures |Framed(lines)| <= 1_048_576 ==> s == Framed(lines)
    ensures |Framed(lines)| > 1_048_576 ==>
      exists before, kept :: Framed(lines) == before + kept && |kept| == 1_048_576 && s == "...[truncated]...\n" + kept
    ensures s == (if |Framed(lines)| > MAX_STDOUT then MARKER else "") + Last(Framed(lines), MAX_STDOUT)
  {
    var out := new TailBuffer(MAX_STDOUT);
    for i := 0 to |lines|
      invariant out.Valid() && fresh(out) && fresh(out.buf)
      invariant out.max == MAX_STDOUT && out.history == Framed(lines[..i])
    {
      var n := out.Write(lines[i]);
      n := out.Write("\n");
      assert lines[..i + 1][..i] == lines[..i];
    }
    assert lines[..|lines|] == lines;
    s := out.String();
    LastIsEnd(Framed(lines), MAX_STDOUT);
  }

  function Concat(chunks: seq<string>): string
  {
    if chunks == [] then "" else Concat(chunks[..|chunks| - 1]) + chunks[|chunks| - 1]
  }

  lemma {:induction false} ConcatChunks(a: seq<string>, b: seq<string>, chunk: string)
    ensures Concat([]) == "" && Concat([chunk]) == chunk && Concat(a + b) == Concat(a) + Concat(b)
  {
    assert [chunk][..0] == [] && "" + chunk == chunk;
    if b == [] {
      assert a + b == a;
    } else {
      var n := |b| - 1;
      ConcatChunks(a, b[..n], chunk);
      assert (a + b)[..|a + b| - 1] == a + b[..n];
    }
  }

  /** Standard error as streamRestic returns it: the tail of all writes with the password masked, so that
      a password without stars does not occur in it. */
  method CaptureStderr(chunks: seq<string>, password: string) returns (s: string)
    ensures s == Redact((if |Concat(chunks)| > MAX_STDERR then MARKER else "") + Last(Concat(chunks), MAX_STDERR), password)
    ensures password != "" && '*' !in password ==> !Contains(s, password)
    ensures password == "" && |Concat(chunks)| <= 4096 ==> s == Concat(chunks)
    ensures password == "" && |Concat(chunks)| > 4096 ==>
      exists before, kept :: Concat(chunks) == before + kept && |kept| == 4096 && s == "...[truncated]...\n" + kept
  {
    var err := new TailBuffer(MAX_STDERR);
    for i := 0 to |chunks|
      invariant err.Valid() && fresh(err) && fresh(err.buf)
      invariant err.max == MAX_STDERR && err.history == Concat(chunks[..i])
    {
      var n := err.Write(chunks[i]);
      assert chunks[..i + 1][..i] == chunks[..i];
    }
    assert chunks[..|chunks|] == chunks;
    var raw := err.String();
    s := Redact(raw, password);
    LastIsEnd(Concat(chunks), MAX_STDERR);
    if password != "" && '*' !in password { StarlessIsRemoved(raw, password); }
  }

  // ---- the lines of a backup ----

  /** How restic's JSON reads a line; parsed is false when a summary message does not decode. */
  datatype Kind = NotJson | Status | Summary(parsed: bool, snapshotId: string) | Other

  /** The lines kept for diagnostics, in order. */
  function Diagnostics(kind: string -> Kind, lines: seq<string>): seq<string>
  {
    if lines == [] then []
    else
      var line := lines[|lines| - 1];
      Diagnostics(kind, lines[..|lines| - 1]) + if Kept(kind(line)) then [line] else []
  }

  predicate Kept(k: Kind) { k.NotJson? || k.Other? || (k.Summary? && !k.parsed) }

  function Count(kind: string -> Kind, lines: seq<string>): nat
  {
    if lines == [] then 0
    else Count(kind, lines[..|lines| - 1]) + if kind(lines[|lines| - 1]).Status? then 1 else 0
  }

  /** Text, other messages and summaries that do not decode are kept, line by line; status lines are counted. */
  lemma {:induction false} DiagnosticLines(kind: string -> Kind, a: seq<string>, b: seq<string>, line: string)
    ensures Diagnostics(kind, []) == [] && Diagnostics(kind, a + b) == Diagnostics(kind, a) + Diagnostics(kind, b)
    ensures kind(line) == NotJson || kind(line) == Other ==> Diagnostics(kind, [line]) == [line]
    ensures kind(line) == Status ==> Diagnostics(kind, [line]) == []
    ensures kind(line).Summary? ==> Diagnostics(kind, [line]) == if kind(line).parsed then [] else [line]
    ensures Count(kind, []) == 0 && Count(kind, [line]) == (if kind(line) == Status then 1 else 0)
    ensures Count(kind, a + b) == Count(kind, a) + Count(kind, b)
  {
    assert [line][..0] == [] && [] + [line] == [line];
    if b == [] {
      assert a + b == a;
    } else {
      var n := |b| - 1;
      DiagnosticLines(kind, a, b[..n], line);
      assert (a + b)[..|a + b| - 1] == a + b[..n];
    }
  }

  predicate SummaryAt(kind: string -> Kind, lines: seq<string>, i: int)
  {
    0 <= i < |lines| && kind(lines[i]).Summary? && kind(lines[i]).parsed
  }

  ghost predicate LastSummary(kind: string -> Kind, lines: seq<string>, i: int)
  {
    SummaryAt(kind, lines, i) && forall j :: i < j ==> !SummaryAt(kind, lines, j)
  }

  class LineTail {
    const tail: array<string>
    var n: nat
    ghost var history: seq<string>

    ghost predicate Valid()
      reads this, tail
    {
      n <= tail.Length == MAX_TAIL_LINES && tail[..n] == Last(history, MAX_TAIL_LINES)
    }

    constructor ()
      ensures Valid() && history == [] && fresh(tail)
    {
      tail := new string[MAX_TAIL_LINES](_ => "");
      n, history := 0, [];
    }

    method Add(line: string)
      requires Valid()
      modifies this`n, this`history, tail
      ensures Valid() && history == old(history) + [line]
    {
      TailGrows(history, [line], MAX_TAIL_LINES);
      history := history + [line];
      if n < tail.Length {
        tail[n] := line;
        n := n + 1;
        assert tail[..n] == old(tail[..n]) + [line];
        return;
      }
      DropOldest(line);
    }

    method DropOldest(line: string)
      requires 0 < n == tail.Length
      modifies tail
      ensures tail[..n] == old(tail[..n])[1..] + [line]
    {
      ShiftDown(tail, 1, n - 1);
      assert old(tail[1..1 + (n - 1)]) == old(tail[..n])[1..];
      tail[n - 1] := line;
      assert tail[..n - 1] == old(tail[..n])[1..];
    }
  }

  /** The callback of Backup over a whole run: status lines are only counted, the last summary that
      decodes wins, and of everything else the last 200 lines are kept in order. */
  method ReadBackup(kind: string -> Kind, lines: seq<string>)
    returns (tail: seq<string>, statusSeen: nat, found: bool, snapshotId: string)
    ensures tail == Last(Diagnostics(kind, lines), MAX_TAIL_LINES)
    ensures statusSeen == Count(kind, lines)
    ensures found <==> exists i :: SummaryAt(kind, lines, i)
    ensures found ==> exists i :: LastSummary(kind, lines, i) && kind(lines[i]).snapshotId == snapshotId
    ensures found <==> exists i :: 0 <= i < |lines| && kind(lines[i]).Summary? && kind(lines[i]).parsed
    ensures |tail| <= 200
  {
    var keep := new LineTail();
    statusSeen, found, snapshotId := 0, false, "";
    ghost var last := -1;
    for i := 0 to |lines|
      invariant keep.Valid() && fresh(keep) && fresh(keep.tail) && keep.history == Diagnostics(kind, lines[..i])
      invariant statusSeen == Count(kind, lines[..i])
      invariant -1 <= last < i && (found <==> last >= 0)
      invariant last >= 0 ==> SummaryAt(kind, lines, last) && kind(lines[last]).snapshotId == snapshotId
      invariant forall j :: last < j < i ==> !SummaryAt(kind, lines, j)
    {
      var line := lines[i];
      assert lines[..i + 1][..i] == lines[..i] && lines[..i + 1][i] == line;
      match kind(line)
      case NotJson => keep.Add(line);
      case Status => statusSeen := statusSeen + 1;
      case Summary(parsed, id) =>
        if parsed {
          found, snapshotId, last := true, id, i;
        } else {
          keep.Add(line);
        }
      case Other => keep.Add(line);
    }
    assert lines[..|lines|] == lines;
    assert found ==> LastSummary(kind, lines, last);
    assert found ==> kind(lines[last]).Summary? && kind(lines[last]).parsed;
    assert forall i :: 0 <= i < |lines| && kind(lines[i]).Summary? && kind(lines[i]).parsed ==> SummaryAt(kind, lines, i);
    tail := keep.tail[..keep.n];
  }
}
