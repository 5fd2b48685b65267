/**
 The kernel-log filter both scripts run on every line of `journalctl -f -t
 kernel`, and the buffer it feeds.
 */
module Journal {
  import opened Text

  /**
   A line is kept when its lower-cased form mentions "btrfs" and it matches
   `(error|warn)` ignoring case. Case-insensitive search for a lower-case
   pattern is search in the lowered line.
   */
  predicate IsBtrfsProblem(line: string)
  {
    var l := Lower(line);
    Contains(l, "btrfs") && (Contains(l, "error") || Contains(l, "warn"))
  }

  /**
   Only letter case is looked at: a line and its lower-cased form are kept
   alike. This is no more than `IsBtrfsProblem` being defined on the
   lowered line together with `LowerIdempotent`.
   */
  lemma FilterIgnoresCase(line: string)
    ensures IsBtrfsProblem(line) <==> IsBtrfsProblem(Lower(line))
  {
    LowerIdempotent(line);
  }

  /**
   One line arriving from the journal: a kept line is appended, stripped,
   at the end of the buffer; any other line leaves the buffer as it was.
   */
  function Collect(buffer: seq<string>, line: string): (r: seq<string>)
    ensures buffer <= r
    ensures |r| == |buffer| + (if IsBtrfsProblem(line) then 1 else 0)
    ensures |r| > |buffer| ==> r[|buffer|] == Strip(line)
  {
    if IsBtrfsProblem(line) then buffer + [Strip(line)] else buffer
  }

  /** Reference definition: the kept lines of a stretch of journal, stripped, in arrival order. */
  function Relevant(lines: seq<string>): seq<string>
  {
    if |lines| == 0 then []
    else (if IsBtrfsProblem(lines[0]) then [Strip(lines[0])] else []) + Relevant(lines[1..])
  }

  /** A stretch of journal lines fed to the collector one at a time. */
  function CollectAll(buffer: seq<string>, lines: seq<string>): seq<string>
    decreases |lines|
  {
    if |lines| == 0 then buffer else CollectAll(Collect(buffer, lines[0]), lines[1..])
  }

  /**
   Feeding lines one by one appends exactly the relevant ones, in order and
   without deduplication, behind whatever the buffer already held.
   */
  lemma {:induction false} CollectAllAppendsRelevant(buffer: seq<string>, lines: seq<string>)
    ensures CollectAll(buffer, lines) == buffer + Relevant(lines)
    decreases |lines|
  {
    if |lines| > 0 {
      var head := if IsBtrfsProblem(lines[0]) then [Strip(lines[0])] else [];
      var rest := Relevant(lines[1..]);
      assert Collect(buffer, lines[0]) == buffer + head;
      assert Relevant(lines) == head + rest;
      assert CollectAll(buffer, lines) == CollectAll(buffer + head, lines[1..]);
      CollectAllAppendsRelevant(buffer + head, lines[1..]);
      assert (buffer + head) + rest == buffer + (head + rest);
    }
  }

  /** Splitting the stream anywhere loses and reorders nothing. */
  lemma {:induction false} RelevantAppend(a: seq<string>, b: seq<string>)
    ensures Relevant(a + b) == Relevant(a) + Relevant(b)
    decreases |a|
  {
    if |a| > 0 {
      assert (a + b)[1..] == a[1..] + b;
      RelevantAppend(a[1..], b);
    } else {
      assert a + b == b;
    }
  }
}
