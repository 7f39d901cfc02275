// gate/render.go: parsing a unified diff and applying it to a text in place.
module UnifiedDiff {
  import opened Prelude
  import opened Text

  // A body line: the operation rune and its payload. The source keeps a hunk's
  // operations and payloads in two slices that always grow together.
  datatype Edit = Keep(text: string) | Remove(text: string) | Insert(text: string)

  datatype Hunk = Hunk(oldStart: int, oldLen: int, edits: seq<Edit>)

  datatype Error = NoHunks | MalformedHunk | ContextMiss

  // ---------------------------------------------------------------- parsing

  function SplitNum(s: string): (string, string) {
    var i := IndexOf(s, ',');
    if i < |s| then (s[..i], s[i + 1..]) else (s, "")
  }

  // The old range of a header, "start" or "start,length".
  function ParseOldRange(range: string): (r: Result<Hunk, Error>)
    ensures r.Ok? ==> r.value.edits == []
  {
    var (startText, lenText) := SplitNum(range);
    var start := Atoi(startText);
    var len := if lenText == "" then Some(1) else Atoi(lenText);
    if start.None? || len.None? then Err(MalformedHunk)
    else Ok(Hunk(start.value, len.value, []))
  }

  function ParseHunkHeader(line: string): (r: Result<Hunk, Error>)
    ensures r.Ok? ==> r.value.edits == []
  {
    var rest := TrimSpace(if HasPrefix(line, "@@") then line[2..] else line);
    var space := IndexOf(rest, ' ');
    if space == |rest| || !HasPrefix(rest, "-") then Err(MalformedHunk)
    else ParseOldRange(rest[1..space])
  }

  predicate FileHeader(line: string) {
    HasPrefix(line, "--- ") || HasPrefix(line, "+++ ")
  }

  // What a body line adds to the current hunk, if anything.
  function BodyLine(line: string): Option<Edit> {
    if line == "" then Some(Keep(""))
    else if line[0] == ' ' then Some(Keep(line[1..]))
    else if line[0] == '-' then Some(Remove(line[1..]))
    else if line[0] == '+' then Some(Insert(line[1..]))
    else if line[0] == '\\' then None
    else Some(Keep(line))
  }

  function AddEdit(h: Hunk, e: Edit): Hunk { h.(edits := h.edits + [e]) }

  // What one diff line does to the hunks read so far.
  function ParseLine(hunks: seq<Hunk>, line: string): Result<seq<Hunk>, Error> {
    if FileHeader(line) then Ok(hunks)
    else if HasPrefix(line, "@@") then
      match ParseHunkHeader(line)
      case Ok(h) => Ok(hunks + [h])
      case Err(e) => Err(e)
    else if hunks == [] then Ok(hunks)
    else
      match BodyLine(line)
      case None => Ok(hunks)
      case Some(e) => Ok(hunks[..|hunks| - 1] + [AddEdit(hunks[|hunks| - 1], e)])
  }

  function ParseFrom(hunks: seq<Hunk>, lines: seq<string>): Result<seq<Hunk>, Error>
    decreases |lines|
  {
    if lines == [] then Ok(hunks)
    else
      match ParseLine(hunks, lines[0])
      case Ok(next) => ParseFrom(next, lines[1..])
      case Err(e) => Err(e)
  }

  function Parse(diff: string): Result<seq<Hunk>, Error> {
    match ParseFrom([], Split(diff))
    case Ok(hunks) => if hunks == [] then Err(NoHunks) else Ok(hunks)
    case Err(e) => Err(e)
  }

  method ParseDiff(diff: string) returns (r: Result<seq<Hunk>, Error>)
    ensures r == Parse(diff)
    ensures r.Ok? ==> r.value != []
  {
    var lines := Split(diff);
    var hunks: seq<Hunk> := [];
    var i := 0;
    while i < |lines|
      invariant 0 <= i <= |lines|
      invariant ParseFrom([], lines) == ParseFrom(hunks, lines[i..])
    {
      var line := lines[i];
      assert lines[i..][1..] == lines[i + 1..];
      i := i + 1;
      if HasPrefix(line, "--- ") || HasPrefix(line, "+++ ") {
        continue;
      }
      if HasPrefix(line, "@@") {
        var parsed := ParseHunkHeader(line);
        if parsed.Err? {
          return Err(parsed.error);
        }
        hunks := hunks + [parsed.value];
        continue;
      }
      if hunks == [] {
        continue;
      }
      var cur := hunks[|hunks| - 1];
      if line == "" {
        cur := AddEdit(cur, Keep(""));
      } else {
        var op, payload := line[0], line[1..];
        if op == ' ' {
          cur := AddEdit(cur, Keep(payload));
        } else if op == '-' {
          cur := AddEdit(cur, Remove(payload));
        } else if op == '+' {
          cur := AddEdit(cur, Insert(payload));
        } else if op == '\\' {
          continue;
        } else {
          cur := AddEdit(cur, Keep(line));
        }
      }
      hunks := hunks[..|hunks| - 1] + [cur];
    }
    assert lines[i..] == [];
    r := if hunks == [] then Err(NoHunks) else Ok(hunks);
  }

  // ---------------------------------------------------------------- blocks

  // The lines a hunk expects, and the lines it puts in their place.
  function OldSide(edits: seq<Edit>): seq<string> {
    if edits == [] then []
    else
      var init := OldSide(edits[..|edits| - 1]);
      if edits[|edits| - 1].Insert? then init else init + [edits[|edits| - 1].text]
  }

  function NewSide(edits: seq<Edit>): seq<string> {
    if edits == [] then []
    else
      var init := NewSide(edits[..|edits| - 1]);
      if edits[|edits| - 1].Remove? then init else init + [edits[|edits| - 1].text]
  }

  method Blocks(h: Hunk) returns (oldBlock: seq<string>, newBlock: seq<string>)
    ensures oldBlock == OldSide(h.edits) && newBlock == NewSide(h.edits)
  {
    oldBlock, newBlock := [], [];
    for i := 0 to |h.edits|
      invariant oldBlock == OldSide(h.edits[..i])
      invariant newBlock == NewSide(h.edits[..i])
    {
      assert h.edits[..i + 1][..i] == h.edits[..i];
      match h.edits[i] {
        case Keep(text) =>
          oldBlock := oldBlock + [text];
          newBlock := newBlock + [text];
        case Remove(text) =>
          oldBlock := oldBlock + [text];
        case Insert(text) =>
          newBlock := newBlock + [text];
      }
    }
    assert h.edits[..|h.edits|] == h.edits;
  }

  predicate MatchesAt(src: seq<string>, want: seq<string>, i: int) {
    0 <= i && i + |want| <= |src| && src[i..i + |want|] == want
  }

  // The first match at or after i.
  function FirstMatch(src: seq<string>, want: seq<string>, i: nat): (r: Option<nat>)
    ensures r.Some? ==> i <= r.value && MatchesAt(src, want, r.value)
    decreases |src| - i
  {
    if i + |want| > |src| then None
    else if MatchesAt(src, want, i) then Some(i)
    else FirstMatch(src, want, i + 1)
  }

  lemma {:induction false} FirstMatchIsFirst(src: seq<string>, want: seq<string>, i: nat)
    ensures var r := FirstMatch(src, want, i);
            match r
            case Some(k) => i <= k && MatchesAt(src, want, k) && forall j | i <= j < k :: !MatchesAt(src, want, j)
            case None => forall j | i <= j :: !MatchesAt(src, want, j)
    decreases |src| - i
  {
    if i + |want| <= |src| && !MatchesAt(src, want, i) {
      FirstMatchIsFirst(src, want, i + 1);
    }
  }

  function FindBlock(src: seq<string>, want: seq<string>, cursor: nat, hint: int): Option<nat>
  {
    if want == [] then Some(if 0 <= hint <= |src| then hint else cursor)
    else if MatchesAt(src, want, hint) then Some(hint)
    else FirstMatch(src, want, cursor)
  }

  // ------------------------------------------------- the search as it runs

  // Go's int: what a sum comes to in 64 bits.
  function Wrapped(x: int): int { (x + INT64_MAX + 1) % (2 * (INT64_MAX + 1)) - INT64_MAX - 1 }

  // The bounds test of tryAt for a block of `want` lines at line i of `lines` lines.
  predicate LetsThrough(lines: nat, want: nat, i: int) {
    !(i < 0 || Wrapped(i + want) > lines)
  }

  datatype Probe = Match | Differ | Crash

  // The comparison of tryAt from the k-th line of the block on. An index out of
  // range panics.
  function Scan(src: seq<string>, want: seq<string>, i: int, k: nat): Probe
    requires k <= |want|
    decreases |want| - k
  {
    if k == |want| then Match
    else
      var at := Wrapped(i + k);
      if !(0 <= at < |src|) then Crash
      else if src[at] != want[k] then Differ
      else Scan(src, want, i, k + 1)
  }

  function ProbeAt(src: seq<string>, want: seq<string>, i: int): Probe {
    if LetsThrough(|src|, |want|, i) then Scan(src, want, i, 0) else Differ
  }

  function SearchFrom(src: seq<string>, want: seq<string>, i: nat): Outcome<Option<nat>>
    decreases |src| - i
  {
    if i + |want| > |src| then Done(None)
    else
      match ProbeAt(src, want, i)
      case Match => Done(Some(i))
      case Crash => Panic
      case Differ => SearchFrom(src, want, i + 1)
  }

  function Search(src: seq<string>, want: seq<string>, cursor: nat, hint: int): Outcome<Option<nat>> {
    if want == [] then Done(Some(if 0 <= hint <= |src| then hint else cursor))
    else
      match ProbeAt(src, want, hint)
      case Match => Done(Some(hint))
      case Crash => Panic
      case Differ => SearchFrom(src, want, cursor)
  }

  method TryAt(src: seq<string>, want: seq<string>, i: int) returns (p: Probe)
    ensures p == ProbeAt(src, want, i)
  {
    if i < 0 || Wrapped(i + |want|) > |src| {
      return Differ;
    }
    for k := 0 to |want|
      invariant Scan(src, want, i, 0) == Scan(src, want, i, k)
    {
      var at := Wrapped(i + k);
      if !(0 <= at < |src|) {
        return Crash;
      }
      if src[at] != want[k] {
        return Differ;
      }
    }
    return Match;
  }

  method SearchBlock(src: seq<string>, want: seq<string>, cursor: nat, hint: int) returns (r: Outcome<Option<nat>>)
    ensures r == Search(src, want, cursor, hint)
  {
    if |want| == 0 {
      if 0 <= hint <= |src| {
        return Done(Some(hint));
      }
      return Done(Some(cursor));
    }
    var atHint := TryAt(src, want, hint);
    if atHint != Differ {
      return if atHint == Match then Done(Some(hint)) else Panic;
    }
    var i := cursor;
    while i + |want| <= |src|
      invariant cursor <= i
      invariant SearchFrom(src, want, cursor) == SearchFrom(src, want, i)
    {
      var here := TryAt(src, want, i);
      if here != Differ {
        return if here == Match then Done(Some(i)) else Panic;
      }
      i := i + 1;
    }
    return Done(None);
  }

  // ---------------------------------------------------------------- applying

  function Replace(src: seq<string>, idx: nat, len: nat, block: seq<string>): seq<string>
    requires idx + len <= |src|
  {
    src[..idx] + block + src[idx + len..]
  }

  // What a hunk asks for: the lines to find, the lines to put there, and the line at
  // which to look first.
  datatype Job = Job(was: seq<string>, becomes: seq<string>, hint: int)

  function JobOf(h: Hunk): Job { Job(OldSide(h.edits), NewSide(h.edits), h.oldStart - 1) }

  function JobsOf(hunks: seq<Hunk>): (jobs: seq<Job>)
    ensures |jobs| == |hunks|
  {
    if hunks == [] then [] else [JobOf(hunks[0])] + JobsOf(hunks[1..])
  }

  lemma {:induction false} JobsOfAt(hunks: seq<Hunk>, n: nat)
    requires n <= |hunks|
    ensures JobsOf(hunks[n..]) == JobsOf(hunks)[n..]
    ensures n < |hunks| ==> JobsOf(hunks)[n] == JobOf(hunks[n])
  {
    if n == 0 {
      assert hunks[0..] == hunks;
    } else {
      JobsOfAt(hunks[1..], n - 1);
      assert hunks[1..][n - 1..] == hunks[n..];
      assert JobsOf(hunks)[1..] == JobsOf(hunks[1..]);
      assert JobsOf(hunks)[1..][n - 1..] == JobsOf(hunks)[n..];
    }
  }

  // A way to find the place for a job in a text, given the cursor.
  type Finder = (seq<string>, Job, nat) -> Option<nat>

  function Find(out: seq<string>, j: Job, cursor: nat): Option<nat> { FindBlock(out, j.was, cursor, j.hint) }

  // The loop over hunks, for any way to find places.
  function ApplyJobs(find: Finder, out: seq<string>, jobs: seq<Job>, cursor: nat): Lines
    decreases |jobs|
  {
    if jobs == [] then Ok(out)
    else
      var j := jobs[0];
      match find(out, j, cursor)
      case None => Err(ContextMiss)
      case Some(idx) =>
        if idx + |j.was| <= |out|
        then ApplyJobs(find, Replace(out, idx, |j.was|, j.becomes), jobs[1..], idx + |j.becomes|)
        else Err(ContextMiss)
  }

  // The places at which jobs are done, up to the first one that is not.
  function JobPlaces(find: Finder, out: seq<string>, jobs: seq<Job>, cursor: nat): seq<nat>
    decreases |jobs|
  {
    if jobs == [] then []
    else
      var j := jobs[0];
      match find(out, j, cursor)
      case None => []
      case Some(idx) =>
        if idx + |j.was| <= |out|
        then [idx] + JobPlaces(find, Replace(out, idx, |j.was|, j.becomes), jobs[1..], idx + |j.becomes|)
        else []
  }

  function ApplyHunks(out: seq<string>, hunks: seq<Hunk>): Lines {
    ApplyJobs(Find, out, JobsOf(hunks), 0)
  }

  // The same as the code runs: the search may panic, and so does slicing behind the
  // end of the text.
  type Searcher = (seq<string>, Job, nat) -> Outcome<Option<nat>>

  function SearchJob(out: seq<string>, j: Job, cursor: nat): Outcome<Option<nat>> {
    Search(out, j.was, cursor, Wrapped(j.hint))
  }

  type Lines = Result<seq<string>, Error>

  function RunJobs(search: Searcher, out: seq<string>, jobs: seq<Job>, cursor: nat): Outcome<Lines>
    decreases |jobs|
  {
    if jobs == [] then Done(Ok(out))
    else
      var j := jobs[0];
      match search(out, j, cursor)
      case Panic => Panic
      case Done(None) => Done(Err(ContextMiss))
      case Done(Some(idx)) =>
        if idx + |j.was| <= |out|
        then RunJobs(search, Replace(out, idx, |j.was|, j.becomes), jobs[1..], idx + |j.becomes|)
        else Panic
  }

  function RunHunks(out: seq<string>, hunks: seq<Hunk>): Outcome<Lines> {
    RunJobs(SearchJob, out, JobsOf(hunks), 0)
  }

  // A Go slice of strings: the first len cells of a backing array.
  datatype Slice = Slice(cells: array<string>, len: nat) {
    ghost predicate Valid() { len <= cells.Length }

    ghost function Contents(): seq<string>
      requires Valid()
      reads cells
    {
      cells[..len]
    }
  }

  method FromSeq(s: seq<string>) returns (r: Slice)
    ensures r.Valid() && fresh(r.cells) && r.Contents() == s
  {
    var cells := new string[|s|](i requires 0 <= i < |s| => s[i]);
    r := Slice(cells, |s|);
  }

  // append(s[:n], more...): writes over the backing array when it has room,
  // which clobbers the cells from n on, and reallocates otherwise.
  method AppendAt(s: Slice, n: nat, more: seq<string>) returns (r: Slice)
    requires s.Valid() && n <= s.len
    modifies s.cells
    ensures r.Valid() && (r.cells == s.cells || fresh(r.cells))
    ensures r.Contents() == old(s.Contents())[..n] + more
  {
    var total := n + |more|;
    if total <= s.cells.Length {
      for i := 0 to |more|
        invariant s.cells[..n] == old(s.cells[..n])
        invariant s.cells[n..n + i] == more[..i]
      {
        s.cells[n + i] := more[i];
        assert s.cells[n..n + i + 1] == s.cells[n..n + i] + [s.cells[n + i]];
      }
      r := Slice(s.cells, total);
      assert s.cells[..total] == s.cells[..n] + s.cells[n..total];
    } else {
      var all := s.cells[..n] + more;
      r := FromSeq(all);
    }
  }

  // One splice in place. The tail is copied before the splice overwrites it.
  method Splice(out: Slice, idx: nat, oldLen: nat, newBlock: seq<string>) returns (r: Slice)
    requires out.Valid() && idx + oldLen <= out.len
    modifies out.cells
    ensures r.Valid() && (r.cells == out.cells || fresh(r.cells))
    ensures r.Contents() == Replace(old(out.Contents()), idx, oldLen, newBlock)
  {
    var tail := newBlock + out.cells[idx + oldLen..out.len];
    assert out.cells[idx + oldLen..out.len] == out.Contents()[idx + oldLen..];
    assert out.Contents()[..idx] + tail == Replace(out.Contents(), idx, oldLen, newBlock);
    r := AppendAt(out, idx, tail);
  }

  // What one round of the loop over hunks does.
  ghost predicate Round(lines: seq<string>, j: Job, cursor: nat, found: Outcome<Option<nat>>, after: seq<string>,
                        next: nat)
  {
    match SearchJob(lines, j, cursor)
    case Panic => found == Panic
    case Done(None) => found == Done(None)
    case Done(Some(idx)) =>
      if idx + |j.was| <= |lines|
      then found == Done(Some(idx)) && after == Replace(lines, idx, |j.was|, j.becomes) && next == idx + |j.becomes|
      else found == Panic
  }

  // One round of the loop over hunks: find the block, splice, move the cursor.
  method ApplyOne(out: Slice, ghost lines: seq<string>, h: Hunk, cursor: nat)
      returns (found: Outcome<Option<nat>>, r: Slice, next: nat)
    requires out.Valid() && out.Contents() == lines
    modifies out.cells
    ensures r.Valid() && (r.cells == out.cells || fresh(r.cells))
    ensures Round(lines, JobOf(h), cursor, found, r.Contents(), next)
  {
    var oldBlock, newBlock := Blocks(h);
    r, next := out, cursor;
    found := SearchBlock(out.cells[..out.len], oldBlock, cursor, Wrapped(h.oldStart - 1));
    if found.Done? && found.value.Some? {
      var idx := found.value.value;
      if idx + |oldBlock| > out.len {
        found := Panic;
        return;
      }
      r := Splice(out, idx, |oldBlock|, newBlock);
      next := idx + |newBlock|;
    }
  }

  // What the jobs left to do come to is the given answer.
  ghost predicate Leads(search: Searcher, answer: Outcome<Lines>, lines: seq<string>, jobs: seq<Job>, cursor: nat) {
    answer == RunJobs(search, lines, jobs, cursor)
  }

  // One round as a step towards the answer, for any way to search.
  lemma {:induction false} RunNext(search: Searcher, answer: Outcome<Lines>, lines: seq<string>, jobs: seq<Job>,
                                   cursor: nat)
    requires jobs != [] && Leads(search, answer, lines, jobs, cursor)
    ensures var j := jobs[0];
            match search(lines, j, cursor)
            case Panic => answer == Panic
            case Done(None) => answer == Done(Err(ContextMiss))
            case Done(Some(idx)) =>
              if idx + |j.was| <= |lines|
              then Leads(search, answer, Replace(lines, idx, |j.was|, j.becomes), jobs[1..], idx + |j.becomes|)
              else answer == Panic
  {
  }

  lemma {:induction false} ApplyNext(search: Searcher, answer: Outcome<Lines>, lines: seq<string>, hunks: seq<Hunk>,
                                     n: nat, cursor: nat, found: Outcome<Option<nat>>, after: seq<string>, next: nat)
    requires n < |hunks| && Leads(search, answer, lines, JobsOf(hunks)[n..], cursor)
    requires search(lines, JobOf(hunks[n]), cursor) == SearchJob(lines, JobOf(hunks[n]), cursor)
    requires Round(lines, JobOf(hunks[n]), cursor, found, after, next)
    ensures match found
            case Panic => answer == Panic
            case Done(None) => answer == Done(Err(ContextMiss))
            case Done(Some(_)) => Leads(search, answer, after, JobsOf(hunks)[n + 1..], next)
  {
    var jobs := JobsOf(hunks);
    JobsOfAt(hunks, n);
    assert jobs[n..][0] == JobOf(hunks[n]) && jobs[n..][1..] == jobs[n + 1..];
    RunNext(search, answer, lines, jobs[n..], cursor);
  }

  method ApplyParsed(srcLines: seq<string>, hunks: seq<Hunk>) returns (r: Outcome<Lines>)
    ensures r == RunHunks(srcLines, hunks)
  {
    var out := FromSeq(srcLines);
    var cursor: nat := 0;
    ghost var search: Searcher := SearchJob;
    ghost var answer := RunHunks(srcLines, hunks);
    assert JobsOf(hunks)[0..] == JobsOf(hunks);
    for n := 0 to |hunks|
      invariant out.Valid() && fresh(out.cells)
      invariant Leads(search, answer, out.Contents(), JobsOf(hunks)[n..], cursor)
    {
      ghost var lines, start := out.Contents(), cursor;
      var found;
      found, out, cursor := ApplyOne(out, lines, hunks[n], cursor);
      ApplyNext(search, answer, lines, hunks, n, start, found, out.Contents(), cursor);
      if found.Panic? {
        return Panic;
      }
      if found.value.None? {
        return Done(Err(ContextMiss));
      }
    }
    assert JobsOf(hunks)[|hunks|..] == [];
    r := Done(Ok(out.cells[..out.len]));
  }

  // What applying a diff comes to when no sum wraps around.
  function Apply(src: string, diff: string): Result<string, Error> {
    match Parse(diff)
    case Err(e) => Err(e)
    case Ok(hunks) =>
      match ApplyHunks(Split(src), hunks)
      case Err(e) => Err(e)
      case Ok(lines) => Ok(Join(lines))
  }

  // What it comes to as the code runs.
  function Run(src: string, diff: string): Outcome<Result<string, Error>> {
    match Parse(diff)
    case Err(e) => Done(Err(e))
    case Ok(hunks) =>
      match RunHunks(Split(src), hunks)
      case Panic => Panic
      case Done(Err(e)) => Done(Err(e))
      case Done(Ok(lines)) => Done(Ok(Join(lines)))
  }

  method ApplyUnifiedDiff(src: string, diff: string) returns (r: Outcome<Result<string, Error>>)
    ensures r == Run(src, diff)
  {
    var parsed := ParseDiff(diff);
    if parsed.Err? {
      return Done(Err(parsed.error));
    }
    var applied := ApplyParsed(Split(src), parsed.value);
    r := match applied
         case Panic => Panic
         case Done(Err(e)) => Done(Err(e))
         case Done(Ok(lines)) => Done(Ok(Join(lines)));
  }
}
