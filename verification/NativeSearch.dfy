/** The direct oracle for repository search: every matching line of every file in
    path order, cut to a match maximum and a rendering budget. */
module NativeSearch {
  import opened Collections
  import opened Sorting
  import opened Utf8

  const MAX_FILE_BYTES: nat := 4 * 1024 * 1024
  const MAX_SCAN_BYTES: nat := 16 * 1024 * 1024
  const MAX_RENDERED_BYTES: nat := 512 * 1024
  const SNIPPET_BYTES: nat := 4096

  /** A regular file: its path, the size its metadata reports, and its text unless
      the content is not strict UTF-8. */
  datatype File = File(path: string, size: nat, text: Option<string>)

  datatype Match = Match(path: string, line: nat, text: string, lineTruncated: bool)

  datatype Observation = Error(code: int) | Ok(matches: seq<Match>, truncated: bool)

  // ----- Lines -----

  /** `text.split("\n")`. */
  function SplitLines(text: string): (lines: seq<string>)
    ensures |lines| >= 1
  {
    if text == [] then [""]
    else if text[0] == '\n' then [""] + SplitLines(text[1..])
    else
      var rest := SplitLines(text[1..]);
      [[text[0]] + rest[0]] + rest[1..]
  }

  function StripReturn(line: string): string {
    if |line| > 0 && line[|line| - 1] == '\r' then line[..|line| - 1] else line
  }

  function StripAll(lines: seq<string>): (stripped: seq<string>)
    ensures |stripped| == |lines|
  {
    seq(|lines|, i requires 0 <= i < |lines| => StripReturn(lines[i]))
  }

  /** The lines without an empty last one. */
  function Popped(lines: seq<string>): seq<string>
    requires |lines| >= 1
  {
    if lines[|lines| - 1] == "" then lines[..|lines| - 1] else lines
  }

  /** `_rust_lines`. */
  function RustLines(text: string): seq<string> { StripAll(Popped(SplitLines(text))) }

  function JoinLines(lines: seq<string>): string
    requires |lines| >= 1
  {
    if |lines| == 1 then lines[0] else lines[0] + "\n" + JoinLines(lines[1..])
  }

  lemma Associates<T>(a: seq<T>, b: seq<T>, c: seq<T>, d: seq<T>)
    ensures (a + b) + c + d == a + (b + c + d)
  {
  }

  lemma JoinOne(lines: seq<string>)
    requires |lines| > 1
    ensures JoinLines(lines) == lines[0] + "\n" + JoinLines(lines[1..])
  {
  }

  lemma JoinMore(head: char, rest: seq<string>, lines: seq<string>)
    requires |rest| >= 1 && lines == [[head] + rest[0]] + rest[1..]
    ensures JoinLines(lines) == [head] + JoinLines(rest)
  {
    if |rest| > 1 {
      assert lines[1..] == rest[1..];
      JoinOne(lines);
      JoinOne(rest);
      Associates([head], rest[0], "\n", JoinLines(rest[1..]));
    }
  }

  /** Splitting loses nothing and leaves no line feed inside a line. */
  lemma {:induction false} SplitLinesPartition(text: string)
    ensures JoinLines(SplitLines(text)) == text
    ensures forall i :: 0 <= i < |SplitLines(text)| ==> '\n' !in SplitLines(text)[i]
  {
    if text != [] {
      var rest := SplitLines(text[1..]);
      SplitLinesPartition(text[1..]);
      assert text == [text[0]] + text[1..];
      if text[0] == '\n' {
        assert ([""] + rest)[1..] == rest;
        assert "" + "\n" + text[1..] == text;
      } else {
        JoinMore(text[0], rest, SplitLines(text));
      }
    }
  }

  /** One line and how it ends: with a line feed, with a carriage return before it, with a
      carriage return at the end of the text, or with nothing there. */
  datatype Ended = Ended(line: string, ending: string)

  predicate Proper(e: Ended, last: bool) {
    && '\n' !in e.line
    && (e.ending in ["\n", "\r\n"] || (last && e.ending in ["", "\r"]))
    // Without a carriage return in the ending, the line has none to lose.
    && (e.ending in ["", "\n"] ==> !Returns(e.line))
    && (e.ending == "" ==> e.line != "")
  }

  predicate Returns(line: string) { |line| > 0 && line[|line| - 1] == '\r' }

  function Rebuilt(lines: seq<Ended>): string {
    if lines == [] then "" else lines[0].line + lines[0].ending + Rebuilt(lines[1..])
  }

  /** The line that text up to a line feed, or to the end of the text, stands for. */
  function EndedLine(raw: string, feed: bool): Ended {
    Ended(StripReturn(raw),
          if Returns(raw) then (if feed then "\r\n" else "\r") else (if feed then "\n" else ""))
  }

  /** The lines of `raw` lines that a line feed separates. */
  function EndedLines(raw: seq<string>): (lines: seq<Ended>)
    requires |raw| >= 1
  {
    if |raw| == 1 then (if raw[0] == "" then [] else [EndedLine(raw[0], false)])
    else [EndedLine(raw[0], true)] + EndedLines(raw[1..])
  }

  predicate AllProper(lines: seq<Ended>) { forall i :: 0 <= i < |lines| ==> Proper(lines[i], i == |lines| - 1) }

  lemma EndedIsProper(raw: string, feed: bool)
    requires '\n' !in raw && (feed || raw != "")
    ensures Proper(EndedLine(raw, feed), !feed)
  {
    assert "\n" != "\r\n" && "\n" != "\r";
  }

  lemma EndedIsWhole(raw: string, feed: bool)
    ensures EndedLine(raw, feed).line + EndedLine(raw, feed).ending == if feed then raw + "\n" else raw
  {
    if Returns(raw) {
      assert raw == raw[..|raw| - 1] + "\r";
      assert "\r" + "\n" == "\r\n";
    }
  }

  lemma {:induction false} EndedRebuild(raw: seq<string>)
    requires |raw| >= 1 && forall i :: 0 <= i < |raw| ==> '\n' !in raw[i]
    ensures Rebuilt(EndedLines(raw)) == JoinLines(raw)
  {
    if |raw| > 1 {
      EndedRebuild(raw[1..]);
      EndedIsWhole(raw[0], true);
      assert EndedLines(raw)[1..] == EndedLines(raw[1..]);
    } else if raw[0] != "" {
      EndedIsWhole(raw[0], false);
    }
  }

  lemma {:induction false} EndedCount(raw: seq<string>)
    requires |raw| >= 1
    ensures |EndedLines(raw)| == |Popped(raw)|
  {
    if |raw| > 1 {
      EndedCount(raw[1..]);
    }
  }

  lemma {:induction false} EndedAt(raw: seq<string>, i: nat)
    requires |raw| >= 1 && forall k :: 0 <= k < |raw| ==> '\n' !in raw[k]
    requires i < |EndedLines(raw)| <= |raw|
    ensures Proper(EndedLines(raw)[i], i == |EndedLines(raw)| - 1)
    ensures EndedLines(raw)[i].line == StripReturn(raw[i])
  {
    if i == 0 {
      EndedIsProper(raw[0], |raw| > 1);
    } else {
      EndedCount(raw[1..]);
      EndedAt(raw[1..], i - 1);
    }
  }

  function LinesOf(ended: seq<Ended>): seq<string> { seq(|ended|, i requires 0 <= i < |ended| => ended[i].line) }

  /** `lines` are the lines of `ended`, which with their endings make the text. */
  ghost predicate Ends(ended: seq<Ended>, text: string, lines: seq<string>) {
    Rebuilt(ended) == text && AllProper(ended) && LinesOf(ended) == lines
  }

  lemma EndedEnds(raw: seq<string>, ended: seq<Ended>)
    requires |raw| >= 1 && ended == EndedLines(raw) && forall i :: 0 <= i < |raw| ==> '\n' !in raw[i]
    ensures Ends(ended, JoinLines(raw), StripAll(Popped(raw)))
  {
    EndedRebuild(raw);
    EndedCount(raw);
    forall i | 0 <= i < |ended|
      ensures Proper(ended[i], i == |ended| - 1) && ended[i].line == StripAll(Popped(raw))[i]
    {
      EndedAt(raw, i);
    }
  }

  /** What `_rust_lines` returns is the text without its line endings: the lines, each with its
      ending put back, are the text, and a line loses the one carriage return its ending has
      and no other. */
  lemma RustLinesRebuild(text: string)
    ensures exists ended :: Ends(ended, text, RustLines(text))
  {
    var ended := EndedLines(SplitLines(text));
    SplitLinesPartition(text);
    EndedEnds(SplitLines(text), ended);
    assert Ends(ended, text, RustLines(text));
  }

  // ----- Matches -----

  predicate OccursAt(line: string, pattern: string, i: nat) {
    i + |pattern| <= |line| && line[i..i + |pattern|] == pattern
  }

  predicate Contains(line: string, pattern: string) {
    exists i :: 0 <= i <= |line| && OccursAt(line, pattern, i)
  }

  function MatchAt(path: string, number: nat, line: string): Match {
    var snippet := line[..FitCount(line, SNIPPET_BYTES)];
    Match(path, number, snippet, snippet != line)
  }

  /** The matches among `lines`, the first of which is line `number`. */
  function LineMatches(path: string, lines: seq<string>, number: nat, pattern: string): seq<Match>
    decreases |lines|
  {
    if lines == [] then []
    else (if Contains(lines[0], pattern) then [MatchAt(path, number, lines[0])] else [])
         + LineMatches(path, lines[1..], number + 1, pattern)
  }

  function FileMatches(file: File, pattern: string): seq<Match> {
    if file.text == None then [] else LineMatches(file.path, RustLines(file.text.value), 1, pattern)
  }

  /** Every match of every file, in the order of the files and of their lines. */
  function AllMatches(files: seq<File>, pattern: string): seq<Match> {
    if files == [] then []
    else AllMatches(files[..|files| - 1], pattern) + FileMatches(files[|files| - 1], pattern)
  }

  function Cost(m: Match): nat {
    |Encode(m.path)| + |Encode(m.text)| + 32
  }

  function Rendered(matches: seq<Match>): nat {
    if matches == [] then 0 else Rendered(matches[..|matches| - 1]) + Cost(matches[|matches| - 1])
  }

  /** `found` is cut off: it reaches the maximum or does not fit the budget. */
  predicate Exceeds(found: seq<Match>, maximum: nat) {
    |found| >= maximum || Rendered(found) > MAX_RENDERED_BYTES
  }

  function Scanned(files: seq<File>): nat {
    if files == [] then 0 else Scanned(files[..|files| - 1]) + files[|files| - 1].size
  }

  /** File `i` breaks a size bound. */
  predicate TooLarge(files: seq<File>, i: nat)
    requires i < |files|
  {
    files[i].size > MAX_FILE_BYTES || Scanned(files[..i + 1]) > MAX_SCAN_BYTES
  }

  /** What the search must answer about an ordered list of files: an error exactly
      when a too large file is reached before the output is cut off; otherwise a
      prefix of all matches within both limits, complete unless marked truncated,
      and truncated only at the maximum or where the next match breaks the budget. */
  ghost predicate Answers(observation: Observation, files: seq<File>, pattern: string, maximum: nat) {
    match observation
    case Error(code) =>
      code == -32021 &&
      exists i :: 0 <= i < |files| && TooLarge(files, i) && !Exceeds(AllMatches(files[..i], pattern), maximum)
    case Ok(matches, truncated) =>
      && IsCut(matches, AllMatches(files, pattern), maximum, truncated)
      && forall i :: 0 <= i < |files| && TooLarge(files, i) ==> Exceeds(AllMatches(files[..i], pattern), maximum)
  }

  /** `matches` is what the limits keep of `all`. */
  ghost predicate IsCut(matches: seq<Match>, all: seq<Match>, maximum: nat, truncated: bool) {
    && matches <= all && |matches| <= maximum && Rendered(matches) <= MAX_RENDERED_BYTES
    && (truncated <==> |matches| == maximum || |matches| < |all|)
    && (|matches| < maximum && |matches| < |all| ==>
          Rendered(matches) + Cost(all[|matches|]) > MAX_RENDERED_BYTES)
  }

  /** The limits leave one answer: no other prefix and no other flag will do. */
  lemma CutUnique(a: seq<Match>, b: seq<Match>, all: seq<Match>, maximum: nat, ta: bool, tb: bool)
    requires IsCut(a, all, maximum, ta) && IsCut(b, all, maximum, tb)
    ensures a == b && ta == tb
  {
    if |a| < |b| {
      LongerCostsMore(a, b, all);
    } else if |b| < |a| {
      LongerCostsMore(b, a, all);
    }
  }

  lemma {:induction false} LongerCostsMore(a: seq<Match>, b: seq<Match>, all: seq<Match>)
    requires a <= all && b <= all && |a| < |b|
    ensures Rendered(a) + Cost(all[|a|]) <= Rendered(b)
    decreases |b|
  {
    if |a| + 1 < |b| {
      LongerCostsMore(a, b[..|b| - 1], all);
    } else {
      assert b[..|b| - 1] == a;
    }
  }

  /** The flag is set although nothing was cut exactly when the matches fit the budget
      and are as many as the maximum. */
  lemma FlaggedUncutIff(matches: seq<Match>, all: seq<Match>, maximum: nat, truncated: bool)
    requires IsCut(matches, all, maximum, truncated)
    ensures truncated && matches == all <==> |all| == maximum && Rendered(all) <= MAX_RENDERED_BYTES
  {
    if |matches| < |all| {
      LongerCostsMore(matches, all, all);
    }
  }

  /** Two observations that answer the same question are equal. */
  lemma AnswerUnique(a: Observation, b: Observation, files: seq<File>, pattern: string, maximum: nat)
    requires Answers(a, files, pattern, maximum) && Answers(b, files, pattern, maximum)
    ensures a == b
  {
    if a.Ok? && b.Ok? {
      CutUnique(a.matches, b.matches, AllMatches(files, pattern), maximum, a.truncated, b.truncated);
    }
  }

  // ----- Monotonicity in the files -----

  lemma AllMatchesStep(files: seq<File>, i: nat, pattern: string)
    requires i < |files|
    ensures AllMatches(files[..i + 1], pattern) == AllMatches(files[..i], pattern) + FileMatches(files[i], pattern)
    ensures Scanned(files[..i + 1]) == Scanned(files[..i]) + files[i].size
  {
    assert files[..i + 1][..i] == files[..i];
  }

  /** A sequence that only ever grows at its end. */
  lemma {:induction false} GrowsAlong<T>(at: nat -> seq<T>, added: nat -> seq<T>, i: nat, j: nat)
    requires i <= j && forall k: nat :: i <= k < j ==> at(k + 1) == at(k) + added(k)
    ensures at(i) <= at(j)
    decreases j
  {
    if i < j {
      GrowsAlong(at, added, i, j - 1);
      assert at((j - 1) + 1) == at(j - 1) + added(j - 1);
    }
  }

  lemma AllMatchesGrow(files: seq<File>, i: nat, j: nat, pattern: string)
    requires i <= j <= |files|
    ensures AllMatches(files[..i], pattern) <= AllMatches(files[..j], pattern)
  {
    var at := (k: nat) => if k <= |files| then AllMatches(files[..k], pattern) else [];
    var added := (k: nat) => if k < |files| then FileMatches(files[k], pattern) else [];
    forall k: nat | i <= k < j ensures at(k + 1) == at(k) + added(k) {
      AllMatchesStep(files, k, pattern);
    }
    GrowsAlong(at, added, i, j);
  }

  lemma {:induction false} RenderedGrows(a: seq<Match>, b: seq<Match>)
    requires a <= b
    ensures Rendered(a) <= Rendered(b)
    decreases |b|
  {
    if |a| < |b| {
      RenderedGrows(a, b[..|b| - 1]);
    } else {
      assert a == b;
    }
  }

  /** Once cut off, later files cannot undo it. */
  lemma ExceedsStays(files: seq<File>, i: nat, j: nat, pattern: string, maximum: nat)
    requires i <= j <= |files| && Exceeds(AllMatches(files[..i], pattern), maximum)
    ensures Exceeds(AllMatches(files[..j], pattern), maximum)
  {
    AllMatchesGrow(files, i, j, pattern);
    RenderedGrows(AllMatches(files[..i], pattern), AllMatches(files[..j], pattern));
  }

  lemma CutExtends(matches: seq<Match>, all: seq<Match>, more: seq<Match>, maximum: nat)
    requires IsCut(matches, all, maximum, true) && all <= more
    ensures IsCut(matches, more, maximum, true)
  {
  }

  // ----- The loops -----

  lemma {:induction false} LineMatchesStep(path: string, lines: seq<string>, j: nat, pattern: string)
    requires j < |lines|
    ensures LineMatches(path, lines[..j + 1], 1, pattern) ==
            LineMatches(path, lines[..j], 1, pattern)
            + (if Contains(lines[j], pattern) then [MatchAt(path, j + 1, lines[j])] else [])
  {
    LineMatchesAppend(path, lines[..j], lines[j], 1, pattern);
    assert lines[..j + 1] == lines[..j] + [lines[j]];
  }

  lemma {:induction false} LineMatchesAppend(path: string, lines: seq<string>, last: string, number: nat,
                                             pattern: string)
    ensures LineMatches(path, lines + [last], number, pattern) ==
            LineMatches(path, lines, number, pattern)
            + (if Contains(last, pattern) then [MatchAt(path, number + |lines|, last)] else [])
    decreases |lines|
  {
    if lines == [] {
      assert [last][1..] == [];
    } else {
      LineMatchesAppend(path, lines[1..], last, number + 1, pattern);
      assert (lines + [last])[1..] == lines[1..] + [last];
      var rest := LineMatches(path, lines[1..], number + 1, pattern);
      var hit := if Contains(last, pattern) then [MatchAt(path, number + |lines|, last)] else [];
      var head := if Contains(lines[0], pattern) then [MatchAt(path, number, lines[0])] else [];
      Regroup(head, rest, hit, rest + hit, head + (rest + hit));
    }
  }

  lemma {:induction false} LineMatchesPrefix(path: string, lines: seq<string>, j: nat, pattern: string)
    requires j <= |lines|
    ensures LineMatches(path, lines[..j], 1, pattern) <= LineMatches(path, lines, 1, pattern)
    decreases |lines| - j
  {
    if j < |lines| {
      LineMatchesStep(path, lines, j, pattern);
      LineMatchesPrefix(path, lines, j + 1, pattern);
    } else {
      assert lines[..j] == lines;
    }
  }

  /** The next match when one more would break the budget. */
  lemma StopBeforeBudget(found: seq<Match>, next: Match, all: seq<Match>, maximum: nat)
    requires found + [next] <= all && |found| < maximum && Rendered(found) <= MAX_RENDERED_BYTES
    requires Rendered(found) + Cost(next) > MAX_RENDERED_BYTES
    ensures IsCut(found, all, maximum, true) && Exceeds(all, maximum)
  {
    assert (found + [next])[..|found|] == found;
    RenderedGrows(found + [next], all);
    assert all[|found|] == next;
  }

  lemma StopAtMaximum(found: seq<Match>, all: seq<Match>, maximum: nat)
    requires found <= all && |found| == maximum && Rendered(found) <= MAX_RENDERED_BYTES
    ensures IsCut(found, all, maximum, true) && Exceeds(all, maximum)
  {
  }

  /** One more line: its match, if any, is the next of all matches. */
  lemma NextLine(path: string, lines: seq<string>, j: nat, pattern: string, before: seq<Match>, matches: seq<Match>,
                 hit: seq<Match>)
    requires j < |lines| && matches == before + LineMatches(path, lines[..j], 1, pattern)
    requires hit == if Contains(lines[j], pattern) then [MatchAt(path, j + 1, lines[j])] else []
    ensures matches + hit == before + LineMatches(path, lines[..j + 1], 1, pattern)
    ensures matches + hit <= before + LineMatches(path, lines, 1, pattern)
  {
    LineMatchesStep(path, lines, j, pattern);
    LineMatchesPrefix(path, lines, j + 1, pattern);
    PrefixBelow(before, LineMatches(path, lines[..j + 1], 1, pattern), LineMatches(path, lines, 1, pattern));
    var found := LineMatches(path, lines[..j], 1, pattern);
    assert (before + found) + hit == before + (found + hit);
  }

  lemma PrefixBelow(before: seq<Match>, a: seq<Match>, b: seq<Match>)
    requires a <= b
    ensures before + a <= before + b
  {
  }

  /** One match recorded, unless it breaks the budget; the search stops at the maximum. */
  method Take(found: Match, matches: seq<Match>, rendered: nat, maximum: nat, ghost all: seq<Match>)
    returns (next: seq<Match>, total: nat, stop: bool)
    requires matches + [found] <= all && rendered == Rendered(matches) && !Exceeds(matches, maximum)
    ensures stop ==> IsCut(next, all, maximum, true) && Exceeds(all, maximum)
    ensures !stop ==> next == matches + [found] && total == Rendered(next) && !Exceeds(next, maximum)
  {
    if rendered + Cost(found) > MAX_RENDERED_BYTES {
      StopBeforeBudget(matches, found, all, maximum);
      return matches, rendered, true;
    }
    next, total := matches + [found], rendered + Cost(found);
    assert next[..|matches|] == matches;
    if |next| >= maximum {
      StopAtMaximum(next, all, maximum);
      return next, total, true;
    }
    stop := false;
  }

  /** The loop over the lines of one file, continuing from the matches so far. */
  method SearchLines(path: string, lines: seq<string>, pattern: string, maximum: nat, before: seq<Match>)
    returns (matches: seq<Match>, truncated: bool)
    requires !Exceeds(before, maximum)
    ensures var all := before + LineMatches(path, lines, 1, pattern);
            if truncated then IsCut(matches, all, maximum, true) && Exceeds(all, maximum)
            else matches == all && !Exceeds(all, maximum)
  {
    matches := before;
    var rendered := Rendered(before);
    ghost var all := before + LineMatches(path, lines, 1, pattern);
    assert lines[..0] == [] && before + [] == before;
    for j := 0 to |lines|
      invariant matches == before + LineMatches(path, lines[..j], 1, pattern)
      invariant rendered == Rendered(matches)
      invariant !Exceeds(matches, maximum)
    {
      if Contains(lines[j], pattern) {
        var snippet := CutLine(lines[j], SNIPPET_BYTES);
        var found := Match(path, j + 1, snippet, snippet != lines[j]);
        NextLine(path, lines, j, pattern, before, matches, [found]);
        var stop;
        matches, rendered, stop := Take(found, matches, rendered, maximum, all);
        if stop {
          return matches, true;
        }
      } else {
        NextLine(path, lines, j, pattern, before, matches, []);
        assert matches + [] == matches;
      }
    }
    assert lines[..|lines|] == lines;
    truncated := false;
  }

  ghost predicate NoneTooLarge(files: seq<File>, n: nat)
    requires n <= |files|
  {
    forall k :: 0 <= k < n ==> !TooLarge(files, k)
  }

  lemma OneMoreSmall(files: seq<File>, i: nat)
    requires i < |files| && NoneTooLarge(files, i) && !TooLarge(files, i)
    ensures NoneTooLarge(files, i + 1)
  {
  }

  lemma StopTooLarge(files: seq<File>, i: nat, pattern: string, maximum: nat)
    requires i < |files| && TooLarge(files, i) && !Exceeds(AllMatches(files[..i], pattern), maximum)
    ensures Answers(Error(-32021), files, pattern, maximum)
  {
  }

  lemma Complete(files: seq<File>, matches: seq<Match>, pattern: string, maximum: nat)
    requires matches == AllMatches(files, pattern) && !Exceeds(matches, maximum)
    requires NoneTooLarge(files, |files|)
    ensures Answers(Ok(matches, false), files, pattern, maximum)
  {
  }

  /** The matches of one file after those before it. */
  method SearchFile(file: File, pattern: string, maximum: nat, before: seq<Match>)
    returns (matches: seq<Match>, truncated: bool)
    requires !Exceeds(before, maximum)
    ensures var all := before + FileMatches(file, pattern);
            if truncated then IsCut(matches, all, maximum, true) && Exceeds(all, maximum)
            else matches == all && !Exceeds(all, maximum)
  {
    if file.text.Some? {
      matches, truncated := SearchLines(file.path, RustLines(file.text.value), pattern, maximum, before);
    } else {
      matches, truncated := before, false;
      assert before + [] == before;
    }
  }

  /** The loop over the files, in the order given. */
  method SearchFiles(files: seq<File>, pattern: string, maximum: nat) returns (observation: Observation)
    requires maximum >= 1
    ensures Answers(observation, files, pattern, maximum)
  {
    var matches: seq<Match> := [];
    var scanned := 0;
    assert files[..0] == [];
    for i := 0 to |files|
      invariant matches == AllMatches(files[..i], pattern) && !Exceeds(matches, maximum)
      invariant scanned == Scanned(files[..i])
      invariant NoneTooLarge(files, i)
    {
      AllMatchesStep(files, i, pattern);
      scanned := scanned + files[i].size;
      if files[i].size > MAX_FILE_BYTES || scanned > MAX_SCAN_BYTES {
        StopTooLarge(files, i, pattern, maximum);
        return Error(-32021);
      }
      OneMoreSmall(files, i);
      var truncated;
      matches, truncated := SearchFile(files[i], pattern, maximum, matches);
      if truncated {
        StopTruncated(files, i, matches, pattern, maximum);
        return Ok(matches, true);
      }
    }
    assert files[..|files|] == files;
    Complete(files, matches, pattern, maximum);
    return Ok(matches, false);
  }

  lemma StopTruncated(files: seq<File>, i: nat, matches: seq<Match>, pattern: string, maximum: nat)
    requires i < |files|
    requires IsCut(matches, AllMatches(files[..i + 1], pattern), maximum, true)
    requires Exceeds(AllMatches(files[..i + 1], pattern), maximum)
    requires NoneTooLarge(files, i + 1)
    ensures Answers(Ok(matches, true), files, pattern, maximum)
  {
    AllMatchesGrow(files, i + 1, |files|, pattern);
    assert files[..|files|] == files;
    CutExtends(matches, AllMatches(files[..i + 1], pattern), AllMatches(files, pattern), maximum);
    forall k | 0 <= k < |files| && TooLarge(files, k) ensures Exceeds(AllMatches(files[..k], pattern), maximum) {
      ExceedsStays(files, i + 1, k, pattern, maximum);
    }
  }

  // ----- Enumeration -----

  datatype Kind = Unreadable | Symlink | Regular(size: nat, text: Option<string>) | Special

  /** One path below the search root, in whatever order the walk yields it. */
  datatype Entry = Entry(path: string, inGit: bool, kind: Kind)

  datatype Root = RefusedRoot | FileRoot(file: File) | DirectoryRoot(entries: seq<Entry>) | OtherRoot

  predicate Blocks(entry: Entry) {
    !entry.inGit && (entry.kind.Unreadable? || entry.kind.Symlink?)
  }

  function FileOf(entry: Entry): seq<File> {
    if !entry.inGit && entry.kind.Regular? then [File(entry.path, entry.kind.size, entry.kind.text)] else []
  }

  predicate PathLe(a: File, b: File) { TextLe(a.path, b.path) }

  function InPathOrder(entries: seq<Entry>): seq<File> {
    Sorted(Image(entries, FileOf), PathLe)
  }

  predicate Admitted(pattern: string, maximum: int) {
    pattern != "" && |Encode(pattern)| <= 4096 && 1 <= maximum <= 500
  }

  /** The regular files below a directory, unless one of its entries blocks the search. */
  method Collect(entries: seq<Entry>) returns (files: Option<seq<File>>)
    ensures files == None <==> exists i :: 0 <= i < |entries| && Blocks(entries[i])
    ensures files != None ==> files.value == Image(entries, FileOf)
  {
    var found: seq<File> := [];
    assert entries[..0] == [];
    for i := 0 to |entries|
      invariant forall k :: 0 <= k < i ==> !Blocks(entries[k])
      invariant found == Image(entries[..i], FileOf)
    {
      var entry := entries[i];
      if Blocks(entry) {
        return None;
      }
      ImageConcat(entries[..i], [entry], FileOf);
      assert entries[..i + 1] == entries[..i] + [entry];
      assert [entry][1..] == [];
      found := found + FileOf(entry);
    }
    assert entries[..|entries|] == entries;
    return Some(found);
  }

  /** `native_search`. */
  method Search(root: Root, pattern: string, maximum: int) returns (observation: Observation)
    ensures !Admitted(pattern, maximum) || root.RefusedRoot? || root.OtherRoot? ==> observation == Error(-32602)
    ensures Admitted(pattern, maximum) && root.FileRoot? ==> Answers(observation, [root.file], pattern, maximum)
    ensures Admitted(pattern, maximum) && root.DirectoryRoot? ==>
              if exists i :: 0 <= i < |root.entries| && Blocks(root.entries[i]) then observation == Error(-32603)
              else Answers(observation, InPathOrder(root.entries), pattern, maximum)
  {
    if !Admitted(pattern, maximum) || root.RefusedRoot? || root.OtherRoot? {
      return Error(-32602);
    }
    if root.FileRoot? {
      observation := SearchFiles([root.file], pattern, maximum);
      return;
    }
    var files := Collect(root.entries);
    if files == None {
      return Error(-32603);
    }
    observation := SearchFiles(Sorted(files.value, PathLe), pattern, maximum);
  }

  /** The walk's own order cannot show: permuted listings of distinct paths are
      searched as the same file list, hence answered alike. */
  lemma WalkOrderIrrelevant(a: seq<Entry>, b: seq<Entry>)
    requires multiset(a) == multiset(b)
    requires forall x, y :: x in a && y in a && x.path == y.path ==> x == y
    ensures InPathOrder(a) == InPathOrder(b)
  {
    ImageIgnoresOrder(a, b, FileOf);
    TextKeyOrders(PathLe, (f: File) => f.path);
    var files := Image(a, FileOf);
    forall x, y | x in files && y in files && PathLe(x, y) && PathLe(y, x) ensures x == y {
      var p := FileOrigin(a, x);
      var q := FileOrigin(a, y);
    }
    SortedIgnoresOrder(Image(a, FileOf), Image(b, FileOf), PathLe);
  }

  lemma {:induction false} FileOrigin(entries: seq<Entry>, file: File) returns (entry: Entry)
    requires file in Image(entries, FileOf)
    ensures entry in entries && FileOf(entry) == [file]
  {
    if file in FileOf(entries[0]) {
      entry := entries[0];
    } else {
      entry := FileOrigin(entries[1..], file);
    }
  }

  /** A file with the single line `a`, searched for `a` with maximum 1: the one match is
      returned whole and still marked truncated. */
  lemma FlaggedUncut(path: string)
    requires |Encode(path)| <= 4096
    ensures var file := File(path, 1, Some("a"));
            var found := Match(path, 1, "a", false);
            AllMatches([file], "a") == [found] && Answers(Ok([found], true), [file], "a", 1)
  {
    var file, found := File(path, 1, Some("a")), Match(path, 1, "a", false);
    OneMatch(path);
    assert [file][..0] == [];
    assert AllMatches([file], "a") == [] + FileMatches(file, "a") == [found];
    assert [found][..0] == [];
    assert Encode("a") == EncodeChar('a') + Encode([]);
    assert Rendered([found]) == Cost(found) <= MAX_RENDERED_BYTES;
    assert [file][..1] == [file];
    assert Scanned([file]) == 1;
  }

  lemma OneMatch(path: string)
    ensures LineMatches(path, RustLines("a"), 1, "a") == [Match(path, 1, "a", false)]
  {
    assert "a"[1..] == [] && SplitLines([]) == [""] && [""][1..] == [];
    assert ['a'] + "" == "a";
    assert SplitLines("a") == [['a'] + ""] + [] == ["a"];
    assert OccursAt("a", "a", 0);
    FitCountIsLongest("a", SNIPPET_BYTES);
    assert Encode("a") == EncodeChar('a') + Encode([]);
    assert FitCount("a", SNIPPET_BYTES) == 1;
    assert "a"[..1] == "a";
  }
}
