/**
 * Reading the output of `git log` and `git diff`, in which NULs separate everything, and moving upstream paths to local
 * ones.
 */
module GitLog {
  import opened Optional
  import opened Ordering
  import opened StableSort
  import opened Text

  const NUL: char := '\0'

  const COMMIT_MARK := "NC-COMMIT"

  const UNCLASSIFIED := "unclassified"

  /** A commit while its changes are read. */
  datatype Current = Current(sha: string, subject: string, paths: seq<string>)

  datatype Commit = Commit(sha: string, subject: string, paths: seq<string>, areas: seq<string>, disposition: string)

  // ---- sorted lists of distinct texts ----

  /** The elements of a set in the order of insertion. */
  function Distinct(texts: seq<string>): seq<string> {
    if texts == [] then []
    else
      var earlier, last := Distinct(texts[..|texts| - 1]), texts[|texts| - 1];
      if last in earlier then earlier else earlier + [last]
  }

  function SortedSet(texts: seq<string>): seq<string> {
    Sorted(CompareStrings, Distinct(texts))
  }

  /** By code points, and no text twice. */
  predicate Ascending(texts: seq<string>) {
    forall i, j :: 0 <= i < j < |texts| ==> CompareStrings(texts[i], texts[j]) < 0
  }

  lemma {:induction false} DistinctFacts(texts: seq<string>)
    ensures forall text :: text in Distinct(texts) <==> text in texts
    ensures forall i, j :: 0 <= i < j < |Distinct(texts)| ==> Distinct(texts)[i] != Distinct(texts)[j]
  {
    if texts != [] {
      var n := |texts| - 1;
      DistinctFacts(texts[..n]);
      assert texts == texts[..n] + [texts[n]];
    }
  }

  /** The sorted list holds each text once, in ascending order, and no other. */
  lemma SortedSetFacts(texts: seq<string>)
    ensures Ascending(SortedSet(texts))
    ensures forall text :: text in SortedSet(texts) <==> text in texts
  {
    var distinct, sorted := Distinct(texts), SortedSet(texts);
    DistinctFacts(texts);
    CompareStringsIsTotalPreorder();
    SortedIsOrdered(CompareStrings, distinct);
    SortedKeepsElements(CompareStrings, distinct);
    SortedStaysDistinct(CompareStrings, distinct);
    forall i, j | 0 <= i < j < |sorted| ensures CompareStrings(sorted[i], sorted[j]) < 0 {
      if CompareStrings(sorted[i], sorted[j]) == 0 {
        CompareStringsZero(sorted[i], sorted[j]);
      }
    }
  }

  /** So there is only one such list. */
  lemma {:induction false} AscendingIsUnique(a: seq<string>, b: seq<string>)
    requires Ascending(a) && Ascending(b) && forall text :: text in a <==> text in b
    ensures a == b
  {
    assert a != [] ==> a[0] in a;
    assert b != [] ==> b[0] in b;
    if a != [] && b != [] {
      SameLeast(a, b);
      RestHasOthers(a);
      RestHasOthers(b);
      AscendingIsUnique(a[1..], b[1..]);
      assert a == [a[0]] + a[1..] && b == [b[0]] + b[1..];
    }
  }

  lemma SameLeast(a: seq<string>, b: seq<string>)
    requires Ascending(a) && Ascending(b) && a != [] && b != [] && forall text :: text in a <==> text in b
    ensures a[0] == b[0]
  {
    CompareStringsIsTotalPreorder();
    assert a[0] in b && b[0] in a;
    assert CompareStrings(a[0], b[0]) < 0 <==> CompareStrings(b[0], a[0]) > 0;
  }

  lemma RestHasOthers(a: seq<string>)
    requires Ascending(a) && a != []
    ensures Ascending(a[1..]) && forall text :: text in a[1..] <==> text in a && text != a[0]
  {
    CompareStringsIsTotalPreorder();
    assert CompareStrings(a[0], a[0]) < 0 <==> CompareStrings(a[0], a[0]) > 0;
    assert a == [a[0]] + a[1..];
  }

  // ---- areas ----

  function ClassifyUpstreamPath(path: string): string {
    if "apps/web/" <= path then "web"
    else if "apps/server/" <= path then "server"
    else if "apps/mobile/" <= path then "mobile"
    else if "apps/desktop/" <= path then "desktop"
    else if "apps/marketing/" <= path then "marketing"
    else if "packages/contracts/" <= path then "contracts"
    else if "packages/client-runtime/" <= path then "client-runtime"
    else if "packages/shared/" <= path then "shared"
    else if "scripts/" <= path then "scripts"
    else if "docs/" <= path then "docs"
    else if "assets/" <= path then "assets"
    else if ".github/" <= path then "ci"
    else "root-and-tooling"
  }

  function Areas(paths: seq<string>): seq<string> {
    SortedSet(seq(|paths|, k requires 0 <= k < |paths| => ClassifyUpstreamPath(paths[k])))
  }

  /** The areas of a commit are those of its paths, each once and in order. */
  lemma AreasFacts(paths: seq<string>)
    ensures Ascending(Areas(paths))
    ensures forall area :: area in Areas(paths) <==> exists path :: path in paths && ClassifyUpstreamPath(path) == area
  {
    hide ClassifyUpstreamPath;
    var classified := seq(|paths|, k requires 0 <= k < |paths| => ClassifyUpstreamPath(paths[k]));
    SortedSetFacts(classified);
    forall area ensures area in classified <==> exists path :: path in paths && ClassifyUpstreamPath(path) == area {
      if path :| path in paths && ClassifyUpstreamPath(path) == area {
        var k :| 0 <= k < |paths| && paths[k] == path;
        assert classified[k] == area;
      }
    }
  }

  // ---- the reader ----

  /** How many paths follow a status: two after a rename or copy with its score, one after a plain letter. */
  function NameStatusPathCount(status: string): (count: nat)
    ensures count <= 2
  {
    if |status| >= 2 && status[0] in {'R', 'C'} && AllDigits(status[1..]) then 2
    else if |status| == 1 && status[0] in {'A', 'B', 'D', 'M', 'R', 'T', 'U', 'X'} then 1
    else 0
  }

  function DropNewline(token: string): string {
    if token != "" && token[0] == '\n' then token[1..] else token
  }

  function TokenOr(tokens: seq<string>, k: nat): string {
    if k < |tokens| then tokens[k] else ""
  }

  function First(tokens: seq<string>, n: nat): seq<string> {
    if n <= |tokens| then tokens[..n] else tokens
  }

  function After(tokens: seq<string>, n: nat): seq<string> {
    if n <= |tokens| then tokens[n..] else []
  }

  function Finish(current: Current): Commit {
    Commit(current.sha, current.subject, current.paths, Areas(current.paths), UNCLASSIFIED)
  }

  function Finished(current: Option<Current>): seq<Commit> {
    if current.Some? then [Finish(current.value)] else []
  }

  /** The commits the remaining tokens give, the one being read included. */
  function Read(tokens: seq<string>, current: Option<Current>): seq<Commit>
    decreases |tokens|
  {
    if tokens == [] then Finished(current)
    else
      var token, rest := DropNewline(tokens[0]), tokens[1..];
      if tokens[0] == "" then Read(rest, current)
      else if token == COMMIT_MARK then
        Finished(current) + Read(After(rest, 2), Some(Current(TokenOr(rest, 0), TokenOr(rest, 1), [])))
      else if current.None? then Read(rest, current)
      else
        var count := NameStatusPathCount(token);
        Read(After(rest, count), Some(current.value.(paths := current.value.paths + First(rest, count))))
  }

  function Parse(output: string): seq<Commit> {
    Read(SplitOn(output, NUL), None)
  }

  lemma ReadNothing(current: Option<Current>)
    ensures Read([], current) == Finished(current)
  {
  }

  lemma ReadBlank(rest: seq<string>, current: Option<Current>)
    ensures Read([""] + rest, current) == Read(rest, current)
  {
    assert ([""] + rest)[1..] == rest;
  }

  lemma ReadMark(token: string, rest: seq<string>, current: Option<Current>)
    requires token != "" && DropNewline(token) == COMMIT_MARK
    ensures Read([token] + rest, current) ==
      Finished(current) + Read(After(rest, 2), Some(Current(TokenOr(rest, 0), TokenOr(rest, 1), [])))
  {
    assert ([token] + rest)[1..] == rest;
  }

  lemma ReadOutside(token: string, rest: seq<string>)
    requires token != "" && DropNewline(token) != COMMIT_MARK
    ensures Read([token] + rest, None) == Read(rest, None)
  {
    assert ([token] + rest)[1..] == rest;
  }

  lemma ReadStatus(token: string, rest: seq<string>, current: Current)
    requires token != "" && DropNewline(token) != COMMIT_MARK
    ensures var count := NameStatusPathCount(DropNewline(token));
      Read([token] + rest, Some(current)) ==
        Read(After(rest, count), Some(current.(paths := current.paths + First(rest, count))))
  {
    assert ([token] + rest)[1..] == rest;
  }

  lemma ReadMarkAfter(commits: seq<Commit>, token: string, rest: seq<string>, current: Option<Current>)
    requires token != "" && DropNewline(token) == COMMIT_MARK
    ensures commits + Read([token] + rest, current) ==
      commits + Finished(current) + Read(After(rest, 2), Some(Current(TokenOr(rest, 0), TokenOr(rest, 1), [])))
  {
    ReadMark(token, rest, current);
  }

  method ParseUpstreamGitLog(output: string) returns (commits: seq<Commit>)
    ensures commits == Parse(output)
  {
    var tokens := SplitOn(output, NUL);
    hide Read, SplitOn, NameStatusPathCount, DropNewline, Finished;
    commits := [];
    var current: Option<Current> := None;
    var index := 0;
    assert After(tokens, 0) == tokens;
    while index < |tokens|
      invariant 0 <= index
      invariant Read(tokens, None) == commits + Read(After(tokens, index), current)
      decreases |tokens| - index
    {
      ghost var rest := After(tokens, index + 1);
      assert After(tokens, index) == [tokens[index]] + rest;
      var rawToken := tokens[index];
      index := index + 1;
      if rawToken == "" {
        ReadBlank(rest, current);
        continue;
      }
      var token := DropNewline(rawToken);
      if token == COMMIT_MARK {
        ReadMarkAfter(commits, rawToken, rest, current);
        assert After(tokens, index + 2) == After(rest, 2);
        assert TokenOr(rest, 0) == TokenOr(tokens, index) && TokenOr(rest, 1) == TokenOr(tokens, index + 1);
        commits := commits + Finished(current);
        current := Some(Current(TokenOr(tokens, index), TokenOr(tokens, index + 1), []));
        index := index + 2;
        continue;
      }
      if current.None? {
        ReadOutside(rawToken, rest);
        continue;
      }
      ReadStatus(rawToken, rest, current.value);
      var pathCount := NameStatusPathCount(token);
      assert After(tokens, index + pathCount) == After(rest, pathCount);
      var paths := ReadPaths(tokens, index, pathCount);
      current := Some(current.value.(paths := current.value.paths + paths));
      index := index + pathCount;
    }
    ReadNothing(current);
    assert After(tokens, index) == [];
    commits := commits + Finished(current);
  }

  /** The inner loop: paths that are there. */
  method ReadPaths(tokens: seq<string>, index: nat, pathCount: nat) returns (paths: seq<string>)
    requires index <= |tokens|
    ensures paths == First(tokens[index..], pathCount)
  {
    paths := [];
    for pathIndex := 0 to pathCount
      invariant paths == First(tokens[index..], pathIndex)
    {
      if index + pathIndex < |tokens| {
        paths := paths + [tokens[index + pathIndex]];
      }
    }
  }

  // ---- what git writes ----

  /** A change of one file: its letter, or for renames and copies a score and both paths. */
  datatype Change = Plain(letter: char, path: string) | Moved(letter: char, score: string, from: string, to: string)

  datatype Logged = Logged(sha: string, subject: string, changes: seq<Change>)

  predicate IsChange(change: Change) {
    match change
    case Plain(letter, path) => letter in {'A', 'B', 'D', 'M', 'R', 'T', 'U', 'X'} && NUL !in path
    case Moved(letter, score, from, to) =>
      letter in {'R', 'C'} && score != "" && AllDigits(score) && NUL !in from && NUL !in to
  }

  predicate IsLogged(logged: Logged) {
    && NUL !in logged.sha && NUL !in logged.subject
    && forall k :: 0 <= k < |logged.changes| ==> IsChange(logged.changes[k])
  }

  function Status(change: Change): string {
    match change
    case Plain(letter, _) => [letter]
    case Moved(letter, score, _, _) => [letter] + score
  }

  function Paths(change: Change): seq<string> {
    match change
    case Plain(_, path) => [path]
    case Moved(_, _, from, to) => [from, to]
  }

  function AllPaths(changes: seq<Change>): seq<string> {
    if changes == [] then [] else Paths(changes[0]) + AllPaths(changes[1..])
  }

  /** The first status of a commit stands on a new line. */
  function ChangeTokens(changes: seq<Change>, newline: bool): seq<string> {
    if changes == [] then []
    else [(if newline then "\n" else "") + Status(changes[0])] + Paths(changes[0]) + ChangeTokens(changes[1..], false)
  }

  /** The mark, the hash, the subject, an empty token, the changes. */
  function CommitTokens(logged: Logged): seq<string> {
    [COMMIT_MARK, logged.sha, logged.subject, ""] + ChangeTokens(logged.changes, true)
  }

  function LogTokens(log: seq<Logged>): seq<string> {
    if log == [] then [] else CommitTokens(log[0]) + LogTokens(log[1..])
  }

  /** The whole output ends in a NUL. */
  function Rendered(log: seq<Logged>): string {
    Join(LogTokens(log) + [""], NUL)
  }

  function ReadBack(logged: Logged): Current {
    Current(logged.sha, logged.subject, AllPaths(logged.changes))
  }

  function Commits(log: seq<Logged>): seq<Commit> {
    seq(|log|, k requires 0 <= k < |log| => Finish(ReadBack(log[k])))
  }

  // ---- round trip ----

  lemma StatusFacts(change: Change, newline: bool)
    requires IsChange(change)
    ensures var token := (if newline then "\n" else "") + Status(change);
      && token != "" && DropNewline(token) == Status(change)
      && Status(change) != COMMIT_MARK && NameStatusPathCount(Status(change)) == |Paths(change)|
      && NUL !in token && forall path :: path in Paths(change) ==> NUL !in path
  {
    var token := (if newline then "\n" else "") + Status(change);
    assert newline ==> token[1..] == Status(change);
    match change
    case Plain(letter, path) =>
    case Moved(letter, score, from, to) =>
      assert Status(change)[1..] == score;
      assert Status(change)[0] != COMMIT_MARK[0];
      forall k | 0 <= k < |score| ensures score[k] != NUL {
      }
  }

  lemma ReadOneChange(change: Change, newline: bool, more: seq<string>, current: Current)
    requires IsChange(change)
    ensures Read([(if newline then "\n" else "") + Status(change)] + Paths(change) + more, Some(current)) ==
      Read(more, Some(current.(paths := current.paths + Paths(change))))
  {
    hide Read, IsChange, NameStatusPathCount, DropNewline;
    StatusFacts(change, newline);
    var token := (if newline then "\n" else "") + Status(change);
    var rest := Paths(change) + more;
    assert [token] + Paths(change) + more == [token] + rest;
    ReadStatus(token, rest, current);
    assert First(rest, |Paths(change)|) == Paths(change) && After(rest, |Paths(change)|) == more;
  }

  lemma {:induction false} ReadChanges(changes: seq<Change>, newline: bool, rest: seq<string>, current: Current)
    requires forall k :: 0 <= k < |changes| ==> IsChange(changes[k])
    ensures Read(ChangeTokens(changes, newline) + rest, Some(current)) ==
      Read(rest, Some(current.(paths := current.paths + AllPaths(changes))))
    decreases |changes|
  {
    hide IsChange, Status, Paths, Read;
    if changes == [] {
      assert ChangeTokens(changes, newline) + rest == rest;
      assert current.paths + [] == current.paths;
    } else {
      var head := [(if newline then "\n" else "") + Status(changes[0])] + Paths(changes[0]);
      var more := ChangeTokens(changes[1..], false) + rest;
      assert ChangeTokens(changes, newline) + rest == head + more;
      ReadOneChange(changes[0], newline, more, current);
      var next := current.(paths := current.paths + Paths(changes[0]));
      ReadChanges(changes[1..], false, rest, next);
      assert next.paths + AllPaths(changes[1..]) == current.paths + AllPaths(changes);
    }
  }

  lemma ReadOneCommit(logged: Logged, rest: seq<string>, current: Option<Current>)
    requires IsLogged(logged)
    ensures Read(CommitTokens(logged) + rest, current) == Finished(current) + Read(rest, Some(ReadBack(logged)))
  {
    hide Read, ChangeTokens, AllPaths;
    var more := ChangeTokens(logged.changes, true) + rest;
    var tail := [logged.sha, logged.subject] + ([""] + more);
    assert CommitTokens(logged) + rest == [COMMIT_MARK] + tail;
    ReadMark(COMMIT_MARK, tail, current);
    assert After(tail, 2) == [""] + more;
    var open := Current(logged.sha, logged.subject, []);
    ReadBlank(more, Some(open));
    ReadChanges(logged.changes, true, rest, open);
    assert [] + AllPaths(logged.changes) == AllPaths(logged.changes);
  }

  lemma {:induction false} ReadLog(log: seq<Logged>, current: Option<Current>)
    requires forall k :: 0 <= k < |log| ==> IsLogged(log[k])
    ensures Read(LogTokens(log) + [""], current) == Finished(current) + Commits(log)
    decreases |log|
  {
    hide Read, CommitTokens, IsLogged, Finish;
    if log == [] {
      assert [] + [""] == [""] + [];
      ReadBlank([], current);
      ReadNothing(current);
    } else {
      var rest := LogTokens(log[1..]) + [""];
      assert LogTokens(log) + [""] == CommitTokens(log[0]) + rest;
      ReadOneCommit(log[0], rest, current);
      ReadLog(log[1..], Some(ReadBack(log[0])));
      assert Commits(log) == [Finish(ReadBack(log[0]))] + Commits(log[1..]);
    }
  }

  lemma {:induction false} ChangeTokensHaveNoNul(changes: seq<Change>, newline: bool)
    requires forall k :: 0 <= k < |changes| ==> IsChange(changes[k])
    ensures forall k :: 0 <= k < |ChangeTokens(changes, newline)| ==> NUL !in ChangeTokens(changes, newline)[k]
    decreases |changes|
  {
    hide IsChange, NameStatusPathCount, Status, Paths, DropNewline;
    if changes != [] {
      StatusFacts(changes[0], newline);
      ChangeTokensHaveNoNul(changes[1..], false);
    }
  }

  lemma {:induction false} LogTokensHaveNoNul(log: seq<Logged>)
    requires forall k :: 0 <= k < |log| ==> IsLogged(log[k])
    ensures forall k :: 0 <= k < |LogTokens(log)| ==> NUL !in LogTokens(log)[k]
  {
    if log != [] {
      ChangeTokensHaveNoNul(log[0].changes, true);
      LogTokensHaveNoNul(log[1..]);
    }
  }

  /**
   * Every log is read back, with the paths in order: whatever its hashes, subjects and paths say, so long as they hold
   * no NUL.
   */
  lemma RenderedLogReadsBack(log: seq<Logged>)
    requires forall k :: 0 <= k < |log| ==> IsLogged(log[k])
    ensures Parse(Rendered(log)) == Commits(log)
  {
    LogTokensHaveNoNul(log);
    SplitOfJoin(LogTokens(log) + [""], NUL);
    ReadLog(log, None);
  }

  // ---- the paths of a diff ----

  function DiffPaths(tokens: seq<string>): set<string>
    decreases |tokens|
  {
    if tokens == [] then {}
    else
      var count, rest := NameStatusPathCount(tokens[0]), tokens[1..];
      (set path | path in First(rest, count)) + DiffPaths(After(rest, count))
  }

  lemma DiffStep(token: string, rest: seq<string>)
    ensures var count := NameStatusPathCount(token);
      DiffPaths([token] + rest) == (set path | path in First(rest, count)) + DiffPaths(After(rest, count))
  {
    assert ([token] + rest)[1..] == rest;
  }

  /** A letter, or a rename or copy with its score. */
  predicate IsStatus(token: string) {
    || token in {"A", "B", "D", "M", "R", "T", "U", "X"}
    || (|token| > 1 && (token[0] == 'R' || token[0] == 'C') && forall k :: 1 <= k < |token| ==> '0' <= token[k] <= '9')
  }

  /** A token that is no status is passed over, with nothing taken after it. */
  lemma OthersAreSkipped(token: string, rest: seq<string>)
    requires !IsStatus(token)
    ensures NameStatusPathCount(token) == 0 && DiffPaths([token] + rest) == DiffPaths(rest)
    ensures token != "" && DropNewline(token) == token && token != COMMIT_MARK ==>
      forall current :: Read([token] + rest, Some(current)) == Read(rest, Some(current))
  {
    NoStatusNoPaths(token);
    DiffStep(token, rest);
    assert First(rest, 0) == [] && After(rest, 0) == rest;
    if token != "" && DropNewline(token) == token && token != COMMIT_MARK {
      forall current ensures Read([token] + rest, Some(current)) == Read(rest, Some(current)) {
        ReadStatus(token, rest, current);
        assert current.paths + [] == current.paths;
      }
    }
  }

  lemma NoStatusNoPaths(token: string)
    ensures NameStatusPathCount(token) > 0 <==> IsStatus(token)
  {
    if |token| == 1 {
      assert token == [token[0]];
    }
    if |token| > 1 {
      assert forall k :: 1 <= k < |token| ==> token[k] == token[1..][k - 1];
    }
  }

  /** The paths are collected in the order of insertion, and sorted. */
  method ParseNameStatusPaths(output: string) returns (sorted: seq<string>)
    ensures Ascending(sorted)
    ensures forall path :: path in sorted <==> path in DiffPaths(SplitOn(output, NUL))
  {
    var tokens := SplitOn(output, NUL);
    hide DiffPaths, SplitOn, NameStatusPathCount, Distinct, SortedSet, Ascending;
    var paths: seq<string> := [];
    ghost var added: seq<string> := [];
    var index := 0;
    assert After(tokens, 0) == tokens;
    NothingDistinct();
    while index < |tokens|
      invariant 0 <= index && paths == Distinct(added)
      invariant DiffPaths(tokens) == (set path | path in added) + DiffPaths(After(tokens, index))
      decreases |tokens| - index
    {
      ghost var rest := After(tokens, index + 1);
      assert After(tokens, index) == [tokens[index]] + rest;
      DiffStep(tokens[index], rest);
      var pathCount := NameStatusPathCount(tokens[index]);
      index := index + 1;
      assert After(tokens, index + pathCount) == After(rest, pathCount);
      var read := ReadPaths(tokens, index, pathCount);
      paths := AddAll(paths, read, added);
      added := added + read;
      index := index + pathCount;
    }
    assert After(tokens, index) == [];
    NoDiff();
    SortedSetFacts(added);
    SortedSetOf(added);
    return Sorted(CompareStrings, paths);
  }

  method AddAll(paths: seq<string>, more: seq<string>, ghost added: seq<string>) returns (all: seq<string>)
    requires paths == Distinct(added)
    ensures all == Distinct(added + more)
  {
    all := paths;
    assert added + more[..0] == added;
    for k := 0 to |more|
      invariant all == Distinct(added + more[..k])
    {
      assert added + more[..k + 1] == (added + more[..k]) + [more[k]];
      DistinctOneMore(added + more[..k], more[k]);
      if more[k] !in all {
        all := all + [more[k]];
      }
    }
    assert more[..|more|] == more;
  }

  lemma DistinctOneMore(texts: seq<string>, text: string)
    ensures Distinct(texts + [text]) == if text in Distinct(texts) then Distinct(texts) else Distinct(texts) + [text]
  {
    assert (texts + [text])[..|texts|] == texts;
  }

  lemma NothingDistinct()
    ensures Distinct([]) == []
  {
  }

  lemma SortedSetOf(texts: seq<string>)
    ensures SortedSet(texts) == Sorted(CompareStrings, Distinct(texts))
  {
  }

  lemma NoDiff()
    ensures DiffPaths([]) == {}
  {
  }

  lemma DiffOfOne(change: Change, more: seq<string>)
    requires IsChange(change)
    ensures DiffPaths([Status(change)] + Paths(change) + more) == (set path | path in Paths(change)) + DiffPaths(more)
  {
    hide IsChange, NameStatusPathCount, DropNewline;
    StatusFacts(change, false);
    assert "" + Status(change) == Status(change);
    var rest := Paths(change) + more;
    var tokens := [Status(change)] + Paths(change) + more;
    assert tokens[1..] == rest;
    assert First(rest, |Paths(change)|) == Paths(change) && After(rest, |Paths(change)|) == more;
    StatusHasPaths(change);
  }

  lemma StatusHasPaths(change: Change)
    requires IsChange(change)
    ensures NameStatusPathCount(Status(change)) == |Paths(change)|
  {
    StatusFacts(change, false);
  }

  lemma {:induction false} DiffReadsBack(changes: seq<Change>)
    requires forall k :: 0 <= k < |changes| ==> IsChange(changes[k])
    ensures DiffPaths(ChangeTokens(changes, false) + [""]) == set path | path in AllPaths(changes)
  {
    if changes == [] {
      assert [] + [""] == [""] && [""][1..] == [];
    } else {
      hide IsChange, NameStatusPathCount, Status, Paths, DiffPaths;
      var more := ChangeTokens(changes[1..], false) + [""];
      assert "" + Status(changes[0]) == Status(changes[0]);
      assert ChangeTokens(changes, false) + [""] == [Status(changes[0])] + Paths(changes[0]) + more;
      DiffOfOne(changes[0], more);
      DiffReadsBack(changes[1..]);
    }
  }

  /** The paths of every diff git writes are found, both of a rename, and nothing else. */
  lemma RenderedDiffReadsBack(changes: seq<Change>)
    requires forall k :: 0 <= k < |changes| ==> IsChange(changes[k])
    ensures DiffPaths(SplitOn(Join(ChangeTokens(changes, false) + [""], NUL), NUL)) ==
      set path | path in AllPaths(changes)
  {
    ChangeTokensHaveNoNul(changes, false);
    SplitOfJoin(ChangeTokens(changes, false) + [""], NUL);
    DiffReadsBack(changes);
  }

  // ---- local paths ----

  datatype Mapping = Mapping(upstreamPrefix: string, localPrefix: string)

  function Matching(path: string, mappings: seq<Mapping>): seq<Mapping> {
    if mappings == [] then []
    else (if mappings[0].upstreamPrefix <= path then [mappings[0]] else []) + Matching(path, mappings[1..])
  }

  /** Longer prefixes first, then by the collation of the host. */
  function PrefixOrder(collate: (string, string) -> int): (Mapping, Mapping) -> int {
    (left: Mapping, right: Mapping) =>
      if |right.upstreamPrefix| != |left.upstreamPrefix| then |right.upstreamPrefix| - |left.upstreamPrefix|
      else collate(left.upstreamPrefix, right.upstreamPrefix)
  }

  function TranslateUpstreamPath(collate: (string, string) -> int, path: string, mappings: seq<Mapping>): string {
    var sorted := Sorted(PrefixOrder(collate), Matching(path, mappings));
    if sorted == [] || |sorted[0].upstreamPrefix| > |path| then path
    else sorted[0].localPrefix + path[|sorted[0].upstreamPrefix|..]
  }

  lemma {:induction false} MatchingFacts(path: string, mappings: seq<Mapping>)
    ensures forall m :: m in Matching(path, mappings) <==> m in mappings && m.upstreamPrefix <= path
  {
    if mappings != [] {
      MatchingFacts(path, mappings[1..]);
    }
  }

  lemma PrefixOrderIsTotalPreorder(collate: (string, string) -> int)
    requires TotalPreorder(collate)
    ensures TotalPreorder(PrefixOrder(collate))
  {
    var cmp := PrefixOrder(collate);
    forall a, b ensures cmp(a, b) < 0 <==> cmp(b, a) > 0 {
      assert collate(a.upstreamPrefix, b.upstreamPrefix) < 0 <==> collate(b.upstreamPrefix, a.upstreamPrefix) > 0;
    }
    forall a, b, c | cmp(a, b) <= 0 && cmp(b, c) <= 0 ensures cmp(a, c) <= 0 {
      AtMostThroughPrefixes(collate, a.upstreamPrefix, b.upstreamPrefix, c.upstreamPrefix);
    }
  }

  lemma AtMostThroughPrefixes(collate: (string, string) -> int, a: string, b: string, c: string)
    requires TotalPreorder(collate)
    ensures collate(a, b) <= 0 && collate(b, c) <= 0 ==> collate(a, c) <= 0
  {
  }

  /**
   * The mapping used is one with the longest prefix that matches, whatever the collation; without a match the path
   * stays.
   */
  lemma LongestPrefixWins(collate: (string, string) -> int, path: string, mappings: seq<Mapping>)
    requires TotalPreorder(collate)
    ensures var local := TranslateUpstreamPath(collate, path, mappings);
      if exists m :: m in mappings && m.upstreamPrefix <= path then
        exists m :: && m in mappings && m.upstreamPrefix <= path && local == m.localPrefix + path[|m.upstreamPrefix|..]
                    && forall other :: other in mappings && other.upstreamPrefix <= path ==>
                      |other.upstreamPrefix| <= |m.upstreamPrefix|
      else local == path
  {
    hide TotalPreorder, Matching, Sorted;
    var matching := Matching(path, mappings);
    MatchingFacts(path, mappings);
    if matching == [] {
      SortedNothing(PrefixOrder(collate));
    } else {
      PrefixOrderIsTotalPreorder(collate);
      var i := SortedHead(PrefixOrder(collate), matching);
      var m := matching[i];
      assert m in matching;
      forall other | other in mappings && other.upstreamPrefix <= path
        ensures |other.upstreamPrefix| <= |m.upstreamPrefix|
      {
        assert other in matching;
        var j :| 0 <= j < |matching| && matching[j] == other;
        assert PrefixOrder(collate)(m, other) <= 0;
      }
    }
  }

  lemma SortedNothing(cmp: (Mapping, Mapping) -> int)
    ensures Sorted(cmp, []) == []
  {
  }
}
